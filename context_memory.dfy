/**
 * `ContextMemory`, the public client: `add` runs the update phase on the
 * facts the extraction phase produced, `search` ranks a conversation's
 * memories against a query, and `update` and `delete` change one stored
 * memory by id, failing with a `ValueError` when there is none.
 */
module ContextMemoryApi {
  import opened Wrappers
  import opened Sequences
  import opened Strings
  import opened Ranking
  import opened Store
  import opened SimilarMemorySearch
  import opened UpdatePhase

  /** One entry of `results`: `{"memory_id", "memory", "score"}`. */
  datatype Hit = Hit(memoryId: Id, memory: string, score: real)

  /** `{"query": query, "results": results}`. */
  datatype SearchResponse = SearchResponse(query: string, results: seq<Hit>)

  /** `{"deleted_memory_id": memory_id}`. */
  datatype DeletedResponse = DeletedResponse(deletedMemoryId: Id)

  /** The exception `update` and `delete` raise for an id that is not stored. */
  datatype ApiError = ValueError(message: string)

  // ---------------------------------------------------------- search spec

  /** The formatted entries for the ranked pairs `top`, with scores rounded to four decimals. */
  function Hits(rows: map<Id, Memory>, top: seq<Scored<Id>>, orc: Oracles): seq<Hit>
    requires forall i :: 0 <= i < |top| ==> top[i].item in rows
  {
    seq(|top|, i requires 0 <= i < |top| => Hit(top[i].item, rows[top[i].item].text, orc.round4(top[i].score)))
  }

  /** The ranked pairs behind `Similar`: each a stored memory with its unrounded score. */
  function Ranked(t: Table, conv: int, emb: Embedding, limit: int, orc: Oracles): (top: seq<Scored<Id>>)
    requires t.Valid()
    ensures Items(top) == Similar(t, conv, emb, limit, orc)
    ensures forall i :: 0 <= i < |top| ==> top[i].item in t.rows && top[i].score == Score(t.rows[top[i].item], emb, orc)
  {
    var ids := ConversationIds(t, conv);
    var s := ScoreAll(t.rows, ids, emb, orc);
    var top := TopK(s, limit);
    forall i | 0 <= i < |top|
      ensures top[i].item in t.rows && top[i].score == Score(t.rows[top[i].item], emb, orc)
    {
      ScoreAllScore(t.rows, ids, emb, orc, s, top[i]);
    }
    top
  }

  /**
   * The entries `search` returns: the memories `search_similar_memories`
   * would return for the embedded query, in the same order (`SearchHit`
   * states each entry).
   */
  function SearchResults(t: Table, conv: int, query: string, limit: int, orc: Oracles): (r: seq<Hit>)
    requires t.Valid()
    ensures |r| == |Similar(t, conv, orc.embed(query), limit, orc)|
  {
    Hits(t.rows, Ranked(t, conv, orc.embed(query), limit, orc), orc)
  }

  /** Entry `i` of the results: the `i`-th memory `Similar` ranks, its text, and its score rounded to four decimals. */
  lemma SearchHit(t: Table, conv: int, query: string, limit: int, orc: Oracles, i: int)
    requires t.Valid() && 0 <= i < |SearchResults(t, conv, query, limit, orc)|
    ensures var id := Similar(t, conv, orc.embed(query), limit, orc)[i];
      && id in t.rows
      && SearchResults(t, conv, query, limit, orc)[i] == Hit(id, t.rows[id].text, orc.round4(Score(t.rows[id], orc.embed(query), orc)))
  {
    var top := Ranked(t, conv, orc.embed(query), limit, orc);
    assert Items(top)[i] == top[i].item;
  }

  /** `round(x, 4)` never reorders two scores. */
  ghost predicate RoundsMonotonically(orc: Oracles)
  {
    forall x: real, y: real {:trigger orc.round4(x), orc.round4(y)} :: x <= y ==> orc.round4(x) <= orc.round4(y)
  }

  // ------------------------------------------------------ error messages

  /** The message `update` raises with, as written: the braces are literal text. */
  const UPDATE_NOT_FOUND: string := "Memory with {memory_id} not found"

  /** The message `delete` raises with, as written. */
  const DELETE_NOT_FOUND: string := "Memory with this {memory_id} not found"

  /** The message `update` evidently means to raise: the id printed in it. */
  function UpdateNotFound(id: Id): (r: string)
    ensures |r| == 22 + |IntToString(id)|
    ensures r[..12] == "Memory with " && r[|r| - 10..] == " not found"
    ensures r[12..|r| - 10] == IntToString(id)
  {
    "Memory with " + IntToString(id) + " not found"
  }

  /** The message `delete` evidently means to raise. */
  function DeleteNotFound(id: Id): (r: string)
    ensures |r| == 27 + |IntToString(id)|
    ensures r[..17] == "Memory with this " && r[|r| - 10..] == " not found"
    ensures r[17..|r| - 10] == IntToString(id)
  {
    "Memory with this " + IntToString(id) + " not found"
  }

  // ---------------------------------------------------------------- client

  class ContextMemory {
    const db: Session

    constructor (db: Session)
      ensures this.db == db
    {
      this.db := db;
    }

    /**
     * `add(messages, conversation_id)`, given the candidate facts the
     * extraction phase produced: nothing happens and `[]` is returned
     * when there are none; otherwise the update phase runs and the facts
     * are returned, or its error is raised.
     */
    method Add(facts: seq<string>, conv: int, now: Time, orc: Oracles, d: Decider, defaults: Memory)
      returns (r: Result<seq<string>, PhaseError>)
      requires db.Valid()
      modifies db
      ensures db.Valid()
      ensures facts == [] ==>
        r == Ok([]) && db.table == old(db.table) && db.committed == old(db.committed) && db.commits == old(db.commits)
      ensures facts != [] ==>
        var run := Run(old(db.table), facts, conv, now, orc, d, defaults);
        && db.table == run.table
        && (run.error.None? ==> r == Ok(facts) && db.committed == db.table.rows && db.commits == old(db.commits) + 1)
        && (run.error.Some? ==> r == Err(run.error.value) && db.committed == old(db.committed) && db.commits == old(db.commits))
    {
      if facts == [] {
        return Ok([]);
      }
      var error := UpdatePhase.UpdatePhase(db, facts, conv, now, orc, d, defaults);
      if error.Some? {
        return Err(error.value);
      }
      r := Ok(facts);
    }

    /** `search(query, conversation_id, limit)`: scores every memory of the conversation. Changes nothing. */
    method Search(query: string, conv: int, limit: int, orc: Oracles) returns (r: SearchResponse)
      requires db.Valid()
      ensures r == SearchResponse(query, SearchResults(db.table, conv, query, limit, orc))
    {
      var emb := orc.embed(query);
      var memories := ConversationIds(db.table, conv);
      if memories == [] {
        return SearchResponse(query, []);
      }
      var scored: seq<Scored<Id>> := [];
      var i := 0;
      ghost var done: seq<Id> := [];
      while i < |memories|
        invariant 0 <= i <= |memories| && done == memories[..i]
        invariant forall x :: x in done ==> x in db.table.rows
        invariant scored == ScoreAll(db.table.rows, done, emb, orc)
      {
        var id := memories[i];
        assert id in memories;
        var mem := db.table.rows[id];
        ScoreAllSnoc(db.table.rows, done, id, emb, orc);
        PrefixSnoc(memories, i);
        scored := scored + [Scored(Score(mem, emb, orc), id)];
        done := done + [id];
        i := i + 1;
      }
      assert done == memories;
      var top := TopK(scored, limit);
      assert top == Ranked(db.table, conv, emb, limit, orc);
      r := SearchResponse(query, Hits(db.table.rows, top, orc));
    }

    /**
     * `update(memory_id, text)`: a stored memory gets the new text, the
     * text's embedding and a fresh `updated_at`, and the change is
     * committed; an id that is not stored raises, with the message as
     * written (the id is not in it), and changes nothing.
     */
    method Update(id: Id, text: string, now: Time, orc: Oracles) returns (r: Result<Memory, ApiError>)
      requires db.Valid()
      modifies db
      ensures db.Valid()
      ensures id !in old(db.table.rows) ==>
        && r == Err(ValueError(UPDATE_NOT_FOUND))
        && db.table == old(db.table) && db.committed == old(db.committed) && db.commits == old(db.commits)
      ensures id in old(db.table.rows) ==>
        var m := Revised(old(db.table.rows[id]), text, orc.embed(text), now);
        && r == Ok(m)
        && db.table == old(db.table).Replace(id, m)
        && db.committed == db.table.rows && db.commits == old(db.commits) + 1
    {
      var memory := db.Get(id);
      if memory.None? {
        return Err(ValueError(UPDATE_NOT_FOUND));
      }
      var m := Revised(memory.value, text, orc.embed(text), now);
      db.Put(id, m);
      db.Commit();
      r := Ok(m);
    }

    /**
     * `delete(memory_id)`: a stored memory is removed and the removal
     * committed; an id that is not stored raises, with the message as
     * written, and changes nothing.
     */
    method Delete(id: Id) returns (r: Result<DeletedResponse, ApiError>)
      requires db.Valid()
      modifies db
      ensures db.Valid()
      ensures id !in old(db.table.rows) ==>
        && r == Err(ValueError(DELETE_NOT_FOUND))
        && db.table == old(db.table) && db.committed == old(db.committed) && db.commits == old(db.commits)
      ensures id in old(db.table.rows) ==>
        && r == Ok(DeletedResponse(id))
        && db.table == old(db.table).Remove(id)
        && db.committed == db.table.rows && db.commits == old(db.commits) + 1
    {
      var memory := db.Get(id);
      if memory.None? {
        return Err(ValueError(DELETE_NOT_FOUND));
      }
      db.Delete(id);
      db.Commit();
      r := Ok(DeletedResponse(id));
    }
  }

  // ------------------------------------------------------------ properties

  /** A conversation without memories gives no results. */
  lemma SearchEmpty(t: Table, conv: int, query: string, limit: int, orc: Oracles)
    requires t.Valid() && forall x :: x in t.rows ==> t.rows[x].conversationId != conv
    ensures SearchResults(t, conv, query, limit, orc) == []
  {
    var ids := Similar(t, conv, orc.embed(query), limit, orc);
    if ids != [] {
      SimilarInConversation(t, conv, orc.embed(query), limit, orc, ids[0]);
    }
    assert |SearchResults(t, conv, query, limit, orc)| == 0;
  }

  /** At most `limit` results: `min(limit, n)` for `n` memories in the conversation. */
  lemma SearchLength(t: Table, conv: int, query: string, limit: int, orc: Oracles)
    requires t.Valid() && limit >= 0
    ensures var n := |ConversationIds(t, conv)|;
      |SearchResults(t, conv, query, limit, orc)| == if limit <= n then limit else n
  {
    SimilarLength(t, conv, orc.embed(query), limit, orc);
  }

  /** No memory is returned twice, and each returned memory belongs to the conversation. */
  lemma SearchDistinct(t: Table, conv: int, query: string, limit: int, orc: Oracles)
    requires t.Valid()
    ensures var r := SearchResults(t, conv, query, limit, orc);
      && (forall i :: 0 <= i < |r| ==> InConversation(t.rows, r[i].memoryId, conv))
      && (forall i, j :: 0 <= i < j < |r| ==> r[i].memoryId != r[j].memoryId)
  {
    var r := SearchResults(t, conv, query, limit, orc);
    var ids := Similar(t, conv, orc.embed(query), limit, orc);
    SimilarDistinct(t, conv, orc.embed(query), limit, orc);
    forall i | 0 <= i < |r|
      ensures r[i].memoryId == ids[i] && InConversation(t.rows, r[i].memoryId, conv)
    {
      SearchHit(t, conv, query, limit, orc, i);
      SimilarInConversation(t, conv, orc.embed(query), limit, orc, ids[i]);
    }
  }

  /**
   * Results come best first: when rounding is monotone the rounded scores
   * never increase, and equal unrounded scores keep ascending id order.
   */
  lemma SearchSorted(t: Table, conv: int, query: string, limit: int, orc: Oracles, i: int, j: int)
    requires t.Valid() && RoundsMonotonically(orc)
    requires 0 <= i < j < |SearchResults(t, conv, query, limit, orc)|
    ensures var r := SearchResults(t, conv, query, limit, orc);
      && r[i].score >= r[j].score
      && (var si, sj := Score(t.rows[r[i].memoryId], orc.embed(query), orc), Score(t.rows[r[j].memoryId], orc.embed(query), orc);
          si == sj ==> r[i].memoryId < r[j].memoryId)
  {
    var emb := orc.embed(query);
    var ids := Similar(t, conv, emb, limit, orc);
    SimilarSorted(t, conv, emb, limit, orc, i, j);
    SearchHit(t, conv, query, limit, orc, i);
    SearchHit(t, conv, query, limit, orc, j);
    var a, b := Score(t.rows[ids[i]], emb, orc), Score(t.rows[ids[j]], emb, orc);
    assert orc.round4(b) <= orc.round4(a);
  }

  /** Every returned memory scores at least as high as every memory of the conversation left out. */
  lemma SearchDominates(t: Table, conv: int, query: string, limit: int, orc: Oracles, i: int, y: Id)
    requires t.Valid()
    requires 0 <= i < |SearchResults(t, conv, query, limit, orc)|
    requires InConversation(t.rows, y, conv)
    requires forall k :: 0 <= k < |SearchResults(t, conv, query, limit, orc)| ==> SearchResults(t, conv, query, limit, orc)[k].memoryId != y
    ensures var x := SearchResults(t, conv, query, limit, orc)[i].memoryId;
      x in t.rows && Score(t.rows[x], orc.embed(query), orc) >= Score(t.rows[y], orc.embed(query), orc)
  {
    var ids := Similar(t, conv, orc.embed(query), limit, orc);
    var r := SearchResults(t, conv, query, limit, orc);
    assert ids[i] in ids;
    SearchHit(t, conv, query, limit, orc, i);
    forall k | 0 <= k < |ids|
      ensures ids[k] != y
    {
      SearchHit(t, conv, query, limit, orc, k);
    }
    SimilarDominates(t, conv, orc.embed(query), limit, orc, ids[i], y);
  }

  /**
   * As written, the message is the same for every id and is never the one
   * that names the id: where the id would start, it holds a brace, which
   * no printed integer starts with.
   */
  lemma AsWrittenMessagesOmitId(id: Id)
    ensures UPDATE_NOT_FOUND != UpdateNotFound(id)
    ensures DELETE_NOT_FOUND != DeleteNotFound(id)
  {
    var printed := IntToString(id);
    assert printed[0] == '-' || IsDigit(printed[0]);
    var u := UpdateNotFound(id);
    assert u[12] == u[12..|u| - 10][0] == printed[0];
    assert UPDATE_NOT_FOUND[12] == '{';
    var d := DeleteNotFound(id);
    assert d[17] == d[17..|d| - 10][0] == printed[0];
    assert DELETE_NOT_FOUND[17] == '{';
  }

  lemma PrintedNineNineNine()
    ensures IntToString(999) == "999"
  {
    assert NatToString(9) == "9";
    assert NatToString(99) == NatToString(9) + "9";
    assert NatToString(999) == NatToString(99) + "9";
  }

  /** With the id printed, the message for id 999 is exactly the one the unit test expects. */
  lemma CorrectedMessageNamesId()
    ensures UpdateNotFound(999) == "Memory with 999 not found"
  {
    PrintedNineNineNine();
  }

  /** The corrected messages tell ids apart: different ids give different messages. */
  lemma NotFoundMessagesInjective(a: Id, b: Id)
    ensures UpdateNotFound(a) == UpdateNotFound(b) ==> a == b
    ensures DeleteNotFound(a) == DeleteNotFound(b) ==> a == b
  {
    if UpdateNotFound(a) == UpdateNotFound(b) {
      IntToStringInjective(a, b);
    }
    if DeleteNotFound(a) == DeleteNotFound(b) {
      IntToStringInjective(a, b);
    }
  }
}
