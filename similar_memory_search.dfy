/**
 * `search_similar_memories`: every memory of a conversation, active or
 * not, scored against a query embedding, sorted by descending score with
 * ties in retrieval order, and cut to `limit`.
 */
module SimilarMemorySearch {
  import opened Sequences
  import opened Store
  import opened Ranking

  predicate InConversation(rows: map<Id, Memory>, id: Id, conv: int)
  {
    id in rows && rows[id].conversationId == conv
  }

  /** The rows of `order` that belong to the conversation, in that order. */
  function ConversationIn(rows: map<Id, Memory>, order: seq<Id>, conv: int): (r: seq<Id>)
    ensures forall x :: x in r <==> x in order && InConversation(rows, x, conv)
  {
    if order == [] then []
    else
      var init, x := ConversationIn(rows, order[..|order| - 1], conv), order[|order| - 1];
      FrontLast(order);
      if InConversation(rows, x, conv) then init + [x] else init
  }

  /** Filtering keeps ascending order. */
  lemma {:induction false} ConversationInIncreasing(rows: map<Id, Memory>, order: seq<Id>, conv: int)
    requires Increasing(order)
    ensures Increasing(ConversationIn(rows, order, conv))
  {
    if order != [] {
      var prefix, x := order[..|order| - 1], order[|order| - 1];
      assert order == prefix + [x];
      ConversationInIncreasing(rows, prefix, conv);
      var init := ConversationIn(rows, prefix, conv);
      if InConversation(rows, x, conv) {
        var r := init + [x];
        forall i, j | 0 <= i < j < |r|
          ensures r[i] < r[j]
        {
          if j == |r| - 1 {
            assert r[i] in init;
            assert r[i] in prefix;
            var k :| 0 <= k < |prefix| && prefix[k] == r[i];
            assert order[k] == r[i];
          } else {
            assert r[i] == init[i] && r[j] == init[j];
          }
        }
      }
    }
  }

  /** The query for the conversation's memories, in retrieval order. */
  function ConversationIds(t: Table, conv: int): (r: seq<Id>)
    requires t.Valid()
    ensures forall x :: x in r <==> InConversation(t.rows, x, conv)
    ensures Increasing(r)
  {
    ConversationInIncreasing(t.rows, t.order, conv);
    ConversationIn(t.rows, t.order, conv)
  }

  /** The similarity of a stored memory to the query. */
  function Score(m: Memory, query: Embedding, orc: Oracles): real
  {
    orc.similarity(query, m.embedding)
  }

  /** The `scored` list: one pair per memory, in the order of `ids`. */
  function ScoreAll(rows: map<Id, Memory>, ids: seq<Id>, query: Embedding, orc: Oracles): (r: seq<Scored<Id>>)
    requires forall x :: x in ids ==> x in rows
    ensures |r| == |ids|
    ensures forall i :: 0 <= i < |r| ==> r[i].item == ids[i] && r[i].score == Score(rows[ids[i]], query, orc)
  {
    if ids == [] then []
    else
      var init, x := ids[..|ids| - 1], ids[|ids| - 1];
      assert forall y :: y in init ==> y in ids;
      ScoreAll(rows, init, query, orc) + [Scored(Score(rows[x], query, orc), x)]
  }

  /** The ids of the memories `search_similar_memories` returns, best first. */
  function Similar(t: Table, conv: int, query: Embedding, limit: int, orc: Oracles): seq<Id>
    requires t.Valid()
  {
    Items(TopK(ScoreAll(t.rows, ConversationIds(t, conv), query, orc), limit))
  }

  /**
   * The loop of `search_similar_memories` over the conversation's rows,
   * then the stable sort and the cut. Changes nothing.
   */
  method SearchSimilarMemories(db: Session, conv: int, query: Embedding, limit: int, orc: Oracles) returns (ids: seq<Id>)
    requires db.Valid()
    ensures ids == Similar(db.table, conv, query, limit, orc)
  {
    var memories := ConversationIds(db.table, conv);
    var scored: seq<Scored<Id>> := [];
    var i := 0;
    ghost var done: seq<Id> := [];
    while i < |memories|
      invariant 0 <= i <= |memories| && done == memories[..i]
      invariant forall x :: x in done ==> x in db.table.rows
      invariant scored == ScoreAll(db.table.rows, done, query, orc)
    {
      var id := memories[i];
      assert id in memories;
      var mem := db.table.rows[id];
      ScoreAllSnoc(db.table.rows, done, id, query, orc);
      PrefixSnoc(memories, i);
      scored := scored + [Scored(Score(mem, query, orc), id)];
      done := done + [id];
      i := i + 1;
    }
    assert done == memories;
    ids := Items(TopK(scored, limit));
  }

  // ------------------------------------------------------------ properties

  /** The result has `min(limit, n)` entries for a non-negative limit, `n` the conversation's size. */
  lemma SimilarLength(t: Table, conv: int, query: Embedding, limit: int, orc: Oracles)
    requires t.Valid() && limit >= 0
    ensures var n := |ConversationIds(t, conv)|;
      |Similar(t, conv, query, limit, orc)| == if limit <= n then limit else n
  {
  }

  /** Every returned id is a memory of the conversation. */
  lemma SimilarInConversation(t: Table, conv: int, query: Embedding, limit: int, orc: Oracles, x: Id)
    requires t.Valid() && x in Similar(t, conv, query, limit, orc)
    ensures InConversation(t.rows, x, conv)
  {
    var s := ScoreAll(t.rows, ConversationIds(t, conv), query, orc);
    var top := TopK(s, limit);
    var i :| 0 <= i < |top| && top[i].item == x;
    assert top[i] in multiset(top);
    assert top[i] in s;
  }

  /** Scoring one more id appends its pair. */
  lemma ScoreAllSnoc(rows: map<Id, Memory>, done: seq<Id>, x: Id, query: Embedding, orc: Oracles)
    requires (forall y :: y in done ==> y in rows) && x in rows
    ensures forall y :: y in done + [x] ==> y in rows
    ensures ScoreAll(rows, done + [x], query, orc) == ScoreAll(rows, done, query, orc) + [Scored(Score(rows[x], query, orc), x)]
  {
    assert (done + [x])[..|done|] == done;
  }

  lemma ScoreAllDistinct(rows: map<Id, Memory>, ids: seq<Id>, query: Embedding, orc: Oracles)
    requires forall x :: x in ids ==> x in rows
    requires Increasing(ids)
    ensures ItemsIncreasing(ScoreAll(rows, ids, query, orc))
    ensures DistinctItems(ScoreAll(rows, ids, query, orc))
  {
  }

  /** No memory is returned twice. */
  lemma SimilarDistinct(t: Table, conv: int, query: Embedding, limit: int, orc: Oracles)
    requires t.Valid()
    ensures var r := Similar(t, conv, query, limit, orc);
      forall i, j :: 0 <= i < j < |r| ==> r[i] != r[j]
  {
    var s := ScoreAll(t.rows, ConversationIds(t, conv), query, orc);
    ScoreAllDistinct(t.rows, ConversationIds(t, conv), query, orc);
    TopKDistinct(s, limit);
  }

  /**
   * Best first, and memories with equal scores keep retrieval order
   * (ascending id): the sort is stable.
   */
  lemma SimilarSorted(t: Table, conv: int, query: Embedding, limit: int, orc: Oracles, i: int, j: int)
    requires t.Valid() && 0 <= i < j < |Similar(t, conv, query, limit, orc)|
    ensures var r := Similar(t, conv, query, limit, orc);
      && r[i] in t.rows && r[j] in t.rows
      && Score(t.rows[r[i]], query, orc) >= Score(t.rows[r[j]], query, orc)
      && (Score(t.rows[r[i]], query, orc) == Score(t.rows[r[j]], query, orc) ==> r[i] < r[j])
  {
    RankedPair(t.rows, ConversationIds(t, conv), query, limit, orc, i, j);
  }

  lemma RankedPair(rows: map<Id, Memory>, ids: seq<Id>, query: Embedding, limit: int, orc: Oracles, i: int, j: int)
    requires forall x :: x in ids ==> x in rows
    requires Increasing(ids)
    requires 0 <= i < j < |TopK(ScoreAll(rows, ids, query, orc), limit)|
    ensures var top := TopK(ScoreAll(rows, ids, query, orc), limit);
      && top[i].item in rows && top[j].item in rows
      && top[i].score == Score(rows[top[i].item], query, orc)
      && top[j].score == Score(rows[top[j].item], query, orc)
      && top[i].score >= top[j].score
      && (top[i].score == top[j].score ==> top[i].item < top[j].item)
  {
    var s := ScoreAll(rows, ids, query, orc);
    var top := TopK(s, limit);
    ScoreAllDistinct(rows, ids, query, orc);
    TopKTiesByItem(s, limit);
    assert top[i] in multiset(top) && top[j] in multiset(top);
    ScoreAllScore(rows, ids, query, orc, s, top[i]);
    ScoreAllScore(rows, ids, query, orc, s, top[j]);
  }

  lemma ScoreAllScore(rows: map<Id, Memory>, ids: seq<Id>, query: Embedding, orc: Oracles, s: seq<Scored<Id>>, e: Scored<Id>)
    requires forall x :: x in ids ==> x in rows
    requires s == ScoreAll(rows, ids, query, orc)
    requires e in multiset(s)
    ensures e.item in rows && e.score == Score(rows[e.item], query, orc)
  {
    assert e in s;
  }

  /** Every returned memory scores at least as high as every memory of the conversation left out. */
  lemma SimilarDominates(t: Table, conv: int, query: Embedding, limit: int, orc: Oracles, x: Id, y: Id)
    requires t.Valid()
    requires x in Similar(t, conv, query, limit, orc)
    requires InConversation(t.rows, y, conv) && y !in Similar(t, conv, query, limit, orc)
    ensures x in t.rows && Score(t.rows[x], query, orc) >= Score(t.rows[y], query, orc)
  {
    var ids := ConversationIds(t, conv);
    var s := ScoreAll(t.rows, ids, query, orc);
    var top := TopK(s, limit);
    var i :| 0 <= i < |top| && top[i].item == x;
    var j :| 0 <= j < |ids| && ids[j] == y;
    TopKDominatesItem(s, limit, i, j);
    ScoreAllScore(t.rows, ids, query, orc, s, top[i]);
  }

  /** With a limit at least the conversation's size, every memory of it is returned. */
  lemma SimilarAll(t: Table, conv: int, query: Embedding, limit: int, orc: Oracles, y: Id)
    requires t.Valid() && limit >= |ConversationIds(t, conv)|
    requires InConversation(t.rows, y, conv)
    ensures y in Similar(t, conv, query, limit, orc)
  {
    var ids := ConversationIds(t, conv);
    var s := ScoreAll(t.rows, ids, query, orc);
    var top := TopK(s, limit);
    var j :| 0 <= j < |ids| && ids[j] == y;
    TopKAll(s, limit);
    assert s[j] in multiset(top);
    var i :| 0 <= i < |top| && top[i] == s[j];
    assert Items(top)[i] == y;
  }
}
