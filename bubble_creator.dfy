/**
 * Episodic bubbles: `find_connections` run against the session, and
 * `create_bubbles`, which stores each bubble of a batch, connects it as soon
 * as it is stored, and commits once at the end.
 */
module BubbleCreator {
  import opened Wrappers
  import opened Sequences
  import opened Store
  import opened Ranking
  import opened ConnectionGraph

  /** The scoring loop of `find_connections` over the candidates `existing`. */
  method ScoreExisting(rows: map<Id, Memory>, existing: seq<Id>, emb: Embedding, orc: Oracles)
    returns (scored: seq<Scored<Id>>)
    requires forall x :: x in existing ==> x in rows
    ensures scored == ScoreCandidates(rows, existing, emb, orc)
  {
    scored := [];
    var i := 0;
    ghost var done: seq<Id> := [];
    while i < |existing|
      invariant 0 <= i <= |existing| && done == existing[..i]
      invariant forall x :: x in done ==> x in rows
      invariant scored == ScoreCandidates(rows, done, emb, orc)
    {
      var id := existing[i];
      assert id in existing;
      var mem := rows[id];
      assert (done + [id])[..|done|] == done;
      PrefixSnoc(existing, i);
      if HasEmbedding(mem) {
        var score := orc.similarity(emb, mem.embedding);
        if score >= CONNECTION_THRESHOLD {
          scored := scored + [Scored(orc.round3(score), id)];
        }
      }
      done := done + [id];
      i := i + 1;
    }
    assert existing[..i] == existing;
  }

  /** The reverse-link loop of `find_connections` over the selection `top`. */
  method WriteBackLinks(db: Session, newId: Id, top: seq<Scored<Id>>)
    requires db.Valid()
    modifies db
    ensures db.Valid()
    ensures db.table == BackLinks(old(db.table), newId, top)
    ensures db.committed == old(db.committed) && db.commits == old(db.commits)
  {
    var t1 := db.table;
    var j := 0;
    ghost var done: seq<Scored<Id>> := [];
    while j < |top|
      invariant 0 <= j <= |top| && done == top[..j]
      invariant db.Valid()
      invariant db.table == BackLinks(t1, newId, done)
      invariant db.committed == old(db.committed) && db.commits == old(db.commits)
    {
      var conn := top[j];
      BackLinksSnoc(t1, newId, done, conn);
      PrefixSnoc(top, j);
      var connected := db.Get(conn.item);
      if connected.Some? {
        var links := LinksOf(connected.value);
        if newId !in links.bubbleIds {
          db.Put(conn.item, WithLinks(connected.value, Links(links.bubbleIds + [newId], links.scores[newId := conn.score])));
        } else {
          assert db.table.rows[conn.item := connected.value] == db.table.rows;
        }
      }
      done := done + [conn];
      j := j + 1;
    }
    assert done == top;
  }

  /**
   * `find_connections(db, new_bubble, conversation_id)`: the scoring loop
   * and the reverse-link loop of the source, run on the session's staged
   * rows. The rows end as `Connect` describes and nothing is committed.
   */
  method FindConnections(db: Session, newId: Id, conv: int, orc: Oracles) returns (ids: seq<Id>)
    requires db.Valid() && newId in db.table.rows
    modifies db
    ensures db.Valid()
    ensures db.table == Connect(old(db.table), newId, conv, orc).table
    ensures ids == Connect(old(db.table), newId, conv, orc).ids
    ensures db.committed == old(db.committed) && db.commits == old(db.commits)
  {
    var t0 := db.table;
    var existing := Candidates(t0, newId, conv);
    if existing == [] {
      return [];
    }
    var scored := ScoreExisting(t0.rows, existing, t0.rows[newId].embedding, orc);
    var top := TopK(scored, MAX_CONNECTIONS);
    assert top == Selected(t0, newId, conv, orc);
    if top == [] {
      return [];
    }
    ids := Items(top);
    db.Put(newId, LinkNew(t0.rows[newId], top));
    ghost var t1 := db.table;
    assert t1 == t0.Replace(newId, LinkNew(t0.rows[newId], top));
    WriteBackLinks(db, newId, top);
  }

  // ------------------------------------------------------------ the batch

  /** The `importance` entry of a bubble as it arrives: absent, null, a number or a string. */
  datatype RawImportance = Absent | Null | Number(x: real) | Text(s: string)

  /** One entry of `bubbles`: its `text` (None when absent or null) and its `importance`. */
  datatype RawBubble = RawBubble(text: Option<string>, importance: RawImportance)

  /**
   * The importance stored: a missing entry becomes 0.5, a string is parsed
   * (0.5 when it does not parse), anything else is kept unclamped, and
   * null stays null.
   */
  function CoerceImportance(v: RawImportance, orc: Oracles): (r: Option<real>)
    ensures r.None? <==> v.Null?
    ensures v.Number? ==> r == Some(v.x)
    ensures r.Some? ==> r.value == 0.5 || (v.Number? && r.value == v.x) || (v.Text? && orc.parseFloat(v.s) == r)
    ensures v.Text? && orc.parseFloat(v.s).Some? ==> r == orc.parseFloat(v.s)
  {
    match v
    case Absent => Some(0.5)
    case Null => None
    case Number(x) => Some(x)
    case Text(s) => if orc.parseFloat(s).Some? then orc.parseFloat(s) else Some(0.5)
  }

  /** `not text`: a missing, null or empty text. */
  predicate Skipped(b: RawBubble)
  {
    b.text.None? || b.text.value == ""
  }

  /** The bubble record as constructed, before connections are written on it. */
  function NewBubble(b: RawBubble, conv: int, sessionId: Option<int>, now: Time, orc: Oracles): (m: Memory)
    requires !Skipped(b)
    ensures m.isEpisodic && m.isActive && m.metadata == EMPTY_METADATA && m.text == b.text.value
    ensures m.conversationId == conv && m.occurredAt == Some(now) && m.sessionId == sessionId
  {
    Memory(conv, b.text.value, orc.embed(b.text.value), true, Some(now), sessionId,
           CoerceImportance(b.importance, orc), true, EMPTY_METADATA, now, now)
  }

  /** The bubbles that are stored, in input order. */
  function Kept(bubbles: seq<RawBubble>): (r: seq<RawBubble>)
    ensures |r| <= |bubbles|
    ensures forall b :: b in r ==> b in bubbles && !Skipped(b)
  {
    if bubbles == [] then []
    else
      var init, b := bubbles[..|bubbles| - 1], bubbles[|bubbles| - 1];
      if Skipped(b) then Kept(init) else Kept(init) + [b]
  }

  /** The rows and the ids after the loop of `create_bubbles` over `bubbles`. */
  function CreateAll(t: Table, bubbles: seq<RawBubble>, conv: int, sessionId: Option<int>, now: Time, orc: Oracles): (o: Outcome)
    requires t.Valid()
    ensures o.table.Valid()
  {
    if bubbles == [] then Outcome(t, [])
    else
      var prev, b := CreateAll(t, bubbles[..|bubbles| - 1], conv, sessionId, now, orc), bubbles[|bubbles| - 1];
      if Skipped(b) then prev
      else
        var id := prev.table.nextId;
        var t1 := prev.table.Insert(NewBubble(b, conv, sessionId, now, orc));
        Outcome(Connect(t1, id, conv, orc).table, prev.ids + [id])
  }

  /** `create_bubbles` keeps the graph invariant. */
  lemma {:induction false} CreateAllKeepsGraph(t: Table, bubbles: seq<RawBubble>, conv: int, sessionId: Option<int>, now: Time, orc: Oracles)
    requires GraphOk(t)
    ensures GraphOk(CreateAll(t, bubbles, conv, sessionId, now, orc).table)
  {
    if bubbles != [] {
      var init, b := bubbles[..|bubbles| - 1], bubbles[|bubbles| - 1];
      CreateAllKeepsGraph(t, init, conv, sessionId, now, orc);
      if !Skipped(b) {
        var prev := CreateAll(t, init, conv, sessionId, now, orc);
        InsertKeepsGraph(prev.table, NewBubble(b, conv, sessionId, now, orc));
        ConnectKeepsGraph(prev.table.Insert(NewBubble(b, conv, sessionId, now, orc)), prev.table.nextId, conv, orc);
      }
    }
  }

  /** One more entry: it is skipped, or stored and connected. */
  lemma CreateAllSnoc(t: Table, done: seq<RawBubble>, b: RawBubble, conv: int, sessionId: Option<int>, now: Time, orc: Oracles)
    requires t.Valid()
    ensures var prev := CreateAll(t, done, conv, sessionId, now, orc);
      CreateAll(t, done + [b], conv, sessionId, now, orc) ==
        if Skipped(b) then prev
        else
          var t1 := prev.table.Insert(NewBubble(b, conv, sessionId, now, orc));
          Outcome(Connect(t1, prev.table.nextId, conv, orc).table, prev.ids + [prev.table.nextId])
  {
    assert (done + [b])[..|done|] == done;
  }

  /** The ids of `o` are the next values of `t`'s counter, in order, and the counter moved past them. */
  ghost predicate Numbered(t: Table, o: Outcome)
  {
    && o.table.nextId == t.nextId + |o.ids|
    && forall k :: 0 <= k < |o.ids| ==> o.ids[k] == t.nextId + k
  }

  lemma NumberedStep(t: Table, prev: Outcome, next: Outcome, skipped: bool)
    requires Numbered(t, prev)
    requires skipped ==> next.ids == prev.ids && next.table.nextId == prev.table.nextId
    requires !skipped ==> next.ids == prev.ids + [prev.table.nextId] && next.table.nextId == prev.table.nextId + 1
    ensures Numbered(t, next)
  {
  }

  lemma KeptSnoc(init: seq<RawBubble>, b: RawBubble)
    ensures Kept(init + [b]) == if Skipped(b) then Kept(init) else Kept(init) + [b]
  {
    assert (init + [b])[..|init|] == init;
  }

  /**
   * The ids `create_bubbles` returns: one per kept bubble, in input order,
   * each the next value of the id counter.
   */
  lemma {:induction false} CreateAllIds(t: Table, bubbles: seq<RawBubble>, conv: int, sessionId: Option<int>, now: Time, orc: Oracles)
    requires t.Valid()
    ensures var o := CreateAll(t, bubbles, conv, sessionId, now, orc);
      |o.ids| == |Kept(bubbles)| && Numbered(t, o)
  {
    if bubbles != [] {
      var init, b := bubbles[..|bubbles| - 1], bubbles[|bubbles| - 1];
      assert bubbles == init + [b];
      CreateAllIds(t, init, conv, sessionId, now, orc);
      CreateAllStep(t, init, b, conv, sessionId, now, orc);
      KeptSnoc(init, b);
      NumberedStep(t, CreateAll(t, init, conv, sessionId, now, orc), CreateAll(t, bubbles, conv, sessionId, now, orc), Skipped(b));
    }
  }

  lemma CreateAllStep(t: Table, init: seq<RawBubble>, b: RawBubble, conv: int, sessionId: Option<int>, now: Time, orc: Oracles)
    requires t.Valid()
    ensures var prev := CreateAll(t, init, conv, sessionId, now, orc);
      var next := CreateAll(t, init + [b], conv, sessionId, now, orc);
      if Skipped(b) then
        next.table.rows.Keys == prev.table.rows.Keys && next.table.nextId == prev.table.nextId && next.ids == prev.ids
      else
        && next.table.rows.Keys == prev.table.rows.Keys + {prev.table.nextId}
        && next.table.nextId == prev.table.nextId + 1
        && next.ids == prev.ids + [prev.table.nextId]
  {
    CreateAllSnoc(t, init, b, conv, sessionId, now, orc);
    if !Skipped(b) {
      CreateAllKept(CreateAll(t, init, conv, sessionId, now, orc).table, b, conv, sessionId, now, orc);
    }
  }

  lemma CreateAllKept(prev: Table, b: RawBubble, conv: int, sessionId: Option<int>, now: Time, orc: Oracles)
    requires prev.Valid() && !Skipped(b)
    ensures var t1 := prev.Insert(NewBubble(b, conv, sessionId, now, orc));
      var next := Connect(t1, prev.nextId, conv, orc).table;
      next.rows.Keys == prev.rows.Keys + {prev.nextId} && next.nextId == prev.nextId + 1
  {
    var t1 := prev.Insert(NewBubble(b, conv, sessionId, now, orc));
    assert t1.rows.Keys == prev.rows.Keys + {prev.nextId};
  }

  /** `u` holds the rows of `t` plus exactly the ids `t` had not yet handed out below `u`'s counter. */
  ghost predicate Grown(t: Table, u: Table)
  {
    && t.nextId <= u.nextId
    && forall x :: x in u.rows <==> x in t.rows || t.nextId <= x < u.nextId
  }

  lemma GrownStep(t: Table, prev: Table, next: Table, skipped: bool)
    requires Grown(t, prev)
    requires skipped ==> next.rows.Keys == prev.rows.Keys && next.nextId == prev.nextId
    requires !skipped ==> next.rows.Keys == prev.rows.Keys + {prev.nextId} && next.nextId == prev.nextId + 1
    ensures Grown(t, next)
  {
  }

  /** The rows after `create_bubbles` are those before plus one per id handed out. */
  lemma {:induction false} CreateAllRows(t: Table, bubbles: seq<RawBubble>, conv: int, sessionId: Option<int>, now: Time, orc: Oracles)
    requires t.Valid()
    ensures Grown(t, CreateAll(t, bubbles, conv, sessionId, now, orc).table)
  {
    if bubbles != [] {
      var init, b := bubbles[..|bubbles| - 1], bubbles[|bubbles| - 1];
      assert bubbles == init + [b];
      CreateAllRows(t, init, conv, sessionId, now, orc);
      CreateAllStep(t, init, b, conv, sessionId, now, orc);
      GrownStep(t, CreateAll(t, init, conv, sessionId, now, orc).table, CreateAll(t, bubbles, conv, sessionId, now, orc).table, Skipped(b));
    }
  }

  /**
   * Rows that existed before `create_bubbles` keep all their columns and
   * the other keys of their metadata; only their connections may grow.
   */
  lemma {:induction false} CreateAllOldRow(t: Table, bubbles: seq<RawBubble>, conv: int, sessionId: Option<int>, now: Time, orc: Oracles, x: Id)
    requires t.Valid() && x in t.rows
    ensures var r := CreateAll(t, bubbles, conv, sessionId, now, orc).table.rows;
      && x in r
      && r[x].(metadata := t.rows[x].metadata) == t.rows[x]
      && r[x].metadata.others == t.rows[x].metadata.others
  {
    if bubbles != [] {
      var init, b := bubbles[..|bubbles| - 1], bubbles[|bubbles| - 1];
      CreateAllOldRow(t, init, conv, sessionId, now, orc, x);
      if !Skipped(b) {
        var prev := CreateAll(t, init, conv, sessionId, now, orc);
        var t1 := prev.table.Insert(NewBubble(b, conv, sessionId, now, orc));
        ConnectKeepsColumns(t1, prev.table.nextId, conv, orc);
        assert t1.rows[x] == prev.table.rows[x];
      }
    }
  }

  /**
   * The k-th returned id names a record built from the k-th kept bubble
   * (episodic, active, its text, embedding, coerced importance and the
   * clock reading) whose metadata holds nothing but connections.
   */
  lemma {:induction false} CreateAllNewRow(t: Table, bubbles: seq<RawBubble>, conv: int, sessionId: Option<int>, now: Time, orc: Oracles, k: int)
    requires t.Valid() && 0 <= k < |Kept(bubbles)|
    ensures var o := CreateAll(t, bubbles, conv, sessionId, now, orc);
      && |o.ids| == |Kept(bubbles)|
      && o.ids[k] in o.table.rows
      && o.table.rows[o.ids[k]].(metadata := EMPTY_METADATA) == NewBubble(Kept(bubbles)[k], conv, sessionId, now, orc)
      && o.table.rows[o.ids[k]].metadata.others == map[]
  {
    CreateAllIds(t, bubbles, conv, sessionId, now, orc);
    var init, b := bubbles[..|bubbles| - 1], bubbles[|bubbles| - 1];
    var prev := CreateAll(t, init, conv, sessionId, now, orc);
    CreateAllIds(t, init, conv, sessionId, now, orc);
    if Skipped(b) {
      assert Kept(bubbles) == Kept(init);
      CreateAllNewRow(t, init, conv, sessionId, now, orc, k);
    } else {
      var id := prev.table.nextId;
      var t1 := prev.table.Insert(NewBubble(b, conv, sessionId, now, orc));
      ConnectKeepsColumns(t1, id, conv, orc);
      var o := CreateAll(t, bubbles, conv, sessionId, now, orc);
      assert o.ids == prev.ids + [id];
      assert Kept(bubbles) == Kept(init) + [b];
      if k < |prev.ids| {
        CreateAllNewRow(t, init, conv, sessionId, now, orc, k);
        assert o.ids[k] == prev.ids[k];
        assert t1.rows[o.ids[k]] == prev.table.rows[o.ids[k]];
      }
    }
  }

  /**
   * One iteration of the loop in `create_bubbles`: an entry without text is
   * skipped; otherwise its record is added and flushed, then connected, and
   * its id appended to those returned.
   */
  method CreateNext(db: Session, b: RawBubble, conv: int, sessionId: Option<int>, now: Time, orc: Oracles,
                    ghost t0: Table, ghost done: seq<RawBubble>, soFar: seq<Id>)
    returns (created: seq<Id>)
    requires db.Valid() && t0.Valid()
    requires db.table == CreateAll(t0, done, conv, sessionId, now, orc).table
    requires soFar == CreateAll(t0, done, conv, sessionId, now, orc).ids
    modifies db
    ensures db.Valid()
    ensures db.table == CreateAll(t0, done + [b], conv, sessionId, now, orc).table
    ensures created == CreateAll(t0, done + [b], conv, sessionId, now, orc).ids
    ensures db.committed == old(db.committed) && db.commits == old(db.commits)
  {
    CreateAllSnoc(t0, done, b, conv, sessionId, now, orc);
    created := soFar;
    if !Skipped(b) {
      var bubble := NewBubble(b, conv, sessionId, now, orc);
      var id := db.Add(bubble);
      var _ := FindConnections(db, id, conv, orc);
      created := created + [id];
    }
  }

  /**
   * `create_bubbles(db, bubbles, conversation_id, session_id)`: skips the
   * entries without text, stores and connects each of the others as it
   * goes, and commits once after the loop. Returns the ids of the created
   * records in input order.
   */
  method CreateBubbles(db: Session, bubbles: seq<RawBubble>, conv: int, sessionId: Option<int>, now: Time, orc: Oracles)
    returns (created: seq<Id>)
    requires db.Valid()
    modifies db
    ensures db.Valid()
    ensures db.table == CreateAll(old(db.table), bubbles, conv, sessionId, now, orc).table
    ensures created == CreateAll(old(db.table), bubbles, conv, sessionId, now, orc).ids
    ensures db.committed == db.table.rows && db.commits == old(db.commits) + 1
  {
    var t0 := db.table;
    created := [];
    var i := 0;
    ghost var done: seq<RawBubble> := [];
    while i < |bubbles|
      invariant 0 <= i <= |bubbles| && done == bubbles[..i]
      invariant db.Valid()
      invariant db.table == CreateAll(t0, done, conv, sessionId, now, orc).table
      invariant created == CreateAll(t0, done, conv, sessionId, now, orc).ids
      invariant db.commits == old(db.commits)
    {
      var b := bubbles[i];
      created := CreateNext(db, b, conv, sessionId, now, orc, t0, done, created);
      PrefixSnoc(bubbles, i);
      done := done + [b];
      i := i + 1;
    }
    assert done == bubbles;
    db.Commit();
  }
}
