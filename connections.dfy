/**
 * The connection graph between memories, shared by both copies of
 * `find_connections`.
 *
 * A record's `connections` entry lists the ids it is linked to and the
 * score of each link. When a new episodic bubble is stored it is compared
 * with the other active memories of its conversation; those whose
 * similarity reaches the threshold are ranked by their score rounded to
 * three decimals, the best five are written on the new bubble, and each of
 * them gets a link back to the new bubble with the same score.
 *
 * Score maps are keyed by `str(id)` in the source; since printing an
 * integer is injective (`Strings.IntToStringInjective`) they are keyed by
 * the id itself here.
 */
module ConnectionGraph {
  import opened Wrappers
  import opened Sequences
  import opened Store
  import opened Ranking

  const CONNECTION_THRESHOLD: real := 0.6
  const MAX_CONNECTIONS: int := 5

  // ------------------------------------------------------------ link access

  /** The `connections` entry, or `{"bubble_ids": [], "scores": {}}` when absent. */
  function LinksOf(m: Memory): Links
  {
    m.metadata.connections.GetOr(Links([], map[]))
  }

  /** `m` with its `connections` entry set to `l`; every other key and column kept. */
  function WithLinks(m: Memory, l: Links): (r: Memory)
    ensures LinksOf(r) == l && r.metadata.connections.Some?
    ensures r.metadata.others == m.metadata.others
    ensures r.(metadata := m.metadata) == m
  {
    m.(metadata := m.metadata.(connections := Some(l)))
  }

  predicate Lists(m: Memory, b: Id)
  {
    b in LinksOf(m).bubbleIds
  }

  /** `m` lists `b` and records the score `s` for it. */
  predicate LinkedWith(m: Memory, b: Id, s: real)
  {
    var l := LinksOf(m);
    b in l.bubbleIds && b in l.scores && l.scores[b] == s
  }

  /** No id is listed twice and every listed id has a score. */
  ghost predicate LinksOk(l: Links)
  {
    && (forall i, j :: 0 <= i < j < |l.bubbleIds| ==> l.bubbleIds[i] != l.bubbleIds[j])
    && (forall b :: b in l.bubbleIds ==> b in l.scores)
  }

  /** Every link between two stored records is matched by a link back with the same score. */
  ghost predicate Symmetric(rows: map<Id, Memory>)
  {
    forall a, b, s :: a in rows && b in rows && LinkedWith(rows[a], b, s) ==> LinkedWith(rows[b], a, s)
  }

  /**
   * The graph invariant: well-formed link lists, no self-links, no link to
   * an id not handed out yet, and symmetry. Links to deleted records may
   * remain (nothing removes them), which is why symmetry is stated for
   * stored records only. The clause `b < t.nextId` and every lemma that
   * keeps this invariant rely on ids never being handed out again after a
   * deletion: were a deleted id reused, its old neighbours would list the
   * new record without being listed back.
   */
  ghost predicate GraphOk(t: Table)
  {
    && t.Valid()
    && (forall a :: a in t.rows ==> LinksOk(LinksOf(t.rows[a])))
    && (forall a :: a in t.rows ==> !Lists(t.rows[a], a))
    && (forall a, b :: a in t.rows && Lists(t.rows[a], b) ==> b < t.nextId)
    && Symmetric(t.rows)
  }

  /** `newId` is stored, lists nobody, and nobody lists it: a bubble just inserted. */
  ghost predicate Unlinked(t: Table, newId: Id)
  {
    && newId in t.rows
    && LinksOf(t.rows[newId]).bubbleIds == []
    && (forall a :: a in t.rows ==> !Lists(t.rows[a], newId))
  }

  /** Storing a record without links keeps the invariant and leaves that record unlinked. */
  lemma InsertKeepsGraph(t: Table, m: Memory)
    requires GraphOk(t) && LinksOf(m).bubbleIds == []
    ensures GraphOk(t.Insert(m)) && Unlinked(t.Insert(m), t.nextId)
  {
    var r := t.Insert(m);
    forall a | a in r.rows
      ensures LinksOk(LinksOf(r.rows[a])) && !Lists(r.rows[a], a) && !Lists(r.rows[a], t.nextId)
      ensures forall b :: Lists(r.rows[a], b) ==> b < r.nextId
    {
      if a != t.nextId {
        assert r.rows[a] == t.rows[a];
      }
    }
    forall a, b, s | a in r.rows && b in r.rows && LinkedWith(r.rows[a], b, s)
      ensures LinkedWith(r.rows[b], a, s)
    {
      assert a != t.nextId && r.rows[a] == t.rows[a];
      assert Lists(t.rows[a], b);
      assert b != t.nextId && r.rows[b] == t.rows[b];
    }
  }

  /** Changing columns of a record other than its metadata keeps the invariant. */
  lemma ReplaceKeepsGraph(t: Table, id: Id, m: Memory)
    requires GraphOk(t) && id in t.rows && m.metadata == t.rows[id].metadata
    ensures GraphOk(t.Replace(id, m))
  {
    var r := t.Replace(id, m);
    forall a | a in r.rows
      ensures LinksOf(r.rows[a]) == LinksOf(t.rows[a])
      ensures forall b :: Lists(r.rows[a], b) == Lists(t.rows[a], b)
      ensures forall b, s :: LinkedWith(r.rows[a], b, s) == LinkedWith(t.rows[a], b, s)
    {
    }
  }

  /** Deleting a record keeps the invariant; links to it remain on its neighbours. */
  lemma RemoveKeepsGraph(t: Table, id: Id)
    requires GraphOk(t)
    ensures GraphOk(t.Remove(id))
  {
  }

  // ------------------------------------------------------------- candidates

  /** Same conversation, not the new bubble, active. */
  predicate IsCandidate(t: Table, id: Id, newId: Id, conv: int)
  {
    id in t.rows && t.rows[id].conversationId == conv && id != newId && t.rows[id].isActive
  }

  /** The candidates among `order`, in that order. */
  function CandidatesIn(t: Table, order: seq<Id>, newId: Id, conv: int): (r: seq<Id>)
    ensures forall x :: x in r <==> x in order && IsCandidate(t, x, newId, conv)
    ensures Increasing(order) ==> Increasing(r)
  {
    if order == [] then []
    else
      var init := CandidatesIn(t, order[..|order| - 1], newId, conv);
      var x := order[|order| - 1];
      FrontLast(order);
      if IsCandidate(t, x, newId, conv) then
        assert Increasing(order) ==> forall y :: y in init ==> y < x by {
          if Increasing(order) {
            forall y | y in init
              ensures y < x
            {
              var k :| 0 <= k < |order| - 1 && order[k] == y;
            }
          }
        }
        AppendIncreasing(init, x);
        init + [x]
      else init
  }

  lemma AppendIncreasing(s: seq<Id>, x: Id)
    ensures Increasing(s) && (forall y :: y in s ==> y < x) ==> Increasing(s + [x])
  {
    if Increasing(s) && (forall y :: y in s ==> y < x) {
      var r := s + [x];
      forall i, j | 0 <= i < j < |r|
        ensures r[i] < r[j]
      {
        assert r[i] == s[i];
        if j < |s| {
          assert r[j] == s[j];
        } else {
          assert s[i] in s;
        }
      }
    }
  }

  /** The result of the query for existing memories, in retrieval order. */
  function Candidates(t: Table, newId: Id, conv: int): (r: seq<Id>)
    requires t.Valid()
    ensures forall x :: x in r <==> IsCandidate(t, x, newId, conv)
    ensures Increasing(r)
  {
    CandidatesIn(t, t.order, newId, conv)
  }

  // ---------------------------------------------------------------- scoring

  /** The memory has an embedding and its unrounded similarity reaches the threshold. */
  predicate Qualifies(m: Memory, emb: Embedding, orc: Oracles)
  {
    HasEmbedding(m) && orc.similarity(emb, m.embedding) >= CONNECTION_THRESHOLD
  }

  /** The stored score: the similarity rounded to three decimals. */
  function Rounded(m: Memory, emb: Embedding, orc: Oracles): real
  {
    orc.round3(orc.similarity(emb, m.embedding))
  }

  /** The `scored` list the scoring loop builds over `ids`. */
  function ScoreCandidates(rows: map<Id, Memory>, ids: seq<Id>, emb: Embedding, orc: Oracles): (r: seq<Scored<Id>>)
    requires forall x :: x in ids ==> x in rows
    ensures forall e :: e in r ==> e.item in ids && e.item in rows && Qualifies(rows[e.item], emb, orc) && e.score == Rounded(rows[e.item], emb, orc)
    ensures forall x :: x in ids && Qualifies(rows[x], emb, orc) ==> x in Items(r)
  {
    if ids == [] then []
    else
      var init := ScoreCandidates(rows, ids[..|ids| - 1], emb, orc);
      var x := ids[|ids| - 1];
      FrontLast(ids);
      if Qualifies(rows[x], emb, orc) then
        var r := init + [Scored(Rounded(rows[x], emb, orc), x)];
        assert Items(r) == Items(init) + [x];
        r
      else init
  }

  /** Candidates scored in ascending id order stay in ascending id order. */
  lemma {:induction false} ScoreCandidatesIncreasing(rows: map<Id, Memory>, ids: seq<Id>, emb: Embedding, orc: Oracles)
    requires forall x :: x in ids ==> x in rows
    requires Increasing(ids)
    ensures ItemsIncreasing(ScoreCandidates(rows, ids, emb, orc))
  {
    if ids != [] {
      var front := ids[..|ids| - 1];
      var x := ids[|ids| - 1];
      assert ids == front + [x];
      var init := ScoreCandidates(rows, front, emb, orc);
      ScoreCandidatesIncreasing(rows, front, emb, orc);
      if Qualifies(rows[x], emb, orc) {
        var e := Scored(Rounded(rows[x], emb, orc), x);
        forall d | d in init
          ensures d.item < e.item
        {
          BelowLast(ids, d.item);
        }
        SnocItemsIncreasing(init, e);
      }
    }
  }

  lemma BelowLast(ids: seq<Id>, y: Id)
    requires Increasing(ids) && |ids| > 0 && y in ids[..|ids| - 1]
    ensures y < ids[|ids| - 1]
  {
    var k :| 0 <= k < |ids| - 1 && ids[k] == y;
  }

  lemma SnocItemsIncreasing(init: seq<Scored<Id>>, e: Scored<Id>)
    requires ItemsIncreasing(init)
    requires forall d :: d in init ==> d.item < e.item
    ensures ItemsIncreasing(init + [e])
  {
    var r := init + [e];
    forall i, j | 0 <= i < j < |r|
      ensures r[i].item < r[j].item
    {
      assert r[i] == init[i];
      if j == |r| - 1 {
        assert init[i] in init;
      } else {
        assert r[j] == init[j];
      }
    }
  }

  /** `scored[:MAX_CONNECTIONS]` after the stable descending sort. */
  function Selected(t: Table, newId: Id, conv: int, orc: Oracles): seq<Scored<Id>>
    requires t.Valid() && newId in t.rows
  {
    TopK(ScoreCandidates(t.rows, Candidates(t, newId, conv), t.rows[newId].embedding, orc), MAX_CONNECTIONS)
  }

  /** `{str(c["id"]): c["score"] for c in top}`. */
  function ScoreMap(top: seq<Scored<Id>>): (r: map<Id, real>)
    ensures forall x :: x in r <==> x in Items(top)
    ensures forall i :: 0 <= i < |top| ==> top[i].item in r
    ensures DistinctItems(top) ==> forall i :: 0 <= i < |top| ==> r[top[i].item] == top[i].score
  {
    if top == [] then map[]
    else
      var init, last := top[..|top| - 1], top[|top| - 1];
      assert Items(top) == Items(init) + [last.item];
      ScoreMap(init)[last.item := last.score]
  }

  // --------------------------------------------------------------- writing

  /** The new bubble's `connections` entry replaced by the selection. */
  function LinkNew(m: Memory, top: seq<Scored<Id>>): (r: Memory)
    ensures r.(metadata := m.metadata) == m && r.metadata.others == m.metadata.others
    ensures LinksOf(r).bubbleIds == Items(top)
    ensures DistinctItems(top) ==> LinksOk(LinksOf(r))
    ensures DistinctItems(top) ==> forall i :: 0 <= i < |top| ==> LinkedWith(r, top[i].item, top[i].score)
    ensures DistinctItems(top) ==> forall b, s :: LinkedWith(r, b, s) ==> exists i :: 0 <= i < |top| && top[i] == Scored(s, b)
  {
    var r := WithLinks(m, Links(Items(top), ScoreMap(top)));
    assert DistinctItems(top) ==> forall b, s :: LinkedWith(r, b, s) ==> exists i :: 0 <= i < |top| && top[i] == Scored(s, b) by {
      if DistinctItems(top) {
        forall b, s | LinkedWith(r, b, s)
          ensures exists i :: 0 <= i < |top| && top[i] == Scored(s, b)
        {
          var i :| 0 <= i < |top| && Items(top)[i] == b;
          assert top[i] == Scored(s, b);
        }
      }
    }
    r
  }

  /**
   * The reverse link on a neighbour: append `newId` with score `s` unless
   * it is already listed, in which case nothing changes.
   */
  function AddBackLink(m: Memory, newId: Id, s: real): (r: Memory)
    ensures r.(metadata := m.metadata) == m && r.metadata.others == m.metadata.others
  {
    var l := LinksOf(m);
    if newId in l.bubbleIds then m
    else WithLinks(m, Links(l.bubbleIds + [newId], l.scores[newId := s]))
  }

  /** Adding the same reverse link twice is adding it once, whatever the second score. */
  lemma AddBackLinkIdempotent(m: Memory, newId: Id, s: real, s2: real)
    ensures AddBackLink(AddBackLink(m, newId, s), newId, s2) == AddBackLink(m, newId, s)
  {
  }

  /**
   * On a neighbour that does not list the new bubble, the reverse link is
   * appended with exactly the given score; the list grows by one whatever
   * its length, so a neighbour may end up with more than five links.
   */
  lemma AddBackLinkFresh(m: Memory, newId: Id, s: real)
    requires !Lists(m, newId)
    ensures LinkedWith(AddBackLink(m, newId, s), newId, s)
    ensures LinksOf(AddBackLink(m, newId, s)).bubbleIds == LinksOf(m).bubbleIds + [newId]
  {
  }

  /** Links other than the one to `newId` are untouched, and well-formedness is kept. */
  lemma AddBackLinkKeeps(m: Memory, newId: Id, s: real)
    ensures forall b, v :: b != newId ==> (LinkedWith(AddBackLink(m, newId, s), b, v) <==> LinkedWith(m, b, v))
    ensures forall b :: Lists(AddBackLink(m, newId, s), b) <==> Lists(m, b) || b == newId
    ensures LinksOk(LinksOf(m)) ==> LinksOk(LinksOf(AddBackLink(m, newId, s)))
  {
    var l := LinksOf(m);
    if newId !in l.bubbleIds && LinksOk(l) {
      var ids := l.bubbleIds + [newId];
      forall i, j | 0 <= i < j < |ids|
        ensures ids[i] != ids[j]
      {
        if j == |ids| - 1 {
          assert ids[i] == l.bubbleIds[i];
        }
      }
    }
  }

  /** The reverse-link loop over `top`, as a table. */
  function BackLinks(t: Table, newId: Id, top: seq<Scored<Id>>): (r: Table)
    requires t.Valid()
    ensures r.Valid()
    ensures r.rows.Keys == t.rows.Keys && r.order == t.order && r.nextId == t.nextId
  {
    if top == [] then t
    else
      var t1, c := BackLinks(t, newId, top[..|top| - 1]), top[|top| - 1];
      if c.item in t1.rows then t1.Replace(c.item, AddBackLink(t1.rows[c.item], newId, c.score)) else t1
  }

  /** One more entry of `top`: its reverse link is added when its record exists. */
  lemma BackLinksSnoc(t: Table, newId: Id, top: seq<Scored<Id>>, c: Scored<Id>)
    requires t.Valid()
    ensures var prev := BackLinks(t, newId, top);
      BackLinks(t, newId, top + [c]) ==
        if c.item in prev.rows then prev.Replace(c.item, AddBackLink(prev.rows[c.item], newId, c.score)) else prev
  {
    assert (top + [c])[..|top|] == top;
  }

  /** A record no entry of `top` names is left as it was. */
  lemma {:induction false} BackLinksElsewhere(t: Table, newId: Id, top: seq<Scored<Id>>, x: Id)
    requires t.Valid() && x in t.rows
    requires forall i :: 0 <= i < |top| ==> top[i].item != x
    ensures BackLinks(t, newId, top).rows[x] == t.rows[x]
  {
    if top != [] {
      var init := top[..|top| - 1];
      assert forall i :: 0 <= i < |init| ==> init[i] == top[i];
      BackLinksElsewhere(t, newId, init, x);
    }
  }

  /** A record named once in `top` gets its reverse link with the score beside it. */
  lemma {:induction false} BackLinksAt(t: Table, newId: Id, top: seq<Scored<Id>>, i: int)
    requires t.Valid() && DistinctItems(top)
    requires 0 <= i < |top| && top[i].item in t.rows
    ensures BackLinks(t, newId, top).rows[top[i].item] == AddBackLink(t.rows[top[i].item], newId, top[i].score)
  {
    var init, c := top[..|top| - 1], top[|top| - 1];
    assert forall k :: 0 <= k < |init| ==> init[k] == top[k];
    if i < |init| {
      assert DistinctItems(init);
      BackLinksAt(t, newId, init, i);
    } else {
      BackLinksElsewhere(t, newId, init, c.item);
    }
  }

  // ---------------------------------------------------------------- connect

  datatype Outcome = Outcome(table: Table, ids: seq<Id>)

  /**
   * `find_connections` on the session's rows: the rows afterwards and the
   * returned ids. The new bubble is `newId`, and `conv` the conversation
   * argument.
   */
  function Connect(t: Table, newId: Id, conv: int, orc: Oracles): (o: Outcome)
    requires t.Valid() && newId in t.rows
    ensures o.table.Valid()
    ensures o.table.rows.Keys == t.rows.Keys && o.table.order == t.order && o.table.nextId == t.nextId
  {
    if Candidates(t, newId, conv) == [] then Outcome(t, [])
    else
      var top := Selected(t, newId, conv, orc);
      if top == [] then Outcome(t, [])
      else
        var t1 := t.Replace(newId, LinkNew(t.rows[newId], top));
        Outcome(BackLinks(t1, newId, top), Items(top))
  }

  /** The returned ids are those of the selection, and the table is untouched when there are none. */
  lemma ConnectIds(t: Table, newId: Id, conv: int, orc: Oracles)
    requires t.Valid() && newId in t.rows
    ensures Connect(t, newId, conv, orc).ids == Items(Selected(t, newId, conv, orc))
    ensures Connect(t, newId, conv, orc).ids == [] ==> Connect(t, newId, conv, orc).table == t
  {
    if Candidates(t, newId, conv) == [] {
      assert ScoreCandidates(t.rows, [], t.rows[newId].embedding, orc) == [];
    }
  }

  lemma SelectedFacts(t: Table, newId: Id, conv: int, orc: Oracles)
    requires t.Valid() && newId in t.rows
    ensures var sel := Selected(t, newId, conv, orc);
      && NonIncreasing(sel) && TiesByItem(sel) && DistinctItems(sel)
      && |sel| <= MAX_CONNECTIONS
      && (forall e :: e in sel ==> e in ScoreCandidates(t.rows, Candidates(t, newId, conv), t.rows[newId].embedding, orc))
  {
    var ids := Candidates(t, newId, conv);
    var s := ScoreCandidates(t.rows, ids, t.rows[newId].embedding, orc);
    ScoreCandidatesIncreasing(t.rows, ids, t.rows[newId].embedding, orc);
    TopKTiesByItem(s, MAX_CONNECTIONS);
    TopKDistinct(s, MAX_CONNECTIONS);
    var sel := Selected(t, newId, conv, orc);
    forall e | e in sel
      ensures e in s
    {
      assert e in multiset(s);
    }
  }

  /** Each selected entry is a qualifying candidate carrying its rounded score. */
  lemma SelectedQualify(t: Table, newId: Id, conv: int, orc: Oracles)
    requires t.Valid() && newId in t.rows
    ensures var sel, emb := Selected(t, newId, conv, orc), t.rows[newId].embedding;
      forall i :: 0 <= i < |sel| ==>
        && IsCandidate(t, sel[i].item, newId, conv) && Qualifies(t.rows[sel[i].item], emb, orc)
        && sel[i].score == Rounded(t.rows[sel[i].item], emb, orc)
  {
    SelectedFacts(t, newId, conv, orc);
    var sel := Selected(t, newId, conv, orc);
    assert forall i :: 0 <= i < |sel| ==> sel[i] in sel;
  }

  /** No qualifying candidate left out scores higher than a selected one. */
  lemma SelectedDominates(t: Table, newId: Id, conv: int, orc: Oracles, x: Id, y: Id)
    requires t.Valid() && newId in t.rows
    requires x in Items(Selected(t, newId, conv, orc))
    requires IsCandidate(t, y, newId, conv) && Qualifies(t.rows[y], t.rows[newId].embedding, orc)
    requires y !in Items(Selected(t, newId, conv, orc))
    ensures x in t.rows && Rounded(t.rows[x], t.rows[newId].embedding, orc) >= Rounded(t.rows[y], t.rows[newId].embedding, orc)
  {
    var emb := t.rows[newId].embedding;
    var s := ScoreCandidates(t.rows, Candidates(t, newId, conv), emb, orc);
    var sel := TopK(s, MAX_CONNECTIONS);
    assert sel == Selected(t, newId, conv, orc);
    var i :| 0 <= i < |sel| && Items(sel)[i] == x;
    var j :| 0 <= j < |s| && Items(s)[j] == y;
    TopKDominatesItem(s, MAX_CONNECTIONS, i, j);
    assert sel[i] in multiset(s);
    assert sel[i] in s && s[j] in s;
  }

  /** Nothing is selected exactly when no candidate qualifies. */
  lemma SelectedEmpty(t: Table, newId: Id, conv: int, orc: Oracles)
    requires t.Valid() && newId in t.rows
    ensures Selected(t, newId, conv, orc) == [] <==>
      forall y :: IsCandidate(t, y, newId, conv) ==> !Qualifies(t.rows[y], t.rows[newId].embedding, orc)
  {
    var emb := t.rows[newId].embedding;
    var s := ScoreCandidates(t.rows, Candidates(t, newId, conv), emb, orc);
    if Selected(t, newId, conv, orc) == [] {
      assert |s| == 0;
    } else {
      SelectedQualify(t, newId, conv, orc);
    }
  }

  /**
   * What is selected: at most five ids, each an active memory of the
   * conversation other than the new bubble that has an embedding and
   * reaches the threshold; the ids come in non-increasing order of rounded
   * score, equal scores by ascending id (retrieval order); none of the
   * qualifying memories left out scores higher than one selected; and
   * nothing is selected, and nothing written, exactly when no candidate
   * qualifies.
   */
  lemma ConnectSelects(t: Table, newId: Id, conv: int, orc: Oracles)
    requires t.Valid() && newId in t.rows
    ensures var o, sel, emb := Connect(t, newId, conv, orc), Selected(t, newId, conv, orc), t.rows[newId].embedding;
      && o.ids == Items(sel)
      && |o.ids| <= MAX_CONNECTIONS
      && NonIncreasing(sel) && TiesByItem(sel)
      && (forall i :: 0 <= i < |sel| ==>
            && IsCandidate(t, sel[i].item, newId, conv) && Qualifies(t.rows[sel[i].item], emb, orc)
            && sel[i].score == Rounded(t.rows[sel[i].item], emb, orc))
      && (o.ids == [] <==> forall y :: IsCandidate(t, y, newId, conv) ==> !Qualifies(t.rows[y], emb, orc))
      && (o.ids == [] ==> o.table == t)
  {
    ConnectIds(t, newId, conv, orc);
    SelectedFacts(t, newId, conv, orc);
    SelectedQualify(t, newId, conv, orc);
    SelectedEmpty(t, newId, conv, orc);
  }

  /** The table `Connect` writes when something is selected, as built from `t`. */
  lemma ConnectTable(t: Table, newId: Id, conv: int, orc: Oracles)
    requires t.Valid() && newId in t.rows
    requires Connect(t, newId, conv, orc).ids != []
    ensures var sel := Selected(t, newId, conv, orc);
      && DistinctItems(sel)
      && (forall i :: 0 <= i < |sel| ==> sel[i].item in t.rows && sel[i].item != newId)
      && Connect(t, newId, conv, orc).table == BackLinks(t.Replace(newId, LinkNew(t.rows[newId], sel)), newId, sel)
  {
    ConnectIds(t, newId, conv, orc);
    SelectedFacts(t, newId, conv, orc);
    SelectedQualify(t, newId, conv, orc);
  }

  lemma ConnectWritesNew(t: Table, newId: Id, conv: int, orc: Oracles)
    requires t.Valid() && newId in t.rows
    requires Connect(t, newId, conv, orc).ids != []
    ensures Connect(t, newId, conv, orc).table.rows[newId] == LinkNew(t.rows[newId], Selected(t, newId, conv, orc))
  {
    var sel := Selected(t, newId, conv, orc);
    ConnectTable(t, newId, conv, orc);
    BackLinksElsewhere(t.Replace(newId, LinkNew(t.rows[newId], sel)), newId, sel, newId);
  }

  lemma ConnectWritesNeighbour(t: Table, newId: Id, conv: int, orc: Oracles, i: int)
    requires t.Valid() && newId in t.rows
    requires Connect(t, newId, conv, orc).ids != []
    requires 0 <= i < |Selected(t, newId, conv, orc)|
    ensures var sel := Selected(t, newId, conv, orc);
      && sel[i].item in t.rows && sel[i].item != newId
      && Connect(t, newId, conv, orc).table.rows[sel[i].item] == AddBackLink(t.rows[sel[i].item], newId, sel[i].score)
  {
    var sel := Selected(t, newId, conv, orc);
    ConnectTable(t, newId, conv, orc);
    BackLinksAt(t.Replace(newId, LinkNew(t.rows[newId], sel)), newId, sel, i);
  }

  lemma ConnectWritesNothingElse(t: Table, newId: Id, conv: int, orc: Oracles, x: Id)
    requires t.Valid() && newId in t.rows
    requires Connect(t, newId, conv, orc).ids != []
    requires x in t.rows && x != newId && x !in Items(Selected(t, newId, conv, orc))
    ensures Connect(t, newId, conv, orc).table.rows[x] == t.rows[x]
  {
    var sel := Selected(t, newId, conv, orc);
    ConnectTable(t, newId, conv, orc);
    forall i | 0 <= i < |sel|
      ensures sel[i].item != x
    {
      assert Items(sel)[i] == sel[i].item;
    }
    BackLinksElsewhere(t.Replace(newId, LinkNew(t.rows[newId], sel)), newId, sel, x);
  }

  /**
   * What is written when something is selected: the new bubble's
   * `connections` become the selection (ids and their scores, other
   * metadata keys and all other columns kept), each selected neighbour gets
   * its reverse link, and every other record is unchanged.
   */
  lemma ConnectWrites(t: Table, newId: Id, conv: int, orc: Oracles)
    requires t.Valid() && newId in t.rows
    requires Connect(t, newId, conv, orc).ids != []
    ensures var r, sel := Connect(t, newId, conv, orc).table, Selected(t, newId, conv, orc);
      && r.rows[newId] == LinkNew(t.rows[newId], sel)
      && (forall i :: 0 <= i < |sel| ==> sel[i].item in t.rows && r.rows[sel[i].item] == AddBackLink(t.rows[sel[i].item], newId, sel[i].score))
      && (forall x :: x in t.rows && x != newId && x !in Items(sel) ==> r.rows[x] == t.rows[x])
  {
    var sel := Selected(t, newId, conv, orc);
    ConnectWritesNew(t, newId, conv, orc);
    forall i | 0 <= i < |sel|
      ensures sel[i].item in t.rows
      ensures Connect(t, newId, conv, orc).table.rows[sel[i].item] == AddBackLink(t.rows[sel[i].item], newId, sel[i].score)
    {
      ConnectWritesNeighbour(t, newId, conv, orc, i);
    }
    forall x | x in t.rows && x != newId && x !in Items(sel)
      ensures Connect(t, newId, conv, orc).table.rows[x] == t.rows[x]
    {
      ConnectWritesNothingElse(t, newId, conv, orc, x);
    }
  }

  /**
   * Symmetry of the new links: when the new bubble was unlinked, it lists
   * each selected neighbour with the rounded score and that neighbour lists
   * the new bubble with exactly the same score.
   */
  lemma ConnectSymmetric(t: Table, newId: Id, conv: int, orc: Oracles, i: int)
    requires t.Valid() && Unlinked(t, newId)
    requires 0 <= i < |Selected(t, newId, conv, orc)|
    ensures var r, sel := Connect(t, newId, conv, orc).table, Selected(t, newId, conv, orc);
      && sel[i].item in t.rows
      && LinkedWith(r.rows[newId], sel[i].item, sel[i].score)
      && LinkedWith(r.rows[sel[i].item], newId, sel[i].score)
  {
    var sel := Selected(t, newId, conv, orc);
    ConnectIds(t, newId, conv, orc);
    SelectedFacts(t, newId, conv, orc);
    ConnectWritesNew(t, newId, conv, orc);
    ConnectWritesNeighbour(t, newId, conv, orc, i);
    AddBackLinkFresh(t.rows[sel[i].item], newId, sel[i].score);
  }

  /** After the write, a record other than the new bubble differs from before by at most a link to it. */
  lemma ConnectElsewhere(t: Table, newId: Id, conv: int, orc: Oracles, x: Id)
    requires t.Valid() && newId in t.rows && Connect(t, newId, conv, orc).ids != []
    requires x in t.rows && x != newId
    ensures var m, m0 := Connect(t, newId, conv, orc).table.rows[x], t.rows[x];
      && (forall b, v :: b != newId ==> (LinkedWith(m, b, v) <==> LinkedWith(m0, b, v)))
      && (forall b :: Lists(m, b) ==> Lists(m0, b) || b == newId)
      && (LinksOk(LinksOf(m0)) ==> LinksOk(LinksOf(m)))
      && (x !in Items(Selected(t, newId, conv, orc)) ==> m == m0)
  {
    var sel := Selected(t, newId, conv, orc);
    if x in Items(sel) {
      var i :| 0 <= i < |sel| && Items(sel)[i] == x;
      ConnectWritesNeighbour(t, newId, conv, orc, i);
      AddBackLinkKeeps(t.rows[x], newId, sel[i].score);
    } else {
      ConnectWritesNothingElse(t, newId, conv, orc, x);
    }
  }

  /**
   * Only the `connections` entry is ever written: every record keeps its
   * columns and the other keys of its metadata.
   */
  lemma ConnectKeepsColumns(t: Table, newId: Id, conv: int, orc: Oracles)
    requires t.Valid() && newId in t.rows
    ensures var r := Connect(t, newId, conv, orc).table;
      forall x :: x in t.rows ==>
        && r.rows[x].(metadata := t.rows[x].metadata) == t.rows[x]
        && r.rows[x].metadata.others == t.rows[x].metadata.others
  {
    var sel := Selected(t, newId, conv, orc);
    ConnectIds(t, newId, conv, orc);
    if Connect(t, newId, conv, orc).ids != [] {
      ConnectWritesNew(t, newId, conv, orc);
      forall x | x in t.rows && x != newId
        ensures var m := Connect(t, newId, conv, orc).table.rows[x];
          m.(metadata := t.rows[x].metadata) == t.rows[x] && m.metadata.others == t.rows[x].metadata.others
      {
        if x in Items(sel) {
          var i :| 0 <= i < |sel| && Items(sel)[i] == x;
          ConnectWritesNeighbour(t, newId, conv, orc, i);
        } else {
          ConnectWritesNothingElse(t, newId, conv, orc, x);
        }
      }
    }
  }

  /** The links of the new bubble after the write: well formed, to selected neighbours only. */
  lemma ConnectNewLinks(t: Table, newId: Id, conv: int, orc: Oracles)
    requires t.Valid() && newId in t.rows && Connect(t, newId, conv, orc).ids != []
    ensures var n, sel := Connect(t, newId, conv, orc).table.rows[newId], Selected(t, newId, conv, orc);
      && LinksOk(LinksOf(n))
      && (forall b :: Lists(n, b) ==> b in t.rows && b != newId)
      && (forall b, s :: LinkedWith(n, b, s) ==> exists i :: 0 <= i < |sel| && sel[i] == Scored(s, b))
  {
    var sel := Selected(t, newId, conv, orc);
    var n := Connect(t, newId, conv, orc).table.rows[newId];
    ConnectWritesNew(t, newId, conv, orc);
    SelectedFacts(t, newId, conv, orc);
    SelectedQualify(t, newId, conv, orc);
    assert n == LinkNew(t.rows[newId], sel);
    forall b | Lists(n, b)
      ensures b in t.rows && b != newId
    {
      var i :| 0 <= i < |sel| && Items(sel)[i] == b;
      assert IsCandidate(t, sel[i].item, newId, conv);
    }
  }

  /** `find_connections` on a freshly inserted bubble keeps the symmetry of the graph. */
  lemma ConnectKeepsSymmetry(t: Table, newId: Id, conv: int, orc: Oracles)
    requires GraphOk(t) && Unlinked(t, newId)
    ensures Symmetric(Connect(t, newId, conv, orc).table.rows)
  {
    var o, sel := Connect(t, newId, conv, orc), Selected(t, newId, conv, orc);
    ConnectIds(t, newId, conv, orc);
    if o.ids != [] {
      var r := o.table;
      forall a, b, s | a in r.rows && b in r.rows && LinkedWith(r.rows[a], b, s)
        ensures LinkedWith(r.rows[b], a, s)
      {
        if a == newId {
          ConnectNewLinks(t, newId, conv, orc);
          var i :| 0 <= i < |sel| && sel[i] == Scored(s, b);
          ConnectSymmetric(t, newId, conv, orc, i);
        } else if b == newId {
          ConnectElsewhere(t, newId, conv, orc, a);
          assert a in Items(sel);
          var i :| 0 <= i < |sel| && Items(sel)[i] == a;
          ConnectWritesNeighbour(t, newId, conv, orc, i);
          ConnectSymmetric(t, newId, conv, orc, i);
        } else {
          ConnectElsewhere(t, newId, conv, orc, a);
          ConnectElsewhere(t, newId, conv, orc, b);
        }
      }
    }
  }

  /** After `find_connections` each record's links are well formed, not to itself, and to ids handed out. */
  lemma ConnectRecordOk(t: Table, newId: Id, conv: int, orc: Oracles, x: Id)
    requires GraphOk(t) && Unlinked(t, newId) && x in t.rows
    ensures var r := Connect(t, newId, conv, orc).table;
      && LinksOk(LinksOf(r.rows[x])) && !Lists(r.rows[x], x)
      && forall b :: Lists(r.rows[x], b) ==> b < r.nextId
  {
    ConnectIds(t, newId, conv, orc);
    if Connect(t, newId, conv, orc).ids != [] {
      if x == newId {
        ConnectNewLinks(t, newId, conv, orc);
      } else {
        ConnectElsewhere(t, newId, conv, orc, x);
      }
    }
  }

  /** `find_connections` on a freshly inserted bubble keeps the graph invariant. */
  lemma ConnectKeepsGraph(t: Table, newId: Id, conv: int, orc: Oracles)
    requires GraphOk(t) && Unlinked(t, newId)
    ensures GraphOk(Connect(t, newId, conv, orc).table)
  {
    var r := Connect(t, newId, conv, orc).table;
    ConnectKeepsSymmetry(t, newId, conv, orc);
    forall x | x in r.rows
      ensures LinksOk(LinksOf(r.rows[x])) && !Lists(r.rows[x], x)
      ensures forall b :: Lists(r.rows[x], b) ==> b < r.nextId
    {
      ConnectRecordOk(t, newId, conv, orc, x);
    }
  }
}
