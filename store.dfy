/**
 * The memories table and the database session that stages changes to it.
 *
 * A `Memory` holds the columns that the write paths of the core set. The
 * table is a map from id to record plus the order in which a query returns
 * the rows; ids are handed out by an auto-increment counter and rows are
 * returned in ascending id order. The `Session` class holds the staged
 * table (what queries on the session see) and the table as of the last
 * commit.
 */
module Store {
  import opened Wrappers

  type Id = int

  /** A clock reading; the clock itself is a parameter of every operation. */
  type Time = int

  /** An embedding vector; the empty sequence stands for a missing one. */
  type Embedding = seq<real>

  /** The `connections` entry of a record's metadata. */
  datatype Links = Links(bubbleIds: seq<Id>, scores: map<Id, real>)

  /** Record metadata: the `connections` entry and every other key, kept opaque. */
  datatype Metadata = Metadata(connections: Option<Links>, others: map<string, string>)

  /** `{}` (and a null metadata column, which every writer treats as `{}`). */
  const EMPTY_METADATA: Metadata := Metadata(None, map[])

  datatype Memory = Memory(
    conversationId: int,
    text: string,
    embedding: Embedding,
    isEpisodic: bool,
    occurredAt: Option<Time>,
    sessionId: Option<int>,
    importance: Option<real>,
    isActive: bool,
    metadata: Metadata,
    createdAt: Time,
    updatedAt: Time)

  /** Python truthiness of the embedding column (`if mem.embedding:`). */
  predicate HasEmbedding(m: Memory)
  {
    |m.embedding| > 0
  }

  /**
   * The services the core calls but does not define: the embedding model,
   * cosine similarity, Python's `round(x, 3)` and `round(x, 4)` on floats,
   * and `float(s)` on a string (None when it raises ValueError).
   */
  datatype Oracles = Oracles(
    embed: string -> Embedding,
    similarity: (Embedding, Embedding) -> real,
    round3: real -> real,
    round4: real -> real,
    parseFloat: string -> Option<real>)

  /** `order` without `id`. */
  function Without(order: seq<Id>, id: Id): (r: seq<Id>)
    ensures forall x :: x in r <==> x in order && x != id
    ensures |r| <= |order|
  {
    if order == [] then []
    else (if order[0] == id then [] else [order[0]]) + Without(order[1..], id)
  }

  ghost predicate Increasing(s: seq<Id>)
  {
    forall i, j :: 0 <= i < j < |s| ==> s[i] < s[j]
  }

  lemma ConsIncreasing(h: Id, s: seq<Id>)
    requires Increasing(s)
    requires forall j :: 0 <= j < |s| ==> h < s[j]
    ensures Increasing([h] + s)
  {
    var r := [h] + s;
    forall i, j | 0 <= i < j < |r|
      ensures r[i] < r[j]
    {
      assert r[j] == s[j - 1];
      if i > 0 {
        assert r[i] == s[i - 1];
      }
    }
  }

  lemma {:induction false} WithoutIncreasing(order: seq<Id>, id: Id)
    requires Increasing(order)
    ensures Increasing(Without(order, id))
  {
    if order != [] {
      var tail := order[1..];
      assert Increasing(tail);
      WithoutIncreasing(tail, id);
      var rt := Without(tail, id);
      forall j | 0 <= j < |rt|
        ensures order[0] < rt[j]
      {
        assert rt[j] in tail;
      }
      if order[0] != id {
        assert Without(order, id) == [order[0]] + rt;
        ConsIncreasing(order[0], rt);
      } else {
        assert Without(order, id) == rt;
      }
    }
  }

  datatype Table = Table(rows: map<Id, Memory>, order: seq<Id>, nextId: Id) {

    /**
     * `order` lists every row exactly once, by ascending id, and every id
     * is below the auto-increment counter.
     */
    ghost predicate Valid()
    {
      && Increasing(order)
      && (forall i :: 0 <= i < |order| ==> order[i] in rows)
      && (forall id :: id in rows ==> id in order)
      && (forall id :: id in rows ==> id < nextId)
    }

    /** `db.add(m)` followed by a flush: the row gets the next id. */
    function Insert(m: Memory): (r: Table)
      requires Valid()
      ensures r.Valid()
      ensures nextId !in rows && r.rows == rows[nextId := m]
      ensures r.order == order + [nextId] && r.nextId == nextId + 1
    {
      Table(rows[nextId := m], order + [nextId], nextId + 1)
    }

    /** Assigning columns of a loaded row. */
    function Replace(id: Id, m: Memory): (r: Table)
      requires Valid() && id in rows
      ensures r.Valid()
      ensures r.rows == rows[id := m] && r.order == order && r.nextId == nextId
    {
      Table(rows[id := m], order, nextId)
    }

    /** `db.delete(m)`. */
    function Remove(id: Id): (r: Table)
      requires Valid()
      ensures r.Valid()
      ensures r.rows == rows - {id} && r.nextId == nextId
      ensures forall x :: x in r.order <==> x in order && x != id
    {
      WithoutIncreasing(order, id);
      var r := Table(rows - {id}, Without(order, id), nextId);
      forall i | 0 <= i < |r.order|
        ensures r.order[i] in r.rows
      {
        assert r.order[i] in order;
      }
      forall x | x in r.rows
        ensures x in r.order
      {
        assert x in order;
      }
      r
    }
  }

  /** The empty table the auto-increment counter starts on. */
  const EMPTY_TABLE: Table := Table(map[], [], 1)

  /**
   * The session: `table` is what queries and `get` on the session return,
   * `committed` the rows as of the last commit.
   */
  class Session {
    var table: Table
    var committed: map<Id, Memory>
    var commits: nat

    ghost predicate Valid()
      reads this
    {
      table.Valid()
    }

    constructor (initial: Table)
      requires initial.Valid()
      ensures Valid()
      ensures table == initial && committed == initial.rows && commits == 0
    {
      table := initial;
      committed := initial.rows;
      commits := 0;
    }

    /** `db.get(Memory, id)`. */
    function Get(id: Id): (r: Option<Memory>)
      reads this
      ensures r.Some? <==> id in table.rows
      ensures r.Some? ==> r.value == table.rows[id]
    {
      if id in table.rows then Some(table.rows[id]) else None
    }

    /** `db.add(m); db.flush()`. */
    method Add(m: Memory) returns (id: Id)
      requires Valid()
      modifies this
      ensures Valid()
      ensures id == old(table.nextId) && id !in old(table.rows)
      ensures table == old(table).Insert(m)
      ensures committed == old(committed) && commits == old(commits)
    {
      id := table.nextId;
      table := table.Insert(m);
    }

    /** Assigning columns of the loaded row `id`. */
    method Put(id: Id, m: Memory)
      requires Valid() && id in table.rows
      modifies this
      ensures Valid()
      ensures table == old(table).Replace(id, m)
      ensures committed == old(committed) && commits == old(commits)
    {
      table := table.Replace(id, m);
    }

    /** `db.delete(m)` for the loaded row `id`. */
    method Delete(id: Id)
      requires Valid() && id in table.rows
      modifies this
      ensures Valid()
      ensures table == old(table).Remove(id)
      ensures committed == old(committed) && commits == old(commits)
    {
      table := table.Remove(id);
    }

    /** `db.commit()`: the staged rows become durable. */
    method Commit()
      requires Valid()
      modifies this
      ensures Valid()
      ensures table == old(table)
      ensures committed == table.rows && commits == old(commits) + 1
    {
      committed := table.rows;
      commits := commits + 1;
    }
  }
}
