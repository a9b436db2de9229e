/**
 * The standalone `find_connections`: the same selection and reverse links
 * as the copy in the bubble creator, followed by a commit on the path that
 * writes them.
 */
module ConnectionFinder {
  import opened Store
  import opened Ranking
  import opened ConnectionGraph
  import BubbleCreator

  /**
   * Connects `newId` as `Connect` describes. When there is nothing to
   * connect the rows are untouched and nothing is committed; otherwise the
   * links are written and committed once.
   */
  method FindConnections(db: Session, newId: Id, conv: int, orc: Oracles) returns (ids: seq<Id>)
    requires db.Valid() && newId in db.table.rows
    modifies db
    ensures db.Valid()
    ensures db.table == Connect(old(db.table), newId, conv, orc).table
    ensures ids == Connect(old(db.table), newId, conv, orc).ids
    ensures ids == [] ==> db.table == old(db.table) && db.committed == old(db.committed) && db.commits == old(db.commits)
    ensures ids != [] ==> db.committed == db.table.rows && db.commits == old(db.commits) + 1
  {
    var t0 := db.table;
    ConnectIds(t0, newId, conv, orc);
    var existing := Candidates(t0, newId, conv);
    if existing == [] {
      return [];
    }
    var scored := BubbleCreator.ScoreExisting(t0.rows, existing, t0.rows[newId].embedding, orc);
    var top := TopK(scored, MAX_CONNECTIONS);
    if top == [] {
      return [];
    }
    ids := Items(top);
    db.Put(newId, LinkNew(t0.rows[newId], top));
    BubbleCreator.WriteBackLinks(db, newId, top);
    db.Commit();
  }
}
