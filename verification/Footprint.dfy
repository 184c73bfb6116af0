// What a hard purge must remove, table by table in the server's own names.
module Footprint {
  import opened Purge

  // The row carries one of these ids in this column.
  predicate Has(r: Row, col: string, ids: set<string>) {
    col in r && r[col] in ids
  }

  // The row belongs to one of these posts.
  predicate BelongsTo(table: string, r: Row, ids: set<string>) {
    || (table == "posts" && Has(r, "id", ids))
    || (table == "fileinfo" && Has(r, "post_id", ids))
    || (table == "reactions" && Has(r, "post_id", ids))
    || (table == "mentions" && Has(r, "post_id", ids))
  }

  // The post has no row of its own and none in the three related tables.
  ghost predicate NothingLeft(t: Tables, id: string) {
    && ("posts" in t ==> forall r | r in t["posts"] :: !Has(r, "id", {id}))
    && ("fileinfo" in t ==> forall r | r in t["fileinfo"] :: !Has(r, "post_id", {id}))
    && ("reactions" in t ==> forall r | r in t["reactions"] :: !Has(r, "post_id", {id}))
    && ("mentions" in t ==> forall r | r in t["mentions"] :: !Has(r, "post_id", {id}))
  }

  // Every table lost exactly the rows that belong to these posts.
  ghost predicate RemovedExactly(before: Tables, after: Tables, ids: set<string>) {
    && after.Keys == before.Keys
    && forall n, r | n in before :: r in after[n] <==> r in before[n] && !BelongsTo(n, r, ids)
  }

  lemma SelectsWhatBelongs(table: string, r: Row, ids: set<string>)
    ensures Selected(FOOTPRINT, table, r, ids) <==> BelongsTo(table, r, ids)
  {
    var f := FOOTPRINT;
    assert f[0] == Target("posts", "id") && f[1] == Target("fileinfo", "post_id");
    assert f[2] == Target("reactions", "post_id") && f[3] == Target("mentions", "post_id");
  }

  lemma PurgeRemovesWhatBelongs(t: Tables, ids: set<string>)
    ensures RemovedExactly(t, Purged(FOOTPRINT, t, ids), ids)
  {
    forall n, r | n in t
      ensures r in Purged(FOOTPRINT, t, ids)[n] <==> r in t[n] && !BelongsTo(n, r, ids)
    {
      SelectsWhatBelongs(n, r, ids);
    }
  }

  lemma GoneIsNothingLeft(t: Tables, id: string)
    ensures !HasRows(FOOTPRINT, t, id) <==> NothingLeft(t, id)
  {
    var f := FOOTPRINT;
    assert f[0] == Target("posts", "id") && f[1] == Target("fileinfo", "post_id");
    assert f[2] == Target("reactions", "post_id") && f[3] == Target("mentions", "post_id");
  }

  // The purger over the plugin's footprint removes exactly what belongs to the posts
  // of the batch when it commits, as it does without a fault while the four tables
  // exist, and nothing otherwise.
  method PurgePosts(purger: SqlPurger, postIDs: seq<string>, fault: TxFault) returns (ok: bool)
    requires purger.footprint == FOOTPRINT
    modifies purger
    ensures ok ==> RemovedExactly(old(purger.db), purger.db, set id | id in postIDs)
    ensures ok ==> forall id | id in postIDs :: NothingLeft(purger.db, id)
    ensures !ok ==> purger.db == old(purger.db)
    ensures fault.NoFault? && {"posts", "fileinfo", "reactions", "mentions"} <= old(purger.db).Keys ==> ok
  {
    ghost var ids := set id | id in postIDs;
    FourTables(purger.db);
    var r := purger.Purge(postIDs, fault);
    ok := r.Success?;
    PurgeRemovesWhatBelongs(old(purger.db), ids);
    forall id | id in postIDs && ok
      ensures NothingLeft(purger.db, id)
    {
      NothingLeftAfter(old(purger.db), purger.db, ids, id);
    }
  }

  lemma FourTables(t: Tables)
    ensures TablesExist(FOOTPRINT, t) <==> {"posts", "fileinfo", "reactions", "mentions"} <= t.Keys
  {
    var f := FOOTPRINT;
    assert f[0].table == "posts" && f[1].table == "fileinfo" && f[2].table == "reactions" && f[3].table == "mentions";
  }

  lemma NothingLeftAfter(before: Tables, after: Tables, ids: set<string>, id: string)
    requires RemovedExactly(before, after, ids) && id in ids
    ensures NothingLeft(after, id)
  {
  }
}
