// One sweep tick: fetch a batch, purge it, prune its index rows.
module Sweeper {
  import opened Allowlist
  import opened ExpireIndex
  import opened Purge
  import opened PurgerSwitch
  import opened SweepRuns

  const DEFAULT_BATCH_SIZE := 500

  // What fails during a tick.
  datatype TickFaults = TickFaults(query: QueryFault, tx: TxFault, softFailures: set<PostId>, prune: bool)

  // What the tick logs at its exit.
  datatype TickLog = QueryError | NothingExpired | PurgeFailed(n: nat) | PruneFailed | Pruned(n: nat)

  predicate FaultFree(fp: seq<Target>, t: Tables, faults: TickFaults) {
    faults.query.NoFault? && Commits(fp, t, faults.tx) && !faults.prune
  }

  // What a tick that soft-deletes may change: the index, and DeletePost's calls and
  // deletions.
  datatype SoftWorld = SoftWorld(index: Index, calls: seq<PostId>, deleted: set<PostId>)

  ghost predicate SoftTick(w: SoftWorld, after: SoftWorld, failures: set<PostId>,
                           now: int, limit: nat, log: TickLog, batch: seq<Entry>) {
    && !log.PurgeFailed?
    && (log.QueryError? ==> after == w)
    && (!log.QueryError? ==>
          && IsBatch(w.index, now, limit, batch)
          && after.calls == w.calls + PostIds(batch)
          && after.deleted == w.deleted + (Ids(batch) - failures)
          && after.index == if log.PruneFailed? then w.index else w.index - Ids(batch))
  }

  // A soft tick that prunes takes exactly its batch out of the index; all of these
  // posts are deleted exactly when DeletePost failed for none of them that was not
  // deleted before.
  lemma PrunedPostsAreDeletedIff(w: SoftWorld, after: SoftWorld, failures: set<PostId>,
                                 now: int, limit: nat, log: TickLog, batch: seq<Entry>)
    requires SoftTick(w, after, failures, now, limit, log, batch) && log.Pruned?
    ensures w.index.Keys - after.index.Keys == Ids(batch)
    ensures Ids(batch) <= after.deleted <==> Ids(batch) * failures <= w.deleted
  {
  }

  function PostIds(batch: seq<Entry>): seq<PostId> {
    seq(|batch|, i requires 0 <= i < |batch| => batch[i].postId)
  }

  lemma PostIdsElements(batch: seq<Entry>)
    ensures Elements(PostIds(batch)) == Ids(batch)
    ensures (set id | id in PostIds(batch)) == Ids(batch)
  {
    forall e | e in batch
      ensures e.postId in PostIds(batch)
    {
      var i :| 0 <= i < |batch| && batch[i] == e;
      assert PostIds(batch)[i] == e.postId;
    }
  }

  class Sweeper {
    const store: SqlStore
    const purger: ConfigPurger
    const batchSize: nat

    constructor (store: SqlStore, purger: ConfigPurger, batchSize: int)
      ensures this.store == store && this.purger == purger
      ensures this.batchSize > 0 && (this.batchSize == batchSize || (batchSize <= 0 && this.batchSize == 500))
    {
      this.store := store;
      this.purger := purger;
      this.batchSize := if batchSize <= 0 then DEFAULT_BATCH_SIZE else batchSize;
    }

    // Every exit of a tick. Off the soft path it is one of the ticks of SweepRuns,
    // and what it logs tells which; without faults it finishes unless the schema
    // guard skips it. On the soft path the batch went to DeletePost in order and the
    // tables kept every row.
    method Run(now: int, licensed: bool, version: string, faults: TickFaults)
      returns (log: TickLog, ghost batch: seq<Entry>, ghost tick: Tick)
      requires WellKeyed(store.rows)
      modifies store, purger.hard, purger.soft
      ensures WellKeyed(store.rows)
      ensures log.QueryError? ==> !faults.query.NoFault? && batch == []
      ensures faults.query.StatementFails? ==> log.QueryError?
      ensures !log.QueryError? ==> IsBatch(old(store.rows), now, batchSize, batch)
      ensures var mode := Decide(Environment(purger.cfg.conf, licensed, version));
              var committed := Commits(purger.hard.footprint, old(purger.hard.db), faults.tx);
              !log.QueryError? ==>
                log == if batch == [] then NothingExpired
                       else if mode == Skip || (mode == Hard && !committed) then PurgeFailed(|batch|)
                       else if faults.prune then PruneFailed
                       else Pruned(|batch|)
      ensures tick.Aborted? || tick.batch == batch
      ensures var mode := Decide(Environment(purger.cfg.conf, licensed, version));
              if mode == Soft then
                && purger.hard.db == old(purger.hard.db)
                && SoftTick(old(SoftWorld(store.rows, purger.soft.deletePostCalls, purger.soft.deleted)),
                            SoftWorld(store.rows, purger.soft.deletePostCalls, purger.soft.deleted),
                            faults.softFailures, now, batchSize, log, batch)
              else
                && purger.soft.deletePostCalls == old(purger.soft.deletePostCalls)
                && purger.soft.deleted == old(purger.soft.deleted)
                && Possible(old(World(store.rows, purger.hard.db)), now, batchSize, tick)
                && World(store.rows, purger.hard.db)
                     == After(purger.hard.footprint, old(World(store.rows, purger.hard.db)), tick)
                && (log.QueryError? || log.PurgeFailed? <==> tick.Aborted?)
                && (log.PruneFailed? <==> tick.PurgedOnly?)
                && (mode == Skip ==> tick in {Aborted, Finished([])})
                && (mode == Hard && FaultFree(purger.hard.footprint, old(purger.hard.db), faults) ==> tick.Finished?)
    {
      batch, tick := [], Aborted;
      var entries := store.GetExpired(now, batchSize, faults.query);
      if entries.Failure? {
        return QueryError, batch, tick;
      }
      batch := entries.value;
      if entries.value == [] {
        tick := Finished([]);
        assert store.rows - Ids([]) == store.rows;
        PurgeNothing(purger.hard.footprint, purger.hard.db, Ids([]));
        return NothingExpired, batch, tick;
      }
      var postIDs := new PostId[|entries.value|];
      for i := 0 to |entries.value|
        invariant postIDs[..i] == PostIds(batch)[..i]
        modifies postIDs
      {
        postIDs[i] := entries.value[i].postId;
      }
      assert postIDs[..] == PostIds(batch);
      PostIdsElements(batch);

      var purged := purger.Purge(postIDs[..], licensed, version, faults.tx, faults.softFailures);
      if purged.Failure? {
        return PurgeFailed(postIDs.Length), batch, tick;
      }
      var pruned := store.DeleteByPostIDs(postIDs[..], faults.prune);
      if !pruned {
        tick := PurgedOnly(batch);
        return PruneFailed, batch, tick;
      }
      tick := Finished(batch);
      return Pruned(postIDs.Length), batch, tick;
    }
  }
}
