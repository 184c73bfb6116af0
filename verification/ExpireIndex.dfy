// The expire index: one row per indexed post, ordered retrieval of expired rows.
module ExpireIndex {
  import opened Wrappers
  import SqlText

  type PostId = string
  type ChannelId = string

  // rootId is the thread root (the post's own id for a thread root); times are in
  // Unix milliseconds.
  datatype Entry = Entry(postId: PostId, channelId: ChannelId, rootId: PostId, expireAt: int, createdAt: int)

  // The rows by primary key.
  type Index = map<PostId, Entry>

  ghost predicate WellKeyed(idx: Index) {
    forall id | id in idx :: idx[id].postId == id
  }

  // Insert, or on conflict replace everything but created_at.
  function Upserted(idx: Index, e: Entry): Index {
    if e.postId in idx then idx[e.postId := e.(createdAt := idx[e.postId].createdAt)]
    else idx[e.postId := e]
  }

  // Overwrite the expiry of a whole thread.
  function Bumped(idx: Index, root: PostId, at: int): Index {
    map id | id in idx :: if idx[id].rootId == root then idx[id].(expireAt := at) else idx[id]
  }

  // Inserting the same post again keeps the first creation time and takes everything
  // else from the later row; no other row is concerned.
  lemma UpsertTwice(idx: Index, first: Entry, second: Entry, other: PostId)
    requires first.postId == second.postId && first.postId !in idx
    ensures var once, twice := Upserted(idx, first), Upserted(Upserted(idx, first), second);
            && once[first.postId] == first
            && twice[first.postId] == second.(createdAt := first.createdAt)
            && twice.Keys == idx.Keys + {first.postId}
            && (other in idx ==> twice[other] == idx[other])
  {
  }

  function Expired(idx: Index, now: int): set<PostId> {
    set id | id in idx && idx[id].expireAt <= now
  }

  function Ids(rows: seq<Entry>): set<PostId> {
    set e | e in rows :: e.postId
  }

  function Elements(ids: seq<PostId>): set<PostId> {
    set id | id in ids
  }

  // Oldest first, at most limit rows, ties in any order: what the query may return.
  ghost predicate IsBatch(idx: Index, now: int, limit: nat, batch: seq<Entry>) {
    && |batch| <= limit
    && (forall e | e in batch :: e.postId in idx && idx[e.postId] == e && e.expireAt <= now)
    && (forall i, j | 0 <= i < j < |batch| ::
          batch[i].postId != batch[j].postId && batch[i].expireAt <= batch[j].expireAt)
    && (forall id | id in Expired(idx, now) - Ids(batch) ::
          |batch| == limit && forall e | e in batch :: e.expireAt <= idx[id].expireAt)
  }

  lemma {:induction false} DistinctIdsCount(batch: seq<Entry>)
    requires forall i, j | 0 <= i < j < |batch| :: batch[i].postId != batch[j].postId
    ensures |Ids(batch)| == |batch|
  {
    if batch != [] {
      var init, last := batch[..|batch| - 1], batch[|batch| - 1];
      DistinctIdsCount(init);
      assert batch == init + [last];
      assert Ids(batch) == Ids(init) + {last.postId};
      assert last.postId !in Ids(init);
    }
  }

  // A batch takes the oldest rows it can and no fewer than it may.
  lemma BatchSize(idx: Index, now: int, limit: nat, batch: seq<Entry>)
    requires IsBatch(idx, now, limit, batch)
    ensures Ids(batch) <= Expired(idx, now)
    ensures |Ids(batch)| == |batch|
    ensures |batch| == if |Expired(idx, now)| <= limit then |Expired(idx, now)| else limit
    ensures |Expired(idx, now)| <= limit ==> Ids(batch) == Expired(idx, now)
  {
    DistinctIdsCount(batch);
    var expired := Expired(idx, now);
    assert Ids(batch) <= expired;
    var rest := expired - Ids(batch);
    assert |rest| == |expired| - |batch|;
    if id :| id in rest {
      assert |batch| == limit;
      assert |rest| > 0;
    } else {
      assert rest == {};
      assert Ids(batch) == expired;
    }
  }

  // A row left out of a full batch is at least as late as everything in it.
  lemma LeftOutIsLater(idx: Index, now: int, limit: nat, batch: seq<Entry>, id: PostId)
    requires IsBatch(idx, now, limit, batch)
    requires id in Expired(idx, now) && id !in Ids(batch)
    ensures |batch| == limit && forall e | e in batch :: e.expireAt <= idx[id].expireAt
  {
  }

  // All rows of a thread carry the same expiry.
  ghost predicate Uniform(idx: Index) {
    forall a, b | a in idx && b in idx && idx[a].rootId == idx[b].rootId :: idx[a].expireAt == idx[b].expireAt
  }

  // From a uniform index a thread is split only at the end of a full batch, among
  // rows that tie with the last one returned.
  lemma BatchClosesThreads(idx: Index, now: int, limit: nat, batch: seq<Entry>, taken: PostId, left: PostId)
    requires WellKeyed(idx) && Uniform(idx) && IsBatch(idx, now, limit, batch)
    requires taken in Ids(batch)
    requires left in idx && left !in Ids(batch) && idx[left].rootId == idx[taken].rootId
    ensures |batch| == limit
    ensures batch != [] && idx[taken].expireAt == batch[|batch| - 1].expireAt
  {
  }

  // Without the limit being reached every expired thread is returned whole.
  lemma ShortBatchTakesWholeThreads(idx: Index, now: int, limit: nat, batch: seq<Entry>)
    requires WellKeyed(idx) && Uniform(idx) && IsBatch(idx, now, limit, batch) && |batch| < limit
    ensures forall id | id in idx ::
      id in Ids(batch) <==> exists m :: m in idx && idx[m].rootId == idx[id].rootId && idx[m].expireAt <= now
  {
  }

  lemma EarliestExists(idx: Index, ids: set<PostId>) returns (first: PostId)
    requires ids != {} && ids <= idx.Keys
    ensures first in ids && forall id | id in ids :: idx[first].expireAt <= idx[id].expireAt
  {
    first :| first in ids;
    var rest := ids - {first};
    if rest != {} {
      var other := EarliestExists(idx, rest);
      if idx[other].expireAt < idx[first].expireAt {
        first := other;
      }
    }
  }

  // A selection in progress: the rows taken so far and those still to choose from.
  ghost predicate Selecting(idx: Index, now: int, taken: seq<Entry>, remaining: set<PostId>) {
    && remaining == Expired(idx, now) - Ids(taken)
    && (forall e | e in taken :: e.postId in idx && idx[e.postId] == e && e.expireAt <= now)
    && (forall i, j | 0 <= i < j < |taken| ::
          taken[i].postId != taken[j].postId && taken[i].expireAt <= taken[j].expireAt)
    && (forall e, id | e in taken && id in remaining :: e.expireAt <= idx[id].expireAt)
  }

  lemma SelectNext(idx: Index, now: int, taken: seq<Entry>, remaining: set<PostId>, id: PostId)
    requires WellKeyed(idx) && Selecting(idx, now, taken, remaining)
    requires id in remaining && forall other | other in remaining :: idx[id].expireAt <= idx[other].expireAt
    ensures Selecting(idx, now, taken + [idx[id]], remaining - {id})
  {
    var more := taken + [idx[id]];
    assert Ids(more) == Ids(taken) + {id};
    forall i, j | 0 <= i < j < |more|
      ensures more[i].postId != more[j].postId && more[i].expireAt <= more[j].expireAt
    {
      assert more[i] == taken[i] && taken[i] in taken;
      assert taken[i].postId in Ids(taken);
    }
  }

  // What goes wrong inside one query: the statement itself, or reading on after
  // this many rows.
  datatype QueryFault = NoFault | StatementFails | ReadFailsAfter(rows: nat)

  datatype StoreError = QueryFailed | ScanFailed | WriteFailed

  // The SQL-backed store over the table mpmd_expire.
  class SqlStore {
    var rows: Index

    constructor ()
      ensures rows == map[]
    {
      rows := map[];
    }

    method Upsert(e: Entry, fails: bool) returns (ok: bool)
      modifies this
      ensures ok == !fails
      ensures rows == if fails then old(rows) else Upserted(old(rows), e)
    {
      if fails {
        return false;
      }
      if e.postId in rows {
        rows := rows[e.postId := Entry(e.postId, e.channelId, e.rootId, e.expireAt, rows[e.postId].createdAt)];
      } else {
        rows := rows[e.postId := e];
      }
      return true;
    }

    method UpdateExpireByRoot(root: PostId, at: int, fails: bool) returns (ok: bool)
      modifies this
      ensures ok == !fails
      ensures fails ==> rows == old(rows)
      ensures ok ==> rows == Bumped(old(rows), root, at)
    {
      if fails {
        return false;
      }
      var thread := set id | id in rows && rows[id].rootId == root;
      ghost var before := rows;
      while thread != {}
        invariant rows.Keys == before.Keys
        invariant thread <= rows.Keys && forall id | id in thread :: before[id].rootId == root
        invariant forall id | id in rows ::
          rows[id] == if before[id].rootId == root && id !in thread then before[id].(expireAt := at) else before[id]
        decreases thread
      {
        var id :| id in thread;
        rows := rows[id := rows[id].(expireAt := at)];
        thread := thread - {id};
      }
      return true;
    }

    // The database's side of the query: pick the earliest remaining row, ties
    // broken arbitrarily, until the limit.
    method SelectExpired(now: int, limit: nat) returns (cursor: seq<Entry>)
      requires WellKeyed(rows)
      ensures IsBatch(rows, now, limit, cursor)
    {
      cursor := [];
      var remaining := Expired(rows, now);
      while |cursor| < limit && remaining != {}
        invariant |cursor| <= limit
        invariant Selecting(rows, now, cursor, remaining)
        decreases remaining
      {
        ghost var first := EarliestExists(rows, remaining);
        var id :| id in remaining && forall other | other in remaining :: rows[id].expireAt <= rows[other].expireAt;
        SelectNext(rows, now, cursor, remaining, id);
        cursor := cursor + [rows[id]];
        remaining := remaining - {id};
      }
    }

    method GetExpired(now: int, limit: nat, fault: QueryFault) returns (r: Result<seq<Entry>, StoreError>)
      requires WellKeyed(rows)
      ensures r.Success? ==> IsBatch(rows, now, limit, r.value)
      ensures fault.NoFault? ==> r.Success?
      ensures fault.StatementFails? ==> r == Failure(QueryFailed)
      ensures fault.ReadFailsAfter? ==> r == Failure(ScanFailed) || (r.Success? && |r.value| < fault.rows)
    {
      if fault.StatementFails? {
        return Failure(QueryFailed);
      }
      var cursor := SelectExpired(now, limit);
      var out := [];
      for i := 0 to |cursor|
        invariant out == cursor[..i]
        invariant fault.ReadFailsAfter? ==> i <= fault.rows
      {
        if fault == ReadFailsAfter(i) {
          return Failure(ScanFailed);
        }
        out := out + [cursor[i]];
      }
      if fault == ReadFailsAfter(|cursor|) {
        return Failure(ScanFailed);
      }
      return Success(out);
    }

    method DeleteByPostIDs(postIDs: seq<PostId>, fails: bool) returns (ok: bool)
      modifies this
      ensures ok == (postIDs == [] || !fails)
      ensures rows == if ok then old(rows) - Elements(postIDs) else old(rows)
    {
      if postIDs == [] {
        assert rows - Elements(postIDs) == rows;
        return true;
      }
      var _, args := SqlText.InClause(postIDs);
      if fails {
        return false;
      }
      rows := map id | id in rows && id !in args :: rows[id];
      return true;
    }
  }
}
