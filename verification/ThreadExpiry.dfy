// Indexing of a new post, and what sequential deliveries make of a thread's expiry.
module ThreadExpiry {
  import opened Wrappers
  import opened Int64
  import opened TtlRules
  import opened KvStore
  import opened TtlService
  import opened ExpireIndex
  import opened Posts

  // Insert the post's row; a reply then overwrites the expiry of its whole thread.
  function Delivered(idx: Index, post: Post, at: int, createdAt: int): Index {
    var inserted := Upserted(idx, RowFor(post, at, createdAt));
    if post.rootId != "" then Bumped(inserted, post.rootId, at) else inserted
  }

  // In the columns' own names: the post has its row, every row of a reply's thread
  // expires with it, and no other row changed.
  ghost predicate RowsAfterPost(before: Index, after: Index, post: Post, at: int, now: int) {
    && after.Keys == before.Keys + {post.id}
    && after[post.id].postId == post.id
    && after[post.id].channelId == post.channelId
    && after[post.id].rootId == (if post.rootId == "" then post.id else post.rootId)
    && after[post.id].expireAt == at
    && after[post.id].createdAt == (if post.id in before then before[post.id].createdAt else now)
    && forall id | id in before && id != post.id ::
         after[id] == if post.rootId != "" && before[id].rootId == post.rootId then before[id].(expireAt := at) else before[id]
  }

  datatype HookError = TtlUnreadable | UpsertFailed | BumpFailed

  class ExpiryService {
    const store: SqlStore
    const ttl: Service

    constructor (store: SqlStore, ttl: Service)
      ensures this.store == store && this.ttl == ttl
    {
      this.store := store;
      this.ttl := ttl;
    }

    // A channel without TTL leaves the index alone. Otherwise the expiry is send
    // time plus TTL in 64-bit milliseconds; a failure between the two writes leaves
    // the new row without the bump.
    method OnPostCreated(post: Post, now: int, getFails: bool, upsertFails: bool, bumpFails: bool)
      returns (r: Result<(), HookError>)
      modifies store
      ensures var stored := Decoded(Lookup(ttl.store.kv, Key(post.channelId)));
              if getFails || stored.Failure? then
                r == Failure(TtlUnreadable) && store.rows == old(store.rows)
              else if stored.value.None? then
                r == Success(()) && store.rows == old(store.rows)
              else
                var at := ExpiryOf(post.createAt, stored.value.value.durationSeconds);
                if upsertFails then r == Failure(UpsertFailed) && store.rows == old(store.rows)
                else if post.rootId != "" && bumpFails then
                  r == Failure(BumpFailed) && store.rows == Upserted(old(store.rows), RowFor(post, at, now))
                else r == Success(()) && store.rows == Delivered(old(store.rows), post, at, now)
      ensures var key := Key(post.channelId);
              !getFails && !upsertFails && !bumpFails && key in ttl.store.kv && ttl.store.kv[key].Json?
              && InBounds(ttl.store.kv[key].setting.durationSeconds) && RealisticTime(post.createAt) ==>
                RowsAfterPost(old(store.rows), store.rows, post, post.createAt + 1000 * ttl.store.kv[key].setting.durationSeconds, now)
    {
      var read := ttl.GetTTL(post.channelId, getFails);
      if read.Failure? {
        return Failure(TtlUnreadable);
      }
      if read.value.None? {
        return Success(());
      }
      var d := read.value.value;
      StoredHook(ttl.store.kv, post);
      var expireAt := Wrap(post.createAt + Milliseconds(d));
      var root := ThreadRoot(post);
      var ok := store.Upsert(Entry(post.id, post.channelId, root, expireAt, now), upsertFails);
      if !ok {
        return Failure(UpsertFailed);
      }
      if post.rootId != "" {
        ok := store.UpdateExpireByRoot(root, expireAt, bumpFails);
        if !ok {
          return Failure(BumpFailed);
        }
      }
      return Success(());
    }
  }

  // A stored setting in bounds makes a post expire after that many seconds.
  lemma StoredHook(kv: Contents, post: Post)
    ensures var key := Key(post.channelId);
            key in kv && kv[key].Json? && InBounds(kv[key].setting.durationSeconds) && RealisticTime(post.createAt) ==>
              ExpiryOf(post.createAt, kv[key].setting.durationSeconds)
                == post.createAt + 1000 * kv[key].setting.durationSeconds
  {
    var key := Key(post.channelId);
    if key in kv && kv[key].Json? && InBounds(kv[key].setting.durationSeconds) {
      StoredSecondsAreExact(kv[key].setting.durationSeconds, post.createAt);
    }
  }

  // ---- Sequential runs ----

  // A delivery with the TTL its hook reads, or rows leaving the index.
  datatype Event =
    | Deliver(post: Post, ttl: Option<int>, createdAt: int)
    | Prune(ids: set<PostId>)

  predicate Indexed(e: Event) {
    e.Deliver? && e.ttl.Some?
  }

  function Value(e: Event): int
    requires Indexed(e)
  {
    ExpiryOf(e.post.createAt, e.ttl.value)
  }

  predicate InThread(e: Event, root: PostId) {
    Indexed(e) && ThreadRoot(e.post) == root
  }

  function Step(idx: Index, e: Event): Index {
    match e
    case Deliver(post, _, createdAt) => if Indexed(e) then Delivered(idx, post, Value(e), createdAt) else idx
    case Prune(ids) => idx - ids
  }

  function Run(events: seq<Event>): Index {
    if events == [] then map[] else Step(Run(events[..|events| - 1]), events[|events| - 1])
  }

  // The expiries a thread was given, in order of delivery.
  function ThreadValues(events: seq<Event>, root: PostId): seq<int> {
    if events == [] then []
    else
      var last := events[|events| - 1];
      ThreadValues(events[..|events| - 1], root) + (if InThread(last, root) then [Value(last)] else [])
  }

  ghost predicate IsMax(values: seq<int>, m: int) {
    m in values && forall v | v in values :: v <= m
  }

  // No thread root is delivered after another post of its thread.
  ghost predicate RootsFirst(events: seq<Event>) {
    forall i, j | 0 <= i < j < |events| && Indexed(events[j]) && InThread(events[i], ThreadRoot(events[j].post)) ::
      events[j].post.rootId != ""
  }

  // Expiries do not decrease along any thread.
  ghost predicate NonDecreasing(events: seq<Event>) {
    forall i, j | 0 <= i < j < |events| && Indexed(events[j]) && InThread(events[i], ThreadRoot(events[j].post)) ::
      Value(events[i]) <= Value(events[j])
  }

  lemma {:induction false} ThreadValuesAreEvents(events: seq<Event>, root: PostId, v: int)
    ensures v in ThreadValues(events, root)
      <==> exists i :: 0 <= i < |events| && InThread(events[i], root) && Value(events[i]) == v
  {
    if events != [] {
      var init := events[..|events| - 1];
      ThreadValuesAreEvents(init, root, v);
      assert events == init + [events[|events| - 1]];
      assert forall i | 0 <= i < |init| :: init[i] == events[i];
      if i :| 0 <= i < |events| && InThread(events[i], root) && Value(events[i]) == v {
        assert i < |init| ==> init[i] == events[i];
      }
    }
  }

  ghost predicate RowsAreMaxima(events: seq<Event>, idx: Index) {
    forall id | id in idx :: IsMax(ThreadValues(events, idx[id].rootId), idx[id].expireAt)
  }

  // Every surviving row carries its thread's maximum after this run and after each
  // of its prefixes.
  ghost predicate AlwaysMaxima(events: seq<Event>) {
    RowsAreMaxima(events, Run(events)) && (events != [] ==> AlwaysMaxima(events[..|events| - 1]))
  }

  predicate Concerns(e: Event, id: PostId) {
    if e.Prune? then id in e.ids else Indexed(e) && e.post.id == id
  }

  // The post was delivered in this thread and neither pruned nor delivered again since.
  ghost predicate Present(events: seq<Event>, id: PostId, root: PostId) {
    exists i :: 0 <= i < |events| && LastDelivery(events, i, id) && InThread(events[i], root)
  }

  ghost predicate LastDelivery(events: seq<Event>, i: int, id: PostId)
    requires 0 <= i < |events|
  {
    Indexed(events[i]) && events[i].post.id == id && forall k | i < k < |events| :: !Concerns(events[k], id)
  }

  // What may be delivered next: no earlier value of the thread is larger; and a root
  // that comes after posts of its thread which are still there has a value that was
  // given before.
  ghost predicate Safe(before: seq<Event>, e: Event)
    requires Indexed(e)
  {
    var values := ThreadValues(before, ThreadRoot(e.post));
    && (forall v | v in values :: v <= Value(e))
    && (e.post.rootId == "" && (exists id :: id != e.post.id && Present(before, id, e.post.id)) ==> Value(e) in values)
  }

  ghost predicate AlwaysSafe(events: seq<Event>) {
    events != [] ==>
      var init, last := events[..|events| - 1], events[|events| - 1];
      AlwaysSafe(init) && (Indexed(last) ==> Safe(init, last))
  }

  lemma {:induction false} RowsArePresent(events: seq<Event>, id: PostId, root: PostId)
    ensures id in Run(events) && Run(events)[id].rootId == root <==> Present(events, id, root)
  {
    if events != [] {
      var init, last := events[..|events| - 1], events[|events| - 1];
      assert events == init + [last];
      RowsArePresent(init, id, root);
      if Concerns(last, id) {
        assert last.Deliver? ==> LastDelivery(events, |init|, id);
      } else {
        assert forall i | 0 <= i < |init| :: LastDelivery(events, i, id) <==> LastDelivery(init, i, id);
      }
    }
  }

  lemma ThreadRows(events: seq<Event>, root: PostId)
    ensures forall id :: id in Run(events) && Run(events)[id].rootId == root <==> Present(events, id, root)
  {
    forall id
      ensures id in Run(events) && Run(events)[id].rootId == root <==> Present(events, id, root)
    {
      RowsArePresent(events, id, root);
    }
  }

  lemma ValuesGrow(init: seq<Event>, last: Event, root: PostId)
    requires Indexed(last)
    ensures ThreadValues(init + [last], root)
         == ThreadValues(init, root) + (if ThreadRoot(last.post) == root then [Value(last)] else [])
  {
    assert (init + [last])[..|init|] == init;
  }

  lemma SafeKeepsMaxima(init: seq<Event>, last: Event, id: PostId)
    requires RowsAreMaxima(init, Run(init)) && Indexed(last) && Safe(init, last)
    requires id in Step(Run(init), last)
    ensures var row := Step(Run(init), last)[id];
            IsMax(ThreadValues(init + [last], row.rootId), row.expireAt)
  {
    var root, m := ThreadRoot(last.post), Value(last);
    ValuesGrow(init, last, Step(Run(init), last)[id].rootId);
    MaxOfAppended(ThreadValues(init, root), m);
    DeliveredRow(Run(init), last.post, m, last.createdAt, id);
    ThreadRows(init, root);
  }

  lemma MaximaNeedSafety(init: seq<Event>, last: Event)
    requires RowsAreMaxima(init, Run(init)) && Indexed(last)
    requires RowsAreMaxima(init + [last], Step(Run(init), last))
    ensures Safe(init, last)
  {
    var idx, next, root, m := Run(init), Step(Run(init), last), ThreadRoot(last.post), Value(last);
    var before := ThreadValues(init, root);
    ValuesGrow(init, last, root);
    assert next[last.post.id].rootId == root && next[last.post.id].expireAt == m;
    assert IsMax(before + [m], m);
    assert forall v | v in before :: v in before + [m];
    if last.post.rootId == "" {
      ThreadRows(init, root);
      forall id | id != last.post.id && Present(init, id, root)
        ensures m in before
      {
        assert id in next && next[id] == idx[id];
        assert IsMax(before, idx[id].expireAt) && IsMax(before + [m], idx[id].expireAt);
        assert m in before + [m];
      }
    }
  }

  lemma DeliveryKeepsMaximaIffSafe(init: seq<Event>, last: Event)
    requires RowsAreMaxima(init, Run(init)) && Indexed(last)
    ensures RowsAreMaxima(init + [last], Step(Run(init), last)) <==> Safe(init, last)
  {
    if Safe(init, last) {
      forall id | id in Step(Run(init), last)
        ensures var row := Step(Run(init), last)[id];
                IsMax(ThreadValues(init + [last], row.rootId), row.expireAt)
      {
        SafeKeepsMaxima(init, last, id);
      }
    } else if RowsAreMaxima(init + [last], Step(Run(init), last)) {
      MaximaNeedSafety(init, last);
    }
  }

  // For every run, late roots and prunes included: all rows carry their thread's
  // maximum after every event exactly when every delivery is safe.
  lemma {:induction false} MaximaIffSafe(events: seq<Event>)
    ensures AlwaysMaxima(events) <==> AlwaysSafe(events)
  {
    if events != [] {
      var init, last := events[..|events| - 1], events[|events| - 1];
      assert events == init + [last];
      MaximaIffSafe(init);
      if AlwaysMaxima(init) && Indexed(last) {
        DeliveryKeepsMaximaIffSafe(init, last);
      }
    }
  }

  // With roots first that is exactly when expiries do not decrease along a thread.
  lemma {:induction false} MaximaIffNonDecreasing(events: seq<Event>)
    requires RootsFirst(events)
    ensures AlwaysMaxima(events) <==> NonDecreasing(events)
  {
    MaximaIffSafe(events);
    SafeIffNonDecreasing(events);
  }

  lemma {:induction false} SafeIffNonDecreasing(events: seq<Event>)
    requires RootsFirst(events)
    ensures AlwaysSafe(events) <==> NonDecreasing(events)
  {
    if events != [] {
      var init, last := events[..|events| - 1], events[|events| - 1];
      assert forall i | 0 <= i < |init| :: init[i] == events[i];
      SafeIffNonDecreasing(init);
      if Indexed(last) {
        var root := ThreadRoot(last.post);
        forall v
          ensures v in ThreadValues(init, root)
            <==> exists i :: 0 <= i < |init| && InThread(init[i], root) && Value(init[i]) == v
        {
          ThreadValuesAreEvents(init, root, v);
        }
        if Safe(init, last) {
          forall i | 0 <= i < |init| && InThread(init[i], root)
            ensures Value(events[i]) <= Value(last)
          {
            assert Value(init[i]) in ThreadValues(init, root);
          }
        }
      }
    }
  }

  // In order, overwriting is enough: every surviving row carries the maximum of
  // send time plus TTL over all posts delivered in its thread, whatever was pruned
  // in between.
  lemma RowsCarryThreadMaximum(events: seq<Event>)
    requires RootsFirst(events) && NonDecreasing(events)
    ensures RowsAreMaxima(events, Run(events))
  {
    MaximaIffNonDecreasing(events);
  }

  // A root delivered after a reply that is still there breaks the maximum even when
  // its own value is the larger one.
  lemma LateRootBreaksMaxima()
    ensures var root, reply := Post("r", "c", "", 0), Post("p", "c", "r", 1000);
            var run := [Deliver(reply, Some(300), 0), Deliver(root, Some(3600), 0)];
            NonDecreasing(run) && !AlwaysMaxima(run)
  {
    var root, reply := Post("r", "c", "", 0), Post("p", "c", "r", 1000);
    var run := [Deliver(reply, Some(300), 0), Deliver(root, Some(3600), 0)];
    StoredSecondsAreExact(300, 1000);
    StoredSecondsAreExact(3600, 0);
    MaximaIffSafe(run);
    assert run[..1] == [run[0]] && run[..1][..0] == [];
    assert ThreadValues([run[0]], "r") == [301_000];
    assert LastDelivery([run[0]], 0, "p");
    assert Present([run[0]], "p", "r");
  }

  lemma MaxOfAppended(values: seq<int>, m: int)
    requires forall v | v in values :: v <= m
    ensures IsMax(values + [m], m)
  {
  }

  // After a delivery a row either belongs to the thread and carries the new expiry,
  // or it is an old row the delivery did not concern.
  lemma DeliveredRow(idx: Index, post: Post, at: int, createdAt: int, id: PostId)
    requires id in Delivered(idx, post, at, createdAt)
    ensures var row := Delivered(idx, post, at, createdAt)[id];
            || (row.rootId == ThreadRoot(post) && row.expireAt == at)
            || (id in idx && row == idx[id] && (row.rootId != ThreadRoot(post) || post.rootId == ""))
  {
  }

  // ---- The forward-only alternative ----

  // UPDATE ... SET expire_at = GREATEST(expire_at, at)
  function BumpedForward(idx: Index, root: PostId, at: int): Index {
    map id | id in idx ::
      if idx[id].rootId == root && idx[id].expireAt < at then idx[id].(expireAt := at) else idx[id]
  }

  function DeliveredForward(idx: Index, post: Post, at: int, createdAt: int): Index {
    var inserted := Upserted(idx, RowFor(post, at, createdAt));
    if post.rootId != "" then BumpedForward(inserted, post.rootId, at) else inserted
  }

  function StepForward(idx: Index, e: Event): Index {
    match e
    case Deliver(post, _, createdAt) => if Indexed(e) then DeliveredForward(idx, post, Value(e), createdAt) else idx
    case Prune(ids) => idx - ids
  }

  function RunForward(events: seq<Event>): Index {
    if events == [] then map[] else StepForward(RunForward(events[..|events| - 1]), events[|events| - 1])
  }

  // Just before this event no other row of its thread expires later than the value
  // it is about to write.
  ghost predicate Forward(idx: Index, e: Event) {
    Indexed(e) && e.post.rootId != "" ==>
      forall id | id in idx && id != e.post.id && idx[id].rootId == e.post.rootId :: idx[id].expireAt <= Value(e)
  }

  lemma StepsAgreeIffForward(idx: Index, e: Event)
    ensures Step(idx, e) == StepForward(idx, e) <==> Forward(idx, e)
  {
    if Indexed(e) && e.post.rootId != "" {
      var inserted := Upserted(idx, RowFor(e.post, Value(e), e.createdAt));
      forall id | id in idx && id != e.post.id
        ensures inserted[id] == idx[id]
      {
      }
      if Forward(idx, e) {
        forall id | id in inserted
          ensures Step(idx, e)[id] == StepForward(idx, e)[id]
        {
        }
      } else {
        var id :| id in idx && id != e.post.id && idx[id].rootId == e.post.rootId && idx[id].expireAt > Value(e);
        assert Step(idx, e)[id].expireAt != StepForward(idx, e)[id].expireAt;
      }
    }
  }

  // The two indexes are equal after this run and after each of its prefixes.
  ghost predicate AlwaysAgree(events: seq<Event>) {
    Run(events) == RunForward(events) && (events != [] ==> AlwaysAgree(events[..|events| - 1]))
  }

  // No bump of the run finds a later row in its thread.
  ghost predicate AlwaysForward(events: seq<Event>) {
    events != [] ==>
      var init, last := events[..|events| - 1], events[|events| - 1];
      AlwaysForward(init) && Forward(Run(init), last)
  }

  // Overwriting and the forward-only bump give the same index after every event
  // exactly when no bump of the run finds a later row in its thread.
  lemma {:induction false} BumpsAgreeIffForward(events: seq<Event>)
    ensures AlwaysAgree(events) <==> AlwaysForward(events)
  {
    if events != [] {
      var init, last := events[..|events| - 1], events[|events| - 1];
      BumpsAgreeIffForward(init);
      StepsAgreeIffForward(Run(init), last);
    }
  }

  // A row carries a value its thread was given.
  lemma {:induction false} RowsCarryThreadValues(events: seq<Event>, id: PostId)
    requires id in Run(events)
    ensures Run(events)[id].expireAt in ThreadValues(events, Run(events)[id].rootId)
  {
    var init, last := events[..|events| - 1], events[|events| - 1];
    if Indexed(last) {
      DeliveredRow(Run(init), last.post, Value(last), last.createdAt, id);
    }
    if id in Run(init) {
      RowsCarryThreadValues(init, id);
    }
  }

  lemma {:induction false} NonDecreasingIsForward(events: seq<Event>)
    requires NonDecreasing(events)
    ensures AlwaysForward(events)
  {
    if events != [] {
      var init, last := events[..|events| - 1], events[|events| - 1];
      assert forall i | 0 <= i < |init| :: init[i] == events[i];
      NonDecreasingIsForward(init);
      if Indexed(last) && last.post.rootId != "" {
        forall id | id in Run(init) && Run(init)[id].rootId == last.post.rootId
          ensures Run(init)[id].expireAt <= Value(last)
        {
          RowsCarryThreadValues(init, id);
          ThreadValuesAreEvents(init, last.post.rootId, Run(init)[id].expireAt);
        }
      }
    }
  }

  // Expiries that do not decrease along a thread never need the forward-only bump,
  // in whatever order roots and replies are delivered.
  lemma {:induction false} NonDecreasingNeedsNoGreatest(events: seq<Event>)
    requires NonDecreasing(events)
    ensures AlwaysAgree(events)
  {
    NonDecreasingIsForward(events);
    BumpsAgreeIffForward(events);
  }

  // With decreasing expiries the two differ: a channel's TTL shortened from a week to five
  // minutes lets a reply pull its whole thread back.
  lemma ShorterTtlRegressesThread()
    ensures var root, reply := Post("r", "c", "", 0), Post("p", "c", "r", 1000);
            var run := [Deliver(root, Some(604800), 0), Deliver(reply, Some(300), 1000)];
            && "r" in Run(run[..1]) && "r" in Run(run)
            && Run(run[..1])["r"].expireAt == 604_800_000
            && Run(run)["r"].expireAt == 301_000
            && "r" in RunForward(run) && RunForward(run)["r"].expireAt == 604_800_000
  {
    var root, reply := Post("r", "c", "", 0), Post("p", "c", "r", 1000);
    var run := [Deliver(root, Some(604800), 0), Deliver(reply, Some(300), 1000)];
    StoredSecondsAreExact(604800, 0);
    StoredSecondsAreExact(300, 1000);
    assert run[..1] == [run[0]] && run[..1][..0] == [];
    assert Run(run[..1]) == Step(map[], run[0]);
    assert RunForward(run[..1]) == StepForward(map[], run[0]);
    assert Run(run) == Step(Run(run[..1]), run[1]);
    assert RunForward(run) == StepForward(RunForward(run[..1]), run[1]);
  }

  // Nor does the forward-only bump restore one expiry per thread: it never raises
  // the reply's own row, so the thread is left uniform exactly when the overwriting
  // bump would have been safe.
  lemma ForwardBumpUnifiesIffSafe(idx: Index, e: Event)
    requires Indexed(e) && e.post.rootId != ""
    ensures (forall a, b | a in StepForward(idx, e) && b in StepForward(idx, e)
                        && StepForward(idx, e)[a].rootId == e.post.rootId && StepForward(idx, e)[b].rootId == e.post.rootId ::
               StepForward(idx, e)[a].expireAt == StepForward(idx, e)[b].expireAt)
      <==> Forward(idx, e)
  {
    var after := StepForward(idx, e);
    assert after[e.post.id].rootId == e.post.rootId && after[e.post.id].expireAt == Value(e);
    if !Forward(idx, e) {
      var id :| id in idx && id != e.post.id && idx[id].rootId == e.post.rootId && idx[id].expireAt > Value(e);
      assert after[id] == idx[id];
    }
  }
}
