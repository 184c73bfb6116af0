// Ticks alone can take any indexed post at its row's expiry; so a thread whose rows
// do not all live a minute can lose a post too early.
module EarlyDeletion {
  import opened Allowlist
  import opened ExpireIndex
  import opened Protocol
  import opened Lifetime
  import opened Lifespan
  import opened Uninterrupted
  import SetSizes

  // A step of a tick, or a change of configuration.
  predicate IsTick(a: Action) {
    a.Configure? || a.Fetch? || a.Route? || a.Pass? || a.EndPassing? || a.Commit? || a.Prune? || a.DropSweep?
  }

  predicate Ticks(actions: seq<Action>) {
    forall a | a in actions :: IsTick(a)
  }

  lemma TickMoves(s: State, a: Action)
    requires Enabled(s, a) && IsTick(a)
    ensures Step(s, a).posts == s.posts && Step(s, a).limit == s.limit
    ensures !a.Configure? ==> Step(s, a).env == s.env
    ensures forall id | id in Step(s, a).index :: id in s.index && Step(s, a).index[id] == s.index[id]
  {
  }

  // ---- Ticks can take any row ----

  lemma {:induction false} Unused(ids: set<nat>) returns (i: nat)
    ensures forall j | j in ids :: j < i
    decreases ids
  {
    i := 0;
    if ids != {} {
      var j :| j in ids;
      i := Unused(ids - {j});
      assert ids == (ids - {j}) + {j};
      if i <= j {
        i := j + 1;
      }
    }
  }

  ghost predicate RowsOf(idx: Index, ids: set<PostId>, rows: seq<Entry>) {
    && (forall e | e in rows :: e.postId in ids && e.postId in idx && idx[e.postId] == e)
    && (forall i, j | 0 <= i < j < |rows| :: rows[i].postId != rows[j].postId)
  }

  // As many of these rows as fit.
  lemma {:induction false} TakeRows(idx: Index, ids: set<PostId>, limit: nat) returns (rows: seq<Entry>)
    requires WellKeyed(idx) && ids <= idx.Keys
    ensures RowsOf(idx, ids, rows) && |rows| <= limit && (|rows| < limit ==> Ids(rows) == ids)
    decreases ids
  {
    if ids == {} || limit == 0 {
      rows := [];
      assert Ids(rows) == {};
    } else {
      var id :| id in ids;
      var rest := TakeRows(idx, ids - {id}, limit - 1);
      rows := [idx[id]] + rest;
      assert Ids(rows) == {id} + Ids(rest);
    }
  }

  // A batch of the earliest rows, this one first.
  lemma EarliestBatch(idx: Index, first: PostId, limit: nat) returns (batch: seq<Entry>)
    requires WellKeyed(idx) && limit > 0
    requires first in idx && forall id | id in idx :: idx[first].expireAt <= idx[id].expireAt
    ensures IsBatch(idx, idx[first].expireAt, limit, batch)
    ensures batch != [] && batch[0] == idx[first]
    ensures forall e | e in batch :: e.expireAt == idx[first].expireAt
  {
    var now := idx[first].expireAt;
    var ties := Expired(idx, now);
    var rest := TakeRows(idx, ties - {first}, limit - 1);
    batch := [idx[first]] + rest;
    assert Ids(batch) == {first} + Ids(rest);
    assert forall e | e in batch :: e == idx[first] || e in rest;
  }

  lemma SettingsStay(s: State, actions: seq<Action>)
    requires IsRun(AnyOrder, s, actions) && Ticks(actions) && forall a | a in actions :: !a.Configure?
    ensures var t := Final(AnyOrder, s, actions); t.limit == s.limit && t.env == s.env
    decreases actions
  {
    if actions != [] {
      TickMoves(s, actions[0]);
      SettingsStay(Step(s, actions[0]), actions[1..]);
    }
  }

  lemma {:induction false} PassesAreTicks(i: SweeperId, entries: seq<Entry>, failures: set<PostId>)
    ensures forall a | a in Passes(i, entries, failures) :: a.Pass?
  {
    if entries != [] {
      PassesAreTicks(i, entries[1..], failures);
    }
  }

  // A soft tick that takes a batch without any failure.
  lemma TakeBatch(s: State, i: SweeperId, now: int, batch: seq<Entry>) returns (t: State, actions: seq<Action>)
    requires Enabled(s, Fetch(i, now, batch)) && Decide(s.env) == Soft
    ensures Ticks(actions) && IsRun(AnyOrder, s, actions) && Final(AnyOrder, s, actions) == t
    ensures t.index == s.index - Ids(batch) && t.limit == s.limit && t.env == s.env && t.sweeps == s.sweeps
  {
    t := SoftTickAlone(s, i, now, batch, {});
    actions := [Fetch(i, now, batch), Route(i)] + Passes(i, batch, {}) + [EndPassing(i), Prune(i)];
    PassesAreTicks(i, batch, {});
    SettingsStay(s, actions);
  }

  // A soft tick as far as its first DeletePost.
  lemma PassFirst(s: State, i: SweeperId, now: int, batch: seq<Entry>) returns (actions: seq<Action>)
    requires Enabled(s, Fetch(i, now, batch)) && Decide(s.env) == Soft
    ensures Ticks(actions) && IsRun(AnyOrder, s, actions)
    ensures Removal(batch[0], now, BySoftDelete(true)) in Final(AnyOrder, s, actions).removals
  {
    var s1 := RouteOne(s, i, now, batch);
    var pass := Pass(i, true);
    assert [pass][1..] == [];
    NoSteps(Step(s1, pass));
    assert IsRun(AnyOrder, s1, [pass]) && Final(AnyOrder, s1, [pass]) == Step(s1, pass);
    actions := [Fetch(i, now, batch), Route(i)] + [pass];
  }

  // Earlier rows go first, then this one, at its expiry.
  lemma {:induction false} TakeRow(s: State, i: SweeperId, id: PostId) returns (actions: seq<Action>)
    requires WellKeyed(s.index) && s.limit > 0 && Decide(s.env) == Soft && i !in s.sweeps && id in s.index
    ensures Ticks(actions) && IsRun(AnyOrder, s, actions)
    ensures Removal(s.index[id], s.index[id].expireAt, BySoftDelete(true)) in Final(AnyOrder, s, actions).removals
    decreases |s.index|
  {
    var earliest := EarliestExists(s.index, s.index.Keys);
    var now := s.index[earliest].expireAt;
    var first := if s.index[id].expireAt == now then id else earliest;
    var batch := EarliestBatch(s.index, first, s.limit);
    if first == id {
      actions := PassFirst(s, i, now, batch);
    } else {
      var t, tick := TakeBatch(s, i, now, batch);
      assert batch[0] in batch && earliest in Ids(batch);
      assert id in t.index && t.index[id] == s.index[id];
      Fewer(s.index, Ids(batch), earliest);
      var rest := TakeRow(t, i, id);
      RunsConcat(AnyOrder, s, tick, rest);
      actions := tick + rest;
    }
  }

  lemma Fewer(idx: Index, ids: set<PostId>, id: PostId)
    requires id in idx && id in ids
    ensures |idx - ids| < |idx|
  {
    assert (idx - ids).Keys <= idx.Keys - {id};
    SetSizes.SubsetCount((idx - ids).Keys, idx.Keys - {id});
    assert |(idx - ids).Keys| == |idx - ids| && |idx.Keys| == |idx|;
  }

  // From any state, a change to soft deletion and ticks alone delete any indexed
  // post by a tick whose clock is the expiry of its row.
  lemma AnyRowCanBeTaken(s: State, id: PostId) returns (actions: seq<Action>)
    requires WellKeyed(s.index) && s.limit > 0 && id in s.index
    ensures Ticks(actions) && IsRun(AnyOrder, s, actions)
    ensures Removal(s.index[id], s.index[id].expireAt, BySoftDelete(true)) in Final(AnyOrder, s, actions).removals
  {
    var env := Environment(Configuration(false, ""), false, "");
    var t := Configured(s, env);
    var i := Unused(s.sweeps.Keys);
    var rest := TakeRow(t, i, id);
    OneMore(s, Configure(env), rest);
    actions := [Configure(env)] + rest;
  }

  lemma Configured(s: State, env: Environment) returns (t: State)
    ensures Enabled(s, Configure(env)) && t == Step(s, Configure(env)) && t == s.(env := env)
  {
    t := Step(s, Configure(env));
  }

  // ---- Exactly when no tick can be too early ----

  // Every post of the thread that a tick took had lived a minute.
  ghost predicate NoneEarly(s: State, root: PostId) {
    forall r | r in s.removals && r.entry.rootId == root ::
      r.entry.postId in s.posts && r.now >= s.posts[r.entry.postId].createAt + MINUTE_MS
  }

  ghost predicate NoneEarlyAfter(s: State, more: seq<Action>, root: PostId) {
    Ticks(more) && IsRun(AnyOrder, s, more) ==> NoneEarly(Final(AnyOrder, s, more), root)
  }

  // Whatever ticks follow, at every point of the run.
  ghost predicate NeverEarly(s: State, actions: seq<Action>, root: PostId)
    requires IsRun(AnyOrder, s, actions)
    decreases actions
  {
    (forall more :: NoneEarlyAfter(s, more, root))
    && (actions != [] ==> NeverEarly(Step(s, actions[0]), actions[1..], root))
  }

  lemma LiveRemovals(s: State, root: PostId)
    requires LiveInv(s, root)
    ensures NoneEarly(s, root)
  {
    forall r | r in s.removals && r.entry.rootId == root
      ensures r.entry.postId in s.posts && r.now >= s.posts[r.entry.postId].createAt + MINUTE_MS
    {
      assert RemovalInv(s, r) && LiveEntry(s, r.entry, root);
    }
  }

  lemma {:induction false} TicksKeepLife(s: State, more: seq<Action>, root: PostId)
    requires LiveInv(s, root) && Ticks(more) && IsRun(AnyOrder, s, more)
    ensures LiveInv(Final(AnyOrder, s, more), root)
    decreases more
  {
    if more != [] {
      TickMoves(s, more[0]);
      forall id | id in Step(s, more[0]).index
        ensures LiveEntry(Step(s, more[0]), Step(s, more[0]).index[id], root)
      {
        assert LiveEntry(s, s.index[id], root);
      }
      LiveStep(s, more[0], root);
      TicksKeepLife(Step(s, more[0]), more[1..], root);
    }
  }

  lemma EarlyRowIsTakenEarly(s: State, root: PostId)
    requires Lifetime.Inv(s) && s.limit > 0 && !LiveRows(s, root)
    ensures exists more :: !NoneEarlyAfter(s, more, root)
  {
    var id :| id in s.index && !LiveEntry(s, s.index[id], root);
    assert Lifetime.RowInv(s, s.index[id]);
    var more := AnyRowCanBeTaken(s, id);
    TicksKeepPosts(s, more);
    assert !NoneEarlyAfter(s, more, root);
  }

  lemma {:induction false} TicksKeepPosts(s: State, more: seq<Action>)
    requires Ticks(more) && IsRun(AnyOrder, s, more)
    ensures Final(AnyOrder, s, more).posts == s.posts
    decreases more
  {
    if more != [] {
      TickMoves(s, more[0]);
      TicksKeepPosts(Step(s, more[0]), more[1..]);
    }
  }

  lemma LiveIsNeverEarly(s: State, root: PostId)
    requires LiveInv(s, root)
    ensures LiveRows(s, root) && forall more :: NoneEarlyAfter(s, more, root)
  {
    forall more
      ensures NoneEarlyAfter(s, more, root)
    {
      if Ticks(more) && IsRun(AnyOrder, s, more) {
        TicksKeepLife(s, more, root);
        LiveRemovals(Final(AnyOrder, s, more), root);
      }
    }
  }

  lemma NextIsLiveOrEarly(s: State, a: Action, root: PostId) returns (next: State)
    requires LiveInv(s, root) && s.limit > 0 && Enabled(s, a)
    ensures next == Step(s, a) && next.limit > 0
    ensures LiveRows(next, root) ==> LiveInv(next, root)
    ensures !LiveRows(next, root) ==> exists more :: !NoneEarlyAfter(next, more, root)
  {
    next := Step(s, a);
    LimitStays(s, a);
    if LiveRows(Step(s, a), root) {
      LiveStep(s, a, root);
    } else {
      Lifetime.StepKeepsInv(s, a);
      EarlyRowIsTakenEarly(Step(s, a), root);
    }
  }

  lemma Unfold(s: State, actions: seq<Action>, root: PostId)
    requires IsRun(AnyOrder, s, actions) && actions != []
    requires LiveRows(s, root) && forall more :: NoneEarlyAfter(s, more, root)
    ensures IsRun(AnyOrder, Step(s, actions[0]), actions[1..])
    ensures NeverEarly(s, actions, root) <==> NeverEarly(Step(s, actions[0]), actions[1..], root)
    ensures AlwaysLive(s, actions, root) <==> AlwaysLive(Step(s, actions[0]), actions[1..], root)
  {
  }

  lemma EarlyNow(s: State, actions: seq<Action>, root: PostId)
    requires IsRun(AnyOrder, s, actions) && !LiveRows(s, root) && exists more :: !NoneEarlyAfter(s, more, root)
    ensures !NeverEarly(s, actions, root) && !AlwaysLive(s, actions, root)
  {
  }

  lemma {:induction false} NeverEarlyIffLive(s: State, actions: seq<Action>, root: PostId)
    requires IsRun(AnyOrder, s, actions) && s.limit > 0 && LiveInv(s, root)
    ensures NeverEarly(s, actions, root) <==> AlwaysLive(s, actions, root)
    decreases actions
  {
    LiveIsNeverEarly(s, root);
    if actions != [] {
      Unfold(s, actions, root);
      var next := NextIsLiveOrEarly(s, actions[0], root);
      if LiveRows(next, root) {
        NeverEarlyIffLive(next, actions[1..], root);
      } else {
        EarlyNow(next, actions[1..], root);
      }
    }
  }

  // Over any run, however its hooks overlap: whatever ticks follow at whatever point,
  // none purges a post of the thread or passes it to DeletePost less than a minute
  // after its send time, exactly when every bump of the thread spares the posts it
  // overwrites.
  lemma NeverEarlyIffSpared(init: State, actions: seq<Action>, root: PostId)
    requires Init(init) && IsRun(AnyOrder, init, actions) && Realistic(init, actions, root)
    ensures NeverEarly(init, actions, root) <==> AlwaysSpares(init, actions, root)
  {
    NeverEarlyIffLive(init, actions, root);
    LiveIffSpared(init, actions, root);
  }
}
