// Without interleaving the protocol's steps add up to the sequential operations.
module Uninterrupted {
  import opened TtlRules
  import opened Allowlist
  import opened ExpireIndex
  import opened Purge
  import opened Posts
  import opened Updates
  import opened Protocol
  import ThreadExpiry
  import SweepRuns
  import Sweeper

  // What a completed hook leaves alone.
  ghost predicate OnlyHookChanged(s: State, s': State) {
    && s'.limit == s.limit && s'.ttl == s.ttl && s'.tables == s.tables && s'.env == s.env
    && s'.sweeps == s.sweeps && s'.posts == s.posts && s'.softDeleted == s.softDeleted && s'.refused == s.refused
    && s'.interrupted <= s.interrupted && s'.removals == s.removals
  }

  // A completed hook's entries in the history.
  function HookUpdates(post: Post, at: int): seq<Update> {
    [RowInserted(post.id, at)] + (if post.rootId != "" then [ThreadBumped(post.rootId, at)] else [])
  }

  // A hook running alone delivers its post as the sequential model does.
  lemma {:induction false} HookAloneDelivers(s: State, h: HookId, id: PostId, createdAt: int) returns (s': State)
    requires Enabled(s, StartHook(h, id))
    ensures var post := s.posts[id];
            var actions := [StartHook(h, id), Insert(h, createdAt)] + (if post.rootId != "" then [Bump(h)] else []);
            && IsRun(AnyOrder, s, actions) && Final(AnyOrder, s, actions) == s'
            && s'.index == ThreadExpiry.Delivered(s.index, post, ExpiryOf(post.createAt, s.ttl[post.channelId]), createdAt)
            && s'.log == s.log + HookUpdates(post, ExpiryOf(post.createAt, s.ttl[post.channelId]))
            && s'.hooks == s.hooks && OnlyHookChanged(s, s')
  {
    var start, insert := StartHook(h, id), Insert(h, createdAt);
    var s1 := Step(s, start);
    s' := FinishHook(s1, h, createdAt);
    assert s'.hooks == s.hooks;
    var rest := if s.posts[id].rootId != "" then [Bump(h)] else [];
    assert ([start, insert] + rest)[1..] == [insert] + rest;
  }

  lemma FinishHook(s: State, h: HookId, createdAt: int) returns (s': State)
    requires Enabled(s, Insert(h, createdAt))
    ensures var hook := s.hooks[h];
            var actions := [Insert(h, createdAt)] + (if hook.post.rootId != "" then [Bump(h)] else []);
            && IsRun(AnyOrder, s, actions) && Final(AnyOrder, s, actions) == s'
            && s'.index == ThreadExpiry.Delivered(s.index, hook.post, hook.at, createdAt)
            && s'.log == s.log + HookUpdates(hook.post, hook.at)
    ensures s'.hooks == s.hooks - {h} && OnlyHookChanged(s, s')
  {
    var s1 := Step(s, Insert(h, createdAt));
    if s.hooks[h].post.rootId != "" {
      s' := FinishBump(s1, h);
      assert s'.hooks == s.hooks - {h};
      assert ([Insert(h, createdAt)] + [Bump(h)])[1..] == [Bump(h)];
    } else {
      s' := s1;
      NoSteps(s1);
      assert ([Insert(h, createdAt)] + [])[1..] == [];
    }
  }

  lemma FinishBump(s: State, h: HookId) returns (s': State)
    requires Enabled(s, Bump(h))
    ensures IsRun(AnyOrder, s, [Bump(h)]) && Final(AnyOrder, s, [Bump(h)]) == s'
    ensures s'.index == Bumped(s.index, s.hooks[h].post.rootId, s.hooks[h].at)
    ensures s'.log == s.log + [ThreadBumped(s.hooks[h].post.rootId, s.hooks[h].at)]
    ensures s'.hooks == s.hooks - {h} && OnlyHookChanged(s, s')
  {
    s' := Step(s, Bump(h));
    assert [Bump(h)][1..] == [];
    NoSteps(s');
  }

  predicate SameDeletions(s: State, s': State) {
    s'.softDeleted == s.softDeleted && s'.refused == s.refused
  }

  // A tick running alone on the hard path is a finished tick of the sweep model.
  lemma HardTickAloneFinishes(s: State, i: SweeperId, now: int, batch: seq<Entry>) returns (s': State)
    requires Enabled(s, Fetch(i, now, batch)) && Decide(s.env) == Hard && TablesExist(FOOTPRINT, s.tables)
    ensures var actions := [Fetch(i, now, batch), Route(i), Commit(i), Prune(i)];
            IsRun(AnyOrder, s, actions) && Final(AnyOrder, s, actions) == s'
    ensures SweepRuns.World(s'.index, s'.tables)
              == SweepRuns.After(FOOTPRINT, SweepRuns.World(s.index, s.tables), SweepRuns.Finished(batch))
    ensures s'.sweeps == s.sweeps && SameDeletions(s, s') && s'.hooks == s.hooks
  {
    var s1 := Step(s, Fetch(i, now, batch));
    s' := RouteHardTick(s1, i);
    assert s'.sweeps == s.sweeps;
    assert [Fetch(i, now, batch), Route(i), Commit(i), Prune(i)][1..] == [Route(i), Commit(i), Prune(i)];
  }

  lemma RouteHardTick(s: State, i: SweeperId) returns (s': State)
    requires Enabled(s, Route(i)) && Decide(s.env) == Hard && TablesExist(FOOTPRINT, s.tables)
    ensures var actions := [Route(i), Commit(i), Prune(i)];
            IsRun(AnyOrder, s, actions) && Final(AnyOrder, s, actions) == s'
    ensures var ids := Ids(s.sweeps[i].batch);
            s'.index == s.index - ids && s'.tables == Purged(FOOTPRINT, s.tables, ids)
    ensures s'.sweeps == s.sweeps - {i} && SameDeletions(s, s') && s'.hooks == s.hooks
  {
    var s1 := Step(s, Route(i));
    s' := FinishHardTick(s1, i);
    assert s'.sweeps == s.sweeps - {i};
    assert [Route(i), Commit(i), Prune(i)][1..] == [Commit(i), Prune(i)];
  }

  lemma FinishHardTick(s: State, i: SweeperId) returns (s': State)
    requires Enabled(s, Commit(i))
    ensures IsRun(AnyOrder, s, [Commit(i), Prune(i)]) && Final(AnyOrder, s, [Commit(i), Prune(i)]) == s'
    ensures var ids := Ids(s.sweeps[i].batch);
            s'.index == s.index - ids && s'.tables == Purged(FOOTPRINT, s.tables, ids)
    ensures s'.sweeps == s.sweeps - {i} && SameDeletions(s, s') && s'.hooks == s.hooks
  {
    var s1 := Step(s, Commit(i));
    s' := Step(s1, Prune(i));
    assert [Commit(i), Prune(i)][1..] == [Prune(i)] && [Prune(i)][1..] == [];
    NoSteps(s');
    assert IsRun(AnyOrder, s1, [Prune(i)]) && Final(AnyOrder, s1, [Prune(i)]) == s';
  }

  // The DeletePost calls for these entries, failing for these posts.
  function Passes(i: SweeperId, entries: seq<Entry>, failures: set<PostId>): seq<Action> {
    if entries == [] then [] else [Pass(i, entries[0].postId !in failures)] + Passes(i, entries[1..], failures)
  }

  // A tick running alone on the soft path is a soft tick that prunes, whatever
  // DeletePost answers.
  lemma SoftTickAlonePrunes(s: State, i: SweeperId, now: int, batch: seq<Entry>, failures: set<PostId>) returns (s': State)
    requires Enabled(s, Fetch(i, now, batch)) && Decide(s.env) == Soft
    ensures var actions := [Fetch(i, now, batch), Route(i)] + Passes(i, batch, failures) + [EndPassing(i), Prune(i)];
            IsRun(AnyOrder, s, actions) && Final(AnyOrder, s, actions) == s'
    ensures Sweeper.SoftTick(Sweeper.SoftWorld(s.index, [], s.softDeleted),
                             Sweeper.SoftWorld(s'.index, Sweeper.PostIds(batch), s'.softDeleted),
                             failures, now, s.limit, Sweeper.Pruned(|batch|), batch)
    ensures s'.refused == s.refused + Ids(batch) * failures
    ensures s'.tables == s.tables && s'.sweeps == s.sweeps && s'.hooks == s.hooks
  {
    s' := SoftTickAlone(s, i, now, batch, failures);
  }

  lemma SoftTickAlone(s: State, i: SweeperId, now: int, batch: seq<Entry>, failures: set<PostId>) returns (s': State)
    requires Enabled(s, Fetch(i, now, batch)) && Decide(s.env) == Soft
    ensures var actions := [Fetch(i, now, batch), Route(i)] + Passes(i, batch, failures) + [EndPassing(i), Prune(i)];
            IsRun(AnyOrder, s, actions) && Final(AnyOrder, s, actions) == s'
    ensures s'.index == s.index - Ids(batch) && s'.softDeleted == s.softDeleted + (Ids(batch) - failures)
    ensures s'.refused == s.refused + Ids(batch) * failures
    ensures s'.tables == s.tables && s'.sweeps == s.sweeps && s'.hooks == s.hooks
  {
    var s1 := RouteOne(s, i, now, batch);
    s' := FinishPassing(s1, i, batch, failures);
    assert s'.sweeps == s.sweeps;
    var tail := Passes(i, batch, failures) + [EndPassing(i), Prune(i)];
    assert [Fetch(i, now, batch), Route(i)] + Passes(i, batch, failures) + [EndPassing(i), Prune(i)]
        == [Fetch(i, now, batch), Route(i)] + tail;
  }

  lemma OneMore(s: State, a: Action, rest: seq<Action>)
    requires Enabled(s, a) && IsRun(AnyOrder, Step(s, a), rest)
    ensures IsRun(AnyOrder, s, [a] + rest) && Final(AnyOrder, s, [a] + rest) == Final(AnyOrder, Step(s, a), rest)
  {
    assert ([a] + rest)[1..] == rest;
  }

  lemma TwoMore(s: State, a: Action, b: Action, rest: seq<Action>)
    requires Enabled(s, a) && Enabled(Step(s, a), b) && IsRun(AnyOrder, Step(Step(s, a), b), rest)
    ensures IsRun(AnyOrder, s, [a, b] + rest)
    ensures Final(AnyOrder, s, [a, b] + rest) == Final(AnyOrder, Step(Step(s, a), b), rest)
  {
    OneMore(Step(s, a), b, rest);
    OneMore(s, a, [b] + rest);
    assert [a, b] + rest == [a] + ([b] + rest);
  }

  lemma RouteOne(s: State, i: SweeperId, now: int, batch: seq<Entry>) returns (s': State)
    requires Enabled(s, Fetch(i, now, batch)) && Decide(s.env) == Soft
    ensures forall rest | IsRun(AnyOrder, s', rest) ::
              var actions := [Fetch(i, now, batch), Route(i)] + rest;
              IsRun(AnyOrder, s, actions) && Final(AnyOrder, s, actions) == Final(AnyOrder, s', rest)
    ensures s'.index == s.index && s'.tables == s.tables && s'.hooks == s.hooks && SameDeletions(s, s')
    ensures s'.sweeps == s.sweeps[i := Passing(now, batch, |s.log|, 0)]
  {
    var s1 := Step(s, Fetch(i, now, batch));
    s' := Step(s1, Route(i));
    forall rest | IsRun(AnyOrder, s', rest)
      ensures var actions := [Fetch(i, now, batch), Route(i)] + rest;
              IsRun(AnyOrder, s, actions) && Final(AnyOrder, s, actions) == Final(AnyOrder, s', rest)
    {
      TwoMore(s, Fetch(i, now, batch), Route(i), rest);
    }
  }

  // The rest of a soft tick that has still to pass these entries.
  ghost predicate SoftlyPruned(s: State, s': State, i: SweeperId, entries: seq<Entry>, failures: set<PostId>)
    requires At(s, i)
  {
    && s'.index == s.index - Ids(s.sweeps[i].batch) && s'.tables == s.tables
    && s'.softDeleted == s.softDeleted + (Ids(entries) - failures)
    && s'.refused == s.refused + Ids(entries) * failures
    && s'.sweeps == s.sweeps - {i} && s'.hooks == s.hooks
  }

  lemma {:induction false} FinishPassing(s: State, i: SweeperId, entries: seq<Entry>, failures: set<PostId>) returns (s': State)
    requires At(s, i) && s.sweeps[i].Passing? && s.sweeps[i].done <= |s.sweeps[i].batch|
    requires entries == s.sweeps[i].batch[s.sweeps[i].done..]
    ensures var actions := Passes(i, entries, failures) + [EndPassing(i), Prune(i)];
            IsRun(AnyOrder, s, actions) && Final(AnyOrder, s, actions) == s'
    ensures SoftlyPruned(s, s', i, entries, failures)
    decreases entries
  {
    if entries == [] {
      s' := FinishSoftTick(s, i);
      assert Passes(i, entries, failures) + [EndPassing(i), Prune(i)] == [EndPassing(i), Prune(i)];
    } else {
      var a, rest := Pass(i, entries[0].postId !in failures), entries[1..];
      var s1 := PassOne(s, i, entries[0].postId !in failures);
      s' := FinishPassing(s1, i, rest, failures);
      OnePassed(s, s1, s', i, entries, failures);
      var tail := Passes(i, rest, failures) + [EndPassing(i), Prune(i)];
      OneMore(s, a, tail);
      assert Passes(i, entries, failures) + [EndPassing(i), Prune(i)] == [a] + tail;
    }
  }

  lemma OnePassed(s: State, s1: State, s': State, i: SweeperId, entries: seq<Entry>, failures: set<PostId>)
    requires At(s, i) && entries != []
    requires At(s1, i)
    requires var id, sweep := entries[0].postId, s1.sweeps[i];
             && s1.index == s.index && s1.tables == s.tables && s1.hooks == s.hooks
             && s1.softDeleted == s.softDeleted + (if id !in failures then {id} else {})
             && s1.refused == s.refused + (if id !in failures then {} else {id})
             && s1.sweeps == s.sweeps[i := sweep] && sweep.batch == s.sweeps[i].batch
    requires SoftlyPruned(s1, s', i, entries[1..], failures)
    ensures SoftlyPruned(s, s', i, entries, failures)
  {
    assert entries == [entries[0]] + entries[1..];
    assert Ids(entries) == {entries[0].postId} + Ids(entries[1..]);
    assert s'.sweeps == s.sweeps - {i};
  }

  lemma PassOne(s: State, i: SweeperId, ok: bool) returns (s': State)
    requires Enabled(s, Pass(i, ok))
    ensures s' == Step(s, Pass(i, ok))
    ensures var t, id := s.sweeps[i], s.sweeps[i].batch[s.sweeps[i].done].postId;
            && s'.index == s.index && s'.tables == s.tables && s'.hooks == s.hooks
            && s'.softDeleted == s.softDeleted + (if ok then {id} else {})
            && s'.refused == s.refused + (if ok then {} else {id})
            && s'.sweeps == s.sweeps[i := Passing(t.now, t.batch, t.mark, t.done + 1)]
  {
    s' := Step(s, Pass(i, ok));
  }

  lemma FinishSoftTick(s: State, i: SweeperId) returns (s': State)
    requires Enabled(s, EndPassing(i))
    ensures IsRun(AnyOrder, s, [EndPassing(i), Prune(i)]) && Final(AnyOrder, s, [EndPassing(i), Prune(i)]) == s'
    ensures s'.index == s.index - Ids(s.sweeps[i].batch) && s'.tables == s.tables
    ensures s'.sweeps == s.sweeps - {i} && SameDeletions(s, s') && s'.hooks == s.hooks
  {
    var s1 := Step(s, EndPassing(i));
    s' := Step(s1, Prune(i));
    assert [EndPassing(i), Prune(i)][1..] == [Prune(i)] && [Prune(i)][1..] == [];
    NoSteps(s');
    assert IsRun(AnyOrder, s1, [Prune(i)]) && Final(AnyOrder, s1, [Prune(i)]) == s';
  }

  lemma NoSteps(s: State)
    ensures IsRun(AnyOrder, s, []) && Final(AnyOrder, s, []) == s
  {
  }
}
