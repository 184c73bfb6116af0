// Nothing that was ever indexed is lost.
module Conservation {
  import opened Allowlist
  import opened ExpireIndex
  import opened Purge
  import opened Footprint
  import opened Protocol

  // DeletePost was called for the post.
  predicate Passed(s: State, id: PostId) {
    id in s.softDeleted || id in s.refused
  }

  // The post left no row in any footprint table, or DeletePost was called for it.
  ghost predicate Gone(s: State, id: PostId) {
    !HasRows(FOOTPRINT, s.tables, id) || Passed(s, id)
  }

  ghost predicate SweepInv(s: State, t: Sweep) {
    && Ids(t.batch) <= s.everIndexed
    && (t.Passing? ==> t.done <= |t.batch| && forall k | 0 <= k < t.done :: Passed(s, t.batch[k].postId))
    && (t.Deleted? ==> forall id | id in Ids(t.batch) :: Gone(s, id))
  }

  ghost predicate Inv(s: State) {
    && WellKeyed(s.index)
    && s.index.Keys <= s.everIndexed <= s.posts.Keys
    && (forall h | h in s.hooks :: s.hooks[h].post.id in s.posts)
    && (forall id | id in s.posts :: s.posts[id].id == id)
    && (forall id | id in s.everIndexed :: id in s.index || Gone(s, id))
    && (forall i | i in s.sweeps :: SweepInv(s, s.sweeps[i]))
  }

  // What is gone stays gone.
  lemma GoneStays(s: State, a: Action, id: PostId)
    requires Inv(s) && Enabled(s, a) && id in s.everIndexed && Gone(s, id)
    ensures Gone(Step(s, a), id)
  {
  }

  lemma SweepSurvives(s: State, a: Action, t: Sweep)
    requires Inv(s) && Enabled(s, a) && SweepInv(s, t)
    ensures SweepInv(Step(s, a), t)
  {
    forall id | id in Ids(t.batch) && Gone(s, id)
      ensures Gone(Step(s, a), id)
    {
      GoneStays(s, a, id);
    }
  }

  lemma FetchKeeps(s: State, i: SweeperId, now: int, batch: seq<Entry>)
    requires Inv(s) && Enabled(s, Fetch(i, now, batch))
    ensures SweepInv(Step(s, Fetch(i, now, batch)), Fetched(now, batch, |s.log|))
  {
  }

  lemma RouteKeeps(s: State, i: SweeperId)
    requires Inv(s) && Enabled(s, Route(i))
    ensures i in Step(s, Route(i)).sweeps ==> SweepInv(Step(s, Route(i)), Step(s, Route(i)).sweeps[i])
  {
  }

  lemma PassKeeps(s: State, i: SweeperId, ok: bool)
    requires Inv(s) && Enabled(s, Pass(i, ok))
    ensures SweepInv(Step(s, Pass(i, ok)), Step(s, Pass(i, ok)).sweeps[i])
  {
  }

  lemma EndPassingKeeps(s: State, i: SweeperId)
    requires Inv(s) && Enabled(s, EndPassing(i))
    ensures SweepInv(Step(s, EndPassing(i)), Deleted(s.sweeps[i].now, s.sweeps[i].batch, s.sweeps[i].mark))
  {
    var t := s.sweeps[i];
    forall id | id in Ids(t.batch)
      ensures Passed(s, id)
    {
      var e :| e in t.batch && e.postId == id;
      var k :| 0 <= k < |t.batch| && t.batch[k] == e;
    }
  }

  lemma CommitKeeps(s: State, i: SweeperId)
    requires Inv(s) && Enabled(s, Commit(i))
    ensures SweepInv(Step(s, Commit(i)), Deleted(s.sweeps[i].now, s.sweeps[i].batch, s.sweeps[i].mark))
  {
    var t := s.sweeps[i];
    forall id | id in Ids(t.batch)
      ensures Gone(Step(s, Commit(i)), id)
    {
      PurgeLeavesNoRows(FOOTPRINT, s.tables, Ids(t.batch), id);
    }
  }

  lemma MovedSweepKeeps(s: State, a: Action)
    requires Inv(s) && Enabled(s, a)
    requires a.Fetch? || a.Route? || a.Pass? || a.EndPassing? || a.Commit?
    ensures a.i in Step(s, a).sweeps ==> SweepInv(Step(s, a), Step(s, a).sweeps[a.i])
  {
    match a
    case Fetch(i, now, batch) => FetchKeeps(s, i, now, batch);
    case Route(i) => RouteKeeps(s, i);
    case Pass(i, ok) => PassKeeps(s, i, ok);
    case EndPassing(i) => EndPassingKeeps(s, i);
    case Commit(i) => CommitKeeps(s, i);
  }

  lemma StepAccountsFor(s: State, a: Action, id: PostId)
    requires Inv(s) && Enabled(s, a) && id in Step(s, a).everIndexed
    ensures id in Step(s, a).index || Gone(Step(s, a), id)
  {
  }

  lemma SweepStep(s: State, a: Action, i: SweeperId)
    requires Inv(s) && Enabled(s, a) && i in Step(s, a).sweeps
    ensures SweepInv(Step(s, a), Step(s, a).sweeps[i])
  {
    if i in s.sweeps && Step(s, a).sweeps[i] == s.sweeps[i] {
      SweepSurvives(s, a, s.sweeps[i]);
    } else {
      MovedSweepKeeps(s, a);
    }
  }

  lemma RowKeepsKey(s: State, a: Action, id: PostId)
    requires Inv(s) && Enabled(s, a) && id in Step(s, a).index
    ensures Step(s, a).index[id].postId == id && id in Step(s, a).everIndexed
  {
  }

  lemma StepKeepsPosts(s: State, a: Action)
    requires Inv(s) && Enabled(s, a)
    ensures s.posts.Keys <= Step(s, a).posts.Keys && s.everIndexed <= Step(s, a).everIndexed
    ensures forall id | id in Step(s, a).posts :: Step(s, a).posts[id].id == id
  {
  }

  lemma StepKeepsHooks(s: State, a: Action)
    requires Inv(s) && Enabled(s, a)
    ensures forall h | h in Step(s, a).hooks :: Step(s, a).hooks[h].post.id in Step(s, a).posts
    ensures Step(s, a).everIndexed <= Step(s, a).posts.Keys
  {
    StepKeepsPosts(s, a);
  }

  lemma StepKeepsInv(s: State, a: Action)
    requires Inv(s) && Enabled(s, a)
    ensures Inv(Step(s, a))
  {
    var next := Step(s, a);
    StepKeepsPosts(s, a);
    StepKeepsHooks(s, a);
    forall id | id in next.index
      ensures next.index[id].postId == id && id in next.everIndexed
    {
      RowKeepsKey(s, a, id);
    }
    forall id | id in next.everIndexed
      ensures id in next.index || Gone(next, id)
    {
      StepAccountsFor(s, a, id);
    }
    forall i | i in next.sweeps
      ensures SweepInv(next, next.sweeps[i])
    {
      SweepStep(s, a, i);
    }
  }

  lemma {:induction false} RunKeepsInv(d: Discipline, s: State, actions: seq<Action>)
    requires Inv(s) && IsRun(d, s, actions)
    ensures Inv(Final(d, s, actions))
    decreases actions
  {
    if actions != [] {
      StepKeepsInv(s, actions[0]);
      RunKeepsInv(d, Step(s, actions[0]), actions[1..]);
    }
  }

  lemma ReachableInv(d: Discipline, s: State)
    requires Reachable(d, s)
    ensures Inv(s)
  {
    var init, actions :| Init(init) && IsRun(d, init, actions) && Final(d, init, actions) == s;
    RunKeepsInv(d, init, actions);
  }

  // Conservation over every run, with any interleaving of hooks, sweepers, crashes,
  // configuration changes and outside deletions: an indexed post is still indexed,
  // or nothing of it is left in the posts, fileinfo, reactions and mentions tables,
  // or it was deleted by DeletePost, or DeletePost failed for it.
  lemma NothingIsLost(d: Discipline, s: State, id: PostId)
    requires Reachable(d, s) && id in s.everIndexed
    ensures id in s.index || NothingLeft(s.tables, id) || id in s.softDeleted || id in s.refused
  {
    ReachableInv(d, s);
    GoneIsNothingLeft(s.tables, id);
  }

  // A row leaves the index only by the prune of a tick that purged it before: a
  // skipped or failed purge, a crash or anything else removes none.
  lemma OnlyPrunesRemoveRows(d: Discipline, s: State, a: Action, id: PostId)
    requires Reachable(d, s) && Enabled(s, a)
    requires id in s.index && id !in Step(s, a).index
    ensures a.Prune? && s.sweeps[a.i].Deleted? && id in Ids(s.sweeps[a.i].batch)
    ensures NothingLeft(s.tables, id) || id in s.softDeleted || id in s.refused
  {
    ReachableInv(d, s);
    GoneIsNothingLeft(s.tables, id);
    RowsLeave(s, a, id);
    assert SweepInv(s, s.sweeps[a.i]);
  }

  // The commit of a hard purge takes exactly what belongs to the batch's posts.
  lemma CommitRemovesWhatBelongs(s: State, i: SweeperId)
    requires Enabled(s, Commit(i))
    ensures RemovedExactly(s.tables, Step(s, Commit(i)).tables, Ids(s.sweeps[i].batch))
  {
    PurgeRemovesWhatBelongs(s.tables, Ids(s.sweeps[i].batch));
  }

  // Every hook may fail and every tick may stop wherever it is, and that alone takes
  // no post, no row and no related row.
  lemma StoppingIsHarmless(s: State, a: Action)
    requires (a.DropHook? && a.h in s.hooks) || (a.DropSweep? && a.i in s.sweeps)
    ensures Enabled(s, a)
    ensures var t := Step(s, a);
            && t.index == s.index && t.tables == s.tables && t.removals == s.removals && t.posts == s.posts
            && (if a.DropHook? then t.hooks.Keys == s.hooks.Keys - {a.h} && t.sweeps == s.sweeps
                else t.sweeps.Keys == s.sweeps.Keys - {a.i} && t.hooks == s.hooks)
  {
  }

  // A tick without any effect besides its own end gives the sweeper back the same
  // fetch: that is exactly the schema skip.
  lemma SkippedTickIsRetriable(s: State, i: SweeperId, now: int, batch: seq<Entry>)
    requires Enabled(s, Fetch(i, now, batch))
    ensures Enabled(Step(s, Fetch(i, now, batch)), Route(i))
    ensures Step(Step(s, Fetch(i, now, batch)), Route(i)) == s <==> Decide(s.env) == Skip
  {
    var routed := Step(Step(s, Fetch(i, now, batch)), Route(i));
    assert s.sweeps[i := Fetched(now, batch, |s.log|)] - {i} == s.sweeps;
    if Decide(s.env) != Skip {
      assert i in routed.sweeps;
    }
  }

  // No tick is past its routing.
  predicate NoneRouted(s: State) {
    forall i | i in s.sweeps :: s.sweeps[i].Fetched?
  }

  lemma SkipStep(s: State, a: Action)
    requires Enabled(s, a) && !a.Configure? && Decide(s.env) == Skip && NoneRouted(s)
    ensures Step(s, a).env == s.env && NoneRouted(Step(s, a))
    ensures Step(s, a).removals == s.removals && s.index.Keys <= Step(s, a).index.Keys
  {
  }

  // While the schema guard skips, nothing any process does purges a post, passes one
  // to DeletePost or takes a row out of the index: not one post is lost to the guard.
  lemma {:induction false} SkipRemovesNothing(d: Discipline, s: State, actions: seq<Action>)
    requires IsRun(d, s, actions) && Decide(s.env) == Skip && NoneRouted(s)
    requires forall a | a in actions :: !a.Configure?
    ensures var t := Final(d, s, actions);
            t.removals == s.removals && s.index.Keys <= t.index.Keys
    decreases actions
  {
    if actions != [] {
      SkipStep(s, actions[0]);
      SkipRemovesNothing(d, Step(s, actions[0]), actions[1..]);
    }
  }
}
