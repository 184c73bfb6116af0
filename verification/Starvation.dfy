// No expired row starves, however many posts and bumps arrive meanwhile.
module Starvation {
  import opened SetSizes
  import opened ExpireIndex
  import opened Protocol

  // The other rows that a query may return before this one.
  function Ahead(idx: Index, x: PostId, due: int): set<PostId> {
    set id | id in idx && id != x && idx[id].expireAt <= due
  }

  // The step writes only expiries later than the row's, leaves the row itself
  // alone, and the sweeper's fetches happen after the row fell due.
  ghost predicate Undisturbed(s: State, a: Action, i: SweeperId, x: PostId, due: int)
    requires Enabled(s, a)
  {
    match a
    case Insert(h, _) => s.hooks[h].post.id != x && s.hooks[h].at > due
    case Bump(h) => s.hooks[h].at > due && (x in s.index ==> s.index[x].rootId != s.hooks[h].post.rootId)
    case Fetch(j, now, _) => j == i ==> now >= due
    case _ => true
  }

  ghost predicate UndisturbedRun(s: State, actions: seq<Action>, i: SweeperId, x: PostId, due: int)
    decreases actions
  {
    actions == []
    || (Enabled(s, actions[0]) && Undisturbed(s, actions[0], i, x, due)
        && UndisturbedRun(Step(s, actions[0]), actions[1..], i, x, due))
  }

  // The sweeper's ticks that ran to their prune.
  function CompletedTicks(actions: seq<Action>, i: SweeperId): nat {
    if actions == [] then 0
    else (if actions[0].Prune? && actions[0].i == i then 1 else 0) + CompletedTicks(actions[1..], i)
  }

  ghost function End(s: State, actions: seq<Action>, i: SweeperId, x: PostId, due: int): State
    requires UndisturbedRun(s, actions, i, x, due)
    decreases actions
  {
    if actions == [] then s else End(Step(s, actions[0]), actions[1..], i, x, due)
  }

  // While the row is still there, the completed ticks have used up this many of the
  // k rows that were ahead of it, and a tick under way that missed it will use up
  // limit more.
  ghost predicate Budget(s: State, i: SweeperId, x: PostId, due: int, k: nat, used: nat) {
    x in s.index ==>
      && s.index[x].expireAt == due
      && |Ahead(s.index, x, due)| + used <= k
      && (i in s.sweeps && x !in Ids(s.sweeps[i].batch) ==>
            |Ahead(s.index, x, due) - Ids(s.sweeps[i].batch)| + used + s.limit <= k)
  }

  function UsedBy(s: State, a: Action, i: SweeperId): nat {
    if a.Prune? && a.i == i then s.limit else 0
  }

  // What a step does to the row and to the rows ahead of it.
  lemma AheadShrinks(s: State, a: Action, i: SweeperId, x: PostId, due: int)
    requires Enabled(s, a) && Undisturbed(s, a, i, x, due)
    requires x in s.index ==> s.index[x].expireAt == due
    ensures x in Step(s, a).index ==> x in s.index && Step(s, a).index[x].expireAt == due
    ensures Ahead(Step(s, a).index, x, due) <= Ahead(s.index, x, due)
  {
  }

  // A fetch after the row fell due takes the row, or takes limit rows ahead of it.
  lemma FetchTakesFromAhead(s: State, i: SweeperId, now: int, batch: seq<Entry>, x: PostId, due: int)
    requires Enabled(s, Fetch(i, now, batch)) && now >= due
    requires x in s.index && s.index[x].expireAt == due && x !in Ids(batch)
    ensures |Ahead(s.index, x, due) - Ids(batch)| + s.limit == |Ahead(s.index, x, due)|
  {
    LeftOutIsLater(s.index, now, s.limit, batch, x);
    DistinctIdsCount(batch);
    var ahead := Ahead(s.index, x, due);
    assert Ids(batch) <= ahead;
    assert ahead == Ids(batch) + (ahead - Ids(batch));
  }

  lemma PruneKeepsBudget(s: State, i: SweeperId, x: PostId, due: int, k: nat, used: nat)
    requires Enabled(s, Prune(i)) && Budget(s, i, x, due, k, used)
    ensures Budget(Step(s, Prune(i)), i, x, due, k, used + s.limit)
  {
    var next := Step(s, Prune(i));
    if x in next.index {
      assert Ahead(next.index, x, due) == Ahead(s.index, x, due) - Ids(s.sweeps[i].batch);
    }
  }

  lemma FetchKeepsBudget(s: State, i: SweeperId, now: int, batch: seq<Entry>, x: PostId, due: int, k: nat, used: nat)
    requires Enabled(s, Fetch(i, now, batch)) && now >= due && Budget(s, i, x, due, k, used)
    ensures Budget(Step(s, Fetch(i, now, batch)), i, x, due, k, used)
  {
    if x in s.index && x !in Ids(batch) {
      FetchTakesFromAhead(s, i, now, batch, x, due);
    }
  }

  lemma StepKeepsBudget(s: State, a: Action, i: SweeperId, x: PostId, due: int, k: nat, used: nat)
    requires Enabled(s, a) && Undisturbed(s, a, i, x, due)
    requires Budget(s, i, x, due, k, used)
    ensures Budget(Step(s, a), i, x, due, k, used + UsedBy(s, a, i))
  {
    if a.Prune? && a.i == i {
      PruneKeepsBudget(s, i, x, due, k, used);
    } else if a.Fetch? && a.i == i {
      FetchKeepsBudget(s, i, a.now, a.batch, x, due, k, used);
    } else {
      var next := Step(s, a);
      AheadShrinks(s, a, i, x, due);
      SubsetCount(Ahead(next.index, x, due), Ahead(s.index, x, due));
      if i in next.sweeps {
        SweepsMove(s, a, i);
        var ids := Ids(s.sweeps[i].batch);
        SubsetCount(Ahead(next.index, x, due) - ids, Ahead(s.index, x, due) - ids);
      }
    }
  }

  lemma {:induction false} RunKeepsBudget(s: State, actions: seq<Action>, i: SweeperId, x: PostId, due: int, k: nat, used: nat)
    requires UndisturbedRun(s, actions, i, x, due)
    requires Budget(s, i, x, due, k, used)
    ensures Budget(End(s, actions, i, x, due), i, x, due, k, used + Times(s.limit, CompletedTicks(actions, i)))
    decreases actions
  {
    if actions != [] {
      var a, rest := actions[0], actions[1..];
      var next := Step(s, a);
      StepKeepsBudget(s, a, i, x, due, k, used);
      LimitStays(s, a);
      RunKeepsBudget(next, rest, i, x, due, k, used + UsedBy(s, a, i));
      assert UsedBy(s, a, i) + Times(s.limit, CompletedTicks(rest, i)) == Times(s.limit, CompletedTicks(actions, i));
    }
  }

  // limit * ticks, one tick at a time.
  function Times(limit: nat, ticks: nat): nat {
    if ticks == 0 then 0 else limit + Times(limit, ticks - 1)
  }

  lemma {:induction false} TimesIsProduct(limit: nat, ticks: nat)
    ensures Times(limit, ticks) == limit * ticks
  {
    if ticks > 0 {
      TimesIsProduct(limit, ticks - 1);
      assert limit * ticks == limit * (ticks - 1) + limit;
    }
  }

  // A row with k others at or before its expiry leaves the index within
  // k / limit + 1 completed ticks of an idle sweeper, among any other steps: new
  // posts, bumps, failed ticks, other sweepers, crashes, configuration changes.
  lemma {:induction false} ExpiredRowLeaves(s: State, actions: seq<Action>, i: SweeperId, x: PostId)
    requires s.limit > 0 && x in s.index && i !in s.sweeps
    requires UndisturbedRun(s, actions, i, x, s.index[x].expireAt)
    requires CompletedTicks(actions, i) >= |Ahead(s.index, x, s.index[x].expireAt)| / s.limit + 1
    ensures x !in End(s, actions, i, x, s.index[x].expireAt).index
  {
    var due := s.index[x].expireAt;
    var k, ticks := |Ahead(s.index, x, due)|, CompletedTicks(actions, i);
    RunKeepsBudget(s, actions, i, x, due, k, 0);
    EnoughTicks(k, s.limit, ticks);
  }

  lemma EnoughTicks(k: nat, limit: nat, ticks: nat)
    requires limit > 0 && ticks >= k / limit + 1
    ensures Times(limit, ticks) > k
  {
    var q := k / limit;
    assert k == limit * q + k % limit;
    TimesIsProduct(limit, q);
    TimesGrow(limit, q + 1, ticks);
  }

  lemma {:induction false} TimesGrow(limit: nat, x: nat, y: nat)
    requires x <= y
    ensures Times(limit, x) <= Times(limit, y)
  {
    if x < y {
      TimesGrow(limit, x, y - 1);
    }
  }
}
