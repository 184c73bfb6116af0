// Every row carries the value of the latest write that set it; so the history tells
// whether a tick deletes a post whose row was moved into the future meanwhile.
module RowHistory {
  import opened ExpireIndex
  import opened Updates
  import opened Protocol
  import Lifetime

  // The row's value is that of its latest write.
  ghost predicate RowInv(s: State, e: Entry) {
    var p := LastWrite(s.log, e.postId, e.rootId);
    p >= 0 && s.log[p].at == e.expireAt
  }

  // Where the latest write of a fetched row is older than the fetch, the fetched
  // value is still that write's.
  ghost predicate FetchedInv(s: State, mark: nat, e: Entry) {
    mark <= |s.log| && (LastWrite(s.log, e.postId, e.rootId) < mark ==> RowInv(s, e))
  }

  ghost predicate SweepInv(s: State, t: Sweep) {
    forall e | e in t.batch :: FetchedInv(s, t.mark, e)
  }

  ghost predicate Inv(s: State) {
    && Lifetime.Inv(s)
    && (forall id | id in s.index :: RowInv(s, s.index[id]))
    && (forall i | i in s.sweeps :: SweepInv(s, s.sweeps[i]))
  }

  lemma WrittenRow(s: State, a: Action, id: PostId)
    requires Inv(s) && Enabled(s, a) && id in Step(s, a).index
    requires a.Insert? || a.Bump?
    requires a.Insert? ==> id == s.hooks[a.h].post.id
    requires a.Bump? ==> id in s.index && s.index[id].rootId == s.hooks[a.h].post.rootId
    ensures RowInv(Step(s, a), Step(s, a).index[id])
  {
    RowsMove(s, a, id);
    LogMoves(s, a);
    Lifetime.RowStep(s, a, id);
    WriteAppended(s.log, Step(s, a).log[|s.log|], id, Step(s, a).index[id].rootId);
  }

  lemma UnwrittenRow(s: State, a: Action, e: Entry)
    requires Enabled(s, a) && RowInv(s, e)
    requires a.Insert? ==> e.postId != s.hooks[a.h].post.id
    requires a.Bump? ==> e.rootId != s.hooks[a.h].post.rootId
    ensures RowInv(Step(s, a), e)
  {
    LogMoves(s, a);
    if a.Insert? || a.Bump? {
      WriteAppended(s.log, Step(s, a).log[|s.log|], e.postId, e.rootId);
    }
  }

  lemma RowStep(s: State, a: Action, id: PostId)
    requires Inv(s) && Enabled(s, a) && id in Step(s, a).index
    ensures RowInv(Step(s, a), Step(s, a).index[id])
  {
    RowsMove(s, a, id);
    if (a.Insert? && id == s.hooks[a.h].post.id) || (a.Bump? && s.index[id].rootId == s.hooks[a.h].post.rootId) {
      WrittenRow(s, a, id);
    } else {
      assert s.index[id].postId == id;
      UnwrittenRow(s, a, s.index[id]);
    }
  }

  lemma FetchedStays(s: State, a: Action, mark: nat, e: Entry)
    requires Enabled(s, a) && FetchedInv(s, mark, e)
    ensures FetchedInv(Step(s, a), mark, e)
  {
    LogMoves(s, a);
    if a.Insert? || a.Bump? {
      WriteAppended(s.log, Step(s, a).log[|s.log|], e.postId, e.rootId);
    }
  }

  lemma SweepStep(s: State, a: Action, i: SweeperId)
    requires Inv(s) && Enabled(s, a) && i in Step(s, a).sweeps
    ensures SweepInv(Step(s, a), Step(s, a).sweeps[i])
  {
    SweepsMove(s, a, i);
    LogMoves(s, a);
    var t := Step(s, a).sweeps[i];
    forall e | e in t.batch
      ensures FetchedInv(Step(s, a), t.mark, e)
    {
      if i in s.sweeps {
        assert SweepInv(s, s.sweeps[i]);
        FetchedStays(s, a, t.mark, e);
      } else {
        assert RowInv(s, s.index[e.postId]);
      }
    }
  }

  lemma StepKeepsInv(s: State, a: Action)
    requires Inv(s) && Enabled(s, a)
    ensures Inv(Step(s, a))
  {
    var next := Step(s, a);
    Lifetime.StepKeepsInv(s, a);
    forall id | id in next.index
      ensures RowInv(next, next.index[id])
    {
      RowStep(s, a, id);
    }
    forall i | i in next.sweeps
      ensures SweepInv(next, next.sweeps[i])
    {
      SweepStep(s, a, i);
    }
  }

  lemma {:induction false} RunKeepsInv(d: Discipline, s: State, actions: seq<Action>)
    requires Inv(s) && IsRun(d, s, actions)
    ensures Inv(Final(d, s, actions))
    decreases actions
  {
    if actions != [] {
      StepKeepsInv(s, actions[0]);
      RunKeepsInv(d, Step(s, actions[0]), actions[1..]);
    }
  }

  lemma ReachableInv(d: Discipline, s: State)
    requires Reachable(d, s)
    ensures Inv(s)
  {
    var init, actions :| Init(init) && IsRun(d, init, actions) && Final(d, init, actions) == s;
    RunKeepsInv(d, init, actions);
  }

  // Since the tick's fetch, the row of this entry was inserted again or its thread
  // bumped, and the latest such write set it past the tick's clock.
  predicate MovedOn(s: State, t: Sweep, e: Entry) {
    var p := LastWrite(s.log, e.postId, e.rootId);
    p >= t.mark && s.log[p].at > t.now
  }

  // Whatever a tick fetched, and at any later point of the tick: a row that is still
  // indexed has moved past the tick's clock exactly when the latest write to it since
  // the fetch set such a value.
  lemma FetchedRowIsLaterIffMovedOn(d: Discipline, s: State, i: SweeperId, e: Entry)
    requires Reachable(d, s) && i in s.sweeps && e in s.sweeps[i].batch && e.postId in s.index
    ensures s.index[e.postId].rootId == e.rootId
    ensures s.index[e.postId].expireAt > s.sweeps[i].now <==> MovedOn(s, s.sweeps[i], e)
  {
    ReachableInv(d, s);
    assert SweepInv(s, s.sweeps[i]) && Lifetime.SweepInv(s, s.sweeps[i]);
    assert Lifetime.RowInv(s, e) && Lifetime.RowInv(s, s.index[e.postId]);
    assert RowInv(s, s.index[e.postId]);
  }

  // So a tick purges a post, or passes it to DeletePost, while its current row lies in
  // the future exactly when that row was moved on since the tick's fetch.
  lemma RemovesLaterRowIffMovedOn(d: Discipline, s: State, a: Action, e: Entry)
    requires Reachable(d, s) && Enabled(s, a) && Removes(s, a, e) && e.postId in s.index
    ensures e.postId in Step(s, a).index
    ensures exists r :: r in Step(s, a).removals && r.entry == e && r.now == s.sweeps[a.i].now
                     && (a.Pass? ==> r.how == BySoftDelete(a.ok))
    ensures Step(s, a).index[e.postId].expireAt > s.sweeps[a.i].now <==> MovedOn(s, s.sweeps[a.i], e)
  {
    var t := s.sweeps[a.i];
    FetchedRowIsLaterIffMovedOn(d, s, a.i, e);
    var how := if a.Pass? then BySoftDelete(a.ok) else ByHardPurge(t.env);
    assert Removal(e, t.now, how) in Step(s, a).removals;
  }
}
