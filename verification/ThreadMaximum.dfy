// The thread maximum with hooks of different threads, ticks and everything else
// interleaved.
module ThreadMaximum {
  import opened ExpireIndex
  import opened Posts
  import opened Updates
  import opened Protocol
  import opened ThreadUniformity
  import Lifetime
  import RowHistory

  // The value is one a hook of the thread computed, and no such value exceeds it.
  ghost predicate IsThreadMaximum(s: State, root: PostId, at: int) {
    && (exists w :: w in s.writes && ThreadRoot(w.post) == root && w.at == at)
    && CoversThread(s, root, at)
  }

  ghost predicate CoversThread(s: State, root: PostId, at: int) {
    forall w | w in s.writes && ThreadRoot(w.post) == root :: w.at <= at
  }

  ghost predicate HookInv(s: State, hook: Hook) {
    && CoversThread(s, ThreadRoot(hook.post), hook.at)
    && (hook.post.rootId == "" ==> forall id | id in s.index :: s.index[id].rootId != hook.post.id)
  }

  ghost predicate RowInv(s: State, e: Entry) {
    ThreadIdle(s, e.rootId) ==> CoversThread(s, e.rootId, e.expireAt)
  }

  ghost predicate Inv(s: State, root: PostId) {
    && Lifetime.Inv(s)
    && (forall h | h in s.hooks && ThreadRoot(s.hooks[h].post) == root :: HookInv(s, s.hooks[h]))
    && HooksApart(s, root)
    && (forall id | id in s.index && s.index[id].rootId == root :: RowInv(s, s.index[id]))
  }

  lemma CoverStays(s: State, a: Action, root: PostId, at: int)
    requires Enabled(s, a) && CoversThread(s, root, at)
    requires a.StartHook? ==> ThreadRoot(s.posts[a.postId]) != root
    ensures CoversThread(Step(s, a), root, at)
  {
  }

  lemma StartStep(s: State, h: HookId, id: PostId, root: PostId)
    requires Inv(s, root) && Enabled(s, StartHook(h, id)) && Respects(Monotone(root), s, StartHook(h, id))
    requires ThreadRoot(s.posts[id]) == root
    ensures HookInv(Step(s, StartHook(h, id)), Step(s, StartHook(h, id)).hooks[h])
  {
    var post := s.posts[id];
    if post.rootId == "" {
      forall other | other in s.index
        ensures s.index[other].rootId != post.id
      {
        assert Lifetime.RowInv(s, s.index[other]);
        var w :| w in s.writes && w.post == s.posts[other];
      }
    }
  }

  lemma HookStep(s: State, a: Action, h: HookId, root: PostId)
    requires Inv(s, root) && Enabled(s, a) && Respects(Monotone(root), s, a)
    requires h in Step(s, a).hooks && ThreadRoot(Step(s, a).hooks[h].post) == root
    ensures HookInv(Step(s, a), Step(s, a).hooks[h])
  {
    HooksMove(s, a, h);
    if h !in s.hooks {
      StartStep(s, h, a.postId, root);
    } else {
      var hook := s.hooks[h];
      assert HookInv(s, hook) && Lifetime.HookInv(s, hook);
      CoverStays(s, a, root, hook.at);
      if hook.post.rootId == "" {
        forall id | id in Step(s, a).index
          ensures Step(s, a).index[id].rootId != hook.post.id
        {
          RowsMove(s, a, id);
          assert a.Insert? ==> a.h != h;
        }
      }
    }
  }

  // A thread that is idle after a step was idle before, or the step ended its hook.
  lemma IdleMoves(s: State, a: Action, root: PostId)
    requires Enabled(s, a) && Respects(Monotone(root), s, a) && ThreadIdle(Step(s, a), root)
    ensures ThreadIdle(s, root)
            || (a.Bump? && ThreadRoot(s.hooks[a.h].post) == root)
            || (a.Insert? && s.hooks[a.h].post.rootId == "" && s.hooks[a.h].post.id == root)
    ensures a.StartHook? ==> ThreadRoot(s.posts[a.postId]) != root
  {
    var next := Step(s, a);
    if h :| h in s.hooks && ThreadRoot(s.hooks[h].post) == root {
      assert h !in next.hooks;
    }
    if a.StartHook? {
      assert a.h in next.hooks && next.hooks[a.h].post == s.posts[a.postId];
    }
  }

  lemma RowStep(s: State, a: Action, id: PostId, root: PostId)
    requires Inv(s, root) && Enabled(s, a) && Respects(Monotone(root), s, a)
    requires id in Step(s, a).index && Step(s, a).index[id].rootId == root
    ensures RowInv(Step(s, a), Step(s, a).index[id])
  {
    var e := Step(s, a).index[id];
    if ThreadIdle(Step(s, a), root) {
      RowsMove(s, a, id);
      IdleMoves(s, a, root);
      if a.Bump? || a.Insert? {
        assert Lifetime.HookInv(s, s.hooks[a.h]);
        assert ThreadRoot(s.hooks[a.h].post) == root ==> HookInv(s, s.hooks[a.h]);
      }
      CoverStays(s, a, root, e.expireAt);
    }
  }

  lemma StepKeepsInv(s: State, a: Action, root: PostId)
    requires Inv(s, root) && Enabled(s, a) && Respects(Monotone(root), s, a)
    ensures Inv(Step(s, a), root)
  {
    var next := Step(s, a);
    Lifetime.StepKeepsInv(s, a);
    HooksStayApart(s, a, root);
    forall h | h in next.hooks && ThreadRoot(next.hooks[h].post) == root
      ensures HookInv(next, next.hooks[h])
    {
      HookStep(s, a, h, root);
    }
    forall id | id in next.index && next.index[id].rootId == root
      ensures RowInv(next, next.index[id])
    {
      RowStep(s, a, id, root);
    }
  }

  lemma {:induction false} RunKeepsInv(s: State, actions: seq<Action>, root: PostId)
    requires Inv(s, root) && IsRun(Monotone(root), s, actions)
    ensures Inv(Final(Monotone(root), s, actions), root)
    decreases actions
  {
    if actions != [] {
      StepKeepsInv(s, actions[0], root);
      RunKeepsInv(Step(s, actions[0]), actions[1..], root);
    }
  }

  // With the root of a thread first, expiries that do not decrease along it and none
  // of its hooks failing, every row of the thread carries, while it has no hook in
  // flight, the maximum of send time plus TTL over all posts delivered in it:
  // whatever hooks of other threads, ticks at any stage, crashes of ticks, settings
  // and configuration do in between.
  lemma RowsCarryThreadMaximum(s: State, id: PostId)
    requires id in s.index && Reachable(Monotone(s.index[id].rootId), s) && ThreadIdle(s, s.index[id].rootId)
    ensures IsThreadMaximum(s, s.index[id].rootId, s.index[id].expireAt)
  {
    var root := s.index[id].rootId;
    var init, actions :| Init(init) && IsRun(Monotone(root), init, actions) && Final(Monotone(root), init, actions) == s;
    RunKeepsInv(init, actions, root);
    assert RowInv(s, s.index[id]) && Lifetime.RowInv(s, s.index[id]);
  }

  // ---- Without any assumption on the hooks ----

  // However the hooks of the thread overlap, fail or follow each other: a row carries
  // the maximum exactly when the latest write to it gave no smaller value than any
  // hook of the thread computed.
  lemma MaximumIffLastWriteCovers(d: Discipline, s: State, id: PostId)
    requires Reachable(d, s) && id in s.index
    ensures var root := s.index[id].rootId;
            var p := LastWrite(s.log, id, root);
            p >= 0 && (IsThreadMaximum(s, root, s.index[id].expireAt) <==> CoversThread(s, root, s.log[p].at))
  {
    RowHistory.ReachableInv(d, s);
    RowsCarryLastWrite(d, s, id);
    assert Lifetime.RowInv(s, s.index[id]);
  }

  // In a settled thread with a reply and without a late root all rows carry the
  // maximum exactly when the last bump did.
  lemma MaximaIffLastBumpCovers(d: Discipline, s: State, reply: PostId)
    requires Reachable(d, s) && IsReply(s, reply)
    requires var root := s.index[reply].rootId; Settled(s, root) && !LateRoot(s, root)
    ensures var root := s.index[reply].rootId;
            var p := LastBump(s.log, root);
            p >= 0
            && ((forall id | id in IdsInThread(s.index, root) :: IsThreadMaximum(s, root, s.index[id].expireAt))
                <==> CoversThread(s, root, s.log[p].at))
  {
    var root := s.index[reply].rootId;
    SettledReply(d, s, reply);
    UniformIffNoLateRoot(d, s, root);
    RowHistory.ReachableInv(d, s);
    assert Lifetime.RowInv(s, s.index[reply]) && reply in IdsInThread(s.index, root);
    forall id | id in IdsInThread(s.index, root)
      ensures s.index[id].expireAt == s.log[LastBump(s.log, root)].at
    {
    }
  }
}
