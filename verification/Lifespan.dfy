// How long a post lives: a minute at least, exactly as long as no bump of its thread
// carries a value that is too early for it.
module Lifespan {
  import opened TtlRules
  import opened ExpireIndex
  import opened Posts
  import opened Protocol
  import opened Lifetime

  const MINUTE_MS := 60_000

  ghost predicate LivedAMinute(s: State, e: Entry) {
    e.postId in s.posts && e.expireAt >= s.posts[e.postId].createAt + MINUTE_MS
  }

  // An entry of this thread, in the index, in a batch or in a removal.
  ghost predicate LiveEntry(s: State, e: Entry, root: PostId) {
    e.rootId == root ==> LivedAMinute(s, e)
  }

  ghost predicate LiveBatch(s: State, t: Sweep, root: PostId) {
    forall e | e in t.batch :: LiveEntry(s, e, root)
  }

  ghost predicate LiveRows(s: State, root: PostId) {
    forall id | id in s.index :: LiveEntry(s, s.index[id], root)
  }

  ghost predicate LiveInv(s: State, root: PostId) {
    && Inv(s)
    && LiveRows(s, root)
    && (forall i | i in s.sweeps :: LiveBatch(s, s.sweeps[i], root))
    && (forall r | r in s.removals :: LiveEntry(s, r.entry, root))
  }

  lemma LiveSweepStep(s: State, a: Action, i: SweeperId, root: PostId)
    requires LiveInv(s, root) && Enabled(s, a) && i in Step(s, a).sweeps
    ensures LiveBatch(Step(s, a), Step(s, a).sweeps[i], root)
  {
    StepExtends(s, a);
    SweepsMove(s, a, i);
    if i in s.sweeps {
      assert LiveBatch(s, s.sweeps[i], root);
    }
  }

  lemma LifeSurvives(s: State, t: State, e: Entry, root: PostId)
    requires Extends(s, t) && LiveEntry(s, e, root)
    ensures LiveEntry(t, e, root)
  {
  }

  lemma LiveRemovalStep(s: State, a: Action, r: Removal, root: PostId)
    requires LiveInv(s, root) && Enabled(s, a) && r in Step(s, a).removals
    ensures LiveEntry(Step(s, a), r.entry, root)
  {
    StepExtends(s, a);
    if r !in s.removals {
      RemovalsMove(s, a, r);
      assert LiveBatch(s, s.sweeps[a.i], root);
    }
    LifeSurvives(s, Step(s, a), r.entry, root);
  }

  // As long as the rows live, so do the batches fetched from them and the removals.
  lemma LiveStep(s: State, a: Action, root: PostId)
    requires LiveInv(s, root) && Enabled(s, a) && LiveRows(Step(s, a), root)
    ensures LiveInv(Step(s, a), root)
  {
    var next := Step(s, a);
    StepKeepsInv(s, a);
    forall i | i in next.sweeps
      ensures LiveBatch(next, next.sweeps[i], root)
    {
      LiveSweepStep(s, a, i, root);
    }
    forall r | r in next.removals
      ensures LiveEntry(next, r.entry, root)
    {
      LiveRemovalStep(s, a, r, root);
    }
  }

  // ---- Exactly when the rows of a thread live ----

  ghost predicate LiveHooks(s: State, root: PostId) {
    forall h | h in s.hooks && ThreadRoot(s.hooks[h].post) == root :: s.hooks[h].at >= s.hooks[h].post.createAt + MINUTE_MS
  }

  // Posts of the thread whose hook starts were sent at a realistic time.
  ghost predicate Realistic(s: State, actions: seq<Action>, root: PostId)
    requires IsRun(AnyOrder, s, actions)
    decreases actions
  {
    actions != [] ==>
      && (actions[0].StartHook? && ThreadRoot(s.posts[actions[0].postId]) == root ==>
            RealisticTime(s.posts[actions[0].postId].createAt))
      && Realistic(Step(s, actions[0]), actions[1..], root)
  }

  // If this step bumps the thread, its value is a minute past the send time of every
  // post of the thread in the index.
  ghost predicate Spares(s: State, a: Action, root: PostId)
    requires Enabled(s, a)
  {
    a.Bump? && s.hooks[a.h].post.rootId == root ==>
      forall id | id in s.index && s.index[id].rootId == root && id in s.posts ::
        s.hooks[a.h].at >= s.posts[id].createAt + MINUTE_MS
  }

  ghost predicate AlwaysSpares(s: State, actions: seq<Action>, root: PostId)
    requires IsRun(AnyOrder, s, actions)
    decreases actions
  {
    actions != [] ==> Spares(s, actions[0], root) && AlwaysSpares(Step(s, actions[0]), actions[1..], root)
  }

  ghost predicate AlwaysLive(s: State, actions: seq<Action>, root: PostId)
    requires IsRun(AnyOrder, s, actions)
    decreases actions
  {
    LiveRows(s, root) && (actions != [] ==> AlwaysLive(Step(s, actions[0]), actions[1..], root))
  }

  lemma LiveRowStep(s: State, a: Action, id: PostId, root: PostId)
    requires Inv(s) && LiveRows(s, root) && LiveHooks(s, root) && Enabled(s, a) && Spares(s, a, root)
    requires id in Step(s, a).index
    ensures LiveEntry(Step(s, a), Step(s, a).index[id], root)
  {
    RowStep(s, a, id);
    RowsMove(s, a, id);
    StepExtends(s, a);
    if (a.Insert? && id == s.hooks[a.h].post.id) || (a.Bump? && s.index[id].rootId == s.hooks[a.h].post.rootId) {
      assert HookInv(s, s.hooks[a.h]);
    }
  }

  lemma SpareNeeded(s: State, a: Action, root: PostId)
    requires Inv(s) && Enabled(s, a) && LiveRows(Step(s, a), root)
    ensures Spares(s, a, root)
  {
    if a.Bump? && s.hooks[a.h].post.rootId == root {
      forall id | id in s.index && s.index[id].rootId == root && id in s.posts
        ensures s.hooks[a.h].at >= s.posts[id].createAt + MINUTE_MS
      {
        assert Step(s, a).index[id].expireAt == s.hooks[a.h].at;
      }
    }
  }

  lemma LiveHooksStep(s: State, a: Action, root: PostId)
    requires Inv(s) && LiveHooks(s, root) && Enabled(s, a)
    requires a.StartHook? && ThreadRoot(s.posts[a.postId]) == root ==> RealisticTime(s.posts[a.postId].createAt)
    ensures LiveHooks(Step(s, a), root)
  {
    forall h | h in Step(s, a).hooks && ThreadRoot(Step(s, a).hooks[h].post) == root
      ensures Step(s, a).hooks[h].at >= Step(s, a).hooks[h].post.createAt + MINUTE_MS
    {
      HooksMove(s, a, h);
      if h !in s.hooks {
        StoredSecondsAreExact(s.ttl[s.posts[a.postId].channelId], s.posts[a.postId].createAt);
      }
    }
  }

  // Over any run, however its hooks overlap: the rows of a thread always stay a
  // minute past their own posts' send times exactly when every bump of the thread
  // carries a value a minute past the send times of all posts it overwrites.
  lemma {:induction false} LiveIffSpared(s: State, actions: seq<Action>, root: PostId)
    requires IsRun(AnyOrder, s, actions) && Realistic(s, actions, root)
    requires Inv(s) && LiveRows(s, root) && LiveHooks(s, root)
    ensures AlwaysLive(s, actions, root) <==> AlwaysSpares(s, actions, root)
    decreases actions
  {
    if actions != [] {
      var a := actions[0];
      var next := Step(s, a);
      StepKeepsInv(s, a);
      LiveHooksStep(s, a, root);
      if Spares(s, a, root) {
        forall id | id in next.index
          ensures LiveEntry(next, next.index[id], root)
        {
          LiveRowStep(s, a, id, root);
        }
        LiveIffSpared(next, actions[1..], root);
      } else if LiveRows(next, root) {
        SpareNeeded(s, a, root);
      }
    }
  }

  lemma {:induction false} LiveRun(s: State, actions: seq<Action>, root: PostId)
    requires IsRun(AnyOrder, s, actions) && AlwaysLive(s, actions, root) && LiveInv(s, root)
    ensures LiveInv(Final(AnyOrder, s, actions), root)
    decreases actions
  {
    if actions != [] {
      assert AlwaysLive(Step(s, actions[0]), actions[1..], root);
      LiveStep(s, actions[0], root);
      LiveRun(Step(s, actions[0]), actions[1..], root);
    }
  }

  // In such a run no tick purges a post of the thread, or passes it to DeletePost, less
  // than a minute after its send time.
  lemma SparedPostsLiveAMinute(init: State, actions: seq<Action>, r: Removal)
    requires Init(init) && IsRun(AnyOrder, init, actions) && Realistic(init, actions, r.entry.rootId)
    requires AlwaysSpares(init, actions, r.entry.rootId) && r in Final(AnyOrder, init, actions).removals
    ensures var posts := Final(AnyOrder, init, actions).posts;
            r.entry.postId in posts && r.now >= posts[r.entry.postId].createAt + MINUTE_MS
  {
    var root := r.entry.rootId;
    LiveIffSpared(init, actions, root);
    LiveRun(init, actions, root);
    assert RemovalInv(Final(AnyOrder, init, actions), r);
  }

  // ---- Hooks in order ----

  ghost predicate OrderedHook(s: State, hook: Hook) {
    && hook.at >= hook.post.createAt + MINUTE_MS
    && forall id | id in s.index && id in s.posts && s.index[id].rootId == ThreadRoot(hook.post) ::
         s.posts[id].createAt <= hook.post.createAt
  }

  ghost predicate OrderedInv(s: State, root: PostId) {
    && LiveInv(s, root)
    && (forall h | h in s.hooks && ThreadRoot(s.hooks[h].post) == root :: OrderedHook(s, s.hooks[h]))
    && HooksApart(s, root)
  }

  lemma OrderedStart(s: State, h: HookId, id: PostId, root: PostId)
    requires OrderedInv(s, root) && Enabled(s, StartHook(h, id)) && Respects(InOrder(root), s, StartHook(h, id))
    requires ThreadRoot(s.posts[id]) == root
    ensures OrderedHook(Step(s, StartHook(h, id)), Step(s, StartHook(h, id)).hooks[h])
  {
    var post := s.posts[id];
    StoredSecondsAreExact(s.ttl[post.channelId], post.createAt);
    forall other | other in s.index && s.index[other].rootId == ThreadRoot(post)
      ensures s.posts[other].createAt <= post.createAt
    {
      assert RowInv(s, s.index[other]);
      var w :| w in s.writes && w.post == s.posts[other];
    }
  }

  lemma OrderedHookStep(s: State, a: Action, h: HookId, root: PostId)
    requires OrderedInv(s, root) && Enabled(s, a) && Respects(InOrder(root), s, a) && h in Step(s, a).hooks
    requires ThreadRoot(Step(s, a).hooks[h].post) == root
    ensures OrderedHook(Step(s, a), Step(s, a).hooks[h])
  {
    HooksMove(s, a, h);
    StepExtends(s, a);
    if h !in s.hooks {
      OrderedStart(s, h, a.postId, root);
    } else {
      var next, hook := Step(s, a), s.hooks[h];
      assert OrderedHook(s, hook);
      forall id | id in next.index && next.index[id].rootId == ThreadRoot(hook.post)
        ensures id in next.posts && next.posts[id].createAt <= hook.post.createAt
      {
        RowsMove(s, a, id);
        if a.Insert? && id == s.hooks[a.h].post.id {
          assert HookInv(s, s.hooks[a.h]);
          assert a.h == h;
        } else {
          assert RowInv(s, s.index[id]);
        }
      }
    }
  }

  // Hooks in order spare every post.
  lemma OrderIsSparing(s: State, a: Action, root: PostId)
    requires OrderedInv(s, root) && Enabled(s, a)
    ensures Spares(s, a, root) && LiveHooks(s, root)
  {
    forall h | h in s.hooks && ThreadRoot(s.hooks[h].post) == root
      ensures OrderedHook(s, s.hooks[h])
    {
    }
    if a.Bump? && s.hooks[a.h].post.rootId == root {
      assert HookInv(s, s.hooks[a.h]);
    }
  }

  lemma OrderedStep(s: State, a: Action, root: PostId)
    requires OrderedInv(s, root) && Enabled(s, a) && Respects(InOrder(root), s, a)
    ensures OrderedInv(Step(s, a), root)
  {
    var next := Step(s, a);
    OrderIsSparing(s, a, root);
    forall id | id in next.index
      ensures LiveEntry(next, next.index[id], root)
    {
      LiveRowStep(s, a, id, root);
    }
    LiveStep(s, a, root);
    HooksStayApart(s, a, root);
    forall h | h in next.hooks && ThreadRoot(next.hooks[h].post) == root
      ensures OrderedHook(next, next.hooks[h])
    {
      OrderedHookStep(s, a, h, root);
    }
  }

  lemma {:induction false} OrderedRun(s: State, actions: seq<Action>, root: PostId)
    requires OrderedInv(s, root) && IsRun(InOrder(root), s, actions)
    ensures OrderedInv(Final(InOrder(root), s, actions), root)
    decreases actions
  {
    if actions != [] {
      OrderedStep(s, actions[0], root);
      OrderedRun(Step(s, actions[0]), actions[1..], root);
    }
  }

  // With the hooks of a thread delivered in order, none of its posts is purged, or
  // passed to DeletePost, by a tick whose clock is less than a minute past the post's
  // own send time, whatever the hooks of other threads do.
  lemma EveryPostLivesAMinute(s: State, r: Removal)
    requires Reachable(InOrder(r.entry.rootId), s) && r in s.removals
    ensures r.entry.postId in s.posts && r.entry.rootId == ThreadRoot(s.posts[r.entry.postId])
    ensures r.now >= s.posts[r.entry.postId].createAt + MINUTE_MS
  {
    var root := r.entry.rootId;
    var init, actions :| Init(init) && IsRun(InOrder(root), init, actions) && Final(InOrder(root), init, actions) == s;
    OrderedRun(init, actions, root);
    assert RemovalInv(s, r);
  }
}
