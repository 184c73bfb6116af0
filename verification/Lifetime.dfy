// Why a post was deleted: what its row said when the deleting tick fetched it.
module Lifetime {
  import opened TtlRules
  import opened Allowlist
  import opened ExpireIndex
  import opened Purge
  import opened Posts
  import opened Protocol
  import opened Settings

  // Some post of the thread was delivered with a TTL that gives this expiry.
  ghost predicate Justified(s: State, root: PostId, at: int) {
    exists w :: w in s.writes && ThreadRoot(w.post) == root && w.at == at
  }

  ghost predicate OwnWrite(s: State, id: PostId)
    requires id in s.posts
  {
    exists w :: w in s.writes && w.post == s.posts[id]
  }

  ghost predicate WrittenAs(s: State, post: Post, at: int) {
    exists w :: w in s.writes && w.post == post && w.at == at
  }

  // A row of the index, in a batch or in a removal.
  ghost predicate RowInv(s: State, e: Entry) {
    && e.postId in s.posts && e.rootId == ThreadRoot(s.posts[e.postId])
    && OwnWrite(s, e.postId)
    && Justified(s, e.rootId, e.expireAt)
  }

  ghost predicate SweepInv(s: State, t: Sweep) {
    && (forall e | e in t.batch :: RowInv(s, e) && e.expireAt <= t.now)
    && (t.HardRouted? ==> Decide(t.env) == Hard)
  }

  ghost predicate RemovalInv(s: State, r: Removal) {
    RowInv(s, r.entry) && r.entry.expireAt <= r.now && (r.how.ByHardPurge? ==> Decide(r.how.env) == Hard)
  }

  ghost predicate HookInv(s: State, hook: Hook) {
    && hook.post.id in s.posts && s.posts[hook.post.id] == hook.post
    && WrittenAs(s, hook.post, hook.at)
    && (hook.Inserted? ==> hook.post.rootId != "")
  }

  ghost predicate WriteInv(s: State, w: Write) {
    && w.post.id in s.posts && s.posts[w.post.id] == w.post
    && InBounds(w.seconds) && w.at == ExpiryOf(w.post.createAt, w.seconds)
  }

  ghost predicate Inv(s: State) {
    && (forall ch | ch in s.ttl :: InBounds(s.ttl[ch]))
    && (forall id | id in s.posts :: s.posts[id].id == id)
    && (forall w | w in s.writes :: WriteInv(s, w))
    && (forall h | h in s.hooks :: HookInv(s, s.hooks[h]))
    && (forall id | id in s.index :: s.index[id].postId == id && RowInv(s, s.index[id]))
    && (forall i | i in s.sweeps :: SweepInv(s, s.sweeps[i]))
    && (forall r | r in s.removals :: RemovalInv(s, r))
  }

  // Known posts and writes only accumulate.
  ghost predicate Extends(s: State, t: State) {
    && (forall id | id in s.posts :: id in t.posts && t.posts[id] == s.posts[id])
    && s.writes <= t.writes
  }

  lemma StepExtends(s: State, a: Action)
    requires Enabled(s, a)
    ensures Extends(s, Step(s, a))
  {
  }

  lemma RowSurvives(s: State, t: State, e: Entry)
    requires Extends(s, t) && RowInv(s, e)
    ensures RowInv(t, e)
  {
  }

  lemma SweepSurvives(s: State, t: State, sweep: Sweep)
    requires Extends(s, t) && SweepInv(s, sweep)
    ensures SweepInv(t, sweep)
  {
  }

  lemma HookStep(s: State, a: Action, h: HookId)
    requires Inv(s) && Enabled(s, a) && h in Step(s, a).hooks
    ensures HookInv(Step(s, a), Step(s, a).hooks[h])
  {
    HooksMove(s, a, h);
    StepExtends(s, a);
    if h in s.hooks {
      assert HookInv(s, s.hooks[h]);
      WriteSurvives(s, Step(s, a), s.hooks[h].post, s.hooks[h].at);
    } else {
      StartedHook(s, h, a.postId);
    }
  }

  lemma WriteSurvives(s: State, t: State, post: Post, at: int)
    requires Extends(s, t) && WrittenAs(s, post, at)
    ensures WrittenAs(t, post, at)
  {
  }

  lemma StartedHook(s: State, h: HookId, id: PostId)
    requires Inv(s) && Enabled(s, StartHook(h, id))
    ensures HookInv(Step(s, StartHook(h, id)), Step(s, StartHook(h, id)).hooks[h])
  {
  }

  lemma WrittenRow(s: State, hook: Hook, e: Entry)
    requires HookInv(s, hook)
    requires e.postId in s.posts && e.rootId == ThreadRoot(s.posts[e.postId]) == ThreadRoot(hook.post)
    requires e.expireAt == hook.at && (e.postId == hook.post.id || OwnWrite(s, e.postId))
    ensures RowInv(s, e)
  {
  }

  lemma RowStep(s: State, a: Action, id: PostId)
    requires Inv(s) && Enabled(s, a) && id in Step(s, a).index
    ensures Step(s, a).index[id].postId == id && RowInv(Step(s, a), Step(s, a).index[id])
  {
    var next := Step(s, a);
    StepExtends(s, a);
    RowsMove(s, a, id);
    if (a.Insert? && id == s.hooks[a.h].post.id) || (a.Bump? && s.index[id].rootId == s.hooks[a.h].post.rootId) {
      assert HookInv(s, s.hooks[a.h]);
      WrittenRow(s, s.hooks[a.h], next.index[id]);
    }
    RowSurvives(s, next, next.index[id]);
  }

  lemma SweepStep(s: State, a: Action, i: SweeperId)
    requires Inv(s) && Enabled(s, a) && i in Step(s, a).sweeps
    ensures SweepInv(Step(s, a), Step(s, a).sweeps[i])
  {
    StepExtends(s, a);
    var t := Step(s, a).sweeps[i];
    if a.Fetch? && a.i == i {
      assert forall e | e in t.batch :: RowInv(s, e);
    } else {
      assert SweepInv(s, s.sweeps[i]);
    }
    SweepSurvives(s, Step(s, a), t);
  }

  lemma RemovalStep(s: State, a: Action, r: Removal)
    requires Inv(s) && Enabled(s, a) && r in Step(s, a).removals
    ensures RemovalInv(Step(s, a), r)
  {
    StepExtends(s, a);
    if r !in s.removals {
      RemovalsMove(s, a, r);
      assert SweepInv(s, s.sweeps[a.i]);
    }
    RowSurvives(s, Step(s, a), r.entry);
  }

  lemma StepKeepsInv(s: State, a: Action)
    requires Inv(s) && Enabled(s, a)
    ensures Inv(Step(s, a))
  {
    var next := Step(s, a);
    forall h | h in next.hooks
      ensures HookInv(next, next.hooks[h])
    {
      HookStep(s, a, h);
    }
    forall id | id in next.index
      ensures next.index[id].postId == id && RowInv(next, next.index[id])
    {
      RowStep(s, a, id);
    }
    forall i | i in next.sweeps
      ensures SweepInv(next, next.sweeps[i])
    {
      SweepStep(s, a, i);
    }
    forall r | r in next.removals
      ensures RemovalInv(next, r)
    {
      RemovalStep(s, a, r);
    }
    forall w | w in next.writes
      ensures WriteInv(next, w)
    {
      WriteStep(s, a, w);
    }
    StepKeepsBase(s, a);
  }

  lemma StepKeepsBase(s: State, a: Action)
    requires Inv(s) && Enabled(s, a)
    ensures forall ch | ch in Step(s, a).ttl :: InBounds(Step(s, a).ttl[ch])
    ensures forall id | id in Step(s, a).posts :: Step(s, a).posts[id].id == id
  {
  }

  lemma WriteStep(s: State, a: Action, w: Write)
    requires Inv(s) && Enabled(s, a) && w in Step(s, a).writes
    ensures WriteInv(Step(s, a), w)
  {
  }

  lemma {:induction false} RunKeepsInv(d: Discipline, s: State, actions: seq<Action>)
    requires Inv(s) && IsRun(d, s, actions)
    ensures Inv(Final(d, s, actions))
    decreases actions
  {
    if actions != [] {
      StepKeepsInv(s, actions[0]);
      RunKeepsInv(d, Step(s, actions[0]), actions[1..]);
    }
  }

  // Over every run, whatever a tick hard-deleted or passed to DeletePost had, when
  // that tick fetched it, a row due by the tick's clock; the due time is send time
  // plus TTL of a post of the same thread, and that TTL is in bounds and was the
  // setting of that post's channel when its hook started, at step k; and a hard purge
  // was routed, at step j, only with purging enabled, no licence and a listed prefix
  // of the version, as configured at that step.
  lemma RemovalsWereDue(d: Discipline, init: State, actions: seq<Action>, r: Removal) returns (w: Write, k: nat, j: nat)
    requires Init(init) && IsRun(d, init, actions) && r in Final(d, init, actions).removals
    ensures r.entry.expireAt <= r.now
    ensures var posts := Final(d, init, actions).posts;
            && w.post.id in posts && posts[w.post.id] == w.post
            && r.entry.postId in posts && ThreadRoot(w.post) == ThreadRoot(posts[r.entry.postId])
    ensures InBounds(w.seconds) && r.entry.expireAt == ExpiryOf(w.post.createAt, w.seconds)
    ensures StartedUnder(init.ttl, actions, k, w)
    ensures r.how.ByHardPurge? ==>
      var env := r.how.env;
      && RoutedUnder(init.env, actions, j, env)
      && env.conf.enablePurge && !env.licensed && ListedPrefix(env.conf.allowlistRaw, env.version)
  {
    var s := Final(d, init, actions);
    RunKeepsInv(d, init, actions);
    assert RemovalInv(s, r);
    w :| w in s.writes && ThreadRoot(w.post) == r.entry.rootId && w.at == r.entry.expireAt;
    assert WriteInv(s, w);
    k := WritesFollowSettings(d, init, actions, w);
    j := 0;
    if r.how.ByHardPurge? {
      j := HardPurgesFollowConfiguration(d, init, actions, r.how.env);
      HardExactlyWhenGuarded(r.how.env);
    }
  }

  // Every call and every deletion is on record: a step of a tick in which DeletePost
  // newly deletes or refuses a post, or a purge takes its last row out of the tables,
  // adds its removal with that outcome.
  lemma DeletionsAreRecorded(s: State, a: Action, id: PostId)
    requires Enabled(s, a) && (a.Commit? || a.Pass?)
    requires (id in Step(s, a).softDeleted && id !in s.softDeleted)
             || (id in Step(s, a).refused && id !in s.refused)
             || (HasRows(FOOTPRINT, s.tables, id) && !HasRows(FOOTPRINT, Step(s, a).tables, id))
    ensures exists r :: r in Step(s, a).removals && r.entry.postId == id && r.entry in s.sweeps[a.i].batch
                     && r.now == s.sweeps[a.i].now
                     && r.how == if a.Pass? then BySoftDelete(a.ok) else ByHardPurge(s.sweeps[a.i].env)
  {
    var t := s.sweeps[a.i];
    if a.Commit? {
      PurgeRemovesExactly(FOOTPRINT, s.tables, Ids(t.batch), id);
      var e :| e in t.batch && e.postId == id;
      assert Removal(e, t.now, ByHardPurge(t.env)) in Step(s, a).removals;
    } else {
      assert Removal(t.batch[t.done], t.now, BySoftDelete(a.ok)) in Step(s, a).removals;
    }
  }
}
