// One expiry per thread, with the two writes of many hooks interleaved in any order.
module ThreadUniformity {
  import opened ExpireIndex
  import opened Updates
  import opened Protocol
  import Lifetime
  import RowHistory

  // A reply's hook has inserted this post's row and not bumped yet.
  ghost predicate Pending(s: State, id: PostId) {
    exists h :: h in s.hooks && s.hooks[h].Inserted? && s.hooks[h].post.id == id
  }

  predicate IsReply(s: State, id: PostId) {
    id in s.index && id in s.posts && s.posts[id].rootId != ""
  }

  // A reply's row was bumped after it was inserted, or its bump is still to come or
  // was cut off.
  ghost predicate ReplyInv(s: State, id: PostId)
    requires id in s.index
  {
    IsReply(s, id) && !Pending(s, id) && id !in s.interrupted ==>
      LastInsert(s.log, id) < LastBump(s.log, s.index[id].rootId)
  }

  ghost predicate Inv(s: State) {
    RowHistory.Inv(s) && forall id | id in s.index :: ReplyInv(s, id)
  }

  lemma PendingStays(s: State, a: Action, id: PostId)
    requires Enabled(s, a) && Pending(s, id)
    requires !((a.Bump? || a.DropHook?) && s.hooks[a.h].Inserted? && s.hooks[a.h].post.id == id)
    ensures Pending(Step(s, a), id)
  {
    var h :| h in s.hooks && s.hooks[h].Inserted? && s.hooks[h].post.id == id;
    assert h in Step(s, a).hooks && Step(s, a).hooks[h] == s.hooks[h];
  }

  ghost predicate KnownRow(s: State, id: PostId) {
    id in s.index && s.index[id].postId == id && Lifetime.RowInv(s, s.index[id]) && ReplyInv(s, id)
  }

  lemma InsertRow(s: State, h: HookId, createdAt: int, id: PostId)
    requires Enabled(s, Insert(h, createdAt)) && id in Step(s, Insert(h, createdAt)).index
    requires Lifetime.HookInv(s, s.hooks[h]) && (id in s.index ==> KnownRow(s, id))
    ensures ReplyInv(Step(s, Insert(h, createdAt)), id)
  {
    var hook, next := s.hooks[h], Step(s, Insert(h, createdAt));
    if id == hook.post.id {
      if hook.post.rootId != "" {
        assert next.hooks[h].Inserted?;
      }
    } else {
      InsertAppended(s.log, RowInserted(hook.post.id, hook.at), id);
      BumpAppended(s.log, RowInserted(hook.post.id, hook.at), s.index[id].rootId);
      if Pending(s, id) {
        PendingStays(s, Insert(h, createdAt), id);
      }
    }
  }

  lemma BumpedRow(s: State, h: HookId, id: PostId)
    requires Enabled(s, Bump(h)) && KnownRow(s, id) && s.index[id].rootId == s.hooks[h].post.rootId
    ensures ReplyInv(Step(s, Bump(h)), id)
  {
    var u := ThreadBumped(s.hooks[h].post.rootId, s.hooks[h].at);
    InsertAppended(s.log, u, id);
    BumpAppended(s.log, u, u.root);
  }

  lemma OtherThreadRow(s: State, h: HookId, id: PostId)
    requires Enabled(s, Bump(h)) && KnownRow(s, id) && s.index[id].rootId != s.hooks[h].post.rootId
    requires Lifetime.HookInv(s, s.hooks[h])
    ensures ReplyInv(Step(s, Bump(h)), id)
  {
    var u := ThreadBumped(s.hooks[h].post.rootId, s.hooks[h].at);
    InsertAppended(s.log, u, id);
    BumpAppended(s.log, u, s.index[id].rootId);
    if Pending(s, id) {
      PendingStays(s, Bump(h), id);
    }
  }

  lemma DropRow(s: State, h: HookId, id: PostId)
    requires Enabled(s, DropHook(h)) && KnownRow(s, id) && Lifetime.HookInv(s, s.hooks[h])
    ensures ReplyInv(Step(s, DropHook(h)), id)
  {
    if Pending(s, id) && !(s.hooks[h].Inserted? && s.hooks[h].post.id == id) {
      PendingStays(s, DropHook(h), id);
    }
  }

  lemma OtherStep(s: State, a: Action, id: PostId)
    requires Enabled(s, a) && id in Step(s, a).index && !(a.Insert? || a.Bump? || a.DropHook?)
    requires id in s.index ==> KnownRow(s, id)
    ensures ReplyInv(Step(s, a), id)
  {
    LogMoves(s, a);
    RowsMove(s, a, id);
    if Pending(s, id) {
      PendingStays(s, a, id);
    }
  }

  lemma RowStep(s: State, a: Action, id: PostId)
    requires Inv(s) && Enabled(s, a) && id in Step(s, a).index
    ensures ReplyInv(Step(s, a), id)
  {
    assert id in s.index ==> KnownRow(s, id);
    if a.Insert? {
      InsertRow(s, a.h, a.createdAt, id);
    } else if a.Bump? {
      if s.index[id].rootId == s.hooks[a.h].post.rootId {
        BumpedRow(s, a.h, id);
      } else {
        OtherThreadRow(s, a.h, id);
      }
    } else if a.DropHook? {
      DropRow(s, a.h, id);
    } else {
      OtherStep(s, a, id);
    }
  }

  lemma StepKeepsInv(s: State, a: Action)
    requires Inv(s) && Enabled(s, a)
    ensures Inv(Step(s, a))
  {
    RowHistory.StepKeepsInv(s, a);
    forall id | id in Step(s, a).index
      ensures ReplyInv(Step(s, a), id)
    {
      RowStep(s, a, id);
    }
  }

  lemma {:induction false} RunKeepsInv(d: Discipline, s: State, actions: seq<Action>)
    requires Inv(s) && IsRun(d, s, actions)
    ensures Inv(Final(d, s, actions))
    decreases actions
  {
    if actions != [] {
      StepKeepsInv(s, actions[0]);
      RunKeepsInv(d, Step(s, actions[0]), actions[1..]);
    }
  }

  lemma ReachableInv(d: Discipline, s: State)
    requires Reachable(d, s)
    ensures Inv(s)
  {
    var init, actions :| Init(init) && IsRun(d, init, actions) && Final(d, init, actions) == s;
    RunKeepsInv(d, init, actions);
  }

  // ---- What is left when the hooks of a thread are done ----

  // No hook of the thread is between its two writes, and no row of it waits for a bump
  // that was cut off there.
  ghost predicate Settled(s: State, root: PostId) {
    && (forall id | id in s.index && s.index[id].rootId == root :: id !in s.interrupted)
    && forall h | h in s.hooks && s.hooks[h].Inserted? :: s.hooks[h].post.rootId != root
  }

  ghost predicate UniformThread(s: State, root: PostId) {
    forall a, b | a in s.index && b in s.index && s.index[a].rootId == root && s.index[b].rootId == root ::
      s.index[a].expireAt == s.index[b].expireAt
  }

  // The thread's root and one of its replies are both indexed, and the root's row was
  // inserted after the thread's last bump, with another value.
  ghost predicate LateRoot(s: State, root: PostId) {
    && root in s.index && !IsReply(s, root)
    && (exists id :: IsReply(s, id) && s.index[id].rootId == root)
    && !InTime(s.log, root, root)
  }

  // With any number of reply hooks between their insert and their bump, hooks of one
  // thread in any order and TTLs changing at will: a reply's row differs from the
  // thread's last bump only while its own hook has not bumped, or was cut off before
  // it could and nobody bumped the row since.
  lemma RepliesFollowLastBump(d: Discipline, s: State, id: PostId)
    requires Reachable(d, s) && IsReply(s, id) && id !in s.interrupted && !Pending(s, id)
    ensures var p := LastBump(s.log, s.index[id].rootId);
            p >= 0 && s.index[id].expireAt == s.log[p].at
  {
    ReachableInv(d, s);
    assert ReplyInv(s, id) && RowHistory.RowInv(s, s.index[id]);
  }

  // Any row carries the later of its own insert and its thread's last bump.
  lemma RowsCarryLastWrite(d: Discipline, s: State, id: PostId)
    requires Reachable(d, s) && id in s.index
    ensures var p := LastWrite(s.log, id, s.index[id].rootId);
            p >= 0 && s.index[id].expireAt == s.log[p].at
  {
    ReachableInv(d, s);
    assert RowHistory.RowInv(s, s.index[id]);
  }

  lemma ThreadRows(d: Discipline, s: State, id: PostId)
    requires Reachable(d, s) && id in s.index
    ensures if IsReply(s, id) then s.posts[id].rootId == s.index[id].rootId else id == s.index[id].rootId
  {
    ReachableInv(d, s);
    assert Lifetime.RowInv(s, s.index[id]);
  }

  lemma SettledReply(d: Discipline, s: State, id: PostId)
    requires Reachable(d, s) && IsReply(s, id) && Settled(s, s.index[id].rootId)
    ensures var p := LastBump(s.log, s.index[id].rootId);
            p >= 0 && s.index[id].expireAt == s.log[p].at
  {
    ReachableInv(d, s);
    ThreadRows(d, s, id);
    assert !Pending(s, id);
    RepliesFollowLastBump(d, s, id);
  }

  // Exactly when a thread has one expiry, in every reachable state: the latest writes
  // of its rows gave one value.
  lemma UniformIffLastWritesAgree(d: Discipline, s: State, root: PostId)
    requires Reachable(d, s)
    ensures UniformThread(s, root) <==>
      forall a, b | a in IdsInThread(s.index, root) && b in IdsInThread(s.index, root) ::
        var p, q := LastWrite(s.log, a, root), LastWrite(s.log, b, root);
        0 <= p && 0 <= q && s.log[p].at == s.log[q].at
  {
    forall id | id in IdsInThread(s.index, root)
      ensures var p := LastWrite(s.log, id, root); p >= 0 && s.index[id].expireAt == s.log[p].at
    {
      RowsCarryLastWrite(d, s, id);
    }
  }

  // Cut-off hooks, hooks in flight and a late root included: once one reply of the
  // thread follows its last bump, the thread has one expiry exactly when no row of it
  // was inserted after that bump with another value.
  lemma UniformIffRowsInTime(d: Discipline, s: State, reply: PostId)
    requires Reachable(d, s) && IsReply(s, reply) && reply !in s.interrupted && !Pending(s, reply)
    ensures var root := s.index[reply].rootId;
            UniformThread(s, root) <==> forall id | id in IdsInThread(s.index, root) :: InTime(s.log, id, root)
  {
    var root := s.index[reply].rootId;
    RepliesFollowLastBump(d, s, reply);
    forall id | id in IdsInThread(s.index, root)
      ensures InTime(s.log, id, root) <==> s.index[id].expireAt == s.index[reply].expireAt
    {
      RowsCarryLastWrite(d, s, id);
    }
    UniformLikeOne(s, root, reply);
  }

  lemma UniformLikeOne(s: State, root: PostId, one: PostId)
    requires one in IdsInThread(s.index, root)
    ensures UniformThread(s, root) <==>
      forall id | id in IdsInThread(s.index, root) :: s.index[id].expireAt == s.index[one].expireAt
  {
    if forall id | id in IdsInThread(s.index, root) :: s.index[id].expireAt == s.index[one].expireAt {
      forall id | id in s.index && s.index[id].rootId == root
        ensures s.index[id].expireAt == s.index[one].expireAt
      {
        assert id in IdsInThread(s.index, root);
      }
    }
  }

  // Exactly when a settled thread has one expiry, whatever the order of its hooks:
  // unless its root was late.
  lemma UniformIffNoLateRoot(d: Discipline, s: State, root: PostId)
    requires Reachable(d, s) && Settled(s, root)
    ensures UniformThread(s, root) <==> !LateRoot(s, root)
  {
    forall id | id in s.index && s.index[id].rootId == root
      ensures IsReply(s, id) ==> LastBump(s.log, root) >= 0 && s.index[id].expireAt == s.log[LastBump(s.log, root)].at
      ensures !IsReply(s, id) ==> id == root
    {
      ThreadRows(d, s, id);
      if IsReply(s, id) {
        SettledReply(d, s, id);
      }
    }
    if root in s.index && !IsReply(s, root) {
      ThreadRows(d, s, root);
      RowsCarryLastWrite(d, s, root);
    }
  }

  // The whole index at once, when every thread is settled.
  lemma {:induction false} IndexUniformIffNoLateRoot(d: Discipline, s: State)
    requires Reachable(d, s) && s.interrupted !! s.index.Keys && forall h | h in s.hooks :: s.hooks[h].Ready?
    ensures Uniform(s.index) <==> forall root :: !LateRoot(s, root)
  {
    forall root
      ensures UniformThread(s, root) <==> !LateRoot(s, root)
    {
      UniformIffNoLateRoot(d, s, root);
    }
    UniformByThread(s);
  }

  lemma {:induction false} UniformByThread(s: State)
    ensures Uniform(s.index) <==> forall root :: UniformThread(s, root)
  {
    if forall root :: UniformThread(s, root) {
      forall a, b | a in s.index && b in s.index && s.index[a].rootId == s.index[b].rootId
        ensures s.index[a].expireAt == s.index[b].expireAt
      {
        assert UniformThread(s, s.index[a].rootId);
      }
    }
  }

  // A tick that fetches from a settled thread takes it whole or not at all, unless
  // its batch is full or the root was late.
  lemma SettledFetchTakesWholeThread(d: Discipline, s: State, i: SweeperId, now: int, batch: seq<Entry>, root: PostId)
    requires Reachable(d, s) && Settled(s, root) && !LateRoot(s, root)
    requires Enabled(s, Fetch(i, now, batch)) && |batch| < s.limit
    ensures forall a, b | a in s.index && b in s.index && s.index[a].rootId == root && s.index[b].rootId == root ::
              a in Ids(batch) <==> b in Ids(batch)
  {
    UniformIffNoLateRoot(d, s, root);
    ReachableInv(d, s);
    forall a, b | a in s.index && b in s.index && s.index[a].rootId == root && s.index[b].rootId == root && a in Ids(batch)
      ensures b in Ids(batch)
    {
      if b !in Ids(batch) {
        LeftOutIsLater(s.index, now, s.limit, batch, b);
      }
    }
  }

  // ---- Threads whose root comes first ----

  ghost predicate Repliers(s: State, root: PostId) {
    exists w :: w in s.writes && w.post.rootId == root
  }

  ghost predicate IsRootHook(hook: Hook, root: PostId) {
    hook.post.rootId == "" && hook.post.id == root
  }

  ghost predicate RootFirstInv(s: State, root: PostId) {
    && (LastBump(s.log, root) >= 0 ==> Repliers(s, root))
    && (forall h | h in s.hooks && IsRootHook(s.hooks[h], root) :: !Repliers(s, root))
    && (LastBump(s.log, root) >= 0 && !(root in s.posts && s.posts[root].rootId != "") ==>
          LastInsert(s.log, root) < LastBump(s.log, root))
  }

  lemma RepliersMove(s: State, a: Action, root: PostId)
    requires Enabled(s, a)
    ensures Repliers(s, root) ==> Repliers(Step(s, a), root)
    ensures Repliers(Step(s, a), root) ==> Repliers(s, root) || (a.StartHook? && s.posts[a.postId].rootId == root)
  {
  }

  lemma RootHookStep(s: State, a: Action, h: HookId, root: PostId)
    requires root != "" && RootFirstInv(s, root) && Enabled(s, a) && Respects(RootFirst(root), s, a)
    requires h in Step(s, a).hooks && IsRootHook(Step(s, a).hooks[h], root)
    ensures !Repliers(Step(s, a), root)
  {
    HooksMove(s, a, h);
    RepliersMove(s, a, root);
    if h in s.hooks {
      assert IsRootHook(s.hooks[h], root);
    }
  }

  lemma RootLogStep(s: State, a: Action, root: PostId)
    requires root != "" && Inv(s) && RootFirstInv(s, root) && Enabled(s, a)
    ensures var log := Step(s, a).log;
            && (LastBump(log, root) >= 0 ==> Repliers(s, root))
            && (LastBump(log, root) >= 0 && !(root in s.posts && s.posts[root].rootId != "") ==>
                  LastInsert(log, root) < LastBump(log, root))
  {
    LogMoves(s, a);
    if a.Insert? || a.Bump? {
      assert Lifetime.HookInv(s, s.hooks[a.h]);
      InsertAppended(s.log, Step(s, a).log[|s.log|], root);
      BumpAppended(s.log, Step(s, a).log[|s.log|], root);
      assert a.Insert? && s.hooks[a.h].post.rootId == "" && s.hooks[a.h].post.id == root ==> IsRootHook(s.hooks[a.h], root);
    }
  }

  lemma RootFirstStep(s: State, a: Action, root: PostId)
    requires root != "" && Inv(s) && RootFirstInv(s, root) && Enabled(s, a) && Respects(RootFirst(root), s, a)
    ensures RootFirstInv(Step(s, a), root)
  {
    var next := Step(s, a);
    RepliersMove(s, a, root);
    RootLogStep(s, a, root);
    forall h | h in next.hooks && IsRootHook(next.hooks[h], root)
      ensures !Repliers(next, root)
    {
      RootHookStep(s, a, h, root);
    }
    Lifetime.StepExtends(s, a);
  }

  lemma {:induction false} RootFirstRun(s: State, actions: seq<Action>, root: PostId)
    requires root != "" && Inv(s) && RootFirstInv(s, root) && IsRun(RootFirst(root), s, actions)
    ensures RootFirstInv(Final(RootFirst(root), s, actions), root)
    decreases actions
  {
    if actions != [] {
      StepKeepsInv(s, actions[0]);
      RootFirstStep(s, actions[0], root);
      RootFirstRun(Step(s, actions[0]), actions[1..], root);
    }
  }

  // A settled thread whose root came first has one expiry.
  lemma RootFirstThreadIsUniform(s: State, root: PostId)
    requires root != "" && Reachable(RootFirst(root), s) && Settled(s, root)
    ensures UniformThread(s, root)
  {
    var d := RootFirst(root);
    var init, actions :| Init(init) && IsRun(d, init, actions) && Final(d, init, actions) == s;
    RootFirstRun(init, actions, root);
    UniformIffNoLateRoot(d, s, root);
    ReachableInv(d, s);
    if LateRoot(s, root) {
      assert Lifetime.RowInv(s, s.index[root]);
      var id :| IsReply(s, id) && s.index[id].rootId == root;
      SettledReply(d, s, id);
    }
  }
}
