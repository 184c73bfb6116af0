// The message-expiry protocol as one transition system: post hooks, sweepers,
// settings, configuration and the outside world, interleaved arbitrarily.
module Protocol {
  import opened TtlRules
  import opened Allowlist
  import opened ExpireIndex
  import opened Purge
  import opened Posts
  import opened Updates

  type HookId = nat
  type SweeperId = nat

  // A hook that has read a TTL: before its insert, or a reply's between insert and
  // bump. at is the expiry it computed.
  datatype Hook = Ready(post: Post, at: int) | Inserted(post: Post, at: int)

  // A tick after its fetch: not yet routed; routed to a hard purge under env; passing
  // ids to DeletePost; purged but not pruned. mark is the length of the index's
  // history at the fetch.
  datatype Sweep =
    | Fetched(now: int, batch: seq<Entry>, mark: nat)
    | HardRouted(now: int, batch: seq<Entry>, mark: nat, env: Environment)
    | Passing(now: int, batch: seq<Entry>, mark: nat, done: nat)
    | Deleted(now: int, batch: seq<Entry>, mark: nat)

  // A TTL read by a hook while the TTL was on, and the expiry that follows from it.
  datatype Write = Write(post: Post, seconds: int, at: int)

  // A post that a tick purged or passed to DeletePost, whether or not that call
  // deleted it: the row it was fetched with and the tick's clock.
  datatype How = BySoftDelete(ok: bool) | ByHardPurge(env: Environment)
  datatype Removal = Removal(entry: Entry, now: int, how: How)

  datatype State = State(
    limit: nat,
    ttl: map<ChannelId, int>,
    index: Index,
    tables: Tables,
    env: Environment,
    hooks: map<HookId, Hook>,
    sweeps: map<SweeperId, Sweep>,
    // history
    posts: map<PostId, Post>,
    everIndexed: set<PostId>,
    // the posts DeletePost deleted, and those it failed for
    softDeleted: set<PostId>,
    refused: set<PostId>,
    writes: set<Write>,
    log: seq<Update>,
    // the posts whose hook ended between its two writes, until a bump of their row
    interrupted: set<PostId>,
    removals: set<Removal>
  )

  datatype Action =
    | SetTtl(channelId: ChannelId, seconds: int)
    | ClearTtl(channelId: ChannelId)
    | Configure(env: Environment)
    // The rest of the server writes the tables and creates posts.
    | Outside(tables: Tables, newPosts: map<PostId, Post>)
    | StartHook(h: HookId, postId: PostId)
    | Insert(h: HookId, createdAt: int)
    | Bump(h: HookId)
    // A failed write or a crash ends the hook.
    | DropHook(h: HookId)
    | Fetch(i: SweeperId, now: int, batch: seq<Entry>)
    | Route(i: SweeperId)
    | Pass(i: SweeperId, ok: bool)
    | EndPassing(i: SweeperId)
    | Commit(i: SweeperId)
    | Prune(i: SweeperId)
    // A failed purge, a failed prune or a crash ends the tick.
    | DropSweep(i: SweeperId)

  ghost predicate Init(s: State) {
    && s.limit > 0
    && (forall ch | ch in s.ttl :: InBounds(s.ttl[ch]))
    && s.index == map[] && s.hooks == map[] && s.sweeps == map[]
    && s.posts == map[] && s.everIndexed == {} && s.softDeleted == {} && s.refused == {}
    && s.writes == {} && s.log == [] && s.interrupted == {} && s.removals == {}
  }

  // A run may start with any batch size, settings in bounds, tables and environment.
  lemma AnyStart(limit: nat, ttl: map<ChannelId, int>, tables: Tables, env: Environment)
    requires limit > 0 && forall ch | ch in ttl :: InBounds(ttl[ch])
    ensures Init(State(limit, ttl, map[], tables, env, map[], map[], map[], {}, {}, {}, {}, [], {}, {}))
  {
  }

  predicate At(s: State, i: SweeperId) {
    i in s.sweeps
  }

  // Post ids are fresh, and a known post without any row gets none back: related
  // rows are added only to posts that exist.
  ghost predicate OutsideAllowed(s: State, tables: Tables, newPosts: map<PostId, Post>) {
    && newPosts.Keys !! s.posts.Keys
    && (forall id | id in newPosts :: id != "" && newPosts[id].id == id)
    && (forall id | id in s.posts :: HasRows(FOOTPRINT, tables, id) ==> HasRows(FOOTPRINT, s.tables, id))
  }

  ghost predicate Enabled(s: State, a: Action) {
    match a
    case SetTtl(_, seconds) => InBounds(seconds)
    case ClearTtl(_) => true
    case Configure(_) => true
    case Outside(tables, newPosts) => OutsideAllowed(s, tables, newPosts)
    case StartHook(h, id) => h !in s.hooks && id in s.posts && s.posts[id].channelId in s.ttl
    case Insert(h, _) => h in s.hooks && s.hooks[h].Ready?
    case Bump(h) => h in s.hooks && s.hooks[h].Inserted?
    case DropHook(h) => h in s.hooks
    case Fetch(i, now, batch) => !At(s, i) && batch != [] && IsBatch(s.index, now, s.limit, batch)
    case Route(i) => At(s, i) && s.sweeps[i].Fetched?
    case Pass(i, _) => At(s, i) && s.sweeps[i].Passing? && s.sweeps[i].done < |s.sweeps[i].batch|
    case EndPassing(i) => At(s, i) && s.sweeps[i].Passing? && s.sweeps[i].done == |s.sweeps[i].batch|
    case Commit(i) => At(s, i) && s.sweeps[i].HardRouted? && TablesExist(FOOTPRINT, s.tables)
    case Prune(i) => At(s, i) && s.sweeps[i].Deleted?
    case DropSweep(i) => At(s, i)
  }

  function Routed(s: State, i: SweeperId): map<SweeperId, Sweep>
    requires At(s, i)
  {
    var t := s.sweeps[i];
    match Decide(s.env)
    case Soft => s.sweeps[i := Passing(t.now, t.batch, t.mark, 0)]
    case Skip => s.sweeps - {i}
    case Hard => s.sweeps[i := HardRouted(t.now, t.batch, t.mark, s.env)]
  }

  function IdsInThread(idx: Index, root: PostId): set<PostId> {
    set id | id in idx && idx[id].rootId == root
  }

  function Removals(batch: seq<Entry>, now: int, how: How): set<Removal> {
    set e | e in batch :: Removal(e, now, how)
  }

  ghost function Step(s: State, a: Action): State
    requires Enabled(s, a)
  {
    match a
    case SetTtl(ch, seconds) => s.(ttl := s.ttl[ch := seconds])
    case ClearTtl(ch) => s.(ttl := s.ttl - {ch})
    case Configure(env) => s.(env := env)
    case Outside(tables, newPosts) => s.(tables := tables, posts := s.posts + newPosts)
    case StartHook(h, id) =>
      var post := s.posts[id];
      var seconds := s.ttl[post.channelId];
      var at := ExpiryOf(post.createAt, seconds);
      s.(hooks := s.hooks[h := Ready(post, at)], writes := s.writes + {Write(post, seconds, at)})
    case Insert(h, createdAt) =>
      var post, at := s.hooks[h].post, s.hooks[h].at;
      s.(index := Upserted(s.index, RowFor(post, at, createdAt)), everIndexed := s.everIndexed + {post.id},
         hooks := if post.rootId != "" then s.hooks[h := Inserted(post, at)] else s.hooks - {h},
         log := s.log + [RowInserted(post.id, at)])
    case Bump(h) =>
      var root, at := s.hooks[h].post.rootId, s.hooks[h].at;
      s.(index := Bumped(s.index, root, at), hooks := s.hooks - {h}, log := s.log + [ThreadBumped(root, at)],
         interrupted := s.interrupted - IdsInThread(s.index, root))
    case DropHook(h) =>
      var cutOff := if s.hooks[h].Inserted? then {s.hooks[h].post.id} else {};
      s.(hooks := s.hooks - {h}, interrupted := s.interrupted + cutOff)
    case Fetch(i, now, batch) => s.(sweeps := s.sweeps[i := Fetched(now, batch, |s.log|)])
    case Route(i) => s.(sweeps := Routed(s, i))
    case Pass(i, ok) =>
      var t := s.sweeps[i];
      var e := t.batch[t.done];
      s.(softDeleted := s.softDeleted + (if ok then {e.postId} else {}),
         refused := s.refused + (if ok then {} else {e.postId}),
         removals := s.removals + {Removal(e, t.now, BySoftDelete(ok))},
         sweeps := s.sweeps[i := Passing(t.now, t.batch, t.mark, t.done + 1)])
    case EndPassing(i) =>
      var t := s.sweeps[i];
      s.(sweeps := s.sweeps[i := Deleted(t.now, t.batch, t.mark)])
    case Commit(i) =>
      var t := s.sweeps[i];
      s.(tables := Purged(FOOTPRINT, s.tables, Ids(t.batch)),
         removals := s.removals + Removals(t.batch, t.now, ByHardPurge(t.env)),
         sweeps := s.sweeps[i := Deleted(t.now, t.batch, t.mark)])
    case Prune(i) => s.(index := s.index - Ids(s.sweeps[i].batch), sweeps := s.sweeps - {i})
    case DropSweep(i) => s.(sweeps := s.sweeps - {i})
  }

  // ---- What a step can do to one hook, one row, one tick ----

  // A hook is either newly started or keeps its post and expiry.
  lemma HooksMove(s: State, a: Action, h: HookId)
    requires Enabled(s, a) && h in Step(s, a).hooks
    ensures var hook := Step(s, a).hooks[h];
            if h in s.hooks then
              && hook.post == s.hooks[h].post && hook.at == s.hooks[h].at
              && (hook.Inserted? && s.hooks[h].Ready? ==> hook.post.rootId != "" && a.Insert? && a.h == h)
              && (hook.Ready? ==> s.hooks[h].Ready?)
            else a.StartHook? && a.h == h && hook.Ready?
  {
  }

  // A row after a step: an old one, in the same thread as before, or the one just inserted.
  lemma RowsMove(s: State, a: Action, id: PostId)
    requires Enabled(s, a) && id in Step(s, a).index
    ensures if a.Insert? && id == s.hooks[a.h].post.id then
              Step(s, a).index[id].rootId == ThreadRoot(s.hooks[a.h].post) && Step(s, a).index[id].expireAt == s.hooks[a.h].at
            else
              && id in s.index && Step(s, a).index[id].rootId == s.index[id].rootId
              && (if a.Bump? && s.index[id].rootId == s.hooks[a.h].post.rootId
                  then Step(s, a).index[id].expireAt == s.hooks[a.h].at
                  else Step(s, a).index[id] == s.index[id])
  {
  }

  // A tick keeps the batch it fetched.
  lemma SweepsMove(s: State, a: Action, i: SweeperId)
    requires Enabled(s, a) && i in Step(s, a).sweeps
    ensures if i in s.sweeps
            then
              && Step(s, a).sweeps[i].batch == s.sweeps[i].batch
              && Step(s, a).sweeps[i].now == s.sweeps[i].now && Step(s, a).sweeps[i].mark == s.sweeps[i].mark
            else a.Fetch? && a.i == i && Step(s, a).sweeps[i] == Fetched(a.now, a.batch, |s.log|)
  {
    match a
    case Route(_) =>
    case Pass(_, _) =>
    case EndPassing(_) =>
    case Commit(_) =>
    case _ =>
  }

  // Only a prune takes rows out of the index.
  lemma RowsLeave(s: State, a: Action, id: PostId)
    requires Enabled(s, a) && id in s.index && id !in Step(s, a).index
    ensures a.Prune? && id in Ids(s.sweeps[a.i].batch)
  {
  }

  // The step purges this entry's post or passes it to DeletePost.
  predicate Removes(s: State, a: Action, e: Entry) {
    (a.Pass? || a.Commit?) && At(s, a.i) &&
    var t := s.sweeps[a.i];
    if a.Pass? then t.Passing? && t.done < |t.batch| && t.batch[t.done] == e else e in t.batch
  }

  // The step's write to the index, as the history records it.
  ghost predicate Logs(s: State, a: Action, u: Update)
    requires Enabled(s, a)
  {
    match a
    case Insert(h, _) => u == RowInserted(s.hooks[h].post.id, s.hooks[h].at)
    case Bump(h) => u == ThreadBumped(s.hooks[h].post.rootId, s.hooks[h].at)
    case _ => false
  }

  // The history grows by the write of an insert or a bump only.
  lemma LogMoves(s: State, a: Action)
    requires Enabled(s, a)
    ensures if a.Insert? || a.Bump? then
              |Step(s, a).log| == |s.log| + 1 && Logs(s, a, Step(s, a).log[|s.log|])
              && Step(s, a).log == s.log + [Step(s, a).log[|s.log|]]
            else Step(s, a).log == s.log
  {
  }

  // A new removal comes from the batch of the tick that deletes.
  lemma RemovalsMove(s: State, a: Action, r: Removal)
    requires Enabled(s, a) && r in Step(s, a).removals && r !in s.removals
    ensures Removes(s, a, r.entry) && r.now == s.sweeps[a.i].now
    ensures r.entry in s.sweeps[a.i].batch
    ensures r.how.ByHardPurge? ==> s.sweeps[a.i].HardRouted? && r.how.env == s.sweeps[a.i].env
  {
  }

  lemma LimitStays(s: State, a: Action)
    requires Enabled(s, a)
    ensures Step(s, a).limit == s.limit
  {
  }

  // What a run may assume of the hooks of one thread.
  //   AnyOrder:  nothing.
  //   RootFirst: the thread root's hook neither follows nor overlaps a reply's.
  //   InOrder:   hooks of the thread do not overlap, start in the order of their send
  //              times, and send times are realistic.
  //   Monotone:  hooks of the thread do not overlap, its root comes first, the
  //              expiries they compute do not decrease, and none of them fails.
  // Hooks of other threads are not restricted.
  datatype Discipline =
    | AnyOrder
    | RootFirst(root: PostId)
    | InOrder(root: PostId)
    | Monotone(root: PostId)

  ghost predicate Respects(d: Discipline, s: State, a: Action)
    requires Enabled(s, a)
  {
    && (d.Monotone? && a.DropHook? ==> ThreadRoot(s.hooks[a.h].post) != d.root)
    && (a.StartHook? ==> MayStart(d, s, s.posts[a.postId]))
  }

  ghost predicate MayStart(d: Discipline, s: State, post: Post)
    requires post.channelId in s.ttl
  {
    d.AnyOrder? || ThreadRoot(post) != d.root ||
    match d
    case AnyOrder => true
    case RootFirst(root) =>
      && (post.rootId == "" ==> forall w | w in s.writes :: w.post.rootId != root)
      && (post.rootId != "" ==> forall h | h in s.hooks :: s.hooks[h].post.rootId != "" || s.hooks[h].post.id != root)
    case InOrder(root) =>
      && RealisticTime(post.createAt)
      && ThreadIdle(s, root)
      && (forall w | w in s.writes && ThreadRoot(w.post) == root :: w.post.createAt <= post.createAt)
    case Monotone(root) =>
      && ThreadIdle(s, root)
      && (forall w | w in s.writes && ThreadRoot(w.post) == root ::
            post.rootId != "" && w.at <= ExpiryOf(post.createAt, s.ttl[post.channelId]))
  }

  ghost predicate ThreadIdle(s: State, root: PostId) {
    forall h | h in s.hooks :: ThreadRoot(s.hooks[h].post) != root
  }

  // Two hooks never share this thread.
  ghost predicate HooksApart(s: State, root: PostId) {
    forall h, k | h in s.hooks && k in s.hooks && h != k ::
      ThreadRoot(s.hooks[h].post) != root || ThreadRoot(s.hooks[k].post) != root
  }

  lemma HooksStayApart(s: State, a: Action, root: PostId)
    requires HooksApart(s, root) && Enabled(s, a)
    requires a.StartHook? && ThreadRoot(s.posts[a.postId]) == root ==> ThreadIdle(s, root)
    ensures HooksApart(Step(s, a), root)
  {
    var hooks := Step(s, a).hooks;
    forall h, k | h in hooks && k in hooks && h != k
      ensures ThreadRoot(hooks[h].post) != root || ThreadRoot(hooks[k].post) != root
    {
      HooksMove(s, a, h);
      HooksMove(s, a, k);
    }
  }

  ghost predicate IsRun(d: Discipline, s: State, actions: seq<Action>)
    decreases actions
  {
    actions == []
    || (Enabled(s, actions[0]) && Respects(d, s, actions[0]) && IsRun(d, Step(s, actions[0]), actions[1..]))
  }

  ghost function Final(d: Discipline, s: State, actions: seq<Action>): State
    requires IsRun(d, s, actions)
    decreases actions
  {
    if actions == [] then s else Final(d, Step(s, actions[0]), actions[1..])
  }

  ghost predicate Reachable(d: Discipline, s: State) {
    exists init, actions :: Init(init) && IsRun(d, init, actions) && Final(d, init, actions) == s
  }

  lemma {:induction false} RunsExtend(d: Discipline, s: State, actions: seq<Action>, a: Action)
    requires IsRun(d, s, actions)
    requires Enabled(Final(d, s, actions), a) && Respects(d, Final(d, s, actions), a)
    ensures IsRun(d, s, actions + [a])
    ensures Final(d, s, actions + [a]) == Step(Final(d, s, actions), a)
    decreases actions
  {
    if actions == [] {
      assert [a][1..] == [];
    } else {
      RunsExtend(d, Step(s, actions[0]), actions[1..], a);
      assert (actions + [a])[1..] == actions[1..] + [a];
    }
  }

  // A run without its last step is a run.
  lemma {:induction false} LastStep(d: Discipline, s: State, actions: seq<Action>)
    requires IsRun(d, s, actions) && actions != []
    ensures var init, last := actions[..|actions| - 1], actions[|actions| - 1];
            && IsRun(d, s, init) && Enabled(Final(d, s, init), last) && Respects(d, Final(d, s, init), last)
            && Final(d, s, actions) == Step(Final(d, s, init), last)
    decreases actions
  {
    if |actions| > 1 {
      LastStep(d, Step(s, actions[0]), actions[1..]);
      assert actions[..|actions| - 1][1..] == actions[1..][..|actions[1..]| - 1];
    }
  }

  lemma {:induction false} RunPrefix(d: Discipline, s: State, actions: seq<Action>, k: nat)
    requires IsRun(d, s, actions) && k < |actions|
    ensures IsRun(d, s, actions[..k]) && Enabled(Final(d, s, actions[..k]), actions[k])
    decreases |actions|
  {
    var init := actions[..|actions| - 1];
    LastStep(d, s, actions);
    if k < |init| {
      RunPrefix(d, s, init, k);
      assert init[..k] == actions[..k];
    }
  }

  // One more step of a reachable state is reachable.
  lemma ReachableStep(d: Discipline, s: State, a: Action)
    requires Reachable(d, s) && Enabled(s, a) && Respects(d, s, a)
    ensures Reachable(d, Step(s, a))
  {
    var init, actions :| Init(init) && IsRun(d, init, actions) && Final(d, init, actions) == s;
    RunsExtend(d, init, actions, a);
  }

  lemma {:induction false} ReachableRun(d: Discipline, s: State, actions: seq<Action>)
    requires Reachable(d, s) && IsRun(d, s, actions)
    ensures Reachable(d, Final(d, s, actions))
    decreases actions
  {
    if actions != [] {
      ReachableStep(d, s, actions[0]);
      ReachableRun(d, Step(s, actions[0]), actions[1..]);
    }
  }

  lemma InitReachable(d: Discipline, s: State)
    requires Init(s)
    ensures Reachable(d, s)
  {
    assert IsRun(d, s, []) && Final(d, s, []) == s;
  }

  lemma {:induction false} RunsConcat(d: Discipline, s: State, first: seq<Action>, second: seq<Action>)
    requires IsRun(d, s, first) && IsRun(d, Final(d, s, first), second)
    ensures IsRun(d, s, first + second) && Final(d, s, first + second) == Final(d, Final(d, s, first), second)
    decreases first
  {
    if first == [] {
      assert first + second == second;
    } else {
      RunsConcat(d, Step(s, first[0]), first[1..], second);
      assert (first + second)[1..] == first[1..] + second;
    }
  }
}
