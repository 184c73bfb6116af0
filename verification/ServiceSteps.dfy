// The calls of the settings service and of the post hook are steps of the protocol.
module ServiceSteps {
  import opened Wrappers
  import opened TtlRules
  import opened KvStore
  import opened TtlService
  import opened ExpireIndex
  import opened Posts
  import opened Protocol
  import opened ThreadExpiry
  import opened Uninterrupted
  import opened Allowlist
  import opened Purge
  import opened Conservation
  import opened EarlyDeletion
  import opened Sweeper

  // The key-value store holds exactly these settings.
  ghost predicate Shows(kv: Contents, ttl: map<string, int>) {
    forall ch: string ::
      if ch in ttl then Key(ch) in kv && kv[Key(ch)].Json? && kv[Key(ch)].setting.durationSeconds == ttl[ch]
      else Key(ch) !in kv
  }

  lemma ShowsSet(kv: Contents, ttl: map<string, int>, ch: string, setting: Setting)
    requires Shows(kv, ttl)
    ensures Shows(kv[Key(ch) := Json(setting)], ttl[ch := setting.durationSeconds])
  {
    forall other: string | other != ch
      ensures Key(other) != Key(ch)
    {
      if Key(other) == Key(ch) {
        KeyIsInjective(other, ch);
      }
    }
  }

  lemma ShowsClear(kv: Contents, ttl: map<string, int>, ch: string)
    requires Shows(kv, ttl)
    ensures Shows(kv - {Key(ch)}, ttl - {ch})
  {
    forall other: string | other != ch
      ensures Key(other) != Key(ch)
    {
      if Key(other) == Key(ch) {
        KeyIsInjective(other, ch);
      }
    }
  }

  // A successful SetTTL is one SetTtl with the duration in whole seconds, any other
  // call is no step at all.
  method SetIsAStep(svc: Service, actor: string, ch: string, d: int, now: int, p: Permissions, rounds: seq<Round>, ghost s: State)
    returns (done: Result<(), TtlError>, ghost t: State)
    requires |rounds| == svc.store.maxRetries && Still(rounds) && Shows(svc.store.kv, s.ttl)
    modifies svc.store
    ensures if done.Failure? then t == s
            else Enabled(s, SetTtl(ch, d / 1_000_000_000)) && t == Protocol.Step(s, SetTtl(ch, d / 1_000_000_000))
    ensures Shows(svc.store.kv, t.ttl)
  {
    ghost var kv := svc.store.kv;
    done := svc.SetTTL(actor, ch, d, now, p, rounds);
    t := s;
    if done.Success? {
      StoredSecondsInBounds(d);
      ShowsSet(kv, s.ttl, ch, Setting(WholeSeconds(d), actor, now));
      t := Protocol.Step(s, SetTtl(ch, d / 1_000_000_000));
    }
  }

  // A successful ClearTTL is one ClearTtl.
  method ClearIsAStep(svc: Service, ch: string, p: Permissions, fails: bool, ghost s: State)
    returns (done: Result<(), TtlError>, ghost t: State)
    requires Shows(svc.store.kv, s.ttl)
    modifies svc.store
    ensures if done.Failure? then t == s else t == Protocol.Step(s, ClearTtl(ch))
    ensures Shows(svc.store.kv, t.ttl)
  {
    ShowsClear(svc.store.kv, s.ttl, ch);
    done := svc.ClearTTL(ch, p, fails);
    t := if done.Success? then Protocol.Step(s, ClearTtl(ch)) else s;
  }

  // The hook of a known post, without failures, is a run of the post's hook steps
  // when its channel has a TTL, and no step otherwise.
  method PostIsAHook(svc: ExpiryService, post: Post, now: int, h: HookId, ghost s: State)
    returns (done: Result<(), HookError>, ghost t: State, ghost actions: seq<Action>)
    requires Shows(svc.ttl.store.kv, s.ttl) && svc.store.rows == s.index
    requires post.id in s.posts && s.posts[post.id] == post && h !in s.hooks
    modifies svc.store
    ensures done.Success? && svc.store.rows == t.index && t.ttl == s.ttl
    ensures IsRun(AnyOrder, s, actions) && Final(AnyOrder, s, actions) == t
    ensures post.channelId !in s.ttl ==> t == s
    ensures post.channelId in s.ttl ==> |actions| > 1 && actions[0] == StartHook(h, post.id) && actions[1] == Insert(h, now)
  {
    t, actions := s, [];
    if post.channelId in s.ttl {
      t := HookAloneDelivers(s, h, post.id, now);
      actions := [StartHook(h, post.id), Insert(h, now)] + (if post.rootId != "" then [Bump(h)] else []);
    } else {
      NoSteps(s);
    }
    done := svc.OnPostCreated(post, now, false, false, false);
  }

  // The sweeper's parts hold what the state says, and the live environment is its own.
  ghost predicate Mirrors(sw: Sweeper, s: State, licensed: bool, version: string)
    reads sw.store, sw.purger.cfg, sw.purger.hard, sw.purger.soft
  {
    && sw.store.rows == s.index && sw.purger.hard.db == s.tables && sw.purger.soft.deleted == s.softDeleted
    && sw.batchSize == s.limit && sw.purger.hard.footprint == FOOTPRINT
    && Environment(sw.purger.cfg.conf, licensed, version) == s.env
  }

  // A tick of the sweeper whose query, transaction and prune work is a run of the
  // tick's steps, in each mode and whichever DeletePost calls fail.
  method TickIsARun(sw: Sweeper, now: int, licensed: bool, version: string, softFailures: set<string>,
                    i: SweeperId, ghost s: State)
    returns (log: TickLog, ghost t: State, ghost actions: seq<Action>)
    requires Mirrors(sw, s, licensed, version) && WellKeyed(s.index) && TablesExist(FOOTPRINT, s.tables) && i !in s.sweeps
    modifies sw.store, sw.purger.hard, sw.purger.soft
    ensures IsRun(AnyOrder, s, actions) && Final(AnyOrder, s, actions) == t
    ensures Mirrors(sw, t, licensed, version) && t.sweeps == s.sweeps
    ensures log.NothingExpired? <==> actions == []
  {
    ghost var batch, tick;
    log, batch, tick := sw.Run(now, licensed, version, TickFaults(QueryFault.NoFault, TxFault.NoFault, softFailures, false));
    t, actions := s, [];
    if batch == [] {
      NoSteps(s);
      EmptyTick(s);
    } else {
      t, actions := TickSteps(s, i, now, batch, softFailures);
    }
  }

  lemma EmptyTick(s: State)
    ensures s.index - Ids([]) == s.index && Purged(FOOTPRINT, s.tables, Ids([])) == s.tables
    ensures s.softDeleted + (Ids([]) - {}) == s.softDeleted
  {
    PurgeNothing(FOOTPRINT, s.tables, Ids([]));
  }

  lemma TickSteps(s: State, i: SweeperId, now: int, batch: seq<Entry>, softFailures: set<string>)
    returns (t: State, actions: seq<Action>)
    requires Enabled(s, Fetch(i, now, batch)) && TablesExist(FOOTPRINT, s.tables)
    ensures IsRun(AnyOrder, s, actions) && Final(AnyOrder, s, actions) == t && actions != []
    ensures t.sweeps == s.sweeps && t.limit == s.limit && t.env == s.env
    ensures var ids, mode := Ids(batch), Decide(s.env);
            && t.index == (if mode == Skip then s.index else s.index - ids)
            && t.tables == (if mode == Hard then Purged(FOOTPRINT, s.tables, ids) else s.tables)
            && t.softDeleted == s.softDeleted + (if mode == Soft then ids - softFailures else {})
  {
    match Decide(s.env)
    case Soft =>
      t, actions := SoftSteps(s, i, now, batch, softFailures);
    case Hard =>
      t, actions := HardSteps(s, i, now, batch);
    case Skip =>
      t := s;
      actions := [Fetch(i, now, batch), Route(i)];
      SkippedTick(s, i, now, batch);
  }

  lemma SoftSteps(s: State, i: SweeperId, now: int, batch: seq<Entry>, softFailures: set<string>)
    returns (t: State, actions: seq<Action>)
    requires Enabled(s, Fetch(i, now, batch)) && Decide(s.env) == Soft
    ensures IsRun(AnyOrder, s, actions) && Final(AnyOrder, s, actions) == t && actions != []
    ensures t.sweeps == s.sweeps && t.limit == s.limit && t.env == s.env
    ensures t.index == s.index - Ids(batch) && t.tables == s.tables
    ensures t.softDeleted == s.softDeleted + (Ids(batch) - softFailures)
  {
    t := SoftTickAlone(s, i, now, batch, softFailures);
    actions := [Fetch(i, now, batch), Route(i)] + Passes(i, batch, softFailures) + [EndPassing(i), Protocol.Prune(i)];
    PassesAreTicks(i, batch, softFailures);
    SettingsStay(s, actions);
  }

  lemma HardSteps(s: State, i: SweeperId, now: int, batch: seq<Entry>) returns (t: State, actions: seq<Action>)
    requires Enabled(s, Fetch(i, now, batch)) && Decide(s.env) == Hard && TablesExist(FOOTPRINT, s.tables)
    ensures IsRun(AnyOrder, s, actions) && Final(AnyOrder, s, actions) == t && actions != []
    ensures t.sweeps == s.sweeps && t.limit == s.limit && t.env == s.env
    ensures t.index == s.index - Ids(batch) && t.tables == Purged(FOOTPRINT, s.tables, Ids(batch))
    ensures t.softDeleted == s.softDeleted
  {
    t := HardTickAloneFinishes(s, i, now, batch);
    actions := [Fetch(i, now, batch), Route(i), Commit(i), Protocol.Prune(i)];
    SettingsStay(s, actions);
  }

  lemma SkippedTick(s: State, i: SweeperId, now: int, batch: seq<Entry>)
    requires Enabled(s, Fetch(i, now, batch)) && Decide(s.env) == Skip
    ensures var actions := [Fetch(i, now, batch), Route(i)];
            IsRun(AnyOrder, s, actions) && Final(AnyOrder, s, actions) == s
  {
    SkippedTickIsRetriable(s, i, now, batch);
    NoSteps(s);
    TwoMore(s, Fetch(i, now, batch), Route(i), []);
    assert [Fetch(i, now, batch), Route(i)] + [] == [Fetch(i, now, batch), Route(i)];
  }
}
