// The TTL a hook works with is the channel's latest setting.
module Settings {
  import opened Wrappers
  import opened Allowlist
  import opened ExpireIndex
  import opened Posts
  import opened Protocol

  // The channel's setting after these actions: what the latest of its own settings
  // and clears says, or else what it was before.
  function SettingAfter(before: map<ChannelId, int>, actions: seq<Action>, ch: ChannelId): Option<int> {
    if actions == [] then (if ch in before then Some(before[ch]) else None)
    else
      match actions[|actions| - 1]
      case SetTtl(channelId, seconds) =>
        if channelId == ch then Some(seconds) else SettingAfter(before, actions[..|actions| - 1], ch)
      case ClearTtl(channelId) =>
        if channelId == ch then None else SettingAfter(before, actions[..|actions| - 1], ch)
      case _ => SettingAfter(before, actions[..|actions| - 1], ch)
  }

  predicate Changes(a: Action, ch: ChannelId) {
    (a.SetTtl? || a.ClearTtl?) && a.channelId == ch
  }

  // The setting is that of the last change, or the first one when there was no change.
  lemma {:induction false} SettingIsLastChange(before: map<ChannelId, int>, actions: seq<Action>, ch: ChannelId) returns (j: int)
    ensures -1 <= j < |actions| && forall k | j < k < |actions| :: !Changes(actions[k], ch)
    ensures j >= 0 ==> Changes(actions[j], ch)
    ensures SettingAfter(before, actions, ch) ==
      if j >= 0 then (if actions[j].SetTtl? then Some(actions[j].seconds) else None)
      else if ch in before then Some(before[ch]) else None
  {
    if actions == [] {
      j := -1;
    } else if Changes(actions[|actions| - 1], ch) {
      j := |actions| - 1;
    } else {
      j := SettingIsLastChange(before, actions[..|actions| - 1], ch);
    }
  }

  function Setting(s: State, ch: ChannelId): Option<int> {
    if ch in s.ttl then Some(s.ttl[ch]) else None
  }

  lemma SettingMoves(s: State, a: Action, ch: ChannelId)
    requires Enabled(s, a)
    ensures Setting(Step(s, a), ch) == if Changes(a, ch) then (if a.SetTtl? then Some(a.seconds) else None) else Setting(s, ch)
  {
  }

  lemma {:induction false} SettingsFollow(d: Discipline, s: State, actions: seq<Action>, ch: ChannelId)
    requires IsRun(d, s, actions)
    ensures Setting(Final(d, s, actions), ch) == SettingAfter(s.ttl, actions, ch)
    decreases |actions|
  {
    if actions != [] {
      var init := actions[..|actions| - 1];
      LastStep(d, s, actions);
      SettingsFollow(d, s, init, ch);
      SettingMoves(Final(d, s, init), actions[|actions| - 1], ch);
    }
  }

  // Action k starts the hook that computed this write, while the channel had this TTL.
  ghost predicate StartedUnder(before: map<ChannelId, int>, actions: seq<Action>, k: nat, w: Write) {
    && k < |actions| && actions[k].StartHook? && actions[k].postId == w.post.id
    && SettingAfter(before, actions[..k], w.post.channelId) == Some(w.seconds)
  }

  lemma NewWrite(s: State, a: Action, w: Write)
    requires Enabled(s, a) && w in Step(s, a).writes && w !in s.writes
    ensures a.StartHook? && w.post == s.posts[a.postId] && Setting(s, w.post.channelId) == Some(w.seconds)
  {
  }

  ghost predicate PostsKeyed(s: State) {
    forall id | id in s.posts :: s.posts[id].id == id
  }

  lemma {:induction false} PostsStayKeyed(d: Discipline, s: State, actions: seq<Action>)
    requires IsRun(d, s, actions) && PostsKeyed(s)
    ensures PostsKeyed(Final(d, s, actions))
    decreases actions
  {
    if actions != [] {
      OneStepKeyed(s, actions[0]);
      PostsStayKeyed(d, Step(s, actions[0]), actions[1..]);
    }
  }

  lemma OneStepKeyed(s: State, a: Action)
    requires Enabled(s, a) && PostsKeyed(s)
    ensures PostsKeyed(Step(s, a))
  {
  }

  // Every expiry of a run was computed with the TTL that the post's channel had when
  // the post's hook started.
  lemma {:induction false} WritesFollowSettings(d: Discipline, init: State, actions: seq<Action>, w: Write) returns (k: nat)
    requires Init(init) && IsRun(d, init, actions) && w in Final(d, init, actions).writes
    ensures StartedUnder(init.ttl, actions, k, w)
    decreases |actions|
  {
    var front, last := actions[..|actions| - 1], actions[|actions| - 1];
    LastStep(d, init, actions);
    var s := Final(d, init, front);
    if w in s.writes {
      k := WritesFollowSettings(d, init, front, w);
      assert front[..k] == actions[..k];
    } else {
      k := |front|;
      NewWrite(s, last, w);
      PostsStayKeyed(d, init, front);
      SettingsFollow(d, init, front, w.post.channelId);
    }
  }

  // Step k starts a hook for a post of this channel.
  ghost predicate StartsIn(d: Discipline, init: State, actions: seq<Action>, k: nat, ch: ChannelId) {
    && k < |actions| && actions[k].StartHook? && IsRun(d, init, actions[..k])
    && var posts := Final(d, init, actions[..k]).posts;
       actions[k].postId in posts && posts[actions[k].postId].channelId == ch
  }

  // After a channel's TTL was cleared no hook of its posts starts until it is set again.
  lemma NoHookWhileOff(d: Discipline, init: State, actions: seq<Action>, j: nat, k: nat)
    requires IsRun(d, init, actions) && j < k < |actions|
    requires actions[j].ClearTtl? && StartsIn(d, init, actions, k, actions[j].channelId)
    ensures exists m :: j < m < k && actions[m].SetTtl? && actions[m].channelId == actions[j].channelId
  {
    var ch, before := actions[j].channelId, actions[..k];
    RunPrefix(d, init, actions, k);
    SettingsFollow(d, init, before, ch);
    assert Changes(before[j], ch);
    var m := SettingIsLastChange(init.ttl, before, ch);
    assert actions[m] == before[m];
  }

  // ---- The configuration a hard purge was routed under ----

  function ConfigurationAfter(before: Environment, actions: seq<Action>): Environment {
    if actions == [] then before
    else
      match actions[|actions| - 1]
      case Configure(env) => env
      case _ => ConfigurationAfter(before, actions[..|actions| - 1])
  }

  lemma ConfigurationMoves(s: State, a: Action)
    requires Enabled(s, a)
    ensures Step(s, a).env == if a.Configure? then a.env else s.env
  {
  }

  lemma {:induction false} ConfigurationsFollow(d: Discipline, s: State, actions: seq<Action>)
    requires IsRun(d, s, actions)
    ensures Final(d, s, actions).env == ConfigurationAfter(s.env, actions)
    decreases |actions|
  {
    if actions != [] {
      var init := actions[..|actions| - 1];
      LastStep(d, s, actions);
      ConfigurationsFollow(d, s, init);
      ConfigurationMoves(Final(d, s, init), actions[|actions| - 1]);
    }
  }

  // Action k routed some tick while this was the live configuration, licence and version.
  ghost predicate RoutedUnder(before: Environment, actions: seq<Action>, k: nat, env: Environment) {
    k < |actions| && actions[k].Route? && ConfigurationAfter(before, actions[..k]) == env
  }

  // A tick routed to a hard purge keeps the environment of its routing; a hard
  // removal carries its tick's.
  lemma EnvironmentsMove(s: State, a: Action, env: Environment)
    requires Enabled(s, a) && UsesEnvironment(Step(s, a), env)
    ensures UsesEnvironment(s, env) || (a.Route? && s.env == env)
  {
    var t := Step(s, a);
    if r :| r in t.removals && r.how == ByHardPurge(env) {
      if r !in s.removals {
        RemovalsMove(s, a, r);
      }
    } else {
      var i :| i in t.sweeps && t.sweeps[i].HardRouted? && t.sweeps[i].env == env;
      assert i in s.sweeps;
    }
  }

  ghost predicate UsesEnvironment(s: State, env: Environment) {
    || (exists r :: r in s.removals && r.how == ByHardPurge(env))
    || (exists i :: i in s.sweeps && s.sweeps[i].HardRouted? && s.sweeps[i].env == env)
  }

  // Every hard purge of a run was routed under what was configured at its routing.
  lemma {:induction false} HardPurgesFollowConfiguration(d: Discipline, init: State, actions: seq<Action>, env: Environment)
    returns (k: nat)
    requires Init(init) && IsRun(d, init, actions) && UsesEnvironment(Final(d, init, actions), env)
    ensures RoutedUnder(init.env, actions, k, env)
    decreases |actions|
  {
    var front, last := actions[..|actions| - 1], actions[|actions| - 1];
    LastStep(d, init, actions);
    var s := Final(d, init, front);
    EnvironmentsMove(s, last, env);
    if UsesEnvironment(s, env) {
      k := HardPurgesFollowConfiguration(d, init, front, env);
      assert front[..k] == actions[..k];
    } else {
      k := |front|;
      ConfigurationsFollow(d, init, front);
    }
  }
}
