// The retry loop of one Set call, under the writes of others that its rounds
// describe, is a call of the concurrent model.
module KvRounds {
  import opened Wrappers
  import opened KvStore
  import opened KvConcurrency

  // A state of the concurrent model whose value is the one under this key, with calls
  // numbered below next.
  ghost predicate Shows(s: State, kv: Contents, key: string, next: Call) {
    s.value == Lookup(kv, key) && forall c | c in s.writers :: c < next
  }

  // Others ran from s to t: the call is where it was.
  ghost predicate Undisturbed(s: State, t: State, call: Call) {
    && call in s.writers && call in t.writers && t.writers[call] == s.writers[call]
    && t.maxRetries == s.maxRetries
  }

  lemma {:induction false} RunsConcat(s: State, first: seq<Action>, second: seq<Action>)
    requires IsRun(s, first) && IsRun(Final(s, first), second)
    ensures IsRun(s, first + second) && Final(s, first + second) == Final(Final(s, first), second)
    decreases first
  {
    if first == [] {
      assert first + second == second;
    } else {
      RunsConcat(Step(s, first[0]), first[1..], second);
      assert (first + second)[1..] == first[1..] + second;
    }
  }

  lemma OneStep(s: State, a: Action)
    requires Enabled(s, a)
    ensures IsRun(s, [a]) && Final(s, [a]) == Step(s, a)
  {
    assert [a][1..] == [];
  }

  // A foreign write is a call that wins at once, a delete is a clear, and other keys
  // do not matter.
  lemma OthersWrite(s: State, kv: Contents, key: string, op: Op, call: Call, next: Call)
    returns (t: State, actions: seq<Action>, next': Call)
    requires Shows(s, kv, key, next) && call in s.writers && s.maxRetries > 0
    ensures IsRun(s, actions) && Final(s, actions) == t
    ensures Shows(t, Apply(kv, op), key, next') && Undisturbed(s, t, call)
  {
    t, actions, next' := s, [], next;
    if op.key == key {
      match op
      case Put(_, value) =>
        next' := next + 1;
        var s1 := Step(s, Begin(next, value));
        var s2 := Step(s1, Get(next));
        t := Step(s2, Swap(next));
        OneStep(s, Begin(next, value));
        OneStep(s1, Get(next));
        OneStep(s2, Swap(next));
        RunsConcat(s1, [Get(next)], [Swap(next)]);
        RunsConcat(s, [Begin(next, value)], [Get(next)] + [Swap(next)]);
        actions := [Begin(next, value)] + ([Get(next)] + [Swap(next)]);
      case Del(_) =>
        OneStep(s, Clear);
        t, actions := Step(s, Clear), [Clear];
    }
  }

  lemma {:induction false} OthersRun(s: State, kv: Contents, key: string, ops: seq<Op>, call: Call, next: Call)
    returns (t: State, actions: seq<Action>, next': Call)
    requires Shows(s, kv, key, next) && call in s.writers && s.maxRetries > 0
    ensures IsRun(s, actions) && Final(s, actions) == t
    ensures Shows(t, ApplyAll(kv, ops), key, next') && Undisturbed(s, t, call)
    decreases ops
  {
    if ops == [] {
      t, actions, next' := s, [], next;
    } else {
      var s1, first, next1 := OthersWrite(s, kv, key, ops[0], call, next);
      var rest;
      t, rest, next' := OthersRun(s1, Apply(kv, ops[0]), key, ops[1..], call, next1);
      RunsConcat(s, first, rest);
      actions := first + rest;
    }
  }

  // The call is at the head of its loop with this many rounds left.
  ghost predicate AtLoopHead(s: State, call: Call, value: Bytes, left: nat) {
    && call in s.writers
    && var w := s.writers[call];
       w.input == value && |w.lost| + left == s.maxRetries && w.pc == LoopHead(s.maxRetries, |w.lost|)
  }

  predicate EndsAs(pc: Pc, r: Result<(), StoreError>) {
    match r
    case Success(_) => pc.Succeeded?
    case Failure(TooManyRetries) => pc.GaveUp?
    case Failure(_) => pc.Failed?
  }

  // Up to the swap: others write, the call reads, others write again.
  lemma UpToSwap(s: State, kv: Contents, key: string, round: Round, call: Call, next: Call)
    returns (t: State, actions: seq<Action>, next': Call)
    requires Shows(s, kv, key, next) && call in s.writers && s.writers[call].pc.Ready? && s.maxRetries > 0
    ensures IsRun(s, actions) && Final(s, actions) == t
    ensures var atRead := ApplyAll(kv, round.before);
            && call in t.writers && t.maxRetries == s.maxRetries
            && t.writers[call].input == s.writers[call].input && t.writers[call].lost == s.writers[call].lost
            && (round.getFails ==> Shows(t, atRead, key, next') && t.writers[call].pc.Failed?)
            && (!round.getFails ==>
                  && Shows(t, ApplyAll(atRead, round.between), key, next')
                  && t.writers[call].pc.Read? && t.writers[call].pc.seen == Lookup(atRead, key))
  {
    var s1, before, next1 := OthersRun(s, kv, key, round.before, call, next);
    var a := if round.getFails then KvError(call) else Get(call);
    OneStep(s1, a);
    RunsConcat(s, before, [a]);
    t, actions, next' := Step(s1, a), before + [a], next1;
    if !round.getFails {
      var between;
      t, between, next' := OthersRun(Step(s1, a), ApplyAll(kv, round.before), key, round.between, call, next1);
      RunsConcat(s, actions, between);
      actions := actions + between;
    }
  }

  lemma {:induction false} LoopIsCall(s: State, kv: Contents, key: string, value: Bytes, rounds: seq<Round>, call: Call, next: Call)
    returns (t: State, actions: seq<Action>, next': Call)
    requires Shows(s, kv, key, next) && AtLoopHead(s, call, value, |rounds|)
    ensures IsRun(s, actions) && Final(s, actions) == t
    ensures Shows(t, SetUnder(kv, key, value, rounds).kv, key, next')
    ensures call in t.writers && EndsAs(t.writers[call].pc, SetUnder(kv, key, value, rounds).result)
    decreases rounds
  {
    if rounds == [] {
      t, actions, next' := s, [], next;
    } else {
      var round := rounds[0];
      t, actions, next' := UpToSwap(s, kv, key, round, call, next);
      if !round.getFails {
        var atSwap := ApplyAll(ApplyAll(kv, round.before), round.between);
        var a := if round.setFails then KvError(call) else Swap(call);
        OneStep(t, a);
        RunsConcat(s, actions, [a]);
        t, actions := Step(t, a), actions + [a];
        if !round.setFails && Lookup(atSwap, key) != Lookup(ApplyAll(kv, round.before), key) {
          var rest;
          var s2 := t;
          t, rest, next' := LoopIsCall(s2, atSwap, key, value, rounds[1..], call, next');
          RunsConcat(s, actions, rest);
          actions := actions + rest;
        }
      }
    }
  }

  // Store.Set under any rounds is a call of the concurrent model: some interleaving
  // of its steps with calls and clears by others, from any state that shows the key,
  // leaves the same value under the key and ends the call the same way.
  lemma SetIsOneCall(s: State, kv: Contents, channelId: string, setting: Setting, rounds: seq<Round>, call: Call)
    returns (t: State, actions: seq<Action>)
    requires s.value == Lookup(kv, Key(channelId)) && |rounds| == s.maxRetries
    requires forall c | c in s.writers :: c < call
    ensures var outcome := SetUnder(kv, Key(channelId), Json(setting), rounds);
            && IsRun(s, actions) && Final(s, actions) == t
            && t.value == Lookup(outcome.kv, Key(channelId))
            && call in t.writers && EndsAs(t.writers[call].pc, outcome.result)
  {
    var begin := Begin(call, Json(setting));
    OneStep(s, begin);
    var rest, next;
    t, rest, next := LoopIsCall(Step(s, begin), kv, Key(channelId), Json(setting), rounds, call, call + 1);
    RunsConcat(s, [begin], rest);
    actions := [begin] + rest;
  }
}
