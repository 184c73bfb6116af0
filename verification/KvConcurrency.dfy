// Any number of concurrent Set and Clear calls on one key: each call as a process
// that reads, swaps and retries, interleaved arbitrarily.
module KvConcurrency {
  import opened Wrappers
  import opened SetSizes
  import KvStore

  type Call = nat
  type Bytes = KvStore.Stored

  // The writes to the key in the order they took effect.
  datatype Event = Committed(call: Call, value: Bytes) | Cleared

  // A read-to-swap window that ended in a conflict, as lengths of the log.
  datatype Window = Window(from: nat, to: nat)

  datatype Pc =
    | Ready
    | Read(seen: Option<Bytes>, at: nat)
    | Succeeded(commit: nat)
    | GaveUp
    | Failed

  // A Set call: its value, the log length when it began, where it is, and the
  // windows it lost so far (history).
  datatype Writer = Writer(input: Bytes, begin: nat, pc: Pc, lost: seq<Window>)

  datatype State = State(maxRetries: nat, initial: Option<Bytes>, value: Option<Bytes>,
                         log: seq<Event>, writers: map<Call, Writer>)

  datatype Action =
    | Begin(call: Call, input: Bytes)
    | Get(call: Call)
    | Swap(call: Call)
    | KvError(call: Call)
    | Clear

  ghost predicate Init(s: State) {
    s.value == s.initial && s.log == [] && s.writers == map[]
  }

  predicate Enabled(s: State, a: Action) {
    match a
    case Begin(c, _) => c !in s.writers
    case Get(c) => c in s.writers && s.writers[c].pc.Ready?
    case Swap(c) => c in s.writers && s.writers[c].pc.Read?
    case KvError(c) => c in s.writers && (s.writers[c].pc.Ready? || s.writers[c].pc.Read?)
    case Clear => true
  }

  // The pc at the head of the loop after so many lost rounds.
  function LoopHead(maxRetries: nat, lost: nat): Pc {
    if lost < maxRetries then Ready else GaveUp
  }

  function Step(s: State, a: Action): State
    requires Enabled(s, a)
  {
    match a
    case Begin(c, input) =>
      s.(writers := s.writers[c := Writer(input, |s.log|, LoopHead(s.maxRetries, 0), [])])
    case Get(c) =>
      s.(writers := s.writers[c := s.writers[c].(pc := Read(s.value, |s.log|))])
    case Swap(c) =>
      var w := s.writers[c];
      if s.value == w.pc.seen then
        s.(value := Some(w.input), log := s.log + [Committed(c, w.input)],
           writers := s.writers[c := w.(pc := Succeeded(|s.log|))])
      else
        var lost := w.lost + [Window(w.pc.at, |s.log|)];
        s.(writers := s.writers[c := w.(pc := LoopHead(s.maxRetries, |lost|), lost := lost)])
    case KvError(c) =>
      s.(writers := s.writers[c := s.writers[c].(pc := Failed)])
    case Clear =>
      s.(value := None, log := s.log + [Cleared])
  }

  ghost predicate IsRun(s: State, actions: seq<Action>)
    decreases actions
  {
    actions == [] || (Enabled(s, actions[0]) && IsRun(Step(s, actions[0]), actions[1..]))
  }

  ghost function Final(s: State, actions: seq<Action>): State
    requires IsRun(s, actions)
    decreases actions
  {
    if actions == [] then s else Final(Step(s, actions[0]), actions[1..])
  }

  // The value the log leaves: that of its last commit, nothing after a clear.
  function ValueAfter(initial: Option<Bytes>, log: seq<Event>): Option<Bytes> {
    if log == [] then initial
    else match log[|log| - 1]
         case Committed(_, v) => Some(v)
         case Cleared => None
  }

  ghost predicate CommitOf(log: seq<Event>, i: nat, c: Call) {
    i < |log| && log[i].Committed? && log[i].call == c
  }

  // The lost windows lie inside the call, one after another, and each of them
  // changed the value.
  ghost predicate LostInOrder(s: State, w: Writer) {
    && (forall i | 0 <= i < |w.lost| ::
          && w.begin <= w.lost[i].from < w.lost[i].to <= |s.log|
          && ValueAfter(s.initial, s.log[..w.lost[i].from]) != ValueAfter(s.initial, s.log[..w.lost[i].to]))
    && (forall i, j | 0 <= i < j < |w.lost| :: w.lost[i].to <= w.lost[j].from)
    && (w.pc.Read? ==>
          && w.begin <= w.pc.at <= |s.log| && w.pc.seen == ValueAfter(s.initial, s.log[..w.pc.at])
          && forall i | 0 <= i < |w.lost| :: w.lost[i].to <= w.pc.at)
  }

  ghost predicate WriterInv(s: State, c: Call, w: Writer) {
    && w.begin <= |s.log|
    && LostInOrder(s, w)
    && (w.pc.Ready? || w.pc.Read? ==> |w.lost| < s.maxRetries)
    && (w.pc.GaveUp? ==> |w.lost| == s.maxRetries)
    && (w.pc.Succeeded? ==> w.begin <= w.pc.commit < |s.log| && s.log[w.pc.commit] == Committed(c, w.input))
    && (forall i: nat | CommitOf(s.log, i, c) :: w.pc == Succeeded(i))
  }

  ghost predicate Inv(s: State) {
    && s.value == ValueAfter(s.initial, s.log)
    && (forall c | c in s.writers :: WriterInv(s, c, s.writers[c]))
    && (forall i | 0 <= i < |s.log| && s.log[i].Committed? :: s.log[i].call in s.writers)
  }

  // A writer that does not move keeps its invariant when the log grows by an event
  // that is not its own.
  lemma WriterFrame(s: State, t: State, c: Call, w: Writer)
    requires WriterInv(s, c, w)
    requires t.initial == s.initial && t.maxRetries == s.maxRetries
    requires t.log == s.log || exists e :: t.log == s.log + [e] && (e.Committed? ==> e.call != c)
    ensures WriterInv(t, c, w)
  {
    forall k | 0 <= k <= |s.log|
      ensures t.log[..k] == s.log[..k]
    {
    }
    forall i: nat | CommitOf(t.log, i, c)
      ensures w.pc == Succeeded(i)
    {
      assert i < |s.log|;
      assert CommitOf(s.log, i, c);
    }
  }

  lemma OthersKeep(s: State, a: Action, c: Call)
    requires Inv(s) && Enabled(s, a) && c in s.writers
    requires a.Clear? || a.call != c
    ensures c in Step(s, a).writers && WriterInv(Step(s, a), c, Step(s, a).writers[c])
  {
    var t := Step(s, a);
    assert t.log == s.log || t.log == s.log + [t.log[|s.log|]];
    WriterFrame(s, t, c, s.writers[c]);
  }

  lemma WonSwapKeeps(s: State, c: Call)
    requires Inv(s) && Enabled(s, Swap(c)) && s.value == s.writers[c].pc.seen
    ensures WriterInv(Step(s, Swap(c)), c, Step(s, Swap(c)).writers[c])
  {
    var w, t := s.writers[c], Step(s, Swap(c));
    assert WriterInv(s, c, w);
    assert forall k | 0 <= k <= |s.log| :: t.log[..k] == s.log[..k];
    forall i: nat | CommitOf(t.log, i, c)
      ensures i == |s.log|
    {
      assert i < |s.log| ==> !CommitOf(s.log, i, c);
    }
  }

  lemma LostSwapKeeps(s: State, c: Call)
    requires Inv(s) && Enabled(s, Swap(c)) && s.value != s.writers[c].pc.seen
    ensures WriterInv(Step(s, Swap(c)), c, Step(s, Swap(c)).writers[c])
  {
    var w := s.writers[c];
    assert WriterInv(s, c, w);
    assert s.log[..|s.log|] == s.log;
    assert w.pc.at < |s.log|;
  }

  lemma StepKeepsInv(s: State, a: Action)
    requires Inv(s) && Enabled(s, a)
    ensures Inv(Step(s, a))
  {
    var t := Step(s, a);
    forall c | c in t.writers
      ensures WriterInv(t, c, t.writers[c])
    {
      if a.Clear? || a.call != c {
        OthersKeep(s, a, c);
      } else if a.Swap? {
        if s.value == s.writers[c].pc.seen {
          WonSwapKeeps(s, c);
        } else {
          LostSwapKeeps(s, c);
        }
      } else if a.Begin? {
        assert forall i: nat :: !CommitOf(t.log, i, c);
      } else {
        assert WriterInv(s, c, s.writers[c]);
        assert s.log[..|s.log|] == s.log;
        assert forall i: nat :: CommitOf(t.log, i, c) ==> CommitOf(s.log, i, c);
      }
    }
  }

  lemma {:induction false} RunKeepsInv(s: State, actions: seq<Action>)
    requires Inv(s) && IsRun(s, actions)
    ensures Inv(Final(s, actions))
    ensures Final(s, actions).maxRetries == s.maxRetries && Final(s, actions).initial == s.initial
    decreases actions
  {
    if actions != [] {
      StepKeepsInv(s, actions[0]);
      RunKeepsInv(Step(s, actions[0]), actions[1..]);
    }
  }

  ghost predicate Reachable(s: State) {
    exists init, actions :: Init(init) && IsRun(init, actions) && Final(init, actions) == s
  }

  lemma ReachableInv(s: State)
    requires Reachable(s)
    ensures Inv(s)
  {
    var init, actions :| Init(init) && IsRun(init, actions) && Final(init, actions) == s;
    RunKeepsInv(init, actions);
  }

  // Linearization. The stored value is that of the last event; a successful call
  // committed its own value exactly once, after it began; any other call left no
  // trace.
  lemma Linearization(s: State, c: Call)
    requires Reachable(s) && c in s.writers
    ensures s.value == ValueAfter(s.initial, s.log)
    ensures var w := s.writers[c];
            if w.pc.Succeeded? then
              && w.begin <= w.pc.commit < |s.log|
              && s.log[w.pc.commit] == Committed(c, w.input)
              && forall i: nat :: CommitOf(s.log, i, c) <==> i == w.pc.commit
            else
              forall i: nat :: !CommitOf(s.log, i, c)
  {
    ReachableInv(s);
    assert WriterInv(s, c, s.writers[c]);
  }

  // Without clears, once some call succeeded the value is the input of a call that
  // succeeded; without any success it is still the initial one.
  lemma OneValueSurvives(s: State)
    requires Reachable(s)
    requires forall e | e in s.log :: e.Committed?
    ensures if exists c :: c in s.writers && s.writers[c].pc.Succeeded?
            then exists c :: c in s.writers && s.writers[c].pc.Succeeded? && s.value == Some(s.writers[c].input)
            else s.value == s.initial
  {
    ReachableInv(s);
    if s.log != [] {
      var last := |s.log| - 1;
      assert s.log[last] in s.log;
      var c := s.log[last].call;
      assert CommitOf(s.log, last, c);
      assert WriterInv(s, c, s.writers[c]);
      assert s.writers[c].pc == Succeeded(last);
    } else if c :| c in s.writers && s.writers[c].pc.Succeeded? {
      assert WriterInv(s, c, s.writers[c]);
    }
  }

  // Giving up means maxRetries writes by others during the call, one in each of as
  // many disjoint read-to-swap windows, each window having changed the value.
  lemma GivingUpNeedsConflicts(s: State, c: Call) returns (hits: seq<nat>)
    requires Reachable(s) && c in s.writers && s.writers[c].pc.GaveUp?
    ensures |hits| == s.maxRetries
    ensures forall i, j | 0 <= i < j < |hits| :: hits[i] < hits[j]
    ensures forall i | 0 <= i < |hits| ::
              && s.writers[c].begin <= hits[i] < |s.log|
              && (s.log[hits[i]].Cleared? || s.log[hits[i]].call != c)
    ensures var lost := s.writers[c].lost;
            && |lost| == s.maxRetries
            && forall i | 0 <= i < |lost| ::
                 && lost[i].from == hits[i] < lost[i].to <= |s.log|
                 && (i + 1 < |lost| ==> lost[i].to <= lost[i + 1].from)
                 && ValueAfter(s.initial, s.log[..lost[i].from]) != ValueAfter(s.initial, s.log[..lost[i].to])
  {
    ReachableInv(s);
    var w := s.writers[c];
    assert WriterInv(s, c, w);
    hits := seq(|w.lost|, i requires 0 <= i < |w.lost| => w.lost[i].from);
    forall i | 0 <= i < |hits|
      ensures s.log[hits[i]].Cleared? || s.log[hits[i]].call != c
    {
      assert !CommitOf(s.log, hits[i], c);
    }
  }

  lemma CommitsOnce(s: State, i: nat)
    requires Inv(s) && i < |s.log| && s.log[i].Committed?
    ensures s.log[i].call in s.writers && s.writers[s.log[i].call].pc == Succeeded(i)
  {
  }

  // Distinct commits come from distinct calls.
  lemma {:induction false} CommittersCount(s: State, at: set<nat>, c: Call) returns (callers: set<Call>)
    requires Inv(s)
    requires forall i | i in at :: i < |s.log| && s.log[i].Committed? && s.log[i].call != c
    ensures |callers| == |at| && callers <= s.writers.Keys - {c}
    ensures forall x | x in callers :: s.writers[x].pc.Succeeded? && s.writers[x].pc.commit in at
    decreases at
  {
    callers := {};
    if at != {} {
      var i :| i in at;
      callers := CommittersCount(s, at - {i}, c);
      CommitsOnce(s, i);
      callers := callers + {s.log[i].call};
    }
  }

  function Positions(hits: seq<nat>): set<nat> {
    set x | x in hits
  }

  lemma {:induction false} PositionsCount(hits: seq<nat>)
    requires forall i, j | 0 <= i < j < |hits| :: hits[i] < hits[j]
    ensures |Positions(hits)| == |hits|
  {
    if hits != [] {
      var front, last := hits[..|hits| - 1], hits[|hits| - 1];
      PositionsCount(front);
      assert hits == front + [last];
      assert Positions(hits) == Positions(front) + {last} && last !in front;
    }
  }

  // Without clears the writes that made a call give up came from as many distinct
  // other calls.
  lemma GivingUpNeedsDistinctCallers(s: State, c: Call) returns (callers: set<Call>)
    requires Reachable(s) && c in s.writers && s.writers[c].pc.GaveUp?
    requires forall e | e in s.log :: e.Committed?
    ensures |callers| == s.maxRetries && callers <= s.writers.Keys - {c}
    ensures forall x | x in callers :: s.writers[x].pc.Succeeded?
  {
    var hits := GivingUpNeedsConflicts(s, c);
    ReachableInv(s);
    PositionsCount(hits);
    assert forall i | 0 <= i < |hits| :: s.log[hits[i]] in s.log;
    callers := CommittersCount(s, Positions(hits), c);
  }

  // The clears among the writes, by position.
  function Clears(log: seq<Event>): set<nat> {
    set i: nat | i < |log| && log[i].Cleared?
  }

  // A call gives up only if the other calls and the clears together make up for
  // maxRetries.
  lemma GivingUpNeedsCallersOrClears(s: State, c: Call)
    requires Reachable(s) && c in s.writers && s.writers[c].pc.GaveUp?
    ensures |s.writers.Keys - {c}| + |Clears(s.log)| >= s.maxRetries
  {
    var hits := GivingUpNeedsConflicts(s, c);
    ReachableInv(s);
    PositionsCount(hits);
    var all, clears := Positions(hits), Clears(s.log);
    var callers := CommittersCount(s, all - clears, c);
    SubsetCount(callers, s.writers.Keys - {c});
    SubsetCount(all * clears, clears);
    assert all == (all - clears) + all * clears;
  }

  // With at most maxRetries calls in all and no clears, no call ever gives up.
  lemma FewWritersNeverGiveUp(s: State, c: Call)
    requires Reachable(s) && c in s.writers
    requires forall e | e in s.log :: e.Committed?
    requires |s.writers| <= s.maxRetries
    ensures !s.writers[c].pc.GaveUp?
  {
    assert forall i | i in Clears(s.log) :: s.log[i] in s.log;
    assert Clears(s.log) == {};
    assert s.writers.Keys == (s.writers.Keys - {c}) + {c};
    if s.writers[c].pc.GaveUp? {
      GivingUpNeedsCallersOrClears(s, c);
    }
  }

  // ---- One call more can be enough ----

  // Call 0 has lost a round to each of the other calls.
  ghost predicate LostToEach(s: State, others: nat) {
    && 0 in s.writers && |s.writers| == others + 1 && (forall c | c in s.writers :: c <= others)
    && (forall e | e in s.log :: e.Committed?)
    && |s.writers[0].lost| == others <= s.maxRetries
    && s.writers[0].pc == LoopHead(s.maxRetries, others)
  }

  function Another(value: Option<Bytes>): Bytes {
    if value == Some(KvStore.Other("a")) then KvStore.Other("b") else KvStore.Other("a")
  }

  // Call 0 reads, the next call begins and wins, call 0 loses its swap.
  lemma LoseOneRound(s: State, others: nat) returns (t: State)
    requires Reachable(s) && LostToEach(s, others) && others < s.maxRetries
    ensures Reachable(t) && LostToEach(t, others + 1) && t.maxRetries == s.maxRetries
  {
    var c := others + 1;
    var s1 := StepOn(s, Get(0));
    var s2 := StepOn(s1, Begin(c, Another(s.value)));
    var s3 := StepOn(s2, Get(c));
    var s4 := StepOn(s3, Swap(c));
    t := StepOn(s4, Swap(0));
    assert t.writers.Keys == s.writers.Keys + {c};
    assert |t.writers.Keys| == |s.writers.Keys| + 1;
  }

  lemma StepOn(s: State, a: Action) returns (t: State)
    requires Reachable(s) && Enabled(s, a)
    ensures t == Step(s, a) && Reachable(t)
  {
    t := Step(s, a);
    var init, actions :| Init(init) && IsRun(init, actions) && Final(init, actions) == s;
    RunsExtend(init, actions, a);
  }

  lemma {:induction false} RunsExtend(s: State, actions: seq<Action>, a: Action)
    requires IsRun(s, actions) && Enabled(Final(s, actions), a)
    ensures IsRun(s, actions + [a]) && Final(s, actions + [a]) == Step(Final(s, actions), a)
    decreases actions
  {
    if actions == [] {
      assert [a][1..] == [];
    } else {
      RunsExtend(Step(s, actions[0]), actions[1..], a);
      assert (actions + [a])[1..] == actions[1..] + [a];
    }
  }

  lemma {:induction false} LoseRounds(maxRetries: nat, others: nat) returns (s: State)
    requires others <= maxRetries
    ensures Reachable(s) && LostToEach(s, others) && s.maxRetries == maxRetries
  {
    if others == 0 {
      var init := State(maxRetries, None, None, [], map[]);
      assert IsRun(init, []) && Final(init, []) == init;
      s := StepOn(init, Begin(0, Another(None)));
    } else {
      s := LoseRounds(maxRetries, others - 1);
      s := LoseOneRound(s, others - 1);
    }
  }

  // The bound is tight for every maxRetries: with one call more, and still no clears,
  // a call can give up.
  lemma OneMoreWriterCanGiveUp(maxRetries: nat) returns (s: State)
    ensures Reachable(s) && s.maxRetries == maxRetries && |s.writers| == maxRetries + 1
    ensures forall e | e in s.log :: e.Committed?
    ensures 0 in s.writers && s.writers[0].pc.GaveUp?
  {
    s := LoseRounds(maxRetries, maxRetries);
  }
}
