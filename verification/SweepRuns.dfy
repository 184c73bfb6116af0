// Runs of sweep ticks on the hard path at a fixed clock: draining, retries and
// confluence.
module SweepRuns {
  import opened ExpireIndex
  import opened Purge

  datatype World = World(index: Index, tables: Tables)

  // How far a tick came. Aborted covers a failed query, begin, statement or commit
  // and a skipped schema; PurgedOnly is a failed prune. A tick that finds nothing
  // is Finished([]).
  datatype Tick = Aborted | PurgedOnly(batch: seq<Entry>) | Finished(batch: seq<Entry>)

  ghost predicate Possible(w: World, now: int, limit: nat, tick: Tick) {
    match tick
    case Aborted => true
    case PurgedOnly(batch) => IsBatch(w.index, now, limit, batch)
    case Finished(batch) => IsBatch(w.index, now, limit, batch)
  }

  function After(fp: seq<Target>, w: World, tick: Tick): World {
    match tick
    case Aborted => w
    case PurgedOnly(batch) => w.(tables := Purged(fp, w.tables, Ids(batch)))
    case Finished(batch) => World(w.index - Ids(batch), Purged(fp, w.tables, Ids(batch)))
  }

  ghost predicate IsRun(fp: seq<Target>, w: World, now: int, limit: nat, ticks: seq<Tick>)
    decreases ticks
  {
    ticks == []
    || (Possible(w, now, limit, ticks[0]) && IsRun(fp, After(fp, w, ticks[0]), now, limit, ticks[1..]))
  }

  function Final(fp: seq<Target>, w: World, ticks: seq<Tick>): World
    decreases ticks
  {
    if ticks == [] then w else Final(fp, After(fp, w, ticks[0]), ticks[1..])
  }

  function Successes(ticks: seq<Tick>): nat {
    if ticks == [] then 0 else (if ticks[0].Finished? then 1 else 0) + Successes(ticks[1..])
  }

  // Successful ticks that had something to do.
  function Busy(ticks: seq<Tick>): nat {
    if ticks == [] then 0
    else (if ticks[0].Finished? && ticks[0].batch != [] then 1 else 0) + Busy(ticks[1..])
  }

  // The index without its expired rows, the tables without the expired posts' rows.
  function Swept(fp: seq<Target>, w: World, now: int): World {
    var expired := Expired(w.index, now);
    World(w.index - expired, Purged(fp, w.tables, expired))
  }

  // What is left of n after k batches of this size.
  function Left(n: nat, limit: nat, k: nat): nat {
    if n <= limit * k then 0 else n - limit * k
  }

  // n / limit rounded up (see CeilBounds).
  function CeilDiv(n: nat, limit: nat): nat
    requires limit > 0
  {
    if n == 0 then 0 else 1 + CeilDiv(Left(n, limit, 1), limit)
  }

  lemma {:induction false} CeilBounds(n: nat, limit: nat)
    requires limit > 0
    ensures n <= limit * CeilDiv(n, limit) < n + limit
  {
    if n > 0 {
      var rest := Left(n, limit, 1);
      CeilBounds(rest, limit);
      assert limit * (CeilDiv(rest, limit) + 1) == limit * CeilDiv(rest, limit) + limit;
    }
  }

  // No tick, failed or not, changes what the sweep is heading for.
  lemma TickKeepsGoal(fp: seq<Target>, w: World, now: int, limit: nat, tick: Tick)
    requires Possible(w, now, limit, tick)
    ensures Swept(fp, After(fp, w, tick), now) == Swept(fp, w, now)
  {
    if !tick.Aborted? {
      var ids, expired := Ids(tick.batch), Expired(w.index, now);
      BatchSize(w.index, now, limit, tick.batch);
      var left := if tick.Finished? then expired - ids else expired;
      ExpiredAfterPrune(w.index, now, ids);
      PurgesAddUp(fp, w.tables, ids, left);
      assert ids + left == expired;
    }
  }

  lemma ExpiredAfterPrune(idx: Index, now: int, ids: set<PostId>)
    ensures Expired(idx - ids, now) == Expired(idx, now) - ids
    ensures ids <= Expired(idx, now) ==> (idx - ids) - (Expired(idx, now) - ids) == idx - Expired(idx, now)
  {
  }

  lemma {:induction false} RunKeepsGoal(fp: seq<Target>, w: World, now: int, limit: nat, ticks: seq<Tick>)
    requires IsRun(fp, w, now, limit, ticks)
    ensures Swept(fp, Final(fp, w, ticks), now) == Swept(fp, w, now)
    decreases ticks
  {
    if ticks != [] {
      TickKeepsGoal(fp, w, now, limit, ticks[0]);
      RunKeepsGoal(fp, After(fp, w, ticks[0]), now, limit, ticks[1..]);
    }
  }

  lemma TickCount(fp: seq<Target>, w: World, now: int, limit: nat, tick: Tick)
    requires Possible(w, now, limit, tick)
    ensures var n := |Expired(w.index, now)|;
            |Expired(After(fp, w, tick).index, now)| ==
              if !tick.Finished? then n else if n <= limit then 0 else n - limit
    ensures tick.Finished? && limit > 0 ==> (tick.batch == [] <==> Expired(w.index, now) == {})
  {
    if tick.Finished? {
      var ids, expired := Ids(tick.batch), Expired(w.index, now);
      BatchSize(w.index, now, limit, tick.batch);
      assert Expired(After(fp, w, tick).index, now) == expired - ids;
    }
  }

  lemma {:induction false} RunCount(fp: seq<Target>, w: World, now: int, limit: nat, ticks: seq<Tick>)
    requires limit > 0 && IsRun(fp, w, now, limit, ticks)
    ensures |Expired(Final(fp, w, ticks).index, now)| == Left(|Expired(w.index, now)|, limit, Successes(ticks))
    ensures Busy(ticks) == Min(Successes(ticks), CeilDiv(|Expired(w.index, now)|, limit))
    decreases ticks
  {
    if ticks != [] {
      var next := After(fp, w, ticks[0]);
      TickCount(fp, w, now, limit, ticks[0]);
      RunCount(fp, next, now, limit, ticks[1..]);
      if ticks[0].Finished? {
        LeftSteps(|Expired(w.index, now)|, limit, Successes(ticks[1..]));
      }
    }
  }

  function Min(a: nat, b: nat): nat {
    if a <= b then a else b
  }

  lemma LeftSteps(n: nat, limit: nat, k: nat)
    ensures Left(Left(n, limit, 1), limit, k) == Left(n, limit, k + 1)
  {
  }

  lemma MulMono(d: nat, x: nat, y: nat)
    ensures x >= y ==> d * x >= d * y
    ensures d * (y + 1) == d * y + d
  {
  }

  // Draining: the first ceil(n / limit) successful ticks are the busy ones, with any
  // number of failures in between, and after them nothing expired is left.
  lemma DrainsInCeilTicks(fp: seq<Target>, w: World, now: int, limit: nat, ticks: seq<Tick>)
    requires limit > 0 && IsRun(fp, w, now, limit, ticks)
    ensures var due := CeilDiv(|Expired(w.index, now)|, limit);
            && Busy(ticks) == Min(Successes(ticks), due)
            && (Expired(Final(fp, w, ticks).index, now) == {} <==> Successes(ticks) >= due)
  {
    RunCount(fp, w, now, limit, ticks);
    var n, k := |Expired(w.index, now)|, Successes(ticks);
    CeilBound(n, limit, k);
  }

  lemma CeilBound(n: nat, d: nat, k: nat)
    requires d > 0
    ensures n <= d * k <==> k >= CeilDiv(n, d)
  {
    var c := CeilDiv(n, d);
    CeilBounds(n, d);
    MulMono(d, k, c);
    MulMono(d, c, k + 1);
    assert d * (k + 1) == d * k + d;
  }

  // Retry confluence: once enough ticks succeeded, the outcome does not depend on
  // the batch size, the order of ties, or where other ticks failed.
  lemma RetriesConverge(fp: seq<Target>, w: World, now: int, limit: nat, ticks: seq<Tick>)
    requires limit > 0 && IsRun(fp, w, now, limit, ticks)
    requires Successes(ticks) >= CeilDiv(|Expired(w.index, now)|, limit)
    ensures Final(fp, w, ticks) == Swept(fp, w, now)
  {
    DrainsInCeilTicks(fp, w, now, limit, ticks);
    RunKeepsGoal(fp, w, now, limit, ticks);
    var end := Final(fp, w, ticks);
    PurgeNothing(fp, end.tables, {});
    assert end.index - {} == end.index;
  }

  lemma RunsAreConfluent(fp: seq<Target>, w: World, now: int,
                         limitA: nat, ticksA: seq<Tick>, limitB: nat, ticksB: seq<Tick>)
    requires limitA > 0 && IsRun(fp, w, now, limitA, ticksA)
    requires limitB > 0 && IsRun(fp, w, now, limitB, ticksB)
    requires Expired(Final(fp, w, ticksA).index, now) == {} && Expired(Final(fp, w, ticksB).index, now) == {}
    ensures Final(fp, w, ticksA) == Final(fp, w, ticksB)
  {
    DrainsInCeilTicks(fp, w, now, limitA, ticksA);
    DrainsInCeilTicks(fp, w, now, limitB, ticksB);
    RetriesConverge(fp, w, now, limitA, ticksA);
    RetriesConverge(fp, w, now, limitB, ticksB);
  }

  // At every point of every run: index rows due later are untouched, a post that was
  // not due still has rows exactly when it had some, and a post that left the index
  // has none. (RowsNotDueStay speaks of the single rows.)
  lemma {:induction false} OnlyExpiredAreTouched(fp: seq<Target>, w: World, now: int, limit: nat, ticks: seq<Tick>, id: PostId)
    requires IsRun(fp, w, now, limit, ticks)
    requires forall i, j | 0 <= i < |fp| && 0 <= j < |fp| && fp[i].table == fp[j].table :: fp[i].col == fp[j].col
    ensures var end := Final(fp, w, ticks);
            && (id !in Expired(w.index, now) ==>
                  (id in end.index <==> id in w.index) && (HasRows(fp, end.tables, id) <==> HasRows(fp, w.tables, id)))
            && (id in end.index ==> id in w.index && end.index[id] == w.index[id])
            && (id in w.index && id !in end.index ==> !HasRows(fp, end.tables, id))
    decreases ticks
  {
    if ticks != [] {
      var tick, next := ticks[0], After(fp, w, ticks[0]);
      if !tick.Aborted? {
        BatchSize(w.index, now, limit, tick.batch);
        PurgeRemovesExactly(fp, w.tables, Ids(tick.batch), id);
      }
      OnlyExpiredAreTouched(fp, next, now, limit, ticks[1..], id);
    }
  }

  // At every point of every run, for any footprint: a row that the footprint keys by
  // no post due at the start is in its table exactly when it was there before.
  lemma {:induction false} RowsNotDueStay(fp: seq<Target>, w: World, now: int, limit: nat, ticks: seq<Tick>, n: string, r: Row)
    requires IsRun(fp, w, now, limit, ticks)
    requires n in w.tables && !Selected(fp, n, r, Expired(w.index, now))
    ensures var end := Final(fp, w, ticks);
            n in end.tables && (r in end.tables[n] <==> r in w.tables[n])
    decreases ticks
  {
    if ticks != [] {
      var tick, next := ticks[0], After(fp, w, ticks[0]);
      if !tick.Aborted? {
        BatchSize(w.index, now, limit, tick.batch);
        SelectedMonotone(fp, n, r, Ids(tick.batch), Expired(w.index, now));
      }
      SelectedMonotone(fp, n, r, Expired(next.index, now), Expired(w.index, now));
      RowsNotDueStay(fp, next, now, limit, ticks[1..], n, r);
    }
  }
}
