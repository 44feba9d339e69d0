/**
  The guard against rollback loops (internal/controller/heal.go): after the third rollback
  of a namespace the next one has to wait 1, 2, 4, .. minutes, and an hourly sweep forgets
  namespaces that were quiet for two hours. Times are integers in nanoseconds; the back-off
  is computed in 64-bit integers that wrap around.
 */
module RollbackTracker {

  const MINUTE: int := 60_000_000_000
  const HOUR: int := 60 * MINUTE
  const TWO63: int := 0x8000_0000_0000_0000
  const TWO64: int := 0x1_0000_0000_0000_0000

  function Pow2(n: nat): (p: nat)
    ensures p >= 1
  {
    if n == 0 then 1 else 2 * Pow2(n - 1)
  }

  /** Two's complement: the int64 that an exact result is stored as. */
  function Int64(x: int): (w: int)
    ensures -TWO63 <= w < TWO63
    ensures -TWO63 <= x < TWO63 ==> w == x
  {
    (x + TWO63) % TWO64 - TWO63
  }

  /** `time.Duration(1<<uint(cnt-3)) * time.Minute` */
  function Backoff(cnt: int): int
    requires cnt >= 3
  {
    Int64(Int64(Pow2(cnt - 3)) * MINUTE)
  }

  lemma {:induction false} Pow2Monotone(m: nat, n: nat)
    requires m <= n
    ensures Pow2(m) <= Pow2(n)
  {
    if m < n {
      Pow2Monotone(m, n - 1);
    }
  }

  lemma Pow2Of27()
    ensures Pow2(8) == 256 && Pow2(16) == 65536 && Pow2(27) == 134_217_728
  {
    assert Pow2(8) == 256;
    assert Pow2(16) == 65536;
    assert Pow2(24) == 16_777_216;
  }

  /** Up to a count of 30 nothing overflows, and the wait is the promised power of two. */
  lemma BackoffExact(cnt: int)
    requires 3 <= cnt <= 30
    ensures Backoff(cnt) == Pow2(cnt - 3) * MINUTE
  {
    Pow2Of27();
    Pow2Monotone(cnt - 3, 27);
  }

  /** At 31 the product wraps to a negative duration. */
  lemma BackoffWrapsAt31()
    ensures Backoff(31) < 0
  {
    Pow2Of27();
    assert Pow2(28) == 268_435_456;
  }

  datatype Entry = Entry(cnt: int, lastAt: int)

  type Entries = map<string, Entry>

  predicate Blocked(entries: Entries, ns: string, now: int)
    requires WellCounted(entries)
  {
    ns in entries && entries[ns].cnt >= 3 && now - entries[ns].lastAt < Backoff(entries[ns].cnt)
  }

  ghost predicate WellCounted(entries: Entries) {
    forall ns :: ns in entries ==> entries[ns].cnt >= 1
  }

  function Recorded(entries: Entries, ns: string, now: int): Entries {
    entries[ns := Entry((if ns in entries then entries[ns].cnt else 0) + 1, now)]
  }

  function Swept(entries: Entries, now: int): Entries {
    map ns | ns in entries && entries[ns].lastAt >= now - 2 * HOUR :: entries[ns]
  }

  class Tracker {
    var entries: Entries

    ghost predicate Valid()
      reads this
    {
      WellCounted(entries)
    }

    constructor ()
      ensures Valid() && entries == map[]
    {
      entries := map[];
    }

    method ShouldBlock(ns: string, now: int) returns (blocked: bool, remaining: int)
      requires Valid()
      ensures blocked == Blocked(entries, ns, now)
      ensures blocked ==> remaining == Backoff(entries[ns].cnt) - (now - entries[ns].lastAt) > 0
      ensures !blocked ==> remaining == 0
    {
      if ns !in entries || entries[ns].cnt < 3 {
        return false, 0;
      }
      var e := entries[ns];
      var backoff := Backoff(e.cnt);
      var since := now - e.lastAt;
      if since < backoff {
        return true, backoff - since;
      }
      return false, 0;
    }

    method Record(ns: string, now: int)
      requires Valid()
      modifies this
      ensures Valid() && entries == Recorded(old(entries), ns, now)
    {
      var e := if ns in entries then entries[ns] else Entry(0, 0);
      e := Entry(e.cnt + 1, now);
      entries := entries[ns := e];
    }

    /** One pass of the cleanup goroutine. */
    method Cleanup(now: int)
      requires Valid()
      modifies this
      ensures Valid() && entries == Swept(old(entries), now)
    {
      var cutoff := now - 2 * HOUR;
      var todo := entries.Keys;
      while todo != {}
        invariant todo <= old(entries).Keys
        invariant forall ns :: ns in todo ==> ns in entries && entries[ns] == old(entries)[ns]
        invariant forall ns :: ns in entries ==> ns in old(entries) && entries[ns] == old(entries)[ns]
        invariant forall ns :: ns in old(entries) && ns !in todo ==>
                                 (ns in entries <==> old(entries)[ns].lastAt >= cutoff)
        decreases todo
      {
        var ns :| ns in todo;
        if entries[ns].lastAt < cutoff {
          entries := entries - {ns};
        }
        todo := todo - {ns};
      }
    }
  }

  // ----- runs of guarded rollbacks (handleCrashLoop) and sweeps

  /** `pending` are the namespaces between a check that let them through and the end of
      their rollback; `firstAt` remembers, for each entry, when its count went to one. */
  datatype World = World(entries: Entries, pending: map<string, int>, now: int, lastSweep: int,
                         firstAt: map<string, int>)

  datatype Step =
    | Check(ns: string, at: int)
    | Finish(ns: string, at: int, healed: bool)
    | Sweep(at: int)

  /** Check and rollback are serial per namespace: no second check before the first one's
      rollback is over. Time does not go back. */
  ghost predicate Enabled(w: World, s: Step) {
    && s.at >= w.now
    && match s
       case Check(ns, _) => ns !in w.pending
       case Finish(ns, _, _) => ns in w.pending
       case Sweep(_) => true
  }

  ghost function Apply(w: World, s: Step): World
    requires WellCounted(w.entries)
  {
    match s
    case Check(ns, at) =>
      if Blocked(w.entries, ns, at) then w.(now := at) else w.(now := at, pending := w.pending[ns := at])
    case Finish(ns, at, healed) =>
      var v := w.(now := at, pending := w.pending - {ns});
      if healed then v.(entries := Recorded(w.entries, ns, at),
                        firstAt := if ns in w.entries then w.firstAt else w.firstAt[ns := at])
      else v
    case Sweep(at) =>
      w.(now := at, lastSweep := at, entries := Swept(w.entries, at))
  }

  ghost predicate IsRun(worlds: seq<World>, steps: seq<Step>) {
    && |worlds| == |steps| + 1
    && worlds[0].entries == map[] && worlds[0].pending == map[] && worlds[0].now == worlds[0].lastSweep
    && forall i :: 0 <= i < |steps| ==>
                     && WellCounted(worlds[i].entries)
                     && Enabled(worlds[i], steps[i])
                     && worlds[i + 1] == Apply(worlds[i], steps[i])
  }

  ghost predicate Timed(w: World) {
    && WellCounted(w.entries)
    && w.lastSweep <= w.now
    && (forall ns :: ns in w.pending ==> w.pending[ns] <= w.now)
    && (forall ns :: ns in w.entries ==> ns in w.firstAt && w.firstAt[ns] <= w.entries[ns].lastAt <= w.now)
  }

  /** A namespace that was let through had, and keeps until its rollback is over, either no
      entry or one whose wait had passed at the check. */
  ghost predicate PendingWaited(w: World)
    requires WellCounted(w.entries)
  {
    forall ns :: ns in w.pending ==> !Blocked(w.entries, ns, w.pending[ns])
  }

  /** The n-th rollback in a row comes at least 2^(n-3) - 1 minutes after the first. */
  ghost predicate SpacedOut(w: World)
    requires Timed(w)
  {
    forall ns :: ns in w.entries && 3 <= w.entries[ns].cnt <= 31 ==>
      w.entries[ns].lastAt - w.firstAt[ns] >= (Pow2(w.entries[ns].cnt - 3) - 1) * MINUTE
  }

  lemma StepKeepsSpacing(w: World, s: Step)
    requires Timed(w) && PendingWaited(w) && SpacedOut(w) && Enabled(w, s)
    ensures Timed(Apply(w, s)) && PendingWaited(Apply(w, s)) && SpacedOut(Apply(w, s))
  {
    hide Backoff, Int64, Pow2;
    if s.Finish? && s.healed && s.ns in w.entries && 3 <= w.entries[s.ns].cnt <= 30 {
      NextBound(w.entries[s.ns].cnt);
    }
    FirstBound();
  }

  /** The bound for one more rollback is the bound so far and the wait. */
  lemma NextBound(cnt: int)
    requires 3 <= cnt <= 30
    ensures (Pow2(cnt - 2) - 1) * MINUTE == (Pow2(cnt - 3) - 1) * MINUTE + Backoff(cnt)
  {
    BackoffExact(cnt);
    assert Pow2(cnt - 2) == 2 * Pow2(cnt - 3);
  }

  lemma FirstBound()
    ensures (Pow2(0) - 1) * MINUTE == 0
  {}

  lemma {:induction false} RunKeepsSpacing(worlds: seq<World>, steps: seq<Step>, n: nat)
    requires IsRun(worlds, steps) && n < |worlds|
    ensures Timed(worlds[n]) && PendingWaited(worlds[n]) && SpacedOut(worlds[n])
  {
    if n > 0 {
      RunKeepsSpacing(worlds, steps, n - 1);
      StepKeepsSpacing(worlds[n - 1], steps[n - 1]);
    }
  }

  /** In any run, n <= 31 rollbacks of a namespace that no sweep interrupts (its count is n)
      take at least 2^(n-3) - 1 minutes. */
  lemma RollbacksAreSpacedOut(worlds: seq<World>, steps: seq<Step>, n: nat, ns: string)
    requires IsRun(worlds, steps) && n < |worlds| && ns in worlds[n].entries
    requires 3 <= worlds[n].entries[ns].cnt <= 31
    ensures ns in worlds[n].firstAt
    ensures worlds[n].entries[ns].lastAt - worlds[n].firstAt[ns]
              >= (Pow2(worlds[n].entries[ns].cnt - 3) - 1) * MINUTE
  {
    RunKeepsSpacing(worlds, steps, n);
  }

  /** The bound stops at 31: after the 31st rollback the overflow lets the 32nd through at
      once, at the very same instant. */
  lemma OverflowUnblocks(entries: Entries, ns: string)
    requires WellCounted(entries) && ns in entries && entries[ns].cnt == 31
    ensures !Blocked(entries, ns, entries[ns].lastAt)
  {
    BackoffWrapsAt31();
  }

  // ----- the bound is reached, and from 32 on it is broken

  /** Nothing pending, and n rollbacks of ns counted, in `span` since the first of them. */
  ghost predicate Counted(w: World, ns: string, n: int, span: int) {
    && w.pending == map[] && ns in w.entries && ns in w.firstAt
    && w.entries[ns] == Entry(n, w.now) && w.now - w.firstAt[ns] == span
  }

  ghost predicate RunWithoutSweep(worlds: seq<World>, steps: seq<Step>) {
    IsRun(worlds, steps) && forall i :: 0 <= i < |steps| ==> !steps[i].Sweep?
  }

  lemma Extend(worlds: seq<World>, steps: seq<Step>, s: Step) returns (longer: seq<World>, more: seq<Step>)
    requires RunWithoutSweep(worlds, steps) && !s.Sweep?
    requires WellCounted(worlds[|worlds| - 1].entries) && Enabled(worlds[|worlds| - 1], s)
    ensures RunWithoutSweep(longer, more) && longer == worlds + [Apply(worlds[|worlds| - 1], s)]
  {
    longer, more := worlds + [Apply(worlds[|worlds| - 1], s)], steps + [s];
  }

  /** One more rollback, at the first moment the guard allows. */
  lemma OneMoreRollback(worlds: seq<World>, steps: seq<Step>, ns: string, n: int, span: int)
    returns (longer: seq<World>, more: seq<Step>)
    requires n >= 1 && worlds != [] && RunWithoutSweep(worlds, steps) && Counted(worlds[|worlds| - 1], ns, n, span)
    requires WellCounted(worlds[|worlds| - 1].entries)
    ensures longer != [] && RunWithoutSweep(longer, more) && WellCounted(longer[|longer| - 1].entries)
    ensures Counted(longer[|longer| - 1], ns, n + 1, span + Wait(n))
  {
    hide RunWithoutSweep, Backoff;
    var at := worlds[|worlds| - 1].now + Wait(n);
    longer, more := Extend(worlds, steps, Check(ns, at));
    longer, more := Extend(longer, more, Finish(ns, at, true));
  }

  /** How long the guard makes the next rollback wait after n. */
  function Wait(n: int): int {
    if n < 3 || Backoff(n) < 0 then 0 else Backoff(n)
  }

  lemma {:induction false} FastestRun(ns: string, n: nat) returns (worlds: seq<World>, steps: seq<Step>, span: int)
    requires n >= 1
    ensures worlds != [] && RunWithoutSweep(worlds, steps) && WellCounted(worlds[|worlds| - 1].entries)
    ensures Counted(worlds[|worlds| - 1], ns, n, span)
    ensures 3 <= n <= 31 ==> span == (Pow2(n - 3) - 1) * MINUTE
    ensures n < 3 ==> span == 0
    ensures n >= 32 ==> span < (Pow2(n - 3) - 1) * MINUTE
  {
    if n == 1 {
      worlds, steps, span := [World(map[], map[], 0, 0, map[])], [], 0;
      worlds, steps := Extend(worlds, steps, Check(ns, 0));
      worlds, steps := Extend(worlds, steps, Finish(ns, 0, true));
    } else {
      hide RunWithoutSweep, WellCounted, Counted;
      worlds, steps, span := FastestRun(ns, n - 1);
      worlds, steps := OneMoreRollback(worlds, steps, ns, n - 1, span);
      span := span + Wait(n - 1);
      WaitIsShort(n - 1);
    }
  }

  lemma WaitIsShort(n: nat)
    ensures n < 3 ==> Wait(n) == 0
    ensures 3 <= n <= 30 ==> Wait(n) == Pow2(n - 3) * MINUTE
    ensures n == 31 ==> Wait(n) == 0
    ensures n >= 31 ==> Wait(n) < Pow2(n - 3) * MINUTE
  {
    if 3 <= n <= 30 {
      BackoffExact(n);
    } else if n == 31 {
      BackoffWrapsAt31();
    } else if n > 31 {
      Pow2Of27();
      Pow2Monotone(28, n - 3);
    }
  }

  /** The bound of RollbacksAreSpacedOut, exactly: n >= 3 rollbacks without a sweep always take
      2^(n-3) - 1 minutes if and only if n <= 31. Up to 31 some run takes no longer than that;
      for every larger n the overflow lets a run be faster. */
  lemma BoundHoldsExactlyUpTo31(ns: string, n: nat) returns (worlds: seq<World>, steps: seq<Step>, span: int)
    requires n >= 3
    ensures worlds != [] && RunWithoutSweep(worlds, steps) && Counted(worlds[|worlds| - 1], ns, n, span)
    ensures n <= 31 <==> span >= (Pow2(n - 3) - 1) * MINUTE
    ensures n <= 31 ==> span == (Pow2(n - 3) - 1) * MINUTE
  {
    worlds, steps, span := FastestRun(ns, n);
  }

  // ----- sweeps at most two hours apart

  ghost predicate SweptOften(worlds: seq<World>) {
    forall i :: 0 <= i < |worlds| ==> worlds[i].now <= worlds[i].lastSweep + 2 * HOUR
  }

  ghost predicate Recent(w: World) {
    forall ns :: ns in w.entries ==> w.entries[ns].lastAt >= w.lastSweep - 2 * HOUR
  }

  ghost predicate Capped(w: World) {
    && (forall ns :: ns in w.entries ==> w.entries[ns].cnt <= 11)
    && (forall ns :: ns in w.entries && ns in w.pending ==> w.entries[ns].cnt <= 10)
  }

  lemma StepKeepsCap(w: World, s: Step)
    requires Timed(w) && PendingWaited(w) && Recent(w) && Capped(w) && Enabled(w, s)
    requires s.Sweep? || s.at <= w.lastSweep + 2 * HOUR
    ensures Recent(Apply(w, s)) && Capped(Apply(w, s))
  {
    if s.Check? && s.ns in w.entries && w.entries[s.ns].cnt == 11 {
      BackoffExact(11);
      Pow2Of27();
    }
  }

  /** If sweeps come at most two hours apart, no count ever passes 11 - so the shift and the
      duration stay far from the int64 limit. */
  lemma {:induction false} CountNeverPasses11(worlds: seq<World>, steps: seq<Step>, n: nat)
    requires IsRun(worlds, steps) && SweptOften(worlds) && n < |worlds|
    ensures Recent(worlds[n]) && Capped(worlds[n])
    ensures forall ns :: ns in worlds[n].entries && worlds[n].entries[ns].cnt >= 3 ==>
                           0 < Backoff(worlds[n].entries[ns].cnt) == Pow2(worlds[n].entries[ns].cnt - 3) * MINUTE
  {
    if n > 0 {
      CountNeverPasses11(worlds, steps, n - 1);
      RunKeepsSpacing(worlds, steps, n - 1);
      StepKeepsCap(worlds[n - 1], steps[n - 1]);
    }
    forall ns | ns in worlds[n].entries && worlds[n].entries[ns].cnt >= 3
      ensures 0 < Backoff(worlds[n].entries[ns].cnt) == Pow2(worlds[n].entries[ns].cnt - 3) * MINUTE
    {
      BackoffExact(worlds[n].entries[ns].cnt);
    }
  }

  ghost predicate SweptRun(worlds: seq<World>, steps: seq<Step>) {
    IsRun(worlds, steps) && SweptOften(worlds) && WellCounted(worlds[|worlds| - 1].entries)
  }

  lemma ExtendSwept(worlds: seq<World>, steps: seq<Step>, s: Step) returns (longer: seq<World>, more: seq<Step>)
    requires SweptRun(worlds, steps) && Enabled(worlds[|worlds| - 1], s)
    requires WellCounted(Apply(worlds[|worlds| - 1], s).entries)
    requires s.Sweep? || s.at <= worlds[|worlds| - 1].lastSweep + 2 * HOUR
    ensures worlds != [] && SweptRun(longer, more) && longer == worlds + [Apply(worlds[|worlds| - 1], s)]
  {
    longer, more := worlds + [Apply(worlds[|worlds| - 1], s)], steps + [s];
  }

  /** Only ns is counted, n times, the last time now. */
  ghost predicate CountedSince(w: World, ns: string, n: int) {
    w.pending == map[] && w.entries == map[ns := Entry(n, w.now)] && w.lastSweep <= w.now
  }

  lemma SweepWhileWaiting(worlds: seq<World>, steps: seq<Step>, ns: string, n: int)
    returns (longer: seq<World>, more: seq<Step>)
    requires n >= 1 && worlds != [] && SweptRun(worlds, steps) && CountedSince(worlds[|worlds| - 1], ns, n)
    requires Wait(n) <= 4 * HOUR
    ensures longer != [] && SweptRun(longer, more)
    ensures var v, t := longer[|longer| - 1], worlds[|worlds| - 1].now;
            && v.pending == map[] && v.entries == map[ns := Entry(n, t)]
            && v.lastSweep <= v.now <= t + Wait(n) <= v.lastSweep + 2 * HOUR
  {
    hide SweptRun, Wait, WellCounted;
    var now := worlds[|worlds| - 1].now;
    WaitIsNatural(n);
    RecentSurvives(ns, n, now, now);
    longer, more := ExtendSwept(worlds, steps, Sweep(now));
    if Wait(n) > 2 * HOUR {
      RecentSurvives(ns, n, now, now + 2 * HOUR);
      longer, more := ExtendSwept(longer, more, Sweep(now + 2 * HOUR));
    }
  }

  lemma WaitIsNatural(n: int)
    ensures Wait(n) >= 0
  {}

  lemma RecentSurvives(ns: string, n: int, at: int, sweep: int)
    requires n >= 1 && sweep <= at + 2 * HOUR
    ensures WellCounted(map[ns := Entry(n, at)])
    ensures Swept(map[ns := Entry(n, at)], sweep) == map[ns := Entry(n, at)]
  {}

  /** A sweep at once, another one if the wait is longer than two hours, and the rollback. */
  lemma OneMoreSwept(worlds: seq<World>, steps: seq<Step>, ns: string, n: int)
    returns (longer: seq<World>, more: seq<Step>)
    requires 1 <= n <= 10 && worlds != [] && SweptRun(worlds, steps) && CountedSince(worlds[|worlds| - 1], ns, n)
    ensures longer != [] && SweptRun(longer, more) && CountedSince(longer[|longer| - 1], ns, n + 1)
  {
    var now := worlds[|worlds| - 1].now;
    WaitIsShort(n);
    assert n >= 3 ==> Wait(n) <= 128 * MINUTE by {
      Pow2Of27();
      if n >= 3 {
        Pow2Monotone(n - 3, 7);
      }
    }
    hide SweptRun, Backoff, Pow2;
    longer, more := SweepWhileWaiting(worlds, steps, ns, n);
    longer, more := ExtendSwept(longer, more, Check(ns, now + Wait(n)));
    longer, more := ExtendSwept(longer, more, Finish(ns, now + Wait(n), true));
  }

  /** And 11 is reached, as every count before it, with sweeps at most two hours apart: the cap
      of CountNeverPasses11 is exact. */
  lemma EveryCountUpTo11IsReached(ns: string, n: nat) returns (worlds: seq<World>, steps: seq<Step>)
    requires 1 <= n <= 11
    ensures IsRun(worlds, steps) && SweptOften(worlds) && worlds != []
    ensures ns in worlds[|worlds| - 1].entries && worlds[|worlds| - 1].entries[ns].cnt == n
  {
    worlds, steps := CountUpTo(ns, n);
  }

  lemma {:induction false} CountUpTo(ns: string, n: nat) returns (worlds: seq<World>, steps: seq<Step>)
    requires 1 <= n <= 11
    ensures worlds != [] && SweptRun(worlds, steps) && CountedSince(worlds[|worlds| - 1], ns, n)
  {
    if n == 1 {
      worlds, steps := [World(map[], map[], 0, 0, map[])], [];
      worlds, steps := ExtendSwept(worlds, steps, Check(ns, 0));
      worlds, steps := ExtendSwept(worlds, steps, Finish(ns, 0, true));
    } else {
      worlds, steps := CountUpTo(ns, n - 1);
      worlds, steps := OneMoreSwept(worlds, steps, ns, n - 1);
    }
  }
}
