/** The published dilation factor over a run, and what it does to a sleep in the kernel. */
module DilationBounds {
  import opened Layout
  import opened Ratios
  import opened Balancing
  import opened BalancingRuns
  import opened Options
  import opened Decimal
  import SleepDilation

  /** A buffer slowed down by at most S whose instrumentation costs at most a factor C. */
  ghost predicate Paced(b: Sample, slow: real, cost: real) {
    && b.genTime as real + b.writeTime as real <= slow * b.genTime as real
    && b.userIns as real <= cost * b.ins as real
  }

  ghost predicate AllPaced(es: seq<Event>, slow: real, cost: real) {
    forall k :: 0 <= k < |es| && es[k].DoWrite? ==> Paced(es[k].b, slow, cost)
  }

  ghost predicate WindowPaced(w: Window, slow: real) {
    0.0 <= w.gen && 0.0 <= w.io && w.gen + w.io <= slow * w.gen
  }

  ghost predicate AccountPaced(a: Account, cost: real) {
    a.userIns as real <= cost * a.appIns as real
  }

  ghost predicate ListenerPaced(l: Listener, slow: real, cost: real) {
    l.Receiving? || Paced(l.b, slow, cost)
  }

  ghost predicate SystemPaced(s: System, slow: real, cost: real) {
    && (forall i :: 0 <= i < |s.shared.win| ==> WindowPaced(s.shared.win[i], slow))
    && (forall i :: 0 <= i < |s.shared.acc| ==> AccountPaced(s.shared.acc[i], cost))
    && (forall i :: 0 <= i < |s.listeners| ==> ListenerPaced(s.listeners[i], slow, cost))
  }

  lemma AddPaced(w: Window, b: Sample, slow: real, cost: real)
    requires WindowPaced(w, slow) && Plausible(b) && Paced(b, slow, cost)
    ensures WindowPaced(AddBuffer(w, b), slow)
  {}

  lemma DecayPaced(w: Window, slow: real)
    requires WindowPaced(w, slow)
    ensures WindowPaced(Decay(w), slow)
  {}

  /** The mediant of the accounts. */
  lemma {:induction false} CostBounded(acc: seq<Account>, cost: real)
    requires forall i :: 0 <= i < |acc| ==> AccountPaced(acc[i], cost)
    ensures UserSum(acc) as real <= cost * AppSum(acc) as real
  {
    if acc == [] {
    } else {
      var n := |acc| - 1;
      CostBounded(acc[..n], cost);
      assert AccountPaced(acc[n], cost);
      var x, y := AppSum(acc[..n]) as real, acc[n].appIns as real;
      assert AppSum(acc) as real == x + y;
      assert UserSum(acc) as real == UserSum(acc[..n]) as real + acc[n].userIns as real;
      assert cost * (x + y) == cost * x + cost * y;
    }
  }

  lemma CostQuotient(acc: seq<Account>, cost: real)
    requires forall i :: 0 <= i < |acc| ==> AccountPaced(acc[i], cost)
    ensures 0 < AppSum(acc) ==> 0.0 <= InstrumentationCost(acc) <= cost
    ensures AppSum(acc) == 0 ==> InstrumentationCost(acc) == 1.0
  {
    CostBounded(acc, cost);
    if 0 < AppSum(acc) {
      DivLe(UserSum(acc) as real, cost, AppSum(acc) as real);
      DivLe(UserSum(acc) as real, 0.0, AppSum(acc) as real);
    }
  }

  lemma SlowdownBounded(win: seq<Window>, slow: real)
    requires 1.0 <= slow && forall i :: 0 <= i < |win| ==> WindowPaced(win[i], slow)
    ensures 1.0 <= SlowdownUpTo(win, |win|) <= slow
  {
    SlowdownIsLargest(win, |win|);
    if SlowdownUpTo(win, |win|) != 1.0 {
      var i :| 0 <= i < |win| && !Idle(win[i]) && 0.0 < win[i].gen && Slowdown(win[i]) == SlowdownUpTo(win, |win|);
      assert WindowPaced(win[i], slow);
      DivLe(win[i].gen + win[i].io, slow, win[i].gen);
    }
  }

  // ---- One tick ----

  /** The factor that a cost and a slowdown call for, in parts per thousand. */
  ghost function Wanted(cost: real, slowdown: real): real {
    cost * slowdown * 1000.0
  }

  /** Before any instruction is accounted the cost counts as 1. */
  ghost function Ceiling(slow: real, cost: real): real {
    Wanted(if cost < 1.0 then 1.0 else cost, slow)
  }

  /** The bound one would expect on the factor. */
  ghost function Expected(slow: real, cost: real): real {
    if Wanted(cost, slow) < 1000.0 then 1000.0 else Wanted(cost, slow)
  }

  /** The instrumentation cost of all threads together: user over application instructions, or 1
      while there are none of the latter. */
  ghost predicate IsCost(acc: seq<Account>, cost: real) {
    if AppSum(acc) == 0 then cost == 1.0 else cost * AppSum(acc) as real == UserSum(acc) as real
  }

  /** A thread that was active in the period and whose buffers took time to generate. */
  ghost predicate Slowed(w: Window) {
    !Idle(w) && 0.0 < w.gen
  }

  lemma WantedMonotone(c: real, d: real, a: real, b: real)
    requires 0.0 <= c <= d && 0.0 <= a <= b
    ensures Wanted(c, a) <= Wanted(d, b)
  {
    MulLe(c, d, a);
    MulLe(a, b, d);
  }

  lemma CostIs(acc: seq<Account>, cost: real)
    requires IsCost(acc, cost)
    ensures InstrumentationCost(acc) == cost && 0.0 <= cost
  {
    hide AppSum, UserSum;
    if 0 < AppSum(acc) {
      DivLe(UserSum(acc) as real, cost, AppSum(acc) as real);
      DivLe(UserSum(acc) as real, 0.0, AppSum(acc) as real);
    }
  }

  lemma FactorRounds(cost: real, slowdown: real, undefined: nat)
    requires 0.0 <= cost && 0.0 <= slowdown && Wanted(cost, slowdown) < UINT_LIMIT as real
    ensures var f := Factor(cost, slowdown, undefined) as real;
            Wanted(cost, slowdown) < f + 1.0 && (f == 1000.0 || f <= Wanted(cost, slowdown))
    ensures 1000 <= Wanted(cost, slowdown).Floor ==>
              Factor(cost, slowdown, undefined) == Wanted(cost, slowdown).Floor
  {}

  lemma SlowdownTimes(cost: real, w: Window, slowdown: real)
    requires 0.0 <= cost && 0.0 < w.gen && Slowdown(w) <= slowdown
    ensures Wanted(cost, Slowdown(w)) <= Wanted(cost, slowdown)
  {
    MulLe(Slowdown(w), slowdown, cost);
  }

  /** The factor is large enough for every thread: up to the rounding it covers the slowdown of
      each active thread times the instrumentation cost; and unless it is 1000 it is no larger than
      that for some active thread, or for no slowdown at all. */
  lemma FactorCoversSlowdown(sh: Shared, undefined: nat, cost: real)
    requires ActiveInitialised(sh) && IsCost(sh.acc, cost)
    requires Wanted(cost, SlowdownUpTo(sh.win, |sh.win|)) < UINT_LIMIT as real
    ensures var f := Tick(sh, undefined).factor as real;
            && (forall i :: 0 <= i < |sh.win| && Slowed(sh.win[i]) ==> Wanted(cost, Slowdown(sh.win[i])) < f + 1.0)
            && (f == 1000.0 || f <= Wanted(cost, 1.0) ||
                exists i :: 0 <= i < |sh.win| && Slowed(sh.win[i]) && f <= Wanted(cost, Slowdown(sh.win[i])))
  {
    var slowdown := SlowdownUpTo(sh.win, |sh.win|);
    SlowdownIsLargest(sh.win, |sh.win|);
    CostIs(sh.acc, cost);
    hide Factor, SlowdownUpTo, Slowdown, InstrumentationCost, AppSum, UserSum, PeakUpTo, DecayAll, Wanted, IsCost;
    FactorRounds(cost, slowdown, undefined);
    forall i | 0 <= i < |sh.win| && Slowed(sh.win[i])
      ensures Wanted(cost, Slowdown(sh.win[i])) <= Wanted(cost, slowdown)
    {
      SlowdownTimes(cost, sh.win[i], slowdown);
    }
  }

  ghost predicate SharedPaced(sh: Shared, slow: real, cost: real) {
    && ActiveInitialised(sh)
    && (forall i :: 0 <= i < |sh.win| ==> WindowPaced(sh.win[i], slow))
    && (forall i :: 0 <= i < |sh.acc| ==> AccountPaced(sh.acc[i], cost))
  }

  /** One tick over paced windows and accounts. The published factor is at most 1000*cost*slow, or
      1000, as soon as some instruction has been accounted; before that, at most 1000*slow. */
  lemma TickFactor(sh: Shared, undefined: nat, slow: real, cost: real)
    requires SharedPaced(sh, slow, cost) && 1.0 <= slow && 0.0 <= cost
    ensures 1000 <= Tick(sh, undefined).factor < UINT_LIMIT
    ensures 0 < AppSum(sh.acc) && Wanted(cost, slow) < UINT_LIMIT as real ==>
              var f := Tick(sh, undefined).factor as real;
              f == 1000.0 || f <= Wanted(cost, slow)
    ensures AppSum(sh.acc) == 0 && Wanted(1.0, slow) < UINT_LIMIT as real ==>
              var f := Tick(sh, undefined).factor as real;
              f == 1000.0 || f <= Wanted(1.0, slow)
  {
    CostQuotient(sh.acc, cost);
    SlowdownBounded(sh.win, slow);
    hide Factor, InstrumentationCost, PeakUpTo, SlowdownUpTo, DecayAll, AppSum, Wanted;
    var c, d := InstrumentationCost(sh.acc), SlowdownUpTo(sh.win, |sh.win|);
    var most := if 0 < AppSum(sh.acc) then cost else 1.0;
    if Wanted(most, slow) < UINT_LIMIT as real {
      WantedMonotone(c, most, d, slow);
      FactorRounds(c, d, undefined);
    }
  }

  lemma CeilingCovers(slow: real, cost: real)
    requires 1.0 <= slow && 0.0 <= cost
    ensures 1000.0 <= Wanted(1.0, slow) <= Ceiling(slow, cost)
    ensures Wanted(cost, slow) <= Ceiling(slow, cost)
    ensures Ceiling(slow, cost) == if cost < 1.0 then Wanted(1.0, slow) else Wanted(cost, slow)
  {
    if cost < 1.0 {
      WantedMonotone(cost, 1.0, slow, slow);
    } else {
      WantedMonotone(1.0, cost, slow, slow);
    }
  }

  // ---- Runs ----

  lemma TickPaced(s: System, u: nat, slow: real, cost: real)
    requires Sound(s) && SystemPaced(s, slow, cost)
    ensures SystemPaced(Next(s, DoTick(u)), slow, cost)
  {
    SoundTick(s);
    hide Factor, SlowdownUpTo, PeakUpTo, InstrumentationCost, Sound, ListenerPaced;
    var win := s.shared.win;
    forall i | 0 <= i < |win| ensures WindowPaced(DecayAll(win)[i], slow) {
      DecayPaced(win[i], slow);
    }
  }

  lemma MeasurePaced(s: System, i: nat, b: Sample, slow: real, cost: real)
    requires Sound(s) && Enabled(s, DoMeasure(i, b)) && SystemPaced(s, slow, cost)
    ensures SystemPaced(Next(s, DoMeasure(i, b)), slow, cost)
  {
    assert ListenerPaced(s.listeners[i], slow, cost) && ListenerSound(s.listeners[i], s.shared.tot, i);
    AddPaced(s.shared.win[i], b, slow, cost);
    hide WindowPaced, Paced;
  }

  lemma AccountsPaced(s: System, i: nat, slow: real, cost: real)
    requires Sound(s) && Enabled(s, DoSettle(i)) && SystemPaced(s, slow, cost)
    ensures SystemPaced(Next(s, DoSettle(i)), slow, cost)
  {}

  lemma OtherPaced(s: System, e: Event, slow: real, cost: real)
    requires Sound(s) && Enabled(s, e) && SystemPaced(s, slow, cost)
    requires !e.DoTick? && !e.DoMeasure? && !e.DoSettle? && (e.DoWrite? ==> Paced(e.b, slow, cost))
    ensures SystemPaced(Next(s, e), slow, cost)
  {
    hide Paced;
    if !e.GrowAccounts? && !e.GrowWindows? && !e.GrowTotals? {
      assert ListenerPaced(s.listeners[e.i], slow, cost) && ListenerSound(s.listeners[e.i], s.shared.tot, e.i);
    }
  }

  lemma StepPaced(s: System, e: Event, slow: real, cost: real)
    requires Sound(s) && Enabled(s, e) && SystemPaced(s, slow, cost)
    requires e.DoWrite? ==> Paced(e.b, slow, cost)
    ensures SystemPaced(Next(s, e), slow, cost)
  {
    hide Paced;
    match e
    case DoTick(u) => TickPaced(s, u, slow, cost);
    case DoMeasure(i, b) => MeasurePaced(s, i, b, slow, cost);
    case DoSettle(i) => AccountsPaced(s, i, slow, cost);
    case _ => OtherPaced(s, e, slow, cost);
  }

  lemma {:induction false} RunPaced(es: seq<Event>, slow: real, cost: real)
    requires Run(START, es).Reached? && AllPaced(es, slow, cost)
    ensures SystemPaced(Run(START, es).state, slow, cost)
  {
    if es == [] {
    } else {
      RunPaced(es[..|es| - 1], slow, cost);
      StepPaced(Run(START, es[..|es| - 1]).state, es[|es| - 1], slow, cost);
    }
  }

  /** The last tick of the run, if there was one, found some instruction accounted. */
  ghost predicate AccountedAtLastTick(es: seq<Event>)
    requires Run(START, es).Reached?
  {
    es == [] ||
    var front := es[..|es| - 1];
    if es[|es| - 1].DoTick? then 0 < AppSum(Run(START, front).state.shared.acc) else AccountedAtLastTick(front)
  }

  lemma OnlyTicksPublish(s: System, e: Event)
    requires Sound(s) && Enabled(s, e) && !e.DoTick?
    ensures Next(s, e).shared.factor == s.shared.factor
  {}

  /** What is known of the factor f of a paced run. */
  ghost predicate FactorWithin(f: nat, accounted: bool, slow: real, cost: real) {
    && 1000 <= f < UINT_LIMIT
    && (Ceiling(slow, cost) < UINT_LIMIT as real ==> f as real <= Ceiling(slow, cost))
    && ((accounted || 1.0 <= cost) && Wanted(cost, slow) < UINT_LIMIT as real ==>
          f == 1000 || f as real <= Wanted(cost, slow))
  }

  lemma TickWithin(sh: Shared, undefined: nat, slow: real, cost: real)
    requires SharedPaced(sh, slow, cost) && 1.0 <= slow && 0.0 <= cost
    ensures FactorWithin(Tick(sh, undefined).factor, 0 < AppSum(sh.acc), slow, cost)
  {
    hide SharedPaced, Tick, Wanted, Ceiling, AppSum;
    CeilingCovers(slow, cost);
    TickFactor(sh, undefined, slow, cost);
  }

  lemma PacedAtTick(s: System, slow: real, cost: real)
    requires Sound(s) && SystemPaced(s, slow, cost)
    ensures SharedPaced(s.shared, slow, cost)
  {
    SoundTick(s);
  }

  lemma TickPublishes(s: System, u: nat)
    requires Sound(s)
    ensures ActiveInitialised(s.shared) && Next(s, DoTick(u)).shared.factor == Tick(s.shared, u).factor
  {
    SoundTick(s);
  }

  /** The factor published after any run of paced buffers is at least 1000 and at most
      1000*max(cost, 1)*slow; and if the last tick found an instruction accounted, or the cost bound
      is at least 1, it is 1000 or at most 1000*cost*slow. */
  lemma {:induction false} FactorInRun(es: seq<Event>, slow: real, cost: real)
    requires Run(START, es).Reached? && AllPaced(es, slow, cost) && 1.0 <= slow && 0.0 <= cost
    ensures var f := Run(START, es).state.shared.factor;
            && 1000 <= f < UINT_LIMIT
            && (Ceiling(slow, cost) < UINT_LIMIT as real ==> f as real <= Ceiling(slow, cost))
            && ((AccountedAtLastTick(es) || 1.0 <= cost) && Wanted(cost, slow) < UINT_LIMIT as real ==>
                  f == 1000 || f as real <= Wanted(cost, slow))
  {
    hide Wanted, Ceiling, Tick, SharedPaced, AppSum;
    if es == [] {
      CeilingCovers(slow, cost);
    } else {
      var front, e := es[..|es| - 1], es[|es| - 1];
      var s := Run(START, front).state;
      if e.DoTick? {
        RunPaced(front, slow, cost);
        PacedAtTick(s, slow, cost);
        TickWithin(s.shared, e.undefined, slow, cost);
        TickPublishes(s, e.undefined);
      } else {
        FactorInRun(front, slow, cost);
        OnlyTicksPublish(s, e);
      }
      hide Sound, Run, Next, Enabled, SystemPaced, AllPaced;
    }
  }

  // ---- Exactly when runs keep the expected bound ----

  /** Thread 0 has measured its first buffer and not accounted it when the tick comes. */
  ghost function EarlyTick(b: Sample, undefined: nat): seq<Event> {
    GROWING + [DoWrite(0, b), DoMeasure(0, b), DoTick(undefined)]
  }

  /** The window of a thread with one buffer. */
  function FirstWindow(b: Sample): Window
    requires Plausible(b)
  {
    Window(1.0, Work(b), 0.0, Work(b), b.writeTime as real, b.genTime as real)
  }

  lemma FirstMeasured(b: Sample) returns (t: System)
    requires Plausible(b)
    ensures Sound(t) && Run(START, GROWING + [DoWrite(0, b), DoMeasure(0, b)]) == Reached(t)
    ensures t.shared.win == [FirstWindow(b), FRESH] && t.shared.acc == [Account(0, 0), Account(0, 0)]
  {
    hide Sound, Work, Plausible;
    t := TwoThreads();
    var es := GROWING;
    es, t := OneStep(START, es, t, DoWrite(0, b));
    es, t := OneStep(START, es, t, DoMeasure(0, b));
    assert es == GROWING + [DoWrite(0, b), DoMeasure(0, b)];
  }

  lemma FirstWindowSlowdown(b: Sample, slowdown: real)
    requires Plausible(b) && 0 < b.genTime && 1.0 <= slowdown
    requires b.genTime as real + b.writeTime as real == slowdown * b.genTime as real
    ensures SlowdownUpTo([FirstWindow(b), FRESH], 2) == slowdown
  {
    hide Work, Plausible;
    var win := [FirstWindow(b), FRESH];
    DivLe(b.genTime as real + b.writeTime as real, slowdown, b.genTime as real);
    assert Slowdown(win[0]) == slowdown;
    assert SlowdownUpTo(win, 0) == 1.0;
    assert SlowdownUpTo(win, 1) == slowdown;
  }

  lemma NothingAccounted()
    ensures AppSum([Account(0, 0), Account(0, 0)]) == 0
  {
    var acc := [Account(0, 0), Account(0, 0)];
    assert AppSum([]) == 0 && acc[..1] == [Account(0, 0)] && acc[..1][..0] == [];
  }

  lemma EarlyTickPublishes(s: System, b: Sample, undefined: nat, slowdown: real)
    requires Sound(s) && Plausible(b) && 0 < b.genTime
    requires s.shared.win == [FirstWindow(b), FRESH] && s.shared.acc == [Account(0, 0), Account(0, 0)]
    requires 1.0 <= slowdown && b.genTime as real + b.writeTime as real == slowdown * b.genTime as real
    requires Wanted(1.0, slowdown) < UINT_LIMIT as real && 1000 <= Wanted(1.0, slowdown).Floor
    ensures Next(s, DoTick(undefined)).shared.factor == Wanted(1.0, slowdown).Floor
  {
    hide Sound, PeakUpTo, SlowdownUpTo, AppSum, Factor, Wanted, FirstWindow, Work, Plausible;
    NothingAccounted();
    FirstWindowSlowdown(b, slowdown);
    TickPublishes(s, undefined);
    FactorRounds(1.0, slowdown, undefined);
  }

  lemma GrowingWrites()
    ensures forall k :: 0 <= k < |GROWING| ==> !GROWING[k].DoWrite?
  {}

  /** Such a run is paced if its one buffer is, and publishes 1000 times the buffer's slowdown. */
  lemma EarlyTickRun(b: Sample, undefined: nat, slowdown: real, slow: real, cost: real)
    requires Plausible(b) && 0 < b.genTime && Paced(b, slow, cost)
    requires 1.0 <= slowdown && b.genTime as real + b.writeTime as real == slowdown * b.genTime as real
    requires Wanted(1.0, slowdown) < UINT_LIMIT as real && 1000 <= Wanted(1.0, slowdown).Floor
    ensures Run(START, EarlyTick(b, undefined)).Reached? && AllPaced(EarlyTick(b, undefined), slow, cost)
    ensures Run(START, EarlyTick(b, undefined)).state.shared.factor == Wanted(1.0, slowdown).Floor
  {
    hide Sound, Next, GROWING, Run, Wanted, Work, Plausible, Paced, FirstWindow;
    var front := GROWING + [DoWrite(0, b), DoMeasure(0, b)];
    var t := FirstMeasured(b);
    EarlyTickPublishes(t, b, undefined, slowdown);
    var es, u := OneStep(START, front, t, DoTick(undefined));
    assert es == EarlyTick(b, undefined);
    GrowingWrites();
  }

  const SLOW_SAMPLE: Sample := Sample(1, 1, 2, 1, 1, 1, 1, 1, 1)

  /** A run from the start whose buffers keep the cost bound 1/2 and the slowdown bound 2, and whose
      tick publishes 2000 although 1000*cost*slow is 1000. */
  lemma FactorBeforeFirstAccount(undefined: nat)
    ensures Run(START, EarlyTick(SLOW_SAMPLE, undefined)).Reached?
    ensures AllPaced(EarlyTick(SLOW_SAMPLE, undefined), 2.0, 0.5)
    ensures Run(START, EarlyTick(SLOW_SAMPLE, undefined)).state.shared.factor == 2000
    ensures Expected(2.0, 0.5) == 1000.0
  {
    hide Run;
    assert Wanted(1.0, 2.0) == 2000.0;
    EarlyTickRun(SLOW_SAMPLE, undefined, 2.0, 2.0, 0.5);
  }

  lemma InverseFloor(cost: real)
    requires 0.0 < cost
    ensures 0 <= (1.0 / cost).Floor && 1.0 <= cost * ((1.0 / cost).Floor + 1) as real
  {
    var q := 1.0 / cost;
    PositiveQuotient(1.0, cost);
    FloorOf(0, q);
    assert q * cost == 1.0;
    MulLe(q, (q.Floor + 1) as real, cost);
  }

  /** A buffer that keeps the bounds, with a slowdown of 1000*slow rounded down over 1000. */
  ghost function Slowest(slow: real, cost: real): Sample
    requires 1.0 <= slow && 0.0 < cost
  {
    FloorOf(1000, 1000.0 * slow);
    InverseFloor(cost);
    Sample(1, 1000, (1.0 / cost).Floor + 1, 1, (1000.0 * slow).Floor - 1000, 1, 1, 1, 1)
  }

  lemma SlowestPaced(slow: real, cost: real)
    requires 1.0 <= slow && 0.0 < cost
    ensures var b := Slowest(slow, cost);
            && Plausible(b) && b.genTime == 1000 && Paced(b, slow, cost)
            && b.genTime as real + b.writeTime as real == (1000.0 * slow).Floor as real
  {
    FloorOf(1000, 1000.0 * slow);
    InverseFloor(cost);
  }

  ghost predicate KeepsExpected(es: seq<Event>, slow: real, cost: real) {
    Run(START, es).Reached? && AllPaced(es, slow, cost) ==>
      Run(START, es).state.shared.factor as real <= Expected(slow, cost)
  }

  /** With a cost bound of 0 no buffer can be written. */
  ghost predicate NothingYet(s: System) {
    && (forall i :: 0 <= i < |s.listeners| ==> s.listeners[i].Receiving?)
    && (forall i :: 0 <= i < |s.shared.win| ==> s.shared.win[i] == FRESH)
    && (forall i :: 0 <= i < |s.shared.acc| ==> s.shared.acc[i] == Account(0, 0))
    && s.shared.factor == 1000
  }

  lemma {:induction false} FreshSlowdown(win: seq<Window>, n: nat)
    requires n <= |win| && forall i :: 0 <= i < |win| ==> win[i] == FRESH
    ensures SlowdownUpTo(win, n) == 1.0
  {
    if n == 0 {
    } else {
      FreshSlowdown(win, n - 1);
    }
  }

  lemma {:induction false} FreshAccounts(acc: seq<Account>)
    requires forall i :: 0 <= i < |acc| ==> acc[i] == Account(0, 0)
    ensures AppSum(acc) == 0
  {
    if acc == [] {
    } else {
      FreshAccounts(acc[..|acc| - 1]);
    }
  }

  lemma OneThousand()
    ensures Wanted(1.0, 1.0) == 1000.0
  {}

  lemma NothingStep(s: System, e: Event)
    requires Sound(s) && Enabled(s, e) && NothingYet(s) && !e.DoWrite?
    ensures NothingYet(Next(s, e))
  {
    hide Sound, SlowdownUpTo, PeakUpTo, AppSum, Factor, Wanted;
    if e.DoTick? {
      FreshSlowdown(s.shared.win, |s.shared.win|);
      FreshAccounts(s.shared.acc);
      assert Wanted(1.0, 1.0) == 1000.0 by { OneThousand(); }
      FactorRounds(1.0, 1.0, e.undefined);
      TickPublishes(s, e.undefined);
    }
  }

  lemma NothingAtStart()
    ensures NothingYet(START)
  {}

  /** A buffer with user instructions costs something. */
  lemma NeverWritten(s: System, e: Event, slow: real)
    requires Enabled(s, e) && (e.DoWrite? ==> Paced(e.b, slow, 0.0))
    ensures !e.DoWrite?
  {}

  lemma {:induction false} NothingRun(es: seq<Event>, slow: real)
    requires Run(START, es).Reached? && AllPaced(es, slow, 0.0)
    ensures NothingYet(Run(START, es).state)
  {
    hide NothingYet, Next, Paced;
    if es == [] {
      NothingAtStart();
    } else {
      var front, e := es[..|es| - 1], es[|es| - 1];
      NothingRun(front, slow);
      NeverWritten(Run(START, front).state, e, slow);
      NothingStep(Run(START, front).state, e);
    }
  }

  lemma RunKeeps(es: seq<Event>, slow: real, cost: real)
    requires Run(START, es).Reached? && AllPaced(es, slow, cost)
    requires 1.0 <= slow && 0.0 <= cost && Ceiling(slow, cost) < UINT_LIMIT as real
    requires 1.0 <= cost || cost == 0.0 || Wanted(1.0, slow).Floor as real <= Expected(slow, cost)
    ensures Run(START, es).state.shared.factor as real <= Expected(slow, cost)
  {
    hide Run, AllPaced, Wanted, Ceiling;
    CeilingCovers(slow, cost);
    FactorInRun(es, slow, cost);
    if cost == 0.0 {
      NothingRun(es, slow);
    } else if cost < 1.0 {
      FloorOf(Run(START, es).state.shared.factor, Wanted(1.0, slow));
    }
  }

  lemma RunExceeds(slow: real, cost: real)
    requires 1.0 <= slow && 0.0 < cost < 1.0 && Wanted(1.0, slow) < UINT_LIMIT as real
    requires Expected(slow, cost) < Wanted(1.0, slow).Floor as real
    ensures var es := EarlyTick(Slowest(slow, cost), 0);
            && Run(START, es).Reached? && AllPaced(es, slow, cost)
            && Expected(slow, cost) < Run(START, es).state.shared.factor as real
  {
    hide Run, AllPaced, Paced, Plausible, Work;
    SlowestPaced(slow, cost);
    var n := (1000.0 * slow).Floor;
    var slowdown := n as real / 1000.0;
    assert Wanted(1.0, slowdown) == n as real;
    EarlyTickRun(Slowest(slow, cost), 0, slowdown, slow, cost);
  }

  /** Every run of paced buffers keeps the expected bound max(1000, 1000*cost*slow) if and only if the
      cost bound is at least 1, or it is 0, so that no buffer is paced at all, or the rounded slowdown
      bound alone stays within the expected bound. */
  lemma RunsKeepExpected(slow: real, cost: real)
    requires 1.0 <= slow && 0.0 <= cost && Ceiling(slow, cost) < UINT_LIMIT as real
    ensures (1.0 <= cost || cost == 0.0 || Wanted(1.0, slow).Floor as real <= Expected(slow, cost)) <==>
            forall es :: KeepsExpected(es, slow, cost)
  {
    hide Run, AllPaced, Wanted, Ceiling, Expected;
    if 1.0 <= cost || cost == 0.0 || Wanted(1.0, slow).Floor as real <= Expected(slow, cost) {
      forall es ensures KeepsExpected(es, slow, cost) {
        if Run(START, es).Reached? && AllPaced(es, slow, cost) { RunKeeps(es, slow, cost); }
      }
    } else {
      CeilingCovers(slow, cost);
      RunExceeds(slow, cost);
      assert !KeepsExpected(EarlyTick(Slowest(slow, cost), 0), slow, cost);
    }
  }

  // ---- The kernel's side ----

  /** A sleep of t stretched by a factor of `top` parts per thousand. */
  ghost function Longest(t: nat, top: real): real {
    t as real * top / 1000.0
  }

  lemma ScaledBelow(t: nat, f: nat, top: real)
    requires f as real <= top
    ensures SleepDilation.Scaled(t, f) as real <= Longest(t, top)
  {}

  lemma KernelSide(f: nat, t: nat, top: real, targetPid: int, tgid: int)
    requires 1000 <= f < UINT_LIMIT && f as real <= top
    requires Longest(t, top) < SleepDilation.LONG_LIMIT as real
    ensures SleepDilation.KStrToUInt(Print(f) + "\n") == Some(f)
    ensures SleepDilation.Nanosleep(t, targetPid, tgid, f) ==
            if SleepDilation.Targeted(targetPid, tgid) then SleepDilation.Scaled(t, f) else t
    ensures SleepDilation.ScheduleTimeout(t, true, f) ==
            if t == SleepDilation.MAX_SCHEDULE_TIMEOUT then t else SleepDilation.Scaled(t, f)
    ensures t <= SleepDilation.Scaled(t, f) && SleepDilation.Scaled(t, f) as real <= Longest(t, top)
  {
    SleepDilation.StoredAsPublished(f);
    ScaledBelow(t, f, top);
    SleepDilation.ScaledLonger(t, f);
    hide SleepDilation.Scaled, SleepDilation.Nanosleep, SleepDilation.ScheduleTimeout, SleepDilation.KStrToUInt;
    SleepDilation.SleepsAreScaled(t, t, f, targetPid, tgid);
  }

  /** From the buffers to the kernel: if every buffer's slowdown is at most `slow` and its
      instrumentation cost at most `cost`, then after any run the sysfs line carries the published
      factor f unchanged, and a sleep of t that is dilated, through either handler and in any
      process the filter lets through, becomes the floor of t*f/1000. That is no shorter than t and
      no longer than t*max(cost,1)*slow, and if the last tick found an instruction accounted it is
      t or at most t*cost*slow. */
  lemma SleepScalingEndToEnd(es: seq<Event>, slow: real, cost: real, t: nat, targetPid: int, tgid: int)
    requires Run(START, es).Reached? && AllPaced(es, slow, cost)
    requires 1.0 <= slow && 0.0 <= cost && Ceiling(slow, cost) < UINT_LIMIT as real
    requires Longest(t, Ceiling(slow, cost)) < SleepDilation.LONG_LIMIT as real
    ensures var f := Run(START, es).state.shared.factor;
            var slept := SleepDilation.Scaled(t, f);
            && SleepDilation.KStrToUInt(Print(f) + "\n") == Some(f)
            && SleepDilation.Nanosleep(t, targetPid, tgid, f) ==
               (if SleepDilation.Targeted(targetPid, tgid) then slept else t)
            && SleepDilation.ScheduleTimeout(t, true, f) ==
               (if t == SleepDilation.MAX_SCHEDULE_TIMEOUT then t else slept)
            && t <= slept && slept as real <= Longest(t, Ceiling(slow, cost))
            && (AccountedAtLastTick(es) || 1.0 <= cost ==>
                  slept == t || slept as real <= Longest(t, Wanted(cost, slow)))
  {
    FactorInRun(es, slow, cost);
    CeilingCovers(slow, cost);
    hide Ceiling, Wanted, AllPaced, Sound, Run, Longest, SystemPaced, AccountedAtLastTick;
    var f := Run(START, es).state.shared.factor;
    KernelSide(f, t, Ceiling(slow, cost), targetPid, tgid);
    if f == 1000 {
      SleepDilation.ScaledIdentity(t);
    } else if AccountedAtLastTick(es) || 1.0 <= cost {
      ScaledBelow(t, f, Wanted(cost, slow));
    }
  }
}
