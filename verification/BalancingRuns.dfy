/** The consumer as a state machine: one listener per traced thread, the main thread that grows
    the vectors, and the control thread. One step is one lock region, so a listener's snapshot
    of the maximum can be out of date by the time the listener uses it. Line numbers are those of
    src/consumer/consumer.cpp. */
module BalancingRuns {
  import opened Layout
  import opened Ratios
  import opened Balancing

  /** Where a listener stands between two of its lock regions, with the locals it carries. */
  datatype Listener =
    | Receiving
    | Written(b: Sample)
    | Measured(b: Sample, ratio: Ratio, snap: real, snapOwner: int)
    | Counted(b: Sample, ratio: Ratio, snap: real, snapOwner: int, fcalls: nat)
    | Raising(b: Sample, offer: real)
    | Comparing(b: Sample, offer: real, peak: real, peakOwner: int)
    | Injecting(b: Sample, extra: real, delayOwner: int)
    | Settling(b: Sample)

  /** How far the main thread is in InitThreadData for the next thread. */
  datatype Growth = Complete | AccountsGrown | WindowsGrown

  datatype System = System(shared: Shared, listeners: seq<Listener>, growth: Growth)

  datatype Event =
    | GrowAccounts | GrowWindows | GrowTotals
    | DoWrite(i: nat, b: Sample)
    | Bypass(i: nat)
    | DoMeasure(i: nat, b: Sample)
    | DoCount(i: nat)
    | Decide(i: nat)
    | DoRaise(i: nat)
    | Compare(i: nat)
    | DoInject(i: nat)
    | DoSettle(i: nat)
    | DoTick(undefined: nat)

  const START: System := System(Shared([], [], [], 0.0, -1, 0.0, 1000), [], Complete)

  ghost predicate Enabled(s: System, e: Event) {
    match e
    case GrowAccounts => s.growth.Complete?
    case GrowWindows => s.growth.AccountsGrown?
    case GrowTotals => s.growth.WindowsGrown?
    case DoWrite(i, b) => i < |s.listeners| && s.listeners[i].Receiving? && Plausible(b)
    case Bypass(i) => i < |s.listeners| && s.listeners[i].Written? && |s.shared.win| <= 1
    case DoMeasure(i, b) => i < |s.listeners| && s.listeners[i] == Written(b) && 1 < |s.shared.win|
    case DoCount(i) => i < |s.listeners| && s.listeners[i].Measured?
    case Decide(i) => i < |s.listeners| && s.listeners[i].Counted?
    case DoRaise(i) => i < |s.listeners| && s.listeners[i].Raising?
    case Compare(i) => i < |s.listeners| && s.listeners[i].Comparing?
    case DoInject(i) => i < |s.listeners| && s.listeners[i].Injecting?
    case DoSettle(i) => i < |s.listeners| && s.listeners[i].Settling?
    case DoTick(u) => true
  }

  /** Lines 639-643: after the skip test, compare the ratio with the snapshot. */
  function Decision(l: Listener): Listener
    requires l.Counted?
  {
    if Skip(l.ratio, l.fcalls) then Settling(l.b)
    else if l.ratio.value > l.snap then Raising(l.b, l.ratio.value)
    else Comparing(l.b, l.ratio.value, l.snap, l.snapOwner)
  }

  /** Lines 661-672: inject only if the gap is worth more than a quarter of a buffer. */
  function Comparison(l: Listener): Listener
    requires l.Comparing? && 0.0 < l.offer
  {
    if l.peak > l.offer && ExtraBuffers(l.peak, l.offer) > INJECT_THRESHOLD
    then Injecting(l.b, ExtraBuffers(l.peak, l.offer), l.peakOwner)
    else Settling(l.b)
  }

  function Move(s: System, i: nat, shared: Shared, l: Listener): System
    requires i < |s.listeners|
  {
    s.(shared := shared, listeners := s.listeners[i := l])
  }

  /** Thread o has written bytes, so a bandwidth can be computed from its totals. */
  ghost predicate Backed(tot: seq<Totals>, o: int) {
    0 <= o < |tot| && 0 < tot[o].written
  }

  ghost predicate WindowSound(w: Window) {
    && 0.0 <= w.lastWork <= w.work
    && (0.0 < w.work <==> 0.0 < w.buffers)
    && 0.0 <= w.buffers && 0.0 <= w.totalWork
  }

  ghost predicate ListenerSound(l: Listener, tot: seq<Totals>, i: nat)
    requires i < |tot|
  {
    match l
    case Receiving => true
    case Written(b) => Plausible(b) && 0 < tot[i].written
    case Measured(b, r, p, o) =>
      && Plausible(b) && 0 < tot[i].written && r.Finite? && 0.0 < r.value
      && 0.0 <= p && (0.0 < p ==> Backed(tot, o))
    case Counted(b, r, p, o, c) =>
      && Plausible(b) && 0 < tot[i].written && r.Finite? && 0.0 < r.value
      && 0.0 <= p && (0.0 < p ==> Backed(tot, o))
    case Raising(b, r) => Plausible(b) && 0 < tot[i].written && 0.0 < r
    case Comparing(b, r, p, o) =>
      Plausible(b) && 0 < tot[i].written && 0.0 < r <= p && Backed(tot, o)
    case Injecting(b, x, o) =>
      Plausible(b) && 0 < tot[i].written && INJECT_THRESHOLD < x && Backed(tot, o)
    case Settling(b) => Plausible(b) && 0 < tot[i].written
  }

  ghost predicate SizesSound(s: System) {
    var n := |s.listeners|;
    && |s.shared.tot| == n
    && |s.shared.acc| == (if s.growth.Complete? then n else n + 1)
    && |s.shared.win| == (if s.growth.WindowsGrown? then n + 1 else n)
  }

  /** What every reachable state satisfies. A window that is not untouched belongs to a thread
      whose three vector groups are all in place and that has written something. */
  ghost predicate Sound(s: System) {
    && SizesSound(s)
    && 0.0 <= s.shared.maxRatio
    && (0.0 < s.shared.maxRatio ==> Backed(s.shared.tot, s.shared.owner))
    && (forall i :: 0 <= i < |s.shared.win| ==> WindowSound(s.shared.win[i]))
    && (forall i :: 0 <= i < |s.shared.win| && 0.0 < s.shared.win[i].work ==> Backed(s.shared.tot, i))
    && (forall i :: 0 <= i < |s.listeners| ==> ListenerSound(s.listeners[i], s.shared.tot, i))
    && 1000 <= s.shared.factor < UINT_LIMIT
  }

  ghost function Next(s: System, e: Event): System
    requires Sound(s) && Enabled(s, e)
  {
    var sh := s.shared;
    match e
    case GrowAccounts => s.(shared := sh.(acc := sh.acc + [Account(0, 0)]), growth := AccountsGrown)
    case GrowWindows => s.(shared := sh.(win := sh.win + [FRESH]), growth := WindowsGrown)
    case GrowTotals =>
      System(sh.(tot := sh.tot + [NO_TOTALS]), s.listeners + [Receiving], Complete)
    case DoWrite(i, b) => Move(s, i, RecordWrite(sh, i, b), Written(b))
    case Bypass(i) => Move(s, i, sh, Settling(s.listeners[i].b))
    case DoMeasure(i, b) =>
      var sh' := Measure(sh, i, b);
      Move(s, i, sh', Measured(b, WindowRatio(sh'.win[i]), sh'.maxRatio, sh'.owner))
    case DoCount(i) =>
      var l := s.listeners[i];
      var sh' := Count(sh, i, l.b);
      Move(s, i, sh', Counted(l.b, l.ratio, l.snap, l.snapOwner, sh'.tot[i].fcalls))
    case Decide(i) => Move(s, i, sh, Decision(s.listeners[i]))
    case DoRaise(i) =>
      var l := s.listeners[i];
      var sh' := Raise(sh, i, l.offer);
      Move(s, i, sh', Comparing(l.b, l.offer, sh'.maxRatio, sh'.owner))
    case Compare(i) => Move(s, i, sh, Comparison(s.listeners[i]))
    case DoInject(i) =>
      Move(s, i, Inject(sh, i, s.listeners[i].extra), Settling(s.listeners[i].b))
    case DoSettle(i) => Move(s, i, Settle(sh, i, s.listeners[i].b), Receiving)
    case DoTick(u) => s.(shared := Tick(sh, u))
  }

  lemma SoundTick(s: System)
    requires Sound(s)
    ensures ActiveInitialised(s.shared)
  {}

  /** Totals only grow, so whatever was backed or sound for a listener stays so. */
  ghost predicate TotalsGrow(a: seq<Totals>, b: seq<Totals>) {
    |a| <= |b| && forall i :: 0 <= i < |a| ==> a[i].written <= b[i].written
  }

  /** A step of thread i that replaces its window, totals, account and position, and perhaps
      installs a backed maximum. */
  lemma MoveSound(s: System, i: nat, sh: Shared, l: Listener)
    requires Sound(s) && i < |s.listeners|
    requires |sh.win| == |s.shared.win| && |sh.tot| == |s.shared.tot| && |sh.acc| == |s.shared.acc|
    requires sh.factor == s.shared.factor
    requires TotalsGrow(s.shared.tot, sh.tot)
    requires 0.0 <= sh.maxRatio && (0.0 < sh.maxRatio ==> Backed(sh.tot, sh.owner))
    requires forall j :: 0 <= j < |sh.win| && j != i ==> sh.win[j] == s.shared.win[j]
    requires WindowSound(sh.win[i]) && (0.0 < sh.win[i].work ==> Backed(sh.tot, i))
    requires ListenerSound(l, sh.tot, i)
    ensures Sound(Move(s, i, sh, l))
  {}

  lemma GrowSound(s: System, e: Event)
    requires Sound(s) && Enabled(s, e) && (e.GrowAccounts? || e.GrowWindows? || e.GrowTotals?)
    ensures Sound(Next(s, e))
  {}

  lemma MeasureSound(s: System, i: nat, b: Sample)
    requires Sound(s) && Enabled(s, DoMeasure(i, b))
    ensures Sound(Next(s, DoMeasure(i, b)))
  {}

  lemma RaiseSound(s: System, i: nat)
    requires Sound(s) && Enabled(s, DoRaise(i))
    ensures Sound(Next(s, DoRaise(i)))
  {}

  lemma TickSound(s: System, u: nat)
    requires Sound(s)
    ensures Sound(Next(s, DoTick(u)))
  {
    SoundTick(s);
    var n := |s.shared.win|;
    PeakIsLargest(s.shared, n);
    var m := Next(s, DoTick(u));
    forall i | 0 <= i < n
      ensures WindowSound(m.shared.win[i]) && (0.0 < m.shared.win[i].work ==> Backed(s.shared.tot, i))
    {
      assert WindowSound(s.shared.win[i]);
    }
    if 0.0 < m.shared.maxRatio {
      var o := m.shared.owner;
      assert Eligible(s.shared, o) && WindowSound(s.shared.win[o]);
      assert Backed(s.shared.tot, o);
    }
  }

  /** The steps that leave windows and the maximum alone. */
  lemma LocalSound(s: System, e: Event, i: nat)
    requires Sound(s) && Enabled(s, e)
    requires e == Bypass(i) || e == DoCount(i) || e == Decide(i) || e == Compare(i) || e == DoInject(i) ||
             e == DoSettle(i)
    ensures Sound(Next(s, e))
  {
    assert ListenerSound(s.listeners[i], s.shared.tot, i);
    assert WindowSound(s.shared.win[i]);
    var m := Next(s, e);
    MoveSound(s, i, m.shared, m.listeners[i]);
  }

  /** Every step keeps the state sound, whichever thread takes it. */
  lemma StepSound(s: System, e: Event)
    requires Sound(s) && Enabled(s, e)
    ensures Sound(Next(s, e))
  {
    match e
    case GrowAccounts => GrowSound(s, e);
    case GrowWindows => GrowSound(s, e);
    case GrowTotals => GrowSound(s, e);
    case DoMeasure(i, b) => MeasureSound(s, i, b);
    case DoRaise(i) => RaiseSound(s, i);
    case DoTick(u) => TickSound(s, u);
    case DoWrite(i, b) => MoveSound(s, i, RecordWrite(s.shared, i, b), Written(b));
    case Bypass(i) => LocalSound(s, e, i);
    case DoCount(i) => LocalSound(s, e, i);
    case Decide(i) => LocalSound(s, e, i);
    case Compare(i) => LocalSound(s, e, i);
    case DoInject(i) => LocalSound(s, e, i);
    case DoSettle(i) => LocalSound(s, e, i);
  }

  // ---- Runs ----

  datatype Outcome = Stuck | Reached(state: System)

  /** The state after taking the events in order from s, if each of them can be taken. */
  ghost function Run(s: System, es: seq<Event>): (r: Outcome)
    requires Sound(s)
    ensures r.Reached? ==> Sound(r.state)
  {
    if es == [] then Reached(s)
    else
      var r := Run(s, es[..|es| - 1]);
      var e := es[|es| - 1];
      if r.Reached? && Enabled(r.state, e) then
        StepSound(r.state, e);
        Reached(Next(r.state, e))
      else Stuck
  }

  lemma RunExtends(s: System, es: seq<Event>, e: Event)
    requires Sound(s) && Run(s, es).Reached? && Enabled(Run(s, es).state, e)
    ensures Run(s, es + [e]) == Reached(Next(Run(s, es).state, e))
  {
    assert (es + [e])[..|es|] == es;
  }

  /** The run es from s to t, one step further. */
  lemma OneStep(s: System, es: seq<Event>, t: System, e: Event) returns (fs: seq<Event>, u: System)
    requires Sound(s) && Sound(t) && Run(s, es) == Reached(t) && Enabled(t, e)
    ensures Sound(u) && u == Next(t, e) && fs == es + [e] && Run(s, fs) == Reached(u)
  {
    RunExtends(s, es, e);
    fs, u := es + [e], Next(t, e);
  }

  /** The main thread adds two threads. */
  const GROWING: seq<Event> := [GrowAccounts, GrowWindows, GrowTotals, GrowAccounts, GrowWindows, GrowTotals]

  lemma TwoThreads() returns (t: System)
    ensures Sound(t) && Run(START, GROWING) == Reached(t)
    ensures t == System(Shared([FRESH, FRESH], [NO_TOTALS, NO_TOTALS], [Account(0, 0), Account(0, 0)],
                               0.0, -1, 0.0, 1000),
                        [Receiving, Receiving], Complete)
  {
    hide Sound;
    var es;
    es, t := OneStep(START, [], START, GrowAccounts);
    es, t := OneStep(START, es, t, GrowWindows);
    es, t := OneStep(START, es, t, GrowTotals);
    es, t := OneStep(START, es, t, GrowAccounts);
    es, t := OneStep(START, es, t, GrowWindows);
    es, t := OneStep(START, es, t, GrowTotals);
    assert es == GROWING;
  }

  /** In every state of every run of the consumer, a positive maximum has an owner with a
      positive byte count, so does the owner handed to WriteDummy, and every thread whose
      total_fcalls the tick reads has its totals in place. */
  lemma OwnerAndIndexSafety(es: seq<Event>)
    requires Run(START, es).Reached?
    ensures var s := Run(START, es).state;
            && (0.0 < s.shared.maxRatio ==> Backed(s.shared.tot, s.shared.owner))
            && (forall i :: 0 <= i < |s.listeners| && s.listeners[i].Injecting? ==>
                  Backed(s.shared.tot, s.listeners[i].delayOwner) && Backed(s.shared.tot, i))
            && (forall i :: 0 <= i < |s.shared.win| && !Idle(s.shared.win[i]) ==> i < |s.shared.tot|)
  {}
}
