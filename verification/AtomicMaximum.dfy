/** Between two control ticks the double-checked update of the maximum behaves like an atomic
    "take the larger", although each listener first compares with a snapshot that other
    listeners may have outdated. */
module AtomicMaximum {
  import opened Ratios
  import opened Balancing
  import opened BalancingRuns

  ghost predicate NoTick(es: seq<Event>) {
    forall k :: 0 <= k < |es| ==> !es[k].DoTick?
  }

  /** Listener i took its snapshot during these events. */
  ghost predicate SnapshotTaken(es: seq<Event>, i: nat) {
    exists k :: 0 <= k < |es| && es[k].DoMeasure? && es[k].i == i
  }

  /** Ratios that wait for the lock, with the threads that offer them. */
  ghost function PendingOffers(s: System): set<(real, int)> {
    set i | 0 <= i < |s.listeners| && s.listeners[i].Raising? :: (s.listeners[i].offer, i)
  }

  ghost function Peak(s: System): (real, int) {
    (s.shared.maxRatio, s.shared.owner)
  }

  ghost function NewOffers(t: System, e: Event, before: seq<Event>): set<(real, int)>
    requires Enabled(t, e)
  {
    match e
    case Decide(i) =>
      var l := t.listeners[i];
      if !Skip(l.ratio, l.fcalls) && (SnapshotTaken(before, i) || l.ratio.value > l.snap)
      then {(l.ratio.value, i)} else {}
    case _ => {}
  }

  /** The ratios put forward from s on: those already waiting for the lock, and those of the
      buffers that are not skipped. A listener whose snapshot is older than s counts only if
      its ratio exceeded that snapshot, since otherwise it does not come forward. */
  ghost function Offers(s: System, es: seq<Event>): set<(real, int)>
    requires Sound(s)
  {
    if es == [] then PendingOffers(s)
    else
      var front := es[..|es| - 1];
      Offers(s, front) +
      if Run(s, front).Reached? && Enabled(Run(s, front).state, es[|es| - 1])
      then NewOffers(Run(s, front).state, es[|es| - 1], front) else {}
  }

  ghost predicate SnapshotsCurrent(t: System, es: seq<Event>) {
    forall i :: 0 <= i < |t.listeners| && SnapshotTaken(es, i) ==>
      (t.listeners[i].Measured? ==> t.listeners[i].snap <= t.shared.maxRatio) &&
      (t.listeners[i].Counted? ==> t.listeners[i].snap <= t.shared.maxRatio)
  }

  /** The maximum has grown only to offered values, and every offer is covered by the maximum or
      still waiting for the lock. */
  ghost predicate Consistent(base: (real, int), t: System, es: seq<Event>, offers: set<(real, int)>) {
    && base.0 <= t.shared.maxRatio
    && (Peak(t) == base || Peak(t) in offers)
    && PendingOffers(t) <= offers
    && (forall o :: o in offers ==> o.0 <= t.shared.maxRatio || o in PendingOffers(t))
    && SnapshotsCurrent(t, es)
  }

  lemma SnapshotTakenSnoc(es: seq<Event>, e: Event, i: nat)
    ensures SnapshotTaken(es + [e], i) <==> SnapshotTaken(es, i) || (e.DoMeasure? && e.i == i)
  {
    var fs := es + [e];
    if SnapshotTaken(es, i) {
      var k :| 0 <= k < |es| && es[k].DoMeasure? && es[k].i == i;
      assert fs[k] == es[k];
    }
    if e.DoMeasure? && e.i == i { assert fs[|es|] == e; }
  }

  /** A step of listener i to l, with the rest of the listeners in place. */
  lemma PendingAfterMove(t: System, i: nat, sh: Shared, l: Listener)
    requires i < |t.listeners|
    ensures l.Raising? ==> (l.offer, i as int) in PendingOffers(Move(t, i, sh, l))
    ensures PendingOffers(Move(t, i, sh, l)) <= PendingOffers(t) + (if l.Raising? then {(l.offer, i as int)} else {})
    ensures forall o :: o in PendingOffers(t) && o.1 != i ==> o in PendingOffers(Move(t, i, sh, l))
    ensures !l.Raising? ==> forall o :: o in PendingOffers(Move(t, i, sh, l)) ==> o.1 != i
  {
    var m := Move(t, i, sh, l);
    if l.Raising? { assert m.listeners[i].Raising?; }
    forall o | o in PendingOffers(t) && o.1 != i ensures o in PendingOffers(m) {
      var j :| 0 <= j < |t.listeners| && t.listeners[j].Raising? && (t.listeners[j].offer, j) == o;
      assert m.listeners[j] == t.listeners[j];
    }
  }

  /** A thread waits for the lock with at most one offer. */
  lemma PendingOf(t: System, i: nat)
    requires i < |t.listeners|
    ensures forall o :: o in PendingOffers(t) && o.1 == i ==> t.listeners[i].Raising? && o.0 == t.listeners[i].offer
  {}

  lemma RaiseConsistent(base: (real, int), t: System, es: seq<Event>, i: nat, offers: set<(real, int)>)
    requires Sound(t) && Enabled(t, DoRaise(i)) && Consistent(base, t, es, offers)
    ensures Consistent(base, Next(t, DoRaise(i)), es + [DoRaise(i)], offers)
  {
    var l := t.listeners[i];
    var m := Next(t, DoRaise(i));
    PendingOf(t, i);
    assert (l.offer, i as int) in PendingOffers(t);
    PendingAfterMove(t, i, m.shared, m.listeners[i]);
    forall j: nat ensures SnapshotTaken(es + [DoRaise(i)], j) <==> SnapshotTaken(es, j) {
      SnapshotTakenSnoc(es, DoRaise(i), j);
    }
  }

  lemma DecideConsistent(base: (real, int), t: System, es: seq<Event>, i: nat, offers: set<(real, int)>)
    requires Sound(t) && Enabled(t, Decide(i)) && Consistent(base, t, es, offers)
    ensures Consistent(base, Next(t, Decide(i)), es + [Decide(i)], offers + NewOffers(t, Decide(i), es))
  {
    var m := Next(t, Decide(i));
    PendingAfterMove(t, i, m.shared, m.listeners[i]);
    forall j: nat ensures SnapshotTaken(es + [Decide(i)], j) <==> SnapshotTaken(es, j) {
      SnapshotTakenSnoc(es, Decide(i), j);
    }
  }

  lemma GrowConsistent(base: (real, int), t: System, es: seq<Event>, e: Event, offers: set<(real, int)>)
    requires Sound(t) && Enabled(t, e) && Consistent(base, t, es, offers)
    requires e.GrowAccounts? || e.GrowWindows? || e.GrowTotals?
    ensures Consistent(base, Next(t, e), es + [e], offers)
  {
    var m := Next(t, e);
    assert PendingOffers(m) == PendingOffers(t) by {
      forall o | o in PendingOffers(t) ensures o in PendingOffers(m) {
        var j :| 0 <= j < |t.listeners| && t.listeners[j].Raising? && (t.listeners[j].offer, j) == o;
        assert m.listeners[j] == t.listeners[j];
      }
    }
    forall j: nat ensures SnapshotTaken(es + [e], j) <==> SnapshotTaken(es, j) {
      SnapshotTakenSnoc(es, e, j);
    }
  }

  /** The steps of listener i that neither offer a ratio nor touch the maximum. */
  lemma LocalConsistent(base: (real, int), t: System, es: seq<Event>, e: Event, i: nat, offers: set<(real, int)>)
    requires Sound(t) && Enabled(t, e) && Consistent(base, t, es, offers)
    requires e == Bypass(i) || e == DoCount(i) || e == Compare(i) || e == DoInject(i) || e == DoSettle(i) ||
             (e.DoWrite? && e.i == i) || (e.DoMeasure? && e.i == i)
    ensures Consistent(base, Next(t, e), es + [e], offers)
  {
    var m := Next(t, e);
    assert m == Move(t, i, m.shared, m.listeners[i]);
    PendingAfterMove(t, i, m.shared, m.listeners[i]);
    forall j: nat ensures SnapshotTaken(es + [e], j) <==> SnapshotTaken(es, j) || (e.DoMeasure? && e.i == j) {
      SnapshotTakenSnoc(es, e, j);
    }
  }

  lemma StepConsistent(base: (real, int), t: System, es: seq<Event>, e: Event, offers: set<(real, int)>)
    requires Sound(t) && Enabled(t, e) && !e.DoTick? && Consistent(base, t, es, offers)
    ensures Consistent(base, Next(t, e), es + [e], offers + NewOffers(t, e, es))
  {
    assert !e.Decide? ==> offers + NewOffers(t, e, es) == offers;
    match e
    case DoRaise(i) => RaiseConsistent(base, t, es, i, offers);
    case Decide(i) => DecideConsistent(base, t, es, i, offers);
    case GrowAccounts => GrowConsistent(base, t, es, e, offers);
    case GrowWindows => GrowConsistent(base, t, es, e, offers);
    case GrowTotals => GrowConsistent(base, t, es, e, offers);
    case DoWrite(i, b) => LocalConsistent(base, t, es, e, i, offers);
    case Bypass(i) => LocalConsistent(base, t, es, e, i, offers);
    case DoMeasure(i, b) => LocalConsistent(base, t, es, e, i, offers);
    case DoCount(i) => LocalConsistent(base, t, es, e, i, offers);
    case Compare(i) => LocalConsistent(base, t, es, e, i, offers);
    case DoInject(i) => LocalConsistent(base, t, es, e, i, offers);
    case DoSettle(i) => LocalConsistent(base, t, es, e, i, offers);
  }

  lemma StartConsistent(s: System)
    ensures Consistent(Peak(s), s, [], PendingOffers(s))
  {}

  lemma {:induction false} SegmentConsistent(s: System, es: seq<Event>)
    requires Sound(s) && Run(s, es).Reached? && NoTick(es)
    ensures Consistent(Peak(s), Run(s, es).state, es, Offers(s, es))
  {
    hide Sound, Consistent, PendingOffers, NewOffers, Next, Enabled;
    if es == [] {
      StartConsistent(s);
    } else {
      var front, e := es[..|es| - 1], es[|es| - 1];
      SegmentConsistent(s, front);
      assert front + [e] == es;
      StepConsistent(Peak(s), Run(s, front).state, front, e, Offers(s, front));
    }
  }

  /** From any sound state s, over any events without a tick: the maximum never falls, maximum and
      owner are those in s or some thread's offer, and once no update is pending the maximum is exactly
      the larger of its value in s and all offers. */
  lemma MaximumIsAtomic(s: System, es: seq<Event>)
    requires Sound(s) && Run(s, es).Reached? && NoTick(es)
    ensures var t := Run(s, es).state;
            && s.shared.maxRatio <= t.shared.maxRatio
            && ((t.shared.maxRatio, t.shared.owner) == (s.shared.maxRatio, s.shared.owner) ||
                (t.shared.maxRatio, t.shared.owner) in Offers(s, es))
            && (PendingOffers(t) == {} ==> forall o :: o in Offers(s, es) ==> o.0 <= t.shared.maxRatio)
  {
    hide Sound, Run, Offers, PendingOffers;
    SegmentConsistent(s, es);
  }

  /** Why an older snapshot only counts if it is exceeded: a listener whose snapshot predates a
      tick that lowered the maximum may hold a larger ratio and still not raise it. */
  lemma StaleSnapshotHidesRatio(s: System, i: nat)
    requires Sound(s) && i < |s.listeners| && s.listeners[i].Counted?
    requires !Skip(s.listeners[i].ratio, s.listeners[i].fcalls)
    requires s.shared.maxRatio < s.listeners[i].ratio.value
    ensures Run(s, [Decide(i)]).Reached?
    ensures var t := Run(s, [Decide(i)]).state;
            (t.listeners[i].Raising? <==> s.listeners[i].snap < s.listeners[i].ratio.value) &&
            (!t.listeners[i].Raising? ==> t.listeners[i].Comparing? && t.shared.maxRatio < t.listeners[i].offer)
  {}

  // ---- A run in which that happens ----

  /** All counters moved by one, so the work is the number of instructions. */
  function Small(ins: nat): Sample { Sample(1, 0, ins, 1, 0, 1, 1, 1, 1) }

  const RAISING: seq<Event> := [DoWrite(0, Small(1)), DoMeasure(0, Small(1)), DoCount(0), Decide(0), DoRaise(0)]

  const HIDING: seq<Event> := [DoWrite(1, Small(2)), DoMeasure(1, Small(2)), DoCount(1), DoTick(0), DoTick(0)]

  lemma SmallWork()
    ensures Plausible(Small(1)) && Plausible(Small(2)) && Work(Small(1)) == 1.0 && Work(Small(2)) == 2.0
  {}

  lemma FirstWrites() returns (t: System)
    ensures Sound(t) && Run(START, GROWING + RAISING[..1]) == Reached(t)
    ensures t.shared.win == [FRESH, FRESH] && t.shared.maxRatio == 0.0 && t.shared.owner == -1
    ensures t.shared.tot == [Totals(0, 1, 0, 1, 0.0), NO_TOTALS]
    ensures t.listeners == [Written(Small(1)), Receiving]
  {
    hide Sound, Work;
    SmallWork();
    t := TwoThreads();
    var es := GROWING;
    es, t := OneStep(START, es, t, DoWrite(0, Small(1)));
    assert es == GROWING + RAISING[..1];
  }

  lemma FirstMeasures() returns (t: System)
    ensures Sound(t) && Run(START, GROWING + RAISING[..3]) == Reached(t) && |t.listeners| == 2
    ensures t.shared.win == [Window(1.0, 1.0, 0.0, 1.0, 0.0, 0.0), FRESH]
    ensures t.shared.maxRatio == 0.0
    ensures |t.shared.tot| == 2 && t.shared.tot[0].fcalls == 1 && t.shared.tot[1] == NO_TOTALS
    ensures t.listeners[0] == Counted(Small(1), Finite(1.0), 0.0, -1, 1) && t.listeners[1].Receiving?
  {
    hide Sound, Work, GROWING, Run;
    SmallWork();
    t := FirstWrites();
    var es := GROWING + RAISING[..1];
    es, t := OneStep(START, es, t, DoMeasure(0, Small(1)));
    es, t := OneStep(START, es, t, DoCount(0));
    assert es == GROWING + RAISING[..3];
  }

  /** Thread 0 sets the maximum to 1. */
  lemma FirstRaises() returns (t: System)
    ensures Sound(t) && Run(START, GROWING + RAISING) == Reached(t) && |t.listeners| == 2
    ensures t.shared.win == [Window(1.0, 1.0, 0.0, 1.0, 0.0, 0.0), FRESH]
    ensures t.shared.maxRatio == 1.0 && t.shared.owner == 0
    ensures |t.shared.tot| == 2 && t.shared.tot[1] == NO_TOTALS
    ensures t.listeners[0].Comparing? && t.listeners[1].Receiving?
  {
    hide Sound, Work, GROWING, Run;
    t := FirstMeasures();
    var es := GROWING + RAISING[..3];
    es, t := OneStep(START, es, t, Decide(0));
    es, t := OneStep(START, es, t, DoRaise(0));
    assert es == GROWING + RAISING;
  }

  /** Thread 1 takes its snapshot 1 with a ratio of one half; then thread 0 is idle for a whole
      control period and the maximum drops to 0. */
  lemma SecondMeasures() returns (t: System)
    ensures Sound(t) && Run(START, GROWING + RAISING + HIDING[..3]) == Reached(t) && |t.listeners| == 2
    ensures t.shared.win == [Window(1.0, 1.0, 0.0, 1.0, 0.0, 0.0), Window(1.0, 2.0, 0.0, 2.0, 0.0, 0.0)]
    ensures |t.shared.tot| == 2 && t.listeners[0].Comparing?
    ensures t.listeners[1] == Counted(Small(2), Finite(0.5), 1.0, 0, 1)
  {
    hide Sound, Work, GROWING, RAISING, Run;
    SmallWork();
    t := FirstRaises();
    var es := GROWING + RAISING;
    es, t := OneStep(START, es, t, DoWrite(1, Small(2)));
    es, t := OneStep(START, es, t, DoMeasure(1, Small(2)));
    es, t := OneStep(START, es, t, DoCount(1));
    assert es == GROWING + RAISING + HIDING[..3];
  }

  lemma TickOver(es: seq<Event>, s: System) returns (t: System)
    requires Sound(s) && Run(START, es) == Reached(s)
    ensures Sound(t) && Run(START, es + [DoTick(0)]) == Reached(t)
    ensures t.listeners == s.listeners && t.shared.win == DecayAll(s.shared.win) && t.shared.tot == s.shared.tot
    ensures (forall i :: 0 <= i < |s.shared.win| ==> Idle(s.shared.win[i])) ==> t.shared.maxRatio == 0.0
  {
    var fs;
    SoundTick(s);
    fs, t := OneStep(START, es, s, DoTick(0));
    PeakIsLargest(s.shared, |s.shared.win|);
  }

  /** After a tick in which thread 0 was active and one in which no thread was. */
  lemma TwoTicks() returns (t: System)
    ensures Sound(t) && Run(START, GROWING + RAISING + HIDING) == Reached(t) && |t.listeners| == 2
    ensures t.shared.maxRatio == 0.0
    ensures t.listeners[0].Comparing? && t.listeners[1] == Counted(Small(2), Finite(0.5), 1.0, 0, 1)
  {
    hide Sound, PeakUpTo, Next, GROWING, RAISING;
    var front := GROWING + RAISING;
    t := SecondMeasures();
    t := TickOver(front + HIDING[..3], t);
    assert t.shared.win == [Window(0.25, 0.25, 0.25, 1.0, 0.0, 0.0), Window(0.25, 0.5, 0.5, 2.0, 0.0, 0.0)];
    t := TickOver(front + HIDING[..3] + [DoTick(0)], t);
    assert front + HIDING[..3] + [DoTick(0)] + [DoTick(0)] == front + HIDING;
  }

  lemma DecisionHides(s: System)
    requires Sound(s) && |s.listeners| == 2 && s.listeners[0].Comparing?
    requires s.listeners[1] == Counted(Small(2), Finite(0.5), 1.0, 0, 1)
    ensures Run(s, [Decide(1)]).Reached?
    ensures var t := Run(s, [Decide(1)]).state;
            t.shared == s.shared && PendingOffers(t) == {}
  {
    hide Sound;
    RunExtends(s, [], Decide(1));
    assert [] + [Decide(1)] == [Decide(1)];
    assert Run(s, [Decide(1)]) == Reached(Move(s, 1, s.shared, Decision(s.listeners[1])));
  }

  /** The consumer can reach a state in which the maximum is 0 and a listener that is not skipped
      holds the ratio one half, and yet its decision leaves the maximum at 0 with nothing pending. */
  lemma RatioHidden()
    ensures var es := GROWING + RAISING + HIDING;
            && Run(START, es).Reached?
            && var s := Run(START, es).state;
            && s.shared.maxRatio == 0.0
            && 1 < |s.listeners| && s.listeners[1].Counted? && s.listeners[1].ratio == Finite(0.5)
            && !Skip(s.listeners[1].ratio, s.listeners[1].fcalls)
            && Run(s, [Decide(1)]).Reached?
            && var t := Run(s, [Decide(1)]).state;
            && t.shared.maxRatio == 0.0 && PendingOffers(t) == {}
  {
    hide Run, GROWING, RAISING, HIDING, PendingOffers, Next, Sound;
    var s := TwoTicks();
    DecisionHides(s);
  }
}
