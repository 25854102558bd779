/** Bounds that survive every interleaving of listeners and control ticks: if the work per
    buffer of each thread stays in a band, so does its windowed ratio, and the delay injected
    into a thread is bounded by the bands alone. */
module DelayBounds {
  import opened Ratios
  import opened Balancing
  import opened BalancingRuns

  /** Thread i's buffers carry work between lo(i) and hi(i). */
  ghost predicate WorkWithin(e: Event, lo: nat -> real, hi: nat -> real) {
    e.DoMeasure? && Plausible(e.b) ==> lo(e.i) <= Work(e.b) <= hi(e.i)
  }

  ghost predicate AllWorkWithin(es: seq<Event>, lo: nat -> real, hi: nat -> real) {
    forall k :: 0 <= k < |es| ==> WorkWithin(es[k], lo, hi)
  }

  ghost predicate InBand(w: Window, lo: real, hi: real) {
    lo * w.buffers <= w.work <= hi * w.buffers
  }

  /** The locals of a listener respect its own band [lo, hi], and the maximum it carries
      respects the least work per buffer of any thread. */
  ghost predicate LocalsBounded(l: Listener, lo: real, hi: real, least: real) {
    match l
    case Receiving => true
    case Written(_) => true
    case Measured(_, r, p, _) => r.Finite? && Within(r.value, lo, hi) && least * p <= 1.0
    case Counted(_, r, p, _, _) => r.Finite? && Within(r.value, lo, hi) && least * p <= 1.0
    case Raising(_, r) => Within(r, lo, hi)
    case Comparing(_, r, p, _) => Within(r, lo, hi) && least * p <= 1.0
    case Injecting(_, x, _) => least * (x + 1.0) <= hi
    case Settling(_) => true
  }

  ghost predicate Bounded(s: System, lo: nat -> real, hi: nat -> real, least: real) {
    && least * s.shared.maxRatio <= 1.0
    && (forall i :: 0 <= i < |s.shared.win| ==> InBand(s.shared.win[i], lo(i), hi(i)))
    && (forall i :: 0 <= i < |s.listeners| ==> LocalsBounded(s.listeners[i], lo(i), hi(i), least))
  }

  lemma RatioBelow(r: real, lo: real, hi: real, least: real)
    requires 0.0 <= r && least <= lo && Within(r, lo, hi)
    ensures least * r <= 1.0
  {}

  /** The gap between a bounded maximum and a thread's own ratio. */
  lemma ExtraBounded(peak: real, r: real, lo: real, hi: real, least: real)
    requires 0.0 < r && 0.0 <= peak && 0.0 < least && Within(r, lo, hi) && least * peak <= 1.0
    ensures least * (ExtraBuffers(peak, r) + 1.0) <= hi
  {}

  /** A step of thread i that keeps its window in band and its locals bounded. */
  lemma MoveBounded(s: System, i: nat, sh: Shared, l: Listener, lo: nat -> real, hi: nat -> real, least: real)
    requires Bounded(s, lo, hi, least) && i < |s.listeners| && |sh.win| == |s.shared.win|
    requires least * sh.maxRatio <= 1.0
    requires forall j :: 0 <= j < |sh.win| && j != i ==> sh.win[j] == s.shared.win[j]
    requires i < |sh.win| ==> InBand(sh.win[i], lo(i), hi(i))
    requires LocalsBounded(l, lo(i), hi(i), least)
    ensures Bounded(Move(s, i, sh, l), lo, hi, least)
  {}

  /** A buffer in the band keeps the window in the band, and so the ratio taken from it. */
  lemma MeasuredInBand(w: Window, x: Sample, lo: real, hi: real)
    requires WindowSound(w) && InBand(w, lo, hi) && Plausible(x) && lo <= Work(x) <= hi
    ensures InBand(AddBuffer(w, x), lo, hi)
    ensures WindowRatio(AddBuffer(w, x)).Finite? && Within(WindowRatio(AddBuffer(w, x)).value, lo, hi)
  {
    var v := AddBuffer(w, x);
    BandAdds(w.buffers, w.work, lo, hi, Work(x));
    QuotientWithin(v.buffers, v.work, lo, hi);
  }

  lemma WrittenIsPlausible(s: System, i: nat)
    requires Sound(s) && i < |s.listeners| && s.listeners[i].Written?
    ensures Plausible(s.listeners[i].b)
  {
    assert ListenerSound(s.listeners[i], s.shared.tot, i);
  }

  lemma MeasureBounded(s: System, i: nat, b: Sample, lo: nat -> real, hi: nat -> real, least: real)
    requires Sound(s) && Bounded(s, lo, hi, least) && Enabled(s, DoMeasure(i, b))
    requires WorkWithin(DoMeasure(i, b), lo, hi)
    ensures Bounded(Next(s, DoMeasure(i, b)), lo, hi, least)
  {
    hide ListenerSound, WindowSound, InBand, Within, Work, Plausible;
    WrittenIsPlausible(s, i);
    var w := s.shared.win[i];
    assert InBand(w, lo(i), hi(i)) && WindowSound(w);
    MeasuredInBand(w, b, lo(i), hi(i));
    var sh := Measure(s.shared, i, b);
    MoveBounded(s, i, sh, Measured(b, WindowRatio(sh.win[i]), sh.maxRatio, sh.owner), lo, hi, least);
  }

  lemma DecayInBand(w: Window, lo: real, hi: real)
    requires InBand(w, lo, hi)
    ensures InBand(Decay(w), lo, hi)
  {}

  lemma DecayAllInBand(win: seq<Window>, lo: nat -> real, hi: nat -> real)
    requires forall i :: 0 <= i < |win| ==> InBand(win[i], lo(i), hi(i))
    ensures |DecayAll(win)| == |win|
    ensures forall i :: 0 <= i < |win| ==> InBand(DecayAll(win)[i], lo(i), hi(i))
  {}

  lemma RatioOfWindowBelow(w: Window, lo: real, hi: real, least: real)
    requires InBand(w, lo, hi) && 0.0 < w.work && 0.0 < w.buffers && least <= lo
    ensures least * WindowRatio(w).value <= 1.0
  {}

  /** The maximum a tick installs is the ratio of some window in its band. */
  lemma PeakBounded(sh: Shared, lo: nat -> real, hi: nat -> real, least: real)
    requires ActiveInitialised(sh)
    requires forall i :: 0 <= i < |sh.win| ==> WindowSound(sh.win[i]) && InBand(sh.win[i], lo(i), hi(i))
    requires forall i: nat :: least <= lo(i)
    ensures least * PeakUpTo(sh, |sh.win|).0 <= 1.0
  {
    hide PeakUpTo, InBand;
    PeakIsLargest(sh, |sh.win|);
    var o := PeakUpTo(sh, |sh.win|).1;
    if 0.0 < PeakUpTo(sh, |sh.win|).0 {
      assert Eligible(sh, o) && WindowSound(sh.win[o]);
      RatioOfWindowBelow(sh.win[o], lo(o), hi(o), least);
    }
  }

  lemma TickBounded(s: System, u: nat, lo: nat -> real, hi: nat -> real, least: real)
    requires Sound(s) && Bounded(s, lo, hi, least)
    requires forall i: nat :: least <= lo(i)
    ensures Bounded(Next(s, DoTick(u)), lo, hi, least)
  {
    hide InBand, WindowSound, LocalsBounded, ListenerSound, ActiveInitialised, PeakUpTo, SlowdownUpTo, DecayAll;
    hide Factor, InstrumentationCost;
    SoundTick(s);
    PeakBounded(s.shared, lo, hi, least);
    DecayAllInBand(s.shared.win, lo, hi);
  }

  lemma RaiseBounded(s: System, i: nat, lo: nat -> real, hi: nat -> real, least: real)
    requires Sound(s) && Bounded(s, lo, hi, least) && Enabled(s, DoRaise(i))
    requires least <= lo(i)
    ensures Bounded(Next(s, DoRaise(i)), lo, hi, least)
  {
    var l := s.listeners[i];
    assert LocalsBounded(l, lo(i), hi(i), least) && ListenerSound(l, s.shared.tot, i);
    RatioBelow(l.offer, lo(i), hi(i), least);
    hide InBand, Sound;
    var sh := Raise(s.shared, i, l.offer);
    MoveBounded(s, i, sh, Comparing(l.b, l.offer, sh.maxRatio, sh.owner), lo, hi, least);
  }

  lemma CompareBounded(s: System, i: nat, lo: nat -> real, hi: nat -> real, least: real)
    requires Sound(s) && Bounded(s, lo, hi, least) && Enabled(s, Compare(i))
    requires 0.0 < least
    ensures Bounded(Next(s, Compare(i)), lo, hi, least)
  {
    var l := s.listeners[i];
    assert LocalsBounded(l, lo(i), hi(i), least) && ListenerSound(l, s.shared.tot, i);
    ExtraBounded(l.peak, l.offer, lo(i), hi(i), least);
    MoveBounded(s, i, s.shared, Comparison(l), lo, hi, least);
  }

  /** The steps that leave windows and the maximum alone. */
  lemma LocalBounded(s: System, e: Event, i: nat, lo: nat -> real, hi: nat -> real, least: real)
    requires Sound(s) && Enabled(s, e) && Bounded(s, lo, hi, least)
    requires e == Bypass(i) || e == DoCount(i) || e == Decide(i) || e == DoInject(i) || e == DoSettle(i) ||
             (e.DoWrite? && e.i == i)
    ensures Bounded(Next(s, e), lo, hi, least)
  {
    hide WindowSound, ListenerSound, InBand, Within, Work, Plausible;
    assert LocalsBounded(s.listeners[i], lo(i), hi(i), least);
    assert InBand(s.shared.win[i], lo(i), hi(i));
    var m := Next(s, e);
    MoveBounded(s, i, m.shared, m.listeners[i], lo, hi, least);
  }

  lemma StepBounded(s: System, e: Event, lo: nat -> real, hi: nat -> real, least: real)
    requires Sound(s) && Enabled(s, e) && Bounded(s, lo, hi, least) && WorkWithin(e, lo, hi)
    requires 0.0 < least && forall i: nat :: least <= lo(i)
    ensures Bounded(Next(s, e), lo, hi, least)
  {
    match e
    case DoMeasure(i, b) => MeasureBounded(s, i, b, lo, hi, least);
    case DoTick(u) => TickBounded(s, u, lo, hi, least);
    case DoRaise(i) => RaiseBounded(s, i, lo, hi, least);
    case Compare(i) => CompareBounded(s, i, lo, hi, least);
    case GrowAccounts =>
    case GrowWindows =>
    case GrowTotals =>
    case DoWrite(i, b) => LocalBounded(s, e, i, lo, hi, least);
    case Bypass(i) => LocalBounded(s, e, i, lo, hi, least);
    case DoCount(i) => LocalBounded(s, e, i, lo, hi, least);
    case Decide(i) => LocalBounded(s, e, i, lo, hi, least);
    case DoInject(i) => LocalBounded(s, e, i, lo, hi, least);
    case DoSettle(i) => LocalBounded(s, e, i, lo, hi, least);
  }

  lemma {:induction false} RunBounded(s: System, es: seq<Event>, lo: nat -> real, hi: nat -> real, least: real)
    requires Sound(s) && Bounded(s, lo, hi, least) && Run(s, es).Reached? && AllWorkWithin(es, lo, hi)
    requires 0.0 < least && forall i: nat :: least <= lo(i)
    ensures Bounded(Run(s, es).state, lo, hi, least)
  {
    hide Sound, Bounded, Next, Enabled;
    if es == [] {
    } else {
      RunBounded(s, es[..|es| - 1], lo, hi, least);
      StepBounded(Run(s, es[..|es| - 1]).state, es[|es| - 1], lo, hi, least);
    }
  }

  lemma StartBounded(lo: nat -> real, hi: nat -> real, least: real)
    ensures Bounded(START, lo, hi, least)
  {}

  /** Whatever mix of buffers, decays, idle resets and stale snapshots a run consists of, each
      window stays in its thread's band and no delay injected into thread i exceeds
      hi(i) / least - 1 buffers, where `least` is at most the least work per buffer of any thread. */
  lemma DelayIsBounded(es: seq<Event>, lo: nat -> real, hi: nat -> real, least: real)
    requires Run(START, es).Reached? && AllWorkWithin(es, lo, hi)
    requires 0.0 < least && forall i: nat :: least <= lo(i)
    ensures var s := Run(START, es).state;
            && (forall i :: 0 <= i < |s.shared.win| ==>
                  lo(i) * s.shared.win[i].buffers <= s.shared.win[i].work <= hi(i) * s.shared.win[i].buffers)
            && (forall i :: 0 <= i < |s.listeners| && s.listeners[i].Injecting? ==>
                  INJECT_THRESHOLD < s.listeners[i].extra <= hi(i) / least - 1.0)
  {
    StartBounded(lo, hi, least);
    RunBounded(START, es, lo, hi, least);
    var s := Run(START, es).state;
    forall i | 0 <= i < |s.shared.win|
      ensures lo(i) * s.shared.win[i].buffers <= s.shared.win[i].work <= hi(i) * s.shared.win[i].buffers
    {
      assert InBand(s.shared.win[i], lo(i), hi(i));
    }
    forall i | 0 <= i < |s.listeners| && s.listeners[i].Injecting?
      ensures INJECT_THRESHOLD < s.listeners[i].extra <= hi(i) / least - 1.0
    {
      assert LocalsBounded(s.listeners[i], lo(i), hi(i), least);
      assert ListenerSound(s.listeners[i], s.shared.tot, i);
      DivLe(hi(i), s.listeners[i].extra + 1.0, least);
    }
  }

  lemma MeasuredRatio(s: System, i: nat)
    requires Sound(s) && i < |s.listeners| && s.listeners[i].Measured?
    ensures i < |s.shared.win| && i < |s.shared.tot| && Run(s, []) == Reached(s)
    ensures s.listeners[i].ratio.Finite? && 0.0 < s.listeners[i].ratio.value
  {
    assert ListenerSound(s.listeners[i], s.shared.tot, i);
  }

  lemma CountAndDecide(s: System, i: nat) returns (es: seq<Event>, t: System)
    requires Sound(s) && i < |s.listeners| && s.listeners[i].Measured? && i < |s.shared.tot|
    requires s.listeners[i].ratio.Finite? && Run(s, []) == Reached(s)
    ensures es == [DoCount(i), Decide(i)] && Sound(t) && Run(s, es) == Reached(t) && |t.listeners| == |s.listeners|
    ensures t.shared == s.shared.(tot := t.shared.tot)
    ensures var l := s.listeners[i];
            var fcalls, r := s.shared.tot[i].fcalls + l.b.fcalls, l.ratio.value;
            t.listeners[i] == if fcalls == 0 then Settling(l.b)
                              else if l.snap < r then Raising(l.b, r) else Comparing(l.b, r, l.snap, l.snapOwner)
  {
    hide Sound, Run, ListenerSound;
    es, t := OneStep(s, [], s, DoCount(i));
    es, t := OneStep(s, es, t, Decide(i));
  }

  /** The steps by which a listener, undisturbed, goes from its window to its delay. */
  ghost function DelaySteps(i: nat, fcalls: nat, offers: bool): seq<Event> {
    if fcalls == 0 then [DoCount(i), Decide(i)]
    else if offers then [DoCount(i), Decide(i), DoRaise(i), Compare(i)]
    else [DoCount(i), Decide(i), Compare(i)]
  }

  /** Undisturbed, a thread is delayed exactly if it has made a call and the peak exceeds 1.25 times its
      ratio, and the delay brings it up to that peak. The peak is the snapshot or, if the ratio is
      above that, the larger of the ratio and the maximum of now, and its owner comes with it. */
  lemma DelayDecided(s: System, i: nat)
    requires Sound(s) && i < |s.listeners| && s.listeners[i].Measured?
    ensures var l := s.listeners[i];
            var fcalls, r, max := s.shared.tot[i].fcalls + l.b.fcalls, l.ratio.value, s.shared.maxRatio;
            var offers := l.snap < r;
            var peak := if !offers then l.snap else if max < r then r else max;
            var owner := if !offers then l.snapOwner else if max < r then i else s.shared.owner;
            && Run(s, DelaySteps(i, fcalls, offers)).Reached?
            && var t := Run(s, DelaySteps(i, fcalls, offers)).state.listeners[i];
            if 0 < fcalls && 1.25 * r < peak
            then t.Injecting? && t == Injecting(l.b, t.extra, owner) && r * (1.0 + t.extra) == peak
            else t == Settling(l.b)
  {
    hide Sound, Run, ListenerSound;
    MeasuredRatio(s, i);
    var l := s.listeners[i];
    var fcalls, r := s.shared.tot[i].fcalls + l.b.fcalls, l.ratio.value;
    var es, t := CountAndDecide(s, i);
    if 0 < fcalls {
      if l.snap < r {
        es, t := OneStep(s, es, t, DoRaise(i));
      }
      Quarter(r, t.listeners[i].peak);
      es, t := OneStep(s, es, t, Compare(i));
    }
    assert es == DelaySteps(i, fcalls, l.snap < r);
  }
}
