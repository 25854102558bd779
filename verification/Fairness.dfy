/** Fairness of the injected delay over a run: real plus dummy buffers per unit of work. */
module Fairness {
  import opened Ratios
  import opened Balancing
  import opened BalancingRuns
  import opened DelayBounds

  /** What a stretch assumes of thread i: work per buffer in [lo, hi], every buffer measured and
      not skipped, and every maximum it compares with in [m1, m2]. */
  datatype Terms = Terms(i: nat, lo: real, hi: real, m1: real, m2: real)

  ghost predicate Meets(t: System, e: Event, p: Terms)
    requires Enabled(t, e)
  {
    && e != Bypass(p.i)
    && (e.DoMeasure? && e.i == p.i && Plausible(e.b) ==> p.lo <= Work(e.b) <= p.hi)
    && (e == Decide(p.i) ==> !Skip(t.listeners[p.i].ratio, t.listeners[p.i].fcalls))
    && (e == Compare(p.i) ==> p.m1 <= t.listeners[p.i].peak <= p.m2)
  }

  ghost predicate Stretch(s: System, es: seq<Event>, p: Terms)
    requires Sound(s) && Run(s, es).Reached?
  {
    es == [] ||
    (Stretch(s, es[..|es| - 1], p) && Meets(Run(s, es[..|es| - 1]).state, es[|es| - 1], p))
  }

  /** Bounds on the rate, up to the factor of the unused quarter: x = m1*lo and y = m2*hi. */
  ghost predicate Caps(p: Terms, x: real, y: real) {
    x == p.m1 * p.lo && y == p.m2 * p.hi
  }

  ghost predicate TermsSound(p: Terms) {
    0.0 < p.lo <= p.hi && 0.0 <= p.m1 <= p.m2
  }

  /** Thread i is between two buffers and its window respects its band. */
  ghost predicate AtRest(s: System, p: Terms) {
    p.i < |s.listeners| && p.i < |s.shared.win| && p.i < |s.shared.tot| &&
    s.listeners[p.i].Receiving? && InBand(s.shared.win[p.i], p.lo, p.hi)
  }

  /** Real and dummy buffers and work of thread i between two states. */
  ghost function RealBuffers(s: System, t: System, i: nat): real
    requires i < |s.shared.tot| && i < |t.shared.tot|
  {
    (t.shared.tot[i].processed - s.shared.tot[i].processed) as real
  }

  ghost function DummyBuffers(s: System, t: System, i: nat): real
    requires i < |s.shared.tot| && i < |t.shared.tot|
  {
    t.shared.tot[i].dummy - s.shared.tot[i].dummy
  }

  ghost function WorkBetween(s: System, t: System, i: nat): real
    requires i < |s.shared.win| && i < |t.shared.win|
  {
    t.shared.win[i].totalWork - s.shared.win[i].totalWork
  }

  // ---- Bookkeeping of one thread along the stretch ----

  /** Buffers written but not measured, measured but not compared, and delay not yet recorded. */
  function Unmeasured(l: Listener): real { if l.Written? then 1.0 else 0.0 }

  function Uncompared(l: Listener): real {
    if l.Measured? || l.Counted? || l.Raising? || l.Comparing? then 1.0 else 0.0
  }

  function Unrecorded(l: Listener): real { if l.Injecting? then l.extra else 0.0 }

  /** Thread i's own share of a state. */
  datatype Share = Share(processed: real, dummy: real, w: Window, l: Listener)

  ghost function ShareOf(t: System, i: nat): Share
    requires i < |t.listeners| && i < |t.shared.win| && i < |t.shared.tot|
  {
    Share(t.shared.tot[i].processed as real, t.shared.tot[i].dummy, t.shared.win[i], t.listeners[i])
  }

  ghost predicate LocalsInBand(l: Listener, lo: real, hi: real) {
    match l
    case Measured(_, r, _, _) => r.Finite? && Within(r.value, lo, hi)
    case Counted(_, r, _, _, _) => r.Finite? && Within(r.value, lo, hi)
    case Raising(_, r) => Within(r, lo, hi)
    case Comparing(_, r, _, _) => Within(r, lo, hi)
    case _ => true
  }

  /** n buffers brought `gained` work. */
  ghost predicate Earned(n: real, gained: real, lo: real, hi: real) {
    lo * n <= gained <= hi * n
  }

  /** n compared buffers cost `total` real and dummy buffers, each between x/1.25 and y. */
  ghost predicate Paid(n: real, total: real, x: real, y: real) {
    n * x <= 1.25 * total && total <= n * y
  }

  /** Since share a, `measured` buffers entered the window and `compared` of them were compared
      with the maximum. */
  ghost predicate Ledger(a: Share, b: Share, lo: real, hi: real, x: real, y: real, measured: real, compared: real) {
    && LocalsInBand(b.l, lo, hi) && InBand(b.w, lo, hi)
    && b.processed - a.processed == measured + Unmeasured(b.l)
    && measured == compared + Uncompared(b.l)
    && Earned(measured, b.w.totalWork - a.w.totalWork, lo, hi)
    && Paid(compared, compared + (b.dummy - a.dummy) + Unrecorded(b.l), x, y)
  }

  /** One buffer and its delay: at least the ratio to the maximum less a quarter of a buffer, at
      most all of it. */
  lemma OneComparison(r: real, peak: real, lo: real, hi: real, m1: real, m2: real)
    requires 0.0 < lo <= hi && 0.0 < r <= peak && Within(r, lo, hi) && m1 <= peak <= m2
    ensures 1.0 <= peak / r <= m2 * hi
    ensures m1 * lo <= peak / r
  {}

  lemma OneMore(n: real, more: real, x: real, y: real, total: real, newTotal: real)
    requires Paid(n, total, x, y) && x <= 1.25 * (newTotal - total) && newTotal - total <= y && more == n + 1.0
    ensures Paid(more, newTotal, x, y)
  {}

  lemma ComparisonCost(l: Listener, lo: real, hi: real, m1: real, m2: real)
    requires l.Comparing? && 0.0 < lo <= hi && 0.0 < l.offer <= l.peak && Within(l.offer, lo, hi)
    requires m1 <= l.peak <= m2
    ensures m1 * lo <= 1.25 * (1.0 + Unrecorded(Comparison(l)))
    ensures 1.0 + Unrecorded(Comparison(l)) <= m2 * hi
  {
    OneComparison(l.offer, l.peak, lo, hi, m1, m2);
  }

  lemma CompareLedger(a: Share, b: Share, lo: real, hi: real, x: real, y: real,
                      measured: real, compared: real, more: real)
    requires b.l.Comparing? && 0.0 < b.l.offer
    requires x <= 1.25 * (1.0 + Unrecorded(Comparison(b.l))) && 1.0 + Unrecorded(Comparison(b.l)) <= y
    requires Ledger(a, b, lo, hi, x, y, measured, compared) && more == compared + 1.0
    ensures Ledger(a, b.(l := Comparison(b.l)), lo, hi, x, y, measured, more)
  {
    var l := Comparison(b.l);
    var total := compared + (b.dummy - a.dummy);
    OneMore(compared, more, x, y, total, more + (b.dummy - a.dummy) + Unrecorded(l));
  }

  lemma EarnedMore(n: real, gained: real, work: real, more: real, lo: real, hi: real)
    requires Earned(n, gained, lo, hi) && lo <= work <= hi && more == n + 1.0
    ensures Earned(more, gained + work, lo, hi)
  {
    BandAdds(n, gained, lo, hi, work);
  }

  lemma MeasureLedger(a: Share, b: Share, lo: real, hi: real, x: real, y: real,
                      measured: real, compared: real, more: real,
                      sample: Sample, l: Listener)
    requires b.l.Written? && Plausible(sample) && lo <= Work(sample) <= hi
    requires WindowSound(b.w) && l.Measured? && l.ratio == WindowRatio(AddBuffer(b.w, sample))
    requires Ledger(a, b, lo, hi, x, y, measured, compared) && more == measured + 1.0
    ensures Ledger(a, b.(w := AddBuffer(b.w, sample), l := l), lo, hi, x, y, more, compared)
  {
    hide Earned, Paid, InBand, Within, Work, Plausible;
    MeasuredInBand(b.w, sample, lo, hi);
    EarnedMore(measured, b.w.totalWork - a.w.totalWork, Work(sample), more, lo, hi);
    assert AddBuffer(b.w, sample).totalWork - a.w.totalWork == b.w.totalWork - a.w.totalWork + Work(sample);
  }

  /** A step that moves a buffer neither into the window nor past the comparison, and records no
      delay that was not pending. */
  ghost predicate Quiet(b: Share, c: Share) {
    && c.w == b.w && c.processed - Unmeasured(c.l) == b.processed - Unmeasured(b.l)
    && Uncompared(c.l) == Uncompared(b.l) && c.dummy + Unrecorded(c.l) == b.dummy + Unrecorded(b.l)
  }

  lemma QuietLedger(a: Share, b: Share, c: Share, lo: real, hi: real, x: real, y: real, measured: real, compared: real)
    requires Ledger(a, b, lo, hi, x, y, measured, compared) && Quiet(b, c) && LocalsInBand(c.l, lo, hi)
    ensures Ledger(a, c, lo, hi, x, y, measured, compared)
  {
    hide Earned, Paid, InBand, LocalsInBand, Unmeasured, Uncompared, Unrecorded;
    var total := compared + (b.dummy - a.dummy) + Unrecorded(b.l);
    assert total == compared + (c.dummy - a.dummy) + Unrecorded(c.l);
  }

  /** Thread i's steps that neither measure nor compare. */
  lemma OwnStepQuiet(t: System, e: Event, p: Terms)
    requires Sound(t) && Enabled(t, e) && Meets(t, e, p) && p.i < |t.listeners|
    requires e.DoWrite? || e.DoCount? || e.Decide? || e.DoRaise? || e.DoInject? || e.DoSettle?
    requires e.i == p.i && LocalsInBand(t.listeners[p.i], p.lo, p.hi)
    ensures p.i < |Next(t, e).listeners| && p.i < |Next(t, e).shared.win| && p.i < |Next(t, e).shared.tot|
    ensures Quiet(ShareOf(t, p.i), ShareOf(Next(t, e), p.i))
    ensures LocalsInBand(Next(t, e).listeners[p.i], p.lo, p.hi)
  {
    hide Within, Work, Plausible;
  }

  /** The other threads' steps leave thread i's share alone. */
  lemma OthersQuiet(t: System, e: Event, i: nat)
    requires Sound(t) && Enabled(t, e) && i < |t.listeners| && !e.DoTick?
    requires e.GrowAccounts? || e.GrowWindows? || e.GrowTotals? || e.i != i
    ensures i < |Next(t, e).listeners| && i < |Next(t, e).shared.win| && i < |Next(t, e).shared.tot|
    ensures ShareOf(Next(t, e), i) == ShareOf(t, i)
  {
    hide Work, Plausible, Decision, Comparison;
  }

  lemma OtherLedger(a: Share, t: System, e: Event, p: Terms, x: real, y: real, measured: real, compared: real)
    requires Sound(t) && Enabled(t, e) && Meets(t, e, p) && p.i < |t.listeners|
    requires !e.DoTick? && !(e.DoMeasure? && e.i == p.i) && e != Compare(p.i)
    requires Ledger(a, ShareOf(t, p.i), p.lo, p.hi, x, y, measured, compared)
    ensures Ledger(a, ShareOf(Next(t, e), p.i), p.lo, p.hi, x, y, measured, compared)
  {
    hide Earned, Paid, InBand, LocalsInBand, Quiet, Within, Work, Decision, Comparison, Next;
    if e.GrowAccounts? || e.GrowWindows? || e.GrowTotals? || e.i != p.i {
      OthersQuiet(t, e, p.i);
    } else {
      OwnStepQuiet(t, e, p);
      QuietLedger(a, ShareOf(t, p.i), ShareOf(Next(t, e), p.i), p.lo, p.hi, x, y, measured, compared);
    }
  }

  lemma TickLedger(a: Share, t: System, u: nat, p: Terms, x: real, y: real, measured: real, compared: real)
    requires Sound(t) && p.i < |t.listeners|
    requires Ledger(a, ShareOf(t, p.i), p.lo, p.hi, x, y, measured, compared)
    ensures Ledger(a, ShareOf(Next(t, DoTick(u)), p.i), p.lo, p.hi, x, y, measured, compared)
  {
    SoundTick(t);
    var b := ShareOf(t, p.i);
    DecayInBand(b.w, p.lo, p.hi);
    assert ShareOf(Next(t, DoTick(u)), p.i) == b.(w := Decay(b.w));
  }

  lemma MeasureStep(a: Share, t: System, b: Sample, p: Terms, x: real, y: real,
                    measured: real, compared: real, more: real)
    requires Sound(t) && Enabled(t, DoMeasure(p.i, b)) && Meets(t, DoMeasure(p.i, b), p) && more == measured + 1.0
    requires Ledger(a, ShareOf(t, p.i), p.lo, p.hi, x, y, measured, compared)
    ensures Ledger(a, ShareOf(Next(t, DoMeasure(p.i, b)), p.i), p.lo, p.hi, x, y, more, compared)
  {
    hide Earned, Paid, InBand, Within, Ledger, Work;
    assert ListenerSound(t.listeners[p.i], t.shared.tot, p.i) && WindowSound(t.shared.win[p.i]);
    var c := ShareOf(Next(t, DoMeasure(p.i, b)), p.i);
    MeasureLedger(a, ShareOf(t, p.i), p.lo, p.hi, x, y, measured, compared, more, b, c.l);
  }

  lemma CompareStep(a: Share, t: System, p: Terms, x: real, y: real,
                    measured: real, compared: real, more: real)
    requires TermsSound(p) && Caps(p, x, y)
    requires Sound(t) && Enabled(t, Compare(p.i)) && Meets(t, Compare(p.i), p) && more == compared + 1.0
    requires Ledger(a, ShareOf(t, p.i), p.lo, p.hi, x, y, measured, compared)
    ensures Ledger(a, ShareOf(Next(t, Compare(p.i)), p.i), p.lo, p.hi, x, y, measured, more)
  {
    hide Earned, Paid, InBand, Within, Work, Comparison;
    var b := ShareOf(t, p.i);
    assert ListenerSound(t.listeners[p.i], t.shared.tot, p.i);
    ComparisonCost(b.l, p.lo, p.hi, p.m1, p.m2);
    CompareLedger(a, b, p.lo, p.hi, x, y, measured, compared, more);
    assert ShareOf(Next(t, Compare(p.i)), p.i) == b.(l := Comparison(b.l));
  }

  lemma SizesOf(s: System)
    requires Sound(s)
    ensures |s.listeners| == |s.shared.tot| && |s.listeners| <= |s.shared.win|
  {}

  lemma ThreadStays(t: System, e: Event, i: nat)
    requires Sound(t) && Enabled(t, e) && i < |t.listeners|
    ensures i < |Next(t, e).listeners| && i < |Next(t, e).shared.win| && i < |Next(t, e).shared.tot|
  {
    StepSound(t, e);
    hide Sound;
    assert |t.listeners| <= |Next(t, e).listeners|;
    SizesOf(Next(t, e));
  }

  lemma StepLedger(a: Share, t: System, e: Event, p: Terms, x: real, y: real, measured: real, compared: real,
                   measured': real, compared': real)
    requires TermsSound(p) && Sound(t) && Enabled(t, e) && Meets(t, e, p) && p.i < |t.listeners|
    requires measured' == if e.DoMeasure? && e.i == p.i then measured + 1.0 else measured
    requires compared' == if e == Compare(p.i) then compared + 1.0 else compared
    requires Caps(p, x, y)
    requires Ledger(a, ShareOf(t, p.i), p.lo, p.hi, x, y, measured, compared)
    ensures p.i < |Next(t, e).listeners|
    ensures Ledger(a, ShareOf(Next(t, e), p.i), p.lo, p.hi, x, y, measured', compared')
  {
    hide Next, Ledger, Meets, Caps, ShareOf, TermsSound;
    ThreadStays(t, e, p.i);
    if e.DoTick? {
      TickLedger(a, t, e.undefined, p, x, y, measured, compared);
    } else if e.DoMeasure? && e.i == p.i {
      MeasureStep(a, t, e.b, p, x, y, measured, compared, measured');
    } else if e == Compare(p.i) {
      CompareStep(a, t, p, x, y, measured, compared, compared');
    } else {
      OtherLedger(a, t, e, p, x, y, measured, compared);
    }
  }

  ghost function MeasuredIn(es: seq<Event>, i: nat): real {
    if es == [] then 0.0
    else
      var n, e := MeasuredIn(es[..|es| - 1], i), es[|es| - 1];
      if e.DoMeasure? && e.i == i then n + 1.0 else n
  }

  ghost function ComparedIn(es: seq<Event>, i: nat): real {
    if es == [] then 0.0
    else
      var n, e := ComparedIn(es[..|es| - 1], i), es[|es| - 1];
      if e == Compare(i) then n + 1.0 else n
  }

  lemma NothingOwed(s: System, p: Terms, x: real, y: real)
    requires AtRest(s, p)
    ensures Ledger(ShareOf(s, p.i), ShareOf(s, p.i), p.lo, p.hi, x, y, 0.0, 0.0)
  {}

  lemma {:induction false} StretchLedger(s: System, es: seq<Event>, p: Terms, x: real, y: real)
    requires Sound(s) && Run(s, es).Reached? && TermsSound(p) && AtRest(s, p) && Stretch(s, es, p)
    requires Caps(p, x, y)
    ensures p.i < |Run(s, es).state.listeners|
    ensures Ledger(ShareOf(s, p.i), ShareOf(Run(s, es).state, p.i), p.lo, p.hi, x, y,
                   MeasuredIn(es, p.i), ComparedIn(es, p.i))
  {
    hide Ledger, Caps, TermsSound, ShareOf, Next, Sound, Enabled, Meets, InBand;
    if es == [] {
      NothingOwed(s, p, x, y);
    } else {
      var front := es[..|es| - 1];
      StretchLedger(s, front, p, x, y);
      StepLedger(ShareOf(s, p.i), Run(s, front).state, es[|es| - 1], p, x, y,
                 MeasuredIn(front, p.i), ComparedIn(front, p.i), MeasuredIn(es, p.i), ComparedIn(es, p.i));
    }
  }

  /** Between two buffers nothing is outstanding. */
  lemma LedgerAtRest(a: Share, b: Share, lo: real, hi: real, x: real, y: real, n: real, compared: real, total: real)
    requires Ledger(a, b, lo, hi, x, y, n, compared) && b.l.Receiving?
    requires total == b.processed - a.processed + (b.dummy - a.dummy)
    ensures Earned(n, b.w.totalWork - a.w.totalWork, lo, hi)
    ensures Paid(n, total, x, y)
  {
    hide Earned, Paid, InBand, LocalsInBand;
  }

  /** Real and dummy buffers per unit of work. */
  ghost function Rate(s: System, t: System, i: nat): real
    requires i < |s.shared.tot| && i < |t.shared.tot| && i < |s.shared.win| && i < |t.shared.win|
    requires 0.0 < WorkBetween(s, t, i)
  {
    (RealBuffers(s, t, i) + DummyBuffers(s, t, i)) / WorkBetween(s, t, i)
  }

  ghost function LeastRate(p: Terms): real
    requires TermsSound(p)
  {
    p.m1 * p.lo / (1.25 * p.hi)
  }

  ghost function MostRate(p: Terms): real
    requires TermsSound(p)
  {
    p.m2 * p.hi / p.lo
  }

  /** work <= hi*n and n*x <= 1.25*total. */
  lemma LowerRate(n: real, total: real, work: real, hi: real, x: real)
    requires 0.0 < hi && 0.0 < work && 0.0 <= x && work <= hi * n && n * x <= 1.25 * total
    ensures x / (1.25 * hi) <= total / work
  {
    var q := x / (1.25 * hi);
    assert q * (1.25 * hi) == x && 0.0 <= q;
    MulLe(work, hi * n, q);
    assert 1.25 * (hi * n * q) == n * x by { assert hi * n * q == n * (hi * q); }
    assert q * work <= total;
    DivLe(total, q, work);
  }

  /** lo*n <= work and total <= n*y. */
  lemma UpperRate(n: real, total: real, work: real, lo: real, y: real)
    requires 0.0 < lo && 0.0 < work && 0.0 <= y && lo * n <= work && total <= n * y
    ensures total / work <= y / lo
  {
    var q := y / lo;
    assert q * lo == y && 0.0 <= q;
    MulLe(lo * n, work, q);
    assert lo * n * q == n * y by { assert lo * n * q == n * (lo * q); }
    DivLe(total, q, work);
  }

  lemma RateBounds(n: real, total: real, work: real, p: Terms, x: real, y: real)
    requires TermsSound(p) && Caps(p, x, y) && 0.0 < work
    requires Earned(n, work, p.lo, p.hi) && Paid(n, total, x, y)
    ensures LeastRate(p) <= total / work <= MostRate(p)
  {
    MulLe(0.0, p.m1, p.lo);
    MulLe(0.0, p.m2, p.hi);
    LowerRate(n, total, work, p.hi, x);
    UpperRate(n, total, work, p.lo, y);
  }

  lemma RateIs(s: System, t: System, i: nat, total: real, work: real)
    requires i < |s.listeners| && i < |s.shared.tot| && i < |s.shared.win|
    requires i < |t.listeners| && i < |t.shared.tot| && i < |t.shared.win|
    requires var a, b := ShareOf(s, i), ShareOf(t, i);
             total == b.processed - a.processed + (b.dummy - a.dummy) && work == b.w.totalWork - a.w.totalWork
    ensures WorkBetween(s, t, i) == work
    ensures 0.0 < work ==> Rate(s, t, i) == total / work
  {}

  lemma CapsOf(p: Terms) returns (x: real, y: real)
    ensures Caps(p, x, y)
  {
    x, y := p.m1 * p.lo, p.m2 * p.hi;
  }

  /** Over any stretch of a run on which thread i's work per buffer lies in [lo, hi] and the
      maxima it met lie in [m1, m2], its real plus dummy buffers per unit of work lie between
      m1*lo/(1.25*hi) and m2*hi/lo, whatever the other threads and the ticks do meanwhile. */
  lemma StretchIsFair(s: System, es: seq<Event>, p: Terms)
    requires Sound(s) && Run(s, es).Reached? && TermsSound(p) && AtRest(s, p) && Stretch(s, es, p)
    requires AtRest(Run(s, es).state, p)
    requires 0.0 < WorkBetween(s, Run(s, es).state, p.i)
    ensures LeastRate(p) <= Rate(s, Run(s, es).state, p.i) <= MostRate(p)
  {
    hide Run, Sound, Stretch, Ledger, Earned, Paid, InBand, Caps, TermsSound, LeastRate, MostRate, Rate, WorkBetween;
    var x, y := CapsOf(p);
    StretchLedger(s, es, p, x, y);
    var t := Run(s, es).state;
    var a, b, n := ShareOf(s, p.i), ShareOf(t, p.i), MeasuredIn(es, p.i);
    var total, work := b.processed - a.processed + (b.dummy - a.dummy), b.w.totalWork - a.w.totalWork;
    LedgerAtRest(a, b, p.lo, p.hi, x, y, n, ComparedIn(es, p.i), total);
    RateIs(s, t, p.i, total, work);
    RateBounds(n, total, work, p, x, y);
  }

  lemma SpreadBound(m1: real, m2: real, a: real, b: real)
    requires 0.0 < m1 <= m2 && a <= m2 && m1 / 1.25 <= b
    ensures a <= 1.25 * m2 / m1 * b
  {
    var q := 1.25 * m2 / m1;
    assert q * m1 == 1.25 * m2 && 0.0 <= q;
    MulLe(m1 / 1.25, b, q);
    assert m1 / 1.25 * q == m2;
  }

  lemma ConstantWork(p: Terms)
    requires TermsSound(p) && p.lo == p.hi
    ensures LeastRate(p) == p.m1 / 1.25
    ensures MostRate(p) == p.m2
  {}

  /** Two threads whose buffers each carry a constant amount of work (not necessarily the same)
      are slowed alike, each over a stretch of its own: their rates differ by a factor of at most
      1.25 * m2 / m1. */
  lemma TwoThreadsStayTogether(s: System, es: seq<Event>, p: Terms, u: System, fs: seq<Event>, q: Terms)
    requires Sound(s) && Run(s, es).Reached? && TermsSound(p) && AtRest(s, p) && Stretch(s, es, p)
    requires Sound(u) && Run(u, fs).Reached? && TermsSound(q) && AtRest(u, q) && Stretch(u, fs, q)
    requires p.lo == p.hi && q.lo == q.hi && p.m1 == q.m1 && p.m2 == q.m2 && 0.0 < p.m1
    requires AtRest(Run(s, es).state, p) && AtRest(Run(u, fs).state, q)
    requires 0.0 < WorkBetween(s, Run(s, es).state, p.i) && 0.0 < WorkBetween(u, Run(u, fs).state, q.i)
    ensures var a, b := Rate(s, Run(s, es).state, p.i), Rate(u, Run(u, fs).state, q.i);
            p.m1 / 1.25 <= a <= p.m2 && p.m1 / 1.25 <= b <= p.m2 && a <= 1.25 * p.m2 / p.m1 * b
  {
    hide Run, Sound, Stretch, InBand, Rate, WorkBetween, LeastRate, MostRate;
    StretchIsFair(s, es, p);
    StretchIsFair(u, fs, q);
    ConstantWork(p);
    ConstantWork(q);
    SpreadBound(p.m1, p.m2, Rate(s, Run(s, es).state, p.i), Rate(u, Run(u, fs).state, q.i));
  }

  // ---- Without assumptions on the maxima ----

  /** There is more than one thread, and thread i's buffers are not skipped. */
  ghost predicate Balanced(t: System, e: Event, i: nat)
    requires Enabled(t, e)
  {
    e != Bypass(i) && (e == Decide(i) ==> !Skip(t.listeners[i].ratio, t.listeners[i].fcalls))
  }

  ghost predicate AllBalanced(s: System, es: seq<Event>, i: nat)
    requires Sound(s) && Run(s, es).Reached?
  {
    es == [] ||
    (AllBalanced(s, es[..|es| - 1], i) && Balanced(Run(s, es[..|es| - 1]).state, es[|es| - 1], i))
  }

  /** The maxima that thread i can meet lie between the inverses of its own most and of everybody's
      least work per buffer. */
  ghost function RunTerms(i: nat, lo: nat -> real, hi: nat -> real, least: real): Terms
    requires hi(i) != 0.0 && least != 0.0
  {
    Terms(i, lo(i), hi(i), 1.0 / hi(i), 1.0 / least)
  }

  lemma PeakWithin(r: real, peak: real, lo: real, hi: real, least: real)
    requires 0.0 < hi && 0.0 < least && 0.0 < r <= peak && Within(r, lo, hi) && least * peak <= 1.0
    ensures 1.0 / hi <= peak <= 1.0 / least
  {
    MulLe(r, peak, hi);
    DivLe(1.0, peak, hi);
    DivLe(1.0, peak, least);
  }

  lemma BoundedMeets(t: System, e: Event, i: nat, lo: nat -> real, hi: nat -> real, least: real)
    requires Sound(t) && Enabled(t, e) && Bounded(t, lo, hi, least) && WorkWithin(e, lo, hi) && Balanced(t, e, i)
    requires 0.0 < least && 0.0 < hi(i)
    ensures Meets(t, e, RunTerms(i, lo, hi, least))
  {
    hide Work, Plausible, Within, Skip;
    if e == Compare(i) {
      var l := t.listeners[i];
      assert LocalsBounded(l, lo(i), hi(i), least) && ListenerSound(l, t.shared.tot, i);
      PeakWithin(l.offer, l.peak, lo(i), hi(i), least);
    }
  }

  lemma {:induction false} RunStretch(s: System, es: seq<Event>, i: nat, lo: nat -> real, hi: nat -> real, least: real)
    requires Sound(s) && Bounded(s, lo, hi, least) && Run(s, es).Reached? && AllWorkWithin(es, lo, hi)
    requires AllBalanced(s, es, i)
    requires 0.0 < least && 0.0 < hi(i) && forall j: nat :: least <= lo(j)
    ensures Stretch(s, es, RunTerms(i, lo, hi, least))
  {
    hide Sound, Bounded, Next, Enabled, Meets, Balanced, RunTerms;
    if es == [] {
    } else {
      var front, e := es[..|es| - 1], es[|es| - 1];
      RunStretch(s, front, i, lo, hi, least);
      RunBounded(s, front, lo, hi, least);
      BoundedMeets(Run(s, front).state, e, i, lo, hi, least);
    }
  }

  lemma BoundedAtRest(t: System, i: nat, lo: nat -> real, hi: nat -> real, least: real)
    requires Sound(t) && Bounded(t, lo, hi, least) && i < |t.listeners| && t.listeners[i].Receiving?
    requires hi(i) != 0.0 && least != 0.0
    ensures AtRest(t, RunTerms(i, lo, hi, least))
  {}

  lemma InverseOrder(a: real, b: real)
    requires 0.0 < a <= b
    ensures 0.0 < 1.0 / b <= 1.0 / a
  {
    PositiveQuotient(1.0, b);
    PositiveQuotient(1.0, a);
    MulLe(a, b, 1.0 / a);
    DivLe(1.0, 1.0 / a, b);
  }

  lemma MostTerms(l: real, h: real, least: real)
    requires 0.0 < least && 0.0 < l
    ensures 1.0 / least * h / l == h / (l * least)
  {}

  lemma LeastTerms(l: real, h: real)
    requires 0.0 < h
    ensures 1.0 / h * l / (1.25 * h) == l / (1.25 * h * h)
  {}

  lemma RunRates(i: nat, lo: nat -> real, hi: nat -> real, least: real)
    requires 0.0 < least <= lo(i) <= hi(i)
    ensures var p := RunTerms(i, lo, hi, least);
            && TermsSound(p) && MostRate(p) == hi(i) / (lo(i) * least)
            && LeastRate(p) == lo(i) / (1.25 * hi(i) * hi(i))
  {
    var l, h := lo(i), hi(i);
    PositiveQuotient(1.0, h);
    DivLe(1.0, 1.0 / least, h);
    InverseOrder(least, h);
    MostTerms(l, h, least);
    LeastTerms(l, h);
  }

  lemma TermsThread(i: nat, lo: nat -> real, hi: nat -> real, least: real)
    requires hi(i) != 0.0 && least != 0.0
    ensures RunTerms(i, lo, hi, least).i == i
  {}

  lemma SoundStart()
    ensures Sound(START)
  {}

  /** In every run from the start whose threads j keep their work per buffer in [lo(j), hi(j)], at
      least `least` for all of them: from any state to any later one in which thread i is between two
      buffers, its real plus dummy buffers per unit of work are at most hi(i)/(lo(i)*least) and at
      least lo(i)/(1.25*hi(i)*hi(i)), whatever maxima it meets, if it is balanced in between. */
  lemma RunIsFair(before: seq<Event>, es: seq<Event>, i: nat, lo: nat -> real, hi: nat -> real, least: real)
    requires Run(START, before).Reached? && AllWorkWithin(before, lo, hi)
    requires Run(Run(START, before).state, es).Reached? && AllWorkWithin(es, lo, hi)
    requires AllBalanced(Run(START, before).state, es, i)
    requires 0.0 < least <= lo(i) <= hi(i) && forall j: nat :: least <= lo(j)
    requires i < |Run(START, before).state.listeners| && Run(START, before).state.listeners[i].Receiving?
    requires var t := Run(Run(START, before).state, es).state;
             i < |t.listeners| && t.listeners[i].Receiving? && i < |t.shared.win|
    requires i < |Run(START, before).state.shared.win|
    requires 0.0 < WorkBetween(Run(START, before).state, Run(Run(START, before).state, es).state, i)
    ensures var s := Run(START, before).state;
            var t := Run(s, es).state;
            && i < |s.shared.tot| && i < |t.shared.tot|
            && lo(i) / (1.25 * hi(i) * hi(i)) <= Rate(s, t, i) <= hi(i) / (lo(i) * least)
  {
    var s := Run(START, before).state;
    hide Run, Sound, Bounded, AllWorkWithin, AllBalanced, Stretch, InBand, Rate, WorkBetween, MostRate, LeastRate,
      RunTerms;
    StartBounded(lo, hi, least);
    assert Sound(START) by { SoundStart(); }
    RunBounded(START, before, lo, hi, least);
    RunBounded(s, es, lo, hi, least);
    RunStretch(s, es, i, lo, hi, least);
    BoundedAtRest(s, i, lo, hi, least);
    BoundedAtRest(Run(s, es).state, i, lo, hi, least);
    RunRates(i, lo, hi, least);
    TermsThread(i, lo, hi, least);
    StretchIsFair(s, es, RunTerms(i, lo, hi, least));
  }
}
