/** The consumer's shared balancing state and what each lock region does to it.

    The C++ keeps three groups of per-thread vectors, one per lock: the windowed counters
    under peak_lock, the running totals under total_lock and the instruction accounts under
    insertion_lock. Each group is one sequence here, because the groups grow under their
    own locks and so can have different lengths. Line numbers are those of
    src/consumer/consumer.cpp. */
module Balancing {
  import opened Layout
  import opened Ratios

  const WORK_OFFSET: int := 60000

  const SCALE_FACTOR: real := 0.25

  const INJECT_THRESHOLD: real := 0.25

  /** One received and written buffer: metadata from the Pin side, the measured write time and
      the four processor counter deltas. `size` is the number of bytes counted as written: what
      was received, or in raw mode the padded block. */
  datatype Sample = Sample(
    size: nat, genTime: nat, ins: nat, fcalls: nat, writeTime: nat,
    userIns: int, userCycles: int, kernelIns: int, kernelCycles: int)

  /** A buffer that reaches the balancing code holds data, and the counters moved. */
  predicate Plausible(b: Sample) {
    0 < b.size && 0 < b.ins && 0 < b.userIns && 0 < b.userCycles && 0 < b.kernelIns && 0 < b.kernelCycles
  }

  /** Work of a buffer: kernel instructions above the tool's own cost, plus the application's
      instructions scaled by kernel over user instructions per cycle. */
  function Work(b: Sample): (w: real)
    requires Plausible(b)
    ensures 0.0 < w
  {
    var kernelIpc := b.kernelIns as real / b.kernelCycles as real;
    var userIpc := b.userIns as real / b.userCycles as real;
    var charged := b.kernelIns - WORK_OFFSET;
    var kernel := if charged < 0 then 0 else charged;
    assert 0.0 < b.ins as real * (kernelIpc / userIpc) by {
      PositiveQuotient(b.kernelIns as real, b.kernelCycles as real);
      PositiveQuotient(b.userIns as real, b.userCycles as real);
      PositiveQuotient(kernelIpc, userIpc);
      MulPos(b.ins as real, kernelIpc / userIpc);
    }
    kernel as real + b.ins as real * (kernelIpc / userIpc)
  }

  /** The ratio r of two quotients, without divisions. */
  lemma QuotientOfQuotients(a: real, b: real, c: real, d: real, p: real, q: real, r: real)
    requires p * b == a && q * d == c && r * q == p
    ensures r * (c * b) == a * d
  {
    assert r * (c * b) == r * ((q * d) * b) == (r * q) * b * d;
  }

  lemma Distribute(k: real, n: real, r: real, s: real)
    ensures (k + n * r) * s == k * s + n * (r * s)
  {}

  /** The charge for a buffer: kernel instructions beyond the tool's own 60000, and the application's
      instructions weighted with kernel over user instructions per cycle. Both sides are multiplied
      by user instructions and kernel cycles. */
  lemma WorkCharges(b: Sample)
    requires Plausible(b)
    ensures var kernel := if b.kernelIns <= 60000 then 0.0 else b.kernelIns as real - 60000.0;
            var scale := b.userIns as real * b.kernelCycles as real;
            Work(b) * scale == kernel * scale + b.ins as real * (b.kernelIns as real * b.userCycles as real)
  {
    var ki, kc := b.kernelIns as real, b.kernelCycles as real;
    var ui, uc := b.userIns as real, b.userCycles as real;
    var kipc, uipc := ki / kc, ui / uc;
    PositiveQuotient(ui, uc);
    var r := kipc / uipc;
    QuotientOfQuotients(ki, kc, ui, uc, kipc, uipc, r);
    var kernel := if b.kernelIns <= 60000 then 0.0 else ki - 60000.0;
    assert Work(b) == kernel + b.ins as real * r;
    Distribute(kernel, b.ins as real, r, ui * kc);
  }

  /** Windowed counters of one thread (peak_lock). */
  datatype Window = Window(buffers: real, work: real, lastWork: real, totalWork: real, io: real, gen: real)

  const FRESH: Window := Window(0.0, 0.0, 0.0, 0.0, 0.0, 0.0)

  /** Running totals of one thread (total_lock). */
  datatype Totals = Totals(fcalls: nat, written: nat, latency: nat, processed: nat, dummy: real)

  const NO_TOTALS: Totals := Totals(0, 0, 0, 0, 0.0)

  /** Instruction accounts of one thread (insertion_lock and data_locks). */
  datatype Account = Account(appIns: nat, userIns: nat)

  datatype Shared = Shared(
    win: seq<Window>, tot: seq<Totals>, acc: seq<Account>,
    maxRatio: real, owner: int, peakWork: real, factor: nat)

  /** Lines 576-581: totals of the real write. */
  function RecordWrite(s: Shared, i: nat, b: Sample): Shared
    requires i < |s.tot|
  {
    var t := s.tot[i];
    s.(tot := s.tot[i := t.(written := t.written + b.size, latency := t.latency + b.writeTime,
                            processed := t.processed + 1)])
  }

  function AddBuffer(w: Window, b: Sample): Window
    requires Plausible(b)
  {
    w.(work := w.work + Work(b), buffers := w.buffers + 1.0, totalWork := w.totalWork + Work(b),
       io := w.io + b.writeTime as real, gen := w.gen + b.genTime as real)
  }

  /** Lines 602-609: the buffer enters the window. */
  function Measure(s: Shared, i: nat, b: Sample): Shared
    requires i < |s.win| && Plausible(b)
  {
    s.(win := s.win[i := AddBuffer(s.win[i], b)])
  }

  function WindowRatio(w: Window): Ratio {
    Divide(w.buffers, w.work)
  }

  /** Lines 618-630. */
  function Count(s: Shared, i: nat, b: Sample): Shared
    requires i < |s.tot|
  {
    s.(tot := s.tot[i := s.tot[i].(fcalls := s.tot[i].fcalls + b.fcalls)])
  }

  /** skip_overhead_balancing. */
  predicate Skip(ratio: Ratio, fcalls: nat) {
    ratio.NotANumber? || ratio.Infinite? || fcalls == 0
  }

  /** A thread is skipped exactly if it has no work in its window or has not made a counted call. */
  lemma SkipExactly(w: Window, fcalls: nat)
    ensures Skip(WindowRatio(w), fcalls) <==> w.work == 0.0 || fcalls == 0
  {}

  /** Lines 644-656: the second check of the double-checked maximum, under the lock. */
  function Raise(s: Shared, i: nat, ratio: real): Shared
    requires i < |s.win|
  {
    var s1 := if ratio > s.maxRatio then s.(maxRatio := ratio, owner := i) else s;
    if s.win[i].totalWork > s.peakWork then s1.(peakWork := s.win[i].totalWork) else s1
  }

  /** Line 663. */
  function ExtraBuffers(snapshot: real, ratio: real): real
    requires 0.0 < ratio
  {
    snapshot / ratio - 1.0
  }

  /** A gap of more than a quarter of a buffer. */
  lemma Quarter(ratio: real, peak: real)
    requires 0.0 < ratio
    ensures peak / ratio * ratio == peak
    ensures peak / ratio > 1.25 <==> 1.25 * ratio < peak
  {
    DivLe(peak, 1.25, ratio);
  }

  /** Line 669: the number of bytes whose writing is imitated. */
  function ExtraBytes(extra: real): (n: int)
    ensures n as real <= extra * 1048576.0 < n as real + 1.0
  {
    (extra * BLOCK as real).Floor
  }

  /** Lines 680-683. */
  function Inject(s: Shared, i: nat, extra: real): Shared
    requires i < |s.tot|
  {
    s.(tot := s.tot[i := s.tot[i].(dummy := s.tot[i].dummy + extra)])
  }

  /** Lines 696-705. */
  function Settle(s: Shared, i: nat, b: Sample): Shared
    requires i < |s.acc| && 0 <= b.userIns
  {
    var a := s.acc[i];
    s.(acc := s.acc[i := Account(a.appIns + b.ins, a.userIns + b.userIns)])
  }

  // ---- The control tick, lines 262-330 ----

  /** The test of line 268: nothing entered the window since the last tick. */
  predicate Idle(w: Window) {
    w.work == w.lastWork
  }

  /** Lines 268-273 and 298-312 for one thread. */
  function Decay(w: Window): Window {
    if Idle(w) then
      w.(buffers := 0.0, work := 0.0, lastWork := 0.0, io := 0.0, gen := 0.0)
    else
      w.(buffers := w.buffers * SCALE_FACTOR, work := w.work * SCALE_FACTOR,
         lastWork := w.work * SCALE_FACTOR, io := w.io * SCALE_FACTOR, gen := w.gen * SCALE_FACTOR)
  }

  function DecayAll(win: seq<Window>): seq<Window> {
    seq(|win|, i requires 0 <= i < |win| => Decay(win[i]))
  }

  /** Every thread whose window moved since the last tick has all of its totals. */
  ghost predicate ActiveInitialised(s: Shared) {
    forall i :: 0 <= i < |s.win| && !Idle(s.win[i]) ==> i < |s.tot|
  }

  /** A thread that the tick lets compete for the maximum. */
  predicate Eligible(s: Shared, i: nat)
    requires i < |s.win| && (!Idle(s.win[i]) ==> i < |s.tot|)
  {
    !Idle(s.win[i]) && !Skip(WindowRatio(s.win[i]), s.tot[i].fcalls)
  }

  /** The maximum and its owner after the first n threads; the owner is kept when none competes. */
  ghost function PeakUpTo(s: Shared, n: nat): (p: (real, int))
    requires n <= |s.win| && ActiveInitialised(s)
  {
    if n == 0 then (0.0, s.owner)
    else
      var p := PeakUpTo(s, n - 1);
      if Eligible(s, n - 1) && WindowRatio(s.win[n - 1]).value > p.0
      then (WindowRatio(s.win[n - 1]).value, n - 1) else p
  }

  /** Line 294 for one active thread with positive generation time. */
  function Slowdown(w: Window): (x: real)
    requires 0.0 < w.gen
    ensures x * w.gen == w.gen + w.io
  {
    (w.gen + w.io) / w.gen
  }

  ghost function SlowdownUpTo(win: seq<Window>, n: nat): real
    requires n <= |win|
  {
    if n == 0 then 1.0
    else
      var m := SlowdownUpTo(win, n - 1);
      var w := win[n - 1];
      if !Idle(w) && 0.0 < w.gen && Slowdown(w) > m then Slowdown(w) else m
  }

  function AppSum(acc: seq<Account>): nat {
    if acc == [] then 0 else AppSum(acc[..|acc| - 1]) + acc[|acc| - 1].appIns
  }

  function UserSum(acc: seq<Account>): nat {
    if acc == [] then 0 else UserSum(acc[..|acc| - 1]) + acc[|acc| - 1].userIns
  }

  /** Line 328. */
  function InstrumentationCost(acc: seq<Account>): real {
    if AppSum(acc) > 0 then UserSum(acc) as real / AppSum(acc) as real else 1.0
  }

  /** The cast to unsigned int of line 329. Outside the range of the target C++ gives the cast no
      meaning, so any value may come out; `undefined` is that value. */
  function CastToUnsigned(x: real, undefined: nat): nat {
    if 0.0 <= x < UINT_LIMIT as real then x.Floor else undefined % UINT_LIMIT
  }

  /** Lines 329-330. */
  function Factor(cost: real, slowdown: real, undefined: nat): (f: nat)
    ensures 1000 <= f < UINT_LIMIT
  {
    var f := CastToUnsigned(cost * slowdown * 1000.0, undefined);
    if f < 1000 then 1000 else f
  }

  ghost function Tick(s: Shared, undefined: nat): Shared
    requires ActiveInitialised(s)
  {
    var p := PeakUpTo(s, |s.win|);
    s.(win := DecayAll(s.win), maxRatio := p.0, owner := p.1,
       factor := Factor(InstrumentationCost(s.acc), SlowdownUpTo(s.win, |s.win|), undefined))
  }

  /** The tick installs the largest ratio of an active eligible thread, or 0 if there is none,
      and when it is positive the owner is the first thread that attains it. */
  lemma {:induction false} PeakIsLargest(s: Shared, n: nat)
    requires n <= |s.win| && ActiveInitialised(s)
    ensures 0.0 <= PeakUpTo(s, n).0
    ensures forall i :: 0 <= i < n && Eligible(s, i) ==> WindowRatio(s.win[i]).value <= PeakUpTo(s, n).0
    ensures PeakUpTo(s, n).0 == 0.0 ==> PeakUpTo(s, n).1 == s.owner
    ensures PeakUpTo(s, n).0 > 0.0 ==>
              var o := PeakUpTo(s, n).1;
              && 0 <= o < n && Eligible(s, o) && WindowRatio(s.win[o]).value == PeakUpTo(s, n).0
              && forall i :: 0 <= i < o && Eligible(s, i) ==> WindowRatio(s.win[i]).value < PeakUpTo(s, n).0
  {
    if n == 0 {
    } else {
      PeakIsLargest(s, n - 1);
    }
  }

  /** The slowdown is at least 1 and the largest one of an active thread. */
  lemma {:induction false} SlowdownIsLargest(win: seq<Window>, n: nat)
    requires n <= |win|
    ensures 1.0 <= SlowdownUpTo(win, n)
    ensures forall i :: 0 <= i < n && !Idle(win[i]) && 0.0 < win[i].gen ==> Slowdown(win[i]) <= SlowdownUpTo(win, n)
    ensures SlowdownUpTo(win, n) == 1.0 ||
            exists i :: 0 <= i < n && !Idle(win[i]) && 0.0 < win[i].gen && Slowdown(win[i]) == SlowdownUpTo(win, n)
  {
    if n == 0 {
    } else {
      SlowdownIsLargest(win, n - 1);
    }
  }

  /** Thread i got a buffer in the control period, has work in its window and has made a call. */
  ghost predicate Competes(s: Shared, i: nat)
    requires i < |s.win| && ActiveInitialised(s)
  {
    s.win[i].work != s.win[i].lastWork && s.win[i].work != 0.0 && 0 < s.tot[i].fcalls
  }

  lemma DecayAllLength(win: seq<Window>)
    ensures |DecayAll(win)| == |win|
  {}

  lemma RatioOf(w: Window)
    requires w.work != 0.0
    ensures WindowRatio(w) == Finite(w.buffers / w.work)
  {}

  /** What a tick leaves: a maximum that no competing thread's buffers exceed, in proportion to its
      work; if it is positive, its owner is the first thread that reaches it; if nobody competes, it
      is 0 and the owner stays. Totals, accounts and the peak of the work are left alone. */
  lemma TickInstallsMaximum(s: Shared, undefined: nat)
    requires ActiveInitialised(s)
    ensures var t := Tick(s, undefined);
            && t.tot == s.tot && t.acc == s.acc && t.peakWork == s.peakWork && |t.win| == |s.win|
            && 0.0 <= t.maxRatio
            && (forall i :: 0 <= i < |s.win| && Competes(s, i) ==>
                  s.win[i].buffers / s.win[i].work <= t.maxRatio)
            && (t.maxRatio == 0.0 ==> t.owner == s.owner)
            && (0.0 < t.maxRatio ==>
                  && 0 <= t.owner < |s.win| && Competes(s, t.owner)
                  && t.maxRatio * s.win[t.owner].work == s.win[t.owner].buffers
                  && forall i :: 0 <= i < t.owner && Competes(s, i) ==> s.win[i].buffers / s.win[i].work < t.maxRatio)
  {
    hide PeakUpTo, SlowdownUpTo, DecayAll, Factor, InstrumentationCost, Skip, WindowRatio;
    PeakIsLargest(s, |s.win|);
    DecayAllLength(s.win);
    forall i | 0 <= i < |s.win| ensures Eligible(s, i) <==> Competes(s, i) {
      if !Idle(s.win[i]) { SkipExactly(s.win[i], s.tot[i].fcalls); }
    }
    forall i | 0 <= i < |s.win| && Competes(s, i)
      ensures WindowRatio(s.win[i]).Finite? && WindowRatio(s.win[i]).value == s.win[i].buffers / s.win[i].work
    {
      RatioOf(s.win[i]);
    }
  }
}
