/** The consumer's lock regions as code. Each method is one critical section of consumer.cpp and
    is proved to do to the shared vectors exactly what the state machine's step does. Line numbers
    are those of src/consumer/consumer.cpp. */
module Consumer {
  import opened Layout
  import opened Ratios
  import opened Balancing
  import opened BalancingRuns
  import opened DummySleep
  import opened Interference

  lemma PlausibleUser(b: Sample)
    requires Plausible(b)
    ensures 0 <= b.userIns
  {}

  lemma CostFromSums(acc: seq<Account>)
    ensures InstrumentationCost(acc) == if AppSum(acc) > 0 then UserSum(acc) as real / AppSum(acc) as real else 1.0
  {}

  /** One injected delay: in buffers, in bytes, in microseconds slept, and in calls of sleep. */
  datatype Delay = Delay(extra: real, bytes: nat, slept: nat, calls: nat)

  const NO_DELAY: Delay := Delay(0.0, 0, 0, 0)

  /** Writing `bytes` takes the time r at the mean of the two bandwidths; with a latency of 0 the mean
      is infinite. */
  ghost predicate TimeAtMean(owner: Totals, own: Totals, bytes: nat, r: real) {
    if owner.latency == 0 || own.latency == 0 then r == 0.0
    else r * (owner.written as real / owner.latency as real + own.written as real / own.latency as real) ==
         2.0 * bytes as real
  }

  lemma RequestIsMean(owner: Totals, own: Totals, bytes: nat)
    requires 0 < owner.written && 0 < own.written
    ensures TimeAtMean(owner, own, bytes, SleepRequest(bytes, owner.written, owner.latency, own.written, own.latency))
  {
    hide SleepRequest;
    if owner.latency != 0 && own.latency != 0 {
      RequestBetweenBandwidths(bytes, owner.written, owner.latency, own.written, own.latency);
    }
  }

  /** Without a stop the sleep is less than 1 us short of r; it never exceeds r by more than the
      oversleep of its last call; and it stops as soon as the stop flag is set for good. */
  ghost predicate SleptFor(r: real, slept: nat, calls: nat, oversleep: nat -> nat, stop: nat -> bool) {
    && ((forall k :: !stop(k)) ==> r - 1.0 < slept as real)
    && (calls == 0 ==> slept == 0)
    && (0 < calls ==> slept as real <= r + oversleep(calls - 1) as real)
    && (Stays(stop) ==> forall k :: stop(k) ==> calls <= k)
  }

  /** In state t listener i is about to record delay d, and it has slept for it the time that its bytes
      take at the mean bandwidth of the thread found with the maximum and its own. */
  ghost predicate SleptAt(t: System, i: nat, d: Delay, oversleep: nat -> nat, stop: nat -> bool) {
    && i < |t.listeners| && t.listeners[i].Injecting? && t.listeners[i].extra == d.extra
    && Backed(t.shared.tot, i) && Backed(t.shared.tot, t.listeners[i].delayOwner)
    && exists r :: TimeAtMean(t.shared.tot[t.listeners[i].delayOwner], t.shared.tot[i], d.bytes, r) &&
                   SleptFor(r, d.slept, d.calls, oversleep, stop)
  }

  /** Without a delay there was no sleep; with one, it was slept in some state on the way. */
  ghost predicate DelayedIn(s: System, es: seq<Event>, i: nat, d: Delay, oversleep: nat -> nat, stop: nat -> bool)
    requires Sound(s)
  {
    && d.bytes as real <= d.extra * 1048576.0 < d.bytes as real + 1.0
    && (d.extra == 0.0 ==> d.slept == 0 && d.calls == 0)
    && (d.extra != 0.0 ==>
          0.25 < d.extra &&
          exists k: nat :: k <= |es| && Run(s, es[..k]).Reached? &&
                           SleptAt(Run(s, es[..k]).state, i, d, oversleep, stop))
  }

  lemma DelayedLater(s: System, es: seq<Event>, fs: seq<Event>, i: nat, d: Delay,
                     oversleep: nat -> nat, stop: nat -> bool)
    requires Sound(s) && es <= fs && DelayedIn(s, es, i, d, oversleep, stop)
    ensures DelayedIn(s, fs, i, d, oversleep, stop)
  {
    hide Sound, Run, SleptAt;
    if d.extra != 0.0 {
      var k: nat :| k <= |es| && Run(s, es[..k]).Reached? && SleptAt(Run(s, es[..k]).state, i, d, oversleep, stop);
      assert fs[..k] == es[..k];
    }
  }

  lemma NotDelayed(s: System, es: seq<Event>, i: nat, oversleep: nat -> nat, stop: nat -> bool)
    requires Sound(s)
    ensures DelayedIn(s, es, i, NO_DELAY, oversleep, stop)
  {}

  lemma DelayedHere(s: System, es: seq<Event>, b: Sample, i: nat, t: System, l: Listener, r: real, d: Delay,
                    oversleep: nat -> nat, stop: nat -> bool)
    requires Sound(s) && Standing(s, es, i, b, t, l) && l.Injecting? && l.extra == d.extra && 0.25 < d.extra
    requires Backed(t.shared.tot, i) && Backed(t.shared.tot, l.delayOwner)
    requires TimeAtMean(t.shared.tot[l.delayOwner], t.shared.tot[i], d.bytes, r)
    requires SleptFor(r, d.slept, d.calls, oversleep, stop)
    requires d.bytes as real <= d.extra * 1048576.0 < d.bytes as real + 1.0
    ensures DelayedIn(s, es, i, d, oversleep, stop)
  {
    hide Sound, Run, SleptFor, TimeAtMean;
    assert es[..|es|] == es;
  }

  class Balancer {
    var win: seq<Window>
    var tot: seq<Totals>
    var acc: seq<Account>
    var maxRatio: real
    var owner: int
    var peakWork: real
    var factor: nat

    function View(): Shared
      reads this
    {
      Shared(win, tot, acc, maxRatio, owner, peakWork, factor)
    }

    constructor ()
      ensures View() == Shared([], [], [], 0.0, -1, 0.0, 1000)
    {
      win, tot, acc := [], [], [];
      maxRatio, owner, peakWork, factor := 0.0, -1, 0.0, 1000;
    }

    /** Lines 132-175: one entry in each group, under that group's lock. */
    method InitThreadData()
      modifies this
      ensures View() == old(View()).(acc := old(acc) + [Account(0, 0)], win := old(win) + [FRESH],
                                     tot := old(tot) + [NO_TOTALS])
    {
      acc := acc + [Account(0, 0)];
      win := win + [FRESH];
      tot := tot + [NO_TOTALS];
    }

    /** Lines 576-581. */
    method AddRealWrite(thread: nat, b: Sample)
      requires thread < |tot|
      modifies this`tot
      ensures View() == RecordWrite(old(View()), thread, b)
    {
      var t := tot[thread];
      t := t.(latency := t.latency + b.writeTime);
      t := t.(written := t.written + b.size);
      t := t.(processed := t.processed + 1);
      tot := tot[thread := t];
    }

    /** Lines 593-615: compute the work, add it to the window and take the snapshot. */
    method AddWork(thread: nat, b: Sample) returns (ratio: Ratio, snapshot: real, snapshotOwner: int)
      requires thread < |win| && Plausible(b)
      modifies this`win
      ensures View() == Measure(old(View()), thread, b)
      ensures ratio == WindowRatio(View().win[thread]) && snapshot == maxRatio && snapshotOwner == owner
      ensures var kernel := if b.kernelIns <= 60000 then 0.0 else b.kernelIns as real - 60000.0;
              var scale := b.userIns as real * b.kernelCycles as real;
              (win[thread].work - old(win[thread].work)) * scale ==
              kernel * scale + b.ins as real * (b.kernelIns as real * b.userCycles as real)
    {
      WorkCharges(b);
      var kernelIpc := b.kernelIns as real / b.kernelCycles as real;
      var userIpc := b.userIns as real / b.userCycles as real;
      PositiveQuotient(b.userIns as real, b.userCycles as real);
      var kernelIns := b.kernelIns - WORK_OFFSET;
      kernelIns := if kernelIns < 0 then 0 else kernelIns;
      var work := kernelIns as real + b.ins as real * (kernelIpc / userIpc);
      assert work == Work(b);
      hide Work;
      var w := win[thread];
      w := w.(work := w.work + work);
      w := w.(buffers := w.buffers + 1.0);
      w := w.(totalWork := w.totalWork + work);
      w := w.(io := w.io + b.writeTime as real);
      w := w.(gen := w.gen + b.genTime as real);
      win := win[thread := w];
      ratio := Divide(w.buffers, w.work);
      snapshot, snapshotOwner := maxRatio, owner;
    }

    /** Lines 618-630. */
    method AddCalls(thread: nat, b: Sample) returns (calls: nat)
      requires thread < |tot|
      modifies this`tot
      ensures View() == Count(old(View()), thread, b) && calls == tot[thread].fcalls
    {
      tot := tot[thread := tot[thread].(fcalls := tot[thread].fcalls + b.fcalls)];
      calls := tot[thread].fcalls;
    }

    /** Lines 644-656: whatever the snapshot said, the maximum never falls and afterwards is at least
        the offered ratio, and the thread owns it exactly if it has just raised it. */
    method RaiseMaximum(thread: nat, ratio: real) returns (snapshot: real, snapshotOwner: int)
      requires thread < |win|
      modifies this`maxRatio, this`owner, this`peakWork
      ensures View() == Raise(old(View()), thread, ratio)
      ensures snapshot == maxRatio && snapshotOwner == owner
      ensures old(maxRatio) <= maxRatio && ratio <= maxRatio && (maxRatio == old(maxRatio) || maxRatio == ratio)
      ensures owner == if old(maxRatio) < ratio then thread else old(owner)
      ensures old(peakWork) <= peakWork && win[thread].totalWork <= peakWork
      ensures peakWork == old(peakWork) || peakWork == win[thread].totalWork
    {
      if ratio > maxRatio {
        maxRatio := ratio;
        owner := thread;
      }
      snapshot, snapshotOwner := maxRatio, owner;
      if win[thread].totalWork > peakWork {
        peakWork := win[thread].totalWork;
      }
    }

    /** Lines 661-670: how much to inject, in buffers and in bytes. */
    method DelayFor(ratio: real, peak: real) returns (extra: real, bytes: nat)
      requires 0.0 < ratio
      ensures extra == if peak > ratio && peak / ratio - 1.0 > INJECT_THRESHOLD then ExtraBuffers(peak, ratio) else 0.0
      ensures bytes == ExtraBytes(extra)
      ensures 0.0 <= extra && (0.0 < extra <==> 1.25 * ratio < peak)
      ensures 0.0 < extra ==> ratio * (1.0 + extra) == peak && 0.25 < extra
    {
      Quarter(ratio, peak);
      extra, bytes := 0.0, 0;
      if peak > ratio {
        var gap := peak / ratio - 1.0;
        if gap > INJECT_THRESHOLD {
          extra := gap;
          bytes := (extra * BLOCK as real).Floor;
        }
      }
    }

    /** Lines 379-417. Both divisors are positive in every reachable state. */
    method WriteDummy(thread: nat, extraIo: nat, ratioOwner: int, start: nat, oversleep: nat -> nat, stop: nat -> bool)
      returns (slept: nat, calls: nat, ghost request: real)
      requires Backed(tot, thread) && Backed(tot, ratioOwner)
      ensures TimeAtMean(tot[ratioOwner], tot[thread], extraIo, request)
      ensures SleptFor(request, slept, calls, oversleep, stop)
    {
      hide SleepRequest, TimeAtMean;
      var owner, own := tot[ratioOwner], tot[thread];
      var time := SleepRequest(extraIo, owner.written, owner.latency, own.written, own.latency);
      request := time;
      RequestIsMean(owner, own, extraIo);
      slept, calls := InjectSleep(time, start, oversleep, stop);
    }

    /** Lines 680-683. */
    method AddDummy(thread: nat, extra: real)
      requires thread < |tot|
      modifies this`tot
      ensures View() == Inject(old(View()), thread, extra)
    {
      tot := tot[thread := tot[thread].(dummy := tot[thread].dummy + extra)];
    }

    /** Lines 696-705. */
    method SettleAccount(thread: nat, b: Sample)
      requires thread < |acc| && 0 <= b.userIns
      modifies this`acc
      ensures View() == Settle(old(View()), thread, b)
    {
      var a := acc[thread];
      acc := acc[thread := Account(a.appIns + b.ins, a.userIns + b.userIns)];
    }

    // ---- The listener's loop body, with other threads running between its lock regions ----

    /** The other threads take any steps. The listener keeps its place and its locals stay sound. */
    method Yield(k: nat, thread: nat, t: System, others: (nat, System) -> System,
                 ghost moves: (nat, System) -> seq<Event>, ghost s: System, ghost before: seq<Event>,
                 ghost b: Sample, ghost l: Listener)
      returns (u: System, ghost es: seq<Event>)
      requires Undisturbing(thread, others, moves) && Sound(s) && Standing(s, before, thread, b, t, l)
      modifies this
      ensures Standing(s, es, thread, b, u, l) && Ready(u, thread, l) && u.shared == View()
      ensures Dummy(u, thread) == Dummy(t, thread) && |t.shared.win| <= |u.shared.win| && before <= es
    {
      hide Ready, ListenerSound, Dummy, Own, OneBuffer;
      u := others(k, t);
      es := before + moves(k, t);
      AfterOthers(s, before, thread, b, t, l, moves(k, t), u);
      var sh := u.shared;
      win, tot, acc := sh.win, sh.tot, sh.acc;
      maxRatio, owner, peakWork, factor := sh.maxRatio, sh.owner, sh.peakWork, sh.factor;
    }

    /** Lines 661-685: compare with the snapshot, sleep for the delay and record it. */
    method InjectDelay(thread: nat, b: Sample, ratio: real, snapshot: real, snapshotOwner: int,
                       start: nat, oversleep: nat -> nat, stop: nat -> bool,
                       t0: System, others: (nat, System) -> System, ghost moves: (nat, System) -> seq<Event>,
                       ghost s: System, ghost before: seq<Event>)
      returns (d: Delay, t: System, ghost es: seq<Event>)
      requires Undisturbing(thread, others, moves) && Sound(s) && t0.shared == View()
      requires Standing(s, before, thread, b, t0, Comparing(b, ratio, snapshot, snapshotOwner))
      requires Ready(t0, thread, Comparing(b, ratio, snapshot, snapshotOwner))
      modifies this
      ensures Standing(s, es, thread, b, t, Settling(b)) && t.shared == View() && before <= es
      ensures Dummy(t, thread) == Dummy(t0, thread) + d.extra && DelayedIn(s, es, thread, d, oversleep, stop)
      ensures 0.0 < d.extra <==> 1.25 * ratio < snapshot
    {
      hide Sound, Standing, Undisturbing, Plausible, DelayedIn, TimeAtMean, SleptFor;
      var extra, extraIo := DelayFor(ratio, snapshot);
      d := Delay(extra, extraIo, 0, 0);
      AfterCompare(s, before, thread, b, t0, Comparing(b, ratio, snapshot, snapshotOwner));
      es := before + [Compare(thread)];
      if extra > 0.0 {
        var l := Injecting(b, extra, snapshotOwner);
        t := Move(t0, thread, View(), l);
        t, es := Yield(5, thread, t, others, moves, s, es, b, l);
        var slept, calls;
        ghost var request;
        slept, calls, request := WriteDummy(thread, extraIo, snapshotOwner, start, oversleep, stop);
        d := Delay(extra, extraIo, slept, calls);
        DelayedHere(s, es, b, thread, t, l, request, d, oversleep, stop);
        ghost var at := es;
        t, es := Yield(6, thread, t, others, moves, s, es, b, l);
        AfterInject(s, es, thread, b, t, l);
        AddDummy(thread, extra);
        t := Move(t, thread, View(), Settling(b));
        es := es + [DoInject(thread)];
        DelayedLater(s, at, es, thread, d, oversleep, stop);
      } else {
        t := Move(t0, thread, View(), Settling(b));
        NotDelayed(s, es, thread, oversleep, stop);
      }
    }

    /** Lines 644-656 after others may have run: the new position carries the maximum found there. */
    method OfferRatio(thread: nat, b: Sample, ratio: real, t0: System, others: (nat, System) -> System,
                      ghost moves: (nat, System) -> seq<Event>, ghost s: System, ghost before: seq<Event>)
      returns (t: System, ghost es: seq<Event>, l: Listener)
      requires Undisturbing(thread, others, moves) && Sound(s) && Standing(s, before, thread, b, t0, Raising(b, ratio))
      modifies this
      ensures Standing(s, es, thread, b, t, l) && t.shared == View() && Dummy(t, thread) == Dummy(t0, thread)
      ensures before <= es
      ensures l == Comparing(b, ratio, maxRatio, owner) && ratio <= maxRatio
    {
      hide Sound, Standing, Undisturbing, ListenerSound;
      t, es := Yield(3, thread, t0, others, moves, s, before, b, Raising(b, ratio));
      AfterRaise(s, es, thread, b, t, Raising(b, ratio));
      var peak, peakOwner := RaiseMaximum(thread, ratio);
      l := Comparing(b, ratio, peak, peakOwner);
      t := Move(t, thread, View(), l);
      es := es + [DoRaise(thread)];
    }

    /** Lines 636-656: unless the buffer is skipped, offer its ratio and then compare. */
    method Balance(thread: nat, b: Sample, ratio: Ratio, snapshot: real, snapshotOwner: int, calls: nat,
                   start: nat, oversleep: nat -> nat, stop: nat -> bool,
                   t0: System, others: (nat, System) -> System, ghost moves: (nat, System) -> seq<Event>,
                   ghost s: System, ghost before: seq<Event>)
      returns (d: Delay, t: System, ghost es: seq<Event>)
      requires Undisturbing(thread, others, moves) && Sound(s) && t0.shared == View() && thread < |t0.listeners|
      requires Standing(s, before, thread, b, t0, Counted(b, ratio, snapshot, snapshotOwner, calls))
      modifies this
      ensures Standing(s, es, thread, b, t, Settling(b)) && t.shared == View() && before <= es
      ensures Dummy(t, thread) == Dummy(t0, thread) + d.extra && DelayedIn(s, es, thread, d, oversleep, stop)
    {
      hide Sound, Standing, Undisturbing, Ready, DelayedIn;
      AfterDecide(s, before, thread, b, t0, Counted(b, ratio, snapshot, snapshotOwner, calls));
      es := before + [Decide(thread)];
      d := NO_DELAY;
      if Skip(ratio, calls) {
        NotDelayed(s, es, thread, oversleep, stop);
        t := Move(t0, thread, View(), Settling(b));
      } else {
        var l := if ratio.value > snapshot then Raising(b, ratio.value)
                 else Comparing(b, ratio.value, snapshot, snapshotOwner);
        t := Move(t0, thread, View(), l);
        if ratio.value > snapshot {
          t, es, l := OfferRatio(thread, b, ratio.value, t, others, moves, s, es);
        }
        t, es := Yield(4, thread, t, others, moves, s, es, b, l);
        d, t, es := InjectDelay(thread, b, ratio.value, l.peak, l.peakOwner, start, oversleep, stop,
                                t, others, moves, s, es);
      }
    }

    /** Lines 593-687: profile the buffer, then balance. */
    method ProfileAndBalance(thread: nat, b: Sample, start: nat, oversleep: nat -> nat, stop: nat -> bool,
                             t0: System, others: (nat, System) -> System, ghost moves: (nat, System) -> seq<Event>,
                             ghost s: System, ghost before: seq<Event>)
      returns (d: Delay, t: System, ghost es: seq<Event>)
      requires Undisturbing(thread, others, moves) && Sound(s)
      requires Standing(s, before, thread, b, t0, Written(b)) && 1 < |t0.shared.win| && Plausible(b)
      modifies this
      ensures Standing(s, es, thread, b, t, Settling(b)) && t.shared == View() && before <= es
      ensures Dummy(t, thread) == Dummy(t0, thread) + d.extra && DelayedIn(s, es, thread, d, oversleep, stop)
    {
      hide Sound, Standing, Undisturbing, Work, ListenerSound, Plausible, DelayedIn;
      t, es := Yield(1, thread, t0, others, moves, s, before, b, Written(b));
      AfterMeasure(s, es, thread, b, t);
      var ratio, snapshot, snapshotOwner := AddWork(thread, b);
      t := Move(t, thread, View(), Measured(b, ratio, snapshot, snapshotOwner));
      es := es + [DoMeasure(thread, b)];
      t, es := Yield(2, thread, t, others, moves, s, es, b, Measured(b, ratio, snapshot, snapshotOwner));
      AfterCount(s, es, thread, b, t, Measured(b, ratio, snapshot, snapshotOwner));
      var calls := AddCalls(thread, b);
      t := Move(t, thread, View(), Counted(b, ratio, snapshot, snapshotOwner, calls));
      es := es + [DoCount(thread)];
      d, t, es := Balance(thread, b, ratio, snapshot, snapshotOwner, calls, start, oversleep, stop,
                          t, others, moves, s, es);
    }

    /** Lines 576-705 for one buffer: a run of the state machine from s to t in which the listener
        goes once through its cycle, from receiving to receiving, while the other threads take any
        steps between its lock regions. The delay is slept before it is recorded, and the next ready
        signal carries its size in bytes. */
    method BalanceBuffer(thread: nat, b: Sample, start: nat, oversleep: nat -> nat, stop: nat -> bool,
                         s: System, others: (nat, System) -> System, ghost moves: (nat, System) -> seq<Event>)
      returns (d: Delay, t: System, ghost es: seq<Event>)
      requires Undisturbing(thread, others, moves)
      requires Sound(s) && s.shared == View() && Plausible(b)
      requires thread < |s.listeners| && s.listeners[thread].Receiving?
      modifies this
      ensures Run(s, es) == Reached(t) && t.shared == View()
      ensures OneBuffer(es, thread, b) && thread < |t.listeners| && t.listeners[thread].Receiving?
      ensures Dummy(t, thread) == Dummy(s, thread) + d.extra && DelayedIn(s, es, thread, d, oversleep, stop)
    {
      hide Sound, Undisturbing, ListenerSound, Plausible, OneBuffer, Run, DelayedIn;
      AfterWrite(s, thread, b);
      AddRealWrite(thread, b);
      t := Move(s, thread, View(), Written(b));
      es := [DoWrite(thread, b)];
      t, es := Yield(0, thread, t, others, moves, s, es, b, Written(b));
      d := NO_DELAY;
      if |win| > 1 {
        d, t, es := ProfileAndBalance(thread, b, start, oversleep, stop, t, others, moves, s, es);
      } else {
        AfterBypass(s, es, thread, b, t);
        t := Move(t, thread, View(), Settling(b));
        es := es + [Bypass(thread)];
        NotDelayed(s, es, thread, oversleep, stop);
      }
      ghost var at := es;
      t, es := Yield(7, thread, t, others, moves, s, es, b, Settling(b));
      assert 0 <= b.userIns by { PlausibleUser(b); }
      AfterSettle(s, es, thread, b, t);
      SettleAccount(thread, b);
      t := Move(t, thread, View(), Receiving);
      es := es + [DoSettle(thread)];
      DelayedLater(s, at, es, thread, d, oversleep, stop);
    }

    /** Lines 319-327. */
    method SumAccounts() returns (app: nat, user: nat)
      ensures app == AppSum(acc) && user == UserSum(acc)
    {
      app, user := 0, 0;
      var i := 0;
      while i < |acc|
        invariant 0 <= i <= |acc|
        invariant app == AppSum(acc[..i]) && user == UserSum(acc[..i])
      {
        assert acc[..i + 1][..i] == acc[..i];
        app := app + acc[i].appIns;
        user := user + acc[i].userIns;
        i := i + 1;
      }
      assert acc[..i] == acc;
    }

    /** Lines 268-313 for one thread: compare, decay or reset, remember the work. */
    method VisitThread(i: nat, maxBefore: real, slowdownBefore: real) returns (newMax: real, maxSlowdown: real)
      requires i < |win| && (!Idle(win[i]) ==> i < |tot|)
      modifies this`win, this`owner
      ensures win == old(win)[i := Decay(old(win)[i])]
      ensures (newMax, owner) ==
              if Eligible(old(View()), i) && WindowRatio(old(win)[i]).value > maxBefore
              then (WindowRatio(old(win)[i]).value, i) else (maxBefore, old(owner))
      ensures maxSlowdown ==
              var w := old(win)[i];
              if !Idle(w) && 0.0 < w.gen && Slowdown(w) > slowdownBefore then Slowdown(w) else slowdownBefore
    {
      newMax, maxSlowdown := maxBefore, slowdownBefore;
      var w := win[i];
      if w.work == w.lastWork {
        w := w.(buffers := 0.0, work := 0.0, io := 0.0, gen := 0.0);
      } else {
        var ratio := Divide(w.buffers, w.work);
        if !Skip(ratio, tot[i].fcalls) && ratio.value > newMax {
          newMax := ratio.value;
          owner := i;
        }
        if w.gen > 0.0 {
          var slowdown := (w.gen + w.io) / w.gen;
          if slowdown > maxSlowdown {
            maxSlowdown := slowdown;
          }
        }
        w := w.(buffers := w.buffers * SCALE_FACTOR, work := w.work * SCALE_FACTOR,
                io := w.io * SCALE_FACTOR, gen := w.gen * SCALE_FACTOR);
      }
      w := w.(lastWork := w.work);
      win := win[i := w];
    }

    /** Lines 328-330. */
    method PublishFactor(maxSlowdown: real, undefined: nat)
      modifies this`factor
      ensures factor == Factor(InstrumentationCost(acc), maxSlowdown, undefined)
    {
      hide AppSum, UserSum, InstrumentationCost;
      var app, user := SumAccounts();
      CostFromSums(acc);
      var cost := if app > 0 then user as real / app as real else 1.0;
      assert cost == InstrumentationCost(acc);
      factor := CastToUnsigned(cost * maxSlowdown * 1000.0, undefined);
      if factor < 1000 {
        factor := 1000;
      }
    }

    /** Lines 262-330. Reading total_fcalls is in range because a thread whose work has changed
        since the last tick has all of its vectors. */
    method ControlTick(undefined: nat)
      requires ActiveInitialised(View())
      modifies this
      ensures View() == Tick(old(View()), undefined)
    {
      ghost var before := View();
      var newMax, maxSlowdown := 0.0, 1.0;
      var i := 0;
      while i < |win|
        invariant 0 <= i <= |win| == |before.win|
        invariant tot == before.tot && acc == before.acc && maxRatio == before.maxRatio
        invariant peakWork == before.peakWork && factor == before.factor
        invariant (newMax, owner) == PeakUpTo(before, i)
        invariant maxSlowdown == SlowdownUpTo(before.win, i)
        invariant forall j :: 0 <= j < i ==> win[j] == Decay(before.win[j])
        invariant forall j :: i <= j < |win| ==> win[j] == before.win[j]
      {
        ghost var here := View();
        assert win[i] == before.win[i];
        newMax, maxSlowdown := VisitThread(i, newMax, maxSlowdown);
        assert Eligible(here, i) == Eligible(before, i);
        hide Decay, Eligible, WindowRatio, Slowdown;
        i := i + 1;
      }
      hide PeakUpTo, SlowdownUpTo, Factor, InstrumentationCost, ActiveInitialised;
      assert win == DecayAll(before.win);
      maxRatio := newMax;
      PublishFactor(maxSlowdown, undefined);
    }
  }
}
