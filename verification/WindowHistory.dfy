/** The windowed counters refine a sum over the thread's history: every buffer since the last
    idle control period counts with its contribution times a quarter for each tick since. */
module WindowHistory {
  import opened Ratios
  import opened Balancing
  import opened BalancingRuns

  /** The four windowed quantities. */
  datatype Kind = Buffers | WorkDone | IoTime | GenTime

  function Amount(k: Kind, b: Sample): real {
    match k
    case Buffers => 1.0
    case WorkDone => if Plausible(b) then Work(b) else 0.0
    case IoTime => b.writeTime as real
    case GenTime => b.genTime as real
  }

  function Field(k: Kind, w: Window): real {
    match k
    case Buffers => w.buffers
    case WorkDone => w.work
    case IoTime => w.io
    case GenTime => w.gen
  }

  function NextPeriods(ps: seq<seq<Sample>>, e: Event, i: nat): (qs: seq<seq<Sample>>)
    requires 0 < |ps|
    ensures 0 < |qs|
  {
    match e
    case DoMeasure(j, b) => if j == i then ps[..|ps| - 1] + [ps[|ps| - 1] + [b]] else ps
    case DoTick(u) => if ps[|ps| - 1] == [] then [[]] else ps + [[]]
    case _ => ps
  }

  /** Thread i's buffers by control period, oldest first, the current period last. A tick that
      finds the current period empty forgets everything before it. */
  ghost function Periods(es: seq<Event>, i: nat): (ps: seq<seq<Sample>>)
    ensures 0 < |ps|
  {
    if es == [] then [[]] else NextPeriods(Periods(es[..|es| - 1], i), es[|es| - 1], i)
  }

  ghost function Quarter(n: nat): real {
    if n == 0 then 1.0 else 0.25 * Quarter(n - 1)
  }

  ghost function PeriodSum(k: Kind, p: seq<Sample>, age: nat): real {
    if p == [] then 0.0 else PeriodSum(k, p[..|p| - 1], age) + Amount(k, p[|p| - 1]) * Quarter(age)
  }

  /** Sum over the buffers of all periods; the last period is `age` ticks old. */
  ghost function HistorySum(k: Kind, ps: seq<seq<Sample>>, age: nat): real {
    if ps == [] then 0.0
    else HistorySum(k, ps[..|ps| - 1], age + 1) + PeriodSum(k, ps[|ps| - 1], age)
  }

  lemma QuarterOf(x: real, age: nat)
    ensures 4.0 * (x * Quarter(age + 1)) == x * Quarter(age)
  {}

  lemma {:induction false} PeriodAges(k: Kind, p: seq<Sample>, age: nat)
    ensures PeriodSum(k, p, age + 1) == 0.25 * PeriodSum(k, p, age)
  {
    hide Amount, Quarter;
    if p == [] {
    } else {
      PeriodAges(k, p[..|p| - 1], age);
      QuarterOf(Amount(k, p[|p| - 1]), age);
    }
  }

  lemma {:induction false} HistoryAges(k: Kind, ps: seq<seq<Sample>>, age: nat)
    ensures HistorySum(k, ps, age + 1) == 0.25 * HistorySum(k, ps, age)
  {
    if ps == [] {
    } else {
      HistoryAges(k, ps[..|ps| - 1], age + 1);
      PeriodAges(k, ps[|ps| - 1], age);
    }
  }

  ghost predicate AllPlausible(p: seq<Sample>) {
    forall j :: 0 <= j < |p| ==> Plausible(p[j])
  }

  lemma {:induction false} WorkIsPositive(p: seq<Sample>)
    requires AllPlausible(p)
    ensures 0.0 <= PeriodSum(WorkDone, p, 0)
    ensures PeriodSum(WorkDone, p, 0) == 0.0 <==> p == []
  {
    if p == [] {
    } else {
      WorkIsPositive(p[..|p| - 1]);
    }
  }

  /** The window holds the discounted sums, and lastWork the part that was there at the tick. */
  ghost predicate Mirrors(w: Window, ps: seq<seq<Sample>>)
    requires 0 < |ps|
  {
    && (forall k: Kind :: Field(k, w) == HistorySum(k, ps, 0))
    && w.lastWork == HistorySum(WorkDone, ps[..|ps| - 1], 1)
    && AllPlausible(ps[|ps| - 1])
  }

  /** The idle test of the tick, in reals: the sums are equal exactly when no buffer arrived. */
  lemma IdleMeansNoBuffer(w: Window, ps: seq<seq<Sample>>)
    requires 0 < |ps| && Mirrors(w, ps)
    ensures Idle(w) <==> ps[|ps| - 1] == []
  {
    assert Field(WorkDone, w) == HistorySum(WorkDone, ps, 0);
    WorkIsPositive(ps[|ps| - 1]);
  }

  lemma FreshMirrors()
    ensures Mirrors(FRESH, [[]])
  {}

  lemma AddMirrors(w: Window, ps: seq<seq<Sample>>, b: Sample)
    requires 0 < |ps| && Mirrors(w, ps) && Plausible(b)
    ensures Mirrors(AddBuffer(w, b), ps[..|ps| - 1] + [ps[|ps| - 1] + [b]])
  {
    var p := ps[|ps| - 1];
    var qs := ps[..|ps| - 1] + [p + [b]];
    assert qs[..|qs| - 1] == ps[..|ps| - 1];
    assert (p + [b])[..|p|] == p;
    forall k: Kind ensures Field(k, AddBuffer(w, b)) == HistorySum(k, qs, 0) {
      assert Field(k, w) == HistorySum(k, ps, 0);
    }
  }

  lemma TickMirrors(w: Window, ps: seq<seq<Sample>>)
    requires 0 < |ps| && Mirrors(w, ps)
    ensures Mirrors(Decay(w), if ps[|ps| - 1] == [] then [[]] else ps + [[]])
  {
    IdleMeansNoBuffer(w, ps);
    if Idle(w) {
      FreshMirrors();
      forall k: Kind ensures Field(k, Decay(w)) == HistorySum(k, [[]], 0) {
        assert Field(k, FRESH) == HistorySum(k, [[]], 0);
      }
    } else {
      var qs := ps + [[]];
      assert qs[..|qs| - 1] == ps;
      forall k: Kind ensures Field(k, Decay(w)) == HistorySum(k, qs, 0) {
        assert Field(k, w) == HistorySum(k, ps, 0);
        HistoryAges(k, ps, 0);
      }
      HistoryAges(WorkDone, ps, 0);
      assert Field(WorkDone, w) == HistorySum(WorkDone, ps, 0);
    }
  }

  /** Thread i's window in s mirrors the history ps; without a window there is no history. */
  ghost predicate Tracks(s: System, i: nat, ps: seq<seq<Sample>>)
    requires 0 < |ps|
  {
    if i < |s.shared.win| then Mirrors(s.shared.win[i], ps) else ps == [[]]
  }

  lemma MeasureTracks(s: System, j: nat, b: Sample, i: nat, ps: seq<seq<Sample>>)
    requires Sound(s) && Enabled(s, DoMeasure(j, b)) && 0 < |ps| && Tracks(s, i, ps)
    ensures Tracks(Next(s, DoMeasure(j, b)), i, NextPeriods(ps, DoMeasure(j, b), i))
  {
    assert ListenerSound(s.listeners[j], s.shared.tot, j);
    if j == i { AddMirrors(s.shared.win[i], ps, b); }
  }

  lemma TickTracks(s: System, u: nat, i: nat, ps: seq<seq<Sample>>)
    requires Sound(s) && 0 < |ps| && Tracks(s, i, ps)
    ensures Tracks(Next(s, DoTick(u)), i, NextPeriods(ps, DoTick(u), i))
  {
    SoundTick(s);
    if i < |s.shared.win| { TickMirrors(s.shared.win[i], ps); }
  }

  lemma StepTracks(s: System, e: Event, i: nat, ps: seq<seq<Sample>>)
    requires Sound(s) && Enabled(s, e) && 0 < |ps| && Tracks(s, i, ps)
    ensures Tracks(Next(s, e), i, NextPeriods(ps, e, i))
  {
    match e
    case DoMeasure(j, b) => MeasureTracks(s, j, b, i, ps);
    case DoTick(u) => TickTracks(s, u, i, ps);
    case GrowWindows => FreshMirrors();
    case _ =>
  }

  /** In every run, each thread's n_buffers, n_work, n_io_time and n_gen_time are the discounted
      sums over its history, and a thread without a window has no history. */
  lemma {:induction false} WindowsRefineHistory(es: seq<Event>, i: nat)
    requires Run(START, es).Reached?
    ensures Tracks(Run(START, es).state, i, Periods(es, i))
  {
    if es == [] {
    } else {
      WindowsRefineHistory(es[..|es| - 1], i);
      StepTracks(Run(START, es[..|es| - 1]).state, es[|es| - 1], i, Periods(es[..|es| - 1], i));
    }
  }

  /** The idle test of the next tick holds exactly when thread i got no buffer in this period. */
  lemma IdleTestIsExact(es: seq<Event>, i: nat)
    requires Run(START, es).Reached? && i < |Run(START, es).state.shared.win|
    ensures Idle(Run(START, es).state.shared.win[i]) <==> Periods(es, i)[|Periods(es, i)| - 1] == []
  {
    WindowsRefineHistory(es, i);
    IdleMeansNoBuffer(Run(START, es).state.shared.win[i], Periods(es, i));
  }

  lemma {:induction false} QuarterPositive(n: nat)
    ensures 0.0 < Quarter(n)
  {
    if n == 0 {
    } else {
      QuarterPositive(n - 1);
    }
  }

  lemma {:induction false} PeriodBound(p: seq<Sample>, age: nat, most: real)
    requires |p| as real <= most
    ensures PeriodSum(Buffers, p, age) <= most * Quarter(age)
  {
    QuarterPositive(age);
    if p == [] {
      MulLe(0.0, most, Quarter(age));
    } else {
      PeriodBound(p[..|p| - 1], age, most - 1.0);
      assert (most - 1.0) * Quarter(age) + 1.0 * Quarter(age) == most * Quarter(age);
    }
  }

  lemma {:induction false} GeometricBound(ps: seq<seq<Sample>>, age: nat, most: real)
    requires 0.0 < most && forall j :: 0 <= j < |ps| ==> |ps[j]| as real <= most
    ensures 3.0 * HistorySum(Buffers, ps, age) < 4.0 * (most * Quarter(age))
  {
    hide Quarter, PeriodSum;
    QuarterPositive(age);
    MulPos(most, Quarter(age));
    if ps == [] {
    } else {
      GeometricBound(ps[..|ps| - 1], age + 1, most);
      PeriodBound(ps[|ps| - 1], age, most);
      QuarterOf(most, age);
    }
  }

  /** With at most K buffers per control period the window never reaches 4K/3. */
  lemma WindowIsGeometric(es: seq<Event>, i: nat, most: nat)
    requires Run(START, es).Reached? && i < |Run(START, es).state.shared.win|
    requires 0 < most && forall j :: 0 <= j < |Periods(es, i)| ==> |Periods(es, i)[j]| <= most
    ensures Run(START, es).state.shared.win[i].buffers < 4.0 * most as real / 3.0
  {
    WindowsRefineHistory(es, i);
    assert Field(Buffers, Run(START, es).state.shared.win[i]) == HistorySum(Buffers, Periods(es, i), 0);
    GeometricBound(Periods(es, i), 0, most as real);
  }
}
