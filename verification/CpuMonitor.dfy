/** CPU_Monitor: differences of the four performance counters between calls, scaled up when the
    kernel multiplexed a counter. */
module CpuMonitor {
  import opened Options
  import opened Ratios

  datatype Reading = Reading(value: nat, enabled: nat, running: nat)

  const ZERO: Reading := Reading(0, 0, 0)

  datatype Readings = Readings(userIns: Reading, kernelIns: Reading, userCycles: Reading, kernelCycles: Reading)

  datatype Counts = Counts(userIns: int, userCycles: int, kernelIns: int, kernelCycles: int, multiplexed: bool)

  /** A counter never runs backwards. */
  predicate Later(last: Reading, current: Reading) {
    last.value <= current.value && last.enabled <= current.enabled && last.running <= current.running
  }

  predicate Multiplexed(last: Reading, current: Reading) {
    current.running > last.running && current.enabled - last.enabled > current.running - last.running
  }

  /** Conversion of a double to long long drops the fraction. */
  function Truncate(x: real): int {
    if x < 0.0 then -((-x).Floor) else x.Floor
  }

  /** A difference scaled by enabled over running time. */
  function ScaleBy(delta: int, enabled: int, running: int): int
    requires 0 < running
  {
    Truncate(delta as real * (enabled as real / running as real))
  }

  /** calculate_scaled_delta. */
  function ScaledDelta(last: Reading, current: Reading): int {
    var delta := current.value - last.value;
    if Multiplexed(last, current) then
      ScaleBy(delta, current.enabled - last.enabled, current.running - last.running)
    else delta
  }

  /** What one call reports, given the readings of the previous and of this call. */
  function Deltas(last: Readings, now: Readings): Counts {
    Counts(ScaledDelta(last.userIns, now.userIns), ScaledDelta(last.userCycles, now.userCycles),
           ScaledDelta(last.kernelIns, now.kernelIns), ScaledDelta(last.kernelCycles, now.kernelCycles),
           Multiplexed(last.userIns, now.userIns) || Multiplexed(last.kernelIns, now.kernelIns) ||
           Multiplexed(last.userCycles, now.userCycles) || Multiplexed(last.kernelCycles, now.kernelCycles))
  }

  /** The counter ran for part of the time it was enabled. */
  ghost predicate Shared(last: Reading, now: Reading) {
    0 < now.running - last.running < now.enabled - last.enabled
  }

  /** d is n * e / r rounded down. */
  ghost predicate Quotient(n: int, e: int, r: int, d: int) {
    d * r <= n * e < (d + 1) * r
  }

  /** d is n * e / r rounded towards zero. */
  ghost predicate Rounded(n: int, e: int, r: int, d: int) {
    if 0 <= n then Quotient(n, e, r, d) else Quotient(-n, e, r, -d)
  }

  /** d is the difference of one counter between two readings: exact if the counter ran all the time,
      otherwise scaled by enabled over running time and rounded towards zero. */
  ghost predicate Measures(last: Reading, now: Reading, d: int) {
    var delta, enabled, running := now.value - last.value, now.enabled - last.enabled, now.running - last.running;
    if Shared(last, now) then Rounded(delta, enabled, running, d) else d == delta
  }

  lemma {:induction false} ProductsOfReals(d: nat, r: nat)
    ensures (d * r) as real == d as real * r as real
  {
    if d == 0 {
    } else {
      ProductsOfReals(d - 1, r);
      assert d * r == (d - 1) * r + r;
      assert d as real * r as real == (d - 1) as real * r as real + r as real;
    }
  }

  lemma MulLess(a: real, b: real, c: real)
    requires a < b && 0.0 < c
    ensures a * c < b * c
  {
    assert (b - a) * c > 0.0;
  }

  lemma BelowProduct(x: real, k: nat, r: nat, product: nat, m: nat)
    requires 0 < r && x < k as real && x * r as real == product as real && m == k * r
    ensures product < m
  {
    MulLess(x, k as real, r as real);
    ProductsOfReals(k, r);
    assert product as real < m as real;
  }

  lemma RoundsDown(x: real, product: nat, r: nat)
    requires 0 < r && 0.0 <= x && x * r as real == product as real
    ensures 0 <= x.Floor && x.Floor * r <= product < (x.Floor + 1) * r
  {
    FloorOf(0, x);
    var d := x.Floor;
    MulLe(d as real, x, r as real);
    ProductsOfReals(d, r);
    BelowProduct(x, d + 1, r, product, (d + 1) * r);
  }

  lemma ProductOver(delta: nat, e: nat, r: nat)
    requires 0 < r
    ensures delta as real * (e as real / r as real) * r as real == (delta * e) as real
  {
    var q := e as real / r as real;
    assert q * r as real == e as real;
    assert delta as real * q * r as real == delta as real * (q * r as real);
    ProductsOfReals(delta, e);
  }

  /** Scaling a difference of at least 0, in integers. */
  lemma ScaledRoundsDown(delta: nat, e: nat, r: nat, x: real)
    requires 0 < r && x == delta as real * (e as real / r as real)
    ensures 0.0 <= x && Quotient(delta, e, r, x.Floor)
  {
    ProductOver(delta, e, r);
    DivLe(e as real, 0.0, r as real);
    MulLe(0.0, delta as real, e as real / r as real);
    RoundsDown(x, delta * e, r);
  }

  lemma Negated(delta: int, q: real)
    requires 0.0 < q && delta < 0
    ensures -(delta as real * q) == (-delta) as real * q && delta as real * q < 0.0
  {
    MulLess(delta as real, 0.0, q);
  }

  lemma ScaleUp(delta: nat, e: nat, r: nat)
    requires 0 < r
    ensures Quotient(delta, e, r, ScaleBy(delta, e, r))
  {
    hide Quotient;
    ScaledRoundsDown(delta, e, r, delta as real * (e as real / r as real));
  }

  lemma TruncateNegative(x: real, y: real)
    requires x < 0.0 && y == -x
    ensures Truncate(x) == -y.Floor
  {}

  lemma ScaleDown(delta: int, e: nat, r: nat)
    requires 0 < r && 0 < e && delta < 0
    ensures Quotient(-delta, e, r, -ScaleBy(delta, e, r))
  {
    hide Quotient;
    PositiveQuotient(e as real, r as real);
    var y := (-delta) as real * (e as real / r as real);
    Negated(delta, e as real / r as real);
    TruncateNegative(delta as real * (e as real / r as real), y);
    ScaledRoundsDown(-delta, e, r, y);
    assert -ScaleBy(delta, e, r) == y.Floor;
  }

  lemma ScaledMeasures(last: Reading, now: Reading)
    ensures Measures(last, now, ScaledDelta(last, now)) && (Multiplexed(last, now) <==> Shared(last, now))
  {
    hide ScaleBy, Quotient;
    if Shared(last, now) {
      var delta, e, r := now.value - last.value, now.enabled - last.enabled, now.running - last.running;
      if 0 <= delta {
        ScaleUp(delta, e, r);
      } else {
        ScaleDown(delta, e, r);
      }
    }
  }

  class Monitor {
    var last: Readings

    constructor ()
      ensures last == Readings(ZERO, ZERO, ZERO, ZERO)
    {
      last := Readings(ZERO, ZERO, ZERO, ZERO);
    }

    /** The lambda of get_deltas, for one counter: it sets the shared flag but never clears it. */
    static method Scale(current: Reading, previous: Reading, flag: bool) returns (delta: int, flag': bool)
      ensures delta == ScaledDelta(previous, current)
      ensures flag' == (flag || Multiplexed(previous, current))
    {
      delta, flag' := current.value - previous.value, flag;
      var enabledDelta, runningDelta := current.enabled - previous.enabled, current.running - previous.running;
      if runningDelta > 0 && enabledDelta > runningDelta {
        flag' := true;
        delta := Truncate(delta as real * (enabledDelta as real / runningDelta as real));
      }
    }

    /** A read reports None when the thread has ended; then no counter has advanced. */
    method GetDeltas(ui: Option<Reading>, ki: Option<Reading>, uc: Option<Reading>, kc: Option<Reading>)
      returns (r: Option<Counts>)
      modifies this
      ensures r.None? <==> ui.None? || ki.None? || uc.None? || kc.None?
      ensures r.None? ==> last == old(last)
      ensures r.Some? ==> last == Readings(ui.value, ki.value, uc.value, kc.value)
      ensures r.Some? ==> r.value == Deltas(old(last), last)
      ensures r.Some? ==>
                && Measures(old(last).userIns, ui.value, r.value.userIns)
                && Measures(old(last).kernelIns, ki.value, r.value.kernelIns)
                && Measures(old(last).userCycles, uc.value, r.value.userCycles)
                && Measures(old(last).kernelCycles, kc.value, r.value.kernelCycles)
                && (r.value.multiplexed <==>
                      Shared(old(last).userIns, ui.value) || Shared(old(last).kernelIns, ki.value) ||
                      Shared(old(last).userCycles, uc.value) || Shared(old(last).kernelCycles, kc.value))
    {
      if ui.None? || ki.None? || uc.None? || kc.None? {
        return None;
      }
      ScaledMeasures(last.userIns, ui.value);
      ScaledMeasures(last.kernelIns, ki.value);
      ScaledMeasures(last.userCycles, uc.value);
      ScaledMeasures(last.kernelCycles, kc.value);
      hide Measures, ScaledDelta, Shared, Multiplexed;
      var flag := false;
      var userIns, kernelIns, userCycles, kernelCycles;
      userIns, flag := Scale(ui.value, last.userIns, flag);
      kernelIns, flag := Scale(ki.value, last.kernelIns, flag);
      userCycles, flag := Scale(uc.value, last.userCycles, flag);
      kernelCycles, flag := Scale(kc.value, last.kernelCycles, flag);
      last := Readings(ui.value, ki.value, uc.value, kc.value);
      r := Some(Counts(userIns, userCycles, kernelIns, kernelCycles, flag));
    }
  }

  /** One counter over a series of calls. */
  ghost predicate Advancing(rs: seq<Reading>) {
    forall k :: 0 <= k < |rs| - 1 ==> Later(rs[k], rs[k + 1])
  }

  ghost function DeltaSum(rs: seq<Reading>): int {
    if |rs| < 2 then 0 else DeltaSum(rs[..|rs| - 1]) + ScaledDelta(rs[|rs| - 2], rs[|rs| - 1])
  }

  lemma ScaledUp(d: real, e: real, r: real)
    requires 0.0 <= d && 0.0 < r <= e
    ensures d <= d * (e / r)
  {
    DivLe(e, 1.0, r);
    MulLe(1.0, e / r, d);
  }

  lemma TruncateLe(n: nat, x: real)
    requires n as real <= x
    ensures n <= Truncate(x)
  {
    FloorOf(n, x);
  }

  lemma ScalingOnlyAdds(last: Reading, current: Reading)
    requires Later(last, current)
    ensures ScaledDelta(last, current) >= current.value - last.value
  {
    if Multiplexed(last, current) {
      var d := current.value - last.value;
      var e, r := (current.enabled - last.enabled) as real, (current.running - last.running) as real;
      hide Truncate;
      ScaledUp(d as real, e, r);
      TruncateLe(d, d as real * (e / r));
    }
  }

  /** The reported differences add up to at least what the counter advanced in all, and to
      exactly that when no call saw multiplexing. */
  lemma {:induction false} DeltasConserve(rs: seq<Reading>)
    requires rs != [] && Advancing(rs)
    ensures DeltaSum(rs) >= rs[|rs| - 1].value - rs[0].value
    ensures (forall k :: 0 <= k < |rs| - 1 ==> !Multiplexed(rs[k], rs[k + 1])) ==>
              DeltaSum(rs) == rs[|rs| - 1].value - rs[0].value
  {
    if |rs| <= 1 {
    } else {
      DeltasConserve(rs[..|rs| - 1]);
      ScalingOnlyAdds(rs[|rs| - 2], rs[|rs| - 1]);
      assert Later(rs[|rs| - 2], rs[|rs| - 2 + 1]);
    }
  }
}
