/** The kernel module: a factor in parts per thousand, written through sysfs, scales the
    argument of schedule_timeout and hrtimer_nanosleep. */
module SleepDilation {
  import opened Layout
  import opened Options
  import opened Decimal

  const DENOMINATOR: int := 1000

  const LONG_LIMIT: int := 0x8000_0000_0000_0000

  const MAX_SCHEDULE_TIMEOUT: int := LONG_LIMIT - 1

  /** Signed 64-bit arithmetic wraps around in the kernel. */
  function Wrap(x: int): (y: int)
    ensures -LONG_LIMIT <= y < LONG_LIMIT
    ensures -LONG_LIMIT <= x < LONG_LIMIT ==> y == x
  {
    (x + LONG_LIMIT) % (2 * LONG_LIMIT) - LONG_LIMIT
  }

  /** C division of a long by a positive number. */
  function TruncDiv(x: int, d: int): int
    requires 0 < d
  {
    if x < 0 then -((-x) / d) else x / d
  }

  /** mult_frac of linux/math.h, with each product and sum taken in a long. */
  function MultFrac(x: int, n: int): int
    requires 0 <= x
  {
    var q, r := x / DENOMINATOR, x % DENOMINATOR;
    Wrap(Wrap(q * n) + TruncDiv(Wrap(r * n), DENOMINATOR))
  }

  /** What the quotient-remainder form is meant to compute. */
  function Scaled(x: nat, n: nat): nat { x * n / DENOMINATOR }

  lemma QuotientRemainder(x: nat, n: nat)
    ensures Scaled(x, n) == (x / DENOMINATOR) * n + (x % DENOMINATOR) * n / DENOMINATOR
  {}

  lemma SumOfParts(a: nat, b: nat)
    requires b < LONG_LIMIT
    ensures Wrap(Wrap(a) + TruncDiv(Wrap(b), DENOMINATOR)) == a + b / DENOMINATOR <==> a + b / DENOMINATOR < LONG_LIMIT
  {
    hide Wrap;
    if a + b / DENOMINATOR < LONG_LIMIT { assert Wrap(a) == a; }
  }

  lemma MulLe(a: nat, b: nat, c: nat)
    requires a <= b
    ensures 0 <= a * c <= b * c
  {}

  lemma RemainderFits(r: nat, n: nat)
    requires r < DENOMINATOR && n < UINT_LIMIT
    ensures 0 <= r * n < LONG_LIMIT
  {
    MulLe(r, DENOMINATOR, n);
  }

  /** For a non-negative long and any unsigned factor, the machine result is the exact floor of
      x*n/1000 precisely when that floor fits a long, and then no intermediate overflows. */
  lemma MultFracExact(x: nat, n: nat)
    requires x < LONG_LIMIT && n < UINT_LIMIT
    ensures MultFrac(x, n) == Scaled(x, n) <==> Scaled(x, n) < LONG_LIMIT
    ensures Scaled(x, n) < LONG_LIMIT ==> (x / DENOMINATOR) * n < LONG_LIMIT
    ensures (x % DENOMINATOR) * n < LONG_LIMIT
  {
    hide Wrap, Scaled, TruncDiv;
    QuotientRemainder(x, n);
    RemainderFits(x % DENOMINATOR, n);
    assert 0 <= (x / DENOMINATOR) * n;
    SumOfParts((x / DENOMINATOR) * n, (x % DENOMINATOR) * n);
  }

  lemma ScaledMonotone(x: nat, y: nat, n: nat)
    requires x <= y
    ensures Scaled(x, n) <= Scaled(y, n)
  {
    assert x * n <= y * n;
  }

  lemma ScaledIdentity(x: nat)
    ensures Scaled(x, DENOMINATOR) == x
  {}

  lemma ScaledZero(n: nat)
    ensures Scaled(0, n) == 0
  {}

  lemma ScaledLonger(x: nat, n: nat)
    requires DENOMINATOR <= n
    ensures x <= Scaled(x, n)
  {}

  /** handler_pre_sched_timeout. */
  function ScheduleTimeout(timeout: int, interruptible: bool, factor: nat): int {
    if timeout == MAX_SCHEDULE_TIMEOUT || !interruptible || factor == DENOMINATOR || timeout <= 0
    then timeout else MultFrac(timeout, factor)
  }

  /** handler_pre_hrtimer_nanosleep. */
  function Nanosleep(rqtp: int, targetPid: int, tgid: int, factor: nat): int {
    if (targetPid > 0 && tgid != targetPid) || factor == DENOMINATOR || rqtp <= 0
    then rqtp else MultFrac(rqtp, factor)
  }

  /** A line without a plus sign at its start and a newline at its end. */
  function Stripped(line: string): string {
    var s := if line != [] && line[0] == '+' then line[1..] else line;
    if s != [] && s[|s| - 1] == '\n' then s[..|s| - 1] else s
  }

  /** The integer a line holds for kstrtouint: a plus sign, digits, one newline, all optional
      but the digits; None for anything else and for values that do not fit. */
  function KStrToUInt(line: string): Option<nat> {
    var t := Stripped(line);
    if t != [] && DigitsAhead(t) == |t| && Value(t) < UINT_LIMIT then Some(Value(t)) else None
  }

  class Registers {
    var di: int
  }

  class Module {
    var dilationFactor: nat
    var targetPid: int

    constructor ()
      ensures dilationFactor == 1000 && targetPid == 0
    {
      dilationFactor, targetPid := 1000, 0;
    }

    /** dilation_factor_store: a line that does not parse leaves the factor alone. */
    method StoreFactor(line: string) returns (stored: bool)
      modifies this`dilationFactor
      ensures stored == KStrToUInt(line).Some?
      ensures dilationFactor == if stored then KStrToUInt(line).value else old(dilationFactor)
    {
      var v := KStrToUInt(line);
      stored := v.Some?;
      if v.Some? {
        dilationFactor := v.value;
      }
    }

    method ProbeScheduleTimeout(regs: Registers, interruptible: bool)
      modifies regs
      ensures regs.di == ScheduleTimeout(old(regs.di), interruptible, dilationFactor)
    {
      var timeout := regs.di;
      if timeout == MAX_SCHEDULE_TIMEOUT { return; }
      if !interruptible { return; }
      if dilationFactor == DENOMINATOR { return; }
      if timeout <= 0 { return; }
      regs.di := MultFrac(timeout, dilationFactor);
    }

    method ProbeNanosleep(regs: Registers, tgid: int)
      modifies regs
      ensures regs.di == Nanosleep(old(regs.di), targetPid, tgid, dilationFactor)
    {
      if targetPid > 0 && tgid != targetPid { return; }
      if dilationFactor == DENOMINATOR { return; }
      var rqtp := regs.di;
      if rqtp <= 0 { return; }
      regs.di := MultFrac(rqtp, dilationFactor);
    }
  }

  /** The line the control thread writes for a factor is read back as that factor. */
  lemma StoredAsPublished(factor: nat)
    requires factor < UINT_LIMIT
    ensures KStrToUInt(Print(factor) + "\n") == Some(factor)
  {
    var s := Print(factor);
    var line := s + "\n";
    assert IsDigit(s[0]) && line[0] == s[0];
    assert line[..|line| - 1] == s;
    assert s + [] == s;
    DigitsAheadOf(s, []);
    PrintValue(factor);
  }

  /** A process that the target filter lets through. */
  predicate Targeted(targetPid: int, tgid: int) {
    targetPid <= 0 || tgid == targetPid
  }

  /** Both handlers, for every request, factor and process. What is dilated becomes exactly the
      floor of u*f/1000 if and only if that floor fits a long; with the factors the consumer
      publishes it is then no shorter than asked. As long as the longer request fits, longer
      requests do not end up below shorter ones. The unlimited timeout stays as it is, and no
      other timeout ends above it. */
  lemma SleepsAreScaled(t: nat, u: nat, factor: nat, targetPid: int, tgid: int)
    requires t <= u < LONG_LIMIT && factor < UINT_LIMIT
    ensures DENOMINATOR <= factor ==> u <= Scaled(u, factor)
    ensures !Targeted(targetPid, tgid) ==> Nanosleep(u, targetPid, tgid, factor) == u
    ensures Targeted(targetPid, tgid) ==>
              (Nanosleep(u, targetPid, tgid, factor) == Scaled(u, factor) <==> Scaled(u, factor) < LONG_LIMIT)
    ensures Scaled(u, factor) < LONG_LIMIT ==>
              Nanosleep(t, targetPid, tgid, factor) <= Nanosleep(u, targetPid, tgid, factor)
    ensures ScheduleTimeout(u, false, factor) == u
    ensures ScheduleTimeout(MAX_SCHEDULE_TIMEOUT, true, factor) == MAX_SCHEDULE_TIMEOUT
    ensures ScheduleTimeout(t, true, factor) <= MAX_SCHEDULE_TIMEOUT
    ensures u != MAX_SCHEDULE_TIMEOUT ==>
              (ScheduleTimeout(u, true, factor) == Scaled(u, factor) <==> Scaled(u, factor) < LONG_LIMIT)
    ensures Scaled(u, factor) < LONG_LIMIT || u == MAX_SCHEDULE_TIMEOUT ==>
              ScheduleTimeout(t, true, factor) <= ScheduleTimeout(u, true, factor)
  {
    hide Scaled;
    ScaledMonotone(t, u, factor);
    if DENOMINATOR <= factor { ScaledLonger(u, factor); }
    ScaledIdentity(t);
    ScaledIdentity(u);
    ScaledZero(factor);
    MultFracExact(t, factor);
    MultFracExact(u, factor);
  }

  /** Requests that are not positive, and all requests at factor 1000, are left alone by both handlers. */
  lemma LeftAlone(x: int, interruptible: bool, factor: nat, targetPid: int, tgid: int)
    requires x <= 0 || factor == 1000
    ensures ScheduleTimeout(x, interruptible, factor) == x && Nanosleep(x, targetPid, tgid, factor) == x
  {}

  /** The four ways to write down digits. */
  predicate WrittenAs(line: string, digits: string) {
    line == digits || line == "+" + digits || line == digits + "\n" || line == "+" + digits + "\n"
  }

  /** A line that holds exactly the number v: digits, perhaps after a plus sign, perhaps before one
      newline. */
  ghost predicate Holds(line: string, v: nat) {
    exists digits: string :: digits != [] && AllDigits(digits) && Value(digits) == v && WrittenAs(line, digits)
  }

  lemma AllDigitsAhead(t: string)
    ensures DigitsAhead(t) == |t| <==> AllDigits(t)
  {
    if AllDigits(t) {
      DigitsAheadOf(t, []);
      assert t + [] == t;
    }
  }

  lemma StrippedIs(line: string, digits: string)
    requires digits != [] && AllDigits(digits) && WrittenAs(line, digits)
    ensures Stripped(line) == digits
  {
    assert IsDigit(digits[0]) && IsDigit(digits[|digits| - 1]);
    var s := if line != [] && line[0] == '+' then line[1..] else line;
    assert s == digits || s == digits + "\n";
    assert (digits + "\n")[..|digits|] == digits;
  }

  lemma WrittenAsStripped(line: string)
    ensures WrittenAs(line, Stripped(line))
  {
    var s := if line != [] && line[0] == '+' then line[1..] else line;
    assert line == s || line == "+" + s;
    assert s == Stripped(line) || s == Stripped(line) + "\n";
    assert ("+" + Stripped(line)) + "\n" == "+" + (Stripped(line) + "\n");
  }

  /** The store handler accepts a line if and only if it holds a number of 32 bits, and stores that. */
  lemma ParsedExactly(line: string, v: nat)
    ensures KStrToUInt(line) == Some(v) <==> Holds(line, v) && v < 0x1_0000_0000
  {
    hide DigitsAhead, Value, WrittenAs, Stripped, IsDigit;
    AllDigitsAhead(Stripped(line));
    WrittenAsStripped(line);
    if Holds(line, v) {
      var digits: string :| digits != [] && AllDigits(digits) && Value(digits) == v && WrittenAs(line, digits);
      StrippedIs(line, digits);
    }
  }
}
