/** The thread name that connects the two processes: the Pin tool prints
    <prefix>-<native id>.<tid>, the consumer parses it back from the last '-' and the last '.'. */
module ThreadName {
  import opened Options
  import opened Decimal

  const INT_MAX: int := 0x7fff_ffff

  const SIZE_LIMIT: nat := 0x1_0000_0000_0000_0000

  function Assembled(prefix: string, a: string, b: string): string {
    prefix + "-" + a + "." + b
  }

  function ThreadStartName(prefix: string, nativeTid: nat, tid: nat): string {
    Assembled(prefix, Print(nativeTid), Print(tid))
  }

  /** Position of the last occurrence, std::string::find_last_of for one character. */
  function FindLast(s: string, c: char): (p: Option<nat>)
    ensures p.None? <==> c !in s
    ensures p.Some? ==> p.value < |s| && s[p.value] == c && c !in s[p.value + 1..]
  {
    if s == [] then None
    else if s[|s| - 1] == c then Some(|s| - 1)
    else FindLast(s[..|s| - 1], c)
  }

  /** substr: at most `count` characters from `from`. */
  function Substring(s: string, from: nat, count: nat): string
    requires from <= |s|
  {
    if count <= |s| - from then s[from..from + count] else s[from..]
  }

  predicate IsSpace(c: char) {
    c == ' ' || c == '\t' || c == '\n' || c == '\r' || c == (11 as char) || c == (12 as char)
  }

  function SkipSpace(s: string): string {
    if s != [] && IsSpace(s[0]) then SkipSpace(s[1..]) else s
  }

  datatype Number = Parsed(value: int) | NoDigits | OutOfRange

  /** What stoi makes of a value. */
  function InRange(v: int): Number {
    if -INT_MAX - 1 <= v <= INT_MAX then Parsed(v) else OutOfRange
  }

  /** The digits ahead in a text, with a sign. */
  function Converted(negative: bool, u: string): Number {
    var n := DigitsAhead(u);
    if n == 0 then NoDigits
    else
      var m: int := Value(u[..n]);
      InRange(if negative then -m else m)
  }

  /** std::stoi: white space, a sign, then as many digits as follow; the rest is ignored. */
  function Stoi(s: string): Number {
    var t := SkipSpace(s);
    var signed := t != [] && (t[0] == '-' || t[0] == '+');
    Converted(signed && t[0] == '-', if signed then t[1..] else t)
  }

  datatype Parse = Ids(pid: int, tid: int) | Malformed | Throws

  /** The length of the text between a dash and a period, computed in size_t. */
  function Distance(dash: nat, period: nat): nat {
    (period - dash - 1) % SIZE_LIMIT
  }

  /** Lines 775-784 of src/consumer/consumer.cpp. */
  function ParseName(s: string): Parse {
    var period, dash := FindLast(s, '.'), FindLast(s, '-');
    if period.None? || dash.None? then Malformed
    else
      var count := Distance(dash.value, period.value);
      var pid := Stoi(Substring(s, dash.value + 1, count));
      var tid := Stoi(Substring(s, period.value + 1, |s|));
      if pid.Parsed? && tid.Parsed? then Ids(pid.value, tid.value) else Throws
  }

  lemma {:induction false} LastIs(s: string, c: char, t: string)
    requires c !in t
    ensures FindLast(s + [c] + t, c) == Some(|s|)
  {
    var u := s + [c] + t;
    if t == [] {
      assert u == s + [c];
    } else {
      var n := |t| - 1;
      assert u[..|u| - 1] == s + [c] + t[..n] && u[|u| - 1] == t[n] && t[n] in t;
      LastIs(s, c, t[..n]);
    }
  }

  predicate AllSpace(s: string) {
    forall k :: 0 <= k < |s| ==> IsSpace(s[k])
  }

  lemma {:induction false} SkipsSpace(space: string, s: string)
    requires AllSpace(space) && (s == [] || !IsSpace(s[0]))
    ensures SkipSpace(space + s) == s
  {
    if space == [] {
      assert space + s == s;
    } else {
      SkipsSpace(space[1..], s);
      assert (space + s)[1..] == space[1..] + s;
    }
  }

  lemma ConvertedDigits(negative: bool, digits: string, tail: string)
    requires digits != [] && AllDigits(digits) && (tail == [] || !IsDigit(tail[0]))
    ensures Converted(negative, digits + tail) == InRange(if negative then -(Value(digits) as int) else Value(digits))
  {
    hide Value, DigitsAhead;
    DigitsAheadOf(digits, tail);
    assert (digits + tail)[..|digits|] == digits;
  }

  lemma InRangeIs(v: int)
    ensures InRange(v) == if -2147483648 <= v <= 2147483647 then Parsed(v) else OutOfRange
  {}

  lemma StoiSigned(s: string, sign: char, u: string)
    requires SkipSpace(s) == [sign] + u && (sign == '-' || sign == '+')
    ensures Stoi(s) == Converted(sign == '-', u)
  {
    hide Converted, SkipSpace;
    assert ([sign] + u)[1..] == u;
  }

  lemma StoiUnsigned(s: string, u: string)
    requires SkipSpace(s) == u && (u == [] || (u[0] != '-' && u[0] != '+'))
    ensures Stoi(s) == Converted(false, u)
  {
    hide Converted, SkipSpace;
  }

  /** std::stoi reads white space, a sign and digits, and ignores what follows them; it reads no number
      from anything without a digit there. */
  lemma StoiReads(space: string, digits: string, tail: string)
    requires AllSpace(space) && digits != [] && AllDigits(digits) && (tail == [] || !IsDigit(tail[0]))
    ensures Stoi(space + digits + tail) == InRange(Value(digits))
    ensures Stoi(space + "+" + digits + tail) == InRange(Value(digits))
    ensures Stoi(space + "-" + digits + tail) == InRange(-(Value(digits) as int))
  {
    hide Value, Stoi, SkipSpace, InRange, Converted;
    var u := digits + tail;
    assert u[0] == digits[0] && IsDigit(digits[0]);
    ConvertedDigits(false, digits, tail);
    ConvertedDigits(true, digits, tail);
    SkipsSpace(space, u);
    SkipsSpace(space, ['+'] + u);
    SkipsSpace(space, ['-'] + u);
    assert space + digits + tail == space + u;
    assert space + "+" + digits + tail == space + (['+'] + u);
    assert space + "-" + digits + tail == space + (['-'] + u);
    StoiUnsigned(space + u, u);
    StoiSigned(space + (['+'] + u), '+', u);
    StoiSigned(space + (['-'] + u), '-', u);
  }

  lemma StoiFindsNothing(space: string, sign: string, tail: string)
    requires AllSpace(space) && (sign == "" || sign == "+" || sign == "-") && (tail == [] || !IsDigit(tail[0]))
    requires sign == "" ==> tail == [] || (!IsSpace(tail[0]) && tail[0] != '+' && tail[0] != '-')
    ensures Stoi(space + sign + tail) == NoDigits
  {
    hide SkipSpace, Stoi;
    SkipsSpace(space, sign + tail);
    assert space + sign + tail == space + (sign + tail);
    if sign == "" {
      assert sign + tail == tail;
      StoiUnsigned(space + sign + tail, tail);
    } else {
      assert sign == [sign[0]];
      StoiSigned(space + sign + tail, sign[0], tail);
    }
  }

  lemma StoiOfPrint(n: nat)
    ensures Stoi(Print(n)) == if n <= 2147483647 then Parsed(n) else OutOfRange
  {
    hide Stoi, Print, Value, InRange;
    StoiReads([], Print(n), []);
    InRangeIs(n);
    assert [] + Print(n) + [] == Print(n);
    PrintValue(n);
  }

  lemma SmallModulus(n: nat)
    requires n < SIZE_LIMIT
    ensures n % SIZE_LIMIT == n
  {}

  lemma DigitsLack(s: string, c: char)
    requires AllDigits(s) && !IsDigit(c)
    ensures c !in s
  {}

  lemma Middle(x: string, y: string, z: string)
    ensures Substring(x + y + z, |x|, |y|) == y
    ensures Substring(x + y, |x|, |x + y|) == y
  {}

  lemma DashAt(prefix: string, a: string, b: string)
    requires '-' !in a && '-' !in b
    ensures FindLast(Assembled(prefix, a, b), '-') == Some(|prefix|)
    ensures Substring(Assembled(prefix, a, b), |prefix| + 1, |a|) == a
  {
    hide FindLast, Substring;
    var t := a + "." + b;
    assert '-' !in t;
    var s := Assembled(prefix, a, b);
    assert s == prefix + ['-'] + t by { assert ['-'] == "-"; }
    LastIs(prefix, '-', t);
    assert s == (prefix + "-") + a + ("." + b);
    Middle(prefix + "-", a, "." + b);
  }

  lemma PeriodAt(prefix: string, a: string, b: string)
    requires '.' !in b
    ensures FindLast(Assembled(prefix, a, b), '.') == Some(|prefix| + 1 + |a|)
    ensures |prefix| + 1 + |a| < |Assembled(prefix, a, b)|
    ensures Substring(Assembled(prefix, a, b), |prefix| + 1 + |a| + 1, |Assembled(prefix, a, b)|) == b
  {
    hide FindLast, Substring;
    var front := prefix + "-" + a;
    LastIs(front, '.', b);
    assert Assembled(prefix, a, b) == front + ['.'] + b;
    Middle(front + ".", b, "");
  }

  /** The outcome of the two conversions. */
  function Both(p: Number, t: Number): Parse {
    if p.Parsed? && t.Parsed? then Ids(p.value, t.value) else Throws
  }

  /** A name is malformed exactly if it lacks a dash or a period. */
  lemma ParseMalformed(s: string)
    ensures ParseName(s) == Malformed <==> '-' !in s || '.' !in s
  {
    hide Stoi, Substring;
  }

  /** The parser, given where the searches stop and how long the first text is. */
  lemma ParseGiven(s: string, dash: nat, period: nat, count: nat, pid: string, tid: string)
    requires period < |s| && dash < |s| && count == Distance(dash, period)
    requires FindLast(s, '-') == Some(dash) && FindLast(s, '.') == Some(period)
    requires Substring(s, dash + 1, count) == pid && Substring(s, period + 1, |s|) == tid
    ensures ParseName(s) == Both(Stoi(pid), Stoi(tid))
  {
    hide Stoi, FindLast, Substring, Distance;
  }

  /** If the last dash of a name comes before its last period, the two texts behind them are converted,
      whatever they are. */
  lemma ParseAssembled(prefix: string, a: string, b: string)
    requires '-' !in a && '-' !in b && '.' !in b && |Assembled(prefix, a, b)| < SIZE_LIMIT
    ensures ParseName(Assembled(prefix, a, b)) == Both(Stoi(a), Stoi(b))
  {
    hide Stoi, Substring, FindLast, Assembled, ParseName;
    DashAt(prefix, a, b);
    PeriodAt(prefix, a, b);
    SmallModulus(|a|);
    ParseGiven(Assembled(prefix, a, b), |prefix|, |prefix| + 1 + |a|, |a|, a, b);
  }

  lemma WrapsAround(d: int)
    requires -(SIZE_LIMIT / 2) <= d < 0
    ensures d % SIZE_LIMIT == d + SIZE_LIMIT
  {}

  lemma TailOf(x: string, y: string, count: nat)
    requires |y| <= count
    ensures Substring(x + y, |x|, count) == y
  {}

  /** Text b behind the last occurrence of c. */
  lemma Behind(front: string, c: char, b: string, count: nat)
    requires c !in b && |b| <= count
    ensures FindLast(front + [c] + b, c) == Some(|front|)
    ensures Substring(front + [c] + b, |front| + 1, count) == b
  {
    hide FindLast, Substring;
    LastIs(front, c, b);
    TailOf(front + [c], b, count);
  }

  lemma TwoShapes(prefix: string, a: string, b: string)
    requires '.' !in a && '.' !in b
    ensures prefix + "." + a + "-" + b == (prefix + "." + a) + ['-'] + b == prefix + ['.'] + (a + "-" + b)
    ensures '.' !in a + "-" + b
  {
    assert ['-'] == "-" && ['.'] == ".";
    assert prefix + "." + a + "-" + b == prefix + "." + (a + "-" + b);
  }

  /** A last dash behind the last period makes the length of the first text wrap around: it is then the
      text behind the dash, and the second one is all that follows the period. */
  lemma ParseDashBehind(prefix: string, a: string, b: string)
    requires '.' !in a && '.' !in b && '-' !in b && |prefix + "." + a + "-" + b| < SIZE_LIMIT / 2
    ensures ParseName(prefix + "." + a + "-" + b) == Both(Stoi(b), Stoi(a + "-" + b))
  {
    hide Stoi, FindLast, Substring, ParseName, Both;
    var s, front, rest := prefix + "." + a + "-" + b, prefix + "." + a, a + "-" + b;
    TwoShapes(prefix, a, b);
    var count := |prefix| - |front| - 1 + SIZE_LIMIT;
    WrapsAround(|prefix| - |front| - 1);
    Behind(front, '-', b, count);
    Behind(prefix, '.', rest, |s|);
    ParseGiven(s, |front|, |prefix|, count, b, rest);
  }

  /** For every prefix, also one with dashes, dots, blanks or signs, the name that was printed
      parses back to the same two numbers, exactly when both fit an int; otherwise stoi throws. */
  lemma NameRoundTrip(prefix: string, nativeTid: nat, tid: nat)
    requires |ThreadStartName(prefix, nativeTid, tid)| < SIZE_LIMIT
    ensures ParseName(ThreadStartName(prefix, nativeTid, tid)) == Ids(nativeTid, tid) <==>
            nativeTid <= 2147483647 && tid <= 2147483647
    ensures nativeTid > 2147483647 || tid > 2147483647 ==> ParseName(ThreadStartName(prefix, nativeTid, tid)) == Throws
  {
    hide FindLast, Substring, Stoi, Print, Assembled, ParseName, AllDigits;
    var a, b := Print(nativeTid), Print(tid);
    DigitsLack(a, '-');
    DigitsLack(b, '-');
    DigitsLack(b, '.');
    StoiOfPrint(nativeTid);
    StoiOfPrint(tid);
    ParseAssembled(prefix, a, b);
  }
}
