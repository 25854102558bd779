/** The running totals and instruction accounts refine the history of a run: each is the sum of what
    the thread's buffers brought, and a thread that runs alone is never balanced. */
module TotalsHistory {
  import opened Options
  import opened Layout
  import opened Balancing
  import opened BalancingRuns

  /** What the consumer adds up per thread: at the write, at the count, and at the end of the loop. */
  datatype Quantity = Bytes | WriteTime | Buffers | Calls | AppInstructions | UserInstructions

  /** The last buffer that thread i has written. */
  ghost function LastWritten(es: seq<Event>, i: nat): Option<Sample> {
    if es == [] then None
    else
      var e := es[|es| - 1];
      if e.DoWrite? && e.i == i then Some(e.b) else LastWritten(es[..|es| - 1], i)
  }

  /** What buffer b brings. */
  ghost function Share(q: Quantity, b: Sample): int {
    match q
    case Bytes => b.size
    case WriteTime => b.writeTime
    case Buffers => 1
    case Calls => b.fcalls
    case AppInstructions => b.ins
    case UserInstructions => b.userIns
  }

  /** The event at which thread i's quantity is added up. */
  ghost predicate AddsUp(q: Quantity, e: Event, i: nat) {
    match q
    case Calls => e == DoCount(i)
    case AppInstructions => e == DoSettle(i)
    case UserInstructions => e == DoSettle(i)
    case _ => e.DoWrite? && e.i == i
  }

  ghost function Total(q: Quantity, es: seq<Event>, i: nat): int {
    if es == [] then 0
    else
      var before := Total(q, es[..|es| - 1], i);
      var b := LastWritten(es, i);
      if AddsUp(q, es[|es| - 1], i) && b.Some? then before + Share(q, b.value) else before
  }

  /** The consumer's field for a quantity; 0 as long as thread i has none. */
  ghost function Stored(q: Quantity, sh: Shared, i: nat): int {
    match q
    case Bytes => if i < |sh.tot| then sh.tot[i].written else 0
    case WriteTime => if i < |sh.tot| then sh.tot[i].latency else 0
    case Buffers => if i < |sh.tot| then sh.tot[i].processed else 0
    case Calls => if i < |sh.tot| then sh.tot[i].fcalls else 0
    case AppInstructions => if i < |sh.acc| then sh.acc[i].appIns else 0
    case UserInstructions => if i < |sh.acc| then sh.acc[i].userIns else 0
  }

  ghost predicate Tallies(s: System, es: seq<Event>, i: nat) {
    && (forall q: Quantity :: Stored(q, s.shared, i) == Total(q, es, i))
    && (i < |s.listeners| && !s.listeners[i].Receiving? ==> LastWritten(es, i) == Some(s.listeners[i].b))
  }

  lemma LastWrittenSnoc(es: seq<Event>, e: Event, i: nat)
    ensures LastWritten(es + [e], i) == if e.DoWrite? && e.i == i then Some(e.b) else LastWritten(es, i)
  {
    assert (es + [e])[..|es|] == es;
  }

  lemma TotalSnoc(q: Quantity, es: seq<Event>, e: Event, i: nat)
    ensures Total(q, es + [e], i) ==
            var b := LastWritten(es + [e], i);
            if AddsUp(q, e, i) && b.Some? then Total(q, es, i) + Share(q, b.value) else Total(q, es, i)
  {
    assert (es + [e])[..|es|] == es;
  }

  /** One step changes thread i's fields by what its buffer brings, and nobody else's. */
  lemma StepStored(s: System, e: Event, i: nat, q: Quantity)
    requires Sound(s) && Enabled(s, e)
    ensures Stored(q, Next(s, e).shared, i) ==
            Stored(q, s.shared, i) +
            (if !AddsUp(q, e, i) then 0
             else if e.DoWrite? then Share(q, e.b)
             else if i < |s.listeners| && !s.listeners[i].Receiving? then Share(q, s.listeners[i].b) else 0)
  {
    hide Work, ListenerSound, WindowSound, Decision, Comparison, Decay, PeakUpTo, SlowdownUpTo, Factor;
  }

  lemma StepPosition(s: System, e: Event, i: nat)
    requires Sound(s) && Enabled(s, e) && i < |Next(s, e).listeners| && !Next(s, e).listeners[i].Receiving?
    ensures if e.DoWrite? && e.i == i then Next(s, e).listeners[i] == Written(e.b)
            else i < |s.listeners| && !s.listeners[i].Receiving? && Next(s, e).listeners[i].b == s.listeners[i].b
  {
    hide Work, ListenerSound, WindowSound, Plausible;
  }

  lemma StepTallies(s: System, es: seq<Event>, e: Event, i: nat)
    requires Sound(s) && Enabled(s, e) && Tallies(s, es, i)
    ensures Tallies(Next(s, e), es + [e], i)
  {
    hide Sound, Next;
    LastWrittenSnoc(es, e, i);
    forall q: Quantity ensures Stored(q, Next(s, e).shared, i) == Total(q, es + [e], i) {
      assert Stored(q, s.shared, i) == Total(q, es, i);
      TotalSnoc(q, es, e, i);
      StepStored(s, e, i, q);
    }
    if i < |Next(s, e).listeners| && !Next(s, e).listeners[i].Receiving? {
      StepPosition(s, e, i);
    }
  }

  lemma StartTallies(i: nat)
    ensures Tallies(START, [], i)
  {}

  /** In every run, for each thread: bytes, write times and buffers are the sums over the buffers it has
      written, calls over those counted, and instructions over those settled. */
  lemma {:induction false} TotalsRefineHistory(es: seq<Event>, i: nat)
    requires Run(START, es).Reached?
    ensures forall q: Quantity :: Stored(q, Run(START, es).state.shared, i) == Total(q, es, i)
    ensures Tallies(Run(START, es).state, es, i)
  {
    hide Next, Enabled, Stored, Total;
    if es == [] {
      StartTallies(i);
    } else {
      var front := es[..|es| - 1];
      TotalsRefineHistory(front, i);
      assert front + [es[|es| - 1]] == es;
      StepTallies(Run(START, front).state, front, es[|es| - 1], i);
    }
  }

  /** The sum of a quantity over the first n threads. */
  ghost function Overall(q: Quantity, es: seq<Event>, n: nat): int {
    if n == 0 then 0 else Overall(q, es, n - 1) + Total(q, es, n - 1)
  }

  lemma {:induction false} SumsAreOverall(acc: seq<Account>, es: seq<Event>)
    requires forall i :: 0 <= i < |acc| ==> acc[i].appIns == Total(AppInstructions, es, i)
    requires forall i :: 0 <= i < |acc| ==> acc[i].userIns == Total(UserInstructions, es, i)
    ensures AppSum(acc) == Overall(AppInstructions, es, |acc|)
    ensures UserSum(acc) == Overall(UserInstructions, es, |acc|)
  {
    hide Total;
    if acc == [] {
    } else {
      SumsAreOverall(acc[..|acc| - 1], es);
    }
  }

  lemma CostTimes(acc: seq<Account>, app: int, user: int)
    requires AppSum(acc) == app && UserSum(acc) == user
    ensures if app == 0 then InstrumentationCost(acc) == 1.0
            else InstrumentationCost(acc) * app as real == user as real
  {}

  /** The instrumentation cost that a tick works with: in every run it is 1 while no instruction has been
      settled, and otherwise times all application instructions settled it gives all user instructions. */
  lemma CostRefinesHistory(es: seq<Event>)
    requires Run(START, es).Reached?
    ensures var acc := Run(START, es).state.shared.acc;
            var app, user := Overall(AppInstructions, es, |acc|), Overall(UserInstructions, es, |acc|);
            if app == 0 then InstrumentationCost(acc) == 1.0
            else InstrumentationCost(acc) * app as real == user as real
  {
    hide Run, Total, Overall, AppSum, UserSum, InstrumentationCost;
    var acc := Run(START, es).state.shared.acc;
    forall i | 0 <= i < |acc|
      ensures acc[i].appIns == Total(AppInstructions, es, i) && acc[i].userIns == Total(UserInstructions, es, i)
    {
      TotalsRefineHistory(es, i);
      assert Stored(AppInstructions, Run(START, es).state.shared, i) == acc[i].appIns;
      assert Stored(UserInstructions, Run(START, es).state.shared, i) == acc[i].userIns;
    }
    SumsAreOverall(acc, es);
    CostTimes(acc, Overall(AppInstructions, es, |acc|), Overall(UserInstructions, es, |acc|));
  }

  /** With a single thread nothing is measured, offered or injected. */
  ghost predicate LeftAlone(s: System) {
    && (forall i :: 0 <= i < |s.shared.win| ==> s.shared.win[i] == FRESH)
    && (forall i :: 0 <= i < |s.shared.tot| ==> s.shared.tot[i].dummy == 0.0 && s.shared.tot[i].fcalls == 0)
    && (forall i :: 0 <= i < |s.listeners| ==>
          s.listeners[i].Receiving? || s.listeners[i].Written? || s.listeners[i].Settling?)
    && s.shared.maxRatio == 0.0
  }

  lemma StepLeftAlone(s: System, e: Event)
    requires Sound(s) && Enabled(s, e) && LeftAlone(s) && |Next(s, e).shared.win| <= 1
    ensures LeftAlone(Next(s, e))
  {
    hide Work, Plausible, SlowdownUpTo, Factor;
    if e.DoTick? {
      SoundTick(s);
      PeakIsLargest(s.shared, |s.shared.win|);
    }
  }

  lemma WindowsGrow(s: System, e: Event)
    requires Sound(s) && Enabled(s, e)
    ensures |s.shared.win| <= |Next(s, e).shared.win|
  {
    hide Work, Plausible, PeakUpTo, SlowdownUpTo, Factor, ListenerSound, WindowSound;
  }

  lemma StartLeftAlone()
    ensures LeftAlone(START)
  {}

  /** In every run, as long as there is at most one thread, its buffers are not measured and it is not
      delayed. */
  lemma {:induction false} AloneIsLeftAlone(es: seq<Event>)
    requires Run(START, es).Reached? && |Run(START, es).state.shared.win| <= 1
    ensures LeftAlone(Run(START, es).state)
  {
    hide Next, LeftAlone;
    if es == [] {
      StartLeftAlone();
    } else {
      var front, e := es[..|es| - 1], es[|es| - 1];
      WindowsGrow(Run(START, front).state, e);
      AloneIsLeftAlone(front);
      StepLeftAlone(Run(START, front).state, e);
    }
  }
}
