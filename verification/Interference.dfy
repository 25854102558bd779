/** One listener's pass through its loop body while other threads take any steps of theirs between
    its lock regions. */
module Interference {
  import opened Ratios
  import opened Balancing
  import opened BalancingRuns

  /** A step that is not listener i's. */
  predicate ByOther(e: Event, i: nat) {
    e.GrowAccounts? || e.GrowWindows? || e.GrowTotals? || e.DoTick? || e.i != i
  }

  ghost predicate OthersOnly(es: seq<Event>, i: nat) {
    forall k :: 0 <= k < |es| ==> ByOther(es[k], i)
  }

  /** Listener i's own steps among these. */
  ghost function Own(es: seq<Event>, i: nat): seq<Event> {
    if es == [] then []
    else
      var front, e := Own(es[..|es| - 1], i), es[|es| - 1];
      if ByOther(e, i) then front else front + [e]
  }

  /** What the other threads do while listener i is between two lock regions: the k-th time, from
      state t, they take the steps moves(k, t), which lead to others(k, t). */
  ghost predicate Undisturbing(i: nat, others: (nat, System) -> System, moves: (nat, System) -> seq<Event>) {
    forall k: nat, t: System :: Sound(t) && i < |t.listeners| ==>
      OthersOnly(moves(k, t), i) && Run(t, moves(k, t)) == Reached(others(k, t))
  }

  /** In particular they may do nothing. */
  lemma Quietly(i: nat)
    ensures Undisturbing(i, (k, t) => t, (k, t) => [])
  {}

  /** Listener i has written buffer b and not yet another one. */
  ghost predicate OneBuffer(es: seq<Event>, i: nat, b: Sample) {
    var own := Own(es, i);
    own != [] && own[0] == DoWrite(i, b) && forall k :: 0 < k < |own| ==> !own[k].DoWrite?
  }

  /** From s the steps es have led to t, in which listener i is at l with buffer b. */
  ghost predicate Standing(s: System, es: seq<Event>, i: nat, b: Sample, t: System, l: Listener)
    requires Sound(s)
  {
    Run(s, es) == Reached(t) && OneBuffer(es, i, b) && i < |t.listeners| && t.listeners[i] == l
  }

  lemma OwnSnoc(es: seq<Event>, e: Event, i: nat)
    ensures Own(es + [e], i) == if ByOther(e, i) then Own(es, i) else Own(es, i) + [e]
  {
    assert (es + [e])[..|es|] == es;
  }

  lemma {:induction false} OwnAppend(es: seq<Event>, fs: seq<Event>, i: nat)
    requires OthersOnly(fs, i)
    ensures Own(es + fs, i) == Own(es, i)
  {
    if fs == [] {
      assert es + fs == es;
    } else {
      var front, e := fs[..|fs| - 1], fs[|fs| - 1];
      OwnAppend(es, front, i);
      OwnSnoc(es + front, e, i);
      assert es + fs == es + front + [e];
    }
  }

  lemma {:induction false} RunAppend(s: System, es: seq<Event>, t: System, fs: seq<Event>)
    requires Sound(s) && Run(s, es) == Reached(t)
    ensures Run(s, es + fs) == Run(t, fs)
  {
    hide Sound, Next, Enabled;
    if fs == [] {
      assert es + fs == es;
    } else {
      var front := fs[..|fs| - 1];
      RunAppend(s, es, t, front);
      assert (es + fs)[..|es + fs| - 1] == es + front;
    }
  }

  /** Listener i's position, totals and account are its own; its window is there to stay. */
  ghost predicate Kept(t: System, u: System, i: nat) {
    && i < |t.listeners| <= |u.listeners| && u.listeners[i] == t.listeners[i]
    && i < |t.shared.tot| <= |u.shared.tot| && u.shared.tot[i] == t.shared.tot[i]
    && i < |t.shared.acc| <= |u.shared.acc| && u.shared.acc[i] == t.shared.acc[i]
    && i < |t.shared.win| <= |u.shared.win|
  }

  lemma StepKeeps(t: System, e: Event, i: nat)
    requires Sound(t) && Enabled(t, e) && i < |t.listeners| && ByOther(e, i)
    ensures Kept(t, Next(t, e), i)
  {
    hide Plausible, Work, Decision, Comparison, ListenerSound, WindowSound;
  }

  lemma KeptOn(t: System, u: System, v: System, i: nat)
    requires Kept(t, u, i) && Kept(u, v, i)
    ensures Kept(t, v, i)
  {}

  lemma KeptSelf(t: System, i: nat)
    requires Sound(t) && i < |t.listeners|
    ensures Kept(t, t, i)
  {}

  lemma KeptThere(t: System, u: System, i: nat)
    requires Kept(t, u, i)
    ensures i < |u.listeners|
  {}

  lemma {:induction false} OthersKeep(t: System, es: seq<Event>, i: nat)
    requires Sound(t) && i < |t.listeners| && Run(t, es).Reached? && OthersOnly(es, i)
    ensures Kept(t, Run(t, es).state, i)
  {
    hide Sound, Kept, ByOther, Next, Enabled;
    if es == [] {
      KeptSelf(t, i);
    } else {
      var front := es[..|es| - 1];
      OthersKeep(t, front, i);
      var u := Run(t, front).state;
      assert i < |u.listeners| by { KeptThere(t, u, i); }
      StepKeeps(u, es[|es| - 1], i);
      KeptOn(t, u, Run(t, es).state, i);
    }
  }

  /** The others' turn. */
  lemma StandingStays(s: System, es: seq<Event>, i: nat, b: Sample, t: System, l: Listener, fs: seq<Event>, u: System)
    requires Sound(s) && Standing(s, es, i, b, t, l) && OthersOnly(fs, i) && Run(t, fs) == Reached(u)
    ensures Standing(s, es + fs, i, b, u, l) && Kept(t, u, i)
  {
    hide Sound, Run, OthersOnly, Own;
    OthersKeep(t, fs, i);
    RunAppend(s, es, t, fs);
    OwnAppend(es, fs, i);
  }

  /** Listener i's own turn. */
  lemma Advance(s: System, es: seq<Event>, e: Event, i: nat, b: Sample, t: System, l: Listener,
                sh: Shared, l': Listener)
    requires Sound(s) && Standing(s, es, i, b, t, l) && !ByOther(e, i) && !e.DoWrite?
    requires Enabled(t, e) && Next(t, e) == Move(t, i, sh, l')
    ensures Standing(s, es + [e], i, b, Move(t, i, sh, l'), l')
  {
    hide Sound, Run, Next, Enabled, Own;
    RunExtends(s, es, e);
    OwnSnoc(es, e, i);
  }

  lemma Bounds(t: System, i: nat)
    requires Sound(t) && i < |t.listeners|
    ensures i < |t.shared.tot| && i < |t.shared.acc| && i < |t.shared.win|
    ensures ListenerSound(t.listeners[i], t.shared.tot, i)
  {}

  /** The delay recorded for thread i so far. */
  function Dummy(t: System, i: nat): real {
    if i < |t.shared.tot| then t.shared.tot[i].dummy else 0.0
  }

  /** What listener i can rely on at l: its vectors are in place and its locals are sound. */
  ghost predicate Ready(t: System, i: nat, l: Listener) {
    && i < |t.listeners| && i < |t.shared.tot| && i < |t.shared.acc| && i < |t.shared.win|
    && ListenerSound(l, t.shared.tot, i)
  }

  lemma AfterOthers(s: System, es: seq<Event>, i: nat, b: Sample, t: System, l: Listener, fs: seq<Event>, u: System)
    requires Sound(s) && Standing(s, es, i, b, t, l) && OthersOnly(fs, i) && Run(t, fs) == Reached(u)
    ensures Standing(s, es + fs, i, b, u, l) && Ready(u, i, l)
    ensures Dummy(u, i) == Dummy(t, i) && |t.shared.win| <= |u.shared.win|
  {
    hide ListenerSound, Run, Own, OneBuffer, Sound;
    StandingStays(s, es, i, b, t, l, fs, u);
    Bounds(u, i);
  }

  lemma WriteMoves(s: System, i: nat, b: Sample)
    requires Sound(s) && i < |s.listeners| && s.listeners[i].Receiving? && Plausible(b)
    ensures i < |s.shared.tot| && Enabled(s, DoWrite(i, b))
    ensures Next(s, DoWrite(i, b)) == Move(s, i, RecordWrite(s.shared, i, b), Written(b))
  {
    hide Plausible, ListenerSound, WindowSound;
  }

  lemma AfterWrite(s: System, i: nat, b: Sample)
    requires Sound(s) && i < |s.listeners| && s.listeners[i].Receiving? && Plausible(b)
    ensures i < |s.shared.tot|
    ensures Standing(s, [DoWrite(i, b)], i, b, Move(s, i, RecordWrite(s.shared, i, b), Written(b)), Written(b))
  {
    hide Sound, Plausible, Next, Enabled;
    WriteMoves(s, i, b);
    RunExtends(s, [], DoWrite(i, b));
    OwnSnoc([], DoWrite(i, b), i);
    assert [] + [DoWrite(i, b)] == [DoWrite(i, b)];
  }

  lemma AfterMeasure(s: System, es: seq<Event>, i: nat, b: Sample, t: System)
    requires Sound(s) && Standing(s, es, i, b, t, Written(b)) && 1 < |t.shared.win| && Plausible(b)
    requires i < |t.shared.win|
    ensures var sh := Measure(t.shared, i, b);
            var l := Measured(b, WindowRatio(sh.win[i]), sh.maxRatio, sh.owner);
            Standing(s, es + [DoMeasure(i, b)], i, b, Move(t, i, sh, l), l)
  {
    hide Sound, Plausible, Run, OneBuffer, Work;
    var sh := Measure(t.shared, i, b);
    Advance(s, es, DoMeasure(i, b), i, b, t, Written(b),
            sh, Measured(b, WindowRatio(sh.win[i]), sh.maxRatio, sh.owner));
  }

  lemma AfterCount(s: System, es: seq<Event>, i: nat, b: Sample, t: System, l: Listener)
    requires Sound(s) && l.Measured? && l.b == b && Standing(s, es, i, b, t, l) && i < |t.shared.tot|
    ensures var sh := Count(t.shared, i, b);
            var m := Counted(b, l.ratio, l.snap, l.snapOwner, sh.tot[i].fcalls);
            Standing(s, es + [DoCount(i)], i, b, Move(t, i, sh, m), m)
  {
    hide Sound, Run, OneBuffer;
    var sh := Count(t.shared, i, b);
    Advance(s, es, DoCount(i), i, b, t, l, sh, Counted(b, l.ratio, l.snap, l.snapOwner, sh.tot[i].fcalls));
  }

  lemma AfterDecide(s: System, es: seq<Event>, i: nat, b: Sample, t: System, l: Listener)
    requires Sound(s) && l.Counted? && Standing(s, es, i, b, t, l)
    ensures Standing(s, es + [Decide(i)], i, b, Move(t, i, t.shared, Decision(l)), Decision(l))
  {
    hide Sound, Run, OneBuffer, Decision;
    Advance(s, es, Decide(i), i, b, t, l, t.shared, Decision(l));
  }

  lemma AfterRaise(s: System, es: seq<Event>, i: nat, b: Sample, t: System, l: Listener)
    requires Sound(s) && l.Raising? && l.b == b && Standing(s, es, i, b, t, l) && i < |t.shared.win|
    ensures var sh := Raise(t.shared, i, l.offer);
            var m := Comparing(b, l.offer, sh.maxRatio, sh.owner);
            Standing(s, es + [DoRaise(i)], i, b, Move(t, i, sh, m), m)
  {
    hide Sound, Run, OneBuffer, Raise;
    var sh := Raise(t.shared, i, l.offer);
    Advance(s, es, DoRaise(i), i, b, t, l, sh, Comparing(b, l.offer, sh.maxRatio, sh.owner));
  }

  lemma AfterCompare(s: System, es: seq<Event>, i: nat, b: Sample, t: System, l: Listener)
    requires Sound(s) && l.Comparing? && 0.0 < l.offer && Standing(s, es, i, b, t, l)
    ensures Standing(s, es + [Compare(i)], i, b, Move(t, i, t.shared, Comparison(l)), Comparison(l))
  {
    hide Sound, Run, OneBuffer, Comparison;
    Advance(s, es, Compare(i), i, b, t, l, t.shared, Comparison(l));
  }

  lemma AfterInject(s: System, es: seq<Event>, i: nat, b: Sample, t: System, l: Listener)
    requires Sound(s) && l.Injecting? && l.b == b && Standing(s, es, i, b, t, l) && i < |t.shared.tot|
    ensures Standing(s, es + [DoInject(i)], i, b, Move(t, i, Inject(t.shared, i, l.extra), Settling(b)), Settling(b))
  {
    hide Sound, Run, OneBuffer;
    Advance(s, es, DoInject(i), i, b, t, l, Inject(t.shared, i, l.extra), Settling(b));
  }

  lemma AfterBypass(s: System, es: seq<Event>, i: nat, b: Sample, t: System)
    requires Sound(s) && Standing(s, es, i, b, t, Written(b)) && |t.shared.win| <= 1
    ensures Standing(s, es + [Bypass(i)], i, b, Move(t, i, t.shared, Settling(b)), Settling(b))
  {
    hide Sound, Run, OneBuffer;
    Advance(s, es, Bypass(i), i, b, t, Written(b), t.shared, Settling(b));
  }

  lemma AfterSettle(s: System, es: seq<Event>, i: nat, b: Sample, t: System)
    requires Sound(s) && Standing(s, es, i, b, t, Settling(b)) && i < |t.shared.acc| && 0 <= b.userIns
    ensures Standing(s, es + [DoSettle(i)], i, b, Move(t, i, Settle(t.shared, i, b), Receiving), Receiving)
  {
    hide Sound, Run, OneBuffer;
    Advance(s, es, DoSettle(i), i, b, t, Settling(b), Settle(t.shared, i, b), Receiving);
  }
}
