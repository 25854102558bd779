/** BUFFER_LIST_MANAGER under any number of concurrent putters and getters and one NotifyExit.
    The list has a lock, but the semaphore, the exit event and NotifyExit's emptiness test are
    outside it, so pushing and setting, and popping and clearing, are separate steps. Line numbers
    are those of src/pintool/buffer_manager.cpp. */
module BufferList {
  import opened Options

  datatype Item = Item(buf: nat, numElements: nat, owner: nat, index: nat, field: nat)

  datatype Putter =
    | Entering(item: Item)     // before the exit check
    | Pushing(item: Item)      // past it, about to take the lock
    | Signalling               // pushed, semaphore not yet set
    | PutDone(accepted: bool)

  datatype Getter =
    | Polling                  // top of the loop, reads the exit event
    | PollingList              // exit seen, reads the list
    | Waiting                  // in the semaphore wait
    | Woken                    // wait returned, about to take the lock
    | Clearing(item: Item)     // popped the last item; holds the lock, semaphore not yet cleared
    | GetDone(result: Option<Item>)

  datatype Notifier = NotStarted | Draining | Nudging | LastSet | Notified

  datatype State = State(
    list: seq<Item>, sem: bool, hasExit: bool, exit: bool, locked: bool,
    putters: seq<Putter>, getters: seq<Getter>, notifier: Notifier,
    pushed: seq<Item>, taken: seq<Item>)       // history

  datatype Event =
    | NewPut(item: Item) | NewGet
    | CheckExit(p: nat) | Push(p: nat) | Signal(p: nat)
    | Poll(g: nat) | PollList(g: nat) | Wake(g: nat) | Take(g: nat) | Clear(g: nat)
    | NotifyStart | NotifyCheck | NotifyNudge | NotifyLast

  ghost predicate Enabled(s: State, e: Event) {
    match e
    case NewPut(_) => true
    case NewGet => true
    case CheckExit(p) => p < |s.putters| && s.putters[p].Entering?
    case Push(p) => p < |s.putters| && s.putters[p].Pushing? && !s.locked
    case Signal(p) => p < |s.putters| && s.putters[p].Signalling?
    case Poll(g) => g < |s.getters| && s.getters[g].Polling?
    case PollList(g) => g < |s.getters| && s.getters[g].PollingList?
    case Wake(g) => g < |s.getters| && s.getters[g].Waiting? && s.sem
    case Take(g) => g < |s.getters| && s.getters[g].Woken? && !s.locked
    case Clear(g) => g < |s.getters| && s.getters[g].Clearing?
    case NotifyStart => s.notifier.NotStarted?
    case NotifyCheck => s.notifier.Draining?
    case NotifyNudge => s.notifier.Nudging?
    case NotifyLast => s.notifier.LastSet?
  }

  function SetPutter(s: State, p: nat, x: Putter): State
    requires p < |s.putters|
  {
    s.(putters := s.putters[p := x])
  }

  function SetGetter(s: State, g: nat, x: Getter): State
    requires g < |s.getters|
  {
    s.(getters := s.getters[g := x])
  }

  /** Lines 107-135: the lock region of a getter up to a possible clear. */
  function TakeStep(s: State, g: nat): State
    requires g < |s.getters|
  {
    if s.list != [] then
      var item := s.list[0];
      var t := s.(list := s.list[1..], taken := s.taken + [item]);
      if |s.list| == 1 then SetGetter(t, g, Clearing(item)).(locked := true) else SetGetter(t, g, GetDone(Some(item)))
    else if s.hasExit && s.exit then SetGetter(s, g, GetDone(None))
    else SetGetter(s, g, Polling)
  }

  ghost function Next(s: State, e: Event): State
    requires Enabled(s, e)
  {
    match e
    case NewPut(item) => s.(putters := s.putters + [Entering(item)])
    case NewGet => s.(getters := s.getters + [Polling])
    case CheckExit(p) =>
      SetPutter(s, p, if s.hasExit && s.exit then PutDone(false) else Pushing(s.putters[p].item))
    case Push(p) =>
      var item := s.putters[p].item;
      SetPutter(s, p, Signalling).(list := s.list + [item], pushed := s.pushed + [item])
    case Signal(p) => SetPutter(s, p, PutDone(true)).(sem := true)
    case Poll(g) => SetGetter(s, g, if s.hasExit && s.exit then PollingList else Waiting)
    case PollList(g) => SetGetter(s, g, if s.list == [] then GetDone(None) else Waiting)
    case Wake(g) => SetGetter(s, g, Woken)
    case Take(g) => TakeStep(s, g)
    case Clear(g) => SetGetter(s, g, GetDone(Some(s.getters[g].item))).(sem := false, locked := false)
    case NotifyStart => if s.hasExit then s.(exit := true, notifier := Draining) else s.(notifier := Notified)
    case NotifyCheck => s.(notifier := if s.list == [] then LastSet else Nudging)
    case NotifyNudge => s.(sem := true, notifier := Draining)
    case NotifyLast => s.(sem := true, notifier := Notified)
  }

  // ---- The invariant ----

  ghost predicate SomeSignalling(ps: seq<Putter>) {
    exists p :: 0 <= p < |ps| && ps[p].Signalling?
  }

  ghost predicate SomeClearing(gs: seq<Getter>) {
    exists g :: 0 <= g < |gs| && gs[g].Clearing?
  }

  /** A getter between pop and clear holds the lock, alone, and the list is empty meanwhile. */
  ghost predicate LockSound(s: State) {
    && (forall g :: 0 <= g < |s.getters| && s.getters[g].Clearing? ==> s.locked && s.list == [])
    && (forall g, h :: 0 <= g < |s.getters| && 0 <= h < |s.getters| && s.getters[g].Clearing? ==>
          (s.getters[h].Clearing? ==> g == h))
    && (s.locked ==> SomeClearing(s.getters))
  }

  ghost predicate NoLostWakeup(s: State) {
    s.list != [] ==> s.sem || SomeSignalling(s.putters)
  }

  /** 1 if the getter has obtained the item, else 0. */
  function Holds(g: Getter, item: Item): nat {
    if g == Clearing(item) || g == GetDone(Some(item)) then 1 else 0
  }

  /** How many getters have obtained the item. */
  ghost function Holders(gs: seq<Getter>, item: Item): nat {
    if gs == [] then 0 else Holders(gs[..|gs| - 1], item) + Holds(gs[|gs| - 1], item)
  }

  ghost function Occurrences(s: seq<Item>, item: Item): nat {
    if s == [] then 0 else Occurrences(s[..|s| - 1], item) + if s[|s| - 1] == item then 1 else 0
  }

  /** Every item taken is held by one getter for each time it was taken. */
  ghost predicate EachTakenOnce(s: State) {
    forall item :: Holders(s.getters, item) == Occurrences(s.taken, item)
  }

  ghost predicate Sound(s: State) {
    && LockSound(s) && NoLostWakeup(s)
    && s.taken + s.list == s.pushed
    && EachTakenOnce(s)
    && (forall g :: 0 <= g < |s.getters| && s.getters[g] == GetDone(None) ==> s.hasExit && s.exit)
    && (forall g :: 0 <= g < |s.getters| && s.getters[g].PollingList? ==> s.hasExit && s.exit)
    && (s.exit ==> s.hasExit && !s.notifier.NotStarted?)
  }

  lemma {:induction false} HoldersUpdate(gs: seq<Getter>, g: nat, x: Getter, item: Item)
    requires g < |gs|
    ensures Holders(gs[g := x], item) + Holds(gs[g], item) == Holders(gs, item) + Holds(x, item)
  {
    var n := |gs| - 1;
    var hs := gs[g := x];
    if g == n {
      assert hs[..n] == gs[..n];
    } else {
      assert hs[..n] == gs[..n][g := x];
      HoldersUpdate(gs[..n], g, x, item);
    }
  }

  /** A step of getter g that takes nothing, or exactly the item it then holds. */
  lemma TakenOnceAfter(s: State, t: State, g: nat, x: Getter)
    requires EachTakenOnce(s) && g < |s.getters| && t.getters == s.getters[g := x]
    requires if x.Clearing? && !s.getters[g].Clearing? then t.taken == s.taken + [x.item] && !s.getters[g].GetDone?
             else if x.GetDone? && x.result.Some? && !s.getters[g].Clearing?
             then t.taken == s.taken + [x.result.value] && !s.getters[g].GetDone?
             else t.taken == s.taken && forall item :: Holds(x, item) == Holds(s.getters[g], item)
    ensures EachTakenOnce(t)
  {
    forall item ensures Holders(t.getters, item) == Occurrences(t.taken, item) {
      HoldersUpdate(s.getters, g, x, item);
      assert |t.taken| == |s.taken| + 1 ==> t.taken[..|s.taken|] == s.taken;
    }
  }

  lemma SignallingAfter(ps: seq<Putter>, p: nat, x: Putter)
    requires p < |ps|
    ensures SomeSignalling(ps) && !ps[p].Signalling? ==> SomeSignalling(ps[p := x])
    ensures x.Signalling? ==> SomeSignalling(ps[p := x])
  {
    var qs := ps[p := x];
    if SomeSignalling(ps) && !ps[p].Signalling? {
      var k :| 0 <= k < |ps| && ps[k].Signalling?;
      assert qs[k].Signalling?;
    }
    if x.Signalling? { assert qs[p].Signalling?; }
  }

  lemma ClearingAfter(gs: seq<Getter>, g: nat, x: Getter)
    requires g < |gs|
    ensures SomeClearing(gs) && !gs[g].Clearing? ==> SomeClearing(gs[g := x])
    ensures x.Clearing? ==> SomeClearing(gs[g := x])
  {
    var hs := gs[g := x];
    if SomeClearing(gs) && !gs[g].Clearing? {
      var k :| 0 <= k < |gs| && gs[k].Clearing?;
      assert hs[k].Clearing?;
    }
    if x.Clearing? { assert hs[g].Clearing?; }
  }

  /** Steps of a putter. */
  lemma PutterSound(s: State, e: Event)
    requires Sound(s) && Enabled(s, e) && (e.CheckExit? || e.Push? || e.Signal?)
    ensures Sound(Next(s, e))
  {
    var t := Next(s, e);
    SignallingAfter(s.putters, e.p, t.putters[e.p]);
  }

  lemma WakeupDepends(s: State, t: State)
    requires NoLostWakeup(s) && t.list == s.list && t.sem == s.sem && t.putters == s.putters
    ensures NoLostWakeup(t)
  {}

  /** Steps of a getter outside the lock. */
  lemma PollerSound(s: State, e: Event)
    requires Sound(s) && Enabled(s, e) && (e.Poll? || e.PollList? || e.Wake?)
    ensures Sound(Next(s, e))
  {
    var t := Next(s, e);
    TakenOnceAfter(s, t, e.g, t.getters[e.g]);
    ClearingAfter(s.getters, e.g, t.getters[e.g]);
    WakeupDepends(s, t);
    hide SomeClearing, SomeSignalling, NoLostWakeup, EachTakenOnce;
  }

  lemma TakeOrder(s: State, g: nat)
    requires g < |s.getters| && s.getters[g].Woken?
    ensures var t := TakeStep(s, g);
            t.taken + t.list == s.taken + s.list
  {}

  lemma TakeSound(s: State, g: nat)
    requires Sound(s) && Enabled(s, Take(g))
    ensures Sound(Next(s, Take(g)))
  {
    var t := Next(s, Take(g));
    TakenOnceAfter(s, t, g, t.getters[g]);
    ClearingAfter(s.getters, g, t.getters[g]);
    assert NoLostWakeup(t);
    TakeOrder(s, g);
    hide SomeClearing, SomeSignalling, NoLostWakeup, EachTakenOnce;
  }

  lemma ClearSound(s: State, g: nat)
    requires Sound(s) && Enabled(s, Clear(g))
    ensures Sound(Next(s, Clear(g)))
  {
    var t := Next(s, Clear(g));
    TakenOnceAfter(s, t, g, t.getters[g]);
    hide EachTakenOnce;
  }

  lemma SignallingMore(ps: seq<Putter>, x: Putter)
    requires SomeSignalling(ps)
    ensures SomeSignalling(ps + [x])
  {
    var k :| 0 <= k < |ps| && ps[k].Signalling?;
    assert (ps + [x])[k].Signalling?;
  }

  lemma ClearingMore(gs: seq<Getter>, x: Getter)
    requires SomeClearing(gs)
    ensures SomeClearing(gs + [x])
  {
    var k :| 0 <= k < |gs| && gs[k].Clearing?;
    assert (gs + [x])[k].Clearing?;
  }

  /** A new getter holds nothing. */
  lemma NewGetterHoldsNothing(s: State, t: State)
    requires EachTakenOnce(s) && t.getters == s.getters + [Polling] && t.taken == s.taken
    ensures EachTakenOnce(t)
  {
    hide Occurrences;
    assert t.getters[..|s.getters|] == s.getters;
    forall item ensures Holders(t.getters, item) == Occurrences(t.taken, item) {
      assert Holders(s.getters, item) == Occurrences(s.taken, item);
    }
  }

  lemma ArrivalSound(s: State, e: Event)
    requires Sound(s) && (e.NewPut? || e.NewGet?)
    ensures Sound(Next(s, e))
  {
    hide SomeSignalling, SomeClearing, Holders, Occurrences;
    var t := Next(s, e);
    if e.NewPut? {
      if SomeSignalling(s.putters) { SignallingMore(s.putters, Entering(e.item)); }
    } else {
      if SomeClearing(s.getters) { ClearingMore(s.getters, Polling); }
      NewGetterHoldsNothing(s, t);
    }
  }

  lemma StepSound(s: State, e: Event)
    requires Sound(s) && Enabled(s, e)
    ensures Sound(Next(s, e))
  {
    match e
    case NewPut(_) => ArrivalSound(s, e);
    case NewGet => ArrivalSound(s, e);
    case CheckExit(p) => PutterSound(s, e);
    case Push(p) => PutterSound(s, e);
    case Signal(p) => PutterSound(s, e);
    case Poll(g) => PollerSound(s, e);
    case PollList(g) => PollerSound(s, e);
    case Wake(g) => PollerSound(s, e);
    case Take(g) => TakeSound(s, g);
    case Clear(g) => ClearSound(s, g);
    case _ =>
  }

  // ---- Runs ----

  ghost function Start(hasExit: bool): (s: State)
    ensures Sound(s)
  {
    State([], false, hasExit, false, false, [], [], NotStarted, [], [])
  }

  datatype Outcome = Stuck | Reached(state: State)

  ghost function Run(s: State, es: seq<Event>): (r: Outcome)
    requires Sound(s)
    ensures r.Reached? ==> Sound(r.state)
  {
    if es == [] then Reached(s)
    else
      var r := Run(s, es[..|es| - 1]);
      var e := es[|es| - 1];
      if r.Reached? && Enabled(r.state, e) then
        StepSound(r.state, e);
        Reached(Next(r.state, e))
      else Stuck
  }

  /** In every reachable state: a non-empty list has its semaphore set or a putter about to set
      it; the items taken followed by those listed are the pushes in order; each item taken is
      held by exactly one getter; and a getter has returned nothing only after the exit event. */
  lemma WakeupsAndOrder(hasExit: bool, es: seq<Event>)
    requires Run(Start(hasExit), es).Reached?
    ensures var s := Run(Start(hasExit), es).state;
            && (s.list != [] ==> s.sem || SomeSignalling(s.putters))
            && s.taken + s.list == s.pushed
            && EachTakenOnce(s)
            && (forall g :: 0 <= g < |s.getters| && s.getters[g] == GetDone(None) ==> s.exit)
  {}

  // ---- What each operation comes to ----

  /** How many puts have been accepted and pushed. */
  ghost function Accepted(ps: seq<Putter>): nat {
    if ps == [] then 0
    else
      var p := ps[|ps| - 1];
      Accepted(ps[..|ps| - 1]) + if p == Signalling || p == PutDone(true) then 1 else 0
  }

  lemma {:induction false} AcceptedUpdate(ps: seq<Putter>, p: nat, x: Putter)
    requires p < |ps|
    ensures Accepted(ps[p := x]) + Accepted([ps[p]]) == Accepted(ps) + Accepted([x])
  {
    var n := |ps| - 1;
    var qs := ps[p := x];
    assert forall y: Putter :: Accepted([y]) == (if y == Signalling || y == PutDone(true) then 1 else 0) by {
      assert forall y: Putter :: [y][..0] == [];
    }
    if p == n {
      assert qs[..n] == ps[..n];
    } else {
      assert qs[..n] == ps[..n][p := x];
      AcceptedUpdate(ps[..n], p, x);
    }
  }

  /** Every put that was refused was refused because of the exit event, and every other one that is
      past its push is on record. */
  ghost predicate PutsSound(s: State) {
    && Accepted(s.putters) == |s.pushed|
    && forall p :: 0 <= p < |s.putters| && s.putters[p] == PutDone(false) ==> s.hasExit && s.exit
  }

  lemma SingleAccepted(x: Putter)
    ensures Accepted([x]) == if x == Signalling || x == PutDone(true) then 1 else 0
  {
    assert [x][..0] == [];
  }

  lemma AcceptedMore(ps: seq<Putter>, x: Putter)
    ensures Accepted(ps + [x]) == Accepted(ps) + Accepted([x])
    ensures x.Entering? ==> Accepted([x]) == 0
  {
    SingleAccepted(x);
    assert (ps + [x])[..|ps|] == ps;
  }

  lemma StepPuts(s: State, e: Event)
    requires Enabled(s, e) && PutsSound(s)
    ensures PutsSound(Next(s, e))
  {
    hide Accepted;
    var t := Next(s, e);
    if e.NewPut? {
      AcceptedMore(s.putters, Entering(e.item));
    } else if e.CheckExit? || e.Push? || e.Signal? {
      AcceptedUpdate(s.putters, e.p, t.putters[e.p]);
      SingleAccepted(s.putters[e.p]);
      SingleAccepted(t.putters[e.p]);
    } else {
      assert t.putters == s.putters && t.pushed == s.pushed;
    }
  }

  lemma NothingPut(hasExit: bool)
    ensures PutsSound(Start(hasExit))
  {}

  lemma KeepsExitKind(s: State, e: Event)
    requires Enabled(s, e)
    ensures Next(s, e).hasExit == s.hasExit
  {}

  /** In every run a put is refused only after the exit event, and the puts accepted are exactly those
      that reached the list: without an exit event every put that has returned did. */
  lemma {:induction false} PutsAreKept(hasExit: bool, es: seq<Event>)
    requires Run(Start(hasExit), es).Reached?
    ensures var s := Run(Start(hasExit), es).state;
            && Accepted(s.putters) == |s.pushed| && s.hasExit == hasExit
            && (forall p :: 0 <= p < |s.putters| && s.putters[p] == PutDone(false) ==> hasExit && s.exit)
    ensures PutsSound(Run(Start(hasExit), es).state)
  {
    hide Next, Enabled, Accepted;
    if es == [] {
      NothingPut(hasExit);
    } else {
      PutsAreKept(hasExit, es[..|es| - 1]);
      StepPuts(Run(Start(hasExit), es[..|es| - 1]).state, es[|es| - 1]);
      KeepsExitKind(Run(Start(hasExit), es[..|es| - 1]).state, es[|es| - 1]);
    }
  }

  lemma RunExtends(s: State, es: seq<Event>, e: Event)
    requires Sound(s) && Run(s, es).Reached? && Enabled(Run(s, es).state, e)
    ensures Run(s, es + [e]) == Reached(Next(Run(s, es).state, e))
  {
    assert (es + [e])[..|es|] == es;
  }

  lemma OneStep(s: State, es: seq<Event>, t: State, e: Event) returns (fs: seq<Event>, u: State)
    requires Sound(s) && Run(s, es) == Reached(t) && Enabled(t, e)
    ensures Sound(u) && u == Next(t, e) && fs == es + [e] && Run(s, fs) == Reached(u)
  {
    RunExtends(s, es, e);
    fs, u := es + [e], Next(t, e);
  }

  /** A put without the exit event: the item goes to the end of the list and the semaphore is set. */
  lemma PutCompletes(s: State, p: nat)
    requires Sound(s) && p < |s.putters| && s.putters[p].Entering? && !(s.hasExit && s.exit) && !s.locked
    ensures var r := Run(s, [CheckExit(p), Push(p), Signal(p)]);
            r == Reached(s.(putters := s.putters[p := PutDone(true)], list := s.list + [s.putters[p].item],
                            pushed := s.pushed + [s.putters[p].item], sem := true))
  {
    hide Sound;
    var es, t := [], s;
    es, t := OneStep(s, es, t, CheckExit(p));
    es, t := OneStep(s, es, t, Push(p));
    es, t := OneStep(s, es, t, Signal(p));
    assert es == [CheckExit(p), Push(p), Signal(p)];
    assert t.putters == s.putters[p := PutDone(true)];
  }

  /** A put after the exit event is refused and changes nothing else. */
  lemma PutRefused(s: State, p: nat)
    requires Sound(s) && p < |s.putters| && s.putters[p].Entering? && s.hasExit && s.exit
    ensures Run(s, [CheckExit(p)]) == Reached(s.(putters := s.putters[p := PutDone(false)]))
  {
    hide Sound;
    var es, t := OneStep(s, [], s, CheckExit(p));
    assert es == [CheckExit(p)];
  }

  /** The steps of a getter that finds something. */
  ghost function GetSteps(s: State, g: nat): seq<Event> {
    [Poll(g)] + (if s.hasExit && s.exit then [PollList(g)] else []) + [Wake(g), Take(g)] +
    (if |s.list| == 1 then [Clear(g)] else [])
  }

  lemma RunNone(s: State)
    requires Sound(s)
    ensures Run(s, []) == Reached(s)
  {}

  /** A getter comes from the top of its loop to the lock. */
  lemma GetWakes(s: State, g: nat) returns (es: seq<Event>, t: State)
    requires Sound(s) && g < |s.getters| && s.getters[g].Polling? && s.list != [] && s.sem
    ensures es == [Poll(g)] + (if s.hasExit && s.exit then [PollList(g)] else []) + [Wake(g)]
    ensures Sound(t) && Run(s, es) == Reached(t) && t == s.(getters := s.getters[g := Woken])
  {
    hide Sound, Run;
    RunNone(s);
    es, t := OneStep(s, [], s, Poll(g));
    if s.hasExit && s.exit {
      es, t := OneStep(s, es, t, PollList(g));
    }
    es, t := OneStep(s, es, t, Wake(g));
    assert t.getters == s.getters[g := Woken];
  }

  /** A get with the semaphore set, before or after the exit event: it returns the first item, and the
      semaphore stays set exactly if items remain. */
  lemma GetCompletes(s: State, g: nat)
    requires Sound(s) && g < |s.getters| && s.getters[g].Polling? && s.list != [] && s.sem && !s.locked
    ensures Run(s, GetSteps(s, g)) ==
            Reached(s.(getters := s.getters[g := GetDone(Some(s.list[0]))], list := s.list[1..],
                       taken := s.taken + [s.list[0]], sem := 1 < |s.list|))
  {
    hide Sound, Run;
    var es, t := GetWakes(s, g);
    es, t := OneStep(s, es, t, Take(g));
    if |s.list| == 1 {
      es, t := OneStep(s, es, t, Clear(g));
    }
    assert es == GetSteps(s, g);
    assert t.getters == s.getters[g := GetDone(Some(s.list[0]))];
  }

  /** A getter that finds the list empty returns nothing after the exit event, whether it finds out at
      the top of the loop or under the lock, and otherwise polls again. */
  lemma GetFindsNothing(s: State, g: nat)
    requires Sound(s) && g < |s.getters| && s.list == []
    ensures s.getters[g].Polling? && s.hasExit && s.exit ==>
              Run(s, [Poll(g), PollList(g)]) == Reached(s.(getters := s.getters[g := GetDone(None)]))
    ensures s.getters[g].Polling? && !(s.hasExit && s.exit) ==>
              Run(s, [Poll(g)]) == Reached(s.(getters := s.getters[g := Waiting]))
    ensures s.getters[g].Woken? && !s.locked ==>
              Run(s, [Take(g)]) ==
              Reached(s.(getters := s.getters[g := if s.hasExit && s.exit then GetDone(None) else Polling]))
  {
    hide Sound;
    if s.getters[g].Polling? {
      var es, t := OneStep(s, [], s, Poll(g));
      assert es == [Poll(g)];
      if s.hasExit && s.exit {
        es, t := OneStep(s, es, t, PollList(g));
        assert es == [Poll(g), PollList(g)];
        assert t.getters == s.getters[g := GetDone(None)];
      }
    } else if s.getters[g].Woken? && !s.locked {
      var es, t := OneStep(s, [], s, Take(g));
      assert es == [Take(g)];
    }
  }

  /** A putter that signals wakes a waiting getter even if its item has been taken before and the list is
      empty. */
  lemma SignalWakes(s: State, p: nat, g: nat)
    requires Sound(s) && p < |s.putters| && s.putters[p].Signalling?
    requires g < |s.getters| && s.getters[g].Waiting?
    ensures Run(s, [Signal(p), Wake(g)]) ==
            Reached(s.(putters := s.putters[p := PutDone(true)], getters := s.getters[g := Woken], sem := true))
  {
    hide Sound, Run;
    RunNone(s);
    var es, t := OneStep(s, [], s, Signal(p));
    es, t := OneStep(s, es, t, Wake(g));
    assert es == [Signal(p), Wake(g)];
  }

  /** NotifyExit with items on the list sets the semaphore for each of its rounds. */
  lemma NotifyNudges(s: State)
    requires Sound(s) && s.notifier.Draining? && s.list != []
    ensures Run(s, [NotifyCheck, NotifyNudge]) == Reached(s.(sem := true))
  {
    hide Sound, Run;
    RunNone(s);
    var es, t := OneStep(s, [], s, NotifyCheck);
    es, t := OneStep(s, es, t, NotifyNudge);
    assert es == [NotifyCheck, NotifyNudge];
  }

  /** NotifyExit with an empty list sets the exit event and then the semaphore. */
  lemma NotifyCompletes(s: State)
    requires Sound(s) && s.notifier.NotStarted? && s.hasExit && s.list == []
    ensures Run(s, [NotifyStart, NotifyCheck, NotifyLast]) ==
            Reached(s.(exit := true, sem := true, notifier := Notified))
  {
    hide Sound, Run;
    RunNone(s);
    var es, t := OneStep(s, [], s, NotifyStart);
    es, t := OneStep(s, es, t, NotifyCheck);
    es, t := OneStep(s, es, t, NotifyLast);
    assert es == [NotifyStart, NotifyCheck, NotifyLast];
  }

  /** Without an exit event it does nothing. */
  lemma NotifyDoesNothing(s: State)
    requires Sound(s) && s.notifier.NotStarted? && !s.hasExit
    ensures Run(s, [NotifyStart]) == Reached(s.(notifier := Notified))
  {
    hide Sound, Run;
    RunNone(s);
    var es, t := OneStep(s, [], s, NotifyStart);
    assert es == [NotifyStart];
  }

  // ---- Exit ----

  ghost predicate NonePushing(s: State) {
    forall p :: 0 <= p < |s.putters| ==> !s.putters[p].Pushing?
  }

  /** After the exit event with no put under way: nothing is pushed any more, so an empty list
      stays empty. */
  ghost predicate Sealed(s: State) {
    && s.hasExit && s.exit && NonePushing(s)
    && (s.notifier.LastSet? || s.notifier.Notified? ==> s.list == [])
  }

  lemma StepSealed(s: State, e: Event)
    requires Sealed(s) && !s.notifier.NotStarted? && Enabled(s, e)
    ensures Sealed(Next(s, e)) && !Next(s, e).notifier.NotStarted?
    ensures Next(s, e).pushed == s.pushed
  {}

  lemma {:induction false} RunSealed(s: State, es: seq<Event>)
    requires Sound(s) && Sealed(s) && !s.notifier.NotStarted? && Run(s, es).Reached?
    ensures Sealed(Run(s, es).state) && !Run(s, es).state.notifier.NotStarted?
    ensures Run(s, es).state.pushed == s.pushed
  {
    if es == [] {
    } else {
      var front := es[..|es| - 1];
      RunSealed(s, front);
      StepSealed(Run(s, front).state, es[|es| - 1]);
      hide Sound, Sealed, Next, Enabled;
    }
  }

  /** A run can be taken from its second state. */
  lemma {:induction false} RunFirst(s: State, e: Event, es: seq<Event>)
    requires Sound(s) && Run(s, [e] + es).Reached?
    ensures Enabled(s, e) && Sound(Next(s, e)) && Run(Next(s, e), es) == Run(s, [e] + es)
  {
    if es == [] {
      assert ([e] + es)[..0] == [] && [e] + es == [e];
      StepSound(s, e);
    } else {
      var front := es[..|es| - 1];
      assert ([e] + es)[..|es|] == [e] + front;
      RunFirst(s, e, front);
    }
  }

  /** If every put past its exit check has pushed before NotifyExit sets the exit event, then once
      NotifyExit has returned, every buffer ever put has been removed by exactly one getter, in
      order, and so it stays. */
  lemma ExitDrains(s: State, es: seq<Event>)
    requires Sound(s) && s.hasExit && s.notifier.NotStarted? && NonePushing(s)
    requires Run(s, [NotifyStart] + es).Reached?
    ensures var t := Run(s, [NotifyStart] + es).state;
            && t.pushed == s.pushed
            && (t.notifier.Notified? ==> t.list == [] && t.taken == s.pushed && EachTakenOnce(t))
  {
    RunFirst(s, NotifyStart, es);
    var u := Next(s, NotifyStart);
    RunSealed(u, es);
    var t := Run(u, es).state;
    if t.notifier.Notified? { assert t.taken + [] == t.taken; }
  }

  // ---- A put that is under way when NotifyExit starts ----

  /** NotifyExit is draining and putter p is past its exit check. */
  ghost predicate PutUnderWay(t: State, p: nat, item: Item) {
    t.hasExit && t.exit && t.notifier.Draining? && p < |t.putters| && t.putters[p] == Pushing(item)
  }

  /** A getter that still holds the lock lets go of it. */
  lemma Unlock(s: State, es: seq<Event>, t: State, p: nat, item: Item) returns (fs: seq<Event>, u: State)
    requires Sound(s) && Sound(t) && Run(s, es) == Reached(t) && PutUnderWay(t, p, item)
    ensures Sound(u) && Run(s, fs) == Reached(u) && PutUnderWay(u, p, item) && !u.locked && u.list == t.list
    ensures es <= fs
  {
    fs, u := es, t;
    if t.locked {
      var g :| 0 <= g < |t.getters| && t.getters[g].Clearing?;
      hide Sound, Run;
      fs, u := OneStep(s, es, t, Clear(g));
    }
  }

  /** NotifyExit sets the semaphore once more and a new getter comes as far as the wait. */
  lemma WakeOne(s: State, es: seq<Event>, t: State, p: nat, item: Item) returns (fs: seq<Event>, u: State)
    requires Sound(s) && Sound(t) && Run(s, es) == Reached(t) && PutUnderWay(t, p, item) && !t.locked && t.list != []
    ensures Sound(u) && Run(s, fs) == Reached(u) && PutUnderWay(u, p, item) && !u.locked && u.list == t.list
    ensures |u.getters| == |t.getters| + 1 && u.getters[|t.getters|].Woken?
    ensures es <= fs
  {
    hide Sound, Run;
    var g := |t.getters|;
    fs, u := OneStep(s, es, t, NotifyCheck);
    fs, u := OneStep(s, fs, u, NotifyNudge);
    fs, u := OneStep(s, fs, u, NewGet);
    fs, u := OneStep(s, fs, u, Poll(g));
    fs, u := OneStep(s, fs, u, PollList(g));
    fs, u := OneStep(s, fs, u, Wake(g));
  }

  lemma {:induction false} Drain(s: State, es: seq<Event>, t: State, p: nat, item: Item)
    returns (fs: seq<Event>, u: State)
    requires Sound(s) && Sound(t) && Run(s, es) == Reached(t) && PutUnderWay(t, p, item)
    ensures Sound(u) && Run(s, fs) == Reached(u) && PutUnderWay(u, p, item) && !u.locked && u.list == []
    ensures es <= fs
    decreases |t.list|
  {
    fs, u := Unlock(s, es, t, p, item);
    hide Sound, Run;
    if u.list == [] {
    } else {
      var g := |u.getters|;
      fs, u := WakeOne(s, fs, u, p, item);
      fs, u := OneStep(s, fs, u, Take(g));
      fs, u := Drain(s, fs, u, p, item);
    }
  }

  lemma ReturnThenPush(s: State, es: seq<Event>, t: State, p: nat, item: Item) returns (fs: seq<Event>, u: State)
    requires Sound(s) && Sound(t) && Run(s, es) == Reached(t) && PutUnderWay(t, p, item) && !t.locked && t.list == []
    ensures Sound(u) && Run(s, fs) == Reached(u) && es <= fs
    ensures u.notifier.Notified? && p < |u.putters| && u.putters[p] == PutDone(true) && u.list == [item]
  {
    hide Sound, Run;
    fs, u := OneStep(s, es, t, NotifyCheck);
    fs, u := OneStep(s, fs, u, NotifyLast);
    fs, u := OneStep(s, fs, u, Push(p));
    fs, u := OneStep(s, fs, u, Signal(p));
  }

  /** The condition is needed: whenever some put is past its exit check as NotifyExit starts, a run
      exists in which NotifyExit has returned, the put is accepted, and its buffer is on the list. */
  lemma LatePutEscapes(s: State, p: nat) returns (es: seq<Event>)
    requires Sound(s) && s.hasExit && s.notifier.NotStarted?
    requires p < |s.putters| && s.putters[p].Pushing?
    ensures Run(s, [NotifyStart] + es).Reached?
    ensures var t := Run(s, [NotifyStart] + es).state;
            t.notifier.Notified? && p < |t.putters| && t.putters[p] == PutDone(true) && t.list == [s.putters[p].item]
  {
    var item := s.putters[p].item;
    var fs, t := OneStep(s, [], s, NotifyStart);
    hide Sound, Run;
    fs, t := Drain(s, fs, t, p, item);
    fs, t := ReturnThenPush(s, fs, t, p, item);
    assert fs[..1] == [NotifyStart];
    es := fs[1..];
    assert fs == [NotifyStart] + es;
  }

  /** If NotifyExit has returned after these events, the list is empty. */
  ghost predicate DrainedAfter(s: State, es: seq<Event>)
    requires Sound(s)
  {
    var r := Run(s, [NotifyStart] + es);
    r.Reached? && r.state.notifier.Notified? ==> r.state.list == []
  }

  /** NotifyExit leaves the list empty in every run exactly if no put is past its exit check when it
      starts. */
  lemma ExitDrainsExactly(s: State)
    requires Sound(s) && s.hasExit && s.notifier.NotStarted?
    ensures NonePushing(s) <==> forall es :: DrainedAfter(s, es)
  {
    hide Run, Sound;
    if NonePushing(s) {
      forall es ensures DrainedAfter(s, es) {
        if Run(s, [NotifyStart] + es).Reached? { ExitDrains(s, es); }
      }
    } else {
      var p :| 0 <= p < |s.putters| && s.putters[p].Pushing?;
      var es := LatePutEscapes(s, p);
      assert !DrainedAfter(s, es);
    }
  }

  /** A run from the start in which that happens. */
  lemma LatePutRun(item: Item)
    ensures var es := [NewPut(item), CheckExit(0), NotifyStart, NotifyCheck, NotifyLast, Push(0)];
            && Run(Start(true), es).Reached?
            && var t := Run(Start(true), es).state;
            && t.notifier.Notified? && t.list == t.pushed == [item] && t.taken == []
  {
    hide Sound;
    var s, es := Start(true), [];
    var t := s;
    es, t := OneStep(s, es, t, NewPut(item));
    es, t := OneStep(s, es, t, CheckExit(0));
    es, t := OneStep(s, es, t, NotifyStart);
    es, t := OneStep(s, es, t, NotifyCheck);
    es, t := OneStep(s, es, t, NotifyLast);
    es, t := OneStep(s, es, t, Push(0));
    assert es == [NewPut(item), CheckExit(0), NotifyStart, NotifyCheck, NotifyLast, Push(0)];
  }
}
