/** The hand-off between one Pin thread and its listener: two sockets and one shared memory
    block. Both sides are program counters; memory is copied and read byte by byte, so that an
    overlap of the two would show. */
module Handoff {
  import opened Layout

  type Byte = b: nat | b < 256

  type Buffer = seq<Byte>

  /** The metadata words that matter here: bytes copied and instructions executed. */
  datatype Meta = Meta(size: nat, ins: nat)

  const NO_META: Meta := Meta(0, 0)

  /** What Pin has handed off: the bytes and the metadata that went with them. */
  datatype Packet = Packet(bytes: Buffer, meta: Meta)

  datatype Pin =
    | Filling                         // application code runs and fills the trace buffer
    | AwaitReady(buf: Buffer)         // blocked in read on the ready socket
    | Copying(buf: Buffer, copied: nat)
    | Closing(done: nat)              // 1: ready shut, 2: size shut, 3: ready closed, 4: size closed

  datatype Consumer =
    | LoopHead
    | AwaitMeta                                  // blocked in recv on the size socket
    | Checking(isNew: bool)                      // recv returned; isNew if it delivered a message
    | Padding(isNew: bool)
    | Reading(isNew: bool, got: Buffer)
    | Stopped(lost: bool)                        // left the loop; lost if it held a new message
    | Gone(lost: bool)                           // sockets closed

  datatype State = State(
    raw: bool,               // raw mode: pad and write whole blocks
    pin: Pin, con: Consumer,
    ready: nat,              // ready signals queued
    metas: seq<Meta>,        // size socket, from Pin to the consumer
    mem: seq<Byte>,
    recvData: Meta,          // the listener's metadata buffer, kept when recv returns 0
    executed: nat, lastExecuted: nat,  // instruction counts on the Pin side
    applicationIns: nat,               // the consumer's account
    sent: seq<Packet>, taken: seq<Buffer>, repeats: nat)  // history

  datatype Event =
    | Execute(n: nat) | Fill(buf: Buffer) | ReadReady | ReadFails | CopyByte | Announce | BeginClose | CloseStep
    | SendReady | Stop | Receive | Terminated | Check | Pad | ReadByte | Settle | WriteFails | CloseSockets

  function Zeros(n: nat): seq<Byte> { seq(n, i => 0) }

  /** The buffer as a whole block, padded with zeros. */
  function Block(b: Buffer): (r: Buffer)
    requires |b| <= BLOCK
    ensures |r| == BLOCK && r[..|b|] == b && forall k :: |b| <= k < BLOCK ==> r[k] == 0
  {
    b + Zeros(BLOCK - |b|)
  }

  /** What the consumer makes of a buffer: in raw mode a whole block. */
  function Delivered(raw: bool, b: Buffer): Buffer {
    if raw && |b| <= BLOCK then Block(b) else b
  }

  function ReadLength(s: State): nat {
    if s.raw then BLOCK else s.recvData.size
  }

  predicate SizeShut(p: Pin) { p.Closing? && 2 <= p.done }

  predicate ReadyClosed(p: Pin) { p.Closing? && 3 <= p.done }

  ghost predicate Enabled(s: State, e: Event) {
    match e
    case Execute(n) => s.pin.Filling?
    case Fill(buf) => s.pin.Filling? && |buf| <= BLOCK
    case ReadReady => s.pin.AwaitReady? && (0 < s.ready || s.con.Gone?)
    case ReadFails => s.pin.AwaitReady?
    case CopyByte => s.pin.Copying? && s.pin.copied < |s.pin.buf|
    case Announce => s.pin.Copying? && s.pin.copied == |s.pin.buf|
    case BeginClose => s.pin.Filling?
    case CloseStep => s.pin.Closing? && s.pin.done < 4
    case SendReady => s.con.LoopHead?
    case Stop => s.con.LoopHead?
    case Receive => s.con.AwaitMeta? && (s.metas != [] || SizeShut(s.pin))
    case Terminated => s.con.Checking?
    case Check => s.con.Checking?
    case Pad => s.con.Padding?
    case ReadByte => s.con.Reading? && |s.con.got| < ReadLength(s)
    case Settle => s.con.Reading? && |s.con.got| == ReadLength(s)
    case WriteFails => s.con.Reading?
    case CloseSockets => s.con.Stopped?
  }

  /** Sizes and positions fit; the rest of the invariant is Sound below. */
  ghost predicate InRange(s: State) {
    && |s.mem| == ALLOCATION && s.lastExecuted <= s.executed
    && (s.pin.AwaitReady? ==> |s.pin.buf| <= BLOCK)
    && (s.pin.Copying? ==> s.pin.copied <= |s.pin.buf| <= BLOCK)
    && (s.con.Padding? || s.con.Reading? ==> 0 < s.recvData.size <= BLOCK)
    && (s.con.Reading? ==> |s.con.got| <= ReadLength(s))
  }

  /** memset of the rest of the block, line 558 of src/consumer/consumer.cpp. */
  function Padded(mem: seq<Byte>, size: nat): seq<Byte>
    requires |mem| == ALLOCATION
  {
    if size <= BLOCK then Block(mem[..size]) + mem[BLOCK..] else mem
  }

  ghost function Next(s: State, e: Event): State
    requires InRange(s) && Enabled(s, e)
  {
    match e
    case Execute(n) => s.(executed := s.executed + n)
    case Fill(buf) => s.(pin := AwaitReady(buf))
    // read returning 0 after the consumer closed is not told apart from a ready signal
    case ReadReady => s.(pin := Copying(s.pin.buf, 0), ready := if s.ready == 0 then 0 else s.ready - 1)
    case ReadFails => s.(pin := Filling)
    case CopyByte =>
      s.(pin := s.pin.(copied := s.pin.copied + 1), mem := s.mem[s.pin.copied := s.pin.buf[s.pin.copied]])
    case Announce =>
      var m := Meta(|s.pin.buf|, s.executed - s.lastExecuted);
      var t := s.(pin := Filling, lastExecuted := s.executed);
      if s.con.Gone? then t else t.(metas := s.metas + [m], sent := s.sent + [Packet(s.pin.buf, m)])
    case BeginClose => s.(pin := Closing(0))
    case CloseStep => s.(pin := Closing(s.pin.done + 1))
    case SendReady =>
      if ReadyClosed(s.pin) then s.(con := Stopped(false)) else s.(con := AwaitMeta, ready := s.ready + 1)
    case Stop => s.(con := Stopped(false))
    case Receive =>
      if s.metas != [] then s.(con := Checking(true), recvData := s.metas[0], metas := s.metas[1..])
      else s.(con := Checking(false))
    case Terminated => s.(con := Stopped(s.con.isNew))
    case Check =>
      if s.recvData.size == 0 then s.(con := Stopped(s.con.isNew))
      else if s.raw then s.(con := Padding(s.con.isNew))
      else s.(con := Reading(s.con.isNew, []))
    case Pad =>
      s.(con := Reading(s.con.isNew, []), mem := Padded(s.mem, s.recvData.size))
    case ReadByte => s.(con := s.con.(got := s.con.got + [s.mem[|s.con.got|]]))
    case Settle =>
      s.(con := LoopHead, taken := s.taken + [s.con.got], applicationIns := s.applicationIns + s.recvData.ins,
         repeats := if s.con.isNew then s.repeats else s.repeats + 1)
    case WriteFails => s.(con := Stopped(s.con.isNew))
    case CloseSockets => s.(con := Gone(s.con.lost))
  }

  // ---- The invariant ----

  /** The consumer is between receiving a message and sending the next ready signal, or has
      left the loop there. */
  predicate HoldsTurn(c: Consumer) {
    c.LoopHead? || c.Checking? || c.Padding? || c.Reading? || c.Stopped?
  }

  predicate HoldsFresh(c: Consumer) {
    (c.Checking? && c.isNew) || (c.Padding? && c.isNew) || (c.Reading? && c.isNew) ||
    (c.Stopped? && c.lost) || (c.Gone? && c.lost)
  }

  /** The consumer works on metadata that recv did not deliver again. */
  predicate HoldsOld(c: Consumer) {
    (c.Checking? && !c.isNew) || (c.Padding? && !c.isNew) || (c.Reading? && !c.isNew)
  }

  function One(b: bool): nat { if b then 1 else 0 }

  /** Buffers sent but not yet taken. */
  function Behind(s: State): nat {
    |s.metas| + One(HoldsFresh(s.con))
  }

  ghost predicate TurnsSound(s: State) {
    && |s.metas| <= 1 && (s.metas != [] ==> s.con.AwaitMeta?)
    && (!s.pin.Closing? && !s.con.Gone? ==>
          s.ready + One(s.pin.Copying?) + |s.metas| + One(HoldsTurn(s.con)) == 1)
    && (s.pin.Copying? ==> s.con.AwaitMeta? || s.con.Gone?)
    && (s.pin.Copying? && s.con.AwaitMeta? ==> s.metas == [])
    && (HoldsOld(s.con) || 0 < s.repeats ==> SizeShut(s.pin))
  }

  ghost function Last(s: State): Packet
    requires s.sent != []
  {
    s.sent[|s.sent| - 1]
  }

  ghost predicate SizesSound(s: State) {
    forall i :: 0 <= i < |s.sent| ==> |s.sent[i].bytes| == s.sent[i].meta.size <= BLOCK
  }

  /** Memory holds the last buffer sent, as far as anybody will still read it. */
  ghost predicate MemorySound(s: State)
    requires InRange(s) && SizesSound(s)
  {
    && (s.pin.Copying? ==> s.mem[..s.pin.copied] == s.pin.buf[..s.pin.copied])
    && (s.sent != [] && !s.pin.Copying? && !s.con.Gone? && !s.con.Stopped? ==>
          s.mem[..|Last(s).bytes|] == Last(s).bytes)
  }

  ghost predicate MetaSound(s: State)
    requires InRange(s)
  {
    && (s.metas != [] ==> s.sent != [] && s.metas[0] == Last(s).meta)
    && (s.metas == [] ==> s.recvData == if s.sent == [] then NO_META else Last(s).meta)
    && (HoldsFresh(s.con) ==> s.sent != [])
    && ((s.con.Padding? || s.con.Reading?) ==> s.sent != [])
    && (s.con.Padding? ==> s.raw)
    && (s.con.Reading? ==>
          s.mem[..ReadLength(s)] == Delivered(s.raw, Last(s).bytes) &&
          s.con.got == s.mem[..|s.con.got|])
  }

  ghost function AllDelivered(raw: bool, ps: seq<Packet>): seq<Buffer> {
    seq(|ps|, i requires 0 <= i < |ps| => Delivered(raw, ps[i].bytes))
  }

  function Copies<T>(n: nat, x: T): (s: seq<T>)
    ensures |s| == n
  {
    seq(n, i => x)
  }

  ghost predicate HistorySound(s: State) {
    && Behind(s) <= |s.sent| && (0 < s.repeats ==> s.sent != [] && Behind(s) == 0)
    && s.taken == AllDelivered(s.raw, s.sent[..|s.sent| - Behind(s)]) +
                  (if s.sent == [] then [] else Copies(s.repeats, Delivered(s.raw, Last(s).bytes)))
  }

  /** Instructions in messages that are queued or received but not yet accounted. */
  function Unaccounted(s: State): nat {
    (if s.metas == [] then 0 else s.metas[0].ins) + (if HoldsFresh(s.con) then s.recvData.ins else 0)
  }

  ghost predicate CountsSound(s: State) {
    (!s.con.Gone? ==> s.applicationIns + Unaccounted(s) == s.lastExecuted + s.repeats * s.recvData.ins)
  }

  ghost predicate Sound(s: State) {
    InRange(s) && SizesSound(s) && TurnsSound(s) && MemorySound(s) && MetaSound(s) && HistorySound(s) && CountsSound(s)
  }

  lemma StepInRange(s: State, e: Event)
    requires Sound(s) && Enabled(s, e)
    ensures InRange(Next(s, e))
  {
    hide MemorySound, HistorySound, CountsSound, Delivered;
    if e.Check? && 0 < s.recvData.size {
      assert s.sent != [] && Last(s).meta == s.recvData;
    }
  }

  lemma StepTurns(s: State, e: Event)
    requires Sound(s) && Enabled(s, e)
    ensures TurnsSound(Next(s, e))
  {
    hide SizesSound, MemorySound, MetaSound, HistorySound, CountsSound, Padded, Delivered;
  }

  // ---- Memory ----

  lemma CopyMemory(s: State)
    requires Sound(s) && Enabled(s, CopyByte)
    ensures InRange(Next(s, CopyByte)) && SizesSound(Next(s, CopyByte)) && MemorySound(Next(s, CopyByte))
  {}

  lemma AnnounceMemory(s: State)
    requires Sound(s) && Enabled(s, Announce)
    ensures InRange(Next(s, Announce)) && SizesSound(Next(s, Announce)) && MemorySound(Next(s, Announce))
  {}

  lemma PadMemory(s: State)
    requires Sound(s) && Enabled(s, Pad)
    ensures InRange(Next(s, Pad)) && SizesSound(Next(s, Pad)) && MemorySound(Next(s, Pad))
    ensures Next(s, Pad).mem[..BLOCK] == Delivered(true, Last(s).bytes)
  {}

  lemma QuietMemory(s: State, t: State)
    requires InRange(s) && SizesSound(s) && MemorySound(s) && InRange(t)
    requires t.mem == s.mem && t.sent == s.sent
    requires t.pin == s.pin || (t.pin.Copying? && t.pin.copied == 0) || (!s.pin.Copying? && !t.pin.Copying?)
    requires s.con.Stopped? || s.con.Gone? ==> t.con.Stopped? || t.con.Gone?
    ensures SizesSound(t) && MemorySound(t)
  {}

  lemma StepMemory(s: State, e: Event)
    requires Sound(s) && Enabled(s, e)
    ensures InRange(Next(s, e)) && SizesSound(Next(s, e)) && MemorySound(Next(s, e))
  {
    hide HistorySound, CountsSound, MetaSound, MemorySound, SizesSound, TurnsSound, Delivered, Padded;
    StepInRange(s, e);
    match e
    case CopyByte => CopyMemory(s);
    case Announce => AnnounceMemory(s);
    case Pad => PadMemory(s);
    case _ => QuietMemory(s, Next(s, e));
  }

  // ---- Metadata and what is being read ----

  lemma QuietMeta(s: State, t: State)
    requires InRange(s) && MetaSound(s) && InRange(t)
    requires t.metas == s.metas && t.recvData == s.recvData && t.sent == s.sent && t.raw == s.raw
    requires HoldsFresh(t.con) ==> HoldsFresh(s.con)
    requires t.con.Padding? || t.con.Reading? ==> t.con == s.con && t.mem == s.mem
    ensures MetaSound(t)
  {}

  lemma AnnounceMeta(s: State)
    requires Sound(s) && Enabled(s, Announce)
    ensures InRange(Next(s, Announce)) && MetaSound(Next(s, Announce))
  {
    hide SizesSound, MemorySound, HistorySound, CountsSound, Delivered;
    StepInRange(s, Announce);
  }

  lemma ReceiveMeta(s: State)
    requires Sound(s) && Enabled(s, Receive)
    ensures InRange(Next(s, Receive)) && MetaSound(Next(s, Receive))
  {
    hide SizesSound, MemorySound, HistorySound, CountsSound, Delivered;
    StepInRange(s, Receive);
  }

  lemma PadMeta(s: State)
    requires Sound(s) && Enabled(s, Pad)
    ensures InRange(Next(s, Pad)) && MetaSound(Next(s, Pad))
  {}

  lemma CheckMeta(s: State)
    requires Sound(s) && Enabled(s, Check)
    ensures InRange(Next(s, Check)) && MetaSound(Next(s, Check))
  {}

  lemma ReadMeta(s: State)
    requires Sound(s) && Enabled(s, ReadByte)
    ensures InRange(Next(s, ReadByte)) && MetaSound(Next(s, ReadByte))
  {}

  lemma StepMeta(s: State, e: Event)
    requires Sound(s) && Enabled(s, e)
    ensures InRange(Next(s, e)) && MetaSound(Next(s, e))
  {
    hide HistorySound, CountsSound, MetaSound, MemorySound, SizesSound, Delivered, Padded;
    StepInRange(s, e);
    match e
    case Pad => PadMeta(s);
    case Check => CheckMeta(s);
    case ReadByte => ReadMeta(s);
    case Announce => AnnounceMeta(s);
    case Receive => ReceiveMeta(s);
    case _ => QuietMeta(s, Next(s, e));
  }

  // ---- History and counts ----

  /** A message is sent when nothing is outstanding. */
  lemma SentHistory(s: State, t: State, p: Packet)
    requires HistorySound(s) && Behind(s) == 0 && s.repeats == 0
    requires t.raw == s.raw && t.sent == s.sent + [p] && t.taken == s.taken && t.repeats == 0 && Behind(t) == 1
    ensures HistorySound(t)
  {
    hide Delivered;
    assert t.sent[..|t.sent| - 1] == s.sent[..|s.sent| - 0];
  }

  lemma QuietHistory(s: State, t: State)
    requires HistorySound(s) && t.raw == s.raw && t.sent == s.sent && t.taken == s.taken && t.repeats == s.repeats
    requires Behind(t) == Behind(s)
    ensures HistorySound(t)
  {}

  lemma AnnounceHistory(s: State)
    requires Sound(s) && Enabled(s, Announce)
    ensures HistorySound(Next(s, Announce))
  {
    hide HistorySound, SizesSound, MemorySound, MetaSound, CountsSound, Delivered;
    if s.con.Gone? {
      QuietHistory(s, Next(s, Announce));
    } else {
      SentHistory(s, Next(s, Announce), Packet(s.pin.buf, Meta(|s.pin.buf|, s.executed - s.lastExecuted)));
    }
  }

  lemma GotIsDelivered(s: State)
    requires Sound(s) && Enabled(s, Settle)
    ensures s.sent != [] && s.con.got == Delivered(s.raw, Last(s).bytes)
    ensures if s.con.isNew then Behind(s) == 1 && s.repeats == 0 else Behind(s) == 0
  {
    hide AllDelivered, Copies, Delivered, CountsSound;
    assert s.mem[..|s.con.got|] == s.mem[..ReadLength(s)];
  }

  /** The buffer that was outstanding is taken. */
  lemma TakenHistory(s: State, t: State)
    requires HistorySound(s) && s.sent != [] && Behind(s) == 1 && s.repeats == 0
    requires t.raw == s.raw && t.sent == s.sent && t.repeats == 0 && Behind(t) == 0
    requires t.taken == s.taken + [Delivered(s.raw, Last(s).bytes)]
    ensures HistorySound(t)
  {
    hide Delivered;
    var n := |s.sent|;
    assert s.sent[..n] == s.sent[..n - 1] + [Last(s)];
    assert AllDelivered(s.raw, s.sent[..n]) == AllDelivered(s.raw, s.sent[..n - 1]) + [Delivered(s.raw, Last(s).bytes)];
  }

  /** The last buffer is taken again. */
  lemma RepeatedHistory(s: State, t: State)
    requires HistorySound(s) && s.sent != [] && Behind(s) == 0
    requires t.raw == s.raw && t.sent == s.sent && t.repeats == s.repeats + 1 && Behind(t) == 0
    requires t.taken == s.taken + [Delivered(s.raw, Last(s).bytes)]
    ensures HistorySound(t)
  {
    hide Delivered, AllDelivered;
    var b := Delivered(s.raw, Last(s).bytes);
    assert Copies(s.repeats + 1, b) == Copies(s.repeats, b) + [b];
  }

  lemma SettledBehind(s: State)
    requires InRange(s) && TurnsSound(s) && Enabled(s, Settle)
    ensures Behind(Next(s, Settle)) == 0
  {}

  lemma SettleHistory(s: State)
    requires Sound(s) && Enabled(s, Settle)
    ensures HistorySound(Next(s, Settle))
  {
    hide SizesSound, TurnsSound, MemorySound, MetaSound, HistorySound, CountsSound, Delivered;
    GotIsDelivered(s);
    SettledBehind(s);
    if s.con.isNew {
      TakenHistory(s, Next(s, Settle));
    } else {
      RepeatedHistory(s, Next(s, Settle));
    }
  }

  /** All other steps leave the history and what is outstanding alone. */
  lemma KeepsHistory(s: State, e: Event)
    requires InRange(s) && Enabled(s, e) && |s.metas| <= 1 && !e.Announce? && !e.Settle?
    ensures var t := Next(s, e);
            t.raw == s.raw && t.sent == s.sent && t.taken == s.taken && t.repeats == s.repeats && Behind(t) == Behind(s)
  {
    hide Padded, ReadLength;
  }

  lemma StepHistory(s: State, e: Event)
    requires Sound(s) && Enabled(s, e)
    ensures HistorySound(Next(s, e))
  {
    hide Next, Enabled, SizesSound, MemorySound, MetaSound, CountsSound, HistorySound;
    match e
    case Announce => AnnounceHistory(s);
    case Settle => SettleHistory(s);
    case _ =>
      KeepsHistory(s, e);
      QuietHistory(s, Next(s, e));
  }

  lemma QuietCounts(s: State, t: State)
    requires CountsSound(s) && (s.con.Gone? ==> t.con.Gone?)
    requires t.applicationIns == s.applicationIns && t.lastExecuted == s.lastExecuted && t.repeats == s.repeats
    requires t.recvData == s.recvData && Unaccounted(t) == Unaccounted(s)
    ensures CountsSound(t)
  {}

  /** Receiving a message moves its instructions from the queue to the listener; there have been
      no repeats before it. */
  lemma ReceiveCounts(s: State)
    requires Sound(s) && Enabled(s, Receive)
    ensures CountsSound(Next(s, Receive))
  {}

  lemma OneMoreTime(n: nat, m: nat)
    ensures (n + 1) * m == n * m + m
  {}

  lemma SettleCounts(s: State)
    requires Sound(s) && Enabled(s, Settle)
    ensures CountsSound(Next(s, Settle))
  {
    hide SizesSound, MemorySound, MetaSound, AllDelivered, Delivered, Copies;
    OneMoreTime(s.repeats, s.recvData.ins);
  }

  lemma AnnounceCounts(s: State)
    requires Sound(s) && Enabled(s, Announce)
    ensures CountsSound(Next(s, Announce))
  {}

  /** All other steps leave the accounts alone; losing a message or a place moves no instructions. */
  lemma KeepsCounts(s: State, e: Event)
    requires InRange(s) && Enabled(s, e) && TurnsSound(s) && !e.Announce? && !e.Receive? && !e.Settle?
    ensures var t := Next(s, e);
            && (s.con.Gone? ==> t.con.Gone?) && t.applicationIns == s.applicationIns
            && t.lastExecuted == s.lastExecuted && t.repeats == s.repeats
            && t.recvData == s.recvData && Unaccounted(t) == Unaccounted(s)
  {
    hide Padded, ReadLength;
  }

  lemma StepCounts(s: State, e: Event)
    requires Sound(s) && Enabled(s, e)
    ensures CountsSound(Next(s, e))
  {
    hide Next, Enabled, InRange, SizesSound, MemorySound, MetaSound, HistorySound, TurnsSound, CountsSound, Unaccounted;
    match e
    case Announce => AnnounceCounts(s);
    case Receive => ReceiveCounts(s);
    case Settle => SettleCounts(s);
    case _ =>
      KeepsCounts(s, e);
      QuietCounts(s, Next(s, e));
  }

  lemma StepSizes(s: State, e: Event)
    requires Sound(s) && Enabled(s, e)
    ensures SizesSound(Next(s, e))
  {
    hide MemorySound, MetaSound, HistorySound, CountsSound, TurnsSound, Delivered, Padded;
  }

  lemma NextRaw(s: State, e: Event)
    requires InRange(s) && Enabled(s, e)
    ensures Next(s, e).raw == s.raw
  {}

  lemma StepSound(s: State, e: Event)
    requires Sound(s) && Enabled(s, e)
    ensures Sound(Next(s, e)) && Next(s, e).raw == s.raw
  {
    hide Next, Enabled, InRange, SizesSound, TurnsSound, MemorySound, MetaSound, HistorySound, CountsSound;
    StepInRange(s, e);
    StepTurns(s, e);
    StepMemory(s, e);
    StepMeta(s, e);
    StepHistory(s, e);
    StepCounts(s, e);
    StepSizes(s, e);
    NextRaw(s, e);
  }

  // ---- Runs ----

  ghost function Start(raw: bool, mem: seq<Byte>): (s: State)
    requires |mem| == ALLOCATION
    ensures Sound(s)
  {
    State(raw, Filling, LoopHead, 0, [], mem, NO_META, 0, 0, 0, [], [], 0)
  }

  datatype Outcome = Stuck | Reached(state: State)

  ghost function Run(s: State, es: seq<Event>): (r: Outcome)
    requires Sound(s)
    ensures r.Reached? ==> Sound(r.state) && r.state.raw == s.raw
  {
    if es == [] then Reached(s)
    else
      var r := Run(s, es[..|es| - 1]);
      var e := es[|es| - 1];
      if r.Reached? && Enabled(r.state, e) then
        StepSound(r.state, e);
        Reached(Next(r.state, e))
      else Stuck
  }

  lemma RunExtends(s: State, es: seq<Event>, e: Event)
    requires Sound(s) && Run(s, es).Reached? && Enabled(Run(s, es).state, e)
    ensures Run(s, es + [e]) == Reached(Next(Run(s, es).state, e))
  {
    assert (es + [e])[..|es|] == es;
  }

  lemma OneStep(s: State, es: seq<Event>, t: State, e: Event) returns (fs: seq<Event>, u: State)
    requires Sound(s) && Run(s, es) == Reached(t) && Enabled(t, e)
    ensures Sound(u) && u == Next(t, e) && fs == es + [e] && Run(s, fs) == Reached(u)
  {
    RunExtends(s, es, e);
    fs, u := es + [e], Next(t, e);
  }

  /** A run can be taken from its second state. */
  lemma {:induction false} RunFirst(s: State, e: Event, es: seq<Event>)
    requires Sound(s) && Run(s, [e] + es).Reached?
    ensures Enabled(s, e) && Sound(Next(s, e)) && Run(Next(s, e), es) == Run(s, [e] + es)
  {
    hide Sound, Next, Enabled;
    if es == [] {
      assert ([e] + es)[..0] == [] && [e] + es == [e];
      StepSound(s, e);
    } else {
      var front := es[..|es| - 1];
      assert ([e] + es)[..|es|] == [e] + front;
      RunFirst(s, e, front);
    }
  }

  lemma SoundParts(s: State)
    requires Sound(s)
    ensures InRange(s) && SizesSound(s) && HistorySound(s) && TurnsSound(s) && CountsSound(s)
  {}

  predicate UsesMemory(c: Consumer) {
    c.Padding? || c.Reading?
  }

  /** In every state of every run, also while and after either side closes, the two sides never
      use the memory at the same time; and while both sides are at work exactly one of them has
      the turn, as a queued ready signal, a copying Pin thread, a queued message, or a consumer
      between its receive and its next ready signal. */
  lemma Exclusion(raw: bool, mem: seq<Byte>, es: seq<Event>)
    requires |mem| == ALLOCATION && Run(Start(raw, mem), es).Reached?
    ensures var s := Run(Start(raw, mem), es).state;
            && !(s.pin.Copying? && UsesMemory(s.con))
            && (!s.pin.Closing? && !s.con.Stopped? && !s.con.Gone? ==>
                  s.ready + One(s.pin.Copying?) + |s.metas| + One(HoldsTurn(s.con)) == 1)
  {
    hide Sound, Run;
    SoundParts(Run(Start(raw, mem), es).state);
  }

  // ---- Progress ----

  /** What the consumer writes for a buffer of bytes b: in raw mode b and zeros up to a block, otherwise
      b itself. */
  ghost predicate WrittenFor(raw: bool, b: Buffer, r: Buffer) {
    if raw then |r| == 1048576 && |b| <= |r| && r[..|b|] == b && forall k :: |b| <= k < |r| ==> r[k] == 0
    else r == b
  }

  /** The steps from a received message to the next loop head. */
  ghost function TakeSteps(raw: bool, n: nat): seq<Event> {
    [Check] + (if raw then [Pad] else []) + Copies(n, ReadByte) + [Settle]
  }

  /** Reading goes on to the end, byte by byte. */
  lemma {:induction false} ReadsAll(s: State, es: seq<Event>, t: State, n: nat) returns (u: State)
    requires Sound(s) && Sound(t) && Run(s, es) == Reached(t) && t.con.Reading? && |t.con.got| + n == ReadLength(t)
    ensures Sound(u) && Run(s, es + Copies(n, ReadByte)) == Reached(u)
    ensures u == t.(con := u.con) && u.con.Reading? && u.con.isNew == t.con.isNew && |u.con.got| == ReadLength(t)
    decreases n
  {
    hide Sound, Run;
    if n == 0 {
      u := t;
      assert es + Copies(0, ReadByte) == es;
    } else {
      var fs;
      fs, u := OneStep(s, es, t, ReadByte);
      u := ReadsAll(s, fs, u, n - 1);
      assert es + Copies(n, ReadByte) == fs + Copies(n - 1, ReadByte);
    }
  }

  lemma LastFits(t: State)
    requires Sound(t) && t.sent != []
    ensures |Last(t).bytes| <= BLOCK
  {}

  lemma DeliveredIsWritten(raw: bool, b: Buffer)
    requires |b| <= BLOCK
    ensures WrittenFor(raw, b, Delivered(raw, b))
  {}

  lemma GotAll(t: State)
    requires Sound(t) && Enabled(t, Settle)
    ensures t.sent != [] && WrittenFor(t.raw, Last(t).bytes, t.con.got)
  {
    hide Delivered, AllDelivered, TurnsSound, HistorySound, CountsSound, MemorySound, MetaSound, SizesSound;
    GotIsDelivered(t);
    LastFits(t);
    DeliveredIsWritten(t.raw, Last(t).bytes);
  }

  /** A listener that has received a message of at least one byte, and is not told that the thread has
      ended, takes the buffer and is back at its loop head: one more buffer is taken, the last one sent,
      padded in raw mode, and its instructions are accounted. */
  lemma BufferIsTaken(s: State, es: seq<Event>, t: State) returns (u: State)
    requires Sound(s) && Sound(t) && Run(s, es) == Reached(t) && t.con.Checking? && 0 < t.recvData.size
    ensures var n := if t.raw then 1048576 else t.recvData.size;
            Sound(u) && Run(s, es + TakeSteps(t.raw, n)) == Reached(u)
    ensures u.con.LoopHead? && u.pin == t.pin && u.sent == t.sent && u.ready == t.ready && u.metas == t.metas
    ensures u.lastExecuted == t.lastExecuted && u.executed == t.executed
    ensures u.applicationIns == t.applicationIns + t.recvData.ins
    ensures t.sent != [] && |u.taken| == |t.taken| + 1 && u.taken[..|t.taken|] == t.taken
    ensures WrittenFor(t.raw, Last(t).bytes, u.taken[|t.taken|])
  {
    hide Sound, Run, WrittenFor;
    var n := if t.raw then BLOCK else t.recvData.size;
    var fs;
    fs, u := OneStep(s, es, t, Check);
    if t.raw {
      fs, u := OneStep(s, fs, u, Pad);
    }
    u := ReadsAll(s, fs, u, n);
    GotAll(u);
    fs, u := OneStep(s, fs + Copies(n, ReadByte), u, Settle);
    assert fs == es + TakeSteps(t.raw, n);
  }

  lemma {:induction false} CopiesAll(s: State, es: seq<Event>, t: State, n: nat) returns (u: State)
    requires Sound(s) && Sound(t) && Run(s, es) == Reached(t) && t.pin.Copying? && t.pin.copied + n == |t.pin.buf|
    ensures Sound(u) && Run(s, es + Copies(n, CopyByte)) == Reached(u)
    ensures u == t.(pin := t.pin.(copied := |t.pin.buf|), mem := u.mem)
    decreases n
  {
    hide Sound, Run;
    if n == 0 {
      u := t;
      assert es + Copies(0, CopyByte) == es;
    } else {
      var fs;
      fs, u := OneStep(s, es, t, CopyByte);
      u := CopiesAll(s, fs, u, n - 1);
      assert es + Copies(n, CopyByte) == fs + Copies(n - 1, CopyByte);
    }
  }

  lemma IdleQueues(s: State)
    requires Sound(s) && s.con.LoopHead? && s.pin.Filling?
    ensures s.ready == 0 && s.metas == []
  {}

  /** Pin's half of an exchange: the steps up to the message. */
  ghost function SendSteps(buf: Buffer): seq<Event> {
    [SendReady, Fill(buf), ReadReady] + Copies(|buf|, CopyByte) + [Announce, Receive]
  }

  lemma RunNone(s: State)
    requires Sound(s)
    ensures Run(s, []) == Reached(s)
  {}

  lemma CopyBegins(s: State, buf: Buffer) returns (u: State)
    requires Sound(s) && s.con.LoopHead? && s.pin.Filling? && |buf| <= BLOCK
    ensures Sound(u) && Run(s, [SendReady, Fill(buf), ReadReady]) == Reached(u)
    ensures u == s.(pin := Copying(buf, 0), con := AwaitMeta) && s.ready == 0 && s.metas == []
  {
    hide Sound, Run, InRange;
    IdleQueues(s);
    RunNone(s);
    var es: seq<Event> := [];
    es, u := OneStep(s, es, s, SendReady);
    es, u := OneStep(s, es, u, Fill(buf));
    es, u := OneStep(s, es, u, ReadReady);
    assert es == [SendReady, Fill(buf), ReadReady];
  }

  lemma AnnounceMoves(t: State)
    requires InRange(t) && t.metas == [] && t.con.AwaitMeta? && t.pin.Copying? && t.pin.copied == |t.pin.buf|
    ensures var m := Meta(|t.pin.buf|, t.executed - t.lastExecuted);
            && Enabled(t, Announce)
            && Next(t, Announce) == t.(pin := Filling, lastExecuted := t.executed, metas := [m],
                                       sent := t.sent + [Packet(t.pin.buf, m)])
  {}

  lemma ReceiveMoves(t: State)
    requires InRange(t) && |t.metas| == 1 && t.con.AwaitMeta?
    ensures Enabled(t, Receive)
    ensures Next(t, Receive) == t.(con := Checking(true), recvData := t.metas[0], metas := [])
  {}

  lemma CopyEnds(s: State, es: seq<Event>, t: State) returns (fs: seq<Event>, u: State)
    requires Sound(s) && Sound(t) && Run(s, es) == Reached(t) && t.metas == []
    requires t.con.AwaitMeta? && t.pin.Copying? && t.pin.copied == |t.pin.buf|
    ensures t.lastExecuted <= t.executed
    ensures Sound(u) && fs == es + [Announce, Receive] && Run(s, fs) == Reached(u)
    ensures var m := Meta(|t.pin.buf|, t.executed - t.lastExecuted);
            u == t.(pin := Filling, con := Checking(true), recvData := m, lastExecuted := t.executed,
                    sent := t.sent + [Packet(t.pin.buf, m)])
  {
    hide Sound, Run, Next, Enabled, TurnsSound, SizesSound, HistorySound, CountsSound;
    SoundParts(t);
    AnnounceMoves(t);
    fs, u := OneStep(s, es, t, Announce);
    SoundParts(u);
    ReceiveMoves(u);
    fs, u := OneStep(s, fs, u, Receive);
    assert fs == es + [Announce, Receive];
  }

  lemma BufferIsSent(s: State, buf: Buffer) returns (u: State)
    requires Sound(s) && s.con.LoopHead? && s.pin.Filling? && |buf| <= BLOCK && s.lastExecuted <= s.executed
    ensures Sound(u) && Run(s, SendSteps(buf)) == Reached(u)
    ensures u.con == Checking(true) && u.pin.Filling? && u.recvData == Meta(|buf|, s.executed - s.lastExecuted)
    ensures u.sent == s.sent + [Packet(buf, u.recvData)] && u.taken == s.taken && u.raw == s.raw
    ensures u.executed == u.lastExecuted == s.executed && u.applicationIns == s.applicationIns
    ensures u.ready == 0 && u.metas == []
  {
    hide Sound, Run, Next, Enabled;
    u := CopyBegins(s, buf);
    var es := [SendReady, Fill(buf), ReadReady];
    u := CopiesAll(s, es, u, |buf|);
    es := es + Copies(|buf|, CopyByte);
    es, u := CopyEnds(s, es, u);
    assert es == SendSteps(buf);
  }

  /** A whole exchange can always be completed while both sides are at work: whatever buffer of at least
      one byte Pin fills next, there is a run at whose end the buffer has been sent and taken, padded in
      raw mode, all instructions executed so far are handed off, and both sides are where they began. */
  lemma ExchangeCompletes(s: State, buf: Buffer)
    requires Sound(s) && s.con.LoopHead? && s.pin.Filling? && 0 < |buf| <= BLOCK
    ensures var n := if s.raw then 1048576 else |buf|;
            var r := Run(s, SendSteps(buf) + TakeSteps(s.raw, n));
            && r.Reached?
            && var t := r.state;
            && t.con.LoopHead? && t.pin.Filling? && t.ready == 0 && t.metas == []
            && t.sent == s.sent + [Packet(buf, Meta(|buf|, s.executed - s.lastExecuted))]
            && |t.taken| == |s.taken| + 1 && t.taken[..|s.taken|] == s.taken
            && WrittenFor(s.raw, buf, t.taken[|s.taken|])
            && t.lastExecuted == s.executed
            && t.applicationIns == s.applicationIns + (s.executed - s.lastExecuted)
  {
    SoundParts(s);
    hide Sound, Run, WrittenFor;
    var u := BufferIsSent(s, buf);
    var t := BufferIsTaken(s, SendSteps(buf), u);
  }

  /** None of the events by which a listener or Pin leaves. */
  predicate Staying(e: Event) {
    !e.Stop? && !e.Terminated? && !e.WriteFails? && !e.BeginClose?
  }

  ghost predicate AllHoldData(ps: seq<Packet>) {
    forall k :: 0 <= k < |ps| ==> ps[k].bytes != []
  }

  lemma StepStays(s: State, e: Event)
    requires Sound(s) && Enabled(s, e) && Staying(e) && AllHoldData(s.sent)
    requires !s.pin.Closing? && !s.con.Stopped? && !s.con.Gone?
    ensures var t := Next(s, e);
            !t.pin.Closing? && !t.con.Stopped? && !t.con.Gone?
  {
    hide MemorySound, HistorySound, CountsSound, Delivered;
    if e.Check? { assert s.sent != [] && Last(s).bytes != []; }
  }

  lemma SentGrows(s: State, e: Event)
    requires InRange(s) && Enabled(s, e)
    ensures s.sent <= Next(s, e).sent
  {}

  /** The listener leaves its loop for no other reason than a stop, the end of the thread, a failed
      write, an empty buffer, or Pin's close. */
  lemma {:induction false} ListenerStays(raw: bool, mem: seq<Byte>, es: seq<Event>)
    requires |mem| == ALLOCATION && Run(Start(raw, mem), es).Reached?
    requires forall k :: 0 <= k < |es| ==> Staying(es[k])
    requires AllHoldData(Run(Start(raw, mem), es).state.sent)
    ensures var s := Run(Start(raw, mem), es).state;
            !s.pin.Closing? && !s.con.Stopped? && !s.con.Gone?
  {
    hide Sound, Next, Enabled, Staying;
    if es == [] {
    } else {
      var front := es[..|es| - 1];
      var s := Run(Start(raw, mem), front).state;
      SoundParts(s);
      SentGrows(s, es[|es| - 1]);
      ListenerStays(raw, mem, front);
      StepStays(s, es[|es| - 1]);
    }
  }

  /** The listener has a step of its own that does not wait for Pin. */
  ghost predicate ListenerMoves(s: State) {
    Enabled(s, SendReady) || Enabled(s, Check) || Enabled(s, Pad) || Enabled(s, ReadByte) || Enabled(s, Settle) ||
    Enabled(s, CloseSockets)
  }

  /** The application runs, or Pin has a step of its own that does not wait for the listener. */
  ghost predicate PinMoves(s: State) {
    s.pin.Filling? || Enabled(s, CopyByte) || Enabled(s, Announce) || Enabled(s, CloseStep)
  }

  lemma SomeoneMoves(s: State)
    requires InRange(s) && TurnsSound(s)
    ensures s.pin.AwaitReady? ==> Enabled(s, ReadReady) || Enabled(s, Receive) || ListenerMoves(s)
    ensures s.con.AwaitMeta? ==> Enabled(s, Receive) || Enabled(s, ReadReady) || PinMoves(s)
  {
    hide ReadLength;
  }

  /** The two sides never wait for each other: in every state of every run, also while either side
      closes, a Pin thread in read finds its read ready or the listener with a step to take, and a
      listener in recv finds its recv ready or Pin with a step to take. In particular they are never
      both blocked. */
  lemma NeverBothBlocked(raw: bool, mem: seq<Byte>, es: seq<Event>)
    requires |mem| == ALLOCATION && Run(Start(raw, mem), es).Reached?
    ensures var s := Run(Start(raw, mem), es).state;
            && (s.pin.AwaitReady? ==> Enabled(s, ReadReady) || Enabled(s, Receive) || ListenerMoves(s))
            && (s.con.AwaitMeta? ==> Enabled(s, Receive) || Enabled(s, ReadReady) || PinMoves(s))
            && !(s.pin.AwaitReady? && s.con.AwaitMeta? && !Enabled(s, ReadReady) && !Enabled(s, Receive))
  {
    hide Sound, Run, InRange, TurnsSound, SizesSound, HistorySound, CountsSound;
    SoundParts(Run(Start(raw, mem), es).state);
    SomeoneMoves(Run(Start(raw, mem), es).state);
  }

  /** In every state of every run the buffers taken are, byte for byte and in order, those sent
      except perhaps the last one; repeats of the last buffer may follow, but only once Pin has
      shut the size socket, and then nothing is missing before them. */
  lemma Delivery(raw: bool, mem: seq<Byte>, es: seq<Event>)
    requires |mem| == ALLOCATION && Run(Start(raw, mem), es).Reached?
    ensures var s := Run(Start(raw, mem), es).state;
            && Behind(s) <= 1 && Behind(s) <= |s.sent|
            && s.taken == AllDelivered(raw, s.sent[..|s.sent| - Behind(s)]) +
                          (if s.sent == [] then [] else Copies(s.repeats, Delivered(raw, Last(s).bytes)))
            && (0 < s.repeats ==> SizeShut(s.pin) && Behind(s) == 0)
            && (!SizeShut(s.pin) ==> s.taken == AllDelivered(raw, s.sent[..|s.sent| - Behind(s)]))
            && (Behind(s) == 1 ==> s.con.AwaitMeta? || HoldsFresh(s.con))
            && (s.con.Stopped? || s.con.Gone? ==> (Behind(s) == 1 <==> s.con.lost))
  {
    hide Sound, Run, Delivered, AllDelivered;
    var s := Run(Start(raw, mem), es).state;
    SoundParts(s);
    if s.repeats == 0 { assert s.sent != [] ==> Copies(0, Delivered(raw, Last(s).bytes)) == []; }
  }

  /** While the consumer is in its loop, the instructions it has accounted plus those in messages
      not yet accounted are the instructions Pin had executed at its last hand-off, plus the
      last buffer's once more for every repeat. */
  lemma CountsConserved(raw: bool, mem: seq<Byte>, es: seq<Event>)
    requires |mem| == ALLOCATION && Run(Start(raw, mem), es).Reached?
    ensures var s := Run(Start(raw, mem), es).state;
            && s.lastExecuted <= s.executed
            && (!s.con.Gone? ==> s.applicationIns + Unaccounted(s) == s.lastExecuted + s.repeats * s.recvData.ins)
            && (!s.con.Gone? && !SizeShut(s.pin) ==> s.applicationIns + Unaccounted(s) == s.lastExecuted)
  {
    hide Sound, Run;
    SoundParts(Run(Start(raw, mem), es).state);
  }

  lemma StoppedStep(s: State, e: Event)
    requires InRange(s) && TurnsSound(s) && Enabled(s, e) && (s.con.Stopped? || s.con.Gone?)
    requires s.con.Stopped? && !s.pin.Closing? ==> !s.pin.Copying?
    ensures var t := Next(s, e);
            t.taken == s.taken && t.sent == s.sent && (t.con.Stopped? || t.con.Gone?) &&
            HoldsFresh(t.con) == HoldsFresh(s.con)
  {}

  /** Once the listener has left its loop nothing more is taken or sent. */
  lemma {:induction false} StoppedIsFinal(s: State, es: seq<Event>)
    requires Sound(s) && Run(s, es).Reached? && (s.con.Stopped? || s.con.Gone?)
    ensures var t := Run(s, es).state;
            t.taken == s.taken && t.sent == s.sent && (t.con.Stopped? || t.con.Gone?) &&
            HoldsFresh(t.con) == HoldsFresh(s.con)
  {
    if es == [] {
    } else {
      var front := es[..|es| - 1];
      StoppedIsFinal(s, front);
      StoppedStep(Run(s, front).state, es[|es| - 1]);
      hide Sound, HoldsFresh, Next;
    }
  }

  /** 1 while the listener waits for a message or works on one. */
  function InHand(c: Consumer): nat {
    if c.AwaitMeta? || c.Checking? || c.Padding? || c.Reading? then 1 else 0
  }

  lemma ClosedStep(s: State, e: Event)
    requires InRange(s) && Enabled(s, e) && ReadyClosed(s.pin)
    ensures var t := Next(s, e);
            ReadyClosed(t.pin) && |t.taken| + InHand(t.con) <= |s.taken| + InHand(s.con)
  {}

  /** Once Pin has closed the ready socket the listener finishes what it has begun, if anything, and
      never takes another buffer. */
  lemma {:induction false} AtMostOneMore(s: State, es: seq<Event>)
    requires Sound(s) && Run(s, es).Reached? && s.pin.Closing? && 3 <= s.pin.done
    ensures var t := Run(s, es).state;
            t.pin.Closing? && 3 <= t.pin.done && |t.taken| + InHand(t.con) <= |s.taken| + InHand(s.con)
  {
    hide Sound, Next, Enabled;
    if es == [] {
    } else {
      var front := es[..|es| - 1];
      AtMostOneMore(s, front);
      SoundParts(Run(s, front).state);
      ClosedStep(Run(s, front).state, es[|es| - 1]);
    }
  }

  lemma Leaves(s: State, e: Event, lost: bool)
    requires Sound(s) && InRange(s) && Enabled(s, e) && Next(s, e) == s.(con := Stopped(lost))
    ensures Run(s, [e, CloseSockets]) == Reached(s.(con := Gone(lost)))
  {
    hide Sound, Run;
    RunNone(s);
    var es, t := OneStep(s, [], s, e);
    es, t := OneStep(s, es, t, CloseSockets);
    assert es == [e, CloseSockets];
  }

  /** The ways out of the loop: at its head a stop or a closed ready socket; after a message the end of
      the thread or an empty buffer, and then that message counts as lost if it was new; a failed write
      likewise. */
  lemma ListenerLeaves(s: State)
    requires Sound(s)
    ensures s.con.LoopHead? ==> Run(s, [Stop, CloseSockets]) == Reached(s.(con := Gone(false)))
    ensures s.con.LoopHead? && s.pin.Closing? && 3 <= s.pin.done ==>
              Run(s, [SendReady, CloseSockets]) == Reached(s.(con := Gone(false)))
    ensures s.con.Checking? ==> Run(s, [Terminated, CloseSockets]) == Reached(s.(con := Gone(s.con.isNew)))
    ensures s.con.Checking? && s.recvData.size == 0 ==>
              Run(s, [Check, CloseSockets]) == Reached(s.(con := Gone(s.con.isNew)))
    ensures s.con.Reading? ==> Run(s, [WriteFails, CloseSockets]) == Reached(s.(con := Gone(s.con.isNew)))
  {
    hide Sound, Run, HistorySound, TurnsSound, CountsSound, SizesSound, Padded;
    SoundParts(s);
    if s.con.LoopHead? {
      Leaves(s, Stop, false);
      if ReadyClosed(s.pin) { Leaves(s, SendReady, false); }
    } else if s.con.Checking? {
      Leaves(s, Terminated, s.con.isNew);
      if s.recvData.size == 0 { Leaves(s, Check, s.con.isNew); }
    } else if s.con.Reading? {
      Leaves(s, WriteFails, s.con.isNew);
    }
  }

  lemma OnlyLastMissing(s: State)
    requires TurnsSound(s) && HistorySound(s) && s.con == Checking(true)
    ensures s.taken == AllDelivered(s.raw, s.sent[..|s.sent| - 1])
  {}

  lemma LostIsBehind(t: State)
    requires Sound(t) && (t.con.Stopped? || t.con.Gone?) && HoldsFresh(t.con)
    ensures Behind(t) == 1
  {}

  /** The listener asks the performance counters between receiving a message and writing the
      buffer, and leaves the loop if the thread has ended: then the buffer just received is
      never taken, whatever happens afterwards. Pin's last buffer can be lost this way. */
  lemma TerminatedThreadLosesBuffer(s: State, es: seq<Event>)
    requires Sound(s) && s.con == Checking(true) && Run(s, [Terminated] + es).Reached?
    ensures var t := Run(s, [Terminated] + es).state;
            && Behind(t) == 1 && t.sent == s.sent
            && t.taken == AllDelivered(s.raw, s.sent[..|s.sent| - 1])
  {
    hide Sound, AllDelivered, Delivered;
    SoundParts(s);
    RunFirst(s, Terminated, es);
    var u := Next(s, Terminated);
    StoppedIsFinal(u, es);
    var t := Run(u, es).state;
    LostIsBehind(t);
    OnlyLastMissing(s);
  }

  const SENDING: seq<Event> := [SendReady, Fill([7]), ReadReady, CopyByte, Announce]

  const LOSING: seq<Event> := [BeginClose, Receive, Terminated, CloseSockets]

  lemma OneBufferSent(raw: bool, mem: seq<Byte>) returns (t: State)
    requires |mem| == ALLOCATION
    ensures Sound(t) && Run(Start(raw, mem), SENDING) == Reached(t)
    ensures t.pin.Filling? && t.con.AwaitMeta? && t.metas == [Meta(1, 0)] && t.raw == raw
    ensures t.sent == [Packet([7], Meta(1, 0))] && t.taken == [] && t.repeats == 0
  {
    hide Sound;
    var s, es := Start(raw, mem), [];
    es, t := OneStep(s, es, s, SendReady);
    es, t := OneStep(s, es, t, Fill([7]));
    es, t := OneStep(s, es, t, ReadReady);
    es, t := OneStep(s, es, t, CopyByte);
    es, t := OneStep(s, es, t, Announce);
    assert es == SENDING;
  }

  /** Such a run: Pin sends its only buffer and ends; the listener receives the message, learns
      from the counters that the thread has ended, and closes. */
  lemma LastBufferLost(raw: bool, mem: seq<Byte>)
    requires |mem| == ALLOCATION
    ensures Run(Start(raw, mem), SENDING + LOSING).Reached?
    ensures var t := Run(Start(raw, mem), SENDING + LOSING).state;
            t.con.Gone? && t.sent == [Packet([7], Meta(1, 0))] && t.taken == []
  {
    hide Sound;
    var s, es := Start(raw, mem), SENDING;
    var t := OneBufferSent(raw, mem);
    es, t := OneStep(s, es, t, BeginClose);
    es, t := OneStep(s, es, t, Receive);
    es, t := OneStep(s, es, t, Terminated);
    es, t := OneStep(s, es, t, CloseSockets);
    assert es == SENDING + LOSING;
  }

  /** Pin has shut both sockets after its only buffer, which the listener has taken 1 + n times. */
  ghost predicate RepeatedSoFar(t: State, n: nat) {
    && !t.raw && t.pin == Closing(2) && t.con.LoopHead? && t.metas == [] && t.recvData == Meta(1, 0)
    && t.sent == [Packet([7], Meta(1, 0))] && t.repeats == n
  }

  lemma OneBufferTaken(mem: seq<Byte>) returns (es: seq<Event>, t: State)
    requires |mem| == ALLOCATION
    ensures Sound(t) && Run(Start(false, mem), es) == Reached(t)
    ensures !t.raw && t.pin.Filling? && t.con.LoopHead? && t.metas == [] && t.recvData == Meta(1, 0)
    ensures t.sent == [Packet([7], Meta(1, 0))] && t.repeats == 0
  {
    hide Sound, Run;
    var s := Start(false, mem);
    t := OneBufferSent(false, mem);
    es, t := OneStep(s, SENDING, t, Receive);
    es, t := OneStep(s, es, t, Check);
    es, t := OneStep(s, es, t, ReadByte);
    es, t := OneStep(s, es, t, Settle);
  }

  lemma BothShut(mem: seq<Byte>) returns (es: seq<Event>, t: State)
    requires |mem| == ALLOCATION
    ensures Sound(t) && Run(Start(false, mem), es) == Reached(t) && RepeatedSoFar(t, 0)
  {
    hide Sound, Run;
    var s := Start(false, mem);
    es, t := OneBufferTaken(mem);
    es, t := OneStep(s, es, t, BeginClose);
    es, t := OneStep(s, es, t, CloseStep);
    es, t := OneStep(s, es, t, CloseStep);
  }

  lemma OneMoreRepeat(s: State, es: seq<Event>, t: State, n: nat) returns (fs: seq<Event>, u: State)
    requires Sound(s) && Sound(t) && Run(s, es) == Reached(t) && RepeatedSoFar(t, n)
    ensures Sound(u) && Run(s, fs) == Reached(u) && RepeatedSoFar(u, n + 1)
  {
    hide Sound, Run;
    fs, u := OneStep(s, es, t, SendReady);
    fs, u := OneStep(s, fs, u, Receive);
    fs, u := OneStep(s, fs, u, Check);
    fs, u := OneStep(s, fs, u, ReadByte);
    fs, u := OneStep(s, fs, u, Settle);
  }

  lemma TakenCopies(t: State, n: nat)
    requires Sound(t) && RepeatedSoFar(t, n)
    ensures t.taken == Copies(n + 1, [7])
  {
    assert HistorySound(t) && Behind(t) == 0;
    hide Sound;
    assert Delivered(false, [7]) == [7];
    assert t.sent[..1] == t.sent;
    assert AllDelivered(false, t.sent) == [[7]];
    assert [[7]] + Copies(n, [7]) == Copies(n + 1, [7]);
  }

  /** As long as Pin is between shutting the size socket and closing the ready socket, the
      listener can take the last buffer any number of times more. */
  lemma {:induction false} LastBufferRepeats(mem: seq<Byte>, n: nat) returns (es: seq<Event>, t: State)
    requires |mem| == ALLOCATION
    ensures Sound(t) && Run(Start(false, mem), es) == Reached(t) && RepeatedSoFar(t, n)
    ensures t.taken == Copies(n + 1, [7])
  {
    hide Sound, Run, RepeatedSoFar;
    if n == 0 {
      es, t := BothShut(mem);
    } else {
      es, t := LastBufferRepeats(mem, n - 1);
      es, t := OneMoreRepeat(Start(false, mem), es, t, n - 1);
    }
    TakenCopies(t, n);
  }
}
