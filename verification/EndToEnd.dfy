/** From Pin to disk: what the hand-off delivers is what the ring file holds in raw mode, and what
    the compressor is fed in compressed mode. */
module EndToEnd {
  import opened Layout
  import opened Handoff
  import opened OutputStream
  import opened RawFile
  import opened TraceRecords
  import CompressedWriter

  function Bytes(ps: seq<Packet>): seq<Buffer> {
    seq(|ps|, i requires 0 <= i < |ps| => ps[i].bytes)
  }

  /** The buffers the consumer has received, in order: those sent but for the one still on its
      way, and the last one again for every receive that returned 0 after Pin had closed. */
  ghost function Received(s: State): seq<Buffer>
    requires Sound(s)
  {
    Bytes(s.sent[..|s.sent| - Behind(s)]) + (if s.sent == [] then [] else Copies(s.repeats, Last(s).bytes))
  }

  ghost predicate Blocks(blocks: seq<Buffer>, bs: seq<Buffer>) {
    |blocks| == |bs| && Fits(bs) && forall i :: 0 <= i < |bs| ==> blocks[i] == Block(bs[i])
  }

  /** Writing padded blocks one after the other is the ring writer's work. */
  lemma {:induction false} WritingBlocks(f: File, blocks: seq<Buffer>, bs: seq<Buffer>)
    requires FileSound(f) && Blocks(blocks, bs)
    ensures WriteAll(f, blocks) == RawAfter(f, bs)
  {
    hide Write, Block;
    if bs == [] {
    } else {
      var n := |bs| - 1;
      WritingBlocks(f, blocks[..n], bs[..n]);
    }
  }

  lemma TakenAreBlocks(s: State)
    requires Sound(s) && s.raw
    ensures Blocks(s.taken, Received(s))
  {}

  lemma BeforeTheClose(s: State)
    requires Sound(s) && s.raw
    ensures |Received(s)| == |s.taken|
    ensures !SizeShut(s.pin) ==> Received(s) == Bytes(s.sent[..|s.taken|]) && |s.sent| <= |s.taken| + 1
  {
    hide InRange, SizesSound, MemorySound, MetaSound, CountsSound;
    assert TurnsSound(s) && HistorySound(s);
  }

  /** In every state of every raw-mode run, after the taken buffers have been written: ring block
      j holds, zero-padded, the latest of the received buffers that belongs there. While Pin has
      not closed, those are exactly the buffers it sent but for at most the last. */
  lemma TraceReachesDisk(mem: seq<Byte>, es: seq<Event>, f: File, j: nat)
    requires |mem| == ALLOCATION && Run(Start(true, mem), es).Reached?
    requires FileSound(f) && f.offset == 0
    requires j < RING_BLOCKS && j < |Run(Start(true, mem), es).state.taken|
    ensures var s := Run(Start(true, mem), es).state;
            var n := |s.taken|;
            && n == |Received(s)| && 0 <= Latest(n, j) < n && |Received(s)[Latest(n, j)]| <= BLOCK
            && HoldsBlock(WriteAll(f, s.taken).content, j, Received(s)[Latest(n, j)])
            && (!SizeShut(s.pin) ==> Received(s) == Bytes(s.sent[..n]) && |s.sent| <= n + 1)
  {
    hide Run, Sound, WriteAll, RawAfter, HoldsBlock, Latest, Received;
    var s := Run(Start(true, mem), es).state;
    TakenAreBlocks(s);
    WritingBlocks(f, s.taken, Received(s));
    FileIsRing(f, Received(s));
    BeforeTheClose(s);
  }

  // ---- Records ----

  /** Pin's buffers hold records: buffer k those of traces[k]. */
  ghost predicate Carries(s: State, traces: seq<seq<MemRef>>) {
    && Bytes(s.sent) == Encoded(traces) && |s.sent| == |traces|
    && forall i, k :: 0 <= i < |traces| && 0 <= k < |traces[i]| ==> Representable(traces[i][k])
  }

  /** The records of the buffers received, buffer by buffer: of those sent but for the one that is
      outstanding or lost, and of the last one again for every repeat. */
  ghost function ReceivedTraces(s: State, traces: seq<seq<MemRef>>): seq<seq<MemRef>>
    requires Sound(s) && |traces| == |s.sent|
  {
    traces[..|traces| - Behind(s)] + (if traces == [] then [] else Copies(s.repeats, traces[|traces| - 1]))
  }

  lemma ReceivedAreEncoded(s: State, traces: seq<seq<MemRef>>)
    requires Sound(s) && Carries(s, traces)
    ensures Received(s) == Encoded(ReceivedTraces(s, traces))
  {
    hide EncodeAll, Representable, InRange, SizesSound, TurnsSound, MemorySound, MetaSound, CountsSound;
    assert HistorySound(s);
    var rs, n := ReceivedTraces(s, traces), |s.sent| - Behind(s);
    assert forall i :: 0 <= i < |traces| ==> s.sent[i].bytes == Bytes(s.sent)[i] == EncodeAll(traces[i]);
    forall i | 0 <= i < |rs| ensures Received(s)[i] == EncodeAll(rs[i]) {
      if i < n { assert Received(s)[i] == s.sent[i].bytes; }
    }
  }

  lemma ReceivedRepresentable(s: State, traces: seq<seq<MemRef>>)
    requires Sound(s) && Carries(s, traces)
    ensures var rs := ReceivedTraces(s, traces);
            forall i, k :: 0 <= i < |rs| && 0 <= k < |rs[i]| ==> Representable(rs[i][k])
  {
    hide Representable, InRange, SizesSound, TurnsSound, MemorySound, MetaSound, CountsSound;
    var rs := ReceivedTraces(s, traces);
    forall i | 0 <= i < |rs| ensures rs[i] in traces {}
  }

  lemma TakenAreReceived(s: State)
    requires Sound(s) && !s.raw
    ensures s.taken == Received(s)
  {
    hide InRange, SizesSound, TurnsSound, MemorySound, MetaSound, CountsSound;
    assert HistorySound(s);
  }

  /** The records are complete once the listener has left its loop without losing or repeating a
      buffer, and before Pin closes they lack at most the last buffer's. */
  lemma ReceivedTracesComplete(s: State, traces: seq<seq<MemRef>>)
    requires Sound(s) && |traces| == |s.sent|
    ensures (s.con.Stopped? || s.con.Gone?) && !s.con.lost && s.repeats == 0 ==> ReceivedTraces(s, traces) == traces
    ensures !SizeShut(s.pin) ==> ReceivedTraces(s, traces) == traces[..|traces| - Behind(s)] && Behind(s) <= 1
  {
    hide InRange, SizesSound, MemorySound, MetaSound, CountsSound;
    assert TurnsSound(s) && HistorySound(s);
  }

  lemma CarriesEach(s: State, traces: seq<seq<MemRef>>)
    requires Carries(s, traces)
    ensures |traces| == |s.sent|
  {}

  /** In every state of every raw-mode run in which Pin's buffers hold records, also after both sides
      have closed, each ring block decodes to the records of the latest received buffer that belongs
      there. */
  lemma TraceDecodesFromDisk(mem: seq<Byte>, es: seq<Event>, f: File, j: nat, traces: seq<seq<MemRef>>)
    requires |mem| == ALLOCATION && Run(Start(true, mem), es).Reached?
    requires FileSound(f) && f.offset == 0
    requires j < RING_BLOCKS && j < |Run(Start(true, mem), es).state.taken|
    requires Carries(Run(Start(true, mem), es).state, traces)
    ensures var s := Run(Start(true, mem), es).state;
            var rs, file := ReceivedTraces(s, traces), WriteAll(f, s.taken).content;
            && |rs| == |s.taken| && 0 <= Latest(|rs|, j) < |rs|
            && var t := rs[Latest(|rs|, j)];
            && (j + 1) * BLOCK <= |file| && RECORD * |t| <= BLOCK
            && DecodeFirst(file[j * BLOCK..(j + 1) * BLOCK], |t|) == t
  {
    hide Run, Start, WriteAll, EncodeAll, DecodeFirst, Latest, Sound, Carries, Representable;
    var s := Run(Start(true, mem), es).state;
    TraceReachesDisk(mem, es, f, j);
    CarriesEach(s, traces);
    ReceivedAreEncoded(s, traces);
    ReceivedRepresentable(s, traces);
    var rs := ReceivedTraces(s, traces);
    var t := rs[Latest(|rs|, j)];
    assert Received(s)[Latest(|rs|, j)] == EncodeAll(t);
    BlockRoundTrip(t, Zeros(BLOCK - |EncodeAll(t)|));
  }

  /** In every state of every compressed-mode run in which Pin's buffers hold records, also after both
      sides have closed: the bytes taken, one buffer after the other, decode to the records of the
      received buffers in order. */
  lemma TraceReachesCompressor(mem: seq<Byte>, es: seq<Event>, traces: seq<seq<MemRef>>)
    requires |mem| == ALLOCATION && Run(Start(false, mem), es).Reached?
    requires Carries(Run(Start(false, mem), es).state, traces)
    ensures var s := Run(Start(false, mem), es).state;
            var records := Flatten(ReceivedTraces(s, traces));
            |Concat(s.taken)| == RECORD * |records| && DecodeFirst(Concat(s.taken), |records|) == records
  {
    hide Run, EncodeAll, DecodeFirst, Flatten, Concat, Sound, Carries, Representable, Received, ReceivedTraces;
    var s := Run(Start(false, mem), es).state;
    TakenAreReceived(s);
    CarriesEach(s, traces);
    ReceivedAreEncoded(s, traces);
    ReceivedRepresentable(s, traces);
    StreamRoundTrip(ReceivedTraces(s, traces));
  }

  /** For any decoder that gives back what the compressor was given, the finished file of a trace,
      fresh and not written to after the wrap, decodes to the records of the received buffers in
      order; and if the listener left its loop without losing or repeating a buffer, to all records
      of all buffers sent. */
  lemma FinishedFileDecodes(mem: seq<Byte>, es: seq<Event>, traces: seq<seq<MemRef>>, outs: seq<seq<Byte>>,
                            ending: seq<Byte>, decoder: seq<Byte> -> seq<Byte>)
    requires |mem| == ALLOCATION && Run(Start(false, mem), es).Reached?
    requires Carries(Run(Start(false, mem), es).state, traces)
    requires decoder(Stream(outs, ending)) == Concat(Run(Start(false, mem), es).state.taken)
    requires NoWriteAfterWrap(EmitAll(outs).writes)
    ensures var s := Run(Start(false, mem), es).state;
            var trace := decoder(FinalFile(File([], 0), outs, ending));
            var records := Flatten(ReceivedTraces(s, traces));
            && |trace| == RECORD * |records| && DecodeFirst(trace, |records|) == records
            && ((s.con.Stopped? || s.con.Gone?) && !s.con.lost && s.repeats == 0 ==> records == Flatten(traces))
  {
    hide Run, Start, EmitAll, FinalFile, Stream, Concat, Flatten, DecodeFirst, Sound, Carries, ReceivedTraces;
    FileCompleteIffNoWrap(outs, ending);
    TraceReachesCompressor(mem, es, traces);
    CarriesEach(Run(Start(false, mem), es).state, traces);
    ReceivedTracesComplete(Run(Start(false, mem), es).state, traces);
  }

  // ---- The listener's side as code ----

  lemma TakenGrow(s: State, e: Event)
    requires Sound(s) && Enabled(s, e)
    ensures var t := Next(s, e).taken;
            t == s.taken || (t == s.taken + [t[|s.taken|]] && 0 < |t[|s.taken|]| <= BLOCK)
  {
    hide SizesSound, TurnsSound, MemorySound, MetaSound, HistorySound, CountsSound;
  }

  /** The listener only takes buffers that hold something, in either mode. */
  lemma {:induction false} TakenHoldData(raw: bool, mem: seq<Byte>, es: seq<Event>)
    requires |mem| == ALLOCATION && Run(Start(raw, mem), es).Reached?
    ensures var s := Run(Start(raw, mem), es).state;
            forall k :: 0 <= k < |s.taken| ==> 0 < |s.taken[k]| <= BLOCK
  {
    hide Sound, Next, Enabled;
    if es == [] {
    } else {
      TakenHoldData(raw, mem, es[..|es| - 1]);
      TakenGrow(Run(Start(raw, mem), es[..|es| - 1]).state, es[|es| - 1]);
    }
  }

  /** What Pin's copy leaves in the shared memory. */
  method Fill(sharedMem: array<Byte>, b: Buffer)
    requires |b| <= sharedMem.Length
    modifies sharedMem
    ensures sharedMem[..|b|] == b
  {
    var k := 0;
    while k < |b|
      invariant 0 <= k <= |b| && sharedMem[..k] == b[..k]
    {
      sharedMem[k] := b[k];
      k := k + 1;
    }
  }

  method TakeBuffer(w: CompressedWriter.Writer, b: Buffer, out: seq<Byte>, early: nat)
    requires w.Valid() && 0 < |b| <= BLOCK && |out| <= ExpansionBound(|b|)
    modifies w, w.outBuffer, w.sharedMem
    ensures w.Valid() && w.inputs == old(w.inputs) + [b] && w.outs == old(w.outs) + [out]
  {
    hide ExpansionBound, EmitAll, Concat, WriteAll;
    Fill(w.sharedMem, b);
    w.ProcessBuffer(|b|, out, early);
  }

  /** The listener's side of a whole compressed trace: the buffers go through the shared memory into
      the writer, one after the other. outs[k] is what the compressor has to emit for buffer k.
      Every buffer reaches the compressor whole, whatever it would take early. */
  method CompressTrace(w: CompressedWriter.Writer, bufs: seq<Buffer>, outs: seq<seq<Byte>>, early: nat -> nat,
                       ending: seq<Byte>)
    returns (complete: bool)
    requires |outs| == |bufs|
    requires forall k :: 0 <= k < |bufs| ==> 0 < |bufs[k]| <= BLOCK && |outs[k]| <= ExpansionBound(|bufs[k]|)
    requires w.Valid() && w.outs == [] && w.inputs == []
    modifies w, w.outBuffer, w.sharedMem
    ensures complete <==> |ending| <= ALLOCATION
    ensures complete ==> w.file.content == FinalFile(w.base, outs, ending) && w.outData == |Stream(outs, ending)|
    ensures complete && bufs != [] ==> w.consumed == Concat(bufs)
  {
    hide ExpansionBound, EmitAll, Concat, FinalFile, Stream, WriteAll;
    var k := 0;
    while k < |bufs|
      invariant 0 <= k <= |bufs| && w.Valid() && w.inputs == bufs[..k] && w.outs == outs[..k]
    {
      TakeBuffer(w, bufs[k], outs[k], early(k));
      k := k + 1;
    }
    assert bufs[..k] == bufs && outs[..k] == outs;
    complete := w.Finish(ending, early(k));
  }

  /** The buffers of a run, in the order the listener took them, are such a trace. If they hold
      records, the file is new and no page is written after the wrap, then a decoder that gives back
      what this writer's compressor consumed turns the file into the records received. */
  method CompressRun(w: CompressedWriter.Writer, bufs: seq<Buffer>, outs: seq<seq<Byte>>, early: nat -> nat,
                     ending: seq<Byte>, ghost mem: seq<Byte>, ghost es: seq<Event>,
                     ghost traces: seq<seq<MemRef>>, ghost decoder: seq<Byte> -> seq<Byte>)
    returns (complete: bool)
    requires |mem| == ALLOCATION && Run(Start(false, mem), es).Reached?
    requires bufs == Run(Start(false, mem), es).state.taken && Carries(Run(Start(false, mem), es).state, traces)
    requires |outs| == |bufs| && forall k :: 0 <= k < |bufs| ==> |outs[k]| <= ExpansionBound(|bufs[k]|)
    requires w.Valid() && w.outs == [] && w.inputs == []
    modifies w, w.outBuffer, w.sharedMem
    ensures complete <==> |ending| <= ALLOCATION
    ensures complete ==> w.file.content == FinalFile(w.base, outs, ending) && w.outData == |Stream(outs, ending)|
    ensures complete && bufs != [] ==> w.consumed == Concat(Run(Start(false, mem), es).state.taken)
    ensures complete && bufs != [] && w.base == File([], 0) && NoWriteAfterWrap(EmitAll(outs).writes) &&
            decoder(Stream(outs, ending)) == w.consumed ==>
              var s := Run(Start(false, mem), es).state;
              var records := Flatten(ReceivedTraces(s, traces));
              && |decoder(w.file.content)| == RECORD * |records|
              && DecodeFirst(decoder(w.file.content), |records|) == records
              && ((s.con.Stopped? || s.con.Gone?) && !s.con.lost && s.repeats == 0 ==> records == Flatten(traces))
  {
    hide Run, Start, ExpansionBound, EmitAll, Concat, FinalFile, Stream, WriteAll, Flatten, DecodeFirst, Sound, Carries,
      ReceivedTraces, NoWriteAfterWrap;
    TakenHoldData(false, mem, es);
    complete := CompressTrace(w, bufs, outs, early, ending);
    ghost var decodable := NoWriteAfterWrap(EmitAll(outs).writes) &&
      decoder(Stream(outs, ending)) == Concat(Run(Start(false, mem), es).state.taken);
    if decodable {
      FinishedFileDecodes(mem, es, traces, outs, ending, decoder);
    }
  }
}
