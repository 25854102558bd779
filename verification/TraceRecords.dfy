/** The 24-byte little-endian trace records and how many of them a buffer holds. */
module TraceRecords {
  import opened Layout
  import opened Handoff
  import opened OutputStream
  import opened RawFile

  const RECORD: nat := 24

  function Pow256(n: nat): (p: nat)
    ensures 0 < p
  {
    if n == 0 then 1 else 256 * Pow256(n - 1)
  }

  /** The n low bytes of v, lowest first. */
  function LittleEndian(v: nat, n: nat): (s: seq<Byte>)
    ensures |s| == n
  {
    if n == 0 then [] else [v % 256] + LittleEndian(v / 256, n - 1)
  }

  function FromLittleEndian(s: seq<Byte>): nat {
    if s == [] then 0 else s[0] + 256 * FromLittleEndian(s[1..])
  }

  /** A number is recovered from its n bytes exactly when it fits them. */
  lemma {:induction false} LittleEndianRoundTrip(v: nat, n: nat)
    ensures FromLittleEndian(LittleEndian(v, n)) == v <==> v < Pow256(n)
    ensures FromLittleEndian(LittleEndian(v, n)) < Pow256(n)
  {
    if n == 0 {
    } else {
      LittleEndianRoundTrip(v / 256, n - 1);
      assert LittleEndian(v, n)[1..] == LittleEndian(v / 256, n - 1);
    }
  }

  /** struct MEMREF. */
  datatype MemRef = MemRef(pc: nat, ea: nat, size: nat, isRead: nat)

  ghost predicate Representable(r: MemRef) {
    r.pc < Pow256(8) && r.ea < Pow256(8) && r.size < Pow256(4) && r.isRead < Pow256(4)
  }

  function Encode(r: MemRef): (s: seq<Byte>)
    ensures |s| == RECORD
  {
    LittleEndian(r.pc, 8) + LittleEndian(r.ea, 8) + LittleEndian(r.size, 4) + LittleEndian(r.isRead, 4)
  }

  function Decode(s: seq<Byte>): MemRef
    requires |s| == RECORD
  {
    MemRef(FromLittleEndian(s[..8]), FromLittleEndian(s[8..16]), FromLittleEndian(s[16..20]), FromLittleEndian(s[20..]))
  }

  /** Digit k of v in base 256. */
  function ByteAt(v: nat, k: nat): nat {
    if k == 0 then v % 256 else ByteAt(v / 256, k - 1)
  }

  lemma {:induction false} ByteOf(v: nat, n: nat, k: nat)
    requires k < n
    ensures LittleEndian(v, n)[k] == ByteAt(v, k)
  {
    if k == 0 {
    } else {
      ByteOf(v / 256, n - 1, k - 1);
    }
  }

  /** The record layout: pc in bytes 0 to 7, ea in 8 to 15, sz in 16 to 19 and is_read in 20 to 23, each
      with its lowest byte first. */
  lemma RecordLayout(r: MemRef, k: nat)
    requires k < 24
    ensures Encode(r)[k] ==
            if k < 8 then ByteAt(r.pc, k)
            else if k < 16 then ByteAt(r.ea, k - 8)
            else if k < 20 then ByteAt(r.size, k - 16)
            else ByteAt(r.isRead, k - 20)
  {
    hide LittleEndian, ByteAt;
    if k < 8 {
      ByteOf(r.pc, 8, k);
    } else if k < 16 {
      ByteOf(r.ea, 8, k - 8);
    } else if k < 20 {
      ByteOf(r.size, 4, k - 16);
    } else {
      ByteOf(r.isRead, 4, k - 20);
    }
  }

  lemma RecordRoundTrip(r: MemRef)
    ensures Decode(Encode(r)) == r <==> Representable(r)
  {
    LittleEndianRoundTrip(r.pc, 8);
    LittleEndianRoundTrip(r.ea, 8);
    LittleEndianRoundTrip(r.size, 4);
    LittleEndianRoundTrip(r.isRead, 4);
    var s := Encode(r);
    assert s[..8] == LittleEndian(r.pc, 8) && s[8..16] == LittleEndian(r.ea, 8);
    assert s[16..20] == LittleEndian(r.size, 4) && s[20..] == LittleEndian(r.isRead, 4);
  }

  /** The bytes of a buffer of records. */
  function EncodeAll(rs: seq<MemRef>): (s: seq<Byte>)
    ensures |s| == RECORD * |rs|
  {
    if rs == [] then [] else EncodeAll(rs[..|rs| - 1]) + Encode(rs[|rs| - 1])
  }

  /** The first `count` records of a block. */
  function DecodeFirst(block: seq<Byte>, count: nat): seq<MemRef>
    requires RECORD * count <= |block|
  {
    if count == 0 then []
    else DecodeFirst(block, count - 1) + [Decode(block[RECORD * (count - 1)..RECORD * count])]
  }

  /** buf_entry_limit for a buffer of the given number of 4 KiB pages. */
  function EntryLimit(pages: nat): (n: nat)
    ensures 24 * n <= 4096 * pages < 24 * (n + 1)
  {
    pages * PAGE / RECORD
  }

  lemma LimitTooLarge(pages: nat)
    requires 256 < pages
    ensures BLOCK < RECORD * EntryLimit(pages)
  {
    assert EntryLimit(257) <= EntryLimit(pages);
  }

  /** A full buffer always fits a block exactly if the tool is run with at most the default number
      of pages, 256. */
  lemma FullBufferFits(pages: nat)
    ensures (forall rs: seq<MemRef> :: |rs| <= EntryLimit(pages) ==> |EncodeAll(rs)| <= BLOCK) <==> pages <= 256
  {
    hide EncodeAll;
    if pages <= 256 {
      forall rs: seq<MemRef> | |rs| <= EntryLimit(pages) ensures |EncodeAll(rs)| <= BLOCK {
        assert |EncodeAll(rs)| == RECORD * |rs|;
      }
    } else {
      LimitTooLarge(pages);
      var rs := seq(EntryLimit(pages), i => MemRef(0, 0, 0, 0));
      assert |EncodeAll(rs)| == RECORD * |rs|;
      assert |rs| <= EntryLimit(pages) && !(|EncodeAll(rs)| <= BLOCK);
    }
  }

  lemma LastRecord(front: seq<Byte>, last: seq<Byte>, tail: seq<Byte>, n: nat)
    requires |front| == RECORD * n && |last| == RECORD
    ensures front + last + tail == front + (last + tail)
    ensures (front + last + tail)[RECORD * n..RECORD * (n + 1)] == last
  {}

  lemma {:induction false} BlockRoundTrip(rs: seq<MemRef>, tail: seq<Byte>)
    requires forall i :: 0 <= i < |rs| ==> Representable(rs[i])
    ensures DecodeFirst(EncodeAll(rs) + tail, |rs|) == rs
  {
    if rs == [] {
    } else {
      hide Encode, Decode, Representable;
      var n := |rs| - 1;
      RecordRoundTrip(rs[n]);
      var last := Encode(rs[n]);
      BlockRoundTrip(rs[..n], last + tail);
      LastRecord(EncodeAll(rs[..n]), last, tail, n);
    }
  }

  /** The records of several buffers, in order. */
  function Flatten(traces: seq<seq<MemRef>>): seq<MemRef> {
    if traces == [] then [] else Flatten(traces[..|traces| - 1]) + traces[|traces| - 1]
  }

  /** The bytes of each buffer. */
  function Encoded(traces: seq<seq<MemRef>>): (bs: seq<Buffer>)
    ensures |bs| == |traces|
  {
    seq(|traces|, i requires 0 <= i < |traces| => EncodeAll(traces[i]))
  }

  lemma {:induction false} EncodeAppends(a: seq<MemRef>, b: seq<MemRef>)
    ensures EncodeAll(a + b) == EncodeAll(a) + EncodeAll(b)
  {
    hide Encode;
    if b == [] {
      assert a + b == a;
    } else {
      var front, last := b[..|b| - 1], b[|b| - 1];
      EncodeAppends(a, front);
      assert (a + b)[..|a + b| - 1] == a + front;
      assert EncodeAll(a) + EncodeAll(front) + Encode(last) == EncodeAll(a) + (EncodeAll(front) + Encode(last));
    }
  }

  /** Buffers one after the other are one buffer of all their records. */
  lemma {:induction false} BuffersConcatenate(traces: seq<seq<MemRef>>)
    ensures Concat(Encoded(traces)) == EncodeAll(Flatten(traces))
  {
    if traces == [] {
    } else {
      var n := |traces| - 1;
      BuffersConcatenate(traces[..n]);
      EncodeAppends(Flatten(traces[..n]), traces[n]);
      assert Encoded(traces) == Encoded(traces[..n]) + [EncodeAll(traces[n])];
      ConcatSnoc(Encoded(traces[..n]), EncodeAll(traces[n]));
    }
  }

  lemma {:induction false} FlattenRepresentable(traces: seq<seq<MemRef>>)
    requires forall i, k :: 0 <= i < |traces| && 0 <= k < |traces[i]| ==> Representable(traces[i][k])
    ensures forall i :: 0 <= i < |Flatten(traces)| ==> Representable(Flatten(traces)[i])
  {
    if traces == [] {
    } else {
      hide Representable;
      FlattenRepresentable(traces[..|traces| - 1]);
    }
  }

  /** The stream of all buffers decodes to all records in order. */
  lemma StreamRoundTrip(traces: seq<seq<MemRef>>)
    requires forall i, k :: 0 <= i < |traces| && 0 <= k < |traces[i]| ==> Representable(traces[i][k])
    ensures |Concat(Encoded(traces))| == RECORD * |Flatten(traces)|
    ensures DecodeFirst(Concat(Encoded(traces)), |Flatten(traces)|) == Flatten(traces)
  {
    BuffersConcatenate(traces);
    FlattenRepresentable(traces);
    BlockRoundTrip(Flatten(traces), []);
    assert EncodeAll(Flatten(traces)) + [] == EncodeAll(Flatten(traces));
  }

  /** From trace to file and back: after any number of full or partial buffers of records, ring
      block j decodes to exactly the records of the latest buffer that belongs there. */
  lemma RecordsRecovered(f: File, traces: seq<seq<MemRef>>, j: nat)
    requires FileSound(f) && f.offset == 0 && j < RING_BLOCKS && j < |traces|
    requires forall i :: 0 <= i < |traces| ==> |traces[i]| <= EntryLimit(256)
    requires forall i, k :: 0 <= i < |traces| && 0 <= k < |traces[i]| ==> Representable(traces[i][k])
    ensures var bs := Encoded(traces);
            && Fits(bs) && 0 <= Latest(|traces|, j) < |traces|
            && var rs := traces[Latest(|traces|, j)];
            && (j + 1) * BLOCK <= |RawAfter(f, bs).content| && RECORD * |rs| <= BLOCK
            && DecodeFirst(RawAfter(f, bs).content[j * BLOCK..(j + 1) * BLOCK], |rs|) == rs
  {
    hide EncodeAll, DecodeFirst, RawAfter, Latest, Representable;
    var bs := Encoded(traces);
    FullBufferFits(256);
    assert Fits(bs);
    FileIsRing(f, bs);
    LatestIsLatest(|traces|, j);
    var rs := traces[Latest(|traces|, j)];
    assert HoldsBlock(RawAfter(f, bs).content, j, EncodeAll(rs));
    BlockRoundTrip(rs, Zeros(BLOCK - |EncodeAll(rs)|));
  }
}
