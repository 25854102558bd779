/** Raw mode of Listen: every buffer is padded to a block of 1 MiB, and the file is a ring of
    65536 blocks. Line numbers are those of src/consumer/consumer.cpp. */
module RawFile {
  import opened Layout
  import opened Handoff
  import opened OutputStream

  ghost predicate Fits(bs: seq<Buffer>) {
    forall i :: 0 <= i < |bs| ==> |bs[i]| <= BLOCK
  }

  ghost function RawAfter(f: File, bs: seq<Buffer>): (g: File)
    requires FileSound(f) && Fits(bs)
    ensures FileSound(g)
  {
    if bs == [] then f else Write(RawAfter(f, bs[..|bs| - 1]), Block(bs[|bs| - 1]))
  }

  /** Number of the last of n buffers that belongs in block j. */
  function Latest(n: nat, j: nat): (i: int)
    requires j < n && j < RING_BLOCKS
  {
    n - 1 - (n - 1 - j) % RING_BLOCKS
  }

  lemma LatestIsLatest(n: nat, j: nat)
    requires j < n && j < RING_BLOCKS
    ensures 0 <= Latest(n, j) < n && Latest(n, j) % 65536 == j
    ensures forall i :: Latest(n, j) < i < n ==> i % 65536 != j
  {}

  ghost predicate HoldsBlock(c: seq<Byte>, j: nat, b: Buffer)
    requires |b| <= BLOCK
  {
    (j + 1) * BLOCK <= |c| && c[j * BLOCK..(j + 1) * BLOCK] == Block(b)
  }

  lemma SliceBefore(o: seq<Byte>, c: seq<Byte>, n: nat, i: nat, j: nat)
    requires i <= j <= n <= |o| && n <= |c| && o[..n] == c[..n]
    ensures o[i..j] == c[i..j]
  {
    forall k | i <= k < j ensures o[k] == c[k] {
      assert o[k] == o[..n][k] == c[..n][k];
    }
  }

  lemma SliceAfter(o: seq<Byte>, c: seq<Byte>, n: nat, i: nat, j: nat)
    requires n <= i <= j <= |o| == |c| && o[n..] == c[n..]
    ensures o[i..j] == c[i..j]
  {
    forall k | i <= k < j ensures o[k] == c[k] {
      assert o[k] == o[n..][k - n] == c[n..][k - n];
    }
  }

  /** Writing block `at` leaves every other block alone. */
  lemma OverwriteBlock(c: seq<Byte>, at: nat, b: Buffer, j: nat, kept: Buffer)
    requires at * BLOCK <= |c| && |b| <= BLOCK && |kept| <= BLOCK
    ensures HoldsBlock(Overwrite(c, at * BLOCK, Block(b)), at, b)
    ensures j != at && HoldsBlock(c, j, kept) ==> HoldsBlock(Overwrite(c, at * BLOCK, Block(b)), j, kept)
  {
    hide Block, Overwrite;
    var start, end, next := at * BLOCK, (at + 1) * BLOCK, (j + 1) * BLOCK;
    var o := Overwrite(c, start, Block(b));
    if j < at && HoldsBlock(c, j, kept) {
      SliceBefore(o, c, start, j * BLOCK, next);
    } else if j > at && HoldsBlock(c, j, kept) {
      SliceAfter(o, c, end, j * BLOCK, next);
    }
  }

  /** The new buffer takes over its block; in every other block the latest stays the latest. */
  lemma LatestStep(n: nat, j: nat)
    requires j < RING_BLOCKS && j < n + 1
    ensures j == n % RING_BLOCKS ==> Latest(n + 1, j) == n
    ensures j != n % RING_BLOCKS ==> j < n && Latest(n + 1, j) == Latest(n, j)
  {}

  lemma OffsetStep(n: nat)
    ensures var next := n % RING_BLOCKS * BLOCK + BLOCK;
            (n + 1) % RING_BLOCKS * BLOCK == if next >= WRAP_LIMIT then 0 else next
  {}

  /** After any number of buffers, whatever the file held before: the position is the number of
      buffers modulo the ring size, in blocks, and block j holds the zero-padded latest buffer
      whose number is j modulo 65536. */
  lemma {:induction false} FileIsRing(f: File, bs: seq<Buffer>)
    requires FileSound(f) && f.offset == 0 && Fits(bs)
    ensures RawAfter(f, bs).offset == |bs| % 65536 * 1048576
    ensures forall j: nat :: j < 65536 && j < |bs| ==>
              0 <= Latest(|bs|, j) < |bs| && HoldsBlock(RawAfter(f, bs).content, j, bs[Latest(|bs|, j)])
  {
    hide HoldsBlock, Overwrite, Block;
    if bs == [] {
    } else {
      var n := |bs| - 1;
      var front := bs[..n];
      FileIsRing(f, front);
      var g := RawAfter(f, front);
      var at := n % RING_BLOCKS;
      forall j: nat | j < RING_BLOCKS && j < |bs|
        ensures 0 <= Latest(|bs|, j) < |bs| && HoldsBlock(RawAfter(f, bs).content, j, bs[Latest(|bs|, j)])
      {
        LatestIsLatest(|bs|, j);
        LatestStep(n, j);
        if j == at {
          OverwriteBlock(g.content, at, bs[n], j, bs[n]);
        } else {
          OverwriteBlock(g.content, at, bs[n], j, front[Latest(n, j)]);
        }
      }
      OffsetStep(n);
    }
  }

  lemma RawOneMore(f: File, bs: seq<Buffer>, b: Buffer)
    requires FileSound(f) && Fits(bs) && |b| <= BLOCK
    ensures Fits(bs + [b]) && RawAfter(f, bs + [b]) == Write(RawAfter(f, bs), Block(b))
    ensures var g := RawAfter(f, bs);
            RawAfter(f, bs + [b]).offset == if g.offset + BLOCK >= WRAP_LIMIT then 0 else g.offset + BLOCK
  {
    assert (bs + [b])[..|bs|] == bs;
  }

  lemma PaddedIsBlock(p: seq<Byte>, b: Buffer)
    requires |p| == BLOCK && |b| <= BLOCK && p[..|b|] == b && forall k :: |b| <= k < BLOCK ==> p[k] == 0
    ensures p == Block(b)
  {
    hide Block;
    var q := Block(b);
    forall k | 0 <= k < BLOCK ensures p[k] == q[k] {
      if k < |b| { assert p[k] == p[..|b|][k] && q[k] == q[..|b|][k]; }
    }
  }

  class Writer {
    const sharedMem: array<Byte>
    var file: File
    var dataWritten: nat
    ghost const base: File
    ghost var buffers: seq<Buffer>

    ghost predicate Valid()
      reads this, sharedMem
    {
      && sharedMem.Length == ALLOCATION && FileSound(base) && base.offset == 0 && Fits(buffers)
      && file == RawAfter(base, buffers) && dataWritten == file.offset
    }

    constructor (sharedMem: array<Byte>, content: seq<Byte>)
      requires sharedMem.Length == ALLOCATION
      ensures Valid() && base == File(content, 0) && buffers == [] && this.sharedMem == sharedMem
    {
      this.sharedMem := sharedMem;
      file, base, dataWritten, buffers := File(content, 0), File(content, 0), 0, [];
    }

    /** memset of the tail of the block. */
    method Clear(start: nat)
      requires start <= BLOCK <= sharedMem.Length
      modifies sharedMem
      ensures sharedMem[..start] == old(sharedMem[..start])
      ensures forall k :: start <= k < BLOCK ==> sharedMem[k] == 0
      ensures sharedMem[BLOCK..] == old(sharedMem[BLOCK..])
    {
      var k := start;
      while k < BLOCK
        invariant start <= k <= BLOCK
        invariant sharedMem[..start] == old(sharedMem[..start])
        invariant forall j :: start <= j < k ==> sharedMem[j] == 0
        invariant sharedMem[BLOCK..] == old(sharedMem[BLOCK..])
      {
        sharedMem[k] := 0;
        k := k + 1;
      }
    }

    /** Lines 554-573 and 708-713 for one buffer. */
    method WriteBuffer(size: nat)
      requires Valid() && 0 < size <= BLOCK
      modifies this`file, this`dataWritten, this`buffers, sharedMem
      ensures Valid()
      ensures buffers == old(buffers) + [old(sharedMem[..size])]
      ensures sharedMem[..size] == old(sharedMem[..size])
    {
      hide RawAfter, Write;
      ghost var b := sharedMem[..size];
      if size < BLOCK {
        Clear(size);
      }
      PaddedIsBlock(sharedMem[..BLOCK], b);
      RawOneMore(base, buffers, b);
      buffers := buffers + [b];
      file := Write(file, sharedMem[..BLOCK]);
      dataWritten := dataWritten + BLOCK;
      if dataWritten >= WRAP_LIMIT {
        dataWritten := 0;
      }
    }
  }
}
