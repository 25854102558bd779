/** The output file of one listener: what a series of writes leaves in it. The file is opened
    without truncation, and once 2^36 bytes have been written it is opened again, without
    truncation, so that the next write starts over at its beginning. Line numbers are those of
    src/consumer/consumer.cpp. */
module OutputStream {
  import opened Layout
  import opened Handoff

  const WRAP_LIMIT: nat := 0x10_0000_0000

  const RING_BLOCKS: nat := 65536

  /** Contents of the file and position of the next write. */
  datatype File = File(content: seq<Byte>, offset: nat)

  function Overwrite(c: seq<Byte>, at: nat, d: seq<Byte>): (r: seq<Byte>)
    requires at <= |c|
    ensures |r| == if at + |d| <= |c| then |c| else at + |d|
    ensures r[..at] == c[..at] && r[at..at + |d|] == d
    ensures at + |d| <= |c| ==> r[at + |d|..] == c[at + |d|..]
  {
    if at + |d| <= |c| then c[..at] + d + c[at + |d|..] else c[..at] + d
  }

  ghost predicate FileSound(f: File) { f.offset <= |f.content| }

  /** A write followed by the check of lines 708-713. */
  function Write(f: File, d: seq<Byte>): (g: File)
    requires FileSound(f)
    ensures FileSound(g) && g.offset < WRAP_LIMIT
    ensures |g.content| == if f.offset + |d| <= |f.content| then |f.content| else f.offset + |d|
    ensures g.content[f.offset..f.offset + |d|] == d && g.content[..f.offset] == f.content[..f.offset]
    ensures f.offset + |d| <= |f.content| ==> g.content[f.offset + |d|..] == f.content[f.offset + |d|..]
  {
    var content := Overwrite(f.content, f.offset, d);
    File(content, if f.offset + |d| >= WRAP_LIMIT then 0 else f.offset + |d|)
  }

  ghost function WriteAll(f: File, ws: seq<seq<Byte>>): (g: File)
    requires FileSound(f)
    ensures FileSound(g)
  {
    if ws == [] then f else Write(WriteAll(f, ws[..|ws| - 1]), ws[|ws| - 1])
  }

  function Concat(ws: seq<seq<Byte>>): seq<Byte> {
    if ws == [] then [] else Concat(ws[..|ws| - 1]) + ws[|ws| - 1]
  }

  lemma ConcatSnoc(ws: seq<seq<Byte>>, w: seq<Byte>)
    ensures Concat(ws + [w]) == Concat(ws) + w
  {}

  // ---- Compressed mode ----

  /** What compressed mode keeps between two buffers: everything handed to write so far, one
      entry per iteration, and the residue at the start of the output buffer. */
  datatype Residue = Residue(writes: seq<seq<Byte>>, rest: seq<Byte>)

  function RoundDown(n: nat): nat { n / PAGE * PAGE }

  /** One iteration, lines 533-551: `out` is what the compressor emitted for the buffer. */
  function Emit(r: Residue, out: seq<Byte>): Residue {
    var z := r.rest + out;
    var n := RoundDown(|z|);
    Residue(r.writes + [z[..n]], z[n..])
  }

  ghost function EmitAll(outs: seq<seq<Byte>>): Residue {
    if outs == [] then Residue([], []) else Emit(EmitAll(outs[..|outs| - 1]), outs[|outs| - 1])
  }

  /** One more buffer: what is written for it, and what that does to the file. */
  lemma EmitOneMore(f: File, outs: seq<seq<Byte>>, out: seq<Byte>)
    requires FileSound(f)
    ensures var r, s := EmitAll(outs), EmitAll(outs + [out]);
            var z := r.rest + out;
            var n := RoundDown(|z|);
            && s.rest == z[n..] && |s.rest| < PAGE
            && WriteAll(f, s.writes) == Write(WriteAll(f, r.writes), z[..n])
            && Concat(s.writes) == Concat(r.writes) + z[..n]
  {}

  lemma ConcatOf(ws: seq<seq<Byte>>)
    requires ws != []
    ensures Concat(ws) == Concat(ws[..|ws| - 1]) + ws[|ws| - 1]
  {}

  lemma EmitConserves(r: Residue, out: seq<Byte>)
    ensures var q := Emit(r, out);
            && |q.writes| == |r.writes| + 1 && q.writes[..|r.writes|] == r.writes
            && |q.writes[|r.writes|]| % PAGE == 0 && |q.rest| < PAGE
            && Concat(q.writes) + q.rest == Concat(r.writes) + (r.rest + out)
  {
    var z := r.rest + out;
    var n := RoundDown(|z|);
    ConcatSnoc(r.writes, z[..n]);
    assert z[..n] + z[n..] == z;
  }

  /** At every loop head the bytes written followed by the residue are exactly the compressor's
      output so far; every write is a multiple of the page size and the residue is shorter. */
  lemma {:induction false} ResidueConserves(outs: seq<seq<Byte>>)
    ensures var r := EmitAll(outs);
            && Concat(r.writes) + r.rest == Concat(outs)
            && |r.writes| == |outs| && |r.rest| < 4096
            && forall k :: 0 <= k < |r.writes| ==> |r.writes[k]| % 4096 == 0
  {
    if outs == [] {
    } else {
      var front, out := EmitAll(outs[..|outs| - 1]), outs[|outs| - 1];
      ResidueConserves(outs[..|outs| - 1]);
      EmitConserves(front, out);
      hide Emit, Concat;
      assert Concat(front.writes) + (front.rest + out) == Concat(front.writes) + front.rest + out;
      ConcatOf(outs);
    }
  }

  /** zstd's documented bound on the compressed size of n bytes (ZSTD_COMPRESSBOUND). */
  function ExpansionBound(n: nat): nat {
    n + n / 256 + if n < 131072 then (131072 - n) / 2048 else 0
  }

  /** The output buffer always has room for one input buffer's output after a residue. */
  lemma RoomSuffices(rest: nat, size: nat)
    requires rest < PAGE && size <= BLOCK
    ensures size <= ExpansionBound(size) && rest + ExpansionBound(size) < ALLOCATION
    ensures ExpansionBound(1048576) == 1052672 && ExpansionBound(0) == 64
  {}

  /** The file after the loop, lines 722-754: the residue and the end of the frame are appended
      at the end of the file, wherever the last write left the position. */
  ghost function FinalFile(f: File, outs: seq<seq<Byte>>, ending: seq<Byte>): seq<Byte>
    requires FileSound(f)
  {
    var r := EmitAll(outs);
    WriteAll(f, r.writes).content + r.rest + ending
  }

  ghost function Stream(outs: seq<seq<Byte>>, ending: seq<Byte>): seq<Byte> {
    Concat(outs) + ending
  }

  lemma FinalParts(f: File, outs: seq<seq<Byte>>, ending: seq<Byte>)
    requires FileSound(f)
    ensures var r := EmitAll(outs);
            && FinalFile(f, outs, ending) == WriteAll(f, r.writes).content + r.rest + ending
            && |Stream(outs, ending)| == |Concat(r.writes)| + |r.rest| + |ending|
  {
    ResidueConserves(outs);
  }

  /** No non-empty write begins after the position has been reset. */
  ghost predicate NoWriteAfterWrap(ws: seq<seq<Byte>>) {
    forall k :: 0 <= k < |ws| && ws[k] != [] ==> |Concat(ws[..k])| < WRAP_LIMIT
  }

  lemma NoWriteSnoc(front: seq<seq<Byte>>, w: seq<Byte>)
    ensures NoWriteAfterWrap(front + [w]) <==> NoWriteAfterWrap(front) && (w != [] ==> |Concat(front)| < WRAP_LIMIT)
  {
    var ws, n := front + [w], |front|;
    assert forall k :: 0 <= k < n ==> ws[k] == front[k] && ws[..k] == front[..k];
    assert ws[n] == w && ws[..n] == front;
  }

  /** A write at the end of a file, or of nothing. */
  lemma WriteAtEnd(g: File, w: seq<Byte>)
    requires g.offset == (if |g.content| >= WRAP_LIMIT then 0 else |g.content|)
    requires w != [] ==> |g.content| < WRAP_LIMIT
    ensures FileSound(g) && Write(g, w).content == g.content + w
    ensures Write(g, w).offset == if |g.content + w| >= WRAP_LIMIT then 0 else |g.content + w|
  {
    if w == [] { assert Overwrite(g.content, g.offset, []) == g.content == g.content + []; }
  }

  /** Writes that never start after a wrap: the file is the concatenation, and the position is
      at its end or, if the limit was reached, back at the start. */
  lemma {:induction false} FreshFileIntact(ws: seq<seq<Byte>>)
    requires NoWriteAfterWrap(ws)
    ensures var g := WriteAll(File([], 0), ws);
            && g.content == Concat(ws)
            && g.offset == if |Concat(ws)| >= WRAP_LIMIT then 0 else |Concat(ws)|
  {
    if ws == [] {
    } else {
      var n := |ws| - 1;
      var front := ws[..n];
      NoWriteSnoc(front, ws[n]);
      assert front + [ws[n]] == ws;
      FreshFileIntact(front);
      hide NoWriteAfterWrap;
      WriteAtEnd(WriteAll(File([], 0), front), ws[n]);
    }
  }

  /** The file never holds more than was written, and strictly less once a write has begun after
      a wrap, because that write lands on bytes that are already there. */
  lemma {:induction false} WrapLosesBytes(ws: seq<seq<Byte>>)
    ensures |WriteAll(File([], 0), ws).content| <= |Concat(ws)|
    ensures !NoWriteAfterWrap(ws) ==> |WriteAll(File([], 0), ws).content| < |Concat(ws)|
  {
    if ws == [] {
    } else {
      var n := |ws| - 1;
      var front := ws[..n];
      WrapLosesBytes(front);
      NoWriteSnoc(front, ws[n]);
      assert front + [ws[n]] == ws;
      if !NoWriteAfterWrap(ws) && NoWriteAfterWrap(front) {
        FreshFileIntact(front);
      }
    }
  }

  /** A fresh file ends up as the complete compressor stream exactly when no write began after
      the 64 GiB wrap; in particular whenever less than 2^36 bytes were written in the loop. */
  lemma FileCompleteIffNoWrap(outs: seq<seq<Byte>>, ending: seq<Byte>)
    ensures FinalFile(File([], 0), outs, ending) == Stream(outs, ending) <==> NoWriteAfterWrap(EmitAll(outs).writes)
  {
    var r := EmitAll(outs);
    ResidueConserves(outs);
    if NoWriteAfterWrap(r.writes) {
      FreshFileIntact(r.writes);
    } else {
      WrapLosesBytes(r.writes);
    }
  }

  lemma LengthStep(n: nat, m: nat)
    requires 0 < n
    ensures n * m == (n - 1) * m + m
  {}

  lemma EmitWhole(r: Residue, page: seq<Byte>)
    requires r.rest == [] && |page| % PAGE == 0
    ensures Emit(r, page) == Residue(r.writes + [page], [])
  {
    assert [] + page == page;
    assert RoundDown(|page|) == |page|;
    assert page[..|page|] == page;
  }

  /** Outputs of whole pages are written as they come. */
  lemma {:induction false} WholePages(n: nat, page: seq<Byte>)
    requires |page| % PAGE == 0
    ensures EmitAll(Copies(n, page)) == Residue(Copies(n, page), [])
    ensures |Concat(Copies(n, page))| == n * |page|
  {
    if n == 0 {
    } else {
      hide Emit, RoundDown;
      var front := Copies(n - 1, page);
      WholePages(n - 1, page);
      assert Copies(n, page)[..n - 1] == front && front + [page] == Copies(n, page);
      EmitWhole(Residue(front, []), page);
      LengthStep(n, |page|);
    }
  }

  /** A trace that is broken by the wrap: 65537 buffers for each of which the compressor emits 1 MiB,
      which is within its bound. */
  lemma LongTraceIsBroken(output: seq<Byte>, ending: seq<Byte>)
    requires |output| == 1048576
    ensures var outs := Copies(65537, output);
            && (forall k :: 0 <= k < |outs| ==> |outs[k]| <= ExpansionBound(BLOCK))
            && !NoWriteAfterWrap(EmitAll(outs).writes)
            && FinalFile(File([], 0), outs, ending) != Stream(outs, ending)
  {
    hide EmitAll, Concat, WriteAll, FinalFile, Stream;
    var outs := Copies(RING_BLOCKS + 1, output);
    WholePages(RING_BLOCKS + 1, output);
    WholePages(RING_BLOCKS, output);
    assert outs[..RING_BLOCKS] == Copies(RING_BLOCKS, output) && outs[RING_BLOCKS] == output != [];
    assert |Concat(outs[..RING_BLOCKS])| == WRAP_LIMIT;
    FileCompleteIffNoWrap(outs, ending);
  }

  /** What is left of c after its first n bytes. */
  function Rest(c: seq<Byte>, n: nat): seq<Byte> {
    if n <= |c| then c[n..] else []
  }

  lemma RestOfRest(c: seq<Byte>, n: nat, m: nat)
    ensures Rest(Rest(c, n), m) == Rest(c, n + m)
  {}

  lemma OverwriteMiddle(a: seq<Byte>, rest: seq<Byte>, d: seq<Byte>)
    ensures Overwrite(a + rest, |a|, d) == a + d + Rest(rest, |d|)
  {}

  lemma {:induction false} OldFilePrefix(older: seq<Byte>, ws: seq<seq<Byte>>)
    requires |Concat(ws)| < WRAP_LIMIT
    ensures var g := WriteAll(File(older, 0), ws);
            var done := |Concat(ws)|;
            && g.offset == done
            && g.content == Concat(ws) + Rest(older, done)
  {
    if ws == [] {
    } else {
      var n := |ws| - 1;
      OldFilePrefix(older, ws[..n]);
      var done := |Concat(ws[..n])|;
      OverwriteMiddle(Concat(ws[..n]), Rest(older, done), ws[n]);
      RestOfRest(older, done, |ws[n]|);
      hide Rest, Overwrite;
    }
  }

  lemma {:induction false} ConcatPrefix(ws: seq<seq<Byte>>, k: nat)
    requires k <= |ws|
    ensures |Concat(ws[..k])| <= |Concat(ws)|
  {
    if k == |ws| {
      assert ws[..k] == ws;
    } else {
      var front := ws[..|ws| - 1];
      ConcatPrefix(front, k);
      assert front[..k] == ws[..k];
    }
  }

  /** The writes of the loop, put together, are never longer than the stream, so a fresh file is the
      complete stream whenever the stream is below 64 GiB. */
  lemma ShortStreamIsComplete(outs: seq<seq<Byte>>, ending: seq<Byte>)
    requires |Concat(outs)| < 68719476736
    ensures FinalFile(File([], 0), outs, ending) == Stream(outs, ending)
  {
    hide FinalFile, Stream, WriteAll, EmitAll;
    ResidueConserves(outs);
    var ws := EmitAll(outs).writes;
    forall k | 0 <= k < |ws| && ws[k] != [] ensures |Concat(ws[..k])| < WRAP_LIMIT {
      ConcatPrefix(ws, k);
    }
    FileCompleteIffNoWrap(outs, ending);
  }

  /** Over an older file, with fewer than 2^36 bytes written in the loop, the result is the
      complete stream exactly when the loop covered the old contents; otherwise what is left of
      them stays between the loop's writes and the residue. */
  lemma OldFileMustBeCovered(older: seq<Byte>, outs: seq<seq<Byte>>, ending: seq<Byte>)
    requires |Concat(EmitAll(outs).writes)| < WRAP_LIMIT
    ensures FinalFile(File(older, 0), outs, ending) == Stream(outs, ending) <==>
            |older| <= |Concat(EmitAll(outs).writes)|
  {
    hide EmitAll, WriteAll, Concat;
    ResidueConserves(outs);
    OldFilePrefix(older, EmitAll(outs).writes);
  }

  /** A short trace over any older file that is not empty: its first output stays in the residue, so
      the loop writes nothing and the old contents stay in front. */
  lemma ShortTraceOverOldFile(older: seq<Byte>, output: seq<Byte>, ending: seq<Byte>)
    requires older != [] && |output| < PAGE
    ensures FinalFile(File(older, 0), [output], ending) != Stream([output], ending)
  {
    assert EmitAll([output]).writes == [[]] by {
      assert [output][..0] == [];
      assert EmitAll([]) == Residue([], []);
    }
    var none: seq<seq<Byte>> := [[]];
    assert none[..0] == [] && Concat(none) == [];
    OldFileMustBeCovered(older, [output], ending);
  }
}
