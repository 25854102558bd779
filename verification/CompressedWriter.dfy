/** Compressed mode of Listen: the compressor appends to an output buffer that is written in
    whole pages, and the incomplete page moves to its front. Line numbers are those of
    src/consumer/consumer.cpp. */
module CompressedWriter {
  import opened Layout
  import opened Handoff
  import opened OutputStream

  class Writer {
    const outBuffer: array<Byte>
    const sharedMem: array<Byte>
    var outPos: nat          // z_out.pos
    var inSize: nat          // z_in.size
    var inPos: nat           // z_in.pos
    var file: File
    var outData: nat
    ghost const base: File               // the file as it was opened
    ghost var outs: seq<seq<Byte>>       // the compressor's output, buffer by buffer
    ghost var inputs: seq<seq<Byte>>     // the buffers received
    ghost var consumed: seq<Byte>        // what the compressor has been given

    ghost predicate Valid()
      reads this, outBuffer, sharedMem
    {
      && outBuffer != sharedMem && outBuffer.Length == sharedMem.Length == ALLOCATION
      && FileSound(base) && base.offset == 0 && FileSound(file) && file.offset < WRAP_LIMIT
      && outPos < PAGE && outBuffer[..outPos] == EmitAll(outs).rest
      && file == WriteAll(base, EmitAll(outs).writes)
      && outData == |Concat(EmitAll(outs).writes)|
      && |outs| == |inputs| && consumed == Concat(inputs)
      && (if inputs == [] then inSize == ALLOCATION && inPos == 0 else inPos == inSize <= ALLOCATION)
    }

    /** Lines 430-440. */
    constructor (outBuffer: array<Byte>, sharedMem: array<Byte>, content: seq<Byte>)
      requires outBuffer != sharedMem && outBuffer.Length == sharedMem.Length == ALLOCATION
      ensures Valid() && base == File(content, 0) && outs == [] && inputs == []
      ensures this.outBuffer == outBuffer && this.sharedMem == sharedMem
    {
      this.outBuffer, this.sharedMem := outBuffer, sharedMem;
      outPos, inSize, inPos := 0, ALLOCATION, 0;
      file, base, outData := File(content, 0), File(content, 0), 0;
      outs, inputs, consumed := [], [], [];
    }

    /** ZSTD_compressStream2 with flush or end. For all of the pending input the compressor has
        `whole` to emit. It appends as much of it at outPos as fits, and only if that is not all may
        it leave input behind: then it takes `early` bytes of it. What is left to emit is returned;
        0 means that input and output are complete. */
    method Compress(whole: seq<Byte>, early: nat) returns (remaining: nat)
      requires outPos <= outBuffer.Length && inPos <= inSize <= sharedMem.Length && outBuffer != sharedMem
      modifies this`outPos, this`inPos, this`consumed, outBuffer
      ensures var room := outBuffer.Length - old(outPos);
              remaining == if |whole| <= room then 0 else |whole| - room
      ensures outPos == old(outPos) + |whole| - remaining <= outBuffer.Length
      ensures outBuffer[..outPos] == old(outBuffer[..outPos]) + whole[..|whole| - remaining]
      ensures old(inPos) <= inPos <= inSize && consumed == old(consumed) + sharedMem[old(inPos)..inPos]
      ensures remaining == 0 ==> inPos == inSize
    {
      var room := outBuffer.Length - outPos;
      var n := if |whole| <= room then |whole| else room;
      var k := 0;
      while k < n
        modifies outBuffer
        invariant 0 <= k <= n
        invariant outBuffer[..outPos + k] == old(outBuffer[..outPos]) + whole[..k]
      {
        outBuffer[outPos + k] := whole[k];
        k := k + 1;
      }
      outPos := outPos + n;
      remaining := |whole| - n;
      var end := if remaining == 0 || early > inSize - inPos then inSize else inPos + early;
      consumed := consumed + sharedMem[inPos..end];
      inPos := end;
    }

    /** memcpy within the output buffer; the ranges must not overlap. */
    method Copy(dst: nat, src: nat, n: nat)
      requires dst + n <= src && src + n <= outBuffer.Length
      modifies outBuffer
      ensures outBuffer[dst..dst + n] == old(outBuffer[src..src + n])
      ensures outBuffer[..dst] == old(outBuffer[..dst]) && outBuffer[dst + n..] == old(outBuffer[dst + n..])
    {
      var k := 0;
      while k < n
        invariant 0 <= k <= n
        invariant outBuffer[dst..dst + k] == old(outBuffer[src..src + k])
        invariant outBuffer[..dst] == old(outBuffer[..dst])
        invariant forall j :: dst + k <= j < outBuffer.Length ==> outBuffer[j] == old(outBuffer[j])
      {
        outBuffer[dst + k] := outBuffer[src + k];
        k := k + 1;
      }
    }

    /** Lines 533-551 and 708-713: write the whole pages, keep the rest at the front. */
    method WritePages()
      requires outPos <= outBuffer.Length && FileSound(file) && file.offset < WRAP_LIMIT
      modifies this`outPos, this`file, this`outData, outBuffer
      ensures var z, n := old(outBuffer[..outPos]), RoundDown(old(outPos));
              && file == Write(old(file), z[..n]) && outData == old(outData) + n
              && outPos == |z| - n && outBuffer[..outPos] == z[n..]
    {
      ghost var z := outBuffer[..outPos];
      var newSize := RoundDown(outPos);
      if newSize > 0 {
        assert outBuffer[..newSize] == z[..newSize];
        file := Write(file, outBuffer[..newSize]);
        outData := outData + newSize;
        var rest := outPos - newSize;
        assert outBuffer[newSize..newSize + rest] == z[newSize..];
        Copy(0, newSize, rest);
        outPos := rest;
      } else {
        assert Write(file, z[..0]) == file;
      }
    }

    /** Lines 525-531: the compressor takes the buffer and emits `produced` after the residue. One
        call has room for all of it, so nothing is left behind. */
    method Flush(size: nat, produced: seq<Byte>, early: nat) returns (remaining: nat)
      requires Valid() && 0 < size <= BLOCK && |produced| <= ExpansionBound(size)
      modifies this`outPos, this`inSize, this`inPos, this`inputs, this`consumed, outBuffer
      ensures remaining == 0 && outPos <= ALLOCATION && inPos == inSize == size
      ensures outBuffer[..outPos] == EmitAll(outs).rest + produced
      ensures inputs == old(inputs) + [sharedMem[..size]] && consumed == Concat(inputs)
    {
      RoomSuffices(outPos, size);
      ConcatSnoc(inputs, sharedMem[..size]);
      inputs := inputs + [sharedMem[..size]];
      hide EmitAll, WriteAll, Concat, ExpansionBound;
      inSize, inPos := size, 0;
      remaining := Compress(produced, early);
      assert sharedMem[0..size] == sharedMem[..size] && produced[..|produced|] == produced;
    }

    /** Lines 519-551 and 708-713 for one buffer of `size` bytes. `produced` is what the compressor
        has to emit for it, within its documented bound, and `early` what it would take of the
        buffer if the output filled up. */
    method ProcessBuffer(size: nat, produced: seq<Byte>, early: nat)
      requires Valid() && 0 < size <= BLOCK && |produced| <= ExpansionBound(size)
      modifies this`outPos, this`inSize, this`inPos, this`file, this`outData, this`outs, this`inputs, this`consumed
      modifies outBuffer
      ensures Valid()
      ensures outs == old(outs) + [produced] && inputs == old(inputs) + [sharedMem[..size]]
    {
      hide EmitAll, WriteAll, Write, Concat, RoundDown, ExpansionBound;
      ghost var z := EmitAll(outs).rest + produced;
      var remaining := Flush(size, produced, early);
      assert outBuffer[..outPos] == z && outPos == |z|;
      WritePages();
      EmitOneMore(base, outs, produced);
      outs := outs + [produced];
    }

    /** A write of the output buffer's contents to the file reopened for appending. */
    method Append()
      requires outPos <= outBuffer.Length
      modifies this`file, this`outData
      ensures file.content == old(file.content) + outBuffer[..outPos] && outData == old(outData) + outPos
    {
      file := File(file.content + outBuffer[..outPos], |file.content| + outPos);
      outData := outData + outPos;
    }

    /** Lines 721-745: the residue is appended. */
    method AppendResidue()
      requires Valid()
      modifies this`outPos, this`file, this`outData
      ensures outPos == 0
      ensures file.content == old(file.content + outBuffer[..outPos])
      ensures file.content == WriteAll(base, EmitAll(outs).writes).content + EmitAll(outs).rest
      ensures outData == |Concat(EmitAll(outs).writes)| + |EmitAll(outs).rest|
    {
      hide EmitAll, WriteAll, Concat;
      Append();
      outPos := 0;
    }

    /** What the compressor has not been given yet: nothing, or before the first buffer everything. */
    lemma Pending()
      requires Valid()
      ensures inPos <= inSize <= sharedMem.Length
      ensures sharedMem[inPos..inSize] == if inputs == [] then sharedMem[..] else []
    {
      hide EmitAll, WriteAll, Concat;
    }

    /** Lines 747-754: the compressor ends the frame, and what it emits is appended. */
    method EndFrame(ending: seq<Byte>, early: nat) returns (complete: bool)
      requires outPos == 0 && inPos <= inSize <= sharedMem.Length && outBuffer != sharedMem
      modifies this`outPos, this`inPos, this`file, this`outData, this`consumed, outBuffer
      ensures complete <==> |ending| <= outBuffer.Length
      ensures !complete ==> file == old(file)
      ensures complete ==> file.content == old(file.content) + ending && outData == old(outData) + |ending|
      ensures complete ==> consumed == old(consumed) + sharedMem[old(inPos)..inSize]
    {
      var remaining := Compress(ending, early);
      complete := remaining == 0;
      if complete {
        assert ending[..|ending|] == ending && [] + ending == ending;
        assert outBuffer[..outPos] == ending;
        Append();
      }
    }

    /** Lines 719-756: the residue and the end of the frame are appended. If a buffer has been
        received, the compressor ends up with exactly the received bytes; if none has, it is fed
        the whole shared memory. An end that does not fit the output buffer is given up. */
    method Finish(ending: seq<Byte>, early: nat) returns (complete: bool)
      requires Valid()
      modifies this`outPos, this`inPos, this`file, this`outData, this`consumed, outBuffer
      ensures complete <==> |ending| <= ALLOCATION
      ensures !complete ==> file.content == old(file.content + outBuffer[..outPos])
      ensures complete ==>
                && file.content == FinalFile(base, outs, ending)
                && outData == |Stream(outs, ending)|
                && consumed == Concat(inputs) + (if inputs == [] then sharedMem[..] else [])
    {
      hide EmitAll, WriteAll, Concat, FinalFile, Stream;
      FinalParts(base, outs, ending);
      Pending();
      AppendResidue();
      complete := EndFrame(ending, early);
    }
  }
}
