/** The sequential use of the list manager by one application thread, and the life of the thread's
    buffers from AllocateBuffers to AllBuffersProcessed. */
module ThreadBuffers {
  import opened Options
  import opened BufferList
  import Handoff
  import PinThread
  import TraceRecords

  const APP_BUFFERS: nat := 2

  /** A manager without an exit event, as every application thread owns one. */
  class ListManager {
    var list: seq<Item>
    var bufferSem: bool

    /** The concurrent no-lost-wake-up invariant with no put under way. */
    ghost predicate Valid()
      reads this
    {
      list != [] ==> bufferSem
    }

    constructor ()
      ensures Valid() && list == [] && !bufferSem
    {
      list, bufferSem := [], false;
    }

    method PutBufferOnList(item: Item) returns (accepted: bool)
      requires Valid()
      modifies this
      ensures Valid() && accepted && list == old(list) + [item] && bufferSem
    {
      list := list + [item];
      bufferSem := true;
      accepted := true;
    }

    /** Blocks for ever on an empty list, which is why the caller must know that it is not. The
        semaphore it waits on is set, and stays set exactly while items remain. */
    method GetBufferFromList() returns (item: Item)
      requires Valid() && list != []
      modifies this
      ensures Valid() && item == old(list)[0] && list == old(list)[1..]
      ensures bufferSem == (list != [])
    {
      var exit := false;
      item := list[0];
      while !exit
        invariant !exit ==> list == old(list) && bufferSem
        invariant exit ==> item == old(list)[0] && list == old(list)[1..] && bufferSem == (list != [])
        decreases if exit then 0 else 1
      {
        assert bufferSem;   // the wait returns at once
        if list != [] {
          item := list[0];
          list := list[1..];
          if list == [] {
            bufferSem := false;
          }
          exit := true;
        }
      }
    }
  }

  // ---- The life of a thread's buffers ----

  /** Free buffers in order, the buffer the thread records as current, the buffer Pin was last
      handed and now fills, and all deallocations so far. */
  datatype Pool = Pool(free: seq<nat>, current: nat, handed: nat, released: seq<nat>)

  ghost predicate Distinct(s: seq<nat>) {
    forall i, j :: 0 <= i < j < |s| ==> s[i] != s[j]
  }

  /** No buffer is in two places, and the one recorded as current is the one Pin fills. */
  ghost predicate PoolSound(p: Pool) {
    Distinct(p.free + [p.current]) && p.current == p.handed
  }

  /** AllocateBuffers; Pin's allocator supplies the new buffers. */
  function Allocate(p: Pool, supply: seq<nat>): Pool {
    if p.free != [] then p else p.(free := supply)
  }

  /** EnqueueFullAndGetNextToFill: the full buffer is drained and filled again. */
  function Recycle(p: Pool, full: nat): Pool { p.(current := full, handed := full) }

  /** AllBuffersProcessed. */
  function Reclaim(p: Pool): Pool {
    if p.free == [] then p else p.(free := [], released := p.released + p.free + [p.current])
  }

  lemma CurrentNotFree(p: Pool)
    requires PoolSound(p)
    ensures p.current !in p.free
  {
    var all := p.free + [p.current];
    assert all[|p.free|] == p.current && forall i :: 0 <= i < |p.free| ==> all[i] == p.free[i];
  }

  function Bufs(items: seq<Item>): seq<nat> {
    seq(|items|, i requires 0 <= i < |items| => items[i].buf)
  }

  class AppThread {
    const tid: nat
    const freeList: ListManager
    const pin: PinThread.AppThread
    const hasOutput: bool
    var currentBuf: nat
    var numAllocated: nat
    ghost var handed: nat
    ghost var released: seq<nat>

    ghost function View(): Pool
      reads this, freeList
    {
      Pool(Bufs(freeList.list), currentBuf, handed, released)
    }

    ghost predicate Valid()
      reads this, freeList
    {
      && freeList.Valid() && |freeList.list| == numAllocated
      && currentBuf == handed && (numAllocated != 0 ==> PoolSound(View()))
      && forall i :: 0 <= i < |freeList.list| ==> freeList.list[i].owner == tid && freeList.list[i].field == 0
    }

    /** Pin has handed the thread its first buffer. */
    constructor (tid: nat, current: nat, pin: PinThread.AppThread, hasOutput: bool)
      ensures Valid() && View() == Pool([], current, current, []) && fresh(freeList)
      ensures this.pin == pin && this.hasOutput == hasOutput
    {
      this.tid, this.pin, this.hasOutput := tid, pin, hasOutput;
      currentBuf, handed, numAllocated, released := current, current, 0, [];
      freeList := new ListManager();
    }

    /** Does nothing if buffers are allocated already. */
    method AllocateBuffers(supply: seq<nat>)
      requires Valid() && |supply| == APP_BUFFERS && Distinct(supply + [handed])
      modifies this`numAllocated, freeList
      ensures Valid() && View() == Allocate(old(View()), supply)
      ensures numAllocated == if old(numAllocated) == 0 then 2 else old(numAllocated)
    {
      if numAllocated != 0 { return; }
      var i := 0;
      while i < APP_BUFFERS
        invariant 0 <= i <= APP_BUFFERS == |supply| && numAllocated == i == |freeList.list|
        invariant freeList.Valid() && Bufs(freeList.list) == supply[..i]
        invariant forall k :: 0 <= k < i ==> freeList.list[k].owner == tid && freeList.list[k].field == 0
      {
        var accepted := freeList.PutBufferOnList(Item(supply[i], 0, tid, 0, 0));
        numAllocated := numAllocated + 1;
        i := i + 1;
      }
      assert supply[..i] == supply;
    }

    /** Pin calls back with the buffer it was last handed. Its records go to the consumer, if there
        is one, and then the same buffer is handed back. */
    method EnqueueFullAndGetNextToFill(full: nat, memory: array<Handoff.Byte>, numElements: nat, readFails: bool,
                                       entry: nat, waitStart: nat, waitEnd: nat, copyStart: nat, copyEnd: nat)
      returns (next: nat, message: Option<seq<nat>>)
      requires Valid() && full == handed && pin.Valid() && memory != pin.sharedMem
      requires TraceRecords.RECORD * numElements <= memory.Length
      requires TraceRecords.RECORD * numElements <= pin.sharedMem.Length
      requires pin.bufGenTime <= entry <= waitStart <= waitEnd <= copyStart <= copyEnd
      modifies this`currentBuf, this`handed, pin.sharedMem
      modifies pin`lastExecuted, pin`lastMemExecuted, pin`lastFcalls, pin`bufGenTime
      ensures Valid() && View() == Recycle(old(View()), full) == old(View())
      ensures next == handed && next !in Bufs(freeList.list)
      ensures pin.Valid() && (message.None? <==> readFails || !hasOutput)
      ensures message.None? ==> pin.sharedMem[..] == old(pin.sharedMem[..]) && pin.lastExecuted == old(pin.lastExecuted)
      ensures message.Some? ==>
                var n := TraceRecords.RECORD * numElements;
                && pin.sharedMem[..] == old(memory[..n] + pin.sharedMem[n..])
                && |message.value| == 7 && message.value[0] == n
                && pin.lastExecuted == pin.executed == old(pin.lastExecuted) + message.value[3]
    {
      message := None;
      if hasOutput {
        message := pin.CopyToSharedMemory(memory, TraceRecords.RECORD * numElements, readFails,
                                          entry, waitStart, waitEnd, copyStart, copyEnd);
      }
      currentBuf := full;
      next := full;
      handed := next;
      if numAllocated != 0 { CurrentNotFree(View()); }
    }

    /** Every wait in the reclaim loop finds its semaphore set. */
    method AllBuffersProcessed() returns (ok: bool)
      requires Valid()
      modifies this, freeList
      ensures Valid() && ok && numAllocated == 0 && View() == Reclaim(old(View()))
    {
      if numAllocated == 0 { return true; }
      ghost var free := Bufs(freeList.list);
      while numAllocated > 0
        invariant freeList.Valid() && numAllocated == |freeList.list| <= |free|
        invariant currentBuf == old(currentBuf) && handed == old(handed)
        invariant Bufs(freeList.list) == free[|free| - numAllocated..]
        invariant released == old(released) + free[..|free| - numAllocated]
        invariant forall i :: 0 <= i < |freeList.list| ==> freeList.list[i].owner == tid && freeList.list[i].field == 0
        decreases numAllocated
      {
        var item := freeList.GetBufferFromList();
        assert item.field == 0 && item.owner == tid;
        released := released + [item.buf];
        numAllocated := numAllocated - 1;
      }
      released := released + [currentBuf];
      ok := true;
    }
  }

  /** What can happen to a thread between its start and its end. */
  datatype Op = DoAllocate(supply: seq<nat>) | DoRecycle(full: nat)

  /** Pin's allocator hands out buffers that are not in use, and Pin calls back only with the buffer
      it was last handed: the thread's first one or the one the previous callback returned. */
  ghost predicate Allowed(p: Pool, op: Op) {
    match op
    case DoAllocate(supply) => |supply| == APP_BUFFERS && Distinct(supply + [p.handed])
    case DoRecycle(full) => full == p.handed
  }

  ghost function Apply(p: Pool, op: Op): Pool {
    match op
    case DoAllocate(supply) => Allocate(p, supply)
    case DoRecycle(full) => Recycle(p, full)
  }

  ghost function Life(p: Pool, ops: seq<Op>): Option<Pool> {
    if ops == [] then Some(p)
    else
      var r := Life(p, ops[..|ops| - 1]);
      if r.Some? && Allowed(r.value, ops[|ops| - 1]) then Some(Apply(r.value, ops[|ops| - 1])) else None
  }

  /** The first allocation was supplied with these buffers. */
  ghost predicate FirstSupply(ops: seq<Op>, supply: seq<nat>) {
    exists i :: 0 <= i < |ops| && ops[i] == DoAllocate(supply) && forall k :: 0 <= k < i ==> !ops[k].DoAllocate?
  }

  lemma FirstSupplyStays(ops: seq<Op>, op: Op, supply: seq<nat>)
    requires FirstSupply(ops, supply)
    ensures FirstSupply(ops + [op], supply)
    ensures exists i :: 0 <= i < |ops + [op]| && (ops + [op])[i].DoAllocate?
  {
    var i :| 0 <= i < |ops| && ops[i] == DoAllocate(supply) && forall k :: 0 <= k < i ==> !ops[k].DoAllocate?;
    var all := ops + [op];
    assert all[i] == DoAllocate(supply) && forall k :: 0 <= k < i ==> all[k] == ops[k];
  }

  /** After any number of allocations and full buffers, the current buffer is not on the free list
      and the free list is what the first allocation supplied. */
  lemma {:induction false} LifeSound(current: nat, ops: seq<Op>)
    requires Life(Pool([], current, current, []), ops).Some?
    ensures var p := Life(Pool([], current, current, []), ops).value;
            && PoolSound(p) && p.current !in p.free && p.current == current && p.released == []
            && (p.free == [] <==> forall i :: 0 <= i < |ops| ==> !ops[i].DoAllocate?)
            && (p.free != [] ==> |p.free| == 2 && FirstSupply(ops, p.free))
  {
    if ops == [] {
    } else {
      var n := |ops| - 1;
      LifeSound(current, ops[..n]);
      var p := Life(Pool([], current, current, []), ops[..n]).value;
      CurrentNotFree(Apply(p, ops[n]));
      if p.free != [] {
        FirstSupplyStays(ops[..n], ops[n], p.free);
      } else {
        assert forall k :: 0 <= k < n ==> !ops[..n][k].DoAllocate? && ops[k] == ops[..n][k];
        if ops[n].DoAllocate? { assert FirstSupply(ops, ops[n].supply); }
      }
      assert ops[..n] + [ops[n]] == ops;
    }
  }

  /** Reclaiming after any such life, once or again, releases every allocated buffer and the
      current one exactly once. */
  lemma EachReleasedOnce(current: nat, ops: seq<Op>)
    requires Life(Pool([], current, current, []), ops).Some?
    ensures var p := Life(Pool([], current, current, []), ops).value;
            var q := Reclaim(p);
            && Reclaim(q) == q && Distinct(q.released)
            && (p.free != [] ==> q.free == [] && q.released == p.free + [current])
  {
    LifeSound(current, ops);
    var p := Life(Pool([], current, current, []), ops).value;
    assert [] + p.free + [p.current] == p.free + [p.current];
  }
}
