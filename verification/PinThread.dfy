/** CopyToSharedMemory: the Pin side of one hand-off. */
module PinThread {
  import opened Options
  import opened Handoff

  class AppThread {
    const sharedMem: array<Byte>
    const trackFcalls: bool
    var executed: nat
    var memExecuted: nat
    var fcalls: nat
    var lastExecuted: nat
    var lastMemExecuted: nat
    var lastFcalls: nat
    var bufGenTime: nat

    constructor (sharedMem: array<Byte>, trackFcalls: bool, now: nat)
      ensures this.sharedMem == sharedMem && this.trackFcalls == trackFcalls
      ensures executed == memExecuted == fcalls == lastExecuted == lastMemExecuted == lastFcalls == 0
      ensures bufGenTime == now && Valid()
    {
      this.sharedMem, this.trackFcalls := sharedMem, trackFcalls;
      executed, memExecuted, fcalls := 0, 0, 0;
      lastExecuted, lastMemExecuted, lastFcalls := 0, 0, 0;
      bufGenTime := now;
    }

    /** No more has been handed off than was executed. */
    ghost predicate Valid()
      reads this
    {
      lastExecuted <= executed && lastMemExecuted <= memExecuted && lastFcalls <= fcalls
    }

    /** The analysis callbacks between two hand-offs. */
    method Execute(ins: nat, memIns: nat, calls: nat)
      requires Valid()
      modifies this`executed, this`memExecuted, this`fcalls
      ensures Valid()
      ensures executed == old(executed) + ins && memExecuted == old(memExecuted) + memIns
      ensures fcalls == old(fcalls) + calls
    {
      executed, memExecuted, fcalls := executed + ins, memExecuted + memIns, fcalls + calls;
    }

    /** The clock is read on entry, around the wait for the ready signal and around the copy. A
        failing read drops the buffer; a read that returns 0 goes on like one that got a signal.
        The message carries the size, the generation and copy time, the work, the instructions,
        memory instructions and calls since the last hand-off, and the time spent waiting. */
    method CopyToSharedMemory(buf: array<Byte>, numBytes: nat, readFails: bool,
                              entry: nat, waitStart: nat, waitEnd: nat, copyStart: nat, copyEnd: nat)
      returns (message: Option<seq<nat>>)
      requires Valid() && buf != sharedMem && numBytes <= buf.Length && numBytes <= sharedMem.Length
      requires bufGenTime <= entry <= waitStart <= waitEnd <= copyStart <= copyEnd
      modifies sharedMem, this`lastExecuted, this`lastMemExecuted, this`lastFcalls, this`bufGenTime
      ensures Valid()
      ensures message.None? <==> readFails
      ensures readFails ==>
                sharedMem[..] == old(sharedMem[..]) && lastExecuted == old(lastExecuted) &&
                lastMemExecuted == old(lastMemExecuted) && lastFcalls == old(lastFcalls) &&
                bufGenTime == old(bufGenTime)
      ensures !readFails ==>
                && sharedMem[..] == old(buf[..numBytes] + sharedMem[numBytes..])
                && lastExecuted == executed && lastMemExecuted == memExecuted && lastFcalls == fcalls
                && bufGenTime == copyEnd
      ensures !readFails ==>
                && |message.value| == 7
                && Meta(message.value[0], message.value[3]) == Meta(numBytes, executed - old(lastExecuted))
                && message.value[1] == (entry - old(bufGenTime)) + (copyEnd - copyStart)
                && message.value[2] == message.value[if trackFcalls then 5 else 3]
                && old(lastMemExecuted) + message.value[4] == memExecuted
                && old(lastFcalls) + message.value[5] == fcalls
                && waitStart + message.value[6] == waitEnd
    {
      var genTime: nat := entry - bufGenTime;
      var pinWait: nat := waitEnd - waitStart;
      if readFails {
        return None;
      }
      var k := 0;
      while k < numBytes
        modifies sharedMem
        invariant 0 <= k <= numBytes
        invariant sharedMem[..k] == buf[..k]
        invariant sharedMem[k..] == old(sharedMem[k..])
        invariant buf[..] == old(buf[..])
      {
        sharedMem[k] := buf[k];
        k := k + 1;
      }
      var memIns: nat := memExecuted - lastMemExecuted;
      var ins: nat := executed - lastExecuted;
      var calls: nat := fcalls - lastFcalls;
      lastMemExecuted := lastMemExecuted + memIns;
      lastExecuted := lastExecuted + ins;
      lastFcalls := fcalls;
      var words: seq<nat> := [numBytes, genTime + (copyEnd - copyStart), if trackFcalls then calls else ins,
                              ins, memIns, calls, pinWait];
      message := Some(words);
      bufGenTime := copyEnd;
    }
  }
}
