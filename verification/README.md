# BulletTime, verified model

BulletTime traces the memory references of every thread of a program with Intel Pin, hands full
buffers to a consumer process that writes them to disk, and slows the faster threads down so that
all of them keep the pace of the one that tracing slows most. A kernel module stretches sleeps by a
factor the consumer publishes. This project models the parts of the system that keep state or do
arithmetic, and proves what they promise.

- **The dilation controller.** `Balancing` is what each lock region of the consumer does to the
  shared vectors; `BalancingRuns` turns the regions into steps of any number of listeners, the main
  thread that adds threads, and the control thread, in every interleaving. On top of it:
  `DelayBounds` and `Fairness` (how much delay is injected), `WindowHistory` and `TotalsHistory` (what
  the decayed counters and the running totals mean), `AtomicMaximum` (the double-checked maximum), `DilationBounds` (the published
  factor). `Consumer` is the same code written with loops and assignments on one object, and
  `Interference` is what other threads can do between its lock regions.
- **The hand-off.** `Handoff` has the Pin thread, its listener, two sockets and the shared memory
  block as one state machine with byte-wise copying, including both ways of closing. `PinThread` is
  the Pin side as code. `CpuMonitor` is the counter reading between two buffers.
- **The output file.** `OutputStream` says what a series of writes leaves in a file that is reused
  after 2^36 bytes. `CompressedWriter` and `RawFile` are the two writing modes as code over arrays.
  `TraceRecords` has the 24-byte records, and `EndToEnd` joins the hand-off, the file and the
  records.
- **Buffers inside Pin.** `BufferList` is the list manager under any number of putters and getters
  and an exit; `ThreadBuffers` is its use by one application thread.
- **Sleeping.** `DummySleep` is the injected delay, `SleepDilation` the kernel module, `ThreadName`
  the name through which the two processes find each other, `Decimal` the number texts both use.
- `Layout` has the sizes that both processes share.

Doubles are reals. A division that would give nan or inf is an explicit value (`Ratios`). Counter
deltas, sizes and instruction counts of a written buffer are taken to be positive, so that its work
is positive.

## What the code does not do

Some things one would expect turn out false. Each has a counterexample and the exact condition, or
the bound that does hold.

- **A larger ratio can be ignored.** A listener that took its snapshot before a tick lowered the
  maximum does not raise it, even if its ratio is larger than the new maximum
  (`AtomicMaximum.StaleSnapshotHidesRatio`, and a run in `AtomicMaximum.RatioHidden`).
- **The last buffer can be lost.** A listener that learns between receiving and writing that the
  thread has ended leaves the loop without the buffer (`Handoff.TerminatedThreadLosesBuffer`, and a
  run in `Handoff.LastBufferLost`). After the loop a buffer is missing exactly if it was left there
  with a new message in hand (`Handoff.Delivery`).
- **After Pin shuts its sockets the last buffer can be written several times**, because a receive
  that returns 0 keeps the previous metadata and the ready socket is closed later than the other is
  shut (`Handoff.Delivery` counts the repeats, `Handoff.LastBufferRepeats` has a run for any number
  of them).
- **A compressed file of more than 64 GiB is broken** as soon as a page is written after the wrap,
  and only then (`OutputStream.FileCompleteIffNoWrap`, and a trace in
  `OutputStream.LongTraceIsBroken`). An older file of the same name breaks it too unless the loop
  writes over all of it, because the file is opened without truncation
  (`OutputStream.OldFileMustBeCovered`, and a trace in `OutputStream.ShortTraceOverOldFile`).
- **With no buffer received, the compressor is fed the whole shared memory block**
  (`CompressedWriter.Writer.Finish`).
- **A put that overlaps `NotifyExit` can leave its buffer behind**, and only such a put can
  (`BufferList.ExitDrainsExactly`, and a run in `BufferList.LatePutRun`).
- **The factor can exceed max(1000, 1000·cost·slowdown)** at a tick before the first account, since
  the cost then counts as 1. Runs that do so exist exactly if the cost bound lies strictly between
  0 and 1 and the rounded slowdown bound alone is beyond the bound (`DilationBounds.RunsKeepExpected`,
  and a run in `DilationBounds.FactorBeforeFirstAccount`); once the last tick has found an account
  none does (`DilationBounds.FactorInRun`).
- **A full buffer need not fit its 1 MiB block** if the tool is given more than 256 pages
  (`TraceRecords.FullBufferFits`).
- **Parsing a thread name throws** if an id exceeds the int range (`ThreadName.NameRoundTrip`).
- **A thread name whose last dash lies behind its last period is not refused**: the length of the first
  number wraps, and it is read from behind the dash to the end (`ThreadName.ParseDashBehind`).

## Model

| member | source | states |
|---|---|---|
| Ratios.Divide | src/consumer/consumer.cpp:277 | The quotient is finite exactly if the divisor is not 0, and then times the divisor gives the dividend back. |
| Balancing.Work | src/consumer/consumer.cpp:593-598 | The work of a buffer with positive counters is positive, whatever is taken off for the tool's own kernel instructions. |
| Balancing.WorkCharges | src/consumer/consumer.cpp:593-598 | The work is the kernel instructions beyond 60000 plus the application instructions, each charged the cycles per instruction of user code over those of the kernel, stated without divisions. |
| Balancing.Slowdown | src/consumer/consumer.cpp:294 | The slowdown times the generation time is generation plus IO time. |
| Balancing.SkipExactly | src/consumer/consumer.cpp:234-242 | A thread is skipped exactly if it has no work in its window or has made no calls yet. |
| Balancing.ExtraBytes | src/consumer/consumer.cpp:669 | The bytes imitated are the injected share of a 1 MiB block, rounded down. |
| Balancing.PeakIsLargest | src/consumer/consumer.cpp:263-283 | The tick's maximum is at least the ratio of every active eligible thread; if positive, its owner attains it and is the first to do so; if no thread is eligible it is 0 and the owner stays. |
| Balancing.SlowdownIsLargest | src/consumer/consumer.cpp:265-296 | The slowdown is at least 1, at least that of every active thread, and is 1 or attained by one of them. |
| Balancing.TickInstallsMaximum | src/consumer/consumer.cpp:262-330 | The tick leaves totals and accounts alone and installs the largest ratio of buffers to work of a thread that had a buffer and calls, with the first thread that attains it, or 0 and the old owner if there is none. |
| Balancing.Factor | src/consumer/consumer.cpp:329-330 | The factor is an unsigned int of at least 1000, whatever the undefined cast yields. |
| BalancingRuns.TickSound | src/consumer/consumer.cpp:262-330 | From a sound state the control tick reads only vectors that exist and leaves a sound state. |
| BalancingRuns.MeasureSound | src/consumer/consumer.cpp:602-615 | Entering a buffer into the window and taking the snapshot keeps the state sound, so the ratio taken is finite and positive. |
| BalancingRuns.RaiseSound | src/consumer/consumer.cpp:643-656 | After the second check the listener carries a maximum at least as large as its own ratio, with an owner that has written bytes. |
| BalancingRuns.StepSound | src/consumer/consumer.cpp:132-705 | Every step of every thread keeps the invariant: lengths of the three vector groups, signs of the windows, backing of the maximum and of every listener's locals. |
| BalancingRuns.OwnerAndIndexSafety | src/consumer/consumer.cpp:266-278 | In every state of every run a positive maximum, and any owner handed to WriteDummy, belongs to a thread with a positive byte count, and total_fcalls is in range for every thread the tick looks at. |
| Interference.StepKeeps | src/consumer/consumer.cpp:576-705 | No step of another thread changes a listener's position, totals or account, or takes its window away. |
| Interference.AfterOthers | src/consumer/consumer.cpp:576-705 | Whatever run the other threads take between two lock regions, the listener's locals are still sound and its vectors in place. |
| Interference.Quietly | src/consumer/consumer.cpp:576-705 | What the loop body allows of other threads includes doing nothing, so it also holds for one running alone. |
| DelayBounds.PeakBounded | src/consumer/consumer.cpp:266-316 | The maximum a tick installs is at most the inverse of the least work per buffer of any thread. |
| DelayBounds.StepBounded | src/consumer/consumer.cpp:602-684 | Every step, stale snapshots included, keeps each window in its thread's band and each carried maximum below the inverse of the least work per buffer. |
| DelayBounds.DelayIsBounded | src/consumer/consumer.cpp:602-666 | In every run n_work lies between lo and hi times n_buffers for each thread, and every injected delay is more than a quarter of a buffer and at most hi/least - 1 buffers. |
| DelayBounds.DelayDecided | src/consumer/consumer.cpp:618-666 | From every sound state, undisturbed, a measured thread is delayed exactly if it has made a call and the peak exceeds 1.25 times its ratio, and then by what brings it up to that peak; the peak is its snapshot or, below its ratio, the larger of ratio and maximum, with the owner found there. |
| WindowHistory.TickMirrors | src/consumer/consumer.cpp:268-312 | A tick multiplies the history's weights by a quarter, or forgets the history if no buffer arrived. |
| WindowHistory.WindowsRefineHistory | src/consumer/consumer.cpp:266-313 | In every run n_buffers, n_work, n_io_time and n_gen_time each equal the sum over the buffers since the thread's last idle period, a quarter per tick since. |
| WindowHistory.IdleTestIsExact | src/consumer/consumer.cpp:268 | Comparing n_work with last_work is true exactly if the thread got no buffer in the period. |
| WindowHistory.WindowIsGeometric | src/consumer/consumer.cpp:298-299 | With at most K buffers per period n_buffers stays below 4K/3. |
| TotalsHistory.TotalsRefineHistory | src/consumer/consumer.cpp:576-705 | In every run the bytes, write time, buffers, calls, application and user instructions kept for a thread are each the sum over the buffers that thread has written, counted or settled. |
| TotalsHistory.CostRefinesHistory | src/consumer/consumer.cpp:319-328 | In every run the instrumentation cost times all application instructions accounted is all user instructions accounted, and it is 1 if there are none. |
| TotalsHistory.AloneIsLeftAlone | src/consumer/consumer.cpp:586 | While there is one thread nothing is measured, offered or injected. |
| AtomicMaximum.StepConsistent | src/consumer/consumer.cpp:612-656 | Every step but a tick keeps: the maximum has only grown to offered ratios, each offer is covered or still waiting for the lock, and the owner is the one whose offer made the maximum. |
| AtomicMaximum.MaximumIsAtomic | src/consumer/consumer.cpp:643-656 | Between two ticks, in any interleaving, the maximum never falls and, once no update is pending, is the larger of its starting value and all ratios offered; its owner is a thread that offered it, or the old one if it did not grow. |
| AtomicMaximum.StaleSnapshotHidesRatio | src/consumer/consumer.cpp:612-643 | A listener that is not skipped and whose ratio is above the maximum comes forward if and only if the ratio exceeds its snapshot; otherwise the maximum stays below its ratio. |
| AtomicMaximum.RatioHidden | src/consumer/consumer.cpp:612-643 | A run from the start after which a listener with ratio 1/2 decides, nothing is pending, and the maximum is 0. |
| Fairness.ComparisonCost | src/consumer/consumer.cpp:661-666 | One buffer plus its delay costs at most maximum times hi and at least four fifths of maximum times lo, whether or not the gap is worth injecting. |
| Fairness.StretchIsFair | src/consumer/consumer.cpp:598-684 | Over any stretch of a run, whatever the other threads and ticks do, real plus dummy buffers per work of a thread lie between m1·lo/(1.25·hi) and m2·hi/lo. |
| Fairness.TwoThreadsStayTogether | src/consumer/consumer.cpp:598-684 | Two threads with constant work per buffer, each over a stretch of its own, have rates in [m1/1.25, m2], so they differ by a factor of at most 1.25·m2/m1. |
| Fairness.RunIsFair | src/consumer/consumer.cpp:598-684 | In every run from the start with work per buffer in [lo, hi] and least for all threads, a balanced thread's real plus dummy buffers per work lie between lo/(1.25·hi²) and hi/(lo·least) between any two of its rests, whatever maxima it meets. |
| DilationBounds.TickFactor | src/consumer/consumer.cpp:319-330 | If every window and account keeps slowdown and cost bounds, the factor is 1000 or at most 1000·cost·slow once an instruction is accounted, and 1000 or at most 1000·slow before. |
| DilationBounds.FactorCoversSlowdown | src/consumer/consumer.cpp:293-330 | Up to rounding the factor covers the cost times the slowdown of every active thread, where the cost is 1 before the first account, and beyond 1000 it is no larger than that of some active thread or of no slowdown. |
| DilationBounds.FactorBeforeFirstAccount | src/consumer/consumer.cpp:328 | A run from the start with buffers within slowdown 2 and cost 1/2, whose tick comes before the first account and publishes 2000 instead of 1000. |
| DilationBounds.FactorInRun | src/consumer/consumer.cpp:262-330 | After any run of paced buffers the published factor is at least 1000 and at most 1000·max(cost,1)·slow; and if the last tick found an instruction accounted, or cost ≥ 1, it is 1000 or at most 1000·cost·slow. |
| DilationBounds.RunsKeepExpected | src/consumer/consumer.cpp:262-330 | For bounds whose ceiling fits an unsigned int, every run of paced buffers keeps the factor within max(1000, 1000·cost·slow) if and only if cost ≥ 1, or cost = 0, where no buffer is paced, or the floor of 1000·slow is within that bound. |
| DilationBounds.SleepScalingEndToEnd | src/kernel_dilation/sleep_dilation.c:79-146 | After any run the factor survives the sysfs text unchanged, and through both handlers, in every process the filter lets through, a sleep t becomes the floor of t·f/1000, not below t and not above t·max(cost,1)·slow, nor above t·cost·slow unless it is t, once accounted. |
| SleepDilation.MultFracExact | src/kernel_dilation/sleep_dilation.c:104 | With 64-bit wrap-around the quotient-remainder form equals the floor of x·n/1000 if and only if that floor fits a long, and then no intermediate product overflows. |
| SleepDilation.SleepsAreScaled | src/kernel_dilation/sleep_dilation.c:79-146 | For every request, factor and process: a dilated sleep is exact if and only if its scaling fits a long, is not shortened by a factor of at least 1000, and is monotone in the request while that fits; the unlimited timeout stays, no other ends above it, and filtered processes are left alone. |
| SleepDilation.LeftAlone | src/kernel_dilation/sleep_dilation.c:79-146 | A request that is not positive and a factor of 1000 leave both kinds of sleep as they are. |
| SleepDilation.StoredAsPublished | src/kernel_dilation/sleep_dilation.c:34-44 | The line the control thread prints for any unsigned factor is read back as that factor. |
| SleepDilation.ParsedExactly | src/kernel_dilation/sleep_dilation.c:34-44 | A line is read as v exactly if it is an optional plus and at least one digit of value v, perhaps with one newline behind, and v fits 32 bits. |
| SleepDilation.Module.constructor | src/kernel_dilation/sleep_dilation.c:19-22 | The module starts with factor 1000 and no target process. |
| SleepDilation.Module.StoreFactor | src/kernel_dilation/sleep_dilation.c:34-44 | The factor changes to the parsed number exactly if the line parses. |
| SleepDilation.Module.ProbeScheduleTimeout | src/kernel_dilation/sleep_dilation.c:79-110 | The argument register holds the dilated timeout, untouched in the four exempted cases. |
| SleepDilation.Module.ProbeNanosleep | src/kernel_dilation/sleep_dilation.c:119-146 | The argument register holds the dilated request, untouched in the three exempted cases. |
| ThreadName.FindLast | src/consumer/consumer.cpp:777-778 | The position found holds the character and none after it does; nothing is found exactly if the character does not occur. |
| ThreadName.StoiOfPrint | src/consumer/consumer.cpp:783-784 | The printed text of a number reads back as the number, or is out of range if it exceeds 2147483647. |
| ThreadName.StoiReads | src/consumer/consumer.cpp:783-784 | Behind any white space and one optional sign the leading digits are the number, whatever follows them. |
| ThreadName.StoiFindsNothing | src/consumer/consumer.cpp:783-784 | Without a digit there, no number is found. |
| ThreadName.NameRoundTrip | src/consumer/consumer.cpp:775-784 | For every prefix the name ThreadStart builds parses to the same two ids if and only if both fit an int; otherwise parsing throws. |
| ThreadName.ParseMalformed | src/consumer/consumer.cpp:777-781 | A name is refused exactly if it has no dash or no period. |
| ThreadName.ParseAssembled | src/consumer/consumer.cpp:777-784 | Of any prefix, dash, text, period and text the two texts are the ones read as numbers, in that order. |
| ThreadName.ParseDashBehind | src/consumer/consumer.cpp:783-784 | If the last dash lies behind the last period the length of the first number wraps, so it is read from behind the dash to the end; the second is still read from behind the period. |
| DummySleep.SleepRequest | src/consumer/consumer.cpp:385-393 | With positive byte counts the request is defined and not negative, and 0 for a latency of 0. |
| DummySleep.RequestBetweenBandwidths | src/consumer/consumer.cpp:385-393 | The request times the sum of both bandwidths is twice the bytes, so whichever bandwidth is larger, it lies between the times at either of them. |
| DummySleep.InjectSleep | src/consumer/consumer.cpp:396-416 | The sleep goes in slices of 10 ms until the stop flag is seen before one; without a stop it is less than 1 us short of the request, and it never exceeds it by more than the last call's oversleep. |
| CpuMonitor.Monitor.constructor | src/consumer/cpu_monitor.h:82-85 | The first call reports differences from zero. |
| CpuMonitor.Monitor.Scale | src/consumer/cpu_monitor.cpp:104-122 | The difference of one counter is scaled exactly if it was multiplexed while running, and the shared flag is only ever set. |
| CpuMonitor.Monitor.GetDeltas | src/consumer/cpu_monitor.cpp:91-132 | Nothing is reported and no counter advances exactly if one of the reads found the thread ended; otherwise each of the four fields is the advance of its own counter, scaled up by the time it was not counting and rounded down if it was multiplexed, and the flag says whether any was. |
| CpuMonitor.ScalingOnlyAdds | src/consumer/cpu_monitor.cpp:107-121 | A scaled difference is never less than the raw one, truncation included. |
| CpuMonitor.ScaledMeasures | src/consumer/cpu_monitor.cpp:104-122 | A difference times the running time is the raw one times the enabled time up to rounding toward zero if the counter was multiplexed while running, and is the raw one otherwise. |
| CpuMonitor.DeltasConserve | src/consumer/cpu_monitor.cpp:104-128 | Over any series of calls the reported differences add up to at least last minus first, and to exactly that without multiplexing. |
| Handoff.StepSound | src/consumer/consumer.cpp:457-714 | Every step of either side, closing included, keeps the hand-off invariant on turns, memory, metadata, history and counts. |
| Handoff.Exclusion | src/consumer/consumer.cpp:445-450 | In every run the two sides never use the memory at once, and while both are at work exactly one of ready signal, copying Pin, queued message and busy consumer exists. |
| Handoff.NeverBothBlocked | src/consumer/consumer.cpp:445-450 | In every run, closing included, a Pin thread in read finds its read ready or the listener with a step to take, and a listener in recv finds its recv ready or Pin with one; never are both blocked. |
| Handoff.BufferIsSent | src/pintool/bullettime.cpp:126-175 | From every state with Pin filling and the listener at its loop head, ready signal, copying and message lead to a listener that has received the buffer's size and instructions. |
| Handoff.BufferIsTaken | src/consumer/consumer.cpp:503-573 | From every reachable state in which a non-empty message has been received, the listener's own steps write what Pin copied, padded to 1 MiB in raw mode, and account its instructions once. |
| Handoff.ExchangeCompletes | src/consumer/consumer.cpp:457-573 | From every such state the two sides alone complete the exchange of any non-empty buffer and stand where they started, with this buffer written and its instructions accounted. |
| Handoff.ListenerStays | src/consumer/consumer.cpp:457-506 | Without a stop, a failing write, the end of the thread or Pin closing, and with data in every buffer, no run makes the listener leave its loop. |
| Handoff.Delivery | src/pintool/bullettime.cpp:126-175 | In every run the buffers taken are, byte for byte, those sent but at most the last; repeats of the last follow only once Pin has shut the size socket; after the loop one is missing exactly if it was lost. |
| Handoff.CountsConserved | src/pintool/bullettime.cpp:152-173 | The consumer's instruction account plus messages not yet accounted equals Pin's count at its last hand-off, plus the last buffer's for each repeat. |
| Handoff.StoppedIsFinal | src/consumer/consumer.cpp:497-506 | Once the listener has left its loop nothing more is taken or counted as sent. |
| Handoff.AtMostOneMore | src/consumer/consumer.cpp:457-464 | Once Pin has closed the ready socket the listener finishes the buffer it is at, if any, and takes no other in any run. |
| Handoff.ListenerLeaves | src/consumer/consumer.cpp:457-506 | At the loop head a stop or a closed ready socket, after a message the end of the thread or an empty buffer, and a failed write lead out of the loop and to closed sockets, with a new message counted as lost. |
| Handoff.TerminatedThreadLosesBuffer | src/consumer/consumer.cpp:495-500 | If the counters report the end of the thread after a message was received, that buffer is missing in every run that goes on from there. |
| Handoff.LastBufferLost | src/consumer/consumer.cpp:495-500 | A run from the start in which Pin sends one buffer, both sides close, and none was taken. |
| Handoff.LastBufferRepeats | src/pintool/bullettime.cpp:459-463 | For any n, a run from the start in which Pin sends one buffer and shuts both sockets, and the listener takes that buffer n more times. |
| PinThread.AppThread.constructor | src/pintool/bullettime.cpp:358-363 | A new thread has executed and handed off nothing, and its generation timer starts now. |
| PinThread.AppThread.Execute | src/pintool/bullettime.h:100-140 | Execution only adds to the three counters. |
| PinThread.AppThread.CopyToSharedMemory | src/pintool/bullettime.cpp:121-182 | A failed read changes nothing; otherwise memory begins with the buffer and is unchanged behind it, the message's counts are what was executed since the last hand-off, and nothing remains to be handed off. |
| OutputStream.Write | src/consumer/consumer.cpp:562-572 | A write replaces exactly its bytes from the position on, extends the file only past its end, and leaves the position below 2^36 and inside the file. |
| OutputStream.ResidueConserves | src/consumer/consumer.cpp:533-551 | After any number of buffers bytes written followed by the residue are exactly the compressor's output, every write is a multiple of 4096 bytes and the residue is shorter. |
| OutputStream.RoomSuffices | src/include/consumer.h:6-14 | A residue and the largest possible output for a 1 MiB buffer fit the output buffer; that output is at most 1052672 bytes. |
| OutputStream.WrapLosesBytes | src/consumer/consumer.cpp:708-713 | A file into which something was written after the wrap is strictly shorter than what was written. |
| OutputStream.FileCompleteIffNoWrap | src/consumer/consumer.cpp:708-754 | A fresh file ends as the complete compressor stream if and only if no write began after the 64 GiB wrap. |
| OutputStream.ShortStreamIsComplete | src/consumer/consumer.cpp:708-754 | A fresh file whose compressor output before the end of the frame is below 64 GiB ends as the whole stream. |
| OutputStream.LongTraceIsBroken | src/consumer/consumer.cpp:708-754 | 65537 buffers for which the compressor emits 1 MiB each, within its bound, leave a file that is not the stream. |
| OutputStream.FinalParts | src/consumer/consumer.cpp:721-754 | The finished file is what the loop wrote, then the residue, then the frame end, and the stream is as long as those writes, residue and end together. |
| OutputStream.OldFileMustBeCovered | src/consumer/consumer.cpp:789-791 | Below 2^36 bytes, a file that existed before ends as the stream if and only if the loop wrote at least its old length. |
| OutputStream.ShortTraceOverOldFile | src/consumer/consumer.cpp:789-791 | A trace whose output stays below one page leaves any non-empty older file in front, so the result is not the stream. |
| CompressedWriter.Writer.constructor | src/consumer/consumer.cpp:430-440 | The writer starts at the beginning of a file that may hold old contents, with the input set to the whole allocation. |
| CompressedWriter.Writer.Compress | src/consumer/consumer.cpp:525-527 | As much of the output as fits is appended behind the residue; only if that is not all may input be left behind, and the return value says how much output is missing. |
| CompressedWriter.Writer.Copy | src/consumer/consumer.cpp:549 | The bytes move to the front and nothing else changes; source and destination must not overlap. |
| CompressedWriter.Writer.WritePages | src/consumer/consumer.cpp:533-551 | Whole pages go to the file, the incomplete page is left at the front of the buffer. |
| CompressedWriter.Writer.Flush | src/consumer/consumer.cpp:524-531 | One flush leaves nothing behind, whatever the compressor would take early: the output fits behind the residue and the whole buffer is consumed. |
| CompressedWriter.Writer.ProcessBuffer | src/consumer/consumer.cpp:519-552 | File, residue and out_data stay those of the compressor's output so far, with one more buffer received and consumed. |
| CompressedWriter.Writer.Append | src/consumer/consumer.cpp:736-745 | The whole output buffer is appended to the file and counted. |
| CompressedWriter.Writer.AppendResidue | src/consumer/consumer.cpp:721-745 | The residue follows what the loop wrote, and out_data counts both. |
| CompressedWriter.Writer.EndFrame | src/consumer/consumer.cpp:747-754 | The frame end is appended and all pending input consumed exactly if the end fits the output buffer; otherwise the file is left as it is. |
| CompressedWriter.Writer.Finish | src/consumer/consumer.cpp:719-757 | It completes exactly if the frame end fits; then the file ends with residue and frame end, out_data is the stream's length, and the compressor has been given exactly the received bytes, or the whole block if there were none. Otherwise only the residue is added. |
| Handoff.Block | src/consumer/consumer.cpp:556-560 | A block is 1 MiB: the buffer, then zeros. |
| RawFile.LatestIsLatest | src/consumer/consumer.cpp:707-713 | The number computed for a ring block is the last buffer congruent to it. |
| RawFile.FileIsRing | src/consumer/consumer.cpp:554-573 | After any number of buffers, over any old file, block j of 65536 holds the padded latest buffer with number j modulo 65536, and the position is the buffer count modulo the ring. |
| RawFile.Writer.constructor | src/consumer/consumer.cpp:451 | The writer starts at position 0 of a file with any contents. |
| RawFile.Writer.Clear | src/consumer/consumer.cpp:557-559 | Exactly the rest of the block becomes zero. |
| RawFile.Writer.WriteBuffer | src/consumer/consumer.cpp:554-573 | The file is the ring with one more buffer, and data_written is the file position, also at the wrap. |
| TraceRecords.LittleEndianRoundTrip | src/pintool/common.h:7-13 | A number is recovered from its n low bytes if and only if it is below 256^n. |
| TraceRecords.RecordRoundTrip | src/pintool/common.h:7-13 | A record is recovered from its 24 bytes if and only if its fields fit their widths. |
| TraceRecords.RecordLayout | README.md:69-80 | The 24 bytes of a record are, each least byte first, the program counter in 8, the address in 8, the size in 4 and the read flag in 4. |
| TraceRecords.EntryLimit | src/pintool/bullettime.cpp:605 | The limit is the largest number of records that fit the pages. |
| TraceRecords.FullBufferFits | src/pintool/bullettime.cpp:603-605 | Every buffer within the entry limit fits 1 MiB if and only if the tool has at most 256 pages per buffer. |
| TraceRecords.BlockRoundTrip | src/pintool/bullettime.cpp:189 | The records of a buffer are recovered from its block given their number, whatever follows. |
| TraceRecords.StreamRoundTrip | README.md:69 | The bytes of all buffers, concatenated, decode to all records in order. |
| TraceRecords.RecordsRecovered | src/consumer/consumer.cpp:554-573 | After any number of buffers each ring block decodes to the records of the latest buffer that belongs there. |
| EndToEnd.TraceReachesDisk | src/consumer/consumer.cpp:457-573 | In every raw run each ring block holds the latest received buffer that belongs there, and before Pin closes those received are the ones sent but at most the last. |
| EndToEnd.TraceDecodesFromDisk | src/consumer/consumer.cpp:457-573 | In every raw run, also after both sides have closed, each ring block decodes to the records of the latest received buffer that belongs there. |
| EndToEnd.ReceivedTracesComplete | src/consumer/consumer.cpp:457-573 | The records received are all records of all buffers sent once the listener has left its loop without losing or repeating a buffer, and before Pin closes all but at most the last buffer's. |
| EndToEnd.TakenHoldData | src/consumer/consumer.cpp:503-506 | In every run, compressed or raw, each buffer taken holds at least one byte and at most 1 MiB. |
| EndToEnd.TraceReachesCompressor | src/consumer/consumer.cpp:524-527 | In every compressed run, also after both sides have closed, the bytes handed to the compressor decode to the records of the buffers sent, less an outstanding or lost last one, plus one copy of the last for every repeat, in order. |
| EndToEnd.CompressTrace | src/consumer/consumer.cpp:457-757 | Any list of buffers passed through the shared memory one by one reaches the compressor whole and in order, and the file is the loop's writes, residue and frame end. |
| EndToEnd.CompressRun | src/consumer/consumer.cpp:457-757 | For the buffers taken in any run of the hand-off, the compressor consumes exactly their concatenation; and a decoder that gives back what it consumed turns this writer's file, if new and not written to after the wrap, into the records received. |
| EndToEnd.FinishedFileDecodes | README.md:69 | For any decoder that inverts the compressor, a new finished file not written to after the wrap decodes to the records received, in any state including after the close; if the listener left its loop without losing or repeating a buffer, to all records of all buffers sent. |
| BufferList.StepSound | src/pintool/buffer_manager.cpp:36-157 | Every step of any putter, getter or NotifyExit keeps the lock, wake-up, order and ownership invariant. |
| BufferList.WakeupsAndOrder | src/pintool/buffer_manager.cpp:57-138 | In every run a non-empty list has its semaphore set or a putter about to set it, taken followed by listed items are the pushes in order, each is held by one getter, and a getter returns nothing only after the exit event. |
| BufferList.PutsAreKept | src/pintool/buffer_manager.cpp:44-68 | In every run the puts accepted are as many as the buffers pushed, and a put is refused only after the exit event of a list that has one. |
| BufferList.PutCompletes | src/pintool/buffer_manager.cpp:44-68 | From every reachable state with the lock free and no exit, a put runs through: it is accepted, the buffer is last on the list and the semaphore is set. |
| BufferList.PutRefused | src/pintool/buffer_manager.cpp:45-49 | After the exit event a put is refused and changes nothing else. |
| BufferList.GetCompletes | src/pintool/buffer_manager.cpp:83-140 | From every reachable state with the lock free and the semaphore set for a non-empty list, a get runs through with the first buffer, and the semaphore stays set exactly if more remain. |
| BufferList.GetFindsNothing | src/pintool/buffer_manager.cpp:83-140 | On an empty list a get waits, and returns nothing exactly after the exit event; one woken in vain goes back to wait. |
| BufferList.SignalWakes | src/pintool/buffer_manager.cpp:57-97 | A putter's signal wakes a waiting getter even if the list has been emptied before it. |
| BufferList.NotifyCompletes | src/pintool/buffer_manager.cpp:143-157 | With an empty list NotifyExit sets the event and the semaphore and returns. |
| BufferList.NotifyNudges | src/pintool/buffer_manager.cpp:151-155 | With buffers on the list each round of NotifyExit sets the semaphore. |
| BufferList.NotifyDoesNothing | src/pintool/buffer_manager.cpp:143-157 | Without an exit event it returns and changes nothing. |
| BufferList.ExitDrains | src/pintool/buffer_manager.cpp:143-156 | If every put past its exit check has pushed before the exit event, then after NotifyExit every buffer has been removed by exactly one getter, in order. |
| BufferList.ExitDrainsExactly | src/pintool/buffer_manager.cpp:143-156 | NotifyExit leaves the list empty in every run if and only if no put is past its exit check when it starts. |
| BufferList.LatePutEscapes | src/pintool/buffer_manager.cpp:44-68 | From any state in which a put is past its exit check as NotifyExit starts, whatever is on the list, a run exists in which NotifyExit has returned and the put is accepted with its buffer on the list. |
| BufferList.LatePutRun | src/pintool/buffer_manager.cpp:143-156 | A run from the start in which NotifyExit has returned and an accepted buffer is on the list. |
| ThreadBuffers.ListManager.constructor | src/pintool/buffer_manager.cpp:5-23 | The list starts empty with its semaphore clear. |
| ThreadBuffers.ListManager.PutBufferOnList | src/pintool/buffer_manager.cpp:44-68 | Without an exit event every item is accepted at the end and the semaphore is set. |
| ThreadBuffers.ListManager.GetBufferFromList | src/pintool/buffer_manager.cpp:83-140 | On a non-empty list the wait does not block, the first item is removed, and the semaphore stays set exactly while items remain. |
| ThreadBuffers.AppThread.constructor | src/pintool/app_representative.cpp:9-22 | A new thread has no allocated buffers, and its current buffer is the one Pin fills. |
| ThreadBuffers.AppThread.AllocateBuffers | src/pintool/app_representative.cpp:44-57 | Two buffers are listed in order unless buffers are allocated already, and then nothing changes. |
| ThreadBuffers.AppThread.EnqueueFullAndGetNextToFill | src/pintool/app_representative.cpp:30-42 | Called with the buffer Pin was last handed, it hands back a buffer that is not free and that the thread records as current; with an output the records are copied to shared memory and their size and instructions sent, otherwise nothing is. |
| ThreadBuffers.AppThread.AllBuffersProcessed | src/pintool/app_representative.cpp:59-92 | The reclaim loop never waits on a clear semaphore, ends, and releases the free buffers in order and then the current one; without allocated buffers it does nothing. |
| ThreadBuffers.LifeSound | src/pintool/app_representative.cpp:30-57 | If Pin calls back only with the buffer it was last handed, the current buffer is never on the free list, and the list is what the first allocation supplied. |
| ThreadBuffers.EachReleasedOnce | src/pintool/app_representative.cpp:59-92 | Reclaiming after any such life releases every allocated buffer and the thread's own exactly once, and reclaiming again releases nothing. |
| Consumer.Balancer.constructor | src/consumer/consumer.cpp:87-128 | The vectors start empty, the maximum at 0 without an owner, the factor at 1000. |
| Consumer.Balancer.InitThreadData | src/consumer/consumer.cpp:132-175 | Each of the three vector groups grows by one fresh entry. |
| Consumer.Balancer.AddRealWrite | src/consumer/consumer.cpp:576-581 | The lock region does the state machine's write step. |
| Consumer.Balancer.AddWork | src/consumer/consumer.cpp:593-615 | The lock region does the measuring step, the window's work grows by the work of this buffer, stated by its counters, and the snapshot is the maximum and owner of that moment. |
| Consumer.Balancer.AddCalls | src/consumer/consumer.cpp:618-630 | The lock region adds the calls and returns their new total. |
| Consumer.Balancer.RaiseMaximum | src/consumer/consumer.cpp:644-656 | Whatever the snapshot was, the maximum becomes the larger of itself and the offer, the owner this thread exactly if it grew, and the listener goes on with both. |
| Consumer.Balancer.DelayFor | src/consumer/consumer.cpp:661-669 | The delay is given exactly if the maximum exceeds 1.25 times the ratio, and then brings the ratio exactly up to the maximum. |
| Consumer.Balancer.WriteDummy | src/consumer/consumer.cpp:379-417 | For an owner and a thread with positive byte counts the request times the sum of both bandwidths is twice the bytes, and the sleep keeps within 1 us below and one oversleep above it. |
| Consumer.Balancer.AddDummy | src/consumer/consumer.cpp:680-683 | The injected buffers are added to this thread's total and to no other. |
| Consumer.Balancer.Yield | src/consumer/consumer.cpp:576-705 | Between two lock regions the shared state may become that of any run of the other threads; the listener stands where it stood and its recorded delay is unchanged. |
| Consumer.Balancer.InjectDelay | src/consumer/consumer.cpp:661-685 | The delay really slept: none unless the maximum exceeds 1.25 times the ratio, and then, unless stopped, the time the bytes take at the mean of both bandwidths, for the totals at the call and the owner found with the maximum. The steps are the state machine's, whatever other threads do between the lock regions. |
| Consumer.Balancer.OfferRatio | src/consumer/consumer.cpp:644-656 | However stale the snapshot, the listener leaves the lock with the maximum found there, at least its own ratio. |
| Consumer.Balancer.Balance | src/consumer/consumer.cpp:636-686 | Skipping, offering and comparing are the state machine's steps in this order, with any steps of other threads in between, and the delay compared for is the one slept. |
| Consumer.Balancer.ProfileAndBalance | src/consumer/consumer.cpp:593-687 | Profiling and balancing lead the listener from written to settling by steps of the state machine, with any steps of other threads in between, and the delay recorded is the one slept. |
| Consumer.Balancer.BalanceBuffer | src/consumer/consumer.cpp:576-705 | In every interleaving with other threads the loop body for one buffer is exactly one cycle of the listener in a run of the state machine, the delay recorded in that run is the one slept, and the next ready signal carries its bytes. |
| Consumer.Balancer.SettleAccount | src/consumer/consumer.cpp:696-705 | Application and user instructions are added to this thread's account only. |
| Consumer.Balancer.SumAccounts | src/consumer/consumer.cpp:319-327 | The loop's two sums run over every thread's account. |
| Consumer.Balancer.VisitThread | src/consumer/consumer.cpp:268-313 | One iteration resets or decays exactly this thread's window and updates maximum, owner and slowdown from its values before the decay. |
| Consumer.Balancer.PublishFactor | src/consumer/consumer.cpp:328-330 | The factor follows from all accounts and the largest slowdown. |
| Consumer.Balancer.ControlTick | src/consumer/consumer.cpp:262-330 | The loop over all threads does to the shared state exactly the tick of the state machine, with every index in range. |

## Left out

- Overhead balancing switched off (lines 260 and 586 of consumer.cpp) and the app_dilation switch of WriteDummy: then nothing is balanced or injected.
- Interleaving inside the other classes: their methods run alone; `Consumer.Balancer.BalanceBuffer` and the methods it is made of allow any steps of other threads between their lock regions.
- Weak memory: each lock region, fence and socket call is one atomic step.
- Rounding of doubles and the spread of nan or inf into the counters when a performance counter does not move.
- 64-bit wrap-around of accumulated totals and times; the kernel's 64-bit and 32-bit arithmetic is modelled.
- The shadow time ratios, n_injected_time, total_io_time, last_buffers, in_data, the dummy write totals and the other statistics: they are only reported.
- Logging, LogThreadStats, statistics.cpp and pretty_table.h: reporting.
- kernel_monitor.cpp: the consumer does not call it.
- The zstd format: the compressor is the bytes it emits for each buffer, within the documented expansion bound.
- Short or failing writes other than leaving the loop, failing recv on the consumer side, and messages that arrive in pieces.
- Setup and teardown of sockets, shared memory, huge pages, performance counters and inotify, argument parsing and the directory scan.
- Pin's instrumentation, its callbacks and its buffer allocator: buffers, counts and times are parameters.
- Errors of the performance counter reads other than the end of the thread.
- The text a reader of dilation_factor gets, and target_pid_store: formatting and a plain assignment.
- The list manager's exit event in `ThreadBuffers.ListManager`: an application thread's manager has none; `BufferList` has it.
- Whether getters that still wait at exit return: a clear under way can undo the last set of NotifyExit, so they need not.
- linux/math.h and kstrtouint are not part of this model's sources; mult_frac and the number syntax are modelled as documented.
- ThreadBuffers.AppThread.EnqueueFullAndGetNextToFill: does not model the filled and processed counters, because they are statistics.
