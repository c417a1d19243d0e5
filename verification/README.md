# libevent, modelled in Dafny

A model of the core of libevent's vendored copy under `deps/libevent`, with proofs that
hold for all inputs, all runs and all interleavings of the modelled steps. `dafny verify
dfyconfig.toml` checks the project.

The parts, and their main results:

- **evbuffer** (`Evbuffer*.dfy`): the chain list with its `last_with_datap` pointer as heap
  objects, and the public operations on it, each proved against the flat byte contents.
  `EvbufferRun.Run` follows any run on two buffers, `EvbufferRun.Conservation`
  accounts for every byte of it, `EvbufferRun.LostOnlyThen` says when bytes may be lost, and
  `EvbufferRun.InOrder` that a pipeline keeps their order; line reading is a lossless and
  unique split; search finds the least match; a reservation that is written and committed
  appends exactly what was written.
- **evmap and epoll** (`Evmap.dfy`, `Epoll.dfy`): the map from descriptors to events, the
  changelist and the literal 512-entry operation table. Coalescing changes leaves the
  kernel exactly where immediate changes would (`Evmap.CoalescedIsImmediate`).
- **the event loop** (`MinHeap.dfy`, `Event*.dfy`, `CommonTimeout.dfy`): the timer heap,
  common-timeout queues, active queues with priorities, deferred callbacks, finalizers.
  `EventActive.RunLoop` keeps the whole consistency check of the library over any run
  with callbacks that call back and allocations that fail; `EventTimeouts.TimeoutNext`
  shows that waiting for the heap alone is waiting for every timeout, and
  `EventLaws.AddPeriodic` that a periodic event keeps its beat.
- **rate limits** (`TokenBucket.dfy`, `RateLimit.dfy`, `RateSteps.dfy`): token buckets in
  32- and 64-bit arithmetic, groups and their suspended members. The bandwidth bound holds
  over every window and by the clock, no wakeup is lost, whichever locks other threads hold,
  and nothing but the user's own switches enables or disables a direction.
- **DNS** (`Dns*.dfy`): the name codec with compression and its round trip, an exact
  description of what `name_parse` accepts, round-robin server choice down to the requests
  submitted, and the request queues over any run.
- **tagged records and the random generator** (`EvTag*.dfy`, `Arc4.dfy`): wire formats on
  top of evbuffers with their round trips; what the RC4 state keeps and what mixing in data
  forgets, and the uniform range.

Heap objects (chains, evbuffers, the event base, the map, the resolver) are classes whose
methods update fields in place; a C list whose links carry no behaviour of their own is a
sequence. Every allocation is a boolean parameter that says whether it succeeds, every
clock a number, every random start an index, every socket outcome a value. An operation
that the library performs under its lock is one step; members whose lock another thread
holds are a set parameter. Sizes are those of a 64-bit build (a chain header of 48 bytes).

Where the library does not do what its users would expect, the exact condition is proved,
most with a concrete case:

- a timeout that is lost although `event_add` succeeds (`EventLoop.Add`,
  `EventCases.LostTimeout`), and a common-timeout queue whose timer is not set again
  (`EventTimeouts.CommonTimeoutCallback`), both for want of memory;
- bytes lost by `evbuffer_remove_buffer` when memory runs out (`EvbufferMove.RemoveBuffer`,
  `EvbufferCases.LostByte`), and part of the data prepended by a failing `evbuffer_prepend`
  (`EvbufferBytes.Prepend`, `EvbufferCases.HalfPrepended`);
- an assertion that fails when nothing is reserved in a full buffer
  (`EvbufferReserve.ReserveMany`, `EvbufferCases.AbortedReserve`), and a reservation that
  cannot be committed (`EvbufferReserve.ReserveOne`, `EvbufferCases.RefusedCommit`);
- buckets that stop refilling after a change to longer ticks, and are refilled too much
  after one to shorter ticks (`RateSteps.StallUntil`, `RateSteps.StalledBucket`,
  `RateSteps.Windfall`, `RateSteps.FloodedBucket`), tick lengths with which the library
  divides by zero (`TokenBucket.UsableIff`, `RateSteps.SetNewLimit`, `RateSteps.ZeroTicks`),
  and buckets that grow beyond their maximum (`TokenBucket.OverfullGrows`);
- a name whose final zero byte is written one byte behind the length given, and behind the
  buffer where that is its size (`DnsEncode.ToLabels`, `DnsEncode.TerminatorBehind`);
- a DNS search that waits although nothing is in flight (`DnsQueue.SearchNext`,
  `DnsQueue.StuckSearch`);
- tagged payloads from 2^31 bytes on, where consuming one drains more, or nothing of it
  (`EvTagBuffer.Consume`, `EvTagBuffer.OneRecordIff`, `EvTagBuffer.LargestStays`), payloads
  from 2^31 - 1 bytes on, which cannot be read as strings (`EvTagBuffer.UnmarshalString`), a
  pointer taken from a failed pullup (`EvTagBuffer.PeekInt`), and a byte read behind the
  memory of a chain (`EvTagBuffer.PeekTag`, `EvTagBuffer.StrayTag`).

The comment at `event_tagging.c:80-93` describes the order of nibbles and of seven-bit
groups differently from the code; the model follows the code, which writes the low nibble
and the low group first.

## Model

| member | source | states |
|---|---|---|
| EvbufferCore.AllocSize | deps/libevent/buffer.c:157-193 | The size rounding of evbuffer_chain_new: at least what was asked, at most the maximum, never below the minimum buffer, and less than twice the request above that |
| EvbufferCore.ChainNew | deps/libevent/buffer.c:157-193 | NULL exactly if memory runs out or the size is above the limit; otherwise a fresh empty chain with room for the size |
| EvbufferCore.Evbuffer.constructor | deps/libevent/buffer.c:362-375 | A new evbuffer is well formed and empty |
| EvbufferCore.Evbuffer.FreeTrailingEmptyChains | deps/libevent/buffer.c:291-303 | Exactly the empty chains behind the data go; the contents stay; the result is the place where a chain is to be linked |
| EvbufferCore.Evbuffer.ChainInsert | deps/libevent/buffer.c:309-327 | The contents grow by the chain's data, empty trailing chains go, and the last-with-data pointer moves to the new chain exactly if it has data |
| EvbufferCore.Evbuffer.DerefLwd | deps/libevent/evbuffer-internal.h:86-99 | The documented last_with_datap invariant: it leads to the last chain with data, or to the first chain if none has any |
| EvbufferCore.Evbuffer.AlignLast | deps/libevent/buffer.c:1914-1920 | Realigning moves the data to the front of its memory and changes no byte |
| EvbufferBytes.Add | deps/libevent/buffer.c:1730-1824 | The contents grow by exactly the data or by nothing; fails if and only if the end is frozen, the length would overflow, or there is no room and none can be made |
| EvbufferBytes.AddSpill | deps/libevent/buffer.c:1787-1824 | What does not fit in the last chain goes on in a new one; succeeds if and only if that can be allocated; the new chain is at least twice as long as the last, up to the limit for that |
| EvbufferBytes.Drain | deps/libevent/buffer.c:1101-1166 | Exactly the first bytes go, on both the drain-everything and the chain-walking path; fails if and only if the start is frozen and there is data |
| EvbufferBytes.Prepend | deps/libevent/buffer.c:1827-1910 | The data is in front of the old contents; fails if and only if the start is frozen, the length would overflow or memory runs out, and in the last case exactly the end of the data that fits before the first chain is already in the buffer |
| EvbufferBytes.PrependTo | deps/libevent/buffer.c:1854-1910 | The same once there is a first chain: which bytes are in the buffer after a failed allocation |
| EvbufferBytes.Gather | deps/libevent/buffer.c:1227-1248 | The chain walk of evbuffer_copyout_from collects exactly the bytes from the position on |
| EvbufferBytes.CopyoutFrom | deps/libevent/buffer.c:1190-1254 | Copies exactly the asked bytes from the position, or what there is, and leaves the rest of the output alone; fails if and only if the position would overflow or the start is frozen |
| EvbufferBytes.Remove | deps/libevent/buffer.c:1170-1181 | What is copied out followed by what is left is the old contents |
| EvbufferMove.ZeroChain | deps/libevent/buffer.c:800-807 | An empty, well-formed buffer |
| EvbufferMove.CopyChain | deps/libevent/buffer.c:875-886 | The destination takes over chains and contents |
| EvbufferMove.AppendChain | deps/libevent/buffer.c:889-905 | The destination has its own contents followed by the source's, with last_with_datap right whether or not it had data |
| EvbufferMove.PrependChains | deps/libevent/buffer.c:948-963 | The destination has the source's chains and contents in front of its own |
| EvbufferMove.AddBuffer | deps/libevent/buffer.c:966-1009 | Everything moves to the end and the source is empty, or nothing changes; succeeds if and only if the buffers are the same, the source is empty, or neither side is frozen |
| EvbufferMove.PrependBuffer | deps/libevent/buffer.c:1055-1098 | Everything moves to the front and the source is empty, or nothing changes; the same exact condition |
| EvbufferMove.AdvanceLastWithData | deps/libevent/buffer.c:704-721 | Comes to the last chain with data |
| EvbufferMove.MoveWhole | deps/libevent/buffer.c:1292-1324 | Exactly the leading chains that fit whole in the number move over; their bytes go from the front of the source to the end of the destination |
| EvbufferMove.MoveBytes | deps/libevent/buffer.c:1325-1336 | The first bytes are drained whether or not they could be copied; they are copied if and only if evbuffer_add finds room |
| EvbufferMove.RemoveBuffer | deps/libevent/buffer.c:1260-1347 | The source loses exactly the first bytes and reports their number. The destination gains them all if and only if there is room for the part of the next chain, in the chain that is last after the whole chains moved or in one that can be allocated; otherwise the ignored inner evbuffer_add fails and it gains exactly the whole chains |
| EvbufferMove.CanMoveBounded | deps/libevent/buffer.c:1260-1347 | No byte is lost while memory can be allocated and no chain is larger than the limit |
| EvbufferCases.LostByte | deps/libevent/buffer.c:1325-1336 | A two-byte buffer and an empty one: with no memory, one byte is drained, reported as moved, and in neither buffer |
| EvbufferCases.HalfPrepended | deps/libevent/buffer.c:1854-1910 | One byte fits before the data, memory runs out for the other: evbuffer_prepend fails and the byte that fitted stays in the buffer |
| EvbufferPullup.PullLoop | deps/libevent/buffer.c:1418-1435 | Collects whole chains and says whether the last chain with data, or the place that leads to it, was among them |
| EvbufferPullup.PullInto | deps/libevent/buffer.c:1398-1456 | The contents stay and the first chain holds at least the asked bytes |
| EvbufferPullup.Pullup | deps/libevent/buffer.c:1350-1461 | The contents never change; on success the first chain starts with the asked prefix; NULL if and only if there is less data, or the prefix is not in one chain yet, does not fit in the first one and no chain can be allocated |
| EvbufferSearch.PtrSet | deps/libevent/buffer.c:2623-2672 | Succeeds if and only if the position lies within the buffer; the pointer then stands for that position and is in the chain that holds it |
| EvbufferSearch.PtrMemcmp | deps/libevent/buffer.c:2679-2712 | Zero if and only if the bytes stand at the position, across chain borders |
| EvbufferSearch.SearchRange | deps/libevent/buffer.c:2721-2782 | The least position in the range at which the bytes match, and none if and only if there is none; the empty pattern and invalid starts as in the code |
| EvbufferSearch.LeastMatchUnique | deps/libevent/buffer.c:2721-2782 | There is at most one such position, so the search agrees with a scan of the flat contents |
| EvbufferLines.FindEolChar | deps/libevent/buffer.c:1496-1520 | The first CR or LF, although it is looked for in blocks of 128 bytes |
| EvbufferLines.FindFrom | deps/libevent/buffer.c:1474-1542 | The first byte to stop at, from a position on, across chains |
| EvbufferLines.Strspn | deps/libevent/buffer.c:1545-1581 | The length of the run of CRs and LFs |
| EvbufferLines.PtrSubtract | deps/libevent/buffer.c:2603-2620 | Goes back if and only if the position allows it |
| EvbufferLines.SearchEol | deps/libevent/buffer.c:1597-1684 | The first end of line in the chosen style, and its length; none if and only if there is none |
| EvbufferLines.EolUnique | deps/libevent/buffer.c:1597-1684 | The style fixes that end of line |
| EvbufferLines.Readln | deps/libevent/buffer.c:1687-1723 | The line, its end and the new contents make up the old ones; no line if and only if there is none, the start is frozen or memory runs out, and then nothing is drained |
| EvbufferLines.SplitsLossless | deps/libevent/buffer.c:1687-1723 | Lines and their ends, put together again with the rest, are the contents |
| EvbufferLines.SplitsUnique | deps/libevent/buffer.c:1687-1723 | Contents can be split into lines in one way only |
| EvbufferLines.ReadLines | deps/libevent/buffer.c:1687-1723 | Reading lines until there is none gives exactly that split |
| EvbufferSpace.MeasureSpace | deps/libevent/buffer.c:2071-2096 | The room found in up to n chains, with empty chains realigned, and whether it is enough |
| EvbufferSpace.ReplaceEmpty | deps/libevent/buffer.c:2116-2158 | Empty chains give way to one that is large enough, or the buffer loses them when memory runs out |
| EvbufferSpace.ExpandFast | deps/libevent/buffer.c:2051-2158 | On success at most n chains from the last one with data on have enough room; the contents stay; it fails if and only if no chain is found and the one it then wants cannot be allocated |
| EvbufferCommit.CheckVecs | deps/libevent/buffer.c:752-773 | Accepts if and only if every vector lies in the space of its chain |
| EvbufferCommit.CommitSpace | deps/libevent/buffer.c:724-791 | Accepts if and only if the end is not frozen and the vectors lie in the spaces in order; then the contents grow by exactly the bytes in the vectors |
| EvbufferReserve.SetupVecs | deps/libevent/buffer.c:2225-2260 | The vectors cover the space asked for; the assertion fails if and only if no chain can be written to |
| EvbufferReserve.ExpandSingle | deps/libevent/buffer.c:1939-2046 | A chain with the room asked for, with the contents unchanged; which chain that is, and when it fails, exactly |
| EvbufferReserve.ReserveMany | deps/libevent/buffer.c:690-695 | Vectors for at least the size; refused if and only if the buffer cannot be expanded; the assertion in the vector setup fails if and only if nothing is reserved in a full buffer |
| EvbufferReserve.ReserveOne | deps/libevent/buffer.c:682-689 | One vector of at least the size, refused if and only if the buffer cannot be expanded; evbuffer_commit_space accepts it if and only if expansion did not pass over a chain with room to one that is not last |
| EvbufferReserve.Reserve | deps/libevent/buffer.c:671-701 | Both together, for every signed size: when it refuses, when it aborts, what it offers |
| EvbufferReserve.NegativeRefused | deps/libevent/buffer.c:671-701 | A negative size, converted to size_t, is above the largest chain and is refused |
| EvbufferReserve.WriteAndCommit | deps/libevent/buffer.c:671-791 | Reserving, writing and committing appends exactly what was written |
| EvbufferReserve.WriteOne | deps/libevent/buffer.c:671-791 | Reserving one vector, writing into it and committing appends exactly what was written if and only if the end is not frozen, the buffer can be expanded, and expansion did not pass over a chain with room to one that is not last |
| EvbufferCases.AbortedReserve | deps/libevent/buffer.c:2225-2260 | One full chain: reserving nothing in two pieces runs into the assertion |
| EvbufferCases.RefusedCommit | deps/libevent/buffer.c:1995-2009 | One byte of room and two empty chains behind: two bytes are offered, and no commit of them is accepted |
| EvbufferRun.Run | deps/libevent/buffer.c:966-1910 | Over any sequence of additions, prependings, expansions of both kinds, reservations in one or more vectors that are written and committed, pullups, drains, removals, line reads and moves either way between two buffers: both stay well formed, and their contents are those of two plain byte sequences to which the effect of each step is applied |
| EvbufferRun.Conservation | deps/libevent/buffer.c:966-1910 | Over any such run, what was in the buffers and what was put in is, byte for byte and counted, what is in them, what was taken out and what was lost |
| EvbufferRun.LostOnlyThen | deps/libevent/buffer.c:1325-1336 | Bytes are lost only by evbuffer_remove_buffer and only in a step in which allocation failed |
| EvbufferRun.InOrder | deps/libevent/buffer.c:966-1347 | In a pipeline that is filled at one end and emptied at the other, what was taken followed by what is in the buffers is what was there followed by what was put in, in that order |
| EpollTable.TableRight | deps/libevent/epolltable-internal.h:136-1164 | Every entry of the 512-entry table, copied literally: impossible exactly for add with delete, nothing exactly if nothing changes, and otherwise the operation and events that take the kernel from the old interest to the new one |
| EpollTable.Digits | deps/libevent/epolltable-internal.h:124-130 | The index of a change gives back its four parts |
| EpollTable.Kernel.Ctl | deps/libevent/epoll.c:267-353 | The kernel's side: EEXIST, ENOENT and the registered interest |
| EpollTable.ApplyOneChange | deps/libevent/epoll.c:267-353 | After a change that is possible, retries included, the kernel has the interest the change asks for, if the change knows what it had; no other descriptor is touched |
| Evmap.RecordTargets | deps/libevent/evmap.c:866-946 | Recording an addition or a deletion changes the interest a record leads to by exactly that |
| Evmap.Base.GetOrConstruct | deps/libevent/evmap.c:835-863 | The descriptor's record is the one its index names, and is created with the interest it had |
| Evmap.Base.ChangelistAdd | deps/libevent/evmap.c:866-893 | The records stay in step with the map and the kernel when kinds are added |
| Evmap.Base.ChangelistDel | deps/libevent/evmap.c:896-946 | and when they are deleted |
| Evmap.Base.DirectAdd | deps/libevent/epoll.c:375-393 | Without a changelist the kernel follows at once |
| Evmap.Base.DirectDel | deps/libevent/epoll.c:396-414 | and on deletion |
| Evmap.Base.MakeSpace | deps/libevent/evmap.c:205-232 | The table grows to a power of two above the slot, or stays |
| Evmap.Base.IoAdd | deps/libevent/evmap.c:273-349 | The result and the new event lists are those of a plain specification: -1 for too many events or no memory, 1 exactly if the union of wanted kinds changes |
| Evmap.Base.IoDel | deps/libevent/evmap.c:354-417 | One event goes; 1 exactly if the union of wanted kinds changes, -1 exactly beyond the table; the checks of the integrity functions (evmap.c:752-770, 952-980) are the invariant |
| Evmap.CountWithout | deps/libevent/evmap.c:354-417 | The counters per kind after a removal |
| Evmap.Base.ApplyChanges | deps/libevent/epoll.c:356-372 | Applying all records leaves the kernel with what the events want |
| Evmap.Base.RemoveAll | deps/libevent/evmap.c:779-797 | The list is empty and no descriptor refers to it |
| Evmap.Base.Dispatch | deps/libevent/epoll.c:460-461 | After the flush the kernel's interest is, for every descriptor, the union of what its events want |
| Evmap.SettledKernel | deps/libevent/evmap.c:752-770 | With an empty changelist the kernel has that interest |
| Evmap.CoalescedIsImmediate | deps/libevent/epoll.c:356-414 | For any sequence of additions and deletions, coalescing changes until the flush leaves map and kernel exactly where immediate changes leave them |
| Evmap.RunOps | deps/libevent/evmap.c:273-417 | Over any sequence the event lists are those of the specification, whatever the backend |
| MinHeap.Heap.ShiftUp | deps/libevent/minheap-internal.h:165-175 | The heap is ordered again, every element knows its index, no other element enters or leaves |
| MinHeap.Heap.ShiftUpUnconditional | deps/libevent/minheap-internal.h:153-163 | The same |
| MinHeap.Heap.ShiftDown | deps/libevent/minheap-internal.h:177-190 | The same downwards, also when the hole is the end |
| MinHeap.Heap.Reserve | deps/libevent/minheap-internal.h:133-151 | Room if and only if it is there or can be allocated; nothing else changes |
| MinHeap.Heap.Push | deps/libevent/minheap-internal.h:71-77 | Exactly the new element enters an ordered heap |
| MinHeap.Heap.Erase | deps/libevent/minheap-internal.h:96-115 | Exactly that element leaves, from anywhere in the heap |
| MinHeap.Heap.Top | deps/libevent/minheap-internal.h:69 | No element has an earlier time |
| MinHeap.TopMinimal | deps/libevent/minheap-internal.h:69 | The order of parents and children makes the root minimal |
| CommonTimeout.TagRoundTrip | deps/libevent/event.c:1397-1425 | The tag in tv_usec gives back its parts, ordinary times are never taken for common ones, and tagged times of one timeout compare like their microseconds |
| EventQueues.FindPlace | deps/libevent/event.c:3331-3358 | The place searched from the end keeps equal deadlines in order |
| EventQueues.InsertSorted | deps/libevent/event.c:3331-3358 | Inserting there keeps the queue sorted |
| EventQueues.WeightUpdate | deps/libevent/event.c:3224-3436 | What one event contributes to event_count |
| EventBase.Base.constructor | deps/libevent/event.c:3964-4020 | A base without pending events is consistent |
| EventBase.Base.SetInserted | deps/libevent/event.c:3361-3374 | The inserted flag and event_count move together |
| EventBase.Base.RemoveActive | deps/libevent/event.c:3236-3250 | Exactly this callback leaves its active queue; flags, counters and queues agree |
| EventBase.Base.InsertActive | deps/libevent/event.c:3377-3395 | It enters at the end of the queue of its priority |
| EventBase.Base.RemoveLater | deps/libevent/event.c:3252-3265 | It leaves the active-later queue |
| EventBase.Base.InsertLater | deps/libevent/event.c:3398-3412 | It enters it |
| EventBase.Base.RemoveFromHeap | deps/libevent/event.c:3267-3286 | A timeout leaves the heap |
| EventBase.Base.RemoveFromList | deps/libevent/event.c:3267-3286 | A common timeout leaves its queue |
| EventBase.Base.InsertIntoHeap | deps/libevent/event.c:3415-3436 | A timeout enters the heap |
| EventBase.Base.InsertIntoList | deps/libevent/event.c:3415-3436 | A common timeout enters its queue in order; whether it is now first |
| EventOps.RemoveTimeout | deps/libevent/event.c:3267-3286 | Either of the two, and what the timer of the queue is owed |
| EventOps.Del | deps/libevent/event.c:2810-2898 | event_del takes the event out of every queue it is in and changes nothing else about it or any other, keeps the base consistent, and leaves finalizing events alone |
| EventOps.ActivateCallback | deps/libevent/event.c:3006-3034 | A callback enters its active queue once, out of the later queue if it was there; 1 exactly if it was in neither |
| EventOps.Active | deps/libevent/event.c:2919-2967 | The event is active for the given reason, together with the earlier one if it was queued already; everything stays consistent, and a running pass is asked to restart exactly for a more important priority |
| EventOps.ScheduleTimer | deps/libevent/event.c:1450-1456 | The timer of a queue gets the deadline of its first event; fails exactly if the heap must grow and cannot |
| EventOps.SetTimeout | deps/libevent/event.c:2666-2735 | The deadline is the absolute time or so long after now, a persistent event takes a relative time as its interval and keeps its old one otherwise, an event active for its old timeout is not any more, and nothing else changes; the exact case in which the event is in no queue afterwards |
| EventOps.AddTimeout | deps/libevent/event.c:2662-2766 | The same fields, and: the base stays consistent if and only if it is not the case that an event with a pending common timeout gets another one while the heap array is full and cannot grow (and the new timeout, or the idle timer of its empty queue, needs the heap) |
| EventLoop.Add | deps/libevent/event.c:2597-2766 | The result, exactly; on failure nothing changes; on success each field of the event is as written out: its deadline, queue, interval, and whether it is registered, timed and active; the base is consistent if and only if it is not the exact case of AddTimeout |
| EventCases.LostTimeout | deps/libevent/event.c:2662-2766 | Eight timeouts, added one by one, fill the first heap array: giving the ninth event, which has a common timeout, a timeout of its own succeeds and leaves it in no queue |
| EventLoop.Finalize | deps/libevent/event.c:2247-2303 | A finalized event is active, is neither added nor timed, and stays so; nothing else about it changes |
| EventLoop.ActivateLater | deps/libevent/event.c:3037-3047 | Into the later queue, unless it is already queued |
| EventLoop.ActiveLater | deps/libevent/event.c:2978-2992 | event_active_later_: the event waits unless it is active, the reasons for which it is queued add up, and nothing else changes |
| EventLoop.ScheduleDeferred | deps/libevent/event.c:3124-3140 | A deferred callback is active at once, or waits if too many were deferred in this pass, and the count of them goes up exactly if it was not queued; the work a pass still has does not grow |
| EventTimeouts.NoneActive | deps/libevent/event.c:1969-1971 | When the loop is about to wait, no callback is queued |
| EventTimeouts.HeapInTime | deps/libevent/event.c:3143-3177 | Then every pending timeout, common ones included, has one in the heap that is no later |
| EventTimeouts.TimeoutNext | deps/libevent/event.c:3143-3177 | So the loop waits exactly until the earliest of all pending timeouts, and forever if and only if there is none |
| EventTimeouts.TimeoutProcess | deps/libevent/event.c:3181-3204 | Exactly the timeouts in the heap that are due expire, once each and in the order of their deadlines, and are put last in their active queues in that order; what expiring makes of each event is written out, and every other event is as before |
| EventTimeouts.CommonTimeoutCallback | deps/libevent/event.c:1462-1482 | Exactly the events of that queue that are due expire, every other event is as before, and its timer is set again for the rest, if and only if none is left, or the heap has room or can grow; otherwise exactly that queue has no timer |
| EventActive.PersistClosure | deps/libevent/event.c:1562-1624 | A persistent event with a period is pending again one period after its deadline, if it ran for its timeout and that is not past, and otherwise one period from now - if and only if event_add accepts it; otherwise nothing changes |
| EventActive.MakeLaterActive | deps/libevent/event.c:3439-3451 | All deferred callbacks become active, in order behind those of their priority, and as many are counted |
| EventActive.Take | deps/libevent/event.c:1647-1660 | Before its callback runs, an event that is neither persistent nor being finalized is deleted: in no queue and not pending; any other is taken off the active queue and is otherwise as before, as are the lists and the heap |
| EventActive.PerformAll | deps/libevent/event.c:2597-3140 | The calls of a callback take effect one after the other, up to one that loses a timeout |
| EventActive.RunTimer | deps/libevent/event.c:1462-1482 | The timer of a queue runs between the calls of other threads: exactly the due events of its queue expire, and their calls take effect before and after |
| EventActive.Perform | deps/libevent/event.c:2597-3140 | Any call a callback may make, with or without memory: what it makes of its event is written out for each call, no other event changes but timers of queues, and the base is consistent afterwards if and only if the call is not one of those that lose a timeout |
| EventActive.RunOne | deps/libevent/event.c:1634-1751 | The first callback of the queue is run, taken off or deleted first as its kind demands, a persistent one set again, and then each of its calls takes effect in turn; whatever it or, while the timer of a queue runs, other threads do, the base is consistent if and only if no timeout or timer was lost for want of memory |
| EventActive.ActiveMost | deps/libevent/event.c:3964-4020 | No more callbacks are queued than there are events |
| EventActive.ProcessQueue | deps/libevent/event.c:1634-1751 | All callbacks run from one queue start with its first; at most the maximum that are not internal; it ends only with an empty queue, the maximum, the time limit, a break or a restart |
| EventActive.ProcessActive | deps/libevent/event.c:1760-1802 | A pass starts with the first callback of the most important queue that is not empty, runs callbacks of one priority only (internal ones aside), and obeys the limit above limit_callbacks_after_prio. If callbacks only defer, it ends after at most as many turns as callbacks were active or deferred plus 33, plus the number of events for each common-timeout queue whose timer was active |
| EventActive.BeginIteration | deps/libevent/event.c:1956-1958 | Each iteration may queue the full number of deferred callbacks again, and no restart is pending |
| EventActive.OneStep | deps/libevent/event.c:1956-2030 | One step of the loop or one call from outside does what it is for, written out: a legal call takes effect, an iteration begins without a restart, exactly the due timeouts expire, what waited is active, or a pass begins with the most important callback; consistency is kept, or a step that found no memory lost a timeout |
| EventActive.RunLoop | deps/libevent/event.c:3964-4020 | Over any sequence of calls from user code or other threads, iterations, expirations and passes, with callbacks that call back and allocations that fail: counters equal the queues, finalizing events are not pending, and every common timeout queue has its timer in time, up to the first step that loses a timeout, which is one that found no memory; the trace says for each step what it did |
| EventActive.Consistent | deps/libevent/event.c:3964-4020 | What that consistency says |
| EventLaws.AddThenExpire | deps/libevent/event.c:2597-2766 | After an event is added with a heap timeout relative to now, expiring the timeouts at time t (3181-3204) makes it active if and only if t is at least now plus the timeout |
| EventLaws.AddThenServe | deps/libevent/event.c:2597-2766 | The same for a common timeout and the callback of its queue (1462-1482) |
| EventLaws.GoRound | deps/libevent/event.c:1562-1660 | A persistent event whose timeout is due expires and runs: it is then pending again, added as before, at the next deadline |
| EventLaws.KeepsBeat | deps/libevent/event.c:1562-1624 | Any number k of such rounds, each run before the next is due, leave the deadline exactly k periods later: the beat does not drift |
| EventLaws.AddPeriodic | deps/libevent/event.c:2597-2766 | Added at now with a relative timeout and run on time k times, a persistent event is due k + 1 timeouts after now |
| TokenBucket.RefillExact | deps/libevent/bufferevent_ratelim.c:74-111 | The overflow-free comparison by division gives exactly min(limit + ticks * rate, maximum) |
| TokenBucket.OverfullGrows | deps/libevent/bufferevent_ratelim.c:74-111 | A bucket above its maximum, as giving bytes back may leave it, is not brought down to it but goes on growing: when and by how much, exactly |
| TokenBucket.RefillTwice | deps/libevent/bufferevent_ratelim.c:74-111 | Refilling in two steps is refilling once |
| TokenBucket.Update | deps/libevent/bufferevent_ratelim.c:74-111 | Exactly if between one and INT_MAX ticks have gone by on the 32-bit counter, both limits grow by a rate for each, up to their maxima, and the tick is remembered; otherwise nothing changes |
| TokenBucket.UpdateAgain | deps/libevent/bufferevent_ratelim.c:74-111 | A second update in the same tick credits nothing and changes nothing |
| TokenBucket.UpdateInOrder | deps/libevent/bufferevent_ratelim.c:74-111 | Updating at one tick and then at a later one is updating at the later one, while less than half the range of the counter goes by |
| TokenBucket.Settles | deps/libevent/bufferevent_ratelim.c:74-111 | After an update at a tick, whatever the bucket held, no later update credits more ticks than have gone by since |
| TokenBucket.TicksExact | deps/libevent/bufferevent_ratelim.c:74-111 | Over a run on a clock that does not go back and does not leap over half the counter's range, the ticks credited are exactly those between the first update and the last |
| TokenBucket.UsableIff | deps/libevent/bufferevent_ratelim.c:126-173 | A tick length with less than a million microseconds is accepted whatever it is, but ev_token_bucket_get_tick_ can use it, at one time or at any, if and only if a millisecond or more is left of it modulo 2^32 milliseconds, because msec_per_tick is a 32-bit number; otherwise it divides by zero |
| TokenBucket.Budget | deps/libevent/bufferevent_ratelim.c:74-111 | What transfers that obey the limit use is at most the limit and one rate per credited tick |
| TokenBucket.WindowBound | deps/libevent/bufferevent_ratelim.c:74-111 | Over any window of any run: at most the maximum plus one rate per credited tick; and on a clock that does not go back, plus one rate for each tick between the first transfer of the window and the last |
| RateLimit.Limiter.GroupSuspend | deps/libevent/bufferevent_ratelim.c:350-389 | Every member that can be locked is suspended; nothing else changes about any bufferevent |
| RateLimit.Limiter.GroupUnsuspend | deps/libevent/bufferevent_ratelim.c:488-523 | Every member that can be locked is woken, each visited once from the random start on, the group remembers if and only if one could not, and nothing else changes about any bufferevent |
| RateLimit.RotationVisitsOnce | deps/libevent/bufferevent_ratelim.c:446-485 | A walk from a random member visits every member exactly once |
| RateSteps.RefillTimer | deps/libevent/bufferevent_ratelim.c:394-439 | A direction stays suspended, and the timer pending, exactly as long as its bucket is empty; whether it is enabled, its other reasons to be suspended and all other bufferevents are as before |
| RateSteps.Charge | deps/libevent/bufferevent_ratelim.c:273-346 | Buckets lose the bytes, and only those; a direction is suspended for its bucket or its group if and only if that is exhausted, members follow their group, and the timer is stopped with the last side that recovers; no bufferevent is enabled or disabled, and no other reason to suspend one comes or goes |
| RateSteps.GetMax | deps/libevent/bufferevent_ratelim.c:198-258 | How much may be transferred: exactly the smaller of the own limit and the share of the group, nothing if the group is suspended; nothing changes but the bucket's update and the suspension for the group |
| RateSteps.WakeGroup | deps/libevent/bufferevent_ratelim.c:529-557 | One direction: it stays suspended exactly while the bucket holds less than one share; otherwise all members that can be locked are awake |
| RateSteps.GroupRefill | deps/libevent/bufferevent_ratelim.c:529-557 | The same for both directions after an update of the bucket; a direction whose credited ticks make up what it lacks of one share is not suspended afterwards; nothing else changes about any bufferevent or any other group |
| RateSteps.EnoughTicks | deps/libevent/bufferevent_ratelim.c:529-557 | If the credited ticks make up what the bucket of a group lacks of one share, the update leaves it with a share, and GroupRefill wakes the members |
| RateSteps.SetRateLimit | deps/libevent/bufferevent_ratelim.c:560-635 | New limits: it divides by zero, before anything is changed, exactly if the tick cannot be computed, so no configuration in use does; otherwise a direction is suspended exactly if its bucket is exhausted, and without limits nothing is left suspended; what others want of the bufferevent and its group stays as it is |
| RateSteps.InitializedIs | deps/libevent/bufferevent_ratelim.c:50-72 | A new bucket holds one rate and the present tick; one that is given new limits is clipped to them and keeps its tick |
| RateSteps.SetNewLimit | deps/libevent/bufferevent_ratelim.c:143-635 | ev_token_bucket_cfg_new and bufferevent_set_rate_limit in turn: which rates are refused, and the exact tick lengths with which the library divides by zero |
| RateSteps.ZeroTicks | deps/libevent/bufferevent_ratelim.c:126-173 | Ticks of 999 microseconds, of 2^29 seconds and of 2^32 milliseconds are accepted and then divided by zero |
| RateSteps.EarnedIs | deps/libevent/bufferevent_ratelim.c:126-140 | Keeping 32 bits of the tick numbers changes nothing about how many ticks are credited, so a refill after a change of configuration credits the difference of the two times, each in ticks of its own length, modulo 2^32, if that is at most INT_MAX |
| RateSteps.StallUntil | deps/libevent/bufferevent_ratelim.c:560-635 | After a change to longer ticks at t0, anything is credited if and only if the time is at least (t0 / old length + 1) * new length: at a present-day clock, years later |
| RateSteps.Windfall | deps/libevent/bufferevent_ratelim.c:560-635 | After a change to shorter ticks exactly the ticks since the last update are credited, and besides them all those by which the two ways of counting differ, which never passed; when these are any |
| RateSteps.ChangeAndRefill | deps/libevent/bufferevent_ratelim.c:560-635 | A change of configuration followed by a refill, through the library's own steps: exactly the earned ticks are credited, and a direction is suspended exactly if its bucket is exhausted |
| RateSteps.StalledBucket | deps/libevent/bufferevent_ratelim.c:560-635 | One bufferevent uses up its bucket and is given ticks of a minute instead of a second: a year later the refill timer still leaves it suspended |
| RateSteps.FloodedBucket | deps/libevent/bufferevent_ratelim.c:560-635 | A bufferevent uses up its bucket and is given ticks of a second instead of a minute: without any time going by, the bucket is full |
| RateSteps.Spend | deps/libevent/bufferevent_ratelim.c:198-346 | Over any run of bev_get_max, charges that obey it and refill timers: the bytes transferred are at most the maximum plus one rate per credited tick; and on a clock that does not go back, plus one rate for each tick between the first act and the last |
| RateSteps.ExhaustThenRefill | deps/libevent/bufferevent_ratelim.c:273-439 | A charge that exhausts the bucket turns the backend off, and the refill timer turns it on again, once the bucket has recovered, if and only if the direction is enabled and nothing else suspends it |
| RateSteps.AddToGroup | deps/libevent/bufferevent_ratelim.c:735-778 | A new member is put first and is suspended exactly as the group is; nothing else about it or any other bufferevent changes |
| RateSteps.RemoveFromGroup | deps/libevent/bufferevent_ratelim.c:787-807 | A member that leaves is not suspended for the group any more; nothing else about it or any other bufferevent changes |
| RateSteps.NewGroup | deps/libevent/bufferevent_ratelim.c:638-721 | A new group holds one tick's worth, and its minimum share is clipped to the rates; it divides by zero exactly if the tick cannot be computed |
| RateSteps.Flip | deps/libevent/bufferevent.c:67-108 | Suspending, unsuspending, enabling (482-503) and disabling (573-587): exactly what is asked for changes, and the backend is on exactly if enabled and not suspended |
| RateSteps.NoLostWakeup | deps/libevent/bufferevent_ratelim.c:350-557 | What every step keeps: an exhausted bucket suspends; a suspension for the bucket has its timer, one for the group a suspended group or a pending wakeup; nothing else turns the backend off |
| RateSteps.Run | deps/libevent/bufferevent_ratelim.c:394-557 | That holds after any sequence of steps, whichever members are locked by other threads, up to one that brings in a configuration that cannot be used; and whether a direction is enabled, and what else than bandwidth suspends it, is exactly what the switches turned along the way say: no step of the rate limiter touches it; the trace says for each step what it did |
| DnsName.LeadsUnique | deps/libevent/evdns.c:977-1030 | A reader that follows pointers comes to one name at most |
| DnsName.FewHops | deps/libevent/evdns.c:977-1030 | If it comes to an end, it has followed no more pointers than there are bytes |
| DnsName.NameParse | deps/libevent/evdns.c:977-1030 | On every message: succeeds if and only if following pointers leads to the end of a name whose text fits, so the limit on pointers refuses only names without end; the result is that text, and the index is just behind the name |
| DnsName.SpellsLeads | deps/libevent/evdns.c:977-1030 | Names whose pointers lead backwards have an end |
| DnsName.SpellsMore | deps/libevent/evdns.c:1615-1678 | What is written later does not change the names written before |
| DnsEncode.TextLabels | deps/libevent/evdns.c:1615-1678 | Splitting a text at its dots and joining the labels gives it back |
| DnsEncode.Table.GetPos | deps/libevent/evdns.c:1575-1583 | The first entry with that text, if and only if there is one |
| DnsEncode.Table.Add | deps/libevent/evdns.c:1587-1601 | Adds an entry unless the table is full or memory runs out |
| DnsEncode.PointerExact | deps/libevent/evdns.c:1615-1678 | A compression pointer leads where it should if and only if that is below 0x4000; no caller in the library has a buffer as large |
| DnsEncode.ToLabels | deps/libevent/evdns.c:1615-1678 | On success the name stands at its place, every table entry still leads to its text, and nothing before is changed, unless a pointer had to reach beyond 0x4000; error -1 is never returned for a well-formed name, and there is success if it fits uncompressed. The final zero byte is written behind the given length if and only if the labels end exactly there, and behind the buffer if that is its size |
| DnsEncode.TerminatorBehind | deps/libevent/evdns.c:1671-1678 | In a buffer of 1500 bytes with two left, the name "a" ends one byte behind the buffer |
| DnsMessage.WriteMessage | deps/libevent/evdns.c:1615-1678 | Any list of names and other data in one message with a shared table: each name stands where it was written; it succeeds if everything fits uncompressed; in a buffer below 0x4000 bytes, as all callers have, no pointer reaches too far |
| DnsMessage.ReadName | deps/libevent/evdns.c:977-1030 | Reading there gives the text and the next index |
| DnsMessage.RoundTrip | deps/libevent/evdns.c:977-1030 | Every list of well-formed names written with compression is read back as it was, each read ends where the next item was written, and writing succeeds if everything fits uncompressed |
| DnsServers.Rotate | deps/libevent/evdns.c:1350-1382 | Moving on moves a server to the end of the round |
| DnsServers.Pick | deps/libevent/evdns.c:1350-1382 | The next server that is up, and the round goes on behind it; if none is up, simply the next |
| DnsServers.PickRound | deps/libevent/evdns.c:1350-1382 | As many picks as servers are up give each of them once |
| DnsRequests.Resolver.PickServer | deps/libevent/evdns.c:1350-1382 | The resolver picks the first server of the round that is up, which goes to the end of the round; if none is up, simply the next one |
| DnsRequests.Resolver.Enter | deps/libevent/evdns.c:2755-2768 | A request enters the bucket of its id or the end of the waiting queue, its server has one request more, and every counter follows |
| DnsRequests.Resolver.TakeOut | deps/libevent/evdns.c:2717-2751 | It leaves the queue it is in, and every counter follows |
| DnsQueue.SwapNs | deps/libevent/evdns.c:549-557 | The servers' counters follow; the assertion on them holds |
| DnsQueue.NameserverUp | deps/libevent/evdns.c:622-640 | A server that was down is up, its probe is cancelled, the count of good servers follows, and no other server comes up with it |
| DnsQueue.NameserverFailed | deps/libevent/evdns.c:562-619 | The server is down, no other one changes, and if another is up, every request that has not been sent and was with it is with a server that is up; no other request changes, and these change nothing but their server |
| DnsQueue.Transmit | deps/libevent/evdns.c:2254-2303 | Sent, choked or failed: the request counts as sent or is marked for later, exactly, and unless it failed nothing else changes |
| DnsQueue.TransmitAll | deps/libevent/evdns.c:2361-2383 | Each request in flight that is marked is tried exactly once, over all buckets, and no other one changes |
| DnsQueue.Pump | deps/libevent/evdns.c:747-774 | Requests leave the waiting queue in order and stay in flight; it stops only at the limit, with nothing waiting or without servers; if no socket fails, each goes to the server whose turn it is, under the id drawn for it |
| DnsQueue.Finish | deps/libevent/evdns.c:653-710 | The request leaves its queue, nothing else is lost, and the next ones follow |
| DnsQueue.Submit | deps/libevent/evdns.c:2781-2875 | A new request is in flight if and only if the limit allows it and there is a server, and otherwise last in the waiting queue; if its socket does not fail, it is with the server whose turn it was, under its id, the round goes on, and nothing else changes |
| DnsQueue.SubmitRound | deps/libevent/evdns.c:2781-2875 | As many submissions below the limit as there are servers up, when no socket fails: each of these servers gets exactly one request, in the order of the round, and the round begins anew |
| DnsQueue.Probe | deps/libevent/evdns.c:2332-2356 | A probe is in flight at once, whatever the limit, and takes no other request's place; if its socket does not fail, it is with the server it is for, under its id |
| DnsQueue.SearchNext | deps/libevent/evdns.c:3290-3330 | The next name of a search takes the place of the old request, with the server whose turn it is; it is left waiting although it could go out if and only if the old one had the last place and nothing else was waiting; at most one request more than the limit is in flight then |
| DnsQueue.StuckSearch | deps/libevent/evdns.c:3290-3330 | With a limit of one, the second name of a search waits while nothing is in flight, until another request comes and goes |
| DnsQueue.Reissue | deps/libevent/evdns.c:719-739 | The request goes to the server whose turn it is: pointless if and only if that is the old one, and never if the old one is down and another is up; otherwise the request is marked to be sent again |
| DnsQueue.TimedOut | deps/libevent/evdns.c:2176-2212 | A request that timed out ends, and its server is taken down, exactly after the given number of transmissions; otherwise it is sent again, by the server whose turn it is unless its socket fails, and the server it is then with is taken down exactly after the given number of timeouts in a row |
| DnsQueue.Find | deps/libevent/evdns.c:473-487 | Looking in one bucket finds a request in flight with that id if there is one |
| DnsQueue.SetMax | deps/libevent/evdns.c:3426-3454 | Every request in flight is in its bucket of the new table |
| DnsQueue.Run | deps/libevent/evdns.c:653-774 | Over any run of submissions, ends, timeouts, searches, failures, recoveries, reissues, retransmissions and new limits: every request that has not ended is in exactly one queue, all counters agree, and besides the probes in flight there are never more in flight than the highest limit allows, but for one if there are searches; the trace says for each step what it did |
| EvTag.NibblesValue | deps/libevent/event_tagging.c:121-142 | The nibbles of a number, low one first, add up to it |
| EvTag.EncodeInt | deps/libevent/event_tagging.c:121-142 | The nibble encoding of a number |
| EvTag.DecodeInt | deps/libevent/event_tagging.c:319-354 | The decoding, with its refusals, on any bytes |
| EvTag.IntRoundTrip | deps/libevent/event_tagging.c:319-354 | Decoding an encoded number, whatever follows it, gives the number and takes exactly its bytes |
| EvTag.EncodeTag | deps/libevent/event_tagging.c:178-198 | Groups of seven bits, low one first, at most five bytes |
| EvTag.DecodeTag | deps/libevent/event_tagging.c:201-246 | The decoding on any bytes; it reads a sixth byte, behind those it was given, if and only if five bytes do not end the tag, the fifth fits in 32 bits, and the buffer goes on |
| EvTag.TagRoundTrip | deps/libevent/event_tagging.c:178-246 | Decoding an encoded tag, whatever follows it, gives the tag and takes exactly its bytes |
| EvTagBuffer.Marshal | deps/libevent/event_tagging.c:261-267 | For every 32-bit tag and length: the record is appended, and always if memory can be allocated, the end is not frozen and it fits; which of its three parts are there if additions fail, since their results are ignored |
| EvTagBuffer.PeekTag | deps/libevent/event_tagging.c:201-246 | The decoded tag of the buffer's contents, without changing them; none if and only if there is none or the bytes cannot be pulled up. It reads behind the memory of the first chain if and only if it looks at a sixth byte and that memory ends with the fifth |
| EvTagBuffer.StrayTag | deps/libevent/event_tagging.c:201-246 | Five bytes added by reference, each of which says that the tag goes on, and one more byte in another chain: a read behind the referenced memory |
| EvTagBuffer.PeekInt | deps/libevent/event_tagging.c:366-377 | The decoded number at an offset, without changing the contents, if the bytes can be pulled up. If not, at offset 0 it fails, and at any other offset the code reads from a stray pointer, since it tests for NULL only after adding the offset |
| EvTagBuffer.UnmarshalHeader | deps/libevent/event_tagging.c:442-455 | Tag and length are those of the header, exactly the header is drained, and -1 if the payload is not all there; without a header, exactly the tag is gone if there is one. With a frozen start nothing is drained, and the bytes of the tag are taken for the length |
| EvTagBuffer.PeekLength | deps/libevent/event_tagging.c:406-421 | The length of the whole record |
| EvTagBuffer.Consume | deps/libevent/event_tagging.c:458-466 | On every contents, with a frozen start too: what is left, exactly. A complete record goes, and nothing else, if and only if its length is below 2^31, or nothing follows it and its length is not 2^32 - 1 |
| EvTagBuffer.OneRecordIff | deps/libevent/event_tagging.c:458-466 | The same of what evtag_consume leaves: a length from 2^31 on turns negative, and one of 2^32 - 1 is taken for an error |
| EvTagBuffer.LargestStays | deps/libevent/event_tagging.c:442-466 | A marshalled record of 2^32 - 1 bytes is not consumed: the whole payload stays |
| EvTagBuffer.PeekThenConsume | deps/libevent/event_tagging.c:406-466 | Consuming drains exactly what peeking announced, if the length is below 2^31 or the record is the last one |
| EvTagBuffer.HeaderOf | deps/libevent/event_tagging.c:442-455 | The header of a marshalled record, whatever follows it |
| EvTagBuffer.UnmarshalString | deps/libevent/event_tagging.c:562-581 | On every contents: it succeeds if and only if the header has the tag asked for, the payload is all there and shorter than 2^31 - 1 bytes - the length plus one is computed as an int - and there is memory; what it returns and what is left, exactly |
| EvTagBuffer.ReadRecord | deps/libevent/event_tagging.c:562-581 | Peeking at the tag and reading the string reads a marshalled record back and leaves what follows, if and only if its payload is shorter than 2^31 - 1 bytes; otherwise the header is gone and the payload stays |
| EvTagBuffer.ReadAll | deps/libevent/event_tagging.c:562-581 | Any sequence of marshalled records is read back in order, up to the first that is too long to be read |
| EvTagBuffer.MarshalAll | deps/libevent/event_tagging.c:261-267 | Any sequence of records is appended in order |
| EvTagBuffer.RecordsRoundTrip | deps/libevent/event_tagging.c:261-581 | Any sequence of records marshalled into a new buffer is read back as it was if and only if no payload has 2^31 - 1 bytes or more |
| Arc4.Stream.constructor | deps/libevent/arc4random.c:100-108 | The identity permutation |
| Arc4.EveryByte | deps/libevent/arc4random.c:100-125 | No value is missing from a state without repetitions |
| Arc4.Stream.AddRandom | deps/libevent/arc4random.c:111-125 | 256 rounds that take the data over and over, after which j is overwritten with i; the state stays a permutation |
| Arc4.Stream.GetByte | deps/libevent/arc4random.c:416-427 | One round without data, and the byte the new state selects |
| Arc4.Churn | deps/libevent/arc4random.c:111-427 | After any mix of both, one after the other, the state and the bytes drawn are those of the operations in turn, and every byte value is in the state once |
| Arc4.StepInverse | deps/libevent/arc4random.c:416-427 | A round can be undone, so no two states have the same successor |
| Arc4.MixedInverse | deps/libevent/arc4random.c:111-124 | The rounds, before j is overwritten, lose nothing: they can be undone |
| Arc4.UnmixedInverse | deps/libevent/arc4random.c:111-124 | and every state is where some rounds end |
| Arc4.AddedFrom | deps/libevent/arc4random.c:111-125 | Overwriting j loses exactly one byte: every result comes from exactly 256 states, one for each value j may have had, and these are permutations too |
| Arc4.MinIs | deps/libevent/arc4random.c:513-545 | The 32-bit arithmetic for the least accepted word gives 2^32 mod the bound |
| Arc4.Unbiased | deps/libevent/arc4random.c:513-545 | Every result below the bound comes from exactly floor(2^32 / bound) accepted words |
| Arc4.Uniform | deps/libevent/arc4random.c:513-545 | The result is the remainder of the first accepted word, and below the bound |

## Left out

- EvbufferBytes.Add: a chain's memory is a sequence that a write replaces, so aliasing with memory a caller handed over by reference is not captured.
- EvbufferMove.AddBuffer: requires that the lengths of both buffers add up to at most the largest size_t; the source adds without a check.
- EvbufferMove.PrependBuffer: the same, as for RemoveBuffer, CommitSpace and the runs of EvbufferRun.
- Results of type int are not truncated from size_t, except where the table says so.
- Buffer callbacks with their counters, pinned, multicast and file-segment chains, locks and reference cleanup.
- evbuffer_add_iovec, evbuffer_peek, formatted printing, and reading from and writing to sockets.
- Evmap.Base.IoAdd: edge-triggered events, signals and closed descriptors are not modelled; growth of the changelist is assumed to succeed.
- Reporting ready descriptors to events, re-initialisation after fork, and backends other than epoll.
- EventActive.RunOne: a user callback is a script of calls into the library; whether a whole turn loses a timeout follows from the exact conditions of its calls and is not restated on the state before the turn. Repeated signal callbacks count as one.
- Events are numbered and created beforehand, and their priorities are fixed; the circular and doubly linked lists of the loop are sequences.
- Freeing an event base, min_heap_pop and min_heap_adjust, and the tick and time caches.
- RateSteps.Charge: charges that take a bucket out of its range are left out: below the least 64-bit value, or above its maximum when bytes are given back; what a refill then does is stated by TokenBucket.OverfullGrows.
- RateSteps.NewGroup: changing the configuration of a group is left out.
- Failures of event_add in the rate limiter, and a clock of more than 64 bits of milliseconds.
- DnsEncode.ToLabels: always with a label table; entries that a failed encoding leaves in the table are allowed, but a message is given up after a failure.
- DnsQueue.Find: transaction ids are a parameter, so that they are unique is not shown.
- DnsQueue.NameserverUp: which request probes a server is a parameter; when probes are sent is left out.
- DNS packet headers, records and sockets, the names a search tries, and the hosts file.
- EvTagBuffer.ReadRecord: reads with memory for pullups, as do UnmarshalString, Consume and PeekThenConsume; unmarshalling into a second buffer and the encodings of times and fixed-size values are left out.
- EvTagBuffer.UnmarshalHeader: when memory runs out, says which contents are possible, not which pullup fails; so does PeekLength for its result.
- Seeding and stirring the random generator.
- HTTP, RPC, TLS, the listener, Windows and other platform code.
