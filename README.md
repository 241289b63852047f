# open-rdma-driver: retry monitor, ring framing, submission path and opcode tables

A Dafny model of four parts of the RDMA driver, with proofs about each.

**Retry monitor** (`rust_driver/src/retry.rs`). Other threads subscribe `Retry` and `Cancel` events over a channel. A monitor thread then loops: it drains the channel into a table keyed by `(qpn, msn)`, then checks timeouts. A due entry with budget left is resent and loses one unit of budget. A due entry with no budget left fails its user operation and is removed.
- Files: `retry.dfy` (module `Retry`), `retry_lemmas.dfy` (module `RetryLemmas`).
- Each step has a pure specification function (`ApplyEvent(s)`, `StepEntry`, `Tick`, `FailExhausted`). The monitor context is a class, and its methods are proved against those functions.
- The timeout loop is proved for every order in which the hash map might be visited.

**Emulated device** (`src/device/emulated/mod.rs`). Four rings. At initialisation each ring's physical address is written into a pair of 32-bit CSRs (control/status registers). A control descriptor takes one ring slot. A work descriptor takes three slots, or four. A work completion is decoded from one or two slots.
- Files: `emulated.dfy`, with the ring contract in `ringbuf.dfy` and the descriptors in `descriptors.dfy`.

**Submission path** (`src/lib.rs`). The file covers five things:
- MSN and control-operation-id allocation with wrapping counters;
- PSN (packet sequence number) reservation on the queue pair;
- the total length of a write;
- `write`, `read`, `do_ctrl_op` and `set_network`;
- when an operation context is registered relative to the push onto the ring.

It is modelled in `driver.dfy`.

**Opcode tables** (`driver/dtld_opcode.c`). The table of packet opcodes gives, for every transport (RC, UC, RD, UD) and operation, three things: its header mask, its header length and the offset of each header. There is also the table of work-request opcodes.
- Files: `opcode.dfy` (the tables as data), `opcode_lemmas.dfy` (their consistency).
- Header sizes are a parameter. The layout facts are therefore proved for every choice of sizes.

`types.dfy` holds the shared types: fixed-width integers, `wrapping_add` and the error kinds.

## Model

| member | source | states |
|---|---|---|
| Types.SetError | rust_driver/src/retry.rs:178-179 | only a running context becomes `Failed(reason)`; a resolved context keeps its result |
| Types.WrappingAdd16 | src/lib.rs:461 | the 16-bit `fetch_add` of `next_msn`: the result is congruent to the sum mod 2^16, and equal to it when the sum fits |
| Types.WrappingAdd32 | src/lib.rs:457 | the 32-bit `fetch_add` of `next_ctrl_op_id`: the result is congruent to the sum mod 2^32, and equal to it when the sum fits |
| Types.PsnAdd | src/lib.rs:355 | `wrapping_add` on a PSN: the result is congruent to the sum mod 2^24, and equal to it when the sum fits |
| Retry.AsMillis | rust_driver/src/retry.rs:50 | the milliseconds are the duration rounded down: `ms` ms ≤ duration < `ms+1` ms |
| Retry.NewRetryConfig | rust_driver/src/retry.rs:39-54 | flag, budget and interval are kept; the timeout is the given duration in whole milliseconds, rounded down |
| Retry.ApplyEvent | rust_driver/src/retry.rs:129-160 | disabled: table unchanged; `Retry` stores a fresh context (full budget, deadline now + timeout) under its key, replacing any; `Cancel` removes its key, and changes nothing if the key is absent; every other key is untouched |
| Retry.ApplyEvents | rust_driver/src/retry.rs:129-138 | the drain of `check_receive`: with retrying disabled the table is unchanged, and the only keys it gains are those of received `Retry` events |
| Retry.ApplyEventsSnoc | rust_driver/src/retry.rs:129-138 | receiving one more event applies it to the table the earlier ones left |
| Retry.ApplyEventsAppend | rust_driver/src/retry.rs:129-138 | draining events `a` then `b` equals draining `a + b` |
| Retry.StepEntry | rust_driver/src/retry.rs:166-173 | a due entry with budget left loses one unit and gets deadline now + timeout; any other entry is unchanged; the descriptor is kept |
| Retry.TickAsWritten | rust_driver/src/retry.rs:163-188 | the whole of `check_timeout` as written: every kept entry is the stepped one; when no entry is exhausted every entry is kept, otherwise exactly those whose counter after the step is non-zero |
| Retry.WithBudget | rust_driver/src/retry.rs:186-188 | keeps exactly the entries whose counter is non-zero, values unchanged |
| Retry.FailKeys | rust_driver/src/retry.rs:175-182 | same key set; `set_error("exceed max retry count")` on exactly the listed keys that have a user context |
| Retry.FailExhausted | rust_driver/src/retry.rs:175-182 | the user contexts after a check: same key set; `set_error` on exactly the contexts whose entry is found exhausted; every other context unchanged |
| Retry.DescriptorsOf | rust_driver/src/retry.rs:171 | the descriptors of the listed keys, one per key, in order |
| Retry.Channel.constructor | rust_driver/src/retry.rs:227 | an empty queue with a live receiver |
| Retry.Channel.Send | rust_driver/src/retry.rs:121-125 | fails exactly when the receiver is gone; otherwise appends the event |
| Retry.Channel.TryRecv | rust_driver/src/retry.rs:130 | returns the oldest event and removes it; returns nothing exactly when the queue is empty |
| Retry.RetryMonitor.Subscribe | rust_driver/src/retry.rs:121-125 | `Ok` and the event queued exactly when the receiver is alive; otherwise `ResourceNoAvailable` and the queue unchanged |
| Retry.RetryMonitor.constructor | rust_driver/src/retry.rs:108-119 | the handle keeps the given sending end of the channel |
| Retry.RetryMonitorContext.constructor | rust_driver/src/retry.rs:83-89 | an empty table and nothing sent, with the given channel, user contexts and configuration |
| Retry.RetryMonitorContext.HandleRetry | rust_driver/src/retry.rs:140-152 | the table gets a fresh context under the record's key; `duplicate` is true exactly when the key was already present |
| Retry.RetryMonitorContext.HandleCancel | rust_driver/src/retry.rs:154-160 | the key is removed; `missing` is true exactly when it was absent |
| Retry.RetryMonitorContext.CheckReceive | rust_driver/src/retry.rs:129-138 | the channel is drained, and the table equals `ApplyEvents` of the old table over the queued events, in order |
| Retry.TimeoutPass | rust_driver/src/retry.rs:164-185 | the loop in any visiting order: every entry stepped; exactly the exhausted entries fail their user operation; each due entry with budget is resent exactly once; `has_removed` holds exactly when some entry was exhausted |
| Retry.RetryMonitorContext.CheckTimeoutAsWritten | rust_driver/src/retry.rs:162-189 | `check_timeout` as the source performs it: table = `TickAsWritten` (after an exhaustion, every zero-counter entry dropped); user contexts = `FailExhausted`; sent log extended by the descriptor of each key of `ResendKeys`, each key once |
| Retry.RetryMonitorContext.CheckTimeout | rust_driver/src/retry.rs:162-189 | the corrected removal that the Findings row names: table = `Tick` (exactly the exhausted entries removed, others stepped); user contexts = `FailExhausted`; sent log extended by the descriptor of each key of `ResendKeys`, each key once |
| Retry.Tick | rust_driver/src/retry.rs:166-185 | the corrected check that the Findings row names: an entry is kept exactly when it is not exhausted, and every kept entry is the stepped one |
| Retry.RetryMonitorContext.StepAsWritten | rust_driver/src/retry.rs:192-199 | one iteration as the source performs it: channel drained; table = `TickAsWritten(ApplyEvents(...))`; user contexts failed accordingly; the sent log extended by exactly the descriptors of the keys due with budget, one each, in the order of the resends |
| Retry.RetryMonitorContext.Step | rust_driver/src/retry.rs:192-199 | one iteration with the corrected removal: channel drained; table = `Tick(ApplyEvents(...))`; user contexts failed accordingly; the sent log extended by exactly the descriptors of the keys due with budget, one each, in the order of the resends |
| Retry.Visit | rust_driver/src/retry.rs:166-185 | one iteration of the loop on one key keeps the loop invariant, for each of its three branches |
| Retry.VisitedAll | rust_driver/src/retry.rs:185-186 | when no entry is left to visit, the invariant gives `Stepped`, `ExhaustedKeys` and `ResendKeys` |
| Retry.FailKeysAdd | rust_driver/src/retry.rs:177-182 | failing one more key is one more `set_error` on its user context, if it has one |
| Retry.DescriptorsSnoc | rust_driver/src/retry.rs:171 | resending one more key appends exactly its descriptor |
| Retry.DistinctKeysCount | rust_driver/src/retry.rs:166 | a repetition-free list of a set's keys has the set's size |
| Retry.VisitStepsEntry | rust_driver/src/retry.rs:167-170 | visiting a key steps exactly that entry |
| Retry.VisitFails | rust_driver/src/retry.rs:174-182 | visiting an exhausted key adds it to the failed keys |
| Retry.VisitKeepsFailed | rust_driver/src/retry.rs:167 | visiting a key that is not exhausted leaves the failed keys as they are |
| Retry.VisitResends | rust_driver/src/retry.rs:168-173 | visiting a due key with budget appends it, without repetition, to the resend order |
| Retry.VisitKeepsResent | rust_driver/src/retry.rs:167-168 | visiting any other key leaves the resend order as it is |
| RetryLemmas.DisabledIgnoresEvents | rust_driver/src/retry.rs:131 | with retrying disabled, any sequence of events leaves the table unchanged |
| RetryLemmas.UntouchedKeyUnchanged | rust_driver/src/retry.rs:142-156 | events for other keys neither add, remove nor change an entry |
| RetryLemmas.LastEventDecides | rust_driver/src/retry.rs:129-160 | the last event for a key decides it: after a last `Retry` the key holds a fresh context; after a last `Cancel` it is absent |
| RetryLemmas.ReceiveOneRetry | rust_driver/src/retry.rs:140-152 | one received `Retry` stores exactly a fresh context under its key |
| RetryLemmas.TickRemovesExactlyExhausted | rust_driver/src/retry.rs:175 | a check removes exactly the exhausted entries, adds none, and steps the rest |
| RetryLemmas.TickSpendsBudget | rust_driver/src/retry.rs:168-170 | a kept entry's new counter plus its resend in this pass (0 or 1) equals its old counter; the descriptor is kept; a resend moves the deadline to now + timeout |
| RetryLemmas.FailedOnlyWhenExhausted | rust_driver/src/retry.rs:174-182 | a user operation changes exactly when it is running and its entry is exhausted, and then it becomes `Failed("exceed max retry count")` |
| RetryLemmas.PollBeforeDeadlineIsNoop | rust_driver/src/retry.rs:167 | a check before every deadline changes no entry, resends nothing and fails nothing |
| RetryLemmas.ResendsBoundedByBudget | rust_driver/src/retry.rs:168-170 | over any sequence of checks with the corrected removal, a descriptor is resent at most as often as its entry's budget |
| RetryLemmas.ResendsBoundedByBudgetAsWritten | rust_driver/src/retry.rs:166-188 | the same bound over any sequence of checks as the source performs them, `retain` included |
| RetryLemmas.Every | rust_driver/src/retry.rs:197 | the check times: `count` of them, the i-th at start + i·period |
| RetryLemmas.SoleEntryAsWritten | rust_driver/src/retry.rs:166-188 | on a table of at most one entry the source's `retain` and the corrected removal give the same table |
| RetryLemmas.SoleEntryPollsAgree | rust_driver/src/retry.rs:166-188 | hence on such a table repeated checks give the same tables and resend counts under either removal |
| RetryLemmas.SoleEntryTick | rust_driver/src/retry.rs:166-188 | a sole entry checked at its deadline is resent if it has budget, and exhausted and removed if not; the check as written gives the same table |
| RetryLemmas.SoleEntryFails | rust_driver/src/retry.rs:177-179 | a sole exhausted entry fails its running user operation |
| RetryLemmas.SoleEntrySpendsBudget | rust_driver/src/retry.rs:166-173 | `c` checks one timeout apart spend a budget of `c` in exactly `c` resends (corrected removal) |
| RetryLemmas.SoleEntrySpendsBudgetAsWritten | rust_driver/src/retry.rs:166-188 | the same `c` resends and final entry under the checks as the source performs them |
| RetryLemmas.SoleEntryLifecycle | rust_driver/src/retry.rs:166-188 | a sole entry with budget `c`: `c` resends, then the next check removes it and fails its running operation (corrected removal) |
| RetryLemmas.SoleEntryLifecycleAsWritten | rust_driver/src/retry.rs:166-188 | the same life of a sole entry under the checks as the source performs them |
| RetryLemmas.RetryLifecycle | rust_driver/src/retry.rs:140-189 | one watched descriptor, with the corrected removal: receiving its `Retry` arms the entry; `maxRetry` resends at successive timeouts; the next check removes the entry and fails the user operation |
| RetryLemmas.RetryLifecycleAsWritten | rust_driver/src/retry.rs:140-189 | the same life under the checks as the source performs them (`retain` as written) |
| RetryLemmas.MonitorTestScenario | rust_driver/src/retry.rs:236-289 | the module's test: budget 3 and timeout 1000 ms give resends at 1000, 2000 and 3000 ms, then failure and removal at 4000 ms, both for the corrected checks and for the checks as the source performs them |
| RetryLemmas.AsWrittenIsIntendedMinusCollateral | rust_driver/src/retry.rs:186-188 | the source's `retain` equals the removal of exactly the exhausted entries, minus the collateral entries; the two agree exactly when there is no collateral entry |
| RetryLemmas.CollateralNeverFailed | rust_driver/src/retry.rs:186-188 | a collateral entry is dropped from the table, yet its user operation is not failed |
| RetryLemmas.RetainDropsUnfailedEntry | rust_driver/src/retry.rs:166-188 | a concrete table on which the source leaves a running operation with no entry; the corrected removal keeps that entry |
| Emulated.CsrPairsDistinct | src/device/emulated/mod.rs:85-123 | each ring has its own two registers: no register is shared between rings or between the two halves |
| Emulated.SplitRecombines | src/device/emulated/mod.rs:88-92 | low half `& 0xFFFF_FFFF` and high half `>> 32` recombine to the address, and two addresses with the same halves are equal |
| Emulated.PhysAddr | src/device/emulated/mod.rs:154-156 | the physical address plus the heap start is the virtual address |
| Emulated.PhysAddrIsOffset | src/device/emulated/mod.rs:154-156 | translation subtracts the heap start: heap start maps to 0, and distances and order are kept |
| Emulated.CsrValueAppend | src/device/emulated/mod.rs:150-152 | a later register write hides an earlier one |
| Emulated.RingCsrValues | src/device/emulated/mod.rs:85-93 | programming one ring sets exactly that ring's two registers, to the two halves |
| Emulated.CsrValueOfBatches | src/device/emulated/mod.rs:85-123 | after four batches of writes, the last batch that writes a register decides its value |
| Emulated.InitBatchValues | src/device/emulated/mod.rs:85-123 | a ring's registers get the halves of its address when only its own batch writes them |
| Emulated.InitProgramsEveryRing | src/device/emulated/mod.rs:85-123 | after `init` every ring's register pair holds the halves of that ring's physical address, and these recombine exactly |
| Emulated.WorkParts | src/device/emulated/mod.rs:194-208 | a work descriptor takes parts 0, 1, 2, and part 3 only when `desc_cnt == 4` |
| Emulated.Admitted | src/device/emulated/mod.rs:202-207 | how many parts fit: all of them when there is room; otherwise exactly up to the ring's depth |
| Emulated.CtrlPush | src/device/emulated/mod.rs:159-173 | poisoned lock: `LockPoisoned`, ring unchanged; a free slot: `Ok` and the descriptor appended; full ring: `Overflow`, ring unchanged |
| Emulated.WorkPush | src/device/emulated/mod.rs:191-212 | `Ok` exactly when every part fits, and then all parts are appended in order; otherwise `Overflow`, with the ring filled by a strict prefix of the parts |
| Emulated.WorkPop | src/device/emulated/mod.rs:214-245 | an empty ring gives the read error; a first slot that decodes completely pops exactly that descriptor and consumes one slot; an incomplete first slot with nothing after it gives the read error and consumes one; otherwise the second slot is consumed and the result is the descriptor the resumed decode gives, or the `todo!()` path exactly when that decode is still incomplete |
| Emulated.EmulatedDevice.Init | src/device/emulated/mod.rs:60-126 | four empty, distinct rings of the given depth; the register log is the eight writes of the four rings' physical addresses, low half first |
| Emulated.EmulatedDevice.ProgramRing | src/device/emulated/mod.rs:85-93 | appends the low-half write, then the high-half write |
| Emulated.EmulatedDevice.WriteCsr | src/device/emulated/mod.rs:150-152 | appends one register write to the log |
| Emulated.EmulatedDevice.PushCtrl | src/device/emulated/mod.rs:159-173 | result and new ring equal `CtrlPush` of the old ring |
| Emulated.EmulatedDevice.PopCtrl | src/device/emulated/mod.rs:175-189 | poisoned: `LockPoisoned`; empty ring: the read error; otherwise the oldest slot, decoded and consumed |
| Emulated.EmulatedDevice.PushWork | src/device/emulated/mod.rs:191-212 | result and new ring equal `WorkPush` of the old ring |
| Emulated.EmulatedDevice.PopWork | src/device/emulated/mod.rs:214-245 | poisoned: `LockPoisoned`; otherwise result and slots consumed equal `WorkPop` of the old ring |
| RingBuf.Ring.constructor | src/device/emulated/mod.rs:67-74 | an empty ring of the given depth whose lock is not poisoned |
| RingBuf.Ring.WriterNext | src/device/emulated/mod.rs:167 | succeeds exactly when the ring is not full, and then appends the slot |
| RingBuf.Ring.ReaderNext | src/device/emulated/mod.rs:182-184 | returns the oldest slot and consumes it; returns nothing exactly when the ring is empty |
| Driver.SgeList | src/lib.rs:362-367 | `sge0` first, then each present optional SGE: 1 to 4 elements, none invented |
| Driver.SumLensAppend | src/lib.rs:332-335 | the byte count of a concatenation is the sum of the byte counts |
| Driver.SgeListBytes | src/lib.rs:332-335 | the bytes of the SGE list are the four lengths `total_len` adds |
| Driver.TotalLen | src/lib.rs:332-335 | three wrapping `u32` additions give the exact sum of the four lengths reduced once mod 2^32 |
| Driver.TotalLenIsSumOfSges | src/lib.rs:332-335 | `total_len` is the byte count of the descriptor's SGE list mod 2^32, and exactly that count whenever it fits |
| Driver.WrapAbsorbs32 | src/lib.rs:332-335 | reducing a partial sum early does not change the reduced total |
| Driver.NextMsnStep | src/lib.rs:460-462 | one `get_msn` moves the counter from the i-th MSN to the next |
| Driver.MsnsDistinctWithinWindow | src/lib.rs:460-462 | fewer than 2^16 consecutive `get_msn` calls never return the same MSN twice |
| Driver.MsnRepeatsAfterWindow | src/lib.rs:460-462 | 2^16 calls later the same MSN comes back |
| Driver.PsnReservationsAdjacent | src/lib.rs:351-357 | two successive requests on one queue pair get adjacent PSN ranges |
| Driver.PsnAddTwice | src/lib.rs:355 | advancing a PSN by `a` and then by `b` is advancing it by `a + b` |
| Driver.PsnRangeDistinct | src/lib.rs:351-357 | a reservation of at most 2^24 packets never reuses a PSN |
| Driver.DescCommon | src/lib.rs:338-358 | every common field: raddr, rkey, flags, total length and MSN as given; destination QPN, IP, MAC, PMTU and QP type copied from the queue pair; the first PSN equal to its current `sending_psn` |
| Driver.Submit | src/lib.rs:362-378 | a build error is returned with nothing changed; ring full or lock poisoned gives `DeviceBusy`; a context is registered only after the whole descriptor is on the ring; `Ok(msn)` exactly when the descriptor fits and the MSN was free; otherwise `CreateOpCtxFailed`, with the context still replaced |
| Driver.Device.constructor | src/lib.rs:284-309 | no queue pair and no context, both counters at 0 |
| Driver.Device.GetMsn | src/lib.rs:460-462 | returns the counter and advances it with 16-bit wrap |
| Driver.Device.GetCtrlOpId | src/lib.rs:456-458 | returns the counter and advances it with 32-bit wrap |
| Driver.Device.SendWorkDesc | src/lib.rs:551-560 | the ring as `WorkPush` leaves it; every push error becomes `DeviceBusy` |
| Driver.Device.Write | src/lib.rs:319-379 | the MSN is always spent; an unknown queue pair gives `InvalidQpn` with nothing else changed; otherwise `sending_psn` advances by `packet_cnt` and result, ring and context map are `Submit` of the built descriptor |
| Driver.Device.Read | src/lib.rs:381-431 | as `Write`, with one SGE, total length equal to its length, and exactly one PSN reserved |
| Driver.Device.DoCtrlOp | src/lib.rs:433-454 | the context is always inserted first; a used id gives `OpIdUsed(id)` and pushes nothing; otherwise the ring is as `CtrlPush` leaves it, and a push error becomes `DeviceBusy` |
| Driver.Device.SetNetwork | src/lib.rs:518-533 | a fresh op id carries the `SetNetworkParam` descriptor; the errors of `do_ctrl_op` (`OpIdUsed`, `DeviceBusy`) are passed through; after a successful control op, `Ok` exactly when the awaited result is `Some(true)`, otherwise `SetNetworkParamFailed` |
| Opcode.Code | driver/dtld_opcode.c:106-107 | every opcode number is below 0x80 (the table's size) |
| Opcode.Lookup | driver/dtld_opcode.c:106-938 | `dtld_opcode[c]`: nothing at or beyond 0x80; an entry exactly when `c` decodes to an opcode its transport defines; every entry lists BTH at offset 0 |
| Opcode.Info | driver/dtld_opcode.c:106-938 | the packet-opcode table: an entry for exactly the opcodes its transport defines, each listing BTH at offset 0 |
| Opcode.RCInfo | driver/dtld_opcode.c:107-380 | the RC entries: one for every operation, each listing BTH at offset 0 |
| Opcode.UCInfo | driver/dtld_opcode.c:383-523 | the UC entries: exactly the sends and writes without invalidation, each listing BTH at offset 0 |
| Opcode.RDInfo | driver/dtld_opcode.c:526-907 | the RD entries: every operation but the sends with invalidation, each listing BTH at offset 0 |
| Opcode.UDInfo | driver/dtld_opcode.c:910-938 | the UD entries: exactly SEND_ONLY and SEND_ONLY_WITH_IMMEDIATE, each listing BTH at offset 0 |
| OpcodeLemmas.CodeRoundTrip | driver/dtld_opcode.c:106-938 | an opcode's number decodes back to it, and a number decodes only to the opcode that encodes it |
| OpcodeLemmas.OperationCodeRoundTrip | driver/dtld_opcode.c:106-938 | the same round trip for the operation's low five bits |
| OpcodeLemmas.LookupByCode | driver/dtld_opcode.c:106-938 | indexing the table by an opcode's number finds that opcode's entry |
| OpcodeLemmas.MaskFollowsRules | driver/dtld_opcode.c:106-938 | every entry's mask holds exactly the bits the header-presence and classification rules give for its opcode |
| OpcodeLemmas.RCSendsMask | driver/dtld_opcode.c:107-172 | `MaskFollowsRules` for the RC sends |
| OpcodeLemmas.RCWritesMask | driver/dtld_opcode.c:173-247 | `MaskFollowsRules` for the RC writes |
| OpcodeLemmas.RCOthersMask | driver/dtld_opcode.c:248-380 | `MaskFollowsRules` for the other RC operations |
| OpcodeLemmas.UCMask | driver/dtld_opcode.c:383-523 | `MaskFollowsRules` for UC |
| OpcodeLemmas.RDSendsMask | driver/dtld_opcode.c:526-633 | `MaskFollowsRules` for the RD sends |
| OpcodeLemmas.RDWritesMask | driver/dtld_opcode.c:634-758 | `MaskFollowsRules` for the RD writes |
| OpcodeLemmas.RDOthersMask | driver/dtld_opcode.c:759-907 | `MaskFollowsRules` for the other RD operations |
| OpcodeLemmas.UDMask | driver/dtld_opcode.c:910-938 | `MaskFollowsRules` for UD |
| OpcodeLemmas.FlagsFollowNames | driver/dtld_opcode.c:106-938 | FIRST/MIDDLE/LAST/ONLY packets carry exactly the matching START/MIDDLE/END flags; an entry is a request exactly when it is not an acknowledge; immediate data implies COMP; read requests and acknowledges carry no payload |
| OpcodeLemmas.RulesFollowNames | driver/dtld_opcode.c:106-938 | the same facts stated on the rules alone |
| OpcodeLemmas.LayoutIsPacked | driver/dtld_opcode.c:106-938 | every entry lists offsets for exactly BTH, the headers of its mask, and the payload (except RD acknowledges); each offset is the packed one; BTH is at 0; length = BTH size + the sizes of the headers present = the payload offset |
| OpcodeLemmas.RCKeys | driver/dtld_opcode.c:107-380 | the headers RC entries list offsets for |
| OpcodeLemmas.RCSendsKeys | driver/dtld_opcode.c:107-172 | the same, for the RC sends |
| OpcodeLemmas.RCWritesKeys | driver/dtld_opcode.c:173-247 | the same, for the RC writes |
| OpcodeLemmas.RCOthersKeys | driver/dtld_opcode.c:248-380 | the same, for the other RC operations |
| OpcodeLemmas.UCKeys | driver/dtld_opcode.c:383-523 | the headers UC entries list offsets for |
| OpcodeLemmas.RDKeys | driver/dtld_opcode.c:526-907 | the headers RD entries list offsets for (no payload offset on acknowledges) |
| OpcodeLemmas.RDSendsKeys | driver/dtld_opcode.c:526-633 | the same, for the RD sends |
| OpcodeLemmas.RDWritesKeys | driver/dtld_opcode.c:634-758 | the same, for the RD writes |
| OpcodeLemmas.RDOthersKeys | driver/dtld_opcode.c:759-907 | the same, for the other RD operations |
| OpcodeLemmas.UDKeys | driver/dtld_opcode.c:910-938 | the headers UD entries list offsets for |
| OpcodeLemmas.RCLayout | driver/dtld_opcode.c:107-380 | RC offsets and lengths are the packed layout |
| OpcodeLemmas.RCPlainSendsLayout | driver/dtld_opcode.c:107-136 | the same, for RC plain sends |
| OpcodeLemmas.RCPlainWritesLayout | driver/dtld_opcode.c:173-204 | the same, for RC plain writes |
| OpcodeLemmas.RCSendsWithImmediateLayout | driver/dtld_opcode.c:137-172 | the same, for RC sends with immediate data |
| OpcodeLemmas.RCWritesWithImmediateLayout | driver/dtld_opcode.c:205-247 | the same, for RC writes with immediate data |
| OpcodeLemmas.RCSendsWithInvalidateLayout | driver/dtld_opcode.c:356-380 | the same, for RC sends with invalidation |
| OpcodeLemmas.RCReadResponsesLayout | driver/dtld_opcode.c:260-304 | the same, for RC read responses |
| OpcodeLemmas.RCReadsAndAtomicsLayout | driver/dtld_opcode.c:248-355 | the same, for RC read and atomic requests |
| OpcodeLemmas.RCAcknowledgesLayout | driver/dtld_opcode.c:305-331 | the same, for RC acknowledges |
| OpcodeLemmas.UCLayout | driver/dtld_opcode.c:383-523 | UC offsets and lengths are the packed layout |
| OpcodeLemmas.UCPlainSendsLayout | driver/dtld_opcode.c:383-412 | the same, for UC plain sends |
| OpcodeLemmas.UCPlainWritesLayout | driver/dtld_opcode.c:449-480 | the same, for UC plain writes |
| OpcodeLemmas.UCSendsWithImmediateLayout | driver/dtld_opcode.c:413-448 | the same, for UC sends with immediate data |
| OpcodeLemmas.UCWritesWithImmediateLayout | driver/dtld_opcode.c:481-523 | the same, for UC writes with immediate data |
| OpcodeLemmas.RDLayout | driver/dtld_opcode.c:526-907 | RD offsets and lengths are the packed layout |
| OpcodeLemmas.RDPlainSendsLayout | driver/dtld_opcode.c:526-573 | the same, for RD plain sends |
| OpcodeLemmas.RDPlainWritesLayout | driver/dtld_opcode.c:634-686 | the same, for RD plain writes |
| OpcodeLemmas.RDSendsWithImmediateLayout | driver/dtld_opcode.c:574-633 | the same, for RD sends with immediate data |
| OpcodeLemmas.RDWritesWithImmediateLayout | driver/dtld_opcode.c:687-758 | the same, for RD writes with immediate data |
| OpcodeLemmas.RDReadResponsesLayout | driver/dtld_opcode.c:780-837 | the same, for RD read responses |
| OpcodeLemmas.RDReadsAndAtomicsLayout | driver/dtld_opcode.c:759-907 | the same, for RD read and atomic requests |
| OpcodeLemmas.RDAcknowledgesLayout | driver/dtld_opcode.c:838-865 | the same, for RD acknowledges |
| OpcodeLemmas.UDLayout | driver/dtld_opcode.c:910-938 | UD offsets and lengths are the packed layout |
| OpcodeLemmas.PackedRangesDisjoint | driver/dtld_opcode.c:106-938 | in the packed layout, two different extended headers that are present occupy disjoint byte ranges |
| OpcodeLemmas.PackedRangeWithin | driver/dtld_opcode.c:106-938 | in the packed layout, each extended header lies after BTH and within the header length |
| OpcodeLemmas.HeaderRangesDisjoint | driver/dtld_opcode.c:106-938 | in every entry, the extended headers of its mask lie within [BTH size, length) and do not overlap; with positive sizes, different headers start at different offsets |
| Opcode.WrInfo | driver/dtld_opcode.c:14-104 | the work-request table: it lists exactly the QP types the request is valid on, each with the request's class as its mask |
| Opcode.WrMask | driver/dtld_opcode.c:14-104 | the work-request table: a work request's mask on a QP type is its class where it is valid, and empty elsewhere |
| OpcodeLemmas.WrRestrictions | driver/dtld_opcode.c:14-104 | reads, reads with invalidation and atomics are valid on RC only; LSO nowhere; sends on GSI, RC, UC and UD; nothing on SMI or raw packet QPs |

## Left out

- The software device backend (`src/device/software/mod.rs`) is not part of this model.
- Driver.Device: the source's `DeviceInner` is generic over its adaptor and is built over a hardware, a software or an emulated device (lib.rs:190-207, 230, 258, 290). The model fixes the adaptor to the emulated device, so the rings behind `Write`, `Read`, `DoCtrlOp` and `SendWorkDesc` are the emulated device's. The rings of the hardware and software backends are not modelled.
- Threads, the stop flag and `sleep`: the monitor loop is modelled one iteration at a time (`StepAsWritten` as the source is written, `Step` with the corrected removal), and the checking interval only spaces the checks.
- The wall clock: `get_current_time` becomes a `now` parameter. One `now` serves a whole iteration (`Step`, `StepAsWritten`): the drain of events and the following `check_timeout`. The source reads the clock once per `Retry` (retry.rs:146) and again at the start of `check_timeout` (retry.rs:164), so events received during one iteration get their deadlines from a time no later than the check's.
- `flume`: modelled as the `Channel` class (a queue and a receiver-alive flag). Other channel failures and its concurrency are left out.
- Retry.RetryMonitor.Subscribe: `ResourceNoAvailable` does not carry the channel's error string.
- `next_timeout` and `retry_timeout` are `u128` with `arithmetic_side_effects` allowed: modelled as unbounded naturals, because a millisecond clock cannot reach 2^128.
- Log messages (`log::warn!`, `log::error!`, `debug!`): left out, because they change no state. The result of a resend's `send_work_desc` is ignored, as in the source; the sent descriptor is logged in `sent`.
- The RPC client, `read_csr` and the errors of `write_csr` and `get_phys_addr`: register writes are modelled as an append-only log that always succeeds.
- Descriptor serialisation: `write_0`…`write_3`, `ToHostWorkRbDesc::read`, and the rule behind `serialized_desc_cnt`. The slot count is a field (`descCnt`), and decoders are parameters.
- The `todo!()` of the work pop is an `Unimplemented` outcome, not a panic.
- Emulated.EmulatedDevice.PopCtrl: `LockPoisoned` and `Device` errors drop the lock's message string, except the fixed read-error text.
- Emulated.EmulatedDevice.Init: the rings' buffer addresses are parameters, because allocation is left out. A `usize` is taken to be 64 bits.
- `calculate_packet_cnt` and the descriptor builder are parameters of `Write` and `Read`.
- Driver.Submit, Driver.Device.Write, Driver.Device.Read: the source returns the `WriteOpCtx`/`ReadOpCtx` handle it registered; the model returns the MSN the context is registered under, because the handle's waiting and waking are not part of this model.
- Types.PsnAdd: `Psn::wrapping_add` is defined in code that is not part of this model; the PSN is assumed to be the 24-bit field of the base transport header, so it wraps at 2^24.
- `unwrap()` on poisoned locks, the `RwLock`s and the atomics: accesses are modelled as sequential.
- The MR table, the protection domains, the page table, the pollers, the responser and the packet checker of `init`: not part of this model.
- Release-build wrapping: `total_len` is modelled with wrapping `u32` additions. A debug build would panic on overflow instead.
- `wait_result` of `set_network` is a parameter.
- The operation context type (`op_ctx.rs`) is not part of this model. `SetError` takes `set_error` to resolve only a running context, and to leave a resolved one as it is.
- The `.name` strings of both opcode tables: not modelled, because they carry no layout information.
- Header sizes are kept symbolic (`HeaderSizes`). `dtld_hdr.h` and `ib_pack.h` are not part of this model. Opcode numbers follow the InfiniBand encoding: transport in bits 5-7 and operation in bits 0-4.
- The raw QP types of the work-request table are collapsed into `RawPacket`.
- The per-kind and per-family lemmas in `opcode_lemmas.dfy` are proof structure only. The families group operations by the headers they carry.

## Findings

| source | as written | input that shows it | evidently intended | confidence | as-written member | corrected member |
|---|---|---|---|---|---|---|
| rust_driver/src/retry.rs:186-188 | (`CheckTimeoutAsWritten`, `StepAsWritten`) once any entry is found exhausted, `retain(counter != 0)` drops every entry whose counter is now 0. That includes an entry whose last resend happened in this same pass, and one spent earlier but not yet due. Neither has its user operation failed, so it is left running with nothing to time it out | `CounterexampleTable` at now = 0 with timeout 1000 ms: key (0,0) has counter 0 and key (0,1) has counter 1, both due | remove exactly the entries found exhausted, whose user operations were failed ("remove it and tell user the error", line 175); `Step` performs one iteration with this removal | not executed | RetryLemmas.RetainDropsUnfailedEntry | Retry.RetryMonitorContext.CheckTimeout |
