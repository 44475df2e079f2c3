# tnvme test lifecycle and the LBA Out of Range test on metadata namespaces

This project models two parts of tnvme, a compliance test harness for NVM
Express controllers, and proves properties of the model in Dafny.

- **The test case lifecycle** (`test.cpp`). A `Test` keeps:
  - its device handle and targeted specification revision;
  - its group and test names;
  - its per-register error masks and its description.

  `Run` runs four steps in order:
  1. It clears the sticky PCI error bits by writing all ones to STS and to
     PXDS or AERUCES for each PXCAP or AERCAP capability entry.
  2. It dumps the kernel metrics.
  3. It runs the test body.
  4. It judges the outcome with a masked check of STS, the optional PCI
     status registers and the controller's CSTS. The check stops at the
     first failure.

  Every exception becomes the verdict `false`. A failing register is named
  by the least bit position where its value differs from its masked copy
  (`ReportOffendingBitPos`), exactly so for positions up to 30; see
  "## Findings" for the positions above.
- **The LBA Out of Range test on namespaces with metadata**
  (`GrpNVMWriteCmd/lbaOutOfRangeMeta_r10b.cpp`, NVM Express revision 1.0b,
  sections 4 and 6). The test disables the controller completely and
  creates the admin queues. Then, for every namespace with metadata, it:
  - prepares the controller and creates an I/O queue pair;
  - sizes the write payload by the namespace's metadata layout;
  - writes two blocks starting at LBA NSZE - 1 and then at NSZE. Each write
    goes through a strict submit-and-reap exchange that must end with
    status LBA Out of Range;
  - writes two blocks starting at NSZE - 2, which must succeed.

The modules:
- `BitScan` (`bit_scan.dfy`): the bit scan. It has two versions: the source's
  scan with its `int`-width shift, and the scan with true 64-bit masks.
- `Platform` (`platform.dfy`): the register interface. A `Device` class
  records every write, read, metrics dump and body run, in order.
- `TestCase` (`test_case.dfy`): the `Test` class with its lifecycle methods,
  and the functions that specify them.
- `LbaOutOfRangeMeta` (`lba_out_of_range_meta.dfy`): the write test.
  - The calls the test makes on the controller configuration, the queues
    and the framework are recorded on a `Host`, in order: the controller
    state changes, the admin queue creation, the interrupt vector count, the
    command-set selection, the I/O entry sizes, the queue creations, the
    metadata allocation size, and, per write, the send, the submission
    queue dump, the doorbell, the wait, the completion queue dumps, the
    reap and the final send-and-reap. The calls listed under "Left out" are
    not recorded.
  - Each method is proved to record the calls, and return the outcome,
    that a trace function prescribes (`ExchangeTrace`, `SetupTrace`,
    `PayloadTrace`, `WritesTrace`, `ScenarioTrace`).
  - Lemmas state what those traces promise.

Hardware behaviour becomes inputs, and so do the framework's answers:
- register values, and which reads fail;
- the capability list;
- entries already in a completion queue;
- interrupt counts;
- the outcome of the wait;
- the status reaped;
- whether a state change or allocation is accepted;
- the identify data.

An exception is modelled as a `Threw` outcome with the reason it carries, or
as a `Completion` value for the base test's run.

A set bit in an error mask names an error bit that must be clear: the code
fails a register when `value != value & ~mask` (test.cpp:147-148), which
`TestCase.CleanMeansNoMaskedBit` proves is `value & mask != 0`.

## Model

| member | source | states |
|---|---|---|
| TestCase.Test.constructor | test.cpp:23-34 | a test on a valid handle keeps fd, revision, group name, test name and error masks as given |
| TestCase.Test.Create | test.cpp:23-34 | construction raises the framework exception (None) exactly when fd < 0; otherwise the five arguments are stored unchanged |
| TestCase.Test.Copy | test.cpp:46-56 | the copy constructor copies exactly the six fields, description included |
| TestCase.Test.Assign | test.cpp:59-74 | assignment overwrites exactly the six fields with the other test's values |
| TestCase.Test.Run | test.cpp:77-112 | true exactly when the metrics dump and the body return normally and every checked register is healthy; every exception becomes false; the effects are the reset, the dump, the body, then the check's reads |
| TestCase.RunOrder | test.cpp:77-112 | the reset comes first and the metrics dump next; the body runs exactly when the dump returned; no register is read unless both returned normally, and reads come after the body |
| TestCase.Test.ResetStatusRegErrors | test.cpp:115-131 | writes 0xffff to STS, then per capability entry 0xffff to PXDS (PXCAP) or 0xffffffff to AERUCES (AERCAP), in list order, and nothing else |
| TestCase.ResetWritesCheckedRegs | test.cpp:115-131 | the reset writes exactly the registers the check reads except CSTS, in the same order, each with all ones of its width |
| TestCase.CapWritesMatch | test.cpp:125-130 | the capability loop writes one register per PXCAP or AERCAP entry, matching the optional registers in order |
| TestCase.ResetSparesCsts | test.cpp:115-131 | every effect of the reset is a write, and none is to CSTS |
| TestCase.CapRegs | test.cpp:157-178 | the optional registers contributed by the capability list, at most one per entry |
| TestCase.CapRegsPresent | test.cpp:157-178 | the optional registers are PXDS and AERUCES only; PXDS is checked exactly when PXCAP is listed, AERUCES exactly when AERCAP is |
| TestCase.CleanMeansNoMaskedBit | test.cpp:147-148 | the source's comparison `value == value & ~mask` holds exactly when no bit of the mask is set in the value |
| TestCase.RegsPass | test.cpp:134-194 | the check passes exactly when every register in the list reads successfully and is clean under its mask |
| TestCase.FirstFailure | test.cpp:134-194 | a failing check has a first unhealthy register, and every register before it is healthy |
| TestCase.ReadsStopAtFirstFailure | test.cpp:134-194 | a passing check reads every register in order; a failing one reads exactly the registers up to and including the first failure |
| TestCase.ReadsMadeConcat | test.cpp:134-194 | the check over two lists in a row reads the first list, and the second only if the first passed |
| TestCase.RegsPassConcat | test.cpp:134-194 | the check over two lists in a row passes exactly when it passes over both |
| TestCase.CheckStep | test.cpp:145-153 | after a passing prefix, a healthy register adds only its read; an unhealthy one ends the check there, whatever follows |
| TestCase.CheckedRegsParts | test.cpp:144-191 | the check is STS, then the optional registers only when STS is healthy, then CSTS only when all of those pass |
| TestCase.CapRegsAppend | test.cpp:157-178 | the optional registers of two capability lists in a row are those of each, in order |
| TestCase.CapRegsSplit | test.cpp:157-178 | the optional registers of a list split at any point are those of the two parts, in order |
| TestCase.CapLoopStep | test.cpp:157-178 | entry i of the capability list contributes its register after those of the entries before it |
| TestCase.CapCheckStep | test.cpp:157-178 | one more capability entry adds the read of its register and passes or ends the check; an entry of another kind changes nothing |
| TestCase.Test.GetStatusRegErrors | test.cpp:134-194 | true exactly when every checked register (STS, optional registers, CSTS) reads and is clean; the reads made are those up to the first failure, in order |
| TestCase.Test.CheckCapRegisters | test.cpp:156-179 | the capability loop passes exactly when every optional register is healthy, and reads them in list order up to the first failure |
| TestCase.Test.CheckRegister | test.cpp:145-153 | one register check: false when the read fails or a masked error bit is set, after exactly one read |
| TestCase.OffendingBitIsMaskedError | test.cpp:147-151 | for a failing register, the position the message names is a bit set in both the register and its mask |
| TestCase.DifferenceIsMaskedError | test.cpp:147-151 | any position where a value and its masked copy differ is an error bit set in the value |
| TestCase.OffendingBitReported | test.cpp:147-151 | when that position is at most 30, the source's scan reports exactly it |
| TestCase.Test.RunCoreTest | test.cpp:211-215 | the base body returns normally, so a test that does not override it is judged by the register check alone |
| BitScan.ScanFrom | test.cpp:202-207 | the least position at or above i where the values differ, every lower position in range agreeing, or INT_MAX when there is none |
| BitScan.LeastDifferingBit | test.cpp:197-208 | over the full 64 bits: INT_MAX exactly when the values are equal, else a position where they differ with all lower bits equal |
| BitScan.ScanFromStart | test.cpp:202-207 | the 64-bit scan from 0 answers INT_MAX exactly for equal values, and otherwise the least differing bit |
| BitScan.ScanOfEqualValues | test.cpp:202-207 | equal values differ nowhere, so the scan answers INT_MAX |
| BitScan.ScanFindsEveryDifference | test.cpp:202-207 | a scan that finds no differing bit has compared equal values |
| BitScan.IntShiftValue | test.cpp:203 | for i at most 30 the mask `1 << i` is the integer 2^i, between 1 and 2^30, so the `int` shift neither overflows nor goes negative |
| BitScan.ScanAsWritten | test.cpp:202-207 | the source's scan answers INT_MAX or a position 0..63 where the values differ under the mask it used |
| BitScan.AgreesBelow31 | test.cpp:202-206 | the source's scan and the 64-bit scan report the same position whenever the least difference is at most 30; otherwise the source's scan reports nothing below 31 |
| BitScan.ReportedPosition | test.cpp:197-208 | equal values give INT_MAX; a least difference at most 30 is reported exactly; a higher one is reported as INT_MAX or some position 31..63 |
| BitScan.ReportOffendingBitPos | test.cpp:197-208 | the loop returns what the source's scan prescribes: INT_MAX for equal values, the least differing bit when it is at most 30, and INT_MAX or a position 31..63 otherwise |
| BitScan.HighBitMisreported | test.cpp:203 | with `1 << 31` sign-extended to 64 bits, a difference only at bit 32 is reported as position 31 |
| Platform.Device.Read | test.cpp:145-146 | a register read succeeds exactly for the registers the device answers, returns their value, and is recorded |
| LbaOutOfRangeMeta.Create | GrpNVMWriteCmd/lbaOutOfRangeMeta_r10b.cpp:32-48 | the test is built on the base test for revision 1.0b (None exactly when fd < 0), with its compliance citation and descriptions |
| LbaOutOfRangeMeta.NextIsrCount | GrpNVMWriteCmd/lbaOutOfRangeMeta_r10b.cpp:230 | `isrCountB4 + 1` in unsigned 32 bits: one more, wrapping to 0 at the top |
| LbaOutOfRangeMeta.Wrap64 | GrpNVMWriteCmd/lbaOutOfRangeMeta_r10b.cpp:161 | unsigned 64-bit subtraction: exact in range, wrapped by 2^64 below zero |
| LbaOutOfRangeMeta.SendCmdToHdw | GrpNVMWriteCmd/lbaOutOfRangeMeta_r10b.cpp:178-235 | the exchange records exactly the calls, and ends as, the exchange trace prescribes |
| LbaOutOfRangeMeta.NotEmptyNeverSends | GrpNVMWriteCmd/lbaOutOfRangeMeta_r10b.cpp:188-193 | a completion queue holding entries at entry is dumped and the exception raised; nothing is sent, rung, awaited or reaped |
| LbaOutOfRangeMeta.SendDumpRingWait | GrpNVMWriteCmd/lbaOutOfRangeMeta_r10b.cpp:195-204 | on an empty queue the first four calls are send, submission-queue dump, doorbell, wait, each once; later calls are only dumps and the reap |
| LbaOutOfRangeMeta.FailedWaitDumpsAndStops | GrpNVMWriteCmd/lbaOutOfRangeMeta_r10b.cpp:204-218 | a timed-out wait, or a count other than one, raises its exception after a completion-queue dump as the last call; nothing is reaped |
| LbaOutOfRangeMeta.ReapOnlyAfterOneCompletion | GrpNVMWriteCmd/lbaOutOfRangeMeta_r10b.cpp:219-226 | a reap happens exactly when the queue was empty and one completion arrived; it reaps one entry expecting LBA Out of Range, right after a queue dump |
| LbaOutOfRangeMeta.ExchangeSucceedsIff | GrpNVMWriteCmd/lbaOutOfRangeMeta_r10b.cpp:188-234 | the exchange returns exactly when the queue was empty, one completion arrived with LBA Out of Range and, with interrupts enabled on both the controller and the queue, the count grew by one (32-bit) |
| LbaOutOfRangeMeta.FailureFollowsCqDump | GrpNVMWriteCmd/lbaOutOfRangeMeta_r10b.cpp:188-218 | every failure of the exchange comes after a completion-queue dump |
| LbaOutOfRangeMeta.CreateIOQs | GrpNVMWriteCmd/lbaOutOfRangeMeta_r10b.cpp:239-274 | records the I/O entry sizes set to the low four bits of CQES and SQES, then the creation of the completion queue, then of the submission queue, and returns those queues |
| LbaOutOfRangeMeta.QueuePairAsCreated | GrpNVMWriteCmd/lbaOutOfRangeMeta_r10b.cpp:243-273 | both queues get ioqId and two entries, the SQ completes into the CQ, entry sizes are below 16, memory is discontiguous exactly when supported, and then holds 2 * 2^size bytes, between 2 and 64 KiB |
| LbaOutOfRangeMeta.SetUpNamespace | GrpNVMWriteCmd/lbaOutOfRangeMeta_r10b.cpp:108-123 | disable, one interrupt vector, the NVM command set, enable, then the entry sizes and the queue pair; a refused state change raises the exception with nothing after it, and the queues exist exactly on success |
| LbaOutOfRangeMeta.SizePayload | GrpNVMWriteCmd/lbaOutOfRangeMeta_r10b.cpp:127-154 | sizes the buffers by namespace type, as the payload trace prescribes |
| LbaOutOfRangeMeta.PayloadSizing | GrpNVMWriteCmd/lbaOutOfRangeMeta_r10b.cpp:134-154 | the payload is ready exactly for separate metadata (allocation accepted) or interleaved metadata; separate: 2 * block data and 2 * MS metadata; interleaved: 2 * (block data + MS) in one buffer |
| LbaOutOfRangeMeta.EdgeWrites | GrpNVMWriteCmd/lbaOutOfRangeMeta_r10b.cpp:155-173 | three writes to the namespace, each of two blocks (NLB 1, 0-based) with the sized buffers, starting at NSZE - 1, NSZE and NSZE - 2 |
| LbaOutOfRangeMeta.EdgesStraddleTheEnd | GrpNVMWriteCmd/lbaOutOfRangeMeta_r10b.cpp:159-173 | with NSZE at least 2, the first write starts on the last block and runs past it, the second starts past the end, the third covers the last two blocks |
| LbaOutOfRangeMeta.SmallNamespaceWraps | GrpNVMWriteCmd/lbaOutOfRangeMeta_r10b.cpp:161-171 | below two blocks `nsze - 2` wraps: the third write starts near 2^64 and lies outside the namespace |
| LbaOutOfRangeMeta.WriteEdges | GrpNVMWriteCmd/lbaOutOfRangeMeta_r10b.cpp:159-173 | issues the three writes in order, stopping at the first failure, as the writes trace prescribes |
| LbaOutOfRangeMeta.RunNamespace | GrpNVMWriteCmd/lbaOutOfRangeMeta_r10b.cpp:108-173 | one loop iteration: setup, payload and writes, stopping at the first failure |
| LbaOutOfRangeMeta.RunNamespaces | GrpNVMWriteCmd/lbaOutOfRangeMeta_r10b.cpp:106-174 | the namespace loop runs the iterations in order and stops at the first that raises the exception |
| LbaOutOfRangeMeta.RunCoreTest | GrpNVMWriteCmd/lbaOutOfRangeMeta_r10b.cpp:82-175 | the body: complete disable (refusal raises), admin queues of 5 entries, then the namespace loop, as the scenario trace prescribes |
| LbaOutOfRangeMeta.NamespaceStepAt | GrpNVMWriteCmd/lbaOutOfRangeMeta_r10b.cpp:106-107 | iteration i of the loop works on namespace i |
| LbaOutOfRangeMeta.SequenceStopsAtFailure | GrpNVMWriteCmd/lbaOutOfRangeMeta_r10b.cpp:106-174 | once an iteration raises the exception, later namespaces add no calls |
| LbaOutOfRangeMeta.SequenceDoneIff | GrpNVMWriteCmd/lbaOutOfRangeMeta_r10b.cpp:106-174 | a sequence of steps returns exactly when every step does |
| LbaOutOfRangeMeta.SequenceWrites | GrpNVMWriteCmd/lbaOutOfRangeMeta_r10b.cpp:106-174 | a sequence that returns submits the writes of its steps, step by step |
| LbaOutOfRangeMeta.EdgeWritesRunThrough | GrpNVMWriteCmd/lbaOutOfRangeMeta_r10b.cpp:159-173 | completed writes saw LBA Out of Range on both exchanges and success on the last, and submitted exactly the three edge writes |
| LbaOutOfRangeMeta.SetupRunsThrough | GrpNVMWriteCmd/lbaOutOfRangeMeta_r10b.cpp:108-123 | a completed setup makes its eight calls in order, the entry sizes included, and submits no write |
| LbaOutOfRangeMeta.NamespaceRunsThrough | GrpNVMWriteCmd/lbaOutOfRangeMeta_r10b.cpp:108-173 | a completed iteration was on a namespace with metadata, prepared the controller, set the entry sizes and created the queues first, saw both exchanges fail as expected, and submitted exactly its three edge writes |
| LbaOutOfRangeMeta.NamespacesDoneIff | GrpNVMWriteCmd/lbaOutOfRangeMeta_r10b.cpp:106-174 | the loop returns exactly when every iteration does |
| LbaOutOfRangeMeta.AllEdgeWritesAt | GrpNVMWriteCmd/lbaOutOfRangeMeta_r10b.cpp:106-173 | writes 3i .. 3i + 2 of the whole run are the edge writes of namespace i |
| LbaOutOfRangeMeta.FlatEdgeWrites | GrpNVMWriteCmd/lbaOutOfRangeMeta_r10b.cpp:106-173 | steps that each submitted their namespace's edge writes together submitted all of them, namespace by namespace |
| LbaOutOfRangeMeta.StepRunsThrough | GrpNVMWriteCmd/lbaOutOfRangeMeta_r10b.cpp:106-173 | a completed iteration i was on a namespace with metadata and submitted its edge writes |
| LbaOutOfRangeMeta.NamespacesRunThrough | GrpNVMWriteCmd/lbaOutOfRangeMeta_r10b.cpp:106-174 | a completed loop ran only on namespaces with metadata and submitted all their edge writes in order |
| LbaOutOfRangeMeta.ScenarioDoneIff | GrpNVMWriteCmd/lbaOutOfRangeMeta_r10b.cpp:82-175 | the body returns exactly when the complete disable is accepted and every iteration returns |
| LbaOutOfRangeMeta.ScenarioStartsWithDisable | GrpNVMWriteCmd/lbaOutOfRangeMeta_r10b.cpp:97-98 | the first call of the body is always the complete disable |
| LbaOutOfRangeMeta.ScenarioRunsThrough | GrpNVMWriteCmd/lbaOutOfRangeMeta_r10b.cpp:82-175 | a completed body wrote only to namespaces with metadata and submitted exactly the three edge writes of each, in namespace order |
| LbaOutOfRangeMeta.BodyCompletesIff | GrpNVMWriteCmd/lbaOutOfRangeMeta_r10b.cpp:82-175 | the base test's run sees a normal body exactly when the complete disable is accepted and every iteration returns |

## Left out

- Logging text is not modelled; it is diagnostics only. This includes the wrong description index in the AER failure message at test.cpp:174.
- Dump-file naming and `boost::format` strings are not modelled; each dump is a recorded event.
- The transport behind register reads and writes is an input. So are capability enumeration and the kernel metrics dump.
- Controller state changes are foreign calls; the model keeps only whether each is accepted. The interrupt scheme call and the command-set selection are recorded as calls only, since the source ignores what they return.
- Queue creation internals are foreign calls; only each creation, with the queue's parameters, is recorded.
- The identify lookups (`GetMetaNamespaces`, `GetIdentifyCmdNamspc`, `GetLBAFormat`, `IdentifyNamespace`, `SupportDiscontigIOQ`) are not recorded. Their answers are the inputs `Namespace` and `CtrlrIdent`.
- The write command's setters (`SetPrpBuffer`, `SetNSID`, `SetNLB`, `SetSLBA`), `AllocMetaBuffer` and the `MemBuffer` initialisation are not recorded as calls. Their values are folded into the `WriteCmd` each send records: NSID, SLBA, NLB and the data and metadata buffer sizes. The PRP bitmask and buffer addresses are not modelled.
- `ReapInquiry` at the start of each exchange is not recorded as a call. Its answer is the input `pending`.
- Framework exceptions from calls other than the state changes, the waits, the reaps and the final send-and-reap are not modelled: the model assumes these calls return normally. They are the queue creations (`Queues::CreateIOCQ/IOSQ{Discontig,Contig}ToHdw`), the admin queues' `Init(5)`, `Send`, `Ring`, the queue `Dump`s, `MemBuffer::Init` and `InitOffset1stPage`, `AllocMetaBuffer`, `SetPrpBuffer`, and `IO::ReapCE` failing other than by a status mismatch. So `ExchangeSucceedsIff`, `ScenarioDoneIff` and `BodyCompletesIff` state "exactly when" for a framework where these calls succeed; when one of them throws in the source, the body throws, which the base test's `Run` covers through its `body` input.
- The internals of `ReapInquiry`, `ReapInquiryWaitSpecify`, `Ring`, `Dump`, `IO::ReapCE` and `IO::SendAndReapCmd` are not modelled. The model keeps only their outcomes:
  - the pending count;
  - the wait result;
  - the reaped status;
  - the interrupt count after the reap, which `IO::ReapCE` updates in the source and which is an input here;
  - the success of the final send-and-reap.
- Real timing and the asynchrony of the wait (`DEFAULT_CMD_WAIT_ms`) are not modelled. The wait is an input: a timeout or a count.
- The test description texts are modelled as constants only. Nothing is proved about them.
- The `uint16_t` index of the capability loops in the reset and the check (test.cpp:125, test.cpp:157) is not modelled. On a list of 65536 entries or more the index would wrap to 0 while still below the list's length, and the loop would never end.
- LbaOutOfRangeMeta.SizePayload: LBADS above 30 is not modelled. The source's `1 << LBADS` is an `int` shift that no longer gives 2^LBADS there, and the model's `Lbads` type stops at 30.
- BitScan.ReportOffendingBitPos: the claims for differences whose least bit is 31 or higher are weaker than the loop's intent. At those positions the mask comes from the `int` shift, which is INT_MIN at 31 and undefined from 32 on (parameter `beyond`). The model proves only that the answer is INT_MAX or a position 31..63.
- The destructors and the LBA test's copy constructor and assignment are not modelled. They hold no logic beyond the base test's, which is modelled.

## Findings

| source | as written | input that shows it | evidently intended | confidence | as-written member | corrected member |
|---|---|---|---|---|---|---|
| test.cpp:203 | `bitMask = (1 << i)` shifts an `int`. `1 << 31` is INT_MIN (from C++14 on), which widens to 0xFFFFFFFF80000000; for i >= 32 the shift is undefined. The registers the check reads are at most 32 bits wide (the reset writes 0xffff and 0xffffffff), so through `GetStatusRegErrors` the misreport cannot occur; it affects `ReportOffendingBitPos` on its own, which in the test only feeds a log message. | val = 2^32, expectedVal = 0: they differ only at bit 32, but position 31 is reported | a 64-bit mask `(uint64_t)1 << i`, reporting the least differing bit over all 64 positions | not executed | BitScan.HighBitMisreported | BitScan.LeastDifferingBit |
