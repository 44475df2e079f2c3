/**
 * The LBA Out of Range test on namespaces with metadata (NVM Express
 * revision 1.0b, sections 4 and 6): for every namespace that carries
 * metadata, a write of two blocks is issued starting at LBA NSZE - 1 and at
 * LBA NSZE, each of which must complete with status LBA Out of Range, and
 * then at LBA NSZE - 2, which must succeed.
 *
 * The hardware and the framework calls around the test (queue internals,
 * controller state changes, identify data, interrupt counters) are inputs.
 * The calls that configure the controller, create queues and exchange
 * commands are recorded, in order, on a `Host`.
 */
module LbaOutOfRangeMeta {
  import TestCase
  import BitScan

  // ---------------------------------------------------------------------
  // Fixed-width integers of the source
  // ---------------------------------------------------------------------

  const TWO_TO_32: int := 0x1_0000_0000
  const TWO_TO_64: int := 0x1_0000_0000_0000_0000

  type u32 = x: int | 0 <= x < TWO_TO_32
  type u64 = x: int | 0 <= x < TWO_TO_64

  /** Unsigned 32-bit addition of one, as `isrCountB4 + 1` computes it. */
  function NextIsrCount(n: u32): (r: u32)
    ensures n < TWO_TO_32 - 1 ==> r == n + 1
    ensures n == TWO_TO_32 - 1 ==> r == 0
  {
    (n + 1) % TWO_TO_32
  }

  /** Unsigned 64-bit arithmetic, as `nsze - 1` and `nsze - 2` compute it. */
  function Wrap64(x: int): (r: u64)
    ensures 0 <= x < TWO_TO_64 ==> r == x
    ensures -TWO_TO_64 <= x < 0 ==> r == x + TWO_TO_64
  {
    x % TWO_TO_64
  }

  /** The number of blocks each write transfers. */
  const WR_NUM_BLKS: nat := 2

  /** The entries of each I/O queue the test creates. */
  const IOQ_ENTRIES: nat := 2

  // ---------------------------------------------------------------------
  // Queues, commands and the recorded calls
  // ---------------------------------------------------------------------

  /** How the memory behind an I/O queue is provided. */
  datatype Backing = Contiguous | Discontiguous(bytes: nat)

  /** An I/O completion queue as the test creates it. */
  datatype IoCq = IoCq(qid: nat, numEntries: nat, irqEnabled: bool, irqVector: nat, backing: Backing)

  /** An I/O submission queue as the test creates it, bound to completion queue `cqId`. */
  datatype IoSq = IoSq(qid: nat, numEntries: nat, cqId: nat, priority: nat, backing: Backing)

  /** The write command: namespace, starting LBA, 0-based block count and buffer sizes. */
  datatype WriteCmd = WriteCmd(nsid: nat, slba: u64, nlb: nat, dataBytes: nat, metaBytes: nat)

  /** The status a completion entry carries. */
  datatype CeStatus = LbaOutOfRange | OtherStatus(code: nat)

  /** The controller states the test asks for. */
  datatype CtrlrState = DisableCompletely | Disable | Enable

  /** Why a completion queue is dumped. */
  datatype DumpReason = NotEmptyAtEntry | NoCompletion | BeforeReap

  /** One call the test makes on the controller, the queues or the framework. */
  datatype Event =
    | StateSet(state: CtrlrState)
    | AdminQueuesCreated(entries: nat)
    | IrqVectorsSet(count: nat)
    | NvmCommandSetSelected
    | CqEntrySizeSet(es: nat)
    | SqEntrySizeSet(es: nat)
    | CqCreated(cq: IoCq)
    | SqCreated(sq: IoSq)
    | MetaAllocSized(bytes: nat)
    | Sent(cmd: WriteCmd)
    | SqDumped
    | Rang
    | Waited
    | CqDumped(reason: DumpReason)
    | Reaped(numCE: nat, expected: CeStatus)
    | SentAndReaped(cmd: WriteCmd)

  /** Why the test raised its framework exception. */
  datatype Failure =
    | StateRefused(state: CtrlrState)
    | CqNotEmpty(numCE: nat)
    | NoCeSeen
    | WrongCeCount(numCE: nat)
    | UnexpectedStatus(status: CeStatus)
    | IrqCountWrong(isrCount: u32, expected: u32)
    | BareNamespace
    | Deferred
    | MetaAllocRefused
    | SendAndReapFailed

  /** A step either returns normally or raises the framework exception. */
  datatype Outcome = Done | Threw(failure: Failure)

  /** The calls a step makes, in order, and how it ends. */
  datatype Trace = Trace(events: seq<Event>, outcome: Outcome)

  /** Sequential composition: the second step runs only when the first returns. */
  function Then(a: Trace, b: Trace): Trace
  {
    if a.outcome.Threw? then a else Trace(a.events + b.events, b.outcome)
  }

  /** The recorder of the calls the test makes. */
  class Host {
    var events: seq<Event>

    constructor ()
      ensures events == []
    {
      events := [];
    }

    method Record(e: Event)
      modifies this
      ensures events == old(events) + [e]
    {
      events := events + [e];
    }
  }

  // ---------------------------------------------------------------------
  // Submitting one command and reaping its completion
  // ---------------------------------------------------------------------

  /** What the wait for the completion observed: nothing before the timeout, or a count. */
  datatype WaitOutcome = TimedOut | Arrived(numCE: nat)

  /**
   * What the hardware does during one exchange: the entries already in the
   * completion queue and the interrupt count at entry, the wait, the status
   * of the reaped entry and the interrupt count after reaping, and whether
   * interrupts are enabled on the controller.
   */
  datatype Exchange = Exchange(
    pending: nat,
    isrBefore: u32,
    wait: WaitOutcome,
    status: CeStatus,
    isrAfter: u32,
    irqsEnabled: bool)

  /**
   * The exchange of the test: the completion queue must be empty; the
   * command is sent, the submission queue dumped and its doorbell rung; a
   * single wait must show exactly one completion, which is reaped expecting
   * LBA Out of Range; with interrupts in use the interrupt count must have
   * grown by exactly one.
   */
  function ExchangeTrace(cmd: WriteCmd, cq: IoCq, x: Exchange): Trace
  {
    if x.pending != 0 then
      Trace([CqDumped(NotEmptyAtEntry)], Threw(CqNotEmpty(x.pending)))
    else
      var sent := [Sent(cmd), SqDumped, Rang, Waited];
      match x.wait
      case TimedOut =>
        Trace(sent + [CqDumped(NoCompletion)], Threw(NoCeSeen))
      case Arrived(n) =>
        if n != 1 then
          Trace(sent + [CqDumped(NoCompletion)], Threw(WrongCeCount(n)))
        else
          var reaped := sent + [CqDumped(BeforeReap), Reaped(1, LbaOutOfRange)];
          if x.status != LbaOutOfRange then
            Trace(reaped, Threw(UnexpectedStatus(x.status)))
          else if x.irqsEnabled && cq.irqEnabled && x.isrAfter != NextIsrCount(x.isrBefore) then
            Trace(reaped, Threw(IrqCountWrong(x.isrAfter, NextIsrCount(x.isrBefore))))
          else
            Trace(reaped, Done)
  }

  /** Sends `cmd` and reaps its completion, expecting LBA Out of Range. */
  method SendCmdToHdw(host: Host, cq: IoCq, cmd: WriteCmd, x: Exchange) returns (r: Outcome)
    modifies host
    ensures host.events == old(host.events) + ExchangeTrace(cmd, cq, x).events
    ensures r == ExchangeTrace(cmd, cq, x).outcome
  {
    if x.pending != 0 {
      host.Record(CqDumped(NotEmptyAtEntry));
      return Threw(CqNotEmpty(x.pending));
    }
    ghost var start := host.events;
    host.Record(Sent(cmd));
    host.Record(SqDumped);
    host.Record(Rang);
    host.Record(Waited);
    assert host.events == start + [Sent(cmd), SqDumped, Rang, Waited];
    if x.wait.TimedOut? || x.wait.numCE != 1 {
      host.Record(CqDumped(NoCompletion));
      return if x.wait.TimedOut? then Threw(NoCeSeen) else Threw(WrongCeCount(x.wait.numCE));
    }
    host.Record(CqDumped(BeforeReap));
    host.Record(Reaped(1, LbaOutOfRange));
    assert host.events == start + ([Sent(cmd), SqDumped, Rang, Waited] + [CqDumped(BeforeReap), Reaped(1, LbaOutOfRange)]);
    if x.status != LbaOutOfRange {
      return Threw(UnexpectedStatus(x.status));
    }
    if x.irqsEnabled && cq.irqEnabled && x.isrAfter != NextIsrCount(x.isrBefore) {
      return Threw(IrqCountWrong(x.isrAfter, NextIsrCount(x.isrBefore)));
    }
    return Done;
  }

  /** A completion queue holding entries at entry is dumped; nothing is sent, rung or awaited. */
  lemma NotEmptyNeverSends(cmd: WriteCmd, cq: IoCq, x: Exchange)
    requires x.pending != 0
    ensures var t := ExchangeTrace(cmd, cq, x);
      t.outcome == Threw(CqNotEmpty(x.pending)) &&
      t.events[|t.events| - 1] == CqDumped(NotEmptyAtEntry) &&
      forall e :: e in t.events ==> !e.Sent? && !e.Rang? && !e.Waited? && !e.Reaped?
  {
  }

  /**
   * On an empty completion queue the command is sent, the submission queue
   * dumped, the doorbell rung and the completion awaited, in that order and
   * each exactly once: there is no retry.
   */
  lemma SendDumpRingWait(cmd: WriteCmd, cq: IoCq, x: Exchange)
    requires x.pending == 0
    ensures var es := ExchangeTrace(cmd, cq, x).events;
      |es| > 4 && es[..4] == [Sent(cmd), SqDumped, Rang, Waited] &&
      forall i :: 4 <= i < |es| ==> es[i].CqDumped? || es[i].Reaped?
  {
  }

  /**
   * A wait that times out or shows other than one completion dumps the
   * completion queue last and raises the exception; nothing is reaped.
   */
  lemma FailedWaitDumpsAndStops(cmd: WriteCmd, cq: IoCq, x: Exchange)
    requires x.pending == 0 && (x.wait.TimedOut? || x.wait.numCE != 1)
    ensures var t := ExchangeTrace(cmd, cq, x);
      (x.wait.TimedOut? ==> t.outcome == Threw(NoCeSeen)) &&
      (x.wait.Arrived? ==> t.outcome == Threw(WrongCeCount(x.wait.numCE))) &&
      t.events[|t.events| - 1] == CqDumped(NoCompletion) &&
      forall e :: e in t.events ==> !e.Reaped?
  {
  }

  /**
   * The completion is reaped exactly when the queue was empty and the wait
   * showed a single completion; it is reaped as one entry expected to carry
   * LBA Out of Range, right after the queue is dumped.
   */
  lemma ReapOnlyAfterOneCompletion(cmd: WriteCmd, cq: IoCq, x: Exchange)
    ensures var es := ExchangeTrace(cmd, cq, x).events;
      (exists i :: 0 <= i < |es| && es[i].Reaped?) <==> x.pending == 0 && x.wait == Arrived(1)
    ensures var es := ExchangeTrace(cmd, cq, x).events;
      forall i :: 0 <= i < |es| && es[i].Reaped? ==>
        es[i] == Reaped(1, LbaOutOfRange) && 0 < i && es[i - 1] == CqDumped(BeforeReap)
  {
    var es := ExchangeTrace(cmd, cq, x).events;
    if x.pending == 0 && x.wait == Arrived(1) {
      assert es[5].Reaped?;
    }
  }

  /**
   * The exchange returns normally exactly when the queue was empty, one
   * completion arrived with status LBA Out of Range and, with interrupts in
   * use, the interrupt count grew by exactly one.
   */
  lemma ExchangeSucceedsIff(cmd: WriteCmd, cq: IoCq, x: Exchange)
    ensures ExchangeTrace(cmd, cq, x).outcome == Done <==>
      x.pending == 0 && x.wait == Arrived(1) && x.status == LbaOutOfRange &&
      (x.irqsEnabled && cq.irqEnabled ==> x.isrAfter == NextIsrCount(x.isrBefore))
  {
  }

  /** Every exchange that raises its exception has dumped the completion queue. */
  lemma FailureFollowsCqDump(cmd: WriteCmd, cq: IoCq, x: Exchange)
    ensures var t := ExchangeTrace(cmd, cq, x);
      t.outcome.Threw? ==> exists i :: 0 <= i < |t.events| && t.events[i].CqDumped?
  {
    var es := ExchangeTrace(cmd, cq, x).events;
    if x.pending != 0 {
      assert es[0].CqDumped?;
    } else {
      assert es[4].CqDumped?;
    }
  }

  // ---------------------------------------------------------------------
  // Creating the I/O queue pair
  // ---------------------------------------------------------------------

  /**
   * The identify data the queue creation uses: the CQES and SQES fields and
   * whether the controller accepts queues in discontiguous memory.
   */
  datatype CtrlrIdent = CtrlrIdent(cqes: nat, sqes: nat, discontigIoq: bool)

  /** The low four bits of an identify field (`field & 0xf` on an unsigned value). */
  function EntrySize(field: nat): nat
  {
    field % 16
  }

  /** Discontiguous queues get a buffer of `numEntries * (1 << es)` bytes. */
  function QueueBacking(discontig: bool, es: nat): Backing
  {
    if discontig then Discontiguous(IOQ_ENTRIES * BitScan.TwoTo(es)) else Contiguous
  }

  function CreatedCq(ioqId: nat, ident: CtrlrIdent): IoCq
  {
    IoCq(ioqId, IOQ_ENTRIES, true, 0, QueueBacking(ident.discontigIoq, EntrySize(ident.cqes)))
  }

  function CreatedSq(ioqId: nat, ident: CtrlrIdent): IoSq
  {
    IoSq(ioqId, IOQ_ENTRIES, ioqId, 0, QueueBacking(ident.discontigIoq, EntrySize(ident.sqes)))
  }

  /**
   * Sets the I/O entry sizes from the identify data, then creates the
   * completion queue and the submission queue bound to it, both with id
   * `ioqId` and two entries, in discontiguous memory when the controller
   * supports it.
   */
  method CreateIOQs(host: Host, ioqId: nat, ident: CtrlrIdent) returns (sq: IoSq, cq: IoCq)
    modifies host
    ensures cq == CreatedCq(ioqId, ident) && sq == CreatedSq(ioqId, ident)
    ensures host.events == old(host.events) +
      [CqEntrySizeSet(EntrySize(ident.cqes)), SqEntrySizeSet(EntrySize(ident.sqes)), CqCreated(cq), SqCreated(sq)]
  {
    var numEntries := 2;
    host.Record(CqEntrySizeSet(ident.cqes % 16));
    host.Record(SqEntrySizeSet(ident.sqes % 16));
    if ident.discontigIoq {
      var iocqes := ident.cqes % 16;
      var iosqes := ident.sqes % 16;
      cq := IoCq(ioqId, numEntries, true, 0, Discontiguous(numEntries * BitScan.TwoTo(iocqes)));
      host.Record(CqCreated(cq));
      sq := IoSq(ioqId, numEntries, ioqId, 0, Discontiguous(numEntries * BitScan.TwoTo(iosqes)));
      host.Record(SqCreated(sq));
    } else {
      cq := IoCq(ioqId, numEntries, true, 0, Contiguous);
      host.Record(CqCreated(cq));
      sq := IoSq(ioqId, numEntries, ioqId, 0, Contiguous);
      host.Record(SqCreated(sq));
    }
  }

  /**
   * The created pair: both queues carry `ioqId` and two entries, the
   * submission queue completes into the completion queue, the entry sizes
   * are below 16, and the memory is discontiguous exactly when the
   * controller supports it, then holding two entries of 2^size bytes, at
   * most 64 KiB.
   */
  lemma QueuePairAsCreated(ioqId: nat, ident: CtrlrIdent)
    ensures var cq, sq := CreatedCq(ioqId, ident), CreatedSq(ioqId, ident);
      cq.qid == ioqId && sq.qid == ioqId && sq.cqId == cq.qid &&
      cq.numEntries == 2 && sq.numEntries == 2 && cq.irqEnabled
    ensures EntrySize(ident.cqes) < 16 && EntrySize(ident.sqes) < 16
    ensures var cq, sq := CreatedCq(ioqId, ident), CreatedSq(ioqId, ident);
      (cq.backing.Discontiguous? <==> ident.discontigIoq) && (sq.backing.Discontiguous? <==> ident.discontigIoq)
    ensures var cq := CreatedCq(ioqId, ident);
      cq.backing.Discontiguous? ==>
        cq.backing.bytes == 2 * BitScan.TwoTo(EntrySize(ident.cqes)) && 2 <= cq.backing.bytes <= 0x1_0000
    ensures var sq := CreatedSq(ioqId, ident);
      sq.backing.Discontiguous? ==>
        sq.backing.bytes == 2 * BitScan.TwoTo(EntrySize(ident.sqes)) && 2 <= sq.backing.bytes <= 0x1_0000
  {
    BitScan.TwoToMonotone(EntrySize(ident.cqes), 15);
    BitScan.TwoToMonotone(EntrySize(ident.sqes), 15);
    TwoToFifteen();
  }

  /** The largest entry size, 15, gives 2^15 bytes per entry. */
  lemma TwoToFifteen()
    ensures BitScan.TwoTo(15) == 0x8000
  {
    assert BitScan.TwoTo(4) == 16;
    assert BitScan.TwoTo(8) == 256;
    assert BitScan.TwoTo(12) == 4096;
  }

  // ---------------------------------------------------------------------
  // The payload and the edge writes of one namespace
  // ---------------------------------------------------------------------

  /** How a namespace lays out metadata, as the identify data classifies it. */
  datatype NsType = Bare | MetaSeparate | MetaInterleaved | E2eSeparate | E2eInterleaved

  /** LBADS values for which the source's `1 << LBADS` on an int is 2^LBADS. */
  type Lbads = n: nat | n <= 30

  /** The active LBA format: log2 of the data size of a block, and its metadata bytes. */
  datatype LbaFormat = LbaFormat(lbads: Lbads, ms: nat)

  /** A namespace with metadata as its identify data describes it. */
  datatype Namespace = Namespace(nsid: nat, nsze: u64, fmt: LbaFormat, nsType: NsType)

  function LbaDataSize(fmt: LbaFormat): nat
  {
    BitScan.TwoTo(fmt.lbads)
  }

  /** The layouts the test writes to; the others end it. */
  predicate CarriesMeta(t: NsType)
  {
    t == MetaSeparate || t == MetaInterleaved
  }

  /** The data buffer of the write: blocks only, or blocks with their interleaved metadata. */
  function DataBytes(ns: Namespace): nat
  {
    match ns.nsType
    case MetaSeparate => WR_NUM_BLKS * LbaDataSize(ns.fmt)
    case MetaInterleaved => WR_NUM_BLKS * (LbaDataSize(ns.fmt) + ns.fmt.ms)
    case _ => 0
  }

  /** The separate metadata buffer of the write. */
  function MetaBytes(ns: Namespace): nat
  {
    if ns.nsType == MetaSeparate then WR_NUM_BLKS * ns.fmt.ms else 0
  }

  /**
   * Sizing the payload by namespace type: separate metadata needs the
   * metadata allocation size set, which may be refused; a bare namespace
   * and the end-to-end protected ones end the test.
   */
  function PayloadTrace(ns: Namespace, metaAllocOk: bool): Trace
  {
    match ns.nsType
    case Bare => Trace([], Threw(BareNamespace))
    case MetaSeparate =>
      Trace([MetaAllocSized(WR_NUM_BLKS * ns.fmt.ms)], if metaAllocOk then Done else Threw(MetaAllocRefused))
    case MetaInterleaved => Trace([], Done)
    case E2eSeparate => Trace([], Threw(Deferred))
    case E2eInterleaved => Trace([], Threw(Deferred))
  }

  /**
   * The payload is sized only for the two metadata layouts, and either way
   * it holds both blocks with all their metadata; with separate metadata
   * the data buffer holds the blocks alone.
   */
  lemma PayloadSizing(ns: Namespace, metaAllocOk: bool)
    ensures PayloadTrace(ns, metaAllocOk).outcome == Done <==>
      CarriesMeta(ns.nsType) && (ns.nsType == MetaSeparate ==> metaAllocOk)
    ensures CarriesMeta(ns.nsType) ==>
      DataBytes(ns) + MetaBytes(ns) == WR_NUM_BLKS * (LbaDataSize(ns.fmt) + ns.fmt.ms)
    ensures ns.nsType == MetaSeparate ==>
      DataBytes(ns) == WR_NUM_BLKS * LbaDataSize(ns.fmt) && MetaBytes(ns) == WR_NUM_BLKS * ns.fmt.ms
    ensures ns.nsType == MetaInterleaved ==> MetaBytes(ns) == 0
  {
  }

  /** The starting LBAs of the three writes: NSZE - 1, NSZE and NSZE - 2, as unsigned 64-bit values. */
  function EdgeSlbas(nsze: u64): (s: seq<u64>)
  {
    [Wrap64(nsze - 1), nsze, Wrap64(nsze - 2)]
  }

  /** The write of both blocks starting at `slba`; the block count is 0-based. */
  function EdgeWrite(ns: Namespace, slba: u64): WriteCmd
  {
    WriteCmd(ns.nsid, slba, WR_NUM_BLKS - 1, DataBytes(ns), MetaBytes(ns))
  }

  /** The blocks `slba` .. `slba + nlb` (0-based count) all lie below NSZE. */
  predicate WithinNamespace(slba: int, nlb: nat, nsze: int)
  {
    slba + nlb < nsze
  }

  /**
   * For a namespace of at least two blocks, the first write starts on the
   * last block and runs past it, the second starts past the end, and the
   * third covers exactly the last two blocks.
   */
  lemma EdgesStraddleTheEnd(nsze: u64)
    requires nsze >= 2
    ensures var s := EdgeSlbas(nsze);
      s[0] < nsze && !WithinNamespace(s[0], WR_NUM_BLKS - 1, nsze) &&
      s[1] >= nsze && !WithinNamespace(s[1], WR_NUM_BLKS - 1, nsze) &&
      WithinNamespace(s[2], WR_NUM_BLKS - 1, nsze) && s[2] + WR_NUM_BLKS == nsze
  {
  }

  /**
   * Below two blocks the unsigned subtraction wraps: the third write, which
   * the test expects to succeed, starts near the top of the LBA space and
   * lies outside the namespace; with NSZE = 0 so does the first.
   */
  lemma SmallNamespaceWraps(nsze: u64)
    requires nsze < 2
    ensures var s := EdgeSlbas(nsze);
      s[2] == TWO_TO_64 - 2 + nsze && !WithinNamespace(s[2], WR_NUM_BLKS - 1, nsze) &&
      (nsze == 0 ==> s[0] == TWO_TO_64 - 1)
  {
  }

  /**
   * What the hardware and the framework do for one namespace: whether the
   * disable and enable requests and the metadata allocation are accepted,
   * the two exchanges expected to fail with LBA Out of Range, and whether
   * the final write and reap succeeds.
   */
  datatype NamespaceEnv = NamespaceEnv(
    disableOk: bool,
    enableOk: bool,
    metaAllocOk: bool,
    first: Exchange,
    second: Exchange,
    lastOk: bool)

  /**
   * Preparing the controller for one namespace: disable, one interrupt
   * vector, the NVM command set, enable, then the I/O queue pair.
   */
  function SetupTrace(env: NamespaceEnv, ioqId: nat, ident: CtrlrIdent): Trace
  {
    if !env.disableOk then
      Trace([StateSet(Disable)], Threw(StateRefused(Disable)))
    else if !env.enableOk then
      Trace([StateSet(Disable), IrqVectorsSet(1), NvmCommandSetSelected, StateSet(Enable)],
        Threw(StateRefused(Enable)))
    else
      Trace([StateSet(Disable), IrqVectorsSet(1), NvmCommandSetSelected, StateSet(Enable),
        CqEntrySizeSet(EntrySize(ident.cqes)), SqEntrySizeSet(EntrySize(ident.sqes)),
        CqCreated(CreatedCq(ioqId, ident)), SqCreated(CreatedSq(ioqId, ident))], Done)
  }

  /** The three writes: at NSZE - 1 and NSZE through the exchange, then at NSZE - 2 by send-and-reap. */
  function WritesTrace(ns: Namespace, env: NamespaceEnv, cq: IoCq): Trace
  {
    var s := EdgeSlbas(ns.nsze);
    Then(ExchangeTrace(EdgeWrite(ns, s[0]), cq, env.first),
      Then(ExchangeTrace(EdgeWrite(ns, s[1]), cq, env.second),
        Trace([SentAndReaped(EdgeWrite(ns, s[2]))], if env.lastOk then Done else Threw(SendAndReapFailed))))
  }

  /** One iteration of the namespace loop. */
  function NamespaceTrace(ns: Namespace, env: NamespaceEnv, ioqId: nat, ident: CtrlrIdent): Trace
  {
    Then(SetupTrace(env, ioqId, ident),
      Then(PayloadTrace(ns, env.metaAllocOk), WritesTrace(ns, env, CreatedCq(ioqId, ident))))
  }

  /** Steps run in order, stopping at the first that raises the exception. */
  function Sequence(steps: seq<Trace>): Trace
  {
    if steps == [] then Trace([], Done)
    else Then(Sequence(steps[..|steps| - 1]), steps[|steps| - 1])
  }

  /** The iterations of the namespace loop, one per namespace. */
  function NamespaceSteps(spaces: seq<Namespace>, envs: seq<NamespaceEnv>, ioqId: nat, ident: CtrlrIdent): (steps: seq<Trace>)
    requires |envs| == |spaces|
    ensures |steps| == |spaces|
  {
    if spaces == [] then []
    else
      var n := |spaces| - 1;
      NamespaceSteps(spaces[..n], envs[..n], ioqId, ident) + [NamespaceTrace(spaces[n], envs[n], ioqId, ident)]
  }

  /** The namespace loop, stopping at the first namespace that raises the exception. */
  function NamespacesTrace(spaces: seq<Namespace>, envs: seq<NamespaceEnv>, ioqId: nat, ident: CtrlrIdent): Trace
    requires |envs| == |spaces|
  {
    Sequence(NamespaceSteps(spaces, envs, ioqId, ident))
  }

  /** The admin queues are created with this many entries. */
  const ADMIN_Q_ENTRIES: nat := 5

  /** The whole body: disable completely, create the admin queues, then the namespace loop. */
  function ScenarioTrace(disableOk: bool, spaces: seq<Namespace>, envs: seq<NamespaceEnv>,
                         ioqId: nat, ident: CtrlrIdent): Trace
    requires |envs| == |spaces|
  {
    if !disableOk then
      Trace([StateSet(DisableCompletely)], Threw(StateRefused(DisableCompletely)))
    else
      Then(Trace([StateSet(DisableCompletely), AdminQueuesCreated(ADMIN_Q_ENTRIES)], Done),
        NamespacesTrace(spaces, envs, ioqId, ident))
  }

  // ---------------------------------------------------------------------
  // The test body
  // ---------------------------------------------------------------------

  /** The description the test registers. */
  const LBA_DESC := TestCase.TestDesc(
    "revision 1.0b, section 4,6",
    "Issue write and cause SC=LBA Out of Range on meta namspcs",
    "For all meta namspcs from Identify.NN, determine Identify.NSZE; "
    + "For each namspc cause many scenarios by issuing a single write cmd "
    + "sending 2 data blocks, and conforming to approp metadata "
    + "requirements. 1) Issue cmd where 1st block starts at LBA "
    + "(Identify.NSZE - 1), expect failure. 2) Issue cmd where 1st block "
    + "starts at LBA Identify.NSZE, expect failure. 3) Issue cmd where 1st "
    + "block starts at 2nd to last max LBA value, expect success.")

  /**
   * Construction of the test: the base test for revision 1.0b (which
   * raises the framework exception, None, on a negative handle), then the
   * description.
   */
  method Create(fd: int, grpName: string, testName: string, errRegs: TestCase.ErrorRegs)
    returns (t: TestCase.Option<TestCase.Test>)
    ensures t.None? <==> fd < 0
    ensures t.Some? ==> fresh(t.value) && t.value.fd == fd && t.value.specRev == TestCase.SpecRev10b
    ensures t.Some? ==> t.value.grpName == grpName && t.value.testName == testName
    ensures t.Some? ==> t.value.errRegs == errRegs && t.value.desc == LBA_DESC
  {
    t := TestCase.Test.Create(fd, grpName, testName, TestCase.SpecRev10b, errRegs);
    if t.Some? {
      t.value.desc := LBA_DESC;
    }
  }

  /**
   * How the body ends as the base test's run sees it: a return, or the
   * framework exception that every failure of the body raises.
   */
  function BodyCompletion(o: Outcome): (c: TestCase.Completion)
  {
    if o == Done then TestCase.Normal else TestCase.ThrewFrmwkEx
  }

  /**
   * The body completes normally for the base test's run exactly when the
   * complete disable is accepted and every namespace iteration returns.
   */
  lemma BodyCompletesIff(disableOk: bool, spaces: seq<Namespace>, envs: seq<NamespaceEnv>,
                         ioqId: nat, ident: CtrlrIdent)
    requires |envs| == |spaces|
    ensures BodyCompletion(ScenarioTrace(disableOk, spaces, envs, ioqId, ident).outcome) == TestCase.Normal <==>
      disableOk && forall i :: 0 <= i < |spaces| ==> NamespaceTrace(spaces[i], envs[i], ioqId, ident).outcome == Done
  {
    ScenarioDoneIff(disableOk, spaces, envs, ioqId, ident);
  }

  /** The I/O queue pair of a namespace iteration. */
  datatype QueuePair = QueuePair(sq: IoSq, cq: IoCq)

  /** Two steps in a row, as the calls they record after `start`. */
  lemma ThenSteps(start: seq<Event>, a: Trace, b: Trace)
    ensures a.outcome.Threw? ==> Then(a, b) == a
    ensures a.outcome == Done ==>
      start + Then(a, b).events == start + a.events + b.events && Then(a, b).outcome == b.outcome
  {
    if a.outcome == Done {
      assert start + (a.events + b.events) == start + a.events + b.events;
    }
  }

  /** Disables the controller, configures interrupts and the command set, enables it and creates the queues. */
  method SetUpNamespace(host: Host, env: NamespaceEnv, ioqId: nat, ident: CtrlrIdent)
    returns (r: Outcome, queues: TestCase.Option<QueuePair>)
    modifies host
    ensures host.events == old(host.events) + SetupTrace(env, ioqId, ident).events
    ensures r == SetupTrace(env, ioqId, ident).outcome
    ensures r == Done <==> queues.Some?
    ensures queues.Some? ==> queues.value == QueuePair(CreatedSq(ioqId, ident), CreatedCq(ioqId, ident))
  {
    ghost var start := host.events;
    host.Record(StateSet(Disable));
    if !env.disableOk {
      return Threw(StateRefused(Disable)), TestCase.None;
    }
    host.Record(IrqVectorsSet(1));
    host.Record(NvmCommandSetSelected);
    host.Record(StateSet(Enable));
    assert host.events == start + [StateSet(Disable), IrqVectorsSet(1), NvmCommandSetSelected, StateSet(Enable)];
    if !env.enableOk {
      return Threw(StateRefused(Enable)), TestCase.None;
    }
    var sq, cq := CreateIOQs(host, ioqId, ident);
    assert host.events == start + [StateSet(Disable), IrqVectorsSet(1), NvmCommandSetSelected, StateSet(Enable),
      CqEntrySizeSet(EntrySize(ident.cqes)), SqEntrySizeSet(EntrySize(ident.sqes)), CqCreated(cq), SqCreated(sq)];
    return Done, TestCase.Some(QueuePair(sq, cq));
  }

  /** Sizes the write payload for the namespace's metadata layout. */
  method SizePayload(host: Host, ns: Namespace, metaAllocOk: bool) returns (r: Outcome, dataBytes: nat, metaBytes: nat)
    modifies host
    ensures host.events == old(host.events) + PayloadTrace(ns, metaAllocOk).events
    ensures r == PayloadTrace(ns, metaAllocOk).outcome
    ensures r == Done ==> dataBytes == DataBytes(ns) && metaBytes == MetaBytes(ns)
  {
    var lbaDataSize := BitScan.TwoTo(ns.fmt.lbads);
    dataBytes, metaBytes := 0, 0;
    match ns.nsType
    case Bare =>
      r := Threw(BareNamespace);
    case MetaSeparate =>
      dataBytes := WR_NUM_BLKS * lbaDataSize;
      host.Record(MetaAllocSized(WR_NUM_BLKS * ns.fmt.ms));
      if !metaAllocOk {
        return Threw(MetaAllocRefused), dataBytes, metaBytes;
      }
      metaBytes := WR_NUM_BLKS * ns.fmt.ms;
      r := Done;
    case MetaInterleaved =>
      dataBytes := WR_NUM_BLKS * (lbaDataSize + ns.fmt.ms);
      r := Done;
    case E2eSeparate =>
      r := Threw(Deferred);
    case E2eInterleaved =>
      r := Threw(Deferred);
  }

  /** Issues the write at NSZE - 1, at NSZE and at NSZE - 2, stopping at the first failure. */
  method WriteEdges(host: Host, cq: IoCq, ns: Namespace, cmd: WriteCmd, env: NamespaceEnv) returns (r: Outcome)
    requires cmd == EdgeWrite(ns, cmd.slba)
    modifies host
    ensures host.events == old(host.events) + WritesTrace(ns, env, cq).events
    ensures r == WritesTrace(ns, env, cq).outcome
  {
    ghost var start := host.events;
    var nsze: int := ns.nsze;
    var write := cmd.(slba := Wrap64(nsze - 1));
    r := SendCmdToHdw(host, cq, write, env.first);
    var first := ExchangeTrace(write, cq, env.first);
    ThenSteps(start, first, Then(ExchangeTrace(EdgeWrite(ns, nsze), cq, env.second),
      Trace([SentAndReaped(EdgeWrite(ns, Wrap64(nsze - 2)))], if env.lastOk then Done else Threw(SendAndReapFailed))));
    if r.Threw? {
      return;
    }
    ghost var mid := host.events;
    write := cmd.(slba := nsze);
    r := SendCmdToHdw(host, cq, write, env.second);
    var second := ExchangeTrace(write, cq, env.second);
    var last := Trace([SentAndReaped(EdgeWrite(ns, Wrap64(nsze - 2)))], if env.lastOk then Done else Threw(SendAndReapFailed));
    ThenSteps(start + first.events, second, last);
    TestCase.AppendAssoc(start, first.events, Then(second, last).events);
    if r.Threw? {
      return;
    }
    write := cmd.(slba := Wrap64(nsze - 2));
    host.Record(SentAndReaped(write));
    r := if env.lastOk then Done else Threw(SendAndReapFailed);
  }

  /** One iteration of the namespace loop. */
  method RunNamespace(host: Host, ns: Namespace, env: NamespaceEnv, ioqId: nat, ident: CtrlrIdent)
    returns (r: Outcome)
    modifies host
    ensures host.events == old(host.events) + NamespaceTrace(ns, env, ioqId, ident).events
    ensures r == NamespaceTrace(ns, env, ioqId, ident).outcome
  {
    ghost var start := host.events;
    var setup := SetupTrace(env, ioqId, ident);
    var payload := PayloadTrace(ns, env.metaAllocOk);
    var writes := WritesTrace(ns, env, CreatedCq(ioqId, ident));
    ThenSteps(start, setup, Then(payload, writes));
    var queues;
    r, queues := SetUpNamespace(host, env, ioqId, ident);
    if r.Threw? {
      return;
    }
    var dataBytes, metaBytes;
    r, dataBytes, metaBytes := SizePayload(host, ns, env.metaAllocOk);
    ThenSteps(start + setup.events, payload, writes);
    TestCase.AppendAssoc(start, setup.events, Then(payload, writes).events);
    if r.Threw? {
      return;
    }
    var cmd := WriteCmd(ns.nsid, 0, WR_NUM_BLKS - 1, dataBytes, metaBytes);
    r := WriteEdges(host, queues.value.cq, ns, cmd, env);
  }

  /**
   * The body of the test: disables the controller completely, creates the
   * admin queues, then runs every namespace with metadata in order.
   */
  method RunCoreTest(host: Host, disableOk: bool, spaces: seq<Namespace>,
                     envs: seq<NamespaceEnv>, ioqId: nat, ident: CtrlrIdent) returns (r: Outcome)
    requires |envs| == |spaces|
    modifies host
    ensures host.events == old(host.events) + ScenarioTrace(disableOk, spaces, envs, ioqId, ident).events
    ensures r == ScenarioTrace(disableOk, spaces, envs, ioqId, ident).outcome
  {
    ghost var start := host.events;
    host.Record(StateSet(DisableCompletely));
    if !disableOk {
      return Threw(StateRefused(DisableCompletely));
    }
    host.Record(AdminQueuesCreated(ADMIN_Q_ENTRIES));
    ghost var prefix := [StateSet(DisableCompletely), AdminQueuesCreated(ADMIN_Q_ENTRIES)];
    assert host.events == start + prefix;
    r := RunNamespaces(host, spaces, envs, ioqId, ident);
    TestCase.AppendAssoc(start, prefix, NamespacesTrace(spaces, envs, ioqId, ident).events);
  }

  /** The namespace loop, stopping at the first namespace that raises the exception. */
  method RunNamespaces(host: Host, spaces: seq<Namespace>, envs: seq<NamespaceEnv>,
                       ioqId: nat, ident: CtrlrIdent) returns (r: Outcome)
    requires |envs| == |spaces|
    modifies host
    ensures host.events == old(host.events) + NamespacesTrace(spaces, envs, ioqId, ident).events
    ensures r == NamespacesTrace(spaces, envs, ioqId, ident).outcome
  {
    ghost var start := host.events;
    ghost var steps := NamespaceSteps(spaces, envs, ioqId, ident);
    r := Done;
    var i := 0;
    while i < |spaces|
      invariant 0 <= i <= |spaces|
      invariant r == Done == Sequence(steps[..i]).outcome
      invariant host.events == start + Sequence(steps[..i]).events
    {
      ghost var before := Sequence(steps[..i]);
      NamespaceStepAt(spaces, envs, i, ioqId, ident);
      r := RunNamespace(host, spaces[i], envs[i], ioqId, ident);
      SequenceStep(steps, i);
      TestCase.AppendAssoc(start, before.events, steps[i].events);
      if r.Threw? {
        if i + 1 < |spaces| {
          SequenceStopsAtFailure(steps, i + 1);
        } else {
          PrefixOfPrefix(steps, i + 1, i + 1);
        }
        return;
      }
      i := i + 1;
    }
    PrefixOfPrefix(steps, i, i);
  }

  /** Step i of the namespace loop is the iteration on namespace i. */
  lemma {:induction false} NamespaceStepAt(spaces: seq<Namespace>, envs: seq<NamespaceEnv>, i: nat,
                                           ioqId: nat, ident: CtrlrIdent)
    requires |envs| == |spaces| && i < |spaces|
    ensures NamespaceSteps(spaces, envs, ioqId, ident)[i] == NamespaceTrace(spaces[i], envs[i], ioqId, ident)
    decreases |spaces|
  {
    var n := |spaces| - 1;
    if i < n {
      NamespaceStepAt(spaces[..n], envs[..n], i, ioqId, ident);
    }
  }

  /** The first i + 1 steps are the first i, then step i. */
  lemma SequenceStep(steps: seq<Trace>, i: nat)
    requires i < |steps|
    ensures Sequence(steps[..i + 1]) == Then(Sequence(steps[..i]), steps[i])
  {
    assert steps[..i + 1][..i] == steps[..i];
  }

  /**
   * Once the steps before k have raised the exception, the later ones add
   * nothing: the whole sequence is the sequence up to k.
   */
  lemma {:induction false} SequenceStopsAtFailure(steps: seq<Trace>, k: nat)
    requires k < |steps|
    requires Sequence(steps[..k]).outcome.Threw?
    ensures Sequence(steps) == Sequence(steps[..k])
    decreases |steps|
  {
    var n := |steps| - 1;
    if k < n {
      PrefixOfPrefix(steps, n, k);
      SequenceStopsAtFailure(steps[..n], k);
    }
  }

  lemma PrefixOfPrefix<T>(s: seq<T>, n: nat, k: nat)
    requires k <= n <= |s|
    ensures s[..n][..k] == s[..k]
    ensures k == |s| ==> s[..k] == s
  {
  }

  // ---------------------------------------------------------------------
  // What a run that returns normally has written
  // ---------------------------------------------------------------------

  /** A call that submits a write command. */
  predicate IsWrite(e: Event)
  {
    e.Sent? || e.SentAndReaped?
  }

  /** The write commands submitted, in order. */
  function Writes(es: seq<Event>): seq<WriteCmd>
  {
    if es == [] then [] else (if IsWrite(es[0]) then [es[0].cmd] else []) + Writes(es[1..])
  }

  /** The three edge writes of one namespace, in the order they are issued. */
  function EdgeWrites(ns: Namespace): (w: seq<WriteCmd>)
    ensures |w| == 3
    ensures forall k :: 0 <= k < 3 ==>
      w[k].nsid == ns.nsid && w[k].nlb == 1 && w[k].dataBytes == DataBytes(ns) && w[k].metaBytes == MetaBytes(ns)
    ensures ns.nsze >= 1 ==> w[0].slba == ns.nsze - 1
    ensures w[1].slba == ns.nsze
    ensures ns.nsze >= 2 ==> w[2].slba == ns.nsze - 2
  {
    var s := EdgeSlbas(ns.nsze);
    [EdgeWrite(ns, s[0]), EdgeWrite(ns, s[1]), EdgeWrite(ns, s[2])]
  }

  /** The edge writes of every namespace, namespace by namespace. */
  function AllEdgeWrites(spaces: seq<Namespace>): (w: seq<WriteCmd>)
    ensures |w| == 3 * |spaces|
  {
    if spaces == [] then [] else AllEdgeWrites(spaces[..|spaces| - 1]) + EdgeWrites(spaces[|spaces| - 1])
  }

  /** Writes 3i, 3i + 1 and 3i + 2 are the edge writes of namespace i. */
  lemma {:induction false} AllEdgeWritesAt(spaces: seq<Namespace>, i: nat, k: nat)
    requires i < |spaces| && k < 3
    ensures AllEdgeWrites(spaces)[3 * i + k] == EdgeWrites(spaces[i])[k]
  {
    var n := |spaces| - 1;
    if i < n {
      AllEdgeWritesAt(spaces[..n], i, k);
    }
  }

  lemma {:induction false} WritesAppend(a: seq<Event>, b: seq<Event>)
    ensures Writes(a + b) == Writes(a) + Writes(b)
  {
    if a == [] {
      assert a + b == b;
    } else {
      assert (a + b)[0] == a[0];
      assert (a + b)[1..] == a[1..] + b;
      WritesAppend(a[1..], b);
    }
  }

  lemma {:induction false} WritesOfQuiet(es: seq<Event>)
    requires forall i :: 0 <= i < |es| ==> !IsWrite(es[i])
    ensures Writes(es) == []
  {
    if es != [] {
      assert !IsWrite(es[0]);
      WritesOfQuiet(es[1..]);
    }
  }

  /** An exchange submits its command once, unless the completion queue was not empty. */
  lemma WritesOfExchange(cmd: WriteCmd, cq: IoCq, x: Exchange)
    ensures Writes(ExchangeTrace(cmd, cq, x).events) == if x.pending == 0 then [cmd] else []
  {
    var es := ExchangeTrace(cmd, cq, x).events;
    if x.pending == 0 {
      assert es == [Sent(cmd)] + es[1..];
      WritesOfQuiet(es[1..]);
      WritesAppend([Sent(cmd)], es[1..]);
      assert [Sent(cmd)][1..] == [];
    } else {
      WritesOfQuiet(es);
    }
  }

  lemma WritesOfThen(a: Trace, b: Trace)
    ensures Writes(Then(a, b).events) == Writes(a.events) + (if a.outcome == Done then Writes(b.events) else [])
  {
    if a.outcome == Done {
      WritesAppend(a.events, b.events);
    } else {
      assert Writes(a.events) + [] == Writes(a.events);
    }
  }

  /** The writes that follow a completed setup and payload: the three edge writes, the exchanges failing as expected. */
  lemma EdgeWritesRunThrough(ns: Namespace, env: NamespaceEnv, cq: IoCq)
    requires WritesTrace(ns, env, cq).outcome == Done
    ensures env.first.status == LbaOutOfRange && env.second.status == LbaOutOfRange && env.lastOk
    ensures Writes(WritesTrace(ns, env, cq).events) == EdgeWrites(ns)
  {
    var s := EdgeSlbas(ns.nsze);
    var first := ExchangeTrace(EdgeWrite(ns, s[0]), cq, env.first);
    var second := ExchangeTrace(EdgeWrite(ns, s[1]), cq, env.second);
    var last := Trace([SentAndReaped(EdgeWrite(ns, s[2]))], if env.lastOk then Done else Threw(SendAndReapFailed));
    ExchangeSucceedsIff(EdgeWrite(ns, s[0]), cq, env.first);
    ExchangeSucceedsIff(EdgeWrite(ns, s[1]), cq, env.second);
    WritesOfThen(first, Then(second, last));
    WritesOfThen(second, last);
    WritesOfExchange(EdgeWrite(ns, s[0]), cq, env.first);
    WritesOfExchange(EdgeWrite(ns, s[1]), cq, env.second);
    assert [SentAndReaped(EdgeWrite(ns, s[2]))][1..] == [];
  }

  /** A completed setup makes its eight calls and no write. */
  lemma SetupRunsThrough(env: NamespaceEnv, ioqId: nat, ident: CtrlrIdent)
    requires SetupTrace(env, ioqId, ident).outcome == Done
    ensures SetupTrace(env, ioqId, ident).events == [StateSet(Disable), IrqVectorsSet(1), NvmCommandSetSelected,
      StateSet(Enable), CqEntrySizeSet(EntrySize(ident.cqes)), SqEntrySizeSet(EntrySize(ident.sqes)),
      CqCreated(CreatedCq(ioqId, ident)), SqCreated(CreatedSq(ioqId, ident))]
    ensures Writes(SetupTrace(env, ioqId, ident).events) == []
  {
    WritesOfQuiet(SetupTrace(env, ioqId, ident).events);
  }

  /**
   * A namespace iteration that returns normally was on a namespace with
   * metadata, prepared the controller and created the queue pair before
   * any write, saw both edge writes fail with LBA Out of Range and the last
   * succeed, and submitted exactly the three edge writes in order.
   */
  lemma NamespaceRunsThrough(ns: Namespace, env: NamespaceEnv, ioqId: nat, ident: CtrlrIdent)
    requires NamespaceTrace(ns, env, ioqId, ident).outcome == Done
    ensures CarriesMeta(ns.nsType)
    ensures env.first.status == LbaOutOfRange && env.second.status == LbaOutOfRange && env.lastOk
    ensures var es := NamespaceTrace(ns, env, ioqId, ident).events;
      |es| >= 8 && es[..8] == [StateSet(Disable), IrqVectorsSet(1), NvmCommandSetSelected, StateSet(Enable),
        CqEntrySizeSet(EntrySize(ident.cqes)), SqEntrySizeSet(EntrySize(ident.sqes)),
        CqCreated(CreatedCq(ioqId, ident)), SqCreated(CreatedSq(ioqId, ident))]
    ensures Writes(NamespaceTrace(ns, env, ioqId, ident).events) == EdgeWrites(ns)
  {
    var setup := SetupTrace(env, ioqId, ident);
    var payload := PayloadTrace(ns, env.metaAllocOk);
    var writes := WritesTrace(ns, env, CreatedCq(ioqId, ident));
    var rest := Then(payload, writes);
    assert setup.outcome == Done && payload.outcome == Done && writes.outcome == Done;
    SetupRunsThrough(env, ioqId, ident);
    PayloadSizing(ns, env.metaAllocOk);
    EdgeWritesRunThrough(ns, env, CreatedCq(ioqId, ident));
    WritesOfThen(setup, rest);
    WritesOfThen(payload, writes);
    WritesOfQuiet(payload.events);
    assert (setup.events + rest.events)[..8] == setup.events;
  }

  /** A sequence of steps returns normally exactly when every step does. */
  lemma {:induction false} SequenceDoneIff(steps: seq<Trace>)
    ensures Sequence(steps).outcome == Done <==> forall i :: 0 <= i < |steps| ==> steps[i].outcome == Done
  {
    if steps != [] {
      var n := |steps| - 1;
      SequenceDoneIff(steps[..n]);
      assert forall i :: 0 <= i < n ==> steps[..n][i] == steps[i];
    }
  }

  /** The writes of each step, step by step. */
  function FlatWrites(steps: seq<Trace>): seq<WriteCmd>
  {
    if steps == [] then [] else FlatWrites(steps[..|steps| - 1]) + Writes(steps[|steps| - 1].events)
  }

  /** A sequence that returns normally submits the writes of all its steps, in order. */
  lemma {:induction false} SequenceWrites(steps: seq<Trace>)
    requires Sequence(steps).outcome == Done
    ensures Writes(Sequence(steps).events) == FlatWrites(steps)
  {
    if steps != [] {
      var n := |steps| - 1;
      WritesOfThen(Sequence(steps[..n]), steps[n]);
      SequenceWrites(steps[..n]);
    } else {
      assert Writes([]) == [];
    }
  }

  /** The namespace loop returns normally exactly when every namespace iteration does. */
  lemma NamespacesDoneIff(spaces: seq<Namespace>, envs: seq<NamespaceEnv>, ioqId: nat, ident: CtrlrIdent)
    requires |envs| == |spaces|
    ensures NamespacesTrace(spaces, envs, ioqId, ident).outcome == Done <==>
      forall i :: 0 <= i < |spaces| ==> NamespaceTrace(spaces[i], envs[i], ioqId, ident).outcome == Done
  {
    SequenceDoneIff(NamespaceSteps(spaces, envs, ioqId, ident));
    forall i | 0 <= i < |spaces|
      ensures NamespaceSteps(spaces, envs, ioqId, ident)[i] == NamespaceTrace(spaces[i], envs[i], ioqId, ident)
    {
      NamespaceStepAt(spaces, envs, i, ioqId, ident);
    }
  }

  /**
   * Steps that each submit the edge writes of their namespace when they
   * return normally submit, when all do, the edge writes of every
   * namespace, namespace by namespace.
   */
  lemma {:induction false} FlatEdgeWrites(steps: seq<Trace>, spaces: seq<Namespace>)
    requires |steps| == |spaces|
    requires forall i :: 0 <= i < |steps| ==> steps[i].outcome == Done
    requires forall i :: 0 <= i < |steps| ==> Writes(steps[i].events) == EdgeWrites(spaces[i])
    ensures FlatWrites(steps) == AllEdgeWrites(spaces)
  {
    if steps != [] {
      var n := |steps| - 1;
      assert forall i :: 0 <= i < n ==> steps[..n][i] == steps[i] && spaces[..n][i] == spaces[i];
      FlatEdgeWrites(steps[..n], spaces[..n]);
    }
  }

  /**
   * A namespace loop that returns normally ran only on namespaces with
   * metadata and submitted their edge writes, namespace by namespace.
   */
  lemma NamespacesRunThrough(spaces: seq<Namespace>, envs: seq<NamespaceEnv>, ioqId: nat, ident: CtrlrIdent)
    requires |envs| == |spaces|
    requires NamespacesTrace(spaces, envs, ioqId, ident).outcome == Done
    ensures forall i :: 0 <= i < |spaces| ==> CarriesMeta(spaces[i].nsType)
    ensures Writes(NamespacesTrace(spaces, envs, ioqId, ident).events) == AllEdgeWrites(spaces)
  {
    var steps := NamespaceSteps(spaces, envs, ioqId, ident);
    SequenceDoneIff(steps);
    SequenceWrites(steps);
    StepsRunThrough(spaces, envs, ioqId, ident);
    FlatEdgeWrites(steps, spaces);
  }

  /** Namespace iterations that all return normally ran on namespaces with metadata and each submitted its edge writes. */
  lemma StepsRunThrough(spaces: seq<Namespace>, envs: seq<NamespaceEnv>, ioqId: nat, ident: CtrlrIdent)
    requires |envs| == |spaces|
    requires forall i :: 0 <= i < |spaces| ==> NamespaceSteps(spaces, envs, ioqId, ident)[i].outcome == Done
    ensures forall i :: 0 <= i < |spaces| ==> CarriesMeta(spaces[i].nsType)
    ensures forall i :: 0 <= i < |spaces| ==>
      Writes(NamespaceSteps(spaces, envs, ioqId, ident)[i].events) == EdgeWrites(spaces[i])
  {
    forall i | 0 <= i < |spaces|
      ensures CarriesMeta(spaces[i].nsType)
      ensures Writes(NamespaceSteps(spaces, envs, ioqId, ident)[i].events) == EdgeWrites(spaces[i])
    {
      StepRunsThrough(spaces, envs, i, ioqId, ident);
    }
  }

  /** Step i of the namespace loop, returning normally, ran on a namespace with metadata and submitted its edge writes. */
  lemma StepRunsThrough(spaces: seq<Namespace>, envs: seq<NamespaceEnv>, i: nat, ioqId: nat, ident: CtrlrIdent)
    requires |envs| == |spaces| && i < |spaces|
    requires NamespaceSteps(spaces, envs, ioqId, ident)[i].outcome == Done
    ensures CarriesMeta(spaces[i].nsType)
    ensures Writes(NamespaceSteps(spaces, envs, ioqId, ident)[i].events) == EdgeWrites(spaces[i])
  {
    NamespaceStepAt(spaces, envs, i, ioqId, ident);
    NamespaceRunsThrough(spaces[i], envs[i], ioqId, ident);
  }

  /**
   * The whole body returns normally exactly when the complete disable is
   * accepted and every namespace iteration returns normally.
   */
  lemma ScenarioDoneIff(disableOk: bool, spaces: seq<Namespace>, envs: seq<NamespaceEnv>,
                        ioqId: nat, ident: CtrlrIdent)
    requires |envs| == |spaces|
    ensures ScenarioTrace(disableOk, spaces, envs, ioqId, ident).outcome == Done <==>
      disableOk && forall i :: 0 <= i < |spaces| ==> NamespaceTrace(spaces[i], envs[i], ioqId, ident).outcome == Done
  {
    NamespacesDoneIff(spaces, envs, ioqId, ident);
  }

  /** Whatever happens later, the first call of the body is the complete disable. */
  lemma ScenarioStartsWithDisable(disableOk: bool, spaces: seq<Namespace>, envs: seq<NamespaceEnv>,
                                  ioqId: nat, ident: CtrlrIdent)
    requires |envs| == |spaces|
    ensures |ScenarioTrace(disableOk, spaces, envs, ioqId, ident).events| >= 1
    ensures ScenarioTrace(disableOk, spaces, envs, ioqId, ident).events[0] == StateSet(DisableCompletely)
  {
  }

  /**
   * A body that returns normally wrote only to namespaces with metadata,
   * and submitted, in order, the three edge writes of every namespace and
   * nothing else.
   */
  lemma ScenarioRunsThrough(disableOk: bool, spaces: seq<Namespace>, envs: seq<NamespaceEnv>,
                            ioqId: nat, ident: CtrlrIdent)
    requires |envs| == |spaces|
    requires ScenarioTrace(disableOk, spaces, envs, ioqId, ident).outcome == Done
    ensures forall i :: 0 <= i < |spaces| ==> CarriesMeta(spaces[i].nsType)
    ensures Writes(ScenarioTrace(disableOk, spaces, envs, ioqId, ident).events) == AllEdgeWrites(spaces)
  {
    var head := Trace([StateSet(DisableCompletely), AdminQueuesCreated(ADMIN_Q_ENTRIES)], Done);
    var body := NamespacesTrace(spaces, envs, ioqId, ident);
    assert disableOk && body.outcome == Done;
    NamespacesRunThrough(spaces, envs, ioqId, ident);
    WritesOfThen(head, body);
    WritesOfQuiet(head.events);
  }
}
