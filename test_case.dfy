/**
 * The test lifecycle of test.cpp: a test case holds its device handle,
 * specification revision, names, error masks and description; `Run` resets
 * the sticky PCI error bits, dumps the kernel metrics, runs the test body
 * and then judges the outcome by a masked check of the status registers.
 *
 * A set bit in an error mask names an error bit that must be CLEAR: the
 * check fails when the register has that bit set.
 */
module TestCase {
  import opened Platform
  import BitScan

  /** Per-register error masks, widened to 64 bits as the check uses them. */
  datatype ErrorRegs = ErrorRegs(sts: bv64, pxds: bv64, aeruces: bv64, csts: bv64)

  /** The revision of the NVM Express specification a test targets. */
  datatype SpecRev = SpecRev10b | OtherSpecRev(id: nat)

  /** Compliance citation and descriptions of a test. */
  datatype TestDesc = TestDesc(compliance: string, short: string, long: string)

  const EMPTY_DESC := TestDesc("", "", "")

  /** How a step of the lifecycle ended: normally, or by an exception. */
  datatype Completion = Normal | ThrewFrmwkEx | ThrewOther

  datatype Option<T> = None | Some(value: T)

  // ---------------------------------------------------------------------
  // Which registers are reset and checked
  // ---------------------------------------------------------------------

  /** The status register a capability entry contributes, if any. */
  function CapReg(cap: PciCap): seq<Reg>
  {
    match cap
    case PxCap => [PciPxds]
    case AerCap => [PciAeruces]
    case OtherCap(_) => []
  }

  /** The optional registers, in capability-list order. */
  function CapRegs(caps: seq<PciCap>): (regs: seq<Reg>)
    ensures |regs| <= |caps|
  {
    if caps == [] then []
    else CapRegs(caps[..|caps| - 1]) + CapReg(caps[|caps| - 1])
  }

  /**
   * The optional registers are PXDS and AERUCES only; PXDS is among them
   * exactly when PXCAP is listed, AERUCES exactly when AERCAP is.
   */
  lemma {:induction false} CapRegsPresent(caps: seq<PciCap>)
    ensures forall r :: r in CapRegs(caps) ==> r == PciPxds || r == PciAeruces
    ensures PciPxds in CapRegs(caps) <==> PxCap in caps
    ensures PciAeruces in CapRegs(caps) <==> AerCap in caps
  {
    if caps != [] {
      assert caps == caps[..|caps| - 1] + [caps[|caps| - 1]];
      CapRegsPresent(caps[..|caps| - 1]);
    }
  }

  /** The registers the check reads, in order: STS, the optional ones, CSTS. */
  function CheckedRegs(caps: seq<PciCap>): (regs: seq<Reg>)
  {
    [PciSts] + CapRegs(caps) + [CtlCsts]
  }

  /** The mask of a register's error bits. */
  function MaskFor(errRegs: ErrorRegs, reg: Reg): bv64
  {
    match reg
    case PciSts => errRegs.sts
    case PciPxds => errRegs.pxds
    case PciAeruces => errRegs.aeruces
    case CtlCsts => errRegs.csts
  }

  /**
   * What the reset writes to a register: all ones of the register's width
   * for STS, PXDS and AERUCES. The reset never writes CSTS; its 0 is a
   * placeholder that no reset write carries (see `ResetSparesCsts`).
   */
  function ResetValue(reg: Reg): bv64
  {
    match reg
    case PciSts => 0xffff
    case PciPxds => 0xffff
    case PciAeruces => 0xffff_ffff
    case CtlCsts => 0
  }

  /** The writes of the capability loop of the reset. */
  function CapWrites(caps: seq<PciCap>): seq<Effect>
  {
    if caps == [] then []
    else
      CapWrites(caps[..|caps| - 1]) +
      match caps[|caps| - 1]
      case PxCap => [Wrote(PciPxds, 0xffff)]
      case AerCap => [Wrote(PciAeruces, 0xffff_ffff)]
      case OtherCap(_) => []
  }

  /** The writes of the reset: STS, then one per PXCAP or AERCAP entry. */
  function ResetWrites(caps: seq<PciCap>): seq<Effect>
  {
    [Wrote(PciSts, 0xffff)] + CapWrites(caps)
  }

  /**
   * The reset writes exactly the registers the check reads except CSTS, in
   * the same order, each with all ones of its width.
   */
  lemma {:induction false} ResetWritesCheckedRegs(caps: seq<PciCap>)
    ensures |ResetWrites(caps)| == |CheckedRegs(caps)| - 1
    ensures forall i :: 0 <= i < |ResetWrites(caps)| ==>
      ResetWrites(caps)[i] == Wrote(CheckedRegs(caps)[i], ResetValue(CheckedRegs(caps)[i]))
  {
    CapWritesMatch(caps);
  }

  lemma {:induction false} CapWritesMatch(caps: seq<PciCap>)
    ensures |CapWrites(caps)| == |CapRegs(caps)|
    ensures forall i :: 0 <= i < |CapWrites(caps)| ==>
      CapWrites(caps)[i] == Wrote(CapRegs(caps)[i], ResetValue(CapRegs(caps)[i]))
  {
    if caps != [] {
      CapWritesMatch(caps[..|caps| - 1]);
    }
  }

  /** The reset never writes the controller status register. */
  lemma ResetSparesCsts(caps: seq<PciCap>)
    ensures forall e :: e in ResetWrites(caps) ==> e.Wrote? && e.reg != CtlCsts
  {
    ResetWritesCheckedRegs(caps);
    CapRegsPresent(caps);
    forall e | e in ResetWrites(caps) ensures e.Wrote? && e.reg != CtlCsts {
      var i :| 0 <= i < |ResetWrites(caps)| && ResetWrites(caps)[i] == e;
      assert CheckedRegs(caps)[i] in [PciSts] + CapRegs(caps);
    }
  }

  // ---------------------------------------------------------------------
  // The masked register check
  // ---------------------------------------------------------------------

  /** The source's comparison: the value equals itself with its masked bits cleared. */
  predicate Clean(value: bv64, mask: bv64)
  {
    value == value & !mask
  }

  /** A value is clean exactly when none of its masked bits is set. */
  lemma CleanMeansNoMaskedBit(value: bv64, mask: bv64)
    ensures Clean(value, mask) <==> value & mask == 0
  {
  }

  /** A register reads successfully and shows none of its error bits. */
  predicate Healthy(reg: Reg, errRegs: ErrorRegs, values: map<Reg, bv64>)
  {
    reg in values && Clean(values[reg], MaskFor(errRegs, reg))
  }

  /** The check over `regs` in order, stopping at the first failure. */
  function RegsPass(regs: seq<Reg>, errRegs: ErrorRegs, values: map<Reg, bv64>): (ok: bool)
    ensures ok <==> forall i :: 0 <= i < |regs| ==> Healthy(regs[i], errRegs, values)
  {
    if regs == [] then true
    else
      regs[0] in values && Clean(values[regs[0]], MaskFor(errRegs, regs[0]))
      && RegsPass(regs[1..], errRegs, values)
  }

  /** The reads the check performs: up to and including the first failure. */
  function ReadsMade(regs: seq<Reg>, errRegs: ErrorRegs, values: map<Reg, bv64>): seq<Effect>
  {
    if regs == [] then []
    else if regs[0] in values && Clean(values[regs[0]], MaskFor(errRegs, regs[0])) then
      [ReadOf(regs[0])] + ReadsMade(regs[1..], errRegs, values)
    else [ReadOf(regs[0])]
  }

  /** The position of the first register that fails the check. */
  function FirstFailure(regs: seq<Reg>, errRegs: ErrorRegs, values: map<Reg, bv64>): (k: nat)
    requires !RegsPass(regs, errRegs, values)
    ensures k < |regs| && !Healthy(regs[k], errRegs, values)
    ensures forall j :: 0 <= j < k ==> Healthy(regs[j], errRegs, values)
  {
    if !Healthy(regs[0], errRegs, values) then 0
    else 1 + FirstFailure(regs[1..], errRegs, values)
  }

  /** One read per register, in order. */
  function ReadsOf(regs: seq<Reg>): (accesses: seq<Effect>)
    ensures |accesses| == |regs|
    ensures forall i :: 0 <= i < |regs| ==> accesses[i] == ReadOf(regs[i])
  {
    if regs == [] then [] else [ReadOf(regs[0])] + ReadsOf(regs[1..])
  }

  /**
   * The check reads every register in order when all pass, and otherwise
   * stops right after the first failing register.
   */
  lemma {:induction false} ReadsStopAtFirstFailure(regs: seq<Reg>, errRegs: ErrorRegs, values: map<Reg, bv64>)
    ensures RegsPass(regs, errRegs, values) ==> ReadsMade(regs, errRegs, values) == ReadsOf(regs)
    ensures !RegsPass(regs, errRegs, values) ==>
      ReadsMade(regs, errRegs, values) == ReadsOf(regs[..FirstFailure(regs, errRegs, values) + 1])
  {
    if regs != [] {
      ReadsStopAtFirstFailure(regs[1..], errRegs, values);
      if Healthy(regs[0], errRegs, values) && !RegsPass(regs, errRegs, values) {
        assert regs[1..][..FirstFailure(regs[1..], errRegs, values) + 1]
          == regs[..FirstFailure(regs, errRegs, values) + 1][1..];
      }
    }
  }

  /** The check over a concatenation is the check of the front, then the rest. */
  lemma {:induction false} ReadsMadeConcat(a: seq<Reg>, b: seq<Reg>, errRegs: ErrorRegs, values: map<Reg, bv64>)
    ensures ReadsMade(a + b, errRegs, values) ==
      ReadsMade(a, errRegs, values) + (if RegsPass(a, errRegs, values) then ReadsMade(b, errRegs, values) else [])
  {
    if a == [] {
      assert a + b == b;
    } else {
      var ab := a + b;
      assert ab[0] == a[0];
      assert ab[1..] == a[1..] + b;
      ReadsMadeConcat(a[1..], b, errRegs, values);
      if Healthy(a[0], errRegs, values) {
        assert RegsPass(a, errRegs, values) == RegsPass(a[1..], errRegs, values);
        assert ReadsMade(ab, errRegs, values) == [ReadOf(a[0])] + ReadsMade(a[1..] + b, errRegs, values);
      } else {
        assert !RegsPass(a, errRegs, values);
      }
    }
  }

  /** The optional registers of two capability lists in a row. */
  lemma {:induction false} CapRegsAppend(a: seq<PciCap>, b: seq<PciCap>)
    ensures CapRegs(a + b) == CapRegs(a) + CapRegs(b)
    decreases |b|
  {
    if b == [] {
      assert a + b == a;
    } else {
      var n := |b| - 1;
      assert (a + b)[..|a + b| - 1] == a + b[..n];
      assert (a + b)[|a + b| - 1] == b[n];
      CapRegsAppend(a, b[..n]);
    }
  }

  /** The capability registers of a list split at any point. */
  lemma CapRegsSplit(caps: seq<PciCap>, i: nat)
    requires i <= |caps|
    ensures CapRegs(caps) == CapRegs(caps[..i]) + CapRegs(caps[i..])
  {
    assert caps == caps[..i] + caps[i..];
    CapRegsAppend(caps[..i], caps[i..]);
  }

  /**
   * Entry i of the capability list adds its registers after those of the
   * entries before it, and the optional registers split around them.
   */
  lemma CapLoopStep(caps: seq<PciCap>, i: nat)
    requires i < |caps|
    ensures CapRegs(caps[..i + 1]) == CapRegs(caps[..i]) + CapReg(caps[i])
    ensures CapRegs(caps) == CapRegs(caps[..i]) + CapReg(caps[i]) + CapRegs(caps[i + 1..])
  {
    assert caps[..i + 1][..i] == caps[..i];
    assert caps[..i + 1][i] == caps[i];
    CapRegsSplit(caps, i + 1);
  }

  /**
   * The capability loop of the check, one entry further: a PXCAP or AERCAP
   * entry adds the read of its register and either passes or ends the
   * capability part of the check there; any other entry changes nothing.
   */
  lemma CapCheckStep(caps: seq<PciCap>, i: nat, errRegs: ErrorRegs, values: map<Reg, bv64>)
    requires i < |caps|
    requires RegsPass(CapRegs(caps[..i]), errRegs, values)
    ensures var p := CapRegs(caps[..i]);
      var q := CapRegs(caps[..i + 1]);
      var reg := if caps[i] == PxCap then PciPxds else PciAeruces;
      (caps[i].OtherCap? ==> q == p) &&
      (!caps[i].OtherCap? && Healthy(reg, errRegs, values) ==>
        RegsPass(q, errRegs, values) && ReadsMade(q, errRegs, values) == ReadsMade(p, errRegs, values) + [ReadOf(reg)]) &&
      (!caps[i].OtherCap? && !Healthy(reg, errRegs, values) ==>
        !RegsPass(CapRegs(caps), errRegs, values) &&
        ReadsMade(CapRegs(caps), errRegs, values) == ReadsMade(p, errRegs, values) + [ReadOf(reg)])
  {
    var p := CapRegs(caps[..i]);
    CapLoopStep(caps, i);
    if !caps[i].OtherCap? {
      var reg := if caps[i] == PxCap then PciPxds else PciAeruces;
      assert CapReg(caps[i]) == [reg];
      CheckStep(p, reg, CapRegs(caps[i + 1..]), errRegs, values);
    } else {
      assert p + CapReg(caps[i]) == p;
    }
  }

  /**
   * The whole check in three parts: STS first, then the optional registers
   * only when STS is healthy, then CSTS only when all of those pass.
   */
  lemma CheckedRegsParts(caps: seq<PciCap>, errRegs: ErrorRegs, values: map<Reg, bv64>)
    ensures RegsPass(CheckedRegs(caps), errRegs, values) <==>
      Healthy(PciSts, errRegs, values) && RegsPass(CapRegs(caps), errRegs, values) && Healthy(CtlCsts, errRegs, values)
    ensures !Healthy(PciSts, errRegs, values) ==>
      ReadsMade(CheckedRegs(caps), errRegs, values) == [ReadOf(PciSts)]
    ensures Healthy(PciSts, errRegs, values) && !RegsPass(CapRegs(caps), errRegs, values) ==>
      ReadsMade(CheckedRegs(caps), errRegs, values) == [ReadOf(PciSts)] + ReadsMade(CapRegs(caps), errRegs, values)
    ensures Healthy(PciSts, errRegs, values) && RegsPass(CapRegs(caps), errRegs, values) ==>
      ReadsMade(CheckedRegs(caps), errRegs, values) ==
        [ReadOf(PciSts)] + ReadsMade(CapRegs(caps), errRegs, values) + [ReadOf(CtlCsts)]
  {
    var opt := CapRegs(caps);
    var tail := opt + [CtlCsts];
    assert CheckedRegs(caps) == [PciSts] + tail;
    ReadsMadeConcat([PciSts], tail, errRegs, values);
    ReadsMadeConcat(opt, [CtlCsts], errRegs, values);
    assert RegsPass([PciSts], errRegs, values) == Healthy(PciSts, errRegs, values);
    assert ReadsMade([PciSts], errRegs, values) == [ReadOf(PciSts)];
    assert ReadsMade([CtlCsts], errRegs, values) == if Healthy(CtlCsts, errRegs, values) then [ReadOf(CtlCsts)] else [ReadOf(CtlCsts)];
    RegsPassConcat([PciSts], tail, errRegs, values);
    RegsPassConcat(opt, [CtlCsts], errRegs, values);
    assert RegsPass([CtlCsts], errRegs, values) == Healthy(CtlCsts, errRegs, values);
  }

  /** The check passes over a concatenation exactly when it passes over both parts. */
  lemma {:induction false} RegsPassConcat(a: seq<Reg>, b: seq<Reg>, errRegs: ErrorRegs, values: map<Reg, bv64>)
    ensures RegsPass(a + b, errRegs, values) <==> RegsPass(a, errRegs, values) && RegsPass(b, errRegs, values)
  {
    if a == [] {
      assert a + b == b;
    } else {
      assert (a + b)[0] == a[0];
      assert (a + b)[1..] == a[1..] + b;
      RegsPassConcat(a[1..], b, errRegs, values);
    }
  }

  lemma AppendAssoc<T>(a: seq<T>, b: seq<T>, c: seq<T>)
    ensures a + b + c == a + (b + c)
  {
  }

  /**
   * One more register in the check: after a passing prefix, a healthy
   * register extends the reads by its own read; an unhealthy one ends the
   * check there, whatever follows.
   */
  lemma CheckStep(p: seq<Reg>, reg: Reg, rest: seq<Reg>, errRegs: ErrorRegs, values: map<Reg, bv64>)
    requires RegsPass(p, errRegs, values)
    ensures Healthy(reg, errRegs, values) ==>
      RegsPass(p + [reg], errRegs, values) &&
      ReadsMade(p + [reg], errRegs, values) == ReadsMade(p, errRegs, values) + [ReadOf(reg)]
    ensures !Healthy(reg, errRegs, values) ==>
      !RegsPass(p + [reg] + rest, errRegs, values) &&
      ReadsMade(p + [reg] + rest, errRegs, values) == ReadsMade(p, errRegs, values) + [ReadOf(reg)]
  {
    SingleCheck(reg, errRegs, values);
    if Healthy(reg, errRegs, values) {
      RegsPassConcat(p, [reg], errRegs, values);
      ReadsMadeConcat(p, [reg], errRegs, values);
    } else {
      assert p + [reg] + rest == p + ([reg] + rest);
      assert ([reg] + rest)[0] == reg;
      assert !RegsPass([reg] + rest, errRegs, values);
      assert ReadsMade([reg] + rest, errRegs, values) == [ReadOf(reg)];
      RegsPassConcat(p, [reg] + rest, errRegs, values);
      ReadsMadeConcat(p, [reg] + rest, errRegs, values);
    }
  }

  /** The check over a single register. */
  lemma SingleCheck(reg: Reg, errRegs: ErrorRegs, values: map<Reg, bv64>)
    ensures RegsPass([reg], errRegs, values) == Healthy(reg, errRegs, values)
    ensures ReadsMade([reg], errRegs, values) == [ReadOf(reg)]
  {
    assert [reg][1..] == [];
  }


  /**
   * The bit position the failure message names is an error bit of the mask
   * that is set in the register.
   */
  lemma OffendingBitIsMaskedError(value: bv64, mask: bv64)
    requires !Clean(value, mask)
    ensures var p := BitScan.LeastDifferingBit(value, value & !mask);
      0 <= p < 64 && BitScan.BitSet(value, p) && BitScan.BitSet(mask, p)
  {
    var p := BitScan.LeastDifferingBit(value, value & !mask);
    DifferenceIsMaskedError(value, mask, p);
  }

  /** A position where a value and its masked-off copy differ is set in both. */
  lemma DifferenceIsMaskedError(value: bv64, mask: bv64, p: nat)
    requires p < 64 && BitScan.DiffersAt(value, value & !mask, p)
    ensures BitScan.BitSet(value, p) && BitScan.BitSet(mask, p)
  {
    MaskedDifference(value, mask, BitScan.Mask(p));
  }

  lemma MaskedDifference(value: bv64, mask: bv64, k: bv64)
    requires BitScan.Differs(value, value & !mask, k)
    ensures value & k != 0 && mask & k != 0
  {
  }

  /** Below position 31 the source's scan reports that same position. */
  lemma OffendingBitReported(value: bv64, mask: bv64, beyond: seq<bv64>)
    requires !Clean(value, mask) && |beyond| == 33
    requires BitScan.LeastDifferingBit(value, value & !mask) <= 30
    ensures BitScan.ScanAsWritten(value, value & !mask, beyond, 0) == BitScan.LeastDifferingBit(value, value & !mask)
  {
    BitScan.ReportedPosition(value, value & !mask, beyond);
  }

  // ---------------------------------------------------------------------
  // The lifecycle
  // ---------------------------------------------------------------------

  /** The effects of `Run`, given how the metrics dump and the body end. */
  function RunEffects(caps: seq<PciCap>, errRegs: ErrorRegs, values: map<Reg, bv64>,
                      metrics: Completion, body: Completion): seq<Effect>
  {
    ResetWrites(caps) + [KernelMetricsDumped] +
    if metrics != Normal then []
    else [CoreTestRan] + if body != Normal then [] else ReadsMade(CheckedRegs(caps), errRegs, values)
  }

  /**
   * `Run` resets first and dumps the kernel metrics next; registers are read
   * only after a body that returned normally, never after an exception.
   */
  lemma RunOrder(caps: seq<PciCap>, errRegs: ErrorRegs, values: map<Reg, bv64>,
                 metrics: Completion, body: Completion)
    ensures var e := RunEffects(caps, errRegs, values, metrics, body);
      var n := |ResetWrites(caps)|;
      e[..n] == ResetWrites(caps) && e[n] == KernelMetricsDumped &&
      (metrics == Normal <==> n + 1 < |e| && e[n + 1] == CoreTestRan) &&
      forall i :: 0 <= i < |e| && e[i].ReadOf? ==> metrics == Normal && body == Normal && n + 1 < i
  {
    var e := RunEffects(caps, errRegs, values, metrics, body);
    var n := |ResetWrites(caps)|;
    ResetSparesCsts(caps);
    forall i | 0 <= i < |e| && e[i].ReadOf?
      ensures metrics == Normal && body == Normal && n + 1 < i
    {
    }
  }

  class Test {
    var fd: int
    var specRev: SpecRev
    var grpName: string
    var testName: string
    var errRegs: ErrorRegs
    var desc: TestDesc

    /** A test on a valid device handle; the description starts empty. */
    constructor (fd: int, grpName: string, testName: string, specRev: SpecRev, errRegs: ErrorRegs)
      requires fd >= 0
      ensures this.fd == fd && this.specRev == specRev && this.grpName == grpName
      ensures this.testName == testName && this.errRegs == errRegs && desc == EMPTY_DESC
    {
      this.fd := fd;
      this.specRev := specRev;
      this.grpName := grpName;
      this.testName := testName;
      this.errRegs := errRegs;
      desc := EMPTY_DESC;
    }

    /**
     * Construction as the source performs it: a negative handle raises the
     * framework exception (None); otherwise the arguments are kept as given.
     */
    static method Create(fd: int, grpName: string, testName: string, specRev: SpecRev, errRegs: ErrorRegs)
      returns (t: Option<Test>)
      ensures t.None? <==> fd < 0
      ensures t.Some? ==> fresh(t.value) && t.value.fd == fd && t.value.specRev == specRev
      ensures t.Some? ==> t.value.grpName == grpName && t.value.testName == testName
      ensures t.Some? ==> t.value.errRegs == errRegs && t.value.desc == EMPTY_DESC
    {
      if fd < 0 {
        return None;
      }
      var test := new Test(fd, grpName, testName, specRev, errRegs);
      return Some(test);
    }

    /** The copy constructor copies exactly the six fields. */
    constructor Copy(other: Test)
      ensures fd == other.fd && specRev == other.specRev && grpName == other.grpName
      ensures testName == other.testName && errRegs == other.errRegs && desc == other.desc
    {
      fd := other.fd;
      specRev := other.specRev;
      grpName := other.grpName;
      testName := other.testName;
      errRegs := other.errRegs;
      desc := other.desc;
    }

    /** Assignment overwrites exactly the six fields with those of `other`. */
    method Assign(other: Test)
      modifies this
      ensures fd == old(other.fd) && specRev == old(other.specRev) && grpName == old(other.grpName)
      ensures testName == old(other.testName) && errRegs == old(other.errRegs) && desc == old(other.desc)
    {
      var f, s, g, n, e, d := other.fd, other.specRev, other.grpName, other.testName, other.errRegs, other.desc;
      fd := f;
      specRev := s;
      grpName := g;
      testName := n;
      errRegs := e;
      desc := d;
    }

    /** Writes all ones to STS and to the status register of each PXCAP or AERCAP entry. */
    method ResetStatusRegErrors(dev: Device)
      modifies dev
      ensures dev.effects == old(dev.effects) + ResetWrites(dev.caps)
    {
      dev.Write(PciSts, 0xffff);
      var i := 0;
      while i < |dev.caps|
        invariant 0 <= i <= |dev.caps|
        invariant dev.effects == old(dev.effects) + [Wrote(PciSts, 0xffff)] + CapWrites(dev.caps[..i])
      {
        assert dev.caps[..i + 1][..i] == dev.caps[..i];
        if dev.caps[i] == PxCap {
          dev.Write(PciPxds, 0xffff);
        } else if dev.caps[i] == AerCap {
          dev.Write(PciAeruces, 0xffff_ffff);
        }
        i := i + 1;
      }
      assert dev.caps[..i] == dev.caps;
    }

    /**
     * The masked check: true exactly when every checked register reads and
     * shows none of its error bits; reads STS, the optional registers and
     * CSTS in order and stops at the first failure.
     */
    method GetStatusRegErrors(dev: Device) returns (ok: bool)
      modifies dev
      ensures ok == RegsPass(CheckedRegs(dev.caps), errRegs, dev.values)
      ensures dev.effects == old(dev.effects) + ReadsMade(CheckedRegs(dev.caps), errRegs, dev.values)
    {
      CheckedRegsParts(dev.caps, errRegs, dev.values);
      ghost var start := dev.effects;
      ok := CheckRegister(dev, PciSts);
      if !ok {
        return false;
      }
      ok := CheckCapRegisters(dev);
      ghost var opt := ReadsMade(CapRegs(dev.caps), errRegs, dev.values);
      AppendAssoc(start, [ReadOf(PciSts)], opt);
      if !ok {
        return false;
      }
      ok := CheckRegister(dev, CtlCsts);
      AppendAssoc(start, [ReadOf(PciSts)] + opt, [ReadOf(CtlCsts)]);
    }

    /**
     * The loop over the capability list inside the check: reads the
     * status register of each PXCAP or AERCAP entry in order and stops at
     * the first one that fails.
     */
    method CheckCapRegisters(dev: Device) returns (ok: bool)
      modifies dev
      ensures ok == RegsPass(CapRegs(dev.caps), errRegs, dev.values)
      ensures dev.effects == old(dev.effects) + ReadsMade(CapRegs(dev.caps), errRegs, dev.values)
    {
      ghost var caps, values, start := dev.caps, dev.values, dev.effects;
      ghost var made: seq<Effect> := [];
      var i := 0;
      while i < |dev.caps|
        invariant 0 <= i <= |caps|
        invariant RegsPass(CapRegs(caps[..i]), errRegs, values)
        invariant made == ReadsMade(CapRegs(caps[..i]), errRegs, values)
        invariant dev.effects == start + made
      {
        CapCheckStep(caps, i, errRegs, values);
        if dev.caps[i] == PxCap || dev.caps[i] == AerCap {
          var reg := if dev.caps[i] == PxCap then PciPxds else PciAeruces;
          ok := CheckRegister(dev, reg);
          AppendAssoc(start, made, [ReadOf(reg)]);
          made := made + [ReadOf(reg)];
          if !ok {
            return false;
          }
        }
        i := i + 1;
      }
      assert caps[..i] == caps;
      ok := true;
    }

    /**
     * Reads one register and compares it with its error bits cleared; false
     * when the read fails or an error bit is set.
     */
    method CheckRegister(dev: Device, reg: Reg) returns (ok: bool)
      modifies dev
      ensures ok == Healthy(reg, errRegs, dev.values)
      ensures dev.effects == old(dev.effects) + [ReadOf(reg)]
    {
      var read, value := dev.Read(reg);
      if !read {
        return false;
      }
      var mask := MaskFor(errRegs, reg);
      if !Clean(value, mask) {
        return false;
      }
      return true;
    }

    /** The base test body only logs and returns normally. */
    method RunCoreTest() returns (c: Completion)
      ensures c == Normal
    {
      c := Normal;
    }

    /**
     * Runs the test: true exactly when the metrics dump and the body return
     * normally and the register check passes; every exception becomes false.
     * `metrics` and `body` say how the kernel metrics dump and the test
     * body end.
     */
    method Run(dev: Device, metrics: Completion, body: Completion) returns (passed: bool)
      modifies dev
      ensures passed <==> metrics == Normal && body == Normal && RegsPass(CheckedRegs(dev.caps), errRegs, dev.values)
      ensures dev.effects == old(dev.effects) + RunEffects(dev.caps, errRegs, dev.values, metrics, body)
    {
      ghost var start := dev.effects;
      ResetStatusRegErrors(dev);
      dev.Note(KernelMetricsDumped);
      ghost var before := ResetWrites(dev.caps) + [KernelMetricsDumped];
      AppendAssoc(start, ResetWrites(dev.caps), [KernelMetricsDumped]);
      if metrics != Normal {
        assert before + [] == before;
        return false;
      }
      dev.Note(CoreTestRan);
      AppendAssoc(start, before, [CoreTestRan]);
      if body != Normal {
        assert before + ([CoreTestRan] + []) == before + [CoreTestRan];
        return false;
      }
      passed := GetStatusRegErrors(dev);
      ghost var checks := ReadsMade(CheckedRegs(dev.caps), errRegs, dev.values);
      AppendAssoc(start, before + [CoreTestRan], checks);
      AppendAssoc(before, [CoreTestRan], checks);
    }
  }
}
