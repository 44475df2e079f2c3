/**
 * The hardware-facing collaborators of the test lifecycle, reduced to what
 * the lifecycle observes: the register-access interface (reads that return
 * a value or fail, writes), the PCI capability list, and an ordered record
 * of every effect the lifecycle has on the device.
 */
module Platform {

  /** The registers the lifecycle writes or checks. */
  datatype Reg =
    | PciSts      // PCI status register
    | PciPxds     // PCI Express device status, present with the PXCAP capability
    | PciAeruces  // PCI AER uncorrectable error status, present with the AERCAP capability
    | CtlCsts     // controller status register

  /** An entry of the PCI capability list the register layer reports. */
  datatype PciCap = PxCap | AerCap | OtherCap(id: nat)

  /** One effect on the device, in the order it happened. */
  datatype Effect =
    | Wrote(reg: Reg, value: bv64)
    | ReadOf(reg: Reg)
    | KernelMetricsDumped
    | CoreTestRan

  /**
   * The register-access collaborator. `values` is what a read of each
   * register returns during the run; reading a register absent from it
   * fails. Every effect is appended to `effects`.
   */
  class Device {
    const caps: seq<PciCap>
    const values: map<Reg, bv64>
    var effects: seq<Effect>

    constructor (caps: seq<PciCap>, values: map<Reg, bv64>)
      ensures this.caps == caps && this.values == values
      ensures effects == []
    {
      this.caps := caps;
      this.values := values;
      effects := [];
    }

    method Write(reg: Reg, value: bv64)
      modifies this
      ensures effects == old(effects) + [Wrote(reg, value)]
    {
      effects := effects + [Wrote(reg, value)];
    }

    /** A read succeeds exactly for the registers the device answers for. */
    method Read(reg: Reg) returns (ok: bool, value: bv64)
      modifies this
      ensures effects == old(effects) + [ReadOf(reg)]
      ensures ok <==> reg in values
      ensures ok ==> value == values[reg]
    {
      effects := effects + [ReadOf(reg)];
      ok := reg in values;
      value := if ok then values[reg] else 0;
    }

    /** Records an effect that is not a register access. */
    method Note(e: Effect)
      modifies this
      ensures effects == old(effects) + [e]
    {
      effects := effects + [e];
    }
  }
}
