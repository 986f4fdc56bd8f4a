/**
 * The trap-forwarding engine of a hardware hart, as functions on values.
 *
 * A `Machine` is everything the engine reads or writes: the saved
 * non-confidential hart state (the hypervisor's registers while a confidential
 * VM runs), the OpenSBI `mscratch` value the hart keeps aside, and the CSRs of
 * the physical hart. Every operation maps a machine to the machine after it;
 * operations that end in trap emulation yield a `Step`, because trap emulation
 * aborts the security monitor when `stvec` selects vectored delivery.
 *
 * The class `HardwareHarts.HardwareHart` performs the same operations in
 * place and is proved against these functions.
 */
module HartModel {
  import opened Wrappers
  import opened Bits
  import opened Riscv
  import opened Transformations

  /** The 32 integer registers. */
  type GprFile = s: seq<bv64> | |s| == 32 witness seq(32, _ => 0)

  /** The part of the saved hart state the engine touches: x0..x31, mepc, mstatus. */
  datatype ArchState = ArchState(gprs: GprFile, mepc: bv64, mstatus: bv64)
  {
    /** `set_gpr`. */
    function SetGpr(r: Gpr, v: bv64): ArchState {
      this.(gprs := gprs[r := v])
    }
  }

  /** The CSRs of the physical hart that the engine reads or writes. */
  datatype CsrFile = CsrFile(
    mscratch: bv64, mepc: bv64, mstatus: bv64, mcause: bv64,
    scause: bv64, stval: bv64, htval: bv64, sepc: bv64,
    stvec: bv64, sstatus: bv64, hstatus: bv64, vsie: bv64,
    vsscratch: bv64, vstval: bv64, vsepc: bv64, vstvec: bv64)

  datatype Machine = Machine(state: ArchState, previousMscratch: bv64, csr: CsrFile)

  /** The outcome of an operation that may abort: the new machine, or the machine as it was when the monitor panicked. */
  datatype Step = Done(after: Machine) | Panicked(atAbort: Machine)

  /** The machine an operation leaves behind, whether it completed or aborted. */
  function Last(r: Step): Machine {
    match r
    case Done(m) => m
    case Panicked(m) => m
  }

  // ---------------------------------------------------------------------------
  // Naming every register, to say which ones an operation may change.

  datatype CsrName =
    | Mscratch | Mepc | Mstatus | Mcause | Scause | Stval | Htval | Sepc
    | Stvec | Sstatus | Hstatus | Vsie | Vsscratch | Vstval | Vsepc | Vstvec

  /** A storage location of the machine: a saved register, the kept mscratch, or a CSR. */
  datatype Reg = GprReg(index: Gpr) | SavedMepc | SavedMstatus | PreviousMscratch | CsrReg(name: CsrName)

  /** `c'` differs from `c` at most in the CSRs `regs` names. */
  ghost predicate CsrsOnlyChange(c: CsrFile, c': CsrFile, regs: set<Reg>) {
    && (CsrReg(Mscratch) in regs || c'.mscratch == c.mscratch)
    && (CsrReg(Mepc) in regs || c'.mepc == c.mepc)
    && (CsrReg(Mstatus) in regs || c'.mstatus == c.mstatus)
    && (CsrReg(Mcause) in regs || c'.mcause == c.mcause)
    && (CsrReg(Scause) in regs || c'.scause == c.scause)
    && (CsrReg(Stval) in regs || c'.stval == c.stval)
    && (CsrReg(Htval) in regs || c'.htval == c.htval)
    && (CsrReg(Sepc) in regs || c'.sepc == c.sepc)
    && (CsrReg(Stvec) in regs || c'.stvec == c.stvec)
    && (CsrReg(Sstatus) in regs || c'.sstatus == c.sstatus)
    && (CsrReg(Hstatus) in regs || c'.hstatus == c.hstatus)
    && (CsrReg(Vsie) in regs || c'.vsie == c.vsie)
    && (CsrReg(Vsscratch) in regs || c'.vsscratch == c.vsscratch)
    && (CsrReg(Vstval) in regs || c'.vstval == c.vstval)
    && (CsrReg(Vsepc) in regs || c'.vsepc == c.vsepc)
    && (CsrReg(Vstvec) in regs || c'.vstvec == c.vstvec)
  }

  /** Every location outside `regs` holds the same value in `m'` as in `m`. */
  ghost predicate OnlyChanges(m: Machine, m': Machine, regs: set<Reg>) {
    && (forall i: Gpr :: GprReg(i) !in regs ==> m'.state.gprs[i] == m.state.gprs[i])
    && (SavedMepc in regs || m'.state.mepc == m.state.mepc)
    && (SavedMstatus in regs || m'.state.mstatus == m.state.mstatus)
    && (PreviousMscratch in regs || m'.previousMscratch == m.previousMscratch)
    && CsrsOnlyChange(m.csr, m'.csr, regs)
  }

  // ---------------------------------------------------------------------------
  // Trap emulation (`apply_trap`).

  /** `stvec` selects vectored trap delivery, which trap emulation does not support. */
  predicate Vectored(m: Machine) {
    AreBitsEnabled(m.csr.stvec, StvecModeVectored)
  }

  /** The locations trap emulation writes. */
  const TrapFootprint: set<Reg> := {SavedMstatus, SavedMepc, CsrReg(Sepc), CsrReg(Hstatus), CsrReg(Sstatus)}

  /** The mstatus bits trap emulation writes. */
  const TrapMstatusBits: bv64 :=
    Mask(MstatusMpv) | Mask(MstatusMpp) | Mask(MstatusMpie) | Mask(MstatusSie) | Mask(MstatusSpp)

  /** The hstatus bits trap emulation writes. */
  const TrapHstatusBits: bv64 := Mask(HstatusSpv) | Mask(HstatusSpvp) | Mask(HstatusGva)

  /**
   * mstatus after a trap into HS-mode from a virtualised guest (Table 8.8 of
   * the RISC-V Privileged Architecture 20211203): MPV clear and MPP set (the
   * monitor returns to HS-mode), MPIE and SIE clear (interrupts disabled), SPP
   * set (the trap came from a supervisor mode); every other bit as before.
   */
  ghost predicate MstatusAfterTrap(before: bv64, after: bv64) {
    && !AreBitsEnabled(after, MstatusMpv)
    && AreBitsEnabled(after, MstatusMpp)
    && !AreBitsEnabled(after, MstatusMpie)
    && !AreBitsEnabled(after, MstatusSie)
    && AreBitsEnabled(after, MstatusSpp)
    && AgreeOutside(after, before, TrapMstatusBits)
  }

  /**
   * hstatus after the same trap: SPV and SPVP set (the trap came from VS-mode),
   * GVA set exactly when stval holds a guest virtual address; every other bit
   * as before.
   */
  ghost predicate HstatusAfterTrap(before: bv64, after: bv64, gva: bool) {
    && AreBitsEnabled(after, HstatusSpv)
    && AreBitsEnabled(after, HstatusSpvp)
    && (AreBitsEnabled(after, HstatusGva) <==> gva)
    && AgreeOutside(after, before, TrapHstatusBits)
  }

  /** sstatus after the same trap: SPP set, agreeing with hstatus.SPVP; every other bit as before. */
  ghost predicate SstatusAfterTrap(before: bv64, after: bv64) {
    AreBitsEnabled(after, SstatusSpp) && AgreeOutside(after, before, Mask(SstatusSpp))
  }

  /**
   * `after` is `before` with a trap delivered to the hypervisor as if it came
   * straight from VS-mode: the status registers are rewritten as above, sepc
   * holds the interrupted resume address and the hypervisor resumes at its
   * trap vector.
   */
  ghost predicate TrapEmulated(before: Machine, after: Machine, gva: bool) {
    && MstatusAfterTrap(before.state.mstatus, after.state.mstatus)
    && after.csr.sepc == before.state.mepc
    && after.state.mepc == before.csr.stvec
    && HstatusAfterTrap(before.csr.hstatus, after.csr.hstatus, gva)
    && SstatusAfterTrap(before.csr.sstatus, after.csr.sstatus)
  }

  /**
   * The mstatus writes of `apply_trap`. The source writes SPP after it has
   * redirected mepc; the two writes touch different registers, so they are
   * taken together here.
   */
  function TrapMstatus(mstatus: bv64): (r: bv64)
    ensures MstatusAfterTrap(mstatus, r)
  {
    var v1 := DisableBit(mstatus, MstatusMpv);
    var v2 := EnableBit(v1, MstatusMpp);
    var v3 := DisableBit(v2, MstatusMpie);
    var v4 := DisableBit(v3, MstatusSie);
    var r := EnableBit(v4, MstatusSpp);
    AgreeOutsideTrans(v2, v1, mstatus, Mask(MstatusMpp), Mask(MstatusMpv));
    AgreeOutsideTrans(v3, v2, mstatus, Mask(MstatusMpie), Mask(MstatusMpv) | Mask(MstatusMpp));
    AgreeOutsideTrans(v4, v3, mstatus, Mask(MstatusSie), Mask(MstatusMpv) | Mask(MstatusMpp) | Mask(MstatusMpie));
    AgreeOutsideTrans(r, v4, mstatus, Mask(MstatusSpp),
      Mask(MstatusMpv) | Mask(MstatusMpp) | Mask(MstatusMpie) | Mask(MstatusSie));
    AgreeOutsideKeepsBit(v2, v1, MstatusMpp, MstatusMpv);
    AgreeOutsideKeepsBit(v3, v2, MstatusMpie, MstatusMpv);
    AgreeOutsideKeepsBit(v3, v2, MstatusMpie, MstatusMpp);
    AgreeOutsideKeepsBit(v4, v3, MstatusSie, MstatusMpv);
    AgreeOutsideKeepsBit(v4, v3, MstatusSie, MstatusMpp);
    AgreeOutsideKeepsBit(v4, v3, MstatusSie, MstatusMpie);
    AgreeOutsideKeepsBit(r, v4, MstatusSpp, MstatusMpv);
    AgreeOutsideKeepsBit(r, v4, MstatusSpp, MstatusMpp);
    AgreeOutsideKeepsBit(r, v4, MstatusSpp, MstatusMpie);
    AgreeOutsideKeepsBit(r, v4, MstatusSpp, MstatusSie);
    r
  }

  /** The hstatus writes of `apply_trap`. */
  function TrapHstatus(hstatus: bv64, gva: bool): (r: bv64)
    ensures HstatusAfterTrap(hstatus, r, gva)
  {
    var v := EnableBit(hstatus, HstatusSpv);
    var v := EnableBit(v, HstatusSpvp);
    if gva then EnableBit(v, HstatusGva) else DisableBit(v, HstatusGva)
  }

  /**
   * `apply_trap`: deliver a trap to the hypervisor. With vectored `stvec` the
   * monitor aborts before writing anything.
   */
  function ApplyTrap(m: Machine, gva: bool): (r: Step)
    ensures r.Panicked? <==> Vectored(m)
    ensures r.Panicked? ==> r.atAbort == m
    ensures r.Done? ==> TrapEmulated(m, r.after, gva) && OnlyChanges(m, r.after, TrapFootprint)
  {
    if Vectored(m) then Panicked(m)
    else
      var state := m.state.(mstatus := TrapMstatus(m.state.mstatus), mepc := m.csr.stvec);
      var csr := m.csr.(
        sepc := m.state.mepc,
        hstatus := TrapHstatus(m.csr.hstatus, gva),
        sstatus := EnableBit(m.csr.sstatus, SstatusSpp));
      Done(m.(state := state, csr := csr))
  }

  /**
   * `r` is the outcome of writing `written` and then emulating a trap with
   * guest-virtual-address flag `gva`: it aborts exactly when `stvec` is
   * vectored, with only `written` changed; otherwise the trap is delivered and
   * only `written` and the trap's own registers change.
   */
  ghost predicate Forwarded(m: Machine, r: Step, written: set<Reg>, gva: bool) {
    && (r.Panicked? <==> Vectored(m))
    && (r.Panicked? ==> OnlyChanges(m, r.atAbort, written))
    && (r.Done? ==> TrapEmulated(m, r.after, gva) && OnlyChanges(m, r.after, written + TrapFootprint))
  }

  /** The registers trap emulation reads or writes; the writes that precede it leave them alone. */
  const TrapInputs: set<Reg> := TrapFootprint + {CsrReg(Stvec)}

  /** Frames compose: changing `a` and then `b` changes at most `a + b`. */
  lemma OnlyChangesTrans(m: Machine, m': Machine, m'': Machine, a: set<Reg>, b: set<Reg>)
    requires OnlyChanges(m, m', a)
    requires OnlyChanges(m', m'', b)
    ensures OnlyChanges(m, m'', a + b)
  {
  }

  /** A frame may always be widened. */
  lemma OnlyChangesWiden(m: Machine, m': Machine, a: set<Reg>, b: set<Reg>)
    requires OnlyChanges(m, m', a)
    requires a <= b
    ensures OnlyChanges(m, m', b)
  {
  }

  /**
   * Writes that leave the trap's registers alone followed by trap emulation:
   * the trap is emulated as if the writes had not happened, and the two write
   * sets add up.
   */
  lemma ForwardedAfterWrites(m: Machine, pre: Machine, written: set<Reg>, gva: bool)
    requires OnlyChanges(m, pre, written)
    requires written !! TrapInputs
    ensures Forwarded(m, ApplyTrap(pre, gva), written, gva)
  {
    assert SavedMstatus !in written && SavedMepc !in written;
    assert CsrReg(Stvec) !in written && CsrReg(Hstatus) !in written && CsrReg(Sstatus) !in written;
    var r := ApplyTrap(pre, gva);
    if r.Done? {
      OnlyChangesTrans(m, pre, r.after, written, TrapFootprint);
    }
  }

  /** Whether a forwarded trap completed or aborted, only `written` and the trap's registers changed. */
  lemma ForwardedFootprint(m: Machine, r: Step, written: set<Reg>, gva: bool)
    requires Forwarded(m, r, written, gva)
    ensures OnlyChanges(m, Last(r), written + TrapFootprint)
  {
    if r.Panicked? {
      OnlyChangesWiden(m, r.atAbort, written, written + TrapFootprint);
    }
  }

  // ---------------------------------------------------------------------------
  // The handlers of `apply`.

  /** The locations an outbound SBI call writes before trap emulation. */
  const SbiCallRegs: set<Reg> :=
    {CsrReg(Scause), GprReg(A7), GprReg(A6), GprReg(A0), GprReg(A1), GprReg(A2), GprReg(A3), GprReg(A4), GprReg(A5)}

  /** `m` carries `req` in the SBI binary encoding and scause says "ecall from VS-mode". */
  ghost predicate SbiCallPlaced(m: Machine, req: SbiRequest) {
    var g := m.state.gprs;
    && m.csr.scause == CauseVirtualSupervisorEcall
    && g[A7] == req.extensionId && g[A6] == req.functionId
    && g[A0] == req.a0 && g[A1] == req.a1 && g[A2] == req.a2
    && g[A3] == req.a3 && g[A4] == req.a4 && g[A5] == req.a5
  }

  /** x10..x17 (a0..a7) after the eight `set_gpr` calls of an outbound SBI call, in the source's order. */
  function EncodeSbiCall(g: GprFile, req: SbiRequest): GprFile {
    g[A7 := req.extensionId][A6 := req.functionId]
     [A0 := req.a0][A1 := req.a1][A2 := req.a2][A3 := req.a3][A4 := req.a4][A5 := req.a5]
  }

  /** The encoding puts the extension ID in a7, the function ID in a6 and the arguments in a0..a5. */
  lemma EncodeSbiCallPlaces(g: GprFile, req: SbiRequest)
    ensures EncodeSbiCall(g, req)[A7] == req.extensionId && EncodeSbiCall(g, req)[A6] == req.functionId
    ensures EncodeSbiCall(g, req)[A0] == req.a0 && EncodeSbiCall(g, req)[A1] == req.a1
    ensures EncodeSbiCall(g, req)[A2] == req.a2 && EncodeSbiCall(g, req)[A3] == req.a3
    ensures EncodeSbiCall(g, req)[A4] == req.a4 && EncodeSbiCall(g, req)[A5] == req.a5
  {
  }

  /** The encoding leaves every register outside a0..a7 alone. */
  lemma EncodeSbiCallFrame(g: GprFile, req: SbiRequest)
    ensures forall i: Gpr :: !(A0 <= i <= A7) ==> EncodeSbiCall(g, req)[i] == g[i]
  {
  }

  /** The register writes of an outbound SBI call that precede trap emulation: scause, then a7, a6, a0..a5. */
  function PlaceSbiCall(m: Machine, req: SbiRequest): Machine {
    m.(state := m.state.(gprs := EncodeSbiCall(m.state.gprs, req)),
       csr := m.csr.(scause := CauseVirtualSupervisorEcall))
  }

  /** The writes of an outbound SBI call place the call and touch nothing else. */
  lemma PlaceSbiCallPlaces(m: Machine, req: SbiRequest)
    ensures SbiCallPlaced(PlaceSbiCall(m, req), req)
    ensures OnlyChanges(m, PlaceSbiCall(m, req), SbiCallRegs)
  {
    EncodeSbiCallPlaces(m.state.gprs, req);
    EncodeSbiCallFrame(m.state.gprs, req);
  }

  /** `apply_sbi_request`: forward an SBI call to the hypervisor as an ecall from VS-mode. */
  function ApplySbiRequest(m: Machine, req: SbiRequest): (r: Step)
    ensures r.Panicked? <==> Vectored(m)
  {
    ApplyTrap(PlaceSbiCall(m, req), false)
  }

  /**
   * A forwarded SBI call reaches the hypervisor in a7, a6, a0..a5 with scause
   * "ecall from VS-mode", whether or not trap emulation then aborts, and
   * without a guest virtual address.
   */
  lemma SbiRequestForwarded(m: Machine, req: SbiRequest)
    ensures SbiCallPlaced(Last(ApplySbiRequest(m, req)), req)
    ensures Forwarded(m, ApplySbiRequest(m, req), SbiCallRegs, false)
  {
    var pre := PlaceSbiCall(m, req);
    PlaceSbiCallPlaces(m, req);
    HandlerWritesAvoidTrap(A0);
    ForwardedAfterWrites(m, pre, SbiCallRegs, false);
    assert ApplySbiRequest(m, req) == ApplyTrap(pre, false);
  }

  /** `apply_sbi_vm_request`: the same forwarding, for the call the wrapper carries. */
  function ApplySbiVmRequest(m: Machine, req: SbiVmRequest): (r: Step)
    ensures r.Panicked? <==> Vectored(m)
  {
    ApplyTrap(PlaceSbiCall(m, req.sbiRequest), false)
  }

  /** Forwarding a confidential VM's SBI call is forwarding the call it wraps. */
  lemma SbiVmRequestIsSbiRequest(m: Machine, req: SbiVmRequest)
    ensures ApplySbiVmRequest(m, req) == ApplySbiRequest(m, req.sbiRequest)
  {
  }

  /** The CSRs an MMIO fault writes before trap emulation. */
  const MmioRegs: set<Reg> := {CsrReg(Scause), CsrReg(Stval), CsrReg(Htval), CsrReg(Vsscratch)}

  /** `m` reports a fault with these cause, fault addresses and (through vsscratch) instruction. */
  ghost predicate MmioFaultReported(m: Machine, code: bv64, stval: bv64, htval: bv64, instruction: bv64) {
    m.csr.scause == code && m.csr.stval == stval && m.csr.htval == htval && m.csr.vsscratch == instruction
  }

  /** None of the handlers' own writes touches a register trap emulation reads or writes. */
  lemma HandlerWritesAvoidTrap(gpr: Gpr)
    ensures SbiCallRegs !! TrapInputs
    ensures MmioRegs !! TrapInputs
    ensures MmioRegs + {GprReg(gpr)} !! TrapInputs
    ensures {CsrReg(Scause)} !! TrapInputs
  {
  }

  /** `apply_mmio_load_request`: forward an MMIO load fault; stval holds a guest virtual address. */
  function ApplyMmioLoadRequest(m: Machine, req: MmioLoadRequest): (r: Step)
    ensures r.Panicked? <==> Vectored(m)
  {
    var csr := m.csr.(scause := req.code, stval := req.stval, htval := req.htval);
    ApplyTrap(m.(csr := csr.(vsscratch := req.instruction)), true)
  }

  /** A forwarded MMIO load fault reports its cause, addresses and instruction, with GVA set. */
  lemma MmioLoadRequestForwarded(m: Machine, req: MmioLoadRequest)
    ensures MmioFaultReported(Last(ApplyMmioLoadRequest(m, req)), req.code, req.stval, req.htval, req.instruction)
    ensures Forwarded(m, ApplyMmioLoadRequest(m, req), MmioRegs, true)
  {
    var csr := m.csr.(scause := req.code, stval := req.stval, htval := req.htval);
    var pre := m.(csr := csr.(vsscratch := req.instruction));
    HandlerWritesAvoidTrap(A0);
    ForwardedAfterWrites(m, pre, MmioRegs, true);
    assert ApplyMmioLoadRequest(m, req) == ApplyTrap(pre, true);
  }

  /**
   * `apply_mmio_store_request`: forward an MMIO store fault, exposing the value
   * being stored in the register the faulting instruction names.
   */
  function ApplyMmioStoreRequest(m: Machine, req: MmioStoreRequest): (r: Step)
    ensures r.Panicked? <==> Vectored(m)
  {
    var csr := m.csr.(scause := req.code, stval := req.stval, htval := req.htval);
    var s := m.state.SetGpr(req.gpr, req.gprValue);
    ApplyTrap(m.(state := s, csr := csr.(vsscratch := req.instruction)), true)
  }

  /**
   * A forwarded MMIO store fault reports its cause, addresses and instruction,
   * with GVA set, and the stored value sits in the instruction's register.
   */
  lemma MmioStoreRequestForwarded(m: Machine, req: MmioStoreRequest)
    ensures MmioFaultReported(Last(ApplyMmioStoreRequest(m, req)), req.code, req.stval, req.htval, req.instruction)
    ensures Last(ApplyMmioStoreRequest(m, req)).state.gprs[req.gpr] == req.gprValue
    ensures Forwarded(m, ApplyMmioStoreRequest(m, req), MmioRegs + {GprReg(req.gpr)}, true)
  {
    var csr := m.csr.(scause := req.code, stval := req.stval, htval := req.htval);
    var pre := m.(state := m.state.SetGpr(req.gpr, req.gprValue), csr := csr.(vsscratch := req.instruction));
    HandlerWritesAvoidTrap(req.gpr);
    ForwardedAfterWrites(m, pre, MmioRegs + {GprReg(req.gpr)}, true);
    assert ApplyMmioStoreRequest(m, req) == ApplyTrap(pre, true);
  }

  /**
   * The scause value of a forwarded interrupt: its code with the interrupt bit
   * (bit 63) set and every other bit as in the code.
   */
  function InterruptCause(code: bv64): (r: bv64)
    ensures AreBitsEnabled(r, ScauseInterruptBit)
    ensures AgreeOutside(r, code, ScauseInterruptMask)
  {
    code | ScauseInterruptMask
  }

  /** `apply_interrupt_request`: forward an interrupt, reporting it in scause. */
  function ApplyInterruptRequest(m: Machine, req: InterruptRequest): (r: Step)
    ensures r.Panicked? <==> Vectored(m)
  {
    ApplyTrap(m.(csr := m.csr.(scause := InterruptCause(req.code))), false)
  }

  /** A forwarded interrupt reports its code in scause with the interrupt bit set. */
  lemma InterruptRequestForwarded(m: Machine, req: InterruptRequest)
    ensures Last(ApplyInterruptRequest(m, req)).csr.scause == InterruptCause(req.code)
    ensures Forwarded(m, ApplyInterruptRequest(m, req), {CsrReg(Scause)}, false)
  {
    var pre := m.(csr := m.csr.(scause := InterruptCause(req.code)));
    HandlerWritesAvoidTrap(A0);
    ForwardedAfterWrites(m, pre, {CsrReg(Scause)}, false);
    assert ApplyInterruptRequest(m, req) == ApplyTrap(pre, false);
  }

  /** `apply_enabled_interrupts`: publish the enabled interrupts through vsie and nothing else. */
  function ApplyEnabledInterrupts(m: Machine, e: EnabledInterrupts): (r: Machine)
    ensures r.csr.vsie == e.vsie
    ensures OnlyChanges(m, r, {CsrReg(Vsie)})
  {
    m.(csr := m.csr.(vsie := e.vsie))
  }

  /** `mepc += pc_offset` on a 64-bit register, for sums the register can hold. */
  function AdvancePc(mepc: bv64, offset: bv64): bv64
    requires mepc as int + offset as int < RegisterBound
  {
    mepc + offset
  }

  /**
   * `apply_sbi_result`: return an SBI result pair in a0/a1 and advance the
   * resume address by the result's offset, which must not overflow.
   */
  function ApplySbiResult(m: Machine, res: SbiResult): (r: Machine)
    requires m.state.mepc as int + res.pcOffset as int < RegisterBound
    ensures r.state.gprs[A0] == res.a0 && r.state.gprs[A1] == res.a1
    ensures r.state.mepc == AdvancePc(m.state.mepc, res.pcOffset)
    ensures OnlyChanges(m, r, {GprReg(A0), GprReg(A1), SavedMepc})
  {
    var s := m.state.SetGpr(A0, res.a0).SetGpr(A1, res.a1);
    m.(state := s.(mepc := AdvancePc(s.mepc, res.pcOffset)))
  }

  /** `apply_opensbi_result`: take over mstatus, mepc, a0 and a1 from OpenSBI's answer. */
  function ApplyOpensbiResult(m: Machine, res: OpensbiResult): (r: Machine)
    ensures r.state.mstatus == res.trapRegs.mstatus && r.state.mepc == res.trapRegs.mepc
    ensures r.state.gprs[A0] == res.trapRegs.a0 && r.state.gprs[A1] == res.trapRegs.a1
    ensures OnlyChanges(m, r, {SavedMstatus, SavedMepc, GprReg(A0), GprReg(A1)})
  {
    var regs := res.trapRegs;
    var s := m.state.(mstatus := regs.mstatus, mepc := regs.mepc);
    m.(state := s.SetGpr(A0, regs.a0).SetGpr(A1, regs.a1))
  }

  // ---------------------------------------------------------------------------
  // Dispatch (`apply`).

  /** What the source's arithmetic needs of a transformation to complete: `mepc += pc_offset` must not overflow. */
  predicate Applicable(m: Machine, t: ExposeToHypervisor) {
    match t
    case SbiResult(res) => m.state.mepc as int + res.pcOffset as int < RegisterBound
    case _ => true
  }

  /** The guest-virtual-address flag of the trap a transformation emulates, if it emulates one. */
  function TrapFlag(t: ExposeToHypervisor): Option<bool> {
    match t
    case SbiRequest(_) => Some(false)
    case SbiVmRequest(_) => Some(false)
    case MmioLoadRequest(_) => Some(true)
    case MmioStoreRequest(_) => Some(true)
    case InterruptRequest(_) => Some(false)
    case _ => None
  }

  /** The locations applying `t` may write. */
  function Footprint(t: ExposeToHypervisor): set<Reg> {
    match t
    case SbiRequest(_) => SbiCallRegs + TrapFootprint
    case SbiVmRequest(_) => SbiCallRegs + TrapFootprint
    case SbiResult(_) => {GprReg(A0), GprReg(A1), SavedMepc}
    case OpensbiResult(_) => {SavedMstatus, SavedMepc, GprReg(A0), GprReg(A1)}
    case MmioLoadRequest(_) => MmioRegs + TrapFootprint
    case MmioStoreRequest(req) => MmioRegs + {GprReg(req.gpr)} + TrapFootprint
    case InterruptRequest(_) => {CsrReg(Scause)} + TrapFootprint
    case EnabledInterrupts(_) => {CsrReg(Vsie)}
  }

  /** `apply`: run the handler of `t`'s variant. Transformations that emulate no trap always complete. */
  function Apply(m: Machine, t: ExposeToHypervisor): (r: Step)
    requires Applicable(m, t)
    ensures TrapFlag(t).None? ==> r.Done?
  {
    match t
    case SbiRequest(req) => ApplySbiRequest(m, req)
    case SbiVmRequest(req) => ApplySbiVmRequest(m, req)
    case SbiResult(res) => Done(ApplySbiResult(m, res))
    case OpensbiResult(res) => Done(ApplyOpensbiResult(m, res))
    case MmioLoadRequest(req) => ApplyMmioLoadRequest(m, req)
    case MmioStoreRequest(req) => ApplyMmioStoreRequest(m, req)
    case InterruptRequest(req) => ApplyInterruptRequest(m, req)
    case EnabledInterrupts(e) => Done(ApplyEnabledInterrupts(m, e))
  }

  /** Only transformations that emulate a trap can abort `apply`, and they abort exactly on vectored `stvec`. */
  lemma ApplyAbortsOnlyOnVectoredTrap(m: Machine, t: ExposeToHypervisor)
    requires Applicable(m, t)
    ensures Apply(m, t).Panicked? <==> TrapFlag(t).Some? && Vectored(m)
  {
    match t
    case SbiRequest(req) => assert Apply(m, t) == ApplySbiRequest(m, req);
    case SbiVmRequest(req) => assert Apply(m, t) == ApplySbiVmRequest(m, req);
    case MmioLoadRequest(req) => assert Apply(m, t) == ApplyMmioLoadRequest(m, req);
    case MmioStoreRequest(req) => assert Apply(m, t) == ApplyMmioStoreRequest(m, req);
    case InterruptRequest(req) => assert Apply(m, t) == ApplyInterruptRequest(m, req);
    case _ =>
  }

  /** Applying `t`, a transformation that emulates a trap, writes only `Footprint(t)` and, if it completes, delivers the trap. */
  ghost predicate ForwardsWithin(m: Machine, t: ExposeToHypervisor)
    requires TrapFlag(t).Some?
  {
    && OnlyChanges(m, Last(Apply(m, t)), Footprint(t))
    && (Apply(m, t).Done? ==> TrapEmulated(m, Apply(m, t).after, TrapFlag(t).value))
  }

  // One lemma per forwarding variant, so that each proof sees a single handler.

  lemma SbiRequestWithin(m: Machine, req: SbiRequest)
    ensures ForwardsWithin(m, ExposeToHypervisor.SbiRequest(req))
  {
    SbiRequestForwarded(m, req);
    ForwardedFootprint(m, ApplySbiRequest(m, req), SbiCallRegs, false);
    assert Apply(m, ExposeToHypervisor.SbiRequest(req)) == ApplySbiRequest(m, req);
  }

  lemma SbiVmRequestWithin(m: Machine, req: SbiVmRequest)
    ensures ForwardsWithin(m, ExposeToHypervisor.SbiVmRequest(req))
  {
    SbiRequestForwarded(m, req.sbiRequest);
    ForwardedFootprint(m, ApplySbiRequest(m, req.sbiRequest), SbiCallRegs, false);
    assert Apply(m, ExposeToHypervisor.SbiVmRequest(req)) == ApplySbiRequest(m, req.sbiRequest);
  }

  lemma MmioLoadRequestWithin(m: Machine, req: MmioLoadRequest)
    ensures ForwardsWithin(m, ExposeToHypervisor.MmioLoadRequest(req))
  {
    MmioLoadRequestForwarded(m, req);
    ForwardedFootprint(m, ApplyMmioLoadRequest(m, req), MmioRegs, true);
    assert Apply(m, ExposeToHypervisor.MmioLoadRequest(req)) == ApplyMmioLoadRequest(m, req);
  }

  lemma MmioStoreRequestWithin(m: Machine, req: MmioStoreRequest)
    ensures ForwardsWithin(m, ExposeToHypervisor.MmioStoreRequest(req))
  {
    MmioStoreRequestForwarded(m, req);
    ForwardedFootprint(m, ApplyMmioStoreRequest(m, req), MmioRegs + {GprReg(req.gpr)}, true);
    assert Apply(m, ExposeToHypervisor.MmioStoreRequest(req)) == ApplyMmioStoreRequest(m, req);
  }

  lemma InterruptRequestWithin(m: Machine, req: InterruptRequest)
    ensures ForwardsWithin(m, ExposeToHypervisor.InterruptRequest(req))
  {
    InterruptRequestForwarded(m, req);
    ForwardedFootprint(m, ApplyInterruptRequest(m, req), {CsrReg(Scause)}, false);
    assert Apply(m, ExposeToHypervisor.InterruptRequest(req)) == ApplyInterruptRequest(m, req);
  }

  /** A forwarded trap writes only its own registers and the trap's, and delivers a trap from VS-mode. */
  lemma ForwardedTrapFootprint(m: Machine, t: ExposeToHypervisor)
    requires TrapFlag(t).Some?
    ensures ForwardsWithin(m, t)
  {
    match t
    case SbiRequest(req) => SbiRequestWithin(m, req);
    case SbiVmRequest(req) => SbiVmRequestWithin(m, req);
    case MmioLoadRequest(req) => MmioLoadRequestWithin(m, req);
    case MmioStoreRequest(req) => MmioStoreRequestWithin(m, req);
    case InterruptRequest(req) => InterruptRequestWithin(m, req);
  }

  /**
   * Whatever `apply` does, nothing outside `Footprint(t)` changes, and a
   * forwarded trap that completes leaves the status registers as a trap from
   * VS-mode would.
   */
  lemma ApplyFootprint(m: Machine, t: ExposeToHypervisor)
    requires Applicable(m, t)
    ensures OnlyChanges(m, Last(Apply(m, t)), Footprint(t))
    ensures Apply(m, t).Done? && TrapFlag(t).Some? ==> TrapEmulated(m, Apply(m, t).after, TrapFlag(t).value)
  {
    if TrapFlag(t).Some? {
      ForwardedTrapFootprint(m, t);
    }
  }

  // ---------------------------------------------------------------------------
  // Classification and the security-monitor call side channel.

  /**
   * `restore_original_gprs`: put back the extension and function IDs of a
   * security-monitor call, which travel in vstval and vsepc so that a7 and a6
   * can keep carrying a pending SBI or MMIO answer.
   */
  function RestoreOriginalGprs(m: Machine): (r: Machine)
    ensures r.state.gprs[A7] == m.csr.vstval && r.state.gprs[A6] == m.csr.vsepc
    ensures OnlyChanges(m, r, {GprReg(A7), GprReg(A6)})
  {
    m.(state := m.state.SetGpr(A7, m.csr.vstval).SetGpr(A6, m.csr.vsepc))
  }

  /**
   * `trap_reason`: classify the trap from mcause, a7 and a6 as they were on
   * entry (`classify` stands for `TrapCause::from`); only a call to the
   * security monitor's own extension changes state, restoring a7 and a6 from
   * the side channel.
   */
  function TrapReason(m: Machine, classify: (bv64, bv64, bv64) -> TrapCause): (r: (TrapCause, Machine))
    ensures r.0 == classify(m.csr.mcause, m.state.gprs[A7], m.state.gprs[A6])
    ensures IsAceCall(r.0) ==> r.1.state.gprs[A7] == m.csr.vstval && r.1.state.gprs[A6] == m.csr.vsepc
    ensures IsAceCall(r.0) ==> OnlyChanges(m, r.1, {GprReg(A7), GprReg(A6)})
    ensures !IsAceCall(r.0) ==> r.1 == m
  {
    var cause := classify(m.csr.mcause, m.state.gprs[A7], m.state.gprs[A6]);
    match cause
    case HsEcall(Ace(_)) => (cause, RestoreOriginalGprs(m))
    case _ => (cause, m)
  }

  /** `read_security_monitor_call_arguments`: the two arguments of a security-monitor call, from vstvec and vsscratch. */
  function ReadSecurityMonitorCallArguments(m: Machine): (r: (bv64, bv64))
    ensures r.0 == m.csr.vstvec && r.1 == m.csr.vsscratch
  {
    (m.csr.vstvec, m.csr.vsscratch)
  }

  /** `resume_request`: the confidential VM and its hart named by the call arguments. */
  function ResumeRequest(m: Machine): (r: ResumeRequest)
    ensures r.confidentialVmId == m.csr.vstvec && r.confidentialHartId == m.csr.vsscratch
  {
    var (vmId, hartId) := ReadSecurityMonitorCallArguments(m);
    Transformations.ResumeRequest(vmId, hartId)
  }

  /** `terminate_request`: the confidential VM named by the first call argument. */
  function TerminateRequest(m: Machine): (r: TerminateRequest)
    ensures r.confidentialVmId == m.csr.vstvec
  {
    var (vmId, _) := ReadSecurityMonitorCallArguments(m);
    Transformations.TerminateRequest(vmId)
  }

  /** `share_page_result`: the hypervisor's SBI return pair, error word in a0 and page address in a1. */
  function SharePageResult(m: Machine): (r: SharePageResult)
    ensures r.isError == m.state.gprs[A0] && r.hypervisorPageAddress == m.state.gprs[A1]
  {
    Transformations.SharePageResult(m.state.gprs[A0], m.state.gprs[A1])
  }

  // ---------------------------------------------------------------------------
  // mscratch and the volatile CSRs.

  /** `swap_mscratch`: exchange the physical mscratch with the value kept for OpenSBI. */
  function SwapMscratch(m: Machine): (r: Machine)
    ensures r.csr.mscratch == m.previousMscratch && r.previousMscratch == m.csr.mscratch
    ensures OnlyChanges(m, r, {CsrReg(Mscratch), PreviousMscratch})
  {
    m.(previousMscratch := m.csr.mscratch, csr := m.csr.(mscratch := m.previousMscratch))
  }

  /** `store_volatile_control_status_registers_in_main_memory`: save mepc and mstatus from the CSRs. */
  function StoreVolatileCsrs(m: Machine): (r: Machine)
    ensures r.state.mepc == m.csr.mepc && r.state.mstatus == m.csr.mstatus
    ensures OnlyChanges(m, r, {SavedMepc, SavedMstatus})
  {
    m.(state := m.state.(mepc := m.csr.mepc, mstatus := m.csr.mstatus))
  }

  /** `load_volatile_control_status_registers_from_main_memory`: write saved mepc and mstatus to the CSRs. */
  function LoadVolatileCsrs(m: Machine): (r: Machine)
    ensures r.csr.mepc == m.state.mepc && r.csr.mstatus == m.state.mstatus
    ensures OnlyChanges(m, r, {CsrReg(Mepc), CsrReg(Mstatus)})
  {
    m.(csr := m.csr.(mepc := m.state.mepc, mstatus := m.state.mstatus))
  }

  // ---------------------------------------------------------------------------
  // Properties across operations.

  /** Swapping mscratch twice restores both values. */
  lemma SwapMscratchInvolution(m: Machine)
    ensures SwapMscratch(SwapMscratch(m)) == m
  {
  }

  /** Loading the volatile CSRs right after storing them changes nothing. */
  lemma LoadAfterStoreVolatileCsrs(m: Machine)
    ensures LoadVolatileCsrs(StoreVolatileCsrs(m)) == StoreVolatileCsrs(m)
  {
  }

  /** Storing the volatile CSRs right after loading them changes nothing. */
  lemma StoreAfterLoadVolatileCsrs(m: Machine)
    ensures StoreVolatileCsrs(LoadVolatileCsrs(m)) == LoadVolatileCsrs(m)
  {
  }

  /** Restoring a7 and a6 twice is restoring them once. */
  lemma RestoreOriginalGprsIdempotent(m: Machine)
    ensures RestoreOriginalGprs(RestoreOriginalGprs(m)) == RestoreOriginalGprs(m)
  {
  }

  /**
   * Classifying a trap does not disturb the security-monitor call arguments:
   * a resume or terminate request read afterwards names the same VM and hart.
   */
  lemma TrapReasonKeepsCallArguments(m: Machine, classify: (bv64, bv64, bv64) -> TrapCause)
    ensures ResumeRequest(TrapReason(m, classify).1) == ResumeRequest(m)
    ensures TerminateRequest(TrapReason(m, classify).1) == TerminateRequest(m)
  {
  }

  /** A share-page result read after an SBI result is applied is that SBI result's pair. */
  lemma SharePageResultAfterSbiResult(m: Machine, res: SbiResult)
    requires m.state.mepc as int + res.pcOffset as int < RegisterBound
    ensures SharePageResult(ApplySbiResult(m, res)) == Transformations.SharePageResult(res.a0, res.a1)
  {
  }

  /**
   * Two trap emulations in a row: the first does not make `stvec` vectored, so
   * the second completes too, and GVA follows the second call's flag alone.
   */
  lemma ApplyTrapTwice(m: Machine, gva1: bool, gva2: bool)
    requires !Vectored(m)
    ensures ApplyTrap(m, gva1).Done?
    ensures ApplyTrap(ApplyTrap(m, gva1).after, gva2).Done?
    ensures AreBitsEnabled(ApplyTrap(ApplyTrap(m, gva1).after, gva2).after.csr.hstatus, HstatusGva) <==> gva2
  {
    var first := ApplyTrap(m, gva1).after;
    assert first.csr.stvec == m.csr.stvec;
  }

  // ---------------------------------------------------------------------------
  // hstatus.GVA over a sequence of transformations.

  /** `ms` is the sequence of machines `apply` goes through on `ts`, no step aborting. */
  ghost predicate IsRun(ms: seq<Machine>, ts: seq<ExposeToHypervisor>) {
    && |ms| == |ts| + 1
    && forall i :: 0 <= i < |ts| ==> Applicable(ms[i], ts[i]) && Apply(ms[i], ts[i]) == Done(ms[i + 1])
  }

  /** The guest-virtual-address flag of the most recent transformation in `ts` that emulates a trap. */
  function LastTrapFlag(ts: seq<ExposeToHypervisor>): Option<bool> {
    if |ts| == 0 then None
    else if TrapFlag(ts[|ts| - 1]).Some? then TrapFlag(ts[|ts| - 1])
    else LastTrapFlag(ts[..|ts| - 1])
  }

  /** Transformations that emulate no trap leave hstatus alone. */
  lemma NonTrapKeepsHstatus(m: Machine, t: ExposeToHypervisor)
    requires Applicable(m, t)
    requires TrapFlag(t).None?
    ensures Last(Apply(m, t)).csr.hstatus == m.csr.hstatus
  {
    ApplyFootprint(m, t);
    assert CsrReg(Hstatus) !in Footprint(t);
  }

  /**
   * hstatus.GVA is set exactly when the most recent forwarded trap carried a
   * guest virtual address: MMIO faults leave it set, SBI calls and interrupts
   * clear, and transformations in between keep it.
   */
  lemma {:induction false} GvaTracksMostRecentTrap(ms: seq<Machine>, ts: seq<ExposeToHypervisor>)
    requires IsRun(ms, ts)
    requires LastTrapFlag(ts).Some?
    ensures AreBitsEnabled(ms[|ms| - 1].csr.hstatus, HstatusGva) <==> LastTrapFlag(ts).value
  {
    var n := |ts| - 1;
    var t := ts[n];
    if TrapFlag(t).Some? {
      ApplyFootprint(ms[n], t);
    } else {
      NonTrapKeepsHstatus(ms[n], t);
      assert IsRun(ms[..n + 1], ts[..n]);
      GvaTracksMostRecentTrap(ms[..n + 1], ts[..n]);
    }
  }
}
