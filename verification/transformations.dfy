/**
 * The request/result taxonomy that crosses the boundary between a confidential
 * VM, the security monitor and the hypervisor: the closed tagged union
 * `ExposeToHypervisor` with one payload type per variant, the value objects the
 * hart extracts from its state, and the trap classification.
 *
 * Payloads are plain records of 64-bit register values; their accessors in the
 * source (`extension_id()`, `code()`, `gpr_value()`, ...) are the fields.
 */
module Transformations {
  import opened Riscv

  /** An outbound SBI call: a7 = extension ID, a6 = function ID, a0..a5 = arguments. */
  datatype SbiRequest = SbiRequest(
    extensionId: bv64, functionId: bv64,
    a0: bv64, a1: bv64, a2: bv64, a3: bv64, a4: bv64, a5: bv64)

  /** An SBI call issued by a confidential-VM-aware wrapper; it carries an ordinary SBI call. */
  datatype SbiVmRequest = SbiVmRequest(sbiRequest: SbiRequest)

  /** The hypervisor's answer to an SBI call: the return pair and how far to advance the resume address. */
  datatype SbiResult = SbiResult(a0: bv64, a1: bv64, pcOffset: bv64)

  /** The registers OpenSBI hands back after a firmware call (64-bit values). */
  datatype OpensbiTrapRegs = OpensbiTrapRegs(mstatus: bv64, mepc: bv64, a0: bv64, a1: bv64)

  datatype OpensbiResult = OpensbiResult(trapRegs: OpensbiTrapRegs)

  /** An MMIO load fault to be emulated by the hypervisor. */
  datatype MmioLoadRequest = MmioLoadRequest(code: bv64, stval: bv64, htval: bv64, instruction: bv64)

  /** An MMIO store fault; `gpr` holds the value being stored. */
  datatype MmioStoreRequest = MmioStoreRequest(
    code: bv64, stval: bv64, htval: bv64, instruction: bv64, gpr: Gpr, gprValue: bv64)

  /** An interrupt to deliver to the hypervisor; `code` is the interrupt number. */
  datatype InterruptRequest = InterruptRequest(code: bv64)

  /** The interrupts the hypervisor enabled for injection, as a vsie value. */
  datatype EnabledInterrupts = EnabledInterrupts(vsie: bv64)

  /** One unit of information to make visible to the hypervisor. */
  datatype ExposeToHypervisor =
    | SbiRequest(sbiRequest: SbiRequest)
    | SbiVmRequest(sbiVmRequest: SbiVmRequest)
    | SbiResult(sbiResult: SbiResult)
    | OpensbiResult(opensbiResult: OpensbiResult)
    | MmioLoadRequest(mmioLoadRequest: MmioLoadRequest)
    | MmioStoreRequest(mmioStoreRequest: MmioStoreRequest)
    | InterruptRequest(interruptRequest: InterruptRequest)
    | EnabledInterrupts(enabledInterrupts: EnabledInterrupts)

  /** A request to resume one hart of a confidential VM. */
  datatype ResumeRequest = ResumeRequest(confidentialVmId: bv64, confidentialHartId: bv64)

  /** A request to terminate a confidential VM. */
  datatype TerminateRequest = TerminateRequest(confidentialVmId: bv64)

  /** The hypervisor's answer to a page-sharing call: the SBI error word and the page it shared. */
  datatype SharePageResult = SharePageResult(isError: bv64, hypervisorPageAddress: bv64)

  /**
   * The SBI extension a call belongs to. Only the security monitor's own
   * extension (ACE) is told apart; every other extension is kept by its IDs.
   */
  datatype SbiExtension =
    | Ace(functionId: bv64)
    | OtherExtension(extensionId: bv64, functionId: bv64)

  /**
   * The classification of a trap. Only what the hart itself distinguishes is a
   * separate case: an `ecall` from HS-mode (the hypervisor) with its extension.
   */
  datatype TrapCause =
    | HsEcall(extension: SbiExtension)
    | OtherTrap(cause: bv64)

  /** The classification outcome that carries security-monitor call arguments. */
  predicate IsAceCall(c: TrapCause) {
    c.HsEcall? && c.extension.Ace?
  }
}
