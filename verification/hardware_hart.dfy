/**
 * `HardwareHart` as the security monitor runs it: an object whose methods
 * rewrite the saved non-confidential hart state and the physical hart's CSRs
 * in place. Each method is proved to leave exactly the machine that the
 * corresponding function of `HartModel` describes, and to abort (return
 * `panicked`) exactly when that function does. The hart's pure reads
 * (`read_security_monitor_call_arguments`, `resume_request`,
 * `terminate_request`, `share_page_result`) change nothing; they are the
 * `HartModel` functions of the same names applied to `Value()`.
 */
module HardwareHarts {
  import opened Bits
  import opened Riscv
  import opened Transformations
  import HM = HartModel

  /**
   * The CSR bank of the physical hart. `regs` holds one 64-bit value per
   * register the engine uses; writing a register replaces that one value.
   */
  class ControlStatusRegisters {
    var regs: HM.CsrFile

    /** A bank holding the values `c`. */
    constructor (c: HM.CsrFile)
      ensures regs == c
    {
      regs := c;
    }
  }

  class HardwareHart {
    var nonConfidentialHartState: HM.ArchState
    var previousMscratch: bv64
    /** The CSR bank of the hart this object runs on. */
    const csr: ControlStatusRegisters

    /** The machine this hart and its CSR bank make up. */
    function Value(): HM.Machine
      reads this, csr
    {
      HM.Machine(nonConfidentialHartState, previousMscratch, csr.regs)
    }

    /** `init`: a hart over `csr` with saved state `state` and no OpenSBI mscratch kept yet. */
    constructor (state: HM.ArchState, csr: ControlStatusRegisters)
      ensures Value() == HM.Machine(state, 0, csr.regs)
    {
      nonConfidentialHartState := state;
      previousMscratch := 0;
      this.csr := csr;
    }

    /** `swap_mscratch`. */
    method SwapMscratch()
      modifies this`previousMscratch, csr`regs
      ensures Value() == HM.SwapMscratch(old(Value()))
    {
      var currentMscratch := csr.regs.mscratch;
      csr.regs := csr.regs.(mscratch := previousMscratch);
      previousMscratch := currentMscratch;
    }

    /** `store_volatile_control_status_registers_in_main_memory`. */
    method StoreVolatileControlStatusRegistersInMainMemory()
      modifies this`nonConfidentialHartState
      ensures Value() == HM.StoreVolatileCsrs(old(Value()))
    {
      nonConfidentialHartState := nonConfidentialHartState.(mepc := csr.regs.mepc);
      nonConfidentialHartState := nonConfidentialHartState.(mstatus := csr.regs.mstatus);
    }

    /** `load_volatile_control_status_registers_from_main_memory`. */
    method LoadVolatileControlStatusRegistersFromMainMemory()
      modifies csr`regs
      ensures Value() == HM.LoadVolatileCsrs(old(Value()))
    {
      csr.regs := csr.regs.(mepc := nonConfidentialHartState.mepc);
      csr.regs := csr.regs.(mstatus := nonConfidentialHartState.mstatus);
    }

    /** `apply`: dispatch on the variant; `panicked` says trap emulation aborted. */
    method Apply(t: ExposeToHypervisor) returns (panicked: bool)
      requires HM.Applicable(Value(), t)
      modifies this`nonConfidentialHartState, csr`regs
      ensures panicked == HM.Apply(old(Value()), t).Panicked?
      ensures Value() == HM.Last(HM.Apply(old(Value()), t))
    {
      panicked := false;
      match t
      case SbiRequest(v) => panicked := ApplySbiRequest(v);
      case SbiVmRequest(v) => panicked := ApplySbiVmRequest(v);
      case SbiResult(v) => ApplySbiResult(v);
      case OpensbiResult(v) => ApplyOpensbiResult(v);
      case MmioLoadRequest(v) => panicked := ApplyMmioLoadRequest(v);
      case MmioStoreRequest(v) => panicked := ApplyMmioStoreRequest(v);
      case InterruptRequest(v) => panicked := ApplyInterruptRequest(v);
      case EnabledInterrupts(v) => ApplyEnabledInterrupts(v);
    }

    /** `apply_enabled_interrupts`. */
    method ApplyEnabledInterrupts(result: EnabledInterrupts)
      modifies csr`regs
      ensures Value() == HM.ApplyEnabledInterrupts(old(Value()), result)
    {
      csr.regs := csr.regs.(vsie := result.vsie);
    }

    /** `apply_sbi_result`. */
    method ApplySbiResult(result: SbiResult)
      requires nonConfidentialHartState.mepc as int + result.pcOffset as int < RegisterBound
      modifies this`nonConfidentialHartState
      ensures Value() == HM.ApplySbiResult(old(Value()), result)
    {
      nonConfidentialHartState := nonConfidentialHartState.SetGpr(A0, result.a0);
      nonConfidentialHartState := nonConfidentialHartState.SetGpr(A1, result.a1);
      nonConfidentialHartState := nonConfidentialHartState.(mepc := HM.AdvancePc(nonConfidentialHartState.mepc, result.pcOffset));
    }

    /** `apply_opensbi_result`. */
    method ApplyOpensbiResult(result: OpensbiResult)
      modifies this`nonConfidentialHartState
      ensures Value() == HM.ApplyOpensbiResult(old(Value()), result)
    {
      nonConfidentialHartState := nonConfidentialHartState.(mstatus := result.trapRegs.mstatus);
      nonConfidentialHartState := nonConfidentialHartState.(mepc := result.trapRegs.mepc);
      nonConfidentialHartState := nonConfidentialHartState.SetGpr(A0, result.trapRegs.a0);
      nonConfidentialHartState := nonConfidentialHartState.SetGpr(A1, result.trapRegs.a1);
    }

    /** The eight `set_gpr` calls of an outbound SBI call. */
    method SetSbiCallGprs(request: SbiRequest)
      modifies this`nonConfidentialHartState
      ensures nonConfidentialHartState == old(nonConfidentialHartState).(gprs := HM.EncodeSbiCall(old(nonConfidentialHartState.gprs), request))
    {
      nonConfidentialHartState := nonConfidentialHartState.SetGpr(A7, request.extensionId);
      nonConfidentialHartState := nonConfidentialHartState.SetGpr(A6, request.functionId);
      nonConfidentialHartState := nonConfidentialHartState.SetGpr(A0, request.a0);
      nonConfidentialHartState := nonConfidentialHartState.SetGpr(A1, request.a1);
      nonConfidentialHartState := nonConfidentialHartState.SetGpr(A2, request.a2);
      nonConfidentialHartState := nonConfidentialHartState.SetGpr(A3, request.a3);
      nonConfidentialHartState := nonConfidentialHartState.SetGpr(A4, request.a4);
      nonConfidentialHartState := nonConfidentialHartState.SetGpr(A5, request.a5);
    }

    /** `apply_sbi_vm_request`. */
    method ApplySbiVmRequest(request: SbiVmRequest) returns (panicked: bool)
      modifies this`nonConfidentialHartState, csr`regs
      ensures panicked == HM.ApplySbiVmRequest(old(Value()), request).Panicked?
      ensures Value() == HM.Last(HM.ApplySbiVmRequest(old(Value()), request))
    {
      csr.regs := csr.regs.(scause := CauseVirtualSupervisorEcall);
      SetSbiCallGprs(request.sbiRequest);
      panicked := ApplyTrap(false);
    }

    /** `apply_sbi_request`. */
    method ApplySbiRequest(request: SbiRequest) returns (panicked: bool)
      modifies this`nonConfidentialHartState, csr`regs
      ensures panicked == HM.ApplySbiRequest(old(Value()), request).Panicked?
      ensures Value() == HM.Last(HM.ApplySbiRequest(old(Value()), request))
    {
      csr.regs := csr.regs.(scause := CauseVirtualSupervisorEcall);
      SetSbiCallGprs(request);
      panicked := ApplyTrap(false);
    }

    /** `apply_mmio_load_request`. */
    method ApplyMmioLoadRequest(request: MmioLoadRequest) returns (panicked: bool)
      modifies this`nonConfidentialHartState, csr`regs
      ensures panicked == HM.ApplyMmioLoadRequest(old(Value()), request).Panicked?
      ensures Value() == HM.Last(HM.ApplyMmioLoadRequest(old(Value()), request))
    {
      csr.regs := csr.regs.(scause := request.code);
      csr.regs := csr.regs.(stval := request.stval);
      csr.regs := csr.regs.(htval := request.htval);
      csr.regs := csr.regs.(vsscratch := request.instruction);
      panicked := ApplyTrap(true);
    }

    /** `apply_mmio_store_request`. */
    method ApplyMmioStoreRequest(request: MmioStoreRequest) returns (panicked: bool)
      modifies this`nonConfidentialHartState, csr`regs
      ensures panicked == HM.ApplyMmioStoreRequest(old(Value()), request).Panicked?
      ensures Value() == HM.Last(HM.ApplyMmioStoreRequest(old(Value()), request))
    {
      csr.regs := csr.regs.(scause := request.code);
      csr.regs := csr.regs.(stval := request.stval);
      csr.regs := csr.regs.(htval := request.htval);
      nonConfidentialHartState := nonConfidentialHartState.SetGpr(request.gpr, request.gprValue);
      csr.regs := csr.regs.(vsscratch := request.instruction);
      panicked := ApplyTrap(true);
    }

    /** `apply_interrupt_request`. */
    method ApplyInterruptRequest(request: InterruptRequest) returns (panicked: bool)
      modifies this`nonConfidentialHartState, csr`regs
      ensures panicked == HM.ApplyInterruptRequest(old(Value()), request).Panicked?
      ensures Value() == HM.Last(HM.ApplyInterruptRequest(old(Value()), request))
    {
      csr.regs := csr.regs.(scause := HM.InterruptCause(request.code));
      panicked := ApplyTrap(false);
    }

    /**
     * `apply_trap`. With vectored `stvec` the monitor panics before any write;
     * `panicked` stands for that abort. The writes are made, in the source's
     * order, to copies of the saved state and of the CSR values, which are
     * stored back at the end; nothing reads the hart in between.
     */
    method ApplyTrap(encodedGuestVirtualAddress: bool) returns (panicked: bool)
      modifies this`nonConfidentialHartState, csr`regs
      ensures panicked == HM.ApplyTrap(old(Value()), encodedGuestVirtualAddress).Panicked?
      ensures Value() == HM.Last(HM.ApplyTrap(old(Value()), encodedGuestVirtualAddress))
    {
      if AreBitsEnabled(csr.regs.stvec, StvecModeVectored) {
        return true;
      }

      // Next mode HS (Table 8.8 of the privileged architecture).
      var state := nonConfidentialHartState;
      var regs := csr.regs;
      state := state.(mstatus := DisableBit(state.mstatus, MstatusMpv));
      state := state.(mstatus := EnableBit(state.mstatus, MstatusMpp));
      state := state.(mstatus := DisableBit(state.mstatus, MstatusMpie));
      state := state.(mstatus := DisableBit(state.mstatus, MstatusSie));

      // Resume HS execution at its trap vector.
      regs := regs.(sepc := state.mepc);
      state := state.(mepc := regs.stvec);

      // Make the trap look as if it came straight from VS-mode.
      state := state.(mstatus := EnableBit(state.mstatus, MstatusSpp));
      regs := regs.(hstatus := EnableBit(regs.hstatus, HstatusSpv));
      regs := regs.(hstatus := EnableBit(regs.hstatus, HstatusSpvp));
      regs := regs.(sstatus := EnableBit(regs.sstatus, SstatusSpp));

      if encodedGuestVirtualAddress {
        regs := regs.(hstatus := EnableBit(regs.hstatus, HstatusGva));
      } else {
        regs := regs.(hstatus := DisableBit(regs.hstatus, HstatusGva));
      }
      nonConfidentialHartState := state;
      csr.regs := regs;
      return false;
    }

    /** `trap_reason`; `classify` stands for `TrapCause::from`. */
    method TrapReason(classify: (bv64, bv64, bv64) -> TrapCause) returns (cause: TrapCause)
      modifies this`nonConfidentialHartState
      ensures (cause, Value()) == HM.TrapReason(old(Value()), classify)
    {
      var mcause := csr.regs.mcause;
      var extensionId := nonConfidentialHartState.gprs[A7];
      var functionId := nonConfidentialHartState.gprs[A6];
      cause := classify(mcause, extensionId, functionId);
      match cause {
        case HsEcall(Ace(_)) => RestoreOriginalGprs();
        case _ =>
      }
    }

    /** `restore_original_gprs`. */
    method RestoreOriginalGprs()
      modifies this`nonConfidentialHartState
      ensures Value() == HM.RestoreOriginalGprs(old(Value()))
    {
      nonConfidentialHartState := nonConfidentialHartState.SetGpr(A7, csr.regs.vstval);
      nonConfidentialHartState := nonConfidentialHartState.SetGpr(A6, csr.regs.vsepc);
    }
  }
}
