# Trap forwarding in the ACE security monitor's `HardwareHart`

The ACE security monitor runs confidential VMs next to an untrusted hypervisor on
RISC-V. Sometimes a confidential VM needs the hypervisor's help: an SBI call, an
MMIO access or an interrupt. The monitor then *forwards* the event. It writes the
relevant values into the hypervisor's saved registers and the hart's CSRs. Then
it emulates a trap, so the hypervisor sees the event as if it had come straight
from VS-mode. Answers travel back the same way: SBI results, OpenSBI results and
enabled interrupts are written into the hypervisor's state.

This project models that engine, `HardwareHart`, and the `SharePageRequest` value
object. It has two layers.

- `HartModel` (hart_model.dfy) describes every operation as a function on a
  `Machine`. A `Machine` is the saved non-confidential hart state (x0..x31,
  `mepc`, `mstatus`), the `mscratch` value kept for OpenSBI, and the hart's CSR
  bank. An operation that ends in trap emulation yields a `Step`, which is
  either `Done(after)` or `Panicked(atAbort)`. `Panicked` stands for the
  monitor's `panic!` on vectored trap delivery and records the state at the
  abort. The lemmas of this layer state what each operation guarantees:
  - the trap-entry bit pattern of Table 8.8 of the RISC-V Privileged
    Architecture 20211203;
  - the SBI binary encoding of forwarded calls (a7 = extension ID, a6 =
    function ID, a0..a5 = arguments);
  - the exact set of registers each transformation may change;
  - hstatus.GVA following the most recent forwarded trap over any sequence of
    transformations.
- `HardwareHarts` (hardware_hart.dfy) has the class `HardwareHart`. It holds the
  saved state and `previous_mscratch` in fields, and it points to a
  `ControlStatusRegisters` object for the CSR bank. Its methods make the
  source's writes in place, in the source's order, except `ApplyTrap` (see
  "Left out"). Each method is proved to leave the machine its `HartModel`
  function describes, and to return `panicked` exactly when that function
  panics. The hart's pure reads (`read_security_monitor_call_arguments`,
  `resume_request`, `terminate_request`, `share_page_result`) change nothing,
  so they are modelled once, as the `HartModel` functions of the same names
  applied to the hart's `Value()`.

Supporting modules:
- `Bits` (bits.dfy): `enable_bit`, `disable_bit` and `are_bits_enabled` on
  64-bit values.
- `Riscv` (riscv.dfy): register indices and the architectural constants.
- `Transformations` (transformations.dfy): the `ExposeToHypervisor` union, its
  payloads, the request/result value objects and the trap classification.
- `SharePageRequests` (share_page_request.dfy): `SharePageRequest`.
- `Wrappers` (wrappers.dfy): `Option` and `Result`.

The architectural constants are not part of the modelled files. The model uses
the values that the RISC-V Privileged Architecture 20211203 assigns:
- mstatus: SIE = bit 1, MPIE = bit 7, SPP = bit 8, MPP = bit 11, MPV = bit 39;
- hstatus: GVA = bit 6, SPV = bit 7, SPVP = bit 8;
- sstatus: SPP = bit 8;
- stvec: the vectored mode is bit 0;
- scause: the interrupt bit is bit 63, and "environment call from VS-mode" is
  cause 10.

## Model

| member | source | states |
|---|---|---|
| Bits.AreBitsEnabledReadsBit | security-monitor/src/core/control_data/hardware_hart.rs:196 | `are_bits_enabled` is true exactly when bit `i` of the value is one (the value shifted right by `i` is odd) |
| Bits.EnableBit | security-monitor/src/core/control_data/hardware_hart.rs:211-218 | the bit is set afterwards and every other bit is as before |
| Bits.DisableBit | security-monitor/src/core/control_data/hardware_hart.rs:201-204 | the bit is clear afterwards and every other bit is as before |
| HartModel.TrapMstatus | security-monitor/src/core/control_data/hardware_hart.rs:200-211 | for every initial mstatus: MPV clear, MPP set, MPIE clear, SIE clear, SPP set, all other bits unchanged |
| HartModel.TrapHstatus | security-monitor/src/core/control_data/hardware_hart.rs:212-221 | SPV and SPVP set, GVA set exactly when the flag is true, all other bits unchanged |
| HartModel.ApplyTrap | security-monitor/src/core/control_data/hardware_hart.rs:195-222 | panics exactly when stvec is vectored, and then nothing has been written; otherwise the Table 8.8 mstatus/hstatus/sstatus pattern, sepc = old mepc, mepc = stvec, and nothing else changes (GPRs untouched) |
| HartModel.ApplyTrapTwice | security-monitor/src/core/control_data/hardware_hart.rs:195-222 | a trap emulation that completes lets the next one complete too, and GVA then follows the second call's flag alone |
| HartModel.ForwardedAfterWrites | security-monitor/src/core/control_data/hardware_hart.rs:195-222 | writes that avoid the trap's registers, followed by trap emulation: the trap is delivered as if from the original state; the abort happens exactly on vectored stvec; the footprints add up |
| HartModel.HandlerWritesAvoidTrap | security-monitor/src/core/control_data/hardware_hart.rs:140-192 | what the SBI, MMIO and interrupt handlers write before `apply_trap` is disjoint from what trap emulation reads and writes |
| HartModel.EncodeSbiCallPlaces | security-monitor/src/core/control_data/hardware_hart.rs:155-162 | a7 = extension ID, a6 = function ID, a0..a5 = the six arguments |
| HartModel.EncodeSbiCallFrame | security-monitor/src/core/control_data/hardware_hart.rs:155-162 | every GPR outside a0..a7 is left alone |
| HartModel.PlaceSbiCallPlaces | security-monitor/src/core/control_data/hardware_hart.rs:154-162 | scause = "ecall from VS-mode", the call is in the SBI encoding, and only scause and a0..a7 change |
| HartModel.SbiRequestForwarded | security-monitor/src/core/control_data/hardware_hart.rs:153-164 | the hypervisor finds the SBI call in a7, a6, a0..a5 with the VS-ecall cause; the trap is emulated with GVA clear, or the monitor aborts on vectored stvec; only the call's registers and the trap's registers change |
| HartModel.ApplySbiRequest | security-monitor/src/core/control_data/hardware_hart.rs:153-164 | aborts exactly when stvec is vectored; the scause and a0..a7 writes never make it vectored |
| HartModel.ApplySbiVmRequest | security-monitor/src/core/control_data/hardware_hart.rs:140-151 | aborts exactly when stvec is vectored |
| HartModel.SbiVmRequestIsSbiRequest | security-monitor/src/core/control_data/hardware_hart.rs:140-164 | forwarding a confidential VM's SBI call is exactly forwarding the call it wraps |
| HartModel.ApplyMmioLoadRequest | security-monitor/src/core/control_data/hardware_hart.rs:166-175 | aborts exactly when stvec is vectored; the four CSR writes never make it vectored |
| HartModel.MmioLoadRequestForwarded | security-monitor/src/core/control_data/hardware_hart.rs:166-175 | scause, stval, htval and vsscratch hold the request's code, addresses and instruction; the trap is emulated with GVA set; only those four CSRs and the trap's registers change |
| HartModel.ApplyMmioStoreRequest | security-monitor/src/core/control_data/hardware_hart.rs:177-187 | aborts exactly when stvec is vectored; the CSR and GPR writes never make it vectored |
| HartModel.MmioStoreRequestForwarded | security-monitor/src/core/control_data/hardware_hart.rs:177-187 | as for a load, and additionally the named GPR holds the stored value; that GPR is the only GPR written |
| HartModel.InterruptCause | security-monitor/src/core/control_data/hardware_hart.rs:190 | the interrupt bit (bit 63) is set and every other bit is the request's code |
| HartModel.ApplyInterruptRequest | security-monitor/src/core/control_data/hardware_hart.rs:189-192 | aborts exactly when stvec is vectored |
| HartModel.InterruptRequestForwarded | security-monitor/src/core/control_data/hardware_hart.rs:189-192 | scause = code with the interrupt bit set; the trap is emulated with GVA clear; only scause and the trap's registers change |
| HartModel.ApplyEnabledInterrupts | security-monitor/src/core/control_data/hardware_hart.rs:123-125 | vsie = the enabled interrupts, and nothing else changes |
| HartModel.ApplySbiResult | security-monitor/src/core/control_data/hardware_hart.rs:127-131 | a0/a1 = the result pair, mepc = old mepc + pc_offset, and nothing else changes |
| HartModel.ApplyOpensbiResult | security-monitor/src/core/control_data/hardware_hart.rs:133-138 | mstatus, mepc, a0 and a1 take OpenSBI's values, and nothing else changes |
| HartModel.Apply | security-monitor/src/core/control_data/hardware_hart.rs:110-121 | the result, OpenSBI-result and enabled-interrupt variants always complete; its other properties are the three lemmas below and `GvaTracksMostRecentTrap` |
| HartModel.ApplyAbortsOnlyOnVectoredTrap | security-monitor/src/core/control_data/hardware_hart.rs:110-121 | only the five forwarding variants can abort, and they abort exactly on vectored stvec |
| HartModel.ForwardedTrapFootprint | security-monitor/src/core/control_data/hardware_hart.rs:110-121 | for a forwarding variant, only that variant's registers change, and a completed trap shows the Table 8.8 pattern with that variant's GVA flag |
| HartModel.ApplyFootprint | security-monitor/src/core/control_data/hardware_hart.rs:110-121 | for every variant, nothing outside its documented register set changes, whether it completes or aborts |
| HartModel.NonTrapKeepsHstatus | security-monitor/src/core/control_data/hardware_hart.rs:123-138 | result and interrupt-enable application never touch hstatus |
| HartModel.GvaTracksMostRecentTrap | security-monitor/src/core/control_data/hardware_hart.rs:217-221 | over any run of transformations, hstatus.GVA is set exactly when the most recent forwarded trap was an MMIO fault |
| HartModel.RestoreOriginalGprs | security-monitor/src/core/control_data/hardware_hart.rs:281-289 | a7 = vstval and a6 = vsepc, and nothing else changes |
| HartModel.RestoreOriginalGprsIdempotent | security-monitor/src/core/control_data/hardware_hart.rs:281-289 | restoring twice is restoring once |
| HartModel.TrapReason | security-monitor/src/core/control_data/hardware_hart.rs:226-239 | the cause is the classification of the entry mcause, a7 and a6; the state changes only for an ACE call, and then exactly by restoring a7 and a6 |
| HartModel.TrapReasonKeepsCallArguments | security-monitor/src/core/control_data/hardware_hart.rs:226-239 | a resume or terminate request read after classification is the same as one read before it |
| HartModel.ReadSecurityMonitorCallArguments | security-monitor/src/core/control_data/hardware_hart.rs:291-297 | the two security-monitor call arguments are vstvec and vsscratch, in that order |
| HartModel.ResumeRequest | security-monitor/src/core/control_data/hardware_hart.rs:257-260 | the VM ID comes from vstvec and the hart ID from vsscratch |
| HartModel.TerminateRequest | security-monitor/src/core/control_data/hardware_hart.rs:262-265 | the VM ID comes from vstvec |
| HartModel.SharePageResult | security-monitor/src/core/control_data/hardware_hart.rs:267-271 | the error word comes from a0 and the page address from a1 |
| HartModel.SharePageResultAfterSbiResult | security-monitor/src/core/control_data/hardware_hart.rs:267-271 | a share-page result read right after an SBI result has been applied is that result's pair |
| HartModel.SwapMscratch | security-monitor/src/core/control_data/hardware_hart.rs:62-66 | mscratch and the kept value trade places, and nothing else changes |
| HartModel.SwapMscratchInvolution | security-monitor/src/core/control_data/hardware_hart.rs:62-66 | swapping twice restores the machine |
| HartModel.StoreVolatileCsrs | security-monitor/src/core/control_data/hardware_hart.rs:88-91 | saved mepc/mstatus = the CSRs' values, and nothing else changes |
| HartModel.LoadVolatileCsrs | security-monitor/src/core/control_data/hardware_hart.rs:103-106 | mepc/mstatus CSRs = the saved values, and nothing else changes |
| HartModel.LoadAfterStoreVolatileCsrs | security-monitor/src/core/control_data/hardware_hart.rs:88-106 | loading right after storing changes nothing |
| HartModel.StoreAfterLoadVolatileCsrs | security-monitor/src/core/control_data/hardware_hart.rs:88-106 | storing right after loading changes nothing |
| HardwareHarts.HardwareHart.constructor | security-monitor/src/core/control_data/hardware_hart.rs:44-53 | the hart starts with the given saved state and no kept mscratch (0) |
| HardwareHarts.HardwareHart.SwapMscratch | security-monitor/src/core/control_data/hardware_hart.rs:62-66 | the in-place swap leaves `HartModel.SwapMscratch` of the old machine |
| HardwareHarts.HardwareHart.StoreVolatileControlStatusRegistersInMainMemory | security-monitor/src/core/control_data/hardware_hart.rs:88-91 | leaves `HartModel.StoreVolatileCsrs` of the old machine |
| HardwareHarts.HardwareHart.LoadVolatileControlStatusRegistersFromMainMemory | security-monitor/src/core/control_data/hardware_hart.rs:103-106 | leaves `HartModel.LoadVolatileCsrs` of the old machine |
| HardwareHarts.HardwareHart.Apply | security-monitor/src/core/control_data/hardware_hart.rs:110-121 | the dispatch leaves `HartModel.Apply` of the old machine and reports its abort |
| HardwareHarts.HardwareHart.ApplyEnabledInterrupts | security-monitor/src/core/control_data/hardware_hart.rs:123-125 | leaves `HartModel.ApplyEnabledInterrupts` of the old machine |
| HardwareHarts.HardwareHart.ApplySbiResult | security-monitor/src/core/control_data/hardware_hart.rs:127-131 | leaves `HartModel.ApplySbiResult` of the old machine |
| HardwareHarts.HardwareHart.ApplyOpensbiResult | security-monitor/src/core/control_data/hardware_hart.rs:133-138 | leaves `HartModel.ApplyOpensbiResult` of the old machine |
| HardwareHarts.HardwareHart.SetSbiCallGprs | security-monitor/src/core/control_data/hardware_hart.rs:155-162 | the eight in-place `set_gpr` writes, in the source's order (a7, a6, a0..a5), leave exactly `HartModel.EncodeSbiCall` of the call in the saved GPRs and the rest of the saved state unchanged |
| HardwareHarts.HardwareHart.ApplySbiVmRequest | security-monitor/src/core/control_data/hardware_hart.rs:140-151 | leaves `HartModel.ApplySbiVmRequest` of the old machine and reports its abort |
| HardwareHarts.HardwareHart.ApplySbiRequest | security-monitor/src/core/control_data/hardware_hart.rs:153-164 | leaves `HartModel.ApplySbiRequest` of the old machine and reports its abort |
| HardwareHarts.HardwareHart.ApplyMmioLoadRequest | security-monitor/src/core/control_data/hardware_hart.rs:166-175 | leaves `HartModel.ApplyMmioLoadRequest` of the old machine and reports its abort |
| HardwareHarts.HardwareHart.ApplyMmioStoreRequest | security-monitor/src/core/control_data/hardware_hart.rs:177-187 | leaves `HartModel.ApplyMmioStoreRequest` of the old machine and reports its abort |
| HardwareHarts.HardwareHart.ApplyInterruptRequest | security-monitor/src/core/control_data/hardware_hart.rs:189-192 | leaves `HartModel.ApplyInterruptRequest` of the old machine and reports its abort |
| HardwareHarts.HardwareHart.ApplyTrap | security-monitor/src/core/control_data/hardware_hart.rs:194-222 | the in-place bit writes leave `HartModel.ApplyTrap` of the old machine; `panicked` exactly when it panics, with nothing written |
| HardwareHarts.HardwareHart.TrapReason | security-monitor/src/core/control_data/hardware_hart.rs:226-239 | returns the cause and leaves the machine that `HartModel.TrapReason` gives |
| HardwareHarts.HardwareHart.RestoreOriginalGprs | security-monitor/src/core/control_data/hardware_hart.rs:281-289 | leaves `HartModel.RestoreOriginalGprs` of the old machine |
| SharePageRequests.New | security-monitor/src/core/transformations/share_page_request.rs:15-26 | always `Ok`; the request's address is the given address, and its page size is 4 KiB whatever the address |
| SharePageRequests.AccessorsDetermineRequest | security-monitor/src/core/transformations/share_page_request.rs:8-26 | `confidential_vm_virtual_address()` and `page_size()` together determine the request: two requests are equal exactly when both accessors agree |
| SharePageRequests.NewIsInjective | security-monitor/src/core/transformations/share_page_request.rs:8-18 | two requests are equal exactly when they were built from the same address |

## Left out

- `init` is modelled only as far as its effect on the modelled state (`previous_mscratch` = 0). The stack page, its zeroing, `address()` and the layout constant `HART_STACK_ADDRESS_OFFSET` describe memory layout for the assembly context switch, not behaviour.
- `enable_hypervisor_memory_protector`: it reprograms the hardware memory-isolation unit through a component that is not part of this model.
- `store_control_status_registers_in_main_memory` and `load_control_status_registers_from_main_memory` are left out. They dump and restore the whole CSR set through `HartArchitecturalState`, which is not part of this model. Only the two-register volatile variants are modelled.
- `interrupts_to_inject` is left out: it returns a constant empty `InjectedInterrupts`.
- Left out as well: `promote_to_confidential_vm_request`, `hypercall_result`, `guest_load_page_fault_result`, `sbi_vm_request` and `opensbi_request`. Each only passes the saved state to a constructor that is not part of this model.
- `confidential_hart` and `confidential_hart_mut` are left out. They only hand out the bound virtual hart, and `ConfidentialHart` is not part of this model.
- `TrapCause::from` is not part of this model. `TrapReason` takes it as a parameter (`classify`). `TrapCause` and `SbiExtension` keep only the distinction the hart makes: a hypervisor ecall to the ACE extension versus everything else.
- HartModel.ApplyOpensbiResult: `try_into().unwrap()` is not modelled. OpenSBI's trap registers are taken to be 64-bit values already, so the conversion cannot fail.
- HartModel.ApplySbiResult: `mepc += pc_offset` has a no-overflow precondition. What the source does on overflow (a panic with overflow checks, a wrap-around without them) is not modelled.
- HardwareHarts.HardwareHart.ApplySbiResult: the same no-overflow precondition on `mepc += pc_offset`, for the same reason.
- HardwareHarts.HardwareHart.Apply: requires `Applicable`, which is that same no-overflow precondition for the SBI-result variant and nothing for the others. HartModel.Apply carries the same requirement.
- HartModel.Apply: requires `Applicable`, the no-overflow precondition on `mepc += pc_offset` for the SBI-result variant (and nothing for the other variants). What the source does on that overflow is not modelled, as for HartModel.ApplySbiResult.
- HartModel.AdvancePc: the 64-bit addition carries no contract of its own. That it equals the integer sum under the no-overflow precondition is not proved.
- The CSR accessor objects (`CSR.scause.set`, `read_and_set_bit`, …) are modelled as one record-valued field of `ControlStatusRegisters`. Each write replaces one register's value. Only the 16 CSRs the engine touches exist.
- Each CSR accessor is modelled as an independent register. On the hart, sstatus is a restricted view of mstatus (section 4.1.1 of the RISC-V Privileged Architecture 20211203): writing a field through one writes it in the other. That overlap is not modelled. So `HartModel.ApplyTrap`'s frame leaves the mstatus CSR alone although its sstatus.SPP write sets mstatus.SPP on the hart, and `HartModel.LoadVolatileCsrs` keeps sstatus although its mstatus write also rewrites the sstatus bits.
- HardwareHarts.HardwareHart.ApplyTrap: the bit writes are made in the source's order, but to local copies of the saved state and of the CSR values, which are stored back at the end. No other code can observe the hart in between, because a hart runs single-threaded.
- `ConfidentialVmPhysicalAddress::new` is not part of this model. It is taken to keep the raw address it is given. The crate's `Error` type is reduced to a single reason string, because `SharePageRequest::new` never returns an error.
- `ResumeRequest::new`, `TerminateRequest::new` and `SharePageResult::new` are not part of this model. Each is taken to keep the raw values it is given: the VM and hart IDs, the VM ID, and the error word and page address.
- The MPP field of mstatus is two bits wide. Like the source, the model sets only the one bit the constant names (bit 11).
- Panics are modelled as the `Panicked` outcome carrying the state at the abort point. What happens after the abort is not modelled.
