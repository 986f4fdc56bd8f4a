/**
 * Architectural constants of RISC-V that the trap-forwarding engine uses, with
 * the values the RISC-V Privileged Architecture (version 20211203) assigns:
 * bit positions in `mstatus` (section 3.1.6, with the hypervisor extension's
 * MPV), in `hstatus` (section 8.2.1) and in `sstatus` (section 4.1.1), the
 * vectored mode of `stvec` (section 4.1.2) and the exception codes of
 * `scause` (section 4.1.8).
 */
module Riscv {
  import opened Bits

  /** An index into the 32 integer registers x0..x31. */
  type Gpr = i: nat | i < 32

  // The argument registers of the standard calling convention (x10..x17).
  const A0: Gpr := 10
  const A1: Gpr := 11
  const A2: Gpr := 12
  const A3: Gpr := 13
  const A4: Gpr := 14
  const A5: Gpr := 15
  const A6: Gpr := 16
  const A7: Gpr := 17

  // mstatus
  const MstatusSie: BitIndex := 1
  const MstatusMpie: BitIndex := 7
  const MstatusSpp: BitIndex := 8
  const MstatusMpp: BitIndex := 11
  const MstatusMpv: BitIndex := 39

  // hstatus
  const HstatusGva: BitIndex := 6
  const HstatusSpv: BitIndex := 7
  const HstatusSpvp: BitIndex := 8

  // sstatus
  const SstatusSpp: BitIndex := 8

  /** The low bit of stvec.MODE; set means vectored trap delivery. */
  const StvecModeVectored: BitIndex := 0

  /** The interrupt bit of scause (its most significant bit). */
  const ScauseInterruptBit: BitIndex := 63

  /** scause with only the interrupt bit set. */
  const ScauseInterruptMask: bv64 := Mask(ScauseInterruptBit)

  /** Exception code "environment call from VS-mode". */
  const CauseVirtualSupervisorEcall: bv64 := 10

  /** One more than the largest value a 64-bit register holds. */
  const RegisterBound: int := 0x1_0000_0000_0000_0000
}
