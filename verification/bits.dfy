/**
 * The bit helpers the security monitor applies to 64-bit register values:
 * `enable_bit`, `disable_bit` and `are_bits_enabled` all take the position of
 * one bit.
 */
module Bits {

  /** A bit position inside a 64-bit register (a `usize` below 64 in the source). */
  type BitIndex = i: bv64 | i < 64

  /** The register value with only bit `i` set. */
  function Mask(i: BitIndex): bv64 {
    (1 as bv64) << i
  }

  /** `are_bits_enabled`: bit `i` of `v` is one. */
  predicate AreBitsEnabled(v: bv64, i: BitIndex) {
    v & Mask(i) != 0
  }

  /** `are_bits_enabled` reads bit `i`: the value shifted right by `i` is odd. */
  lemma AreBitsEnabledReadsBit(v: bv64, i: BitIndex)
    ensures AreBitsEnabled(v, i) <==> (v >> i) & 1 == 1
  {
  }

  /** `v` and `w` agree on every bit that `m` does not select. */
  predicate AgreeOutside(v: bv64, w: bv64, m: bv64) {
    v & !m == w & !m
  }

  /** `enable_bit`: set bit `i`, keep all others. */
  function EnableBit(v: bv64, i: BitIndex): (r: bv64)
    ensures AreBitsEnabled(r, i)
    ensures AgreeOutside(r, v, Mask(i))
  {
    v | Mask(i)
  }

  /** `disable_bit`: clear bit `i`, keep all others. */
  function DisableBit(v: bv64, i: BitIndex): (r: bv64)
    ensures !AreBitsEnabled(r, i)
    ensures AgreeOutside(r, v, Mask(i))
  {
    v & !Mask(i)
  }

  /** A change confined to bit `j` keeps every other bit. */
  lemma AgreeOutsideKeepsBit(v: bv64, w: bv64, j: BitIndex, i: BitIndex)
    requires AgreeOutside(v, w, Mask(j))
    requires i != j
    ensures AreBitsEnabled(v, i) <==> AreBitsEnabled(w, i)
  {
  }

  /** A change confined to `a` followed by one confined to `b` is confined to `a | b`. */
  lemma AgreeOutsideTrans(w: bv64, v: bv64, u: bv64, b: bv64, a: bv64)
    requires AgreeOutside(w, v, b)
    requires AgreeOutside(v, u, a)
    ensures AgreeOutside(w, u, a | b)
  {
  }
}
