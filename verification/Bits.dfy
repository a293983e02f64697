/**
 * A 64-bit lane of packages/shared/src/keccak256.ts:21, 70-73 as its bits, lowest first. A bigint is
 * a row of bits of any length, so the masks that cut one back to 64 are part of the model.
 */
module Bits {

  type Lane = l: seq<bool> | |l| == 64 witness seq(64, i => false)

  function Zero(): Lane {
    seq(64, i => false)
  }

  function Xor(a: Lane, b: Lane): Lane {
    seq(64, z requires 0 <= z < 64 => a[z] != b[z])
  }

  function And(a: Lane, b: Lane): Lane {
    seq(64, z requires 0 <= z < 64 => a[z] && b[z])
  }

  /** lane ^ LANE_MASK. */
  function Not(a: Lane): Lane {
    seq(64, z requires 0 <= z < 64 => !a[z])
  }

  // ------------------------------------------------------------- rotation

  /** n << shift. */
  function Shl(bits: seq<bool>, shift: nat): seq<bool> {
    seq(shift, i => false) + bits
  }

  /** n >> shift. */
  function Shr(bits: seq<bool>, shift: nat): seq<bool> {
    if shift < |bits| then bits[shift..] else []
  }

  function BitOf(bits: seq<bool>, z: nat): bool {
    z < |bits| && bits[z]
  }

  /** m | n. */
  function Or(a: seq<bool>, b: seq<bool>): seq<bool> {
    seq(if |a| < |b| then |b| else |a|, z requires 0 <= z => BitOf(a, z) || BitOf(b, z))
  }

  /** n & LANE_MASK. */
  function Masked(bits: seq<bool>): Lane {
    seq(64, z requires 0 <= z < 64 => BitOf(bits, z))
  }

  function Rotl(lane: Lane, shift: nat): Lane
    requires shift <= 64
  {
    Masked(Or(Shl(lane, shift), Shr(lane, 64 - shift)))
  }

  /** Rotation as FIPS 202 writes it: bit z comes from bit z - offset, modulo 64. */
  function Rotated(lane: Lane, offset: nat): Lane {
    seq(64, z requires 0 <= z < 64 => lane[(z - offset) % 64])
  }

  lemma RotlRotates(lane: Lane, shift: nat)
    requires shift < 64
    ensures Rotl(lane, shift) == Rotated(lane, shift)
  {
  }
}
