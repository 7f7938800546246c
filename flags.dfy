/**
 * The 32-bit `flags` word of `SetupConnection`: Rust's `u32::reverse_bits`
 * and the three free-standing accessors that read a flag by reversing the
 * word and shifting the wanted bit to the least significant position.
 */
module Flags {

  /** Bit `i` of `x` (bit 0 is the least significant), as 0 or 1. */
  function Bit(x: bv32, i: bv32): (b: bv32)
    requires i < 32
    ensures b <= 1
  {
    (x >> i) & 1
  }

  /**
   * `u32::reverse_bits`: bit `i` of the result is bit `31 - i` of `x`.
   * Computed by swapping neighbouring bits, then pairs, nibbles, bytes and
   * half-words.
   */
  function ReverseBits(x: bv32): (r: bv32)
    ensures forall i: bv32 :: i < 32 ==> Bit(r, i) == Bit(x, 31 - i)
  {
    var a := ((x >> 1) & 0x5555_5555) | ((x & 0x5555_5555) << 1);
    var b := ((a >> 2) & 0x3333_3333) | ((a & 0x3333_3333) << 2);
    var c := ((b >> 4) & 0x0F0F_0F0F) | ((b & 0x0F0F_0F0F) << 4);
    var d := ((c >> 8) & 0x00FF_00FF) | ((c & 0x00FF_00FF) << 8);
    (d >> 16) | (d << 16)
  }

  lemma ReverseBitsInvolutive(x: bv32)
    ensures ReverseBits(ReverseBits(x)) == x
  {
  }

  /** `has_requires_std_job`: the top bit of the reversed word, i.e. bit 0. */
  function HasRequiresStdJob(flags: bv32): (r: bool)
    ensures r <==> flags & 0x1 != 0
  {
    var reversed := ReverseBits(flags);
    var flag := reversed >> 31;
    flag != 0
  }

  /** `has_version_rolling`: the second bit from the top of the reversed word, i.e. bit 1. */
  function HasVersionRolling(flags: bv32): (r: bool)
    ensures r <==> flags & 0x2 != 0
  {
    var reversed := ReverseBits(flags);
    var shifted := reversed << 1;
    var flag := shifted >> 31;
    flag != 0
  }

  /** `has_work_selection`: the third bit from the top of the reversed word, i.e. bit 2. */
  function HasWorkSelection(flags: bv32): (r: bool)
    ensures r <==> flags & 0x4 != 0
  {
    var reversed := ReverseBits(flags);
    var shifted := reversed << 2;
    var flag := shifted >> 31;
    flag != 0
  }

  /**
   * The word after `flags |= 1`: the standard-job bit is set and no other
   * bit changes.
   */
  function WithRequiresStdJob(flags: bv32): (r: bv32)
    ensures HasRequiresStdJob(r)
    ensures (r ^ flags) & 0xFFFF_FFFE == 0
  {
    flags | 0x1
  }

  /** Setting the bit again changes nothing, and a word that already has it is left as it was. */
  lemma WithRequiresStdJobIdempotent(flags: bv32)
    ensures HasRequiresStdJob(flags) ==> WithRequiresStdJob(flags) == flags
    ensures WithRequiresStdJob(WithRequiresStdJob(flags)) == WithRequiresStdJob(flags)
  {
  }

  /** The cases exercised by the source's unit tests. */
  lemma AccessorExamples()
    ensures HasRequiresStdJob(0x1) && !HasRequiresStdJob(0x2)
    ensures HasVersionRolling(0x2) && !HasVersionRolling(0x1)
    ensures HasWorkSelection(0x4) && !HasWorkSelection(0x1)
  {
  }
}
