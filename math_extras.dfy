/** The one helper of LLVM's MathExtras.h that the ARM helpers use, defined
    from its meaning: MathExtras.h is not part of this model. */
module MathExtras {
  import opened InstructionUtils

  /** `SignExtend64<32>(v)`: `v` read as a signed 32-bit integer and widened
      to 64 bits, so that bits 63..32 all copy bit 31. */
  function SignExtend64(v: Word): (r: DWord)
    ensures r >> 31 == 0 || r >> 31 == 0x1_FFFF_FFFF
  {
    if v >> 31 == 1 then v as DWord | 0xFFFF_FFFF_0000_0000 else v as DWord
  }

  /** Widening keeps the value: its low 32 bits are `v`. */
  lemma SignExtend64Low(v: Word)
    ensures SignExtend64(v) & 0xFFFF_FFFF == v as DWord
  {
    if v >> 31 == 1 {
    } else {
    }
  }

  /** The 32 high bits of the widened value all copy the sign bit of `v`. */
  lemma SignExtend64High(v: Word)
    ensures SignExtend64(v) >> 32 == if Bit32(v, 31) == 1 then 0xFFFF_FFFF else 0
  {
    if v >> 31 == 1 {
    } else {
    }
  }
}
