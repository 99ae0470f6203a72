/** Three places where ARMUtils.h departs from the pseudocode of the ARM
    Architecture Reference Manual (ARMv7-A/R), each modelled as written and
    as evidently intended.

    The Thumb modified immediate: its pattern selector is `bits(imm12, 8, 9)`, with the bit positions in reversed
    order. `Bits32` asserts `lsbit <= msbit`, so a build with assertions
    fails there; a build without them computes a field of width 0, and the
    selector is 0 for every immediate. The functions here model that release
    build, and the lemmas show what it loses against `ARMUtils.ThumbExpandImm_C`,
    which reads `imm12<9:8>` as section A6.3.2 does.

    The carry of ROR_C, which the source takes from bit 31 of the input
    instead of bit 31 of the result (section A2.2.1), and the RRX case of
    Shift_C, which rotates in `amount` instead of `carry_in` (section
    A8.4.3): `ROR_CIntended` and `Shift_CIntended` are the architecture's
    versions, with their properties proved below. */
module ARMUtilsFindings {
  import opened InstructionUtils
  import opened ARMUtils

  /** The selector as written: `bits(imm12, 8, 9)` with the assert compiled
      out. */
  function ThumbSelectorAsWritten(imm12: Word): (r: Word)
    ensures r == 0
  {
    Bits32Unchecked(imm12, 8, 9)
  }

  /** `ThumbExpandImm_C` as written. */
  function ThumbExpandImmAsWritten_C(val: Word, carry_in: Word): (r: (Word, Word))
    ensures r.1 == carry_in || r.1 == Bit32(r.0, 31)
  {
    var i := bit(val, 26);
    var imm3 := bits(val, 14, 12);
    var abcdefgh := bits(val, 7, 0);
    var imm12 := (i << 11) | (imm3 << 8) | abcdefgh;
    if bits(imm12, 11, 10) == 0 then
      (ThumbReplicate(abcdefgh, ThumbSelectorAsWritten(imm12)), carry_in)
    else
      var unrotated_value := 0x80 | bits(imm12, 6, 0);
      ThumbRotationAtLeast8(imm12);
      var imm32 := ror(unrotated_value, 32, bits(imm12, 11, 7));
      (imm32, Bit32(imm32, 31))
  }

  /** With `imm12<11:10> == 0` the expansion as written always takes pattern
      0, `0x0000_00XY`, whatever `imm12<9:8>` says. */
  lemma ThumbExpandImmAsWrittenPattern0(val: Word, carry_in: Word)
    requires bits(ThumbImm12(val), 11, 10) == 0
    ensures ThumbExpandImmAsWritten_C(val, carry_in) == (bits(val, 7, 0), carry_in)
  {}

  /** The rotated immediates are those of the corrected model. */
  lemma ThumbExpandImmAsWrittenRotated(val: Word, carry_in: Word)
    requires bits(ThumbImm12(val), 11, 10) != 0
    ensures ThumbExpandImmAsWritten_C(val, carry_in) == ThumbExpandImm_C(val, carry_in)
  {}

  /** The input that shows it: the instruction word 0x10AB has imm3 = 0b001
      and imm8 = 0xAB, so imm12 = 0x1AB selects pattern 1, `0x00AB_00AB`;
      as written it expands to 0xAB. */
  lemma ThumbExpandImmAsWrittenExample()
    ensures ThumbImm12(0x10AB) == 0x1AB
    ensures ThumbExpandImmAsWritten_C(0x10AB, 0).0 == 0xAB
    ensures ThumbExpandImm_C(0x10AB, 0).0 == 0x00AB_00AB
  {}

  /** ROR_C with the architecture's carry, bit 31 of the result. */
  function ROR_CIntended(value: Word, amount: Word): (r: (Word, Word))
    requires 0 < amount < 32
    ensures r.0 == ROR_C(value, amount).0
    ensures r.1 <= 1
  {
    var result := Rotr32(value, amount);
    (result, Bit32(result, 31))
  }

  /** The carry of the corrected ROR_C is the last bit rotated round, bit
      amount - 1 of the input, and it differs from the source's ROR_C only
      in that carry. */
  lemma ROR_CIntendedCarry(value: Word, amount: Word)
    requires 0 < amount < 32
    ensures ROR_CIntended(value, amount).1 == Bit32(value, amount - 1)
    ensures ROR_CIntended(value, amount).0 == ROR_C(value, amount).0
  {
    Rotr32IsRotation(value, amount);
    RotationTopBit(Rotr32(value, amount), value, amount);
  }

  /** Shift_C with the corrected ROR_C and with `carry_in` rotated in by
      RRX. */
  function Shift_CIntended(value: Word, shiftType: ARM_ShifterType, amount: Word, carry_in: Word): (r: (Word, Word))
    requires ShiftCRequires(shiftType, amount)
    ensures amount == 0 ==> r == (value, carry_in)
    ensures amount != 0 ==> r.1 <= 1
  {
    if amount == 0 then (value, carry_in)
    else
      match shiftType
      case SRType_LSL => LSL_C(value, amount)
      case SRType_LSR => LSR_C(value, amount)
      case SRType_ASR => ASR_C(value, amount)
      case SRType_ROR => ROR_CIntended(value, amount)
      case SRType_RRX => RRX_C(value, carry_in)
  }

  /** The corrected RRX rotates in bit 0 of the carry it is given, so its
      result now depends on that carry. */
  lemma ShiftCIntendedRrx(value: Word, carry_in: Word)
    ensures Shift_CIntended(value, SRType_RRX, 1, carry_in) == RRX_C(value, carry_in)
    ensures Shift_CIntended(value, SRType_RRX, 1, carry_in).0 >> 31 == Bit32(carry_in, 0)
    ensures Shift_CIntended(value, SRType_RRX, 1, 0).0 != Shift_CIntended(value, SRType_RRX, 1, 1).0
  {}

  /** For every kind but RRX, the corrected Shift_C has the source's values,
      and the same carries except for ROR. */
  lemma ShiftCIntendedAgrees(value: Word, shiftType: ARM_ShifterType, amount: Word, carry_in: Word)
    requires ShiftCRequires(shiftType, amount) && shiftType != SRType_RRX
    ensures Shift_CIntended(value, shiftType, amount, carry_in).0 == Shift_C(value, shiftType, amount, carry_in).0
    ensures shiftType != SRType_ROR ==> Shift_CIntended(value, shiftType, amount, carry_in) == Shift_C(value, shiftType, amount, carry_in)
  {}

  /** ARMExpandImm_C is, carry included, the architecture's definition of
      section A5.2.4, `Shift_C(imm8, SRType_ROR, 2 * rotate, carry_in)`,
      taken with the corrected carry. */
  lemma ARMExpandImmIsIntendedShiftC(val: Word, carry_in: Word)
    ensures ShiftCRequires(SRType_ROR, 2 * bits(val, 11, 8))
    ensures ARMExpandImm_C(val, carry_in) == Shift_CIntended(bits(val, 7, 0), SRType_ROR, 2 * bits(val, 11, 8), carry_in)
  {}
}
