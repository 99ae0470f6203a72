/** Properties of the ARM/Thumb helpers of module ARMUtils: what each shift
    primitive does to the parts of its word, the round trips of the rotations, what the
    decoders guarantee to the shift routines, the shape of the two modified
    immediates, and the places where the source departs from the ARM
    Architecture Reference Manual (ARMv7-A/R). */
module ARMUtilsProperties {
  import opened InstructionUtils
  import opened ARMUtils

  // ---------------------------------------------------------------------
  // Shift decoding
  // ---------------------------------------------------------------------

  /** Every (kind, amount) that `DecodeImmShift` produces from a 5-bit
      immediate meets the assert of `Shift_C` and that of the routine it
      dispatches to: LSL by 0..31, LSR and ASR by 1..32, ROR by 1..31 and
      RRX by exactly 1. */
  lemma DecodeImmShiftMeetsShiftC(shiftType: Word, imm5: Word)
    requires shiftType < 4 && imm5 < 32
    ensures ShiftCRequires(DecodeImmShift(shiftType, imm5).0, DecodeImmShift(shiftType, imm5).1)
    ensures DecodeImmShift(shiftType, imm5).0 in {SRType_LSR, SRType_ASR, SRType_ROR, SRType_RRX} ==>
      DecodeImmShift(shiftType, imm5).1 != 0
  {}

  /** Distinct encodings decode to distinct shifts. */
  lemma DecodeImmShiftInjective(t1: Word, imm1: Word, t2: Word, imm2: Word)
    requires t1 < 4 && t2 < 4 && imm1 < 32 && imm2 < 32
    requires DecodeImmShift(t1, imm1) == DecodeImmShift(t2, imm2)
    ensures t1 == t2 && imm1 == imm2
  {}

  /** The kind `DecodeImmShift` decodes is the one `DecodeRegShift` decodes
      from the same type field, except that a rotation by 0 is RRX. */
  lemma DecodeImmShiftKind(shiftType: Word, imm5: Word)
    requires shiftType < 4
    ensures DecodeImmShift(shiftType, imm5).0 ==
      if shiftType == 3 && imm5 == 0 then SRType_RRX else DecodeRegShift(shiftType)
  {}

  /** `DecodeRegShift` inverts the enumerators' values: every kind but RRX is
      decoded from its own value. */
  lemma DecodeRegShiftInverse(t: ARM_ShifterType)
    requires t != SRType_RRX
    ensures DecodeRegShift(ShifterTypeValue(t)) == t
  {}

  // ---------------------------------------------------------------------
  // The shift primitives
  // ---------------------------------------------------------------------

  /** The carry of LSL_C is the last bit shifted out: bit 32 of the value
      shifted left in 64 bits, as section A2.2.1 defines it. */
  lemma LSL_CCarry(value: Word, amount: Word)
    requires 0 < amount < 32
    ensures LSL_C(value, amount).1 as DWord == Bit64((value as DWord) << amount, 32)
  {}

  /** A logical shift right by 32, undefined for a C++ `uint32_t`, leaves 0,
      the architectural result. */
  lemma LSR_CBy32(value: Word)
    ensures LSR_C(value, 32).0 == 0
  {}

  /** The `amount` vacated top bits of ASR_C are all copies of the sign bit,
      bit 31 of the value: all ones for a negative value, all zeros
      otherwise. */
  lemma ASR_CSignFill(value: Word, amount: Word)
    requires 0 < amount <= 32
    ensures ASR_C(value, amount).0 & !LowMask(32 - amount) ==
      if Bit32(value, 31) == 1 then !LowMask(32 - amount) else 0
  {}

  /** On a value whose sign bit is clear, ASR_C is LSR_C, carry included. */
  lemma ASR_CNonNegative(value: Word, amount: Word)
    requires 0 < amount <= 32 && Bit32(value, 31) == 0
    ensures ASR_C(value, amount) == LSR_C(value, amount)
  {}

  /** On a negative value, ASR_C is the complement of the logical shift of
      the complement (the identity `x >> a == ~(~x >> a)` of two's
      complement), and its carry is that of LSR_C. */
  lemma ASR_CNegative(value: Word, amount: Word)
    requires 0 < amount <= 32 && Bit32(value, 31) == 1
    ensures ASR_C(value, amount).0 == !(LSR_C(!value, amount).0)
    ensures ASR_C(value, amount).1 == LSR_C(value, amount).1
  {}

  /** ROR_C rotates right by `amount`. */
  lemma ROR_CIsRotation(value: Word, amount: Word)
    requires 0 < amount < 32
    ensures IsRotationRight(ROR_C(value, amount).0, value, amount)
  {
    Rotr32IsRotation(value, amount);
  }

  /** RRX_C shifts the value right by one and puts bit 0 of `carry_in` at
      bit 31. */
  lemma RRX_CParts(value: Word, carry_in: Word)
    ensures RRX_C(value, carry_in).0 & 0x7FFF_FFFF == value >> 1
    ensures RRX_C(value, carry_in).0 >> 31 == Bit32(carry_in, 0)
  {}

  // ---------------------------------------------------------------------
  // The two rotations and their round trips
  // ---------------------------------------------------------------------

  /** `ror(val, 32, shift)` rotates right by `shift`. */
  lemma RorIsRotation(val: Word, shift: Word)
    requires 0 < shift < 32
    ensures IsRotationRight(ror(val, 32, shift), val, shift)
  {
    Rotr32IsRotation(val, shift);
  }

  /** ROR_C rotates as `ror` does and carries out bit 31 of its input. */
  lemma ROR_CIsRor(value: Word, amount: Word)
    requires 0 < amount < 32
    ensures ROR_C(value, amount) == (ror(value, 32, amount), Bit32(value, 31))
  {}

  /** Rotating right by `shift` and then by `32 - shift` gives back the
      original value. */
  lemma RorRoundTrip(val: Word, shift: Word)
    requires 0 < shift < 32
    ensures ror(ror(val, 32, shift), 32, 32 - shift) == val
  {
    Rotr32RoundTrip(val, shift);
  }

  /** The same round trip through ROR_C. */
  lemma ROR_CRoundTrip(value: Word, amount: Word)
    requires 0 < amount < 32
    ensures ROR_C(ROR_C(value, amount).0, 32 - amount).0 == value
  {
    Rotr32RoundTrip(value, amount);
  }

  /** Shifting the result of LSL_C back right by `amount` recovers the bits
      of the value that stayed inside the word; the low `amount` bits of the
      result are zeros. */
  lemma LSL_CRoundTrip(value: Word, amount: Word)
    requires 0 < amount < 32
    ensures LSL_C(value, amount).0 >> amount == value & LowMask(32 - amount)
    ensures LSL_C(value, amount).0 & LowMask(amount) == 0
  {}

  /** Shifting the result of LSR_C back left by `amount` recovers the bits of
      the value that stayed inside the word; the top `amount` bits of the
      result are zeros. */
  lemma LSR_CRoundTrip(value: Word, amount: Word)
    requires 0 < amount <= 32
    ensures LSR_C(value, amount).0 << amount == value & !LowMask(amount)
    ensures LSR_C(value, amount).0 & !LowMask(32 - amount) == 0
  {}

  /** RRX_C is undone by a rotation left by one through the carry: shifting
      the result left by one and putting the carry out back at bit 0 gives the
      original value. */
  lemma RRX_CRoundTrip(value: Word, carry_in: Word)
    ensures (RRX_C(value, carry_in).0 << 1) | RRX_C(value, carry_in).1 == value
  {}

  // ---------------------------------------------------------------------
  // Shift_C and Shift
  // ---------------------------------------------------------------------

  /** A shift by 0 of any kind but RRX is allowed and leaves both the value
      and the carry alone. */
  lemma ShiftCByZero(value: Word, shiftType: ARM_ShifterType, carry_in: Word)
    requires shiftType != SRType_RRX
    ensures ShiftCRequires(shiftType, 0)
    ensures Shift_C(value, shiftType, 0, carry_in) == (value, carry_in)
    ensures Shift(value, shiftType, 0, carry_in) == value
  {}

  /** Shift_C computes a bit as its carry, except that a shift by 0 passes
      `carry_in` on: with a carry that is a bit, the carry out is a bit. */
  lemma ShiftCCarryIsBit(value: Word, shiftType: ARM_ShifterType, amount: Word, carry_in: Word)
    requires ShiftCRequires(shiftType, amount) && carry_in <= 1
    ensures Shift_C(value, shiftType, amount, carry_in).1 <= 1
  {}

  /** As written, Shift_C's RRX case rotates in bit 0 of `amount` (which its
      assert makes 1) instead of `carry_in`: through Shift_C, RRX always sets
      bit 31, whatever the carry. Section A8.4.3 rotates in `carry_in`. */
  lemma ShiftCRrxSetsTopBit(value: Word, carry_in: Word)
    ensures Shift_C(value, SRType_RRX, 1, carry_in) == RRX_C(value, 1)
    ensures Bit32(Shift_C(value, SRType_RRX, 1, carry_in).0, 31) == 1
    ensures Bit32(carry_in, 0) == 0 ==> Shift_C(value, SRType_RRX, 1, carry_in) != RRX_C(value, carry_in)
  {}

  /** Because of that, no kind of `Shift` depends on the carry it is given. */
  lemma ShiftIgnoresCarryIn(value: Word, shiftType: ARM_ShifterType, amount: Word, c1: Word, c2: Word)
    requires ShiftCRequires(shiftType, amount)
    ensures Shift(value, shiftType, amount, c1) == Shift(value, shiftType, amount, c2)
  {}

  /** The carry of ROR_C, bit 31 of the input, is the carry section A2.2.1
      gives (bit 31 of the result, which is bit amount - 1 of the input)
      exactly when those two bits of the input agree. */
  lemma RorCarryDeviation(value: Word, amount: Word)
    requires 0 < amount < 32
    ensures (ROR_C(value, amount).1 == Bit32(ROR_C(value, amount).0, 31)) <==>
      (Bit32(value, 31) == Bit32(value, amount - 1))
  {
    ROR_CIsRotation(value, amount);
    RotationTopBit(ROR_C(value, amount).0, value, amount);
  }

  /** The input that shows it: 1 rotated right by 1 is 0x8000_0000, whose bit
      31 is 1, while ROR_C carries out 0. */
  lemma RorCarryDeviationExample()
    ensures ROR_C(1, 1) == (0x8000_0000, 0)
  {}

  // ---------------------------------------------------------------------
  // ARM modified immediates (section A5.2.4)
  // ---------------------------------------------------------------------

  /** The expanded ARM immediate is the byte `val<7:0>` rotated right by
      twice `val<11:8>`; rotating it back left recovers the byte. */
  lemma ARMExpandImmRotatesByte(val: Word, carry_in: Word)
    ensures ARMExpandImm_C(val, carry_in).0 == Rotr32(bits(val, 7, 0), 2 * bits(val, 11, 8))
    ensures Rotr32(ARMExpandImm_C(val, carry_in).0, (32 - 2 * bits(val, 11, 8)) % 32) == bits(val, 7, 0)
  {
    var amt := 2 * bits(val, 11, 8);
    if amt != 0 {
      Rotr32RoundTrip(bits(val, 7, 0), amt);
    }
  }

  /** The expanded value does not depend on the carry; the carry out is the
      carry in when there is no rotation and bit 31 of the value otherwise. */
  lemma ARMExpandImmCarry(val: Word, c1: Word, c2: Word)
    ensures ARMExpandImm_C(val, c1).0 == ARMExpandImm_C(val, c2).0 == ARMExpandImm(val)
    ensures ARMExpandImm_C(val, c1).1 == if bits(val, 11, 8) == 0 then c1 else Bit32(ARMExpandImm(val), 31)
  {}

  /** 0x4FF: the byte 0xFF rotated right by 8 is 0xFF00_0000, carry 1. */
  lemma ARMExpandImmExample()
    ensures ARMExpandImm_C(0x4FF, 0) == (0xFF00_0000, 1)
  {}

  /** Section A5.2.4 defines the expansion as `Shift_C(imm8, SRType_ROR,
      2 * rotate, carry_in)`. The source's values agree with that call of
      its own Shift_C, but its carries do not where ROR_C's carry departs
      from the architecture: for 0x4FF, Shift_C gives 0 and ARMExpandImm_C 1. */
  lemma ARMExpandImmVersusShiftC(val: Word, carry_in: Word)
    ensures ShiftCRequires(SRType_ROR, 2 * bits(val, 11, 8))
    ensures ARMExpandImm_C(val, carry_in).0 == Shift_C(bits(val, 7, 0), SRType_ROR, 2 * bits(val, 11, 8), carry_in).0
    ensures ARMExpandImm_C(0x4FF, carry_in).1 == 1 && Shift_C(0xFF, SRType_ROR, 8, carry_in).1 == 0
  {
    var amt := 2 * bits(val, 11, 8);
    if amt != 0 {
      ROR_CIsRor(bits(val, 7, 0), amt);
    }
  }

  // ---------------------------------------------------------------------
  // Thumb modified immediates (section A6.3.2)
  // ---------------------------------------------------------------------

  /** The scattered fields of a 32-bit Thumb instruction land where
      `i:imm3:imm8` puts them. */
  lemma ThumbImm12Layout(val: Word)
    ensures bits(ThumbImm12(val), 7, 0) == bits(val, 7, 0)
    ensures bits(ThumbImm12(val), 10, 8) == bits(val, 14, 12)
    ensures bit(ThumbImm12(val), 11) == bit(val, 26)
    ensures ThumbImm12(val) < 4096
  {}

  /** The four byte lanes of `r` hold `byte` where `l0` ... `l3` say so and
      0 elsewhere; lane 0 is bits 7..0. */
  predicate ByteLanes(r: Word, byte: Word, l0: bool, l1: bool, l2: bool, l3: bool)
  {
    && r & 0xFF == (if l0 then byte else 0)
    && (r >> 8) & 0xFF == (if l1 then byte else 0)
    && (r >> 16) & 0xFF == (if l2 then byte else 0)
    && r >> 24 == (if l3 then byte else 0)
  }

  /** Pattern 0 of `imm12<9:8>`: 0x0000_00XY. */
  lemma ThumbExpandImmPattern0(val: Word, carry_in: Word)
    requires bits(ThumbImm12(val), 11, 10) == 0 && bits(ThumbImm12(val), 9, 8) == 0
    ensures ByteLanes(ThumbExpandImm_C(val, carry_in).0, bits(val, 7, 0), true, false, false, false)
  {}

  /** Pattern 1: 0x00XY_00XY. */
  lemma ThumbExpandImmPattern1(val: Word, carry_in: Word)
    requires bits(ThumbImm12(val), 11, 10) == 0 && bits(ThumbImm12(val), 9, 8) == 1
    ensures ByteLanes(ThumbExpandImm_C(val, carry_in).0, bits(val, 7, 0), true, false, true, false)
  {}

  /** Pattern 2: 0xXY00_XY00. */
  lemma ThumbExpandImmPattern2(val: Word, carry_in: Word)
    requires bits(ThumbImm12(val), 11, 10) == 0 && bits(ThumbImm12(val), 9, 8) == 2
    ensures ByteLanes(ThumbExpandImm_C(val, carry_in).0, bits(val, 7, 0), false, true, false, true)
  {}

  /** Pattern 3: 0xXYXY_XYXY. */
  lemma ThumbExpandImmPattern3(val: Word, carry_in: Word)
    requires bits(ThumbImm12(val), 11, 10) == 0 && bits(ThumbImm12(val), 9, 8) == 3
    ensures ByteLanes(ThumbExpandImm_C(val, carry_in).0, bits(val, 7, 0), true, true, true, true)
  {}

  /** With `imm12<11:10> == 0` the carry passes through and the byte
      `imm12<7:0>` is copied into the lanes the pattern `imm12<9:8>` selects:
      lane 0 unless the pattern is 2, lanes 1 and 3 for patterns 2 and 3,
      lane 2 for patterns 1 and 3. */
  lemma ThumbExpandImmReplicated(val: Word, carry_in: Word)
    requires bits(ThumbImm12(val), 11, 10) == 0
    ensures ThumbExpandImm_C(val, carry_in).1 == carry_in
    ensures var sel := bits(ThumbImm12(val), 9, 8);
      ByteLanes(ThumbExpandImm_C(val, carry_in).0, bits(val, 7, 0), sel != 2, sel >= 2, sel == 1 || sel == 3, sel >= 2)
  {
    var sel := bits(ThumbImm12(val), 9, 8);
    if sel == 0 {
      ThumbExpandImmPattern0(val, carry_in);
    } else if sel == 1 {
      ThumbExpandImmPattern1(val, carry_in);
    } else if sel == 2 {
      ThumbExpandImmPattern2(val, carry_in);
    } else {
      ThumbExpandImmPattern3(val, carry_in);
    }
  }

  /** Otherwise the expansion is `ror` of `1:imm12<6:0>` by `imm12<11:7>`,
      with bit 31 of the result as the carry. */
  lemma ThumbExpandImmRor(val: Word, carry_in: Word)
    requires bits(ThumbImm12(val), 11, 10) != 0
    ensures ThumbExpandImm_C(val, carry_in) ==
      var imm32 := ror(0x80 | bits(ThumbImm12(val), 6, 0), 32, bits(ThumbImm12(val), 11, 7));
      (imm32, Bit32(imm32, 31))
  {}

  /** That is, `1:imm12<6:0>` is rotated right by `imm12<11:7>`, which is at
      least 8, and the carry out is bit 31 of the result. */
  lemma ThumbExpandImmRotated(val: Word, carry_in: Word)
    requires bits(ThumbImm12(val), 11, 10) != 0
    ensures 8 <= bits(ThumbImm12(val), 11, 7) < 32
    ensures ThumbExpandImm_C(val, carry_in).0 ==
      Rotr32(0x80 | bits(ThumbImm12(val), 6, 0), bits(ThumbImm12(val), 11, 7))
    ensures ThumbExpandImm_C(val, carry_in).1 == Bit32(ThumbExpandImm_C(val, carry_in).0, 31)
  {
    var imm12 := ThumbImm12(val);
    ThumbRotationAtLeast8(imm12);
    ThumbExpandImmRor(val, carry_in);
  }

  /** In the description of a rotation by where its parts land: the
      expansion is `1:imm12<6:0>` rotated right by `imm12<11:7>`. */
  lemma ThumbExpandImmIsRotation(val: Word, carry_in: Word)
    requires bits(ThumbImm12(val), 11, 10) != 0
    ensures 8 <= bits(ThumbImm12(val), 11, 7) < 32
    ensures IsRotationRight(ThumbExpandImm_C(val, carry_in).0, 0x80 | bits(ThumbImm12(val), 6, 0), bits(ThumbImm12(val), 11, 7))
  {
    ThumbExpandImmRotated(val, carry_in);
    Rotr32IsRotation(0x80 | bits(ThumbImm12(val), 6, 0), bits(ThumbImm12(val), 11, 7));
  }

  /** The expanded value does not depend on the carry. */
  lemma ThumbExpandImmCarry(val: Word, c1: Word, c2: Word)
    ensures ThumbExpandImm_C(val, c1).0 == ThumbExpandImm_C(val, c2).0 == ThumbExpandImm(val)
  {}

  /** The instruction word 0x4000 (imm3 = 0b100, all else 0) expands to
      0x80 rotated right by 8: 0x8000_0000, carry 1. */
  lemma ThumbExpandImmExample()
    ensures ThumbExpandImm_C(0x4000, 0) == (0x8000_0000, 1)
  {}

  // ---------------------------------------------------------------------
  // Small helpers
  // ---------------------------------------------------------------------

  /** A field starting at bit 0, `bits(val, msbit, 0)`, is what remains of
      `val` once the bits above msbit are shifted out at the top and the
      rest is shifted back down. */
  lemma BitsLowField(val: Word, msbit: Word)
    requires msbit < 32
    ensures bits(val, msbit, 0) == (val << (31 - msbit)) >> (31 - msbit)
  {
    ShiftOutTop(val, msbit);
  }

  /** Any other field is that of `val` shifted right by lsbit: with
      BitsLowField, `val<msbit:lsbit>` is `val` with the bits below lsbit
      shifted out at the bottom and those above msbit at the top. */
  lemma BitsShifted(val: Word, msbit: Word, lsbit: Word)
    requires lsbit <= msbit < 32
    ensures bits(val, msbit, lsbit) == bits(val >> lsbit, msbit - lsbit, 0)
  {}

  /** Shifting left and back by 31 - msbit leaves the bits up to msbit. */
  lemma ShiftOutTop(val: Word, msbit: Word)
    requires msbit < 32
    ensures (val << (31 - msbit)) >> (31 - msbit) == val & LowMask(msbit + 1)
  {}

  /** `bit(val, n)` is 1 exactly when bit n of `val` is set. */
  lemma BitIsBits(val: Word, n: Word)
    requires n < 32
    ensures bit(val, n) == 1 <==> val & (1 << n) != 0
  {}

  /** Of the sixteen core registers, only SP and PC are "bad": R0-R12 and LR
      are permitted. */
  lemma BadRegIsSpOrPc(n: Word)
    requires n < 16
    ensures BadReg(n) <==> n == SP || n == PC
    ensures n <= 12 || n == 14 ==> !BadReg(n)
  {}
}
