/** The ARM/Thumb shift-operand and modified-immediate helpers of
    ARMUtils.h, following the pseudocode of the ARM Architecture Reference
    Manual, ARMv7-A/R edition: the shift and rotate primitives (section
    A2.2.1), shift decoding and dispatch (section A8.4.3), the ARM modified
    immediate (section A5.2.4) and the Thumb modified immediate (section
    A6.3.2).

    Every C++ helper that returns a value and writes the carry through a
    `uint32_t &carry_out` parameter is a function returning the pair
    `(result, carry_out)`. An `assert` of the source is a `requires`.
    Carries are `Word`s, as the source's `uint32_t` carries are: the routines
    produce only 0 or 1, and a carry that is passed through is passed through
    unchanged. */
module ARMUtils {
  import opened InstructionUtils
  import opened MathExtras

  /** The five shift kinds, in the order of the C++ enumeration. */
  datatype ARM_ShifterType = SRType_LSL | SRType_LSR | SRType_ASR | SRType_ROR | SRType_RRX

  /** The value an enumerator has when C++ converts it to `uint32_t`. */
  function ShifterTypeValue(t: ARM_ShifterType): (r: Word)
    ensures r < 5
    ensures (r == 4) == (t == SRType_RRX)
  {
    match t
    case SRType_LSL => 0
    case SRType_LSR => 1
    case SRType_ASR => 2
    case SRType_ROR => 3
    case SRType_RRX => 4
  }

  // ---------------------------------------------------------------------
  // Shift decoding (section A8.4.3)
  // ---------------------------------------------------------------------

  /** `DecodeImmShift(shiftType, imm5)`: the shift kind and the normalised amount
      encoded by a 2-bit type field and a 5-bit immediate. An immediate of 0 means
      a shift by 32 for LSR and ASR, and RRX (a rotation by one through the
      carry) for the rotate type. A type above 3 fails the source's assert. */
  function DecodeImmShift(shiftType: Word, imm5: Word): (r: (ARM_ShifterType, Word))
    requires shiftType < 4
    ensures (r.0 == SRType_RRX) == (shiftType == 3 && imm5 == 0)
    ensures r.0 != SRType_RRX ==> ShifterTypeValue(r.0) == shiftType
    ensures imm5 != 0 ==> r.1 == imm5
    ensures imm5 == 0 ==> r.1 == (if shiftType == 0 then 0 else if shiftType == 3 then 1 else 32)
  {
    match shiftType
    case 0 => (SRType_LSL, imm5)
    case 1 => (SRType_LSR, if imm5 == 0 then 32 else imm5)
    case 2 => (SRType_ASR, if imm5 == 0 then 32 else imm5)
    case _ => if imm5 == 0 then (SRType_RRX, 1) else (SRType_ROR, imm5)
  }

  /** The second `DecodeImmShift` overload: the amount only, for a kind given
      as an enumerator (which C++ converts to its value). `SRType_RRX`, whose
      value is 4, fails the assert of the first overload. Note that
      `SRType_ROR` with an immediate of 0 gives 1, the amount of the RRX it
      encodes. */
  function DecodeImmShiftAmount(shift_t: ARM_ShifterType, imm5: Word): (r: Word)
    requires shift_t != SRType_RRX
    ensures imm5 != 0 ==> r == imm5
    ensures imm5 == 0 ==> r == match shift_t
                               case SRType_LSL => 0
                               case SRType_ROR => 1
                               case _ => 32
  {
    DecodeImmShift(ShifterTypeValue(shift_t), imm5).1
  }

  /** `DecodeRegShift(shiftType)`: the kind of a register-controlled shift, which
      is never RRX. A type above 3 fails the source's assert. */
  function DecodeRegShift(shiftType: Word): (r: ARM_ShifterType)
    requires shiftType < 4
    ensures r != SRType_RRX
    ensures ShifterTypeValue(r) == shiftType
  {
    match shiftType
    case 0 => SRType_LSL
    case 1 => SRType_LSR
    case 2 => SRType_ASR
    case _ => SRType_ROR
  }

  // ---------------------------------------------------------------------
  // Shift and rotate primitives (section A2.2.1)
  // ---------------------------------------------------------------------

  /** `LSL_C(value, amount)`: logical shift left by 1..31; the carry is the
      last bit shifted out, bit 32 - amount. */
  function LSL_C(value: Word, amount: Word): (r: (Word, Word))
    requires 0 < amount < 32
    ensures r.1 <= 1
  {
    (value << amount, Bit32(value, 32 - amount))
  }

  /** `LSL(value, amount)`: LSL_C without the carry, also for an amount of 0. */
  function LSL(value: Word, amount: Word): (r: Word)
    requires amount < 32
    ensures amount == 0 ==> r == value
  {
    if amount == 0 then value else LSL_C(value, amount).0
  }

  /** `LSR_C(value, amount)`: logical shift right by 1..32; the carry is the
      last bit shifted out, bit amount - 1. The C++ `value >> 32` is
      undefined; the architecture (and a `bv32` shift) gives 0. */
  function LSR_C(value: Word, amount: Word): (r: (Word, Word))
    requires 0 < amount <= 32
    ensures r.1 <= 1
  {
    (value >> amount, Bit32(value, amount - 1))
  }

  /** `LSR(value, amount)`: LSR_C without the carry, also for an amount of 0. */
  function LSR(value: Word, amount: Word): (r: Word)
    requires amount <= 32
    ensures amount == 0 ==> r == value
  {
    if amount == 0 then value else LSR_C(value, amount).0
  }

  /** `ASR_C(value, amount)`: arithmetic shift right by 1..32, computed as in
      the source: sign-extend to 64 bits and take bits amount+31..amount,
      truncated to 32 bits on return. The carry is bit amount - 1. */
  function ASR_C(value: Word, amount: Word): (r: (Word, Word))
    requires 0 < amount <= 32
    ensures r.1 <= 1
  {
    var extended := SignExtend64(value);
    ((UnsignedBits(extended, amount + 31, amount) & 0xFFFF_FFFF) as Word, Bit32(value, amount - 1))
  }

  /** `ASR(value, amount)`: ASR_C without the carry, also for an amount of 0. */
  function ASR(value: Word, amount: Word): (r: Word)
    requires amount <= 32
    ensures amount == 0 ==> r == value
  {
    if amount == 0 then value else ASR_C(value, amount).0
  }

  /** `ROR_C(value, amount)`: rotation right by 1..31. As written in the
      source the carry is bit 31 of the ORIGINAL value; section A2.2.1 takes
      bit 31 of the result instead (see `ARMUtilsProperties.RorCarryDeviation`). */
  function ROR_C(value: Word, amount: Word): (r: (Word, Word))
    requires 0 < amount < 32
    ensures r.1 <= 1
  {
    var result := Rotr32(value, amount);
    (result, Bit32(value, 31))
  }

  /** `ROR(value, amount)`: ROR_C without the carry, also for an amount of 0. */
  function ROR(value: Word, amount: Word): (r: Word)
    requires amount < 32
    ensures amount == 0 ==> r == value
  {
    if amount == 0 then value else ROR_C(value, amount).0
  }

  /** `RRX_C(value, carry_in)`: rotation right by one through the carry: bit 0
      of `carry_in` enters at bit 31 and bit 0 of `value` is the carry out. */
  function RRX_C(value: Word, carry_in: Word): (r: (Word, Word))
    ensures r.1 <= 1
  {
    ((Bit32(carry_in, 0) << 31) | Bits32(value, 31, 1), Bit32(value, 0))
  }

  /** `RRX(value, carry_in)`: RRX_C without the carry. */
  function RRX(value: Word, carry_in: Word): (r: Word)
    ensures r >> 31 == Bit32(carry_in, 0)
  {
    RRX_C(value, carry_in).0
  }

  /** What `Shift_C` asks of its callers: its own assert (RRX only by 1) and,
      for a non-zero amount, the assert of the routine it dispatches to. */
  predicate ShiftCRequires(shiftType: ARM_ShifterType, amount: Word)
  {
    && (shiftType != SRType_RRX || amount == 1)
    && (amount == 0 || match shiftType
                       case SRType_LSL => amount < 32
                       case SRType_LSR => amount <= 32
                       case SRType_ASR => amount <= 32
                       case SRType_ROR => amount < 32
                       case SRType_RRX => true)
  }

  /** `Shift_C(value, shiftType, amount, carry_in)`: a shift by 0 leaves value and
      carry alone; otherwise it dispatches on the kind. As written, the RRX
      case passes `amount` where `carry_in` belongs; since the assert makes
      that amount 1, the bit rotated in at bit 31 is always 1 (see
      `ARMUtilsProperties.ShiftCRrxSetsTopBit`). */
  function Shift_C(value: Word, shiftType: ARM_ShifterType, amount: Word, carry_in: Word): (r: (Word, Word))
    requires ShiftCRequires(shiftType, amount)
    ensures amount == 0 ==> r == (value, carry_in)
    ensures amount != 0 ==> r.1 <= 1
  {
    if amount == 0 then (value, carry_in)
    else
      match shiftType
      case SRType_LSL => LSL_C(value, amount)
      case SRType_LSR => LSR_C(value, amount)
      case SRType_ASR => ASR_C(value, amount)
      case SRType_ROR => ROR_C(value, amount)
      case SRType_RRX => RRX_C(value, amount)
  }

  /** `Shift(value, shiftType, amount, carry_in)`: Shift_C without the carry. */
  function Shift(value: Word, shiftType: ARM_ShifterType, amount: Word, carry_in: Word): (r: Word)
    requires ShiftCRequires(shiftType, amount)
    ensures amount == 0 ==> r == value
  {
    Shift_C(value, shiftType, amount, carry_in).0
  }

  // ---------------------------------------------------------------------
  // Field helpers
  // ---------------------------------------------------------------------

  /** `bits(val, msbit, lsbit)`: the field `val<msbit:lsbit>`. */
  function bits(val: Word, msbit: Word, lsbit: Word): (r: Word)
    requires lsbit <= msbit < 32
    ensures msbit - lsbit < 31 ==> r >> (msbit - lsbit + 1) == 0
  {
    Bits32(val, msbit, lsbit)
  }

  /** `bit(val, msbit)`: the one-bit field `val<msbit:msbit>`, which is the
      bit `Bit32` gives. */
  function bit(val: Word, msbit: Word): (r: Word)
    requires msbit < 32
    ensures r == Bit32(val, msbit)
  {
    bits(val, msbit, msbit)
  }

  /** `ror(val, N, shift)`: `val >> m | val << (N - m)` with m = shift mod N.
      It demands `N != 0` (it divides by N) and two shift amounts below 32,
      as C++ leaves wider shifts undefined; with N = 32 that is
      `shift % 32 != 0`. With N = 32 and a shift below 32 it is the
      rotation `Rotr32` that ROR_C uses. */
  function ror(val: Word, N: Word, shift: Word): (r: Word)
    requires 0 < N && shift % N < 32 && N - shift % N < 32
    ensures N == 32 && shift < 32 ==> r == Rotr32(val, shift)
  {
    var m := shift % N;
    (val >> m) | (val << (N - m))
  }

  // ---------------------------------------------------------------------
  // Modified immediates (sections A5.2.4 and A6.3.2)
  // ---------------------------------------------------------------------

  /** `ARMExpandImm_C(val, carry_in)`: the 8-bit immediate `val<7:0>` rotated
      right by twice `val<11:8>`. Without rotation the carry passes through;
      otherwise it is bit 31 of the result. */
  function ARMExpandImm_C(val: Word, carry_in: Word): (r: (Word, Word))
    ensures bits(val, 11, 8) == 0 ==> r == (bits(val, 7, 0), carry_in)
    ensures bits(val, 11, 8) != 0 ==> r.1 == Bit32(r.0, 31)
  {
    var imm := bits(val, 7, 0);
    var amt := 2 * bits(val, 11, 8);
    if amt == 0 then (imm, carry_in)
    else
      var imm32 := ror(imm, 32, amt);
      (imm32, Bit32(imm32, 31))
  }

  /** `ARMExpandImm(val)`: the expanded value alone. */
  function ARMExpandImm(val: Word): (r: Word)
    ensures bits(val, 11, 8) == 0 ==> r == bits(val, 7, 0)
  {
    ARMExpandImm_C(val, 0).0
  }

  /** The rotation field `imm12<11:7>` of a Thumb modified immediate whose
      top two bits are not both 0: at least 8, so never a rotation by 0. */
  lemma ThumbRotationAtLeast8(imm12: Word)
    requires bits(imm12, 11, 10) != 0
    ensures 8 <= bits(imm12, 11, 7) < 32
  {}

  /** The byte `abcdefgh` replicated in the pattern `sel` of a Thumb
      modified immediate: 0x0000_00XY, 0x00XY_00XY, 0xXY00_XY00 or, for any
      other selector, 0xXYXY_XYXY. */
  function ThumbReplicate(abcdefgh: Word, sel: Word): (r: Word)
  {
    match sel
    case 0 => abcdefgh
    case 1 => (abcdefgh << 16) | abcdefgh
    case 2 => (abcdefgh << 24) | (abcdefgh << 8)
    case _ => (abcdefgh << 24) | (abcdefgh << 16) | (abcdefgh << 8) | abcdefgh
  }

  /** `ThumbExpandImm_C(val, carry_in)`, where `val` is the whole 32-bit
      Thumb instruction: i (bit 26), imm3 (bits 14..12) and imm8 (bits 7..0)
      are gathered into `imm12 = i:imm3:imm8`. With `imm12<11:10> == 0` the
      byte is replicated in one of four patterns chosen by `imm12<9:8>` and
      the carry passes through; otherwise `1:imm12<6:0>` is rotated right by
      `imm12<11:7>` and the carry is bit 31 of the result.

      The selector is written `bits(imm12, 8, 9)` in the source, with its
      arguments in reversed order; the documented `(imm32, carry_out) =
      ThumbExpandImm_C(imm12, carry_in)` and section A6.3.2 mean
      `imm12<9:8>`, which is what is modelled here; the expansion as written
      is `ARMUtilsFindings.ThumbExpandImmAsWritten_C`. */
  function ThumbExpandImm_C(val: Word, carry_in: Word): (r: (Word, Word))
    ensures r.1 == carry_in || r.1 == Bit32(r.0, 31)
  {
    var i := bit(val, 26);
    var imm3 := bits(val, 14, 12);
    var abcdefgh := bits(val, 7, 0);
    var imm12 := (i << 11) | (imm3 << 8) | abcdefgh;
    if bits(imm12, 11, 10) == 0 then
      (ThumbReplicate(abcdefgh, bits(imm12, 9, 8)), carry_in)
    else
      var unrotated_value := 0x80 | bits(imm12, 6, 0);
      ThumbRotationAtLeast8(imm12);
      var imm32 := ror(unrotated_value, 32, bits(imm12, 11, 7));
      (imm32, Bit32(imm32, 31))
  }

  /** `ThumbExpandImm(val)`: the expanded value alone. */
  function ThumbExpandImm(val: Word): (r: Word)
    ensures bits(ThumbImm12(val), 11, 8) == 0 ==> r == bits(val, 7, 0)
  {
    ThumbExpandImm_C(val, 0).0
  }

  // ---------------------------------------------------------------------
  // Small helpers
  // ---------------------------------------------------------------------

  /** `ThumbImm12(val)`: `ZeroExtend(i:imm3:imm8, 32)` from the same scattered
      fields as ThumbExpandImm_C. */
  function ThumbImm12(val: Word): (r: Word)
    ensures r < 4096
  {
    var i := bit(val, 26);
    var imm3 := bits(val, 14, 12);
    var imm8 := bits(val, 7, 0);
    (i << 11) | (imm3 << 8) | imm8
  }

  /** `ThumbImmScaled(val)`: `ZeroExtend(imm7:'00', 32)`, the 7-bit field
      `val<6:0>` times 4: a word-aligned offset of at most 508. */
  function ThumbImmScaled(val: Word): (r: Word)
    ensures r & 3 == 0 && r <= 508
    ensures r >> 2 == bits(val, 6, 0)
  {
    var imm7 := bits(val, 6, 0);
    imm7 * 4
  }

  /** Register numbers 13 (SP) and 15 (PC), which many Thumb encodings do not
      permit. */
  const SP: Word := 13
  const PC: Word := 15

  /** `BadReg(n)`: n names SP or PC. */
  predicate BadReg(n: Word): (r: bool)
    ensures r ==> n == SP || n == PC
    ensures n <= 12 || n == 14 ==> !r
  {
    n == 13 || n == 15
  }
}
