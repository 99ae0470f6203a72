# ARM/Thumb shift and immediate helpers, in Dafny

This project models `ARMUtils.h`, the header of LLDB's ARM instruction emulator that holds the helpers behind shifted-register operands and modified immediates. They follow the pseudocode of the ARM Architecture Reference Manual, ARMv7-A/R edition. The header covers:

- decoding a shift from an instruction's type field and 5-bit immediate (`DecodeImmShift`, `DecodeRegShift`);
- the five shift primitives with and without a carry out (`LSL_C`, `LSR_C`, `ASR_C`, `ROR_C`, `RRX_C` and their plain forms);
- the dispatcher `Shift_C` and its carry-less form `Shift`;
- the field helpers `bits` and `bit` and the general rotation `ror`;
- the ARM and Thumb modified immediates (`ARMExpandImm_C`, `ThumbExpandImm_C`, `ThumbImm12`, `ThumbImmScaled`);
- the register check `BadReg`.

Every helper is pure, so each becomes a Dafny function.

- A C++ helper that returns a value and writes `uint32_t &carry_out` becomes a function returning the pair `(result, carry_out)`.
- Every `assert` of the source becomes a `requires`, and the lemmas show that the decoders' outputs meet them.
- Words are `bv32`, so arithmetic wraps modulo 2^32 as the C++ `uint32_t` does.

Files:

- `instruction_utils.dfy` (module `InstructionUtils`): the bit-field helpers the header uses (`Bit32`, `Bits32`, `Rotr32`, `UnsignedBits`). It also defines `IsRotationRight`, which describes a rotation by where its two parts land, and the lemmas that `Rotr32` is one and undoes itself.
- `math_extras.dfy` (module `MathExtras`): `SignExtend64<32>` and its two halves.
- `arm_utils.dfy` (module `ARMUtils`): the header itself, member by member.
- `arm_utils_properties.dfy` (module `ARMUtilsProperties`): the properties. They cover the decoders' table and its fit with `Shift_C`, the word-level effect and carry of each shift, round trips, the byte patterns and rotations of the modified immediates, and worked examples.
- `shift_steps.dfy` (module `ShiftSteps`): an independent reference for `LSL_C`, `LSR_C` and `ASR_C`. A shift by n places is n shifts by one place, and the carry out is the bit the last of them pushes out. The lemmas prove by induction on n that the closed formulas compute the same value and carry.
- `findings.dfy` (module `ARMUtilsFindings`): the three departures from the architecture listed under "## Findings". Each is modelled as written and as intended.

Notes on the source that the model follows:

- `LSR_C` and `ASR_C` accept an amount of 32. The C++ `value >> 32` is undefined; the model gives the architectural result, 0 for `LSR_C`, and a `bv32` shift does the same.
- `ror(val, N, shift)` computes `val >> m | val << (N - m)` with `m = shift % N`. It is modelled with the precondition that both shift amounts are below 32, which with N = 32 means `shift % 32 != 0`. Both callers meet it: `ARMExpandImm_C` rotates by 2..30 and `ThumbExpandImm_C` by 8..31 (`ARMUtils.ThumbRotationAtLeast8`).
- `ThumbExpandImm_C` and `ThumbImm12` take the whole 32-bit Thumb instruction, not `imm12`. They gather `i` (bit 26), `imm3` (bits 14..12) and `imm8` (bits 7..0) themselves.
- `ThumbExpandImm_C` reads its pattern selector as `imm12<9:8>`, as section A6.3.2 of the manual does. Line 249 of the source writes `bits(imm12, 8, 9)`, with the bit positions reversed; that version is `ARMUtilsFindings.ThumbExpandImmAsWritten_C` (see "## Findings").
- The default cases of `DecodeImmShift` and `DecodeRegShift` fail an assert. They are modelled as the precondition `shiftType < 4`.

## Model

| member | source | states |
|---|---|---|
| ARMUtils.ShifterTypeValue | source/Plugins/Process/Utility/ARMUtils.h:20-27 | the enumerators' values are 0..4, and only RRX has value 4 |
| ARMUtils.DecodeImmShift | source/Plugins/Process/Utility/ARMUtils.h:29-55 | RRX exactly for type 3 with imm5 0; otherwise the kind's value is the type field; a non-zero imm5 is the amount; imm5 0 means 0 for LSL, 32 for LSR/ASR and 1 for RRX |
| ARMUtils.DecodeImmShiftAmount | source/Plugins/Process/Utility/ARMUtils.h:57-61 | the overload returns imm5 when non-zero, and otherwise 0 for LSL, 1 for ROR and 32 for LSR/ASR; RRX (value 4) fails the assert |
| ARMUtils.DecodeRegShift | source/Plugins/Process/Utility/ARMUtils.h:63-77 | never RRX, and the kind's value is the type field |
| ARMUtilsProperties.DecodeImmShiftMeetsShiftC | source/Plugins/Process/Utility/ARMUtils.h:29-55 | every decoded (kind, amount) meets the asserts of Shift_C and of the routine it calls; LSR, ASR, ROR and RRX never get amount 0 |
| ARMUtilsProperties.DecodeImmShiftInjective | source/Plugins/Process/Utility/ARMUtils.h:29-55 | distinct (type, imm5) encodings decode to distinct shifts |
| ARMUtilsProperties.DecodeImmShiftKind | source/Plugins/Process/Utility/ARMUtils.h:29-77 | the immediate decoder's kind is the register decoder's, except that ROR by 0 is RRX |
| ARMUtilsProperties.DecodeRegShiftInverse | source/Plugins/Process/Utility/ARMUtils.h:63-77 | DecodeRegShift inverts the enumerator values of LSL, LSR, ASR and ROR |
| ARMUtils.LSL_C | source/Plugins/Process/Utility/ARMUtils.h:79-84 | the carry out is 0 or 1 |
| ARMUtilsProperties.LSL_CCarry | source/Plugins/Process/Utility/ARMUtils.h:79-84 | the carry is bit 32 of the value shifted left in 64 bits, the last bit shifted out |
| ARMUtilsProperties.LSL_CRoundTrip | source/Plugins/Process/Utility/ARMUtils.h:79-84 | shifting the result back right by the amount recovers the value's bits that stayed in the word, and the amount low bits are zeros |
| ARMUtils.LSL | source/Plugins/Process/Utility/ARMUtils.h:86-93 | an amount of 0 returns the value unchanged |
| ARMUtils.LSR_C | source/Plugins/Process/Utility/ARMUtils.h:95-100 | the carry out is 0 or 1 |
| ARMUtilsProperties.LSR_CBy32 | source/Plugins/Process/Utility/ARMUtils.h:95-100 | a logical shift right by 32 leaves 0, the architectural result of a shift the C++ leaves undefined |
| ARMUtilsProperties.LSR_CRoundTrip | source/Plugins/Process/Utility/ARMUtils.h:95-100 | shifting the result back left recovers the value's bits that stayed in the word, and the amount top bits are zeros |
| ARMUtils.LSR | source/Plugins/Process/Utility/ARMUtils.h:102-109 | an amount of 0 returns the value unchanged |
| MathExtras.SignExtend64Low | source/Plugins/Process/Utility/ARMUtils.h:115 | the low 32 bits of the sign-extended value are the value |
| MathExtras.SignExtend64High | source/Plugins/Process/Utility/ARMUtils.h:115 | the high 32 bits of the sign-extended value are all ones if bit 31 is set, else all zeros |
| ARMUtils.ASR_C | source/Plugins/Process/Utility/ARMUtils.h:111-117 | the carry out is 0 or 1 |
| ARMUtilsProperties.ASR_CSignFill | source/Plugins/Process/Utility/ARMUtils.h:111-117 | the amount vacated top bits all equal bit 31 of the value |
| ARMUtilsProperties.ASR_CNonNegative | source/Plugins/Process/Utility/ARMUtils.h:111-117 | with bit 31 clear, ASR_C equals LSR_C, carry included |
| ARMUtilsProperties.ASR_CNegative | source/Plugins/Process/Utility/ARMUtils.h:111-117 | with bit 31 set, ASR_C is the complement of LSR_C of the complement, with LSR_C's carry |
| ARMUtils.ASR | source/Plugins/Process/Utility/ARMUtils.h:119-126 | an amount of 0 returns the value unchanged |
| ShiftSteps.LSLIsSteps | source/Plugins/Process/Utility/ARMUtils.h:86-93 | LSL by n, 0 included, is the value of n one-place left shifts |
| ShiftSteps.LSRIsSteps | source/Plugins/Process/Utility/ARMUtils.h:102-109 | LSR by n, 0 and 32 included, is the value of n one-place logical right shifts |
| ShiftSteps.ASRIsSteps | source/Plugins/Process/Utility/ARMUtils.h:119-126 | ASR by n, 0 and 32 included, is the value of n one-place arithmetic right shifts |
| ShiftSteps.LSL_CStep | source/Plugins/Process/Utility/ARMUtils.h:79-84 | LSL_C by one more place is one more left shift of LSL_C's value, with its bit 31 as carry |
| ShiftSteps.LSL_CIsSteps | source/Plugins/Process/Utility/ARMUtils.h:79-84 | LSL_C by n is n one-place left shifts, and its carry is the bit the last of them pushes out |
| ShiftSteps.LSR_CStep | source/Plugins/Process/Utility/ARMUtils.h:95-100 | LSR_C by one more place is one more right shift of LSR_C's value, with its bit 0 as carry |
| ShiftSteps.LSR_CIsSteps | source/Plugins/Process/Utility/ARMUtils.h:95-100 | LSR_C by n, 32 included, is n one-place right shifts, and its carry is the bit the last of them pushes out |
| ShiftSteps.AsrStepsNonNegative | source/Plugins/Process/Utility/ARMUtils.h:111-117 | with bit 31 clear, n one-place arithmetic shifts are n logical ones, carry included |
| ShiftSteps.AsrStepsNegative | source/Plugins/Process/Utility/ARMUtils.h:111-117 | with bit 31 set, n one-place arithmetic shifts are the logical ones with the top n bits set |
| ShiftSteps.AsrStepsCarry | source/Plugins/Process/Utility/ARMUtils.h:111-117 | the arithmetic steps push out the same bit as the logical ones |
| ShiftSteps.ASR_CNegativeMask | source/Plugins/Process/Utility/ARMUtils.h:111-117 | with bit 31 set, ASR_C through the 64-bit sign extension is the logical shift with the top n bits set |
| ShiftSteps.ASR_CIsSteps | source/Plugins/Process/Utility/ARMUtils.h:111-117 | ASR_C by n, 32 included, is n one-place arithmetic shifts (each keeping the sign bit), and its carry is the bit the last of them pushes out |
| InstructionUtils.Bit32 | source/Plugins/Process/Utility/ARMUtils.h:82 | the bit extracted is 0 or 1 |
| InstructionUtils.Bits32 | source/Plugins/Process/Utility/ARMUtils.h:148 | the field has nothing above its width `msbit - lsbit + 1` |
| InstructionUtils.UnsignedBits | source/Plugins/Process/Utility/ARMUtils.h:116 | the 64-bit field has nothing above its width |
| MathExtras.SignExtend64 | source/Plugins/Process/Utility/ARMUtils.h:115 | bits 63..31 of the extension are all zeros or all ones |
| InstructionUtils.Rotr32 | source/Plugins/Process/Utility/ARMUtils.h:131 | a rotation by 0 is the identity |
| InstructionUtils.Rotr32IsRotation | source/Plugins/Process/Utility/ARMUtils.h:131 | Rotr32 puts the value's high bits at the bottom and its low bits at the top (IsRotationRight) |
| InstructionUtils.Rotr32RoundTrip | source/Plugins/Process/Utility/ARMUtils.h:131 | rotating right by a and then by 32 - a gives back the value |
| ARMUtils.ROR_C | source/Plugins/Process/Utility/ARMUtils.h:128-134 | the carry out is 0 or 1 |
| ARMUtilsProperties.ROR_CIsRotation | source/Plugins/Process/Utility/ARMUtils.h:128-134 | the value of ROR_C is a rotation right by the amount (IsRotationRight) |
| ARMUtilsProperties.ROR_CRoundTrip | source/Plugins/Process/Utility/ARMUtils.h:128-134 | ROR_C by a and then by 32 - a gives back the value |
| ARMUtilsProperties.ROR_CIsRor | source/Plugins/Process/Utility/ARMUtils.h:128-134 | ROR_C's value is `ror(value, 32, amount)` |
| ARMUtils.ROR | source/Plugins/Process/Utility/ARMUtils.h:136-143 | an amount of 0 returns the value unchanged |
| ARMUtils.RRX_C | source/Plugins/Process/Utility/ARMUtils.h:145-149 | the carry out is 0 or 1 |
| ARMUtilsProperties.RRX_CParts | source/Plugins/Process/Utility/ARMUtils.h:145-149 | bits 30..0 of the result are the value shifted right by one, and bit 31 is bit 0 of carry_in |
| ARMUtilsProperties.RRX_CRoundTrip | source/Plugins/Process/Utility/ARMUtils.h:145-149 | shifting the result left by one and putting back the carry out rebuilds the value |
| ARMUtils.RRX | source/Plugins/Process/Utility/ARMUtils.h:151-155 | bit 31 of the result is bit 0 of carry_in |
| ARMUtils.Shift_C | source/Plugins/Process/Utility/ARMUtils.h:157-185 | amount 0 passes value and carry through; otherwise the carry is 0 or 1 |
| ARMUtilsProperties.ShiftCByZero | source/Plugins/Process/Utility/ARMUtils.h:157-165 | a shift by 0 of any kind but RRX is allowed and is the identity on value and carry |
| ARMUtilsProperties.ShiftCCarryIsBit | source/Plugins/Process/Utility/ARMUtils.h:157-185 | a carry in that is a bit gives a carry out that is a bit |
| ARMUtilsProperties.ShiftCRrxSetsTopBit | source/Plugins/Process/Utility/ARMUtils.h:180-182 | as written, RRX through Shift_C is RRX_C(value, 1): bit 31 is always set, and it differs from RRX_C(value, carry_in) when that carry is 0 |
| ARMUtils.Shift | source/Plugins/Process/Utility/ARMUtils.h:187-193 | amount 0 returns the value unchanged |
| ARMUtilsProperties.ShiftIgnoresCarryIn | source/Plugins/Process/Utility/ARMUtils.h:187-193 | as written, no kind of Shift depends on its carry_in |
| ARMUtils.bits | source/Plugins/Process/Utility/ARMUtils.h:195-198 | the field has nothing above its width |
| ARMUtilsProperties.BitsLowField | source/Plugins/Process/Utility/ARMUtils.h:195-198 | a field starting at bit 0 is the value with the bits above msbit shifted out at the top and back |
| ARMUtilsProperties.BitsShifted | source/Plugins/Process/Utility/ARMUtils.h:195-198 | the field `val<msbit:lsbit>` is the field `(val >> lsbit)<msbit - lsbit:0>`: with BitsLowField, the value with the bits below lsbit and above msbit shifted out |
| ARMUtils.bit | source/Plugins/Process/Utility/ARMUtils.h:200-203 | `bit(val, n)` is bit n of val |
| ARMUtilsProperties.BitIsBits | source/Plugins/Process/Utility/ARMUtils.h:200-203 | `bit(val, n)` is 1 exactly when `val & (1 << n)` is non-zero |
| ARMUtils.ror | source/Plugins/Process/Utility/ARMUtils.h:205-209 | with N = 32 and a shift below 32, `ror(val, 32, shift)` is `Rotr32(val, shift)`, the rotation ROR_C uses |
| ARMUtilsProperties.RorIsRotation | source/Plugins/Process/Utility/ARMUtils.h:205-209 | `ror(val, 32, shift)` is a rotation right by shift |
| ARMUtilsProperties.RorRoundTrip | source/Plugins/Process/Utility/ARMUtils.h:205-209 | ror by shift and then by 32 - shift gives back the value |
| ARMUtilsProperties.RorCarryDeviation | source/Plugins/Process/Utility/ARMUtils.h:132 | ROR_C's carry equals bit 31 of its result exactly when bits 31 and amount - 1 of the input agree |
| ARMUtilsProperties.RorCarryDeviationExample | source/Plugins/Process/Utility/ARMUtils.h:128-134 | ROR_C(1, 1) is (0x8000_0000, 0): the carry is not bit 31 of the result |
| ARMUtils.ARMExpandImm_C | source/Plugins/Process/Utility/ARMUtils.h:211-228 | without rotation, (imm8, carry_in); with it, the carry is bit 31 of the result |
| ARMUtilsProperties.ARMExpandImmRotatesByte | source/Plugins/Process/Utility/ARMUtils.h:211-228 | the result is `Rotr32(val<7:0>, 2 * val<11:8>)`, and rotating it back recovers the byte |
| ARMUtils.ARMExpandImm | source/Plugins/Process/Utility/ARMUtils.h:230-236 | without rotation the immediate is the byte `val<7:0>` |
| ARMUtilsProperties.ARMExpandImmCarry | source/Plugins/Process/Utility/ARMUtils.h:211-236 | the value does not depend on carry_in and equals ARMExpandImm; the carry is carry_in without rotation, else bit 31 |
| ARMUtilsProperties.ARMExpandImmExample | source/Plugins/Process/Utility/ARMUtils.h:211-228 | 0x4FF expands to (0xFF00_0000, 1) |
| ARMUtilsProperties.ARMExpandImmVersusShiftC | source/Plugins/Process/Utility/ARMUtils.h:211-228 | its value is the source's `Shift_C(imm8, ROR, 2 * rotate)` value, but for 0x4FF the carries differ, 1 against 0 |
| ARMUtils.ThumbRotationAtLeast8 | source/Plugins/Process/Utility/ARMUtils.h:268-271 | with `imm12<11:10> != 0` the rotation `imm12<11:7>` is between 8 and 31 |
| ARMUtilsProperties.ThumbExpandImmPattern0 | source/Plugins/Process/Utility/ARMUtils.h:250-252 | selector 0 gives 0x0000_00XY |
| ARMUtilsProperties.ThumbExpandImmPattern1 | source/Plugins/Process/Utility/ARMUtils.h:254-256 | selector 1 gives 0x00XY_00XY |
| ARMUtilsProperties.ThumbExpandImmPattern2 | source/Plugins/Process/Utility/ARMUtils.h:258-260 | selector 2 gives 0xXY00_XY00 |
| ARMUtilsProperties.ThumbExpandImmPattern3 | source/Plugins/Process/Utility/ARMUtils.h:262-264 | selector 3 gives 0xXYXY_XYXY |
| ARMUtils.ThumbExpandImm_C | source/Plugins/Process/Utility/ARMUtils.h:239-275 | the carry out is carry_in or bit 31 of the result; the pattern selector is read as `imm12<9:8>` where line 249 writes `bits(imm12, 8, 9)` (see "## Findings") |
| ARMUtilsProperties.ThumbExpandImmReplicated | source/Plugins/Process/Utility/ARMUtils.h:247-267 | with `imm12<11:10> == 0` the carry passes through and the byte fills the lanes `imm12<9:8>` selects |
| ARMUtilsProperties.ThumbExpandImmRotated | source/Plugins/Process/Utility/ARMUtils.h:268-273 | otherwise the result is Rotr32 of `1:imm12<6:0>` by `imm12<11:7>`, a rotation by 8..31, with bit 31 as carry |
| ARMUtilsProperties.ThumbExpandImmIsRotation | source/Plugins/Process/Utility/ARMUtils.h:268-273 | otherwise the result is a rotation right of `1:imm12<6:0>` by `imm12<11:7>` (IsRotationRight), and that amount is 8..31 |
| ARMUtilsProperties.ThumbExpandImmCarry | source/Plugins/Process/Utility/ARMUtils.h:277-283 | the value does not depend on carry_in and equals ThumbExpandImm |
| ARMUtils.ThumbExpandImm | source/Plugins/Process/Utility/ARMUtils.h:277-283 | with `imm12<11:8> == 0` (selector 0, no rotation) the immediate is the byte imm8 |
| ARMUtilsProperties.ThumbExpandImmExample | source/Plugins/Process/Utility/ARMUtils.h:239-275 | the instruction word 0x4000 expands to (0x8000_0000, 1) |
| ARMUtils.ThumbImm12 | source/Plugins/Process/Utility/ARMUtils.h:285-293 | the result is below 4096 |
| ARMUtilsProperties.ThumbImm12Layout | source/Plugins/Process/Utility/ARMUtils.h:285-293 | bits 7..0 are imm8, bits 10..8 are imm3 (instruction bits 14..12), bit 11 is i (instruction bit 26), and the result is below 4096 |
| ARMUtils.ThumbImmScaled | source/Plugins/Process/Utility/ARMUtils.h:295-300 | the result is a multiple of 4, at most 508, and a quarter of it is `val<6:0>` |
| ARMUtils.BadReg | source/Plugins/Process/Utility/ARMUtils.h:302-304 | only SP and PC can be bad, and R0-R12 and LR (14) are not |
| ARMUtilsProperties.BadRegIsSpOrPc | source/Plugins/Process/Utility/ARMUtils.h:302-304 | of R0-R15, exactly SP (13) and PC (15) are bad |
| ARMUtilsFindings.ThumbExpandImmAsWritten_C | source/Plugins/Process/Utility/ARMUtils.h:239-275 | as written (selector `bits(imm12, 8, 9)`), the carry out is carry_in or bit 31 of the result |
| ARMUtilsFindings.ThumbExpandImmAsWrittenPattern0 | source/Plugins/Process/Utility/ARMUtils.h:249 | as written, with `imm12<11:10> == 0` the expansion is always (imm8, carry_in), whatever the selector |
| ARMUtilsFindings.ThumbExpandImmAsWrittenRotated | source/Plugins/Process/Utility/ARMUtils.h:268-273 | as written, the rotated immediates agree with the corrected model |
| ARMUtilsFindings.ThumbExpandImmAsWrittenExample | source/Plugins/Process/Utility/ARMUtils.h:249 | the word 0x10AB expands as written to 0xAB, but to 0x00AB_00AB with `imm12<9:8>` |
| ARMUtilsFindings.ROR_CIntended | source/Plugins/Process/Utility/ARMUtils.h:128-134 | the corrected ROR_C has the source's rotated value and a carry that is a bit |
| ARMUtilsFindings.ROR_CIntendedCarry | source/Plugins/Process/Utility/ARMUtils.h:132 | the corrected carry is bit amount - 1 of the input, with the same rotated value |
| ARMUtilsFindings.Shift_CIntended | source/Plugins/Process/Utility/ARMUtils.h:157-185 | the corrected Shift_C passes value and carry through at amount 0, and otherwise gives a carry that is a bit |
| ARMUtilsFindings.ShiftCIntendedRrx | source/Plugins/Process/Utility/ARMUtils.h:181 | the corrected RRX is RRX_C(value, carry_in), and its result depends on the carry |
| ARMUtilsFindings.ShiftCIntendedAgrees | source/Plugins/Process/Utility/ARMUtils.h:157-185 | for every kind but RRX, the corrected Shift_C has the source's values, and the same carries except for ROR |
| ARMUtilsFindings.ARMExpandImmIsIntendedShiftC | source/Plugins/Process/Utility/ARMUtils.h:211-228 | ARMExpandImm_C is, carry included, `Shift_C(imm8, ROR, 2 * rotate, carry_in)` with the corrected carry |

## Left out

- `InstructionUtils.h` and LLVM's `MathExtras.h` are not part of this model. The helpers the header takes from them (`Bit32`, `Bits32`, `Rotr32`, `UnsignedBits`, `SignExtend64`) are defined by what they mean. `Bits32`'s assert is a `requires`, `Bits32Unchecked` models the build with assertions compiled out as the same field formula with no order demanded, on the assumption that this is the `Bits32` formula of `InstructionUtils.h`, which the model does not have.
- The C++ default cases of `DecodeImmShift` and `DecodeRegShift` fall through when assertions are compiled out. The model does not cover that: the precondition `shiftType < 4` excludes those inputs.
- Shift amounts of 32 or more are undefined behaviour in C++. The model gives the architectural result where the source would reach one (`LSR_C` by 32) and requires amounts below 32 elsewhere (`ror`).
- The step model in `shift_steps.dfy` covers only the three shifts. `ROR_C` is related instead to the rotation described by `IsRotationRight`, and `RRX_C` is already a single one-place step.
- ARMUtilsProperties.ShiftCCarryIsBit: it states that the carry out is a bit only when carry_in is one; the source also passes wider carries through unchanged, and the model keeps carries as full words for that reason.

## Findings

| source | as written | input that shows it | evidently intended | confidence | as-written member | corrected member |
|---|---|---|---|---|---|---|
| source/Plugins/Process/Utility/ARMUtils.h:249 | the pattern selector is `bits(imm12, 8, 9)`, with its bit positions reversed. `Bits32` asserts `lsbit <= msbit`; once assertions are compiled out, the field has width 0 and the selector is always 0 | instruction word 0x10AB (imm12 = 0x1AB) expands to 0xAB | `imm12<9:8>` selects pattern 1: 0x00AB_00AB (section A6.3.2) | medium; not executed; depends on the `Bits32` formula of `InstructionUtils.h` | ARMUtilsFindings.ThumbExpandImmAsWrittenExample | ARMUtilsProperties.ThumbExpandImmReplicated |
| source/Plugins/Process/Utility/ARMUtils.h:132 | ROR_C's carry is bit 31 of the input | ROR_C(1, 1) = (0x8000_0000, 0) | carry = bit 31 of the result, 1 (section A2.2.1) | high; not executed | ARMUtilsProperties.RorCarryDeviationExample | ARMUtilsFindings.ROR_CIntendedCarry |
| source/Plugins/Process/Utility/ARMUtils.h:181 | Shift_C's RRX case passes `amount` (always 1) as the carry in, so bit 31 is always set | Shift_C(0, RRX, 1, 0) = (0x8000_0000, 0) | RRX_C(value, carry_in): (0, 0) (section A8.4.3) | high; not executed | ARMUtilsProperties.ShiftCRrxSetsTopBit | ARMUtilsFindings.ShiftCIntendedRrx |
