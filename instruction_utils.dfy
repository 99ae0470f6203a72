/** Bit-field primitives that the ARM helpers are written in terms of.

    They stand for the equally named helpers of the repository's
    InstructionUtils.h, which is not part of this model: each is defined here
    from what it means (a bit, a bit field, a rotation of a 32-bit word, a
    field of a 64-bit word). A rotation is characterised by where its two
    parts land, and the lemmas below prove that characterisation and its
    consequences. Bit positions are numbered from 0, the least significant bit. */
module InstructionUtils {

  /** A C `uint32_t`: every operation on it is modulo 2^32. */
  type Word = bv32

  /** A C `uint64_t`. */
  type DWord = bv64

  /** Bit `bit` of `v`, as 0 or 1. Every bit-level statement of the model is
      made through it. */
  function Bit32(v: Word, bit: Word): (r: Word)
    requires bit < 32
    ensures r == 0 || r == 1
  {
    (v >> bit) & 1
  }

  /** Bit `bit` of a 64-bit value, as 0 or 1. */
  function Bit64(v: DWord, bit: Word): (r: DWord)
    requires bit < 64
    ensures r == 0 || r == 1
  {
    (v >> bit) & 1
  }

  /** The mask of the `k` low bits of a word (a shift by 32 gives 0, so
      `LowMask(32)` is all ones). */
  function LowMask(k: Word): (r: Word)
    requires k <= 32
  {
    (1 << k) - 1
  }

  /** The mask of the `k` low bits of a 64-bit value. */
  function LowMask64(k: Word): (r: DWord)
    requires k <= 64
  {
    (1 << k) - 1
  }

  /** The field `v<msbit:lsbit>`, moved down to bit 0: it is
      `msbit - lsbit + 1` bits wide. */
  function Bits32(v: Word, msbit: Word, lsbit: Word): (r: Word)
    requires lsbit <= msbit < 32
    ensures msbit - lsbit < 31 ==> r >> (msbit - lsbit + 1) == 0
  {
    (v >> lsbit) & LowMask(msbit - lsbit + 1)
  }

  /** The same field formula with no order demanded of `msbit` and `lsbit`:
      what `Bits32` computes once its assert is compiled out. The width
      `msbit - lsbit + 1` wraps modulo 2^32, so for `msbit == lsbit - 1` it
      is 0 and the mask is empty; a larger `lsbit` would make the mask's
      shift undefined in C++. */
  function Bits32Unchecked(v: Word, msbit: Word, lsbit: Word): (r: Word)
    requires msbit < 32 && lsbit <= msbit + 1
    ensures msbit + 1 == lsbit ==> r == 0
  {
    (v >> lsbit) & ((1 << (msbit - lsbit + 1)) - 1)
  }

  /** The field `v<msbit:lsbit>` of a 64-bit value, moved down to bit 0. */
  function UnsignedBits(v: DWord, msbit: Word, lsbit: Word): (r: DWord)
    requires lsbit <= msbit < 64
    ensures msbit - lsbit < 63 ==> r >> (msbit - lsbit + 1) == 0
  {
    (v >> lsbit) & LowMask64(msbit - lsbit + 1)
  }

  /** `v` rotated right by `amount` places. */
  function Rotr32(v: Word, amount: Word): (r: Word)
    requires amount < 32
    ensures amount == 0 ==> r == v
  {
    if amount == 0 then v else (v >> amount) | (v << (32 - amount))
  }

  /** `r` is `v` rotated right by `a` places: the 32 - a low bits of `r` are the
      high bits of `v` moved down, and the `a` high bits of `r` are the low
      bits of `v` moved up. This is the reference description of a rotation
      against which every rotating routine of the model is measured. */
  predicate IsRotationRight(r: Word, v: Word, a: Word)
    requires 0 < a < 32
  {
    r & LowMask(32 - a) == v >> a && r >> (32 - a) == v & LowMask(a)
  }

  /** At most one word is a given rotation of `v`. */
  lemma RotationUnique(r1: Word, r2: Word, v: Word, a: Word)
    requires 0 < a < 32
    requires IsRotationRight(r1, v, a) && IsRotationRight(r2, v, a)
    ensures r1 == r2
  {}

  /** Rotating right by `a` is undone by rotating right by `32 - a`. */
  lemma RotationInverse(r: Word, v: Word, a: Word)
    requires 0 < a < 32 && IsRotationRight(r, v, a)
    ensures IsRotationRight(v, r, 32 - a)
  {}

  /** Bit 31 of a rotation right by `a` is bit a - 1 of the rotated word. */
  lemma RotationTopBit(r: Word, v: Word, a: Word)
    requires 0 < a < 32 && IsRotationRight(r, v, a)
    ensures Bit32(r, 31) == Bit32(v, a - 1)
  {}

  /** The low part of `Rotr32(v, a)`: the high bits of `v` moved down. */
  lemma Rotr32Low(v: Word, a: Word)
    requires 0 < a < 32
    ensures Rotr32(v, a) & LowMask(32 - a) == v >> a
  {}

  /** The high part of `Rotr32(v, a)`: the low bits of `v` moved up. */
  lemma Rotr32High(v: Word, a: Word)
    requires 0 < a < 32
    ensures Rotr32(v, a) >> (32 - a) == v & LowMask(a)
  {}

  /** `Rotr32` is a rotation right. */
  lemma Rotr32IsRotation(v: Word, a: Word)
    requires 0 < a < 32
    ensures IsRotationRight(Rotr32(v, a), v, a)
  {
    Rotr32Low(v, a);
    Rotr32High(v, a);
  }

  /** Rotating right by `amount` and then by `32 - amount` gives back the
      original word. */
  lemma Rotr32RoundTrip(v: Word, amount: Word)
    requires 0 < amount < 32
    ensures Rotr32(Rotr32(v, amount), 32 - amount) == v
  {
    var w := Rotr32(v, amount);
    Rotr32IsRotation(v, amount);
    RotationInverse(w, v, amount);
    Rotr32IsRotation(w, 32 - amount);
    RotationUnique(Rotr32(w, 32 - amount), v, w, 32 - amount);
  }
}
