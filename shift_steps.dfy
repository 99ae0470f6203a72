/** An independent reference for the shift primitives LSL_C, LSR_C and
    ASR_C: a shift by n places is n shifts by one place, and its carry out is
    the bit that the last of them pushes out of the word. Each `...Steps`
    function performs the one-place steps one at a time, and the lemmas prove
    by induction on n that the closed formulas of ARMUtils.h compute the same
    value and carry. */
module ShiftSteps {
  import opened InstructionUtils
  import opened ARMUtils
  import opened ARMUtilsProperties

  // ---------------------------------------------------------------------
  // LSL
  // ---------------------------------------------------------------------

  /** `n` one-place left shifts; the carry is bit 31 before the last one
      (0 when there is none). */
  function LslSteps(v: Word, n: Word): (r: (Word, Word))
    decreases n
  {
    if n == 0 then (v, 0)
    else
      var p := LslSteps(v, n - 1);
      (p.0 << 1, Bit32(p.0, 31))
  }

  /** One more place of LSL_C is one more one-place step. */
  lemma LSL_CStep(v: Word, n: Word)
    requires 1 < n < 32
    ensures LSL_C(v, n) == (LSL_C(v, n - 1).0 << 1, Bit32(LSL_C(v, n - 1).0, 31))
  {}

  /** LSL_C by n is n one-place left shifts, and its carry the bit the last
      one pushes out. */
  lemma {:induction false} LSL_CIsSteps(v: Word, n: Word)
    requires 0 < n < 32
    ensures LSL_C(v, n) == LslSteps(v, n)
    decreases n
  {
    if n > 1 {
      LSL_CIsSteps(v, n - 1);
      LSL_CStep(v, n);
    }
  }

  // ---------------------------------------------------------------------
  // LSR
  // ---------------------------------------------------------------------

  /** `n` one-place logical right shifts; the carry is bit 0 before the last
      one. */
  function LsrSteps(v: Word, n: Word): (r: (Word, Word))
    decreases n
  {
    if n == 0 then (v, 0)
    else
      var p := LsrSteps(v, n - 1);
      (p.0 >> 1, Bit32(p.0, 0))
  }

  /** Shifting right by k and then by one is shifting right by k + 1; bit 0
      of the first result is bit k. */
  lemma LsrCompose(v: Word, k: Word)
    requires 0 < k < 32
    ensures (v >> k) >> 1 == v >> (k + 1)
    ensures Bit32(v >> k, 0) == Bit32(v, k)
  {}

  /** One more place of LSR_C is one more one-place step. */
  lemma LSR_CStep(v: Word, k: Word)
    requires 0 < k < 32
    ensures LSR_C(v, k + 1) == (LSR_C(v, k).0 >> 1, Bit32(LSR_C(v, k).0, 0))
  {
    LsrCompose(v, k);
  }

  /** LSR_C by n is n one-place right shifts, and its carry the bit the last
      one pushes out; this covers the shift by 32. */
  lemma {:induction false} LSR_CIsSteps(v: Word, n: Word)
    requires 0 < n <= 32
    ensures LSR_C(v, n) == LsrSteps(v, n)
    decreases n
  {
    if n > 1 {
      LSR_CIsSteps(v, n - 1);
      LSR_CStep(v, n - 1);
    }
  }

  // ---------------------------------------------------------------------
  // ASR
  // ---------------------------------------------------------------------

  /** `n` one-place arithmetic right shifts, each of which moves everything
      down by one and keeps the sign bit where it is; the carry is bit 0
      before the last one. */
  function AsrSteps(v: Word, n: Word): (r: (Word, Word))
    decreases n
  {
    if n == 0 then (v, 0)
    else
      var p := AsrSteps(v, n - 1);
      ((p.0 >> 1) | (p.0 & 0x8000_0000), Bit32(p.0, 0))
  }

  /** Logical right steps of a word whose top bit is clear leave it clear
      (each step moves a 0 into bit 31). */
  lemma LsrStepsTopClear(v: Word, n: Word)
    requires n <= 32 && v >> 31 == 0
    ensures LsrSteps(v, n).0 >> 31 == 0
  {}

  /** On a word whose top bit is clear, the arithmetic step is the logical
      one, and the top bit stays clear. */
  lemma TopClearStep(p: Word)
    requires p >> 31 == 0
    ensures (p >> 1) | (p & 0x8000_0000) == p >> 1
    ensures (p >> 1) >> 31 == 0
  {}

  /** On a value whose sign bit is clear, the arithmetic steps are the
      logical ones: the sign bit they keep is 0. */
  lemma {:induction false} AsrStepsNonNegative(v: Word, n: Word)
    requires n <= 32 && v >> 31 == 0
    ensures AsrSteps(v, n) == LsrSteps(v, n)
    decreases n
  {
    if n > 0 {
      AsrStepsNonNegative(v, n - 1);
      LsrStepsTopClear(v, n - 1);
      TopClearStep(LsrSteps(v, n - 1).0);
    }
  }

  /** The mask of the top n bits, which the arithmetic steps fill with the
      sign bit. */
  function TopMask(n: Word): (r: Word)
    requires n <= 32
  {
    0xFFFF_FFFF << (32 - n)
  }

  /** An arithmetic step keeps a set sign bit set. */
  lemma TopSetStep(p: Word)
    requires p >> 31 == 1
    ensures ((p >> 1) | (p & 0x8000_0000)) >> 31 == 1
  {}

  /** Arithmetic right steps keep a set sign bit set. */
  lemma {:induction false} AsrStepsTopSet(v: Word, n: Word)
    requires n <= 32 && v >> 31 == 1
    ensures AsrSteps(v, n).0 >> 31 == 1
    decreases n
  {
    if n > 0 {
      AsrStepsTopSet(v, n - 1);
      TopSetStep(AsrSteps(v, n - 1).0);
    }
  }

  /** One more bit of mask is the mask of one more bit. */
  lemma MaskStep(k: Word)
    requires k < 32
    ensures (TopMask(k) >> 1) | 0x8000_0000 == TopMask(k + 1)
  {}

  /** One arithmetic step of a logical part and a mask, with the sign bit set,
      is a logical step of the part and one more bit of mask. */
  lemma OrStep(l: Word, m: Word)
    requires (l | m) >> 31 == 1
    ensures ((l | m) >> 1) | ((l | m) & 0x8000_0000) == (l >> 1) | ((m >> 1) | 0x8000_0000)
  {}

  /** The inductive step of AsrStepsNegative. */
  lemma AsrNegativeStep(v: Word, n: Word)
    requires 0 < n <= 32 && v >> 31 == 1
    requires AsrSteps(v, n - 1).0 == LsrSteps(v, n - 1).0 | TopMask(n - 1)
    ensures AsrSteps(v, n).0 == LsrSteps(v, n).0 | TopMask(n)
  {
    AsrStepsTopSet(v, n - 1);
    OrStep(LsrSteps(v, n - 1).0, TopMask(n - 1));
    MaskStep(n - 1);
  }

  /** On a negative value, the arithmetic steps are the logical steps with
      the top n bits set: the sign bit they keep is 1. */
  lemma {:induction false} AsrStepsNegative(v: Word, n: Word)
    requires n <= 32 && v >> 31 == 1
    ensures AsrSteps(v, n).0 == LsrSteps(v, n).0 | TopMask(n)
    decreases n
  {
    if n > 0 {
      AsrStepsNegative(v, n - 1);
      AsrNegativeStep(v, n);
    }
  }

  /** ASR_C of a negative value sets the top `n` bits of the logical shift,
      carrying the sign bit down through the 64-bit sign extension. */
  lemma ASR_CNegativeMask(v: Word, n: Word)
    requires 0 < n <= 32 && v >> 31 == 1
    ensures ASR_C(v, n).0 == (v >> n) | TopMask(n)
  {}

  /** Bit 0 is unaffected by a mask that leaves bit 0 clear. */
  lemma OrLowBit(l: Word, m: Word)
    requires m & 1 == 0
    ensures Bit32(l | m, 0) == Bit32(l, 0)
  {}

  /** ASR_C of a value with a clear sign bit is the arithmetic steps. */
  lemma ASR_CIsStepsNonNegative(v: Word, n: Word)
    requires 0 < n <= 32 && v >> 31 == 0
    ensures ASR_C(v, n) == AsrSteps(v, n)
  {
    ASR_CNonNegative(v, n);
    AsrStepsNonNegative(v, n);
    LSR_CIsSteps(v, n);
  }

  /** The value of ASR_C of a negative value is that of the arithmetic
      steps. */
  lemma ASR_CIsStepsNegativeValue(v: Word, n: Word)
    requires 0 < n <= 32 && v >> 31 == 1
    ensures ASR_C(v, n).0 == AsrSteps(v, n).0
  {
    ASR_CNegativeMask(v, n);
    AsrStepsNegative(v, n);
    LSR_CIsSteps(v, n);
  }

  /** The arithmetic steps push out the same bit as the logical ones: the
      bits they fill in at the top never reach bit 0 within 32 places. */
  lemma AsrStepsCarry(v: Word, n: Word)
    requires 0 < n <= 32
    ensures AsrSteps(v, n).1 == LsrSteps(v, n).1
  {
    if v >> 31 == 0 {
      AsrStepsNonNegative(v, n);
    } else {
      AsrStepsNegative(v, n - 1);
      OrLowBit(LsrSteps(v, n - 1).0, TopMask(n - 1));
    }
  }

  /** ASR_C by n is n one-place arithmetic right shifts, and its carry the
      bit the last one pushes out, through the shift by 32. */
  lemma ASR_CIsSteps(v: Word, n: Word)
    requires 0 < n <= 32
    ensures ASR_C(v, n) == AsrSteps(v, n)
  {
    if v >> 31 == 0 {
      ASR_CIsStepsNonNegative(v, n);
    } else {
      ASR_CIsStepsNegativeValue(v, n);
      AsrStepsCarry(v, n);
      LSR_CIsSteps(v, n);
    }
  }

  // ---------------------------------------------------------------------
  // The wrappers without carry
  // ---------------------------------------------------------------------

  /** LSL by n, 0 included, is n one-place left shifts. */
  lemma LSLIsSteps(v: Word, n: Word)
    requires n < 32
    ensures LSL(v, n) == LslSteps(v, n).0
  {
    if n > 0 {
      LSL_CIsSteps(v, n);
    }
  }

  /** LSR by n, 0 and 32 included, is n one-place logical right shifts. */
  lemma LSRIsSteps(v: Word, n: Word)
    requires n <= 32
    ensures LSR(v, n) == LsrSteps(v, n).0
  {
    if n > 0 {
      LSR_CIsSteps(v, n);
    }
  }

  /** ASR by n, 0 and 32 included, is n one-place arithmetic right shifts. */
  lemma ASRIsSteps(v: Word, n: Word)
    requires n <= 32
    ensures ASR(v, n) == AsrSteps(v, n).0
  {
    if n > 0 {
      ASR_CIsSteps(v, n);
    }
  }
}
