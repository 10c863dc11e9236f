/** The escalating duration shared by device bans and IP blocks. */
module Escalation {

  const MAX_SECS: nat := 30 * 24 * 3600
  const U64_MAX: nat := 0xFFFF_FFFF_FFFF_FFFF
  const I64_MAX: nat := 0x7FFF_FFFF_FFFF_FFFF
  const MAX_SHIFT: nat := 40

  function Min(a: nat, b: nat): nat { if a <= b then a else b }

  function Pow2(n: nat): (p: nat)
    ensures p >= 1
  {
    if n == 0 then 1 else 2 * Pow2(n - 1)
  }

  /** Multiplication of unsigned 64-bit numbers that stops at the largest one. */
  function SaturatingMul(a: nat, b: nat): nat { Min(a * b, U64_MAX) }

  /** Addition of one to a signed 64-bit counter that stops at the largest one. */
  function SaturatingIncrement(n: nat): nat { if n >= I64_MAX then I64_MAX else n + 1 }

  /** Seconds of the `nth` offence: the shift is clamped and the product saturates. */
  function EscalatedSecs(base: nat, nth: int): nat {
    var shift := if nth - 1 < 0 then 0 else if nth - 1 > MAX_SHIFT then MAX_SHIFT else nth - 1;
    Min(SaturatingMul(base, Pow2(shift)), MAX_SECS)
  }

  lemma {:induction false} Pow2Grows(m: nat, n: nat)
    requires m <= n
    ensures Pow2(m) <= Pow2(n)
  {
    if m < n { Pow2Grows(m, n - 1); }
  }

  lemma Pow2At40()
    ensures Pow2(40) == 0x100_0000_0000
  {
    assert Pow2(10) == 1024;
    assert Pow2(20) == 0x10_0000;
    assert Pow2(30) == 0x4000_0000;
  }

  lemma ProductGrows(base: nat, p: nat, q: nat)
    requires p <= q
    ensures base * p <= base * q
  {
  }

  /** Clamping and saturation are invisible: the duration is the plain capped doubling. */
  lemma EscalatedSecsExact(base: nat, nth: nat)
    requires nth >= 1
    ensures EscalatedSecs(base, nth) == Min(base * Pow2(nth - 1), MAX_SECS)
  {
    if nth - 1 > MAX_SHIFT {
      Pow2Grows(MAX_SHIFT, nth - 1);
      Pow2At40();
      if base == 0 {
        assert base * Pow2(nth - 1) == 0;
      } else {
        ProductGrows(base, Pow2(MAX_SHIFT), Pow2(nth - 1));
        assert base * Pow2(MAX_SHIFT) >= Pow2(MAX_SHIFT);
      }
    }
  }

  /** Each offence lasts at least as long as the one before it. */
  lemma NeverDeescalates(base: nat, m: nat, n: nat)
    requires 1 <= m <= n
    ensures EscalatedSecs(base, m) <= EscalatedSecs(base, n)
  {
    EscalatedSecsExact(base, m);
    EscalatedSecsExact(base, n);
    Pow2Grows(m - 1, n - 1);
    ProductGrows(base, Pow2(m - 1), Pow2(n - 1));
  }

  /** With a base of at least one second no offence has an empty duration. */
  lemma EscalatedSecsPositive(base: nat, nth: nat)
    requires base >= 1 && nth >= 1
    ensures 1 <= EscalatedSecs(base, nth) <= MAX_SECS
  {
    EscalatedSecsExact(base, nth);
    ProductGrows(base, 1, Pow2(nth - 1));
  }
}
