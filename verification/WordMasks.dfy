/** Words of 64 bits: the shift of the bit test, and single bits as doublings of one. */
module WordMasks {
  function OneAt(n: nat): bv64
    requires n < 64
  {
    (1 as bv64) << n
  }

  predicate Meets(word: bv64, mask: bv64) { word & mask != 0 }

  /** One, doubled `n` times. */
  function Mask(n: nat): bv64 {
    if n == 0 then 1 else Mask(n - 1) + Mask(n - 1)
  }

  // The positions in a word, each by itself, so that the solver only converts literals.

  predicate LowPosition(n: nat) {
    n == 0 || n == 1 || n == 2 || n == 3 || n == 4 || n == 5 || n == 6 || n == 7 || n == 8 || n == 9 ||
    n == 10 || n == 11 || n == 12 || n == 13 || n == 14 || n == 15 || n == 16 || n == 17 || n == 18 ||
    n == 19 || n == 20 || n == 21 || n == 22 || n == 23 || n == 24 || n == 25 || n == 26 || n == 27 ||
    n == 28 || n == 29 || n == 30 || n == 31
  }

  predicate HighPosition(n: nat) {
    n == 32 || n == 33 || n == 34 || n == 35 || n == 36 || n == 37 || n == 38 || n == 39 || n == 40 ||
    n == 41 || n == 42 || n == 43 || n == 44 || n == 45 || n == 46 || n == 47 || n == 48 || n == 49 ||
    n == 50 || n == 51 || n == 52 || n == 53 || n == 54 || n == 55 || n == 56 || n == 57 || n == 58 ||
    n == 59 || n == 60 || n == 61 || n == 62 || n == 63
  }

  lemma LowConverts(n: nat)
    requires n < 32
    ensures n as bv64 as int == n
  {
    assert LowPosition(n);
  }

  lemma HighConverts(n: nat)
    requires 32 <= n < 64
    ensures n as bv64 as int == n
  {
    assert HighPosition(n);
  }

  lemma LowDoubles(n: nat)
    requires n < 32
    ensures (1 as bv64) << (n + 1) == ((1 as bv64) << n) + ((1 as bv64) << n)
  {
    assert LowPosition(n);
  }

  lemma HighDoubles(n: nat)
    requires 32 <= n < 63
    ensures (1 as bv64) << (n + 1) == ((1 as bv64) << n) + ((1 as bv64) << n)
  {
    assert HighPosition(n);
  }

  lemma ShiftDoubles(n: nat)
    requires n < 63
    ensures OneAt(n + 1) == OneAt(n) + OneAt(n)
  {
    if n < 32 {
      LowDoubles(n);
    } else {
      HighDoubles(n);
    }
  }

  lemma {:induction false} MaskIsShift(n: nat)
    requires n < 64
    ensures Mask(n) == OneAt(n)
  {
    if n > 0 {
      MaskIsShift(n - 1);
      ShiftDoubles(n - 1);
    }
  }

  function ShiftedBy(n: bv64): bv64
    requires n < 64
  {
    (1 as bv64) << n
  }

  lemma ShiftsApart(a: bv64, b: bv64)
    requires a < 64 && b < 64
    ensures Meets(ShiftedBy(a), ShiftedBy(b)) <==> a == b
  {
  }

  lemma Converts(n: nat)
    requires n < 64
    ensures n as bv64 as int == n && n as bv64 < 64
  {
    if n < 32 {
      LowConverts(n);
    } else {
      HighConverts(n);
    }
  }

  lemma OneAtByBits(n: nat)
    requires n < 64 && n as bv64 < 64
    ensures OneAt(n) == ShiftedBy(n as bv64)
  {
  }

  lemma OnesApart(a: nat, b: nat)
    requires a < 64 && b < 64
    ensures Meets(OneAt(a), OneAt(b)) <==> a == b
  {
    Converts(a);
    Converts(b);
    OneAtByBits(a);
    OneAtByBits(b);
    ShiftsApart(a as bv64, b as bv64);
  }

  lemma MasksApart(a: nat, b: nat)
    requires a < 64 && b < 64
    ensures Meets(Mask(a), Mask(b)) <==> a == b
  {
    MaskIsShift(a);
    MaskIsShift(b);
    OnesApart(a, b);
  }

  lemma AndOverOr(w: bv64, m: bv64, k: bv64)
    ensures (w | m) & k == (w & k) | (m & k)
  {
  }

  lemma OrNonZero(x: bv64, y: bv64)
    ensures x | y != 0 <==> x != 0 || y != 0
  {
  }

  lemma MeetsOr(w: bv64, m: bv64, k: bv64)
    ensures Meets(w | m, k) <==> Meets(w, k) || Meets(m, k)
  {
    AndOverOr(w, m, k);
    OrNonZero(w & k, m & k);
  }
}
