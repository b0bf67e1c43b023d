/** Powers of two and the arithmetic of intervals aligned to them. */
module Powers {

  // TWO_TO_POWER_OF(X) of the allocator.
  function Pow2(n: nat): (p: nat)
    ensures 1 <= p
  {
    if n == 0 then 1 else 2 * Pow2(n - 1)
  }

  ghost predicate Aligned(a: int, d: nat) {
    a % Pow2(d) == 0
  }

  lemma {:induction false} Pow2Monotone(m: nat, n: nat)
    requires m <= n
    ensures Pow2(m) <= Pow2(n)
    ensures m < n ==> 2 * Pow2(m) <= Pow2(n)
    decreases n
  {
    if m < n {
      Pow2Monotone(m, n - 1);
    }
  }

  // Exponents are ordered as their powers are.
  lemma Pow2Reflects(m: nat, n: nat)
    requires Pow2(m) <= Pow2(n)
    ensures m <= n
  {
    if n < m {
      Pow2Monotone(n, m);
    }
  }

  lemma {:induction false} Pow2Exceeds(n: nat)
    ensures n < Pow2(n)
  {
    if n != 0 {
      Pow2Exceeds(n - 1);
    }
  }

  lemma MulSign(q: int, s: int)
    requires 0 < s
    ensures 1 <= q ==> s <= q * s
    ensures q <= -1 ==> q * s <= -s
    ensures q == 0 ==> q * s == 0
  {
  }

  lemma MultipleMod(q: int, s: int)
    requires 0 < s
    ensures (q * s) % s == 0
  {
    var k, r := (q * s) / s, (q * s) % s;
    assert (q - k) * s == r;
    MulSign(q - k, s);
  }

  // Two different multiples of s are at least s apart.
  lemma MultiplesApart(a: int, b: int, s: int)
    requires 0 < s && a % s == 0 && b % s == 0 && a < b
    ensures a + s <= b
  {
    var x, y := a / s, b / s;
    assert (y - x) * s == b - a;
    MulSign(y - x, s);
  }

  lemma AlignedHalves(a: int, d: nat)
    requires Aligned(a, d + 1)
    ensures Aligned(a, d) && Aligned(a + Pow2(d), d)
  {
    var s := Pow2(d);
    var q := a / (2 * s);
    assert a == (2 * q) * s;
    assert a + s == (2 * q + 1) * s;
    MultipleMod(2 * q, s);
    MultipleMod(2 * q + 1, s);
  }

  lemma AlignedUpperHalf(a: nat, d: nat)
    requires Aligned(a, d) && !Aligned(a, d + 1)
    ensures Pow2(d) <= a && Aligned(a - Pow2(d), d + 1)
  {
    var s := Pow2(d);
    var q := a / s;
    assert a == q * s;
    var h := q / 2;
    if q % 2 == 0 {
      assert a == h * (2 * s);
      MultipleMod(h, 2 * s);
    } else {
      assert q == 2 * h + 1;
      assert a - s == h * (2 * s);
      MultipleMod(h, 2 * s);
    }
  }

  lemma {:induction false} AlignedDown(a: int, d: nat, e: nat)
    requires d <= e && Aligned(a, e)
    ensures Aligned(a, d)
    decreases e
  {
    if d < e {
      AlignedHalves(a, e - 1);
      AlignedDown(a, d, e - 1);
    }
  }

  // An aligned interval lies inside a coarser aligned interval or beside it.
  lemma {:induction false} NestedOrApart(a: int, d: nat, b: int, e: nat)
    requires d <= e && Aligned(a, d) && Aligned(b, e)
    ensures (b <= a && a + Pow2(d) <= b + Pow2(e)) || a + Pow2(d) <= b || b + Pow2(e) <= a
    decreases e
  {
    if d == e {
      if a < b {
        MultiplesApart(a, b, Pow2(d));
      } else if b < a {
        MultiplesApart(b, a, Pow2(d));
      }
    } else {
      AlignedHalves(b, e - 1);
      NestedOrApart(a, d, b, e - 1);
      NestedOrApart(a, d, b + Pow2(e - 1), e - 1);
    }
  }
}
