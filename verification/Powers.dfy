/**
 * Powers of two, and what dividing by 64 does to a number that is written with bytes: the arithmetic behind six-bit
 * codes that straddle bytes.
 */
module Powers {

  /** Two to the power i. */
  function Pow2(i: nat): (r: nat)
    ensures r > 0
  {
    if i == 0 then 1 else 2 * Pow2(i - 1)
  }

  lemma {:induction false} SixMoreBits(i: nat)
    ensures Pow2(i + 6) == 64 * Pow2(i)
  {
    assert Pow2(i + 2) == 2 * Pow2(i + 1) == 4 * Pow2(i);
    assert Pow2(i + 4) == 2 * Pow2(i + 3) == 4 * Pow2(i + 2);
    assert Pow2(i + 6) == 2 * Pow2(i + 5) == 4 * Pow2(i + 4);
  }

  lemma {:induction false} EightMoreBits(i: nat)
    ensures Pow2(i + 8) == 256 * Pow2(i)
  {
    SixMoreBits(i + 2);
    assert Pow2(i + 2) == 2 * Pow2(i + 1) == 4 * Pow2(i);
  }

  lemma {:induction false} Pow2Monotone(i: nat, j: nat)
    requires i <= j
    ensures Pow2(i) <= Pow2(j)
  {
    if i < j {
      Pow2Monotone(i, j - 1);
    }
  }

  lemma {:induction false} DivUnique(x: int, d: int, q: int, r: int)
    requires x == d * q + r && 0 <= r < d
    ensures x / d == q && x % d == r
  {
    var q', r' := x / d, x % d;
    assert x == d * q' + r';
    assert d * (q' - q) == r - r' by {
      assert d * (q' - q) == d * q' - d * q;
    }
    MultipleBelow(d, q' - q);
  }

  lemma {:induction false} MultipleBelow(d: int, k: int)
    requires d >= 0
    ensures k >= 1 ==> d * k >= d
    ensures k <= -1 ==> d * k <= -d
  {
  }

  lemma {:induction false} RestBelow(t: nat, p: nat, s: nat)
    requires t < p && s < 64
    ensures 64 * t + s < 64 * p
  {
  }

  lemma {:induction false} SixtyFourTimes(p: nat, r: nat, t: nat)
    ensures 64 * (p * r + t) == 64 * p * r + 64 * t
  {
  }

  /** Dividing twice is dividing by the product. */
  lemma {:induction false} DivDiv(x: nat, p: nat)
    requires p > 0
    ensures x / (64 * p) == x / 64 / p
  {
    var q, s := x / 64, x % 64;
    var r, t := q / p, q % p;
    assert x == 64 * q + s && q == p * r + t;
    SixtyFourTimes(p, r, t);
    RestBelow(t, p, s);
    DivUnique(x, 64 * p, r, 64 * t + s);
  }

  lemma {:induction false} Shift1(n: nat, x: nat, m: nat)
    requires n == x + 256 * m
    ensures n / 64 == x / 64 + 4 * m && n % 64 == x % 64
  {
    DivUnique(n, 64, x / 64 + 4 * m, x % 64);
  }

  lemma {:induction false} Shift2(n: nat, u: nat, m: nat, y: nat, k: nat)
    requires n == u + 4 * m && u < 4 && m == y + 256 * k
    ensures n / 64 == y / 16 + 16 * k && n % 64 == u + y % 16 * 4
  {
    DivUnique(n, 64, y / 16 + 16 * k, u + y % 16 * 4);
  }

  lemma {:induction false} Shift3(n: nat, u: nat, k: nat, z: nat, w: nat)
    requires n == u + 16 * k && u < 16 && k == z + 256 * w
    ensures n / 64 == z / 4 + 64 * w && n % 64 == u + z % 4 * 16
  {
    DivUnique(n, 64, z / 4 + 64 * w, u + z % 4 * 16);
  }

  lemma {:induction false} Shift4(n: nat, u: nat, w: nat)
    requires n == u + 64 * w && u < 64
    ensures n / 64 == w && n % 64 == u
  {
    DivUnique(n, 64, w, u);
  }
}
