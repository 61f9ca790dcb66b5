/** The binary64 arithmetic of Math.round(c * (b / m)) on bytes, exactly: a quotient and a
    product, each rounded to 53 significant bits with ties to even, then the nearest
    integer with halves up. Values are a mantissa over a power of two. */
module Doubles {
  const TWO_TO_THE_52: nat := 0x10_0000_0000_0000

  function Pow2(k: nat): (p: nat)
    ensures p > 0
  {
    if k == 0 then 1 else 2 * Pow2(k - 1)
  }

  // The integer nearest to n / d, ties to even.
  function RoundEven(n: nat, d: nat): nat
    requires d > 0
  {
    var q, r := n / d, n % d;
    if 2 * r > d || (2 * r == d && q % 2 == 1) then q + 1 else q
  }

  datatype Double = Double(mantissa: nat, down: nat)   // mantissa / 2^down

  // The least k from `from` on at which n / d scaled by 2^k has 53 bits before the point.
  function Normalised(n: nat, d: nat, from: nat): (k: nat)
    requires n > 0
    ensures k >= from && n * Pow2(k) >= d * TWO_TO_THE_52
    ensures k > from ==> n * Pow2(k - 1) < d * TWO_TO_THE_52
    decreases d * TWO_TO_THE_52 - n * Pow2(from)
  {
    if n * Pow2(from) >= d * TWO_TO_THE_52 then from
    else
      Doubling(n, from);
      Normalised(n, d, from + 1)
  }

  lemma Doubling(n: nat, k: nat)
    ensures n * Pow2(k + 1) == n * Pow2(k) + n * Pow2(k)
  {
  }

  // How many low bits of n fall outside 53.
  function Excess(n: nat, from: nat): (k: nat)
    ensures k >= from && n < 2 * TWO_TO_THE_52 * Pow2(k)
    ensures k > from ==> n >= TWO_TO_THE_52 * Pow2(k)
    decreases n - Pow2(from)
  {
    if n < 2 * TWO_TO_THE_52 * Pow2(from) then from else Excess(n, from + 1)
  }

  function Quotient(b: nat, m: nat): Double
    requires 0 < b < m
  {
    var down := Normalised(b, m, 0);
    Double(RoundEven(b * Pow2(down), m), down)
  }

  function Product(c: nat, x: Double): Double {
    var n := c * x.mantissa;
    var k := Excess(n, 0);
    Double(RoundEven(n, Pow2(k)) * Pow2(k), x.down)
  }

  function MathRound(x: Double): nat {
    (2 * x.mantissa + Pow2(x.down)) / (2 * Pow2(x.down))
  }

  function Scaled(c: nat, b: nat, m: nat): nat
    requires 0 < b < m
  {
    MathRound(Product(c, Quotient(b, m)))
  }

  // ---- What the rounding errors amount to ----

  lemma RoundEvenIsNearest(n: nat, d: nat)
    requires d > 0
    ensures -(d as int) <= 2 * (RoundEven(n, d) * d - n) <= d
  {
    var q, r := n / d, n % d;
    assert n == q * d + r;
    assert (q + 1) * d == q * d + d;
  }

  lemma FloorBounds(n: nat, d: nat)
    requires d > 0
    ensures (n / d) * d <= n < (n / d) * d + d
  {
    assert n == (n / d) * d + n % d;
  }

  lemma MathRoundIsNearest(x: Double)
    ensures var e := Pow2(x.down); -(e as int) < 2 * (MathRound(x) * e - x.mantissa) <= e
  {
    var e := Pow2(x.down);
    FloorBounds(2 * x.mantissa + e, 2 * e);
    assert MathRound(x) * (2 * e) == 2 * (MathRound(x) * e);
  }

  lemma MulAtMost(a: nat, x: nat, y: nat)
    requires x <= y
    ensures a * x <= a * y
  {
    assert a * y == a * x + a * (y - x);
  }

  lemma MulLess(a: nat, x: nat, y: nat)
    requires a > 0 && a * x < a * y
    ensures x < y
  {
    if y <= x {
      MulAtMost(a, y, x);
    }
  }

  // A byte quotient below one is shifted up by more than 52 bits and keeps at most 53.
  lemma QuotientFits(b: nat, m: nat)
    requires 0 < b < m
    ensures Pow2(Quotient(b, m).down) > TWO_TO_THE_52
    ensures Quotient(b, m).mantissa <= 2 * TWO_TO_THE_52
  {
    hide Normalised, RoundEven;
    var k := Normalised(b, m, 0);
    var e := Pow2(k);
    assert b * TWO_TO_THE_52 < m * TWO_TO_THE_52;
    if e <= TWO_TO_THE_52 {
      MulAtMost(b, e, TWO_TO_THE_52);
    }
    Doubling(b, k - 1);
    RoundEvenIsNearest(b * e, m);
    var i := Quotient(b, m).mantissa;
    assert 2 * (i * m) <= 2 * (b * e) + m;
    assert m * (2 * i) < m * (4 * TWO_TO_THE_52 + 1);
    MulLess(m, 2 * i, 4 * TWO_TO_THE_52 + 1);
  }

  lemma ExcessIsSmall(c: nat, x: Double)
    requires x.mantissa <= 2 * TWO_TO_THE_52
    ensures Pow2(Excess(c * x.mantissa, 0)) <= 2 * c + 1
  {
    var k := Excess(c * x.mantissa, 0);
    if k > 0 {
      MulAtMost(c, x.mantissa, 2 * TWO_TO_THE_52);
      if Pow2(k) > 2 * c {
        MulAtMost(TWO_TO_THE_52, 2 * c + 1, Pow2(k));
      }
    }
  }

  // A scaled byte is an integer nearest to c * b / m: the two rounding errors are too
  // small to carry it past one, and can only decide a tie.
  lemma ScaledIsNearest(c: nat, b: nat, m: nat)
    requires 0 < b < m <= 255 && c <= 255
    ensures -(m as int) <= 2 * (Scaled(c, b, m) * m - c * b) <= m
  {
    hide Pow2, Normalised, Excess, RoundEven, MathRound;
    var i := Quotient(b, m);
    var x := Product(c, i);
    var e, k, r := Pow2(i.down), Pow2(Excess(c * i.mantissa, 0)), MathRound(x);
    QuotientFits(b, m);
    ExcessIsSmall(c, i);
    RoundEvenIsNearest(b * e, m);
    RoundEvenIsNearest(c * i.mantissa, k);
    MathRoundIsNearest(x);
    ErrorsAddUp(c, b, m, e, k, i.mantissa, x.mantissa, r);
  }

  lemma ErrorsAddUp(c: int, b: int, m: int, e: int, k: int, i: int, x: int, r: int)
    requires 0 <= c <= 255 && 0 <= b < m <= 255 && 0 < k <= 2 * c + 1 && e > TWO_TO_THE_52
    requires -m <= 2 * (i * m - b * e) <= m
    requires -k <= 2 * (x - c * i) <= k
    requires -e <= 2 * (r * e - x) <= e
    ensures -m <= 2 * (r * m - c * b) <= m
  {
    var d := 2 * (r * m - c * b);
    var u, v, w := 2 * (r * e - x), 2 * (x - c * i), 2 * (i * m - b * e);
    ErrorIdentity(c, b, m, e, i, x, r);
    Scales(m, u, e);
    Scales(m, v, k);
    Scales(c, w, m);
    Bounded(m, k, 255, 511);
    Bounded(c, m, 255, 255);
    assert e * (m + 1) == m * e + e;
    Cancel(e, d, m + 1);
  }

  lemma ErrorIdentity(c: int, b: int, m: int, e: int, i: int, x: int, r: int)
    ensures e * (2 * (r * m - c * b)) == m * (2 * (r * e - x)) + m * (2 * (x - c * i)) + c * (2 * (i * m - b * e))
  {
    Distribute(e, r * m, c * b);
    Distribute(m, r * e, x);
    Distribute(m, x, c * i);
    Distribute(c, i * m, b * e);
    Regroup(e, r, m);
    Regroup(m, c, i);
    Regroup(c, b, e);
    Regroup(e, c, b);
  }

  lemma Distribute(a: int, y: int, z: int)
    ensures a * (2 * (y - z)) == 2 * (a * y) - 2 * (a * z)
  {
  }

  lemma Regroup(a: int, y: int, z: int)
    ensures a * (y * z) == z * (y * a) == y * (a * z) == y * (z * a)
  {
  }

  lemma Scales(a: int, x: int, bound: int)
    requires a >= 0 && -bound <= x <= bound
    ensures -(a * bound) <= a * x <= a * bound
  {
    assert a * bound == a * x + a * (bound - x);
    assert a * x == a * (-bound) + a * (x + bound);
  }

  lemma Bounded(a: int, b: int, x: int, y: int)
    requires 0 <= a <= x && 0 <= b <= y
    ensures a * b <= x * y
  {
    assert x * y == a * b + a * (y - b) + (x - a) * y;
  }

  lemma Cancel(e: int, d: int, n: int)
    requires e > 0 && -(e * n) < e * d < e * n
    ensures -n < d < n
  {
    if d >= n {
      Scales(e, n - d, d - n);
    } else if d <= -n {
      Scales(e, -n - d, -n - d);
    }
  }

  // ---- Against exact halves-up rounding ----

  function HalvesUp(c: nat, b: nat, m: nat): nat
    requires m > 0
  {
    (2 * (c * b) + m) / (2 * m)
  }

  // c * b / m lies halfway between two integers.
  predicate Tie(c: nat, b: nat, m: nat)
    requires m > 0
  {
    2 * (c * b) % (2 * m) == m
  }

  // The doubles' product has come out below the exact one.
  predicate FallsShort(c: nat, b: nat, m: nat)
    requires 0 < b < m
  {
    var x := Product(c, Quotient(b, m));
    x.mantissa * m < c * b * Pow2(x.down)
  }

  // A tie is the one place where the code does not round halves up, and it does not
  // exactly when its product has fallen short of the half.
  lemma HalvesUpUnlessShort(c: nat, b: nat, m: nat)
    requires 0 < b < m <= 255 && c <= 255
    ensures Scaled(c, b, m) == HalvesUp(c, b, m) <==> !(Tie(c, b, m) && FallsShort(c, b, m))
    ensures Scaled(c, b, m) != HalvesUp(c, b, m) ==> Scaled(c, b, m) + 1 == HalvesUp(c, b, m)
  {
    hide Pow2, Product, Quotient, MathRound, Tie;
    var x, r, h := Product(c, Quotient(b, m)), Scaled(c, b, m), HalvesUp(c, b, m);
    var e := Pow2(x.down);
    ScaledIsNearest(c, b, m);
    FloorBounds(2 * (c * b) + m, 2 * m);
    assert h * (2 * m) == 2 * (h * m);
    NearestTwo(r, h, m, c * b);
    TieRemainder(c * b, m, h);
    MathRoundBounds(x);
    RoundedHalf(x.mantissa, e, m, c * b, r);
    assert h == r + 1 ==> h * m == r * m + m;
    TieIs(c, b, m);
  }

  lemma TieIs(c: nat, b: nat, m: nat)
    requires m > 0
    ensures Tie(c, b, m) <==> 2 * (c * b) % (2 * m) == m
  {
  }

  lemma MathRoundBounds(x: Double)
    ensures var r, e := MathRound(x), Pow2(x.down); r * (2 * e) <= 2 * x.mantissa + e < r * (2 * e) + 2 * e
  {
    hide Pow2;
    FloorBounds(2 * x.mantissa + Pow2(x.down), 2 * Pow2(x.down));
  }

  // Two integers nearest to n / m, the second of them with halves up.
  lemma NearestTwo(r: int, h: int, m: int, n: int)
    requires m > 0 && -m <= 2 * (r * m - n) <= m && -m < 2 * (h * m - n) <= m
    ensures r == h || (r + 1 == h && 2 * (r * m - n) == -m)
    ensures 2 * (r * m - n) == -m ==> r != h
  {
    assert (h + 1) * m == h * m + m && (r + 1) * m == r * m + m && (r + 2) * m == r * m + 2 * m;
    if r > h {
      AtMostTimes(h + 1, r, m);
    } else if h > r + 1 {
      AtMostTimes(r + 2, h, m);
    }
  }

  lemma TieRemainder(n: nat, m: nat, h: nat)
    requires m > 0 && h * (2 * m) <= 2 * n + m < h * (2 * m) + 2 * m
    ensures 2 * n % (2 * m) == m <==> 2 * (h * m - n) == m
  {
    var d := 2 * m;
    var q, t := 2 * n / d, 2 * n % d;
    FloorBounds(2 * n, d);
    assert 2 * n == q * d + t;
    assert h * d == 2 * (h * m);
    if t == m {
      assert (q + 1) * d == q * d + d;
      NearestMultiple(h, q + 1, d, 2 * n + m);
    } else if 2 * (h * m - n) == m {
      assert (h - 1) * d == h * d - d;
      NearestMultiple(q, h - 1, d, 2 * n);
    }
  }

  // Only one multiple of d starts an interval of d holding n.
  lemma NearestMultiple(a: int, b: int, d: int, n: int)
    requires d > 0 && a * d <= n < a * d + d && b * d <= n < b * d + d
    ensures a == b
  {
    assert (a + 1) * d == a * d + d && (b + 1) * d == b * d + d;
    if a > b {
      AtMostTimes(b + 1, a, d);
    } else if b > a {
      AtMostTimes(a + 1, b, d);
    }
  }

  // Rounding down to the half below n / m, or up to the half above it.
  lemma RoundedHalf(x: nat, e: nat, m: nat, n: nat, r: nat)
    requires m > 0 && r * (2 * e) <= 2 * x + e < r * (2 * e) + 2 * e
    ensures 2 * (r * m - n) == -(m as int) ==> x * m < n * e
    ensures 2 * (r * m - n) == m ==> x * m >= n * e
  {
    var half: int := 2 * r * e;
    assert r * (2 * e) == half;
    if 2 * (r * m - n) == -(m as int) {
      LessTimes(2 * x, half + e, m);
      HalfTimes(r, e, m, n, 1);
    } else if 2 * (r * m - n) == m {
      AtMostTimes(half - e, 2 * x, m);
      HalfTimes(r, e, m, n, -1);
    }
  }

  lemma LessTimes(a: int, b: int, m: int)
    requires m > 0 && a < b
    ensures a * m < b * m
  {
    assert b * m == a * m + (b - a) * m;
    MulAtMost(m, 1, b - a);
  }

  lemma AtMostTimes(a: int, b: int, m: int)
    requires m > 0 && a <= b
    ensures a * m <= b * m
  {
    if a < b {
      LessTimes(a, b, m);
    }
  }

  lemma HalfTimes(r: int, e: int, m: int, n: int, sign: int)
    requires 2 * (r * m) + sign * m == 2 * n
    ensures (2 * r * e + sign * e) * m == 2 * (n * e)
  {
    calc {
      (2 * r * e + sign * e) * m;
    == { Regroup(e, 2 * r + sign, m); assert (2 * r + sign) * e == 2 * r * e + sign * e; }
      ((2 * r + sign) * m) * e;
    == { assert (2 * r + sign) * m == 2 * (r * m) + sign * m; }
      (2 * n) * e;
    }
  }

  // ---- A tie that falls short ----

  lemma {:induction false} Pow2Add(a: nat, b: nat)
    ensures Pow2(a + b) == Pow2(a) * Pow2(b)
  {
    if a > 0 {
      Pow2Add(a - 1, b);
    }
  }

  lemma Pow2Of53()
    ensures Pow2(5) == 32 && Pow2(52) == TWO_TO_THE_52 && Pow2(53) == 2 * TWO_TO_THE_52
  {
    assert Pow2(4) == 16 && Pow2(5) == 32;
    Pow2Add(4, 4);
    Pow2Add(8, 8);
    Pow2Add(16, 16);
    Pow2Add(32, 16);
    Pow2Add(48, 4);
  }

  lemma NormalisedIs(n: nat, d: nat, k: nat)
    requires n > 0 && k > 0 && n * Pow2(k) >= d * TWO_TO_THE_52 && n * Pow2(k - 1) < d * TWO_TO_THE_52
    ensures Normalised(n, d, 0) == k
  {
    hide Normalised;
    var l := Normalised(n, d, 0);
    if l < k {
      var p := Pow2(k - 1);
      Pow2Grows(l, k - 1);
      MulAtMost(n, Pow2(l), p);
    } else if l > k {
      var p := Pow2(l - 1);
      Pow2Grows(k, l - 1);
      MulAtMost(n, Pow2(k), p);
    }
  }

  lemma ExcessIs(n: nat, k: nat)
    requires k > 0 && TWO_TO_THE_52 * Pow2(k) <= n < 2 * TWO_TO_THE_52 * Pow2(k)
    ensures Excess(n, 0) == k
  {
    hide Excess;
    var l := Excess(n, 0);
    if l < k {
      Pow2Grows(l + 1, k);
    } else if l > k {
      Pow2Grows(k + 1, l);
    }
  }

  lemma {:induction false} Pow2Grows(a: nat, b: nat)
    requires a <= b
    ensures Pow2(a) <= Pow2(b)
  {
    if a < b {
      Pow2Grows(a, b - 1);
    }
  }

  // 45 * (7 / 10) is 31.5, but 7 / 10 comes out just below 0.7 and the product just below
  // 31.5, so the code stores 31.
  lemma TieFallsShort()
    ensures Tie(45, 7, 10) && HalvesUp(45, 7, 10) == 32 && Scaled(45, 7, 10) == 31
  {
    hide Pow2, Normalised, Excess;
    Pow2Of53();
    NormalisedIs(7, 10, 53);
    var i := Quotient(7, 10);
    assert i == Double(6305039478318694, 53);
    ExcessIs(45 * i.mantissa, 5);
    assert Product(45, i) == Double(8866461766385663 * 32, 53);
  }
}
