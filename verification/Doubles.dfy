/**
 Integers held as IEEE 754 doubles, and the shortest decimal that reads back as the same
 double: what `JSON.stringify` and Go's `float64` printing write. Magnitudes only; a sign is
 printed in front.
*/
module Doubles {
  const TWO53: nat := 0x20_0000_0000_0000

  function Pow10(z: nat): (p: nat)
    ensures p >= 1
  {
    if z == 0 then 1 else 10 * Pow10(z - 1)
  }

  // ----- rounding to a double ---------------------------------------------------------

  /** The distance between neighbouring doubles from `x` on, never below 1 here. */
  function Ulp(x: nat): (u: nat)
    ensures u >= 1 && x < TWO53 * u && (x >= TWO53 ==> 2 * x >= TWO53 * u)
  {
    if x < TWO53 then 1 else 2 * Ulp(x / 2)
  }

  function Quotient(y: nat, u: nat): nat
    requires u >= 1
  {
    y / u
  }

  /** The largest multiple of `u` up to `y`. */
  function Floor(y: nat, u: nat): (x: nat)
    requires u >= 1
    ensures x <= y < x + u
  {
    y / u * u
  }

  /** `y` rounded to a multiple of `u`, a tie to the even multiple. */
  function RoundTo(y: nat, u: nat): nat
    requires u >= 1
  {
    var x := Floor(y, u);
    if 2 * (y - x) < u || (2 * (y - x) == u && Quotient(y, u) % 2 == 0) then x else x + u
  }

  /** The double nearest to `y`. */
  function Nearest(y: nat): nat {
    RoundTo(y, Ulp(y))
  }

  predicate IsDouble(n: nat) { Nearest(n) == n }

  lemma SmallIsDouble(n: nat)
    requires n < TWO53
    ensures Nearest(n) == n
  {
    assert n / 1 == n && n % 1 == 0;
  }

  lemma ProductQuotient(m: nat, u: nat)
    requires u >= 1
    ensures (m * u) % u == 0 && (m * u) / u == m
  {
    var q, r := (m * u) / u, (m * u) % u;
    assert m * u == u * q + r;
    Products(m, q, u);
    Products(q, m, u);
  }

  lemma Products(q: nat, k: nat, p: nat)
    ensures (q + 1) * p == q * p + p
    ensures if k <= q then k * p <= q * p else q * p + p <= k * p
  {
    if k > q {
      assert (q + 1) * p <= k * p;
    }
  }

  lemma Floors(a: nat, b: nat, u: nat)
    requires u >= 1
    ensures if Quotient(a, u) <= Quotient(b, u) then Floor(a, u) <= Floor(b, u) else Floor(b, u) + u <= Floor(a, u)
  {
    Products(b / u, a / u, u);
  }

  lemma RoundMonotone(a: nat, b: nat, u: nat)
    requires u >= 1 && a <= b
    ensures RoundTo(a, u) <= RoundTo(b, u)
  {
    hide Quotient, Floor;
    Floors(a, b, u);
    Floors(b, a, u);
  }

  /** Rounding does not cross a multiple of the unit. */
  lemma RoundBounds(y: nat, u: nat, m: nat)
    requires u >= 1
    ensures m * u <= y ==> m * u <= RoundTo(y, u)
    ensures y <= m * u ==> RoundTo(y, u) <= m * u
  {
    ProductQuotient(m, u);
    if m * u <= y {
      RoundMonotone(m * u, y, u);
    }
    if y <= m * u {
      RoundMonotone(y, m * u, u);
    }
  }

  /** The unit only grows, to a multiple of what it was. */
  lemma {:induction false} UlpGrows(a: nat, b: nat)
    requires a <= b
    ensures Ulp(a) == Ulp(b) || 2 * Ulp(a) <= Ulp(b)
  {
    if TWO53 <= a {
      UlpGrows(a / 2, b / 2);
    }
  }

  lemma NearestMonotone(a: nat, b: nat)
    requires a <= b
    ensures Nearest(a) <= Nearest(b)
  {
    var u, v := Ulp(a), Ulp(b);
    UlpGrows(a, b);
    hide Ulp, RoundTo;
    if u == v {
      RoundMonotone(a, b, u);
    } else {
      RoundBounds(a, u, TWO53);
      RoundBounds(b, v, TWO53 / 2);
    }
  }

  lemma NearestAtLeastHalf(y: nat)
    ensures y <= 2 * Nearest(y)
  {
    if y < TWO53 {
      SmallIsDouble(y);
    }
    hide Quotient, Floor;
  }

  // ----- the shortest decimal -----------------------------------------------------------

  /** `y` ends in (at least) `z` zeros. */
  predicate HasZeros(y: nat, z: nat) { y % Pow10(z) == 0 }

  function Below(n: nat, z: nat): nat { Floor(n, Pow10(z)) }

  function Above(n: nat, z: nat): nat { Below(n, z) + Pow10(z) }

  /** Some multiple of 10^z rounds to `n`; one next to `n` does if any does. */
  predicate Fits(n: nat, z: nat) {
    Nearest(Below(n, z)) == n || Nearest(Above(n, z)) == n
  }

  function ZerosFrom(n: nat, z: nat): (r: nat)
    ensures r >= z && (r > z ==> Fits(n, r))
    decreases 10 * n - Pow10(z)
  {
    if Pow10(z + 1) <= 10 * n && Fits(n, z + 1) then ZerosFrom(n, z + 1) else z
  }

  /** How many trailing digits can be zeros without leaving the double. */
  function Zeros(n: nat): nat {
    if n == 0 then 0 else ZerosFrom(n, 0)
  }

  /** The decimal printed for the double `n`: as many trailing zeros as possible, then as close
      to `n` as possible. */
  function Decimal(n: nat): nat {
    var lo, hi := Below(n, Zeros(n)), Above(n, Zeros(n));
    if Nearest(lo) == n && (Nearest(hi) != n || n - lo <= hi - n) then lo else hi
  }

  lemma FloorNext(n: nat, p: nat, y: nat)
    requires p >= 1 && y % p == 0
    ensures Floor(n, p) % p == 0 && (Floor(n, p) + p) % p == 0
    ensures y <= Floor(n, p) || Floor(n, p) + p <= y
  {
    var q, k := n / p, y / p;
    ProductQuotient(q, p);
    ProductQuotient(q + 1, p);
    Products(q, k, p);
    assert y == p * k;
  }

  lemma Multiples(n: nat, z: nat)
    ensures Below(n, z) <= n < Above(n, z)
    ensures HasZeros(Below(n, z), z) && HasZeros(Above(n, z), z)
  {
    hide Pow10, Floor;
    FloorNext(n, Pow10(z), 0);
  }

  /** Between a multiple of 10^z and `n` there is one of the two next to `n`. */
  lemma NextMultiple(n: nat, z: nat, y: nat)
    requires HasZeros(y, z)
    ensures y <= Below(n, z) <= n || n < Above(n, z) <= y
  {
    hide Pow10, Floor;
    FloorNext(n, Pow10(z), y);
  }

  lemma FitsAny(n: nat, z: nat, y: nat)
    requires IsDouble(n) && HasZeros(y, z) && Nearest(y) == n
    ensures Fits(n, z)
  {
    hide Nearest, Pow10;
    NextMultiple(n, z, y);
    if y <= n {
      NearestMonotone(y, Below(n, z));
      NearestMonotone(Below(n, z), n);
    } else {
      NearestMonotone(n, Above(n, z));
      NearestMonotone(Above(n, z), y);
    }
  }

  lemma {:induction false} MultipleOfLess(y: nat, z: nat, k: nat)
    requires k <= z && HasZeros(y, z)
    ensures HasZeros(y, k)
    decreases z
  {
    if k < z {
      var p, q := Pow10(z - 1), y / Pow10(z);
      assert y == 10 * p * q == (10 * q) * p;
      ProductQuotient(10 * q, p);
      MultipleOfLess(y, z - 1, k);
    }
  }

  lemma {:induction false} ZerosMost(n: nat, from: nat, y: nat, z: nat)
    requires n > 0 && IsDouble(n) && HasZeros(y, z) && Nearest(y) == n
    ensures z <= ZerosFrom(n, from)
    decreases z - from
  {
    hide Nearest, Fits, Pow10, HasZeros;
    if from < z {
      MultipleOfLess(y, z, from + 1);
      FitsAny(n, from + 1, y);
      FewZeros(n, from + 1, y);
      ZerosMost(n, from + 1, y, z);
    }
  }

  lemma FewZeros(n: nat, z: nat, y: nat)
    requires n > 0 && HasZeros(y, z) && Nearest(y) == n
    ensures Pow10(z) <= 2 * n
  {
    hide Pow10;
    NearestAtLeastHalf(y);
    SmallIsDouble(0);
    hide Nearest;
    DivisorAtMost(y, Pow10(z));
  }

  lemma DivisorAtMost(y: nat, p: nat)
    requires y > 0 && p >= 1 && y % p == 0
    ensures p <= y
  {
    Products(y / p, 0, p);
    assert y == y / p * p;
    assert y / p >= 1;
  }

  lemma WholeQuotient(y: nat, z: nat)
    requires HasZeros(y, z)
    ensures Quotient(y, Pow10(z)) * Pow10(z) == y
  {
    hide Pow10;
    var p := Pow10(z);
    assert y == p * (y / p);
  }

  /** The printed decimal rounds back to the double. */
  lemma DecimalRounds(n: nat)
    requires IsDouble(n)
    ensures Nearest(Decimal(n)) == n && HasZeros(Decimal(n), Zeros(n))
  {
    Multiples(n, Zeros(n));
    if Zeros(n) == 0 {
      assert Below(n, 0) == n;
    }
    hide Nearest, Pow10, Below, Above;
  }

  /** No decimal that rounds to `n` has more trailing zeros than the printed one, and none
      with as many is closer. */
  lemma DecimalShortest(n: nat, y: nat, z: nat)
    requires n > 0 && IsDouble(n) && HasZeros(y, z) && Nearest(y) == n
    ensures z <= Zeros(n)
    ensures z == Zeros(n) ==> if Decimal(n) <= n then n - Decimal(n) <= (if y <= n then n - y else y - n)
                              else Decimal(n) - n <= (if y <= n then n - y else y - n)
  {
    ZerosMost(n, 0, y, z);
    if z == Zeros(n) {
      NextMultiple(n, z, y);
      if y <= n {
        NearestMonotone(y, Below(n, z));
        NearestMonotone(Below(n, z), n);
      } else {
        NearestMonotone(n, Above(n, z));
        NearestMonotone(Above(n, z), y);
      }
      hide Nearest, Pow10, Below, Above, ZerosFrom;
    }
  }

  /** Below 2^53 the printed decimal is the integer itself. */
  lemma SmallDecimal(n: nat)
    requires n < TWO53
    ensures IsDouble(n) && Decimal(n) == n
  {
    SmallIsDouble(n);
    DecimalRounds(n);
    hide Decimal;
    var y := Decimal(n);
    SmallIsDouble(TWO53 - 1);
    assert Ulp(TWO53) == 2 && Nearest(TWO53) == TWO53;
    if y < TWO53 {
      SmallIsDouble(y);
    }
    if TWO53 <= y {
      NearestMonotone(TWO53, y);
    }
  }

  /** When the printed decimal is the integer itself: when no decimal that rounds to it has
      more trailing zeros than it has. */
  lemma DecimalExactly(n: nat)
    requires n > 0 && IsDouble(n)
    ensures Decimal(n) == n <==>
      forall y: nat, z: nat | Nearest(y) == n && HasZeros(y, z) :: HasZeros(n, z)
  {
    DecimalRounds(n);
    hide Nearest, Decimal, Zeros;
    if Decimal(n) == n {
      forall y: nat, z: nat | Nearest(y) == n && HasZeros(y, z) ensures HasZeros(n, z) {
        DecimalShortest(n, y, z);
        MultipleOfLess(n, Zeros(n), z);
      }
    } else if HasZeros(n, Zeros(n)) {
      DecimalShortest(n, n, Zeros(n));
    }
  }

  // ----- two large doubles ------------------------------------------------------------------

  const TWO60: nat := 1_152_921_504_606_846_976
  const TWO60_DECIMAL: nat := 1_152_921_504_606_847_000

  function Pow2(k: nat): (p: nat)
    ensures p >= 1
  {
    if k == 0 then 1 else 2 * Pow2(k - 1)
  }

  lemma {:induction false} UlpIs(x: nat, k: nat)
    requires TWO53 / 2 * Pow2(k) <= x < TWO53 * Pow2(k)
    ensures Ulp(x) == Pow2(k)
  {
    if k > 0 {
      UlpIs(x / 2, k - 1);
    }
  }

  lemma DecimalIsAbove(n: nat, z: nat)
    requires n > 0 && IsDouble(n) && !Fits(n, z + 1)
    requires Nearest(Below(n, z)) != n && Nearest(Above(n, z)) == n
    ensures Zeros(n) == z && Decimal(n) == Above(n, z)
  {
    Multiples(n, z);
    DecimalRounds(n);
    hide Nearest, Pow10, Below, Above, HasZeros, Decimal;
    ZerosMost(n, 0, Above(n, z), z);
    if Zeros(n) > z {
      MultipleOfLess(Decimal(n), Zeros(n), z + 1);
      FitsAny(n, z + 1, Decimal(n));
    }
    DecimalPicks(n);
  }

  lemma DecimalPicks(n: nat)
    ensures Nearest(Below(n, Zeros(n))) != n ==> Decimal(n) == Above(n, Zeros(n))
  {
  }

  lemma RoundsNear60()
    ensures Nearest(TWO60) == TWO60 && Nearest(TWO60 - 128) == TWO60 - 128 && Nearest(TWO60 + 256) == TWO60 + 256
    ensures Nearest(TWO60_DECIMAL) == TWO60
  {
    hide Ulp;
    assert Pow2(8) == 256 && Pow2(7) == 128;
    UlpIs(TWO60, 8);
    UlpIs(TWO60 - 128, 7);
    UlpIs(TWO60_DECIMAL, 8);
    UlpIs(TWO60 + 256, 8);
  }

  lemma MultiplesNear60()
    ensures Pow10(3) == 1000 && Pow10(4) == 10000
    ensures Below(TWO60, 3) == TWO60_DECIMAL - 1000 && Below(TWO60, 4) == TWO60_DECIMAL - 7000
  {
  }

  /** 2^60 is printed as another integer. */
  lemma LargeDecimal()
    ensures IsDouble(TWO60) && Decimal(TWO60) == TWO60_DECIMAL
  {
    hide Nearest, Pow10, Below;
    var n := TWO60;
    RoundsNear60();
    MultiplesNear60();
    NearestMonotone(Below(n, 3), n - 128);
    NearestMonotone(Below(n, 4), n - 128);
    NearestMonotone(n + 256, Above(n, 4));
    DecimalIsAbove(n, 3);
  }

  const TWO64: nat := 0x1_0000_0000_0000_0000

  lemma PowersAreDoubles()
    ensures IsDouble(1_000_000_000_000_000_000_000) && IsDouble(TWO64)
  {
    assert Pow2(12) == 4096;
    UlpIs(TWO64, 12);
    assert Pow2(17) == 131072 by {
      assert Pow2(9) == 512;
    }
    UlpIs(1_000_000_000_000_000_000_000, 17);
  }

  /** A double's trailing zeros, from what fits. */
  lemma ZerosIs(n: nat, z: nat, y: nat)
    requires n > 0 && IsDouble(n) && HasZeros(y, z) && Nearest(y) == n && !Fits(n, z + 1)
    ensures Zeros(n) == z
  {
    DecimalRounds(n);
    hide Nearest, Pow10, Below, Above, HasZeros, Decimal, Fits;
    ZerosMost(n, 0, y, z);
    if Zeros(n) > z {
      MultipleOfLess(Decimal(n), Zeros(n), z + 1);
      FitsAny(n, z + 1, Decimal(n));
    }
  }

  const TWO64_DECIMAL: nat := 18_446_744_073_709_552_000

  lemma RoundsNear64()
    ensures Nearest(TWO64) == TWO64 && Nearest(TWO64 - 2048) == TWO64 - 2048 && Nearest(TWO64 + 4096) == TWO64 + 4096
    ensures Nearest(TWO64_DECIMAL) == TWO64
    ensures Nearest(TWO64_DECIMAL - 2000) == TWO64 - 2048
  {
    hide Ulp;
    assert Pow2(12) == 4096 && Pow2(11) == 2048;
    UlpIs(TWO64, 12);
    UlpIs(TWO64 - 2048, 11);
    UlpIs(TWO64_DECIMAL, 12);
    UlpIs(TWO64_DECIMAL - 2000, 11);
    UlpIs(TWO64 + 4096, 12);
  }

  lemma MultiplesNear64()
    ensures Pow10(3) == 1000 && Pow10(4) == 10000
    ensures Below(TWO64, 3) == TWO64_DECIMAL - 1000 && Below(TWO64, 4) == TWO64_DECIMAL - 2000
    ensures HasZeros(TWO64_DECIMAL, 3)
  {
  }

  /** 2^64 is printed as another integer. */
  lemma Decimal64()
    ensures IsDouble(TWO64) && Decimal(TWO64) == TWO64_DECIMAL && Zeros(TWO64) == 3
  {
    hide Nearest, Pow10, Below, HasZeros;
    var n := TWO64;
    RoundsNear64();
    MultiplesNear64();
    NearestMonotone(n + 4096, Above(n, 4));
    ZerosIs(n, 3, TWO64_DECIMAL);
  }

  lemma PowersOfTen()
    ensures Pow10(21) == 1_000_000_000_000_000_000_000 && Pow10(22) == 10_000_000_000_000_000_000_000
  {
    assert Pow10(7) == 10_000_000;
    assert Pow10(14) == 100_000_000_000_000;
  }

  lemma Multiples21()
    ensures var n := 1_000_000_000_000_000_000_000;
      && Below(n, 21) == n && Below(n, 22) == 0 && HasZeros(n, 21)
      && Above(n, 22) == 10 * n
  {
    hide Pow10;
    PowersOfTen();
  }

  lemma Decimal21()
    ensures var n := 1_000_000_000_000_000_000_000; IsDouble(n) && Decimal(n) == n && Zeros(n) == 21
  {
    hide Nearest, Pow10, Below, HasZeros;
    var n := 1_000_000_000_000_000_000_000;
    PowersAreDoubles();
    Multiples21();
    SmallIsDouble(0);
    NearestAtLeastHalf(Above(n, 22));
    ZerosIs(n, 21, n);
  }

  // ----- doubles and rounding, without units --------------------------------------------------

  lemma {:induction false} UlpPower(x: nat) returns (k: nat)
    ensures Ulp(x) == Pow2(k) && (k > 0 ==> TWO53 / 2 * Pow2(k) <= x)
  {
    if x < TWO53 {
      k := 0;
    } else {
      k := UlpPower(x / 2);
      k := k + 1;
    }
  }

  lemma {:induction false} Pow2Divides(j: nat, k: nat) returns (f: nat)
    requires j <= k
    ensures Pow2(k) == f * Pow2(j) && f >= 1
    decreases k - j
  {
    if j == k {
      f := 1;
    } else {
      f := Pow2Divides(j, k - 1);
      f := 2 * f;
    }
  }

  lemma {:induction false} Pow2Grows(j: nat, k: nat)
    requires k < j
    ensures 2 * Pow2(k) <= Pow2(j)
  {
    if k + 1 < j {
      Pow2Grows(j - 1, k);
    }
  }

  lemma MultipleRounds(n: nat, u: nat)
    requires u >= 1
    ensures RoundTo(n, u) == n <==> n % u == 0
  {
    FloorNext(n, u, 0);
    if n % u == 0 {
      FloorNext(n, u, n);
    }
  }

  lemma MultipleOfPower(m: nat, k: nat, j: nat)
    requires j <= k
    ensures (m * Pow2(k)) % Pow2(j) == 0
  {
    var f := Pow2Divides(j, k);
    Associate(m, f, Pow2(j));
    ProductQuotient(m * f, Pow2(j));
  }

  lemma Associate(x: nat, y: nat, z: nat)
    ensures x * y * z == x * (y * z)
  {
  }

  lemma TimesLess(a: nat, b: nat, c: nat)
    requires a < b && c >= 1
    ensures a * c < b * c
  {
  }

  /** A product of an integer below 2^53 and a power of two is a double. */
  lemma ProductIsDouble(m: nat, k: nat)
    requires m < TWO53
    ensures IsDouble(m * Pow2(k))
  {
    var n := m * Pow2(k);
    var j := UlpPower(n);
    TimesLess(m, TWO53, Pow2(k));
    if k < j {
      Pow2Grows(j, k);
    } else {
      MultipleOfPower(m, k, j);
      MultipleRounds(n, Pow2(j));
    }
  }

  lemma DoubleIsProductOfUlp(n: nat) returns (m: nat, k: nat)
    requires IsDouble(n)
    ensures Ulp(n) == Pow2(k) && n == m * Pow2(k)
  {
    k := UlpPower(n);
    MultipleRounds(n, Pow2(k));
    m := Quotient(n, Pow2(k));
    assert n == Pow2(k) * (n / Pow2(k));
  }

  lemma DoubleIsProduct(n: nat) returns (m: nat, k: nat)
    requires IsDouble(n)
    ensures m < TWO53 && n == m * Pow2(k)
  {
    m, k := DoubleIsProductOfUlp(n);
    assert n < TWO53 * Ulp(n);
    hide Ulp, IsDouble, Pow2;
    Products(m, TWO53, Pow2(k));
  }

  ghost predicate IsProduct(n: nat, m: nat, k: nat) { m < TWO53 && n == m * Pow2(k) }

  /** The doubles are exactly the products of an integer of 53 bits and a power of two. */
  lemma DoubleExactly(n: nat)
    ensures IsDouble(n) <==> exists m: nat, k: nat :: IsProduct(n, m, k)
  {
    if IsDouble(n) {
      var m, k := DoubleIsProduct(n);
      assert IsProduct(n, m, k);
    }
    if m: nat, k: nat :| IsProduct(n, m, k) {
      ProductIsDouble(m, k);
    }
  }

  function Distance(a: nat, b: nat): nat { if a <= b then b - a else a - b }

  /** Any double is on either side of the two between which `y` lies. */
  lemma NoneBetween(y: nat, x: nat)
    requires IsDouble(x)
    ensures x <= Floor(y, Ulp(y)) || Floor(y, Ulp(y)) + Ulp(y) <= x
  {
    var u := Ulp(y);
    var j := UlpPower(y);
    if Ulp(x) < u {
      if y < x {
        UlpGrows(y, x);
      }
      UlpGrows(x, y);
      RoundBounds(y, u, TWO53 / 2);
      FloorAtLeast(y, u, TWO53 / 2);
    } else {
      var m, k := DoubleIsProductOfUlp(x);
      if k < j {
        Pow2Grows(j, k);
      } else {
        MultipleOfPower(m, k, j);
        FloorNext(y, u, x);
      }
    }
  }

  lemma FloorAtLeast(y: nat, u: nat, m: nat)
    requires u >= 1 && m * u <= y
    ensures m * u <= Floor(y, u)
  {
    ProductQuotient(m, u);
    FloorNext(y, u, m * u);
  }

  lemma FloorIsProduct(y: nat) returns (q: nat, k: nat)
    ensures q < TWO53 && Ulp(y) == Pow2(k) && Floor(y, Ulp(y)) == q * Pow2(k)
  {
    k := UlpPower(y);
    q := Quotient(y, Ulp(y));
    assert y < TWO53 * Ulp(y);
    hide Ulp, Pow2;
    Products(q, TWO53, Pow2(k));
  }

  lemma NearestIsDouble(y: nat)
    ensures IsDouble(Nearest(y))
  {
    hide IsDouble, Ulp, Floor, Quotient;
    var q, k := FloorIsProduct(y);
    Products(q, q, Pow2(k));
    ProductIsDouble(q, k);
    if q + 1 < TWO53 {
      ProductIsDouble(q + 1, k);
    } else {
      ProductIsDouble(TWO53 / 2, k + 1);
    }
  }

  /** Rounding gives a double, no double is closer, and of two equally close the even one, in
      units of the last place, is taken. */
  lemma NearestExactly(y: nat, x: nat)
    ensures IsDouble(Nearest(y))
    ensures IsDouble(x) ==> Distance(Nearest(y), y) <= Distance(x, y)
    ensures IsDouble(x) && x != Nearest(y) && Distance(Nearest(y), y) == Distance(x, y) ==>
      (Nearest(y) / Ulp(y)) % 2 == 0
  {
    hide Floor, Quotient, Ulp, IsDouble, RoundTo;
    NearestIsDouble(y);
    if IsDouble(x) {
      NoneBetween(y, x);
      Halves(y, Ulp(y));
    }
  }

  lemma Halves(y: nat, u: nat)
    requires u >= 1
    ensures var lo := Floor(y, u);
      && lo <= y < lo + u
      && ((RoundTo(y, u) == lo && 2 * (y - lo) <= u) || (RoundTo(y, u) == lo + u && 2 * (y - lo) >= u))
      && (2 * (y - lo) == u ==> (RoundTo(y, u) / u) % 2 == 0)
  {
    RoundedQuotient(y, u);
    hide Floor, Quotient;
  }

  lemma RoundedQuotient(y: nat, u: nat)
    requires u >= 1
    ensures RoundTo(y, u) / u == Quotient(y, u) + if RoundTo(y, u) == Floor(y, u) then 0 else 1
  {
    var q := y / u;
    ProductQuotient(q, u);
    ProductQuotient(q + 1, u);
    Products(q, q, u);
  }
}
