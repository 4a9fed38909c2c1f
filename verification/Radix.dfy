/** Positional notation, most significant digit first, in any base. */
module Radix {
  ghost predicate AreDigits(base: nat, ds: seq<nat>) {
    forall i | 0 <= i < |ds| :: ds[i] < base
  }

  function Value(base: nat, ds: seq<nat>): nat {
    if ds == [] then 0 else Value(base, ds[..|ds| - 1]) * base + ds[|ds| - 1]
  }

  /** The shortest notation of `n`; zero has no digits. */
  function Digits(base: nat, n: nat): seq<nat>
    requires base >= 2
    decreases n
  {
    if n == 0 then []
    else
      DivideSmaller(n, base);
      Digits(base, n / base) + [n % base]
  }

  function Zeros(k: nat): seq<nat> {
    seq(k, _ => 0)
  }

  /** How many leading digits are zero. */
  function LeadingZeros(ds: seq<nat>): (k: nat)
    ensures k <= |ds| && ds[..k] == Zeros(k) && (k < |ds| ==> ds[k] != 0)
  {
    if ds == [] || ds[0] != 0 then 0
    else
      var k := 1 + LeadingZeros(ds[1..]);
      assert ds[..k] == [0] + ds[1..][..k - 1];
      k
  }

  lemma DivideSmaller(n: nat, base: nat)
    requires n > 0 && base >= 2
    ensures n / base < n
  {
    var q := n / base;
    assert n == q * base + n % base;
    if q > 0 {
      assert q * base >= q * 2;
    }
  }

  lemma SmallMultiple(x: int, base: int)
    requires 0 - base < x * base < base
    ensures x == 0
  {
    assert x >= 1 ==> x * base >= base;
    assert x <= -1 ==> x * base <= 0 - base;
  }

  lemma DivModUnique(q: nat, r: nat, base: nat)
    requires r < base
    ensures (q * base + r) / base == q && (q * base + r) % base == r
  {
    var n := q * base + r;
    var q', r' := n / base, n % base;
    assert n == q' * base + r';
    assert (q - q') * base == r' - r;
    SmallMultiple(q - q', base);
  }

  lemma {:induction false} DigitsAreDigits(base: nat, n: nat)
    requires base >= 2
    ensures AreDigits(base, Digits(base, n)) && LeadingZeros(Digits(base, n)) == 0
    ensures n > 0 ==> Digits(base, n) != []
    decreases n
  {
    if n > 0 {
      DivideSmaller(n, base);
      DigitsAreDigits(base, n / base);
      if n / base == 0 {
        assert n == (n / base) * base + n % base;
      }
    }
  }

  lemma QuotientRemainder(n: nat, base: nat)
    requires base >= 2
    ensures n == (n / base) * base + n % base
  {
  }

  lemma ValueAppend(base: nat, ds: seq<nat>, d: nat)
    ensures Value(base, ds + [d]) == Value(base, ds) * base + d
  {
    assert (ds + [d])[..|ds|] == ds;
  }

  lemma DigitsStep(base: nat, n: nat)
    requires base >= 2 && n > 0
    ensures n / base < n && Digits(base, n) == Digits(base, n / base) + [n % base]
  {
    DivideSmaller(n, base);
  }

  lemma {:induction false} ValueOfDigits(base: nat, n: nat)
    requires base >= 2
    ensures Value(base, Digits(base, n)) == n
    decreases n
  {
    if n > 0 {
      var q, r := n / base, n % base;
      DivideSmaller(n, base);
      QuotientRemainder(n, base);
      ValueOfDigits(base, q);
      DigitsStep(base, n);
      ValueAppend(base, Digits(base, q), r);
      hide Value, Digits;
    }
  }

  lemma {:induction false} LeadingZerosWorthless(base: nat, k: nat, ds: seq<nat>)
    ensures Value(base, Zeros(k) + ds) == Value(base, ds)
    decreases |ds|, k
  {
    if ds != [] {
      LeadingZerosWorthless(base, k, ds[..|ds| - 1]);
      assert (Zeros(k) + ds)[..k + |ds| - 1] == Zeros(k) + ds[..|ds| - 1];
    } else if k > 0 {
      LeadingZerosWorthless(base, k - 1, []);
      assert (Zeros(k) + [])[..k - 1] == Zeros(k - 1) + [];
    }
  }

  lemma {:induction false} ValuePositive(base: nat, ds: seq<nat>)
    requires base >= 2 && ds != [] && ds[0] != 0
    ensures Value(base, ds) > 0
  {
    if |ds| > 1 {
      ValuePositive(base, ds[..|ds| - 1]);
      assert Value(base, ds[..|ds| - 1]) * base > 0;
    }
  }

  /** A notation without leading zeros is the shortest notation of its value. */
  lemma {:induction false} DigitsOfValue(base: nat, ds: seq<nat>)
    requires base >= 2 && AreDigits(base, ds) && LeadingZeros(ds) == 0
    ensures Digits(base, Value(base, ds)) == ds
  {
    if ds != [] {
      var init, last := ds[..|ds| - 1], ds[|ds| - 1];
      ValuePositive(base, ds);
      DigitsOfValue(base, init);
      DivModUnique(Value(base, init), last, base);
      assert ds == init + [last];
    }
  }

  /** Any notation is its leading zeros followed by the shortest notation of its value. */
  lemma Normalize(base: nat, ds: seq<nat>)
    requires base >= 2 && AreDigits(base, ds)
    ensures ds == Zeros(LeadingZeros(ds)) + Digits(base, Value(base, ds))
  {
    var k := LeadingZeros(ds);
    assert ds == Zeros(k) + ds[k..];
    LeadingZerosWorthless(base, k, ds[k..]);
    DigitsOfValue(base, ds[k..]);
  }

  /** Zeros put before a shortest notation are its leading zeros. */
  lemma {:induction false} LeadingZerosOf(k: nat, ds: seq<nat>)
    requires LeadingZeros(ds) == 0
    ensures LeadingZeros(Zeros(k) + ds) == k
  {
    if k == 0 {
      assert Zeros(0) + ds == ds;
    } else {
      assert (Zeros(k) + ds)[1..] == Zeros(k - 1) + ds;
      LeadingZerosOf(k - 1, ds);
    }
  }

  predicate AllZero(ds: seq<nat>) {
    forall i | 0 <= i < |ds| :: ds[i] == 0
  }

  lemma {:induction false} ValueZero(base: nat, ds: seq<nat>)
    requires base >= 2
    ensures Value(base, ds) == 0 <==> AllZero(ds)
  {
    if ds != [] {
      var init := ds[..|ds| - 1];
      ValueZero(base, init);
      TimesBase(Value(base, init), base);
      AllZeroAppend(init, ds[|ds| - 1]);
      assert ds == init + [ds[|ds| - 1]];
      hide AllZero;
    }
  }

  lemma TimesBase(x: nat, base: nat)
    requires base >= 2
    ensures x * base >= 0 && (x * base == 0 <==> x == 0)
  {
  }

  lemma AllZeroAppend(ds: seq<nat>, d: nat)
    ensures AllZero(ds + [d]) <==> AllZero(ds) && d == 0
  {
    assert (ds + [d])[|ds|] == d;
    assert forall i | 0 <= i < |ds| :: (ds + [d])[i] == ds[i];
  }

  /** Taking the last digit off `n` in front of the digits already taken. */
  lemma TakeDigit(base: nat, n: nat, tail: seq<nat>)
    requires base >= 2 && n > 0
    ensures n / base < n
    ensures Digits(base, n) + tail == Digits(base, n / base) + ([n % base] + tail)
  {
    DivideSmaller(n, base);
    assert Digits(base, n) == Digits(base, n / base) + [n % base];
  }

  // ----- how many digits a number has ---------------------------------------------------------

  function Pow(base: nat, k: nat): (p: nat)
    ensures base >= 1 ==> p >= 1
  {
    if k == 0 then 1 else Pow(base, k - 1) * base
  }

  lemma {:induction false} PowAdd(base: nat, i: nat, j: nat)
    ensures Pow(base, i + j) == Pow(base, i) * Pow(base, j)
  {
    if j > 0 {
      PowAdd(base, i, j - 1);
      Associate(Pow(base, i), Pow(base, j - 1), base);
    }
  }

  lemma Associate(x: nat, y: nat, z: nat)
    ensures x * y * z == x * (y * z)
  {
  }

  lemma {:induction false} ValueOfShifted(base: nat, d: nat, k: nat)
    ensures Value(base, [d] + Zeros(k)) == d * Pow(base, k)
  {
    if k == 0 {
      assert [d] + Zeros(0) == [d] && [d][..0] == [];
    } else {
      ValueOfShifted(base, d, k - 1);
      assert [d] + Zeros(k) == ([d] + Zeros(k - 1)) + [0];
      ValueAppend(base, [d] + Zeros(k - 1), 0);
      Associate(d, Pow(base, k - 1), base);
    }
  }

  lemma {:induction false} DigitCount(base: nat, n: nat, len: nat)
    requires base >= 2 && len > 0 && Pow(base, len - 1) <= n < Pow(base, len)
    ensures |Digits(base, n)| == len
    decreases len
  {
    DigitsStep(base, n);
    PowStep(base, len - 1);
    if len > 1 {
      PowStep(base, len - 2);
      hide Pow, Digits;
      Scaled(base, n, Pow(base, len - 2), Pow(base, len - 1));
      DigitCount(base, n / base, len - 1);
    } else {
      Scaled(base, n, 0, 1);
    }
  }

  lemma PowStep(base: nat, k: nat)
    ensures Pow(base, k + 1) == Pow(base, k) * base
  {
  }

  lemma Scaled(base: nat, n: nat, low: nat, high: nat)
    requires base >= 2 && low * base <= n < high * base
    ensures low <= n / base < high
  {
    var q := n / base;
    QuotientRemainder(n, base);
    assert q < low ==> (q + 1) * base <= low * base;
    assert high <= q ==> high * base <= q * base;
  }

  /** Digits are read most significant first: those in front weigh by the number of digits behind. */
  lemma {:induction false} ValueConcat(base: nat, a: seq<nat>, b: seq<nat>)
    ensures Value(base, a + b) == Value(base, a) * Pow(base, |b|) + Value(base, b)
  {
    if b == [] {
      assert a + b == a;
    } else {
      var init, d := b[..|b| - 1], b[|b| - 1];
      ValueConcat(base, a, init);
      assert a + b == (a + init) + [d] && b == init + [d];
      ValueAppend(base, a + init, d);
      ValueAppend(base, init, d);
      Distribute(Value(base, a), Pow(base, |init|), Value(base, init), base);
      hide Value;
    }
  }

  lemma Distribute(x: nat, p: nat, y: nat, base: nat)
    ensures (x * p + y) * base == x * (p * base) + y * base
  {
  }
}
