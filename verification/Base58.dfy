/**
 Base58 of byte strings: the big-integer encoder and decoder of the coordinator and
 of the multibase module, and the Go SDK's in-place long division.
*/
module Base58 {
  import opened Basics
  import opened Radix

  type byte = x: nat | x < 256

  const ALPHABET := "123456789" + "ABCDEFGH" + "JKLMN" + "PQRSTUVWXYZ" + "abcdefghijk" + "mnopqrstuvwxyz"

  // ----- the alphabet ---------------------------------------------------------------

  function CharOf(d: nat): char
    requires d < 58
  {
    (if d < 9 then '1' as int + d
     else if d < 17 then 'A' as int + (d - 9)
     else if d < 22 then 'J' as int + (d - 17)
     else if d < 33 then 'P' as int + (d - 22)
     else if d < 44 then 'a' as int + (d - 33)
     else 'm' as int + (d - 44)) as char
  }

  function IndexOf(c: char): (r: Option<nat>)
    ensures r.Some? ==> r.value < 58 && CharOf(r.value) == c
  {
    if '1' <= c <= '9' then Some(c as int - '1' as int)
    else if 'A' <= c <= 'H' then Some(c as int - 'A' as int + 9)
    else if 'J' <= c <= 'N' then Some(c as int - 'J' as int + 17)
    else if 'P' <= c <= 'Z' then Some(c as int - 'P' as int + 22)
    else if 'a' <= c <= 'k' then Some(c as int - 'a' as int + 33)
    else if 'm' <= c <= 'z' then Some(c as int - 'm' as int + 44)
    else None
  }

  lemma AlphabetIsCharOf(d: nat)
    requires d < 58
    ensures ALPHABET[d] == CharOf(d)
  {
  }

  lemma IndexOfCharOf(d: nat)
    requires d < 58
    ensures IndexOf(CharOf(d)) == Some(d)
  {
  }

  ghost function Text(ds: seq<nat>): (s: string)
    requires AreDigits(58, ds)
    ensures |s| == |ds|
  {
    seq(|ds|, i requires 0 <= i < |ds| => CharOf(ds[i]))
  }

  /** The digits a text stands for, unless some character is not in the alphabet. */
  ghost function Indices(s: string): (r: Option<seq<nat>>)
    ensures r.Some? <==> forall i | 0 <= i < |s| :: IndexOf(s[i]).Some?
    ensures r.Some? ==> AreDigits(58, r.value) && Text(r.value) == s
  {
    if forall i | 0 <= i < |s| :: IndexOf(s[i]).Some?
    then Some(seq(|s|, i requires 0 <= i < |s| => IndexOf(s[i]).value))
    else None
  }

  // ----- what base58 means ------------------------------------------------------------

  ghost function Encode58(b: seq<byte>): string {
    DigitsAreDigits(58, Value(256, b));
    Text(Zeros(LeadingZeros(b)) + Digits(58, Value(256, b)))
  }

  ghost function Decode58(s: string): Option<seq<byte>> {
    match Indices(s)
    case None => None
    case Some(ds) =>
      DigitsAreDigits(256, Value(58, ds));
      var full := Digits(256, Value(58, ds));
      Some(AsBytes(Zeros(LeadingZeros(ds)) + full))
  }

  ghost function AsBytes(ds: seq<nat>): (b: seq<byte>)
    requires AreDigits(256, ds)
    ensures b == ds
  {
    seq(|ds|, i requires 0 <= i < |ds| => ds[i])
  }

  lemma IndicesOfText(ds: seq<nat>)
    requires AreDigits(58, ds)
    ensures Indices(Text(ds)) == Some(ds)
  {
    forall i | 0 <= i < |ds| ensures IndexOf(Text(ds)[i]) == Some(ds[i]) {
      IndexOfCharOf(ds[i]);
    }
    assert Indices(Text(ds)).value == ds;
  }

  lemma TextPrepend(d: nat, ds: seq<nat>)
    requires d < 58 && AreDigits(58, ds)
    ensures AreDigits(58, [d] + ds) && Text([d] + ds) == [CharOf(d)] + Text(ds)
  {
  }

  lemma TextOfZeros(k: nat, ds: seq<nat>)
    requires AreDigits(58, ds)
    ensures AreDigits(58, Zeros(k) + ds) && Text(Zeros(k) + ds) == seq(k, _ => '1') + Text(ds)
  {
  }

  /** Decoding undoes encoding on every byte string, leading zeros included. */
  lemma DecodeEncode(b: seq<byte>)
    ensures Decode58(Encode58(b)) == Some(b)
  {
    var n, k := Value(256, b), LeadingZeros(b);
    DigitsAreDigits(58, n);
    var ds := Zeros(k) + Digits(58, n);
    IndicesOfText(ds);
    LeadingZerosOf(k, Digits(58, n));
    LeadingZerosWorthless(58, k, Digits(58, n));
    ValueOfDigits(58, n);
    Normalize(256, b);
  }

  /** Encoding undoes decoding on every text over the alphabet, and only those decode. */
  lemma EncodeDecode(s: string)
    ensures Decode58(s).Some? <==> forall i | 0 <= i < |s| :: IndexOf(s[i]).Some?
    ensures Decode58(s).Some? ==> Encode58(Decode58(s).value) == s
  {
    if Decode58(s).Some? {
      var ds := Indices(s).value;
      var n, k := Value(58, ds), LeadingZeros(ds);
      DigitsAreDigits(256, n);
      LeadingZerosOf(k, Digits(256, n));
      LeadingZerosWorthless(256, k, Digits(256, n));
      ValueOfDigits(256, n);
      Normalize(58, ds);
    }
  }

  /** The alphabet has no colon, so an encoded key never does. */
  lemma EncodeHasNoColon(b: seq<byte>)
    ensures ':' !in Encode58(b)
  {
    DigitsAreDigits(58, Value(256, b));
    assert forall d: nat | d < 58 :: CharOf(d) != ':';
  }

  // ----- the coordinator's encoder and decoder ----------------------------------------

  method B58Encode(b: seq<byte>) returns (out: string)
    ensures out == Encode58(b)
  {
    hide Digits, Value, Text;
    var n: nat := Value(256, b);
    ghost var whole, tail: seq<nat> := n, [];
    out := "";
    assert Text([]) == "" && Digits(58, n) + [] == Digits(58, n);
    while n != 0
      invariant AreDigits(58, tail) && out == Text(tail)
      invariant Digits(58, whole) == Digits(58, n) + tail
      decreases n
    {
      TakeDigit(58, n, tail);
      TextPrepend(n % 58, tail);
      tail := [n % 58] + tail;
      var r := n % 58;
      n := n / 58;
      out := [CharOf(r)] + out;
    }
    DigitsOfZero(tail);
    var pad := LeadingZeros(b);
    TextOfZeros(pad, tail);
    out := seq(pad, _ => '1') + out;
  }

  lemma DigitsOfZero(tail: seq<nat>)
    ensures Digits(58, 0) + tail == tail
  {
  }

  /** How many binary digits `n` has. */
  function BitLength(n: nat): nat {
    if n == 0 then 0 else 1 + BitLength(n / 2)
  }

  /** `n` as exactly `len` bytes, or an overflow. */
  function ToBytes(n: nat, len: nat): (r: Option<seq<byte>>)
    ensures r.Some? ==> |r.value| == len
  {
    if len == 0 then (if n == 0 then Some([]) else None)
    else
      match ToBytes(n / 256, len - 1)
      case None => None
      case Some(bs) => Some(bs + [n % 256])
  }

  lemma BitLengthPer256(n: nat)
    requires n >= 256
    ensures BitLength(n) == 8 + BitLength(n / 256)
  {
    var a := n / 2;
    var b := a / 2;
    var c := b / 2;
    var d := c / 2;
    assert d == n / 16;
    BitLengthPer16(n);
    BitLengthPer16(d);
    assert d / 16 == n / 256;
  }

  lemma BitLengthPer16(n: nat)
    requires n >= 16
    ensures BitLength(n) == 4 + BitLength(n / 16)
  {
    var a := n / 2;
    var b := a / 2;
    var c := b / 2;
    assert BitLength(n) == 1 + BitLength(a);
    assert BitLength(a) == 1 + BitLength(b);
    assert BitLength(b) == 1 + BitLength(c);
    assert BitLength(c) == 1 + BitLength(c / 2);
    assert c / 2 == n / 16;
  }

  /** The byte count the decoder computes from the bit length is the exact one: the
      conversion never overflows and yields no leading zero. */
  lemma {:induction false} MinimalBytes(n: nat)
    ensures ToBytes(n, (BitLength(n) + 7) / 8).Some?
    ensures ToBytes(n, (BitLength(n) + 7) / 8).value == Digits(256, n)
  {
    if n >= 256 {
      BitLengthPer256(n);
      MinimalBytes(n / 256);
    } else if n > 0 {
      SmallBitLength(n);
      assert n / 256 == 0 && n % 256 == n;
      assert ToBytes(0, 0) == Some([]);
      assert Digits(256, 0) == [];
    }
  }

  lemma SmallBitLength(n: nat)
    requires 0 < n < 256
    ensures 1 <= BitLength(n) <= 8
  {
    BitLengthBound(n, 8);
  }

  lemma {:induction false} BitLengthBound(n: nat, k: nat)
    requires n < Power2(k)
    ensures BitLength(n) <= k
  {
    if n > 0 {
      BitLengthBound(n / 2, k - 1);
    }
  }

  function Power2(k: nat): nat {
    if k == 0 then 1 else 2 * Power2(k - 1)
  }

  method B58Decode(s: string) returns (r: Option<seq<byte>>)
    ensures r == Decode58(s)
  {
    var n: nat := 0;
    ghost var ds: seq<nat> := [];
    for i := 0 to |s|
      invariant AreDigits(58, ds) && Text(ds) == s[..i] && n == Value(58, ds)
    {
      var d := IndexOf(s[i]);
      if d.None? {
        return None;
      }
      assert (ds + [d.value])[..i] == ds;
      n, ds := n * 58 + d.value, ds + [d.value];
    }
    IndicesOfText(ds);
    assert s[..|s|] == s;
    MinimalBytes(n);
    var full := ToBytes(n, (BitLength(n) + 7) / 8).value;
    var pad := LeadingOnes(s);
    OnesAreZeros(s, ds);
    r := Some(seq(pad, _ => 0) + full);
  }

  /** The count of leading `1` characters, as stripping them shows. */
  function LeadingOnes(s: string): (k: nat)
    ensures k <= |s|
  {
    if s == [] || s[0] != '1' then 0 else 1 + LeadingOnes(s[1..])
  }

  lemma {:induction false} OnesAreZeros(s: string, ds: seq<nat>)
    requires AreDigits(58, ds) && Text(ds) == s
    ensures LeadingOnes(s) == LeadingZeros(ds)
  {
    if s != [] {
      assert Text(ds[1..]) == s[1..];
      OnesAreZeros(s[1..], ds[1..]);
    }
  }

  // ----- the Go SDK's long division ---------------------------------------------------

  /** Half-way through a pass: `done` is the quotient of the first `i` digits. */
  ghost predicate PassInvariant(was: seq<byte>, i: nat, done: seq<byte>, rem: nat, isZero: bool) {
    && |done| == i <= |was|
    && rem < 58
    && Value(256, was[..i]) == 58 * Value(256, done) + rem
    && (isZero <==> AllZero(done))
  }

  /** The next quotient digit fits a byte, because the carry is at most 255 + 57 * 256. */
  lemma PassStep(was: seq<byte>, i: nat, done: seq<byte>, rem: nat, isZero: bool)
    requires PassInvariant(was, i, done, rem, isZero) && i < |was|
    ensures var carry := was[i] + rem * 256;
      carry / 58 < 256
      && PassInvariant(was, i + 1, done + [carry / 58], carry % 58, isZero && carry / 58 == 0)
  {
    var q := (was[i] + rem * 256) / 58;
    assert was[..i + 1][..i] == was[..i] && (done + [q])[..i] == done;
    AllZeroAppend(done, q);
  }

  /** One pass of the inner loop: divides the number in `src` by 58 in place. */
  method DivideInPlace(src: array<byte>) returns (rem: nat, isZero: bool)
    modifies src
    ensures rem < 58
    ensures Value(256, old(src[..])) == 58 * Value(256, src[..]) + rem
    ensures isZero <==> AllZero(src[..])
  {
    hide *;
    isZero, rem := true, 0;
    ghost var was := src[..];
    ghost var done: seq<byte> := [];
    PassStart(was);
    for i := 0 to src.Length
      invariant |done| == i && PassInvariant(was, i, done, rem, isZero)
      invariant src[..] == done + was[i..]
    {
      PassStep(was, i, done, rem, isZero);
      ghost var before, startZero := src[..], isZero;
      SliceAt(before, done, was, i);
      var carry := src[i] + rem * 256;
      ghost var q := carry / 58;
      src[i] := (carry / 58) % 256;
      rem := carry % 58;
      assert src[i] == q && src[..] == before[i := src[i]];
      if src[i] != 0 {
        isZero := false;
      }
      assert isZero == (startZero && q == 0);
      SliceStep(done, was, i, q);
      done := done + [q];
    }
    assert was[src.Length..] == [] && was == was[..src.Length] && src[..] == done;
    PassEnd(was, done, rem, isZero);
  }

  lemma SliceAt(src: seq<byte>, done: seq<byte>, was: seq<byte>, i: nat)
    requires |done| == i < |was| && src == done + was[i..]
    ensures |src| == |was| && src[i] == was[i]
  {
  }

  lemma SliceStep(done: seq<byte>, was: seq<byte>, i: nat, q: byte)
    requires |done| == i < |was|
    ensures (done + was[i..])[i := q] == done + [q] + was[i + 1..]
  {
  }

  lemma PassStart(was: seq<byte>)
    ensures PassInvariant(was, 0, [], 0, true)
  {
  }

  lemma PassEnd(was: seq<byte>, done: seq<byte>, rem: nat, isZero: bool)
    requires PassInvariant(was, |was|, done, rem, isZero)
    ensures rem < 58 && Value(256, was) == 58 * Value(256, done) + rem && (isZero <==> AllZero(done))
  {
    assert was[..|was|] == was;
  }

  /** The Go SDK's encoder gives the coordinator's text, except that on an input with no
      non-zero byte (the empty one included) its loop writes one `1` too many. */
  method GoBase58Encode(b: array<byte>) returns (r: string)
    ensures r == Encode58(b[..]) + (if AllZero(b[..]) then "1" else "")
  {
    var src := new byte[b.Length];
    forall i | 0 <= i < b.Length {
      src[i] := b[i];
    }
    assert src[..] == b[..];
    var leading := CountLeadingZeros(b);
    hide *;
    ghost var whole, tail: seq<nat> := Value(256, b[..]), [];
    RoundStart(whole);
    var digits := "";
    while true
      invariant AreDigits(58, tail) && digits == Text(tail)
      invariant RoundInvariant(whole, Value(256, src[..]), tail)
      decreases Value(256, src[..])
    {
      ghost var n := Value(256, src[..]);
      var rem, isZero := DivideInPlace(src);
      ghost var q := Value(256, src[..]);
      assert n / 58 == q && n % 58 == rem;
      ValueZero(256, src[..]);
      assert isZero <==> q == 0;
      RoundStep(whole, n, tail);
      TextPrepend(rem, tail);
      digits := [CharOf(rem)] + digits;
      tail := [rem] + tail;
      if isZero {
        break;
      }
    }
    assert Value(256, src[..]) == 0;
    r := seq(leading, _ => '1') + digits;
    AssembledText(b[..], leading, tail);
  }

  /** Before each round but a first one on zero, a non-zero quotient remains. */
  ghost predicate RoundInvariant(whole: nat, n: nat, tail: seq<nat>) {
    if whole == 0 then n == 0 && tail == []
    else n > 0 && Digits(58, whole) == Digits(58, n) + tail
  }

  ghost predicate RoundResult(whole: nat, q: nat, tail: seq<nat>) {
    if whole == 0 then q == 0 && tail == [0] else Digits(58, whole) == Digits(58, q) + tail
  }

  lemma RoundStart(whole: nat)
    ensures RoundInvariant(whole, whole, []) && AreDigits(58, []) && Text([]) == ""
  {
    assert Digits(58, whole) + [] == Digits(58, whole);
  }

  lemma RoundStep(whole: nat, n: nat, tail: seq<nat>)
    requires RoundInvariant(whole, n, tail)
    ensures RoundResult(whole, n / 58, [n % 58] + tail)
    ensures n / 58 > 0 ==> RoundInvariant(whole, n / 58, [n % 58] + tail) && n / 58 < n
  {
    if n > 0 {
      TakeDigit(58, n, tail);
    }
  }

  lemma AssembledText(b: seq<byte>, leading: nat, tail: seq<nat>)
    requires leading == LeadingZeros(b) && AreDigits(58, tail)
    requires RoundResult(Value(256, b), 0, tail)
    ensures seq(leading, _ => '1') + Text(tail) == Encode58(b) + (if AllZero(b) then "1" else "")
  {
    ValueZero(256, b);
    TextOfZeros(leading, tail);
    DigitsOfZero(tail);
    if AllZero(b) {
      ExtraDigit(leading, b);
    }
  }

  lemma ExtraDigit(k: nat, b: seq<byte>)
    requires Value(256, b) == 0 && k == LeadingZeros(b)
    ensures Text(Zeros(k) + [0]) == Encode58(b) + "1"
  {
    assert Digits(58, 0) == [];
  }

  method CountLeadingZeros(b: array<byte>) returns (leading: nat)
    ensures leading == LeadingZeros(b[..])
  {
    leading := 0;
    while leading < b.Length && b[leading] == 0
      invariant leading <= b.Length
      invariant forall j | 0 <= j < leading :: b[j] == 0
    {
      leading := leading + 1;
    }
    LeadingZerosOf(leading, b[leading..]);
    assert b[..] == Zeros(leading) + b[leading..];
  }

  // ----- some texts in full -----------------------------------------------------------------

  /** The bytes 0, 0, 40, 127, 180, 205, a published example, have the text 11233QC4. */
  lemma KnownText()
    ensures Encode58([0, 0, 40, 127, 180, 205]) == "11233QC4"
    ensures Decode58("11233QC4") == Some([0, 0, 40, 127, 180, 205])
  {
    hide Text, Value, Digits;
    var b: seq<byte> := [0, 0, 40, 127, 180, 205];
    var ds := [1, 2, 2, 23, 11, 3];
    KnownValue(b);
    KnownDigits();
    assert LeadingZeros(b) == 2 by {
      KnownZeros(b);
    }
    assert Zeros(2) + ds == [0, 0, 1, 2, 2, 23, 11, 3];
    KnownCharacters();
    DecodeEncode(b);
  }

  lemma KnownZeros(b: seq<byte>)
    requires b == [0, 0, 40, 127, 180, 205]
    ensures LeadingZeros(b) == 2
  {
    LeadingZerosOf(2, [40, 127, 180, 205]);
    assert Zeros(2) + [40, 127, 180, 205] == b;
  }

  lemma KnownValue(b: seq<byte>)
    requires b == [0, 0, 40, 127, 180, 205]
    ensures Value(256, b) == 679457997
  {
    assert Value(256, []) == 0;
    hide Value;
    ValueAppend(256, [], 0);
    ValueAppend(256, [0], 0);
    ValueAppend(256, [0, 0], 40);
    ValueAppend(256, [0, 0, 40], 127);
    ValueAppend(256, [0, 0, 40, 127], 180);
    ValueAppend(256, [0, 0, 40, 127, 180], 205);
    assert [] + [0] == [0] && [0] + [0] == [0, 0] && [0, 0] + [40] == [0, 0, 40];
    assert [0, 0, 40] + [127] == [0, 0, 40, 127] && [0, 0, 40, 127] + [180] == [0, 0, 40, 127, 180];
    assert [0, 0, 40, 127, 180] + [205] == b;
  }

  lemma KnownDigits()
    ensures Digits(58, 679457997) == [1, 2, 2, 23, 11, 3]
  {
    assert Digits(58, 0) == [];
    hide Digits;
    DigitsStep(58, 679457997);
    DigitsStep(58, 11714793);
    DigitsStep(58, 201979);
    DigitsStep(58, 3482);
    DigitsStep(58, 60);
    DigitsStep(58, 1);
  }

  lemma KnownCharacters()
    ensures Text([0, 0, 1, 2, 2, 23, 11, 3]) == "11233QC4"
  {
  }
}
