/**
 JSON values and the text of strings and integers, as the four canonical
 encoders of the repository write them.
*/
module JsonText {
  import opened Basics
  import opened Doubles

  /** JSON with integer numbers. A dict is a map, so two dicts that list the same
      members in different orders are the same value. */
  datatype JSON =
    | JNull
    | JBool(b: bool)
    | JInt(n: int)
    | JString(s: string)
    | JArray(items: seq<JSON>)
    | JObject(members: map<string, JSON>)

  type Dict = map<string, JSON>

  function OptionJson(s: Option<string>): JSON {
    match s case None => JNull case Some(t) => JString(t)
  }

  /** The encoders differ in which characters they escape, in the order of keys and in how they
      hold numbers. `Go` is the Go encoder on values whose numbers are `int` or `int64`, and
      `GoDecoded` the same encoder on values whose numbers are `float64`: all values that
      `encoding/json` decoded, among them those of its re-encoding branch. */
  datatype Encoder = Python | Go | GoDecoded | TypeScript | Rust

  /** Every number is a double. */
  predicate HoldsDoubles(e: Encoder) { e.GoDecoded? || e.TypeScript? }

  // ----- string escaping ---------------------------------------------------

  function HexDigit(n: nat): char
    requires n < 16
  {
    if n < 10 then ('0' as int + n) as char else ('a' as int + (n - 10)) as char
  }

  function HexValue(c: char): Option<nat> {
    if '0' <= c <= '9' then Some(c as int - '0' as int)
    else if 'a' <= c <= 'f' then Some(c as int - 'a' as int + 10)
    else if 'A' <= c <= 'F' then Some(c as int - 'A' as int + 10)
    else None
  }

  /** `\u` and four lower-case hexadecimal digits. */
  function UnicodeEscape(u: nat): string
    requires u < 0x1_0000
  {
    ['\\', 'u', HexDigit(u / 4096), HexDigit(u / 256 % 16), HexDigit(u / 16 % 16), HexDigit(u % 16)]
  }

  /** The characters that only some encoders escape. */
  predicate EscapedBy(e: Encoder, c: char) {
    if e.Python? then c as int >= 0x7f
    else if e.Go? || e.GoDecoded? then c == '<' || c == '>' || c == '&' || c as int == 0x2028 || c as int == 0x2029
    else false
  }

  function LongEscape(c: char): string {
    var u := c as int;
    if u < 0x1_0000 then UnicodeEscape(u)
    else UnicodeEscape(0xD800 + (u - 0x1_0000) / 0x400) + UnicodeEscape(0xDC00 + (u - 0x1_0000) % 0x400)
  }

  /** Section 3.2.2.2 of RFC 8785, and what `e` escapes besides. */
  function Escape(e: Encoder, c: char): string {
    var u := c as int;
    if c == '"' then "\\\""
    else if c == '\\' then "\\\\"
    else if u == 8 then "\\b"
    else if u == 9 then "\\t"
    else if u == 10 then "\\n"
    else if u == 12 then "\\f"
    else if u == 13 then "\\r"
    else if u < 0x20 || EscapedBy(e, c) then LongEscape(c)
    else [c]
  }

  function EscapeAll(e: Encoder, s: string): string {
    if s == [] then [] else Escape(e, s[0]) + EscapeAll(e, s[1..])
  }

  function Quote(e: Encoder, s: string): string {
    "\"" + EscapeAll(e, s) + "\""
  }

  // ----- reading a string back ----------------------------------------------

  function Hex4(s: string): Option<nat> {
    if |s| < 4 || HexValue(s[0]).None? || HexValue(s[1]).None? || HexValue(s[2]).None? || HexValue(s[3]).None? then None
    else Some(((HexValue(s[0]).value * 16 + HexValue(s[1]).value) * 16 + HexValue(s[2]).value) * 16
              + HexValue(s[3]).value)
  }

  /** Reads what follows `\u`: one unit, or a surrogate pair written as two escapes. */
  function ParseUnicode(s: string): Option<(char, string)> {
    match Hex4(s)
    case None => None
    case Some(u) =>
      if u < 0xD800 || 0xE000 <= u < 0x1_0000 then Some((u as char, s[4..]))
      else if u >= 0xDC00 then None
      else if |s| < 6 || s[4] != '\\' || s[5] != 'u' then None
      else
        match Hex4(s[6..])
        case None => None
        case Some(w) =>
          if 0xDC00 <= w < 0xE000
          then Some(((0x1_0000 + (u - 0xD800) * 0x400 + (w - 0xDC00)) as char, s[10..]))
          else None
  }

  /** Reads one character of a string body. */
  function ParseChar(s: string): (r: Option<(char, string)>)
    requires s != []
    ensures r.Some? ==> |r.value.1| < |s|
  {
    if s[0] != '\\' then Some((s[0], s[1..]))
    else if |s| < 2 then None
    else
      var c := s[1];
      if c == '"' || c == '\\' || c == '/' then Some((c, s[2..]))
      else if c == 'b' then Some((8 as char, s[2..]))
      else if c == 't' then Some((9 as char, s[2..]))
      else if c == 'n' then Some((10 as char, s[2..]))
      else if c == 'f' then Some((12 as char, s[2..]))
      else if c == 'r' then Some((13 as char, s[2..]))
      else if c == 'u' then ParseUnicode(s[2..])
      else None
  }

  /** Reads a string body up to and including the closing quotation mark. */
  function ParseBody(s: string): (r: Option<(string, string)>)
    ensures r.Some? ==> |r.value.1| < |s|
    decreases |s|
  {
    if s == [] then None
    else if s[0] == '"' then Some(([], s[1..]))
    else
      match ParseChar(s)
      case None => None
      case Some((c, s')) =>
        match ParseBody(s')
        case None => None
        case Some((t, rest)) => Some(([c] + t, rest))
  }

  lemma Hex4Inverts(u: nat, rest: string)
    requires u < 0x1_0000
    ensures Hex4(UnicodeEscape(u)[2..] + rest) == Some(u)
  {
    var t := UnicodeEscape(u)[2..] + rest;
    var a, b, c, d := u / 4096, u / 256 % 16, u / 16 % 16, u % 16;
    assert t[0] == HexDigit(a) && t[1] == HexDigit(b) && t[2] == HexDigit(c) && t[3] == HexDigit(d);
    HexInverts(a); HexInverts(b); HexInverts(c); HexInverts(d);
    Recombine(u);
  }

  lemma Recombine(u: nat)
    requires u < 0x1_0000
    ensures ((u / 4096 * 16 + u / 256 % 16) * 16 + u / 16 % 16) * 16 + u % 16 == u
  {
    assert u / 256 == u / 4096 * 16 + u / 256 % 16;
    assert u / 16 == u / 256 * 16 + u / 16 % 16;
  }

  lemma HexInverts(n: nat)
    requires n < 16
    ensures HexValue(HexDigit(n)) == Some(n)
  {
  }

  lemma BmpInverts(c: char, rest: string)
    requires (c as int) < 0x1_0000
    ensures ParseUnicode(UnicodeEscape(c as int)[2..] + rest) == Some((c, rest))
  {
    var t := UnicodeEscape(c as int)[2..] + rest;
    Hex4Inverts(c as int, rest);
    assert t[4..] == rest;
  }

  lemma PairInverts(c: char, rest: string)
    requires 0x1_0000 <= c as int
    ensures ParseUnicode(LongEscape(c)[2..] + rest) == Some((c, rest))
  {
    hide Hex4;
    var u := c as int;
    var hi, lo := 0xD800 + (u - 0x1_0000) / 0x400, 0xDC00 + (u - 0x1_0000) % 0x400;
    var t := LongEscape(c)[2..] + rest;
    var t' := UnicodeEscape(lo)[2..] + rest;
    assert t == UnicodeEscape(hi)[2..] + (UnicodeEscape(lo) + rest);
    Hex4Inverts(hi, UnicodeEscape(lo) + rest);
    assert t[6..] == t';
    Hex4Inverts(lo, rest);
    assert t[10..] == rest;
  }

  lemma LongEscapeInverts(c: char, rest: string)
    ensures ParseChar(LongEscape(c) + rest) == Some((c, rest))
  {
    var s := LongEscape(c) + rest;
    assert s[..2] == "\\u" && s[0] == '\\' && s[1] == 'u';
    assert s[2..] == LongEscape(c)[2..] + rest;
    if (c as int) < 0x1_0000 {
      BmpInverts(c, rest);
    } else {
      PairInverts(c, rest);
    }
  }

  /** Whatever an encoder writes for a character, the one reader reads back. */
  lemma EscapeInverts(e: Encoder, c: char, rest: string)
    ensures Escape(e, c) != [] && Escape(e, c)[0] != '"'
    ensures ParseChar(Escape(e, c) + rest) == Some((c, rest))
  {
    var s := Escape(e, c) + rest;
    if |Escape(e, c)| == 1 {
      assert s[1..] == rest;
    } else if |Escape(e, c)| == 2 {
      assert s[2..] == rest;
    } else {
      LongEscapeInverts(c, rest);
    }
  }

  /** A quoted string reads back, whichever encoder wrote it and whatever follows. */
  lemma {:induction false} QuoteInverts(e: Encoder, s: string, rest: string)
    ensures ParseBody(EscapeAll(e, s) + "\"" + rest) == Some((s, rest))
  {
    var t := EscapeAll(e, s) + "\"" + rest;
    if s == [] {
      assert t == "\"" + rest;
    } else {
      var t' := EscapeAll(e, s[1..]) + "\"" + rest;
      assert t == Escape(e, s[0]) + t';
      EscapeInverts(e, s[0], t');
      QuoteInverts(e, s[1..], rest);
      assert t[0] == Escape(e, s[0])[0];
      assert [s[0]] + s[1..] == s;
    }
  }

  // ----- numbers -----------------------------------------------------------------

  predicate IsDigit(c: char) { '0' <= c <= '9' }

  function DigitChar(d: nat): char
    requires d < 10
  {
    ('0' as int + d) as char
  }

  function DigitValue(c: char): nat
    requires IsDigit(c)
  {
    c as int - '0' as int
  }

  function NatText(n: nat): (s: string)
    ensures s != [] && forall i | 0 <= i < |s| :: IsDigit(s[i])
  {
    if n < 10 then [DigitChar(n)] else NatText(n / 10) + [DigitChar(n % 10)]
  }

  /** An integer in full. */
  function IntText(n: int): string {
    Sign(n) + NatText(Magnitude(n))
  }

  const LARGE: nat := 1_000_000_000_000_000_000_000
  const TWO63: int := 0x8000_0000_0000_0000

  /** `s` times 10^z as a digit, a fraction and an exponent with the sign `plus` or none. */
  function ExponentText(plus: string, s: nat, z: nat): string {
    var ds := NatText(s);
    ds[..1] + (if |ds| == 1 then "" else "." + ds[1..]) + "e" + plus + NatText(|ds| - 1 + z)
  }

  /** The decimal of the double `n` with an exponent. */
  function ScaledText(plus: string, n: nat): string {
    ExponentText(plus, Quotient(Decimal(n), Pow10(Zeros(n))), Zeros(n))
  }

  /** How a number is printed: in full; as a double, which is in full below 10^21 and with an
      exponent from there on; or as a Rust `f64` too large for 64 bits, with an exponent. */
  datatype Form = InFull | AsDouble | AsFloat

  predicate Fits64(n: int) { -TWO63 <= n < 2 * TWO63 }

  function FormOf(e: Encoder, n: int): Form {
    if HoldsDoubles(e) then AsDouble else if e.Rust? && !Fits64(n) then AsFloat else InFull
  }

  function MagnitudeText(f: Form, n: nat): string {
    match f
    case InFull => NatText(n)
    case AsDouble => if Decimal(n) < LARGE then NatText(Decimal(n)) else ScaledText("+", n)
    case AsFloat => ScaledText("", n)
  }

  function Magnitude(n: int): nat { if n < 0 then -n else n }

  function Sign(n: int): string { if n < 0 then "-" else "" }

  function NumberText(e: Encoder, n: int): string {
    Sign(n) + MagnitudeText(FormOf(e, n), Magnitude(n))
  }

  /** The integers that `e` holds as numbers: a Go integer has 64 bits, and a Rust number is a
      signed or unsigned integer of 64 bits or else an `f64`. */
  predicate HoldsInt(e: Encoder, n: int) {
    match e
    case Python => true
    case Go => -TWO63 <= n < TWO63
    case Rust => Fits64(n) || IsDouble(Magnitude(n))
    case _ => IsDouble(Magnitude(n))
  }

  function TakeDigits(s: string): (r: (string, string))
    ensures s == r.0 + r.1 && forall i | 0 <= i < |r.0| :: IsDigit(r.0[i])
  {
    if s == [] || !IsDigit(s[0]) then ([], s)
    else
      var (ds, rest) := TakeDigits(s[1..]);
      ([s[0]] + ds, rest)
  }

  function DigitsValue(s: string): nat
    requires forall i | 0 <= i < |s| :: IsDigit(s[i])
  {
    if s == [] then 0
    else 10 * DigitsValue(s[..|s| - 1]) + DigitValue(s[|s| - 1])
  }

  /** The digits after a decimal point, if there is one. */
  function TakeFraction(s: string): (r: (string, string))
    ensures |r.1| <= |s| && forall i | 0 <= i < |r.0| :: IsDigit(r.0[i])
  {
    if s != [] && s[0] == '.' then TakeDigits(s[1..]) else ([], s)
  }

  /** A number read: its value, and whether it was written with an exponent. */
  datatype Numeral = Numeral(value: nat, scaled: bool)

  /** Reads what follows the first digits `ds` of a number: a fraction and an exponent, or
      nothing. None if the number is not an integer. */
  function ParseScale(ds: string, s: string): (r: Option<(Numeral, string)>)
    requires forall i | 0 <= i < |ds| :: IsDigit(ds[i])
    ensures r.Some? ==> |r.value.1| <= |s|
  {
    var (fraction, rest) := TakeFraction(s);
    if rest == [] || rest[0] != 'e' then
      if fraction == [] then Some((Numeral(DigitsValue(ds), false), s)) else None
    else
      var (exponent, rest') := TakeDigits(if |rest| > 1 && rest[1] == '+' then rest[2..] else rest[1..]);
      if exponent == [] || DigitsValue(exponent) < |fraction| then None
      else
        var value := DigitsValue(ds + fraction) * Pow10(DigitsValue(exponent) - |fraction|);
        Some((Numeral(value, true), rest'))
  }

  function ParseMagnitude(s: string): (r: Option<(Numeral, string)>)
    ensures r.Some? ==> |r.value.1| < |s|
  {
    var (ds, rest) := TakeDigits(s);
    if ds == [] then None else ParseScale(ds, rest)
  }

  /** The magnitude that `e` holds for a number read, rounded where it is held as a double. */
  function ReadAs(e: Encoder, x: Numeral): nat {
    if HoldsDoubles(e) || (e.Rust? && x.scaled) then Nearest(x.value) else x.value
  }

  function ParseNumber(e: Encoder, s: string): (r: Option<(int, string)>)
    ensures r.Some? ==> |r.value.1| < |s|
  {
    var negative := s != [] && s[0] == '-';
    match ParseMagnitude(if negative then s[1..] else s)
    case None => None
    case Some((x, rest)) =>
      var m: int := ReadAs(e, x);
      Some((if negative then -m else m, rest))
  }

  lemma {:induction false} DigitsOfNatText(n: nat)
    ensures DigitsValue(NatText(n)) == n
  {
    if n >= 10 {
      DigitsOfNatText(n / 10);
      assert NatText(n)[..|NatText(n)| - 1] == NatText(n / 10);
    } else {
      assert DigitsValue([DigitChar(n)][..0]) == 0;
    }
  }

  lemma {:induction false} TakeAllDigits(ds: string, rest: string)
    requires forall i | 0 <= i < |ds| :: IsDigit(ds[i])
    requires rest == [] || !IsDigit(rest[0])
    ensures TakeDigits(ds + rest) == (ds, rest)
  {
    if ds == [] {
      assert ds + rest == rest;
    } else {
      assert (ds + rest)[1..] == ds[1..] + rest;
      TakeAllDigits(ds[1..], rest);
      assert [ds[0]] + ds[1..] == ds;
    }
  }

  /** No number goes on with `rest`. */
  predicate NumberEnds(rest: string) {
    rest == [] || (!IsDigit(rest[0]) && rest[0] != '.' && rest[0] != 'e')
  }

  lemma NatTextInverts(n: nat, rest: string)
    requires NumberEnds(rest)
    ensures ParseMagnitude(NatText(n) + rest) == Some((Numeral(n, false), rest))
  {
    hide TakeDigits, DigitsValue, NatText;
    TakeAllDigits(NatText(n), rest);
    DigitsOfNatText(n);
  }

  /** The scale written after the first digit, cut where the reader cuts it. */
  lemma ScaleInverts(plus: string, d: string, fraction: string, exponent: nat, rest: string)
    requires plus == "" || plus == "+"
    requires forall i | 0 <= i < |d| :: IsDigit(d[i])
    requires forall i | 0 <= i < |fraction| :: IsDigit(fraction[i])
    requires |fraction| <= exponent && NumberEnds(rest)
    ensures var s := (if fraction == [] then "" else "." + fraction) + ("e" + plus + (NatText(exponent) + rest));
      ParseScale(d, s)
      == Some((Numeral(DigitsValue(d + fraction) * Pow10(exponent - |fraction|), true), rest))
  {
    hide TakeDigits, DigitsValue, NatText, Pow10;
    var tail := "e" + plus + (NatText(exponent) + rest);
    var s := (if fraction == [] then "" else "." + fraction) + tail;
    TakeAllDigits(fraction, tail);
    if fraction == [] {
      assert s == tail;
    } else {
      assert s[0] == '.' && s[1..] == fraction + tail;
    }
    assert TakeFraction(s) == (fraction, tail);
    assert (if tail[1] == '+' then tail[2..] else tail[1..]) == NatText(exponent) + rest;
    TakeAllDigits(NatText(exponent), rest);
    DigitsOfNatText(exponent);
  }

  lemma ExponentTextInverts(plus: string, s: nat, z: nat, rest: string)
    requires (plus == "" || plus == "+") && NumberEnds(rest)
    ensures ParseMagnitude(ExponentText(plus, s, z) + rest) == Some((Numeral(s * Pow10(z), true), rest))
  {
    hide TakeDigits, DigitsValue, NatText, Pow10, ParseScale;
    var ds := NatText(s);
    var d, fraction, exponent := ds[..1], ds[1..], |ds| - 1 + z;
    var scale := (if fraction == [] then "" else "." + fraction) + ("e" + plus + (NatText(exponent) + rest));
    assert ExponentText(plus, s, z) + rest == d + scale;
    TakeAllDigits(d, scale);
    ScaleInverts(plus, d, fraction, exponent, rest);
    assert d + fraction == ds;
    DigitsOfNatText(s);
  }

  lemma ScaledTextInverts(plus: string, n: nat, rest: string)
    requires (plus == "" || plus == "+") && IsDouble(n) && NumberEnds(rest)
    ensures ParseMagnitude(ScaledText(plus, n) + rest) == Some((Numeral(Decimal(n), true), rest))
  {
    hide Nearest, Decimal, Zeros, NatText, ParseMagnitude, ExponentText, Quotient, Pow10;
    DecimalRounds(n);
    WholeQuotient(Decimal(n), Zeros(n));
    ExponentTextInverts(plus, Quotient(Decimal(n), Pow10(Zeros(n))), Zeros(n), rest);
  }

  /** A magnitude reads back: in full as itself, and as a double as its printed decimal. */
  lemma MagnitudeInverts(f: Form, n: nat, rest: string)
    requires (f != InFull ==> IsDouble(n)) && NumberEnds(rest)
    ensures var x := ParseMagnitude(MagnitudeText(f, n) + rest);
      match f
      case InFull => x == Some((Numeral(n, false), rest))
      case AsDouble => x.Some? && x.value.0.value == Decimal(n) && x.value.1 == rest
      case AsFloat => x == Some((Numeral(Decimal(n), true), rest))
  {
    hide ParseMagnitude, NatText, ScaledText, Decimal, Nearest;
    match f
    case InFull => NatTextInverts(n, rest);
    case AsDouble =>
      NatTextInverts(Decimal(n), rest);
      ScaledTextInverts("+", n, rest);
    case AsFloat => ScaledTextInverts("", n, rest);
  }

  lemma MagnitudeStart(f: Form, n: nat)
    ensures MagnitudeText(f, n) != "" && IsDigit(MagnitudeText(f, n)[0])
  {
    hide NatText, Decimal, Zeros, Quotient, Pow10;
  }

  lemma NumberStart(e: Encoder, n: int)
    ensures NumberText(e, n) != "" && (NumberText(e, n)[0] == '-' || IsDigit(NumberText(e, n)[0]))
  {
    hide MagnitudeText;
    MagnitudeStart(FormOf(e, n), Magnitude(n));
  }

  /** A number that `e` holds reads back from the text `e` writes, though that text may stand
      for another integer. */
  lemma NumberInverts(e: Encoder, n: int, rest: string)
    requires HoldsInt(e, n) && NumberEnds(rest)
    ensures ParseNumber(e, NumberText(e, n) + rest) == Some((n, rest))
  {
    hide ParseMagnitude, MagnitudeText, Nearest, Decimal;
    var f, m := FormOf(e, n), Magnitude(n);
    if f != InFull {
      DecimalRounds(m);
    }
    MagnitudeInverts(f, m, rest);
    MagnitudeStart(f, m);
    if n < 0 {
      assert (NumberText(e, n) + rest)[1..] == MagnitudeText(f, m) + rest;
    } else {
      assert NumberText(e, n) + rest == MagnitudeText(f, m) + rest;
    }
  }
}
