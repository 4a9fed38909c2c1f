/**
 What the canonical text looks like, stated without the printer: the order and the separators
 of members and items, the escapes character by character, and some texts in full.
*/
module CanonicalTexts {
  import opened Basics
  import opened Doubles
  import opened JsonText
  import opened KeyOrder
  import opened Canonical

  // ----- objects and arrays ----------------------------------------------------------

  /** The parts, separated by commas. */
  function Joined(parts: seq<string>): string {
    if parts == [] then ""
    else if |parts| == 1 then parts[0]
    else Joined(parts[..|parts| - 1]) + "," + parts[|parts| - 1]
  }

  lemma {:induction false} JoinedFirst(parts: seq<string>)
    requires |parts| > 1
    ensures Joined(parts) == parts[0] + "," + Joined(parts[1..])
  {
    var init, rest := parts[..|parts| - 1], parts[1..];
    if |parts| > 2 {
      JoinedFirst(init);
      assert init[1..] == rest[..|rest| - 1] && rest[|rest| - 1] == parts[|parts| - 1];
      Grouped(parts[0], Joined(init[1..]), parts[|parts| - 1]);
    } else {
      assert init == [parts[0]] && rest == [parts[1]];
    }
  }

  lemma Grouped(a: string, b: string, c: string)
    ensures a + "," + b + "," + c == a + "," + (b + "," + c)
  {
  }

  ghost function Items(e: Encoder, items: seq<JSON>): (parts: seq<string>)
    ensures |parts| == |items| && forall i | 0 <= i < |items| :: parts[i] == Canon(e, items[i])
  {
    seq(|items|, i requires 0 <= i < |items| => Canon(e, items[i]))
  }

  ghost function Member(e: Encoder, v: JSON, k: string): string
    requires v.JObject? && k in v.members
  {
    "\"" + EscapeAll(e, k) + "\"" + ":" + Canon(e, v.members[k])
  }

  ghost function Members(e: Encoder, v: JSON, ks: seq<string>): (parts: seq<string>)
    requires v.JObject? && forall k | k in ks :: k in v.members
    ensures |parts| == |ks| && forall i | 0 <= i < |ks| :: parts[i] == Member(e, v, ks[i])
  {
    seq(|ks|, i requires 0 <= i < |ks| => Member(e, v, ks[i]))
  }

  lemma {:induction false} ItemsJoined(e: Encoder, items: seq<JSON>)
    ensures ItemsText(e, items) == Joined(Items(e, items))
  {
    hide Canon;
    if |items| > 1 {
      ItemsJoined(e, items[1..]);
      assert Items(e, items)[1..] == Items(e, items[1..]);
      JoinedFirst(Items(e, items));
      hide Joined;
    }
  }

  lemma {:induction false} MembersJoined(e: Encoder, v: JSON, ks: seq<string>)
    requires v.JObject? && forall k | k in ks :: k in v.members
    ensures MembersText(e, v, ks) == Joined(Members(e, v, ks))
    decreases |ks|
  {
    hide Canon, EscapeAll, Member, MembersText;
    MembersFirst(e, v, ks);
    if |ks| > 1 {
      MembersJoined(e, v, ks[1..]);
      assert Members(e, v, ks)[1..] == Members(e, v, ks[1..]);
      JoinedFirst(Members(e, v, ks));
    }
  }

  lemma MembersFirst(e: Encoder, v: JSON, ks: seq<string>)
    requires v.JObject? && forall k | k in ks :: k in v.members
    ensures |ks| == 0 ==> MembersText(e, v, ks) == ""
    ensures |ks| == 1 ==> MembersText(e, v, ks) == Member(e, v, ks[0])
    ensures |ks| > 1 ==> MembersText(e, v, ks) == Member(e, v, ks[0]) + "," + MembersText(e, v, ks[1..])
  {
    hide Canon, EscapeAll;
  }

  /** An array's text: its items in order, separated by commas, in brackets. */
  lemma ArrayText(e: Encoder, items: seq<JSON>)
    ensures Canon(e, JArray(items)) == "[" + Joined(Items(e, items)) + "]"
  {
    ItemsJoined(e, items);
    hide ItemsText, Joined, Items;
  }

  /** An object's text: its members, key and value separated by a colon, with ascending keys. */
  lemma ObjectText(e: Encoder, v: JSON, ks: seq<string>)
    requires v.JObject? && IsListing(e, ks, v.members.Keys)
    ensures Canon(e, v) == "{" + Joined(Members(e, v, ks)) + "}"
  {
    ListingIsUnique(e, ks, SortedKeys(e, v.members.Keys));
    MembersJoined(e, v, ks);
    hide MembersText, Joined, SortedKeys;
  }

  // ----- characters -------------------------------------------------------------------------

  /** Which characters stand for themselves. */
  lemma LiteralExactly(e: Encoder, c: char)
    ensures Escape(e, c) == [c] <==>
      && c as int >= 0x20 && c != '"' && c != '\\'
      && (e == Python ==> (c as int) < 0x7f)
      && (e == Go || e == GoDecoded ==> c !in "<>&\U{2028}\U{2029}")
  {
    assert |LongEscape(c)| > 1;
  }

  /** Seven characters have an escape of two characters. */
  lemma ShortEscapes(e: Encoder)
    ensures Escape(e, '"') == "\\\"" && Escape(e, '\\') == "\\\\"
    ensures Escape(e, 8 as char) == "\\b" && Escape(e, 9 as char) == "\\t" && Escape(e, 10 as char) == "\\n"
    ensures Escape(e, 12 as char) == "\\f" && Escape(e, 13 as char) == "\\r"
  {
    hide LongEscape;
  }

  /** The others are written by their lower-case hexadecimal digits, once or as two surrogates. */
  lemma LongEscapes(e: Encoder, c: char)
    requires Escape(e, c) != [c] && c !in "\"\\" && (c as int) !in {8, 9, 10, 12, 13}
    ensures "\\u" <= Escape(e, c) && |Escape(e, c)| == (if (c as int) < 0x1_0000 then 6 else 12)
    ensures forall i | 0 <= i < |Escape(e, c)| :: Escape(e, c)[i] in "\\u0123456789abcdef"
  {
    assert Escape(e, c) == LongEscape(c) by {
      hide LongEscape;
    }
    LongEscapeLower(c);
    hide Escape, LongEscape;
  }

  lemma LongEscapeLower(c: char)
    ensures "\\u" <= LongEscape(c) && |LongEscape(c)| == (if (c as int) < 0x1_0000 then 6 else 12)
    ensures forall i | 0 <= i < |LongEscape(c)| :: LongEscape(c)[i] in "\\u0123456789abcdef"
  {
    hide UnicodeEscape;
    var u := c as int;
    if u < 0x1_0000 {
      UnicodeLower(u);
    } else {
      UnicodeLower(0xD800 + (u - 0x1_0000) / 0x400);
      UnicodeLower(0xDC00 + (u - 0x1_0000) % 0x400);
    }
  }

  lemma UnicodeLower(u: nat)
    requires u < 0x1_0000
    ensures "\\u" <= UnicodeEscape(u) && |UnicodeEscape(u)| == 6
    ensures forall i | 0 <= i < |UnicodeEscape(u)| :: UnicodeEscape(u)[i] in "\\u0123456789abcdef"
  {
    LowerHex();
    hide HexDigit;
  }

  lemma LowerHex()
    ensures forall n: nat | n < 16 :: HexDigit(n) in "0123456789abcdef"
  {
    forall n: nat | n < 16 ensures HexDigit(n) in "0123456789abcdef" {
      assert HexDigit(n) == "0123456789abcdef"[n];
    }
  }

  // ----- numbers -----------------------------------------------------------------------------

  /** No digit string starts with a zero but "0" itself. */
  lemma {:induction false} NoLeadingZero(n: nat)
    ensures NatText(n)[0] == '0' ==> NatText(n) == "0" && n == 0
  {
    if n >= 10 {
      NoLeadingZero(n / 10);
    }
  }

  /** Doubles are printed with an exponent exactly from 10^21 on. */
  lemma ExponentExactly(n: int)
    ensures 'e' in NumberText(TypeScript, n) <==> Decimal(Magnitude(n)) >= 1_000_000_000_000_000_000_000
  {
    hide NatText, Decimal, Zeros, Quotient, Pow10;
    var m := Magnitude(n);
    if Decimal(m) >= LARGE {
      ScaledHasE("+", m);
    } else {
      assert forall c | c in NatText(Decimal(m)) :: IsDigit(c);
    }
  }

  lemma ScaledHasE(plus: string, n: nat)
    ensures 'e' in ScaledText(plus, n)
  {
    hide NatText, Decimal, Zeros, Quotient, Pow10;
    var ds, t := NatText(Quotient(Decimal(n), Pow10(Zeros(n)))), ScaledText(plus, n);
    assert t[if |ds| == 1 then 1 else |ds| + 1] == 'e';
  }

  // ----- some texts in full ---------------------------------------------------------------

  /** Below 2^53 every encoder writes the digits. */
  lemma SmallText(e: Encoder, n: int)
    requires Magnitude(n) < TWO53
    ensures NumberText(e, n) == (if n < 0 then "-" else "") + NatText(Magnitude(n))
  {
    SmallDecimal(Magnitude(n));
    hide Decimal, NatText, ScaledText, IsDouble;
  }

  lemma KnownIntegers(e: Encoder)
    ensures NumberText(e, 1) == "1" && NumberText(e, -20) == "-20"
  {
    hide NumberText, NatText;
    SmallText(e, 1);
    SmallText(e, -20);
    KnownSmall();
  }

  lemma KnownSmall()
    ensures NatText(1) == "1" && NatText(20) == "20"
  {
    assert NatText(1) == "1" && NatText(2) == "2";
    OneMore(2, 0);
  }

  /** Large numbers, by how they are held. */
  lemma KnownNumbers()
    ensures NumberText(TypeScript, 1_000_000_000_000_000_000_000) == "1e+21"
    ensures NumberText(Rust, -18_446_744_073_709_551_616) == "-1." + "8446744073709552" + "e19"
  {
    hide ScaledText, NatText, Decimal, IsDouble, Zeros, Nearest, NumberText;
    Decimal21();
    KnownScaled21();
    KnownScaled64();
    LargeDouble(1_000_000_000_000_000_000_000);
    LargeFloat(-18_446_744_073_709_551_616);
    SignedScaled("8446744073709552");
  }

  lemma SignedScaled(fraction: string)
    ensures "-" + ("1" + ("." + fraction) + "e" + "" + "19") == "-1." + fraction + "e19"
  {
  }

  lemma LargeDouble(n: nat)
    requires Decimal(n) >= LARGE
    ensures NumberText(TypeScript, n) == ScaledText("+", n)
  {
    hide ScaledText, NatText, Decimal;
  }

  lemma LargeFloat(n: int)
    requires n < -TWO63
    ensures NumberText(Rust, n) == "-" + ScaledText("", -n)
  {
    hide ScaledText, NatText, Decimal;
  }

  lemma ScaledIs(plus: string, n: nat, q: nat, z: nat, ds: string, exponent: string)
    requires Zeros(n) == z && Quotient(Decimal(n), Pow10(z)) == q
    requires NatText(q) == ds && NatText(|ds| - 1 + z) == exponent
    ensures ScaledText(plus, n) == ds[..1] + (if |ds| == 1 then "" else "." + ds[1..]) + "e" + plus + exponent
  {
    hide Decimal, Zeros, Pow10, Quotient, NatText;
  }

  lemma KnownScaled21()
    ensures ScaledText("+", 1_000_000_000_000_000_000_000) == "1e+21"
  {
    hide Decimal, Zeros, Pow10, Quotient, ScaledText, IsDouble;
    Decimal21();
    KnownQuotients();
    assert NatText(2) == "2" && NatText(1) == "1";
    OneMore(2, 1);
    ScaledIs("+", 1_000_000_000_000_000_000_000, 1, 21, "1", "21");
  }

  lemma KnownScaled64()
    ensures ScaledText("", 18_446_744_073_709_551_616) == "1" + ("." + "8446744073709552") + "e" + "" + "19"
  {
    hide Decimal, Zeros, Pow10, Quotient, NatText, ScaledText, IsDouble;
    Decimal64();
    KnownQuotients();
    KnownDigits();
    KnownNineteen();
    var ds := "18446744073709552";
    ScaledIs("", 18_446_744_073_709_551_616, 18_446_744_073_709_552, 3, ds, "19");
    assert ds[..1] == "1";
    assert ds[1..] == "8446744073709552";
  }

  lemma KnownNineteen()
    ensures NatText(18) == "18" && NatText(19) == "19"
  {
    assert NatText(1) == "1";
    OneMore(1, 8);
    OneMore(1, 9);
  }

  lemma KnownQuotients()
    ensures Quotient(1_000_000_000_000_000_000_000, Pow10(21)) == 1
    ensures Quotient(18_446_744_073_709_552_000, Pow10(3)) == 18_446_744_073_709_552
  {
    PowersOfTen();
    assert Pow10(3) == 1000;
    hide Pow10;
  }

  lemma ThreeMore(q: nat, a: nat, b: nat, c: nat)
    requires q > 0 && a < 10 && b < 10 && c < 10
    ensures NatText(1000 * q + 100 * a + 10 * b + c) == NatText(q) + [DigitChar(a), DigitChar(b), DigitChar(c)]
  {
    OneMore(q, a);
    OneMore(10 * q + a, b);
    OneMore(100 * q + 10 * a + b, c);
    hide NatText;
  }

  lemma OneMore(q: nat, d: nat)
    requires q > 0 && d < 10
    ensures NatText(10 * q + d) == NatText(q) + [DigitChar(d)]
  {
  }

  lemma Extend(q: nat, s: string, a: nat, b: nat, c: nat, t: string)
    requires q > 0 && a < 10 && b < 10 && c < 10 && NatText(q) == s
    requires t == s + [DigitChar(a), DigitChar(b), DigitChar(c)]
    ensures NatText(1000 * q + 100 * a + 10 * b + c) == t
  {
    hide NatText;
    ThreeMore(q, a, b, c);
  }

  lemma KnownDigits()
    ensures NatText(18_446_744_073_709_552) == "18446744073709552"
  {
    hide NatText;
    KnownNineteen();
    Extend(18, "18", 4, 4, 6, "18446");
    Extend(18_446, "18446", 7, 4, 4, "18446744");
    Extend(18_446_744, "18446744", 0, 7, 3, "18446744073");
    Extend(18_446_744_073, "18446744073", 7, 0, 9, "18446744073709");
    Extend(18_446_744_073_709, "18446744073709", 5, 5, 2, "18446744073709552");
  }

  const SAMPLE: JSON := JObject(map["b" := JArray([JInt(1), JInt(-20), JBool(true)]), "a" := JString("x\n")])

  /** One value, as every encoder writes it. */
  lemma KnownText(e: Encoder)
    ensures Canon(e, SAMPLE) == "{" + "\"a\":" + "\"x\\n\"" + "," + "\"b\":" + "[1,-20,true]" + "}"
  {
    hide NumberText, EscapeAll, Canon, Members, Items, Joined, IsListing;
    var ks := ["a", "b"];
    KnownListing(e);
    ObjectText(e, SAMPLE, ks);
    KnownMembers(e);
    KnownString(e);
    KnownArray(e);
    Spelled(Canon(e, JString("x\n")), Canon(e, SAMPLE.members["b"]));
  }

  lemma Spelled(a: string, b: string)
    ensures "\"" + "a" + "\":" + a + ",\"" + "b" + "\":" + b == "\"a\":" + a + "," + "\"b\":" + b
    ensures "{" + ("\"a\":" + a + "," + "\"b\":" + b) + "}" == "{" + "\"a\":" + a + "," + "\"b\":" + b + "}"
  {
  }

  lemma KnownListing(e: Encoder)
    ensures IsListing(e, ["a", "b"], SAMPLE.members.Keys)
  {
    assert "" + ['a'] + "" == "a" && "" + ['b'] + "" == "b";
    BeforeExactly(e, "", 'a', "", 'b', "");
  }

  lemma KnownMembers(e: Encoder)
    ensures Joined(Members(e, SAMPLE, ["a", "b"]))
      == "\"" + EscapeAll(e, "a") + "\":" + Canon(e, JString("x\n")) + ",\"" + EscapeAll(e, "b") + "\":"
         + Canon(e, SAMPLE.members["b"])
  {
    hide EscapeAll, Canon;
    var a, b := Member(e, SAMPLE, "a"), Member(e, SAMPLE, "b");
    assert Members(e, SAMPLE, ["a", "b"]) == [a, b];
    JoinedTwo(a, b);
  }

  lemma KnownString(e: Encoder)
    ensures Canon(e, JString("x\n")) == "\"x\\n\"" && EscapeAll(e, "a") == "a" && EscapeAll(e, "b") == "b"
  {
    assert "x\n"[1..] == "\n" && "a"[1..] == "" && "b"[1..] == "" && "\n"[1..] == "";
    assert EscapeAll(e, "\n") == Escape(e, '\n') + EscapeAll(e, "");
  }

  lemma KnownArray(e: Encoder)
    ensures Canon(e, SAMPLE.members["b"]) == "[1,-20,true]"
  {
    hide NumberText, Joined;
    KnownIntegers(e);
    var items := SAMPLE.members["b"].items;
    ArrayText(e, items);
    assert Items(e, items) == ["1", "-20", "true"];
    JoinedThree("1", "-20", "true");
  }

  lemma JoinedTwo(a: string, b: string)
    ensures Joined([a, b]) == a + "," + b
  {
    assert [a, b][..1] == [a];
  }

  lemma JoinedThree(a: string, b: string, c: string)
    ensures Joined([a, b, c]) == a + "," + b + "," + c
  {
    JoinedTwo(a, b);
    assert [a, b, c][..2] == [a, b];
  }
}
