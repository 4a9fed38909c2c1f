/**
 The SDK encoders are documented to produce the coordinator's text. They do so on
 exactly the values whose characters the encoders escape alike and whose numbers the
 encoders print alike.
*/
module EncoderAgreement {
  import opened Doubles
  import opened JsonText
  import opened KeyOrder
  import opened Canonical

  /** The character `c` occurs in some string or key of `v`. */
  ghost predicate Occurs(v: JSON, c: char) {
    match v
    case JString(s) => c in s
    case JArray(items) => exists i | 0 <= i < |items| :: Occurs(items[i], c)
    case JObject(m) => exists k | k in m :: c in k || Occurs(m[k], c)
    case _ => false
  }

  /** A character that encoder `e` and the Python coordinator write alike. */
  predicate Portable(e: Encoder, c: char) {
    match e
    case Python => true
    case TypeScript => c as int < 0x7f
    case Rust => c as int < 0x7f
    case _ => (c as int < 0x7f && c != '<' && c != '>' && c != '&') || c as int == 0x2028 || c as int == 0x2029
  }

  ghost predicate AllPortable(e: Encoder, v: JSON) {
    forall c | Occurs(v, c) :: Portable(e, c)
  }

  predicate PortableText(e: Encoder, s: string) {
    forall c | c in s :: Portable(e, c)
  }

  /** A number that `e` prints in full as the integer it is: as a double, an integer below 10^21
      to which no decimal with more trailing zeros rounds (`Doubles.DecimalExactly`); in Rust,
      an integer of 64 bits; otherwise any integer. */
  predicate PlainNumber(e: Encoder, n: int) {
    match FormOf(e, n)
    case InFull => true
    case AsDouble => Decimal(Magnitude(n)) == Magnitude(n) < LARGE
    case AsFloat => false
  }

  ghost predicate Plain(e: Encoder, v: JSON) {
    match v
    case JInt(n) => PlainNumber(e, n)
    case JArray(items) => forall i | 0 <= i < |items| :: Plain(e, items[i])
    case JObject(m) => forall k | k in m :: Plain(e, m[k])
    case _ => true
  }

  // ----- portable values are written alike -----------------------------------------

  lemma PortableChar(e: Encoder, c: char)
    requires Portable(e, c)
    ensures Escape(e, c) == Escape(Python, c) && CharUnits(e, c) == CharUnits(Python, c)
  {
    if c as int >= 0x7f {
      assert e.Go? || e.GoDecoded? || e.Python?;
    }
  }

  lemma {:induction false} PortableStrings(e: Encoder, s: string)
    requires PortableText(e, s)
    ensures EscapeAll(e, s) == EscapeAll(Python, s) && Units(e, s) == Units(Python, s)
  {
    hide Escape, CharUnits;
    if s != [] {
      PortableChar(e, s[0]);
      assert s[0] in s && forall c | c in s[1..] :: c in s;
      PortableStrings(e, s[1..]);
    }
  }

  lemma PortableKeys(e: Encoder, keys: set<string>)
    requires forall k | k in keys :: PortableText(e, k)
    ensures SortedKeys(e, keys) == SortedKeys(Python, keys)
  {
    var ks := SortedKeys(Python, keys);
    forall i, j | 0 <= i < j < |ks| ensures Before(e, ks[i], ks[j]) {
      assert ks[i] in keys && ks[j] in keys;
      PortableStrings(e, ks[i]);
      PortableStrings(e, ks[j]);
    }
    ListingIsUnique(e, SortedKeys(e, keys), ks);
  }

  lemma {:induction false} PortableAgree(e: Encoder, v: JSON)
    requires AllPortable(e, v) && Plain(e, v)
    ensures Canon(e, v) == Canon(Python, v)
    decreases v, 1
  {
    match v
    case JNull =>
    case JBool(_) =>
    case JInt(_) =>
    case JString(s) => PortableStrings(e, s);
    case JArray(items) =>
      assert forall i, c | 0 <= i < |items| && Occurs(items[i], c) :: Occurs(v, c);
      PortableItems(e, items);
    case JObject(m) =>
      assert forall k, c | k in m && c in k :: Occurs(v, c);
      assert forall k, c | k in m && Occurs(m[k], c) :: Occurs(v, c);
      PortableKeys(e, m.Keys);
      PortableMembers(e, v, SortedKeys(e, m.Keys));
  }

  lemma {:induction false} PortableItems(e: Encoder, items: seq<JSON>)
    requires forall i | 0 <= i < |items| :: AllPortable(e, items[i]) && Plain(e, items[i])
    ensures ItemsText(e, items) == ItemsText(Python, items)
    decreases items, 0
  {
    if items != [] {
      PortableAgree(e, items[0]);
      PortableItems(e, items[1..]);
    }
  }

  lemma {:induction false} PortableMembers(e: Encoder, v: JSON, ks: seq<string>)
    requires v.JObject? && forall k | k in ks :: k in v.members
    requires forall k | k in v.members :: PortableText(e, k) && AllPortable(e, v.members[k])
    requires Plain(e, v)
    ensures MembersText(e, v, ks) == MembersText(Python, v, ks)
    decreases v, 0, |ks|
  {
    if ks != [] {
      PortableStrings(e, ks[0]);
      PortableAgree(e, v.members[ks[0]]);
      PortableMembers(e, v, ks[1..]);
    }
  }

  // ----- a character that is not portable shows ---------------------------------------

  /** The characters that can appear in a text written by `e`. */
  predicate CanAppear(e: Encoder, c: char) {
    match e
    case Python => c as int < 0x7f
    case TypeScript => true
    case Rust => true
    case _ => c != '<' && c != '>' && c != '&'
  }

  predicate TextOf(e: Encoder, s: string) {
    forall c | c in s :: CanAppear(e, c)
  }

  lemma EscapeText(e: Encoder, c: char)
    ensures TextOf(e, Escape(e, c))
  {
    var u := c as int;
    hide UnicodeEscape;
    if u < 0x1_0000 {
      UnicodeEscapeText(e, u);
    } else {
      UnicodeEscapeText(e, 0xD800 + (u - 0x1_0000) / 0x400);
      UnicodeEscapeText(e, 0xDC00 + (u - 0x1_0000) % 0x400);
    }
  }

  lemma UnicodeEscapeText(e: Encoder, u: nat)
    requires u < 0x1_0000
    ensures TextOf(e, UnicodeEscape(u))
  {
    assert forall n: nat | n < 16 :: CanAppear(e, HexDigit(n));
  }

  lemma {:induction false} QuotedText(e: Encoder, s: string)
    ensures TextOf(e, EscapeAll(e, s))
    ensures forall c | c in s && Escape(e, c) == [c] :: c in EscapeAll(e, s)
  {
    if s != [] {
      hide Escape;
      EscapeText(e, s[0]);
      QuotedText(e, s[1..]);
    }
  }

  lemma NumberTextOf(e: Encoder, n: int)
    ensures TextOf(e, NumberText(e, n))
  {
    var t := NumberText(e, n);
    hide NatText, Decimal, Zeros, Quotient, Pow10, FormOf;
    forall c | c in t ensures CanAppear(e, c) {
      assert IsDigit(c) || c in "-.e+";
    }
  }

  /** Only characters of the encoder's repertoire appear, and every character it writes
      literally does appear. */
  lemma {:induction false} CanonText(e: Encoder, v: JSON)
    ensures TextOf(e, Canon(e, v))
    ensures forall c | Occurs(v, c) && Escape(e, c) == [c] :: c in Canon(e, v)
    decreases v, 1
  {
    hide NumberText, EscapeAll, Escape, SortedKeys;
    match v
    case JNull =>
    case JBool(_) =>
    case JInt(n) => NumberTextOf(e, n);
    case JString(s) => QuotedText(e, s);
    case JArray(items) => ItemsTextOf(e, items);
    case JObject(m) => MembersTextOf(e, v, SortedKeys(e, m.Keys));
  }

  lemma {:induction false} ItemsTextOf(e: Encoder, items: seq<JSON>)
    ensures TextOf(e, ItemsText(e, items))
    ensures forall i, c | 0 <= i < |items| && Occurs(items[i], c) && Escape(e, c) == [c] :: c in ItemsText(e, items)
    decreases items, 0
  {
    if items != [] {
      CanonText(e, items[0]);
      ItemsTextOf(e, items[1..]);
      forall i, c | 0 <= i < |items| && Occurs(items[i], c) && Escape(e, c) == [c]
        ensures c in ItemsText(e, items)
      {
        assert i > 0 ==> items[i] == items[1..][i - 1];
      }
    }
  }

  lemma {:induction false} MembersTextOf(e: Encoder, v: JSON, ks: seq<string>)
    requires v.JObject? && forall k | k in ks :: k in v.members
    ensures TextOf(e, MembersText(e, v, ks))
    ensures forall k, c | k in ks && (c in k || Occurs(v.members[k], c)) && Escape(e, c) == [c] ::
      c in MembersText(e, v, ks)
    decreases v, 0, |ks|
  {
    if ks != [] {
      QuotedText(e, ks[0]);
      CanonText(e, v.members[ks[0]]);
      MembersTextOf(e, v, ks[1..]);
      forall k, c | k in ks && (c in k || Occurs(v.members[k], c)) && Escape(e, c) == [c]
        ensures c in MembersText(e, v, ks)
      {
        assert k == ks[0] || k in ks[1..];
      }
    }
  }

  /** A character that is not portable is written literally by one of the two
      encoders and cannot appear in a text of the other. */
  lemma NotPortableShows(e: Encoder, c: char)
    requires !Portable(e, c)
    ensures (Escape(e, c) == [c] && !CanAppear(Python, c)) || (Escape(Python, c) == [c] && !CanAppear(e, c))
  {
  }

  // ----- a number that is not plain shows -----------------------------------------------

  lemma Cancel(t: string, a: string, b: string)
    requires t + a == t + b
    ensures a == b
  {
    assert (t + a)[|t|..] == a && (t + b)[|t|..] == b;
  }

  lemma CancelBoth(t: string, u: string, a: string, b: string)
    requires t + u + a == t + u + b
    ensures a == b
  {
    Cancel(t + u, a, b);
  }

  lemma MagnitudesAlign(f: Form, m: nat, r: string, r': string)
    requires (f != InFull ==> IsDouble(m)) && NumberEnds(r) && NumberEnds(r')
    requires MagnitudeText(f, m) + r == NatText(m) + r'
    ensures r == r' && MagnitudeText(f, m) == NatText(m)
    ensures f == AsDouble ==> Decimal(m) == m
  {
    hide ParseMagnitude, Decimal, NatText, Nearest, ScaledText, MagnitudeText;
    NatTextInverts(m, r');
    MagnitudeInverts(f, m, r);
    CancelEnd(MagnitudeText(f, m), NatText(m), r);
  }

  lemma CancelEnd(a: string, b: string, r: string)
    requires a + r == b + r
    ensures a == b
  {
    assert (a + r)[..|a|] == a && (b + r)[..|b|] == b;
  }

  /** A text with an exponent is no digit string. */
  lemma ScaledShows(plus: string, n: nat)
    requires plus == "" || plus == "+"
    ensures !(forall i | 0 <= i < |ScaledText(plus, n)| :: IsDigit(ScaledText(plus, n)[i]))
  {
    hide NatText, Decimal, Zeros, Quotient, Pow10;
    var ds, t := NatText(Quotient(Decimal(n), Pow10(Zeros(n)))), ScaledText(plus, n);
    assert t[if |ds| == 1 then 1 else |ds| + 1] == 'e';
  }

  lemma NumbersAlign(e: Encoder, n: int, r: string, r': string)
    requires e != Python ==> HoldsInt(e, n)
    requires NumberEnds(r) && NumberEnds(r')
    requires NumberText(e, n) + r == IntText(n) + r'
    ensures PlainNumber(e, n) && r == r'
  {
    hide NatText, Decimal, Nearest, ScaledText, MagnitudeText;
    var f, m := FormOf(e, n), Magnitude(n);
    CancelFront(Sign(n), MagnitudeText(f, m), r, NatText(m), r');
    MagnitudesAlign(f, m, r, r');
    PlainOf(f, m);
  }

  lemma PlainOf(f: Form, m: nat)
    requires MagnitudeText(f, m) == NatText(m)
    ensures f != AsFloat && (f == AsDouble ==> Decimal(m) < LARGE)
  {
    hide NatText, Decimal, ScaledText;
    ScaledShows("", m);
    ScaledShows("+", m);
  }

  lemma CancelFront(t: string, a: string, r: string, b: string, r': string)
    requires t + a + r == t + b + r'
    ensures a + r == b + r'
  {
    assert t + a + r == t + (a + r) && t + b + r' == t + (b + r');
    Cancel(t, a + r, b + r');
  }

  lemma NumbersOfPython(n: int)
    ensures NumberText(Python, n) == IntText(n)
  {
  }

  /** Where the characters are written alike, the texts can only agree number by number. */
  lemma {:induction false} TextsAlign(e: Encoder, v: JSON, r: string, r': string)
    requires Held(e, v) && AllPortable(e, v) && Delimited(r) && Delimited(r')
    requires Canon(e, v) + r == Canon(Python, v) + r'
    ensures Plain(e, v) && r == r'
    decreases v, 1
  {
    match v
    case JNull => Cancel("null", r, r');
    case JBool(b) => Cancel(if b then "true" else "false", r, r');
    case JInt(n) =>
      NumbersOfPython(n);
      hide NumberText, IntText, Decimal;
      NumbersAlign(e, n, r, r');
    case JString(s) =>
      PortableStrings(e, s);
      Cancel(Quote(e, s), r, r');
    case JArray(items) =>
      assert forall i, c | 0 <= i < |items| && Occurs(items[i], c) :: Occurs(v, c);
      ArrayTail(e, items, r);
      ArrayTail(Python, items, r');
      ItemsAlign(e, items, r, r');
    case JObject(m) =>
      assert forall k, c | k in m && c in k :: Occurs(v, c);
      assert forall k, c | k in m && Occurs(m[k], c) :: Occurs(v, c);
      PortableKeys(e, m.Keys);
      var ks := SortedKeys(Python, m.Keys);
      ObjectTail(e, v, ks, r);
      ObjectTail(Python, v, ks, r');
      MembersAlign(e, v, ks, r, r');
  }

  lemma ArrayTail(e: Encoder, items: seq<JSON>, r: string)
    ensures var s := Canon(e, JArray(items)) + r; s != [] && s[1..] == ItemsText(e, items) + "]" + r
  {
    hide ItemsText;
  }

  lemma ObjectTail(e: Encoder, v: JSON, ks: seq<string>, r: string)
    requires v.JObject? && ks == SortedKeys(e, v.members.Keys)
    ensures var s := Canon(e, v) + r; s != [] && s[1..] == MembersText(e, v, ks) + "}" + r
  {
    hide MembersText, SortedKeys;
  }

  lemma {:induction false} ItemsAlign(e: Encoder, items: seq<JSON>, r: string, r': string)
    requires forall i | 0 <= i < |items| :: Held(e, items[i]) && AllPortable(e, items[i])
    requires ItemsText(e, items) + "]" + r == ItemsText(Python, items) + "]" + r'
    ensures r == r' && forall i | 0 <= i < |items| :: Plain(e, items[i])
    decreases items, 0
  {
    hide Held, AllPortable, Plain, Canon;
    if items == [] {
      CancelBoth("", "]", r, r');
    } else {
      hide ItemsText;
      ItemsShape(e, items, r);
      ItemsShape(Python, items, r');
      TextsAlign(e, items[0], ItemsTail(e, items, r), ItemsTail(Python, items, r'));
      if |items| > 1 {
        ItemsAlign(e, items[1..], r, r');
        assert forall i | 1 <= i < |items| :: items[i] == items[1..][i - 1];
      }
    }
  }

  lemma {:induction false} MembersAlign(e: Encoder, v: JSON, ks: seq<string>, r: string, r': string)
    requires v.JObject? && forall k | k in ks :: k in v.members
    requires forall k | k in v.members :: PortableText(e, k) && AllPortable(e, v.members[k]) && Held(e, v.members[k])
    requires MembersText(e, v, ks) + "}" + r == MembersText(Python, v, ks) + "}" + r'
    ensures r == r' && forall k | k in ks :: Plain(e, v.members[k])
    decreases v, 0, |ks|
  {
    hide Held, AllPortable, Plain, Canon;
    if ks == [] {
      CancelBoth("", "}", r, r');
    } else {
      hide MembersText, EscapeAll, PortableText;
      MembersShape(e, v, ks, r);
      MembersShape(Python, v, ks, r');
      PortableStrings(e, ks[0]);
      var x := v.members[ks[0]];
      var a, b := MoreMembers(e, v, ks[1..]) + "}" + r, MoreMembers(Python, v, ks[1..]) + "}" + r';
      CancelKey(EscapeAll(e, ks[0]), Canon(e, x) + a, Canon(Python, x) + b);
      TextsAlign(e, x, a, b);
      MembersAlignRest(e, v, ks, r, r');
    }
  }

  lemma CancelKey(key: string, a: string, b: string)
    requires key + "\"" + (":" + a) == key + "\"" + (":" + b)
    ensures a == b
  {
    Cancel(key + "\"", ":" + a, ":" + b);
    Cancel(":", a, b);
  }

  lemma {:induction false} MembersAlignRest(e: Encoder, v: JSON, ks: seq<string>, r: string, r': string)
    requires v.JObject? && ks != [] && forall k | k in ks :: k in v.members
    requires forall k | k in v.members :: PortableText(e, k) && AllPortable(e, v.members[k]) && Held(e, v.members[k])
    requires MoreMembers(e, v, ks[1..]) + "}" + r == MoreMembers(Python, v, ks[1..]) + "}" + r'
    requires Plain(e, v.members[ks[0]])
    ensures r == r' && forall k | k in ks :: Plain(e, v.members[k])
    decreases v, 0, |ks|, 0
  {
    hide Held, AllPortable, Plain, Canon, PortableText, MembersText;
    if |ks| == 1 {
      CancelBoth("", "}", r, r');
    } else {
      AfterComma(MembersText(e, v, ks[1..]), r);
      AfterComma(MembersText(Python, v, ks[1..]), r');
      MembersAlign(e, v, ks[1..], r, r');
      assert forall k | k in ks :: k == ks[0] || k in ks[1..];
    }
  }

  lemma AfterComma(t: string, r: string)
    ensures ("," + t + "}" + r)[1..] == t + "}" + r
  {
  }

  /** An SDK encoder writes the coordinator's text for a value it can hold exactly when every
      character of every string and key, and every number, is one that both write alike. */
  lemma AgreementExactly(e: Encoder, v: JSON)
    requires Held(e, v)
    ensures Canon(e, v) == Canon(Python, v) <==> AllPortable(e, v) && Plain(e, v)
  {
    if !AllPortable(e, v) {
      var c :| Occurs(v, c) && !Portable(e, c);
      hide Canon, Occurs, Escape, Held, Plain;
      NotPortableShows(e, c);
      CanonText(e, v);
      CanonText(Python, v);
    } else {
      hide Canon, Occurs, Held, Plain, AllPortable;
      if Canon(e, v) == Canon(Python, v) {
        TextsAlign(e, v, "", "");
      }
      if Plain(e, v) {
        PortableAgree(e, v);
      }
    }
  }

  /** Every number is an integer that a double holds whatever its last digit: below 2^53. */
  ghost predicate Safe(v: JSON) {
    match v
    case JInt(n) => Magnitude(n) < TWO53
    case JArray(items) => forall i | 0 <= i < |items| :: Safe(items[i])
    case JObject(m) => forall k | k in m :: Safe(m[k])
    case _ => true
  }

  /** Safe integers are always held and always print alike: only characters can differ. */
  lemma {:induction false} SafeNumbers(e: Encoder, v: JSON)
    requires Safe(v)
    ensures NumbersHeld(e, v) && Plain(e, v)
  {
    match v
    case JInt(n) => SmallDecimal(Magnitude(n));
    case JArray(items) =>
      forall i | 0 <= i < |items| ensures NumbersHeld(e, items[i]) && Plain(e, items[i]) {
        SafeNumbers(e, items[i]);
      }
    case JObject(m) =>
      forall k | k in m ensures NumbersHeld(e, m[k]) && Plain(e, m[k]) {
        SafeNumbers(e, m[k]);
      }
    case _ =>
  }

  /** The documented equality fails as soon as a payload leaves plain ASCII: an
      accented letter for every SDK, and `<` for Go. */
  lemma AgreementFails()
    ensures forall e: Encoder | e != Python :: Canon(e, JString("\U{e9}")) != Canon(Python, JString("\U{e9}"))
    ensures Canon(Go, JString("<")) != Canon(Python, JString("<"))
  {
    var v, w := JString("\U{e9}"), JString("<");
    assert '\U{e9}' in "\U{e9}" && '<' in "<";
    assert Occurs(v, '\U{e9}') && Occurs(w, '<');
    forall e: Encoder | e != Python ensures Canon(e, v) != Canon(Python, v) {
      AgreementExactly(e, v);
    }
    AgreementExactly(Go, w);
  }

  /** It fails too for integers too large to be told apart as doubles: 2^60 is printed as another
      integer, which as a Go `int64` has that same text, and 10^21 with an exponent. */
  lemma LargeIntegersDiffer(e: Encoder)
    requires HoldsDoubles(e)
    ensures Held(e, JInt(TWO60)) && Canon(e, JInt(TWO60)) != Canon(Python, JInt(TWO60))
    ensures Held(Go, JInt(TWO60_DECIMAL)) && Canon(e, JInt(TWO60)) == Canon(Go, JInt(TWO60_DECIMAL))
    ensures Held(e, JInt(LARGE)) && Canon(e, JInt(LARGE)) != Canon(Python, JInt(LARGE))
  {
    hide Nearest, Decimal, Zeros, Pow10, NatText;
    LargeDecimal();
    PowersAreDoubles();
    AgreementExactly(e, JInt(TWO60));
    AgreementExactly(e, JInt(LARGE));
  }

  /** And for Rust from 2^64 on: such an integer is held as an `f64` and printed with an exponent. */
  lemma LargeRustIntegersDiffer(n: int)
    requires !Fits64(n) && HoldsInt(Rust, n)
    ensures Held(Rust, JInt(n)) && Canon(Rust, JInt(n)) != Canon(Python, JInt(n))
    ensures HoldsInt(Rust, TWO64) && !Fits64(TWO64)
  {
    PowersAreDoubles();
    AgreementExactly(Rust, JInt(n));
  }
}
