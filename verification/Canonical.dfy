/**
 The canonical printer on which every hash and signature of the protocol rests,
 a reader that undoes it, and the encoders' own loops.
*/
module Canonical {
  import opened Basics
  import opened Doubles
  import opened JsonText
  import opened KeyOrder

  // ----- the printer ---------------------------------------------------------------

  ghost function Canon(e: Encoder, v: JSON): string
    decreases v, 1
  {
    match v
    case JNull => "null"
    case JBool(b) => if b then "true" else "false"
    case JInt(n) => NumberText(e, n)
    case JString(s) => Quote(e, s)
    case JArray(items) => "[" + ItemsText(e, items) + "]"
    case JObject(m) => "{" + MembersText(e, v, SortedKeys(e, m.Keys)) + "}"
  }

  /** The items of an array, separated by commas. */
  ghost function ItemsText(e: Encoder, items: seq<JSON>): string
    decreases items, 0
  {
    if items == [] then ""
    else Canon(e, items[0]) + (if |items| == 1 then "" else "," + ItemsText(e, items[1..]))
  }

  /** The members of object `v` named by `ks`, separated by commas. */
  ghost function MembersText(e: Encoder, v: JSON, ks: seq<string>): string
    requires v.JObject? && forall k | k in ks :: k in v.members
    decreases v, 0, |ks|
  {
    if ks == [] then ""
    else Quote(e, ks[0]) + ":" + Canon(e, v.members[ks[0]])
         + (if |ks| == 1 then "" else "," + MembersText(e, v, ks[1..]))
  }

  ghost predicate NumbersHeld(e: Encoder, v: JSON) {
    match v
    case JInt(n) => HoldsInt(e, n)
    case JArray(items) => forall i | 0 <= i < |items| :: NumbersHeld(e, items[i])
    case JObject(m) => forall k | k in m :: NumbersHeld(e, m[k])
    case _ => true
  }

  /** The values that an encoder can be given: those whose numbers it can hold. Python holds
      every integer. */
  ghost predicate Held(e: Encoder, v: JSON) {
    e.Python? || NumbersHeld(e, v)
  }

  // ----- the reader ----------------------------------------------------------------

  function ParseValue(e: Encoder, s: string): (r: Option<(JSON, string)>)
    ensures r.Some? ==> |r.value.1| < |s|
    decreases |s|, 1
  {
    if s == [] then None
    else if s[0] == 'n' then
      if "null" <= s then Some((JNull, s[4..])) else None
    else if s[0] == 't' then
      if "true" <= s then Some((JBool(true), s[4..])) else None
    else if s[0] == 'f' then
      if "false" <= s then Some((JBool(false), s[5..])) else None
    else if s[0] == '"' then
      match ParseBody(s[1..])
      case None => None
      case Some((t, rest)) => Some((JString(t), rest))
    else if s[0] == '[' then
      if |s| > 1 && s[1] == ']' then Some((JArray([]), s[2..]))
      else
        match ParseItems(e, s[1..])
        case None => None
        case Some((items, rest)) => Some((JArray(items), rest))
    else if s[0] == '{' then
      if |s| > 1 && s[1] == '}' then Some((JObject(map[]), s[2..]))
      else
        match ParseMembers(e, s[1..])
        case None => None
        case Some((m, rest)) => Some((JObject(m), rest))
    else
      match ParseNumber(e, s)
      case None => None
      case Some((n, rest)) => Some((JInt(n), rest))
  }

  /** Reads one or more items and the closing bracket. */
  function ParseItems(e: Encoder, s: string): (r: Option<(seq<JSON>, string)>)
    ensures r.Some? ==> |r.value.1| < |s|
    decreases |s|, 2
  {
    match ParseValue(e, s)
    case None => None
    case Some((v, rest)) =>
      if rest == [] then None
      else if rest[0] == ']' then Some(([v], rest[1..]))
      else if rest[0] == ',' then
        match ParseItems(e, rest[1..])
        case None => None
        case Some((vs, rest')) => Some(([v] + vs, rest'))
      else None
  }

  /** Reads one or more members and the closing brace. */
  function ParseMembers(e: Encoder, s: string): (r: Option<(map<string, JSON>, string)>)
    ensures r.Some? ==> |r.value.1| < |s|
    decreases |s|, 2
  {
    if s == [] || s[0] != '"' then None
    else
      match ParseBody(s[1..])
      case None => None
      case Some((k, rest)) =>
        if rest == [] || rest[0] != ':' then None
        else
          match ParseValue(e, rest[1..])
          case None => None
          case Some((v, rest)) =>
            if rest == [] then None
            else if rest[0] == '}' then Some((map[k := v], rest[1..]))
            else if rest[0] == ',' then
              match ParseMembers(e, rest[1..])
              case None => None
              case Some((m, rest')) => Some((map[k := v] + m, rest'))
            else None
  }

  // ----- the reader undoes the printer ------------------------------------------------

  /** What may follow a value inside a text: nothing, or a delimiter. */
  predicate Delimited(rest: string) {
    rest == [] || rest[0] == ',' || rest[0] == ']' || rest[0] == '}'
  }

  /** No value's text starts with a closing bracket or brace. */
  lemma CanonStart(e: Encoder, v: JSON)
    ensures Canon(e, v) != [] && Canon(e, v)[0] != ']' && Canon(e, v)[0] != '}'
  {
    if v.JInt? {
      NumberStart(e, v.n);
    }
  }

  /** Reading the canonical text of a value gives back the value and all that follows it. */
  lemma {:induction false} CanonInverts(e: Encoder, v: JSON, rest: string)
    requires Held(e, v) && Delimited(rest)
    ensures ParseValue(e, Canon(e, v) + rest) == Some((v, rest))
    decreases v, 1
  {
    match v
    case JNull => ScalarInverts(e, v, rest);
    case JBool(_) => ScalarInverts(e, v, rest);
    case JInt(_) => ScalarInverts(e, v, rest);
    case JString(_) => ScalarInverts(e, v, rest);
    case JArray(items) =>
      if items != [] {
        ItemsInvert(e, items, rest);
      }
      ArrayInverts(e, items, rest);
    case JObject(m) =>
      if m != map[] {
        MembersInvert(e, v, SortedKeys(e, m.Keys), rest);
      }
      ObjectInverts(e, v, rest);
  }

  lemma ScalarInverts(e: Encoder, v: JSON, rest: string)
    requires Held(e, v) && Delimited(rest) && !v.JArray? && !v.JObject?
    ensures ParseValue(e, Canon(e, v) + rest) == Some((v, rest))
  {
    hide ParseValue;
    match v
    case JNull => WordInverts(e, "null", rest);
    case JBool(b) => WordInverts(e, if b then "true" else "false", rest);
    case JInt(n) =>
      hide NumberText, ParseNumber;
      NumberInverts(e, n, rest);
      NumberStart(e, n);
      ParseIntStep(e, NumberText(e, n) + rest);
    case JString(t) => StringInverts(e, t, rest);
  }

  lemma StringInverts(e: Encoder, t: string, rest: string)
    ensures ParseValue(e, Canon(e, JString(t)) + rest) == Some((JString(t), rest))
  {
    hide ParseValue, ParseBody, EscapeAll;
    var s := "\"" + (EscapeAll(e, t) + "\"" + rest);
    assert Canon(e, JString(t)) + rest == s;
    QuoteInverts(e, t, rest);
    ParseStringStep(e, s);
    assert s[1..] == EscapeAll(e, t) + "\"" + rest;
  }

  lemma WordInverts(e: Encoder, word: string, rest: string)
    requires word == "null" || word == "true" || word == "false"
    ensures ParseValue(e, word + rest) == Some((if word == "null" then JNull else JBool(word == "true"), rest))
  {
    hide ParseBody, ParseNumber, ParseItems, ParseMembers;
    var s := word + rest;
    assert s[0] == word[0] && word <= s && s[|word|..] == rest;
  }

  /** One step of the value reader at a sign or digit. */
  lemma ParseIntStep(e: Encoder, s: string)
    requires s != [] && (s[0] == '-' || IsDigit(s[0])) && ParseNumber(e, s).Some?
    ensures ParseValue(e, s) == Some((JInt(ParseNumber(e, s).value.0), ParseNumber(e, s).value.1))
  {
    hide ParseBody, ParseNumber, ParseItems, ParseMembers;
  }

  /** One step of the value reader at a quotation mark. */
  lemma ParseStringStep(e: Encoder, s: string)
    requires s != [] && s[0] == '"'
    ensures ParseBody(s[1..]).Some? ==>
      ParseValue(e, s) == Some((JString(ParseBody(s[1..]).value.0), ParseBody(s[1..]).value.1))
  {
    hide ParseBody, ParseNumber, ParseItems, ParseMembers;
  }

  lemma ArrayInverts(e: Encoder, items: seq<JSON>, rest: string)
    requires items != [] ==> ParseItems(e, ItemsText(e, items) + "]" + rest) == Some((items, rest))
    ensures ParseValue(e, Canon(e, JArray(items)) + rest) == Some((JArray(items), rest))
  {
    hide ParseValue, ParseItems;
    var body := ItemsText(e, items);
    var s := "[" + (body + "]" + rest);
    assert Canon(e, JArray(items)) + rest == s;
    ItemsStart(e, items);
    hide ItemsText, Canon;
    ParseArrayStep(e, s);
    assert s[1..] == body + "]" + rest;
    if items == [] {
      assert s[1..][1..] == rest;
    } else {
      assert s[1] == body[0];
    }
  }

  lemma ItemsStart(e: Encoder, items: seq<JSON>)
    ensures items == [] ==> ItemsText(e, items) == ""
    ensures items != [] ==> ItemsText(e, items) != "" && ItemsText(e, items)[0] != ']'
  {
    if items != [] {
      CanonStart(e, items[0]);
      hide Canon;
    }
  }

  /** One step of the value reader at an opening bracket. */
  lemma ParseArrayStep(e: Encoder, s: string)
    requires |s| > 1 && s[0] == '['
    ensures s[1] == ']' ==> ParseValue(e, s) == Some((JArray([]), s[1..][1..]))
    ensures s[1] != ']' && ParseItems(e, s[1..]).Some? ==>
      ParseValue(e, s) == Some((JArray(ParseItems(e, s[1..]).value.0), ParseItems(e, s[1..]).value.1))
  {
    hide ParseBody, ParseNumber, ParseItems, ParseMembers;
    assert s[1..][1..] == s[2..];
  }

  lemma ObjectInverts(e: Encoder, v: JSON, rest: string)
    requires v.JObject?
    requires var ks := SortedKeys(e, v.members.Keys);
      ks != [] ==> ParseMembers(e, MembersText(e, v, ks) + "}" + rest) == Some((Picked(v, ks), rest))
    ensures ParseValue(e, Canon(e, v) + rest) == Some((v, rest))
  {
    hide ParseMembers, ParseValue;
    var ks := SortedKeys(e, v.members.Keys);
    var body := MembersText(e, v, ks);
    var s := "{" + (body + "}" + rest);
    assert Canon(e, v) + rest == s;
    assert v.members == Picked(v, ks);
    MembersStart(e, v, ks);
    hide MembersText, Canon, SortedKeys, Picked;
    ParseObjectStep(e, s);
    assert s[1..] == body + "}" + rest;
    if ks == [] {
      NoneNamed(v);
      assert s[1..][1..] == rest;
    } else {
      assert s[1] == body[0];
    }
  }

  lemma NoneNamed(v: JSON)
    requires v.JObject? && v.members == Picked(v, [])
    ensures v == JObject(map[])
  {
  }

  lemma MembersStart(e: Encoder, v: JSON, ks: seq<string>)
    requires v.JObject? && forall k | k in ks :: k in v.members
    ensures ks == [] ==> MembersText(e, v, ks) == ""
    ensures ks != [] ==> MembersText(e, v, ks) != "" && MembersText(e, v, ks)[0] == '"'
  {
    if ks != [] {
      assert Quote(e, ks[0])[0] == '"';
    }
  }

  /** One step of the value reader at an opening brace. */
  lemma ParseObjectStep(e: Encoder, s: string)
    requires |s| > 1 && s[0] == '{'
    ensures s[1] == '}' ==> ParseValue(e, s) == Some((JObject(map[]), s[1..][1..]))
    ensures s[1] != '}' && ParseMembers(e, s[1..]).Some? ==>
      ParseValue(e, s) == Some((JObject(ParseMembers(e, s[1..]).value.0), ParseMembers(e, s[1..]).value.1))
  {
    hide ParseBody, ParseNumber, ParseItems, ParseMembers;
    assert s[1..][1..] == s[2..];
  }

  /** One step of the item reader. */
  lemma ParseItemsStep(e: Encoder, s: string, v: JSON, tail: string)
    requires ParseValue(e, s) == Some((v, tail)) && tail != []
    ensures tail[0] == ']' ==> ParseItems(e, s) == Some(([v], tail[1..]))
    ensures tail[0] == ',' && ParseItems(e, tail[1..]).Some? ==>
      ParseItems(e, s) == Some(([v] + ParseItems(e, tail[1..]).value.0, ParseItems(e, tail[1..]).value.1))
  {
  }

  lemma {:induction false} ItemsInvert(e: Encoder, items: seq<JSON>, rest: string)
    requires items != [] && forall i | 0 <= i < |items| :: Held(e, items[i])
    ensures ParseItems(e, ItemsText(e, items) + "]" + rest) == Some((items, rest))
    decreases items, 0
  {
    hide ParseItems, ParseValue, Canon, Held, ItemsText;
    var s, tail := ItemsText(e, items) + "]" + rest, ItemsTail(e, items, rest);
    ItemsShape(e, items, rest);
    CanonInverts(e, items[0], tail);
    ParseItemsStep(e, s, items[0], tail);
    if |items| == 1 {
      assert items == [items[0]];
    } else {
      ItemsInvert(e, items[1..], rest);
      assert items == [items[0]] + items[1..];
    }
  }

  /** What follows the first item of an array in a text that goes on with `rest`. */
  ghost function ItemsTail(e: Encoder, items: seq<JSON>, rest: string): string
    requires items != []
  {
    if |items| == 1 then "]" + rest else "," + (ItemsText(e, items[1..]) + "]" + rest)
  }

  lemma ItemsShape(e: Encoder, items: seq<JSON>, rest: string)
    requires items != []
    ensures var tail := ItemsTail(e, items, rest);
      ItemsText(e, items) + "]" + rest == Canon(e, items[0]) + tail && Delimited(tail)
      && tail[1..] == if |items| == 1 then rest else ItemsText(e, items[1..]) + "]" + rest
  {
    hide Canon;
  }

  /** The members of object `v` that `ks` names. */
  function Picked(v: JSON, ks: seq<string>): map<string, JSON>
    requires v.JObject? && forall k | k in ks :: k in v.members
  {
    map k | k in ks :: v.members[k]
  }

  lemma PickedSplits(v: JSON, ks: seq<string>)
    requires v.JObject? && ks != [] && forall k | k in ks :: k in v.members
    ensures |ks| == 1 ==> Picked(v, ks) == map[ks[0] := v.members[ks[0]]]
    ensures Picked(v, ks) == map[ks[0] := v.members[ks[0]]] + Picked(v, ks[1..])
  {
  }

  /** One step of the member reader. */
  lemma ParseMembersStep(e: Encoder, s: string, k: string, v: JSON, colon: string, tail: string)
    requires s != [] && s[0] == '"' && ParseBody(s[1..]) == Some((k, colon))
    requires colon != [] && colon[0] == ':' && ParseValue(e, colon[1..]) == Some((v, tail)) && tail != []
    ensures tail[0] == '}' ==> ParseMembers(e, s) == Some((map[k := v], tail[1..]))
    ensures tail[0] == ',' && ParseMembers(e, tail[1..]).Some? ==>
      ParseMembers(e, s) == Some((map[k := v] + ParseMembers(e, tail[1..]).value.0, ParseMembers(e, tail[1..]).value.1))
  {
  }

  lemma {:induction false} MembersInvert(e: Encoder, v: JSON, ks: seq<string>, rest: string)
    requires Held(e, v) && v.JObject? && ks != [] && forall k | k in ks :: k in v.members
    ensures ParseMembers(e, MembersText(e, v, ks) + "}" + rest) == Some((Picked(v, ks), rest))
    decreases v, 0, |ks|
  {
    hide ParseMembers, ParseValue, ParseBody, Canon, MembersText, EscapeAll, Picked;
    var k, x, more := ks[0], v.members[ks[0]], MoreMembers(e, v, ks[1..]);
    var s, tail := MembersText(e, v, ks) + "}" + rest, more + "}" + rest;
    var colon := ":" + (Canon(e, x) + tail);
    MembersShape(e, v, ks, rest);
    QuoteInverts(e, k, colon);
    assert colon[1..] == Canon(e, x) + tail;
    CanonInverts(e, x, tail);
    ParseMembersStep(e, s, k, x, colon, tail);
    PickedSplits(v, ks);
    if |ks| == 1 {
      assert tail[1..] == rest;
    } else {
      MembersInvert(e, v, ks[1..], rest);
      assert tail[1..] == MembersText(e, v, ks[1..]) + "}" + rest;
    }
  }

  /** What follows the first member in the text of a member list. */
  ghost function MoreMembers(e: Encoder, v: JSON, ks: seq<string>): string
    requires v.JObject? && forall k | k in ks :: k in v.members
  {
    if ks == [] then "" else "," + MembersText(e, v, ks)
  }

  /** The text of a member list, cut where the reader cuts it. */
  lemma MembersShape(e: Encoder, v: JSON, ks: seq<string>, rest: string)
    requires v.JObject? && ks != [] && forall k | k in ks :: k in v.members
    ensures var s := MembersText(e, v, ks) + "}" + rest;
      s != [] && s[0] == '"'
      && s[1..] == EscapeAll(e, ks[0]) + "\"" + (":" + (Canon(e, v.members[ks[0]])
                                                      + (MoreMembers(e, v, ks[1..]) + "}" + rest)))
  {
    var body, value := EscapeAll(e, ks[0]), Canon(e, v.members[ks[0]]);
    var more := MoreMembers(e, v, ks[1..]);
    assert MembersText(e, v, ks) == "\"" + body + "\"" + ":" + value + more by {
      hide Canon, EscapeAll;
      assert more == if |ks| == 1 then "" else "," + MembersText(e, v, ks[1..]);
    }
    Regroup(body, value, more, rest);
  }

  lemma Regroup(body: string, value: string, more: string, rest: string)
    ensures var s := "\"" + body + "\"" + ":" + value + more + "}" + rest;
      s[0] == '"' && s[1..] == body + "\"" + (":" + (value + (more + "}" + rest)))
  {
  }

  /** Canonical encoding is faithful, large doubles included: one text, one value (a dict being the same
      value in whatever order its members are listed). */
  lemma CanonInjective(e: Encoder, v: JSON, w: JSON)
    requires Held(e, v) && Held(e, w)
    ensures Canon(e, v) == Canon(e, w) <==> v == w
  {
    CanonInverts(e, v, []);
    CanonInverts(e, w, []);
    assert Canon(e, v) + [] == Canon(e, v) && Canon(e, w) + [] == Canon(e, w);
  }
}
