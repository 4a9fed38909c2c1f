/**
 The encoders as they run: Go and Rust append to a buffer in loops, and read the
 keys of a map in no particular order before sorting them. Each is proved against
 the printer `Canon`.
*/
module CanonicalEncoders {
  import opened JsonText
  import opened KeyOrder
  import opened Canonical

  predicate Distinct(ks: seq<string>) {
    forall i, j | 0 <= i < j < |ks| :: ks[i] != ks[j]
  }

  /** The library sort that puts collected keys in order. */
  function SortStrings(e: Encoder, ks: seq<string>): (r: seq<string>)
    requires Distinct(ks)
    ensures Sorted(e, r) && forall k :: k in r <==> k in ks
  {
    if ks == [] then [] else Insert(e, ks[0], SortStrings(e, ks[1..]))
  }

  method CanonicalJson(e: Encoder, v: JSON) returns (out: string)
    ensures out == Canon(e, v)
    decreases v, 1
  {
    match v
    case JNull => out := "null";
    case JBool(b) => out := if b then "true" else "false";
    case JInt(n) => out := NumberText(e, n);
    case JString(s) => out := Quote(e, s);
    case JArray(a) => out := CanonicalArray(e, v, a);
    case JObject(m) => out := CanonicalObject(e, v, m);
  }

  // The text still to come after `i` of the items (members) are written.

  ghost function ItemsAhead(e: Encoder, a: seq<JSON>, i: nat): string
    requires i <= |a|
  {
    if i == |a| then "" else (if i > 0 then "," else "") + ItemsText(e, a[i..])
  }

  lemma ItemsAheadStep(e: Encoder, a: seq<JSON>, i: nat)
    requires i < |a|
    ensures ItemsAhead(e, a, i) == (if i > 0 then "," else "") + Canon(e, a[i]) + ItemsAhead(e, a, i + 1)
  {
    hide Canon;
    assert a[i..][1..] == a[i + 1..];
  }

  ghost function MembersAhead(e: Encoder, v: JSON, ks: seq<string>, i: nat): string
    requires v.JObject? && i <= |ks| && forall k | k in ks :: k in v.members
  {
    if i == |ks| then "" else (if i > 0 then "," else "") + MembersText(e, v, ks[i..])
  }

  ghost function MemberText(e: Encoder, v: JSON, k: string): string
    requires v.JObject? && k in v.members
  {
    Quote(e, k) + ":" + Canon(e, v.members[k])
  }

  lemma MembersAheadStep(e: Encoder, v: JSON, ks: seq<string>, i: nat)
    requires v.JObject? && i < |ks| && forall k | k in ks :: k in v.members
    ensures MembersAhead(e, v, ks, i)
         == (if i > 0 then "," else "") + MemberText(e, v, ks[i]) + MembersAhead(e, v, ks, i + 1)
  {
    hide Canon, Quote;
    assert ks[i..][1..] == ks[i + 1..];
  }

  /** The text of an array up to its closing bracket. */
  ghost function ArrayPrefix(e: Encoder, a: seq<JSON>): (t: string)
    ensures Canon(e, JArray(a)) == t + "]" && Written(t, "[", ItemsAhead(e, a, 0))
    ensures forall out | Written(t, out, ItemsAhead(e, a, |a|)) :: out == t
  {
    assert a[0..] == a;
    "[" + ItemsText(e, a)
  }

  /** The text of an object up to its closing brace. */
  ghost function ObjectPrefix(e: Encoder, v: JSON, ks: seq<string>): string
    requires v.JObject? && forall k | k in ks :: k in v.members
  {
    "{" + MembersText(e, v, ks)
  }

  lemma ObjectPrefixSplits(e: Encoder, v: JSON, ks: seq<string>)
    requires v.JObject? && ks == SortedKeys(e, v.members.Keys)
    ensures var t := ObjectPrefix(e, v, ks);
      && Canon(e, v) == t + "}" && Written(t, "{", MembersAhead(e, v, ks, 0))
      && forall out | Written(t, out, MembersAhead(e, v, ks, |ks|)) :: out == t
  {
    hide MembersText, SortedKeys;
    MembersStart(e, v, ks);
    assert ks[0..] == ks;
  }

  /** `text` is what has been written followed by what is still ahead. */
  ghost predicate Written(text: string, out: string, ahead: string) {
    text == out + ahead
  }

  lemma WriteNext(text: string, out: string, sep: string, b: string, ahead: string)
    requires Written(text, out, sep + b + ahead)
    ensures Written(text, out + sep + b, ahead)
  {
    assert out + sep + b + ahead == out + (sep + b + ahead);
  }

  method CanonicalArray(e: Encoder, ghost v: JSON, a: seq<JSON>) returns (out: string)
    requires v == JArray(a)
    ensures out == Canon(e, v)
    decreases v, 0
  {
    ghost var text := ArrayPrefix(e, a);
    hide *;
    out := "[";
    for i := 0 to |a|
      invariant Written(text, out, ItemsAhead(e, a, i))
    {
      ItemsAheadStep(e, a, i);
      ghost var start, sep := out, if i > 0 then "," else "";
      if i > 0 {
        out := out + ",";
      }
      assert out == start + sep;
      var b := CanonicalJson(e, a[i]);
      out := out + b;
      WriteNext(text, start, sep, b, ItemsAhead(e, a, i + 1));
    }
    out := out + "]";
  }

  method CanonicalObject(e: Encoder, ghost v: JSON, m: map<string, JSON>) returns (out: string)
    requires v == JObject(m)
    ensures out == Canon(e, v)
    decreases v, 0, 1
  {
    var keys := SortedKeyList(e, m);
    assert forall k | k in keys :: k in m;
    ghost var text := ObjectPrefix(e, v, keys);
    ObjectPrefixSplits(e, v, keys);
    hide *;
    out := "{";
    for i := 0 to |keys|
      invariant Written(text, out, MembersAhead(e, v, keys, i))
    {
      MembersAheadStep(e, v, keys, i);
      ghost var start, sep := out, if i > 0 then "," else "";
      if i > 0 {
        out := out + ",";
      }
      assert out == start + sep;
      var b := CanonicalMember(e, v, m, keys[i]);
      out := out + b;
      WriteNext(text, start, sep, b, MembersAhead(e, v, keys, i + 1));
    }
    out := out + "}";
  }

  method CanonicalMember(e: Encoder, ghost v: JSON, m: map<string, JSON>, k: string) returns (out: string)
    requires v == JObject(m) && k in m
    ensures out == MemberText(e, v, k)
    decreases v, 0, 0
  {
    out := Quote(e, k);
    out := out + ":";
    var vj := CanonicalJson(e, m[k]);
    out := out + vj;
  }

  method SortedKeyList(e: Encoder, m: map<string, JSON>) returns (keys: seq<string>)
    ensures keys == SortedKeys(e, m.Keys)
  {
    keys := CollectKeys(m);
    keys := SortStrings(e, keys);
    ListingIsUnique(e, keys, SortedKeys(e, m.Keys));
  }

  /** The keys of a map in whatever order the runtime yields them. */
  method CollectKeys(m: map<string, JSON>) returns (keys: seq<string>)
    ensures Distinct(keys) && forall k :: k in keys <==> k in m
  {
    keys := [];
    var unread := m.Keys;
    while unread != {}
      invariant Distinct(keys)
      invariant forall k :: k in m <==> k in keys || k in unread
      invariant forall k | k in keys :: k !in unread
      decreases unread
    {
      var k :| k in unread;
      keys := keys + [k];
      unread := unread - {k};
    }
  }
}
