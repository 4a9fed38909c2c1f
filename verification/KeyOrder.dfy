/**
 The order in which object keys are written. Go, Rust and Python sort by code
 point; JavaScript sorts by UTF-16 code unit (section 3.2.3 of RFC 8785).
*/
module KeyOrder {
  import opened JsonText

  function CharUnits(e: Encoder, c: char): (u: seq<nat>)
    ensures u != []
  {
    var n := c as int;
    if e.TypeScript? && n >= 0x1_0000
    then [0xD800 + (n - 0x1_0000) / 0x400, 0xDC00 + (n - 0x1_0000) % 0x400]
    else [n]
  }

  function Units(e: Encoder, s: string): seq<nat> {
    if s == [] then [] else CharUnits(e, s[0]) + Units(e, s[1..])
  }

  predicate LexBefore(a: seq<nat>, b: seq<nat>) {
    b != [] && (a == [] || a[0] < b[0] || (a[0] == b[0] && LexBefore(a[1..], b[1..])))
  }

  predicate Before(e: Encoder, a: string, b: string) {
    LexBefore(Units(e, a), Units(e, b))
  }

  predicate Sorted(e: Encoder, ks: seq<string>) {
    forall i, j | 0 <= i < j < |ks| :: Before(e, ks[i], ks[j])
  }

  /** `ks` lists exactly the keys in `keys`, each once, in the encoder's order. */
  ghost predicate IsListing(e: Encoder, ks: seq<string>, keys: set<string>) {
    Sorted(e, ks) && forall k :: k in ks <==> k in keys
  }

  // ----- the order is a strict total order -------------------------------------

  lemma {:induction false} LexTransitive(a: seq<nat>, b: seq<nat>, c: seq<nat>)
    requires LexBefore(a, b) && LexBefore(b, c)
    ensures LexBefore(a, c)
  {
    if a != [] && a[0] == b[0] == c[0] {
      LexTransitive(a[1..], b[1..], c[1..]);
    }
  }

  lemma {:induction false} LexIrreflexive(a: seq<nat>)
    ensures !LexBefore(a, a)
  {
    if a != [] {
      LexIrreflexive(a[1..]);
    }
  }

  lemma {:induction false} LexTotal(a: seq<nat>, b: seq<nat>)
    ensures a == b || LexBefore(a, b) || LexBefore(b, a)
  {
    if a != [] && b != [] && a[0] == b[0] {
      LexTotal(a[1..], b[1..]);
      assert a == [a[0]] + a[1..] && b == [b[0]] + b[1..];
    }
  }

  lemma {:induction false} UnitsInjective(e: Encoder, a: string, b: string)
    requires Units(e, a) == Units(e, b)
    ensures a == b
  {
    if a != [] && b != [] {
      var u := Units(e, a);
      var ca, cb := CharUnits(e, a[0]), CharUnits(e, b[0]);
      assert u[0] == ca[0] == cb[0];
      assert |ca| == |cb|;
      assert ca == u[..|ca|] == cb;
      assert Units(e, a[1..]) == u[|ca|..] == Units(e, b[1..]);
      UnitsInjective(e, a[1..], b[1..]);
      assert a == [a[0]] + a[1..] && b == [b[0]] + b[1..];
    }
  }

  lemma BeforeTotal(e: Encoder, a: string, b: string)
    requires a != b
    ensures Before(e, a, b) != Before(e, b, a)
  {
    LexTotal(Units(e, a), Units(e, b));
    if Units(e, a) == Units(e, b) {
      UnitsInjective(e, a, b);
    }
    if Before(e, a, b) && Before(e, b, a) {
      LexTransitive(Units(e, a), Units(e, b), Units(e, a));
      LexIrreflexive(Units(e, a));
    }
  }

  // ----- sorting ------------------------------------------------------------------

  /** Puts `k` at its place in a sorted list that does not hold it. */
  function Insert(e: Encoder, k: string, ks: seq<string>): (r: seq<string>)
    requires Sorted(e, ks) && k !in ks
    ensures Sorted(e, r) && forall x :: x in r <==> x == k || x in ks
  {
    if ks == [] then [k]
    else if Before(e, k, ks[0]) then
      assert Sorted(e, [k] + ks) by {
        forall j | 0 < j < |ks| ensures Before(e, k, ks[j]) {
          LexTransitive(Units(e, k), Units(e, ks[0]), Units(e, ks[j]));
        }
      }
      [k] + ks
    else
      var t := Insert(e, k, ks[1..]);
      assert Sorted(e, [ks[0]] + t) by {
        BeforeTotal(e, k, ks[0]);
        forall j | 0 <= j < |t| ensures Before(e, ks[0], t[j]) {
          assert t[j] in t;
          assert t[j] == k || t[j] in ks[1..];
        }
      }
      [ks[0]] + t
  }

  ghost function SortedKeys(e: Encoder, keys: set<string>): (ks: seq<string>)
    ensures IsListing(e, ks, keys)
  {
    if keys == {} then []
    else
      var k :| k in keys;
      Insert(e, k, SortedKeys(e, keys - {k}))
  }

  lemma HasMember(ks: seq<string>)
    ensures ks != [] ==> exists k :: k in ks
  {
    assert ks != [] ==> ks[0] in ks;
  }

  /** A key set has one sorted listing, so the text of an object cannot depend on
      the order in which its members were listed. */
  lemma {:induction false} ListingIsUnique(e: Encoder, a: seq<string>, b: seq<string>)
    requires Sorted(e, a) && Sorted(e, b)
    requires forall k :: k in a <==> k in b
    ensures a == b
  {
    if a == [] {
      HasMember(b);
    } else {
      assert a[0] in b && b != [];
      if a[0] != b[0] {
        var i :| 0 < i < |b| && b[i] == a[0];
        assert b[0] in a;
        var j :| 0 < j < |a| && a[j] == b[0];
        BeforeTotal(e, a[0], b[0]);
        assert false;
      }
      LexIrreflexive(Units(e, a[0]));
      assert a[0] !in a[1..] && b[0] !in b[1..];
      assert forall k :: k in a <==> k == a[0] || k in a[1..];
      assert forall k :: k in b <==> k == b[0] || k in b[1..];
      ListingIsUnique(e, a[1..], b[1..]);
      assert a == [a[0]] + a[1..] && b == [b[0]] + b[1..];
    }
  }

  // ----- which of two keys comes first ---------------------------------------------

  /** Which of two characters comes first: the smaller code point; but where keys are sorted by
      UTF-16 unit, a character beyond U+FFFF is written as surrogates, which lie below U+E000. */
  predicate CharBefore(e: Encoder, c: char, d: char) {
    if e.TypeScript? && c as int >= 0x1_0000 > d as int then d as int >= 0xE000
    else if e.TypeScript? && d as int >= 0x1_0000 > c as int then (c as int) < 0xD800
    else c < d
  }

  lemma {:induction false} UnitsAppend(e: Encoder, a: string, b: string)
    ensures Units(e, a + b) == Units(e, a) + Units(e, b)
  {
    if a == [] {
      assert a + b == b;
    } else {
      UnitsAppend(e, a[1..], b);
      assert (a + b)[1..] == a[1..] + b;
    }
  }

  lemma {:induction false} LexSkip(p: seq<nat>, u: seq<nat>, v: seq<nat>)
    ensures LexBefore(p + u, p + v) <==> LexBefore(u, v)
  {
    if p == [] {
      assert p + u == u && p + v == v;
    } else {
      LexSkip(p[1..], u, v);
      assert (p + u)[1..] == p[1..] + u && (p + v)[1..] == p[1..] + v;
    }
  }

  lemma LexHeads(u: seq<nat>, v: seq<nat>)
    requires u != [] && v != [] && u[0] != v[0]
    ensures LexBefore(u, v) <==> u[0] < v[0]
  {
  }

  lemma FirstUnits(e: Encoder, c: char, s: string, d: char, t: string)
    requires c != d
    ensures LexBefore(CharUnits(e, c) + Units(e, s), CharUnits(e, d) + Units(e, t)) <==> CharBefore(e, c, d)
  {
    var u, v := CharUnits(e, c) + Units(e, s), CharUnits(e, d) + Units(e, t);
    if u[0] != v[0] {
      LexHeads(u, v);
    } else {
      assert u == [u[0]] + u[1..] && v == [u[0]] + v[1..];
      LexSkip([u[0]], u[1..], v[1..]);
      LexHeads(u[1..], v[1..]);
    }
  }

  /** The order of keys, exactly: a key comes before those it is a proper prefix of, and otherwise
      the first character in which two keys differ decides. */
  lemma BeforeExactly(e: Encoder, a: string, c: char, s: string, d: char, t: string)
    requires c != d
    ensures Before(e, a + [c] + s, a + [d] + t) <==> CharBefore(e, c, d)
    ensures Before(e, a, a + [c] + s) && !Before(e, a + [c] + s, a)
  {
    var u, v := Units(e, [c] + s), Units(e, [d] + t);
    assert a + [c] + s == a + ([c] + s) && a + [d] + t == a + ([d] + t);
    UnitsAppend(e, a, [c] + s);
    UnitsAppend(e, a, [d] + t);
    assert ([c] + s)[1..] == s && ([d] + t)[1..] == t;
    LexSkip(Units(e, a), u, v);
    LexSkip(Units(e, a), [], u);
    LexSkip(Units(e, a), u, []);
    assert Units(e, a) + [] == Units(e, a);
    FirstUnits(e, c, s, d, t);
  }

  /** Any two different keys are in one of these positions. */
  lemma {:induction false} KeysDiffer(a: string, b: string) returns (k: nat)
    requires a != b
    ensures k <= |a| && k <= |b| && a[..k] == b[..k]
    ensures (k < |a| && k < |b| && a[k] != b[k]) || (k == |a| < |b|) || (k == |b| < |a|)
  {
    if a == [] || b == [] || a[0] != b[0] {
      k := 0;
    } else {
      assert a == [a[0]] + a[1..] && b == [b[0]] + b[1..];
      k := KeysDiffer(a[1..], b[1..]);
      k := k + 1;
      assert a[..k] == [a[0]] + a[1..][..k - 1] && b[..k] == [b[0]] + b[1..][..k - 1];
    }
  }

  /** The two orders differ: U+FF61 comes before U+10000 by code point, after it by UTF-16 unit. */
  lemma OrdersDiffer()
    ensures Before(Python, "\U{FF61}", "\U{10000}") && Before(TypeScript, "\U{10000}", "\U{FF61}")
  {
    assert "" + ['\U{FF61}'] + "" == "\U{FF61}" && "" + ['\U{10000}'] + "" == "\U{10000}";
    BeforeExactly(Python, "", '\U{FF61}', "", '\U{10000}', "");
    BeforeExactly(TypeScript, "", '\U{10000}', "", '\U{FF61}', "");
  }
}
