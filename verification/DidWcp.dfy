/** The `did:wcp` method: identifiers that carry the public key itself. */
module DidWcp {
  import opened Basics
  import opened Base58

  datatype ResolvedDid = ResolvedDid(did: string, publicKey: seq<byte>, path: Option<string>)

  datatype DidError = NotADid | NotWcp | InvalidIdentifier | WrongKeyLength

  /** Splits at the first `max` colons. */
  function SplitColon(s: string, max: nat): (parts: seq<string>)
    ensures 1 <= |parts| <= max + 1
    decreases max
  {
    var i := FirstColon(s);
    if max == 0 || i == |s| then [s] else [s[..i]] + SplitColon(s[i + 1..], max - 1)
  }

  /** Where the first colon is, or the length when there is none. */
  function FirstColon(s: string): (i: nat)
    ensures i <= |s| && ':' !in s[..i] && (i < |s| ==> s[i] == ':')
  {
    if s == [] || s[0] == ':' then 0
    else
      var i := 1 + FirstColon(s[1..]);
      assert s[..i] == [s[0]] + s[1..][..i - 1];
      i
  }

  ghost function Resolve(did: string): Result<ResolvedDid, DidError> {
    if !("did:" <= did) then Err(NotADid)
    else
      var parts := SplitColon(did, 3);
      if |parts| < 3 || parts[1] != "wcp" then Err(NotWcp)
      else
        match Decode58(parts[2])
        case None => Err(InvalidIdentifier)
        case Some(key) =>
          if |key| != 32 then Err(WrongKeyLength)
          else Ok(ResolvedDid(did, key, if |parts| == 4 then Some(parts[3]) else None))
  }

  /** The identifier of a key; keys of another length are refused. */
  ghost function DidFromPubkey(key: seq<byte>): Option<string> {
    if |key| != 32 then None else Some("did:wcp:" + Encode58(key))
  }

  function PathText(path: Option<string>): string {
    match path
    case None => ""
    case Some(p) => ":" + p
  }

  lemma {:induction false} FirstColonIs(a: string, rest: string)
    requires ':' !in a
    ensures FirstColon(a) == |a| && FirstColon(a + ":" + rest) == |a|
  {
    if a == [] {
      assert (a + ":" + rest)[0] == ':';
    } else {
      assert a[0] in a && (a + ":" + rest)[1..] == a[1..] + ":" + rest;
      FirstColonIs(a[1..], rest);
    }
  }

  lemma SplitAt(a: string, rest: string, max: nat)
    requires ':' !in a && max > 0
    ensures SplitColon(a + ":" + rest, max) == [a] + SplitColon(rest, max - 1)
    ensures SplitColon(a, max) == [a]
  {
    FirstColonIs(a, rest);
    var s := a + ":" + rest;
    assert s[..|a|] == a && s[|a| + 1..] == rest;
  }

  /** Undoing one split. */
  lemma SplitOnce(s: string, max: nat) returns (rest: string)
    requires max > 0
    ensures |SplitColon(s, max)| == 1 ==> SplitColon(s, max) == [s]
    ensures |SplitColon(s, max)| > 1 ==>
      s == SplitColon(s, max)[0] + ":" + rest && SplitColon(s, max)[1..] == SplitColon(rest, max - 1)
  {
    var i := FirstColon(s);
    rest := if i < |s| then s[i + 1..] else "";
    if i < |s| {
      assert s == s[..i] + ":" + rest;
    }
  }

  lemma SplitDid(id: string, path: Option<string>)
    requires ':' !in id
    ensures SplitColon("did:wcp:" + id + PathText(path), 3)
         == ["did", "wcp", id] + (match path case None => [] case Some(p) => [p])
  {
    hide SplitColon;
    var tail := id + PathText(path);
    assert "did:wcp:" + id + PathText(path) == "did" + ":" + ("wcp" + ":" + tail);
    SplitAt("did", "wcp" + ":" + tail, 3);
    SplitAt("wcp", tail, 2);
    SplitTail(id, path);
  }

  lemma SplitTail(id: string, path: Option<string>)
    requires ':' !in id
    ensures SplitColon(id + PathText(path), 1) == [id] + (match path case None => [] case Some(p) => [p])
  {
    match path
    case None =>
      assert id + PathText(path) == id;
      SplitAt(id, "", 1);
    case Some(p) =>
      assert id + PathText(path) == id + ":" + p;
      SplitAt(id, p, 1);
  }

  /** A did that resolves spells `did:wcp:`, the third part, and the path if there is one. */
  lemma SplitShape(did: string)
    requires "did:" <= did && |SplitColon(did, 3)| >= 3 && SplitColon(did, 3)[1] == "wcp"
    ensures var parts := SplitColon(did, 3);
      did == "did:wcp:" + parts[2] + PathText(if |parts| == 4 then Some(parts[3]) else None)
  {
    hide SplitColon;
    var parts := SplitColon(did, 3);
    var t := SplitOnce(did, 3);
    var u := SplitOnce(t, 2);
    assert parts[2..] == parts[1..][1..] == SplitColon(u, 1);
    assert did == "did" + ":" + did[4..];
    SplitAt("did", did[4..], 3);
    SplitLast(u);
    Spell(u, parts[2], PathText(if |parts| == 4 then Some(parts[3]) else None));
  }

  lemma SplitLast(u: string)
    ensures var parts := SplitColon(u, 1);
      u == parts[0] + PathText(if |parts| == 2 then Some(parts[1]) else None)
  {
    var v := SplitOnce(u, 1);
    assert SplitColon(v, 0) == [v];
  }

  lemma Spell(u: string, id: string, suffix: string)
    requires u == id + suffix
    ensures "did" + ":" + ("wcp" + ":" + u) == "did:wcp:" + id + suffix
  {
  }

  /** Resolution, stated without splitting: a did resolves to a key and a path exactly
      when it is the identifier of that 32-byte key followed by that path. */
  lemma ResolveExactly(did: string, key: seq<byte>, path: Option<string>)
    ensures Resolve(did) == Ok(ResolvedDid(did, key, path))
       <==> |key| == 32 && did == "did:wcp:" + Encode58(key) + PathText(path)
  {
    hide SplitColon, Decode58, Encode58;
    if |key| == 32 && did == "did:wcp:" + Encode58(key) + PathText(path) {
      EncodeHasNoColon(key);
      SplitDid(Encode58(key), path);
      DecodeEncode(key);
      assert did[..4] == "did:";
    }
    if Resolve(did) == Ok(ResolvedDid(did, key, path)) {
      SplitShape(did);
      EncodeDecode(SplitColon(did, 3)[2]);
    }
  }

  lemma ResolveKeepsDid(did: string)
    ensures Resolve(did).Ok? ==> Resolve(did).value.did == did
  {
  }

  /** The identifier made from a key resolves back to that key. */
  lemma ResolveDidFromPubkey(key: seq<byte>)
    requires |key| == 32
    ensures DidFromPubkey(key).Some?
    ensures Resolve(DidFromPubkey(key).value) == Ok(ResolvedDid(DidFromPubkey(key).value, key, None))
  {
    assert "did:wcp:" + Encode58(key) == "did:wcp:" + Encode58(key) + PathText(None);
    ResolveExactly(DidFromPubkey(key).value, key, None);
  }

  /** Why a did does not resolve: it is no did; its method is not `wcp`; its identifier has a foreign
      character; or it stands for a key of another length. */
  lemma ResolveErrors(id: string, path: Option<string>)
    requires ':' !in id
    ensures var did := "did:wcp:" + id + PathText(path);
      && (Resolve(did) == Err(InvalidIdentifier) <==> exists i | 0 <= i < |id| :: IndexOf(id[i]).None?)
      && (Resolve(did) == Err(WrongKeyLength) <==> Decode58(id).Some? && |Decode58(id).value| != 32)
      && Resolve(did) != Err(NotADid) && Resolve(did) != Err(NotWcp)
  {
    hide SplitColon, Decode58, Encode58;
    SplitDid(id, path);
    EncodeDecode(id);
    assert ("did:wcp:" + id + PathText(path))[..4] == "did:";
  }

  lemma NotADidExactly(did: string)
    ensures Resolve(did) == Err(NotADid) <==> !("did:" <= did)
  {
    hide SplitColon, Decode58;
  }

  /** Only 32 bytes make an identifier. */
  lemma DidFromPubkeyExactly(key: seq<byte>)
    ensures DidFromPubkey(key) == (if |key| == 32 then Some("did:wcp:" + Encode58(key)) else None)
  {
  }
}
