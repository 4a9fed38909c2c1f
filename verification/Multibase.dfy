/** The multibase form of `did:wcp` identifiers, read next to the legacy form. */
module Multibase {
  import opened Basics
  import opened Base58
  import opened Radix
  import DidWcp

  const PREFIX := "did:wcp:"

  /** The library decoders of the other encodings; they may be any functions. */
  datatype Codecs = Codecs(base64url: string -> Option<seq<byte>>,
                           base32: string -> Option<seq<byte>>,
                           hex: string -> Option<seq<byte>>)

  /** The bytes an accepted identifier stands for; None where the source raises. */
  ghost function Decode(c: Codecs, identifier: string): Option<seq<byte>> {
    if !(PREFIX <= identifier) then None
    else
      var body := identifier[|PREFIX|..];
      if body == "" then None
      else if body[0] == 'z' then Decode58(body[1..])
      else if body[0] == 'u' then c.base64url(body[1..])
      else if body[0] == 'b' then c.base32(body[1..])
      else if body[0] == 'f' then c.hex(body[1..])
      else Decode58(body)
  }

  ghost function EncodeBase58btc(key: seq<byte>): string {
    PREFIX + "z" + Encode58(key)
  }

  ghost function Canonicalize(c: Codecs, identifier: string): Option<string> {
    match Decode(c, identifier)
    case None => None
    case Some(key) => Some(EncodeBase58btc(key))
  }

  lemma DecodeCanonical(c: Codecs, key: seq<byte>)
    ensures Decode(c, EncodeBase58btc(key)) == Some(key)
  {
    var id := EncodeBase58btc(key);
    assert id[|PREFIX|..] == "z" + Encode58(key);
    assert id[|PREFIX|..][1..] == Encode58(key);
    DecodeEncode(key);
  }

  /** On every identifier it accepts, canonicalizing keeps the key and is idempotent. */
  lemma CanonicalizeIdempotent(c: Codecs, identifier: string)
    requires Canonicalize(c, identifier).Some?
    ensures var x := Canonicalize(c, identifier).value;
      Decode(c, x) == Decode(c, identifier) && Canonicalize(c, x) == Some(x)
  {
    DecodeCanonical(c, Decode(c, identifier).value);
  }

  /** Two accepted identifiers share their canonical form exactly when they share the key. */
  lemma CanonicalKeysIndex(c: Codecs, a: string, b: string)
    requires Decode(c, a).Some? && Decode(c, b).Some?
    ensures Canonicalize(c, a) == Canonicalize(c, b) <==> Decode(c, a) == Decode(c, b)
  {
    DecodeCanonical(c, Decode(c, a).value);
    DecodeCanonical(c, Decode(c, b).value);
  }

  /** A legacy identifier is read as the key it was made from when its text does not start
      with a multibase letter; when it starts with `z` it is never read as that key. */
  lemma LegacyReading(c: Codecs, key: seq<byte>)
    requires key != []
    ensures var text := Encode58(key);
      text != ""
      && (text[0] !in "zubf" ==> Decode(c, PREFIX + text) == Some(key))
      && (text[0] == 'z' ==> Decode(c, PREFIX + text) != Some(key))
  {
    hide Encode58, Decode58;
    DecodeEncode(key);
    var text := Encode58(key);
    if text == "" {
      EmptyDecodes();
    }
    var id := PREFIX + text;
    assert id[|PREFIX|..] == text;
    EncodeDecode(text[1..]);
    assert |text[1..]| < |text|;
  }

  // ----- a key whose legacy identifier is misread ------------------------------------------

  /** 57 * 58^42, the largest digit in front of 42 zeros. */
  ghost function MisreadDigits(): (ds: seq<nat>)
    ensures AreDigits(58, ds) && |ds| == 43 && ds[0] == 57
  {
    [57] + Zeros(42)
  }

  ghost function MisreadText(): string { Text(MisreadDigits()) }

  lemma PowersOf58()
    ensures Pow(58, 42) == 4875194084160298409672704 * 4875194084160298409672704 * 4875194084160298409672704
  {
    assert Pow(58, 7) == 2207984167552;
    PowAdd(58, 7, 7);
    PowAdd(58, 14, 14);
    PowAdd(58, 28, 14);
  }

  lemma PowersOf256()
    ensures Pow(256, 31) == 0x1_0000_0000_0000_0000 * 0x1_0000_0000_0000_0000 * 0x1_0000_0000_0000_0000
                            * 0x100_0000_0000_0000
    ensures Pow(256, 32) == Pow(256, 31) * 256
  {
    assert Pow(256, 4) == 0x1_0000_0000 && Pow(256, 3) == 0x100_0000;
    PowAdd(256, 4, 4);
    PowAdd(256, 8, 8);
    PowAdd(256, 16, 8);
    PowAdd(256, 4, 3);
    PowAdd(256, 24, 7);
  }

  /** The number lies between 256^31 and 256^32. */
  lemma MisreadSize()
    ensures Value(58, MisreadDigits()) == 57 * Pow(58, 42)
    ensures Pow(256, 31) <= 57 * Pow(58, 42) < Pow(256, 32)
  {
    hide Value, Pow;
    ValueOfShifted(58, 57, 42);
    PowersOf58();
    PowersOf256();
  }

  /** There is a 32-byte key whose text in the legacy form starts with `z`, and which the
      multibase module therefore never reads from it. */
  lemma LegacyMisread(c: Codecs) returns (key: seq<byte>)
    ensures |key| == 32 && "z" <= Encode58(key) && Decode(c, PREFIX + Encode58(key)) != Some(key)
  {
    hide Pow, Value, Digits, Encode58;
    var ds, n := MisreadDigits(), Value(58, MisreadDigits());
    MisreadSize();
    DigitCount(256, n, 32);
    IndicesOfText(ds);
    EncodeDecode(MisreadText());
    key := Decode58(MisreadText()).value;
    assert LeadingZeros(ds) == 0;
    assert key == Zeros(0) + Digits(256, n);
    assert MisreadText()[0] == 'z';
    LegacyReading(c, key);
  }

  lemma EmptyDecodes()
    ensures Decode58("") == Some([])
  {
    assert Encode58([]) == "";
    DecodeEncode([]);
  }

  /** The coordinator's resolver does not read the multibase form: it never answers the
      key the form was made from. */
  lemma ResolverMisreadsMultibase(key: seq<byte>)
    ensures var r := DidWcp.Resolve(EncodeBase58btc(key));
      r.Ok? ==> r.value.publicKey != key
  {
    hide DidWcp.Resolve, Encode58;
    var did := EncodeBase58btc(key);
    var r := DidWcp.Resolve(did);
    if r.Ok? {
      var path := r.value.path;
      DidWcp.ResolveKeepsDid(did);
      DidWcp.ResolveExactly(did, key, path);
      EncodeHasNoColon(key);
      NotShifted(Encode58(key), path);
      assert (PREFIX + Encode58(key) + DidWcp.PathText(path))[|PREFIX|..] == Encode58(key) + DidWcp.PathText(path);
      assert did[|PREFIX|..] == "z" + Encode58(key);
    }
  }

  lemma NotShifted(text: string, path: Option<string>)
    requires ':' !in text
    ensures "z" + text != text + DidWcp.PathText(path)
  {
    var t, u := "z" + text, text + DidWcp.PathText(path);
    assert path.None? ==> |t| == |u| + 1;
    assert path.Some? ==> u[|text|] == ':';
    assert ':' !in t;
  }

  // ----- which decoder reads an identifier ----------------------------------------------------

  /** The letter after the prefix selects the decoder of the rest; any other character belongs to a
      legacy base58 text. */
  lemma DecoderByLetter(c: Codecs, letter: char, rest: string)
    ensures Decode(c, "did:wcp:" + [letter] + rest)
      == if letter == 'z' then Decode58(rest)
         else if letter == 'u' then c.base64url(rest)
         else if letter == 'b' then c.base32(rest)
         else if letter == 'f' then c.hex(rest)
         else Decode58([letter] + rest)
  {
    hide Decode58;
    var id := "did:wcp:" + [letter] + rest;
    assert PREFIX <= id && id[|PREFIX|..] == [letter] + rest && ([letter] + rest)[1..] == rest;
  }

  /** An empty body and another prefix are refused. */
  lemma RefusedIdentifiers(c: Codecs, id: string)
    requires id == "did:wcp:" || !("did:wcp:" <= id)
    ensures Decode(c, id) == None
  {
    hide Decode58;
  }
}
