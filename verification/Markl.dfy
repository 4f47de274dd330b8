/** Artifact pins: purpose@format-payload, one accepted spelling per digest. */
module Markl {
  import opened Blech32

  datatype MarklID = MarklID(format: Bytes, digest: Bytes)

  datatype PinError = PurposeMissing | UnknownPurpose | Undecodable | UnsupportedFormat | DigestLength

  datatype Pin = Pinned(id: MarklID) | Refused(error: PinError)

  // The digest functions by format name.
  type Formats = map<Bytes, Bytes -> Bytes>

  const AT: bv8 := 64

  // conformist-artifact-digest-v1
  function Purpose(): Bytes {
    [99, 111, 110, 102, 111, 114, 109, 105, 115, 116, 45, 97, 114, 116, 105, 102, 97, 99, 116, 45,
     100, 105, 103, 101, 115, 116, 45, 118, 49]
  }

  lemma PurposeShape()
    ensures Purpose() != [] && AT !in Purpose()
  {}

  // The text between two offsets of the purpose.
  predicate Spells(from: nat, text: string) {
    from + |text| <= |Purpose()| && forall i :: 0 <= i < |text| ==> Purpose()[from + i] as int == text[i] as int
  }

  lemma FirstWord()
    ensures Spells(0, "conformist")
  {}

  lemma SecondWord()
    ensures Spells(10, "-artifact-")
  {}

  lemma LastWords()
    ensures Spells(20, "digest-v1") && |Purpose()| == 29
  {}

  // The offset of the first at sign; the length when there is none.
  function AtSign(s: Bytes): (i: nat)
    ensures i <= |s| && (i < |s| ==> s[i] == AT) && forall j :: 0 <= j < i ==> s[j] != AT
  {
    if s == [] || s[0] == AT then 0 else 1 + AtSign(s[1..])
  }

  function Parse(formats: Formats, s: Bytes): Pin {
    var at := AtSign(s);
    if at == |s| || at == 0 then Refused(PurposeMissing)
    else if s[..at] != Purpose() then Refused(UnknownPurpose)
    else match Decoding(s[at + 1..])
      case Err(_) => Refused(Undecodable)
      case Ok(format, digest) =>
        if format !in formats then Refused(UnsupportedFormat)
        else if |digest| != |formats[format]([])| then Refused(DigestLength)
        else Pinned(MarklID(format, digest))
  }

  function Render(id: MarklID): Bytes {
    Purpose() + [AT] + Encoding(id.format, id.digest)
  }

  lemma PurposeFirst(rest: Bytes)
    ensures var s := Purpose() + [AT] + rest;
            AtSign(s) == |Purpose()| && s[..AtSign(s)] == Purpose() && s[AtSign(s) + 1..] == rest
  {
    hide Purpose;
    PurposeShape();
    var s := Purpose() + [AT] + rest;
    assert s[|Purpose()|] == AT;
    assert forall j :: 0 <= j < |Purpose()| ==> s[j] == Purpose()[j] && Purpose()[j] in Purpose();
  }

  /** A string is accepted as a pin exactly when it is the rendering of that pin, whose format is known and whose digest
      has the format's length: every pin has one accepted spelling, and rendering an accepted pin gives it back. */
  lemma AcceptedIffRendered(formats: Formats, s: Bytes, id: MarklID)
    ensures Parse(formats, s) == Pinned(id) <==>
            && s == Render(id) && ValidHrp(id.format) && id.digest != []
            && id.format in formats && |id.digest| == |formats[id.format]([])|
  {
    hide Purpose, Decoding, Encoding, ValidHrp;
    PurposeShape();
    PurposeFirst(Encoding(id.format, id.digest));
    AcceptedIffEncoded(s[if AtSign(s) < |s| then AtSign(s) + 1 else |s|..], id.format, id.digest);
    if Parse(formats, s) == Pinned(id) {
      assert s == s[..AtSign(s)] + [AT] + s[AtSign(s) + 1..];
    }
  }

  // Whether content hashes to the pinned digest.
  predicate Verifies(formats: Formats, id: MarklID, content: Bytes) {
    id.format in formats && formats[id.format](content) == id.digest
  }

  /** The pin made of some content parses back, verifies that content and refuses all content of another digest, for a
      format with a valid name and digests of one non-zero length. */
  lemma PinOfContent(formats: Formats, format: Bytes, content: Bytes)
    requires format in formats && ValidHrp(format)
    requires |formats[format](content)| == |formats[format]([])| > 0
    ensures var id := MarklID(format, formats[format](content));
            && Parse(formats, Render(id)) == Pinned(id) && Verifies(formats, id, content)
            && forall other :: formats[format](other) != formats[format](content) ==> !Verifies(formats, id, other)
  {
    hide Render, Parse, ValidHrp;
    AcceptedIffRendered(formats, Render(MarklID(format, formats[format](content))), MarklID(format, formats[format](content)));
  }

  /** A parsed pin verifies exactly the content whose digest it spells. */
  lemma PinRefusesOther(formats: Formats, s: Bytes, id: MarklID, content: Bytes)
    requires Parse(formats, s) == Pinned(id)
    ensures id.format in formats
    ensures Verifies(formats, id, content) <==> s == Purpose() + [AT] + Encoding(id.format, formats[id.format](content))
  {
    hide Purpose, Encoding, Parse, ValidHrp;
    AcceptedIffRendered(formats, s, id);
    if s == Purpose() + [AT] + Encoding(id.format, formats[id.format](content)) {
      var other := formats[id.format](content);
      assert Encoding(id.format, other) == s[|Purpose()| + 1..] == Encoding(id.format, id.digest);
      EncodingDetermines(id.format, id.digest, other);
    }
  }

  lemma EncodingDetermines(format: Bytes, a: Bytes, b: Bytes)
    requires ValidHrp(format) && a != [] && Encoding(format, a) == Encoding(format, b)
    ensures a == b
  {
    hide Encoding, Decoding, ValidHrp;
    DecodeOfEncode(format, a);
    if b == [] { EmptyPayloadRefused(format); } else { DecodeOfEncode(format, b); }
  }

  /** A string is refused for the first of these reasons that applies: nothing in front of an at sign, another purpose,
      an encoding that does not decode, a format that is not known, a digest of another length. */
  lemma PinRefusals(formats: Formats, purpose: Bytes, rest: Bytes)
    requires 64 !in purpose
    ensures forall s :: 64 !in s ==> Parse(formats, s) == Refused(PurposeMissing)
    ensures var pin, decoded := Parse(formats, purpose + [64] + rest), Decoding(rest);
            && (pin == Refused(PurposeMissing) <==> purpose == [])
            && (pin == Refused(UnknownPurpose) <==> purpose != [] && purpose != Purpose())
            && (pin == Refused(Undecodable) <==> purpose == Purpose() && decoded.Err?)
            && (pin == Refused(UnsupportedFormat) <==> purpose == Purpose() && decoded.Ok? && decoded.hrp !in formats)
            && (pin == Refused(DigestLength) <==>
                  && purpose == Purpose() && decoded.Ok? && decoded.hrp in formats
                  && |decoded.payload| != |formats[decoded.hrp]([])|)
  {
    hide Purpose, Decoding;
    PurposeShape();
    var s := purpose + [64] + rest;
    assert s[|purpose|] == AT;
    assert forall j :: 0 <= j < |purpose| ==> s[j] == purpose[j] && purpose[j] in purpose;
    assert AtSign(s) == |purpose| && s[..|purpose|] == purpose && s[|purpose| + 1..] == rest;
  }

  // ---- directory and file names in the store ----

  function HexChar(v: bv8): bv8
    requires v < 16
  {
    if v < 10 then 48 + v else 87 + v
  }

  lemma HexDigits(v: bv8)
    requires v < 16
    ensures HexChar(v) as int == "0123456789abcdef"[v as int] as int
  {
    if v == 0 {} else if v == 1 {} else if v == 2 {} else if v == 3 {} else if v == 4 {} else if v == 5 {} else if v == 6 {}
    else if v == 7 {} else if v == 8 {} else if v == 9 {} else if v == 10 {} else if v == 11 {} else if v == 12 {}
    else if v == 13 {} else if v == 14 {}
  }

  function High(c: bv8): (v: bv8)
    ensures v < 16
  {
    c >> 4
  }

  function Low(c: bv8): (v: bv8)
    ensures v < 16
  {
    c & 15
  }

  function Hex(bytes: Bytes): Bytes {
    if bytes == [] then [] else [HexChar(High(bytes[0])), HexChar(Low(bytes[0]))] + Hex(bytes[1..])
  }

  lemma HexPairInjective(c: bv8, d: bv8)
    requires HexChar(High(c)) == HexChar(High(d)) && HexChar(Low(c)) == HexChar(Low(d))
    ensures c == d
  {}

  lemma {:induction false} HexInjective(a: Bytes, b: Bytes)
    requires Hex(a) == Hex(b)
    ensures a == b
  {
    hide HexChar, High, Low;
    if a != [] && b != [] {
      var x, y := Hex(a), Hex(b);
      assert x[0] == HexChar(High(a[0])) && x[1] == HexChar(Low(a[0])) && x[2..] == Hex(a[1..]);
      assert y[0] == HexChar(High(b[0])) && y[1] == HexChar(Low(b[0])) && y[2..] == Hex(b[1..]);
      HexPairInjective(a[0], b[0]);
      HexInjective(a[1..], b[1..]);
      assert a == [a[0]] + a[1..] && b == [b[0]] + b[1..];
    }
  }

  const DASH: bv8 := 45

  // artifacts/<format>-<hex digest>
  function DirName(id: MarklID): Bytes {
    id.format + [DASH] + Hex(id.digest)
  }

  lemma NoDash(format: Bytes)
    requires ValidHrp(format)
    ensures DASH !in format
  {
    assert !HrpChar(DASH);
  }

  lemma DashSplits(a: Bytes, b: Bytes, c: Bytes, d: Bytes)
    requires DASH !in a && DASH !in c && a + [DASH] + b == c + [DASH] + d
    ensures a == c && b == d
  {
    var s := a + [DASH] + b;
    assert s == c + [DASH] + d;
    assert s[|a|] == DASH && s[|c|] == DASH;
    assert forall j :: 0 <= j < |a| ==> s[j] in a;
    assert forall j :: 0 <= j < |c| ==> s[j] in c;
    assert |a| == |c|;
    assert a == s[..|a|] && c == s[..|c|] && b == s[|a| + 1..] && d == s[|c| + 1..];
  }

  /** Different pins have different directories. */
  lemma DirNameInjective(a: MarklID, b: MarklID)
    requires ValidHrp(a.format) && ValidHrp(b.format) && DirName(a) == DirName(b)
    ensures a == b
  {
    hide ValidHrp, Hex;
    NoDash(a.format);
    NoDash(b.format);
    DashSplits(a.format, Hex(a.digest), b.format, Hex(b.digest));
    HexInjective(a.digest, b.digest);
  }
}
