/** Blech32: bech32 (BIP 173) with `-` as the separator and [a-z0-9_] as the human-readable alphabet. */
module Blech32 {
  import opened Polymod
  import opened Checksum
  import Regroup

  type Bytes = seq<bv8>

  datatype Error =
    | Uppercase
    | SeparatorMissing
    | EmptyHrp
    | TooShort
    | InvalidHrp
    | InvalidChar(position: nat)
    | InvalidChecksum
    | InvalidPadding

  datatype Decoded = Ok(hrp: Bytes, payload: Bytes) | Err(error: Error)

  const SEPARATOR: bv8 := 0x2d

  // ---- the alphabets ----

  predicate HrpChar(c: bv8) {
    0x61 <= c <= 0x7a || 0x30 <= c <= 0x39 || c == 0x5f
  }

  predicate UpperChar(c: bv8) {
    0x41 <= c <= 0x5a
  }

  predicate ValidHrp(hrp: Bytes) {
    hrp != [] && forall i :: 0 <= i < |hrp| ==> HrpChar(hrp[i])
  }

  // Entry v of the data alphabet "qpzry9x8gf2tvdw0s3jn54khce6mua7l".
  function CharOf(v: bv8): bv8
    requires v < 32
  {
    if v == 0 then 0x71 else if v == 1 then 0x70 else if v == 2 then 0x7a else if v == 3 then 0x72
    else if v == 4 then 0x79 else if v == 5 then 0x39 else if v == 6 then 0x78 else if v == 7 then 0x38
    else if v == 8 then 0x67 else if v == 9 then 0x66 else if v == 10 then 0x32 else if v == 11 then 0x74
    else if v == 12 then 0x76 else if v == 13 then 0x64 else if v == 14 then 0x77 else if v == 15 then 0x30
    else if v == 16 then 0x73 else if v == 17 then 0x33 else if v == 18 then 0x6a else if v == 19 then 0x6e
    else if v == 20 then 0x35 else if v == 21 then 0x34 else if v == 22 then 0x6b else if v == 23 then 0x68
    else if v == 24 then 0x63 else if v == 25 then 0x65 else if v == 26 then 0x36 else if v == 27 then 0x6d
    else if v == 28 then 0x75 else if v == 29 then 0x61 else if v == 30 then 0x37 else 0x6c
  }

  const NONE: bv8 := 0xff

  // The index of a byte in the data alphabet, or NONE.
  function SymbolOf(c: bv8): bv8 {
    if c == 0x71 then 0 else if c == 0x70 then 1 else if c == 0x7a then 2 else if c == 0x72 then 3
    else if c == 0x79 then 4 else if c == 0x39 then 5 else if c == 0x78 then 6 else if c == 0x38 then 7
    else if c == 0x67 then 8 else if c == 0x66 then 9 else if c == 0x32 then 10 else if c == 0x74 then 11
    else if c == 0x76 then 12 else if c == 0x64 then 13 else if c == 0x77 then 14 else if c == 0x30 then 15
    else if c == 0x73 then 16 else if c == 0x33 then 17 else if c == 0x6a then 18 else if c == 0x6e then 19
    else if c == 0x35 then 20 else if c == 0x34 then 21 else if c == 0x6b then 22 else if c == 0x68 then 23
    else if c == 0x63 then 24 else if c == 0x65 then 25 else if c == 0x36 then 26 else if c == 0x6d then 27
    else if c == 0x75 then 28 else if c == 0x61 then 29 else if c == 0x37 then 30 else if c == 0x6c then 31
    else NONE
  }

  predicate DataChar(c: bv8) {
    SymbolOf(c) != NONE
  }

  lemma SymbolOfChar(v: bv8)
    requires v < 32
    ensures SymbolOf(CharOf(v)) == v
  {
    hide SymbolOf, CharOf;
    if v < 16 { SymbolsBelow16(v); } else { SymbolsFrom16(v); }
  }

  lemma SymbolsBelow16(v: bv8)
    requires v < 16
    ensures SymbolOf(CharOf(v)) == v
  {
    hide SymbolOf, CharOf;
    if v < 8 { SymbolsFrom0(v); } else { SymbolsFrom8(v); }
  }

  lemma SymbolsFrom16(v: bv8)
    requires 16 <= v < 32
    ensures SymbolOf(CharOf(v)) == v
  {
    hide SymbolOf, CharOf;
    if v < 20 {
      SymbolsUpTo19(v);
    } else if v < 24 {
      SymbolsUpTo23(v);
    } else if v < 28 {
      SymbolsUpTo27(v);
    } else {
      SymbolsUpTo31(v);
    }
  }

  lemma SymbolsFrom0(v: bv8)
    requires v < 8
    ensures SymbolOf(CharOf(v)) == v
  {
    if v == 0 {} else if v == 1 {} else if v == 2 {} else if v == 3 {}
    else if v == 4 {} else if v == 5 {} else if v == 6 {} else if v == 7 {}
  }

  lemma SymbolsFrom8(v: bv8)
    requires 8 <= v < 16
    ensures SymbolOf(CharOf(v)) == v
  {
    if v == 8 {} else if v == 9 {} else if v == 10 {} else if v == 11 {}
    else if v == 12 {} else if v == 13 {} else if v == 14 {} else if v == 15 {}
  }

  lemma SymbolsUpTo19(v: bv8)
    requires 16 <= v < 20
    ensures SymbolOf(CharOf(v)) == v
  {
    if v == 16 {} else if v == 17 {} else if v == 18 {} else if v == 19 {}
  }

  lemma SymbolsUpTo23(v: bv8)
    requires 20 <= v < 24
    ensures SymbolOf(CharOf(v)) == v
  {
    if v == 20 {} else if v == 21 {} else if v == 22 {} else if v == 23 {}
  }

  lemma SymbolsUpTo27(v: bv8)
    requires 24 <= v < 28
    ensures SymbolOf(CharOf(v)) == v
  {
    if v == 24 {} else if v == 25 {} else if v == 26 {} else if v == 27 {}
  }

  lemma SymbolsUpTo31(v: bv8)
    requires 28 <= v < 32
    ensures SymbolOf(CharOf(v)) == v
  {
    if v == 28 {} else if v == 29 {} else if v == 30 {} else if v == 31 {}
  }

  lemma DataCharShape(v: bv8)
    requires v < 32
    ensures CharOf(v) != SEPARATOR && !UpperChar(CharOf(v))
  {}

  lemma CharOfSymbol(c: bv8)
    requires DataChar(c)
    ensures SymbolOf(c) < 32 && CharOf(SymbolOf(c)) == c
  {
    hide SymbolOf, CharOf;
    CharOfSymbolBelow16(c);
    CharOfSymbolFrom16(c);
    CharOfSymbolFrom24(c);
  }

  lemma CharOfSymbolBelow16(c: bv8)
    ensures SymbolOf(c) < 16 ==> CharOf(SymbolOf(c)) == c
  {
    if SymbolOf(c) < 8 {} else {}
  }

  lemma CharOfSymbolFrom16(c: bv8)
    ensures 16 <= SymbolOf(c) < 24 ==> CharOf(SymbolOf(c)) == c
  {
    if SymbolOf(c) < 20 {} else {}
  }

  lemma CharOfSymbolFrom24(c: bv8)
    ensures DataChar(c) ==> SymbolOf(c) < 32
    ensures 24 <= SymbolOf(c) < 32 ==> CharOf(SymbolOf(c)) == c
  {
    if SymbolOf(c) < 28 {} else {}
  }

  function Chars(values: seq<bv8>): (chars: Bytes)
    requires Symbols(values)
    ensures |chars| == |values|
  {
    seq(|values|, i requires 0 <= i < |values| => CharOf(values[i]))
  }

  function SymbolsOf(chars: Bytes): (values: seq<bv8>)
    ensures |values| == |chars|
  {
    seq(|chars|, i requires 0 <= i < |chars| => SymbolOf(chars[i]))
  }

  predicate AllDataChars(chars: Bytes) {
    forall i :: 0 <= i < |chars| ==> DataChar(chars[i])
  }

  lemma SymbolsOfChars(values: seq<bv8>)
    requires Symbols(values)
    ensures AllDataChars(Chars(values)) && SymbolsOf(Chars(values)) == values
    ensures SEPARATOR !in Chars(values) && forall c :: c in Chars(values) ==> !UpperChar(c)
  {
    hide SymbolOf, CharOf;
    forall i | 0 <= i < |values|
      ensures SymbolOf(Chars(values)[i]) == values[i] && DataChar(Chars(values)[i])
      ensures Chars(values)[i] != SEPARATOR && !UpperChar(Chars(values)[i])
    {
      SymbolOfChar(values[i]);
      DataCharShape(values[i]);
    }
  }

  lemma CharsOfSymbols(chars: Bytes)
    requires AllDataChars(chars)
    ensures Symbols(SymbolsOf(chars)) && Chars(SymbolsOf(chars)) == chars
  {
    hide SymbolOf, CharOf;
    forall i | 0 <= i < |chars|
      ensures SymbolsOf(chars)[i] < 32 && CharOf(SymbolsOf(chars)[i]) == chars[i]
    {
      CharOfSymbol(chars[i]);
    }
  }

  // ---- the codec as functions ----

  function HighPart(c: bv8): (v: bv8)
    ensures v < 32
  {
    c >> 5
  }

  function LowPart(c: bv8): (v: bv8)
    ensures v < 32
  {
    c & 31
  }

  // The human-readable part as checksum input: high bits, a zero, low bits.
  function Expand(hrp: Bytes): (values: seq<bv8>)
    ensures Symbols(values)
  {
    seq(|hrp|, i requires 0 <= i < |hrp| => HighPart(hrp[i])) + [0]
    + seq(|hrp|, i requires 0 <= i < |hrp| => LowPart(hrp[i]))
  }

  // The state of the checksum register before the six checksum symbols.
  function State(hrp: Bytes, values: seq<bv8>): bv32 {
    Run(1, Expand(hrp) + values)
  }

  function Encoding(hrp: Bytes, data: Bytes): Bytes {
    var values := Regroup.Padded(data, 8, 5);
    Regroup.StrictOfPadded(data);
    hrp + [SEPARATOR] + Chars(values + Completion(State(hrp, values)))
  }

  function IndexOf(s: Bytes, c: bv8): (i: nat)
    ensures i <= |s| && c !in s[..i] && (i < |s| ==> s[i] == c)
  {
    if s == [] || s[0] == c then 0 else 1 + IndexOf(s[1..], c)
  }

  // The first position from i on that fails the test, or the length.
  function FirstInvalid(chars: Bytes, i: nat): (k: nat)
    requires i <= |chars|
    ensures i <= k <= |chars| && (k < |chars| ==> !DataChar(chars[k]))
    ensures forall j :: i <= j < k ==> DataChar(chars[j])
    decreases |chars| - i
  {
    if i == |chars| || !DataChar(chars[i]) then i else FirstInvalid(chars, i + 1)
  }

  predicate HasCapital(s: Bytes) {
    exists c :: c in s && UpperChar(c)
  }

  // Whether lower-casing changes a text: a Unicode rule, which on ASCII looks for capital letters.
  type Casing = Bytes -> bool

  predicate Ascii(s: Bytes) {
    forall c :: c in s ==> c < 0x80
  }

  ghost predicate LowerCases(casing: Casing) {
    forall s :: Ascii(s) ==> (casing(s) <==> HasCapital(s))
  }

  // The checks behind the one for capital letters.
  function DecodingLower(input: Bytes): Decoded {
    var pos := IndexOf(input, SEPARATOR);
    if pos == |input| then Err(SeparatorMissing)
    else if pos == 0 then Err(EmptyHrp)
    else if |input| - (pos + 1) <= WIDTH then Err(TooShort)
    else if !ValidHrp(input[..pos]) then Err(InvalidHrp)
    else DecodingParts(input[..pos], input[pos + 1..])
  }

  function DecodingUnder(casing: Casing, input: Bytes): Decoded {
    if casing(input) then Err(Uppercase) else DecodingLower(input)
  }

  function Decoding(input: Bytes): Decoded {
    if HasCapital(input) then Err(Uppercase) else DecodingLower(input)
  }

  function DecodingParts(hrp: Bytes, dataPart: Bytes): Decoded
    requires |dataPart| > WIDTH
  {
    var values := SymbolsOf(dataPart);
    var bad := FirstInvalid(dataPart, 0);
    if bad < |dataPart| then Err(InvalidChar(|hrp| + 1 + bad))
    else if State(hrp, values) != 1 then Err(InvalidChecksum)
    else match Regroup.Strict(values[..|values| - WIDTH], 5, 8)
         case Padding => Err(InvalidPadding)
         case Ok(payload) => Ok(hrp, payload)
  }

  // ---- the codec as the loops that compute it ----

  method ExpandHrp(hrp: Bytes) returns (ret: seq<bv8>)
    ensures ret == Expand(hrp)
  {
    ret := [];
    for i := 0 to |hrp|
      invariant ret == seq(i, k requires 0 <= k < i => HighPart(hrp[k]))
    {
      ret := ret + [HighPart(hrp[i])];
    }
    ret := ret + [0];
    ghost var high := ret;
    for i := 0 to |hrp|
      invariant ret == high + seq(i, k requires 0 <= k < i => LowPart(hrp[k]))
    {
      ret := ret + [LowPart(hrp[i])];
    }
  }

  method Encode(hrp: Bytes, data: Bytes) returns (out: Bytes)
    ensures out == Encoding(hrp, data)
  {
    hide CharOf, Run, Expand, Regroup.Padded, Zeros, Unpack, Chars;
    var converted := Regroup.ConvertBits(data, 8, 5, true);
    var values := converted.value;
    Regroup.StrictOfPadded(data);
    var checksumInput := ExpandHrp(hrp);
    checksumInput := checksumInput + values;
    RunAppend(1, checksumInput, Zeros(WIDTH));
    var mod := Polymod.Polymod(checksumInput + Zeros(WIDTH));
    mod := Xor(mod, 1);
    var checksum := Unpack(mod);
    out := hrp + [SEPARATOR];
    NoChars(values);
    NoChars(checksum);
    for i := 0 to |values|
      invariant out == hrp + [SEPARATOR] + Chars(values[..i])
    {
      CharsNext(values, i);
      out := out + [CharOf(values[i])];
    }
    for i := 0 to WIDTH
      invariant out == hrp + [SEPARATOR] + Chars(values[..|values|]) + Chars(checksum[..i])
    {
      CharsNext(checksum, i);
      out := out + [CharOf(checksum[i])];
    }
    EncodingParts(hrp, data, values, checksum);
    assert values[..|values|] == values && checksum[..WIDTH] == checksum;
  }

  lemma CharsNext(values: seq<bv8>, i: nat)
    requires Symbols(values) && i < |values|
    ensures Chars(values[..i + 1]) == Chars(values[..i]) + [CharOf(values[i])]
  {
    hide CharOf;
  }

  lemma NoChars(values: seq<bv8>)
    ensures Chars(values[..0]) == []
  {}

  lemma EncodingParts(hrp: Bytes, data: Bytes, values: seq<bv8>, checksum: seq<bv8>)
    requires values == Regroup.Padded(data, 8, 5) && checksum == Completion(State(hrp, values)) && Symbols(values)
    ensures Encoding(hrp, data) == hrp + [SEPARATOR] + Chars(values) + Chars(checksum)
  {
    hide CharOf, Run, Regroup.Padded, Expand;
    assert Chars(values + checksum) == Chars(values) + Chars(checksum);
  }

  method Decode(casing: Casing, input: Bytes) returns (r: Decoded)
    ensures r == DecodingUnder(casing, input)
  {
    hide SymbolOf, Run, Expand, Regroup.Strict;
    if casing(input) { return Err(Uppercase); }
    var pos := IndexOf(input, SEPARATOR);
    if pos == |input| { return Err(SeparatorMissing); }
    if pos == 0 { return Err(EmptyHrp); }
    if |input| - (pos + 1) <= WIDTH { return Err(TooShort); }
    var hrp := input[..pos];
    for i := 0 to |hrp|
      invariant forall k :: 0 <= k < i ==> HrpChar(hrp[k])
    {
      if !HrpChar(hrp[i]) { return Err(InvalidHrp); }
    }
    r := DecodeParts(hrp, input[pos + 1..]);
  }

  method DecodeParts(hrp: Bytes, dataPart: Bytes) returns (r: Decoded)
    requires |dataPart| > WIDTH
    ensures r == DecodingParts(hrp, dataPart)
  {
    hide SymbolOf, CharOf, Chars, Run, Expand, Regroup.Strict, State;
    StateIsRun(hrp, SymbolsOf(dataPart));
    var values: seq<bv8> := [];
    for i := 0 to |dataPart|
      invariant values == SymbolsOf(dataPart[..i]) && FirstInvalid(dataPart, 0) == FirstInvalid(dataPart, i)
    {
      if !DataChar(dataPart[i]) { return Err(InvalidChar(|hrp| + 1 + i)); }
      assert SymbolsOf(dataPart[..i + 1]) == SymbolsOf(dataPart[..i]) + [SymbolOf(dataPart[i])];
      values := values + [SymbolOf(dataPart[i])];
    }
    assert dataPart[..|dataPart|] == dataPart;
    CharsOfSymbols(dataPart);
    var expanded := ExpandHrp(hrp);
    var chk := Polymod.Polymod(expanded + values);
    if chk != 1 { return Err(InvalidChecksum); }
    var converted := Regroup.ConvertBits(values[..|values| - WIDTH], 5, 8, false);
    match converted
    case Padding => return Err(InvalidPadding);
    case Ok(payload) => return Ok(hrp, payload);
  }

  lemma StateIsRun(hrp: Bytes, values: seq<bv8>)
    ensures State(hrp, values) == Run(1, Expand(hrp) + values)
  {}

  // ---- encoder and decoder are mutually inverse ----

  lemma StateBound(hrp: Bytes, values: seq<bv8>)
    requires Symbols(values)
    ensures State(hrp, values) < STATES
  {
    RunBound(1, Expand(hrp) + values);
  }

  lemma StateSplit(hrp: Bytes, values: seq<bv8>, checksum: seq<bv8>)
    ensures State(hrp, values + checksum) == Run(State(hrp, values), checksum)
  {
    RunAppend(1, Expand(hrp) + values, checksum);
    assert Expand(hrp) + values + checksum == Expand(hrp) + (values + checksum);
  }

  // The residue is 1 exactly when the last six symbols are the computed checksum.
  lemma ChecksumValid(hrp: Bytes, values: seq<bv8>)
    requires Symbols(values) && |values| >= WIDTH
    ensures var body := values[..|values| - WIDTH];
            State(hrp, values) == 1 <==> values == body + Completion(State(hrp, body))
  {
    hide Run, Expand, Completion;
    var body, tail := values[..|values| - WIDTH], values[|values| - WIDTH..];
    assert body + tail == values;
    StateSplit(hrp, body, tail);
    StateBound(hrp, body);
    CompletionUnique(State(hrp, body), tail);
  }

  lemma {:induction false} IndexOfAtMost(s: Bytes, c: bv8, k: nat)
    requires k < |s| && s[k] == c
    ensures IndexOf(s, c) <= k
  {
    if s[0] != c { IndexOfAtMost(s[1..], c, k - 1); }
  }

  lemma SeparatorAt(hrp: Bytes, rest: Bytes)
    requires SEPARATOR !in hrp
    ensures IndexOf(hrp + [SEPARATOR] + rest, SEPARATOR) == |hrp|
  {
    var s := hrp + [SEPARATOR] + rest;
    IndexOfAtMost(s, SEPARATOR, |hrp|);
    assert forall i :: 0 <= i < |hrp| ==> s[i] == hrp[i];
  }

  lemma HrpShape(hrp: Bytes)
    requires ValidHrp(hrp)
    ensures SEPARATOR !in hrp && forall c :: c in hrp ==> !UpperChar(c)
  {}

  // A string of valid shape reaches the checksum with its two halves.
  lemma DecodingShape(hrp: Bytes, chars: Bytes)
    requires ValidHrp(hrp) && AllDataChars(chars) && |chars| > WIDTH
    ensures Decoding(hrp + [SEPARATOR] + chars) == DecodingParts(hrp, chars)
  {
    hide SymbolOf, CharOf, DecodingParts;
    var s := hrp + [SEPARATOR] + chars;
    HrpShape(hrp);
    CharsOfSymbols(chars);
    SymbolsOfChars(SymbolsOf(chars));
    SeparatorAt(hrp, chars);
    assert s[..|hrp|] == hrp && s[|hrp| + 1..] == chars;
    forall c | c in s
      ensures !UpperChar(c)
    {
      assert c in hrp || c == SEPARATOR || c in chars;
    }
  }

  /** Decoding an encoding returns what was encoded. */
  lemma DecodeOfEncode(hrp: Bytes, data: Bytes)
    requires ValidHrp(hrp) && data != []
    ensures Decoding(Encoding(hrp, data)) == Ok(hrp, data)
  {
    hide Run, Expand, Completion, Chars, SymbolOf, Regroup.Strict, Regroup.Padded, State;
    var values := Regroup.Padded(data, 8, 5);
    Regroup.StrictOfPadded(data);
    Regroup.ValuesLength(data);
    var all := values + Completion(State(hrp, values));
    assert all[..|all| - WIDTH] == values;
    SymbolsOfChars(all);
    ChecksumValid(hrp, all);
    DecodingShape(hrp, Chars(all));
  }

  lemma DecodedParts(input: Bytes)
    requires Decoding(input).Ok?
    ensures var Ok(hrp, payload) := Decoding(input);
            && ValidHrp(hrp) && |input| > |hrp| + 1 + WIDTH
            && input == hrp + [SEPARATOR] + input[|hrp| + 1..]
            && DecodingParts(hrp, input[|hrp| + 1..]) == Ok(hrp, payload)
  {
    hide SymbolOf, Run, Regroup.Strict, Expand;
    var pos := IndexOf(input, SEPARATOR);
    assert input == input[..pos] + [input[pos]] + input[pos + 1..];
  }

  /** Every accepted string is the encoding of what it decodes to: each payload has exactly one accepted spelling. */
  lemma EncodeOfDecode(input: Bytes)
    requires Decoding(input).Ok?
    ensures var Ok(hrp, payload) := Decoding(input);
            ValidHrp(hrp) && payload != [] && Encoding(hrp, payload) == input
  {
    hide Run, Expand, Completion, Chars, SymbolOf, Regroup.Strict, Regroup.Padded, State, Decoding, ValidHrp;
    DecodedParts(input);
    var Ok(hrp, payload) := Decoding(input);
    var chars := input[|hrp| + 1..];
    CharsOfSymbols(chars);
    var values := SymbolsOf(chars);
    var body := values[..|values| - WIDTH];
    ChecksumValid(hrp, values);
    Regroup.PaddedOfStrict(body, payload);
    Regroup.ValuesLength(payload);
  }

  /** The decoder accepts a string exactly when it is the encoding of a non-empty payload under a valid name. */
  lemma AcceptedIffEncoded(input: Bytes, hrp: Bytes, payload: Bytes)
    ensures Decoding(input) == Ok(hrp, payload) <==>
            ValidHrp(hrp) && payload != [] && input == Encoding(hrp, payload)
  {
    hide Decoding, Encoding, ValidHrp;
    if Decoding(input).Ok? { EncodeOfDecode(input); }
    if ValidHrp(hrp) && payload != [] { DecodeOfEncode(hrp, payload); }
  }

  lemma NonAsciiRefused(input: Bytes)
    requires !Ascii(input)
    ensures DecodingLower(input).Err?
  {
    hide SymbolOf, Run, Expand, Regroup.Strict, State;
    var k :| 0 <= k < |input| && input[k] >= 0x80;
    var pos := IndexOf(input, SEPARATOR);
    NonAsciiChar(input[k]);
    if k < pos <= |input| { assert input[..pos][k] == input[k]; }
    if pos < k { assert input[pos + 1..][k - pos - 1] == input[k]; }
  }

  lemma NonAsciiChar(c: bv8)
    requires c >= 0x80
    ensures !HrpChar(c) && !DataChar(c) && c != SEPARATOR
  {}

  /** The Unicode rule for capital letters decides nothing but which error a text with other than ASCII characters gets. */
  lemma CasingNamesErrors(casing: Casing, input: Bytes)
    requires LowerCases(casing)
    ensures Ascii(input) ==> DecodingUnder(casing, input) == Decoding(input)
    ensures !Ascii(input) ==> DecodingUnder(casing, input).Err? && Decoding(input).Err?
  {
    hide DecodingLower, Ascii, HasCapital;
    if !Ascii(input) { NonAsciiRefused(input); }
  }

  // What is left of the separator is fine, but only a checksum follows it.
  lemma OnlyChecksum(hrp: Bytes, chars: Bytes)
    requires hrp != [] && SEPARATOR !in hrp && |chars| <= WIDTH && !HasCapital(hrp + [SEPARATOR] + chars)
    ensures Decoding(hrp + [SEPARATOR] + chars) == Err(TooShort)
  {
    hide SymbolOf, DecodingParts, ValidHrp, HasCapital, IndexOf;
    SeparatorAt(hrp, chars);
  }

  lemma EmptyEncoding(hrp: Bytes)
    ensures var all := Completion(State(hrp, []));
            |all| == WIDTH && Symbols(all) && Encoding(hrp, []) == hrp + [SEPARATOR] + Chars(all)
  {
    hide Run, Expand, Completion, SymbolOf, CharOf, Regroup.Padded, State, Chars;
    Regroup.ValuesLength([]);
    Regroup.StrictOfPadded([]);
    assert Regroup.Padded([], 8, 5) + Completion(State(hrp, [])) == Completion(State(hrp, []));
  }

  /** An empty payload encodes to a string the decoder refuses as too short. */
  lemma EmptyPayloadRefused(hrp: Bytes)
    requires ValidHrp(hrp)
    ensures Decoding(Encoding(hrp, [])) == Err(TooShort)
  {
    hide Decoding, Encoding, Completion, State, Chars, ValidHrp, HasCapital, Symbols;
    var all := Completion(State(hrp, []));
    EmptyEncoding(hrp);
    NoCapitals(hrp, all);
    HrpNonEmpty(hrp);
    OnlyChecksum(hrp, Chars(all));
  }

  lemma HrpNonEmpty(hrp: Bytes)
    requires ValidHrp(hrp)
    ensures hrp != []
  {}

  lemma NoCapitals(hrp: Bytes, values: seq<bv8>)
    requires ValidHrp(hrp) && Symbols(values)
    ensures !HasCapital(hrp + [SEPARATOR] + Chars(values)) && SEPARATOR !in hrp
  {
    hide CharOf, SymbolOf;
    HrpShape(hrp);
    SymbolsOfChars(values);
    forall c | c in hrp + [SEPARATOR] + Chars(values)
      ensures !UpperChar(c)
    {
      assert c in hrp || c == SEPARATOR || c in Chars(values);
    }
  }

  // ---- burst detection on strings ----

  // The two strings agree outside the six characters from position k on.
  predicate DifferWithin(s: Bytes, t: Bytes, k: nat) {
    |s| == |t| && forall i :: 0 <= i < |s| && !(k <= i < k + WIDTH) ==> s[i] == t[i]
  }

  lemma SymbolsAgree(s: Bytes, t: Bytes, k: nat)
    requires DifferWithin(s, t, k) && k + WIDTH <= |s|
    ensures SymbolsOf(s)[..k] == SymbolsOf(t)[..k] && SymbolsOf(s)[k + WIDTH..] == SymbolsOf(t)[k + WIDTH..]
  {
    hide SymbolOf;
  }

  lemma PartsBurst(hrp: Bytes, s: Bytes, t: Bytes, k: nat)
    requires AllDataChars(s) && AllDataChars(t) && DifferWithin(s, t, k) && k + WIDTH <= |s|
    requires State(hrp, SymbolsOf(s)) == 1 && State(hrp, SymbolsOf(t)) == 1
    ensures s == t
  {
    hide SymbolOf, CharOf, Run, Expand, SymbolsOf, Chars;
    var u, v := SymbolsOf(s), SymbolsOf(t);
    CharsOfSymbols(s);
    CharsOfSymbols(t);
    SymbolsAgree(s, t, k);
    var e := Expand(hrp);
    assert (e + u)[..|e| + k] == e + u[..k] && (e + u)[|e| + k + WIDTH..] == u[k + WIDTH..];
    assert (e + v)[..|e| + k] == e + v[..k] && (e + v)[|e| + k + WIDTH..] == v[k + WIDTH..];
    WordsBurst(e + u, e + v, |e| + k);
    assert u == (e + u)[|e|..] && v == (e + v)[|e|..];
  }

  // Two words that agree outside six consecutive symbols and have one residue are the same word.
  lemma WordsBurst(x: seq<bv8>, y: seq<bv8>, k: nat)
    requires |x| == |y| && Symbols(x) && Symbols(y) && k + WIDTH <= |x|
    requires x[..k] == y[..k] && x[k + WIDTH..] == y[k + WIDTH..] && Run(1, x) == Run(1, y)
    ensures x == y
  {
    hide Run;
    assert x == x[..k] + x[k..k + WIDTH] + x[k + WIDTH..];
    assert y == y[..k] + y[k..k + WIDTH] + y[k + WIDTH..];
    BurstDetected(1, x[..k], x[k..k + WIDTH], y[k..k + WIDTH], x[k + WIDTH..]);
  }

  /** Two accepted strings with one name that differ only inside six consecutive data characters are the same string. */
  lemma BurstsAreDetected(s: Bytes, t: Bytes, k: nat)
    requires Decoding(s).Ok? && Decoding(t).Ok? && Decoding(s).hrp == Decoding(t).hrp
    requires |Decoding(s).hrp| < k && DifferWithin(s, t, k)
    ensures s == t
  {
    hide SymbolOf, Run, Expand, SymbolsOf, Decoding, Regroup.Strict, State;
    DecodedParts(s);
    DecodedParts(t);
    var hrp := Decoding(s).hrp;
    var n := |hrp| + 1;
    var window := if k + WIDTH <= |s| then k - n else |s| - n - WIDTH;
    assert DifferWithin(s[n..], t[n..], window);
    PartsBurst(hrp, s[n..], t[n..], window);
  }

  // ---- burst detection on names ----

  // The checksum input of two names differs where the names do, in its high half and in its low half.
  lemma ExpandAt(hrp: Bytes, i: nat)
    requires i < |hrp|
    ensures |Expand(hrp)| == 2 * |hrp| + 1 && Expand(hrp)[|hrp|] == 0
    ensures Expand(hrp)[i] == hrp[i] >> 5 && Expand(hrp)[|hrp| + 1 + i] == hrp[i] & 31
  {}

  lemma ByteParts(a: bv8, b: bv8)
    requires a >> 5 == b >> 5 && a & 31 == b & 31
    ensures a == b
  {}

  // The names agree in the upper three bits of every character, or in the lower five of every character.
  predicate OneHalf(g: Bytes, h: Bytes)
    requires |g| == |h|
  {
    (forall i :: 0 <= i < |g| ==> g[i] >> 5 == h[i] >> 5) || (forall i :: 0 <= i < |g| ==> g[i] & 31 == h[i] & 31)
  }

  lemma NameWindow(g: Bytes, h: Bytes, values: seq<bv8>, k: nat, at: nat)
    requires DifferWithin(g, h, k) && |values| >= WIDTH && k < |g|
    requires if at == k then forall i :: 0 <= i < |g| ==> g[i] & 31 == h[i] & 31
             else at == |g| + 1 + k && forall i :: 0 <= i < |g| ==> g[i] >> 5 == h[i] >> 5
    ensures var x, y := Expand(g) + values, Expand(h) + values;
            && |x| == |y| && at + WIDTH <= |x|
            && forall i :: 0 <= i < |x| && !(at <= i < at + WIDTH) ==> x[i] == y[i]
  {
    hide Expand;
    var x, y, n := Expand(g) + values, Expand(h) + values, |g|;
    ExpandAt(g, 0);
    ExpandAt(h, 0);
    forall i | 0 <= i < |x| && !(at <= i < at + WIDTH)
      ensures x[i] == y[i]
    {
      if i < n {
        ExpandAt(g, i);
        ExpandAt(h, i);
      } else if n < i <= 2 * n {
        ExpandAt(g, i - n - 1);
        ExpandAt(h, i - n - 1);
      }
    }
  }

  lemma SameOutside(x: seq<bv8>, y: seq<bv8>, k: nat)
    requires |x| == |y| && k + WIDTH <= |x| && forall i :: 0 <= i < |x| && !(k <= i < k + WIDTH) ==> x[i] == y[i]
    ensures x[..k] == y[..k] && x[k + WIDTH..] == y[k + WIDTH..]
  {}

  lemma NamesBurst(g: Bytes, h: Bytes, values: seq<bv8>, k: nat)
    requires DifferWithin(g, h, k) && OneHalf(g, h) && Symbols(values) && |values| >= WIDTH
    requires State(g, values) == State(h, values)
    ensures g == h
  {
    hide Run, Expand;
    if k < |g| {
      var x, y := Expand(g) + values, Expand(h) + values;
      var at := if forall i :: 0 <= i < |g| ==> g[i] & 31 == h[i] & 31 then k else |g| + 1 + k;
      NameWindow(g, h, values, k, at);
      SameOutside(x, y, at);
      WordsBurst(x, y, at);
      forall i | 0 <= i < |g|
        ensures g[i] == h[i]
      {
        ExpandAt(g, i);
        ExpandAt(h, i);
        assert x[i] == Expand(g)[i] && x[|g| + 1 + i] == Expand(g)[|g| + 1 + i];
        assert y[i] == Expand(h)[i] && y[|h| + 1 + i] == Expand(h)[|h| + 1 + i];
        ByteParts(g[i], h[i]);
      }
    }
  }

  /** Two accepted strings with the same data part, whose names have one length and differ only inside six consecutive
      characters, and there only in the upper three bits or only in the lower five, are the same string. */
  lemma NameBurstsAreDetected(s: Bytes, t: Bytes, k: nat)
    requires Decoding(s).Ok? && Decoding(t).Ok?
    requires var g, h := Decoding(s).hrp, Decoding(t).hrp;
             && |g| == |h| && DifferWithin(g, h, k) && OneHalf(g, h)
             && |s| == |t| && s[|g|..] == t[|h|..]
    ensures s == t
  {
    hide SymbolOf, CharOf, Run, Expand, SymbolsOf, Decoding, Regroup.Strict, State, OneHalf, DifferWithin, Chars;
    DecodedParts(s);
    DecodedParts(t);
    var g, h := Decoding(s).hrp, Decoding(t).hrp;
    var chars := s[|g| + 1..];
    assert chars == s[|g|..][1..] == t[|h|..][1..] == t[|h| + 1..];
    CharsOfSymbols(chars);
    NamesBurst(g, h, SymbolsOf(chars), k);
  }

  // ---- what is refused, and why ----

  // The data alphabet: lower-case letters and digits without 1, b, i and o.
  predicate AlphabetChar(c: bv8) {
    (0x61 <= c <= 0x7a || 0x30 <= c <= 0x39) && c != 0x31 && c != 0x62 && c != 0x69 && c != 0x6f
  }

  lemma DataCharIs(c: bv8)
    ensures DataChar(c) <==> AlphabetChar(c)
  {}

  lemma FirstInvalidIs(chars: Bytes, k: nat)
    requires k <= |chars| && (k < |chars| ==> !DataChar(chars[k])) && forall j :: 0 <= j < k ==> DataChar(chars[j])
    ensures FirstInvalid(chars, 0) == k
  {
    hide DataChar;
  }

  // A name in front of a separator, and what stands behind it.
  datatype Halves = Halves(name: Bytes, data: Bytes)

  predicate Split(s: Bytes, h: Halves) {
    0x2d !in h.name && s == h.name + [0x2d] + h.data
  }

  predicate Capital(s: Bytes) {
    exists c :: c in s && 0x41 <= c <= 0x5a
  }

  predicate WellNamed(h: Halves) {
    h.name != [] && |h.data| > 6 && forall c :: c in h.name ==> 0x61 <= c <= 0x7a || 0x30 <= c <= 0x39 || c == 0x5f
  }

  lemma CapitalIs(s: Bytes)
    ensures HasCapital(s) <==> Capital(s)
  {
    if HasCapital(s) {
      var c :| c in s && UpperChar(c);
      assert 0x41 <= c <= 0x5a;
    }
    if Capital(s) {
      var c :| c in s && 0x41 <= c <= 0x5a;
      assert UpperChar(c);
    }
  }

  /** A text without a separator is refused as such, unless a capital letter comes first. */
  lemma SeparatorRefusal(s: Bytes)
    ensures Decoding(s) == Err(Uppercase) <==> Capital(s)
    ensures Decoding(s) == Err(SeparatorMissing) <==> !Capital(s) && 0x2d !in s
  {
    hide ValidHrp, Regroup.Strict, State;
    CapitalIs(s);
    var pos := IndexOf(s, SEPARATOR);
    if SEPARATOR in s {
      var k :| 0 <= k < |s| && s[k] == SEPARATOR;
      IndexOfAtMost(s, SEPARATOR, k);
    }
  }

  /** The errors in front of the checksum, each exactly when its reason is the first that applies. */
  lemma RefusalReasons(s: Bytes, h: Halves)
    requires Split(s, h) && !Capital(s)
    ensures Decoding(s) == Err(EmptyHrp) <==> h.name == []
    ensures Decoding(s) == Err(TooShort) <==> h.name != [] && |h.data| <= 6
    ensures Decoding(s) == Err(InvalidHrp) <==> h.name != [] && |h.data| > 6 && !WellNamed(h)
    ensures forall k: nat :: Decoding(s) == Err(InvalidChar(k)) <==>
                        WellNamed(h) && |h.name| < k < |s| && !AlphabetChar(s[k])
                        && forall j :: |h.name| < j < k ==> AlphabetChar(s[j])
  {
    hide DataChar, State, Regroup.Strict, FirstInvalid, SymbolsOf, HasCapital, Capital, WellNamed, ValidHrp, AlphabetChar;
    CapitalIs(s);
    SeparatorAt(h.name, h.data);
    assert s[..|h.name|] == h.name && s[|h.name| + 1..] == h.data;
    NamedIsValid(h);
    if WellNamed(h) { FirstRefused(s, h); }
  }

  lemma NamedIsValid(h: Halves)
    ensures WellNamed(h) <==> h.name != [] && |h.data| > 6 && ValidHrp(h.name)
  {
    assert (forall c :: c in h.name ==> HrpChar(c)) <==> forall i :: 0 <= i < |h.name| ==> HrpChar(h.name[i]);
  }

  lemma FirstRefused(s: Bytes, h: Halves)
    requires Split(s, h) && WellNamed(h)
    ensures forall k: nat :: DecodingParts(h.name, h.data) == Err(InvalidChar(k)) <==>
                        |h.name| < k < |s| && !AlphabetChar(s[k])
                        && forall j :: |h.name| < j < k ==> AlphabetChar(s[j])
  {
    hide State, Regroup.Strict, DataChar, SymbolsOf, AlphabetChar;
    var n := |h.name| + 1;
    forall i | 0 <= i < |h.data|
      ensures s[n + i] == h.data[i] && (DataChar(h.data[i]) <==> AlphabetChar(s[n + i]))
    {
      DataCharIs(h.data[i]);
    }
    var bad := FirstInvalid(h.data, 0);
    assert bad < |h.data| ==> !AlphabetChar(s[n + bad]);
    forall j | n <= j < n + bad
      ensures AlphabetChar(s[j])
    {
      assert s[j] == s[n + (j - n)];
    }
  }

  /** Behind these: the checksum is what decides, and then the padding. */
  lemma ChecksumRefusal(s: Bytes, h: Halves)
    requires Split(s, h) && !Capital(s) && WellNamed(h) && forall c :: c in h.data ==> AlphabetChar(c)
    ensures Decoding(s) == Err(InvalidChecksum) <==> State(h.name, SymbolsOf(h.data)) != 1
    ensures Decoding(s) == Err(InvalidPadding) <==>
            State(h.name, SymbolsOf(h.data)) == 1 && forall payload :: s != Encoding(h.name, payload)
  {
    hide DataChar, State, Regroup.Strict, FirstInvalid, SymbolsOf, AlphabetChar, Encoding, ValidHrp, HasCapital,
         Capital, WellNamed;
    CapitalIs(s);
    SeparatorAt(h.name, h.data);
    assert s[..|h.name|] == h.name && s[|h.name| + 1..] == h.data;
    NamedIsValid(h);
    AllValid(h.data);
    forall payload
      ensures Decoding(s) == Ok(h.name, payload) <==> payload != [] && s == Encoding(h.name, payload)
    {
      AcceptedIffEncoded(s, h.name, payload);
    }
    if s == Encoding(h.name, []) { EmptyPayloadRefused(h.name); }
  }

  lemma AllValid(chars: Bytes)
    requires forall c :: c in chars ==> AlphabetChar(c)
    ensures FirstInvalid(chars, 0) == |chars|
  {
    hide DataChar, AlphabetChar;
    var k := FirstInvalid(chars, 0);
    if k < |chars| { DataCharIs(chars[k]); }
  }
}
