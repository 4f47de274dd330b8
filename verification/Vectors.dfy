/** A pin made by another implementation of the same encoding, of the sha256 digest of "conformist RFC 0005 artifact pin
    round-trip" and a newline. It fixes what no law of the code fixes: the order of the alphabet, the generator, the residue,
    the order of the bits and the layout of the checksum input. */
module Vectors {
  import opened Blech32
  import opened Checksum
  import opened Polymod
  import Regroup

  datatype Word = End | Then(v: bv8, rest: Word)

  function Listed(w: Word): seq<bv8> {
    match w
    case End => []
    case Then(v, rest) => [v] + Listed(rest)
  }

  // One step of the register, its five taps written out.
  function Mixed(chk: bv32, v: bv8): bv32 {
    var top := chk >> 25;
    Xor(Shifted(chk, v), Xor(Xor(Xor(Xor(Tap(top, 0), Tap(top, 1)), Tap(top, 2)), Tap(top, 3)), Tap(top, 4)))
  }

  function Fed(chk: bv32, w: Word): bv32
    decreases w
  {
    match w
    case End => chk
    case Then(v, rest) => Fed(Mixed(chk, v), rest)
  }

  lemma {:induction false} FedIsRun(chk: bv32, w: Word)
    ensures Run(chk, Listed(w)) == Fed(chk, w)
    decreases w
  {
    hide Step, Run, Mixed;
    match w
    case End => RunNothing(chk, []);
    case Then(v, rest) =>
      StepMixed(chk, v);
      RunAppend(chk, [v], Listed(rest));
      RunLast(chk, [v]);
      RunNothing(chk, [v][..0]);
      FedIsRun(Mixed(chk, v), rest);
  }

  lemma StepMixed(chk: bv32, v: bv8)
    ensures Step(chk, v) == Mixed(chk, v)
  {
    MixExplicit(chk >> 25);
  }

  // 8cswnnl3gccq9sswdum4afgm3w58ftp7s5s6ff760n3j4ucd80pq and its checksum 5pm63c, eight characters to a piece.
  function Piece(k: nat): Word
    requires k < 8
  {
    match k
    case 0 => Then(0x38, Then(0x63, Then(0x73, Then(0x77, Then(0x6e, Then(0x6e, Then(0x6c, Then(0x33, End))))))))
    case 1 => Then(0x67, Then(0x63, Then(0x63, Then(0x71, Then(0x39, Then(0x73, Then(0x73, Then(0x77, End))))))))
    case 2 => Then(0x64, Then(0x75, Then(0x6d, Then(0x34, Then(0x61, Then(0x66, Then(0x67, Then(0x6d, End))))))))
    case 3 => Then(0x33, Then(0x77, Then(0x35, Then(0x38, Then(0x66, Then(0x74, Then(0x70, Then(0x37, End))))))))
    case 4 => Then(0x73, Then(0x35, Then(0x73, Then(0x36, Then(0x66, Then(0x66, Then(0x37, Then(0x36, End))))))))
    case 5 => Then(0x30, Then(0x6e, Then(0x33, Then(0x6a, Then(0x34, Then(0x75, Then(0x63, Then(0x64, End))))))))
    case 6 => Then(0x38, Then(0x30, Then(0x70, Then(0x71, End))))
    case _ => Then(0x35, Then(0x70, Then(0x6d, Then(0x36, Then(0x33, Then(0x63, End))))))
  }

  // What these characters stand for.
  function Values(k: nat): Word
    requires k < 8
  {
    match k
    case 0 => Then(7, Then(24, Then(16, Then(14, Then(19, Then(19, Then(31, Then(17, End))))))))
    case 1 => Then(8, Then(24, Then(24, Then(0, Then(5, Then(16, Then(16, Then(14, End))))))))
    case 2 => Then(13, Then(28, Then(27, Then(21, Then(29, Then(9, Then(8, Then(27, End))))))))
    case 3 => Then(17, Then(14, Then(20, Then(7, Then(9, Then(11, Then(1, Then(30, End))))))))
    case 4 => Then(16, Then(20, Then(16, Then(26, Then(9, Then(9, Then(30, Then(26, End))))))))
    case 5 => Then(15, Then(19, Then(17, Then(18, Then(21, Then(28, Then(24, Then(13, End))))))))
    case 6 => Then(7, Then(15, Then(1, Then(0, End))))
    case _ => Then(20, Then(1, Then(27, Then(26, Then(17, Then(24, End))))))
  }

  // The state of the register before piece k.
  function Before(k: nat): bv32
    requires k < 9
  {
    match k
    case 0 => 0x3dbdcb15
    case 1 => 0x3c70636a
    case 2 => 0x3dad0c20
    case 3 => 0x192b334b
    case 4 => 0x28e38b5e
    case 5 => 0x14766f80
    case 6 => 0x2edeb085
    case 7 => 0x2cac4ba2
    case _ => 0x1
  }

  lemma PieceState(k: nat)
    requires k < 8
    ensures Fed(Before(k), Values(k)) == Before(k + 1)
  {
    if k == 0 {} else if k == 1 {} else if k == 2 {} else if k == 3 {} else if k == 4 {} else if k == 5 {} else if k == 6 {}
  }

  function Read(w: Word): Word {
    match w
    case End => End
    case Then(c, rest) => Then(SymbolOf(c), Read(rest))
  }

  lemma Piece0Letters()
    ensures SymbolOf(0x38) == 7 && SymbolOf(0x63) == 24 && SymbolOf(0x73) == 16 && SymbolOf(0x77) == 14
    ensures SymbolOf(0x6e) == 19 && SymbolOf(0x6e) == 19 && SymbolOf(0x6c) == 31 && SymbolOf(0x33) == 17
  {}

  lemma Piece1Letters()
    ensures SymbolOf(0x67) == 8 && SymbolOf(0x63) == 24 && SymbolOf(0x63) == 24 && SymbolOf(0x71) == 0
    ensures SymbolOf(0x39) == 5 && SymbolOf(0x73) == 16 && SymbolOf(0x73) == 16 && SymbolOf(0x77) == 14
  {}

  lemma Piece2Letters()
    ensures SymbolOf(0x64) == 13 && SymbolOf(0x75) == 28 && SymbolOf(0x6d) == 27 && SymbolOf(0x34) == 21
    ensures SymbolOf(0x61) == 29 && SymbolOf(0x66) == 9 && SymbolOf(0x67) == 8 && SymbolOf(0x6d) == 27
  {}

  lemma Piece3Letters()
    ensures SymbolOf(0x33) == 17 && SymbolOf(0x77) == 14 && SymbolOf(0x35) == 20 && SymbolOf(0x38) == 7
    ensures SymbolOf(0x66) == 9 && SymbolOf(0x74) == 11 && SymbolOf(0x70) == 1 && SymbolOf(0x37) == 30
  {}

  lemma Piece4Letters()
    ensures SymbolOf(0x73) == 16 && SymbolOf(0x35) == 20 && SymbolOf(0x73) == 16 && SymbolOf(0x36) == 26
    ensures SymbolOf(0x66) == 9 && SymbolOf(0x66) == 9 && SymbolOf(0x37) == 30 && SymbolOf(0x36) == 26
  {}

  lemma Piece5Letters()
    ensures SymbolOf(0x30) == 15 && SymbolOf(0x6e) == 19 && SymbolOf(0x33) == 17 && SymbolOf(0x6a) == 18
    ensures SymbolOf(0x34) == 21 && SymbolOf(0x75) == 28 && SymbolOf(0x63) == 24 && SymbolOf(0x64) == 13
  {}

  lemma Piece6Letters()
    ensures SymbolOf(0x38) == 7 && SymbolOf(0x30) == 15
    ensures SymbolOf(0x70) == 1 && SymbolOf(0x71) == 0
  {}

  lemma Piece7Letters()
    ensures SymbolOf(0x35) == 20 && SymbolOf(0x70) == 1 && SymbolOf(0x6d) == 27
    ensures SymbolOf(0x36) == 26 && SymbolOf(0x33) == 17 && SymbolOf(0x63) == 24
  {}

  lemma PieceValues(k: nat)
    requires k < 8
    ensures Read(Piece(k)) == Values(k)
  {
    hide SymbolOf;
    match k
    case 0 => Piece0Letters();
    case 1 => Piece1Letters();
    case 2 => Piece2Letters();
    case 3 => Piece3Letters();
    case 4 => Piece4Letters();
    case 5 => Piece5Letters();
    case 6 => Piece6Letters();
    case _ => Piece7Letters();
  }

  predicate AllSymbols(w: Word) {
    match w
    case End => true
    case Then(v, rest) => v < 32 && AllSymbols(rest)
  }

  lemma {:induction false} ListedSymbols(w: Word)
    requires AllSymbols(w)
    ensures Symbols(Listed(w))
  {
    if w.Then? { ListedSymbols(w.rest); }
  }

  lemma {:induction false} ReadListed(w: Word)
    requires AllSymbols(Read(w))
    ensures AllDataChars(Listed(w)) && SymbolsOf(Listed(w)) == Listed(Read(w))
  {
    hide SymbolOf;
    if w.Then? {
      ReadListed(w.rest);
      assert SymbolsOf([w.v] + Listed(w.rest)) == [SymbolOf(w.v)] + SymbolsOf(Listed(w.rest));
    }
  }

  // ---- eight symbols are five bytes ----

  // The bytes are the symbols' bits, read from the left.
  predicate FirstByte(x: bv8, y: bv8, b: bv8) {
    b == (x << 3) | (y >> 2)
  }

  predicate SecondByte(x: bv8, y: bv8, z: bv8, b: bv8) {
    b == (x << 6) | (y << 1) | (z >> 4)
  }

  predicate ThirdByte(x: bv8, y: bv8, b: bv8) {
    b == (x << 4) | (y >> 1)
  }

  predicate FourthByte(x: bv8, y: bv8, z: bv8, b: bv8) {
    b == (x << 7) | (y << 2) | (z >> 3)
  }

  predicate FifthByte(x: bv8, y: bv8, b: bv8) {
    b == (x << 5) | y
  }

  predicate Aligned(v: seq<bv8>, b: seq<bv8>)
    requires |v| == 8 && |b| == 5
  {
    && FirstByte(v[0], v[1], b[0]) && SecondByte(v[1], v[2], v[3], b[1]) && ThirdByte(v[3], v[4], b[2])
    && FourthByte(v[4], v[5], v[6], b[3]) && FifthByte(v[6], v[7], b[4])
  }

  function Bit(v: bv8, j: nat): bool
    requires j < 8
  {
    Regroup.BitAt(v as bv32, j)
  }

  lemma FirstByteBit(x: bv8, y: bv8, b: bv8, j: nat)
    requires x < 32 && y < 32 && FirstByte(x, y, b) && j < 8
    ensures Bit(b, j) == if j >= 3 then Bit(x, j - 3) else Bit(y, j + 2)
  {}

  lemma SecondByteBit(x: bv8, y: bv8, z: bv8, b: bv8, j: nat)
    requires x < 32 && y < 32 && z < 32 && SecondByte(x, y, z, b) && j < 8
    ensures Bit(b, j) == if j >= 6 then Bit(x, j - 6) else if j >= 1 then Bit(y, j - 1) else Bit(z, j + 4)
  {}

  lemma ThirdByteBit(x: bv8, y: bv8, b: bv8, j: nat)
    requires x < 32 && y < 32 && ThirdByte(x, y, b) && j < 8
    ensures Bit(b, j) == if j >= 4 then Bit(x, j - 4) else Bit(y, j + 1)
  {}

  lemma FourthByteBit(x: bv8, y: bv8, z: bv8, b: bv8, j: nat)
    requires x < 32 && y < 32 && z < 32 && FourthByte(x, y, z, b) && j < 8
    ensures Bit(b, j) == if j >= 7 then Bit(x, j - 7) else if j >= 2 then Bit(y, j - 2) else Bit(z, j + 3)
  {}

  lemma FifthByteBit(x: bv8, y: bv8, b: bv8, j: nat)
    requires x < 32 && y < 32 && FifthByte(x, y, b) && j < 8
    ensures Bit(b, j) == if j >= 5 then Bit(x, j - 5) else Bit(y, j)
  {}

  lemma AlignedAt(v: seq<bv8>, b: seq<bv8>, i: nat)
    requires |v| == 8 && |b| == 5 && Symbols(v) && Aligned(v, b) && i < 40
    ensures Bit(v[i / 5], 4 - i % 5) == Bit(b[i / 8], 7 - i % 8)
  {
    hide Bit, Symbols, FirstByte, SecondByte, ThirdByte, FourthByte, FifthByte;
    SymbolsSmall(v);
    if i < 8 {
      FirstByteBit(v[0], v[1], b[0], 7 - i % 8);
    } else if i < 16 {
      SecondByteBit(v[1], v[2], v[3], b[1], 7 - i % 8);
    } else if i < 24 {
      ThirdByteBit(v[3], v[4], b[2], 7 - i % 8);
    } else if i < 32 {
      FourthByteBit(v[4], v[5], v[6], b[3], 7 - i % 8);
    } else {
      FifthByteBit(v[6], v[7], b[4], 7 - i % 8);
    }
  }

  lemma SymbolsSmall(v: seq<bv8>)
    requires |v| == 8 && Symbols(v)
    ensures v[0] < 32 && v[1] < 32 && v[2] < 32 && v[3] < 32 && v[4] < 32 && v[5] < 32 && v[6] < 32 && v[7] < 32
  {}

  lemma {:induction false} BitsAt(values: seq<bv8>, w: nat, i: nat)
    requires Regroup.Width(w) && i < |Regroup.Bits(values, w)|
    ensures i / w < |values| && Regroup.Bits(values, w)[i] == Bit(values[i / w], w - 1 - i % w)
  {
    hide Regroup.BitAt;
    var n := |values| - 1;
    if i < w * n {
      BitsAt(values[..n], w, i);
    } else if w == 5 {
      assert i / 5 == n && i % 5 == i - 5 * n;
    } else {
      assert i / 8 == n && i % 8 == i - 8 * n;
    }
  }

  lemma AlignedBits(v: seq<bv8>, b: seq<bv8>)
    requires |v| == 8 && |b| == 5 && Symbols(v) && Aligned(v, b)
    ensures Regroup.Bits(v, 5) == Regroup.Bits(b, 8)
  {
    hide Bit, Regroup.Bits, Aligned;
    forall i | 0 <= i < 40
      ensures Regroup.Bits(v, 5)[i] == Regroup.Bits(b, 8)[i]
    {
      BitsAt(v, 5, i);
      BitsAt(b, 8, i);
      AlignedAt(v, b, i);
    }
  }

  lemma {:induction false} BitsAppend(u: seq<bv8>, v: seq<bv8>, w: nat)
    requires Regroup.Width(w)
    ensures Regroup.Bits(u + v, w) == Regroup.Bits(u, w) + Regroup.Bits(v, w)
  {
    hide Regroup.ByteBits;
    if v == [] {
      assert u + v == u;
    } else {
      var front := v[..|v| - 1];
      assert (u + v)[..|u + v| - 1] == u + front;
      BitsAppend(u, front, w);
    }
  }

  // ---- the digest ----

  // Its digest, five bytes to a piece.
  function DigestPiece(k: nat): seq<bv8>
    requires k < 7
  {
    match k
    case 0 => [0x3e, 0x20, 0xe9, 0xcf, 0xf1]
    case 1 => [0x46, 0x30, 0x02, 0xc2, 0x0e]
    case 2 => [0x6f, 0x37, 0x5e, 0xa5, 0x1b]
    case 3 => [0x8b, 0xa8, 0x74, 0xac, 0x3e]
    case 4 => [0x85, 0x21, 0xa4, 0xa7, 0xda]
    case 5 => [0x7c, 0xe3, 0x2a, 0xf3, 0x0d]
    case _ => [0x3b, 0xc2]
  }

  lemma FourListed(a: bv8, b: bv8, c: bv8, d: bv8, rest: Word)
    ensures Listed(Then(a, Then(b, Then(c, Then(d, rest))))) == [a, b, c, d] + Listed(rest)
  {
    assert Listed(Then(c, Then(d, rest))) == [c, d] + Listed(rest);
  }

  lemma EightListed(w: Word, v: seq<bv8>)
    requires |v| == 8
    requires w == Then(v[0], Then(v[1], Then(v[2], Then(v[3], Then(v[4], Then(v[5], Then(v[6], Then(v[7], End))))))))
    ensures Listed(w) == v
  {
    FourListed(v[0], v[1], v[2], v[3], w.rest.rest.rest.rest);
    FourListed(v[4], v[5], v[6], v[7], End);
    hide Listed;
    assert v == [v[0], v[1], v[2], v[3]] + [v[4], v[5], v[6], v[7]];
  }

  lemma Piece0Aligned()
    ensures var v := [7, 24, 16, 14, 19, 19, 31, 17]; Listed(Values(0)) == v && Symbols(v) && Aligned(v, DigestPiece(0))
  {
    EightListed(Values(0), [7, 24, 16, 14, 19, 19, 31, 17]);
  }

  lemma Piece1Aligned()
    ensures var v := [8, 24, 24, 0, 5, 16, 16, 14]; Listed(Values(1)) == v && Symbols(v) && Aligned(v, DigestPiece(1))
  {
    EightListed(Values(1), [8, 24, 24, 0, 5, 16, 16, 14]);
  }

  lemma Piece2Aligned()
    ensures var v := [13, 28, 27, 21, 29, 9, 8, 27]; Listed(Values(2)) == v && Symbols(v) && Aligned(v, DigestPiece(2))
  {
    EightListed(Values(2), [13, 28, 27, 21, 29, 9, 8, 27]);
  }

  lemma Piece3Aligned()
    ensures var v := [17, 14, 20, 7, 9, 11, 1, 30]; Listed(Values(3)) == v && Symbols(v) && Aligned(v, DigestPiece(3))
  {
    EightListed(Values(3), [17, 14, 20, 7, 9, 11, 1, 30]);
  }

  lemma Piece4Aligned()
    ensures var v := [16, 20, 16, 26, 9, 9, 30, 26]; Listed(Values(4)) == v && Symbols(v) && Aligned(v, DigestPiece(4))
  {
    EightListed(Values(4), [16, 20, 16, 26, 9, 9, 30, 26]);
  }

  lemma Piece5Aligned()
    ensures var v := [15, 19, 17, 18, 21, 28, 24, 13]; Listed(Values(5)) == v && Symbols(v) && Aligned(v, DigestPiece(5))
  {
    EightListed(Values(5), [15, 19, 17, 18, 21, 28, 24, 13]);
  }

  lemma PieceAligned(k: nat)
    requires k < 6
    ensures var v := Listed(Values(k)); |v| == 8 && |DigestPiece(k)| == 5 && Symbols(v) && Aligned(v, DigestPiece(k))
  {
    hide Values, Aligned, Listed;
    match k
    case 0 => Piece0Aligned();
    case 1 => Piece1Aligned();
    case 2 => Piece2Aligned();
    case 3 => Piece3Aligned();
    case 4 => Piece4Aligned();
    case _ => Piece5Aligned();
  }

  // The first k pieces.
  function Data(k: nat): seq<bv8>
    requires k <= 8
  {
    if k == 0 then [] else Data(k - 1) + Listed(Values(k - 1))
  }

  function Digest(k: nat): Bytes
    requires k <= 7
  {
    if k == 0 then [] else Digest(k - 1) + DigestPiece(k - 1)
  }

  lemma {:induction false} PiecesBits(k: nat)
    requires k <= 6
    ensures Regroup.Bits(Data(k), 5) == Regroup.Bits(Digest(k), 8) && |Digest(k)| == 5 * k
  {
    hide Regroup.Bits, Values, DigestPiece, Aligned, Listed;
    if k == 0 {
      NoBits();
    } else {
      PiecesBits(k - 1);
      PieceAligned(k - 1);
      AlignedBits(Listed(Values(k - 1)), DigestPiece(k - 1));
      BitsAppend(Data(k - 1), Listed(Values(k - 1)), 5);
      BitsAppend(Digest(k - 1), DigestPiece(k - 1), 8);
    }
  }

  lemma NoBits()
    ensures Regroup.Bits([], 5) == Regroup.Bits([], 8) == []
  {}

  // The last two bytes take four symbols, of which the last is padding.
  lemma LastBits()
    ensures Listed(Values(6)) == [7, 15, 1, 0] && |DigestPiece(6)| == 2
    ensures Regroup.Bits(Listed(Values(6)), 5) == Regroup.Bits(DigestPiece(6), 8) + Regroup.Zeros(4)
  {
    hide Regroup.Bits;
    var v: seq<bv8> := [7, 15, 1, 0];
    assert Listed(Values(6)) == v;
    LastAligned();
    AlignedBits(v + [0, 0, 0, 0], DigestPiece(6) + [0, 0, 0]);
    BitsAppend(v, [0, 0, 0, 0], 5);
    BitsAppend(DigestPiece(6), [0, 0, 0], 8);
    ZeroBits();
    assert Regroup.Bits(v, 5) == (Regroup.Bits(v, 5) + Regroup.Bits([0, 0, 0, 0], 5))[..20];
  }

  lemma LastAligned()
    ensures Symbols([7, 15, 1, 0] + [0, 0, 0, 0]) && Aligned([7, 15, 1, 0] + [0, 0, 0, 0], DigestPiece(6) + [0, 0, 0])
  {}

  lemma ZeroBits()
    ensures Regroup.Bits([0, 0, 0], 8) == Regroup.Zeros(24)
  {
    hide Regroup.Bits;
    forall i | 0 <= i < 24
      ensures !Regroup.Bits([0, 0, 0], 8)[i]
    {
      BitsAt([0, 0, 0], 8, i);
    }
  }

  lemma DigestDecodes(values: seq<bv8>, digest: Bytes)
    requires values == Data(7) && digest == Digest(7)
    ensures |digest| == 32 && |values| == 52
    ensures Regroup.Strict(values, 5, 8) == Regroup.Ok(digest)
  {
    hide Regroup.Bits, Values, Regroup.Strict, Listed;
    PiecesBits(6);
    LastBits();
    BitsAppend(Data(6), Listed(Values(6)), 5);
    BitsAppend(Digest(6), DigestPiece(6), 8);
    assert Regroup.Fill(8 * 32, 5) == 4;
    Regroup.StrictFromBits(Data(7), Digest(7));
  }

  // ---- the pin ----

  // sha256
  function Name(): Bytes {
    [0x73, 0x68, 0x61, 0x32, 0x35, 0x36]
  }

  // The name's high halves, a zero, and its low halves.
  function NameInput(): Word {
    Then(3, Then(3, Then(3, Then(1, Then(1, Then(1, Then(0, Then(19, Then(8, Then(1, Then(18, Then(21, Then(22, End)))))))))))))
  }

  lemma NameState()
    ensures Run(1, Expand(Name())) == Before(0)
  {
    hide Run, Listed, Fed;
    NameListed();
    NameFed();
    FedIsRun(1, NameInput());
  }

  lemma NameListed()
    ensures Listed(NameInput()) == Expand(Name())
  {}

  lemma NameFed()
    ensures Fed(1, NameInput()) == Before(0)
  {}

  function Text(k: nat): Bytes
    requires k <= 8
  {
    if k == 0 then [] else Text(k - 1) + Listed(Piece(k - 1))
  }

  lemma ValuesFit(k: nat)
    requires k < 8
    ensures AllSymbols(Values(k))
  {}

  // The characters read so far, and the state they lead to.
  lemma {:induction false} TextState(k: nat)
    requires k <= 8
    ensures AllDataChars(Text(k)) && SymbolsOf(Text(k)) == Data(k) && State(Name(), Data(k)) == Before(k)
  {
    hide Piece, Values, SymbolOf, Run, Before, Expand, Fed, Listed, AllSymbols;
    if k == 0 {
      NameState();
      assert Expand(Name()) + [] == Expand(Name());
    } else {
      TextState(k - 1);
      PieceValues(k - 1);
      ValuesFit(k - 1);
      ReadListed(Piece(k - 1));
      PieceState(k - 1);
      FedIsRun(Before(k - 1), Values(k - 1));
      StateSplit(Name(), Data(k - 1), Listed(Values(k - 1)));
      assert SymbolsOf(Text(k - 1) + Listed(Piece(k - 1))) == SymbolsOf(Text(k - 1)) + SymbolsOf(Listed(Piece(k - 1)));
    }
  }

  /** The pin decodes to that digest, and the digest encodes to that pin. */
  lemma PinDecodes()
    ensures Decoding(Name() + [0x2d] + Text(8)) == Ok(Name(), Digest(7))
    ensures Encoding(Name(), Digest(7)) == Name() + [0x2d] + Text(8)
  {
    hide Text, Data, Digest, Run, Expand, Regroup.Strict, Decoding, Encoding, SymbolOf, State, DecodingParts;
    TextState(8);
    DigestDecodes(Data(7), Digest(7));
    NameValid();
    PartsDecode(Text(8), Digest(7));
    DecodingShape(Name(), Text(8));
    AcceptedIffEncoded(Name() + [0x2d] + Text(8), Name(), Digest(7));
  }

  lemma NameValid()
    ensures ValidHrp(Name())
  {}

  lemma CheckLength()
    ensures |Listed(Values(7))| == WIDTH
  {}

  lemma PartsDecode(chars: Bytes, digest: Bytes)
    requires AllDataChars(chars) && SymbolsOf(chars) == Data(8) && State(Name(), SymbolsOf(chars)) == 1 && |Data(7)| == 52
    requires var values := Data(7); Regroup.Strict(values, 5, 8) == Regroup.Ok(digest)
    ensures |chars| == 58 && DecodingParts(Name(), chars) == Ok(Name(), digest)
  {
    hide Text, Digest, Run, Expand, Regroup.Strict, SymbolOf, State, Listed, Values;
    CheckLength();
    assert Data(8)[..52] == Data(7);
    FirstInvalidIs(chars, 58);
  }
}
