/** The 8-to-5 and 5-to-8 bit regrouper, specified on unbounded bit strings. */
module Regroup {

  datatype Result<T> = Ok(value: T) | Padding

  // ---- bit strings ----

  // The highest bit position any unread part of the accumulator reaches.
  const TOP: nat := 13

  function OneBit(j: nat): bv32
    requires j < TOP
  {
    if j == 0 then 0x1 else if j == 1 then 0x2 else if j == 2 then 0x4 else if j == 3 then 0x8
    else if j == 4 then 0x10 else if j == 5 then 0x20 else if j == 6 then 0x40 else if j == 7 then 0x80
    else if j == 8 then 0x100 else if j == 9 then 0x200 else if j == 10 then 0x400 else if j == 11 then 0x800 else 0x1000
  }

  // AND under a name of its own, for the same reason as XOR.
  function And(a: bv32, b: bv32): bv32 {
    a & b
  }

  predicate Meets(x: bv32, m: bv32) {
    And(x, m) != 0
  }

  predicate BitAt(x: bv32, j: nat)
    requires j < TOP
  {
    Meets(x, OneBit(j))
  }

  // The low n bits of x, most significant first.
  function Low(x: bv32, n: nat): (bits: seq<bool>)
    requires n <= TOP
    ensures |bits| == n
  {
    seq(n, i requires 0 <= i < n => BitAt(x, n - 1 - i))
  }

  // One value as w bits.
  function ByteBits(v: bv8, w: nat): (bits: seq<bool>)
    requires w <= TOP
    ensures |bits| == w
  {
    Low(v as bv32, w)
  }

  predicate Width(w: nat) {
    w == 5 || w == 8
  }

  predicate Fits(values: seq<bv8>, w: nat) {
    w == 5 ==> forall i :: 0 <= i < |values| ==> values[i] < 32
  }

  // The values written out as one bit string, w bits each.
  function Bits(values: seq<bv8>, w: nat): (bits: seq<bool>)
    requires Width(w)
    ensures |bits| == if w == 5 then 5 * |values| else 8 * |values|
  {
    if values == [] then [] else Bits(values[..|values| - 1], w) + ByteBits(values[|values| - 1], w)
  }

  // The bits left over when n bits are cut into groups of w.
  function Left(n: nat, w: nat): (k: nat)
    requires Width(w)
    ensures k < w && k <= n
  {
    if w == 5 then n % 5 else n % 8
  }

  function Zeros(n: nat): seq<bool> {
    seq(n, i => false)
  }

  function Weight(b: bool, w: bv8): bv8 {
    if b then w else 0
  }

  // The value a group of w bits spells.
  function Value(bits: seq<bool>): bv8
    requires Width(|bits|)
  {
    if |bits| == 5 then
      Weight(bits[0], 16) | Weight(bits[1], 8) | Weight(bits[2], 4) | Weight(bits[3], 2) | Weight(bits[4], 1)
    else
      Weight(bits[0], 128) | Weight(bits[1], 64) | Weight(bits[2], 32) | Weight(bits[3], 16)
      | Weight(bits[4], 8) | Weight(bits[5], 4) | Weight(bits[6], 2) | Weight(bits[7], 1)
  }

  // A bit string of whole groups, cut into groups of w bits.
  function Groups(bits: seq<bool>, w: nat): seq<bv8>
    requires Width(w)
  {
    if |bits| < w then [] else Groups(bits[..|bits| - w], w) + [Value(bits[|bits| - w..])]
  }

  lemma ValueOfLow5(v: bv8)
    requires v < 32
    ensures Value(ByteBits(v, 5)) == v
  {}

  lemma ValueOfLow8(v: bv8)
    ensures Value(ByteBits(v, 8)) == v
  {}

  lemma LowOfValue5(bits: seq<bool>)
    requires |bits| == 5
    ensures ByteBits(Value(bits), 5) == bits && Value(bits) < 32
  {}

  lemma LowOfValue8(bits: seq<bool>)
    requires |bits| == 8
    ensures ByteBits(Value(bits), 8) == bits
  {}

  // ---- bit strings and values determine each other ----

  lemma {:induction false} GroupsOfBits(values: seq<bv8>, w: nat)
    requires Width(w) && Fits(values, w)
    ensures Groups(Bits(values, w), w) == values
  {
    hide ByteBits, Value;
    if values != [] {
      var n := |values| - 1;
      GroupsOfBits(values[..n], w);
      var bits := Bits(values, w);
      assert bits[..|bits| - w] == Bits(values[..n], w);
      assert bits[|bits| - w..] == ByteBits(values[n], w);
      if w == 5 { ValueOfLow5(values[n]); } else { ValueOfLow8(values[n]); }
    }
  }

  lemma {:induction false} BitsOfGroups(bits: seq<bool>, w: nat)
    requires Width(w) && Left(|bits|, w) == 0
    ensures Bits(Groups(bits, w), w) == bits && Fits(Groups(bits, w), w)
  {
    hide ByteBits, Value, Bits, Left, Fits;
    BitsEmpty(w);
    if bits != [] {
      LeftStep(|bits|, w);
      var front, last := bits[..|bits| - w], bits[|bits| - w..];
      BitsOfGroups(front, w);
      EmitBits(Groups(front, w), Value(last), w);
      if w == 5 { LowOfValue5(last); } else { LowOfValue8(last); }
      FitsAppend(Groups(front, w), Value(last), w);
      assert front + last == bits;
    }
  }

  lemma LeftStep(n: nat, w: nat)
    requires Width(w) && n > 0 && Left(n, w) == 0
    ensures n >= w && Left(n - w, w) == 0
  {}

  lemma BitsEmpty(w: nat)
    requires Width(w)
    ensures Bits([], w) == [] && Fits([], w)
  {}

  lemma FitsAppend(values: seq<bv8>, v: bv8, w: nat)
    requires Fits(values, w) && (w == 5 ==> v < 32)
    ensures Fits(values + [v], w)
  {}

  lemma FitsAt(values: seq<bv8>, n: nat, w: nat)
    requires Fits(values, w) && n < |values|
    ensures w == 5 ==> values[n] < 32
  {}

  lemma FitsBytes(values: seq<bv8>)
    ensures Fits(values, 8)
  {}

  lemma EmitBits(ret: seq<bv8>, v: bv8, w: nat)
    requires Width(w)
    ensures Bits(ret + [v], w) == Bits(ret, w) + ByteBits(v, w)
  {
    assert (ret + [v])[..|ret|] == ret;
  }

  lemma BitsInjective(u: seq<bv8>, v: seq<bv8>, w: nat)
    requires Width(w) && Fits(u, w) && Fits(v, w) && Bits(u, w) == Bits(v, w)
    ensures u == v
  {
    GroupsOfBits(u, w);
    GroupsOfBits(v, w);
  }

  // ---- what the shifts do to the bits ----

  // Shifts of the uint32 accumulator, one bit at a time; what passes bit 31 is lost.
  function ShiftLeft(x: bv32, k: nat): bv32
    decreases k
  {
    if k == 0 then x else ShiftLeft(x << 1, k - 1)
  }

  function ShiftRight(x: bv32, k: nat): bv32
    decreases k
  {
    if k == 0 then x else ShiftRight(x >> 1, k - 1)
  }

  function Append(acc: bv32, v: bv8, w: nat): bv32
    requires Width(w)
  {
    ShiftLeft(acc, w) | (v as bv32)
  }

  lemma ShiftRightOneBit(x: bv32, j: nat)
    requires j + 1 < TOP
    ensures BitAt(x >> 1, j) == BitAt(x, j + 1)
  {
    hide OneBit, Meets;
    NextBit(j);
    RightMeets(x, OneBit(j));
  }

  lemma NextBit(j: nat)
    requires j + 1 < TOP
    ensures OneBit(j + 1) == OneBit(j) << 1 && OneBit(j) == OneBit(j + 1) >> 1 && OneBit(j) < 0x80000000
    ensures OneBit(0) >> 1 == 0
  {}

  lemma RightMeets(x: bv32, m: bv32)
    requires m < 0x80000000
    ensures Meets(x >> 1, m) == Meets(x, m << 1)
  {}

  lemma LeftMeets(x: bv32, m: bv32)
    ensures Meets(x << 1, m) == Meets(x, m >> 1)
    ensures !Meets(x, 0)
  {}

  lemma ShiftLeftOneBit(x: bv32, j: nat)
    requires j < TOP
    ensures BitAt(x << 1, j) == if j == 0 then false else BitAt(x, j - 1)
  {
    hide OneBit, Meets;
    NextBit(if j == 0 then 0 else j - 1);
    LeftMeets(x, OneBit(j));
  }

  lemma {:induction false} ShiftRightBit(x: bv32, k: nat, j: nat)
    requires j + k < TOP
    ensures BitAt(ShiftRight(x, k), j) == BitAt(x, j + k)
    decreases k
  {
    hide BitAt;
    if k > 0 {
      ShiftRightBit(x >> 1, k - 1, j);
      ShiftRightOneBit(x, j + k - 1);
    }
  }

  lemma {:induction false} ShiftLeftBit(x: bv32, k: nat, j: nat)
    requires j < TOP
    ensures BitAt(ShiftLeft(x, k), j) == if j < k then false else BitAt(x, j - k)
    decreases k
  {
    hide BitAt;
    if k > 0 {
      ShiftLeftBit(x << 1, k - 1, j);
      if j >= k - 1 { ShiftLeftOneBit(x, j - (k - 1)); }
    }
  }

  lemma OrMeets(x: bv32, y: bv32, m: bv32)
    ensures Meets(x | y, m) == (Meets(x, m) || Meets(y, m))
  {
    assert (x | y) & m == (x & m) | (y & m);
  }

  lemma OrBit(x: bv32, y: bv32, j: nat)
    requires j < TOP
    ensures BitAt(x | y, j) == (BitAt(x, j) || BitAt(y, j))
  {
    hide OneBit, Meets;
    OrMeets(x, y, OneBit(j));
  }

  lemma HighBit(v: bv8, w: nat, j: nat)
    requires Width(w) && (w == 5 ==> v < 32) && w <= j < TOP
    ensures !BitAt(v as bv32, j)
  {
    if j == 5 {} else if j == 6 {} else if j == 7 {} else if j == 8 {} else if j == 9 {} else if j == 10 {} else if j == 11 {}
  }

  lemma AppendBit(acc: bv32, v: bv8, w: nat, j: nat)
    requires Width(w) && (w == 5 ==> v < 32) && j < TOP
    ensures BitAt(Append(acc, v, w), j) == if j < w then BitAt(v as bv32, j) else BitAt(acc, j - w)
  {
    hide BitAt, ShiftLeft, Append;
    AppendedBit(acc, v, v as bv32, w, j);
    if j >= w { HighBit(v, w, j); }
  }

  lemma AppendedBit(acc: bv32, v: bv8, x: bv32, w: nat, j: nat)
    requires Width(w) && x == v as bv32 && j < TOP
    ensures BitAt(Append(acc, v, w), j) == ((j >= w && BitAt(acc, j - w)) || BitAt(x, j))
  {
    hide BitAt, ShiftLeft;
    OrBit(ShiftLeft(acc, w), x, j);
    ShiftLeftBit(acc, w, j);
  }

  // ---- masking to the output width ----

  function Mask(w: nat): bv32
    requires Width(w)
  {
    (1 << w) - 1
  }

  function Masked(x: bv32, w: nat): (v: bv8)
    requires Width(w)
    ensures w == 5 ==> v < 32
  {
    (x & Mask(w)) as bv8
  }

  lemma MaskedBit(x: bv32, w: nat, j: nat)
    requires Width(w) && j < w
    ensures BitAt(Masked(x, w) as bv32, j) == BitAt(x, j)
  {
    hide Masked, Mask, OneBit, Meets, And;
    MaskedValue(x, w);
    OneBitWithin(w, j);
    AndMeets(x, Mask(w), OneBit(j));
  }

  lemma MaskedValue(x: bv32, w: nat)
    requires Width(w)
    ensures Masked(x, w) as bv32 == And(x, Mask(w))
  {}

  lemma OneBitWithin(w: nat, j: nat)
    requires Width(w) && j < w
    ensures And(OneBit(j), Mask(w)) == OneBit(j)
  {}

  lemma AndMeets(x: bv32, k: bv32, m: bv32)
    requires And(m, k) == m
    ensures Meets(And(x, k), m) == Meets(x, m)
  {
    hide And;
    AndAssociates(x, k, m);
  }

  lemma AndAssociates(x: bv32, k: bv32, m: bv32)
    ensures And(And(x, k), m) == And(x, And(m, k))
  {}

  // ---- the pending bits ----

  lemma LowAppend(acc: bv32, n: nat, v: bv8, w: nat)
    requires Width(w) && (w == 5 ==> v < 32) && n + w <= TOP
    ensures Low(Append(acc, v, w), n + w) == Low(acc, n) + ByteBits(v, w)
  {
    hide BitAt, Append;
    var next := Append(acc, v, w);
    var joined := Low(acc, n) + ByteBits(v, w);
    forall i | 0 <= i < n + w
      ensures Low(next, n + w)[i] == joined[i]
    {
      AppendBit(acc, v, w, n + w - 1 - i);
    }
  }

  lemma SplitBit(acc: bv32, k: nat, w: nat, j: nat)
    requires Width(w) && k + w <= TOP && j < w
    ensures BitAt(Masked(ShiftRight(acc, k), w) as bv32, j) == BitAt(acc, j + k)
  {
    hide BitAt, Masked, ShiftRight;
    MaskedBit(ShiftRight(acc, k), w, j);
    ShiftRightBit(acc, k, j);
  }

  lemma LowSplit(acc: bv32, k: nat, w: nat)
    requires Width(w) && k + w <= TOP
    ensures Low(acc, k + w) == ByteBits(Masked(ShiftRight(acc, k), w), w) + Low(acc, k)
  {
    hide BitAt, Masked, ShiftRight, Low;
    var v := Masked(ShiftRight(acc, k), w) as bv32;
    forall i | 0 <= i < w
      ensures Low(acc, k + w)[i] == Low(v, w)[i]
    {
      SplitBit(acc, k, w, w - 1 - i);
      LowAt(acc, k + w, i);
      LowAt(v, w, i);
    }
    forall i | 0 <= i < k
      ensures Low(acc, k)[i] == Low(acc, k + w)[i + w]
    {
      LowAt(acc, k + w, i + w);
      LowAt(acc, k, i);
    }
  }

  lemma LowAt(x: bv32, n: nat, i: nat)
    requires i < n <= TOP
    ensures Low(x, n)[i] == BitAt(x, n - 1 - i)
  {}

  lemma LowPadded(acc: bv32, n: nat, w: nat)
    requires Width(w) && n < w
    ensures ByteBits(Masked(ShiftLeft(acc, w - n), w), w) == Low(acc, n) + Zeros(w - n)
  {
    hide BitAt, Masked, ShiftLeft, Low;
    var v := Masked(ShiftLeft(acc, w - n), w) as bv32;
    forall i | 0 <= i < w
      ensures Low(v, w)[i] == (i < n && Low(acc, n)[i])
    {
      LowAt(v, w, i);
      MaskedBit(ShiftLeft(acc, w - n), w, w - 1 - i);
      ShiftLeftBit(acc, w - n, w - 1 - i);
      if i < n { LowAt(acc, n, i); }
    }
  }

  lemma ZeroValue(v: bv8, w: nat)
    requires Width(w) && (w == 5 ==> v < 32)
    ensures v == 0 <==> ByteBits(v, w) == Zeros(w)
  {
    forall i | 0 <= i < w
      ensures !Low(0, w)[i]
    {
      ZeroBit(w - 1 - i);
    }
    assert Low(0, w) == Zeros(w);
    if w == 5 {
      ValueOfLow5(v);
      ValueOfLow5(0);
    } else {
      ValueOfLow8(v);
      ValueOfLow8(0);
    }
  }

  lemma ZeroBit(j: nat)
    requires j < TOP
    ensures !BitAt(0, j)
  {}

  // ---- the regrouper ----

  // Zero bits needed to fill the last group.
  function Fill(n: nat, w: nat): nat
    requires Width(w)
  {
    if Left(n, w) == 0 then 0 else w - Left(n, w)
  }

  // Regrouping with padding: the input bits, filled with zeros to whole groups.
  function Padded(data: seq<bv8>, fromBits: nat, toBits: nat): seq<bv8>
    requires Width(fromBits) && Width(toBits)
  {
    var bits := Bits(data, fromBits);
    Groups(bits + Zeros(Fill(|bits|, toBits)), toBits)
  }

  // Regrouping without padding: the leftover bits must be fewer than one input group, and zero.
  function Strict(data: seq<bv8>, fromBits: nat, toBits: nat): Result<seq<bv8>>
    requires Width(fromBits) && Width(toBits)
  {
    var bits := Bits(data, fromBits);
    var left := Left(|bits|, toBits);
    if left < fromBits && bits[|bits| - left..] == Zeros(left)
    then Ok(Groups(bits[..|bits| - left], toBits))
    else Padding
  }

  method ConvertBits(data: seq<bv8>, fromBits: nat, toBits: nat, pad: bool) returns (r: Result<seq<bv8>>)
    requires Width(fromBits) && Width(toBits) && fromBits != toBits && Fits(data, fromBits)
    ensures pad ==> r == Ok(Padded(data, fromBits, toBits))
    ensures !pad ==> r == Strict(data, fromBits, toBits)
  {
    hide Low, Append, Masked, ShiftLeft, ShiftRight, Bits, Padded, Strict, Fits;
    BitsEmpty(fromBits);
    BitsEmpty(toBits);
    var acc: bv32, bits: nat, ret: seq<bv8> := 0, 0, [];
    for n := 0 to |data|
      invariant bits < toBits && Fits(ret, toBits)
      invariant Bits(ret, toBits) + Low(acc, bits) == Bits(data[..n], fromBits)
    {
      Absorb(data, n, fromBits, Bits(ret, toBits), acc, bits);
      acc := Append(acc, data[n], fromBits);
      bits := bits + fromBits;
      while bits >= toBits
        invariant bits < toBits + fromBits && Fits(ret, toBits)
        invariant Bits(ret, toBits) + Low(acc, bits) == Bits(data[..n + 1], fromBits)
      {
        bits := bits - toBits;
        Emit(ret, toBits, acc, bits);
        FitsAppend(ret, Masked(ShiftRight(acc, bits), toBits), toBits);
        ret := ret + [Masked(ShiftRight(acc, bits), toBits)];
      }
    }
    assert data[..|data|] == data;
    if pad {
      PaddedTail(data, fromBits, toBits, acc, bits, ret);
      if bits > 0 {
        ret := ret + [Masked(ShiftLeft(acc, toBits - bits), toBits)];
      }
    } else {
      StrictTail(data, fromBits, toBits, acc, bits, ret);
      if bits >= fromBits || Masked(ShiftLeft(acc, toBits - bits), toBits) != 0 {
        return Padding;
      }
    }
    return Ok(ret);
  }

  lemma Absorb(data: seq<bv8>, n: nat, w: nat, emitted: seq<bool>, acc: bv32, bits: nat)
    requires Width(w) && Fits(data, w) && n < |data| && bits + w <= TOP
    requires emitted + Low(acc, bits) == Bits(data[..n], w)
    ensures emitted + Low(Append(acc, data[n], w), bits + w) == Bits(data[..n + 1], w)
  {
    hide Low, ByteBits, Append, Bits, Fits;
    assert data[..n] + [data[n]] == data[..n + 1];
    FitsAt(data, n, w);
    EmitBits(data[..n], data[n], w);
    LowAppend(acc, bits, data[n], w);
    var a, b, c := emitted, Low(acc, bits), ByteBits(data[n], w);
    assert a + (b + c) == (a + b) + c;
  }

  lemma Emit(ret: seq<bv8>, w: nat, acc: bv32, bits: nat)
    requires Width(w) && bits < 8 && bits + w <= TOP
    ensures Bits(ret + [Masked(ShiftRight(acc, bits), w)], w) + Low(acc, bits) == Bits(ret, w) + Low(acc, bits + w)
  {
    hide Low, ByteBits, Masked, ShiftRight, Bits;
    var v := Masked(ShiftRight(acc, bits), w);
    EmitBits(ret, v, w);
    LowSplit(acc, bits, w);
    var a, b, c := Bits(ret, w), ByteBits(v, w), Low(acc, bits);
    assert a + (b + c) == (a + b) + c;
  }

  lemma PaddedFromBits(data: seq<bv8>, fromBits: nat, toBits: nat, ret: seq<bv8>)
    requires Width(fromBits) && Width(toBits) && Fits(ret, toBits)
    requires Bits(ret, toBits) == Bits(data, fromBits) + Zeros(Fill(|Bits(data, fromBits)|, toBits))
    ensures ret == Padded(data, fromBits, toBits)
  {
    hide Bits, Groups, Fits, Left;
    GroupsOfBits(ret, toBits);
  }

  lemma PaddedTail(data: seq<bv8>, fromBits: nat, toBits: nat, acc: bv32, bits: nat, ret: seq<bv8>)
    requires Width(fromBits) && Width(toBits) && bits < toBits && Fits(ret, toBits)
    requires Bits(ret, toBits) + Low(acc, bits) == Bits(data, fromBits)
    ensures Padded(data, fromBits, toBits) ==
            if bits == 0 then ret else ret + [Masked(ShiftLeft(acc, toBits - bits), toBits)]
  {
    hide Low, ByteBits, Masked, ShiftLeft, Bits, Padded, Left, Fits;
    Leftover(ret, toBits, Low(acc, bits), Bits(data, fromBits));
    if bits == 0 {
      assert Bits(data, fromBits) + Zeros(0) == Bits(ret, toBits);
      PaddedFromBits(data, fromBits, toBits, ret);
    } else {
      var v := Masked(ShiftLeft(acc, toBits - bits), toBits);
      LowPadded(acc, bits, toBits);
      EmitBits(ret, v, toBits);
      FitsAppend(ret, v, toBits);
      var a, b, c := Bits(ret, toBits), Low(acc, bits), Zeros(toBits - bits);
      assert a + (b + c) == (a + b) + c;
      PaddedFromBits(data, fromBits, toBits, ret + [v]);
    }
  }

  lemma StrictTail(data: seq<bv8>, fromBits: nat, toBits: nat, acc: bv32, bits: nat, ret: seq<bv8>)
    requires Width(fromBits) && Width(toBits) && Fits(data, fromBits) && bits < toBits && Fits(ret, toBits)
    requires Bits(ret, toBits) + Low(acc, bits) == Bits(data, fromBits)
    ensures Strict(data, fromBits, toBits) ==
            if bits >= fromBits || Masked(ShiftLeft(acc, toBits - bits), toBits) != 0 then Padding else Ok(ret)
  {
    hide Low, ByteBits, Masked, ShiftLeft, Groups, Bits, Fits;
    Leftover(ret, toBits, Low(acc, bits), Bits(data, fromBits));
    LowPadded(acc, bits, toBits);
    ZeroValue(Masked(ShiftLeft(acc, toBits - bits), toBits), toBits);
    ZerosSplit(Low(acc, bits), toBits - bits);
    GroupsOfBits(ret, toBits);
  }

  lemma Leftover(ret: seq<bv8>, w: nat, pending: seq<bool>, bits: seq<bool>)
    requires Width(w) && |pending| < w && Bits(ret, w) + pending == bits
    ensures Left(|bits|, w) == |pending| && bits[|bits| - |pending|..] == pending
    ensures bits[..|bits| - |pending|] == Bits(ret, w)
  {
    hide Left;
    if w == 5 { LeftIs(5, |ret|, |pending|); } else { LeftIs(8, |ret|, |pending|); }
  }

  lemma LeftIs(w: nat, groups: nat, pending: nat)
    requires Width(w) && pending < w
    ensures w == 5 ==> Left(5 * groups + pending, w) == pending
    ensures w == 8 ==> Left(8 * groups + pending, w) == pending
  {}

  lemma ZerosSplit(bits: seq<bool>, k: nat)
    ensures bits + Zeros(k) == Zeros(|bits| + k) <==> bits == Zeros(|bits|)
  {
    assert Zeros(|bits| + k)[..|bits|] == Zeros(|bits|);
    assert (bits + Zeros(k))[..|bits|] == bits;
    assert Zeros(|bits|) + Zeros(k) == Zeros(|bits| + k);
  }

  // ---- the two directions are mutually inverse ----

  lemma WholeAndFill(n: nat)
    ensures Left(8 * n, 8) == 0
    ensures Left(8 * n + Fill(8 * n, 5), 5) == 0 && Fill(8 * n, 5) < 5
    ensures Left(8 * n + Fill(8 * n, 5), 8) == Fill(8 * n, 5)
  {
    FillWhole(8 * n);
    hide Left, Fill;
    LeftIs(8, n, 0);
    LeftIs(8, n, Fill(8 * n, 5));
  }

  lemma FillWhole(n: nat)
    ensures Fill(n, 5) < 5 && Left(n + Fill(n, 5), 5) == 0
  {
    var q := n / 5;
    if n % 5 == 0 { LeftIs(5, q, 0); } else { LeftIs(5, q + 1, 0); }
  }

  lemma StrictFromBits(values: seq<bv8>, data: seq<bv8>)
    requires Bits(values, 5) == Bits(data, 8) + Zeros(Fill(8 * |data|, 5))
    ensures Strict(values, 5, 8) == Ok(data)
  {
    hide ByteBits, Groups, Fits, Bits, Left, Fill;
    FitsBytes(data);
    var all, fill := Bits(values, 5), Fill(8 * |data|, 5);
    WholeAndFill(|data|);
    SplitAt(Bits(data, 8), Zeros(fill), all);
    GroupsOfBits(data, 8);
  }

  lemma SplitAt(a: seq<bool>, b: seq<bool>, all: seq<bool>)
    requires all == a + b
    ensures all[|all| - |b|..] == b && all[..|all| - |b|] == a
  {}

  /** Strict regrouping undoes padded regrouping. */
  lemma StrictOfPadded(data: seq<bv8>)
    ensures Fits(Padded(data, 8, 5), 5) && Strict(Padded(data, 8, 5), 5, 8) == Ok(data)
  {
    hide Strict, Groups, Bits, Fits, Left;
    WholeAndFill(|data|);
    BitsOfGroups(Bits(data, 8) + Zeros(Fill(8 * |data|, 5)), 5);
    StrictFromBits(Padded(data, 8, 5), data);
  }

  /** What strict regrouping accepts is exactly what padded regrouping produces. */
  lemma PaddedOfStrict(values: seq<bv8>, data: seq<bv8>)
    requires Fits(values, 5) && Strict(values, 5, 8) == Ok(data)
    ensures Padded(data, 8, 5) == values
  {
    hide Groups, ByteBits, Fits;
    var all := Bits(values, 5);
    var left := Left(|all|, 8);
    var whole := all[..|all| - left];
    assert whole + Zeros(left) == all;
    WholeGroups(all);
    BitsOfGroups(whole, 8);
    FillIsLeft(|values|, |data|, left);
    PaddedFromBits(data, 8, 5, values);
  }

  lemma WholeGroups(all: seq<bool>)
    ensures Left(|all| - Left(|all|, 8), 8) == 0
  {}

  lemma FillIsLeft(values: nat, data: nat, left: nat)
    requires 5 * values == 8 * data + left && left < 5
    ensures Fill(8 * data, 5) == left
  {}

  lemma ValuesLength(data: seq<bv8>)
    ensures |Padded(data, 8, 5)| > 0 <==> |data| > 0
  {
    hide Groups, Fits, Bits;
    GroupsLength(Bits(data, 8) + Zeros(Fill(8 * |data|, 5)));
  }

  lemma GroupsLength(bits: seq<bool>)
    requires Left(|bits|, 5) == 0
    ensures 5 * |Groups(bits, 5)| == |bits|
  {
    hide Groups, Fits;
    BitsOfGroups(bits, 5);
  }
}
