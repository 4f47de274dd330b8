/** The 30-bit shift register behind the blech32 checksum, and the linear algebra that makes it a code. */
module Polymod {

  // A data symbol: one five-bit value carried in a byte.
  predicate Symbols(values: seq<bv8>) {
    forall i :: 0 <= i < |values| ==> values[i] < 32
  }

  const GENERATOR: seq<bv32> := [0x3b6a57b2, 0x26508e6d, 0x1ea119fa, 0x3d4233dd, 0x2a1462b3]

  // XOR under a name of its own: the solver flattens nested `^`, which hides the shape the proofs follow.
  function Xor(a: bv32, b: bv32): bv32 {
    a ^ b
  }

  // Whether bit i of the symbol shifted out is set.
  predicate Selected(top: bv32, i: nat)
    requires i < 5
  {
    if i == 0 then top & 1 != 0
    else if i == 1 then top & 2 != 0
    else if i == 2 then top & 4 != 0
    else if i == 3 then top & 8 != 0
    else top & 16 != 0
  }

  lemma SelectedIsShift(top: bv32, i: nat)
    requires i < 5
    ensures Selected(top, i) <==> (top >> i) & 1 == 1
  {
    if i == 0 {} else if i == 1 {} else if i == 2 {} else if i == 3 {} else {}
  }

  function Tap(top: bv32, i: nat): bv32
    requires i < 5
  {
    if Selected(top, i) then GENERATOR[i] else 0
  }

  function Mix(top: bv32, n: nat): bv32
    requires n <= 5
  {
    if n == 0 then 0 else Xor(Mix(top, n - 1), Tap(top, n - 1))
  }

  function Shifted(chk: bv32, v: bv8): bv32 {
    ((chk & 0x1ffffff) << 5) ^ (v as bv32)
  }

  function Step(chk: bv32, v: bv8): bv32 {
    Xor(Shifted(chk, v), Mix(chk >> 25, 5))
  }

  function Run(chk: bv32, values: seq<bv8>): bv32 {
    if values == [] then chk
    else Step(Run(chk, values[..|values| - 1]), values[|values| - 1])
  }

  method Polymod(values: seq<bv8>) returns (chk: bv32)
    ensures chk == Run(1, values)
  {
    hide Mix, Shifted;
    chk := 1;
    for n := 0 to |values|
      invariant chk == Run(1, values[..n])
    {
      assert values[..n + 1][..n] == values[..n];
      chk := Feed(chk, values[n]);
    }
    assert values[..|values|] == values;
  }

  // One symbol: shift it in, then mix in the generator of every bit shifted out.
  method Feed(chk: bv32, v: bv8) returns (next: bv32)
    ensures next == Step(chk, v)
  {
    hide Mix;
    var top := chk >> 25;
    ghost var shifted := Shifted(chk, v);
    next := ((chk & 0x1ffffff) << 5) ^ (v as bv32);
    assert next == shifted;
    MixNothing(shifted, top);
    for i := 0 to 5
      invariant next == Xor(shifted, Mix(top, i))
    {
      hide Shifted;
      MixNext(shifted, top, i);
      if (top >> i) & 1 == 1 {
        next := next ^ GENERATOR[i];
      }
    }
  }

  lemma MixNothing(shifted: bv32, top: bv32)
    ensures Xor(shifted, Mix(top, 0)) == shifted
  {
    XorLaws(shifted);
  }

  // ---- the step is linear over XOR ----

  lemma XorLaws(a: bv32)
    ensures Xor(a, 0) == a && Xor(0, a) == a && Xor(a, a) == 0
  {}

  lemma XorAssociative(a: bv32, b: bv32, c: bv32)
    ensures Xor(Xor(a, b), c) == Xor(a, Xor(b, c))
  {}

  lemma XorPairs(a: bv32, b: bv32, c: bv32, d: bv32)
    ensures Xor(Xor(a, b), Xor(c, d)) == Xor(Xor(a, c), Xor(b, d))
  {
    XorAssociative(a, b, Xor(c, d));
    XorAssociative(b, c, d);
    XorCommutes(b, c);
    XorAssociative(c, b, d);
    XorAssociative(a, c, Xor(b, d));
  }

  lemma XorCommutes(a: bv32, b: bv32)
    ensures Xor(a, b) == Xor(b, a)
  {}

  lemma MixNext(shifted: bv32, top: bv32, i: nat)
    requires i < 5
    ensures Xor(shifted, Mix(top, i + 1)) ==
            if (top >> i) & 1 == 1 then Xor(Xor(shifted, Mix(top, i)), GENERATOR[i]) else Xor(shifted, Mix(top, i))
  {
    SelectedIsShift(top, i);
    XorAssociative(shifted, Mix(top, i), GENERATOR[i]);
    XorLaws(Mix(top, i));
  }

  lemma SelectedLinear(x: bv32, y: bv32, i: nat)
    requires i < 5
    ensures Selected(Xor(x, y), i) == (Selected(x, i) != Selected(y, i))
  {
    if i == 0 {} else if i == 1 {} else if i == 2 {} else if i == 3 {} else {}
  }

  lemma TapLinear(x: bv32, y: bv32, i: nat)
    requires i < 5
    ensures Tap(Xor(x, y), i) == Xor(Tap(x, i), Tap(y, i))
  {
    SelectedLinear(x, y, i);
    XorLaws(GENERATOR[i]);
    XorLaws(0);
  }

  lemma {:induction false} MixLinear(x: bv32, y: bv32, n: nat)
    requires n <= 5
    ensures Mix(Xor(x, y), n) == Xor(Mix(x, n), Mix(y, n))
  {
    if n == 0 {
      XorLaws(0);
    } else {
      MixLinear(x, y, n - 1);
      TapLinear(x, y, n - 1);
      XorPairs(Mix(x, n - 1), Mix(y, n - 1), Tap(x, n - 1), Tap(y, n - 1));
    }
  }

  lemma ShiftedLinear(a: bv32, b: bv32, u: bv8, v: bv8)
    ensures Shifted(Xor(a, b), u ^ v) == Xor(Shifted(a, u), Shifted(b, v))
    ensures Xor(a, b) >> 25 == Xor(a >> 25, b >> 25)
  {}

  lemma StepLinear(a: bv32, b: bv32, u: bv8, v: bv8)
    ensures Step(Xor(a, b), u ^ v) == Xor(Step(a, u), Step(b, v))
  {
    ShiftedLinear(a, b, u, v);
    MixLinear(a >> 25, b >> 25, 5);
    XorPairs(Shifted(a, u), Shifted(b, v), Mix(a >> 25, 5), Mix(b >> 25, 5));
  }
}
