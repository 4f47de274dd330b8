/** What the checksum detects, and why every data part has exactly one valid checksum. */
module Checksum {
  import opened Polymod

  const STATES: bv32 := 0x40000000

  function Zeros(n: nat): seq<bv8> {
    seq(n, i => 0)
  }

  function XorEach(u: seq<bv8>, v: seq<bv8>): (w: seq<bv8>)
    requires |u| == |v|
    ensures |w| == |u|
  {
    seq(|u|, i requires 0 <= i < |u| => u[i] ^ v[i])
  }

  // ---- running over sequences ----

  lemma {:induction false} RunAppend(chk: bv32, u: seq<bv8>, v: seq<bv8>)
    ensures Run(chk, u + v) == Run(Run(chk, u), v)
  {
    if v == [] {
      assert u + v == u;
    } else {
      var front := v[..|v| - 1];
      assert (u + v)[..|u + v| - 1] == u + front;
      RunAppend(chk, u, front);
    }
  }

  lemma RunLast(chk: bv32, u: seq<bv8>)
    requires u != []
    ensures Run(chk, u) == Step(Run(chk, u[..|u| - 1]), u[|u| - 1])
  {
    hide Step;
  }

  lemma XorEachLast(u: seq<bv8>, v: seq<bv8>)
    requires |u| == |v| > 0
    ensures var n := |u| - 1;
            XorEach(u, v)[..n] == XorEach(u[..n], v[..n]) && XorEach(u, v)[n] == u[n] ^ v[n]
  {}

  lemma RunNothing(chk: bv32, u: seq<bv8>)
    requires u == []
    ensures Run(chk, u) == chk
  {}

  lemma RunsLinearStep(a: bv32, b: bv32, u: seq<bv8>, v: seq<bv8>)
    requires |u| == |v| > 0
    requires var n := |u| - 1; Run(Xor(a, b), XorEach(u[..n], v[..n])) == Xor(Run(a, u[..n]), Run(b, v[..n]))
    ensures Run(Xor(a, b), XorEach(u, v)) == Xor(Run(a, u), Run(b, v))
  {
    hide Run, Step, Xor, XorEach;
    var n := |u| - 1;
    XorEachLast(u, v);
    RunLast(a, u);
    RunLast(b, v);
    RunLast(Xor(a, b), XorEach(u, v));
    StepLinear(Run(a, u[..n]), Run(b, v[..n]), u[n], v[n]);
  }

  lemma {:induction false} RunLinear(a: bv32, b: bv32, u: seq<bv8>, v: seq<bv8>)
    requires |u| == |v|
    ensures Run(Xor(a, b), XorEach(u, v)) == Xor(Run(a, u), Run(b, v))
  {
    hide Run, Step, Xor, XorEach;
    if u == [] {
      RunNothing(a, u);
      RunNothing(b, v);
      RunNothing(Xor(a, b), XorEach(u, v));
    } else {
      var n := |u| - 1;
      RunLinear(a, b, u[..n], v[..n]);
      RunsLinearStep(a, b, u, v);
    }
  }

  lemma StepBound(chk: bv32, v: bv8)
    requires chk < STATES && v < 32
    ensures Step(chk, v) < STATES
  {
    MixBound(chk >> 25, 5);
    ShiftedBound(chk, v);
    XorBound(Shifted(chk, v), Mix(chk >> 25, 5));
  }

  lemma ShiftedBound(chk: bv32, v: bv8)
    requires v < 32
    ensures Shifted(chk, v) < STATES
  {}

  lemma XorBound(a: bv32, b: bv32)
    requires a < STATES && b < STATES
    ensures Xor(a, b) < STATES
  {}

  lemma {:induction false} MixBound(top: bv32, n: nat)
    requires n <= 5
    ensures Mix(top, n) < STATES
  {
    if n > 0 {
      MixBound(top, n - 1);
      XorBound(Mix(top, n - 1), Tap(top, n - 1));
    }
  }

  lemma {:induction false} RunBound(chk: bv32, values: seq<bv8>)
    requires chk < STATES && Symbols(values)
    ensures Run(chk, values) < STATES
  {
    if values != [] {
      RunBound(chk, values[..|values| - 1]);
      StepBound(Run(chk, values[..|values| - 1]), values[|values| - 1]);
    }
  }

  // ---- the zero-input step loses nothing ----

  // The low five bits of a zero-input step determine the symbol that was shifted out.
  lemma MixExplicit(top: bv32)
    ensures Mix(top, 5) ==
            Xor(Xor(Xor(Xor(Tap(top, 0), Tap(top, 1)), Tap(top, 2)), Tap(top, 3)), Tap(top, 4))
  {
    XorLaws(Tap(top, 0));
    assert Mix(top, 1) == Xor(Mix(top, 0), Tap(top, 0));
    assert Mix(top, 2) == Xor(Mix(top, 1), Tap(top, 1));
    assert Mix(top, 3) == Xor(Mix(top, 2), Tap(top, 2));
    assert Mix(top, 4) == Xor(Mix(top, 3), Tap(top, 3));
  }

  lemma MixLowBits(top: bv32)
    requires top < 32 && Mix(top, 5) & 31 == 0
    ensures top == 0
  {
    MixExplicit(top);
  }

  lemma ZeroStepKernel(chk: bv32)
    requires chk < STATES && Step(chk, 0) == 0
    ensures chk == 0
  {
    MixLowBits(chk >> 25);
  }

  /** A zero symbol takes different states to different states. */
  lemma ZeroStepInjective(a: bv32, b: bv32)
    requires a < STATES && b < STATES && Step(a, 0) == Step(b, 0)
    ensures a == b
  {
    hide Step;
    StepLinear(a, b, 0, 0);
    XorZero(Step(a, 0), Step(b, 0));
    XorBound(a, b);
    SymbolXor(0, 0);
    ZeroStepKernel(Xor(a, b));
    XorZero(a, b);
  }

  lemma StepZero()
    ensures Step(0, 0) == 0
  {
    MixExplicit(0);
  }

  lemma {:induction false} ZeroRunKernel(chk: bv32, n: nat)
    requires chk < STATES
    ensures Run(chk, Zeros(n)) == 0 <==> chk == 0
  {
    if n > 0 {
      assert Zeros(n)[..n - 1] == Zeros(n - 1);
      ZeroRunKernel(chk, n - 1);
      RunBound(chk, Zeros(n - 1));
      StepZero();
      if Run(chk, Zeros(n)) == 0 {
        ZeroStepKernel(Run(chk, Zeros(n - 1)));
      }
    }
  }

  // ---- six symbols fill the register exactly ----

  const WIDTH: nat := 6

  function Push(packed: bv32, v: bv8): bv32 {
    (packed << 5) | (v as bv32)
  }

  function Pack(w: seq<bv8>): bv32
    requires |w| == WIDTH
  {
    Push(Push(Push(Push(Push(w[0] as bv32, w[1]), w[2]), w[3]), w[4]), w[5])
  }

  function LastSymbol(packed: bv32): (v: bv8)
    ensures v < 32
  {
    (packed & 31) as bv8
  }

  function Unpack(packed: bv32): (w: seq<bv8>)
    ensures |w| == WIDTH && Symbols(w)
  {
    [LastSymbol(packed >> 25), LastSymbol(packed >> 20), LastSymbol(packed >> 15),
     LastSymbol(packed >> 10), LastSymbol(packed >> 5), LastSymbol(packed)]
  }

  lemma PushPop(packed: bv32, v: bv8)
    requires packed < 0x2000000 && v < 32
    ensures Push(packed, v) >> 5 == packed && LastSymbol(Push(packed, v)) == v
  {}

  lemma PopPush(packed: bv32)
    ensures Push(packed >> 5, LastSymbol(packed)) == packed
  {}

  // From the zero state the first six symbols never reach the feedback taps.
  lemma PushStep(packed: bv32, v: bv8)
    requires packed < 0x2000000 && v < 32
    ensures Step(packed, v) == Push(packed, v)
  {
    assert packed >> 25 == 0;
    MixExplicit(0);
    XorLaws(Shifted(packed, v));
    PushShifts(packed, v);
  }

  lemma PushShifts(packed: bv32, v: bv8)
    requires packed < 0x2000000 && v < 32
    ensures Shifted(packed, v) == Push(packed, v)
  {}

  lemma PushBounds(packed: bv32, v: bv8)
    requires v < 32
    ensures packed < 0x20 ==> Push(packed, v) < 0x400
    ensures packed < 0x400 ==> Push(packed, v) < 0x8000
    ensures packed < 0x8000 ==> Push(packed, v) < 0x100000
    ensures packed < 0x100000 ==> Push(packed, v) < 0x2000000
  {}

  lemma PackBounds(w: seq<bv8>)
    requires |w| == WIDTH && Symbols(w)
    ensures w[0] as bv32 < 0x20
    ensures Push(w[0] as bv32, w[1]) < 0x400
    ensures Push(Push(w[0] as bv32, w[1]), w[2]) < 0x8000
    ensures Push(Push(Push(w[0] as bv32, w[1]), w[2]), w[3]) < 0x100000
    ensures Push(Push(Push(Push(w[0] as bv32, w[1]), w[2]), w[3]), w[4]) < 0x2000000
  {
    PushBounds(w[0] as bv32, w[1]);
    PushBounds(Push(w[0] as bv32, w[1]), w[2]);
    PushBounds(Push(Push(w[0] as bv32, w[1]), w[2]), w[3]);
    PushBounds(Push(Push(Push(w[0] as bv32, w[1]), w[2]), w[3]), w[4]);
  }

  lemma ShiftsCompose(packed: bv32)
    ensures packed >> 10 == (packed >> 5) >> 5
    ensures packed >> 15 == (packed >> 10) >> 5
    ensures packed >> 20 == (packed >> 15) >> 5
    ensures packed >> 25 == (packed >> 20) >> 5
  {}

  lemma PackUnpack(w: seq<bv8>)
    requires |w| == WIDTH && Symbols(w)
    ensures Unpack(Pack(w)) == w
  {
    PackBounds(w);
    var p1 := Push(w[0] as bv32, w[1]);
    var p2 := Push(p1, w[2]);
    var p3 := Push(p2, w[3]);
    var p4 := Push(p3, w[4]);
    PushPop(w[0] as bv32, w[1]);
    PushPop(p1, w[2]);
    PushPop(p2, w[3]);
    PushPop(p3, w[4]);
    PushPop(p4, w[5]);
    ShiftsCompose(Pack(w));
    LastOfSmall(w[0]);
  }

  lemma LastOfSmall(v: bv8)
    requires v < 32
    ensures LastSymbol(v as bv32) == v
  {}

  lemma SmallTop(packed: bv32)
    requires packed < STATES
    ensures LastSymbol(packed >> 25) as bv32 == packed >> 25
  {}

  lemma UnpackPack(packed: bv32)
    requires packed < STATES
    ensures Pack(Unpack(packed)) == packed
  {
    ShiftsCompose(packed);
    SmallTop(packed);
    PopPush(packed);
    PopPush(packed >> 5);
    PopPush(packed >> 10);
    PopPush(packed >> 15);
    PopPush(packed >> 20);
  }

  lemma RunPushes(w: seq<bv8>, n: nat, packed: bv32)
    requires n < |w| && w[n] < 32 && packed < 0x2000000 && Run(0, w[..n]) == packed
    ensures Run(0, w[..n + 1]) == Push(packed, w[n])
  {
    assert w[..n + 1][..n] == w[..n];
    PushStep(packed, w[n]);
  }

  lemma PushZero(v: bv8)
    ensures Push(0, v) == v as bv32
  {}

  lemma RunPacksThree(w: seq<bv8>)
    requires |w| == WIDTH && Symbols(w)
    ensures Run(0, w[..3]) == Push(Push(w[0] as bv32, w[1]), w[2])
  {
    hide Push, Run;
    RunEmpty(0, w);
    PackBounds(w);
    PushZero(w[0]);
    RunPushes(w, 0, 0);
    RunPushes(w, 1, w[0] as bv32);
    RunPushes(w, 2, Push(w[0] as bv32, w[1]));
  }

  lemma RunEmpty(chk: bv32, w: seq<bv8>)
    ensures Run(chk, w[..0]) == chk
  {}

  lemma RunPacks(w: seq<bv8>)
    requires |w| == WIDTH && Symbols(w)
    ensures Run(0, w) == Pack(w)
  {
    hide Push, Run;
    PackBounds(w);
    RunPacksThree(w);
    var p2 := Push(Push(w[0] as bv32, w[1]), w[2]);
    RunPushes(w, 3, p2);
    RunPushes(w, 4, Push(p2, w[3]));
    RunPushes(w, 5, Push(Push(p2, w[3]), w[4]));
    assert w[..6] == w;
  }

  lemma PackZero(w: seq<bv8>)
    requires |w| == WIDTH && Symbols(w) && Pack(w) == 0
    ensures w == Zeros(WIDTH)
  {
    PackUnpack(w);
    PackUnpack(Zeros(WIDTH));
    RunPacks(Zeros(WIDTH));
    ZeroRunKernel(0, WIDTH);
  }

  // ---- burst detection ----

  lemma XorZero(a: bv32, b: bv32)
    ensures Xor(a, b) == 0 <==> a == b
  {}

  lemma SymbolXor(a: bv8, b: bv8)
    ensures a ^ b == 0 <==> a == b
    ensures a < 32 && b < 32 ==> a ^ b < 32
  {}

  lemma XorEachSymbols(u: seq<bv8>, v: seq<bv8>)
    requires |u| == |v| && Symbols(u) && Symbols(v)
    ensures Symbols(XorEach(u, v))
    ensures XorEach(u, v) == Zeros(|u|) ==> u == v
  {
    forall i | 0 <= i < |u|
      ensures XorEach(u, v)[i] < 32
      ensures XorEach(u, v)[i] == 0 <==> u[i] == v[i]
    {
      SymbolXor(u[i], v[i]);
    }
    if XorEach(u, v) == Zeros(|u|) {
      forall i | 0 <= i < |u|
        ensures u[i] == v[i]
      {
        assert XorEach(u, v)[i] == Zeros(|u|)[i];
      }
    }
  }

  lemma XorEachSelf(u: seq<bv8>)
    ensures XorEach(u, u) == Zeros(|u|)
  {
    forall i | 0 <= i < |u|
      ensures u[i] ^ u[i] == 0
    {
      SymbolXor(u[i], u[i]);
    }
  }

  // Two states that end up equal on a common suffix were equal before it.
  lemma SuffixInjective(a: bv32, b: bv32, suffix: seq<bv8>)
    requires a < STATES && b < STATES && Run(a, suffix) == Run(b, suffix)
    ensures a == b
  {
    RunLinear(a, b, suffix, suffix);
    XorEachSelf(suffix);
    XorZero(Run(a, suffix), Run(b, suffix));
    XorBound(a, b);
    ZeroRunKernel(Xor(a, b), |suffix|);
    XorZero(a, b);
  }

  /** Any number of zero symbols takes different states to different states. */
  lemma ZeroRunInjective(a: bv32, b: bv32, n: nat)
    requires a < STATES && b < STATES && Run(a, Zeros(n)) == Run(b, Zeros(n))
    ensures a == b
  {
    SuffixInjective(a, b, Zeros(n));
  }

  // From one state, six symbols lead to distinct states.
  lemma WindowInjective(chk: bv32, w1: seq<bv8>, w2: seq<bv8>)
    requires |w1| == |w2| == WIDTH && Symbols(w1) && Symbols(w2) && Run(chk, w1) == Run(chk, w2)
    ensures w1 == w2
  {
    RunLinear(chk, chk, w1, w2);
    XorZero(chk, chk);
    XorZero(Run(chk, w1), Run(chk, w2));
    XorEachSymbols(w1, w2);
    RunPacks(XorEach(w1, w2));
    PackZero(XorEach(w1, w2));
  }

  /** Any two words with the same checksum residue that differ only inside six consecutive symbols are equal. */
  lemma BurstDetected(chk: bv32, prefix: seq<bv8>, w1: seq<bv8>, w2: seq<bv8>, suffix: seq<bv8>)
    requires chk < STATES && Symbols(prefix) && Symbols(w1) && Symbols(w2)
    requires |w1| == |w2| == WIDTH
    requires Run(chk, prefix + w1 + suffix) == Run(chk, prefix + w2 + suffix)
    ensures w1 == w2
  {
    var state := Run(chk, prefix);
    RunBound(chk, prefix);
    RunAppend(chk, prefix, w1);
    RunAppend(chk, prefix, w2);
    RunAppend(chk, prefix + w1, suffix);
    RunAppend(chk, prefix + w2, suffix);
    RunBound(state, w1);
    RunBound(state, w2);
    SuffixInjective(Run(state, w1), Run(state, w2), suffix);
    WindowInjective(state, w1, w2);
  }

  // ---- every state has exactly one completing checksum ----

  function Completion(chk: bv32): (w: seq<bv8>)
    ensures |w| == WIDTH && Symbols(w)
  {
    Unpack(Xor(Run(chk, Zeros(WIDTH)), 1))
  }

  lemma XorMove(a: bv32, b: bv32, c: bv32)
    ensures Xor(a, b) == c <==> b == Xor(a, c)
  {
    XorAssociative(a, a, b);
    XorAssociative(a, a, c);
    XorLaws(a);
    XorLaws(b);
    XorLaws(c);
  }

  lemma XorEachZero(w: seq<bv8>)
    ensures XorEach(Zeros(|w|), w) == w
  {
    forall i | 0 <= i < |w|
      ensures 0 ^ w[i] == w[i]
    {
      assert 0 ^ w[i] == w[i];
    }
  }

  /** A six-symbol tail completes a state to the residue 1 exactly when it is the computed checksum. */
  lemma CompletionUnique(chk: bv32, w: seq<bv8>)
    requires chk < STATES && |w| == WIDTH && Symbols(w)
    ensures Run(chk, w) == 1 <==> w == Completion(chk)
  {
    var rest := Run(chk, Zeros(WIDTH));
    XorEachZero(w);
    XorLaws(chk);
    RunLinear(chk, 0, Zeros(WIDTH), w);
    RunPacks(w);
    XorMove(rest, Pack(w), 1);
    RunBound(chk, Zeros(WIDTH));
    XorBound(rest, 1);
    UnpackPack(Xor(rest, 1));
    PackUnpack(w);
  }
}
