/** Batch keys, the order formatters run in, and the calls one batch makes. */
module Batching {
  import opened Optional
  import opened Order
  import opened Signing
  import opened Strings

  // hashed is what the formatter contributes to a signature; None when its executable cannot be examined.
  datatype Formatter = Formatter(priority: int, singleFile: bool, hashed: Option<string>)

  type Formatters = map<string, Formatter>

  // ---- keys ----

  predicate NameChar(c: char) {
    'a' <= c <= 'z' || 'A' <= c <= 'Z' || '0' <= c <= '9' || c == '_' || c == '-'
  }

  predicate ValidName(n: string) {
    n != "" && forall c :: c in n ==> NameChar(c)
  }

  function Key(names: seq<string>): string {
    Join(names, ":")
  }

  function Split(key: string): (names: seq<string>)
    ensures names != []
  {
    Strings.Split(key, ':')
  }

  predicate ValidNames(names: seq<string>) {
    forall n :: n in names ==> ValidName(n)
  }

  /** A key decodes to the sequence of names it was made from. */
  lemma KeyRoundTrip(names: seq<string>)
    requires names != [] && ValidNames(names)
    ensures Split(Key(names)) == names
  {
    assert !NameChar(':');
    SplitOfJoin(names, ':');
  }

  // ---- order ----

  // A 64-bit signed difference.
  function Wrap64(x: int): int {
    (x + 0x8000_0000_0000_0000) % 0x1_0000_0000_0000_0000 - 0x8000_0000_0000_0000
  }

  predicate Int64(x: int) {
    -0x8000_0000_0000_0000 <= x < 0x8000_0000_0000_0000
  }

  function Priority(fs: Formatters, n: string): int {
    if n in fs then fs[n].priority else 0
  }

  // The comparison the source sorts by: does a sort no later than b?
  predicate SortsFirst(fs: Formatters, a: string, b: string) {
    var difference := Wrap64(Priority(fs, a) - Priority(fs, b));
    if difference == 0 then LexLeq(a, b) else difference < 0
  }

  // The order it documents: ascending priority, ties by name.
  predicate RunsFirst(fs: Formatters, a: string, b: string) {
    Priority(fs, a) < Priority(fs, b) || (Priority(fs, a) == Priority(fs, b) && LexLeq(a, b))
  }

  /** The subtraction agrees with the documented order exactly when it does not overflow. */
  lemma ComparisonIsOrder(fs: Formatters, a: string, b: string)
    requires Int64(Priority(fs, a)) && Int64(Priority(fs, b))
    ensures SortsFirst(fs, a, b) == RunsFirst(fs, a, b) <==> Int64(Priority(fs, a) - Priority(fs, b))
  {
    hide LexLeq;
  }

  /** Two 64-bit priorities that the comparison puts in the wrong order. */
  lemma OverflowReorders()
    ensures var fs := map["last" := Formatter(0x7fff_ffff_ffff_ffff, false, Some("")), "first" := Formatter(-2, false, Some(""))];
            RunsFirst(fs, "first", "last") && !SortsFirst(fs, "first", "last")
  {}

  // The order the formatters of a file run in.
  function Sequence(fs: Formatters, matches: seq<string>): seq<string> {
    Sort((a: string, b: string) => SortsFirst(fs, a, b), matches)
  }

  predicate PrioritiesFit(fs: Formatters, names: seq<string>) {
    forall a, b :: a in names && b in names ==> Int64(Priority(fs, a) - Priority(fs, b))
  }

  lemma RunsFirstTotal(fs: Formatters)
    ensures TotalOrder((a: string, b: string) => RunsFirst(fs, a, b))
  {
    hide LexLeq;
    LexTotalOrder();
  }

  lemma FittingCompares(fs: Formatters, names: seq<string>, a: string, b: string)
    requires PrioritiesFit(fs, names) && a in names && b in names
    ensures SortsFirst(fs, a, b) == RunsFirst(fs, a, b)
  {
    hide LexLeq;
  }

  // Sorting looks at its comparison on the listed elements only.
  lemma {:induction false} SortAgrees(f: (string, string) -> bool, g: (string, string) -> bool, xs: seq<string>)
    requires forall x, y :: x in xs && y in xs ==> f(x, y) == g(x, y)
    ensures Sort(f, xs) == Sort(g, xs)
    ensures forall x :: x in Sort(f, xs) <==> x in xs
  {
    if xs != [] {
      assert forall x :: x in xs[1..] ==> x in xs;
      SortAgrees(f, g, xs[1..]);
      InsertAgrees(f, g, xs[0], Sort(f, xs[1..]));
      assert xs == [xs[0]] + xs[1..];
    }
  }

  lemma {:induction false} InsertAgrees(f: (string, string) -> bool, g: (string, string) -> bool, x: string,
                                        xs: seq<string>)
    requires forall y :: y in xs ==> f(x, y) == g(x, y)
    ensures Insert(f, x, xs) == Insert(g, x, xs)
    ensures forall y :: y in Insert(f, x, xs) <==> y == x || y in xs
  {
    if xs != [] {
      assert xs[0] in xs && forall y :: y in xs[1..] ==> y in xs;
      InsertAgrees(f, g, x, xs[1..]);
    }
  }

  /** When priorities fit, the sequence is the matching formatters in (priority, name) order, in whatever order they
      were found to match. */
  lemma SequenceIsOrdered(fs: Formatters, a: seq<string>, b: seq<string>)
    requires PrioritiesFit(fs, a) && multiset(a) == multiset(b)
    ensures Sorted((x: string, y: string) => RunsFirst(fs, x, y), Sequence(fs, a))
    ensures multiset(Sequence(fs, a)) == multiset(a) && Sequence(fs, a) == Sequence(fs, b)
  {
    hide RunsFirst, SortsFirst, PrioritiesFit, Sort;
    var leq := (x: string, y: string) => SortsFirst(fs, x, y);
    var order := (x: string, y: string) => RunsFirst(fs, x, y);
    RunsFirstTotal(fs);
    SameMembers(a, b);
    forall x, y | x in a && y in a
      ensures leq(x, y) == order(x, y)
    {
      FittingCompares(fs, a, x, y);
    }
    SortAgrees(leq, order, a);
    SortAgrees(leq, order, b);
    SortSorted(order, a);
    SortPermutation(order, a, b);
  }

  lemma SameMembers(a: seq<string>, b: seq<string>)
    requires multiset(a) == multiset(b)
    ensures forall x :: x in a <==> x in b
  {
    assert forall x :: x in a <==> x in multiset(a);
    assert forall x :: x in b <==> x in multiset(b);
  }

  // ---- signatures of formatter sequences ----

  function Hashed(fs: Formatters, names: seq<string>): Option<string> {
    if names == [] then Some("")
    else if names[0] !in fs then None
    else match (fs[names[0]].hashed, Hashed(fs, names[1..]))
         case (Some(first), Some(rest)) => Some(first + rest)
         case _ => None
  }

  function Signature(hash: Hash, fs: Formatters, names: seq<string>): Option<string> {
    match Hashed(fs, names)
    case Some(text) => Some(hash(text))
    case None => None
  }

  // What each formatter contributes, in order.
  ghost predicate Contribute(fs: Formatters, names: seq<string>, texts: seq<string>) {
    |texts| == |names| && forall i :: 0 <= i < |names| ==> names[i] in fs && fs[names[i]].hashed == Some(texts[i])
  }

  /** There is a text to hash exactly when every formatter of the sequence contributes, and it is their contributions joined
      in order. */
  lemma {:induction false} HashedIs(fs: Formatters, names: seq<string>)
    ensures Hashed(fs, names).Some? <==> forall n :: n in names ==> n in fs && fs[n].hashed.Some?
    ensures forall texts :: Contribute(fs, names, texts) ==> Hashed(fs, names) == Some(Join(texts, ""))
  {
    hide Join;
    if names == [] {
      JoinNothing();
    } else {
      HashedIs(fs, names[1..]);
      assert names == [names[0]] + names[1..];
      forall texts | Contribute(fs, names, texts)
        ensures Hashed(fs, names) == Some(Join(texts, ""))
      {
        assert Contribute(fs, names[1..], texts[1..]);
        JoinFirst(texts);
      }
    }
  }

  lemma JoinNothing()
    ensures Join([], "") == ""
  {}

  lemma JoinFirst(texts: seq<string>)
    requires texts != []
    ensures Join(texts, "") == texts[0] + Join(texts[1..], "")
  {}

  // Two configurations give every formatter of the sequence contributions of one length.
  predicate SameLengths(fs: Formatters, gs: Formatters, names: seq<string>) {
    forall n :: n in names && n in fs && n in gs && fs[n].hashed.Some? && gs[n].hashed.Some? ==>
                  |fs[n].hashed.value| == |gs[n].hashed.value|
  }

  /** Every formatter of the sequence counts: configurations whose contributions have one length per formatter hash the same
      text exactly when all contributions agree. */
  lemma {:induction false} HashedCovers(fs: Formatters, gs: Formatters, names: seq<string>)
    requires Hashed(fs, names).Some? && Hashed(gs, names).Some? && SameLengths(fs, gs, names)
    ensures Hashed(fs, names) == Hashed(gs, names) <==> forall n :: n in names ==> n in fs && n in gs && fs[n].hashed == gs[n].hashed
  {
    if names != [] {
      assert names == [names[0]] + names[1..] && forall n :: n in names[1..] ==> n in names;
      HashedCovers(fs, gs, names[1..]);
      FirstPart(fs[names[0]].hashed.value, Hashed(fs, names[1..]).value, gs[names[0]].hashed.value, Hashed(gs, names[1..]).value);
    }
  }

  lemma FirstPart(a: string, b: string, c: string, d: string)
    requires |a| == |c|
    ensures a + b == c + d <==> a == c && b == d
  {
    if a + b == c + d {
      assert a == (a + b)[..|a|] == c && b == (a + b)[|a|..] == d;
    }
  }

  // ---- the calls one batch makes ----

  // Formatter `name` is given the files [lo, hi) of the batch.
  datatype Call = Call(name: string, lo: nat, hi: nat)

  function Chunk(fs: Formatters, name: string, n: nat): (k: nat)
    requires n > 0
    ensures k > 0
  {
    if name in fs && fs[name].singleFile then 1 else n
  }

  function Chunks(name: string, k: nat, from: nat, n: nat): seq<Call>
    requires k > 0
    decreases n - from
  {
    if from >= n then []
    else if from + k >= n then [Call(name, from, n)]
    else [Call(name, from, from + k)] + Chunks(name, k, from + k, n)
  }

  // Formatter by formatter, chunk by chunk.
  function Plan(fs: Formatters, names: seq<string>, n: nat): seq<Call>
    requires n > 0
  {
    if names == [] then [] else Chunks(names[0], Chunk(fs, names[0], n), 0, n) + Plan(fs, names[1..], n)
  }

  // The formatters that are given file j, in call order.
  function Given(calls: seq<Call>, j: nat): seq<string> {
    if calls == [] then []
    else (if calls[0].lo <= j < calls[0].hi then [calls[0].name] else []) + Given(calls[1..], j)
  }

  lemma {:induction false} GivenConcat(a: seq<Call>, b: seq<Call>, j: nat)
    ensures Given(a + b, j) == Given(a, j) + Given(b, j)
  {
    if a == [] {
      assert a + b == b;
    } else {
      assert (a + b)[1..] == a[1..] + b;
      GivenConcat(a[1..], b, j);
    }
  }

  lemma {:induction false} ChunksPartition(name: string, k: nat, from: nat, n: nat, j: nat)
    requires k > 0
    ensures Given(Chunks(name, k, from, n), j) == if from <= j < n then [name] else []
    decreases n - from
  {
    if from < n && from + k < n {
      ChunksPartition(name, k, from + k, n, j);
      GivenConcat([Call(name, from, from + k)], Chunks(name, k, from + k, n), j);
    }
  }

  lemma {:induction false} ChunkBounds(name: string, k: nat, from: nat, n: nat)
    requires k > 0
    ensures forall c :: c in Chunks(name, k, from, n) ==> c.lo < c.hi <= n && c.hi - c.lo <= k
    decreases n - from
  {
    if from < n && from + k < n { ChunkBounds(name, k, from + k, n); }
  }

  /** Every file of a batch goes through exactly the formatters of the sequence, once each and in order. */
  lemma {:induction false} PlanCovers(fs: Formatters, names: seq<string>, n: nat, j: nat)
    requires j < n
    ensures Given(Plan(fs, names, n), j) == names
    ensures forall c :: c in Plan(fs, names, n) ==> c.lo < c.hi <= n
  {
    hide Chunks, Chunk;
    if names != [] {
      PlanCovers(fs, names[1..], n, j);
      ChunkBounds(names[0], Chunk(fs, names[0], n), 0, n);
      ChunksPartition(names[0], Chunk(fs, names[0], n), 0, n, j);
      GivenConcat(Chunks(names[0], Chunk(fs, names[0], n), 0, n), Plan(fs, names[1..], n), j);
    }
  }

  lemma {:induction false} ChunksOfOne(name: string, from: nat, n: nat)
    requires from <= n
    ensures |Chunks(name, 1, from, n)| == n - from
    ensures forall i :: 0 <= i < n - from ==> Chunks(name, 1, from, n)[i] == Call(name, from + i, from + i + 1)
    decreases n - from
  {
    if from < n { ChunksOfOne(name, from + 1, n); }
  }

  /** A formatter that takes one file at a time is called once per file, in order; any other one is called once with the whole
      batch; and the formatters of a sequence are called one behind the other. */
  lemma PlanCalls(fs: Formatters, names: seq<string>, n: nat)
    requires n > 0 && names != []
    ensures Plan(fs, names, n) == Plan(fs, [names[0]], n) + Plan(fs, names[1..], n)
    ensures if names[0] in fs && fs[names[0]].singleFile
            then |Plan(fs, [names[0]], n)| == n && forall i :: 0 <= i < n ==> Plan(fs, [names[0]], n)[i] == Call(names[0], i, i + 1)
            else Plan(fs, [names[0]], n) == [Call(names[0], 0, n)]
  {
    hide Chunks, Plan;
    PlanStep(fs, names, 0, n);
    PlanOne(fs, names[0], n);
    assert names[0..] == names && names[0 + 1..] == names[1..];
    ChunksOfOne(names[0], 0, n);
    WholeChunk(names[0], n);
  }

  lemma PlanOne(fs: Formatters, name: string, n: nat)
    requires n > 0
    ensures Plan(fs, [name], n) == Chunks(name, Chunk(fs, name, n), 0, n)
  {
    hide Chunks, Chunk;
    assert [name][1..] == [] && Plan(fs, [], n) == [];
  }

  lemma WholeChunk(name: string, n: nat)
    requires n > 0
    ensures Chunks(name, n, 0, n) == [Call(name, 0, n)]
  {}

  lemma PlanStep(fs: Formatters, names: seq<string>, i: nat, n: nat)
    requires i < |names| && n > 0
    ensures Plan(fs, names[i..], n) == Chunks(names[i], Chunk(fs, names[i], n), 0, n) + Plan(fs, names[i + 1..], n)
  {
    hide Chunks, Chunk;
    assert names[i..][1..] == names[i + 1..];
  }

  lemma NothingPlanned(fs: Formatters, names: seq<string>, n: nat)
    requires n > 0
    ensures Plan(fs, names[|names|..], n) == []
  {}

  predicate SomeFails(calls: seq<Call>, succeeds: Call -> bool) {
    exists c :: c in calls && !succeeds(c)
  }

  lemma SomeFailsConcat(a: seq<Call>, b: seq<Call>, succeeds: Call -> bool)
    ensures SomeFails(a + b, succeeds) <==> SomeFails(a, succeeds) || SomeFails(b, succeeds)
  {}

  // One formatter over the batch, chunk by chunk; a failing call does not stop the ones behind it.
  method RunFormatter(name: string, k: nat, n: nat, succeeds: Call -> bool) returns (calls: seq<Call>, failed: bool)
    requires k > 0
    ensures calls == Chunks(name, k, 0, n) && (failed <==> SomeFails(calls, succeeds))
  {
    hide SomeFails, Chunks;
    calls, failed := [], false;
    NoChunk(name, k, n);
    assert [] + Chunks(name, k, 0, n) == Chunks(name, k, 0, n);
    var lo := 0;
    assert !SomeFails([], succeeds) by { NoneFails(succeeds); }
    while lo < n
      invariant lo <= n
      invariant calls + Chunks(name, k, lo, n) == Chunks(name, k, 0, n)
      invariant failed <==> SomeFails(calls, succeeds)
    {
      var hi := if lo + k >= n then n else lo + k;
      var call := Call(name, lo, hi);
      SomeFailsConcat(calls, [call], succeeds);
      OneFails(call, succeeds);
      FirstChunk(name, k, lo, n);
      assert calls + ([call] + Chunks(name, k, hi, n)) == (calls + [call]) + Chunks(name, k, hi, n);
      if !succeeds(call) { failed := true; }
      calls := calls + [call];
      lo := hi;
    }
    assert calls + [] == calls;
  }

  lemma NoChunk(name: string, k: nat, n: nat)
    requires k > 0
    ensures Chunks(name, k, n, n) == []
  {}

  lemma FirstChunk(name: string, k: nat, lo: nat, n: nat)
    requires k > 0 && lo < n
    ensures var hi := if lo + k >= n then n else lo + k;
            Chunks(name, k, lo, n) == [Call(name, lo, hi)] + Chunks(name, k, hi, n)
  {
    NoChunk(name, k, n);
  }

  lemma NoneFails(succeeds: Call -> bool)
    ensures !SomeFails([], succeeds)
  {}

  lemma OneFails(call: Call, succeeds: Call -> bool)
    ensures SomeFails([call], succeeds) <==> !succeeds(call)
  {}

  // All formatters of the key's sequence, one behind the other.
  method RunBatch(fs: Formatters, key: string, n: nat, succeeds: Call -> bool) returns (calls: seq<Call>, failed: bool)
    requires n > 0
    ensures calls == Plan(fs, Split(key), n)
    ensures failed <==> SomeFails(calls, succeeds)
  {
    hide Split, Chunk, Plan, SomeFails, Chunks;
    calls, failed := [], false;
    NoneFails(succeeds);
    var names := Split(key);
    assert names[0..] == names;
    for i := 0 to |names|
      invariant calls + Plan(fs, names[i..], n) == Plan(fs, names, n)
      invariant failed <==> SomeFails(calls, succeeds)
    {
      PlanStep(fs, names, i, n);
      var made, bad := RunFormatter(names[i], Chunk(fs, names[i], n), n, succeeds);
      SomeFailsConcat(calls, made, succeeds);
      assert calls + (made + Plan(fs, names[i + 1..], n)) == (calls + made) + Plan(fs, names[i + 1..], n);
      calls, failed := calls + made, failed || bad;
    }
    NothingPlanned(fs, names, n);
    assert calls + [] == calls;
  }
}
