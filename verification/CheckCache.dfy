/** The whole-tree check cache over a sequence of check runs. */
module CheckCache {
  import opened Optional
  import opened Order
  import opened Signing
  import opened WholeTree

  datatype Verdict = Clean | Findings | Broken

  // verdict is what running a linter over a file set reports; caching is off without a database or with --no-cache.
  datatype Env = Env(hash: Hash, verdict: (Linter, seq<File>) -> Verdict, caching: bool)

  type Linters = map<string, Linter>

  type Matched = map<string, seq<File>>

  type Bucket = map<string, string>

  datatype Outcome = Outcome(findings: seq<string>, ran: seq<string>, bucket: Bucket, failed: bool)

  function FilesOf(m: Matched, name: string): seq<File> {
    if name in m then m[name] else []
  }

  predicate Cached(env: Env, bucket: Bucket, name: string, key: string) {
    env.caching && name in bucket && bucket[name] == key
  }

  // The linters in turn: triggered ones run unless cached, clean ones are stored, a broken one ends it.
  function Finalizing(env: Env, ls: Linters, names: seq<string>, m: Matched, bucket: Bucket): Outcome
    requires forall n :: n in names ==> n in ls
  {
    if names == [] then Outcome([], [], bucket, false)
    else
      var name, files := names[0], FilesOf(m, names[0]);
      var key := Signature(env.hash, ls[name], files);
      if files == [] || Cached(env, bucket, name, key) then Finalizing(env, ls, names[1..], m, bucket)
      else match env.verdict(ls[name], files)
        case Broken => Outcome([], [name], bucket, true)
        case Findings =>
          var rest := Finalizing(env, ls, names[1..], m, bucket);
          Outcome(if rest.failed then [] else [name] + rest.findings, [name] + rest.ran, rest.bucket, rest.failed)
        case Clean =>
          var rest := Finalizing(env, ls, names[1..], m, if env.caching then bucket[name := key] else bucket);
          rest.(ran := [name] + rest.ran)
  }

  // ---- soundness of the cache ----

  // A linter with the files it is run over.
  type Pair = (Linter, seq<File>)

  function KeyOf(env: Env, p: Pair): string {
    Signature(env.hash, p.0, p.1)
  }

  function VerdictOf(env: Env, p: Pair): Verdict {
    env.verdict(p.0, p.1)
  }

  // An entry stands for a clean run over files and a configuration with that key.
  ghost predicate Sound(env: Env, pairs: set<Pair>, bucket: Bucket) {
    forall name :: name in bucket ==> CleanKey(env, pairs, bucket[name])
  }

  ghost predicate CleanKey(env: Env, pairs: set<Pair>, key: string) {
    exists p :: p in pairs && key == KeyOf(env, p) && VerdictOf(env, p) == Clean
  }

  // Among these, what a linter reports is a function of the key.
  ghost predicate Determined(env: Env, pairs: set<Pair>) {
    forall p, q :: p in pairs && q in pairs && KeyOf(env, p) == KeyOf(env, q) ==> VerdictOf(env, p) == VerdictOf(env, q)
  }

  // Every triggered linter of a run, with its files, is among these.
  ghost predicate Among(ls: Linters, names: seq<string>, m: Matched, pairs: set<Pair>)
    requires forall n :: n in names ==> n in ls
  {
    forall n :: n in names && FilesOf(m, n) != [] ==> (ls[n], FilesOf(m, n)) in pairs
  }

  // The same run with caching off.
  function Uncached(env: Env, ls: Linters, names: seq<string>, m: Matched): Outcome
    requires forall n :: n in names ==> n in ls
  {
    Finalizing(env.(caching := false), ls, names, m, map[])
  }

  lemma CachedIsClean(env: Env, pairs: set<Pair>, bucket: Bucket, name: string, p: Pair)
    requires Sound(env, pairs, bucket) && Determined(env, pairs) && p in pairs && Cached(env, bucket, name, KeyOf(env, p))
    ensures VerdictOf(env, p) == Clean
  {
    hide KeyOf, VerdictOf;
    assert CleanKey(env, pairs, bucket[name]);
  }

  lemma StoreSound(env: Env, pairs: set<Pair>, bucket: Bucket, name: string, p: Pair)
    requires Sound(env, pairs, bucket) && p in pairs && VerdictOf(env, p) == Clean
    ensures Sound(env, pairs, bucket[name := KeyOf(env, p)])
  {
    hide KeyOf, VerdictOf;
    assert CleanKey(env, pairs, KeyOf(env, p));
  }

  // Without caching the bucket plays no part.
  lemma {:induction false} BucketUnused(env: Env, ls: Linters, names: seq<string>, m: Matched, a: Bucket, b: Bucket)
    requires (forall n :: n in names ==> n in ls) && !env.caching
    ensures Finalizing(env, ls, names, m, a) == Finalizing(env, ls, names, m, b).(bucket := a)
  {
    hide Signature;
    if names != [] { BucketUnused(env, ls, names[1..], m, a, b); }
  }

  /** With a sound cache and verdicts determined by the key, the findings and the failure are those of an uncached run,
      and the cache stays sound. */
  lemma {:induction false} CacheAgrees(env: Env, pairs: set<Pair>, ls: Linters, names: seq<string>, m: Matched,
                                       bucket: Bucket)
    requires (forall n :: n in names ==> n in ls) && Among(ls, names, m, pairs)
    requires Sound(env, pairs, bucket) && Determined(env, pairs)
    ensures var o, u := Finalizing(env, ls, names, m, bucket), Uncached(env, ls, names, m);
            Sound(env, pairs, o.bucket) && o.findings == u.findings && o.failed == u.failed
  {
    hide Signature, Sound, Determined, Cached;
    if names != [] {
      var name, files := names[0], FilesOf(m, names[0]);
      var p := (ls[name], files);
      var key := Signature(env.hash, ls[name], files);
      assert names[0] in names && forall n :: n in names[1..] ==> n in names;
      if files != [] && Cached(env, bucket, name, key) { CachedIsClean(env, pairs, bucket, name, p); }
      NeverCached(env.(caching := false), map[], name, key);
      CacheAgrees(env, pairs, ls, names[1..], m, bucket);
      if files != [] && env.verdict(ls[name], files) == Clean {
        StoreSound(env, pairs, bucket, name, p);
        CacheAgrees(env, pairs, ls, names[1..], m, bucket[name := key]);
      }
    }
  }

  lemma NeverCached(env: Env, bucket: Bucket, name: string, key: string)
    requires !env.caching
    ensures !Cached(env, bucket, name, key)
  {}

  // ---- each linter at most once ----

  predicate Distinct(names: seq<string>) {
    forall i, j :: 0 <= i < j < |names| ==> names[i] != names[j]
  }

  // The outcome of the remaining linters, continued from what came before them.
  function Resumed(findings: seq<string>, ran: seq<string>, rest: Outcome): Outcome {
    Outcome(if rest.failed then [] else findings + rest.findings, ran + rest.ran, rest.bucket, rest.failed)
  }

  lemma ResumedTwice(f: seq<string>, r: seq<string>, g: seq<string>, q: seq<string>, o: Outcome)
    ensures Resumed(f, r, Resumed(g, q, o)) == Resumed(f + g, r + q, o)
    ensures Resumed([], [], o).ran == o.ran && Resumed([], [], o).findings == if o.failed then [] else o.findings
  {
    assert (f + g) + o.findings == f + (g + o.findings) && (r + q) + o.ran == r + (q + o.ran);
  }

  // The bucket the linters behind the first one see.
  function After(env: Env, ls: Linters, name: string, m: Matched, bucket: Bucket): Bucket
    requires name in ls
  {
    if Due(env, ls, [name], m, bucket, name) && env.verdict(ls[name], FilesOf(m, name)) == Clean && env.caching
    then bucket[name := Signature(env.hash, ls[name], FilesOf(m, name))] else bucket
  }

  // One linter's turn.
  lemma Turn(env: Env, ls: Linters, names: seq<string>, m: Matched, bucket: Bucket)
    requires (forall n :: n in names ==> n in ls) && names != []
    ensures var name, o := names[0], Finalizing(env, ls, names, m, bucket);
            var rest := Finalizing(env, ls, names[1..], m, After(env, ls, names[0], m, bucket));
            if !Due(env, ls, names, m, bucket, name) then o == rest
            else match env.verdict(ls[name], FilesOf(m, name))
              case Broken => o == Outcome([], [name], bucket, true)
              case Findings => o == Resumed([name], [name], rest)
              case Clean => o == Resumed([], [name], rest)
    ensures var o := Finalizing(env, ls, names, m, bucket); o.failed ==> o.findings == []
  {
    hide Signature;
    FailureHasNoFindings(env, ls, names, m, bucket);
    FailureHasNoFindings(env, ls, names[1..], m, After(env, ls, names[0], m, bucket));
  }

  lemma {:induction false} FailureHasNoFindings(env: Env, ls: Linters, names: seq<string>, m: Matched, bucket: Bucket)
    requires forall n :: n in names ==> n in ls
    ensures Finalizing(env, ls, names, m, bucket).failed ==> Finalizing(env, ls, names, m, bucket).findings == []
  {
    hide Signature;
    if names != [] {
      FailureHasNoFindings(env, ls, names[1..], m, bucket);
      FailureHasNoFindings(env, ls, names[1..], m, bucket[names[0] := Signature(env.hash, ls[names[0]], FilesOf(m, names[0]))]);
    }
  }

  // Another linter's turn changes nothing for this one.
  lemma OtherTurn(env: Env, ls: Linters, names: seq<string>, m: Matched, bucket: Bucket, n: string)
    requires (forall x :: x in names ==> x in ls) && names != [] && n != names[0]
    ensures Lookup(After(env, ls, names[0], m, bucket), n) == Lookup(bucket, n)
    ensures Due(env, ls, names[1..], m, After(env, ls, names[0], m, bucket), n) == Due(env, ls, names, m, bucket, n)
  {
    hide Signature;
    assert names == [names[0]] + names[1..];
  }

  /** Without a failure the linters that ran are exactly the triggered ones that were not cached. */
  lemma {:induction false} RanIffDue(env: Env, ls: Linters, names: seq<string>, m: Matched, bucket: Bucket, n: string)
    requires (forall x :: x in names ==> x in ls) && Distinct(names)
    ensures n in Finalizing(env, ls, names, m, bucket).ran ==> Due(env, ls, names, m, bucket, n)
    ensures !Finalizing(env, ls, names, m, bucket).failed && Due(env, ls, names, m, bucket, n) ==>
              n in Finalizing(env, ls, names, m, bucket).ran
  {
    hide Signature, Finalizing, After;
    if names == [] {
      NobodyRan(env, ls, m, bucket);
    } else {
      Turn(env, ls, names, m, bucket);
      if n == names[0] {
        DistinctTail(names);
        RanAreNamed(env, ls, names[1..], m, After(env, ls, names[0], m, bucket), n);
      } else {
        OtherTurn(env, ls, names, m, bucket, n);
        RanIffDue(env, ls, names[1..], m, After(env, ls, names[0], m, bucket), n);
      }
    }
  }

  lemma NobodyRan(env: Env, ls: Linters, m: Matched, bucket: Bucket)
    ensures Finalizing(env, ls, [], m, bucket) == Outcome([], [], bucket, false)
  {}

  lemma DistinctTail(names: seq<string>)
    requires Distinct(names) && names != []
    ensures Distinct(names[1..]) && names[0] !in names[1..]
  {}

  lemma {:induction false} RanAreNamed(env: Env, ls: Linters, names: seq<string>, m: Matched, bucket: Bucket, n: string)
    requires forall x :: x in names ==> x in ls
    ensures n in Finalizing(env, ls, names, m, bucket).ran ==> n in names
  {
    hide Signature, Finalizing, After, Due;
    if names == [] {
      NobodyRan(env, ls, m, bucket);
    } else {
      Turn(env, ls, names, m, bucket);
      RanAreNamed(env, ls, names[1..], m, After(env, ls, names[0], m, bucket), n);
    }
  }

  // A linter is to run: some file triggers it, and its entry is not the key of what it would run over.
  predicate MustRun(env: Env, ls: Linters, m: Matched, bucket: Bucket, n: string) {
    && n in ls && n in m && m[n] != []
    && !(env.caching && n in bucket && bucket[n] == Signature(env.hash, ls[n], m[n]))
  }

  function Running(env: Env, ls: Linters, names: seq<string>, m: Matched, bucket: Bucket): seq<string> {
    if names == [] then []
    else (if MustRun(env, ls, m, bucket, names[0]) then [names[0]] else []) + Running(env, ls, names[1..], m, bucket)
  }

  lemma {:induction false} RunningSame(env: Env, ls: Linters, names: seq<string>, m: Matched, a: Bucket, b: Bucket)
    requires forall n :: n in names ==> (MustRun(env, ls, m, a, n) <==> MustRun(env, ls, m, b, n))
    ensures Running(env, ls, names, m, a) == Running(env, ls, names, m, b)
  {
    hide MustRun;
    if names != [] {
      assert names[0] in names && forall n :: n in names[1..] ==> n in names;
      RunningSame(env, ls, names[1..], m, a, b);
    }
  }

  lemma DueIffMustRun(env: Env, ls: Linters, names: seq<string>, m: Matched, bucket: Bucket, n: string)
    ensures Due(env, ls, names, m, bucket, n) <==> n in names && MustRun(env, ls, m, bucket, n)
  {
    hide Signature;
  }

  lemma MustRunLater(env: Env, ls: Linters, name: string, m: Matched, bucket: Bucket, n: string)
    requires name in ls && n != name
    ensures MustRun(env, ls, m, After(env, ls, name, m, bucket), n) <==> MustRun(env, ls, m, bucket, n)
  {
    hide Signature;
  }

  /** The linters run in name order, those that must: all of them, unless one breaks, which ends it. */
  lemma {:induction false} RanInOrder(env: Env, ls: Linters, names: seq<string>, m: Matched, bucket: Bucket)
    requires (forall x :: x in names ==> x in ls) && Distinct(names)
    ensures var o := Finalizing(env, ls, names, m, bucket);
            o.ran <= Running(env, ls, names, m, bucket) && (!o.failed ==> o.ran == Running(env, ls, names, m, bucket))
  {
    hide Signature, Finalizing, After, MustRun, Due;
    if names == [] {
      NobodyRan(env, ls, m, bucket);
    } else {
      var next := After(env, ls, names[0], m, bucket);
      Turn(env, ls, names, m, bucket);
      DistinctTail(names);
      DueIffMustRun(env, ls, names, m, bucket, names[0]);
      forall n | n in names[1..]
        ensures MustRun(env, ls, m, next, n) <==> MustRun(env, ls, m, bucket, n)
      {
        MustRunLater(env, ls, names[0], m, bucket, n);
      }
      RunningSame(env, ls, names[1..], m, next, bucket);
      RanInOrder(env, ls, names[1..], m, next);
    }
  }

  // Those of these linters that report findings, in order.
  function Reporting(env: Env, ls: Linters, m: Matched, ran: seq<string>): seq<string> {
    if ran == [] then []
    else (if ran[0] in ls && env.verdict(ls[ran[0]], FilesOf(m, ran[0])) == Findings then [ran[0]] else [])
         + Reporting(env, ls, m, ran[1..])
  }

  ghost predicate SomeBroken(env: Env, ls: Linters, m: Matched, ran: seq<string>) {
    exists n :: n in ran && n in ls && env.verdict(ls[n], FilesOf(m, n)) == Broken
  }

  lemma OneMoreRan(env: Env, ls: Linters, m: Matched, name: string, rest: seq<string>)
    requires name in ls
    ensures var v := env.verdict(ls[name], FilesOf(m, name));
            && Reporting(env, ls, m, [name] + rest) == (if v == Findings then [name] else []) + Reporting(env, ls, m, rest)
            && (SomeBroken(env, ls, m, [name] + rest) <==> v == Broken || SomeBroken(env, ls, m, rest))
  {
    assert ([name] + rest)[1..] == rest;
    assert name in [name] + rest;
    if SomeBroken(env, ls, m, rest) {
      var n :| n in rest && n in ls && env.verdict(ls[n], FilesOf(m, n)) == Broken;
      assert n in [name] + rest;
    }
  }

  /** The check fails exactly when one of the linters that ran broke, and then reports nothing; else it reports exactly those
      that ran with findings, in order. */
  lemma {:induction false} ReportIs(env: Env, ls: Linters, names: seq<string>, m: Matched, bucket: Bucket)
    requires forall x :: x in names ==> x in ls
    ensures var o := Finalizing(env, ls, names, m, bucket);
            && (o.failed <==> SomeBroken(env, ls, m, o.ran))
            && o.findings == if o.failed then [] else Reporting(env, ls, m, o.ran)
  {
    hide Signature, Finalizing, After, Due, Reporting, SomeBroken;
    if names == [] {
      NobodyRan(env, ls, m, bucket);
      NothingReported(env, ls, m);
    } else {
      var next := After(env, ls, names[0], m, bucket);
      Turn(env, ls, names, m, bucket);
      ReportIs(env, ls, names[1..], m, next);
      OneMoreRan(env, ls, m, names[0], Finalizing(env, ls, names[1..], m, next).ran);
      OneMoreRan(env, ls, m, names[0], []);
      NothingReported(env, ls, m);
      assert [names[0]] + [] == [names[0]];
    }
  }

  lemma NothingReported(env: Env, ls: Linters, m: Matched)
    ensures Reporting(env, ls, m, []) == [] && !SomeBroken(env, ls, m, [])
  {}

  /** No linter runs twice. */
  lemma {:induction false} RanOnce(env: Env, ls: Linters, names: seq<string>, m: Matched, bucket: Bucket)
    requires (forall x :: x in names ==> x in ls) && Distinct(names)
    ensures Distinct(Finalizing(env, ls, names, m, bucket).ran)
  {
    hide Signature, Finalizing, After, Due;
    if names == [] {
      NobodyRan(env, ls, m, bucket);
    } else {
      var next := After(env, ls, names[0], m, bucket);
      Turn(env, ls, names, m, bucket);
      DistinctTail(names);
      RanOnce(env, ls, names[1..], m, next);
      RanAreNamed(env, ls, names[1..], m, next, names[0]);
    }
  }

  /** With caching on, exactly the linters that ran clean get an entry, the key of what they ran over; all other entries
      stay. */
  lemma {:induction false} OnlyCleanRunsStored(env: Env, ls: Linters, names: seq<string>, m: Matched, bucket: Bucket,
                                               n: string)
    requires (forall x :: x in names ==> x in ls) && Distinct(names)
    ensures var o := Finalizing(env, ls, names, m, bucket);
            Lookup(o.bucket, n) ==
            if env.caching && n in o.ran && n in ls && env.verdict(ls[n], FilesOf(m, n)) == Clean
            then Some(Signature(env.hash, ls[n], FilesOf(m, n))) else Lookup(bucket, n)
  {
    hide Signature, Finalizing;
    if names == [] {
      NobodyRan(env, ls, m, bucket);
    } else {
      Turn(env, ls, names, m, bucket);
      DistinctTail(names);
      OnlyCleanRunsStored(env, ls, names[1..], m, After(env, ls, names[0], m, bucket), n);
      RanAreNamed(env, ls, names[1..], m, After(env, ls, names[0], m, bucket), names[0]);
    }
  }

  predicate Due(env: Env, ls: Linters, names: seq<string>, m: Matched, bucket: Bucket, n: string) {
    n in names && n in ls && FilesOf(m, n) != [] && !Cached(env, bucket, n, Signature(env.hash, ls[n], FilesOf(m, n)))
  }


  // ---- batches of a walk ----

  type Wants = (string, File) -> bool

  function Wanted(wants: Wants, name: string, files: seq<File>): seq<File> {
    if files == [] then []
    else
      var n := |files| - 1;
      Wanted(wants, name, files[..n]) + (if wants(name, files[n]) then [files[n]] else [])
  }

  // The files each linter is triggered by.
  function MatchedOf(ls: Linters, wants: Wants, walked: seq<File>): Matched {
    map n | n in ls && Wanted(wants, n, walked) != [] :: Wanted(wants, n, walked)
  }

  lemma WantedNext(wants: Wants, name: string, files: seq<File>, f: File)
    ensures Wanted(wants, name, files + [f]) == Wanted(wants, name, files) + (if wants(name, f) then [f] else [])
  {
    assert (files + [f])[..|files|] == files;
  }

  lemma {:induction false} WantedConcat(wants: Wants, name: string, a: seq<File>, b: seq<File>)
    ensures Wanted(wants, name, a + b) == Wanted(wants, name, a) + Wanted(wants, name, b)
  {
    if b == [] {
      assert a + b == a;
    } else {
      var n := |b| - 1;
      WantedConcat(wants, name, a, b[..n]);
      WantedNext(wants, name, a + b[..n], b[n]);
      assert a + b == a + b[..n] + [b[n]];
    }
  }

  lemma {:induction false} WantedCount(wants: Wants, name: string, files: seq<File>, f: File)
    ensures multiset(Wanted(wants, name, files))[f] == if wants(name, f) then multiset(files)[f] else 0
  {
    if files != [] {
      var n := |files| - 1;
      WantedCount(wants, name, files[..n], f);
      assert files == files[..n] + [files[n]];
    }
  }

  lemma WantedPermuted(wants: Wants, name: string, a: seq<File>, b: seq<File>)
    requires multiset(a) == multiset(b)
    ensures multiset(Wanted(wants, name, a)) == multiset(Wanted(wants, name, b))
    ensures Wanted(wants, name, a) == [] <==> Wanted(wants, name, b) == []
  {
    hide Wanted;
    forall f
      ensures multiset(Wanted(wants, name, a))[f] == multiset(Wanted(wants, name, b))[f]
    {
      WantedCount(wants, name, a, f);
      WantedCount(wants, name, b, f);
    }
    assert |Wanted(wants, name, a)| == |multiset(Wanted(wants, name, a))|;
    assert |Wanted(wants, name, b)| == |multiset(Wanted(wants, name, b))|;
  }

  // What a linter reports does not depend on the order it is given its files in.
  ghost predicate OrderFree(env: Env) {
    forall l, a, b :: multiset(a) == multiset(b) ==> env.verdict(l, a) == env.verdict(l, b)
  }

  lemma {:induction false} FinalizePermuted(env: Env, ls: Linters, names: seq<string>, a: Matched, b: Matched,
                                            bucket: Bucket)
    requires (forall n :: n in names ==> n in ls) && OrderFree(env)
    requires forall n :: multiset(FilesOf(a, n)) == multiset(FilesOf(b, n)) && (FilesOf(a, n) == [] <==> FilesOf(b, n) == [])
    ensures Finalizing(env, ls, names, a, bucket) == Finalizing(env, ls, names, b, bucket)
  {
    hide Signature, FilesOf;
    if names != [] {
      var name := names[0];
      SignaturePermuted(env.hash, ls[name], FilesOf(a, name), FilesOf(b, name));
      FinalizePermuted(env, ls, names[1..], a, b, bucket);
      FinalizePermuted(env, ls, names[1..], a, b, bucket[name := Signature(env.hash, ls[name], FilesOf(a, name))]);
    }
  }

  /** However a walk is split into batches and in whatever order its files arrive, the checks run, find and store the
      same. */
  lemma SplitIrrelevant(env: Env, ls: Linters, wants: Wants, a: seq<File>, b: seq<File>, names: seq<string>,
                        bucket: Bucket)
    requires multiset(a) == multiset(b) && OrderFree(env) && IsSortedListing(names, MatchedOf(ls, wants, a).Keys)
    requires forall n :: n in names ==> n in ls
    ensures IsSortedListing(names, MatchedOf(ls, wants, b).Keys)
    ensures Finalizing(env, ls, names, MatchedOf(ls, wants, a), bucket) ==
            Finalizing(env, ls, names, MatchedOf(ls, wants, b), bucket)
  {
    hide Wanted, OrderFree, Finalizing, IsSortedListing;
    var x, y := MatchedOf(ls, wants, a), MatchedOf(ls, wants, b);
    forall n
      ensures multiset(FilesOf(x, n)) == multiset(FilesOf(y, n)) && (FilesOf(x, n) == [] <==> FilesOf(y, n) == [])
    {
      WantedPermuted(wants, n, a, b);
    }
    forall n | n in ls
      ensures n in x <==> n in y
    {
      WantedPermuted(wants, n, a, b);
    }
    assert x.Keys == y.Keys;
    FinalizePermuted(env, ls, names, x, y, bucket);
  }

  // ---- runs one after the other ----

  // One check run: its linters and what its walk matched for them.
  datatype Run = Run(linters: Linters, names: seq<string>, matched: Matched)

  predicate Wellformed(runs: seq<Run>) {
    forall k, n :: 0 <= k < |runs| && n in runs[k].names ==> n in runs[k].linters
  }

  function BucketAfter(env: Env, runs: seq<Run>, bucket: Bucket): Bucket
    requires Wellformed(runs)
  {
    if runs == [] then bucket
    else
      var k := |runs| - 1;
      Finalizing(env, runs[k].linters, runs[k].names, runs[k].matched, BucketAfter(env, runs[..k], bucket)).bucket
  }

  // What the runs are run over.
  function PairsOf(runs: seq<Run>): set<Pair>
    requires Wellformed(runs)
  {
    set k, n | 0 <= k < |runs| && n in runs[k].names && FilesOf(runs[k].matched, n) != [] ::
      (runs[k].linters[n], FilesOf(runs[k].matched, n))
  }

  lemma {:induction false} AlwaysSound(env: Env, pairs: set<Pair>, runs: seq<Run>, bucket: Bucket)
    requires Wellformed(runs) && Sound(env, pairs, bucket) && Determined(env, pairs) && PairsOf(runs) <= pairs
    ensures Sound(env, pairs, BucketAfter(env, runs, bucket))
  {
    hide Sound, Determined, Finalizing;
    if runs != [] {
      var k := |runs| - 1;
      assert forall j :: 0 <= j < k ==> runs[..k][j] == runs[j];
      AlwaysSound(env, pairs, runs[..k], bucket);
      RunAmong(runs, k);
      CacheAgrees(env, pairs, runs[k].linters, runs[k].names, runs[k].matched, BucketAfter(env, runs[..k], bucket));
    }
  }

  lemma RunAmong(runs: seq<Run>, k: nat)
    requires Wellformed(runs) && k < |runs|
    ensures forall pairs :: PairsOf(runs) <= pairs ==> Among(runs[k].linters, runs[k].names, runs[k].matched, pairs)
  {
    forall n | n in runs[k].names && FilesOf(runs[k].matched, n) != []
      ensures (runs[k].linters[n], FilesOf(runs[k].matched, n)) in PairsOf(runs)
    {}
  }

  lemma EarlierPairs(runs: seq<Run>, k: nat)
    requires Wellformed(runs) && k <= |runs|
    ensures Wellformed(runs[..k]) && PairsOf(runs[..k]) <= PairsOf(runs)
  {}

  // Every text hashed for the keys of these.
  function TextsOf(hash: Hash, pairs: set<Pair>): set<string> {
    set p, x | p in pairs && x in HashedTexts(hash, p.0, p.1) :: x
  }

  // What these linters report is a function of configuration bytes and covered files.
  ghost predicate Covering(env: Env, pairs: set<Pair>, verdict: (string, multiset<string>) -> Verdict) {
    forall p :: p in pairs ==> VerdictOf(env, p) == verdict(ConfigBytes(p.0), multiset(Covered(p.1)))
  }

  /** A verdict that depends on the configuration bytes and the covered files only is determined by the key, when digests
      have one length and the hashed texts do not collide. */
  lemma CoveredVerdictDetermined(env: Env, pairs: set<Pair>, verdict: (string, multiset<string>) -> Verdict)
    requires FixedLength(env.hash) && NoCollision(env.hash, TextsOf(env.hash, pairs)) && Covering(env, pairs, verdict)
    ensures Determined(env, pairs)
  {
    hide Signature, Covered, ConfigBytes, HashedTexts, VerdictOf;
    forall p, q | p in pairs && q in pairs && KeyOf(env, p) == KeyOf(env, q)
      ensures VerdictOf(env, p) == VerdictOf(env, q)
    {
      SignatureCovers(env.hash, p.0, p.1, q.0, q.1);
    }
  }

  /** In any sequence of check runs that starts from an empty cache, every run reports what it would report uncached:
      when a linter's verdict is a function of the configuration bytes and the covered files, digests have one length, and
      the texts hashed by these runs do not collide. */
  lemma RunsAgree(env: Env, runs: seq<Run>, k: nat, verdict: (string, multiset<string>) -> Verdict)
    requires Wellformed(runs) && k < |runs| && FixedLength(env.hash)
    requires NoCollision(env.hash, TextsOf(env.hash, PairsOf(runs))) && Covering(env, PairsOf(runs), verdict)
    ensures var r := runs[k];
            var o := Finalizing(env, r.linters, r.names, r.matched, BucketAfter(env, runs[..k], map[]));
            var u := Uncached(env, r.linters, r.names, r.matched);
            o.findings == u.findings && o.failed == u.failed
  {
    hide Determined, Finalizing, PairsOf, TextsOf, Covering;
    CoveredVerdictDetermined(env, PairsOf(runs), verdict);
    DeterminedRunsAgree(env, runs, k);
  }

  lemma DeterminedRunsAgree(env: Env, runs: seq<Run>, k: nat)
    requires Wellformed(runs) && k < |runs| && Determined(env, PairsOf(runs))
    ensures var r := runs[k];
            var o := Finalizing(env, r.linters, r.names, r.matched, BucketAfter(env, runs[..k], map[]));
            var u := Uncached(env, r.linters, r.names, r.matched);
            o.findings == u.findings && o.failed == u.failed
  {
    hide Sound, Determined, Finalizing, PairsOf;
    var pairs := PairsOf(runs);
    EmptySound(env, pairs);
    EarlierPairs(runs, k);
    AlwaysSound(env, pairs, runs[..k], map[]);
    RunAmong(runs, k);
    CacheAgrees(env, pairs, runs[k].linters, runs[k].names, runs[k].matched, BucketAfter(env, runs[..k], map[]));
  }

  // What these linters report is a function of their configuration, directory included, and the covered files.
  ghost predicate Configured(env: Env, pairs: set<Pair>, verdict: (Linter, multiset<string>) -> Verdict) {
    forall p :: p in pairs ==> VerdictOf(env, p) == verdict(p.0, multiset(Covered(p.1)))
  }

  // No bytes leave room for a misreading.
  ghost predicate Readable(pairs: set<Pair>) {
    forall p :: p in pairs ==> Loadable(p.0) && Unmistakable(p.0)
  }

  // Over the same files the same bytes are run in the same directory.
  ghost predicate Settled(pairs: set<Pair>) {
    forall p, q :: p in pairs && q in pairs && SameKeyed(p, q) ==> p.0.workingDir == q.0.workingDir
  }

  predicate SameKeyed(p: Pair, q: Pair) {
    ConfigBytes(p.0) == ConfigBytes(q.0) && multiset(Covered(p.1)) == multiset(Covered(q.1))
  }

  lemma SameKeyedSameKey(env: Env, p: Pair, q: Pair)
    requires SameKeyed(p, q)
    ensures KeyOf(env, p) == KeyOf(env, q)
  {
    hide ConfigBytes, Covered;
    EachPermuted(env.hash, Covered(p.1), Covered(q.1));
    LexTotalOrder();
    SortPermutation(LexLeq, Each(env.hash, Covered(p.1)), Each(env.hash, Covered(q.1)));
  }

  /** Whatever the verdicts are as functions of the configuration and the covered files, the key determines them exactly
      when no edit of a working directory alone falls between these linters. */
  lemma SettledExactly(hash: Hash, pairs: set<Pair>)
    requires FixedLength(hash) && NoCollision(hash, TextsOf(hash, pairs)) && Readable(pairs)
    ensures Settled(pairs) <==>
            forall env: Env, verdict :: env.hash == hash && Configured(env, pairs, verdict) ==> Determined(env, pairs)
  {
    hide Determined, Configured, TextsOf, Readable;
    if Settled(pairs) {
      forall env: Env, verdict | env.hash == hash && Configured(env, pairs, verdict)
        ensures Determined(env, pairs)
      {
        ConfiguredVerdictDetermined(env, pairs, verdict);
      }
    } else {
      var p, q :| p in pairs && q in pairs && SameKeyed(p, q) && p.0.workingDir != q.0.workingDir;
      UnsettledUndetermined(hash, pairs, p, q);
    }
  }

  lemma ConfiguredVerdictDetermined(env: Env, pairs: set<Pair>, verdict: (Linter, multiset<string>) -> Verdict)
    requires FixedLength(env.hash) && NoCollision(env.hash, TextsOf(env.hash, pairs)) && Configured(env, pairs, verdict)
    requires Readable(pairs) && Settled(pairs)
    ensures Determined(env, pairs)
  {
    hide Signature, Covered, ConfigBytes, HashedTexts, VerdictOf, Loadable, Unmistakable, Relocated;
    forall p, q | p in pairs && q in pairs && KeyOf(env, p) == KeyOf(env, q)
      ensures VerdictOf(env, p) == VerdictOf(env, q)
    {
      SignatureCovers(env.hash, p.0, p.1, q.0, q.1);
      ConfigDetermined(p.0);
      assert Relocated(p.0, q.0) && SameKeyed(p, q);
      SameDirectory(p.0, q.0);
    }
  }

  lemma UnsettledUndetermined(hash: Hash, pairs: set<Pair>, p: Pair, q: Pair)
    requires p in pairs && q in pairs && SameKeyed(p, q) && p.0.workingDir != q.0.workingDir
    ensures exists env: Env, verdict :: env.hash == hash && Configured(env, pairs, verdict) && !Determined(env, pairs)
  {
    hide Signature, Covered, SameKeyed, KeyOf;
    var verdict: (Linter, multiset<string>) -> Verdict := (l: Linter, fs: multiset<string>) =>
      if l == p.0 then Clean else Findings;
    var env := Env(hash, (l: Linter, files: seq<File>) => if l == p.0 then Clean else Findings, true);
    SameKeyedSameKey(env, p, q);
    assert Configured(env, pairs, verdict);
    assert VerdictOf(env, p) != VerdictOf(env, q);
  }

  /** The same for verdicts that are a function of the configuration itself, working directory included, and the covered
      files: when the program loads these linters, their bytes leave no room for a misreading, and the same bytes over the
      same files were run in the same directory throughout. */
  lemma ConfiguredRunsAgree(env: Env, runs: seq<Run>, k: nat, verdict: (Linter, multiset<string>) -> Verdict)
    requires Wellformed(runs) && k < |runs| && FixedLength(env.hash)
    requires NoCollision(env.hash, TextsOf(env.hash, PairsOf(runs))) && Configured(env, PairsOf(runs), verdict)
    requires Readable(PairsOf(runs)) && Settled(PairsOf(runs))
    ensures var r := runs[k];
            var o := Finalizing(env, r.linters, r.names, r.matched, BucketAfter(env, runs[..k], map[]));
            var u := Uncached(env, r.linters, r.names, r.matched);
            o.findings == u.findings && o.failed == u.failed
  {
    hide Determined, Finalizing, PairsOf, TextsOf, Configured, Readable, Settled;
    ConfiguredVerdictDetermined(env, PairsOf(runs), verdict);
    DeterminedRunsAgree(env, runs, k);
  }

  lemma EmptySound(env: Env, pairs: set<Pair>)
    ensures Sound(env, pairs, map[])
  {}

  /** These premises can be met, in runs where the cache is used: a clean linter over one file, checked twice, does not run
      the second time. */
  lemma RunsPremisesMet(l: Linter, f: File)
    ensures exists hash: Hash ::
              && FixedLength(hash) && NoCollision(hash, TextsOf(hash, PairsOf(Twice(l, f))))
              && Covering(AlwaysClean(hash), PairsOf(Twice(l, f)), (c: string, files: multiset<string>) => Clean)
              && Configured(AlwaysClean(hash), PairsOf(Twice(l, f)), (c: Linter, files: multiset<string>) => Clean)
              && (Loadable(l) && Unmistakable(l) ==> Readable(PairsOf(Twice(l, f)))) && Settled(PairsOf(Twice(l, f)))
              && Finalizing(AlwaysClean(hash), map["n" := l], ["n"], map["n" := [f]],
                            BucketAfter(AlwaysClean(hash), Twice(l, f)[..1], map[])).ran == []
  {
    hide HashedTexts, TextsOf, PairsOf, Covering, Configured, Readable, Settled, Loadable, Unmistakable, Finalizing;
    NoCollisionMet(l, f);
    var hash: Hash :| FixedLength(hash) && NoCollision(hash, HashedTexts(hash, l, [f]));
    TwiceTexts(hash, l, f);
    TwiceVerdicts(hash, l, f);
    TwiceRuns(hash, l, f);
  }

  lemma TwiceVerdicts(hash: Hash, l: Linter, f: File)
    ensures var env, pairs := AlwaysClean(hash), PairsOf(Twice(l, f));
            && Covering(env, pairs, (c: string, files: multiset<string>) => Clean)
            && Configured(env, pairs, (c: Linter, files: multiset<string>) => Clean)
            && (Loadable(l) && Unmistakable(l) ==> Readable(pairs)) && Settled(pairs)
  {
    hide ConfigBytes, Covered, HashedTexts, Twice, PairsOf, Loadable, Unmistakable;
    TwiceTexts(hash, l, f);
  }

  function Once(l: Linter, f: File): Run {
    Run(map["n" := l], ["n"], map["n" := [f]])
  }

  function Twice(l: Linter, f: File): (runs: seq<Run>)
    ensures Wellformed(runs)
  {
    [Once(l, f), Once(l, f)]
  }

  function AlwaysClean(hash: Hash): Env {
    Env(hash, (l: Linter, files: seq<File>) => Clean, true)
  }

  lemma TwiceTexts(hash: Hash, l: Linter, f: File)
    ensures PairsOf(Twice(l, f)) == {(l, [f])}
    ensures TextsOf(hash, PairsOf(Twice(l, f))) == HashedTexts(hash, l, [f])
  {
    hide HashedTexts;
    var runs := Twice(l, f);
    assert runs[0] == Once(l, f) && "n" in runs[0].names && FilesOf(runs[0].matched, "n") == [f];
    assert (runs[0].linters["n"], FilesOf(runs[0].matched, "n")) in PairsOf(runs);
  }

  lemma TwiceRuns(hash: Hash, l: Linter, f: File)
    ensures Finalizing(AlwaysClean(hash), map["n" := l], ["n"], map["n" := [f]],
                       BucketAfter(AlwaysClean(hash), Twice(l, f)[..1], map[])).ran == []
  {
    hide Signature;
    var env, key := AlwaysClean(hash), Signature(hash, l, [f]);
    assert Twice(l, f)[..1] == [Once(l, f)] && [Once(l, f)][..0] == [] && ["n"][1..] == [];
    assert Finalizing(env, map["n" := l], [], map["n" := [f]], map["n" := key]) == Outcome([], [], map["n" := key], false);
    assert Finalizing(env, map["n" := l], ["n"], map["n" := [f]], map[]).bucket == map["n" := key];
    assert BucketAfter(env, [Once(l, f)], map[]) == map["n" := key];
  }

  /** For every linter an edit of the working directory alone is hidden: after a clean run in one directory the check does
      not run over the same files in another one, whatever it would report there. */
  lemma DirectoryHidesEdit(env: Env, name: string, l: Linter, dir: string, files: seq<File>)
    requires env.caching && files != [] && env.verdict(l, files) == Clean
    ensures var m := l.(workingDir := dir);
            var first := Finalizing(env, map[name := l], [name], map[name := files], map[]);
            var second := Finalizing(env, map[name := m], [name], map[name := files], first.bucket);
            var u := Uncached(env, map[name := m], [name], map[name := files]);
            && first.ran == [name] && second.ran == [] && second.findings == [] && !second.failed
            && u.ran == [name]
            && match env.verdict(m, files)
               case Clean => u.findings == []
               case Findings => u.findings == [name]
               case Broken => u.failed
  {
    hide ConfigBytes, Covered;
    var m := l.(workingDir := dir);
    RelocatedBytes(l, m);
    assert Signature(env.hash, m, files) == Signature(env.hash, l, files);
    assert [name][1..] == [];
    OneTurn(env, name, l, files, map[]);
    OneTurn(env, name, m, files, map[name := Signature(env.hash, l, files)]);
    OneTurn(env.(caching := false), name, m, files, map[]);
  }

  lemma OneTurn(env: Env, name: string, l: Linter, files: seq<File>, bucket: Bucket)
    requires files != []
    ensures var key := Signature(env.hash, l, files);
            Finalizing(env, map[name := l], [name], map[name := files], bucket) ==
            if Cached(env, bucket, name, key) then Outcome([], [], bucket, false)
            else match env.verdict(l, files)
              case Broken => Outcome([], [name], bucket, true)
              case Findings => Outcome([name], [name], bucket, false)
              case Clean => Outcome([], [name], if env.caching then bucket[name := key] else bucket, false)
  {
    hide Signature;
    assert [name][1..] == [];
    var key := Signature(env.hash, l, files);
    NobodyRan(env, map[name := l], map[name := files], bucket);
    NobodyRan(env, map[name := l], map[name := files], bucket[name := key]);
  }

  /** A linter whose bytes leave room for a misreading can be edited into another one the program loads but the cache
      takes for the same: after a clean run of the first, the second does not run over the same files. */
  lemma EmptyPartHidesEdit(env: Env, name: string, l: Linter, files: seq<File>)
    requires env.caching && Loadable(l) && !Unmistakable(l)
    ensures exists m ::
              && m != l && m.workingDir == l.workingDir && Loadable(m)
              && Finalizing(env, map[name := m], [name], map[name := files],
                            map[name := Signature(env.hash, l, files)]).ran == []
  {
    hide Parts, ConfigBytes, Covered, Unmistakable;
    var m := Misread(l);
    EqualParts(m, l);
    assert Signature(env.hash, m, files) == Signature(env.hash, l, files);
    NobodyRan(env, map[name := m], map[name := files], map[name := Signature(env.hash, l, files)]);
    assert [name][1..] == [];
  }

  // ---- the checker ----

  // With the linters before names[i] done, these results and the remaining linters give the whole outcome.
  ghost predicate Reached(env: Env, ls: Linters, names: seq<string>, i: nat, m: Matched, start: Bucket, bucket: Bucket,
                          findings: seq<string>, ran: seq<string>)
    requires i <= |names| && forall n :: n in names ==> n in ls
  {
    Finalizing(env, ls, names, m, start) == Resumed(findings, ran, Finalizing(env, ls, names[i..], m, bucket))
  }

  lemma ReachedStart(env: Env, ls: Linters, names: seq<string>, m: Matched, start: Bucket)
    requires forall n :: n in names ==> n in ls
    ensures Reached(env, ls, names, 0, m, start, start, [], [])
  {
    hide Finalizing;
    FailureHasNoFindings(env, ls, names, m, start);
    assert names[0..] == names;
  }

  lemma ReachedEnd(env: Env, ls: Linters, names: seq<string>, m: Matched, start: Bucket, bucket: Bucket,
                   findings: seq<string>, ran: seq<string>)
    requires (forall n :: n in names ==> n in ls) && Reached(env, ls, names, |names|, m, start, bucket, findings, ran)
    ensures Finalizing(env, ls, names, m, start) == Outcome(findings, ran, bucket, false)
  {
    hide Finalizing;
    NobodyRan(env, ls, m, bucket);
    assert names[|names|..] == [];
  }

  lemma ReachedNext(env: Env, ls: Linters, names: seq<string>, i: nat, m: Matched, start: Bucket, bucket: Bucket,
                    findings: seq<string>, ran: seq<string>)
    requires i < |names| && (forall n :: n in names ==> n in ls)
    requires Reached(env, ls, names, i, m, start, bucket, findings, ran)
    ensures var name, next := names[i], After(env, ls, names[i], m, bucket);
            if !Due(env, ls, [name], m, bucket, name) then Reached(env, ls, names, i + 1, m, start, next, findings, ran)
            else match env.verdict(ls[name], FilesOf(m, name))
              case Broken => Finalizing(env, ls, names, m, start) == Outcome([], ran + [name], bucket, true)
              case Findings => Reached(env, ls, names, i + 1, m, start, next, findings + [name], ran + [name])
              case Clean => Reached(env, ls, names, i + 1, m, start, next, findings, ran + [name])
  {
    hide Finalizing, After, Cached, FilesOf, Signature;
    var name, next := names[i], After(env, ls, names[i], m, bucket);
    assert names[i..][0] == name && names[i..][1..] == names[i + 1..];
    Turn(env, ls, names[i..], m, bucket);
    var rest := Finalizing(env, ls, names[i + 1..], m, next);
    ResumedTwice(findings, ran, [name], [name], rest);
    ResumedTwice(findings, ran, [], [name], rest);
    assert findings + [] == findings;
  }

  class Checker {
    const env: Env
    const linters: Linters
    const wants: Wants

    var wholeTreeFiles: Matched
    var bucket: Bucket
    ghost var walked: seq<File>

    // What has accumulated is what the files walked so far trigger.
    ghost predicate Valid()
      reads this
    {
      wholeTreeFiles == MatchedOf(linters, wants, walked)
    }

    constructor (e: Env, ls: Linters, w: Wants, b: Bucket)
      ensures Valid() && env == e && linters == ls && wants == w && bucket == b && walked == []
    {
      env, linters, wants, bucket := e, ls, w, b;
      wholeTreeFiles, walked := map[], [];
    }

    method Check(files: seq<File>)
      requires Valid()
      modifies `wholeTreeFiles, `walked
      ensures Valid() && walked == old(walked) + files
    {
      hide Wanted;
      var linterFiles: Matched := map[];
      NothingWanted();
      for i := 0 to |files|
        invariant Gathered(linterFiles, files[..i]) && Valid() && walked == old(walked)
      {
        var next := Match(linterFiles, files[i]);
        assert files[..i + 1] == files[..i] + [files[i]];
        GatherOne(linterFiles, files[..i], files[i], next);
        linterFiles := next;
      }
      assert files[..|files|] == files;
      Accumulate(linterFiles, files);
    }

    // What one Check call has sorted out so far.
    ghost predicate Gathered(lf: Matched, files: seq<File>) {
      lf.Keys <= linters.Keys && forall n :: n in linters ==> FilesOf(lf, n) == Wanted(wants, n, files)
    }

    ghost predicate OneMore(before: Matched, f: File, after: Matched, rest: set<string>) {
      && after.Keys <= linters.Keys
      && forall n :: n in linters ==>
                       FilesOf(after, n) == FilesOf(before, n) + (if n !in rest && wants(n, f) then [f] else [])
    }

    lemma NothingWanted()
      ensures Gathered(map[], [])
    {}

    lemma GatherOne(before: Matched, files: seq<File>, f: File, after: Matched)
      requires Gathered(before, files) && OneMore(before, f, after, {})
      ensures Gathered(after, files + [f])
    {
      hide Wanted;
      forall n | n in linters
        ensures FilesOf(after, n) == Wanted(wants, n, files + [f])
      {
        WantedNext(wants, n, files, f);
      }
    }

    lemma MoreFor(before: Matched, f: File, after: Matched, rest: set<string>, l: string)
      requires OneMore(before, f, after, rest) && l in rest && l in linters
      ensures OneMore(before, f, if wants(l, f) then after[l := FilesOf(after, l) + [f]] else after, rest - {l})
    {}

    // Which linters want the file, in whatever order the table yields them.
    method Match(linterFiles: Matched, f: File) returns (next: Matched)
      requires linterFiles.Keys <= linters.Keys
      ensures OneMore(linterFiles, f, next, {})
    {
      var rest := linters.Keys;
      next := linterFiles;
      while rest != {}
        invariant rest <= linters.Keys && OneMore(linterFiles, f, next, rest)
        decreases |rest|
      {
        hide OneMore;
        var l :| l in rest;
        MoreFor(linterFiles, f, next, rest, l);
        if wants(l, f) { next := next[l := FilesOf(next, l) + [f]]; }
        rest := rest - {l};
      }
    }

    ghost predicate Added(before: Matched, lf: Matched, after: Matched, rest: set<string>) {
      && (forall n :: FilesOf(after, n) == FilesOf(before, n) + (if n in rest then [] else FilesOf(lf, n)))
      && (forall n :: n in after ==> n in linters && after[n] != [])
    }

    lemma AddFor(before: Matched, lf: Matched, after: Matched, rest: set<string>, l: string)
      requires Added(before, lf, after, rest) && l in rest && l in lf && l in linters
      ensures Added(before, lf, if lf[l] != [] then after[l := FilesOf(after, l) + lf[l]] else after, rest - {l})
    {}

    method Accumulate(linterFiles: Matched, ghost files: seq<File>)
      requires Valid() && Gathered(linterFiles, files)
      modifies `wholeTreeFiles, `walked
      ensures Valid() && walked == old(walked) + files
    {
      hide Wanted, Added;
      ghost var before := wholeTreeFiles;
      var rest := linterFiles.Keys;
      StartAdding(linterFiles);
      while rest != {}
        invariant rest <= linterFiles.Keys && Added(before, linterFiles, wholeTreeFiles, rest) && walked == old(walked)
        decreases |rest|
      {
        var l :| l in rest;
        AddFor(before, linterFiles, wholeTreeFiles, rest, l);
        if linterFiles[l] != [] { wholeTreeFiles := wholeTreeFiles[l := FilesOf(wholeTreeFiles, l) + linterFiles[l]]; }
        rest := rest - {l};
      }
      AllAdded(before, linterFiles, files);
      walked := walked + files;
    }

    lemma StartAdding(lf: Matched)
      requires Valid()
      ensures Added(wholeTreeFiles, lf, wholeTreeFiles, lf.Keys)
    {
      hide Wanted;
    }

    lemma AllAdded(before: Matched, lf: Matched, files: seq<File>)
      requires before == MatchedOf(linters, wants, walked) && Gathered(lf, files) && Added(before, lf, wholeTreeFiles, {})
      ensures wholeTreeFiles == MatchedOf(linters, wants, walked + files)
    {
      hide Wanted;
      var after := MatchedOf(linters, wants, walked + files);
      forall n | n in linters
        ensures Wanted(wants, n, walked + files) == FilesOf(wholeTreeFiles, n)
      {
        WantedConcat(wants, n, walked, files);
      }
      assert forall n :: n in wholeTreeFiles <==> n in after;
    }

    // One triggered linter's turn: skipped when cached, else run, and stored when clean.
    method Visit(name: string) returns (ran: bool, verdict: Verdict)
      requires name in linters && name in wholeTreeFiles
      modifies `bucket
      ensures ran == Due(env, linters, [name], wholeTreeFiles, old(bucket), name)
      ensures ran ==> verdict == env.verdict(linters[name], FilesOf(wholeTreeFiles, name))
      ensures bucket == After(env, linters, name, wholeTreeFiles, old(bucket))
      ensures ran && verdict != Clean ==> bucket == old(bucket)
    {
      hide Signature;
      verdict := Clean;
      var files := wholeTreeFiles[name];
      var key := Signature(env.hash, linters[name], files);
      if files == [] || Cached(env, bucket, name, key) { return false, Clean; }
      ran, verdict := true, env.verdict(linters[name], files);
      if verdict == Clean && env.caching { bucket := bucket[name := key]; }
    }

    /** Finalize refines the function above, over the linters in name order. */
    method Finalize() returns (findings: seq<string>, ghost all: seq<string>, failed: bool, ghost names: seq<string>)
      requires Valid()
      modifies `bucket
      ensures IsSortedListing(names, wholeTreeFiles.Keys) && Distinct(names) && forall n :: n in names ==> n in linters
      ensures Outcome(findings, all, bucket, failed) == Finalizing(env, linters, names, wholeTreeFiles, old(bucket))
    {
      hide Wanted, Signature, IsSortedListing, Finalizing, After, Cached, FilesOf, Reached;
      var ordered := SortedKeys(wholeTreeFiles.Keys);
      ListingMembers(ordered, wholeTreeFiles.Keys);
      ListingDistinct(ordered, wholeTreeFiles.Keys);
      names := ordered;
      findings, all := [], [];
      ghost var m, start := wholeTreeFiles, bucket;
      ReachedStart(env, linters, ordered, m, start);
      for i := 0 to |ordered|
        invariant wholeTreeFiles == m && Reached(env, linters, ordered, i, m, start, bucket, findings, all)
      {
        var name := ordered[i];
        ReachedNext(env, linters, ordered, i, m, start, bucket, findings, all);
        var ran, verdict := Visit(name);
        if ran {
          all := all + [name];
          if verdict == Broken { return [], all, true, ordered; }
          if verdict == Findings { findings := findings + [name]; }
        }
      }
      ReachedEnd(env, linters, ordered, m, start, bucket, findings, all);
      failed := false;
    }
  }
}
