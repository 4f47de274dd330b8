/** Whole-tree checks: accumulated over the batches of a walk, run once each over their full file set, cached when clean. */
module WholeTree {
  import opened Decimal
  import opened Optional
  import opened Order
  import opened Signing
  import opened Strings

  // A walked file; stamp is missing when the walk has no info for it.
  datatype File = File(path: string, stamp: Option<Stamp>)

  // What decides what a check reports: its configured lists and the directory it runs in.
  datatype Linter = Linter(
    command: string, options: seq<string>, includes: seq<string>, excludes: seq<string>, workingDir: string)

  // ---- the cache key ----

  const NUL: char := 0 as char

  function Terminated(parts: seq<string>): string {
    if parts == [] then "" else parts[0] + [NUL] + Terminated(parts[1..])
  }

  // The working directory is not among the bytes.
  function ConfigBytes(l: Linter): string {
    l.command + ([NUL] + Terminated(l.options)) + ([NUL] + Terminated(l.includes)) + ([NUL] + Terminated(l.excludes))
  }

  function FileBytes(f: File): string {
    match f.stamp
    case None => f.path
    case Some(s) => f.path + [NUL] + Itoa(Seconds(s)) + [NUL] + Itoa(s.size)
  }

  function Each<T>(f: T -> string, xs: seq<T>): seq<string> {
    seq(|xs|, i requires 0 <= i < |xs| => f(xs[i]))
  }

  // What the key covers of a file set: path, modification second and size of each.
  function Covered(files: seq<File>): seq<string> {
    Each(FileBytes, files)
  }

  function Concat(xs: seq<string>): string {
    if xs == [] then "" else xs[0] + Concat(xs[1..])
  }

  function KeyText(hash: Hash, l: Linter, files: seq<File>): string {
    hash(ConfigBytes(l)) + Concat(Sort(LexLeq, Each(hash, Covered(files))))
  }

  function Signature(hash: Hash, l: Linter, files: seq<File>): string {
    hash(KeyText(hash, l, files))
  }

  // Every text hashed for one key: the configuration, each file, and the two combined.
  function HashedTexts(hash: Hash, l: Linter, files: seq<File>): set<string> {
    {ConfigBytes(l)} + (set x | x in Covered(files)) + {KeyText(hash, l, files)}
  }

  // ---- what the key forgets: the order of the files ----

  lemma {:induction false} EachCount(f: string -> string, xs: seq<string>, x: string)
    requires forall y :: y in xs && f(y) == f(x) ==> y == x
    ensures multiset(Each(f, xs))[f(x)] == multiset(xs)[x]
  {
    if xs != [] {
      assert xs == [xs[0]] + xs[1..] && Each(f, xs) == [f(xs[0])] + Each(f, xs[1..]);
      EachCount(f, xs[1..], x);
    }
  }

  // The digests determine what was hashed, as long as that does not collide.
  lemma DigestsDetermine(hash: Hash, xs: seq<string>, ys: seq<string>, texts: set<string>)
    requires NoCollision(hash, texts) && (forall x :: x in xs ==> x in texts) && (forall y :: y in ys ==> y in texts)
    requires multiset(Each(hash, xs)) == multiset(Each(hash, ys))
    ensures multiset(xs) == multiset(ys)
  {
    hide Each;
    forall x
      ensures multiset(xs)[x] == multiset(ys)[x]
    {
      if x in texts {
        EachCount(hash, xs, x);
        EachCount(hash, ys, x);
      } else {
        assert x !in multiset(xs) && x !in multiset(ys);
      }
    }
  }

  lemma Without<T>(b: seq<T>, k: nat)
    requires k < |b|
    ensures multiset(b) == multiset{b[k]} + multiset(b[..k] + b[k + 1..])
    ensures multiset(b[..k] + b[k + 1..]) == multiset(b) - multiset{b[k]}
  {
    assert b == b[..k] + [b[k]] + b[k + 1..];
  }

  // Where the first element of a permutation stands in the other one.
  lemma FirstElsewhere<T>(a: seq<T>, b: seq<T>) returns (k: nat)
    requires multiset(a) == multiset(b) && a != []
    ensures k < |b| && b[k] == a[0] && multiset(a[..0] + a[1..]) == multiset(b[..k] + b[k + 1..])
  {
    assert a[0] in multiset(b);
    k :| 0 <= k < |b| && b[k] == a[0];
    Without(a, 0);
    Without(b, k);
  }

  lemma {:induction false} EachPermuted<T>(f: T -> string, a: seq<T>, b: seq<T>)
    requires multiset(a) == multiset(b)
    ensures multiset(Each(f, a)) == multiset(Each(f, b))
    decreases |a|
  {
    hide Each;
    if a == [] {
      assert |b| == |multiset(b)| == 0;
    } else {
      var k := FirstElsewhere(a, b);
      EachPermuted(f, a[..0] + a[1..], b[..k] + b[k + 1..]);
      EachWithout(f, a, 0);
      EachWithout(f, b, k);
    }
  }

  lemma EachWithout<T>(f: T -> string, b: seq<T>, k: nat)
    requires k < |b|
    ensures multiset(Each(f, b)) == multiset{f(b[k])} + multiset(Each(f, b[..k] + b[k + 1..]))
  {
    var e := Each(f, b);
    Without(e, k);
    assert e[..k] + e[k + 1..] == Each(f, b[..k] + b[k + 1..]);
  }

  /** The key does not depend on the order the files arrived in. */
  lemma SignaturePermuted(hash: Hash, l: Linter, a: seq<File>, b: seq<File>)
    requires multiset(a) == multiset(b)
    ensures Signature(hash, l, a) == Signature(hash, l, b)
  {
    hide Each, Concat, ConfigBytes;
    EachPermuted(FileBytes, a, b);
    EachPermuted(hash, Covered(a), Covered(b));
    LexTotalOrder();
    SortPermutation(LexLeq, Each(hash, Covered(a)), Each(hash, Covered(b)));
  }

  // ---- what the key remembers ----

  lemma {:induction false} ConcatInjective(xs: seq<string>, ys: seq<string>, n: nat)
    requires n > 0 && (forall x :: x in xs ==> |x| == n) && (forall y :: y in ys ==> |y| == n)
    requires Concat(xs) == Concat(ys)
    ensures xs == ys
  {
    if xs != [] && ys != [] {
      assert xs[0] in xs && ys[0] in ys;
      assert xs[0] == Concat(xs)[..n] && ys[0] == Concat(ys)[..n];
      assert Concat(xs[1..]) == Concat(xs)[n..] && Concat(ys[1..]) == Concat(ys)[n..];
      ConcatInjective(xs[1..], ys[1..], n);
      assert xs == [xs[0]] + xs[1..] && ys == [ys[0]] + ys[1..];
    } else {
      ConcatEmpty(xs, n);
      ConcatEmpty(ys, n);
    }
  }

  lemma ConcatEmpty(xs: seq<string>, n: nat)
    requires n > 0 && (forall x :: x in xs ==> |x| == n)
    ensures Concat(xs) == "" <==> xs == []
  {
    if xs != [] { assert xs[0] in xs; }
  }

  // Without any digit the whole key text would be empty, and collide with the configuration bytes.
  lemma DigestLength(hash: Hash, l: Linter, files: seq<File>)
    requires NoCollision(hash, HashedTexts(hash, l, files)) && FixedLength(hash)
    ensures |hash("")| > 0
  {
    hide Covered, Concat, Sort, Each, Terminated;
    assert ConfigBytes(l) in HashedTexts(hash, l, files) && KeyText(hash, l, files) in HashedTexts(hash, l, files);
    assert ConfigBytes(l) != "";
    assert |hash(ConfigBytes(l))| == |hash(KeyText(hash, l, files))| == |hash("")|;
    SortedDigests(hash, Covered(files));
    if |hash("")| == 0 { ConcatNothing(Sort(LexLeq, Each(hash, Covered(files)))); }
  }

  lemma {:induction false} ConcatNothing(xs: seq<string>)
    requires forall x :: x in xs ==> |x| == 0
    ensures Concat(xs) == ""
  {
    if xs != [] {
      assert xs[0] in xs && forall x :: x in xs[1..] ==> x in xs;
      ConcatNothing(xs[1..]);
    }
  }

  lemma SortedDigests(hash: Hash, xs: seq<string>)
    requires FixedLength(hash)
    ensures multiset(Sort(LexLeq, Each(hash, xs))) == multiset(Each(hash, xs))
    ensures forall d :: d in Sort(LexLeq, Each(hash, xs)) ==> |d| == |hash("")|
  {
    LexTotalOrder();
    hide LexLeq, Sort;
    var e := Each(hash, xs);
    SortSorted(LexLeq, e);
    forall d | d in Sort(LexLeq, e)
      ensures |d| == |hash("")|
    {
      assert d in multiset(Sort(LexLeq, e)) && d in multiset(e);
    }
  }

  /** Equal keys come from equal configuration bytes and the same covered files, in any order, when digests have one
      length and the texts hashed for the two keys do not collide. */
  lemma SignatureCovers(hash: Hash, l: Linter, a: seq<File>, m: Linter, b: seq<File>)
    requires FixedLength(hash) && NoCollision(hash, HashedTexts(hash, l, a) + HashedTexts(hash, m, b))
    requires Signature(hash, l, a) == Signature(hash, m, b)
    ensures ConfigBytes(l) == ConfigBytes(m) && multiset(Covered(a)) == multiset(Covered(b))
  {
    hide Covered, Each, Concat, ConfigBytes, Sort;
    var n := |hash("")|;
    var texts := HashedTexts(hash, l, a) + HashedTexts(hash, m, b);
    var x, y := Sort(LexLeq, Each(hash, Covered(a))), Sort(LexLeq, Each(hash, Covered(b)));
    var p, q := KeyText(hash, l, a), KeyText(hash, m, b);
    assert p in texts && q in texts && p == q;
    assert ConfigBytes(l) in texts && ConfigBytes(m) in texts;
    assert hash(ConfigBytes(l)) == p[..n] && hash(ConfigBytes(m)) == q[..n];
    assert Concat(x) == p[n..] && Concat(y) == q[n..];
    DigestLength(hash, l, a);
    SortedDigests(hash, Covered(a));
    SortedDigests(hash, Covered(b));
    ConcatInjective(x, y, n);
    DigestsDetermine(hash, Covered(a), Covered(b), texts);
  }

  /** The premise can be met: for a linter and a file there is a hash with digests of one length for which no two texts
      hashed for their key collide. */
  lemma NoCollisionMet(l: Linter, f: File)
    ensures exists hash: Hash :: FixedLength(hash) && NoCollision(hash, HashedTexts(hash, l, [f]))
  {
    hide ConfigBytes, FileBytes, LexLeq;
    var hash: Hash := x => if x == ConfigBytes(l) then "c" else if x == FileBytes(f) then "f" else "k";
    OneFileTexts(hash, l, f);
    assert FixedLength(hash) && NoCollision(hash, HashedTexts(hash, l, [f]));
  }

  lemma OneFileTexts(hash: Hash, l: Linter, f: File)
    ensures HashedTexts(hash, l, [f]) == {ConfigBytes(l), FileBytes(f), KeyText(hash, l, [f])}
  {
    hide ConfigBytes, FileBytes, LexLeq;
    assert Covered([f]) == [FileBytes(f)];
  }

  // A key is a digest.
  lemma KeyLength(hash: Hash, l: Linter, files: seq<File>)
    requires FixedLength(hash)
    ensures |Signature(hash, l, files)| == |hash("")|
  {
    hide KeyText;
  }

  // ---- how far the configuration bytes determine the configuration ----

  predicate NulFree(s: string) {
    NUL !in s
  }

  predicate NulFreeLinter(l: Linter) {
    NulFree(l.command) && forall p :: p in l.options + l.includes + l.excludes ==> NulFree(p)
  }

  // The program refuses a linter without includes.
  predicate Loadable(l: Linter) {
    NulFreeLinter(l) && l.includes != []
  }

  // No part can be taken for one of the two separators: none is the empty string, or only the one include there is.
  predicate Unmistakable(l: Linter) {
    "" !in l.options && "" !in l.excludes && ("" !in l.includes || l.includes == [""])
  }

  // The two differ in nothing but the directory they run in.
  predicate Relocated(l: Linter, m: Linter) {
    m == l.(workingDir := m.workingDir)
  }

  function Parts(l: Linter): seq<string> {
    [l.command] + l.options + [""] + l.includes + [""] + l.excludes
  }

  lemma {:induction false} TerminatedConcat(a: seq<string>, b: seq<string>)
    ensures Terminated(a + b) == Terminated(a) + Terminated(b)
  {
    if a == [] {
      assert a + b == b;
    } else {
      assert (a + b)[1..] == a[1..] + b;
      TerminatedConcat(a[1..], b);
    }
  }

  lemma ConfigParts(l: Linter)
    ensures ConfigBytes(l) == Terminated(Parts(l))
  {
    TerminatedConcat([l.command] + l.options + [""] + l.includes + [""], l.excludes);
    TerminatedConcat([l.command] + l.options + [""] + l.includes, [""]);
    TerminatedConcat([l.command] + l.options + [""], l.includes);
    TerminatedConcat([l.command] + l.options, [""]);
    TerminatedConcat([l.command], l.options);
    TerminatedOne(l.command);
    TerminatedOne("");
  }

  lemma TerminatedOne(p: string)
    ensures Terminated([p]) == p + [NUL]
  {
    assert [p][1..] == [];
  }

  lemma {:induction false} TerminatedInjective(xs: seq<string>, ys: seq<string>)
    requires (forall x :: x in xs ==> NulFree(x)) && (forall y :: y in ys ==> NulFree(y))
    requires Terminated(xs) == Terminated(ys)
    ensures xs == ys
  {
    hide UpTo;
    if xs != [] && ys != [] {
      assert xs[0] in xs && ys[0] in ys;
      FirstPiece(xs[0], NUL, Terminated(xs[1..]));
      FirstPiece(ys[0], NUL, Terminated(ys[1..]));
      assert Terminated(xs) == xs[0] + ([NUL] + Terminated(xs[1..]));
      assert Terminated(ys) == ys[0] + ([NUL] + Terminated(ys[1..]));
      assert Terminated(xs[1..]) == Terminated(xs)[|xs[0]| + 1..];
      assert Terminated(ys[1..]) == Terminated(ys)[|ys[0]| + 1..];
      TerminatedInjective(xs[1..], ys[1..]);
      assert xs == [xs[0]] + xs[1..] && ys == [ys[0]] + ys[1..];
    }
  }

  lemma EqualParts(l: Linter, m: Linter)
    requires NulFreeLinter(l) && NulFreeLinter(m)
    ensures ConfigBytes(l) == ConfigBytes(m) <==> Parts(l) == Parts(m)
  {
    hide ConfigBytes, NulFree;
    ConfigParts(l);
    ConfigParts(m);
    PartsNulFree(l);
    PartsNulFree(m);
    if ConfigBytes(l) == ConfigBytes(m) { TerminatedInjective(Parts(l), Parts(m)); }
  }

  lemma PartsNulFree(l: Linter)
    requires NulFreeLinter(l)
    ensures forall p :: p in Parts(l) ==> NulFree(p)
  {
    forall p | p in Parts(l)
      ensures NulFree(p)
    {
      assert p == l.command || p == "" || p in l.options + l.includes + l.excludes;
    }
  }

  // Where the empty parts of an unmistakable configuration are.
  lemma EmptyParts(l: Linter)
    requires Unmistakable(l)
    ensures forall k :: 0 < k < |Parts(l)| && Parts(l)[k] == "" ==>
                          || k == |l.options| + 1 || k == |l.options| + |l.includes| + 2
                          || (l.includes == [""] && k == |l.options| + 2)
  {
    var o, i := |l.options|, |l.includes|;
    forall k | 0 < k < |Parts(l)| && k != o + 1 && k != o + i + 2
      ensures Parts(l)[k] in l.options + l.includes + l.excludes
      ensures Parts(l)[k] == "" ==> l.includes == [""] && k == o + 2
    {
      if k <= o {
        assert Parts(l)[k] == l.options[k - 1];
      } else if k < o + i + 2 {
        assert Parts(l)[k] == l.includes[k - o - 2];
      } else {
        assert Parts(l)[k] == l.excludes[k - o - i - 3];
      }
    }
  }

  lemma PartsSlices(l: Linter)
    ensures var p, o, i := Parts(l), |l.options|, |l.includes|;
            && |p| == o + i + 3 + |l.excludes| && p[0] == l.command && p[o + 1] == "" && p[o + i + 2] == ""
            && p[1..o + 1] == l.options && p[o + 2..o + i + 2] == l.includes && p[o + i + 3..] == l.excludes
  {}

  lemma UnmistakableParts(l: Linter, m: Linter)
    requires Unmistakable(l) && l.includes != [] && m.includes != [] && Parts(l) == Parts(m)
    ensures Relocated(l, m)
  {
    hide Parts, Unmistakable;
    PartsSlices(l);
    PartsSlices(m);
    EmptyParts(l);
    var p := |m.options| + 1;
    assert Parts(l)[p] == "" && Parts(l)[p + |m.includes| + 1] == "";
  }

  // An empty part read as the separator it looks like; the real separator next to it becomes an empty part.
  function MisreadOption(l: Linter, k: nat): Linter
    requires k < |l.options|
  {
    Linter(l.command, l.options[..k], l.options[k + 1..] + [""] + l.includes, l.excludes, l.workingDir)
  }

  function MisreadFirstInclude(l: Linter): Linter
    requires l.includes != []
  {
    Linter(l.command, l.options + [""], l.includes[1..], l.excludes, l.workingDir)
  }

  function MisreadInclude(l: Linter, k: nat): Linter
    requires k < |l.includes|
  {
    Linter(l.command, l.options, l.includes[..k], l.includes[k + 1..] + [""] + l.excludes, l.workingDir)
  }

  function MisreadExclude(l: Linter, k: nat): Linter
    requires k < |l.excludes|
  {
    Linter(l.command, l.options, l.includes + [""] + l.excludes[..k], l.excludes[k + 1..], l.workingDir)
  }

  lemma MisreadOptionParts(l: Linter, k: nat)
    requires k < |l.options| && l.options[k] == ""
    ensures Parts(MisreadOption(l, k)) == Parts(l) && |MisreadOption(l, k).options| < |l.options|
  {
    assert l.options == l.options[..k] + [""] + l.options[k + 1..];
  }

  lemma MisreadFirstIncludeParts(l: Linter)
    requires l.includes != [] && l.includes[0] == ""
    ensures Parts(MisreadFirstInclude(l)) == Parts(l) && |MisreadFirstInclude(l).options| > |l.options|
  {
    assert l.includes == [""] + l.includes[1..];
  }

  lemma MisreadIncludeParts(l: Linter, k: nat)
    requires k < |l.includes| && l.includes[k] == ""
    ensures Parts(MisreadInclude(l, k)) == Parts(l) && |MisreadInclude(l, k).includes| < |l.includes|
  {
    assert l.includes == l.includes[..k] + [""] + l.includes[k + 1..];
  }

  lemma MisreadExcludeParts(l: Linter, k: nat)
    requires k < |l.excludes| && l.excludes[k] == ""
    ensures Parts(MisreadExclude(l, k)) == Parts(l) && |MisreadExclude(l, k).includes| > |l.includes|
  {
    assert l.excludes == l.excludes[..k] + [""] + l.excludes[k + 1..];
  }

  // A configuration that is not unmistakable reads the same as another one the program loads.
  lemma Misread(l: Linter) returns (m: Linter)
    requires Loadable(l) && !Unmistakable(l)
    ensures Parts(m) == Parts(l) && m != l && m.workingDir == l.workingDir && Loadable(m)
  {
    hide Parts, NulFreeLinter;
    if k :| 0 <= k < |l.options| && l.options[k] == "" {
      MisreadOptionParts(l, k);
      m := MisreadOption(l, k);
    } else if k :| 0 <= k < |l.excludes| && l.excludes[k] == "" {
      MisreadExcludeParts(l, k);
      m := MisreadExclude(l, k);
    } else {
      m := MisreadIncludes(l);
    }
    MisreadNulFree(l, m);
  }

  lemma MisreadIncludes(l: Linter) returns (m: Linter)
    requires "" in l.includes && l.includes != [""]
    ensures Parts(m) == Parts(l) && m != l && m.workingDir == l.workingDir && m.includes != []
  {
    hide Parts;
    if l.includes[0] == "" {
      MisreadFirstIncludeParts(l);
      m := MisreadFirstInclude(l);
    } else {
      var k :| 0 <= k < |l.includes| && l.includes[k] == "";
      MisreadIncludeParts(l, k);
      m := MisreadInclude(l, k);
    }
  }

  lemma MisreadNulFree(l: Linter, m: Linter)
    requires Parts(m) == Parts(l)
    ensures NulFreeLinter(l) ==> NulFreeLinter(m)
  {
    hide NulFree;
    if NulFreeLinter(l) {
      PartsNulFree(l);
      forall p | p in m.options + m.includes + m.excludes
        ensures NulFree(p)
      {
        assert p in Parts(m);
      }
      assert m.command == Parts(m)[0] == l.command;
    }
  }

  /** Among the linters the program loads, equal bytes mean equal up to the working directory exactly when no option,
      include or exclude is the empty string, or an empty include is the only include. */
  lemma ConfigDetermined(l: Linter)
    requires Loadable(l)
    ensures Unmistakable(l) <==> forall m :: Loadable(m) ==> (ConfigBytes(m) == ConfigBytes(l) <==> Relocated(l, m))
  {
    hide ConfigBytes, Parts, NulFreeLinter, Unmistakable, Relocated;
    if Unmistakable(l) {
      forall m | Loadable(m)
        ensures ConfigBytes(m) == ConfigBytes(l) <==> Relocated(l, m)
      {
        EqualParts(m, l);
        if Relocated(l, m) { RelocatedBytes(l, m); }
        if ConfigBytes(m) == ConfigBytes(l) { UnmistakableParts(l, m); }
      }
    } else {
      var m := Misread(l);
      EqualParts(m, l);
      if Relocated(l, m) { SameDirectory(l, m); }
    }
  }

  lemma RelocatedBytes(l: Linter, m: Linter)
    requires Relocated(l, m)
    ensures ConfigBytes(m) == ConfigBytes(l)
  {}

  lemma SameDirectory(l: Linter, m: Linter)
    requires Relocated(l, m) && m.workingDir == l.workingDir
    ensures m == l
  {}

  // ---- what the covered bytes say of a file ----

  /** Files with NUL-free paths are covered alike exactly when path, modification second and size agree. */
  lemma CoveredFile(f: File, g: File)
    requires NulFree(f.path) && NulFree(g.path)
    ensures FileBytes(f) == FileBytes(g) <==>
            f.path == g.path && f.stamp.None? == g.stamp.None?
            && (f.stamp.Some? && g.stamp.Some? ==> SameStamp(f.stamp.value, g.stamp.value))
  {
    hide Itoa, UpTo, Seconds, NulFree;
    if FileBytes(f) == FileBytes(g) {
      PathOf(f);
      PathOf(g);
      assert (f.stamp.None? <==> |FileBytes(f)| == |f.path|) && (g.stamp.None? <==> |FileBytes(g)| == |g.path|);
      if f.stamp.Some? { StampOf(f, g); }
    }
  }

  lemma PathOf(f: File)
    requires NulFree(f.path)
    ensures UpTo(FileBytes(f), NUL) == f.path
  {
    hide Itoa, UpTo, Seconds;
    match f.stamp
    case None => NoSeparator(f.path, NUL);
    case Some(s) =>
      FirstPiece(f.path, NUL, Itoa(Seconds(s)) + [NUL] + Itoa(s.size));
      assert FileBytes(f) == f.path + ([NUL] + (Itoa(Seconds(s)) + [NUL] + Itoa(s.size)));
  }

  lemma StampOf(f: File, g: File)
    requires f.stamp.Some? && g.stamp.Some? && f.path == g.path && FileBytes(f) == FileBytes(g)
    ensures SameStamp(f.stamp.value, g.stamp.value)
  {
    hide Itoa, UpTo, Seconds;
    var s, t := f.stamp.value, g.stamp.value;
    var x, y := Itoa(Seconds(s)) + [NUL] + Itoa(s.size), Itoa(Seconds(t)) + [NUL] + Itoa(t.size);
    var n := |f.path| + 1;
    assert x == FileBytes(f)[n..] && y == FileBytes(g)[n..];
    DigitsNulFree(Seconds(s));
    DigitsNulFree(Seconds(t));
    FirstPiece(Itoa(Seconds(s)), NUL, Itoa(s.size));
    FirstPiece(Itoa(Seconds(t)), NUL, Itoa(t.size));
    assert x == Itoa(Seconds(s)) + ([NUL] + Itoa(s.size)) && y == Itoa(Seconds(t)) + ([NUL] + Itoa(t.size));
    ItoaInjective(Seconds(s), Seconds(t));
    var k := |Itoa(Seconds(s))| + 1;
    assert Itoa(s.size) == x[k..] && Itoa(t.size) == y[k..];
    ItoaInjective(s.size, t.size);
  }

  lemma DigitsNulFree(i: int)
    ensures NulFree(Itoa(i))
  {
    assert !IsDigit(NUL) && NUL != '-';
  }
}
