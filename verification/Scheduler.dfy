/** The scheduler: files gathered by formatter sequence, handed to workers batch by batch. */
module Scheduler {
  import opened Batching
  import opened Optional
  import opened Signing

  // A file as the walk hands it over, with the cache entry found for it.
  datatype File = File(path: string, info: Option<Stamp>, cached: Option<string>)

  // An accepted file: the stamp it was read with and its formatters' signature.
  datatype Work = Work(path: string, info: Stamp, formatters: string)

  datatype Batch = Batch(key: string, files: seq<Work>)

  type Batches = map<string, seq<Work>>

  datatype Outcome = Accepted(work: Work) | Skipped | Failed

  function Decision(hash: Hash, fs: Formatters, file: File, matches: seq<string>): Outcome {
    match (Signature(hash, fs, Sequence(fs, matches)), file.info)
    case (Some(formatters), Some(info)) =>
      if file.cached == Some(FormatSignature(hash, formatters, info)) then Skipped
      else Accepted(Work(file.path, info, formatters))
    case _ => Failed
  }

  function Pending(b: Batches, key: string): seq<Work> {
    if key in b then b[key] else []
  }

  // The batch an appended file completes, if it does.
  function Completed(size: int, b: Batches, key: string, w: Work): Option<Batch> {
    if |Pending(b, key)| + 1 == size then Some(Batch(key, Pending(b, key) + [w])) else None
  }

  function Appended(size: int, b: Batches, key: string, w: Work): Batches {
    b[key := if |Pending(b, key)| + 1 == size then [] else Pending(b, key) + [w]]
  }

  // ---- conservation ----

  // The files of one key among the batches handed to the workers, in order.
  function Handed(scheduled: seq<Batch>, key: string): seq<Work> {
    if scheduled == [] then []
    else
      var rest := scheduled[..|scheduled| - 1];
      var last := scheduled[|scheduled| - 1];
      Handed(rest, key) + (if last.key == key then last.files else [])
  }

  function Submitted(accepted: seq<(string, Work)>, key: string): seq<Work> {
    if accepted == [] then []
    else
      var rest := accepted[..|accepted| - 1];
      var last := accepted[|accepted| - 1];
      Submitted(rest, key) + (if last.0 == key then [last.1] else [])
  }

  lemma HandedAppend(scheduled: seq<Batch>, b: Batch, key: string)
    ensures Handed(scheduled + [b], key) == Handed(scheduled, key) + (if b.key == key then b.files else [])
  {
    assert (scheduled + [b])[..|scheduled|] == scheduled;
  }

  lemma SubmittedAppend(accepted: seq<(string, Work)>, key: string, w: Work, other: string)
    ensures Submitted(accepted + [(key, w)], other) == Submitted(accepted, other) + (if other == key then [w] else [])
  {
    assert (accepted + [(key, w)])[..|accepted|] == accepted;
  }

  // Per key, what was handed over followed by what waits is what was accepted.
  ghost predicate Conserved(accepted: seq<(string, Work)>, scheduled: seq<Batch>, b: Batches) {
    forall key :: Handed(scheduled, key) + Pending(b, key) == Submitted(accepted, key)
  }

  predicate Full(size: int, batch: Batch) {
    0 < |batch.files| && (size > 0 ==> |batch.files| <= size)
  }

  ghost predicate Sized(size: int, scheduled: seq<Batch>, b: Batches) {
    && (forall i :: 0 <= i < |scheduled| ==> Full(size, scheduled[i]))
    && (size > 0 ==> forall key :: key in b ==> |b[key]| < size)
  }

  function WithBatch(scheduled: seq<Batch>, batch: Option<Batch>): seq<Batch> {
    match batch
    case None => scheduled
    case Some(b) => scheduled + [b]
  }

  /** Accepting a file loses none, duplicates none and keeps the order within its key. */
  lemma AppendConserves(size: int, accepted: seq<(string, Work)>, scheduled: seq<Batch>, b: Batches, key: string,
                        w: Work)
    requires Conserved(accepted, scheduled, b) && Sized(size, scheduled, b)
    ensures Conserved(accepted + [(key, w)], WithBatch(scheduled, Completed(size, b, key, w)), Appended(size, b, key, w))
    ensures Sized(size, WithBatch(scheduled, Completed(size, b, key, w)), Appended(size, b, key, w))
  {
    hide Handed, Submitted;
    forall other
      ensures Handed(WithBatch(scheduled, Completed(size, b, key, w)), other) + Pending(Appended(size, b, key, w), other) ==
              Submitted(accepted + [(key, w)], other)
    {
      SubmittedAppend(accepted, key, w, other);
      assert Handed(scheduled, other) + Pending(b, other) == Submitted(accepted, other);
      if |Pending(b, key)| + 1 == size { HandedAppend(scheduled, Batch(key, Pending(b, key) + [w]), other); }
    }
  }

  /** A batch is handed over with the file that fills it, exactly then. */
  lemma CompletedIsFull(size: int, b: Batches, key: string, w: Work)
    ensures Completed(size, b, key, w).Some? <==> |Pending(b, key)| + 1 == size
    ensures Completed(size, b, key, w).Some? ==>
              var batch := Completed(size, b, key, w).value; |batch.files| == size && batch.files[size - 1] == w
    ensures Pending(Appended(size, b, key, w), key) == if |Pending(b, key)| + 1 == size then [] else Pending(b, key) + [w]
    ensures forall other :: other != key ==> Pending(Appended(size, b, key, w), other) == Pending(b, other)
  {}

  // Handing over one waiting batch.
  lemma DrainOne(size: int, scheduled: seq<Batch>, b: Batches, key: string)
    requires Sized(size, scheduled, b) && key in b && b[key] != []
    ensures Sized(size, scheduled + [Batch(key, b[key])], b)
    ensures forall other :: Handed(scheduled + [Batch(key, b[key])], other) ==
                            Handed(scheduled, other) + (if other == key then b[key] else [])
  {
    hide Handed;
    forall other
      ensures Handed(scheduled + [Batch(key, b[key])], other) == Handed(scheduled, other) + (if other == key then b[key] else [])
    {
      HandedAppend(scheduled, Batch(key, b[key]), other);
    }
  }

  // ---- the scheduler ----

  class Scheduler {
    const batchSize: int
    const formatters: Formatters
    const hash: Hash

    var batches: Batches
    var signatures: map<string, string>
    // What the worker group was given, in order.
    var scheduled: seq<Batch>
    ghost var accepted: seq<(string, Work)>

    // Every remembered signature is the one a recomputation from its key gives.
    ghost predicate Memo()
      reads this
    {
      forall key :: key in signatures ==> Signature(hash, formatters, Split(key)) == Some(signatures[key])
    }

    ghost predicate Valid()
      reads this
    {
      Memo() && Conserved(accepted, scheduled, batches) && Sized(batchSize, scheduled, batches)
    }

    constructor (size: int, fs: Formatters, h: Hash)
      ensures Valid() && batchSize == size && formatters == fs && hash == h
      ensures batches == map[] && signatures == map[] && scheduled == [] && accepted == []
    {
      batchSize, formatters, hash := size, fs, h;
      batches, signatures, scheduled, accepted := map[], map[], [], [];
    }

    method FormattersSignature(names: seq<string>) returns (sig: Option<string>)
      requires Memo() && names != [] && ValidNames(names)
      modifies `signatures
      ensures Memo() && sig == Signature(hash, formatters, names)
    {
      hide Split, Key, ValidNames, Signature;
      var key := Key(names);
      KeyRoundTrip(names);
      if key in signatures { return Some(signatures[key]); }
      sig := Signature(hash, formatters, names);
      if sig.Some? { signatures := signatures[key := sig.value]; }
    }

    method Submit(file: File, matches: seq<string>) returns (outcome: Outcome)
      requires Valid() && matches != [] && ValidNames(matches)
      modifies this
      ensures Valid() && outcome == Decision(hash, formatters, file, matches)
      ensures outcome.Accepted? ==>
                var key := Key(Sequence(formatters, matches));
                && batches == Appended(batchSize, old(batches), key, outcome.work)
                && scheduled == WithBatch(old(scheduled), Completed(batchSize, old(batches), key, outcome.work))
                && accepted == old(accepted) + [(key, outcome.work)]
      ensures !outcome.Accepted? ==>
                batches == old(batches) && scheduled == old(scheduled) && accepted == old(accepted)
    {
      hide Key, Split, ValidNames, Signature, Sequence, Conserved, Sized, FormatSignature;
      var names := Sequence(formatters, matches);
      SequenceValid(formatters, matches);
      var key := Key(names);
      var sig := FormattersSignature(names);
      if sig.None? || file.info.None? { return Failed; }
      if file.cached == Some(FormatSignature(hash, sig.value, file.info.value)) { return Skipped; }
      var work := Work(file.path, file.info.value, sig.value);
      AppendConserves(batchSize, accepted, scheduled, batches, key, work);
      accepted := accepted + [(key, work)];
      ghost var before := batches;
      var waiting := Pending(batches, key) + [work];
      batches := batches[key := waiting];
      if |waiting| == batchSize {
        scheduled := scheduled + [Batch(key, waiting)];
        batches := batches[key := []];
      }
      assert batches == Appended(batchSize, before, key, work);
      outcome := Accepted(work);
    }

    /** Handing over the partial batches, in any order of keys: every accepted file is then with the workers, once,
        in the order its key received it, and every batch is non-empty and within the size. */
    method Close()
      requires Valid()
      modifies `scheduled
      ensures forall key :: Handed(scheduled, key) == Submitted(accepted, key)
      ensures forall i :: 0 <= i < |scheduled| ==> Full(batchSize, scheduled[i])
    {
      hide Handed, Submitted, Signature, Split;
      var keys := batches.Keys;
      ghost var before := scheduled;
      while keys != {}
        invariant keys <= batches.Keys && Sized(batchSize, scheduled, batches)
        invariant forall key :: Handed(scheduled, key) ==
                                Handed(before, key) + (if key in keys then [] else Pending(batches, key))
        decreases |keys|
      {
        var key :| key in keys;
        if batches[key] != [] {
          DrainOne(batchSize, scheduled, batches, key);
          scheduled := scheduled + [Batch(key, batches[key])];
        }
        keys := keys - {key};
      }
    }
  }

  // ---- the files of one walk batch ----

  // What matching a file against the configuration gives: excluded outright, or the formatters that want it.
  datatype Match = Excluded | Wanted(names: seq<string>)

  // What becomes of a file: handed to the scheduler, released at once, or the end of the whole call.
  datatype Fate = Taken(key: string, work: Work) | Released | Fatal

  function FateOf(hash: Hash, fs: Formatters, matching: File -> Match, unmatchedFatal: bool, file: File): Fate {
    match matching(file)
    case Excluded => Released
    case Wanted(names) =>
      if names == [] then if unmatchedFatal then Fatal else Released
      else match Decision(hash, fs, file, names)
        case Accepted(w) => Taken(Key(Sequence(fs, names)), w)
        case Skipped => Released
        case Failed => Fatal
  }

  // The signature a file has under these formatters and as it is now; none when a formatter or the file cannot be examined.
  function SignatureNow(hash: Hash, fs: Formatters, names: seq<string>, file: File): Option<string> {
    match (Signature(hash, fs, Sequence(fs, names)), file.info)
    case (Some(formatters), Some(info)) => Some(FormatSignature(hash, formatters, info))
    case _ => None
  }

  /** What becomes of a file: an excluded one is released; one no formatter wants is released, or ends the call if the option
      says so; one that cannot be signed ends the call; and one whose signature is cached is released, and taken otherwise. */
  lemma FateReasons(hash: Hash, fs: Formatters, matching: File -> Match, unmatchedFatal: bool, file: File)
    ensures var fate := FateOf(hash, fs, matching, unmatchedFatal, file);
            match matching(file)
            case Excluded => fate == Released
            case Wanted(names) =>
              var now := SignatureNow(hash, fs, names, file);
              && (fate == Released <==> if names == [] then !unmatchedFatal else now.Some? && file.cached == now)
              && (fate == Fatal <==> if names == [] then unmatchedFatal else now.None?)
              && (fate.Taken? <==> names != [] && now.Some? && file.cached != now)
              && (fate.Taken? ==>
                    && fate.key == Key(Sequence(fs, names)) && fate.work.path == file.path && file.info == Some(fate.work.info)
                    && now == Some(FormatSignature(hash, fate.work.formatters, fate.work.info))
                    && Signature(hash, fs, Sequence(fs, names)) == Some(fate.work.formatters))
  {
    hide Signature, Sequence, Key, FormatSignature;
  }

  // The files that were taken, with their keys, and those that were released, each in walk order.
  function TakenOf(fates: seq<Fate>): seq<(string, Work)> {
    if fates == [] then []
    else
      var last := fates[|fates| - 1];
      TakenOf(fates[..|fates| - 1]) + (if last.Taken? then [(last.key, last.work)] else [])
  }

  function ReleasedOf(files: seq<File>, fates: seq<Fate>): seq<File>
    requires |files| == |fates|
  {
    if fates == [] then []
    else
      var n := |fates| - 1;
      ReleasedOf(files[..n], fates[..n]) + (if fates[n].Released? then [files[n]] else [])
  }

  predicate NoneFatal(fates: seq<Fate>) {
    forall i :: 0 <= i < |fates| ==> !fates[i].Fatal?
  }

  function TakenPaths(taken: seq<(string, Work)>): seq<string> {
    seq(|taken|, i requires 0 <= i < |taken| => taken[i].1.path)
  }

  function Paths(files: seq<File>): seq<string> {
    seq(|files|, i requires 0 <= i < |files| => files[i].path)
  }

  // A file that is taken is taken under its own path.
  predicate OwnPaths(files: seq<File>, fates: seq<Fate>)
    requires |files| == |fates|
  {
    forall i :: 0 <= i < |files| && fates[i].Taken? ==> fates[i].work.path == files[i].path
  }

  /** A call that does not end early takes or releases every file, each once: what was taken and what was released are
      together the files it was given. */
  lemma {:induction false} TakenOrReleased(files: seq<File>, fates: seq<Fate>)
    requires |files| == |fates| && NoneFatal(fates) && OwnPaths(files, fates)
    ensures multiset(TakenPaths(TakenOf(fates))) + multiset(Paths(ReleasedOf(files, fates))) == multiset(Paths(files))
  {
    hide TakenOf, ReleasedOf;
    if fates == [] {
      NothingYet();
      assert files == [];
    } else {
      var n := |fates| - 1;
      TakenOrReleased(files[..n], fates[..n]);
      assert files == files[..n] + [files[n]] && fates == fates[..n] + [fates[n]];
      FateNext(files[..n], files[n], fates[..n], fates[n]);
      PathsNext(files[..n], TakenOf(fates[..n]), ReleasedOf(files[..n], fates[..n]), files[n], fates[n]);
    }
  }

  lemma PathsNext(files: seq<File>, taken: seq<(string, Work)>, released: seq<File>, f: File, fate: Fate)
    requires multiset(TakenPaths(taken)) + multiset(Paths(released)) == multiset(Paths(files))
    requires !fate.Fatal? && (fate.Taken? ==> fate.work.path == f.path)
    ensures multiset(TakenPaths(taken + (if fate.Taken? then [(fate.key, fate.work)] else [])))
            + multiset(Paths(released + (if fate.Released? then [f] else []))) == multiset(Paths(files + [f]))
  {
    assert Paths(files + [f]) == Paths(files) + [f.path];
    if fate.Taken? {
      assert TakenPaths(taken + [(fate.key, fate.work)]) == TakenPaths(taken) + [f.path];
      assert released + [] == released;
    } else {
      assert Paths(released + [f]) == Paths(released) + [f.path];
      assert taken + [] == taken;
    }
  }

  lemma FateNext(files: seq<File>, f: File, fates: seq<Fate>, fate: Fate)
    requires |files| == |fates|
    ensures TakenOf(fates + [fate]) == TakenOf(fates) + (if fate.Taken? then [(fate.key, fate.work)] else [])
    ensures ReleasedOf(files + [f], fates + [fate]) == ReleasedOf(files, fates) + (if fate.Released? then [f] else [])
  {
    assert (fates + [fate])[..|fates|] == fates && (files + [f])[..|files|] == files;
  }

  /** The walk hands over a batch of files: in walk order, each is taken by the scheduler or released without touching the
      cache, up to the first file that ends the call. */
  method ApplyFiles(s: Scheduler, files: seq<File>, matching: File -> Match, unmatchedFatal: bool)
    returns (released: seq<File>, failed: bool, ghost fates: seq<Fate>)
    requires s.Valid()
    requires forall f, names :: f in files && matching(f) == Wanted(names) ==> ValidNames(names)
    modifies s
    ensures s.Valid() && |fates| <= |files|
    ensures forall i :: 0 <= i < |fates| ==> fates[i] == FateOf(s.hash, s.formatters, matching, unmatchedFatal, files[i])
    ensures s.accepted == old(s.accepted) + TakenOf(fates)
    ensures !failed ==> |fates| == |files| && NoneFatal(fates) && released == ReleasedOf(files, fates)
    ensures OwnPaths(files[..|fates|], fates)
    ensures failed ==> released == [] && fates != [] && fates[|fates| - 1].Fatal? && NoneFatal(fates[..|fates| - 1])
  {
    hide FateOf, TakenOf, ReleasedOf, ValidNames, Conserved, Sized, NoneFatal, OwnPaths;
    released, fates := [], [];
    NothingYet();
    assert files[..0] == [];
    ghost var hash, fs, before := s.hash, s.formatters, s.accepted;
    for i := 0 to |files|
      invariant s.Valid() && |fates| == i && NoneFatal(fates) && OwnPaths(files[..i], fates)
      invariant forall k :: 0 <= k < i ==> fates[k] == FateOf(hash, fs, matching, unmatchedFatal, files[k])
      invariant s.accepted == before + TakenOf(fates) && released == ReleasedOf(files[..i], fates)
    {
      var file := files[i];
      assert file in files && files[..i + 1] == files[..i] + [file];
      ghost var fate := FateOf(hash, fs, matching, unmatchedFatal, file);
      FateNext(files[..i], file, fates, fate);
      FateKinds(hash, fs, matching, unmatchedFatal, file);
      FatesNext(files[..i], file, fates, fate);
      ghost var earlier := fates;
      fates := fates + [fate];
      assert fates[..i] == earlier;
      var over := ApplyFile(s, file, matching, unmatchedFatal);
      match over
      case Fatal => return [], true, fates;
      case Released => released := released + [file];
      case Taken(_, _) =>
    }
    assert files[..|files|] == files;
    failed := false;
  }

  // One file: excluded, unmatched, or submitted.
  method ApplyFile(s: Scheduler, file: File, matching: File -> Match, unmatchedFatal: bool) returns (fate: Fate)
    requires s.Valid() && forall names :: matching(file) == Wanted(names) ==> ValidNames(names)
    modifies s
    ensures s.Valid() && fate == FateOf(s.hash, s.formatters, matching, unmatchedFatal, file)
    ensures s.accepted == old(s.accepted) + (if fate.Taken? then [(fate.key, fate.work)] else [])
  {
    hide Decision, Sequence, Key, ValidNames, Conserved, Sized;
    match matching(file) {
      case Excluded => fate := Released;
      case Wanted(names) =>
        if names == [] { return if unmatchedFatal then Fatal else Released; }
        var outcome := s.Submit(file, names);
        match outcome
        case Failed => fate := Fatal;
        case Skipped => fate := Released;
        case Accepted(w) => fate := Taken(Key(Sequence(s.formatters, names)), w);
    }
  }

  lemma NothingYet()
    ensures NoneFatal([]) && OwnPaths([], []) && TakenOf([]) == [] && ReleasedOf([], []) == []
  {}

  // A taken file is taken under its own path.
  lemma FateKinds(hash: Hash, fs: Formatters, matching: File -> Match, unmatchedFatal: bool, file: File)
    ensures var fate := FateOf(hash, fs, matching, unmatchedFatal, file); fate.Taken? ==> fate.work.path == file.path
  {
    hide Sequence, Key, FormatSignature, Signature;
  }

  lemma FatesNext(files: seq<File>, f: File, fates: seq<Fate>, fate: Fate)
    requires |files| == |fates| && NoneFatal(fates) && OwnPaths(files, fates) && (fate.Taken? ==> fate.work.path == f.path)
    ensures OwnPaths(files + [f], fates + [fate])
    ensures !fate.Fatal? ==> NoneFatal(fates + [fate])
  {}

  lemma SequenceValid(fs: Formatters, matches: seq<string>)
    requires matches != [] && ValidNames(matches)
    ensures Sequence(fs, matches) != [] && ValidNames(Sequence(fs, matches))
  {
    var leq := (a: string, b: string) => SortsFirst(fs, a, b);
    SortAgrees(leq, leq, matches);
    assert matches[0] in Sequence(fs, matches);
  }
}
