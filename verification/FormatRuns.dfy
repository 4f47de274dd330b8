/** Cached formatting runs, step by step: batches run concurrently, releases queue up for the cache writer, a run may
    stop anywhere and be followed by another with a different configuration. */
module FormatRuns {
  import opened Batching
  import opened Optional
  import opened Scheduler
  import opened Signing

  datatype Env = Env(hash: Hash, batchSize: int)

  // A batch with the workers: calls made so far, whether one failed, and how many files were stat'ed since.
  datatype Flight = Flight(key: string, fs: Formatters, files: seq<Work>, done: nat, failed: bool, posted: nat)

  function Calls(f: Flight): seq<Call> {
    if f.files == [] then [] else Plan(f.fs, Split(f.key), |f.files|)
  }

  // A released file on its way to the cache: what its new signature is computed from.
  datatype Release = Release(path: string, formatters: string, stamp: Stamp)

  datatype Event =
    | Matched(path: string, formatters: string)
    | Called(flight: nat, call: Call, ok: bool)
    | Observed(flight: nat, file: nat, stamp: Stamp)

  datatype State = State(
    fs: Formatters,
    tree: map<string, Stamp>,
    bucket: map<string, string>,
    inbox: seq<File>,
    batches: Batches,
    flights: seq<Flight>,
    // Flights before this one belong to runs that ended.
    live: nat,
    queue: seq<Release>,
    writing: seq<Release>,
    log: seq<Event>,
    failed: bool)

  datatype Step =
    | StartRun(config: Formatters)
    | Read(path: string)
    | Submit(matches: seq<string>)
    | Drain(key: string)
    | RunCall(flight: nat, after: map<string, Stamp>, ok: bool)
    | Post(flight: nat)
    | PostFails(flight: nat)
    | Dequeue(at: nat)
    | Flush
    | FlushFails
    | Edit(after: map<string, Stamp>)

  predicate Flying(s: State, i: nat) {
    s.live <= i < |s.flights|
  }

  predicate Formatted(s: State, i: nat) {
    Flying(s, i) && s.flights[i].done >= |Calls(s.flights[i])| && s.flights[i].posted < |s.flights[i].files|
  }

  predicate Enabled(s: State, step: Step) {
    match step
    case Read(path) => path in s.tree
    case Submit(matches) => s.inbox != [] && ValidNames(matches)
    case Drain(key) => Pending(s.batches, key) != []
    case RunCall(i, _, _) => Flying(s, i) && s.flights[i].done < |Calls(s.flights[i])|
    case Post(i) => Formatted(s, i) && s.flights[i].files[s.flights[i].posted].path in s.tree
    case PostFails(i) => Formatted(s, i)
    case Dequeue(at) => at < |s.queue|
    case _ => true
  }


  function Launch(fs: Formatters, batch: Batch): Flight {
    Flight(batch.key, fs, batch.files, 0, false, 0)
  }

  function Submitting(env: Env, s: State, matches: seq<string>): State
    requires s.inbox != []
  {
    var file, rest := s.inbox[0], s.(inbox := s.inbox[1..]);
    if matches == [] then rest
    else
      var key := Key(Sequence(s.fs, matches));
      match Signature(env.hash, s.fs, Sequence(s.fs, matches))
      case None => rest.(failed := true)
      case Some(sig) =>
        match Decision(env.hash, s.fs, file, matches)
        case Failed => rest.(failed := true)
        case Skipped => rest.(log := s.log + [Matched(file.path, sig)])
        case Accepted(w) =>
          rest.(batches := Appended(env.batchSize, s.batches, key, w),
                flights := match Completed(env.batchSize, s.batches, key, w)
                           case None => s.flights
                           case Some(b) => s.flights + [Launch(s.fs, b)],
                log := s.log + [Matched(file.path, sig)])
  }

  function Calling(s: State, i: nat, after: map<string, Stamp>, ok: bool): State
    requires Flying(s, i) && s.flights[i].done < |Calls(s.flights[i])|
  {
    var f := s.flights[i];
    s.(tree := after,
       flights := s.flights[i := f.(done := f.done + 1, failed := f.failed || !ok)],
       failed := s.failed || !ok,
       log := s.log + [Called(i, Calls(f)[f.done], ok)])
  }

  function Posting(s: State, i: nat): State
    requires Formatted(s, i) && s.flights[i].files[s.flights[i].posted].path in s.tree
  {
    var f := s.flights[i];
    var w := f.files[f.posted];
    var now := s.tree[w.path];
    var next := s.(flights := s.flights[i := f.(posted := f.posted + 1)]);
    if f.failed then next
    else next.(queue := s.queue + [Release(w.path, w.formatters, StampToStore(w.info, now))],
               log := s.log + [Observed(i, f.posted, now)])
  }

  function Stored(hash: Hash, bucket: map<string, string>, writing: seq<Release>): map<string, string>
    decreases |writing|
  {
    if writing == [] then bucket
    else
      var r := writing[0];
      Stored(hash, bucket[r.path := FormatSignature(hash, r.formatters, r.stamp)], writing[1..])
  }

  function Next(env: Env, s: State, step: Step): State
    requires Enabled(s, step)
  {
    match step
    case StartRun(config) =>
      State(config, s.tree, s.bucket, [], map[], s.flights, |s.flights|, [], [], s.log, false)
    case Read(path) => s.(inbox := s.inbox + [File(path, Some(s.tree[path]), Lookup(s.bucket, path))])
    case Submit(matches) => Submitting(env, s, matches)
    case Drain(key) =>
      s.(flights := s.flights + [Launch(s.fs, Batch(key, Pending(s.batches, key)))], batches := s.batches[key := []])
    case RunCall(i, after, ok) => Calling(s, i, after, ok)
    case Post(i) => Posting(s, i)
    case PostFails(i) =>
      s.(flights := s.flights[i := s.flights[i].(posted := |s.flights[i].files|)], failed := true)
    case Dequeue(at) => s.(queue := s.queue[..at] + s.queue[at + 1..], writing := s.writing + [s.queue[at]])
    case Flush => s.(bucket := Stored(env.hash, s.bucket, s.writing), writing := [])
    case FlushFails => s.(writing := [], failed := true)
    case Edit(after) => s.(tree := after)
  }

  predicate Runs(env: Env, s: State, steps: seq<Step>)
    decreases |steps|
  {
    steps == [] || (Enabled(s, steps[0]) && Runs(env, Next(env, s, steps[0]), steps[1..]))
  }

  function Exec(env: Env, s: State, steps: seq<Step>): State
    requires Runs(env, s, steps)
    decreases |steps|
  {
    if steps == [] then s else Exec(env, Next(env, s, steps[0]), steps[1..])
  }

  // Before anything was formatted: an empty cache over any tree.
  predicate Initial(s: State) {
    && s.bucket == map[] && s.inbox == [] && s.batches == map[] && s.flights == [] && s.live == 0
    && s.queue == [] && s.writing == [] && s.log == []
  }

  // ---- what the log says of one flight ----

  function Performed(log: seq<Event>, i: nat): seq<Call> {
    if log == [] then []
    else
      var last := log[|log| - 1];
      Performed(log[..|log| - 1], i) + (if last.Called? && last.flight == i then [last.call] else [])
  }

  predicate Succeeded(log: seq<Event>, i: nat) {
    forall k :: 0 <= k < |log| && log[k].Called? && log[k].flight == i ==> log[k].ok
  }

  lemma PerformedNext(log: seq<Event>, e: Event, i: nat)
    ensures Performed(log + [e], i) == Performed(log, i) + (if e.Called? && e.flight == i then [e.call] else [])
    ensures Succeeded(log + [e], i) <==> Succeeded(log, i) && (e.Called? && e.flight == i ==> e.ok)
  {
    assert (log + [e])[..|log|] == log;
    if Succeeded(log + [e], i) {
      assert forall k :: 0 <= k < |log| ==> log[k] == (log + [e])[k];
      assert (log + [e])[|log|] == e;
    }
  }

  lemma {:induction false} NothingPerformed(log: seq<Event>, i: nat)
    requires forall k :: 0 <= k < |log| && log[k].Called? ==> log[k].flight != i
    ensures Performed(log, i) == [] && Succeeded(log, i)
  {
    if log != [] { NothingPerformed(log[..|log| - 1], i); }
  }

  // ---- the invariant ----

  // The flight made the first calls of its plan, and each of its files carries its formatters' signature.
  ghost predicate FlightKept(env: Env, log: seq<Event>, i: nat, f: Flight) {
    && f.files != [] && f.done <= |Calls(f)|
    && Performed(log, i) == Calls(f)[..f.done]
    && (f.failed <==> !Succeeded(log, i))
    && (forall j :: 0 <= j < |f.files| ==> Signature(env.hash, f.fs, Split(f.key)) == Some(f.files[j].formatters))
  }

  // When the file was observed its flight had made every call of its plan, all of them successfully.
  ghost predicate Earned(log: seq<Event>, k: nat, flights: seq<Flight>) {
    k < |log| && log[k].Observed? ==>
      var i := log[k].flight;
      && i < |flights| && log[k].file < |flights[i].files|
      && Performed(log[..k], i) == Calls(flights[i]) && Succeeded(log[..k], i)
      && flights[i].done == |Calls(flights[i])| && !flights[i].failed
  }

  // The signature is the one of an observed file.
  ghost predicate Shows(env: Env, log: seq<Event>, k: nat, flights: seq<Flight>, path: string, sig: string) {
    && k < |log| && log[k].Observed? && log[k].flight < |flights| && log[k].file < |flights[log[k].flight].files|
    && flights[log[k].flight].files[log[k].file].path == path
    && sig == FormatSignature(env.hash, flights[log[k].flight].files[log[k].file].formatters, log[k].stamp)
  }

  ghost predicate Evidence(env: Env, log: seq<Event>, flights: seq<Flight>, path: string, sig: string) {
    exists k: nat :: Shows(env, log, k, flights, path, sig)
  }

  ghost predicate FlightsKept(env: Env, s: State) {
    && (forall i :: 0 <= i < |s.flights| ==> FlightKept(env, s.log, i, s.flights[i]))
    && (forall k :: 0 <= k < |s.log| && s.log[k].Called? ==> s.log[k].flight < |s.flights|)
  }

  ghost predicate AllEarned(s: State) {
    forall k :: 0 <= k < |s.log| ==> Earned(s.log, k, s.flights)
  }

  ghost predicate BucketEarned(env: Env, s: State) {
    forall p :: p in s.bucket ==> Evidence(env, s.log, s.flights, p, s.bucket[p])
  }

  ghost predicate ReleasesEarned(env: Env, s: State, rs: seq<Release>) {
    forall i :: 0 <= i < |rs| ==>
                  Evidence(env, s.log, s.flights, rs[i].path, FormatSignature(env.hash, rs[i].formatters, rs[i].stamp))
  }

  ghost predicate BatchesSigned(env: Env, s: State) {
    forall key, i :: key in s.batches && 0 <= i < |s.batches[key]| ==>
                       Signature(env.hash, s.fs, Split(key)) == Some(s.batches[key][i].formatters)
  }

  ghost predicate Inv(env: Env, s: State) {
    && FlightsKept(env, s) && AllEarned(s) && BucketEarned(env, s)
    && ReleasesEarned(env, s, s.queue) && ReleasesEarned(env, s, s.writing) && BatchesSigned(env, s)
  }

  // ---- what later steps leave alone ----

  // The log only grows, and flights keep their files and formatters.
  ghost predicate Grows(s: State, t: State) {
    && |s.log| <= |t.log| && t.log[..|s.log|] == s.log
    && |s.flights| <= |t.flights|
    && forall i :: 0 <= i < |s.flights| ==> SameBatch(s.flights[i], t.flights[i])
  }

  predicate SameBatch(f: Flight, g: Flight) {
    f.key == g.key && f.fs == g.fs && f.files == g.files
  }

  lemma EvidenceGrows(env: Env, s: State, t: State, path: string, sig: string)
    requires Grows(s, t) && Evidence(env, s.log, s.flights, path, sig)
    ensures Evidence(env, t.log, t.flights, path, sig)
  {
    hide FormatSignature;
    var k: nat :| Shows(env, s.log, k, s.flights, path, sig);
    assert t.log[k] == t.log[..|s.log|][k];
    assert SameBatch(s.flights[s.log[k].flight], t.flights[s.log[k].flight]);
    assert Shows(env, t.log, k, t.flights, path, sig);
  }

  lemma BucketGrows(env: Env, s: State, t: State)
    requires Grows(s, t) && BucketEarned(env, s) && t.bucket == s.bucket
    ensures BucketEarned(env, t)
  {
    hide Evidence, Grows;
    forall p | p in t.bucket
      ensures Evidence(env, t.log, t.flights, p, t.bucket[p])
    {
      EvidenceGrows(env, s, t, p, s.bucket[p]);
    }
  }

  lemma ReleasesGrow(env: Env, s: State, t: State, rs: seq<Release>)
    requires Grows(s, t) && ReleasesEarned(env, s, rs)
    ensures ReleasesEarned(env, t, rs)
  {
    hide Evidence, Grows, FormatSignature;
    forall i | 0 <= i < |rs|
      ensures Evidence(env, t.log, t.flights, rs[i].path, FormatSignature(env.hash, rs[i].formatters, rs[i].stamp))
    {
      EvidenceGrows(env, s, t, rs[i].path, FormatSignature(env.hash, rs[i].formatters, rs[i].stamp));
    }
  }

  // ---- one call ----

  lemma CallKeeps(env: Env, s: State, i: nat, after: map<string, Stamp>, ok: bool)
    requires Inv(env, s) && Enabled(s, RunCall(i, after, ok))
    ensures Inv(env, Calling(s, i, after, ok))
  {
    hide Plan, Split, Signature, FormatSignature, Evidence, Earned, FlightKept, Performed, Succeeded, Calls;
    var t := Calling(s, i, after, ok);
    var e := Called(i, Calls(s.flights[i])[s.flights[i].done], ok);
    assert t.log == s.log + [e] && t.log[..|s.log|] == s.log;
    assert Grows(s, t);
    BucketGrows(env, s, t);
    ReleasesGrow(env, s, t, s.queue);
    ReleasesGrow(env, s, t, s.writing);
    forall m | 0 <= m < |t.flights|
      ensures FlightKept(env, t.log, m, t.flights[m])
    {
      assert FlightKept(env, s.log, m, s.flights[m]);
      CallKeepsFlight(env, s.log, e, m, s.flights[m], i);
    }
    forall k | 0 <= k < |t.log|
      ensures Earned(t.log, k, t.flights)
    {
      if k < |s.log| {
        assert Earned(s.log, k, s.flights);
        CallKeepsEarned(s, k, i, after, ok);
      } else {
        assert t.log[k] == e;
        NotObserved(t.log, k, t.flights);
      }
    }
  }

  lemma NotObserved(log: seq<Event>, k: nat, flights: seq<Flight>)
    requires k < |log| ==> !log[k].Observed?
    ensures Earned(log, k, flights)
  {}

  lemma CallKeepsFlight(env: Env, log: seq<Event>, e: Event, m: nat, f: Flight, i: nat)
    requires FlightKept(env, log, m, f)
    requires e.Called? && e.flight == i && (m == i ==> f.done < |Calls(f)| && e.call == Calls(f)[f.done])
    ensures FlightKept(env, log + [e], m, if m == i then f.(done := f.done + 1, failed := f.failed || !e.ok) else f)
  {
    hide Plan, Split, Signature, Performed, Succeeded;
    PerformedNext(log, e, m);
    if m == i {
      var g := f.(done := f.done + 1, failed := f.failed || !e.ok);
      assert Calls(g) == Calls(f);
      assert Calls(f)[..f.done + 1] == Calls(f)[..f.done] + [Calls(f)[f.done]];
    }
  }

  // An observed flight makes no further call.
  lemma CallKeepsEarned(s: State, k: nat, i: nat, after: map<string, Stamp>, ok: bool)
    requires k < |s.log| && Earned(s.log, k, s.flights) && Enabled(s, RunCall(i, after, ok))
    ensures Earned(Calling(s, i, after, ok).log, k, Calling(s, i, after, ok).flights)
  {
    hide Plan, Split, Performed, Succeeded;
    var t := Calling(s, i, after, ok);
    assert t.log[..k] == s.log[..k] && t.log[k] == s.log[k];
  }

  // ---- one file observed and released ----

  lemma PostKeeps(env: Env, s: State, i: nat)
    requires Inv(env, s) && Enabled(s, Post(i))
    ensures Inv(env, Posting(s, i))
  {
    hide Plan, Split, Signature, FormatSignature, Evidence, Earned, FlightKept, Performed, Succeeded, Calls;
    var t := Posting(s, i);
    var f := s.flights[i];
    var w, now := f.files[f.posted], s.tree[f.files[f.posted].path];
    assert Grows(s, t);
    BucketGrows(env, s, t);
    ReleasesGrow(env, s, t, s.queue);
    ReleasesGrow(env, s, t, s.writing);
    forall m | 0 <= m < |t.flights|
      ensures FlightKept(env, t.log, m, t.flights[m])
    {
      assert FlightKept(env, s.log, m, s.flights[m]);
      PostKeepsFlight(env, s, m, i);
    }
    forall k | 0 <= k < |t.log|
      ensures Earned(t.log, k, t.flights)
    {
      if k < |s.log| {
        assert Earned(s.log, k, s.flights);
        PostKeepsEarned(s, k, i);
      } else {
        assert FlightKept(env, s.log, i, f);
        PostEarns(env, s, i);
      }
    }
    if !f.failed {
      StoredIsFresh(env.hash, w.formatters, w.info, now);
      PostShows(env, s, i);
    }
  }

  lemma PostKeepsFlight(env: Env, s: State, m: nat, i: nat)
    requires m < |s.flights| && FlightKept(env, s.log, m, s.flights[m]) && Enabled(s, Post(i))
    ensures FlightKept(env, Posting(s, i).log, m, Posting(s, i).flights[m])
  {
    hide Plan, Split, Signature, Performed, Succeeded;
    var f := s.flights[i];
    assert Calls(f.(posted := f.posted + 1)) == Calls(f);
    PerformedNext(s.log, Observed(i, f.posted, s.tree[f.files[f.posted].path]), m);
  }

  lemma PostKeepsEarned(s: State, k: nat, i: nat)
    requires k < |s.log| && Earned(s.log, k, s.flights) && Enabled(s, Post(i))
    ensures Earned(Posting(s, i).log, k, Posting(s, i).flights)
  {
    hide Plan, Split, Performed, Succeeded;
    var t := Posting(s, i);
    assert t.log[..k] == s.log[..k] && t.log[k] == s.log[k];
  }

  lemma PostEarns(env: Env, s: State, i: nat)
    requires Enabled(s, Post(i)) && FlightKept(env, s.log, i, s.flights[i])
    ensures |Posting(s, i).log| > |s.log| ==> Earned(Posting(s, i).log, |s.log|, Posting(s, i).flights)
  {
    hide Plan, Split, Signature, Performed, Succeeded;
    var t, f := Posting(s, i), s.flights[i];
    assert Calls(f.(posted := f.posted + 1)) == Calls(f) == Calls(f)[..f.done];
    if !f.failed { assert t.log[..|s.log|] == s.log; }
  }

  lemma PostShows(env: Env, s: State, i: nat)
    requires Enabled(s, Post(i)) && !s.flights[i].failed
    ensures var t, w := Posting(s, i), s.flights[i].files[s.flights[i].posted];
            Evidence(env, t.log, t.flights, w.path, FormatSignature(env.hash, w.formatters, s.tree[w.path]))
  {
    hide Calls, FormatSignature;
    var t, w := Posting(s, i), s.flights[i].files[s.flights[i].posted];
    assert Shows(env, t.log, |s.log|, t.flights, w.path, FormatSignature(env.hash, w.formatters, s.tree[w.path]));
  }

  // ---- a batch handed over ----

  lemma LaunchKeeps(env: Env, s: State, t: State, batch: Batch)
    requires Inv(env, s) && t.flights == s.flights + [Launch(s.fs, batch)] && t.log == s.log && batch.files != []
    requires forall j :: 0 <= j < |batch.files| ==>
                           Signature(env.hash, s.fs, Split(batch.key)) == Some(batch.files[j].formatters)
    ensures FlightsKept(env, t) && AllEarned(t) && Grows(s, t)
  {
    hide Plan, Split, Signature, FormatSignature, Evidence, Earned, FlightKept, Performed, Succeeded, Calls, Grows;
    GrowsByFlight(s, t, Launch(s.fs, batch));
    assert forall k :: 0 <= k < |s.log| && s.log[k].Called? ==> s.log[k].flight != |s.flights|;
    NothingPerformed(s.log, |s.flights|);
    LaunchKept(env, s.log, |s.flights|, Launch(s.fs, batch));
    forall i | 0 <= i < |t.flights|
      ensures FlightKept(env, t.log, i, t.flights[i])
    {
      if i < |s.flights| { assert FlightKept(env, s.log, i, s.flights[i]); }
    }
    forall k | 0 <= k < |t.log|
      ensures Earned(t.log, k, t.flights)
    {
      assert Earned(s.log, k, s.flights);
      LaunchKeepsEarned(s.log, k, s.flights, Launch(s.fs, batch));
    }
  }

  lemma GrowsByFlight(s: State, t: State, f: Flight)
    requires t.flights == s.flights + [f] && t.log == s.log
    ensures Grows(s, t)
  {}

  lemma LaunchKept(env: Env, log: seq<Event>, i: nat, f: Flight)
    requires Performed(log, i) == [] && Succeeded(log, i) && f.files != [] && f.done == 0 && !f.failed
    requires forall j :: 0 <= j < |f.files| ==> Signature(env.hash, f.fs, Split(f.key)) == Some(f.files[j].formatters)
    ensures FlightKept(env, log, i, f)
  {
    hide Plan, Split, Signature, Performed, Succeeded;
  }

  lemma LaunchKeepsEarned(log: seq<Event>, k: nat, flights: seq<Flight>, f: Flight)
    requires Earned(log, k, flights)
    ensures Earned(log, k, flights + [f])
  {
    hide Plan, Split, Performed, Succeeded, Calls;
  }

  lemma DrainKeeps(env: Env, s: State, key: string)
    requires Inv(env, s) && Enabled(s, Drain(key))
    ensures Inv(env, Next(env, s, Drain(key)))
  {
    hide Split, Signature, FormatSignature, Evidence, FlightsKept, AllEarned, Grows, BucketEarned, ReleasesEarned;
    var t := Next(env, s, Drain(key));
    LaunchKeeps(env, s, t, Batch(key, Pending(s.batches, key)));
    BucketGrows(env, s, t);
    ReleasesGrow(env, s, t, s.queue);
    ReleasesGrow(env, s, t, s.writing);
  }

  // ---- a file submitted ----

  // An event that is neither a call nor an observation.
  lemma NoteKeeps(env: Env, s: State, path: string, sig: string)
    requires Inv(env, s)
    ensures var t := s.(log := s.log + [Matched(path, sig)]); Inv(env, t)
  {
    hide Plan, Split, Signature, FormatSignature, Evidence, Earned, FlightKept, Performed, Succeeded, Calls;
    var e := Matched(path, sig);
    var t := s.(log := s.log + [e]);
    assert Grows(s, t);
    BucketGrows(env, s, t);
    ReleasesGrow(env, s, t, s.queue);
    ReleasesGrow(env, s, t, s.writing);
    forall i | 0 <= i < |t.flights|
      ensures FlightKept(env, t.log, i, t.flights[i])
    {
      assert FlightKept(env, s.log, i, s.flights[i]);
      NoteKeepsFlight(env, s.log, e, i, s.flights[i]);
    }
    forall k | 0 <= k < |t.log|
      ensures Earned(t.log, k, t.flights)
    {
      if k < |s.log| {
        assert Earned(s.log, k, s.flights);
        NoteKeepsEarned(s.log, e, k, s.flights);
      } else {
        NotObserved(t.log, k, t.flights);
      }
    }
  }

  lemma NoteKeepsFlight(env: Env, log: seq<Event>, e: Event, i: nat, f: Flight)
    requires FlightKept(env, log, i, f) && e.Matched?
    ensures FlightKept(env, log + [e], i, f)
  {
    hide Plan, Split, Signature, Performed, Succeeded, Calls;
    PerformedNext(log, e, i);
  }

  lemma NoteKeepsEarned(log: seq<Event>, e: Event, k: nat, flights: seq<Flight>)
    requires k < |log| && Earned(log, k, flights)
    ensures Earned(log + [e], k, flights)
  {
    hide Plan, Split, Performed, Succeeded, Calls;
    assert (log + [e])[..k] == log[..k];
  }

  lemma SubmitKeeps(env: Env, s: State, matches: seq<string>)
    requires Inv(env, s) && Enabled(s, Submit(matches))
    ensures Inv(env, Submitting(env, s, matches))
  {
    hide Split, Signature, FormatSignature, Evidence, Sequence, Key, Decision, Inv;
    var file := s.inbox[0];
    InboxFree(env, s);
    if matches != [] && Signature(env.hash, s.fs, Sequence(s.fs, matches)).Some? {
      var sig := Signature(env.hash, s.fs, Sequence(s.fs, matches)).value;
      var noted := s.(log := s.log + [Matched(file.path, sig)]);
      NoteKeeps(env, s, file.path, sig);
      InboxFree(env, noted);
      AcceptedSigned(env, s.fs, file, matches);
      match Decision(env.hash, s.fs, file, matches)
      case Accepted(w) =>
        AcceptKeeps(env, noted, Key(Sequence(s.fs, matches)), w);
      case _ =>
    }
  }

  // The walk's own state is not part of the invariant.
  lemma InboxFree(env: Env, s: State)
    requires Inv(env, s)
    ensures forall inbox, failed :: Inv(env, s.(inbox := inbox, failed := failed))
    ensures s.inbox != [] ==> Inv(env, s.(inbox := s.inbox[1..])) && Inv(env, s.(inbox := s.inbox[1..], failed := true))
  {
    hide Evidence, Earned, FlightKept, Signature, FormatSignature, Split;
  }

  lemma AcceptedSigned(env: Env, fs: Formatters, file: File, matches: seq<string>)
    requires matches != [] && ValidNames(matches)
    ensures var d := Decision(env.hash, fs, file, matches);
            d.Accepted? ==> d.work.path == file.path
                            && Signature(env.hash, fs, Split(Key(Sequence(fs, matches)))) == Some(d.work.formatters)
  {
    hide Split, Key, Sequence, Signature, FormatSignature, ValidNames;
    SequenceValid(fs, matches);
    KeyRoundTrip(Sequence(fs, matches));
  }

  lemma AcceptKeeps(env: Env, s: State, key: string, w: Work)
    requires Inv(env, s) && Signature(env.hash, s.fs, Split(key)) == Some(w.formatters) && s.inbox != []
    ensures Inv(env, s.(inbox := s.inbox[1..], batches := Appended(env.batchSize, s.batches, key, w),
                        flights := match Completed(env.batchSize, s.batches, key, w)
                                   case None => s.flights
                                   case Some(b) => s.flights + [Launch(s.fs, b)]))
  {
    hide Split, Signature, FormatSignature, Evidence, FlightsKept, AllEarned, Grows, BucketEarned, ReleasesEarned;
    var batch := Completed(env.batchSize, s.batches, key, w);
    if batch.Some? {
      var t := s.(inbox := s.inbox[1..], batches := s.batches[key := []], flights := s.flights + [Launch(s.fs, batch.value)]);
      LaunchKeeps(env, s, t, batch.value);
      BucketGrows(env, s, t);
      ReleasesGrow(env, s, t, s.queue);
      ReleasesGrow(env, s, t, s.writing);
    } else {
      var t := s.(inbox := s.inbox[1..], batches := s.batches[key := Pending(s.batches, key) + [w]]);
      SameLogAndFlights(env, s, t);
    }
  }

  lemma SameLogAndFlights(env: Env, s: State, t: State)
    requires t.log == s.log && t.flights == s.flights
    ensures FlightsKept(env, s) ==> FlightsKept(env, t)
    ensures AllEarned(s) ==> AllEarned(t)
    ensures BucketEarned(env, s) && t.bucket == s.bucket ==> BucketEarned(env, t)
    ensures forall rs :: ReleasesEarned(env, s, rs) ==> ReleasesEarned(env, t, rs)
  {
    hide Evidence, Earned, FlightKept, FormatSignature;
  }

  // ---- the cache writer ----

  lemma {:induction false} FlushKeeps(env: Env, s: State, writing: seq<Release>)
    requires BucketEarned(env, s) && ReleasesEarned(env, s, writing)
    ensures BucketEarned(env, s.(bucket := Stored(env.hash, s.bucket, writing)))
    decreases |writing|
  {
    hide Evidence, FormatSignature;
    if writing != [] {
      var r := writing[0];
      var t := s.(bucket := s.bucket[r.path := FormatSignature(env.hash, r.formatters, r.stamp)]);
      FlushKeeps(env, t, writing[1..]);
      assert s.(bucket := Stored(env.hash, s.bucket, writing)) == t.(bucket := Stored(env.hash, t.bucket, writing[1..]));
    }
  }

  lemma FailedPostKeeps(env: Env, s: State, i: nat)
    requires Inv(env, s) && Enabled(s, PostFails(i))
    ensures Inv(env, Next(env, s, PostFails(i)))
  {
    hide Plan, Split, Signature, FormatSignature, Evidence, Earned, FlightKept, Performed, Succeeded, Calls;
    var t := Next(env, s, PostFails(i));
    assert Grows(s, t);
    BucketGrows(env, s, t);
    ReleasesGrow(env, s, t, s.queue);
    ReleasesGrow(env, s, t, s.writing);
    forall m | 0 <= m < |t.flights|
      ensures FlightKept(env, t.log, m, t.flights[m])
    {
      assert FlightKept(env, s.log, m, s.flights[m]);
      PostedIrrelevant(env, s, m, i);
    }
    forall k | 0 <= k < |t.log|
      ensures Earned(t.log, k, t.flights)
    {
      assert Earned(s.log, k, s.flights);
      PostedEarned(env, s, k, i);
    }
  }

  lemma PostedIrrelevant(env: Env, s: State, m: nat, i: nat)
    requires m < |s.flights| && FlightKept(env, s.log, m, s.flights[m]) && Enabled(s, PostFails(i))
    ensures FlightKept(env, s.log, m, Next(env, s, PostFails(i)).flights[m])
  {
    hide Plan, Split, Signature, Performed, Succeeded;
  }

  lemma PostedEarned(env: Env, s: State, k: nat, i: nat)
    requires k < |s.log| && Earned(s.log, k, s.flights) && Enabled(s, PostFails(i))
    ensures Earned(s.log, k, Next(env, s, PostFails(i)).flights)
  {
    hide Plan, Split, Performed, Succeeded;
  }

  // ---- every step ----

  lemma StepKeeps(env: Env, s: State, step: Step)
    requires Inv(env, s) && Enabled(s, step)
    ensures Inv(env, Next(env, s, step))
  {
    hide Submitting, Calling, Posting, Stored, FlightsKept, AllEarned, BucketEarned, Evidence, Signature, FormatSignature,
         Split, Calls;
    match step
    case RunCall(i, after, ok) => CallKeeps(env, s, i, after, ok);
    case Post(i) => PostKeeps(env, s, i);
    case PostFails(i) => FailedPostKeeps(env, s, i);
    case Drain(key) => DrainKeeps(env, s, key);
    case Submit(matches) => SubmitKeeps(env, s, matches);
    case Flush =>
      FlushKeeps(env, s, s.writing);
      SameLogAndFlights(env, s, Next(env, s, step));
      SameLogAndFlights(env, s.(bucket := Stored(env.hash, s.bucket, s.writing)), Next(env, s, step));
    case _ => SameLogAndFlights(env, s, Next(env, s, step));
  }

  lemma {:induction false} RunKeeps(env: Env, s: State, steps: seq<Step>)
    requires Inv(env, s) && Runs(env, s, steps)
    ensures Inv(env, Exec(env, s, steps))
    decreases |steps|
  {
    hide Inv, Next, Enabled;
    if steps != [] {
      StepKeeps(env, s, steps[0]);
      RunKeeps(env, Next(env, s, steps[0]), steps[1..]);
    }
  }

  // ---- cache soundness ----

  // Entry k of the log is the stat of this file by a batch that had called every formatter of its sequence on it,
  // once each, in order and with success, and the cached signature is made of these formatters and that stat.
  ghost predicate EarnedEntry(env: Env, s: State, k: nat, path: string, sig: string) {
    && Shows(env, s.log, k, s.flights, path, sig)
    && var i, j := s.log[k].flight, s.log[k].file;
       var f := s.flights[i];
       && Given(Performed(s.log[..k], i), j) == Split(f.key) && Succeeded(s.log[..k], i) && !f.failed
       && Signature(env.hash, f.fs, Split(f.key)) == Some(f.files[j].formatters)
  }

  lemma StartInv(env: Env, s: State)
    requires Initial(s)
    ensures Inv(env, s)
  {}

  lemma EarnedOf(env: Env, s: State, path: string, sig: string)
    requires Inv(env, s) && Evidence(env, s.log, s.flights, path, sig)
    ensures exists k: nat :: EarnedEntry(env, s, k, path, sig)
  {
    hide Plan, Split, Signature, FormatSignature, Performed, Succeeded, BucketEarned, ReleasesEarned, BatchesSigned, Given;
    var k: nat :| Shows(env, s.log, k, s.flights, path, sig);
    var i, j := s.log[k].flight, s.log[k].file;
    assert Earned(s.log, k, s.flights);
    assert FlightKept(env, s.log, i, s.flights[i]);
    PlanCovers(s.flights[i].fs, Split(s.flights[i].key), |s.flights[i].files|, j);
    assert EarnedEntry(env, s, k, path, sig);
  }

  /** Over any sequence of runs, steps and interruptions, every cache entry was earned. */
  lemma EntriesAreEarned(env: Env, s: State, steps: seq<Step>, path: string)
    requires Initial(s) && Runs(env, s, steps) && path in Exec(env, s, steps).bucket
    ensures exists k: nat :: EarnedEntry(env, Exec(env, s, steps), k, path, Exec(env, s, steps).bucket[path])
  {
    hide EarnedEntry, Evidence, FlightsKept, AllEarned, ReleasesEarned, BatchesSigned, Exec, Initial;
    StartInv(env, s);
    RunKeeps(env, s, steps);
    EarnedOf(env, Exec(env, s, steps), path, Exec(env, s, steps).bucket[path]);
  }

  // The file as a walk reads it in this state.
  function FileOf(s: State, path: string): File
    requires path in s.tree
  {
    File(path, Some(s.tree[path]), Lookup(s.bucket, path))
  }

  // The texts hashed for the observations of the log, one for each.
  ghost function ObservedTexts(s: State): set<string> {
    set k | 0 <= k < |s.log| && Observation(s, k) :: ObservedText(s, k)
  }

  predicate Observation(s: State, k: nat) {
    && k < |s.log| && s.log[k].Observed? && s.log[k].flight < |s.flights|
    && s.log[k].file < |s.flights[s.log[k].flight].files|
  }

  function ObservedText(s: State, k: nat): string
    requires Observation(s, k)
  {
    Framed(s.flights[s.log[k].flight].files[s.log[k].file].formatters, s.log[k].stamp)
  }

  // The texts that decide whether the path is skipped: what it is signed as now, and what was observed of any file.
  ghost function SkipTexts(env: Env, s: State, path: string, matches: seq<string>): set<string>
    requires path in s.tree
  {
    match Signature(env.hash, s.fs, Sequence(s.fs, matches))
    case None => {}
    case Some(sig) => ObservedTexts(s) + {Framed(sig, s.tree[path])}
  }

  /** A file is skipped only if the same formatters were all applied to it with success and it still has the
      modification second and size it had when that application ended; digests have one length, and the texts hashed
      for it and for the observed files do not collide. */
  lemma SkippedWasFormatted(env: Env, s: State, steps: seq<Step>, path: string, matches: seq<string>)
    requires Initial(s) && Runs(env, s, steps) && FixedLength(env.hash)
    requires var t := Exec(env, s, steps);
             && path in t.tree && NoCollision(env.hash, SkipTexts(env, t, path, matches))
             && Decision(env.hash, t.fs, FileOf(t, path), matches).Skipped?
    ensures var t := Exec(env, s, steps);
            exists k: nat ::
              && EarnedEntry(env, t, k, path, t.bucket[path])
              && SameStamp(t.tree[path], t.log[k].stamp)
              && Signature(env.hash, t.fs, Sequence(t.fs, matches)) ==
                 Some(t.flights[t.log[k].flight].files[t.log[k].file].formatters)
  {
    hide FormatSignature, Performed, Succeeded, Given, Split, Runs, Exec, Initial, Hashed, SameStamp, Framed;
    EntriesAreEarned(env, s, steps, path);
    var t := Exec(env, s, steps);
    var k: nat :| EarnedEntry(env, t, k, path, t.bucket[path]);
    var w := t.flights[t.log[k].flight].files[t.log[k].file];
    var now := Signature(env.hash, t.fs, Sequence(t.fs, matches)).value;
    assert |now| == |w.formatters|;
    assert ObservedText(t, k) in ObservedTexts(t);
    SignatureDetermines(env.hash, now, t.tree[path], w.formatters, t.log[k].stamp);
  }

  /** A batch with a failed call has no file observed, so no cache entry can come from it. */
  lemma FailedBatchStoresNothing(env: Env, s: State, steps: seq<Step>, i: nat, k: nat)
    requires Initial(s) && Runs(env, s, steps)
    requires i < |Exec(env, s, steps).flights| && k < |Exec(env, s, steps).log|
    requires exists n :: 0 <= n < |Exec(env, s, steps).log| && FailedCall(Exec(env, s, steps).log[n], i)
    ensures !(Exec(env, s, steps).log[k].Observed? && Exec(env, s, steps).log[k].flight == i)
  {
    hide BucketEarned, ReleasesEarned, BatchesSigned, Exec, Initial, Runs, Plan, Split, Signature, Performed;
    StartInv(env, s);
    RunKeeps(env, s, steps);
    var t := Exec(env, s, steps);
    assert FlightKept(env, t.log, i, t.flights[i]);
    assert Earned(t.log, k, t.flights);
  }

  predicate FailedCall(e: Event, i: nat) {
    e.Called? && e.flight == i && !e.ok
  }

  lemma {:induction false} RunsInTwo(env: Env, s: State, a: seq<Step>, b: seq<Step>)
    requires Runs(env, s, a + b)
    ensures Runs(env, s, a) && Runs(env, Exec(env, s, a), b) && Exec(env, s, a + b) == Exec(env, Exec(env, s, a), b)
    decreases |a|
  {
    hide Next, Enabled;
    if a == [] {
      assert a + b == b;
    } else {
      assert (a + b)[1..] == a[1..] + b && (a + b)[0] == a[0];
      RunsInTwo(env, Next(env, s, a[0]), a[1..], b);
    }
  }

  predicate LogKept(s: State, t: State) {
    |s.log| <= |t.log| && t.log[..|s.log|] == s.log && |s.flights| <= |t.flights|
  }

  lemma StepKeepsLog(env: Env, s: State, step: Step)
    requires Enabled(s, step)
    ensures LogKept(s, Next(env, s, step))
  {
    hide Submitting, Calling, Posting, ValidNames, Stored, Calls;
    match step
    case Submit(matches) => SubmitKeepsLog(env, s, matches);
    case RunCall(i, after, ok) => CallKeepsLog(s, i, after, ok);
    case Post(i) => PostLogs(env, s, i);
    case _ =>
  }

  lemma SubmitKeepsLog(env: Env, s: State, matches: seq<string>)
    requires s.inbox != []
    ensures LogKept(s, Submitting(env, s, matches))
  {
    hide Decision, Signature, Sequence, Key, Appended, Completed;
  }

  lemma CallKeepsLog(s: State, i: nat, after: map<string, Stamp>, ok: bool)
    requires Flying(s, i) && s.flights[i].done < |Calls(s.flights[i])|
    ensures LogKept(s, Calling(s, i, after, ok))
  {
    hide Calls;
  }

  lemma {:induction false} RunKeepsLog(env: Env, s: State, steps: seq<Step>)
    requires Runs(env, s, steps)
    ensures LogKept(s, Exec(env, s, steps))
    decreases |steps|
  {
    hide Next, Enabled;
    if steps != [] {
      StepKeepsLog(env, s, steps[0]);
      RunKeepsLog(env, Next(env, s, steps[0]), steps[1..]);
    }
  }

  lemma PostLogs(env: Env, s: State, i: nat)
    requires Enabled(s, Post(i))
    ensures var t := Next(env, s, Post(i));
            && t.bucket == s.bucket && t.writing == s.writing && i < |t.flights| && LogKept(s, t)
            && if t.log == s.log then t.queue == s.queue
               else |t.log| == |s.log| + 1 && t.log[|s.log|].Observed? && t.log[|s.log|].flight == i
  {
    hide Calls, StampToStore;
  }

  /** In a run in which some call of a batch fails, before or after, no post of the batch releases its file or touches the
      cache. */
  lemma FailedBatchReleasesNothing(env: Env, s: State, before: seq<Step>, i: nat, after: seq<Step>)
    requires Initial(s) && Runs(env, s, before + ([Post(i)] + after))
    requires var t := Exec(env, s, before + ([Post(i)] + after));
             exists n :: 0 <= n < |t.log| && FailedCall(t.log[n], i)
    ensures Runs(env, s, before) && Enabled(Exec(env, s, before), Post(i))
    ensures var u := Exec(env, s, before);
            var v := Next(env, u, Post(i));
            v.queue == u.queue && v.writing == u.writing && v.bucket == u.bucket && v.log == u.log
  {
    hide Initial, FailedCall, Next, Enabled;
    RunsInTwo(env, s, before, [Post(i)] + after);
    var u := Exec(env, s, before);
    assert ([Post(i)] + after)[0] == Post(i) && ([Post(i)] + after)[1..] == after;
    PostLogs(env, u, i);
    var v := Next(env, u, Post(i));
    RunKeepsLog(env, v, after);
    if v.log != u.log {
      var t := Exec(env, v, after);
      assert t.log[|u.log|] == t.log[..|v.log|][|u.log|];
      FailedBatchStoresNothing(env, s, before + ([Post(i)] + after), i, |u.log|);
    }
  }

  // ---- which runs fail ----

  // A call that fails, a file that cannot be signed or stat'ed again, a transaction that is refused.
  predicate StepFails(env: Env, s: State, step: Step)
    requires Enabled(s, step)
  {
    match step
    case RunCall(_, _, ok) => !ok
    case Submit(matches) => matches != [] && Signature(env.hash, s.fs, Sequence(s.fs, matches)).None?
    case PostFails(_) => true
    case FlushFails => true
    case _ => false
  }

  predicate SomeFailure(env: Env, s: State, steps: seq<Step>)
    requires Runs(env, s, steps)
    decreases |steps|
  {
    steps != [] && (StepFails(env, s, steps[0]) || SomeFailure(env, Next(env, s, steps[0]), steps[1..]))
  }

  // Every file of the inbox has a stamp.
  predicate Stamped(s: State) {
    forall n :: 0 <= n < |s.inbox| ==> s.inbox[n].info.Some?
  }

  lemma StepFailedIff(env: Env, s: State, step: Step)
    requires Enabled(s, step) && !step.StartRun? && Stamped(s)
    ensures Next(env, s, step).failed <==> s.failed || StepFails(env, s, step)
    ensures Stamped(Next(env, s, step))
  {
    hide Submitting, Calling, Posting, Stored, ValidNames, Calls, Signature, Sequence;
    match step
    case Submit(matches) => SubmitFailedIff(env, s, matches);
    case RunCall(i, after, ok) => CallFailedIff(s, i, after, ok);
    case Post(i) => PostFailedIff(s, i);
    case _ =>
  }

  lemma SubmitFailedIff(env: Env, s: State, matches: seq<string>)
    requires s.inbox != [] && Stamped(s)
    ensures Submitting(env, s, matches).failed <==>
            s.failed || (matches != [] && Signature(env.hash, s.fs, Sequence(s.fs, matches)).None?)
    ensures Stamped(Submitting(env, s, matches))
  {
    hide Signature, Sequence, Key, Appended, Completed, Decision, Launch;
    DecisionFailedIff(env, s.fs, s.inbox[0], matches);
  }

  lemma DecisionFailedIff(env: Env, fs: Formatters, file: File, matches: seq<string>)
    requires file.info.Some?
    ensures Decision(env.hash, fs, file, matches).Failed? <==> Signature(env.hash, fs, Sequence(fs, matches)).None?
  {
    hide Signature, Sequence, FormatSignature;
  }

  lemma CallFailedIff(s: State, i: nat, after: map<string, Stamp>, ok: bool)
    requires Flying(s, i) && s.flights[i].done < |Calls(s.flights[i])|
    ensures var t := Calling(s, i, after, ok); t.failed == (s.failed || !ok) && t.inbox == s.inbox
  {
    hide Calls;
  }

  lemma PostFailedIff(s: State, i: nat)
    requires Enabled(s, Post(i))
    ensures Posting(s, i).failed == s.failed && Posting(s, i).inbox == s.inbox
  {
    hide Calls, StampToStore, Enabled;
    PostEnabled(s, i);
  }

  lemma PostEnabled(s: State, i: nat)
    requires Enabled(s, Post(i))
    ensures Formatted(s, i) && s.flights[i].files[s.flights[i].posted].path in s.tree
  {
    hide Calls;
  }

  /** A run fails exactly when one of its steps does, whatever succeeds afterwards; a file that no formatter wants or that is
      skipped fails nothing. */
  lemma {:induction false} RunFailedIff(env: Env, s: State, steps: seq<Step>)
    requires Runs(env, s, steps) && !s.failed && Stamped(s) && forall step :: step in steps ==> !step.StartRun?
    ensures Exec(env, s, steps).failed <==> SomeFailure(env, s, steps)
    decreases |steps|
  {
    hide Next, Enabled, StepFails, Stamped;
    if steps != [] {
      var next := Next(env, s, steps[0]);
      assert steps[0] in steps && forall step :: step in steps[1..] ==> step in steps;
      StepFailedIff(env, s, steps[0]);
      if next.failed { FailedStays(env, next, steps[1..]); } else { RunFailedIff(env, next, steps[1..]); }
    }
  }

  lemma StepKeepsFailure(env: Env, s: State, step: Step)
    requires Enabled(s, step) && !step.StartRun? && s.failed
    ensures Next(env, s, step).failed
  {
    hide Submitting, Calling, Posting, Stored, ValidNames, Calls;
    match step
    case Submit(matches) => SubmitKeepsFailure(env, s, matches);
    case RunCall(i, after, ok) => CallFailedIff(s, i, after, ok);
    case Post(i) => PostFailedIff(s, i);
    case _ =>
  }

  lemma SubmitKeepsFailure(env: Env, s: State, matches: seq<string>)
    requires s.inbox != [] && s.failed
    ensures Submitting(env, s, matches).failed
  {
    hide Signature, Sequence, Key, Appended, Completed, Decision, Launch;
  }

  lemma {:induction false} FailedStays(env: Env, s: State, steps: seq<Step>)
    requires Runs(env, s, steps) && s.failed && forall step :: step in steps ==> !step.StartRun?
    ensures Exec(env, s, steps).failed
    decreases |steps|
  {
    hide Next, Enabled;
    if steps != [] {
      assert steps[0] in steps && forall step :: step in steps[1..] ==> step in steps;
      StepKeepsFailure(env, s, steps[0]);
      FailedStays(env, Next(env, s, steps[0]), steps[1..]);
    }
  }

  // ---- a run that meets these premises, for any hash with digests of one length ----

  function OneFormatter(): Formatters {
    map["f" := Formatter(0, false, Some("x"))]
  }

  function FirstRun(path: string, stamp: Stamp): seq<Step> {
    [StartRun(OneFormatter()), Read(path), Submit(["f"]), Drain("f"), RunCall(0, map[path := stamp], true), Post(0),
     Dequeue(0), Flush]
  }

  function Untouched(path: string, stamp: Stamp): State {
    State(map[], map[path := stamp], map[], [], map[], [], 0, [], [], [], false)
  }

  lemma OneFormatterFacts(hash: Hash)
    ensures Sequence(OneFormatter(), ["f"]) == ["f"] && Key(["f"]) == "f" && Split("f") == ["f"] && ValidNames(["f"])
    ensures Signature(hash, OneFormatter(), ["f"]) == Some(hash("x"))
    ensures Plan(OneFormatter(), ["f"], 1) == [Call("f", 0, 1)]
  {
    KeyRoundTrip(["f"]);
    assert ["f"][1..] == [] && "x" + "" == "x";
    assert Hashed(OneFormatter(), ["f"]) == Some("x");
    assert Plan(OneFormatter(), [], 1) == [];
  }

  // The file as it is taken, and its batch with the workers after so many calls and stats.
  function OneWork(env: Env, path: string, stamp: Stamp): Work {
    Work(path, stamp, env.hash("x"))
  }

  function OneFlight(env: Env, path: string, stamp: Stamp, done: nat, posted: nat): Flight {
    Flight("f", OneFormatter(), [OneWork(env, path, stamp)], done, false, posted)
  }

  function OneRelease(env: Env, path: string, stamp: Stamp): Release {
    Release(path, env.hash("x"), stamp)
  }

  function OneLog(env: Env, path: string, stamp: Stamp): seq<Event> {
    [Matched(path, env.hash("x")), Called(0, Call("f", 0, 1), true), Observed(0, 0, stamp)]
  }

  function OneGathered(env: Env, path: string, stamp: Stamp): State {
    Untouched(path, stamp).(fs := OneFormatter(), batches := map["f" := [OneWork(env, path, stamp)]],
                            log := OneLog(env, path, stamp)[..1])
  }

  function OneLaunched(env: Env, path: string, stamp: Stamp): State {
    OneGathered(env, path, stamp).(batches := map["f" := []], flights := [OneFlight(env, path, stamp, 0, 0)])
  }

  function OneDone(env: Env, path: string, stamp: Stamp): State {
    OneLaunched(env, path, stamp).(flights := [OneFlight(env, path, stamp, 1, 1)], log := OneLog(env, path, stamp),
                                bucket := map[path := FormatSignature(env.hash, env.hash("x"), stamp)])
  }

  lemma RunsOne(env: Env, s: State, step: Step, rest: seq<Step>)
    requires Enabled(s, step) && Runs(env, Next(env, s, step), rest)
    ensures Runs(env, s, [step] + rest) && Exec(env, s, [step] + rest) == Exec(env, Next(env, s, step), rest)
  {
    hide Next, Enabled;
    assert ([step] + rest)[1..] == rest;
  }

  lemma SubmitsOne(env: Env, path: string, stamp: Stamp)
    requires env.batchSize > 1
    ensures var s := Untouched(path, stamp).(fs := OneFormatter(), inbox := [File(path, Some(stamp), None)]);
            Enabled(s, Submit(["f"])) && Submitting(env, s, ["f"]) == OneGathered(env, path, stamp)
  {
    hide FormatSignature, Key, Sequence, Signature, ValidNames;
    OneFormatterFacts(env.hash);
    var file := File(path, Some(stamp), None);
    assert Decision(env.hash, OneFormatter(), file, ["f"]) == Accepted(OneWork(env, path, stamp));
    assert Pending(map[], "f") + [OneWork(env, path, stamp)] == [OneWork(env, path, stamp)];
    assert Appended(env.batchSize, map[], "f", OneWork(env, path, stamp)) == map["f" := [OneWork(env, path, stamp)]];
  }

  lemma GatherRun(env: Env, path: string, stamp: Stamp, rest: seq<Step>)
    requires env.batchSize > 1 && Runs(env, OneGathered(env, path, stamp), rest)
    ensures var steps := [StartRun(OneFormatter()), Read(path), Submit(["f"])] + rest;
            && Runs(env, Untouched(path, stamp), steps)
            && Exec(env, Untouched(path, stamp), steps) == Exec(env, OneGathered(env, path, stamp), rest)
  {
    hide Runs, Exec, Submitting, ValidNames, OneGathered;
    SubmitsOne(env, path, stamp);
    var s := Untouched(path, stamp).(fs := OneFormatter());
    var t := s.(inbox := [File(path, Some(stamp), None)]);
    assert Next(env, s, Read(path)) == t;
    RunsOne(env, t, Submit(["f"]), rest);
    RunsOne(env, s, Read(path), [Submit(["f"])] + rest);
    RunsOne(env, Untouched(path, stamp), StartRun(OneFormatter()), [Read(path)] + ([Submit(["f"])] + rest));
    assert [StartRun(OneFormatter())] + ([Read(path)] + ([Submit(["f"])] + rest)) ==
           [StartRun(OneFormatter()), Read(path), Submit(["f"])] + rest;
  }

  function OneCalled(env: Env, path: string, stamp: Stamp): State {
    OneLaunched(env, path, stamp).(flights := [OneFlight(env, path, stamp, 1, 0)], log := OneLog(env, path, stamp)[..2])
  }

  function OnePosted(env: Env, path: string, stamp: Stamp): State {
    OneLaunched(env, path, stamp).(flights := [OneFlight(env, path, stamp, 1, 1)], log := OneLog(env, path, stamp),
                                queue := [OneRelease(env, path, stamp)])
  }

  lemma CallsOne(env: Env, path: string, stamp: Stamp)
    ensures var s, step := OneLaunched(env, path, stamp), RunCall(0, map[path := stamp], true);
            Enabled(s, step) && Next(env, s, step) == OneCalled(env, path, stamp)
  {
    hide FormatSignature, Plan, Split;
    OneFormatterFacts(env.hash);
  }

  lemma PostsOne(env: Env, path: string, stamp: Stamp)
    ensures var s := OneCalled(env, path, stamp);
            Enabled(s, Post(0)) && Next(env, s, Post(0)) == OnePosted(env, path, stamp)
  {
    hide FormatSignature, Plan, Split;
    OneFormatterFacts(env.hash);
  }

  lemma FlightRun(env: Env, path: string, stamp: Stamp, rest: seq<Step>)
    requires Runs(env, OneDone(env, path, stamp), rest)
    ensures var steps := [RunCall(0, map[path := stamp], true), Post(0), Dequeue(0), Flush] + rest;
            && Runs(env, OneLaunched(env, path, stamp), steps)
            && Exec(env, OneLaunched(env, path, stamp), steps) == Exec(env, OneDone(env, path, stamp), rest)
  {
    hide FormatSignature, Runs, Exec, Calling, Posting, Calls;
    CallsOne(env, path, stamp);
    PostsOne(env, path, stamp);
    var posted := OnePosted(env, path, stamp);
    var taken := posted.(queue := [], writing := [OneRelease(env, path, stamp)]);
    assert Next(env, posted, Dequeue(0)) == taken;
    assert Stored(env.hash, map[], taken.writing) == OneDone(env, path, stamp).bucket;
    RunsOne(env, taken, Flush, rest);
    RunsOne(env, posted, Dequeue(0), [Flush] + rest);
    RunsOne(env, OneCalled(env, path, stamp), Post(0), [Dequeue(0)] + ([Flush] + rest));
    RunsOne(env, OneLaunched(env, path, stamp), RunCall(0, map[path := stamp], true),
            [Post(0)] + ([Dequeue(0)] + ([Flush] + rest)));
    assert [RunCall(0, map[path := stamp], true)] + ([Post(0)] + ([Dequeue(0)] + ([Flush] + rest))) ==
           [RunCall(0, map[path := stamp], true), Post(0), Dequeue(0), Flush] + rest;
  }

  lemma FirstRunDone(env: Env, path: string, stamp: Stamp)
    requires env.batchSize > 1
    ensures Initial(Untouched(path, stamp)) && Runs(env, Untouched(path, stamp), FirstRun(path, stamp))
    ensures Exec(env, Untouched(path, stamp), FirstRun(path, stamp)) == OneDone(env, path, stamp)
  {
    hide FormatSignature, Runs, Exec;
    EmptyRun(env, OneDone(env, path, stamp));
    FlightRun(env, path, stamp, []);
    var flying := [RunCall(0, map[path := stamp], true), Post(0), Dequeue(0), Flush];
    assert flying + [] == flying;
    assert Next(env, OneGathered(env, path, stamp), Drain("f")) == OneLaunched(env, path, stamp);
    RunsOne(env, OneGathered(env, path, stamp), Drain("f"), flying);
    GatherRun(env, path, stamp, [Drain("f")] + flying);
    assert [StartRun(OneFormatter()), Read(path), Submit(["f"])] + ([Drain("f")] + flying) == FirstRun(path, stamp);
  }

  lemma EmptyRun(env: Env, s: State)
    ensures Runs(env, s, []) && Exec(env, s, []) == s
  {}

  /** The premises are met: whatever the hash, as long as its digests have one length, a file that is formatted once and
      then left alone is skipped, and no text hashed for that collides. */
  lemma SkipPremisesMet(env: Env, path: string, stamp: Stamp)
    requires FixedLength(env.hash) && env.batchSize > 1
    ensures var s, steps := Untouched(path, stamp), FirstRun(path, stamp);
            && Initial(s) && Runs(env, s, steps)
            && var t := Exec(env, s, steps);
               && path in t.tree && NoCollision(env.hash, SkipTexts(env, t, path, ["f"]))
               && Decision(env.hash, t.fs, FileOf(t, path), ["f"]).Skipped?
  {
    hide FormatSignature, Framed, Runs, Exec, Sequence, Signature, Initial;
    FirstRunDone(env, path, stamp);
    OneFormatterFacts(env.hash);
    var t := OneDone(env, path, stamp);
    assert forall k :: Observation(t, k) ==> ObservedText(t, k) == Framed(env.hash("x"), stamp);
  }
}
