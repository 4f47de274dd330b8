/** After an error-free run over distinct paths that nobody else edits, the next run with the same formatter signatures
    formats nothing. Every path is followed on its own from the walk to the cache. */
module FormatQuiet {
  import opened Batching
  import opened FormatRuns
  import opened Optional
  import opened Scheduler
  import opened Signing

  // Where one path is in the current run, and its formatters' signature once it has one.
  datatype Place =
    | Unread
    | Inbox(at: nat)
    | Unmatched
    | Waiting(key: string, at: nat, formatters: string)
    | Aboard(flight: nat, file: nat, formatters: string)
    | Queued(at: nat, formatters: string)
    | Writing(at: nat, formatters: string)
    | Settled(formatters: string)

  // ---- runs without outside edits ----

  predicate Passed(f: Flight, call: Call, path: string) {
    exists j :: call.lo <= j < call.hi && j < |f.files| && f.files[j].path == path
  }

  predicate SameFile(a: map<string, Stamp>, b: map<string, Stamp>, path: string) {
    (path in a <==> path in b) && (path in a && path in b ==> a[path] == b[path])
  }

  // A formatter writes only the files it is passed, and nobody else writes.
  ghost predicate Tame(s: State, step: Step)
    requires Enabled(s, step)
  {
    match step
    case StartRun(_) => false
    case Edit(_) => false
    case RunCall(i, after, _) =>
      forall p :: !Passed(s.flights[i], Calls(s.flights[i])[s.flights[i].done], p) ==> SameFile(s.tree, after, p)
    case _ => true
  }

  ghost predicate TameRun(env: Env, s: State, steps: seq<Step>)
    requires Runs(env, s, steps)
    decreases |steps|
  {
    steps == [] || (Tame(s, steps[0]) && TameRun(env, Next(env, s, steps[0]), steps[1..]))
  }

  predicate DistinctReads(steps: seq<Step>) {
    forall a, b :: 0 <= a < b < |steps| && steps[a].Read? && steps[b].Read? ==> steps[a].path != steps[b].path
  }

  predicate Reads(steps: seq<Step>, path: string) {
    exists a :: 0 <= a < |steps| && steps[a] == Read(path)
  }

  // A run that has just started, and one that has nothing left to do.
  predicate Fresh(s: State) {
    s.inbox == [] && s.batches == map[] && s.live == |s.flights| && s.queue == [] && s.writing == [] && !s.failed
  }

  ghost predicate Finished(s: State) {
    && s.inbox == [] && s.queue == [] && s.writing == [] && !s.failed
    && (forall key :: key in s.batches ==> s.batches[key] == [])
    && (forall i: nat :: Flying(s, i) ==> s.flights[i].posted == |s.flights[i].files|)
  }

  // ---- following one path ----

  function Track(env: Env, s: State, step: Step, p: string, at: Place): Place
    requires Enabled(s, step)
  {
    match step
    case Read(path) => if path == p then Inbox(|s.inbox|) else at
    case Submit(matches) => TrackSubmit(env, s, matches, p, at)
    case Drain(key) => if at.Waiting? && at.key == key then Aboard(|s.flights|, at.at, at.formatters) else at
    case Post(i) => if at.Aboard? && at.flight == i && at.file == s.flights[i].posted then Queued(|s.queue|, at.formatters) else at
    case Dequeue(n) =>
      if at.Queued? && at.at == n then Writing(|s.writing|, at.formatters)
      else if at.Queued? && at.at > n then Queued(at.at - 1, at.formatters)
      else at
    case Flush => if at.Writing? then Settled(at.formatters) else at
    case _ => at
  }

  function TrackSubmit(env: Env, s: State, matches: seq<string>, p: string, at: Place): Place
    requires s.inbox != []
  {
    var key := Key(Sequence(s.fs, matches));
    if at.Inbox? && at.at > 0 then Inbox(at.at - 1)
    else if matches == [] then if at.Inbox? then Unmatched else at
    else match Decision(env.hash, s.fs, s.inbox[0], matches)
      case Failed => if at.Inbox? then Unmatched else at
      case Skipped => if at.Inbox? then Settled(Signature(env.hash, s.fs, Sequence(s.fs, matches)).value) else at
      case Accepted(w) =>
        if Completed(env.batchSize, s.batches, key, w).Some? then
          if at.Inbox? then Aboard(|s.flights|, |Pending(s.batches, key)|, w.formatters)
          else if at.Waiting? && at.key == key then Aboard(|s.flights|, at.at, at.formatters)
          else at
        else if at.Inbox? then Waiting(key, |Pending(s.batches, key)|, w.formatters)
        else at
  }

  // The path is where it is said to be,
  ghost predicate There(env: Env, s: State, p: string, at: Place) {
    match at
    case Unread => true
    case Unmatched => true
    case Inbox(n) => n < |s.inbox| && p in s.tree && s.inbox[n] == FileOf(s, p)
    case Waiting(key, n, f) => n < |Pending(s.batches, key)| && Pending(s.batches, key)[n].path == p && Pending(s.batches, key)[n].formatters == f
    case Aboard(i, j, f) =>
      && Flying(s, i) && s.flights[i].posted <= j < |s.flights[i].files|
      && s.flights[i].files[j].path == p && s.flights[i].files[j].formatters == f
    case Queued(n, _) => n < |s.queue| && s.queue[n].path == p
    case Writing(n, _) => n < |s.writing| && s.writing[n].path == p
    case Settled(f) => p in s.tree && p in s.bucket && s.bucket[p] == FormatSignature(env.hash, f, s.tree[p])
  }

  // and nowhere else.
  ghost predicate InboxOnly(s: State, p: string, at: Place) {
    forall n :: 0 <= n < |s.inbox| && s.inbox[n].path == p ==> at == Inbox(n)
  }

  ghost predicate WaitingOnly(s: State, p: string, at: Place) {
    forall key, n :: 0 <= n < |Pending(s.batches, key)| && Pending(s.batches, key)[n].path == p ==>
                       at.Waiting? && at.key == key && at.at == n
  }

  ghost predicate AboardOnly(s: State, p: string, at: Place) {
    forall i: nat, j :: Flying(s, i) && s.flights[i].posted <= j < |s.flights[i].files| && s.flights[i].files[j].path == p ==>
                     at.Aboard? && at.flight == i && at.file == j
  }

  // What is on its way to the cache signs the file as it is now.
  predicate Signs(env: Env, s: State, r: Release, p: string, f: string) {
    r.formatters == f && p in s.tree && FormatSignature(env.hash, f, r.stamp) == FormatSignature(env.hash, f, s.tree[p])
  }

  ghost predicate QueuedOnly(env: Env, s: State, p: string, at: Place) {
    forall n :: 0 <= n < |s.queue| && s.queue[n].path == p ==>
                  at.Queued? && at.at == n && Signs(env, s, s.queue[n], p, at.formatters)
  }

  ghost predicate WritingOnly(env: Env, s: State, p: string, at: Place) {
    forall n :: 0 <= n < |s.writing| && s.writing[n].path == p ==>
                  at.Writing? && at.at == n && Signs(env, s, s.writing[n], p, at.formatters)
  }

  ghost predicate Orderly(s: State) {
    s.live <= |s.flights| && forall i: nat :: Flying(s, i) ==>
                  && !s.flights[i].failed && s.flights[i].posted <= |s.flights[i].files|
                  && (s.flights[i].done < |Calls(s.flights[i])| ==> s.flights[i].posted == 0)
  }

  predicate Unsigned(at: Place) {
    at.Unread? || at.Inbox? || at.Unmatched?
  }

  predicate Signed(at: Place, f: string) {
    !Unsigned(at) && at.formatters == f
  }

  ghost predicate Noted(s: State, start: nat, p: string, at: Place) {
    forall k :: start <= k < |s.log| && s.log[k].Matched? && s.log[k].path == p ==> Signed(at, s.log[k].formatters)
  }

  ghost predicate Followed(env: Env, s: State, start: nat, p: string, at: Place) {
    && There(env, s, p, at) && InboxOnly(s, p, at) && WaitingOnly(s, p, at) && AboardOnly(s, p, at)
    && QueuedOnly(env, s, p, at) && WritingOnly(env, s, p, at)
    && Orderly(s) && Noted(s, start, p, at)
  }

  lemma FreshFollowed(env: Env, s: State, p: string)
    requires Fresh(s)
    ensures Followed(env, s, |s.log|, p, Unread)
  {
    hide FormatSignature, Calls;
  }

  // ---- what a step leaves alone, for a path that keeps its place or moves between other places ----

  lemma InboxSame(s: State, t: State, p: string, at: Place, to: Place)
    requires InboxOnly(s, p, at) && t.inbox == s.inbox && (at == to || !at.Inbox?)
    ensures InboxOnly(t, p, to)
  {}

  lemma WaitingSame(s: State, t: State, p: string, at: Place, to: Place)
    requires WaitingOnly(s, p, at) && t.batches == s.batches && (at == to || !at.Waiting?)
    ensures WaitingOnly(t, p, to)
  {}

  lemma AboardSame(s: State, t: State, p: string, at: Place, to: Place)
    requires AboardOnly(s, p, at) && t.flights == s.flights && t.live == s.live && (at == to || !at.Aboard?)
    ensures AboardOnly(t, p, to)
  {}

  lemma QueuedSame(env: Env, s: State, t: State, p: string, at: Place, to: Place)
    requires QueuedOnly(env, s, p, at) && t.queue == s.queue && (at == to || !at.Queued?)
    requires at.Queued? ==> SameFile(s.tree, t.tree, p)
    ensures QueuedOnly(env, t, p, to)
  {
    hide FormatSignature;
  }

  lemma WritingSame(env: Env, s: State, t: State, p: string, at: Place, to: Place)
    requires WritingOnly(env, s, p, at) && t.writing == s.writing && (at == to || !at.Writing?)
    requires at.Writing? ==> SameFile(s.tree, t.tree, p)
    ensures WritingOnly(env, t, p, to)
  {
    hide FormatSignature;
  }

  lemma OrderlySame(s: State, t: State)
    requires Orderly(s) && t.flights == s.flights && t.live == s.live
    ensures Orderly(t)
  {
    hide Calls;
  }

  lemma NotedSame(s: State, t: State, start: nat, p: string, at: Place, to: Place)
    requires Noted(s, start, p, at) && t.log == s.log
    requires Unsigned(at) || (!Unsigned(to) && to.formatters == at.formatters)
    ensures Noted(t, start, p, to)
  {}

  lemma NotedMore(s: State, t: State, start: nat, p: string, at: Place, e: Event)
    requires Noted(s, start, p, at) && t.log == s.log + [e] && (e.Matched? ==> e.path != p)
    ensures Noted(t, start, p, at)
  {}

  // ---- step by step ----

  lemma ReadFollows(env: Env, s: State, start: nat, path: string, p: string, at: Place)
    requires Followed(env, s, start, p, at) && path in s.tree && (path == p ==> at == Unread)
    ensures Followed(env, Next(env, s, Read(path)), start, p, Track(env, s, Read(path), p, at))
  {
    hide FormatSignature, Orderly, WaitingOnly, AboardOnly, QueuedOnly, WritingOnly, Noted;
    var t, to := Next(env, s, Read(path)), Track(env, s, Read(path), p, at);
    assert forall n :: 0 <= n < |s.inbox| ==> t.inbox[n] == s.inbox[n];
    WaitingSame(s, t, p, at, to);
    AboardSame(s, t, p, at, to);
    QueuedSame(env, s, t, p, at, to);
    WritingSame(env, s, t, p, at, to);
    OrderlySame(s, t);
    NotedSame(s, t, start, p, at, to);
  }

  // A call changes the path only when the path is aboard its flight.
  lemma CallTree(env: Env, s: State, i: nat, after: map<string, Stamp>, ok: bool, p: string, at: Place)
    requires AboardOnly(s, p, at) && Orderly(s) && Enabled(s, RunCall(i, after, ok)) && Tame(s, RunCall(i, after, ok))
    ensures at.Aboard? || SameFile(s.tree, after, p)
  {
    hide Calls;
    var f := s.flights[i];
    var call := Calls(f)[f.done];
    if Passed(f, call, p) {
      var j :| call.lo <= j < call.hi && j < |f.files| && f.files[j].path == p;
      assert Flying(s, i) && f.posted <= j;
    }
  }

  lemma CallFlights(s: State, i: nat, after: map<string, Stamp>, ok: bool, p: string, at: Place)
    requires AboardOnly(s, p, at) && Orderly(s) && Enabled(s, RunCall(i, after, ok)) && ok
    ensures var t := Calling(s, i, after, ok); AboardOnly(t, p, at) && Orderly(t)
  {
    hide Plan, Split;
    var t := Calling(s, i, after, ok);
    assert forall m: nat :: Flying(t, m) ==> Flying(s, m);
    assert forall m: nat :: m < |s.flights| ==> t.flights[m].files == s.flights[m].files && t.flights[m].posted == s.flights[m].posted;
  }

  lemma CallFollows(env: Env, s: State, start: nat, i: nat, after: map<string, Stamp>, ok: bool, p: string, at: Place)
    requires Followed(env, s, start, p, at) && Enabled(s, RunCall(i, after, ok)) && Tame(s, RunCall(i, after, ok))
    requires !Calling(s, i, after, ok).failed
    ensures Followed(env, Calling(s, i, after, ok), start, p, at)
  {
    hide FormatSignature, Calls, WaitingOnly, InboxOnly, AboardOnly, Orderly, QueuedOnly, WritingOnly, Noted, Tame;
    var t := Calling(s, i, after, ok);
    CallTree(env, s, i, after, ok, p, at);
    CallFlights(s, i, after, ok, p, at);
    InboxSame(s, t, p, at, at);
    WaitingSame(s, t, p, at, at);
    QueuedSame(env, s, t, p, at, at);
    WritingSame(env, s, t, p, at, at);
    NotedMore(s, t, start, p, at, t.log[|s.log|]);
  }

  // One file observed and released.
  lemma PostFollows(env: Env, s: State, start: nat, i: nat, p: string, at: Place)
    requires Followed(env, s, start, p, at) && Enabled(s, Post(i))
    ensures Followed(env, Posting(s, i), start, p, Track(env, s, Post(i), p, at))
  {
    hide FormatSignature, Calls, WaitingOnly, InboxOnly, AboardOnly, Orderly, QueuedOnly, WritingOnly, Noted;
    var t, to := Posting(s, i), Track(env, s, Post(i), p, at);
    PostFlights(env, s, i, p, at);
    PostQueue(env, s, i, p, at);
    InboxSame(s, t, p, at, to);
    WaitingSame(s, t, p, at, to);
    WritingSame(env, s, t, p, at, to);
    PostNoted(env, s, start, i, p, at);
    assert forall n :: 0 <= n < |s.queue| ==> t.queue[n] == s.queue[n];
  }

  lemma PostNoted(env: Env, s: State, start: nat, i: nat, p: string, at: Place)
    requires Noted(s, start, p, at) && Enabled(s, Post(i)) && !s.flights[i].failed
    ensures Noted(Posting(s, i), start, p, Track(env, s, Post(i), p, at))
  {
    hide Calls;
    var t, to := Posting(s, i), Track(env, s, Post(i), p, at);
    var e := t.log[|s.log|];
    assert t.log == s.log + [e];
    NotedMore(s, t, start, p, at, e);
    NotedSame(t, t, start, p, at, to);
  }

  // The file that is posted is the followed one exactly when the followed one is aboard at this position.
  lemma PostedPath(env: Env, s: State, i: nat, p: string, at: Place)
    requires There(env, s, p, at) && AboardOnly(s, p, at) && Orderly(s) && Enabled(s, Post(i))
    ensures s.flights[i].files[s.flights[i].posted].path == p <==> at.Aboard? && at.flight == i && at.file == s.flights[i].posted
    ensures !s.flights[i].failed
    ensures at.Aboard? && at.flight == i && at.file == s.flights[i].posted ==>
              s.flights[i].files[s.flights[i].posted].formatters == at.formatters
  {
    hide Calls, FormatSignature;
  }

  lemma PostFlights(env: Env, s: State, i: nat, p: string, at: Place)
    requires There(env, s, p, at) && AboardOnly(s, p, at) && Orderly(s) && Enabled(s, Post(i))
    ensures var t, to := Posting(s, i), Track(env, s, Post(i), p, at); AboardOnly(t, p, to) && Orderly(t)
    ensures !s.flights[i].failed
  {
    hide Plan, Split, FormatSignature;
    PostedPath(env, s, i, p, at);
    var t := Posting(s, i);
    assert forall m: nat :: Flying(t, m) ==> Flying(s, m);
    assert forall m: nat :: m < |s.flights| && m != i ==> t.flights[m] == s.flights[m];
    assert t.flights[i].files == s.flights[i].files;
  }

  lemma PostQueue(env: Env, s: State, i: nat, p: string, at: Place)
    requires There(env, s, p, at) && AboardOnly(s, p, at) && Orderly(s) && Enabled(s, Post(i)) && QueuedOnly(env, s, p, at)
    ensures QueuedOnly(env, Posting(s, i), p, Track(env, s, Post(i), p, at))
  {
    hide Calls, FormatSignature;
    PostedPath(env, s, i, p, at);
    var t, w := Posting(s, i), s.flights[i].files[s.flights[i].posted];
    var now := s.tree[w.path];
    StoredIsFresh(env.hash, w.formatters, w.info, now);
    assert t.queue == s.queue + [Release(w.path, w.formatters, StampToStore(w.info, now))];
  }

  // ---- the cache writer ----

  lemma DequeueFollows(env: Env, s: State, start: nat, n: nat, p: string, at: Place)
    requires Followed(env, s, start, p, at) && n < |s.queue|
    ensures Followed(env, Next(env, s, Dequeue(n)), start, p, Track(env, s, Dequeue(n), p, at))
  {
    hide FormatSignature, Calls, WaitingOnly, InboxOnly, AboardOnly, Orderly, QueuedOnly, WritingOnly, Noted;
    var t, to := Next(env, s, Dequeue(n)), Track(env, s, Dequeue(n), p, at);
    InboxSame(s, t, p, at, to);
    WaitingSame(s, t, p, at, to);
    AboardSame(s, t, p, at, to);
    OrderlySame(s, t);
    NotedSame(s, t, start, p, at, to);
    DequeueMoves(env, s, n, p, at);
  }

  lemma DequeueShape(env: Env, s: State, n: nat)
    requires n < |s.queue|
    ensures var t := Next(env, s, Dequeue(n));
            && |t.queue| == |s.queue| - 1 && |t.writing| == |s.writing| + 1 && t.writing[|s.writing|] == s.queue[n]
            && (forall m :: 0 <= m < n ==> t.queue[m] == s.queue[m])
            && (forall m :: n <= m < |t.queue| ==> t.queue[m] == s.queue[m + 1])
            && (forall m :: 0 <= m < |s.writing| ==> t.writing[m] == s.writing[m])
            && t.tree == s.tree && t.inbox == s.inbox && t.batches == s.batches && t.flights == s.flights && t.live == s.live
            && t.bucket == s.bucket
  {}

  lemma DequeueMoves(env: Env, s: State, n: nat, p: string, at: Place)
    requires There(env, s, p, at) && QueuedOnly(env, s, p, at) && WritingOnly(env, s, p, at) && n < |s.queue|
    ensures var t, to := Next(env, s, Dequeue(n)), Track(env, s, Dequeue(n), p, at);
            There(env, t, p, to) && QueuedOnly(env, t, p, to) && WritingOnly(env, t, p, to)
  {
    hide FormatSignature, Next, Lookup;
    DequeueShape(env, s, n);
    DequeueQueue(env, s, n, p, at);
    DequeueWriting(env, s, n, p, at);
  }

  lemma DequeueQueue(env: Env, s: State, n: nat, p: string, at: Place)
    requires QueuedOnly(env, s, p, at) && n < |s.queue|
    ensures QueuedOnly(env, Next(env, s, Dequeue(n)), p, Track(env, s, Dequeue(n), p, at))
  {
    hide FormatSignature, Next;
    DequeueShape(env, s, n);
  }

  lemma DequeueWriting(env: Env, s: State, n: nat, p: string, at: Place)
    requires QueuedOnly(env, s, p, at) && WritingOnly(env, s, p, at) && n < |s.queue|
    ensures WritingOnly(env, Next(env, s, Dequeue(n)), p, Track(env, s, Dequeue(n), p, at))
  {
    hide FormatSignature, Next;
    DequeueShape(env, s, n);
  }

  lemma {:induction false} StoredElsewhere(hash: Hash, bucket: map<string, string>, writing: seq<Release>, p: string)
    requires forall n :: 0 <= n < |writing| ==> writing[n].path != p
    ensures Lookup(Stored(hash, bucket, writing), p) == Lookup(bucket, p)
    decreases |writing|
  {
    hide FormatSignature;
    if writing != [] {
      var r := writing[0];
      StoredElsewhere(hash, bucket[r.path := FormatSignature(hash, r.formatters, r.stamp)], writing[1..], p);
    }
  }

  lemma {:induction false} StoredHere(hash: Hash, bucket: map<string, string>, writing: seq<Release>, n: nat)
    requires n < |writing| && forall m :: 0 <= m < |writing| && m != n ==> writing[m].path != writing[n].path
    ensures Lookup(Stored(hash, bucket, writing), writing[n].path) ==
            Some(FormatSignature(hash, writing[n].formatters, writing[n].stamp))
    decreases |writing|
  {
    hide FormatSignature;
    var r := writing[0];
    var next := bucket[r.path := FormatSignature(hash, r.formatters, r.stamp)];
    if n == 0 { StoredElsewhere(hash, next, writing[1..], r.path); } else { StoredHere(hash, next, writing[1..], n - 1); }
  }

  lemma FlushFollows(env: Env, s: State, start: nat, p: string, at: Place)
    requires Followed(env, s, start, p, at)
    ensures Followed(env, Next(env, s, Flush), start, p, Track(env, s, Flush, p, at))
  {
    hide FormatSignature, Calls, WaitingOnly, InboxOnly, AboardOnly, Orderly, QueuedOnly, Noted, Stored;
    var t, to := Next(env, s, Flush), Track(env, s, Flush, p, at);
    InboxSame(s, t, p, at, to);
    WaitingSame(s, t, p, at, to);
    AboardSame(s, t, p, at, to);
    QueuedSame(env, s, t, p, at, to);
    OrderlySame(s, t);
    NotedSame(s, t, start, p, at, to);
    if at.Writing? {
      StoredHere(env.hash, s.bucket, s.writing, at.at);
      assert Signs(env, s, s.writing[at.at], p, at.formatters);
    } else {
      StoredElsewhere(env.hash, s.bucket, s.writing, p);
    }
  }

  // ---- batches ----

  lemma DrainFollows(env: Env, s: State, start: nat, key: string, p: string, at: Place)
    requires Followed(env, s, start, p, at) && Enabled(s, Drain(key))
    ensures Followed(env, Next(env, s, Drain(key)), start, p, Track(env, s, Drain(key), p, at))
  {
    hide FormatSignature, Calls, WaitingOnly, InboxOnly, AboardOnly, Orderly, QueuedOnly, WritingOnly, Noted;
    var t, to := Next(env, s, Drain(key)), Track(env, s, Drain(key), p, at);
    InboxSame(s, t, p, at, to);
    QueuedSame(env, s, t, p, at, to);
    WritingSame(env, s, t, p, at, to);
    NotedSame(s, t, start, p, at, to);
    DrainMoves(env, s, key, p, at);
  }

  lemma DrainMoves(env: Env, s: State, key: string, p: string, at: Place)
    requires There(env, s, p, at) && WaitingOnly(s, p, at) && AboardOnly(s, p, at) && Orderly(s) && Enabled(s, Drain(key))
    ensures var t, to := Next(env, s, Drain(key)), Track(env, s, Drain(key), p, at);
            There(env, t, p, to) && WaitingOnly(t, p, to) && AboardOnly(t, p, to) && Orderly(t)
  {
    hide FormatSignature, Calls, WaitingOnly, AboardOnly;
    DrainWaiting(env, s, key, p, at);
    DrainAboard(env, s, key, p, at);
    var t := Next(env, s, Drain(key));
    assert Pending(t.batches, key) == [] && forall k :: k != key ==> Pending(t.batches, k) == Pending(s.batches, k);
  }

  lemma DrainWaiting(env: Env, s: State, key: string, p: string, at: Place)
    requires WaitingOnly(s, p, at) && Enabled(s, Drain(key))
    ensures WaitingOnly(Next(env, s, Drain(key)), p, Track(env, s, Drain(key), p, at))
  {
    hide FormatSignature, Calls;
    var t := Next(env, s, Drain(key));
    assert Pending(t.batches, key) == [] && forall k :: k != key ==> Pending(t.batches, k) == Pending(s.batches, k);
  }

  lemma DrainAboard(env: Env, s: State, key: string, p: string, at: Place)
    requires WaitingOnly(s, p, at) && AboardOnly(s, p, at) && Enabled(s, Drain(key)) && s.live <= |s.flights|
    ensures AboardOnly(Next(env, s, Drain(key)), p, Track(env, s, Drain(key), p, at))
  {
    hide FormatSignature, Calls;
    var t := Next(env, s, Drain(key));
    assert forall m: nat :: m < |s.flights| ==> t.flights[m] == s.flights[m] && (Flying(t, m) ==> Flying(s, m));
    assert t.flights[|s.flights|] == Launch(s.fs, Batch(key, Pending(s.batches, key)));
  }

  // ---- a file submitted ----

  function Popped(s: State): State
    requires s.inbox != []
  {
    s.(inbox := s.inbox[1..])
  }

  // The head of the inbox has left it and is nowhere else yet.
  function PoppedPlace(at: Place): Place {
    if at.Inbox? then if at.at > 0 then Inbox(at.at - 1) else Unmatched else at
  }

  lemma PopFollows(env: Env, s: State, start: nat, p: string, at: Place)
    requires Followed(env, s, start, p, at) && s.inbox != []
    ensures Followed(env, Popped(s), start, p, PoppedPlace(at))
    ensures s.inbox[0].path == p <==> at == Inbox(0)
    ensures at == Inbox(0) ==> p in s.tree && s.inbox[0] == FileOf(s, p)
  {
    hide FormatSignature, Calls, WaitingOnly, AboardOnly, Orderly, QueuedOnly, WritingOnly, Noted, Lookup;
    var t, to := Popped(s), PoppedPlace(at);
    assert forall n :: 0 <= n < |t.inbox| ==> t.inbox[n] == s.inbox[n + 1];
    WaitingSame(s, t, p, at, to);
    AboardSame(s, t, p, at, to);
    QueuedSame(env, s, t, p, at, to);
    WritingSame(env, s, t, p, at, to);
    OrderlySame(s, t);
    NotedSame(s, t, start, p, at, to);
  }

  function Gathered(s: State, key: string, w: Work): State {
    s.(batches := s.batches[key := Pending(s.batches, key) + [w]], log := s.log + [Matched(w.path, w.formatters)])
  }

  lemma GatherFollows(env: Env, s: State, start: nat, key: string, w: Work, p: string, at: Place)
    requires Followed(env, s, start, p, at) && (w.path == p ==> at == Unmatched)
    ensures var to := if w.path == p then Waiting(key, |Pending(s.batches, key)|, w.formatters) else at;
            Followed(env, Gathered(s, key, w), start, p, to)
  {
    hide FormatSignature, Calls, InboxOnly, AboardOnly, Orderly, QueuedOnly, WritingOnly, Noted, Lookup, WaitingOnly;
    var t := Gathered(s, key, w);
    var to := if w.path == p then Waiting(key, |Pending(s.batches, key)|, w.formatters) else at;
    InboxSame(s, t, p, at, to);
    AboardSame(s, t, p, at, to);
    QueuedSame(env, s, t, p, at, to);
    WritingSame(env, s, t, p, at, to);
    OrderlySame(s, t);
    GatherNoted(s, start, key, w, p, at);
    GatherWaiting(env, s, key, w, p, at);
  }

  lemma GatherNoted(s: State, start: nat, key: string, w: Work, p: string, at: Place)
    requires Noted(s, start, p, at) && (w.path == p ==> at == Unmatched)
    ensures Noted(Gathered(s, key, w), start, p, if w.path == p then Waiting(key, |Pending(s.batches, key)|, w.formatters) else at)
  {}

  lemma GatheredPending(s: State, key: string, w: Work)
    ensures var t := Gathered(s, key, w);
            Pending(t.batches, key) == Pending(s.batches, key) + [w]
            && forall k :: k != key ==> Pending(t.batches, k) == Pending(s.batches, k)
  {}

  lemma GatherWaiting(env: Env, s: State, key: string, w: Work, p: string, at: Place)
    requires There(env, s, p, at) && WaitingOnly(s, p, at) && (w.path == p ==> at == Unmatched)
    ensures var t := Gathered(s, key, w);
            var to := if w.path == p then Waiting(key, |Pending(s.batches, key)|, w.formatters) else at;
            There(env, t, p, to) && WaitingOnly(t, p, to)
  {
    hide FormatSignature, Lookup, Pending;
    GatheredPending(s, key, w);
  }

  // The cache already has the signature of the file as it is.
  lemma SkipFollows(env: Env, s: State, start: nat, path: string, sig: string, p: string, at: Place)
    requires Followed(env, s, start, p, at)
    requires path == p ==> at == Unmatched && p in s.tree && Lookup(s.bucket, p) == Some(FormatSignature(env.hash, sig, s.tree[p]))
    ensures Followed(env, s.(log := s.log + [Matched(path, sig)]), start, p, if path == p then Settled(sig) else at)
  {
    hide FormatSignature, Calls, InboxOnly, AboardOnly, Orderly, QueuedOnly, WritingOnly, Noted, WaitingOnly;
    var t, to := s.(log := s.log + [Matched(path, sig)]), if path == p then Settled(sig) else at;
    InboxSame(s, t, p, at, to);
    WaitingSame(s, t, p, at, to);
    AboardSame(s, t, p, at, to);
    QueuedSame(env, s, t, p, at, to);
    WritingSame(env, s, t, p, at, to);
    OrderlySame(s, t);
    SkipNoted(s, start, path, sig, p, at);
  }

  lemma SkipNoted(s: State, start: nat, path: string, sig: string, p: string, at: Place)
    requires Noted(s, start, p, at) && (path == p ==> at == Unmatched)
    ensures Noted(s.(log := s.log + [Matched(path, sig)]), start, p, if path == p then Settled(sig) else at)
  {}

  lemma SubmitFollows(env: Env, s: State, start: nat, matches: seq<string>, p: string, at: Place)
    requires Followed(env, s, start, p, at) && Enabled(s, Submit(matches)) && !Submitting(env, s, matches).failed
    ensures Followed(env, Submitting(env, s, matches), start, p, TrackSubmit(env, s, matches, p, at))
  {
    hide FormatSignature, Followed, Signature, Sequence, Key, ValidNames, Lookup;
    var popped, place, head := Popped(s), PoppedPlace(at), s.inbox[0];
    PopFollows(env, s, start, p, at);
    if matches != [] {
      match Decision(env.hash, s.fs, head, matches)
      case Failed =>
      case Skipped =>
        var sig := Signature(env.hash, s.fs, Sequence(s.fs, matches)).value;
        SkipFollows(env, popped, start, head.path, sig, p, place);
      case Accepted(w) =>
        var key := Key(Sequence(s.fs, matches));
        GatherFollows(env, popped, start, key, w, p, place);
        if Completed(env.batchSize, s.batches, key, w).Some? {
          LaunchFollows(env, popped, start, key, w, p, if w.path == p then Waiting(key, |Pending(s.batches, key)|, w.formatters) else place);
        }
    }
  }

  // A full batch leaves at once.
  lemma LaunchFollows(env: Env, s: State, start: nat, key: string, w: Work, p: string, at: Place)
    requires Followed(env, Gathered(s, key, w), start, p, at)
    ensures var to := if at.Waiting? && at.key == key then Aboard(|s.flights|, at.at, at.formatters) else at;
            Followed(env, s.(batches := s.batches[key := []],
                             flights := s.flights + [Launch(s.fs, Batch(key, Pending(s.batches, key) + [w]))],
                             log := s.log + [Matched(w.path, w.formatters)]), start, p, to)
  {
    hide FormatSignature, Followed, Lookup;
    var g := Gathered(s, key, w);
    assert Pending(g.batches, key) == Pending(s.batches, key) + [w];
    assert g.batches[key := []] == s.batches[key := []];
    DrainFollows(env, g, start, key, p, at);
  }

  // ---- whole runs ----

  lemma StepFollows(env: Env, s: State, start: nat, step: Step, p: string, at: Place)
    requires Followed(env, s, start, p, at) && Enabled(s, step) && Tame(s, step) && !Next(env, s, step).failed
    requires step == Read(p) ==> at == Unread
    ensures Followed(env, Next(env, s, step), start, p, Track(env, s, step, p, at))
    ensures at == Unread && step != Read(p) ==> Track(env, s, step, p, at) == Unread
  {
    hide Followed, Submitting, Calling, Posting, Calls, Decision, Tame, Stored;
    match step
    case Read(path) => ReadFollows(env, s, start, path, p, at);
    case Submit(matches) => SubmitFollows(env, s, start, matches, p, at);
    case Drain(key) => DrainFollows(env, s, start, key, p, at);
    case RunCall(i, after, ok) => CallFollows(env, s, start, i, after, ok, p, at);
    case Post(i) => PostFollows(env, s, start, i, p, at);
    case Dequeue(n) => DequeueFollows(env, s, start, n, p, at);
    case Flush => FlushFollows(env, s, start, p, at);
    case _ => NeverTame(s, step);
  }

  lemma NeverTame(s: State, step: Step)
    requires Enabled(s, step) && Tame(s, step)
    ensures !step.StartRun? && !step.Edit?
  {}

  lemma {:induction false} FailureStays(env: Env, s: State, steps: seq<Step>)
    requires Runs(env, s, steps) && TameRun(env, s, steps) && s.failed
    ensures Exec(env, s, steps).failed
    decreases |steps|
  {
    hide Next, Enabled, Tame;
    if steps != [] {
      NeverTame(s, steps[0]);
      StepKeepsFailure(env, s, steps[0]);
      FailureStays(env, Next(env, s, steps[0]), steps[1..]);
    }
  }

  lemma {:induction false} RunFollows(env: Env, s: State, start: nat, steps: seq<Step>, p: string, at: Place)
    requires Followed(env, s, start, p, at) && Runs(env, s, steps) && TameRun(env, s, steps) && !Exec(env, s, steps).failed
    requires DistinctReads(steps) && (Reads(steps, p) ==> at == Unread)
    ensures exists to :: Followed(env, Exec(env, s, steps), start, p, to)
    decreases |steps|
  {
    hide Followed, Next, Enabled, Tame, Track;
    if steps != [] {
      var next := Next(env, s, steps[0]);
      if next.failed { FailureStays(env, next, steps[1..]); }
      LaterReads(steps, p);
      StepFollows(env, s, start, steps[0], p, at);
      RunFollows(env, next, start, steps[1..], p, Track(env, s, steps[0], p, at));
    } else {
      assert Followed(env, Exec(env, s, steps), start, p, at);
    }
  }

  lemma LaterReads(steps: seq<Step>, p: string)
    requires DistinctReads(steps) && steps != []
    ensures DistinctReads(steps[1..])
    ensures steps[0] == Read(p) ==> Reads(steps, p) && !Reads(steps[1..], p)
    ensures Reads(steps[1..], p) ==> Reads(steps, p)
  {
    var rest := steps[1..];
    if Reads(rest, p) {
      var a :| 0 <= a < |rest| && rest[a] == Read(p);
      assert steps[a + 1] == Read(p);
    }
  }

  lemma FinishedSettled(env: Env, s: State, start: nat, k: nat, at: Place)
    requires start <= k < |s.log| && s.log[k].Matched? && Followed(env, s, start, s.log[k].path, at) && Finished(s)
    ensures var e := s.log[k];
            e.path in s.tree && Lookup(s.bucket, e.path) == Some(FormatSignature(env.hash, e.formatters, s.tree[e.path]))
  {
    hide FormatSignature, Calls, InboxOnly, WaitingOnly, AboardOnly, QueuedOnly, WritingOnly, Orderly;
    assert Signed(at, s.log[k].formatters);
  }

  /** After an error-free run every matched file has the cache entry that a fresh stat and its formatters give. */
  lemma RunSettles(env: Env, s: State, steps: seq<Step>, k: nat)
    requires Fresh(s) && Runs(env, s, steps) && TameRun(env, s, steps) && DistinctReads(steps)
    requires Finished(Exec(env, s, steps)) && |s.log| <= k < |Exec(env, s, steps).log| && Exec(env, s, steps).log[k].Matched?
    ensures var t := Exec(env, s, steps);
            var e := t.log[k];
            e.path in t.tree && Lookup(t.bucket, e.path) == Some(FormatSignature(env.hash, e.formatters, t.tree[e.path]))
  {
    hide FormatSignature, Followed, Exec, Runs, TameRun, DistinctReads, Reads, Fresh, Finished;
    var t := Exec(env, s, steps);
    var p := t.log[k].path;
    FreshFollowed(env, s, p);
    FinishedOk(t);
    RunFollows(env, s, |s.log|, steps, p, Unread);
    var at :| Followed(env, t, |s.log|, p, at);
    FinishedSettled(env, t, |s.log|, k, at);
  }

  lemma FinishedOk(s: State)
    requires Finished(s)
    ensures !s.failed
  {}

  // ---- the next run ----

  ghost predicate Known(log: seq<Event>, from: nat, path: string, sig: string) {
    exists k :: from <= k < |log| && log[k] == Matched(path, sig)
  }

  // Every matched file was matched in the run logged from `from` on, with the same formatters' signature.
  ghost predicate SameSignatures(env: Env, s: State, steps: seq<Step>, log: seq<Event>, from: nat)
    requires Runs(env, s, steps)
    decreases |steps|
  {
    steps != [] ==>
      && (steps[0].Submit? && steps[0].matches != [] ==> SameSignature(env, s, steps[0].matches, log, from))
      && SameSignatures(env, Next(env, s, steps[0]), steps[1..], log, from)
  }

  ghost predicate SameSignature(env: Env, s: State, matches: seq<string>, log: seq<Event>, from: nat)
    requires s.inbox != []
  {
    match Signature(env.hash, s.fs, Sequence(s.fs, matches))
    case Some(sig) => Known(log, from, s.inbox[0].path, sig)
    case None => false
  }

  ghost predicate AllSettled(env: Env, base: State, from: nat) {
    forall path, sig :: Known(base.log, from, path, sig) ==>
                          path in base.tree && Lookup(base.bucket, path) == Some(FormatSignature(env.hash, sig, base.tree[path]))
  }

  // Nothing was accepted since `base`.
  ghost predicate Idle(s: State, base: State) {
    && s.tree == base.tree && s.bucket == base.bucket && s.flights == base.flights && s.live == |s.flights|
    && s.queue == [] && s.writing == [] && (forall key :: Pending(s.batches, key) == [])
    && forall n :: 0 <= n < |s.inbox| ==> s.inbox[n].path in base.tree && s.inbox[n] == FileOf(base, s.inbox[n].path)
  }

  lemma SubmitIdle(env: Env, s: State, base: State, from: nat, matches: seq<string>)
    requires Idle(s, base) && AllSettled(env, base, from) && s.inbox != [] && ValidNames(matches)
    requires matches != [] ==> SameSignature(env, s, matches, base.log, from)
    ensures Idle(Submitting(env, s, matches), base)
  {
    hide FormatSignature, Signature, Sequence, Key, ValidNames, Known;
    if matches != [] {
      var sig := Signature(env.hash, s.fs, Sequence(s.fs, matches)).value;
      assert Known(base.log, from, s.inbox[0].path, sig);
      assert Decision(env.hash, s.fs, s.inbox[0], matches).Skipped?;
    }
  }

  lemma StepIdle(env: Env, s: State, base: State, from: nat, step: Step)
    requires Idle(s, base) && AllSettled(env, base, from) && Enabled(s, step) && Tame(s, step)
    requires step.Submit? && step.matches != [] ==> SameSignature(env, s, step.matches, base.log, from)
    ensures Idle(Next(env, s, step), base)
  {
    hide Submitting, Calls, ValidNames, AllSettled, SameSignature;
    match step
    case Submit(matches) => SubmitIdle(env, s, base, from, matches);
    case _ =>
  }

  lemma {:induction false} RunIdle(env: Env, s: State, base: State, from: nat, steps: seq<Step>)
    requires Idle(s, base) && AllSettled(env, base, from) && Runs(env, s, steps) && TameRun(env, s, steps)
    requires SameSignatures(env, s, steps, base.log, from)
    ensures Idle(Exec(env, s, steps), base)
    decreases |steps|
  {
    hide Idle, AllSettled, Enabled, Next, Tame, SameSignature;
    if steps != [] {
      StepIdle(env, s, base, from, steps[0]);
      RunIdle(env, Next(env, s, steps[0]), base, from, steps[1..]);
    }
  }

  /** Quiescence: a run that finishes without errors over distinct paths, edited by nobody but its formatters, leaves
      nothing to format for a next run with the same formatters' signatures: whatever it reads, it accepts no file. */
  lemma NextRunFormatsNothing(env: Env, s: State, steps: seq<Step>, config: Formatters, more: seq<Step>)
    requires Fresh(s) && Runs(env, s, steps) && TameRun(env, s, steps) && DistinctReads(steps) && Finished(Exec(env, s, steps))
    requires var u := Next(env, Exec(env, s, steps), StartRun(config));
             && Runs(env, u, more) && TameRun(env, u, more)
             && SameSignatures(env, u, more, Exec(env, s, steps).log, |s.log|)
    ensures var t, v := Exec(env, s, steps), Exec(env, Next(env, Exec(env, s, steps), StartRun(config)), more);
            v.flights == t.flights && v.tree == t.tree && v.bucket == t.bucket && forall key :: Pending(v.batches, key) == []
  {
    hide FormatSignature, Exec, Runs, TameRun, DistinctReads, SameSignatures, Fresh, Finished;
    var t := Exec(env, s, steps);
    var u := Next(env, t, StartRun(config));
    forall path, sig | Known(t.log, |s.log|, path, sig)
      ensures path in t.tree && Lookup(t.bucket, path) == Some(FormatSignature(env.hash, sig, t.tree[path]))
    {
      var k :| |s.log| <= k < |t.log| && t.log[k] == Matched(path, sig);
      RunSettles(env, s, steps, k);
    }
    assert Idle(u, t);
    RunIdle(env, u, t, |s.log|, more);
  }

  // ---- a run that meets these premises ----

  // A step that leaves the tree as it is.
  predicate Still(step: Step, tree: map<string, Stamp>) {
    !step.StartRun? && !step.Edit? && (step.RunCall? ==> step.after == tree)
  }

  lemma StillStep(env: Env, s: State, step: Step)
    requires Enabled(s, step) && Still(step, s.tree)
    ensures Tame(s, step) && Next(env, s, step).tree == s.tree
  {
    hide Decision, Signature, Calls, Sequence, Key, ValidNames, FormatSignature, Stored, Passed, Appended, Completed;
  }

  lemma {:induction false} StillRun(env: Env, s: State, steps: seq<Step>)
    requires Runs(env, s, steps) && forall step :: step in steps ==> Still(step, s.tree)
    ensures TameRun(env, s, steps)
    decreases |steps|
  {
    hide Next, Enabled, Tame;
    if steps != [] {
      assert steps[0] in steps && forall step :: step in steps[1..] ==> step in steps;
      StillStep(env, s, steps[0]);
      StillRun(env, Next(env, s, steps[0]), steps[1..]);
    }
  }

  // The state a first run starts in, and what it does.
  function Started(path: string, stamp: Stamp): State {
    Untouched(path, stamp).(fs := OneFormatter())
  }

  lemma StartedRun(env: Env, path: string, stamp: Stamp)
    requires env.batchSize > 1
    ensures var steps := FirstRun(path, stamp)[1..];
            && Runs(env, Started(path, stamp), steps) && TameRun(env, Started(path, stamp), steps)
            && Exec(env, Started(path, stamp), steps) == OneDone(env, path, stamp)
  {
    hide FormatSignature, TameRun, Sequence, Signature, Submitting, Calling, Posting, Stored, Calls;
    FirstRunDone(env, path, stamp);
    assert Next(env, Untouched(path, stamp), FirstRun(path, stamp)[0]) == Started(path, stamp);
    StillRun(env, Started(path, stamp), FirstRun(path, stamp)[1..]);
  }

  // The next run reads the file and submits it to the same formatter.
  lemma AgainRun(env: Env, path: string, stamp: Stamp)
    ensures var u, more := Next(env, OneDone(env, path, stamp), StartRun(OneFormatter())), [Read(path), Submit(["f"])];
            && Runs(env, u, more) && TameRun(env, u, more)
            && SameSignatures(env, u, more, OneDone(env, path, stamp).log, 0)
  {
    hide FormatSignature, TameRun, Sequence, Signature, Submitting, ValidNames;
    OneFormatterFacts(env.hash);
    var t := OneDone(env, path, stamp);
    var u := Next(env, t, StartRun(OneFormatter()));
    var v := Next(env, u, Read(path));
    var w := Next(env, v, Submit(["f"]));
    EmptyRun(env, w);
    assert [Submit(["f"])][1..] == [] && [Read(path), Submit(["f"])][1..] == [Submit(["f"])];
    assert Runs(env, v, [Submit(["f"])]);
    assert Runs(env, u, [Read(path), Submit(["f"])]);
    StillRun(env, u, [Read(path), Submit(["f"])]);
    assert t.log[0] == Matched(path, env.hash("x")) && v.inbox[0].path == path;
    assert SameSignature(env, v, ["f"], t.log, 0);
    assert SameSignatures(env, w, [], t.log, 0);
    assert SameSignatures(env, v, [Submit(["f"])], t.log, 0);
  }

  /** The premises are met, by a run that does format: whatever the hash, one that formats a file, followed by one that
      submits the file to the same formatter again. */
  lemma QuietPremisesMet(env: Env, path: string, stamp: Stamp)
    requires env.batchSize > 1
    ensures var s, steps, more := Started(path, stamp), FirstRun(path, stamp)[1..], [Read(path), Submit(["f"])];
            && Fresh(s) && Runs(env, s, steps) && TameRun(env, s, steps) && DistinctReads(steps)
            && Finished(Exec(env, s, steps)) && |Exec(env, s, steps).flights| == 1
            && var u := Next(env, Exec(env, s, steps), StartRun(OneFormatter()));
               Runs(env, u, more) && TameRun(env, u, more) && SameSignatures(env, u, more, Exec(env, s, steps).log, |s.log|)
  {
    hide FormatSignature, TameRun, Runs, SameSignatures, Exec;
    StartedRun(env, path, stamp);
    AgainRun(env, path, stamp);
  }
}
