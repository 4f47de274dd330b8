/** The cache writer: released files are stored in transactions of a batch each, which happen entirely or not at all. */
module WriteCache {
  import FormatRuns
  import opened Optional
  import opened Signing

  // A released file. Missing stamps or a missing formatters' signature make its transaction fail.
  datatype Update = Update(path: string, info: Option<Stamp>, formatted: Option<Stamp>, formatters: Option<string>)

  function NewFormatSignature(hash: Hash, u: Update): Option<string> {
    match (if u.formatted.Some? then u.formatted else u.info, u.formatters)
    case (Some(stamp), Some(formatters)) => Some(FormatSignature(hash, formatters, stamp))
    case _ => None
  }

  /** No signature exactly when both stamps or the formatters' signature are missing; else that of the later stamp. */
  lemma SignatureOfUpdate(hash: Hash, u: Update)
    ensures NewFormatSignature(hash, u).None? <==> (u.info.None? && u.formatted.None?) || u.formatters.None?
    ensures forall s, f :: u.formatters == Some(f) && (u.formatted == Some(s) || (u.formatted.None? && u.info == Some(s))) ==>
                             NewFormatSignature(hash, u) == Some(FormatSignature(hash, f, s))
  {}

  type Bucket = map<string, string>

  predicate Storable(hash: Hash, us: seq<Update>) {
    forall i :: 0 <= i < |us| ==> NewFormatSignature(hash, us[i]).Some?
  }

  // The bucket after storing the updates in order.
  function Stored(hash: Hash, bucket: Bucket, us: seq<Update>): Bucket
    requires Storable(hash, us)
  {
    if us == [] then bucket
    else
      var n := |us| - 1;
      Stored(hash, bucket, us[..n])[us[n].path := NewFormatSignature(hash, us[n]).value]
  }

  lemma {:induction false} StoredConcat(hash: Hash, bucket: Bucket, a: seq<Update>, b: seq<Update>)
    requires Storable(hash, a + b)
    ensures Storable(hash, a) && Storable(hash, b)
    ensures Stored(hash, bucket, a + b) == Stored(hash, Stored(hash, bucket, a), b)
  {
    hide NewFormatSignature;
    assert forall i :: 0 <= i < |a| ==> (a + b)[i] == a[i];
    assert forall i :: 0 <= i < |b| ==> (a + b)[|a| + i] == b[i];
    if b == [] {
      assert a + b == a;
    } else {
      var n := |b| - 1;
      assert (a + b)[..|a| + n] == a + b[..n];
      StoredConcat(hash, bucket, a, b[..n]);
    }
  }

  // A path without updates keeps its entry.
  lemma {:induction false} NoUpdate(hash: Hash, bucket: Bucket, us: seq<Update>, path: string)
    requires Storable(hash, us) && forall i :: 0 <= i < |us| ==> us[i].path != path
    ensures path in Stored(hash, bucket, us) <==> path in bucket
    ensures path in bucket ==> Stored(hash, bucket, us)[path] == bucket[path]
  {
    hide NewFormatSignature;
    if us != [] { NoUpdate(hash, bucket, us[..|us| - 1], path); }
  }

  /** The last update of a path is the one its entry shows. */
  lemma {:induction false} LastUpdateWins(hash: Hash, bucket: Bucket, us: seq<Update>, k: nat)
    requires Storable(hash, us) && k < |us| && forall i :: k < i < |us| ==> us[i].path != us[k].path
    ensures us[k].path in Stored(hash, bucket, us)
    ensures NewFormatSignature(hash, us[k]) == Some(Stored(hash, bucket, us)[us[k].path])
  {
    hide NewFormatSignature;
    assert us == us[..k + 1] + us[k + 1..] && us[..k + 1][..k] == us[..k];
    StoredConcat(hash, bucket, us[..k + 1], us[k + 1..]);
    NoUpdate(hash, Stored(hash, bucket, us[..k + 1]), us[k + 1..], us[k].path);
  }

  // A file that was read with one stamp and has another one after its batch.
  datatype Observation = Observation(path: string, before: Stamp, now: Stamp, formatters: string)

  // What the writer receives: the later stamp is set only if it counts as a change.
  function UpdateOf(o: Observation): (u: Update)
    ensures u.path == o.path
  {
    Update(o.path, Some(o.before), if Changed(o.before, o.now) then Some(o.now) else None, Some(o.formatters))
  }

  function UpdatesOf(os: seq<Observation>): seq<Update> {
    seq(|os|, i requires 0 <= i < |os| => UpdateOf(os[i]))
  }

  // The same file as the run-by-run model releases it.
  function ReleaseOf(o: Observation): FormatRuns.Release {
    FormatRuns.Release(o.path, o.formatters, StampToStore(o.before, o.now))
  }

  function ReleasesOf(os: seq<Observation>): seq<FormatRuns.Release> {
    seq(|os|, i requires 0 <= i < |os| => ReleaseOf(os[i]))
  }

  /** Whatever a formatter did to a file, what is stored is the signature of the stamp it was left with. */
  lemma FreshIsStored(hash: Hash, o: Observation)
    ensures NewFormatSignature(hash, UpdateOf(o)) == Some(FormatSignature(hash, o.formatters, o.now))
    ensures FormatSignature(hash, o.formatters, StampToStore(o.before, o.now)) == FormatSignature(hash, o.formatters, o.now)
  {
    hide FormatSignature;
    StoredIsFresh(hash, o.formatters, o.before, o.now);
  }

  /** Storing the observed files in these transactions is the flush step of the run-by-run model. */
  lemma {:induction false} StoredIsFlush(hash: Hash, bucket: Bucket, os: seq<Observation>)
    ensures Storable(hash, UpdatesOf(os))
    ensures Stored(hash, bucket, UpdatesOf(os)) == FormatRuns.Stored(hash, bucket, ReleasesOf(os))
    decreases |os|
  {
    hide FormatSignature, NewFormatSignature, UpdateOf, StampToStore;
    if os != [] {
      var first := [UpdateOf(os[0])];
      FreshIsStored(hash, os[0]);
      StoredIsFlush(hash, bucket, os[1..]);
      assert UpdatesOf(os) == first + UpdatesOf(os[1..]) && ReleasesOf(os)[1..] == ReleasesOf(os[1..]);
      StorableConcat(hash, first, UpdatesOf(os[1..]));
      StoredConcat(hash, bucket, first, UpdatesOf(os[1..]));
      assert first[..0] == [];
      StoredIsFlush(hash, bucket[os[0].path := FormatSignature(hash, os[0].formatters, os[0].now)], os[1..]);
    }
  }

  lemma StorableConcat(hash: Hash, a: seq<Update>, b: seq<Update>)
    requires Storable(hash, a) && Storable(hash, b)
    ensures Storable(hash, a + b)
  {}

  class CachedReader {
    const hash: Hash
    const batchSize: nat

    var bucket: Bucket

    constructor (h: Hash, size: nat, b: Bucket)
      ensures hash == h && batchSize == size && bucket == b
    {
      hash, batchSize, bucket := h, size, b;
    }

    // One transaction: puts is false when the database refuses it.
    method Transact(batch: seq<Update>, puts: bool) returns (ok: bool)
      modifies `bucket
      ensures ok <==> Storable(hash, batch) && (puts || batch == [])
      ensures bucket == if ok then Stored(hash, old(bucket), batch) else old(bucket)
    {
      hide NewFormatSignature;
      if batch == [] { return true; }
      var next, i := bucket, 0;
      while i < |batch|
        invariant i <= |batch| && Storable(hash, batch[..i]) && next == Stored(hash, bucket, batch[..i])
      {
        var signature := NewFormatSignature(hash, batch[i]);
        if signature.None? { return false; }
        next := next[batch[i].path := signature.value];
        assert batch[..i + 1][..i] == batch[..i];
        i := i + 1;
      }
      assert batch[..i] == batch;
      if puts { bucket := next; }
      ok := puts;
    }

    /** Draining the channel: when every transaction succeeds all updates are stored in order; when one fails, what is
        stored is a prefix of them. */
    method Process(updates: seq<Update>, puts: nat -> bool) returns (ok: bool, ghost stored: nat)
      modifies `bucket
      ensures stored <= |updates| && Storable(hash, updates[..stored]) && bucket == Stored(hash, old(bucket), updates[..stored])
      ensures ok ==> stored == |updates|
      ensures !ok ==> stored < |updates| && Stuck(updates, puts, stored)
    {
      hide NewFormatSignature, Storable, Counted, Stuck;
      NoneCounted();
      var batch, transactions := [], 0;
      stored := 0;
      EmptyStored(bucket);
      ghost var start := bucket;
      for i := 0 to |updates|
        invariant stored <= i && batch == updates[stored..i] && Counted(stored, transactions)
        invariant batchSize > 0 ==> |batch| < batchSize
        invariant Storable(hash, updates[..stored]) && bucket == Stored(hash, start, updates[..stored])
      {
        batch := batch + [updates[i]];
        assert batch == updates[stored..i + 1];
        if |batch| == batchSize {
          ok := Transact(batch, puts(transactions));
          if !ok {
            StuckHere(updates, puts, stored, transactions);
            return;
          }
          Extend(start, updates, stored, i + 1);
          OneCounted(stored, transactions);
          stored := i + 1;
          batch, transactions := [], transactions + 1;
        }
      }
      assert batch == updates[stored..|updates|];
      ok := Transact(batch, puts(transactions));
      if ok {
        Extend(start, updates, stored, |updates|);
        stored := |updates|;
      } else {
        StuckHere(updates, puts, stored, transactions);
        EmptyStored(bucket);
      }
    }

    // Where the transaction that starts with this update ends.
    function TransactionEnd(updates: seq<Update>, from: nat): (end: nat)
      requires from <= |updates|
      ensures from <= end <= |updates|
    {
      if 0 < batchSize <= |updates| - from then from + batchSize else |updates|
    }

    // The transaction that starts with this update holds one without a signature, or is refused.
    ghost predicate Stuck(updates: seq<Update>, puts: nat -> bool, stored: nat)
      requires stored <= |updates|
    {
      !Storable(hash, updates[stored..TransactionEnd(updates, stored)])
      || exists n: nat :: Counted(stored, n) && !puts(n)
    }

    // So many transactions have stored so many updates.
    predicate Counted(stored: nat, n: nat) {
      n * batchSize == stored && (batchSize == 0 ==> n == 0)
    }

    lemma NoneCounted()
      ensures Counted(0, 0)
    {}

    lemma OneCounted(stored: nat, n: nat)
      requires Counted(stored, n) && batchSize > 0
      ensures Counted(stored + batchSize, n + 1)
    {
      assert (n + 1) * batchSize == n * batchSize + batchSize;
    }

    lemma StuckHere(updates: seq<Update>, puts: nat -> bool, stored: nat, n: nat)
      requires stored <= |updates| && Counted(stored, n)
      requires !Storable(hash, updates[stored..TransactionEnd(updates, stored)]) || !puts(n)
      ensures Stuck(updates, puts, stored)
    {}

    lemma EmptyStored(b: Bucket)
      ensures Storable(hash, []) && Stored(hash, b, []) == b
    {}

    lemma Extend(start: Bucket, updates: seq<Update>, n: nat, m: nat)
      requires n <= m <= |updates| && Storable(hash, updates[..n]) && Storable(hash, updates[n..m])
      ensures Storable(hash, updates[..m])
      ensures Stored(hash, start, updates[..m]) == Stored(hash, Stored(hash, start, updates[..n]), updates[n..m])
    {
      hide NewFormatSignature;
      assert updates[..m] == updates[..n] + updates[n..m];
      StoredConcat(hash, start, updates[..n], updates[n..m]);
    }
  }
}
