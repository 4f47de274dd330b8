/** What the format cache stores for a file: one hash over the formatters' signature and the file's stamp. */
module Signing {
  import opened Decimal
  import opened Strings

  type Hash = string -> string

  // The part of os.stat the cache looks at: modification time in nanoseconds, size in bytes.
  datatype Stamp = Stamp(nanos: int, size: nat)

  const SECOND: int := 1_000_000_000

  function Seconds(s: Stamp): int {
    s.nanos / SECOND
  }

  // Same modification second and same size.
  predicate SameStamp(s: Stamp, t: Stamp) {
    Seconds(s) == Seconds(t) && s.size == t.size
  }

  function Framed(formatters: string, s: Stamp): string {
    formatters + Itoa(Seconds(s)) + " " + Itoa(s.size)
  }

  function FormatSignature(hash: Hash, formatters: string, s: Stamp): string {
    hash(Framed(formatters, s))
  }

  // Whether a later stat counts as a change.
  predicate Changed(before: Stamp, now: Stamp) {
    before.size != now.size || Seconds(before) != Seconds(now)
  }

  // The stamp a new signature is computed from: the fresh one if it counts as a change, else the one first read.
  function StampToStore(before: Stamp, now: Stamp): Stamp {
    if Changed(before, now) then now else before
  }

  /** Whichever stamp is stored, the signature is the one a fresh stat gives. */
  lemma StoredIsFresh(hash: Hash, formatters: string, before: Stamp, now: Stamp)
    ensures FormatSignature(hash, formatters, StampToStore(before, now)) == FormatSignature(hash, formatters, now)
  {
    hide Itoa;
  }

  /** Stamps of one second and one size are not told apart; all others are. */
  lemma SecondPrecision(s: Stamp, t: Stamp, k: int)
    requires 1_000_000_000 * k <= s.nanos < 1_000_000_000 * (k + 1)
    ensures SameStamp(s, t) <==> s.size == t.size && 1_000_000_000 * k <= t.nanos < 1_000_000_000 * (k + 1)
    ensures Changed(s, t) <==> !SameStamp(s, t)
    ensures forall hash, f :: SameStamp(s, t) ==> FormatSignature(hash, f, s) == FormatSignature(hash, f, t)
  {
    assert Seconds(s) == k;
  }

  // No two different texts among these have one digest.
  ghost predicate NoCollision(hash: Hash, texts: set<string>) {
    forall x, y :: x in texts && y in texts && hash(x) == hash(y) ==> x == y
  }

  ghost predicate FixedLength(hash: Hash) {
    forall x, y :: |hash(x)| == |hash(y)|
  }

  // A signature is a digest.
  lemma SignatureLength(hash: Hash, f: string, s: Stamp)
    requires FixedLength(hash)
    ensures |FormatSignature(hash, f, s)| == |hash("")|
  {}

  lemma FramedStamp(s: Stamp, t: Stamp)
    requires Itoa(Seconds(s)) + " " + Itoa(s.size) == Itoa(Seconds(t)) + " " + Itoa(t.size)
    ensures SameStamp(s, t)
  {
    hide Itoa, Seconds;
    var a, b, c, d := Itoa(Seconds(s)), Itoa(s.size), Itoa(Seconds(t)), Itoa(t.size);
    SpaceSplits(a, b, c, d);
    ItoaInjective(Seconds(s), Seconds(t));
    ItoaInjective(s.size, t.size);
  }

  lemma SpaceSplits(a: string, b: string, c: string, d: string)
    requires ' ' !in a && ' ' !in c && a + " " + b == c + " " + d
    ensures a == c && b == d
  {
    hide UpTo;
    FirstPiece(a, ' ', b);
    FirstPiece(c, ' ', d);
    assert a + (" " + b) == a + " " + b && c + (" " + d) == c + " " + d;
    assert b == (a + " " + b)[|a| + 1..] && d == (c + " " + d)[|c| + 1..];
  }

  /** Signatures over digests of one length, whose texts do not collide, agree exactly when formatters, modification
      second and size agree. */
  lemma SignatureDetermines(hash: Hash, f: string, s: Stamp, g: string, t: Stamp)
    requires |f| == |g| && NoCollision(hash, {Framed(f, s), Framed(g, t)})
    ensures FormatSignature(hash, f, s) == FormatSignature(hash, g, t) <==> f == g && SameStamp(s, t)
  {
    hide Itoa, Seconds;
    if FormatSignature(hash, f, s) == FormatSignature(hash, g, t) {
      var x, y := Framed(f, s), Framed(g, t);
      assert x == y;
      assert f == x[..|f|] && g == y[..|g|];
      assert Itoa(Seconds(s)) + " " + Itoa(s.size) == x[|f|..];
      assert Itoa(Seconds(t)) + " " + Itoa(t.size) == y[|g|..];
      FramedStamp(s, t);
    }
  }
}
