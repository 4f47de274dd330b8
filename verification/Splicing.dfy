/** Byte-range edits applied back to front, and the one-pass substitution they amount to. */
module Splicing {
  import opened Optional
  import opened Order

  /** One pending edit: replace [offset, end) with text; an end at or before the offset is an insertion. */
  datatype Splice = Splice(offset: nat, end: nat, text: string) {
    // Where the replaced range really stops.
    function Stop(): nat {
      if end > offset then end else offset
    }

    function ApplyTo(src: string): string
      requires Stop() <= |src|
    {
      if end > offset then src[..offset] + text + src[end..] else SpliceAt(src, offset, text)
    }
  }

  function SpliceAt(src: string, off: nat, ins: string): string
    requires off <= |src|
  {
    src[..off] + ins + src[off..]
  }

  // ---- the reference: one left-to-right pass over the original ----

  // s lies before t.
  predicate Before(s: Splice, t: Splice) {
    s.offset < t.offset && s.Stop() <= t.offset
  }

  // Ranges in ascending order, disjoint, at distinct offsets, inside the source from position `from` on.
  predicate Ascending(splices: seq<Splice>, from: nat, len: nat) {
    && from <= len
    && (forall i :: 0 <= i < |splices| ==> from <= splices[i].offset && splices[i].Stop() <= len)
    && (forall i, j :: 0 <= i < j < |splices| ==> Before(splices[i], splices[j]))
  }

  // What follows position `from` once every range is replaced: each byte outside the ranges, in order.
  function Substitute(src: string, from: nat, splices: seq<Splice>): string
    requires Ascending(splices, from, |src|)
    decreases |splices|
  {
    if splices == [] then src[from..]
    else
      var s := splices[0];
      src[from..s.offset] + s.text + Substitute(src, s.Stop(), splices[1..])
  }

  // ---- back to front ----

  lemma ApplyBetween(src: string, s: Splice, tail: string, from: nat)
    requires from <= s.offset && s.Stop() <= |tail| && s.Stop() <= |src| && tail[..s.Stop()] == src[..s.Stop()]
    ensures var out := s.ApplyTo(tail);
            |out| >= from && out[..from] == src[..from] && out[from..] == src[from..s.offset] + s.text + tail[s.Stop()..]
  {
    assert tail[..s.offset] == tail[..s.Stop()][..s.offset];
    assert src[..s.offset] == src[..s.Stop()][..s.offset];
    assert s.ApplyTo(tail) == src[..s.offset] + s.text + tail[s.Stop()..];
    assert src[..s.offset] == src[..from] + src[from..s.offset];
  }

  function ApplyBackward(src: string, splices: seq<Splice>, from: nat): (out: string)
    requires Ascending(splices, from, |src|)
    ensures |out| >= from && out[..from] == src[..from]
    decreases |splices|
  {
    if splices == [] then src
    else
      var s := splices[0];
      var tail := ApplyBackward(src, splices[1..], s.Stop());
      ApplyBetween(src, s, tail, from);
      s.ApplyTo(tail)
  }

  lemma {:induction false} BackwardTail(src: string, splices: seq<Splice>, from: nat)
    requires Ascending(splices, from, |src|)
    ensures ApplyBackward(src, splices, from)[from..] == Substitute(src, from, splices)
    decreases |splices|
  {
    if splices != [] {
      var s := splices[0];
      BackwardTail(src, splices[1..], s.Stop());
      ApplyBetween(src, s, ApplyBackward(src, splices[1..], s.Stop()), from);
    }
  }

  /** Applying the highest offset first equals substituting all ranges of the original in one pass. */
  lemma BackwardIsSubstitution(src: string, splices: seq<Splice>)
    requires Ascending(splices, 0, |src|)
    ensures ApplyBackward(src, splices, 0) == Substitute(src, 0, splices)
  {
    BackwardTail(src, splices, 0);
    assert ApplyBackward(src, splices, 0)[0..] == ApplyBackward(src, splices, 0);
  }

  // ---- from splices collected in any order ----

  predicate Apart(s: Splice, t: Splice) {
    Before(s, t) || Before(t, s)
  }

  // Pairwise disjoint ranges of the source, at distinct offsets.
  predicate Disjoint(splices: seq<Splice>, len: nat) {
    && (forall i :: 0 <= i < |splices| ==> splices[i].Stop() <= len)
    && (forall i, j :: 0 <= i < j < |splices| ==> Apart(splices[i], splices[j]))
  }

  predicate HigherFirst(s: Splice, t: Splice) {
    s.offset >= t.offset
  }

  // The splices sorted by ascending offset: the reverse of the order they are applied in.
  function InOrder(splices: seq<Splice>): seq<Splice> {
    Reverse(Sort(HigherFirst, splices))
  }

  function Reverse(xs: seq<Splice>): seq<Splice> {
    if xs == [] then [] else Reverse(xs[1..]) + [xs[0]]
  }

  lemma {:induction false} InsertDisjoint(s: Splice, xs: seq<Splice>, len: nat)
    requires Disjoint(xs, len) && s.Stop() <= len && forall i :: 0 <= i < |xs| ==> Apart(s, xs[i])
    ensures Disjoint(Insert(HigherFirst, s, xs), len)
    ensures forall y :: y in Insert(HigherFirst, s, xs) <==> y == s || y in xs
  {
    if xs != [] && !HigherFirst(s, xs[0]) {
      InsertDisjoint(s, xs[1..], len);
      var rest := Insert(HigherFirst, s, xs[1..]);
      forall i | 0 <= i < |rest|
        ensures Apart(xs[0], rest[i])
      {
        assert rest[i] in rest;
      }
    }
  }

  lemma {:induction false} SortDisjoint(splices: seq<Splice>, len: nat)
    requires Disjoint(splices, len)
    ensures Disjoint(Sort(HigherFirst, splices), len) && Sorted(HigherFirst, Sort(HigherFirst, splices))
    ensures forall y :: y in Sort(HigherFirst, splices) <==> y in splices
  {
    if splices != [] {
      var rest := Sort(HigherFirst, splices[1..]);
      SortDisjoint(splices[1..], len);
      forall i | 0 <= i < |rest|
        ensures Apart(splices[0], rest[i])
      {
        assert rest[i] in rest;
      }
      InsertDisjoint(splices[0], rest, len);
      InsertSorted(HigherFirst, splices[0], rest);
    }
  }

  lemma {:induction false} ReverseAscending(xs: seq<Splice>, len: nat)
    requires Disjoint(xs, len) && Sorted(HigherFirst, xs)
    ensures Ascending(Reverse(xs), 0, len) && |Reverse(xs)| == |xs|
    ensures forall y :: y in Reverse(xs) <==> y in xs
  {
    if xs != [] {
      ReverseAscending(xs[1..], len);
      var front := Reverse(xs[1..]);
      forall i | 0 <= i < |front|
        ensures Before(front[i], xs[0])
      {
        assert front[i] in front;
      }
    }
  }

  lemma InOrderAscending(splices: seq<Splice>, len: nat)
    requires Disjoint(splices, len)
    ensures Ascending(InOrder(splices), 0, len) && |InOrder(splices)| == |splices|
    ensures forall y :: y in InOrder(splices) <==> y in splices
  {
    SortDisjoint(splices, len);
    SortLength(HigherFirst, splices);
    ReverseAscending(Sort(HigherFirst, splices), len);
  }

  lemma ReverseLast(xs: seq<Splice>, n: nat)
    requires n < |xs|
    ensures Reverse(xs[..n + 1]) == [xs[n]] + Reverse(xs[..n])
  {
    if n > 0 {
      ReverseLast(xs[1..], n - 1);
      assert xs[..n + 1][1..] == xs[1..][..n] && xs[..n][1..] == xs[1..][..n - 1];
    } else {
      assert xs[..1][1..] == [];
    }
  }

  lemma ApplyNext(src: string, sorted: seq<Splice>, i: nat)
    requires Disjoint(sorted, |src|) && Sorted(HigherFirst, sorted) && i < |sorted|
    ensures Ascending(Reverse(sorted[..i]), 0, |src|) && Ascending(Reverse(sorted[..i + 1]), 0, |src|)
    ensures var out := ApplyBackward(src, Reverse(sorted[..i]), 0);
            sorted[i].Stop() <= |out| && sorted[i].ApplyTo(out) == ApplyBackward(src, Reverse(sorted[..i + 1]), 0)
  {
    hide Reverse, Sorted, Ascending;
    var all := Reverse(sorted[..i + 1]);
    PrefixAscending(src, sorted, i);
    ReverseLast(sorted, i);
    AscendingTail(all, 0, |src|);
    assert all[1..] == Reverse(sorted[..i]);
    BackwardFrom(src, all[1..], sorted[i].Stop());
  }

  lemma PrefixAscending(src: string, sorted: seq<Splice>, i: nat)
    requires Disjoint(sorted, |src|) && Sorted(HigherFirst, sorted) && i < |sorted|
    ensures Ascending(Reverse(sorted[..i]), 0, |src|) && Ascending(Reverse(sorted[..i + 1]), 0, |src|)
  {
    ReverseAscending(sorted[..i], |src|);
    ReverseAscending(sorted[..i + 1], |src|);
  }

  lemma AscendingTail(all: seq<Splice>, from: nat, len: nat)
    requires Ascending(all, from, len) && all != []
    ensures Ascending(all[1..], all[0].Stop(), len)
  {}

  lemma BackwardFrom(src: string, splices: seq<Splice>, from: nat)
    requires Ascending(splices, 0, |src|) && Ascending(splices, from, |src|)
    ensures ApplyBackward(src, splices, from) == ApplyBackward(src, splices, 0)
  {}

  // Applying one after the other; None when a range lies outside the text by the time its turn comes.
  function ApplySequence(src: string, splices: seq<Splice>): Option<string>
    decreases |splices|
  {
    if splices == [] then Some(src)
    else if splices[0].Stop() > |src| then None
    else ApplySequence(splices[0].ApplyTo(src), splices[1..])
  }

  lemma {:induction false} SequenceFrom(src: string, sorted: seq<Splice>, i: nat)
    requires Disjoint(sorted, |src|) && Sorted(HigherFirst, sorted) && i <= |sorted|
    ensures Ascending(Reverse(sorted[..i]), 0, |src|) && Ascending(Reverse(sorted), 0, |src|)
    ensures ApplySequence(ApplyBackward(src, Reverse(sorted[..i]), 0), sorted[i..]) == Some(ApplyBackward(src, Reverse(sorted), 0))
    decreases |sorted| - i
  {
    hide Reverse, Sorted, Ascending, ApplyBackward, Disjoint;
    AllAscending(src, sorted, i);
    if i == |sorted| {
      assert sorted[..i] == sorted;
    } else {
      ApplyNext(src, sorted, i);
      SequenceFrom(src, sorted, i + 1);
      assert sorted[i..][1..] == sorted[i + 1..];
    }
  }

  lemma AllAscending(src: string, sorted: seq<Splice>, i: nat)
    requires Disjoint(sorted, |src|) && Sorted(HigherFirst, sorted) && i <= |sorted|
    ensures Ascending(Reverse(sorted[..i]), 0, |src|) && Ascending(Reverse(sorted), 0, |src|)
  {
    ReverseAscending(sorted[..i], |src|);
    ReverseAscending(sorted, |src|);
  }

  /** Disjoint splices collected in any order, sorted highest offset first and applied one at a time, substitute
      all ranges of the original at once. */
  lemma SequenceIsSubstitution(src: string, splices: seq<Splice>)
    requires Disjoint(splices, |src|)
    ensures Ascending(InOrder(splices), 0, |src|)
    ensures ApplySequence(src, Sort(HigherFirst, splices)) == Some(Substitute(src, 0, InOrder(splices)))
  {
    hide Disjoint, Sorted, ApplyBackward, Ascending, Substitute, Reverse, Sort;
    InOrderAscending(splices, |src|);
    var sorted := Sort(HigherFirst, splices);
    SortDisjoint(splices, |src|);
    NothingApplied(src);
    SequenceFrom(src, sorted, 0);
    assert sorted[..0] == [] && sorted[0..] == sorted;
    BackwardIsSubstitution(src, InOrder(splices));
  }

  method ApplyAll(src: string, splices: seq<Splice>) returns (out: Option<string>)
    ensures out == ApplySequence(src, Sort(HigherFirst, splices))
  {
    var sorted := Sort(HigherFirst, splices);
    var text := src;
    for i := 0 to |sorted|
      invariant ApplySequence(text, sorted[i..]) == ApplySequence(src, sorted)
    {
      if sorted[i].Stop() > |text| { return None; }
      assert sorted[i..][1..] == sorted[i + 1..];
      text := sorted[i].ApplyTo(text);
    }
    out := Some(text);
  }

  lemma NothingApplied(src: string)
    ensures Reverse([]) == [] && Ascending([], 0, |src|) && ApplyBackward(src, [], 0) == src
  {}
}
