/** Sorting as the unique sorted permutation, and the byte-wise order on strings. */
module Order {

  ghost predicate TotalPreorder<T(!new)>(leq: (T, T) -> bool) {
    && (forall x, y :: leq(x, y) || leq(y, x))
    && (forall x, y, z :: leq(x, y) && leq(y, z) ==> leq(x, z))
  }

  ghost predicate TotalOrder<T(!new)>(leq: (T, T) -> bool) {
    TotalPreorder(leq) && (forall x, y :: leq(x, y) && leq(y, x) ==> x == y)
  }

  predicate Sorted<T(!new)>(leq: (T, T) -> bool, xs: seq<T>) {
    forall i, j :: 0 <= i < j < |xs| ==> leq(xs[i], xs[j])
  }

  function Insert<T>(leq: (T, T) -> bool, x: T, xs: seq<T>): seq<T> {
    if xs == [] || leq(x, xs[0]) then [x] + xs else [xs[0]] + Insert(leq, x, xs[1..])
  }

  // What a library sort with this comparison returns.
  function Sort<T>(leq: (T, T) -> bool, xs: seq<T>): seq<T> {
    if xs == [] then [] else Insert(leq, xs[0], Sort(leq, xs[1..]))
  }

  lemma {:induction false} InsertMembers<T(!new)>(leq: (T, T) -> bool, x: T, xs: seq<T>)
    ensures multiset(Insert(leq, x, xs)) == multiset(xs) + multiset{x}
    ensures forall y :: y in Insert(leq, x, xs) ==> y == x || y in xs
  {
    if xs != [] && !leq(x, xs[0]) {
      InsertMembers(leq, x, xs[1..]);
      assert xs == [xs[0]] + xs[1..];
    }
  }

  lemma {:induction false} InsertSorted<T(!new)>(leq: (T, T) -> bool, x: T, xs: seq<T>)
    requires TotalPreorder(leq) && Sorted(leq, xs)
    ensures Sorted(leq, Insert(leq, x, xs))
  {
    if xs != [] && !leq(x, xs[0]) {
      InsertSorted(leq, x, xs[1..]);
      InsertMembers(leq, x, xs[1..]);
      var rest := Insert(leq, x, xs[1..]);
      forall i | 0 <= i < |rest|
        ensures leq(xs[0], rest[i])
      {
        assert rest[i] in rest;
      }
    }
  }

  lemma {:induction false} SortSorted<T(!new)>(leq: (T, T) -> bool, xs: seq<T>)
    requires TotalPreorder(leq)
    ensures Sorted(leq, Sort(leq, xs)) && multiset(Sort(leq, xs)) == multiset(xs)
  {
    if xs != [] {
      SortSorted(leq, xs[1..]);
      InsertSorted(leq, xs[0], Sort(leq, xs[1..]));
      InsertMembers(leq, xs[0], Sort(leq, xs[1..]));
      assert xs == [xs[0]] + xs[1..];
    }
  }

  lemma {:induction false} SortLength<T>(leq: (T, T) -> bool, xs: seq<T>)
    ensures |Sort(leq, xs)| == |xs|
  {
    if xs != [] {
      SortLength(leq, xs[1..]);
      InsertLength(leq, xs[0], Sort(leq, xs[1..]));
    }
  }

  lemma {:induction false} InsertLength<T>(leq: (T, T) -> bool, x: T, xs: seq<T>)
    ensures |Insert(leq, x, xs)| == |xs| + 1
  {
    if xs != [] && !leq(x, xs[0]) { InsertLength(leq, x, xs[1..]); }
  }

  /** Two sorted listings of the same elements are the same listing. */
  lemma {:induction false} SortedUnique<T(!new)>(leq: (T, T) -> bool, a: seq<T>, b: seq<T>)
    requires TotalOrder(leq) && Sorted(leq, a) && Sorted(leq, b) && multiset(a) == multiset(b)
    ensures a == b
  {
    hide Sorted, TotalOrder;
    assert |a| == |multiset(a)| == |multiset(b)| == |b|;
    if a != [] {
      SameLeast(leq, a, b);
      TailMultiset(a);
      TailMultiset(b);
      SortedUnique(leq, a[1..], b[1..]);
      assert a == [a[0]] + a[1..] && b == [b[0]] + b[1..];
    }
  }

  lemma SameLeast<T(!new)>(leq: (T, T) -> bool, a: seq<T>, b: seq<T>)
    requires TotalOrder(leq) && Sorted(leq, a) && Sorted(leq, b) && multiset(a) == multiset(b) && a != [] && b != []
    ensures a[0] == b[0] && Sorted(leq, a[1..]) && Sorted(leq, b[1..])
  {
    assert a[0] in multiset(b) && b[0] in multiset(a);
    assert leq(a[0], b[0]) && leq(b[0], a[0]);
  }

  lemma TailMultiset<T>(a: seq<T>)
    requires a != []
    ensures multiset(a[1..]) == multiset(a) - multiset{a[0]}
  {
    assert a == [a[0]] + a[1..];
  }

  /** Sorting forgets the order of its input. */
  lemma SortPermutation<T(!new)>(leq: (T, T) -> bool, a: seq<T>, b: seq<T>)
    requires TotalOrder(leq) && multiset(a) == multiset(b)
    ensures Sort(leq, a) == Sort(leq, b)
  {
    SortSorted(leq, a);
    SortSorted(leq, b);
    SortedUnique(leq, Sort(leq, a), Sort(leq, b));
  }

  // ---- strings ----

  predicate LexLeq(a: string, b: string) {
    a == [] || (b != [] && (a[0] < b[0] || (a[0] == b[0] && LexLeq(a[1..], b[1..]))))
  }

  lemma {:induction false} LexTotal(a: string, b: string)
    ensures LexLeq(a, b) || LexLeq(b, a)
  {
    if a != [] && b != [] && a[0] == b[0] { LexTotal(a[1..], b[1..]); }
  }

  lemma {:induction false} LexAntisymmetric(a: string, b: string)
    requires LexLeq(a, b) && LexLeq(b, a)
    ensures a == b
  {
    if a != [] {
      LexAntisymmetric(a[1..], b[1..]);
      assert a == [a[0]] + a[1..] && b == [b[0]] + b[1..];
    }
  }

  lemma {:induction false} LexTransitive(a: string, b: string, c: string)
    requires LexLeq(a, b) && LexLeq(b, c)
    ensures LexLeq(a, c)
  {
    if a != [] && a[0] == b[0] == c[0] { LexTransitive(a[1..], b[1..], c[1..]); }
  }

  lemma LexTotalOrder()
    ensures TotalOrder(LexLeq)
  {
    forall a, b
      ensures LexLeq(a, b) || LexLeq(b, a)
    {
      LexTotal(a, b);
    }
    forall a, b | LexLeq(a, b) && LexLeq(b, a)
      ensures a == b
    {
      LexAntisymmetric(a, b);
    }
    forall a, b, c | LexLeq(a, b) && LexLeq(b, c)
      ensures LexLeq(a, c)
    {
      LexTransitive(a, b, c);
    }
  }

  // ---- the keys of a table ----

  // The keys of a table in ascending order.
  predicate IsSortedListing(names: seq<string>, keys: set<string>) {
    Sorted(LexLeq, names) && multiset(names) == multiset(keys)
  }

  lemma ListingMembers(names: seq<string>, keys: set<string>)
    requires IsSortedListing(names, keys)
    ensures forall n :: n in names <==> n in keys
  {
    forall n
      ensures n in names <==> n in keys
    {
      assert n in names <==> n in multiset(names);
    }
  }

  lemma ListingDistinct(names: seq<string>, keys: set<string>)
    requires IsSortedListing(names, keys)
    ensures forall i, j :: 0 <= i < j < |names| ==> names[i] != names[j]
  {
    hide Sorted;
    forall i, j | 0 <= i < j < |names|
      ensures names[i] != names[j]
    {
      CountedTwice(names, i, j);
      assert multiset(keys)[names[j]] <= 1;
    }
  }

  lemma CountedTwice(names: seq<string>, i: nat, j: nat)
    requires i < j < |names|
    ensures multiset(names)[names[j]] >= 1 + if names[i] == names[j] then 1 else 0
  {
    assert names == names[..j] + [names[j]] + names[j + 1..];
    assert names[i] in names[..j];
    assert multiset(names) == multiset(names[..j]) + multiset{names[j]} + multiset(names[j + 1..]);
  }

  /** A set of keys has one sorted listing. */
  lemma ListingUnique(a: seq<string>, b: seq<string>, keys: set<string>)
    requires IsSortedListing(a, keys) && IsSortedListing(b, keys)
    ensures a == b
  {
    LexTotalOrder();
    SortedUnique(LexLeq, a, b);
  }

  // The keys in whatever order the table yields them, then sorted.
  method SortedKeys(keys: set<string>) returns (names: seq<string>)
    ensures IsSortedListing(names, keys)
  {
    names := [];
    var rest := keys;
    while rest != {}
      invariant rest <= keys && multiset(names) == multiset(keys - rest)
      decreases |rest|
    {
      var k :| k in rest;
      assert keys - (rest - {k}) == (keys - rest) + {k};
      rest := rest - {k};
      names := names + [k];
    }
    assert keys - rest == keys;
    LexTotalOrder();
    SortSorted(LexLeq, names);
    names := Sort(LexLeq, names);
  }
}
