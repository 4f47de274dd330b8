/** Complete-token search in Nix text, and its reference: the maximal runs of identifier characters. */
module Tokens {

  predicate IsNixIdentChar(c: char) {
    c == '_' || c == '-' || c == '\'' || c == '.' || 'a' <= c <= 'z' || 'A' <= c <= 'Z' || '0' <= c <= '9'
  }

  // Nix identifiers, and the dots of attribute paths.
  lemma IdentChars(c: char)
    ensures IsNixIdentChar(c) <==> c in Letters() || c in "0123456789" || c in "_-'."
  {
    hide Lower, Upper;
    LowerIs(c);
    UpperIs(c);
    if '0' <= c <= '9' { assert c == "0123456789"[c as int - '0' as int]; }
  }

  lemma LowerIs(c: char)
    ensures c in Lower() <==> 'a' <= c <= 'z'
  {
    if 'a' <= c <= 'z' { assert c == Lower()[c as int - 'a' as int]; }
  }

  lemma UpperIs(c: char)
    ensures c in Upper() <==> 'A' <= c <= 'Z'
  {
    if 'A' <= c <= 'Z' { assert c == Upper()[c as int - 'A' as int]; }
  }

  function Letters(): string {
    Lower() + Upper()
  }

  function Lower(): string {
    "abcdefghijklmnopqrstuvwxyz"
  }

  function Upper(): string {
    "ABCDEFGHIJKLMNOPQRSTUVWXYZ"
  }

  // needle stands at offset i of s and is not part of a longer identifier.
  predicate IsToken(s: string, needle: string, i: nat) {
    && i + |needle| <= |s|
    && s[i..i + |needle|] == needle
    && (i > 0 ==> !IsNixIdentChar(s[i - 1]))
    && (i + |needle| < |s| ==> !IsNixIdentChar(s[i + |needle|]))
  }

  // The offsets from i on at which needle is a complete token.
  function TokensFrom(s: string, needle: string, i: nat): seq<nat>
    requires i <= |s| + 1
    decreases |s| + 1 - i
  {
    if i > |s| then []
    else if IsToken(s, needle, i) then [i] + TokensFrom(s, needle, i + 1)
    else TokensFrom(s, needle, i + 1)
  }

  predicate Increasing(xs: seq<nat>) {
    forall a, b :: 0 <= a < b < |xs| ==> xs[a] < xs[b]
  }

  lemma IncreasingCons(i: nat, rest: seq<nat>)
    requires Increasing(rest) && forall k :: k in rest ==> k > i
    ensures Increasing([i] + rest)
  {
    assert forall b :: 0 <= b < |rest| ==> rest[b] in rest;
  }

  lemma {:induction false} TokensFromSound(s: string, needle: string, i: nat)
    requires i <= |s| + 1
    ensures forall k :: k in TokensFrom(s, needle, i) <==> i <= k <= |s| && IsToken(s, needle, k)
    ensures Increasing(TokensFrom(s, needle, i))
    decreases |s| + 1 - i
  {
    hide IsToken, Increasing;
    NothingIncreases();
    if i <= |s| {
      TokensFromSound(s, needle, i + 1);
      if IsToken(s, needle, i) { IncreasingCons(i, TokensFrom(s, needle, i + 1)); }
    }
  }

  lemma NothingIncreases()
    ensures Increasing([])
  {}

  lemma TokensStep(s: string, needle: string, i: nat)
    requires i <= |s|
    ensures TokensFrom(s, needle, i) == (if IsToken(s, needle, i) then [i] else []) + TokensFrom(s, needle, i + 1)
  {}

  // Every complete-token occurrence, in ascending order; an empty needle has none.
  function Occurrences(s: string, needle: string): seq<nat> {
    if needle == "" then [] else TokensFrom(s, needle, 0)
  }

  /** The occurrences are exactly the complete tokens, in strictly ascending order. */
  lemma OccurrencesAreTokens(s: string, needle: string)
    requires needle != ""
    ensures var out := Occurrences(s, needle);
            && (forall k :: k in out <==> IsToken(s, needle, k))
            && Increasing(out)
  {
    TokensFromSound(s, needle, 0);
  }

  method TokenIndices(s: string, needle: string) returns (out: seq<nat>)
    ensures out == Occurrences(s, needle)
  {
    hide TokensFrom;
    if needle == "" { return []; }
    out := [];
    var i := 0;
    while i + |needle| <= |s|
      invariant i <= |s| + 1 && out + TokensFrom(s, needle, i) == TokensFrom(s, needle, 0)
    {
      TokensStep(s, needle, i);
      var end := i + |needle|;
      if s[i..end] == needle && (i == 0 || !IsNixIdentChar(s[i - 1])) && (end == |s| || !IsNixIdentChar(s[end])) {
        out := out + [i];
      }
      i := i + 1;
    }
    NoneBeyond(s, needle, i);
  }

  lemma {:induction false} NoneBeyond(s: string, needle: string, i: nat)
    requires i + |needle| > |s| && i <= |s| + 1
    ensures TokensFrom(s, needle, i) == []
    decreases |s| + 1 - i
  {
    if i <= |s| { NoneBeyond(s, needle, i + 1); }
  }

  // ---- words: maximal identifier runs ----

  predicate Ident(x: string) {
    x != "" && forall i :: 0 <= i < |x| ==> IsNixIdentChar(x[i])
  }

  function RunLength(s: string): (k: nat)
    ensures k <= |s| && (forall i :: 0 <= i < k ==> IsNixIdentChar(s[i]))
    ensures k < |s| ==> !IsNixIdentChar(s[k])
  {
    if s == "" || !IsNixIdentChar(s[0]) then 0 else 1 + RunLength(s[1..])
  }

  function Words(s: string): seq<string>
    decreases |s|
  {
    if s == "" then []
    else if RunLength(s) == 0 then Words(s[1..])
    else [s[..RunLength(s)]] + Words(s[RunLength(s)..])
  }

  lemma {:induction false} RunOf(x: string, rest: string)
    requires Ident(x) && (rest != "" ==> !IsNixIdentChar(rest[0]))
    ensures RunLength(x + rest) == |x|
  {
    if |x| == 1 {
      assert (x + rest)[1..] == rest;
    } else {
      assert (x + rest)[1..] == x[1..] + rest;
      RunOf(x[1..], rest);
    }
  }

  lemma WordsOfIdent(x: string, rest: string)
    requires Ident(x) && (rest != "" ==> !IsNixIdentChar(rest[0]))
    ensures Words(x + rest) == [x] + Words(rest)
  {
    RunOf(x, rest);
    assert (x + rest)[..|x|] == x && (x + rest)[|x|..] == rest;
  }

  // The words of a text cut where no identifier crosses the cut.
  lemma {:induction false} WordsSplit(a: string, b: string)
    requires a == "" || b == "" || !IsNixIdentChar(a[|a| - 1]) || !IsNixIdentChar(b[0])
    ensures Words(a + b) == Words(a) + Words(b)
    decreases |a|
  {
    hide Words, IsNixIdentChar;
    WordsStep("");
    if a == "" {
      assert a + b == b;
    } else if b == "" {
      assert a + b == a;
    } else {
      var k := RunLength(a);
      RunAcross(a, b);
      WordsStep(a);
      WordsStep(a + b);
      if k == 0 {
        assert (a + b)[1..] == a[1..] + b;
        WordsSplit(a[1..], b);
      } else {
        assert (a + b)[..k] == a[..k] && (a + b)[k..] == a[k..] + b;
        WordsSplit(a[k..], b);
      }
    }
  }

  lemma {:induction false} RunAcross(a: string, b: string)
    requires a != "" && b != "" && (!IsNixIdentChar(a[|a| - 1]) || !IsNixIdentChar(b[0]))
    ensures RunLength(a + b) == RunLength(a)
  {
    assert (a + b)[1..] == a[1..] + b;
    if |a| == 1 {
      assert (a + b)[1..] == b;
    } else if IsNixIdentChar(a[0]) {
      RunAcross(a[1..], b);
    }
  }

  lemma TokenBoundaries(s: string, x: string, i: nat)
    requires Ident(x) && IsToken(s, x, i)
    ensures var rest := s[i + |x|..];
            && s == s[..i] + (x + rest) && (rest != "" ==> !IsNixIdentChar(rest[0]))
            && (s[..i] == "" || !IsNixIdentChar(s[..i][|s[..i]| - 1]))
  {}

  // A token cuts the text into what precedes it, itself, and what follows.
  lemma WordsAroundToken(s: string, x: string, i: nat)
    requires Ident(x) && IsToken(s, x, i)
    ensures Words(s) == Words(s[..i]) + [x] + Words(s[i + |x|..])
  {
    hide IsNixIdentChar, Ident, Words;
    TokenBoundaries(s, x, i);
    WordsSplit(s[..i], x + s[i + |x|..]);
    WordsOfIdent(x, s[i + |x|..]);
  }

  /** Token search finds exactly the words: x is found iff it is a word, and found twice iff it is one twice. */
  lemma OccurrencesAreWords(s: string, x: string)
    requires Ident(x)
    ensures |Occurrences(s, x)| == multiset(Words(s))[x]
  {
    WordsCount(s, x, 0);
    assert s[0..] == s;
  }

  lemma {:induction false} WordsCount(s: string, x: string, from: nat)
    requires Ident(x) && from <= |s| && (0 < from < |s| ==> !IsNixIdentChar(s[from - 1]) || !IsNixIdentChar(s[from]))
    ensures |TokensFrom(s, x, from)| == multiset(Words(s[from..]))[x]
    decreases |s| - from
  {
    hide IsNixIdentChar, IsToken, TokensFrom, Ident, Words, RunLength;
    WordsStep(s[from..]);
    if from == |s| {
      IdentNonEmpty(x);
      NoneBeyond(s, x, from);
    } else {
      var k := RunLength(s[from..]);
      RunAt(s, from);
      if k == 0 {
        NoTokenHere(s, x, from);
        TokensStep(s, x, from);
        WordsCount(s, x, from + 1);
      } else {
        RunHasOneToken(s, x, from, k);
        WordsCount(s, x, from + k);
      }
    }
  }

  lemma IdentNonEmpty(x: string)
    requires Ident(x)
    ensures |x| > 0
  {}

  lemma WordsStep(t: string)
    ensures t == "" ==> Words(t) == []
    ensures t != "" && RunLength(t) == 0 ==> Words(t) == Words(t[1..])
    ensures t != "" && RunLength(t) > 0 ==> Words(t) == [t[..RunLength(t)]] + Words(t[RunLength(t)..])
  {}

  // The first run of a suffix, in the coordinates of the whole text.
  lemma RunAt(s: string, from: nat)
    requires from < |s|
    ensures var k := RunLength(s[from..]);
            && from + k <= |s|
            && (forall j :: from <= j < from + k ==> IsNixIdentChar(s[j]))
            && (from + k < |s| ==> !IsNixIdentChar(s[from + k]))
            && s[from..][..k] == s[from..from + k] && s[from..][k..] == s[from + k..] && s[from..][1..] == s[from + 1..]
            && (k > 0 ==> IsNixIdentChar(s[from]))
  {
    var k := RunLength(s[from..]);
    assert forall j :: from <= j < from + k ==> s[j] == s[from..][j - from];
  }

  lemma NoTokenHere(s: string, x: string, i: nat)
    requires Ident(x) && i < |s| && !IsNixIdentChar(s[i])
    ensures !IsToken(s, x, i)
  {
    if i + |x| <= |s| { assert s[i..i + |x|][0] == s[i]; }
  }

  // Within a maximal run the only token is the run itself.
  lemma RunHasOneToken(s: string, x: string, from: nat, k: nat)
    requires Ident(x) && 0 < k && from + k <= |s|
    requires forall i :: from <= i < from + k ==> IsNixIdentChar(s[i])
    requires from + k < |s| ==> !IsNixIdentChar(s[from + k])
    requires from > 0 ==> !IsNixIdentChar(s[from - 1])
    ensures TokensFrom(s, x, from) ==
            (if s[from..from + k] == x then [from] else []) + TokensFrom(s, x, from + k)
  {
    assert IsToken(s, x, from) <==> s[from..from + k] == x by {
      if IsToken(s, x, from) {
        forall j | from <= j < from + |x|
          ensures IsNixIdentChar(s[j])
        {
          assert s[j] == s[from..from + |x|][j - from];
        }
      }
    }
    SkipRun(s, x, from + 1, from, k);
  }

  lemma {:induction false} SkipRun(s: string, x: string, i: nat, from: nat, k: nat)
    requires Ident(x) && from < i <= from + k <= |s|
    requires forall j :: from <= j < from + k ==> IsNixIdentChar(s[j])
    ensures TokensFrom(s, x, i) == TokensFrom(s, x, from + k)
    decreases from + k - i
  {
    if i < from + k { SkipRun(s, x, i + 1, from, k); }
  }
}
