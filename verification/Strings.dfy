/** Splitting at a separator and joining back, as Go's strings package does it. */
module Strings {

  // Splitting at every separator; the empty string splits into one empty piece.
  function Split(s: string, sep: char): (parts: seq<string>)
    ensures parts != []
  {
    if s == "" then [""]
    else if s[0] == sep then [""] + Split(s[1..], sep)
    else var rest := Split(s[1..], sep); [[s[0]] + rest[0]] + rest[1..]
  }

  function Join(parts: seq<string>, sep: string): string {
    if parts == [] then "" else if |parts| == 1 then parts[0] else parts[0] + sep + Join(parts[1..], sep)
  }

  lemma {:induction false} SplitHead(n: string, rest: string, sep: char)
    requires sep !in n
    ensures rest == "" ==> Split(n + rest, sep) == [n]
    ensures rest != "" && rest[0] == sep ==> Split(n + rest, sep) == [n] + Split(rest[1..], sep)
  {
    if n == "" {
      assert n + rest == rest;
    } else {
      assert n[0] in n && forall c :: c in n[1..] ==> c in n;
      assert (n + rest)[1..] == n[1..] + rest;
      SplitHead(n[1..], rest, sep);
      assert [n[0]] + n[1..] == n;
    }
  }

  /** Pieces without separators are recovered from their joining. */
  lemma {:induction false} SplitOfJoin(parts: seq<string>, sep: char)
    requires parts != [] && forall p :: p in parts ==> sep !in p
    ensures Split(Join(parts, [sep]), sep) == parts
  {
    hide Split;
    assert parts[0] in parts;
    if |parts| == 1 {
      SplitHead(parts[0], "", sep);
      assert parts[0] + "" == parts[0] && parts == [parts[0]];
    } else {
      var rest := Join(parts[1..], [sep]);
      SplitOfJoin(parts[1..], sep);
      SplitHead(parts[0], [sep] + rest, sep);
      assert parts[0] + [sep] + rest == parts[0] + ([sep] + rest);
      assert ([sep] + rest)[1..] == rest;
      assert parts == [parts[0]] + parts[1..];
    }
  }

  /** The pieces of a split hold no separator, and joined they are the string again. */
  lemma {:induction false} JoinOfSplit(s: string, sep: char)
    ensures Join(Split(s, sep), [sep]) == s
    ensures forall p :: p in Split(s, sep) ==> sep !in p
  {
    if s != "" {
      var rest := Split(s[1..], sep);
      JoinOfSplit(s[1..], sep);
      assert s == [s[0]] + s[1..];
      if s[0] == sep {
        var parts := [""] + rest;
        assert parts[1..] == rest;
        assert Join(parts, [sep]) == "" + [sep] + s[1..];
      } else {
        var parts := [[s[0]] + rest[0]] + rest[1..];
        assert rest == [rest[0]] + rest[1..] && parts[1..] == rest[1..];
        assert Join(parts, [sep]) == [s[0]] + Join(rest, [sep]);
      }
    }
  }

  // What stands before the first separator.
  function UpTo(s: string, sep: char): string {
    if s == "" || s[0] == sep then "" else [s[0]] + UpTo(s[1..], sep)
  }

  lemma {:induction false} FirstPiece(a: string, sep: char, rest: string)
    requires sep !in a
    ensures UpTo(a + ([sep] + rest), sep) == a
  {
    if a != "" {
      assert a[0] in a && (forall c :: c in a[1..] ==> c in a) && (a + ([sep] + rest))[1..] == a[1..] + ([sep] + rest);
      FirstPiece(a[1..], sep, rest);
    }
  }

  lemma {:induction false} NoSeparator(s: string, sep: char)
    requires sep !in s
    ensures UpTo(s, sep) == s
  {
    if s != "" {
      assert s[0] in s && forall c :: c in s[1..] ==> c in s;
      NoSeparator(s[1..], sep);
    }
  }

  // What trimming a text takes for white space: the Unicode property.
  predicate UnicodeSpace(c: char) {
    || 0x09 <= c as int <= 0x0d || 0x2000 <= c as int <= 0x200a
    || c as int in {0x20, 0x85, 0xa0, 0x1680, 0x2028, 0x2029, 0x202f, 0x205f, 0x3000}
  }
}
