/** Deleting one element of the packages list: what stands there goes, with its line when nothing else is on it. */
module Deleting {
  import opened Clobber
  import opened Optional
  import opened Order
  import opened Splicing
  import opened Strings
  import opened Tokens

  // The list's text begins and ends with its brackets.
  predicate Bracketed(ls: ListSplice) {
    |ls.inner| >= 2 && ls.inner[0] == '[' && ls.inner[|ls.inner| - 1] == ']'
  }

  // Where the one token of this name starts.
  predicate OnlyAt(src: string, ls: ListSplice, x: string, start: nat) {
    && Located(src, ls) && Bracketed(ls) && Ident(x) && start >= ls.InnerStart()
    && |Occurrences(ls.inner, x)| == 1 && IsToken(ls.inner, x, start - ls.InnerStart())
  }

  function LineOf(src: string, x: string, start: nat): string
    requires start + |x| <= |src|
  {
    src[LineStart(src, start)..LineEnd(src, start + |x|)]
  }

  // Nothing but white space is left of the line once the name is taken out of it wherever it occurs.
  predicate Alone(src: string, x: string, start: nat)
    requires start + |x| <= |src|
  {
    Blank(RemoveAll(LineOf(src, x, start), x))
  }

  // The deleted range.
  function From(src: string, x: string, start: nat): nat
    requires start + |x| <= |src|
  {
    if Alone(src, x, start) then LineStart(src, start) else start
  }

  function Until(src: string, x: string, start: nat): nat
    requires start + |x| <= |src|
  {
    if Alone(src, x, start) then LineEnd(src, start + |x|) else start + |x|
  }

  // ---- lines ----

  lemma {:induction false} LineStartIs(src: string, off: nat)
    requires off <= |src|
    ensures var k := LineStart(src, off); k > 0 ==> src[k - 1] == '\n'
  {
    if off > 0 && src[off - 1] != '\n' { LineStartIs(src, off - 1); }
  }

  lemma {:induction false} LineEndIs(src: string, off: nat)
    requires off <= |src|
    ensures var k := LineEnd(src, off); k < |src| ==> off < k && src[k - 1] == '\n'
    decreases |src| - off
  {
    if off < |src| && src[off] != '\n' { LineEndIs(src, off + 1); }
  }

  // Taking a name out of a text leaves every character that is not one of the name's.
  lemma {:induction false} RemoveAllKeeps(s: string, x: string, c: char)
    requires c in s && c !in x
    ensures c in RemoveAll(s, x)
    decreases |s|
  {
    if x != "" && s != "" {
      if |x| <= |s| && s[..|x|] == x {
        assert s == x + s[|x|..];
        RemoveAllKeeps(s[|x|..], x, c);
      } else {
        assert s == [s[0]] + s[1..];
        if c != s[0] { RemoveAllKeeps(s[1..], x, c); }
      }
    }
  }

  lemma BracketsAreNeither(x: string)
    requires Ident(x)
    ensures '[' !in x && ']' !in x && !UnicodeSpace('[') && !UnicodeSpace(']') && !IsNixIdentChar('\n')
  {
    hide IsNixIdentChar;
    assert !IsNixIdentChar('[') && !IsNixIdentChar(']') && !IsNixIdentChar('\n') by { BracketChars(); }
  }

  lemma BracketChars()
    ensures !IsNixIdentChar('[') && !IsNixIdentChar(']') && !IsNixIdentChar('\n')
  {}

  // A line that goes as a whole lies between the brackets.
  lemma LineInside(src: string, ls: ListSplice, x: string, start: nat)
    requires OnlyAt(src, ls, x, start) && start + |x| <= |src| && Alone(src, x, start)
    ensures ls.InnerStart() < LineStart(src, start) && LineEnd(src, start + |x|) <= ls.closeOff
  {
    hide RemoveAll, UnicodeSpace, IsNixIdentChar, LineStart, LineEnd, Occurrences;
    BracketsAreNeither(x);
    TokenStart(src, ls, x, start);
    var line, from := LineOf(src, x, start), LineStart(src, start);
    if from <= ls.InnerStart() {
      assert line[ls.InnerStart() - from] == '[';
      RemoveAllKeeps(line, x, '[');
    }
    if LineEnd(src, start + |x|) > ls.closeOff {
      assert line[ls.closeOff - from] == ']';
      RemoveAllKeeps(line, x, ']');
    }
  }

  // The token stands behind the opening and in front of the closing bracket.
  lemma TokenStart(src: string, ls: ListSplice, x: string, start: nat)
    requires OnlyAt(src, ls, x, start)
    ensures ls.InnerStart() < start && start + |x| <= ls.closeOff && src[start..start + |x|] == x
    ensures src[ls.InnerStart()] == '[' && src[ls.closeOff] == ']'
  {
    hide IsNixIdentChar, Occurrences;
    BracketChars();
    var at := start - ls.InnerStart();
    assert ls.inner[at] == x[0] && ls.inner[at + |x| - 1] == x[|x| - 1];
    assert forall i :: 0 <= i < |ls.inner| ==> src[ls.InnerStart() + i] == ls.inner[i];
    assert src[start..start + |x|] == ls.inner[at..at + |x|];
  }

  // ---- the deletion ----

  // The list without the deleted range.
  function Remaining(src: string, ls: ListSplice, x: string, start: nat): string
    requires start + |x| <= |src| && Located(src, ls)
    requires ls.InnerStart() <= From(src, x, start) <= Until(src, x, start) <= ls.closeOff
  {
    src[ls.InnerStart()..From(src, x, start)] + src[Until(src, x, start)..ls.closeOff + 1]
  }

  lemma RangeInside(src: string, ls: ListSplice, x: string, start: nat)
    requires OnlyAt(src, ls, x, start)
    ensures start + |x| <= ls.closeOff < |src|
    ensures ls.InnerStart() < From(src, x, start) <= start && start + |x| <= Until(src, x, start) <= ls.closeOff
  {
    hide RemoveAll, Blank, Occurrences, LineStart, LineEnd;
    TokenStart(src, ls, x, start);
    if Alone(src, x, start) { LineInside(src, ls, x, start); }
  }

  // At both ends of the deleted range no name is cut.
  lemma CleanCuts(src: string, ls: ListSplice, x: string, start: nat)
    requires OnlyAt(src, ls, x, start)
    ensures 0 < From(src, x, start) <= Until(src, x, start) < |src| && start + |x| <= |src|
    ensures !IsNixIdentChar(src[From(src, x, start) - 1])
    ensures !IsNixIdentChar(src[Until(src, x, start)]) || !IsNixIdentChar(src[Until(src, x, start) - 1])
  {
    hide RemoveAll, Blank, Occurrences, LineStart, LineEnd, IsNixIdentChar;
    BracketChars();
    RangeInside(src, ls, x, start);
    LineStartIs(src, start);
    LineEndIs(src, start + |x|);
    assert forall i :: 0 <= i < |ls.inner| ==> src[ls.InnerStart() + i] == ls.inner[i];
  }

  // The deletion's edit is that range.
  lemma EditIsRange(src: string, ls: ListSplice, m: Migration, start: nat)
    requires m.newName == "" && OnlyAt(src, ls, m.oldName, start)
    ensures start + |m.oldName| <= |src|
    ensures ListElementSplice(src, ls, m) ==
            Some(Splice(From(src, m.oldName, start), Until(src, m.oldName, start), ""))
  {
    hide RemoveAll, Blank, Occurrences, LineStart, LineEnd, IsToken;
    RangeInside(src, ls, m.oldName, start);
    OccurrencesAreTokens(ls.inner, m.oldName);
    var found := Occurrences(ls.inner, m.oldName);
    assert start - ls.InnerStart() in found;
    assert found[0] == start - ls.InnerStart();
  }

  lemma OneEdit(src: string, s: Splice)
    requires s.offset < s.end <= |src|
    ensures ApplySequence(src, Sort(HigherFirst, [s])) == Some(src[..s.offset] + s.text + src[s.end..])
  {
    assert [s][1..] == [] && Sort(HigherFirst, []) == [];
    assert Sort(HigherFirst, [s]) == [s];
    assert ApplySequence(s.ApplyTo(src), []) == Some(s.ApplyTo(src));
  }

  // Words before, in and behind a range whose ends cut no name.
  lemma CutOut(text: string, a: nat, b: nat)
    requires 0 < a <= b < |text| && !IsNixIdentChar(text[a - 1]) && (!IsNixIdentChar(text[b]) || !IsNixIdentChar(text[b - 1]))
    ensures Words(text) == Words(text[..a]) + Words(text[a..b]) + Words(text[b..])
    ensures Words(text[..a] + text[b..]) == Words(text[..a]) + Words(text[b..])
  {
    hide Words, IsNixIdentChar;
    assert text == text[..b] + text[b..] && text[..b] == text[..a] + text[a..b];
    WordsSplit(text[..b], text[b..]);
    WordsSplit(text[..a], text[a..b]);
    WordsSplit(text[..a], text[b..]);
  }

  /** A deletion that applies removes one range of the list and nothing else: the words of the range go, the name among them
      and no longer in the list. That is exactly the one element unless its line is taken out as a whole and holds another
      word. */
  lemma DeletionRemoves(src: string, parsed: Parsed, ms: seq<Migration>, ls: ListSplice, m: Migration, start: nat)
    requires Editable(src, parsed, ls) && m.newName == "" && OnlyAt(src, ls, m.oldName, start)
    requires Clobbering(src, parsed, ms).Done? && Clobbering(src, parsed, ms).report.applied == [m]
    ensures start + |m.oldName| <= |src|
    ensures var x, a, b := m.oldName, From(src, m.oldName, start), Until(src, m.oldName, start);
            && ls.InnerStart() < a <= start && start + |x| <= b <= ls.closeOff
            && Clobbering(src, parsed, ms).out == src[..ls.InnerStart()] + Remaining(src, ls, x, start) + src[ls.closeOff + 1..]
            && Words(ls.inner) == Words(src[ls.InnerStart()..a]) + Words(src[a..b]) + Words(src[b..ls.closeOff + 1])
            && Words(Remaining(src, ls, x, start)) == Words(src[ls.InnerStart()..a]) + Words(src[b..ls.closeOff + 1])
            && x in Words(src[a..b]) && x !in Words(Remaining(src, ls, x, start))
            && (Words(src[a..b]) == [x] <==> !(Alone(src, x, start) && |Words(LineOf(src, x, start))| > 1))
  {
    hide Words, Occurrences, RemoveAll, Blank, LineStart, LineEnd, IsNixIdentChar, IsToken, CheckElement, FirstRefusal, Ident,
         Sort, ApplySequence, WithStatus, ListElementSplice, Until, From;
    var x := m.oldName;
    AppliedAlone(src, parsed, ms, ls, m);
    IdentNonEmpty(x);
    RangeInside(src, ls, x, start);
    EditIsRange(src, ls, m, start);
    OneEdit(src, Splice(From(src, x, start), Until(src, x, start), ""));
    SameOutside(src, ls, From(src, x, start), Until(src, x, start));
    RangeWords(src, ls, x, start);
    RangeHolds(src, ls, x, start);
  }

  /** A deletion that is the one thing to be done is carried out. */
  lemma DeletionApplies(src: string, parsed: Parsed, ms: seq<Migration>, ls: ListSplice, m: Migration, start: nat)
    requires Editable(src, parsed, ls) && m.newName == "" && OnlyAt(src, ls, m.oldName, start)
    requires Untouched(ls.inner, ms) && (forall n :: n in ms && ToDo(ls.inner, n) <==> n == m) && |WithStatus(ls.inner, ms, Pending)| == 1
    ensures Clobbering(src, parsed, ms).Done? && Clobbering(src, parsed, ms).report.applied == [m]
  {
    hide Words, Occurrences, RemoveAll, Blank, LineStart, LineEnd, IsNixIdentChar, IsToken, CheckElement, FirstRefusal, Ident,
         Sort, ApplySequence, WithStatus, ListElementSplice, Until, From, ToDo, InConflict, IsDone, Clobbering, StandsTwice;
    var pending := WithStatus(ls.inner, ms, Pending);
    WithStatusMembers(ls.inner, ms, Pending);
    assert pending[0] in pending;
    StatusIff(ls.inner, pending[0]);
    assert pending == [m];
    StandsIff(ls.inner, m.oldName);
    ElementRefusals(src, parsed, ms, ls);
    IdentNonEmpty(m.oldName);
    RangeInside(src, ls, m.oldName, start);
    EditIsRange(src, ls, m, start);
    var s := Splice(From(src, m.oldName, start), Until(src, m.oldName, start), "");
    OneEdit(src, s);
    assert [m][1..] == [] && Edits(src, ls, []) == Some([]) && [s] + [] == [s];
    assert Edits(src, ls, [m]) == Some([s]);
  }

  // What the one applied deletion amounts to.
  lemma AppliedAlone(src: string, parsed: Parsed, ms: seq<Migration>, ls: ListSplice, m: Migration)
    requires Editable(src, parsed, ls)
    requires Clobbering(src, parsed, ms).Done? && Clobbering(src, parsed, ms).report.applied == [m]
    ensures var s := ListElementSplice(src, ls, m);
            s.Some? && ApplySequence(src, Sort(HigherFirst, [s.value])) == Some(Clobbering(src, parsed, ms).out)
  {
    hide CheckElement, FirstRefusal, Sort, ApplySequence, WithStatus, ListElementSplice;
    assert [m][1..] == [] && Edits(src, ls, []) == Some([]);
    if ListElementSplice(src, ls, m).Some? {
      assert [ListElementSplice(src, ls, m).value] + [] == [ListElementSplice(src, ls, m).value];
    }
  }

  lemma SameOutside(src: string, ls: ListSplice, a: nat, b: nat)
    requires Located(src, ls) && ls.InnerStart() <= a <= b <= ls.closeOff
    ensures src[..a] + "" + src[b..] ==
            src[..ls.InnerStart()] + (src[ls.InnerStart()..a] + src[b..ls.closeOff + 1]) + src[ls.closeOff + 1..]
  {
    assert src[..a] == src[..ls.InnerStart()] + src[ls.InnerStart()..a];
    assert src[b..] == src[b..ls.closeOff + 1] + src[ls.closeOff + 1..];
  }

  lemma RangeWords(src: string, ls: ListSplice, x: string, start: nat)
    requires OnlyAt(src, ls, x, start)
    ensures start + |x| <= |src|
    ensures var a, b := From(src, x, start), Until(src, x, start);
            && ls.InnerStart() < a <= b <= ls.closeOff
            && Words(ls.inner) == Words(src[ls.InnerStart()..a]) + Words(src[a..b]) + Words(src[b..ls.closeOff + 1])
            && Words(src[ls.InnerStart()..a] + src[b..ls.closeOff + 1]) ==
               Words(src[ls.InnerStart()..a]) + Words(src[b..ls.closeOff + 1])
  {
    hide Words, Occurrences, RemoveAll, Blank, LineStart, LineEnd, IsNixIdentChar, IsToken, From, Until, Ident;
    RangeInside(src, ls, x, start);
    CleanCuts(src, ls, x, start);
    var o, a, b := ls.InnerStart(), From(src, x, start), Until(src, x, start);
    InnerSlices(src, o, ls.closeOff + 1, a, b);
    assert ls.inner[a - o - 1] == src[a - 1] && ls.inner[b - o] == src[b] && ls.inner[b - o - 1] == src[b - 1];
    CutOut(ls.inner, a - o, b - o);
  }

  lemma InnerSlices(src: string, o: nat, e: nat, a: nat, b: nat)
    requires o <= a <= b <= e <= |src|
    ensures src[o..e][..a - o] == src[o..a] && src[o..e][a - o..b - o] == src[a..b] && src[o..e][b - o..] == src[b..e]
  {
    SliceOfSlice(src, o, e, 0, a - o);
    SliceOfSlice(src, o, e, a - o, b - o);
    SliceOfSlice(src, o, e, b - o, e - o);
    assert src[o..e][..a - o] == src[o..e][0..a - o] && src[o..e][b - o..] == src[o..e][b - o..e - o];
  }

  lemma SliceOfSlice(s: string, o: nat, e: nat, i: nat, j: nat)
    requires o <= e <= |s| && i <= j <= e - o
    ensures s[o..e][i..j] == s[o + i..o + j]
  {
    forall k: nat | k < j - i
      ensures s[o..e][i..j][k] == s[o + i..o + j][k]
    {
      assert s[o..e][i..j][k] == s[o..e][i + k] == s[o + i + k] == s[o + i..o + j][k];
    }
  }

  // The token itself is a word of the range, and the only one of that name in the list.
  lemma RangeHolds(src: string, ls: ListSplice, x: string, start: nat)
    requires OnlyAt(src, ls, x, start)
    ensures start + |x| <= |src|
    ensures var a, b := From(src, x, start), Until(src, x, start);
            && ls.InnerStart() < a <= b <= ls.closeOff && x in Words(src[a..b])
            && x !in Words(src[ls.InnerStart()..a]) + Words(src[b..ls.closeOff + 1])
            && (Words(src[a..b]) == [x] <==> !(Alone(src, x, start) && |Words(LineOf(src, x, start))| > 1))
  {
    hide Words, Occurrences, RemoveAll, Blank, LineStart, LineEnd, IsNixIdentChar, IsToken;
    RangeInside(src, ls, x, start);
    RangeWords(src, ls, x, start);
    OccurrencesAreWords(ls.inner, x);
    var a, b := From(src, x, start), Until(src, x, start);
    TokenInRange(src, ls, x, start, a, b);
    OnceOnly(Words(src[ls.InnerStart()..a]), Words(src[a..b]), Words(src[b..ls.closeOff + 1]), x);
    TokenStart(src, ls, x, start);
    if !Alone(src, x, start) { SingleWord(x); }
    OneWord(Words(src[a..b]), x);
  }

  lemma OneWord(ws: seq<string>, x: string)
    requires x in ws
    ensures ws == [x] <==> |ws| == 1
  {}

  lemma SingleWord(x: string)
    requires Ident(x)
    ensures Words(x) == [x]
  {
    WordsOfIdent(x, "");
    assert x + "" == x;
  }

  lemma OnceOnly(p: seq<string>, q: seq<string>, r: seq<string>, x: string)
    requires multiset(p + q + r)[x] == 1 && x in q
    ensures x !in p + r
  {
    assert multiset(p)[x] + multiset(q)[x] + multiset(r)[x] == 1 && multiset(q)[x] >= 1;
    assert x in p <==> multiset(p)[x] > 0;
    assert x in r <==> multiset(r)[x] > 0;
  }

  lemma TokenInRange(src: string, ls: ListSplice, x: string, start: nat, a: nat, b: nat)
    requires OnlyAt(src, ls, x, start) && ls.InnerStart() < a <= start && start + |x| <= b <= ls.closeOff
    ensures x in Words(src[a..b])
  {
    hide Words, Occurrences, IsNixIdentChar;
    assert forall i :: 0 <= i < |ls.inner| ==> src[ls.InnerStart() + i] == ls.inner[i];
    TokenStart(src, ls, x, start);
    SliceOfSlice(src, a, b, start - a, start - a + |x|);
    TokenWithin(src, ls, x, start, a, b);
    WordsAroundToken(src[a..b], x, start - a);
  }

  lemma TokenWithin(src: string, ls: ListSplice, x: string, start: nat, a: nat, b: nat)
    requires OnlyAt(src, ls, x, start) && ls.InnerStart() < a <= start && start + |x| <= b <= ls.closeOff
    requires src[a..b][start - a..start - a + |x|] == x
    ensures IsToken(src[a..b], x, start - a)
  {
    hide Occurrences, IsNixIdentChar;
    assert forall i :: 0 <= i < |ls.inner| ==> src[ls.InnerStart() + i] == ls.inner[i];
    if start > a { assert src[a..b][start - a - 1] == src[start - 1]; }
    if start + |x| < b { assert src[a..b][start - a + |x|] == src[start + |x|]; }
  }

  // ---- an element that goes with another one ----

  /** A list of two elements on one line, the second one the first one's name twice: deleting the first takes both. */
  lemma DeletionTakesMore()
    ensures var src, ls, m := "[\n a aa\n]", ListSplice(8, "[\n a aa\n]"), Migration("a", "");
            && OnlyAt(src, ls, "a", 3) && Alone(src, "a", 3) && Words(LineOf(src, "a", 3)) == ["a", "aa"]
            && Clobbering(src, Outputs(false, Some(ls), {}), [m]) == Done("[\n]", Report([m], [], []))
  {
    hide Words, RemoveAll, Occurrences, LineStart, LineEnd, IsToken, IsNixIdentChar, Blank, Clobbering, ListElementSplice,
         Located, Bracketed, Ident;
    var src, ls, m := "[\n a aa\n]", ListSplice(8, "[\n a aa\n]"), Migration("a", "");
    ExampleWords();
    ExampleToken();
    ExampleLine();
    ExampleBlank();
    OccurrencesAreWords(src, "a");
    ExampleList(src, ls);
    EditIsRange(src, ls, m, 3);
    ExampleDone(src, ls, m);
    assert src[..2] + "" + src[8..] == "[\n]";
  }

  lemma ExampleList(src: string, ls: ListSplice)
    requires src == "[\n a aa\n]" && ls == ListSplice(8, src)
    ensures ls.InnerStart() == 0 && Located(src, ls) && Bracketed(ls)
  {}

  lemma ExampleDone(src: string, ls: ListSplice, m: Migration)
    requires |src| == 9 && ls == ListSplice(8, src) && Located(src, ls) && m == Migration("a", "")
    requires |Occurrences(src, "a")| == 1 && ListElementSplice(src, ls, m) == Some(Splice(2, 8, ""))
    ensures Clobbering(src, Outputs(false, Some(ls), {}), [m]) == Done(src[..2] + "" + src[8..], Report([m], [], []))
  {
    hide Occurrences, ListElementSplice, ApplySequence, Sort, WithStatus, FirstRefusal, CheckElement;
    OneEdit(src, Splice(2, 8, ""));
    ExampleSelected(src, m);
    assert [Splice(2, 8, "")] + [] == [Splice(2, 8, "")];
    assert [m][1..] == [] && Edits(src, ls, []) == Some([]) && Edits(src, ls, [m]) == Some([Splice(2, 8, "")]);
  }

  lemma ExampleWords()
    ensures Words("[\n a aa\n]") == ["a", "aa"] && Words(" a aa\n") == ["a", "aa"] && Ident("a")
  {
    hide Words;
    ExampleChars();
    ExampleEnd();
    WordsOfIdent("a", " aa\n]");
    WordsOfIdent("a", " aa\n");
    WordsStep(" a aa\n]");
    WordsStep("\n a aa\n]");
    WordsStep("[\n a aa\n]");
    WordsStep(" a aa\n");
    ExampleCuts();
  }

  lemma ExampleEnd()
    ensures Words(" aa\n]") == ["aa"] && Words(" aa\n") == ["aa"]
  {
    hide Words;
    ExampleChars();
    WordsStep("\n]");
    WordsStep("]");
    WordsStep("");
    WordsStep("\n");
    WordsOfIdent("aa", "\n]");
    WordsOfIdent("aa", "\n");
    WordsStep(" aa\n]");
    WordsStep(" aa\n");
    ExampleCuts();
  }

  lemma ExampleChars()
    ensures IsNixIdentChar('a') && !IsNixIdentChar(' ') && !IsNixIdentChar('\n') && !IsNixIdentChar('[') && !IsNixIdentChar(']')
  {}

  lemma ExampleCuts()
    ensures "\n]"[1..] == "]" && "]"[1..] == "" && "\n"[1..] == "" && " aa\n]"[1..] == "aa" + "\n]"
    ensures " aa\n"[1..] == "aa" + "\n" && " a aa\n]"[1..] == "a" + " aa\n]" && "\n a aa\n]"[1..] == " a aa\n]"
    ensures "[\n a aa\n]"[1..] == "\n a aa\n]" && " a aa\n"[1..] == "a" + " aa\n"
  {}

  lemma ExampleToken()
    ensures IsToken("[\n a aa\n]", "a", 3)
  {
    assert "[\n a aa\n]"[3..4] == "a";
  }

  lemma ExampleLine()
    ensures LineStart("[\n a aa\n]", 3) == 2 && LineEnd("[\n a aa\n]", 4) == 8 && "[\n a aa\n]"[2..8] == " a aa\n"
  {}

  lemma ExampleBlank()
    ensures Blank(RemoveAll(" a aa\n", "a"))
  {
    assert RemoveAll("\n", "a") == "\n" by { assert "\n"[1..] == ""; }
    assert RemoveAll("a\n", "a") == "\n" by { assert "a\n"[1..] == "\n"; }
    assert RemoveAll("aa\n", "a") == "\n" by { assert "aa\n"[1..] == "a\n"; }
    assert RemoveAll(" aa\n", "a") == " \n" by { assert " aa\n"[1..] == "aa\n"; }
    assert RemoveAll("a aa\n", "a") == " \n" by { assert "a aa\n"[1..] == " aa\n"; }
    assert " a aa\n"[1..] == "a aa\n";
  }

  lemma ExampleSelected(src: string, m: Migration)
    requires m == Migration("a", "") && |Occurrences(src, "a")| == 1
    ensures WithStatus(src, [m], Pending) == [m]
    ensures WithStatus(src, [m], Conflict) == WithStatus(src, [m], Satisfied) == WithStatus(src, [m], Unknown) == []
    ensures FirstRefusal(src, {}, [m]).None?
  {
    hide Occurrences;
    assert [m][1..] == [] && [m] + [] == [m];
    assert forall s :: WithStatus(src, [], s) == [];
    assert FirstRefusal(src, {}, []).None?;
  }
}
