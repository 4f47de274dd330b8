/** Substituting whole tokens renames words: nothing else in the text is affected. */
module Rename {
  import opened Splicing
  import opened Tokens

  function Renamed(w: string, ren: map<string, string>): string {
    if w in ren then ren[w] else w
  }

  function RenameWords(ws: seq<string>, ren: map<string, string>): seq<string> {
    seq(|ws|, i requires 0 <= i < |ws| => Renamed(ws[i], ren))
  }

  lemma RenameConcat(a: seq<string>, b: seq<string>, ren: map<string, string>)
    ensures RenameWords(a + b, ren) == RenameWords(a, ren) + RenameWords(b, ren)
  {}

  lemma RenameNothing(ws: seq<string>, ren: map<string, string>)
    requires forall w :: w in ws ==> w !in ren
    ensures RenameWords(ws, ren) == ws
  {}

  function Old(text: string, s: Splice): string
    requires s.offset <= s.end <= |text|
  {
    text[s.offset..s.end]
  }

  // The splice replaces one whole token of text[from..] by the new name of that token.
  predicate TokenEdit(text: string, from: nat, s: Splice, ren: map<string, string>) {
    && from <= s.offset < s.end <= |text|
    && Ident(Old(text, s)) && IsToken(text[from..], Old(text, s), s.offset - from)
    && Old(text, s) in ren && s.text == ren[Old(text, s)] && Ident(s.text)
  }

  // The splices rename exactly the words of text[from..] that have a new name, each of which occurs once.
  predicate Complete(text: string, from: nat, splices: seq<Splice>, ren: map<string, string>) {
    && Ascending(splices, from, |text|)
    && (forall i :: 0 <= i < |splices| ==> TokenEdit(text, from, splices[i], ren))
    && (forall w :: w in ren ==> multiset(Words(text[from..]))[w] <= 1)
    && (forall w :: w in ren && w in Words(text[from..]) ==> exists i :: 0 <= i < |splices| && Old(text, splices[i]) == w)
  }

  // ---- cutting at the first splice ----

  lemma CutWords(text: string, from: nat, s: Splice, ren: map<string, string>)
    requires TokenEdit(text, from, s, ren)
    ensures Words(text[from..]) == Words(text[from..s.offset]) + [Old(text, s)] + Words(text[s.end..])
  {
    hide Words, IsToken, Ident;
    var tail := text[from..];
    WordsAroundToken(tail, Old(text, s), s.offset - from);
    assert tail[..s.offset - from] == text[from..s.offset];
    assert tail[s.end - from..] == text[s.end..];
  }

  // A token behind the first splice is a token of what follows that splice.
  lemma LaterToken(text: string, from: nat, stop: nat, s: Splice, ren: map<string, string>)
    requires TokenEdit(text, from, s, ren) && from <= stop <= s.offset
    ensures TokenEdit(text, stop, s, ren) && Old(text, s) in Words(text[stop..])
  {
    var x := Old(text, s);
    var a, b := text[from..], text[stop..];
    assert forall i :: 0 <= i < |b| ==> b[i] == a[i + stop - from];
    assert b[s.offset - stop..s.offset - stop + |x|] == x;
    assert IsToken(b, x, s.offset - stop);
    WordsAroundToken(b, x, s.offset - stop);
  }

  // What stands right before and behind a token is no part of it.
  lemma AroundToken(text: string, from: nat, s: Splice, ren: map<string, string>)
    requires TokenEdit(text, from, s, ren)
    ensures s.end < |text| ==> !IsNixIdentChar(text[s.end])
    ensures s.offset > from ==> !IsNixIdentChar(text[s.offset - 1])
    ensures IsNixIdentChar(text[s.offset])
  {
    hide IsNixIdentChar;
    var a, x := text[from..], Old(text, s);
    assert s.end < |text| ==> a[s.offset - from + |x|] == text[s.end];
    assert s.offset > from ==> a[s.offset - from - 1] == text[s.offset - 1];
    assert x[0] == text[s.offset];
  }

  lemma CountSplit(a: seq<string>, w: string, b: seq<string>, x: string)
    ensures multiset(a + [w] + b)[x] == multiset(a)[x] + (if x == w then 1 else 0) + multiset(b)[x]
  {
    assert multiset(a + [w] + b) == multiset(a) + multiset{w} + multiset(b);
  }

  lemma TailComplete(text: string, from: nat, splices: seq<Splice>, ren: map<string, string>)
    requires Complete(text, from, splices, ren) && splices != []
    ensures Complete(text, splices[0].end, splices[1..], ren)
    ensures forall w :: w in Words(text[from..splices[0].offset]) ==> w !in ren
  {
    hide Words, IsToken, Ident;
    var s, rest := splices[0], splices[1..];
    var seg, tail := Words(text[from..s.offset]), Words(text[s.end..]);
    CutWords(text, from, s, ren);
    forall i | 0 <= i < |rest|
      ensures TokenEdit(text, s.end, rest[i], ren) && Old(text, rest[i]) in tail
    {
      assert rest[i] == splices[i + 1] && Before(s, splices[i + 1]);
      LaterToken(text, from, s.end, rest[i], ren);
    }
    forall w | w in ren
      ensures multiset(tail)[w] <= 1 && w !in seg
      ensures w in tail ==> exists i :: 0 <= i < |rest| && Old(text, rest[i]) == w
    {
      OnceOnly(seg, Old(text, s), tail, w);
      if w in seg || w in tail {
        assert w in Words(text[from..]);
        var i :| 0 <= i < |splices| && Old(text, splices[i]) == w;
        if i > 0 { assert rest[i - 1] == splices[i]; }
      }
    }
    assert Ascending(rest, s.end, |text|);
  }

  // A word that occurs at most once is in at most one of the three parts.
  lemma OnceOnly(a: seq<string>, w: string, b: seq<string>, x: string)
    requires multiset(a + [w] + b)[x] <= 1
    ensures multiset(b)[x] <= 1
    ensures x == w ==> x !in a && x !in b
    ensures x in b ==> x !in a
    ensures x in a || x in b ==> x in a + [w] + b
  {
    CountSplit(a, w, b, x);
    assert x in a <==> multiset(a)[x] > 0;
    assert x in b <==> multiset(b)[x] > 0;
  }

  // ---- the substituted text ----

  lemma SubstituteHead(text: string, from: nat, splices: seq<Splice>)
    requires Ascending(splices, from, |text|) && (splices != [] ==> from < splices[0].offset)
    ensures var out := Substitute(text, from, splices);
            (out == "" <==> from == |text|) && (from < |text| ==> out[0] == text[from])
  {}

  lemma SubstituteStep(text: string, from: nat, splices: seq<Splice>)
    requires Ascending(splices, from, |text|) && splices != []
    ensures var s := splices[0];
            Substitute(text, from, splices) == text[from..s.offset] + (s.text + Substitute(text, s.Stop(), splices[1..]))
  {}

  lemma WordsAround(seg: string, x: string, out: string)
    requires Ident(x) && (out != "" ==> !IsNixIdentChar(out[0])) && (seg != "" ==> !IsNixIdentChar(seg[|seg| - 1]))
    ensures Words(seg + (x + out)) == Words(seg) + [x] + Words(out)
  {
    hide Words, IsNixIdentChar, Ident;
    WordsSplit(seg, x + out);
    WordsOfIdent(x, out);
  }

  lemma {:induction false} RenameTail(text: string, from: nat, splices: seq<Splice>, ren: map<string, string>)
    requires Complete(text, from, splices, ren)
    ensures Words(Substitute(text, from, splices)) == RenameWords(Words(text[from..]), ren)
    decreases |splices|
  {
    hide Words, IsToken, Ident, IsNixIdentChar, RenameWords, TokenEdit, Complete, Ascending, Substitute, Old;
    CompleteAscending(text, from, splices, ren);
    if splices == [] {
      NothingSubstituted(text, from);
      NothingToRename(text, from, ren);
    } else {
      var s, rest := splices[0], splices[1..];
      CompleteHead(text, from, splices, ren);
      TailComplete(text, from, splices, ren);
      CompleteAscending(text, s.end, rest, ren);
      RenameTail(text, s.end, rest, ren);
      SubstituteHead(text, s.end, rest);
      var seg, out := text[from..s.offset], Substitute(text, s.end, rest);
      SubstituteStep(text, from, splices);
      WordsAround(seg, s.text, out);
      CutWords(text, from, s, ren);
      RenameParts(Words(seg), Old(text, s), Words(text[s.end..]), ren);
    }
  }

  lemma NothingSubstituted(text: string, from: nat)
    requires from <= |text|
    ensures Ascending([], from, |text|) && Substitute(text, from, []) == text[from..]
  {}

  lemma NothingToRename(text: string, from: nat, ren: map<string, string>)
    requires Complete(text, from, [], ren)
    ensures RenameWords(Words(text[from..]), ren) == Words(text[from..])
  {
    hide Words;
    RenameNothing(Words(text[from..]), ren);
  }

  lemma RenameParts(a: seq<string>, w: string, b: seq<string>, ren: map<string, string>)
    requires w in ren && forall x :: x in a ==> x !in ren
    ensures RenameWords(a + [w] + b, ren) == a + [ren[w]] + RenameWords(b, ren)
  {
    RenameConcat(a + [w], b, ren);
    RenameConcat(a, [w], ren);
    RenameNothing(a, ren);
  }

  lemma CompleteAscending(text: string, from: nat, splices: seq<Splice>, ren: map<string, string>)
    requires Complete(text, from, splices, ren)
    ensures Ascending(splices, from, |text|) && from <= |text|
  {}

  lemma CompleteHead(text: string, from: nat, splices: seq<Splice>, ren: map<string, string>)
    requires Complete(text, from, splices, ren) && splices != []
    ensures var s := splices[0];
            && Ascending(splices, from, |text|) && TokenEdit(text, from, s, ren)
            && from <= s.offset < s.end <= |text| && s.Stop() == s.end
            && Old(text, s) in ren && s.text == ren[Old(text, s)] && Ident(s.text)
            && (s.end < |text| ==> !IsNixIdentChar(text[s.end]))
            && (s.offset > from ==> !IsNixIdentChar(text[from..s.offset][s.offset - from - 1]))
            && (splices[1..] != [] ==> s.end < splices[1..][0].offset)
  {
    hide Words, IsToken, IsNixIdentChar;
    AroundToken(text, from, splices[0], ren);
    if |splices| > 1 {
      assert Before(splices[0], splices[1]);
      AroundToken(text, from, splices[1], ren);
    }
  }
}
