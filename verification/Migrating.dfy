/** Replacing list elements by the migration tool: exactly the named tokens change, and doing it again changes nothing. */
module Migrating {
  import opened Clobber
  import opened Optional
  import opened Order
  import opened Rename
  import opened Splicing
  import opened Tokens

  // Replacements between identifiers, no name used twice.
  predicate Replacements(ms: seq<Migration>) {
    && (forall i :: 0 <= i < |ms| ==> Ident(ms[i].oldName) && Ident(ms[i].newName))
    && (forall i, j :: 0 <= i < |ms| && 0 <= j < |ms| ==> ms[i].oldName != ms[j].newName)
    && (forall i, j :: 0 <= i < j < |ms| ==> ms[i].oldName != ms[j].oldName && ms[i].newName != ms[j].newName)
  }

  function Names(ms: seq<Migration>): map<string, string> {
    if ms == [] then map[] else Names(ms[1..])[ms[0].oldName := ms[0].newName]
  }

  lemma {:induction false} NamesOf(ms: seq<Migration>)
    requires Replacements(ms)
    ensures forall m :: m in ms ==> m.oldName in Names(ms) && Names(ms)[m.oldName] == m.newName
    ensures forall w :: w in Names(ms) ==> exists m :: m in ms && m.oldName == w
  {
    hide Ident;
    if ms != [] {
      NamesOf(ms[1..]);
      forall m | m in ms[1..]
        ensures m.oldName != ms[0].oldName
      {}
      assert ms == [ms[0]] + ms[1..];
      assert ms[0] in ms;
    }
  }

  lemma {:induction false} PendingKeepsReplacements(inner: string, ms: seq<Migration>, s: Status)
    requires Replacements(ms)
    ensures Replacements(WithStatus(inner, ms, s))
  {
    hide Replacements, CheckElement;
    ReplacementsTail(ms);
    if ms != [] {
      PendingKeepsReplacements(inner, ms[1..], s);
      WithStatusMembers(inner, ms[1..], s);
      ReplacementsCons(ms, WithStatus(inner, ms[1..], s));
      assert [] + WithStatus(inner, ms[1..], s) == WithStatus(inner, ms[1..], s);
    }
  }

  lemma ReplacementsTail(ms: seq<Migration>)
    requires Replacements(ms)
    ensures Replacements([]) && (ms != [] ==> Replacements(ms[1..]))
  {
    hide Ident;
  }

  lemma ReplacementsCons(ms: seq<Migration>, rest: seq<Migration>)
    requires Replacements(ms) && ms != [] && Replacements(rest) && forall m :: m in rest ==> m in ms[1..]
    ensures Replacements([ms[0]] + rest)
  {
    hide Ident;
    forall i | 0 <= i < |rest|
      ensures rest[i].oldName != ms[0].newName && ms[0].oldName != rest[i].newName
      ensures rest[i].oldName != ms[0].oldName && rest[i].newName != ms[0].newName
    {
      assert rest[i] in ms[1..];
    }
  }

  // ---- the edits are token edits, and apart ----

  // The list as the end of the text that precedes what follows it.
  function Upto(src: string, ls: ListSplice): string
    requires Located(src, ls)
  {
    src[..ls.closeOff + 1]
  }

  predicate IsEdit(ls: ListSplice, m: Migration, s: Splice) {
    && s.offset >= ls.InnerStart() && s.end == s.offset + |m.oldName| && s.text == m.newName
    && IsToken(ls.inner, m.oldName, s.offset - ls.InnerStart())
  }

  lemma {:induction false} EditsAre(src: string, ls: ListSplice, pending: seq<Migration>)
    requires Located(src, ls) && Edits(src, ls, pending).Some?
    requires forall i :: 0 <= i < |pending| ==> pending[i].newName != ""
    ensures var splices := Edits(src, ls, pending).value;
            |splices| == |pending| && forall i :: 0 <= i < |pending| ==> IsEdit(ls, pending[i], splices[i])
  {
    hide Occurrences, IsToken;
    if pending != [] {
      EditsAre(src, ls, pending[1..]);
      EditIs(src, ls, pending[0]);
    }
  }

  lemma EditIs(src: string, ls: ListSplice, m: Migration)
    requires Located(src, ls) && m.newName != "" && ListElementSplice(src, ls, m).Some?
    ensures IsEdit(ls, m, ListElementSplice(src, ls, m).value)
  {
    OccurrenceInside(ls.inner, m.oldName);
  }

  // Two different tokens of one text do not overlap.
  lemma TokensApart(s: string, x: string, i: nat, y: string, j: nat)
    requires Ident(x) && Ident(y) && IsToken(s, x, i) && IsToken(s, y, j) && x != y && i <= j
    ensures i < j && i + |x| <= j
  {
    hide IsNixIdentChar;
    assert forall k :: i <= k < i + |x| ==> s[k] == s[i..i + |x|][k - i];
    assert forall k :: j <= k < j + |y| ==> s[k] == s[j..j + |y|][k - j];
    assert forall k :: i <= k < i + |x| ==> IsNixIdentChar(s[k]);
    assert forall k :: j <= k < j + |y| ==> IsNixIdentChar(s[k]);
  }

  lemma EditsDisjoint(src: string, ls: ListSplice, pending: seq<Migration>, splices: seq<Splice>)
    requires Located(src, ls) && Replacements(pending) && |splices| == |pending|
    requires forall i :: 0 <= i < |pending| ==> IsEdit(ls, pending[i], splices[i])
    ensures Disjoint(splices, |Upto(src, ls)|)
    ensures forall i :: 0 <= i < |splices| ==> ls.InnerStart() <= splices[i].offset < splices[i].end <= |Upto(src, ls)|
  {
    forall i | 0 <= i < |splices|
      ensures ls.InnerStart() <= splices[i].offset < splices[i].end <= |Upto(src, ls)|
    {
      assert IsEdit(ls, pending[i], splices[i]);
    }
    forall i, j | 0 <= i < j < |splices|
      ensures Apart(splices[i], splices[j])
    {
      EditsApart(ls, pending[i], splices[i], pending[j], splices[j]);
    }
  }

  lemma EditsApart(ls: ListSplice, m: Migration, s: Splice, n: Migration, t: Splice)
    requires IsEdit(ls, m, s) && IsEdit(ls, n, t) && Ident(m.oldName) && Ident(n.oldName) && m.oldName != n.oldName
    ensures Apart(s, t)
  {
    hide IsToken;
    var i, j := s.offset - ls.InnerStart(), t.offset - ls.InnerStart();
    if i <= j {
      TokensApart(ls.inner, m.oldName, i, n.oldName, j);
    } else {
      TokensApart(ls.inner, n.oldName, j, m.oldName, i);
    }
  }

  predicate EditedName(text: string, s: Splice, w: string) {
    s.offset <= s.end <= |text| && Old(text, s) == w
  }

  lemma EditIsTokenEdit(src: string, ls: ListSplice, m: Migration, s: Splice, ren: map<string, string>)
    requires Located(src, ls) && IsEdit(ls, m, s) && Ident(m.oldName) && Ident(m.newName)
    requires m.oldName in ren && ren[m.oldName] == m.newName
    ensures TokenEdit(Upto(src, ls), ls.InnerStart(), s, ren) && EditedName(Upto(src, ls), s, m.oldName)
  {
    hide IsToken, Ident;
    var text, k := Upto(src, ls), s.offset - ls.InnerStart();
    assert text[ls.InnerStart()..] == ls.inner;
    TokenText(ls.inner, m.oldName, k);
    TailSlice(text, ls.InnerStart(), s.offset, s.end);
    IdentNonEmpty(m.oldName);
  }

  lemma TokenText(s: string, x: string, i: nat)
    requires IsToken(s, x, i)
    ensures i + |x| <= |s| && s[i..i + |x|] == x
  {}

  lemma TailSlice(text: string, from: nat, a: nat, b: nat)
    requires from <= a <= b <= |text|
    ensures text[a..b] == text[from..][a - from..b - from]
  {}

  // ---- substituting inside a window of the source ----

  lemma {:induction false} WindowEnd(src: string, from: nat, to: nat, splices: seq<Splice>)
    requires to <= |src| && Ascending(splices, from, to)
    ensures Ascending(splices, from, |src|) && Ascending(splices, from, |src[..to]|)
    ensures Substitute(src, from, splices) == Substitute(src[..to], from, splices) + src[to..]
    decreases |splices|
  {
    hide Ascending, Substitute;
    AscendingWider(splices, from, to, |src|);
    if splices == [] {
      NothingSubstituted(src, from);
      NothingSubstituted(src[..to], from);
      assert src[from..] == src[..to][from..] + src[to..];
    } else {
      var s := splices[0];
      AscendingTail(splices, from, to);
      AscendingTail(splices, from, |src|);
      WindowEnd(src, s.Stop(), to, splices[1..]);
      SubstituteStep(src, from, splices);
      SubstituteStep(src[..to], from, splices);
      assert src[from..s.offset] == src[..to][from..s.offset];
      Regroup(src[from..s.offset], s.text, Substitute(src[..to], s.Stop(), splices[1..]), src[to..]);
    }
  }

  lemma Regroup(a: string, b: string, c: string, d: string)
    ensures a + (b + (c + d)) == (a + (b + c)) + d
  {}

  lemma AscendingWider(splices: seq<Splice>, from: nat, to: nat, len: nat)
    requires Ascending(splices, from, to) && to <= len
    ensures Ascending(splices, from, len) && from <= to
    ensures splices != [] ==> from <= splices[0].offset <= splices[0].Stop() <= to
  {}

  lemma WindowStart(src: string, start: nat, splices: seq<Splice>)
    requires Ascending(splices, 0, |src|) && start <= |src| && forall i :: 0 <= i < |splices| ==> start <= splices[i].offset
    ensures Ascending(splices, start, |src|)
    ensures Substitute(src, 0, splices) == src[..start] + Substitute(src, start, splices)
  {
    hide Ascending, Substitute;
    AscendingFrom(splices, start, |src|);
    if splices == [] {
      NothingSubstituted(src, 0);
      NothingSubstituted(src, start);
      assert src[0..] == src[..start] + src[start..];
    } else {
      SubstituteStep(src, 0, splices);
      SubstituteStep(src, start, splices);
      var s := splices[0];
      AscendingTail(splices, 0, |src|);
      assert src[0..s.offset] == src[..start] + src[start..s.offset];
      Associative(src[..start], src[start..s.offset], s.text + Substitute(src, s.Stop(), splices[1..]));
    }
  }

  lemma Associative(a: string, b: string, c: string)
    ensures (a + b) + c == a + (b + c)
  {}

  lemma AscendingFrom(splices: seq<Splice>, start: nat, len: nat)
    requires Ascending(splices, 0, len) && start <= len && forall i :: 0 <= i < |splices| ==> start <= splices[i].offset
    ensures Ascending(splices, start, len)
  {}

  lemma WindowSubstitution(src: string, ls: ListSplice, splices: seq<Splice>)
    requires Located(src, ls) && Ascending(splices, 0, |Upto(src, ls)|)
    requires forall i :: 0 <= i < |splices| ==> ls.InnerStart() <= splices[i].offset
    ensures Ascending(splices, 0, |src|) && Ascending(splices, ls.InnerStart(), |Upto(src, ls)|)
    ensures Substitute(src, 0, splices) ==
            src[..ls.InnerStart()] + Substitute(Upto(src, ls), ls.InnerStart(), splices) + src[ls.closeOff + 1..]
  {
    hide Ascending, Substitute;
    var to := ls.closeOff + 1;
    AscendingWider(splices, 0, to, |src|);
    AscendingFrom(splices, ls.InnerStart(), to);
    WindowStart(src, ls.InnerStart(), splices);
    WindowEnd(src, ls.InnerStart(), to, splices);
  }

  // ---- the theorem ----

  // The migrated list: every pending old name replaced where it stands.
  ghost function NewList(src: string, ls: ListSplice, pending: seq<Migration>): string
    requires Located(src, ls) && Edits(src, ls, pending).Some?
  {
    var splices := InOrder(Edits(src, ls, pending).value);
    if Ascending(splices, ls.InnerStart(), |Upto(src, ls)|) then Substitute(Upto(src, ls), ls.InnerStart(), splices) else ""
  }

  lemma ListIsComplete(src: string, ls: ListSplice, pending: seq<Migration>, splices: seq<Splice>)
    requires Located(src, ls) && Replacements(pending) && |splices| == |pending|
    requires forall i :: 0 <= i < |pending| ==> IsEdit(ls, pending[i], splices[i])
    requires forall i :: 0 <= i < |pending| ==> |Occurrences(ls.inner, pending[i].oldName)| <= 1
    requires Ascending(InOrder(splices), ls.InnerStart(), |Upto(src, ls)|)
    requires forall y :: y in InOrder(splices) <==> y in splices
    ensures Complete(Upto(src, ls), ls.InnerStart(), InOrder(splices), Names(pending))
  {
    hide Ascending, InOrder, Occurrences, TokenEdit, Words, IsToken, IsEdit, Ident, EditedName;
    var text, ordered, ren := Upto(src, ls), InOrder(splices), Names(pending);
    NamesOf(pending);
    assert text[ls.InnerStart()..] == ls.inner;
    forall i | 0 <= i < |splices|
      ensures TokenEdit(text, ls.InnerStart(), splices[i], ren) && EditedName(text, splices[i], pending[i].oldName)
    {
      assert pending[i] in pending;
      EditIsTokenEdit(src, ls, pending[i], splices[i], ren);
    }
    forall i | 0 <= i < |ordered|
      ensures TokenEdit(text, ls.InnerStart(), ordered[i], ren)
    {
      assert ordered[i] in ordered;
    }
    forall w | w in ren
      ensures multiset(Words(ls.inner))[w] <= 1
      ensures exists i :: 0 <= i < |ordered| && EditedName(text, ordered[i], w)
    {
      var m :| m in pending && m.oldName == w;
      OccurrencesAreWords(ls.inner, w);
      EditOf(text, pending, splices, ordered, m);
    }
    CompleteFrom(text, ls.InnerStart(), ordered, ren);
  }

  lemma EditOf(text: string, pending: seq<Migration>, splices: seq<Splice>, ordered: seq<Splice>, m: Migration)
    requires |splices| == |pending| && m in pending && forall y :: y in ordered <==> y in splices
    requires forall i :: 0 <= i < |splices| ==> EditedName(text, splices[i], pending[i].oldName)
    ensures exists i :: 0 <= i < |ordered| && EditedName(text, ordered[i], m.oldName)
  {
    hide EditedName;
    var k :| 0 <= k < |pending| && pending[k] == m;
    assert splices[k] in ordered;
    var i :| 0 <= i < |ordered| && ordered[i] == splices[k];
  }

  lemma CompleteFrom(text: string, from: nat, splices: seq<Splice>, ren: map<string, string>)
    requires Ascending(splices, from, |text|)
    requires forall i :: 0 <= i < |splices| ==> TokenEdit(text, from, splices[i], ren)
    requires forall w :: w in ren ==> multiset(Words(text[from..]))[w] <= 1
    requires forall w :: w in ren ==> exists i :: 0 <= i < |splices| && EditedName(text, splices[i], w)
    ensures Complete(text, from, splices, ren)
  {
    hide Words, IsToken, Ident;
  }

  lemma {:induction false} NotRefused(inner: string, bound: set<string>, pending: seq<Migration>)
    requires FirstRefusal(inner, bound, pending).None?
    ensures forall i :: 0 <= i < |pending| ==> |Occurrences(inner, pending[i].oldName)| <= 1
  {
    hide Occurrences, Bound;
    if pending != [] { NotRefused(inner, bound, pending[1..]); }
  }

  /** A migration that applies rewrites the packages list and nothing else, and in the list it renames exactly the
      pending words. */
  lemma MigrationRenames(src: string, parsed: Parsed, ms: seq<Migration>)
    requires ParserPromise(src, parsed) && Replacements(ms)
    requires Clobbering(src, parsed, ms).Done? && Clobbering(src, parsed, ms).report.applied != []
    ensures var ls, applied := parsed.packages.value, Clobbering(src, parsed, ms).report.applied;
            && applied == WithStatus(ls.inner, ms, Pending) && Edits(src, ls, applied).Some?
            && Clobbering(src, parsed, ms).out ==
               src[..ls.InnerStart()] + NewList(src, ls, applied) + src[ls.closeOff + 1..]
            && Words(NewList(src, ls, applied)) == RenameWords(Words(ls.inner), Names(applied))
  {
    hide Occurrences, CheckElement, ListElementSplice, ApplySequence, Words, IsToken, Ident, IsEdit, RenameWords, Complete,
         Ascending, Disjoint, InOrder, Sort, Substitute, Replacements, Upto;
    var ls := parsed.packages.value;
    var pending := WithStatus(ls.inner, ms, Pending);
    PendingKeepsReplacements(ls.inner, ms, Pending);
    NewNamesNonEmpty(pending);
    var splices := Edits(src, ls, pending).value;
    EditsAre(src, ls, pending);
    NotRefused(ls.inner, parsed.bound, pending);
    AppliedEdits(src, ls, pending, splices);
  }

  /** A replacement migration applies exactly when nothing is ambiguous, something is to be done, nothing is done yet and no
      element is barred. */
  lemma MigrationAppliesIff(src: string, parsed: Parsed, ms: seq<Migration>, ls: ListSplice)
    requires Editable(src, parsed, ls) && Replacements(ms)
    ensures Clobbering(src, parsed, ms).Done? && Clobbering(src, parsed, ms).report.applied != [] <==>
            Untouched(ls.inner, ms) && forall m :: m in ms ==> !Barred(ls.inner, parsed.bound, m)
  {
    hide Occurrences, CheckElement, ListElementSplice, ApplySequence, WithStatus, Sort, Replacements, Edits, FirstRefusal,
         InConflict, ToDo, IsDone, Barred, Clobbering, IsEdit, NewList, RenameWords, Words;
    StateRefusals(src, parsed, ms, ls);
    if Untouched(ls.inner, ms) {
      ElementRefusals(src, parsed, ms, ls);
      if forall m :: m in ms ==> !Barred(ls.inner, parsed.bound, m) {
        NoRefusal(ls.inner, parsed.bound, ms);
        Applies(src, parsed, ms, ls);
      } else {
        FirstBarred(src, parsed, ms, ls);
      }
    }
  }

  lemma FirstBarred(src: string, parsed: Parsed, ms: seq<Migration>, ls: ListSplice)
    requires Editable(src, parsed, ls) && Untouched(ls.inner, ms) && exists m :: m in ms && Barred(ls.inner, parsed.bound, m)
    ensures Clobbering(src, parsed, ms).Failed?
  {
    hide Clobbering, Barred, InConflict, ToDo, IsDone, StandsTwice, Edits, ApplySequence, Sort, WithStatus, Located;
    ElementRefusals(src, parsed, ms, ls);
    var k := LeastBarred(ls.inner, parsed.bound, ms);
  }

  lemma LeastBarred(inner: string, bound: set<string>, ms: seq<Migration>) returns (k: nat)
    requires exists m :: m in ms && Barred(inner, bound, m)
    ensures k < |ms| && Barred(inner, bound, ms[k]) && forall j :: 0 <= j < k ==> !Barred(inner, bound, ms[j])
  {
    hide Barred;
    k := 0;
    while k < |ms| && !Barred(inner, bound, ms[k])
      invariant k <= |ms| && forall j :: 0 <= j < k ==> !Barred(inner, bound, ms[j])
    {
      k := k + 1;
    }
  }

  lemma Applies(src: string, parsed: Parsed, ms: seq<Migration>, ls: ListSplice)
    requires Editable(src, parsed, ls) && Replacements(ms) && Untouched(ls.inner, ms)
    requires (forall m :: m in ms ==> !Barred(ls.inner, parsed.bound, m))
    requires FirstRefusal(ls.inner, parsed.bound, WithStatus(ls.inner, ms, Pending)).None?
    ensures Clobbering(src, parsed, ms).Done? && Clobbering(src, parsed, ms).report.applied != []
  {
    hide Occurrences, CheckElement, ListElementSplice, ApplySequence, WithStatus, Sort, Replacements, Edits, FirstRefusal,
         InConflict, ToDo, IsDone, Barred, Clobbering, IsEdit, NewList, RenameWords, Words, Upto, Names;
    ElementRefusals(src, parsed, ms, ls);
    var pending := WithStatus(ls.inner, ms, Pending);
    PendingKeepsReplacements(ls.inner, ms, Pending);
    NewNamesNonEmpty(pending);
    EditsAre(src, ls, pending);
    NotRefused(ls.inner, parsed.bound, pending);
    AppliedEdits(src, ls, pending, Edits(src, ls, pending).value);
    SomePending(ls.inner, ms);
  }

  lemma SomePending(inner: string, ms: seq<Migration>)
    requires Untouched(inner, ms)
    ensures WithStatus(inner, ms, Pending) != []
  {
    hide CheckElement, ToDo, InConflict, IsDone, WithStatus;
    var m :| m in ms && ToDo(inner, m);
    StatusIff(inner, m);
    HasStatus(inner, ms, Pending);
  }

  lemma NewNamesNonEmpty(pending: seq<Migration>)
    requires Replacements(pending)
    ensures forall i :: 0 <= i < |pending| ==> pending[i].newName != ""
  {}

  lemma AppliedEdits(src: string, ls: ListSplice, pending: seq<Migration>, splices: seq<Splice>)
    requires Located(src, ls) && Replacements(pending) && Edits(src, ls, pending) == Some(splices) && |splices| == |pending|
    requires forall i :: 0 <= i < |pending| ==> IsEdit(ls, pending[i], splices[i])
    requires forall i :: 0 <= i < |pending| ==> |Occurrences(ls.inner, pending[i].oldName)| <= 1
    ensures ApplySequence(src, Sort(HigherFirst, splices)) ==
            Some(src[..ls.InnerStart()] + NewList(src, ls, pending) + src[ls.closeOff + 1..])
    ensures Words(NewList(src, ls, pending)) == RenameWords(Words(ls.inner), Names(pending))
  {
    hide Occurrences, ApplySequence, Words, IsToken, Ident, IsEdit, RenameWords, Complete,
         Ascending, Disjoint, InOrder, Sort, Substitute, Replacements, Edits, Names;
    EditsDisjoint(src, ls, pending, splices);
    DisjointInside(splices, |Upto(src, ls)|, |src|);
    SequenceIsSubstitution(src, splices);
    InOrderAscending(splices, |Upto(src, ls)|);
    forall i | 0 <= i < |InOrder(splices)|
      ensures ls.InnerStart() <= InOrder(splices)[i].offset
    {
      assert InOrder(splices)[i] in InOrder(splices);
    }
    WindowSubstitution(src, ls, InOrder(splices));
    ListIsComplete(src, ls, pending, splices);
    RenameTail(Upto(src, ls), ls.InnerStart(), InOrder(splices), Names(pending));
    assert Upto(src, ls)[ls.InnerStart()..] == ls.inner;
  }

  lemma DisjointInside(splices: seq<Splice>, inside: nat, len: nat)
    requires Disjoint(splices, inside) && inside <= len
    ensures Disjoint(splices, len)
  {}

  // ---- what the renamed list holds ----

  lemma RenamedMembers(ws: seq<string>, ren: map<string, string>, x: string)
    ensures x in RenameWords(ws, ren) <==> exists w :: w in ws && Renamed(w, ren) == x
  {
    var out := RenameWords(ws, ren);
    if x in out {
      var i :| 0 <= i < |out| && out[i] == x;
      assert ws[i] in ws;
    }
    if exists w :: w in ws && Renamed(w, ren) == x {
      var w :| w in ws && Renamed(w, ren) == x;
      var i :| 0 <= i < |ws| && ws[i] == w;
      assert out[i] == x;
    }
  }

  // The new name appears once per occurrence of the old one, when it was absent and no other old name maps to it.
  lemma {:induction false} RenamedCount(ws: seq<string>, ren: map<string, string>, w: string)
    requires w in ren && w != ren[w] && ren[w] !in ws && ren[w] !in ren && forall v :: v in ren && ren[v] == ren[w] ==> v == w
    ensures multiset(RenameWords(ws, ren))[ren[w]] == multiset(ws)[w]
  {
    if ws != [] {
      RenamedCount(ws[1..], ren, w);
      RenameConcat([ws[0]], ws[1..], ren);
      assert ws == [ws[0]] + ws[1..];
      assert multiset(ws) == multiset{ws[0]} + multiset(ws[1..]);
      assert RenameWords([ws[0]], ren) == [Renamed(ws[0], ren)];
      assert multiset(RenameWords(ws, ren)) == multiset{Renamed(ws[0], ren)} + multiset(RenameWords(ws[1..], ren));
    } else {
      assert RenameWords(ws, ren) == [];
    }
  }

  lemma {:induction false} DistinctNames(ms: seq<Migration>, m: Migration, n: Migration)
    requires Replacements(ms) && m in ms && n in ms
    ensures m.oldName != n.newName && (m != n ==> m.oldName != n.oldName && m.newName != n.newName)
    ensures Ident(m.oldName) && Ident(m.newName)
  {
    hide Ident;
  }

  lemma StatusAsWords(inner: string, m: Migration)
    requires Ident(m.oldName) && Ident(m.newName)
    ensures CheckElement(inner, m) == (
      var hasOld, hasNew := m.oldName in Words(inner), m.newName in Words(inner);
      if hasOld && hasNew then Conflict else if hasOld then Pending else if hasNew then Satisfied else Unknown)
    ensures |Occurrences(inner, m.oldName)| <= 1 ==> multiset(Words(inner))[m.oldName] <= 1
  {
    hide Words, Occurrences;
    OccurrencesAreWords(inner, m.oldName);
    OccurrencesAreWords(inner, m.newName);
    IdentNonEmpty(m.newName);
    var ws := Words(inner);
    assert m.oldName in ws <==> multiset(ws)[m.oldName] > 0;
    assert m.newName in ws <==> multiset(ws)[m.newName] > 0;
  }

  /** In a list whose applied old names are renamed, each is gone and its new name stands there exactly once. */
  lemma RenamedOnce(ms: seq<Migration>, m: Migration, ws: seq<string>)
    requires Replacements(ms) && m in ms && multiset(ws)[m.oldName] <= 1 && m.oldName in ws && m.newName !in ws
    ensures m.oldName !in RenameWords(ws, Names(ms)) && multiset(RenameWords(ws, Names(ms)))[m.newName] == 1
  {
    hide Ident, Replacements, Names, RenameWords;
    var ren := Names(ms);
    NamesOf(ms);
    OldNameGone(ms, m, ws);
    NewNameFresh(ms, m);
    RenamedCount(ws, ren, m.oldName);
    assert m.oldName in ws <==> multiset(ws)[m.oldName] > 0;
  }

  lemma NewNameFresh(ms: seq<Migration>, m: Migration)
    requires Replacements(ms) && m in ms
    ensures m.newName !in Names(ms) && m.newName != m.oldName
    ensures forall v :: v in Names(ms) && Names(ms)[v] == m.newName ==> v == m.oldName
  {
    hide Ident, Replacements, Names;
    var ren := Names(ms);
    NamesOf(ms);
    DistinctNames(ms, m, m);
    forall v | v in ren
      ensures v != m.newName && (ren[v] == m.newName ==> v == m.oldName)
    {
      var n :| n in ms && n.oldName == v;
      DistinctNames(ms, n, m);
    }
  }

  // No renamed word is an old name again.
  lemma OldNameGone(ms: seq<Migration>, m: Migration, ws: seq<string>)
    requires Replacements(ms) && m in ms
    ensures m.oldName !in RenameWords(ws, Names(ms))
  {
    hide Ident, Replacements, Names, RenameWords;
    var ren := Names(ms);
    NamesOf(ms);
    RenamedMembers(ws, ren, m.oldName);
    forall w | w in ws
      ensures Renamed(w, ren) != m.oldName
    {
      if w in ren {
        var n :| n in ms && n.oldName == w;
        DistinctNames(ms, m, n);
      }
    }
  }

  // A migration that did not apply to the list does not apply to the renamed list either.
  lemma UnknownStays(ms: seq<Migration>, applied: seq<Migration>, m: Migration, ws: seq<string>)
    requires Replacements(ms) && Replacements(applied) && m in ms && m !in applied && forall n :: n in applied ==> n in ms
    requires m.oldName !in ws && m.newName !in ws
    ensures m.oldName !in RenameWords(ws, Names(applied)) && m.newName !in RenameWords(ws, Names(applied))
  {
    hide Ident, Replacements, Names, RenameWords;
    var ren := Names(applied);
    NamesOf(applied);
    RenamedMembers(ws, ren, m.oldName);
    RenamedMembers(ws, ren, m.newName);
    forall w | w in ws
      ensures Renamed(w, ren) != m.oldName && Renamed(w, ren) != m.newName
    {
      if w in ren {
        var n :| n in applied && n.oldName == w;
        DistinctNames(ms, m, n);
      }
    }
  }

  // ---- running it again ----

  lemma {:induction false} SameSelection(a: string, s: Status, b: string, t: Status, ms: seq<Migration>)
    requires forall m :: m in ms ==> (CheckElement(a, m) == s <==> CheckElement(b, m) == t)
    ensures WithStatus(a, ms, s) == WithStatus(b, ms, t)
  {
    hide CheckElement;
    if ms != [] {
      assert ms[0] in ms && forall m :: m in ms[1..] ==> m in ms;
      SameSelection(a, s, b, t, ms[1..]);
    }
  }

  // How each migration stands towards the renamed list.
  lemma StatusAfter(inner: string, again: string, ms: seq<Migration>, applied: seq<Migration>, m: Migration)
    requires Replacements(ms) && Replacements(applied) && applied == WithStatus(inner, ms, Pending) && m in ms
    requires Words(again) == RenameWords(Words(inner), Names(applied))
    requires forall n :: n in applied ==> |Occurrences(inner, n.oldName)| <= 1
    ensures CheckElement(inner, m) == Pending ==>
              CheckElement(again, m) == Satisfied && multiset(Words(again))[m.newName] == 1 && m.oldName !in Words(again)
    ensures CheckElement(inner, m) == Unknown ==> CheckElement(again, m) == Unknown
  {
    hide Words, Occurrences, RenameWords, Names, Replacements, WithStatus, Ident, CheckElement;
    WithStatusMembers(inner, ms, Pending);
    DistinctNames(ms, m, m);
    StatusAsWords(inner, m);
    StatusAsWords(again, m);
    if CheckElement(inner, m) == Pending {
      RenamedOnce(applied, m, Words(inner));
      assert m.newName in Words(again);
    } else if CheckElement(inner, m) == Unknown {
      UnknownStays(ms, applied, m, Words(inner));
    }
  }

  // The list as the parser finds it again after the migration.
  ghost function Relocated(src: string, ls: ListSplice, applied: seq<Migration>): (again: ListSplice)
    requires Located(src, ls) && Edits(src, ls, applied).Some? && NewList(src, ls, applied) != ""
  {
    ListSplice(ls.InnerStart() + |NewList(src, ls, applied)| - 1, NewList(src, ls, applied))
  }

  /** Every applied old name is gone from the migrated list, and its new name stands in it exactly once. */
  lemma MigrationReplaces(src: string, parsed: Parsed, ms: seq<Migration>, m: Migration)
    requires ParserPromise(src, parsed) && Replacements(ms)
    requires Clobbering(src, parsed, ms).Done? && m in Clobbering(src, parsed, ms).report.applied
    ensures var ls, applied := parsed.packages.value, Clobbering(src, parsed, ms).report.applied;
            && Edits(src, ls, applied).Some?
            && m.oldName !in Words(NewList(src, ls, applied)) && multiset(Words(NewList(src, ls, applied)))[m.newName] == 1
  {
    hide Occurrences, CheckElement, ListElementSplice, ApplySequence, Words, Ident, RenameWords, Replacements, NewList,
         Names, WithStatus, Edits, Sort;
    MigrationRenames(src, parsed, ms);
    var ls, applied := parsed.packages.value, Clobbering(src, parsed, ms).report.applied;
    Selected(ls.inner, parsed.bound, ms);
    StatusAfter(ls.inner, NewList(src, ls, applied), ms, applied, m);
  }

  // What the pending migrations are known to be once none is refused.
  lemma Selected(inner: string, bound: set<string>, ms: seq<Migration>)
    requires Replacements(ms) && FirstRefusal(inner, bound, WithStatus(inner, ms, Pending)).None?
    ensures var applied := WithStatus(inner, ms, Pending);
            && Replacements(applied)
            && (forall n :: n in applied <==> n in ms && CheckElement(inner, n) == Pending)
            && (forall n :: n in applied ==> |Occurrences(inner, n.oldName)| <= 1)
  {
    hide Occurrences, CheckElement, Replacements, WithStatus, FirstRefusal;
    PendingKeepsReplacements(inner, ms, Pending);
    NotRefused(inner, bound, WithStatus(inner, ms, Pending));
    WithStatusMembers(inner, ms, Pending);
  }

  lemma OnlyPendingOrUnknown(src: string, parsed: Parsed, ms: seq<Migration>, m: Migration)
    requires ParserPromise(src, parsed) && Clobbering(src, parsed, ms).Done? && m in ms
    requires Clobbering(src, parsed, ms).report.applied != []
    ensures CheckElement(parsed.packages.value.inner, m) in {Pending, Unknown}
  {
    hide Occurrences, CheckElement, ListElementSplice, ApplySequence, WithStatus, Edits, Sort;
    var inner := parsed.packages.value.inner;
    WithStatusMembers(inner, ms, Conflict);
    WithStatusMembers(inner, ms, Satisfied);
  }

  /** Running the migration on its own output changes nothing: what was applied is found satisfied, the rest unknown.
      The reparse is taken to find the rewritten list where it now stands. */
  lemma MigrationIdempotent(src: string, parsed: Parsed, ms: seq<Migration>, again: Parsed)
    requires ParserPromise(src, parsed) && Replacements(ms)
    requires Clobbering(src, parsed, ms).Done? && Clobbering(src, parsed, ms).report.applied != []
    requires again.Outputs? && !again.shadowed && again.packages.Some?
    requires var ls, applied := parsed.packages.value, Clobbering(src, parsed, ms).report.applied;
             Edits(src, ls, applied).Some? && NewList(src, ls, applied) != "" ==>
               again.packages.value == Relocated(src, ls, applied)
    ensures var first := Clobbering(src, parsed, ms);
            && ParserPromise(first.out, again)
            && Clobbering(first.out, again, ms) == Done(first.out, Report([], first.report.applied, first.report.notApplicable))
  {
    hide Occurrences, CheckElement, ListElementSplice, ApplySequence, Words, Ident, RenameWords, Replacements, NewList,
         Names, WithStatus, Edits, Sort, FirstRefusal;
    MigrationRenames(src, parsed, ms);
    var ls, first := parsed.packages.value, Clobbering(src, parsed, ms);
    var applied, list := first.report.applied, NewList(src, ls, first.report.applied);
    Selected(ls.inner, parsed.bound, ms);
    forall m | m in ms
      ensures CheckElement(ls.inner, m) == Pending <==> CheckElement(list, m) == Satisfied
      ensures CheckElement(ls.inner, m) == Unknown <==> CheckElement(list, m) == Unknown
      ensures CheckElement(list, m) in {Satisfied, Unknown}
    {
      StatusAfter(ls.inner, list, ms, applied, m);
      OnlyPendingOrUnknown(src, parsed, ms, m);
    }
    NotEmptied(list, ms, applied);
    Found(src, ls, list);
    SameSelection(ls.inner, Pending, list, Satisfied, ms);
    SameSelection(ls.inner, Unknown, list, Unknown, ms);
    NoneWithStatus(list, ms, Conflict);
    NoneWithStatus(list, ms, Pending);
    assert again.packages.value.inner == list;
  }

  lemma {:induction false} NoneWithStatus(inner: string, ms: seq<Migration>, s: Status)
    requires forall m :: m in ms ==> CheckElement(inner, m) != s
    ensures WithStatus(inner, ms, s) == []
  {
    hide CheckElement;
    if ms != [] {
      assert ms[0] in ms && forall m :: m in ms[1..] ==> m in ms;
      NoneWithStatus(inner, ms[1..], s);
    }
  }

  lemma Found(src: string, ls: ListSplice, list: string)
    requires Located(src, ls) && list != ""
    ensures Located(src[..ls.InnerStart()] + list + src[ls.closeOff + 1..], ListSplice(ls.InnerStart() + |list| - 1, list))
  {}

  lemma NotEmptied(list: string, ms: seq<Migration>, applied: seq<Migration>)
    requires applied != [] && (forall m :: m in applied ==> m in ms && CheckElement(list, m) == Satisfied)
    requires Replacements(ms)
    ensures list != ""
  {
    hide CheckElement;
    var m := applied[0];
    assert m in applied;
    DistinctNames(ms, m, m);
    StatusAsWords(list, m);
  }

  // ---- byte by byte ----

  // The gaps with the words in between.
  function Weave(gaps: seq<string>, words: seq<string>): string
    requires |gaps| == |words| + 1
  {
    if words == [] then gaps[0] else gaps[0] + (words[0] + Weave(gaps[1..], words[1..]))
  }

  predicate InText(text: string, splices: seq<Splice>) {
    forall i :: 0 <= i < |splices| ==> splices[i].offset < splices[i].end <= |text|
  }

  function OldTexts(text: string, splices: seq<Splice>): seq<string>
    requires InText(text, splices)
  {
    seq(|splices|, i requires 0 <= i < |splices| => Old(text, splices[i]))
  }

  function NewTexts(splices: seq<Splice>): seq<string> {
    seq(|splices|, i requires 0 <= i < |splices| => splices[i].text)
  }

  // What stands before, between and behind the splices.
  function Gaps(text: string, from: nat, splices: seq<Splice>): (gaps: seq<string>)
    requires Ascending(splices, from, |text|)
    ensures |gaps| == |splices| + 1
    decreases |splices|
  {
    if splices == [] then [text[from..]]
    else [text[from..splices[0].offset]] + Gaps(text, splices[0].Stop(), splices[1..])
  }

  lemma WovenTexts(text: string, from: nat, splices: seq<Splice>)
    requires Ascending(splices, from, |text|) && InText(text, splices)
    ensures text[from..] == Weave(Gaps(text, from, splices), OldTexts(text, splices))
    ensures Substitute(text, from, splices) == Weave(Gaps(text, from, splices), NewTexts(splices))
  {
    hide Ascending, Substitute, Gaps, Weave, OldTexts, NewTexts;
    WovenOld(text, from, splices);
    WovenNew(text, from, splices);
  }

  lemma {:induction false} WovenOld(text: string, from: nat, splices: seq<Splice>)
    requires Ascending(splices, from, |text|) && InText(text, splices)
    ensures text[from..] == Weave(Gaps(text, from, splices), OldTexts(text, splices))
    decreases |splices|
  {
    hide Ascending;
    AscendingWider(splices, from, |text|, |text|);
    if splices != [] {
      var s, rest := splices[0], splices[1..];
      AscendingTail(splices, from, |text|);
      WovenOld(text, s.end, rest);
      var gaps := Gaps(text, from, splices);
      assert gaps[1..] == Gaps(text, s.end, rest) && gaps[0] == text[from..s.offset];
      assert OldTexts(text, splices)[1..] == OldTexts(text, rest);
      assert text[from..] == text[from..s.offset] + (text[s.offset..s.end] + text[s.end..]);
    }
  }

  lemma {:induction false} WovenNew(text: string, from: nat, splices: seq<Splice>)
    requires Ascending(splices, from, |text|) && InText(text, splices)
    ensures Substitute(text, from, splices) == Weave(Gaps(text, from, splices), NewTexts(splices))
    decreases |splices|
  {
    hide Ascending, Substitute;
    AscendingWider(splices, from, |text|, |text|);
    if splices == [] {
      NothingSubstituted(text, from);
    } else {
      var s, rest := splices[0], splices[1..];
      AscendingTail(splices, from, |text|);
      WovenNew(text, s.end, rest);
      SubstituteStep(text, from, splices);
      var gaps := Gaps(text, from, splices);
      assert gaps[1..] == Gaps(text, s.end, rest) && gaps[0] == text[from..s.offset];
      assert NewTexts(splices)[1..] == NewTexts(rest);
    }
  }

  function OldNames(ms: seq<Migration>): seq<string> {
    seq(|ms|, i requires 0 <= i < |ms| => ms[i].oldName)
  }

  function NewNames(ms: seq<Migration>): seq<string> {
    seq(|ms|, i requires 0 <= i < |ms| => ms[i].newName)
  }

  // Before and after are the same gaps, once with the old names in between and once with the new ones, each
  // migration at one place.
  ghost predicate RewrittenInPlace(before: string, after: string, ms: seq<Migration>) {
    exists gaps, order :: RewrittenAt(before, after, ms, gaps, order)
  }

  ghost predicate RewrittenAt(before: string, after: string, ms: seq<Migration>, gaps: seq<string>,
                              order: seq<Migration>) {
    && |order| == |ms| && |gaps| == |order| + 1 && (forall m :: m in order <==> m in ms)
    && before == Weave(gaps, OldNames(order)) && after == Weave(gaps, NewNames(order))
  }

  // The migration each splice belongs to.
  ghost function Owner(ls: ListSplice, ms: seq<Migration>, s: Splice): Migration
    requires exists m :: m in ms && IsEdit(ls, m, s)
  {
    var m :| m in ms && IsEdit(ls, m, s);
    m
  }

  ghost predicate Owned(ls: ListSplice, ms: seq<Migration>, splices: seq<Splice>) {
    forall i :: 0 <= i < |splices| ==> exists m :: m in ms && IsEdit(ls, m, splices[i])
  }

  ghost function Owners(ls: ListSplice, ms: seq<Migration>, splices: seq<Splice>): seq<Migration>
    requires Owned(ls, ms, splices)
  {
    seq(|splices|, i requires 0 <= i < |splices| => Owner(ls, ms, splices[i]))
  }

  // A splice edits for one migration only.
  lemma OwnerUnique(ls: ListSplice, ms: seq<Migration>, s: Splice, m: Migration)
    requires Replacements(ms) && m in ms && IsEdit(ls, m, s)
    ensures Owner(ls, ms, s) == m
  {
    hide IsToken, Ident, Replacements;
    var n := Owner(ls, ms, s);
    DistinctNames(ms, m, n);
    TokenText(ls.inner, m.oldName, s.offset - ls.InnerStart());
    TokenText(ls.inner, n.oldName, s.offset - ls.InnerStart());
  }

  lemma OwnersTexts(src: string, ls: ListSplice, ms: seq<Migration>, splices: seq<Splice>)
    requires Located(src, ls) && Replacements(ms) && Owned(ls, ms, splices) && InText(Upto(src, ls), splices)
    ensures OldNames(Owners(ls, ms, splices)) == OldTexts(Upto(src, ls), splices)
    ensures NewNames(Owners(ls, ms, splices)) == NewTexts(splices)
  {
    hide IsToken, Ident, Replacements, IsEdit;
    forall i | 0 <= i < |splices|
      ensures Owner(ls, ms, splices[i]).oldName == Old(Upto(src, ls), splices[i])
      ensures Owner(ls, ms, splices[i]).newName == splices[i].text
    {
      OwnerText(src, ls, Owner(ls, ms, splices[i]), splices[i]);
    }
  }

  lemma OwnerText(src: string, ls: ListSplice, m: Migration, s: Splice)
    requires Located(src, ls) && IsEdit(ls, m, s) && s.offset < s.end <= |Upto(src, ls)|
    ensures m.oldName == Old(Upto(src, ls), s) && m.newName == s.text
  {
    hide IsToken;
    assert Upto(src, ls)[ls.InnerStart()..] == ls.inner;
    TokenText(ls.inner, m.oldName, s.offset - ls.InnerStart());
    TailSlice(Upto(src, ls), ls.InnerStart(), s.offset, s.end);
  }

  lemma OrderedOwners(ls: ListSplice, ms: seq<Migration>, splices: seq<Splice>, ordered: seq<Splice>)
    requires Replacements(ms) && |splices| == |ms| && forall i :: 0 <= i < |ms| ==> IsEdit(ls, ms[i], splices[i])
    requires forall s :: s in ordered <==> s in splices
    ensures Owned(ls, ms, ordered) && forall m :: m in Owners(ls, ms, ordered) <==> m in ms
  {
    hide IsEdit, Replacements;
    forall i | 0 <= i < |ordered|
      ensures exists m :: m in ms && IsEdit(ls, m, ordered[i])
    {
      assert ordered[i] in splices;
      var k :| 0 <= k < |splices| && splices[k] == ordered[i];
      assert ms[k] in ms && IsEdit(ls, ms[k], ordered[i]);
    }
    forall m | m in ms
      ensures m in Owners(ls, ms, ordered)
    {
      var k :| 0 <= k < |ms| && ms[k] == m;
      assert splices[k] in ordered;
      var i :| 0 <= i < |ordered| && ordered[i] == splices[k];
      OwnerUnique(ls, ms, ordered[i], m);
      assert Owners(ls, ms, ordered)[i] == m;
    }
  }

  lemma InPlace(src: string, ls: ListSplice, ms: seq<Migration>, splices: seq<Splice>)
    requires Located(src, ls) && Replacements(ms) && Edits(src, ls, ms) == Some(splices) && |splices| == |ms|
    requires forall i :: 0 <= i < |ms| ==> IsEdit(ls, ms[i], splices[i])
    ensures RewrittenInPlace(ls.inner, NewList(src, ls, ms), ms)
  {
    hide IsEdit, Replacements, Ascending, Disjoint, InOrder, Substitute, Edits, Owners, Owned, Upto;
    var text, ordered := Upto(src, ls), InOrder(splices);
    EditsDisjoint(src, ls, ms, splices);
    InOrderAscending(splices, |text|);
    forall i | 0 <= i < |ordered|
      ensures ls.InnerStart() <= ordered[i].offset < ordered[i].end <= |text|
    {
      assert ordered[i] in splices;
    }
    StartInText(src, ls);
    AscendingFrom(ordered, ls.InnerStart(), |text|);
    WovenTexts(text, ls.InnerStart(), ordered);
    OrderedOwners(ls, ms, splices, ordered);
    OwnersTexts(src, ls, ms, ordered);
    OwnersLength(ls, ms, ordered);
    assert RewrittenAt(ls.inner, NewList(src, ls, ms), ms, Gaps(text, ls.InnerStart(), ordered), Owners(ls, ms, ordered));
  }

  lemma OwnersLength(ls: ListSplice, ms: seq<Migration>, splices: seq<Splice>)
    requires Owned(ls, ms, splices)
    ensures |Owners(ls, ms, splices)| == |splices|
  {}

  lemma StartInText(src: string, ls: ListSplice)
    requires Located(src, ls)
    ensures 0 <= ls.InnerStart() <= |Upto(src, ls)| && Upto(src, ls)[ls.InnerStart()..] == ls.inner
  {}

  /** Byte by byte: the migrated list is the original list with each applied old name replaced by its new name where it
      stood, and every byte between them as it was. */
  lemma MigrationInPlace(src: string, parsed: Parsed, ms: seq<Migration>)
    requires ParserPromise(src, parsed) && Replacements(ms)
    requires Clobbering(src, parsed, ms).Done? && Clobbering(src, parsed, ms).report.applied != []
    ensures var ls, applied := parsed.packages.value, Clobbering(src, parsed, ms).report.applied;
            Edits(src, ls, applied).Some? && RewrittenInPlace(ls.inner, NewList(src, ls, applied), applied)
  {
    hide Occurrences, CheckElement, ListElementSplice, ApplySequence, Ident, Replacements, NewList, WithStatus, Edits, Sort,
         IsEdit, RewrittenInPlace;
    MigrationRenames(src, parsed, ms);
    var ls, applied := parsed.packages.value, Clobbering(src, parsed, ms).report.applied;
    Selected(ls.inner, parsed.bound, ms);
    NewNamesNonEmpty(applied);
    EditsAre(src, ls, applied);
    InPlace(src, ls, applied, Edits(src, ls, applied).value);
  }
}
