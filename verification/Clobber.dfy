/** Fleet migrations of the devShell packages list: element-wise, all or nothing. */
module Clobber {
  import opened Optional
  import opened Order
  import opened Splicing
  import opened Strings
  import opened Tokens

  // A list element to replace; an empty replacement deletes it.
  datatype Migration = Migration(oldName: string, newName: string)

  datatype Status = Pending | Satisfied | Unknown | Conflict

  // The list's full text, brackets included, and the offset of its closing bracket.
  datatype ListSplice = ListSplice(closeOff: nat, inner: string) {
    function InnerStart(): int {
      closeOff - |inner| + 1
    }
  }

  /** What the parser finds in a flake: whether a trailing merge shadows the list, the list, the bound names. */
  datatype Parsed = Unrecognized | Outputs(shadowed: bool, packages: Option<ListSplice>, bound: set<string>)

  datatype Error =
    | UnrecognizedShape
    | ShadowedTarget
    | NoDevShell
    | AmbiguousState(m: Migration)
    | PartialState
    | DuplicateElement(m: Migration)
    | UnboundElement(m: Migration)
    | NoSpan(m: Migration)
    | OutOfRange

  datatype Report = Report(applied: seq<Migration>, satisfied: seq<Migration>, notApplicable: seq<Migration>)

  datatype Clobbered = Done(out: string, report: Report) | Failed(out: string, error: Error)

  // ---- classification ----

  function CheckElement(inner: string, m: Migration): Status {
    var hasOld := Occurrences(inner, m.oldName) != [];
    if m.newName == "" then if hasOld then Pending else Satisfied
    else
      var hasNew := Occurrences(inner, m.newName) != [];
      if hasOld && hasNew then Conflict else if hasOld then Pending else if hasNew then Satisfied else Unknown
  }

  function WithStatus(inner: string, ms: seq<Migration>, s: Status): seq<Migration> {
    if ms == [] then []
    else (if CheckElement(inner, ms[0]) == s then [ms[0]] else []) + WithStatus(inner, ms[1..], s)
  }

  lemma {:induction false} WithStatusMembers(inner: string, ms: seq<Migration>, s: Status)
    ensures forall m :: m in WithStatus(inner, ms, s) <==> m in ms && CheckElement(inner, m) == s
  {
    hide CheckElement;
    if ms != [] {
      WithStatusMembers(inner, ms[1..], s);
      assert ms == [ms[0]] + ms[1..];
    }
  }

  predicate Bound(bound: set<string>, replacement: string) {
    replacement == "" || '.' in replacement || replacement in bound
  }

  // The first pending migration that must not be applied, if any.
  function FirstRefusal(inner: string, bound: set<string>, pending: seq<Migration>): Option<Error> {
    if pending == [] then None
    else if |Occurrences(inner, pending[0].oldName)| > 1 then Some(DuplicateElement(pending[0]))
    else if !Bound(bound, pending[0].newName) then Some(UnboundElement(pending[0]))
    else FirstRefusal(inner, bound, pending[1..])
  }

  // ---- the edits ----

  function LineStart(src: string, off: nat): (k: nat)
    requires off <= |src|
    ensures k <= off
  {
    if off > 0 && src[off - 1] != '\n' then LineStart(src, off - 1) else off
  }

  // Just past the newline that ends the line, or the end of the text.
  function LineEnd(src: string, off: nat): (k: nat)
    requires off <= |src|
    ensures off <= k <= |src|
    decreases |src| - off
  {
    if off == |src| then off else if src[off] == '\n' then off + 1 else LineEnd(src, off + 1)
  }

  function RemoveAll(s: string, x: string): string
    decreases |s|
  {
    if x == "" || s == "" then s
    else if |x| <= |s| && s[..|x|] == x then RemoveAll(s[|x|..], x)
    else [s[0]] + RemoveAll(s[1..], x)
  }

  predicate Blank(s: string) {
    forall c :: c in s ==> UnicodeSpace(c)
  }

  // Replaces the first complete-token occurrence, or removes it with its line when nothing else is on it.
  function ListElementSplice(src: string, ls: ListSplice, m: Migration): Option<Splice>
    requires Located(src, ls)
  {
    var found := Occurrences(ls.inner, m.oldName);
    if found == [] then None
    else
      OccurrenceInside(ls.inner, m.oldName);
      var start := ls.InnerStart() + found[0];
      var end := start + |m.oldName|;
      if m.newName != "" then Some(Splice(start, end, m.newName))
      else
        var line := src[LineStart(src, start)..LineEnd(src, end)];
        if Blank(RemoveAll(line, m.oldName)) then Some(Splice(LineStart(src, start), LineEnd(src, end), ""))
        else Some(Splice(start, end, ""))
  }

  // The parser's promise about a list it reports.
  predicate Located(src: string, ls: ListSplice) {
    ls.InnerStart() >= 0 && ls.closeOff < |src| && src[ls.InnerStart()..ls.closeOff + 1] == ls.inner
  }

  lemma OccurrenceInside(inner: string, x: string)
    requires Occurrences(inner, x) != []
    ensures x != "" && IsToken(inner, x, Occurrences(inner, x)[0])
  {
    OccurrencesAreTokens(inner, x);
    assert Occurrences(inner, x)[0] in Occurrences(inner, x);
  }

  // The edits of the pending migrations, in their order.
  function Edits(src: string, ls: ListSplice, pending: seq<Migration>): Option<seq<Splice>>
    requires Located(src, ls)
  {
    if pending == [] then Some([])
    else match (ListElementSplice(src, ls, pending[0]), Edits(src, ls, pending[1..]))
         case (Some(s), Some(rest)) => Some([s] + rest)
         case _ => None
  }

  // ---- the whole migration ----

  predicate ParserPromise(src: string, parsed: Parsed) {
    parsed.Outputs? && parsed.packages.Some? ==> Located(src, parsed.packages.value)
  }

  function Clobbering(src: string, parsed: Parsed, ms: seq<Migration>): Clobbered
    requires ParserPromise(src, parsed)
  {
    if parsed.Unrecognized? then Failed(src, UnrecognizedShape)
    else if parsed.shadowed then Failed(src, ShadowedTarget)
    else if parsed.packages.None? then Failed(src, NoDevShell)
    else
      var ls := parsed.packages.value;
      var conflicts := WithStatus(ls.inner, ms, Conflict);
      var pending := WithStatus(ls.inner, ms, Pending);
      var satisfied := WithStatus(ls.inner, ms, Satisfied);
      if conflicts != [] then Failed(src, AmbiguousState(conflicts[0]))
      else if pending == [] then Done(src, Report([], satisfied, WithStatus(ls.inner, ms, Unknown)))
      else if satisfied != [] then Failed(src, PartialState)
      else match FirstRefusal(ls.inner, parsed.bound, pending)
           case Some(e) => Failed(src, e)
           case None => ApplyEdits(src, ls, pending, WithStatus(ls.inner, ms, Unknown))
  }

  function ApplyEdits(src: string, ls: ListSplice, pending: seq<Migration>, unknown: seq<Migration>): Clobbered
    requires Located(src, ls) && pending != []
  {
    match Edits(src, ls, pending)
    case None => Failed(src, NoSpan(pending[0]))
    case Some(splices) =>
      match ApplySequence(src, Sort(HigherFirst, splices))
      case None => Failed(src, OutOfRange)
      case Some(out) => Done(out, Report(pending, [], unknown))
  }

  /** All or nothing: whatever refuses the migration, the text comes back as it was. */
  lemma FailureLeavesSource(src: string, parsed: Parsed, ms: seq<Migration>)
    requires ParserPromise(src, parsed) && Clobbering(src, parsed, ms).Failed?
    ensures Clobbering(src, parsed, ms).out == src
  {
    hide Occurrences, ApplySequence, ListElementSplice, CheckElement;
  }

  // ---- when it refuses, in terms of the tokens of the list ----

  ghost predicate Stands(inner: string, x: string) {
    x != "" && exists i: nat :: IsToken(inner, x, i)
  }

  ghost predicate StandsTwice(inner: string, x: string) {
    x != "" && exists i: nat, j: nat :: i < j && IsToken(inner, x, i) && IsToken(inner, x, j)
  }

  // Both names stand in the list.
  ghost predicate InConflict(inner: string, m: Migration) {
    m.newName != "" && Stands(inner, m.oldName) && Stands(inner, m.newName)
  }

  // Only the old name stands in it.
  ghost predicate ToDo(inner: string, m: Migration) {
    Stands(inner, m.oldName) && (m.newName == "" || !Stands(inner, m.newName))
  }

  // The old name does not stand in it, and the new one does or is not wanted.
  ghost predicate IsDone(inner: string, m: Migration) {
    !Stands(inner, m.oldName) && (m.newName == "" || Stands(inner, m.newName))
  }

  // A bare name that is bound neither in the flake nor by its arguments.
  predicate Dangling(bound: set<string>, replacement: string) {
    replacement != "" && '.' !in replacement && replacement !in bound
  }

  lemma StandsIff(inner: string, x: string)
    ensures Occurrences(inner, x) != [] <==> Stands(inner, x)
    ensures |Occurrences(inner, x)| > 1 <==> StandsTwice(inner, x)
  {
    hide IsToken;
    if x != "" {
      var out := Occurrences(inner, x);
      OccurrencesAreTokens(inner, x);
      if out != [] { assert out[0] in out; }
      if |out| > 1 { assert out[0] in out && out[1] in out; }
      if i: nat, j: nat :| i < j && IsToken(inner, x, i) && IsToken(inner, x, j) { assert i in out && j in out; }
    }
  }

  lemma StatusIff(inner: string, m: Migration)
    ensures CheckElement(inner, m) == Conflict <==> InConflict(inner, m)
    ensures CheckElement(inner, m) == Pending <==> ToDo(inner, m)
    ensures CheckElement(inner, m) == Satisfied <==> IsDone(inner, m)
  {
    hide Occurrences, Stands;
    StandsIff(inner, m.oldName);
    StandsIff(inner, m.newName);
  }

  /** The refusals that look at the shape of the flake, each exactly when it is the first that applies. */
  lemma ShapeRefusals(src: string, parsed: Parsed, ms: seq<Migration>)
    requires ParserPromise(src, parsed)
    ensures Clobbering(src, parsed, ms) == Failed(src, UnrecognizedShape) <==> parsed.Unrecognized?
    ensures Clobbering(src, parsed, ms) == Failed(src, ShadowedTarget) <==> parsed.Outputs? && parsed.shadowed
    ensures Clobbering(src, parsed, ms) == Failed(src, NoDevShell) <==>
            parsed.Outputs? && !parsed.shadowed && parsed.packages.None?
  {
    hide CheckElement, Occurrences, WithStatus, Edits, FirstRefusal, ApplySequence;
    if parsed.Outputs? && parsed.packages.Some? {
      OtherRefusal(parsed.packages.value.inner, parsed.bound, WithStatus(parsed.packages.value.inner, ms, Pending));
    }
  }

  lemma {:induction false} OtherRefusal(inner: string, bound: set<string>, pending: seq<Migration>)
    ensures var e := FirstRefusal(inner, bound, pending); e.Some? ==> e.value.DuplicateElement? || e.value.UnboundElement?
  {
    hide Occurrences, Bound;
    if pending != [] { OtherRefusal(inner, bound, pending[1..]); }
  }

  // A flake whose packages list this is.
  predicate Editable(src: string, parsed: Parsed, ls: ListSplice) {
    Located(src, ls) && parsed.Outputs? && !parsed.shadowed && parsed.packages == Some(ls)
  }

  /** Conflicts, idleness and partial states: the first migration whose both names stand in the list is ambiguous; without
      one, nothing changes exactly when no migration is to be done; and otherwise any migration already done refuses all. */
  lemma StateRefusals(src: string, parsed: Parsed, ms: seq<Migration>, ls: ListSplice)
    requires Editable(src, parsed, ls)
    ensures var r, some := Clobbering(src, parsed, ms), exists m :: m in ms && InConflict(ls.inner, m);
            && (r.Failed? && r.error.AmbiguousState? <==> some)
            && (forall k :: 0 <= k < |ms| && InConflict(ls.inner, ms[k]) && (forall j :: 0 <= j < k ==> !InConflict(ls.inner, ms[j]))
                            ==> r == Failed(src, AmbiguousState(ms[k])))
            && (r.Done? && r.report.applied == [] <==> !some && forall m :: m in ms ==> !ToDo(ls.inner, m))
            && (r.Done? && r.report.applied == [] ==> r.out == src)
            && (r == Failed(src, PartialState) <==>
                  !some && (exists m :: m in ms && ToDo(ls.inner, m)) && exists m :: m in ms && IsDone(ls.inner, m))
  {
    hide CheckElement, Occurrences, WithStatus, Edits, FirstRefusal, ApplySequence, InConflict, ToDo, IsDone;
    forall m
      ensures CheckElement(ls.inner, m) == Conflict <==> InConflict(ls.inner, m)
      ensures CheckElement(ls.inner, m) == Pending <==> ToDo(ls.inner, m)
      ensures CheckElement(ls.inner, m) == Satisfied <==> IsDone(ls.inner, m)
    {
      StatusIff(ls.inner, m);
    }
    HasStatus(ls.inner, ms, Conflict);
    HasStatus(ls.inner, ms, Pending);
    HasStatus(ls.inner, ms, Satisfied);
    OtherRefusal(ls.inner, parsed.bound, WithStatus(ls.inner, ms, Pending));
    forall k | 0 <= k < |ms| && InConflict(ls.inner, ms[k]) && forall j :: 0 <= j < k ==> !InConflict(ls.inner, ms[j])
      ensures Clobbering(src, parsed, ms) == Failed(src, AmbiguousState(ms[k]))
    {
      FirstWithStatus(ls.inner, ms, Conflict, k);
    }
  }

  lemma HasStatus(inner: string, ms: seq<Migration>, s: Status)
    ensures WithStatus(inner, ms, s) != [] <==> exists m :: m in ms && CheckElement(inner, m) == s
  {
    hide CheckElement;
    WithStatusMembers(inner, ms, s);
    var found := WithStatus(inner, ms, s);
    if found != [] { assert found[0] in found; }
  }

  // Migration k is the first with this status.
  predicate FirstAt(inner: string, ms: seq<Migration>, s: Status, k: nat) {
    k < |ms| && CheckElement(inner, ms[k]) == s && forall j :: 0 <= j < k ==> CheckElement(inner, ms[j]) != s
  }

  lemma {:induction false} FirstWithStatus(inner: string, ms: seq<Migration>, s: Status, k: nat)
    requires FirstAt(inner, ms, s, k)
    ensures WithStatus(inner, ms, s) != [] && WithStatus(inner, ms, s)[0] == ms[k]
  {
    hide CheckElement;
    if k > 0 {
      assert forall j :: 0 <= j < k - 1 ==> ms[1..][j] == ms[j + 1];
      FirstWithStatus(inner, ms[1..], s, k - 1);
    }
  }

  // An element that is to be migrated but must not be: it stands there more than once, or its replacement is bound nowhere.
  ghost predicate Barred(inner: string, bound: set<string>, m: Migration) {
    ToDo(inner, m) && (StandsTwice(inner, m.oldName) || Dangling(bound, m.newName))
  }

  // Nothing is ambiguous, something is to be done, nothing is done yet.
  ghost predicate Untouched(inner: string, ms: seq<Migration>) {
    && (forall m :: m in ms ==> !InConflict(inner, m) && !IsDone(inner, m))
    && exists m :: m in ms && ToDo(inner, m)
  }

  lemma BarredIff(inner: string, bound: set<string>, m: Migration)
    ensures Barred(inner, bound, m) <==>
            CheckElement(inner, m) == Pending && (|Occurrences(inner, m.oldName)| > 1 || !Bound(bound, m.newName))
  {
    hide Occurrences, CheckElement, ToDo, StandsTwice;
    StatusIff(inner, m);
    StandsIff(inner, m.oldName);
  }

  lemma RefusalFirst(inner: string, bound: set<string>, m: Migration, rest: seq<Migration>)
    ensures FirstRefusal(inner, bound, [m] + rest) ==
            if |Occurrences(inner, m.oldName)| > 1 then Some(DuplicateElement(m))
            else if !Bound(bound, m.newName) then Some(UnboundElement(m)) else FirstRefusal(inner, bound, rest)
  {
    hide Occurrences, Bound;
    assert ([m] + rest)[1..] == rest;
  }

  lemma {:induction false} RefusalAt(inner: string, bound: set<string>, ms: seq<Migration>, k: nat)
    requires k < |ms| && Barred(inner, bound, ms[k]) && forall j :: 0 <= j < k ==> !Barred(inner, bound, ms[j])
    ensures FirstRefusal(inner, bound, WithStatus(inner, ms, Pending)) ==
            Some(if StandsTwice(inner, ms[k].oldName) then DuplicateElement(ms[k]) else UnboundElement(ms[k]))
  {
    hide Occurrences, CheckElement, Barred, StandsTwice, Bound;
    BarredIff(inner, bound, ms[0]);
    StandsIff(inner, ms[0].oldName);
    RefusalFirst(inner, bound, ms[0], WithStatus(inner, ms[1..], Pending));
    assert [] + WithStatus(inner, ms[1..], Pending) == WithStatus(inner, ms[1..], Pending);
    if k > 0 {
      assert forall j :: 0 <= j < k - 1 ==> ms[1..][j] == ms[j + 1];
      RefusalAt(inner, bound, ms[1..], k - 1);
    }
  }

  lemma {:induction false} NoRefusal(inner: string, bound: set<string>, ms: seq<Migration>)
    requires forall m :: m in ms ==> !Barred(inner, bound, m)
    ensures FirstRefusal(inner, bound, WithStatus(inner, ms, Pending)).None?
  {
    hide Occurrences, CheckElement, Barred, Bound;
    if ms != [] {
      BarredIff(inner, bound, ms[0]);
      RefusalFirst(inner, bound, ms[0], WithStatus(inner, ms[1..], Pending));
      assert [] + WithStatus(inner, ms[1..], Pending) == WithStatus(inner, ms[1..], Pending);
      assert ms[0] in ms && forall m :: m in ms[1..] ==> m in ms;
      NoRefusal(inner, bound, ms[1..]);
    }
  }

  lemma {:induction false} EditsExist(src: string, ls: ListSplice, pending: seq<Migration>)
    requires Located(src, ls) && forall m :: m in pending ==> CheckElement(ls.inner, m) == Pending
    ensures Edits(src, ls, pending).Some? && |Edits(src, ls, pending).value| == |pending|
  {
    hide Occurrences, RemoveAll, Blank, LineStart, LineEnd;
    if pending != [] {
      assert pending[0] in pending && forall m :: m in pending[1..] ==> m in pending;
      EditsExist(src, ls, pending[1..]);
    }
  }

  /** Elements: with nothing ambiguous and nothing done, the first barred migration is what refuses, for standing there more
      than once before being unbound; without one every pending element has its edit, and the edits decide. */
  lemma ElementRefusals(src: string, parsed: Parsed, ms: seq<Migration>, ls: ListSplice)
    requires Editable(src, parsed, ls) && Untouched(ls.inner, ms)
    ensures forall k :: 0 <= k < |ms| && Barred(ls.inner, parsed.bound, ms[k])
                        && (forall j :: 0 <= j < k ==> !Barred(ls.inner, parsed.bound, ms[j])) ==>
                          Clobbering(src, parsed, ms) ==
                          Failed(src, if StandsTwice(ls.inner, ms[k].oldName) then DuplicateElement(ms[k]) else UnboundElement(ms[k]))
    ensures (forall m :: m in ms ==> !Barred(ls.inner, parsed.bound, m)) ==>
              && Edits(src, ls, WithStatus(ls.inner, ms, Pending)).Some?
              && Clobbering(src, parsed, ms) ==
                 match ApplySequence(src, Sort(HigherFirst, Edits(src, ls, WithStatus(ls.inner, ms, Pending)).value))
                 case Some(out) => Done(out, Report(WithStatus(ls.inner, ms, Pending), [], WithStatus(ls.inner, ms, Unknown)))
                 case None => Failed(src, OutOfRange)
  {
    hide CheckElement, Occurrences, WithStatus, Edits, FirstRefusal, ApplySequence, InConflict, ToDo, IsDone, Barred, Sort,
         StandsTwice;
    forall m | m in ms
      ensures CheckElement(ls.inner, m) !in {Conflict, Satisfied}
      ensures CheckElement(ls.inner, m) == Pending <==> ToDo(ls.inner, m)
    {
      StatusIff(ls.inner, m);
    }
    HasStatus(ls.inner, ms, Conflict);
    HasStatus(ls.inner, ms, Pending);
    HasStatus(ls.inner, ms, Satisfied);
    WithStatusMembers(ls.inner, ms, Pending);
    EditsExist(src, ls, WithStatus(ls.inner, ms, Pending));
    forall k | 0 <= k < |ms| && Barred(ls.inner, parsed.bound, ms[k]) && forall j :: 0 <= j < k ==> !Barred(ls.inner, parsed.bound, ms[j])
      ensures FirstRefusal(ls.inner, parsed.bound, WithStatus(ls.inner, ms, Pending)) ==
              Some(if StandsTwice(ls.inner, ms[k].oldName) then DuplicateElement(ms[k]) else UnboundElement(ms[k]))
    {
      RefusalAt(ls.inner, parsed.bound, ms, k);
    }
    if forall m :: m in ms ==> !Barred(ls.inner, parsed.bound, m) { NoRefusal(ls.inner, parsed.bound, ms); }
  }

  // ---- the migration as the loops that carry it out ----

  lemma {:induction false} WithStatusConcat(inner: string, a: seq<Migration>, b: seq<Migration>, s: Status)
    ensures WithStatus(inner, a + b, s) == WithStatus(inner, a, s) + WithStatus(inner, b, s)
  {
    hide CheckElement;
    if a == [] {
      assert a + b == b;
    } else {
      assert (a + b)[0] == a[0] && (a + b)[1..] == a[1..] + b;
      WithStatusConcat(inner, a[1..], b, s);
      var first: seq<Migration> := if CheckElement(inner, a[0]) == s then [a[0]] else [];
      Grouped(first, WithStatus(inner, a[1..], s), WithStatus(inner, b, s));
    }
  }

  lemma Grouped(a: seq<Migration>, b: seq<Migration>, c: seq<Migration>)
    ensures a + (b + c) == (a + b) + c
  {}

  method Classify(inner: string, ms: seq<Migration>)
    returns (conflict: Option<Migration>, pending: seq<Migration>, satisfied: seq<Migration>, unknown: seq<Migration>)
    ensures conflict.None? <==> WithStatus(inner, ms, Conflict) == []
    ensures conflict.Some? ==> WithStatus(inner, ms, Conflict)[0] == conflict.value
    ensures conflict.None? ==>
              && pending == WithStatus(inner, ms, Pending) && satisfied == WithStatus(inner, ms, Satisfied)
              && unknown == WithStatus(inner, ms, Unknown)
  {
    hide CheckElement;
    pending, satisfied, unknown := [], [], [];
    for i := 0 to |ms|
      invariant WithStatus(inner, ms[..i], Conflict) == [] && pending == WithStatus(inner, ms[..i], Pending)
      invariant satisfied == WithStatus(inner, ms[..i], Satisfied) && unknown == WithStatus(inner, ms[..i], Unknown)
    {
      var m := ms[i];
      assert ms[..i + 1] == ms[..i] + [m];
      ClassifyStep(inner, ms[..i], m);
      match CheckElement(inner, m)
      case Pending => pending := pending + [m];
      case Satisfied => satisfied := satisfied + [m];
      case Unknown => unknown := unknown + [m];
      case Conflict =>
        FirstConflict(inner, ms, i);
        return Some(m), [], [], [];
    }
    assert ms[..|ms|] == ms;
    conflict := None;
  }

  lemma FirstConflict(inner: string, ms: seq<Migration>, i: nat)
    requires i < |ms| && WithStatus(inner, ms[..i], Conflict) == [] && CheckElement(inner, ms[i]) == Conflict
    ensures WithStatus(inner, ms, Conflict) != [] && WithStatus(inner, ms, Conflict)[0] == ms[i]
  {
    hide CheckElement;
    assert ms == ms[..i] + ms[i..];
    WithStatusConcat(inner, ms[..i], ms[i..], Conflict);
  }

  lemma ClassifyStep(inner: string, ms: seq<Migration>, m: Migration)
    ensures forall s :: WithStatus(inner, ms + [m], s) == WithStatus(inner, ms, s) + (if CheckElement(inner, m) == s then [m] else [])
  {
    hide CheckElement;
    forall s
      ensures WithStatus(inner, ms + [m], s) == WithStatus(inner, ms, s) + (if CheckElement(inner, m) == s then [m] else [])
    {
      WithStatusConcat(inner, ms, [m], s);
      assert [m][1..] == [];
    }
  }

  method Clobber(src: string, parsed: Parsed, ms: seq<Migration>) returns (r: Clobbered)
    requires ParserPromise(src, parsed)
    ensures r == Clobbering(src, parsed, ms)
  {
    hide CheckElement, Occurrences, ListElementSplice, ApplySequence, WithStatus;
    if parsed.Unrecognized? { return Failed(src, UnrecognizedShape); }
    if parsed.shadowed { return Failed(src, ShadowedTarget); }
    if parsed.packages.None? { return Failed(src, NoDevShell); }
    var ls := parsed.packages.value;
    var conflict, pending, satisfied, unknown := Classify(ls.inner, ms);
    if conflict.Some? { return Failed(src, AmbiguousState(conflict.value)); }
    if pending == [] { return Done(src, Report([], satisfied, unknown)); }
    if satisfied != [] { return Failed(src, PartialState); }
    var refusal := FirstRefusal(ls.inner, parsed.bound, pending);
    if refusal.Some? { return Failed(src, refusal.value); }
    var splices := [];
    for i := 0 to |pending|
      invariant Edits(src, ls, pending).None? ==> Edits(src, ls, pending[i..]).None?
      invariant Edits(src, ls, pending).Some? ==>
                  Edits(src, ls, pending[i..]).Some? && Edits(src, ls, pending).value == splices + Edits(src, ls, pending[i..]).value
    {
      assert pending[i..][1..] == pending[i + 1..];
      var s := ListElementSplice(src, ls, pending[i]);
      if s.None? { return Failed(src, NoSpan(pending[0])); }
      splices := splices + [s.value];
    }
    assert pending[|pending|..] == [];
    assert Edits(src, ls, []) == Some([]) && splices + [] == splices;
    assert Edits(src, ls, pending) == Some(splices);
    var out := ApplyAll(src, splices);
    r := match out
         case None => Failed(src, OutOfRange)
         case Some(text) => Done(text, Report(pending, [], unknown));
    assert r == ApplyEdits(src, ls, pending, unknown);
  }
}
