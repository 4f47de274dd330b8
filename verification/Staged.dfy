/** The --staged run: format what is staged and restage it, without touching what is not. */
module Staged {
  import opened Git
  import opened Optional

  type Blobs = map<Path, string>

  // A linter that opted into restaging its repair's outputs; tier 3 also stages new files, tier 4 deletions.
  datatype OptIn = OptIn(stageNew: bool, stageDeleted: bool, repair: Tool)

  /** Everything the run executes: repairs during the walk, then the opt-in linters, then the formatters;
      and the isolated pipeline for staged blobs, None when it fails. */
  datatype Tools = Tools(walkRepairs: Tool, optIns: seq<OptIn>, formatters: Tool, isolate: Blobs -> Option<Blobs>)

  datatype Settings = Settings(stdin: bool, failOnChange: bool, insideWorktree: bool, exitZeroOnFix: bool)

  datatype Outcome = Refused | NothingStaged | Failed | Conformant | Restaged(total: nat) | RestagedExitZero(total: nat)

  // ---- which staged paths go to which lane ----

  function FullyStaged(r: Repo): set<Path> {
    set p | p in Dirty(r) && StagedColumn(r, p) != ' ' && UnstagedColumn(r, p) == ' '
  }

  function PartlyStaged(r: Repo): set<Path> {
    set p | p in Dirty(r) && StagedColumn(r, p) != ' ' && UnstagedColumn(r, p) != ' ' && StagedColumn(r, p) != 'D'
  }

  function ToFormat(r: Repo): set<Path> {
    set p | p in FullyStaged(r) && StagedColumn(r, p) != 'D'
  }

  method SelectLanes(entries: set<Entry>) returns (full: set<Path>, partly: set<Path>, toFormat: set<Path>)
    ensures full == set e | e in entries && e.staged !in {' ', '?'} && e.unstaged == ' ' :: e.path
    ensures partly == set e | e in entries && e.staged !in {' ', '?', 'D'} && e.unstaged != ' ' :: e.path
    ensures toFormat == set e | e in entries && e.staged !in {' ', '?', 'D'} && e.unstaged == ' ' :: e.path
  {
    full, partly, toFormat := {}, {}, {};
    var rest := entries;
    while rest != {}
      invariant rest <= entries
      invariant full == set e | e in entries - rest && e.staged !in {' ', '?'} && e.unstaged == ' ' :: e.path
      invariant partly == set e | e in entries - rest && e.staged !in {' ', '?', 'D'} && e.unstaged != ' ' :: e.path
      invariant toFormat == set e | e in entries - rest && e.staged !in {' ', '?', 'D'} && e.unstaged == ' ' :: e.path
      decreases |rest|
    {
      var entry :| entry in rest;
      rest := rest - {entry};
      if entry.staged == ' ' || entry.staged == '?' { continue; }
      if entry.unstaged != ' ' {
        if entry.staged != 'D' { partly := partly + {entry.path}; }
        continue;
      }
      full := full + {entry.path};
      if entry.staged != 'D' { toFormat := toFormat + {entry.path}; }
    }
  }

  lemma LanesOfStatus(r: Repo)
    ensures var es := StatusEntries(r, false);
            && FullyStaged(r) == (set e | e in es && e.staged !in {' ', '?'} && e.unstaged == ' ' :: e.path)
            && PartlyStaged(r) == (set e | e in es && e.staged !in {' ', '?', 'D'} && e.unstaged != ' ' :: e.path)
            && ToFormat(r) == (set e | e in es && e.staged !in {' ', '?', 'D'} && e.unstaged == ' ' :: e.path)
  {
    var es := StatusEntries(r, false);
    forall p | p in Dirty(r)
      ensures EntryOf(r, p) in es
    {}
    forall e | e in es
      ensures e.path in Dirty(r) && e == EntryOf(r, e.path)
    {}
  }

  // ---- observing one opt-in repair ----

  datatype Observed = Observed(repo: Repo, outputs: set<Path>, ok: bool)

  predicate IsDeletion(e: Entry) {
    e.staged == 'D' || e.unstaged == 'D'
  }

  // The paths a repair newly made dirty, judged by the linter's own before and after snapshots.
  function Outputs(l: OptIn, before: Repo, after: Repo): set<Path> {
    set e | e in StatusEntries(after, l.stageNew) && e.path !in StatusPaths(before, l.stageNew)
            && (IsDeletion(e) ==> l.stageDeleted) :: e.path
  }

  function Observe(r: Repo, l: OptIn): Observed {
    var after := Run(l.repair, r);
    if l.repair(r).ok then Observed(after, Outputs(l, r, after), true) else Observed(after, {}, false)
  }

  function ObserveAll(r: Repo, ls: seq<OptIn>): Observed
    decreases ls
  {
    if ls == [] then Observed(r, {}, true)
    else
      var o := Observe(r, ls[0]);
      if !o.ok then o
      else
        var rest := ObserveAll(o.repo, ls[1..]);
        rest.(outputs := o.outputs + rest.outputs)
  }

  // Repairs, observed repairs, formatters; the outputs are those the opt-in linters reported.
  function Pipeline(r: Repo, tools: Tools): Observed {
    var walked := Run(tools.walkRepairs, r);
    if !tools.walkRepairs(r).ok then Observed(walked, {}, false)
    else
      var o := ObserveAll(walked, tools.optIns);
      if !o.ok then o
      else Observed(Run(tools.formatters, o.repo), o.outputs, tools.formatters(o.repo).ok)
  }

  // ---- the two lanes ----

  datatype Lane = Lane(repo: Repo, ok: bool, count: nat)

  function ToRestage(r: Repo, full: set<Path>, outputs: set<Path>): set<Path> {
    outputs + set p | p in full && p in Dirty(r) && UnstagedColumn(r, p) != ' '
  }

  function FullLane(r: Repo, tools: Tools): Lane {
    if ToFormat(r) == {} then Lane(r, true, 0)
    else
      var o := Pipeline(r, tools);
      var paths := ToRestage(o.repo, FullyStaged(r), o.outputs);
      if !o.ok then Lane(o.repo, false, 0)
      else if paths == {} then Lane(o.repo, true, 0)
      else match AddPaths(o.repo, paths)
           case None => Lane(o.repo, false, 0)
           case Some(added) => Lane(added, true, |paths|)
  }

  function StagedBlobs(r: Repo, paths: set<Path>): Blobs {
    map p | p in paths && p in r.index :: r.index[p].content
  }

  // The blobs the isolated run changed; None when a formatted blob cannot be read back.
  function ChangedBlobs(blobs: Blobs, formatted: Option<Blobs>): Option<Blobs> {
    match formatted
    case None => None
    case Some(f) =>
      if blobs.Keys <= f.Keys then Some(map p | p in blobs && f[p] != blobs[p] :: f[p]) else None
  }

  // `update-index --cacheinfo` on every changed blob, under the mode the index already has.
  function Repoint(index: Tree, changed: Blobs): Tree {
    map p | p in index :: if p in changed then File(index[p].mode, changed[p]) else index[p]
  }

  function PartialLane(r: Repo, paths: set<Path>, isolate: Blobs -> Option<Blobs>): Lane {
    if paths == {} then Lane(r, true, 0)
    else
      var blobs := StagedBlobs(r, paths);
      match ChangedBlobs(blobs, isolate(blobs))
      case None => Lane(r, false, 0)
      case Some(changed) => Lane(r.(index := Repoint(r.index, changed)), true, |changed|)
  }

  // ---- the whole run ----

  datatype Result = Result(repo: Repo, outcome: Outcome)

  function RunStaged(r: Repo, s: Settings, tools: Tools): Result {
    if s.stdin || s.failOnChange || !s.insideWorktree then Result(r, Refused)
    else if ToFormat(r) == {} && PartlyStaged(r) == {} then Result(r, NothingStaged)
    else
      var full := FullLane(r, tools);
      if !full.ok then Result(full.repo, Failed)
      else
        var partly := PartialLane(full.repo, PartlyStaged(r), tools.isolate);
        var total := full.count + partly.count;
        Result(partly.repo,
               if !partly.ok then Failed else if total == 0 then Conformant
               else if s.exitZeroOnFix then RestagedExitZero(total) else Restaged(total))
  }

  predicate Succeeded(o: Outcome) {
    o.Conformant? || o.Restaged? || o.RestagedExitZero?
  }

  // ---- tools write only the worktree, so what is staged stays visible to every snapshot ----

  ghost predicate SameHistory(a: Repo, b: Repo) {
    a.head == b.head && a.index == b.index && a.ignored == b.ignored
  }

  lemma StagedStaysDirty(a: Repo, b: Repo, p: Path)
    requires SameHistory(a, b) && StagedColumn(a, p) != ' '
    ensures p in Dirty(b)
  {}

  // The repository before the i-th of these linters, when they all run one behind the other.
  function StateAt(start: Repo, ls: seq<OptIn>, i: nat): Repo
    requires i <= |ls|
  {
    if i == 0 then start else Run(ls[i - 1].repair, StateAt(start, ls, i - 1))
  }

  // The linter's snapshots before and after its repair show the path newly dirtied, within its tiers.
  ghost predicate ReportedBy(l: OptIn, before: Repo, after: Repo, p: Path) {
    && p !in StatusPaths(before, l.stageNew)
    && exists e :: e in StatusEntries(after, l.stageNew) && e.path == p && (IsDeletion(e) ==> l.stageDeleted)
  }

  // One of these linters reported the path, judged by the two snapshots taken around its own repair.
  ghost predicate ReportedIn(start: Repo, ls: seq<OptIn>, p: Path) {
    exists i :: 0 <= i < |ls| && ReportedBy(ls[i], StateAt(start, ls, i), StateAt(start, ls, i + 1), p)
  }

  // One of the run's opt-in linters reported the path in this run.
  ghost predicate Reported(r: Repo, tools: Tools, p: Path) {
    ReportedIn(Run(tools.walkRepairs, r), tools.optIns, p)
  }

  lemma {:induction false} LaterState(start: Repo, ls: seq<OptIn>, i: nat)
    requires ls != [] && i <= |ls| - 1
    ensures StateAt(Run(ls[0].repair, start), ls[1..], i) == StateAt(start, ls, i + 1)
  {
    if i > 0 { LaterState(start, ls, i - 1); }
  }

  lemma ReportedLater(start: Repo, ls: seq<OptIn>, p: Path)
    requires ls != [] && ReportedIn(Run(ls[0].repair, start), ls[1..], p)
    ensures ReportedIn(start, ls, p)
  {
    hide ReportedBy;
    var next := Run(ls[0].repair, start);
    var i :| 0 <= i < |ls[1..]| && ReportedBy(ls[1..][i], StateAt(next, ls[1..], i), StateAt(next, ls[1..], i + 1), p);
    LaterState(start, ls, i);
    LaterState(start, ls, i + 1);
    assert ReportedBy(ls[i + 1], StateAt(start, ls, i + 1), StateAt(start, ls, i + 2), p);
  }

  lemma ReportedFirst(start: Repo, ls: seq<OptIn>, p: Path)
    requires ls != [] && p in Outputs(ls[0], start, Run(ls[0].repair, start))
    ensures ReportedIn(start, ls, p)
  {
    assert StateAt(start, ls, 0) == start && StateAt(start, ls, 1) == Run(ls[0].repair, start);
    assert ReportedBy(ls[0], StateAt(start, ls, 0), StateAt(start, ls, 0 + 1), p);
  }

  // What is collected is exactly what the linters reported, when none of them failed.
  lemma {:induction false} ObserveAllReports(start: Repo, ls: seq<OptIn>)
    ensures var o := ObserveAll(start, ls);
            && SameHistory(start, o.repo) && (forall p :: p in o.outputs ==> ReportedIn(start, ls, p))
            && (o.ok ==> o.repo == StateAt(start, ls, |ls|))
    decreases ls
  {
    hide Outputs, StatusEntries, StatusPaths;
    if ls != [] {
      var next := Run(ls[0].repair, start);
      ObserveAllReports(next, ls[1..]);
      LaterState(start, ls, |ls| - 1);
      forall p | p in ObserveAll(start, ls).outputs
        ensures ReportedIn(start, ls, p)
      {
        if p in Outputs(ls[0], start, next) { ReportedFirst(start, ls, p); } else { ReportedLater(start, ls, p); }
      }
    }
  }

  lemma {:induction false} ReportsAreCollected(start: Repo, ls: seq<OptIn>, p: Path)
    requires ObserveAll(start, ls).ok && ReportedIn(start, ls, p)
    ensures p in ObserveAll(start, ls).outputs
    decreases ls
  {
    hide StatusEntries, StatusPaths, IsDeletion;
    var i :| 0 <= i < |ls| && ReportedBy(ls[i], StateAt(start, ls, i), StateAt(start, ls, i + 1), p);
    var next := Run(ls[0].repair, start);
    if i == 0 {
      assert p in Outputs(ls[0], start, next);
    } else {
      LaterState(start, ls, i - 1);
      LaterState(start, ls, i);
      assert ReportedBy(ls[1..][i - 1], StateAt(next, ls[1..], i - 1), StateAt(next, ls[1..], i - 1 + 1), p);
      ReportsAreCollected(next, ls[1..], p);
    }
  }

  lemma {:induction false} StateHistory(start: Repo, ls: seq<OptIn>, i: nat)
    requires i <= |ls|
    ensures SameHistory(start, StateAt(start, ls, i))
  {
    if i > 0 { StateHistory(start, ls, i - 1); }
  }

  // A reported path was not staged: the two kinds of restaging never meet.
  lemma ReportedIsUnstaged(r: Repo, tools: Tools, p: Path)
    requires Reported(r, tools, p)
    ensures StagedColumn(r, p) == ' '
  {
    hide StatusEntries;
    var start, ls := Run(tools.walkRepairs, r), tools.optIns;
    var i :| 0 <= i < |ls| && ReportedBy(ls[i], StateAt(start, ls, i), StateAt(start, ls, i + 1), p);
    StateHistory(start, ls, i);
    if StagedColumn(r, p) != ' ' { StagedStaysDirty(r, StateAt(start, ls, i), p); }
  }

  lemma FullLaneIndex(r: Repo, tools: Tools)
    requires FullLane(r, tools).ok && ToFormat(r) != {}
    ensures var o := Pipeline(r, tools);
            && o.ok && SameHistory(r, o.repo)
            && (forall p :: p in o.outputs ==> Reported(r, tools, p))
            && FullLane(r, tools).repo.worktree == o.repo.worktree
            && SameHistory(r.(index := FullLane(r, tools).repo.index), FullLane(r, tools).repo)
            && forall p :: At(FullLane(r, tools).repo.index, p) ==
                           if p in ToRestage(o.repo, FullyStaged(r), o.outputs) then At(o.repo.worktree, p)
                           else At(r.index, p)
  {
    var walked := Run(tools.walkRepairs, r);
    ObserveAllReports(walked, tools.optIns);
    var o := Pipeline(r, tools);
    forall p
      ensures At(Take(o.repo.index, ToRestage(o.repo, FullyStaged(r), o.outputs), o.repo.worktree), p) ==
              if p in ToRestage(o.repo, FullyStaged(r), o.outputs) then At(o.repo.worktree, p) else At(o.repo.index, p)
    {
      TakeAt(o.repo.index, ToRestage(o.repo, FullyStaged(r), o.outputs), o.repo.worktree, p);
    }
  }

  // What a partly staged path holds afterwards: its own mode and the isolated format of its own staged blob.
  function IsolatedFile(r: Repo, tools: Tools, p: Path): Option<File>
    requires p in PartlyStaged(r)
  {
    match tools.isolate(map q | q in PartlyStaged(r) :: r.index[q].content)
    case None => None
    case Some(f) => if p in f then Some(File(r.index[p].mode, f[p])) else None
  }

  lemma BlobsAreStaged(r: Repo)
    ensures StagedBlobs(r, PartlyStaged(r)) == map q | q in PartlyStaged(r) :: r.index[q].content
  {
    assert forall q :: q in PartlyStaged(r) ==> q in r.index;
  }

  lemma PartialLaneIndex(r: Repo, s: Repo, tools: Tools)
    requires forall p :: p in PartlyStaged(r) ==> At(s.index, p) == At(r.index, p)
    requires PartialLane(s, PartlyStaged(r), tools.isolate).ok
    ensures var t := PartialLane(s, PartlyStaged(r), tools.isolate).repo;
            && SameHistory(s.(index := t.index), t) && t.worktree == s.worktree
            && (forall p :: p !in PartlyStaged(r) ==> At(t.index, p) == At(s.index, p))
            && forall p :: p in PartlyStaged(r) ==> IsolatedFile(r, tools, p).Some? && At(t.index, p) == IsolatedFile(r, tools, p)
  {
    hide PartlyStaged;
    SameBlobs(r, s);
    BlobsAreStaged(r);
    PartlyInIndex(r);
  }

  lemma PartlyInIndex(r: Repo)
    ensures forall p :: p in PartlyStaged(r) ==> p in r.index
  {}

  lemma SameBlobs(r: Repo, s: Repo)
    requires forall p :: p in PartlyStaged(r) ==> At(s.index, p) == At(r.index, p)
    ensures StagedBlobs(s, PartlyStaged(r)) == StagedBlobs(r, PartlyStaged(r))
    ensures forall p :: p in PartlyStaged(r) ==> p in s.index && s.index[p] == r.index[p]
  {
    hide PartlyStaged;
    PartlyInIndex(r);
    assert forall p :: p in PartlyStaged(r) ==> p in r.index && p in s.index && At(r.index, p) == At(s.index, p);
  }

  /** Non-interference: after a successful run the index differs from the one before only where it should.
      A partly staged path keeps its mode and holds the isolated format of its original staged blob; a fully staged
      file is the worktree's as the tools left it, and a staged deletion stays one; any other path is restaged, taking
      the worktree's file, exactly when one of this run's opt-in linters reported it by its own two snapshots and within
      its tiers, and there was something to format. HEAD never moves. */
  lemma NonInterference(r: Repo, s: Settings, tools: Tools, p: Path)
    requires Succeeded(RunStaged(r, s, tools).outcome)
    ensures var t := RunStaged(r, s, tools).repo;
            && t.head == r.head
            && (p in PartlyStaged(r) ==> IsolatedFile(r, tools, p).Some? && At(t.index, p) == IsolatedFile(r, tools, p))
            && (p in FullyStaged(r) && p in r.index ==> At(t.index, p) == At(t.worktree, p))
            && (p in FullyStaged(r) && p !in r.index ==> p !in t.index)
            && (p !in PartlyStaged(r) + FullyStaged(r) ==>
                  At(t.index, p) == if ToFormat(r) != {} && Reported(r, tools, p) then At(t.worktree, p) else At(r.index, p))
  {
    var full := FullLane(r, tools);
    if ToFormat(r) != {} {
      FullLaneIndex(r, tools);
      var o := Pipeline(r, tools);
      if Reported(r, tools, p) { ReportsAreCollected(Run(tools.walkRepairs, r), tools.optIns, p); }
      forall q | q in PartlyStaged(r)
        ensures At(full.repo.index, q) == At(r.index, q)
      {
        if q in o.outputs { ReportedIsUnstaged(r, tools, q); }
      }
      if p in FullyStaged(r) {
        FullyStagedRestaged(r, o.repo, p);
        if p in o.outputs { ReportedIsUnstaged(r, tools, p); }
      }
    }
    PartialLaneIndex(r, full.repo, tools);
  }

  // A fully staged path the tools changed is dirty in the worktree column; otherwise index and worktree agree.
  lemma FullyStagedRestaged(r: Repo, after: Repo, p: Path)
    requires SameHistory(r, after) && p in FullyStaged(r)
    ensures p in Dirty(after)
    ensures UnstagedColumn(after, p) == ' ' && p in r.index ==> At(after.index, p) == At(after.worktree, p)
  {
    StagedStaysDirty(r, after, p);
  }

  lemma PipelineHistory(r: Repo, tools: Tools)
    ensures SameHistory(r, Pipeline(r, tools).repo)
  {
    var walked := Run(tools.walkRepairs, r);
    ObserveAllReports(walked, tools.optIns);
  }

  lemma LanesKeepHead(r: Repo, tools: Tools)
    ensures FullLane(r, tools).repo.head == r.head
    ensures !FullLane(r, tools).ok ==> FullLane(r, tools).repo.index == r.index
  {
    hide Pipeline, ToFormat, ToRestage, FullyStaged;
    PipelineHistory(r, tools);
  }

  lemma PartialKeepsHead(r: Repo, paths: set<Path>, isolate: Blobs -> Option<Blobs>)
    ensures PartialLane(r, paths, isolate).repo.head == r.head
  {}

  /** A refused, empty or failed run: HEAD stays, and unless the partial lane is what failed, so does the index. */
  lemma UnsuccessfulRun(r: Repo, s: Settings, tools: Tools)
    requires !Succeeded(RunStaged(r, s, tools).outcome)
    ensures var t := RunStaged(r, s, tools);
            && t.repo.head == r.head
            && (t.outcome != Failed ==> t.repo == r)
            && (t.outcome == Failed && !FullLane(r, tools).ok ==> t.repo.index == r.index)
  {
    hide FullLane, PartialLane, ToFormat, PartlyStaged;
    LanesKeepHead(r, tools);
    PartialKeepsHead(FullLane(r, tools).repo, PartlyStaged(r), tools.isolate);
  }

  /** When a path leaves the index: it was restaged, and some tool had removed it by the end of the run. */
  lemma LeavesIndexIff(r: Repo, s: Settings, tools: Tools, p: Path)
    requires Succeeded(RunStaged(r, s, tools).outcome) && p in r.index
    ensures var o := Pipeline(r, tools);
            p !in RunStaged(r, s, tools).repo.index <==>
            ToFormat(r) != {} && p in ToRestage(o.repo, FullyStaged(r), o.outputs) && p !in o.repo.worktree
  {
    var full := FullLane(r, tools);
    if ToFormat(r) != {} {
      FullLaneIndex(r, tools);
      forall q | q in PartlyStaged(r)
        ensures At(full.repo.index, q) == At(r.index, q)
      {
        if q in Pipeline(r, tools).outputs { ReportedIsUnstaged(r, tools, q); }
      }
    }
    PartialLaneIndex(r, full.repo, tools);
  }

  // The i-th opt-in linter stages new files, and its repair put the path, which git does not ignore, into the worktree.
  ghost predicate CreatedUnderTierThree(r: Repo, tools: Tools, i: nat, p: Path) {
    var start := Run(tools.walkRepairs, r);
    && i < |tools.optIns| && tools.optIns[i].stageNew && !r.ignored(p)
    && p !in StateAt(start, tools.optIns, i).worktree && p in StateAt(start, tools.optIns, i + 1).worktree
  }

  // What reporting means for a path that is neither committed nor in the index.
  lemma ReportedNewPath(r: Repo, l: OptIn, before: Repo, after: Repo, p: Path)
    requires SameHistory(r, before) && SameHistory(r, after) && p !in Tracked(r)
    ensures ReportedBy(l, before, after, p) <==>
            l.stageNew && !r.ignored(p) && p !in before.worktree && p in after.worktree
  {
    assert p !in Dirty(before) && p !in Dirty(after);
    if l.stageNew && p in Untracked(after) { assert Entry('?', '?', p) in StatusEntries(after, true); }
  }

  lemma ReportedIffCreated(r: Repo, tools: Tools, p: Path)
    requires p !in Tracked(r)
    ensures Reported(r, tools, p) <==> exists i :: CreatedUnderTierThree(r, tools, i, p)
  {
    hide ReportedBy, Tracked;
    var start, ls := Run(tools.walkRepairs, r), tools.optIns;
    forall i: nat | i < |ls|
      ensures ReportedBy(ls[i], StateAt(start, ls, i), StateAt(start, ls, i + 1), p) <==> CreatedUnderTierThree(r, tools, i, p)
    {
      StateHistory(start, ls, i);
      StateHistory(start, ls, i + 1);
      ReportedNewPath(r, ls[i], StateAt(start, ls, i), StateAt(start, ls, i + 1), p);
    }
  }

  /** A path enters the index of a successful run exactly when it was not committed, a linter that stages new files
      created it in this run, and it is still there at the end. So without such a linter none does. */
  lemma EntersIndexIff(r: Repo, s: Settings, tools: Tools, p: Path)
    requires Succeeded(RunStaged(r, s, tools).outcome) && p !in r.index
    ensures var t := RunStaged(r, s, tools).repo;
            p in t.index <==>
            && ToFormat(r) != {} && p !in HeadTree(r) && p in t.worktree
            && exists i :: CreatedUnderTierThree(r, tools, i, p)
  {
    hide RunStaged, Succeeded, ToFormat, Reported, CreatedUnderTierThree;
    NonInterference(r, s, tools, p);
    OutsideIndex(r, p);
    if p !in HeadTree(r) { ReportedIffCreated(r, tools, p); }
  }

  lemma OutsideIndex(r: Repo, p: Path)
    requires p !in r.index
    ensures p !in PartlyStaged(r) && (p in FullyStaged(r) <==> p in HeadTree(r))
  {}

  // A linter without the deletion tier reports no tracked path that is gone.
  lemma ReportedWithoutTierFour(l: OptIn, before: Repo, after: Repo, p: Path)
    requires ReportedBy(l, before, after, p) && !l.stageDeleted && p in after.index
    ensures p in after.worktree
  {}

  /** Without a linter that stages deletions, a path that was not fully staged leaves the index exactly when one of this
      run's linters reported it while it was still there and a later tool removed it. */
  lemma LeavesWithoutTierFour(r: Repo, s: Settings, tools: Tools, p: Path)
    requires Succeeded(RunStaged(r, s, tools).outcome) && p in r.index && p !in FullyStaged(r)
    requires forall l :: l in tools.optIns ==> !l.stageDeleted
    ensures p !in RunStaged(r, s, tools).repo.index <==>
            && ToFormat(r) != {} && p !in Pipeline(r, tools).repo.worktree
            && exists i :: ReportedWhilePresent(r, tools, i, p)
  {
    hide RunStaged, Succeeded, ToFormat, FullyStaged, Pipeline, Reported, ReportedWhilePresent;
    LeavesIndexIff(r, s, tools, p);
    if ToFormat(r) != {} {
      RestagedIffReported(r, s, tools, p);
      ReportedIffPresent(r, tools, p);
    }
  }

  lemma RestagedIffReported(r: Repo, s: Settings, tools: Tools, p: Path)
    requires Succeeded(RunStaged(r, s, tools).outcome) && ToFormat(r) != {} && p !in FullyStaged(r)
    ensures var o := Pipeline(r, tools); p in ToRestage(o.repo, FullyStaged(r), o.outputs) <==> Reported(r, tools, p)
  {
    hide RunStaged, Succeeded, ToFormat, FullyStaged, Pipeline, ReportedBy, StateAt;
    var start, ls := Run(tools.walkRepairs, r), tools.optIns;
    PipelineOk(r, s, tools);
    ObserveAllReports(start, ls);
    if Reported(r, tools, p) { ReportsAreCollected(start, ls, p); }
  }

  lemma ReportedIffPresent(r: Repo, tools: Tools, p: Path)
    requires p in r.index && forall l :: l in tools.optIns ==> !l.stageDeleted
    ensures Reported(r, tools, p) <==> exists i :: ReportedWhilePresent(r, tools, i, p)
  {
    hide ReportedBy, StateAt;
    var start, ls := Run(tools.walkRepairs, r), tools.optIns;
    if Reported(r, tools, p) {
      var i :| 0 <= i < |ls| && ReportedBy(ls[i], StateAt(start, ls, i), StateAt(start, ls, i + 1), p);
      StateHistory(start, ls, i + 1);
      ReportedWithoutTierFour(ls[i], StateAt(start, ls, i), StateAt(start, ls, i + 1), p);
      assert ReportedWhilePresent(r, tools, i, p);
    }
  }

  // The i-th opt-in linter reported the path, which was in the worktree when its repair was done.
  ghost predicate ReportedWhilePresent(r: Repo, tools: Tools, i: nat, p: Path) {
    var start := Run(tools.walkRepairs, r);
    && i < |tools.optIns| && p in StateAt(start, tools.optIns, i + 1).worktree
    && ReportedBy(tools.optIns[i], StateAt(start, tools.optIns, i), StateAt(start, tools.optIns, i + 1), p)
  }

  lemma PipelineOk(r: Repo, s: Settings, tools: Tools)
    requires Succeeded(RunStaged(r, s, tools).outcome) && ToFormat(r) != {}
    ensures Pipeline(r, tools).ok
    ensures var o := ObserveAll(Run(tools.walkRepairs, r), tools.optIns); o.ok && o.outputs == Pipeline(r, tools).outputs
  {
    hide ToFormat, PartialLane, PartlyStaged, FullyStaged, ToRestage;
  }

  // ---- how a run ends ----

  predicate Refuses(s: Settings) {
    s.stdin || s.failOnChange || !s.insideWorktree
  }

  // Nothing staged has content: the index holds only what is committed.
  predicate OnlyDeletions(r: Repo) {
    forall p :: p in r.index ==> At(HeadTree(r), p) == At(r.index, p)
  }

  lemma NothingToFormat(r: Repo)
    ensures ToFormat(r) == {} && PartlyStaged(r) == {} <==> OnlyDeletions(r)
  {
    if p :| p in ToFormat(r) + PartlyStaged(r) { StagedColumnIff(r, p); }
    if p :| p in r.index && At(HeadTree(r), p) != At(r.index, p) {
      StagedColumnIff(r, p);
      assert p in ToFormat(r) + PartlyStaged(r);
    }
  }

  /** A run refuses exactly in stdin mode, with fail-on-change or outside a worktree; and it finds nothing to do exactly
      when nothing that differs from HEAD is in the index. */
  lemma NothingDoneIff(r: Repo, s: Settings, tools: Tools)
    ensures RunStaged(r, s, tools).outcome == Refused <==> Refuses(s)
    ensures RunStaged(r, s, tools).outcome == NothingStaged <==> !Refuses(s) && OnlyDeletions(r)
  {
    hide ToFormat, PartlyStaged, FullLane, PartialLane;
    NothingToFormat(r);
  }

  // Where the tools of the full lane leave the repository when none of them fails.
  function AfterLinters(r: Repo, tools: Tools): Repo {
    StateAt(Run(tools.walkRepairs, r), tools.optIns, |tools.optIns|)
  }

  function AfterTools(r: Repo, tools: Tools): Repo {
    Run(tools.formatters, AfterLinters(r, tools))
  }

  // Some tool of the full lane fails, or a file that a linter created is gone again before it can be staged.
  ghost predicate FullLaneFails(r: Repo, tools: Tools) {
    var start := Run(tools.walkRepairs, r);
    || !tools.walkRepairs(r).ok
    || (exists i :: 0 <= i < |tools.optIns| && !tools.optIns[i].repair(StateAt(start, tools.optIns, i)).ok)
    || !tools.formatters(AfterLinters(r, tools)).ok
    || (exists p :: Reported(r, tools, p) && p !in r.index && p !in AfterTools(r, tools).worktree)
  }

  // The isolated run fails, or one of its blobs cannot be read back.
  predicate IsolationFails(r: Repo, tools: Tools) {
    match tools.isolate(map q | q in PartlyStaged(r) :: r.index[q].content)
    case None => true
    case Some(f) => exists p :: p in PartlyStaged(r) && p !in f
  }

  lemma {:induction false} ObserveAllOk(start: Repo, ls: seq<OptIn>)
    ensures ObserveAll(start, ls).ok <==> forall i :: 0 <= i < |ls| ==> ls[i].repair(StateAt(start, ls, i)).ok
    decreases ls
  {
    hide Outputs;
    if ls != [] {
      var next := Run(ls[0].repair, start);
      ObserveAllOk(next, ls[1..]);
      assert StateAt(start, ls, 0) == start;
      forall i | 0 <= i < |ls[1..]|
        ensures ls[1..][i].repair(StateAt(next, ls[1..], i)).ok == ls[i + 1].repair(StateAt(start, ls, i + 1)).ok
      {
        LaterState(start, ls, i);
      }
      if ObserveAll(start, ls).ok {
        forall i | 0 <= i < |ls|
          ensures ls[i].repair(StateAt(start, ls, i)).ok
        {
          if i > 0 { assert ls[1..][i - 1].repair(StateAt(next, ls[1..], i - 1)).ok; }
        }
      } else if ls[0].repair(start).ok {
        var i :| 0 <= i < |ls[1..]| && !ls[1..][i].repair(StateAt(next, ls[1..], i)).ok;
        assert !ls[i + 1].repair(StateAt(start, ls, i + 1)).ok;
      }
    }
  }

  lemma PipelineOkIff(r: Repo, tools: Tools)
    ensures Pipeline(r, tools).ok <==>
            && tools.walkRepairs(r).ok && tools.formatters(AfterLinters(r, tools)).ok
            && forall i :: 0 <= i < |tools.optIns| ==> tools.optIns[i].repair(StateAt(Run(tools.walkRepairs, r), tools.optIns, i)).ok
    ensures Pipeline(r, tools).ok ==> Pipeline(r, tools).repo == AfterTools(r, tools)
    ensures Pipeline(r, tools).ok ==> forall p :: p in Pipeline(r, tools).outputs <==> Reported(r, tools, p)
  {
    hide ReportedBy;
    var start := Run(tools.walkRepairs, r);
    ObserveAllOk(start, tools.optIns);
    ObserveAllReports(start, tools.optIns);
    if Pipeline(r, tools).ok {
      forall p | Reported(r, tools, p)
        ensures p in Pipeline(r, tools).outputs
      {
        ReportsAreCollected(start, tools.optIns, p);
      }
    }
  }

  lemma FullLaneFailsIff(r: Repo, tools: Tools)
    requires ToFormat(r) != {}
    ensures !FullLane(r, tools).ok <==> FullLaneFails(r, tools)
  {
    hide Pipeline, Reported, ToFormat, FullyStaged;
    PipelineOkIff(r, tools);
    PipelineHistory(r, tools);
    var o := Pipeline(r, tools);
    if o.ok {
      var paths := ToRestage(o.repo, FullyStaged(r), o.outputs);
      RestagedTracked(r, o.repo, FullyStaged(r), o.outputs);
      assert AddPaths(o.repo, paths).None? <==> exists p :: p in paths && p !in o.repo.worktree && p !in r.index;
    }
  }

  // A path that is restaged without having been reported is in the index.
  lemma RestagedTracked(r: Repo, after: Repo, full: set<Path>, outputs: set<Path>)
    requires SameHistory(r, after)
    ensures forall p :: p in ToRestage(after, full, outputs) ==> p in outputs || p in r.index
    ensures outputs <= ToRestage(after, full, outputs)
  {}

  lemma PartialLaneFailsIff(r: Repo, s: Repo, tools: Tools)
    requires StagedBlobs(s, PartlyStaged(r)) == StagedBlobs(r, PartlyStaged(r)) && PartlyStaged(r) != {}
    ensures !PartialLane(s, PartlyStaged(r), tools.isolate).ok <==> IsolationFails(r, tools)
  {
    BlobsAreStaged(r);
    var blobs := StagedBlobs(r, PartlyStaged(r));
    assert forall p :: p in PartlyStaged(r) ==> p in r.index;
    assert blobs.Keys == PartlyStaged(r);
  }

  // The partial lane finds the blobs as they were staged.
  lemma BlobsKept(r: Repo, tools: Tools)
    requires FullLane(r, tools).ok
    ensures StagedBlobs(FullLane(r, tools).repo, PartlyStaged(r)) == StagedBlobs(r, PartlyStaged(r))
  {
    hide Reported, Pipeline;
    if ToFormat(r) != {} {
      FullLaneIndex(r, tools);
      forall p | p in PartlyStaged(r)
        ensures At(FullLane(r, tools).repo.index, p) == At(r.index, p)
      {
        if p in Pipeline(r, tools).outputs { ReportedIsUnstaged(r, tools, p); }
      }
      assert forall p :: p in PartlyStaged(r) ==> At(FullLane(r, tools).repo.index, p) == At(r.index, p);
    }
  }

  /** A run that is not refused and has something to do fails exactly when a lane does: the full one, if a fully staged file
      is to be formatted, or the isolated one, if a file is partly staged. */
  lemma FailedIff(r: Repo, s: Settings, tools: Tools)
    ensures RunStaged(r, s, tools).outcome == Failed <==>
            && !Refuses(s) && !OnlyDeletions(r)
            && ((ToFormat(r) != {} && FullLaneFails(r, tools)) || (PartlyStaged(r) != {} && IsolationFails(r, tools)))
  {
    hide ToFormat, PartlyStaged, FullLaneFails, IsolationFails, OnlyDeletions, Pipeline, ToRestage, StagedBlobs;
    NothingToFormat(r);
    if ToFormat(r) != {} { FullLaneFailsIff(r, tools); }
    if FullLane(r, tools).ok {
      BlobsKept(r, tools);
      if PartlyStaged(r) != {} { PartialLaneFailsIff(r, FullLane(r, tools).repo, tools); }
    }
  }

  // The paths whose index entry the full lane renews, and those whose blob the partial lane changes.
  ghost predicate Renewed(r: Repo, tools: Tools, p: Path) {
    ToFormat(r) != {}
    && (Reported(r, tools, p)
        || (p in FullyStaged(r) && p in r.index && At(AfterTools(r, tools).worktree, p) != At(r.index, p)))
  }

  ghost predicate Reformatted(r: Repo, tools: Tools, p: Path) {
    p in PartlyStaged(r) && IsolatedFile(r, tools, p) != At(r.index, p)
  }

  /** A successful run leaves the worktree as its tools did, untouched if no fully staged file is to be formatted, and counts
      exactly the renewed and the reformatted paths: none of them means conformant, and otherwise the option decides. */
  lemma SuccessReport(r: Repo, s: Settings, tools: Tools)
    requires Succeeded(RunStaged(r, s, tools).outcome)
    ensures RunStaged(r, s, tools).repo.worktree == if ToFormat(r) == {} then r.worktree else AfterTools(r, tools).worktree
    ensures exists renewed: set<Path>, reformatted: set<Path> ::
              && (forall p :: p in renewed <==> Renewed(r, tools, p))
              && (forall p :: p in reformatted <==> Reformatted(r, tools, p))
              && var total := |renewed| + |reformatted|;
                 RunStaged(r, s, tools).outcome ==
                 if total == 0 then Conformant else if s.exitZeroOnFix then RestagedExitZero(total) else Restaged(total)
  {
    hide Pipeline, Reported, ToFormat, FullyStaged, PartlyStaged, ToRestage, IsolatedFile, StagedBlobs;
    var full := FullLane(r, tools);
    BlobsKept(r, tools);
    var renewed := FullCount(r, tools);
    var reformatted := PartialCount(r, full.repo, tools);
  }

  lemma FullCount(r: Repo, tools: Tools) returns (renewed: set<Path>)
    requires FullLane(r, tools).ok
    ensures forall p :: p in renewed <==> Renewed(r, tools, p)
    ensures FullLane(r, tools).count == |renewed|
    ensures FullLane(r, tools).repo.worktree == if ToFormat(r) == {} then r.worktree else AfterTools(r, tools).worktree
  {
    hide Pipeline, Reported, ToFormat, FullyStaged;
    if ToFormat(r) == {} {
      renewed := {};
    } else {
      var o := Pipeline(r, tools);
      FullLaneIndex(r, tools);
      PipelineOkIff(r, tools);
      renewed := ToRestage(o.repo, FullyStaged(r), o.outputs);
      forall p
        ensures p in renewed <==> Renewed(r, tools, p)
      {
        RestagedIs(r, o.repo, o.outputs, p);
      }
    }
  }

  lemma RestagedIs(r: Repo, after: Repo, outputs: set<Path>, p: Path)
    requires SameHistory(r, after)
    ensures p in ToRestage(after, FullyStaged(r), outputs) <==>
            p in outputs || (p in FullyStaged(r) && p in r.index && At(after.worktree, p) != At(r.index, p))
  {
    if p in FullyStaged(r) {
      StagedStaysDirty(r, after, p);
      UnstagedColumnIff(after, p);
    }
  }

  lemma PartialCount(r: Repo, s: Repo, tools: Tools) returns (reformatted: set<Path>)
    requires StagedBlobs(s, PartlyStaged(r)) == StagedBlobs(r, PartlyStaged(r))
    requires PartialLane(s, PartlyStaged(r), tools.isolate).ok
    ensures forall p :: p in reformatted <==> Reformatted(r, tools, p)
    ensures PartialLane(s, PartlyStaged(r), tools.isolate).count == |reformatted|
    ensures PartialLane(s, PartlyStaged(r), tools.isolate).repo.worktree == s.worktree
  {
    BlobsAreStaged(r);
    if PartlyStaged(r) == {} {
      reformatted := {};
    } else {
      var blobs := StagedBlobs(r, PartlyStaged(r));
      assert forall p :: p in PartlyStaged(r) ==> p in r.index;
      assert blobs.Keys == PartlyStaged(r);
      var changed := ChangedBlobs(blobs, tools.isolate(blobs)).value;
      reformatted := changed.Keys;
      KeysCount(changed);
    }
  }

  lemma KeysCount(m: Blobs)
    ensures |m| == |m.Keys|
  {}

  // A staged new file "f"; a committed file "g" which a linter rewrites and a formatter then removes.
  function ExampleTree(g: string): Tree {
    map["f" := File("100644", "f"), "g" := File("100644", g)]
  }

  function ExampleRepo(worktree: Tree): Repo {
    Repo(Some(map["g" := File("100644", "g")]), ExampleTree("g"), worktree, p => false)
  }

  function ExampleLinter(): OptIn {
    OptIn(false, false, (x: Repo) => Ran(ExampleTree("new"), true))
  }

  function ExampleTools(): Tools {
    Tools((x: Repo) => Ran(x.worktree, true), [ExampleLinter()],
          (x: Repo) => Ran(map["f" := File("100644", "f")], true), (b: Blobs) => Some(b))
  }

  lemma ExampleStatus()
    ensures var r := ExampleRepo(ExampleTree("g"));
            && FullyStaged(r) == ToFormat(r) == {"f"} && PartlyStaged(r) == {} && Dirty(r) == {"f"}
    ensures Dirty(ExampleRepo(ExampleTree("new"))) == {"f", "g"}
    ensures EntryOf(ExampleRepo(ExampleTree("new")), "g") == Entry(' ', 'M', "g")
  {
    var r := ExampleRepo(ExampleTree("g"));
    assert EntryOf(r, "f") == Entry('A', ' ', "f");
    assert EntryOf(r, "g") == Entry(' ', ' ', "g");
  }

  lemma ExampleOutputs()
    ensures Outputs(ExampleLinter(), ExampleRepo(ExampleTree("g")), ExampleRepo(ExampleTree("new"))) == {"g"}
  {
    hide FullyStaged, ToFormat, PartlyStaged, Dirty;
    var before, after := ExampleRepo(ExampleTree("g")), ExampleRepo(ExampleTree("new"));
    ExampleStatus();
    assert EntryOf(after, "g") in StatusEntries(after, false);
  }

  lemma ExamplePipeline()
    ensures Pipeline(ExampleRepo(ExampleTree("g")), ExampleTools()) ==
            Observed(ExampleRepo(map["f" := File("100644", "f")]), {"g"}, true)
  {
    hide Outputs;
    ExampleOutputs();
    var before, after := ExampleRepo(ExampleTree("g")), ExampleRepo(ExampleTree("new"));
    assert Observe(before, ExampleLinter()) == Observed(after, {"g"}, true);
    assert [ExampleLinter()][1..] == [];
    assert ObserveAll(after, []) == Observed(after, {}, true);
    assert ObserveAll(before, [ExampleLinter()]) == Observed(after, {"g"}, true);
  }

  /** The tiers bound what is reported, not what `git add` does later: here no linter opted into staging
      deletions, yet a path a linter reported as modified leaves the index because a formatter removed it. */
  lemma DeletionWithoutTierFour()
    ensures var r, s, tools := ExampleRepo(ExampleTree("g")), Settings(false, false, true, false), ExampleTools();
            && Succeeded(RunStaged(r, s, tools).outcome)
            && (forall l :: l in tools.optIns ==> !l.stageDeleted)
            && "g" !in FullyStaged(r) + PartlyStaged(r)
            && "g" in r.index && "g" !in RunStaged(r, s, tools).repo.index
  {
    hide Pipeline, FullyStaged, PartlyStaged, ToFormat, Dirty;
    var r, s, tools := ExampleRepo(ExampleTree("g")), Settings(false, false, true, false), ExampleTools();
    var last := ExampleRepo(map["f" := File("100644", "f")]);
    ExampleStatus();
    ExamplePipeline();
    assert ToRestage(last, {"f"}, {"g"}) == {"g"};
    TakeAt(last.index, {"g"}, last.worktree, "g");
    assert FullLane(r, tools).ok && FullLane(r, tools).count == 1;
    LeavesIndexIff(r, s, tools, "g");
  }

  // ---- the run as it is carried out on the repository ----

  method ObserveRepair(repo: Repository, l: OptIn) returns (outputs: set<Path>, ok: bool)
    modifies repo`worktree
    ensures Observed(repo.Snapshot(), outputs, ok) == Observe(old(repo.Snapshot()), l)
  {
    hide StatusPaths, StatusEntries;
    var before := StatusPaths(repo.Snapshot(), l.stageNew);
    ok := repo.Execute(l.repair);
    outputs := {};
    if !ok { return; }
    var after := StatusEntries(repo.Snapshot(), l.stageNew);
    var rest := after;
    while rest != {}
      invariant rest <= after
      invariant outputs == set e | e in after - rest && e.path !in before && (IsDeletion(e) ==> l.stageDeleted) :: e.path
      decreases |rest|
    {
      var e :| e in rest;
      rest := rest - {e};
      if e.path in before { continue; }
      if IsDeletion(e) && !l.stageDeleted { continue; }
      outputs := outputs + {e.path};
    }
  }

  method RunPipeline(repo: Repository, tools: Tools) returns (outputs: set<Path>, ok: bool)
    modifies repo`worktree
    ensures Observed(repo.Snapshot(), outputs, ok).ok == Pipeline(old(repo.Snapshot()), tools).ok
    ensures repo.Snapshot() == Pipeline(old(repo.Snapshot()), tools).repo
    ensures ok ==> outputs == Pipeline(old(repo.Snapshot()), tools).outputs
  {
    outputs := {};
    ok := repo.Execute(tools.walkRepairs);
    if !ok { return; }
    ghost var walked := repo.Snapshot();
    for i := 0 to |tools.optIns|
      invariant var all, rest := ObserveAll(walked, tools.optIns), ObserveAll(repo.Snapshot(), tools.optIns[i..]);
                all.repo == rest.repo && all.ok == rest.ok && (all.ok ==> all.outputs == outputs + rest.outputs)
      invariant repo.Snapshot().head == walked.head && repo.Snapshot().index == walked.index
    {
      var more;
      assert tools.optIns[i..][1..] == tools.optIns[i + 1..];
      more, ok := ObserveRepair(repo, tools.optIns[i]);
      if !ok { return; }
      outputs := outputs + more;
    }
    assert tools.optIns[|tools.optIns|..] == [];
    ok := repo.Execute(tools.formatters);
  }

  method RestageFullyStaged(repo: Repository, tools: Tools, full: set<Path>,
                            toFormat: set<Path>) returns (count: nat, ok: bool)
    requires full == FullyStaged(repo.Snapshot()) && toFormat == ToFormat(repo.Snapshot())
    modifies repo`worktree, repo`index
    ensures var lane := FullLane(old(repo.Snapshot()), tools);
            repo.Snapshot() == lane.repo && ok == lane.ok && count == lane.count
  {
    count, ok := 0, true;
    if toFormat == {} { return; }
    var outputs;
    outputs, ok := RunPipeline(repo, tools);
    if !ok { return; }
    var toRestage := ToRestage(repo.Snapshot(), full, outputs);
    if toRestage == {} { return; }
    ok := repo.Add(toRestage);
    if ok { count := |toRestage|; }
  }

  method RestagePartialBlobs(repo: Repository, paths: set<Path>,
                             isolate: Blobs -> Option<Blobs>) returns (count: nat, ok: bool)
    modifies repo`index
    ensures var lane := PartialLane(old(repo.Snapshot()), paths, isolate);
            repo.Snapshot() == lane.repo && ok == lane.ok && count == lane.count
  {
    count, ok := 0, true;
    if paths == {} { return; }
    var contents := StagedBlobs(repo.Snapshot(), paths);
    var changed := ChangedBlobs(contents, isolate(contents));
    if changed.None? { ok := false; return; }
    ghost var start := repo.index;
    var rest := changed.value.Keys;
    while rest != {}
      invariant rest <= changed.value.Keys
      invariant repo.index.Keys == start.Keys
      invariant forall p :: p in start ==>
                  repo.index[p] == if p in changed.value.Keys - rest then File(start[p].mode, changed.value[p]) else start[p]
      decreases |rest|
    {
      var p :| p in rest;
      rest := rest - {p};
      repo.index := repo.index[p := File(repo.index[p].mode, changed.value[p])];
    }
    assert repo.index == Repoint(start, changed.value);
    count := |changed.value|;
  }

  method RunStagedLanes(repo: Repository, s: Settings, tools: Tools) returns (outcome: Outcome)
    modifies repo`worktree, repo`index
    ensures Result(repo.Snapshot(), outcome) == RunStaged(old(repo.Snapshot()), s, tools)
  {
    hide FullLane, PartialLane, StatusEntries, FullyStaged, PartlyStaged, ToFormat;
    if s.stdin || s.failOnChange || !s.insideWorktree { return Refused; }
    var full, partly, toFormat := SelectLanes(StatusEntries(repo.Snapshot(), false));
    LanesOfStatus(repo.Snapshot());
    if toFormat == {} && partly == {} { return NothingStaged; }
    var n, ok := RestageFullyStaged(repo, tools, full, toFormat);
    if !ok { return Failed; }
    var m;
    m, ok := RestagePartialBlobs(repo, partly, tools.isolate);
    if !ok { return Failed; }
    return if n + m == 0 then Conformant else if s.exitZeroOnFix then RestagedExitZero(n + m) else Restaged(n + m);
  }
}
