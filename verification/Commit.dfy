/** Committing fixes: which paths a formatting run may carry into HEAD, and what a refusal undoes. */
module Commit {
  import opened Git
  import opened Optional

  datatype Options = Options(allowDirty: bool, amend: bool, exitZeroOnFix: bool)

  /** What the run meets: the configuration, the format run, and git's answers about publication,
      conflict markers and the commit itself. */
  datatype Scene = Scene(
    stdin: bool,
    failOnChange: bool,
    insideWorktree: bool,
    format: Tool,
    published: bool,
    restoreSucceeds: bool,
    conflicted: (Repo, set<Path>) -> set<Path>,
    commitSucceeds: bool)

  datatype Outcome =
    | Refused
    | FormatFailed
    | NothingToCommit
    | PublishedRestored
    | PublishedUnrestored
    | ConflictMarkers(paths: set<Path>)
    | CommitFailed
    | Committed(count: nat)
    | CommittedExitZero(count: nat)

  datatype Result = Result(repo: Repo, outcome: Outcome)

  // The safety policy: None is a refusal, otherwise the paths that were dirty before the run.
  function Preflight(r: Repo, s: Scene, o: Options): Option<set<Path>> {
    if s.stdin || s.failOnChange || !s.insideWorktree then None
    else if o.amend && r.head.None? then None
    else if Dirty(r) != {} && !o.allowDirty then None
    else Some(Dirty(r))
  }

  // The paths the run made dirty.
  function ToCommit(before: Repo, after: Repo): set<Path> {
    Dirty(after) - Dirty(before)
  }

  function RunCommit(r: Repo, s: Scene, o: Options): Result {
    if Preflight(r, s, o).None? then Result(r, Refused)
    else
      var after := Run(s.format, r);
      if !s.format(r).ok then Result(after, FormatFailed) else FinishCommit(r, after, s, o)
  }

  function FinishCommit(before: Repo, after: Repo, s: Scene, o: Options): Result {
    var paths := ToCommit(before, after);
    var conflicted := s.conflicted(after, paths);
    if paths == {} then Result(after, NothingToCommit)
    else if o.amend && s.published then
      if s.restoreSucceeds then Result(RestorePaths(after, paths), PublishedRestored)
      else Result(after, PublishedUnrestored)
    else if conflicted != {} then Result(after, ConflictMarkers(conflicted))
    else if !s.commitSucceeds then Result(after, CommitFailed)
    else Result(CommitPaths(after, paths), if o.exitZeroOnFix then CommittedExitZero(|paths|) else Committed(|paths|))
  }

  predicate Landed(o: Outcome) {
    o.Committed? || o.CommittedExitZero?
  }

  method RunCommitFlow(repo: Repository, s: Scene, o: Options) returns (outcome: Outcome)
    modifies repo
    ensures Result(repo.Snapshot(), outcome) == RunCommit(old(repo.Snapshot()), s, o)
  {
    hide Dirty, FinishCommit;
    var preDirty := Preflight(repo.Snapshot(), s, o);
    if preDirty.None? { return Refused; }
    ghost var before := repo.Snapshot();
    var ok := repo.Execute(s.format);
    if !ok { return FormatFailed; }
    outcome := CommitChanges(repo, s, o, before, preDirty.value);
  }

  method SelectChanged(post: set<Path>, preDirty: set<Path>) returns (toCommit: set<Path>)
    ensures toCommit == post - preDirty
  {
    toCommit := {};
    var rest := post;
    while rest != {}
      invariant rest <= post && toCommit == (post - rest) - preDirty
      decreases |rest|
    {
      var p :| p in rest;
      rest := rest - {p};
      if p !in preDirty { toCommit := toCommit + {p}; }
    }
  }

  method CommitChanges(repo: Repository, s: Scene, o: Options, ghost before: Repo, preDirty: set<Path>)
    returns (outcome: Outcome)
    requires preDirty == Dirty(before)
    modifies repo
    ensures Result(repo.Snapshot(), outcome) == FinishCommit(before, old(repo.Snapshot()), s, o)
  {
    hide Dirty, Take;
    var toCommit := SelectChanged(Dirty(repo.Snapshot()), preDirty);
    if toCommit == {} { return NothingToCommit; }
    if o.amend && s.published {
      if !s.restoreSucceeds { return PublishedUnrestored; }
      var restored := RestorePaths(repo.Snapshot(), toCommit);
      repo.index, repo.worktree := restored.index, restored.worktree;
      return PublishedRestored;
    }
    var conflicted := s.conflicted(repo.Snapshot(), toCommit);
    if conflicted != {} { return ConflictMarkers(conflicted); }
    if !s.commitSucceeds { return CommitFailed; }
    var committed := CommitPaths(repo.Snapshot(), toCommit);
    repo.head, repo.index := committed.head, committed.index;
    return if o.exitZeroOnFix then CommittedExitZero(|toCommit|) else Committed(|toCommit|);
  }

  // A path the run committed was tracked and clean, so HEAD, index and worktree agreed on it before.
  lemma ToCommitWasClean(before: Repo, after: Repo, p: Path)
    requires before.head == after.head && before.index == after.index
    ensures p in ToCommit(before, after) <==> Clean(before, p) && At(after.worktree, p) != At(before.worktree, p)
  {
    CleanAgrees(before, p);
    CleanAgrees(after, p);
  }

  /** Commit isolation: HEAD changes exactly when the run landed, and then exactly on the paths that were clean
      before and that the tools changed, taking the worktree's file; the index follows HEAD on those paths only. */
  lemma CommitIsolation(r: Repo, s: Scene, o: Options, p: Path)
    ensures var t := RunCommit(r, s, o);
            var changed := Clean(r, p) && At(s.format(r).worktree, p) != At(r.worktree, p);
            && (!Landed(t.outcome) ==> t.repo.head == r.head)
            && (Landed(t.outcome) ==> t.repo.head.Some? && t.repo.worktree == s.format(r).worktree)
            && (Landed(t.outcome) && changed ==>
                  At(HeadTree(t.repo), p) == At(t.repo.index, p) == At(s.format(r).worktree, p))
            && (!(Landed(t.outcome) && changed) ==> At(HeadTree(t.repo), p) == At(HeadTree(r), p))
            && (!(Landed(t.outcome) && changed) ==> At(t.repo.index, p) == At(r.index, p))
  {
    hide Dirty, Clean, Take;
    var after := Run(s.format, r);
    var paths := ToCommit(r, after);
    ToCommitWasClean(r, after, p);
    TakeAt(HeadTree(after), paths, after.worktree, p);
    TakeAt(after.index, paths, after.worktree, p);
    TakeAt(after.index, paths, HeadTree(after), p);
    if p in paths { CleanAgrees(r, p); }
  }

  /** A refused published amend puts every path that was clean before the run back to HEAD, in index and worktree,
      and leaves every other path as the tools left it. */
  lemma PublishedAmendRestores(r: Repo, s: Scene, o: Options, p: Path)
    requires RunCommit(r, s, o).outcome == PublishedRestored
    ensures var t := RunCommit(r, s, o).repo;
            && (Clean(r, p) ==> At(t.index, p) == At(t.worktree, p) == At(HeadTree(r), p))
            && (!Clean(r, p) ==> At(t.index, p) == At(r.index, p) && At(t.worktree, p) == At(s.format(r).worktree, p))
  {
    hide Dirty, Clean, Take;
    var after := Run(s.format, r);
    var paths := ToCommit(r, after);
    ToCommitWasClean(r, after, p);
    TakeAt(after.index, paths, HeadTree(after), p);
    TakeAt(after.worktree, paths, HeadTree(after), p);
    CleanAgrees(r, p);
  }

  /** A refused run and a run with nothing to commit leave HEAD and index alone; a refusal changes nothing at all. */
  lemma RefusalChangesNothing(r: Repo, s: Scene, o: Options)
    ensures RunCommit(r, s, o).outcome == Refused ==> RunCommit(r, s, o).repo == r
    ensures RunCommit(r, s, o).outcome == Refused <==>
            s.stdin || s.failOnChange || !s.insideWorktree || (o.amend && r.head.None?) || (Dirty(r) != {} && !o.allowDirty)
  {}

  // The paths that were clean before the run and that its tools changed.
  function Fixes(r: Repo, s: Scene): set<Path> {
    set p | p in HeadTree(r) && Clean(r, p) && At(s.format(r).worktree, p) != At(r.worktree, p)
  }

  lemma ToCommitIsFixes(r: Repo, s: Scene)
    ensures ToCommit(r, Run(s.format, r)) == Fixes(r, s)
  {
    hide Clean, Dirty;
    forall p
      ensures p in ToCommit(r, Run(s.format, r)) <==> p in Fixes(r, s)
    {
      ToCommitWasClean(r, Run(s.format, r), p);
      CleanAgrees(r, p);
    }
  }

  /** Every other outcome, each exactly when its reason is the first that applies: the format run failed, there are no
      fixes, the amended HEAD is published and the fixes were put back or not, some carry conflict markers, git refused the
      commit; else it lands, with the number of fixes. */
  lemma OutcomeReasons(r: Repo, s: Scene, o: Options)
    requires RunCommit(r, s, o).outcome != Refused
    ensures var out, ok, fixes := RunCommit(r, s, o).outcome, s.format(r).ok, Fixes(r, s);
            var shared, marked := o.amend && s.published, s.conflicted(Run(s.format, r), Fixes(r, s));
            && (out == FormatFailed <==> !ok)
            && (out == NothingToCommit <==> ok && fixes == {})
            && (out == PublishedRestored <==> ok && fixes != {} && shared && s.restoreSucceeds)
            && (out == PublishedUnrestored <==> ok && fixes != {} && shared && !s.restoreSucceeds)
            && (forall ps :: out == ConflictMarkers(ps) <==> ok && fixes != {} && !shared && marked != {} && ps == marked)
            && (out == CommitFailed <==> ok && fixes != {} && !shared && marked == {} && !s.commitSucceeds)
            && (Landed(out) <==> ok && fixes != {} && !shared && marked == {} && s.commitSucceeds)
            && (out != PublishedRestored ==> RunCommit(r, s, o).repo.worktree == s.format(r).worktree)
            && (forall n :: out == Committed(n) <==> Landed(out) && !o.exitZeroOnFix && n == |fixes|)
            && (forall n :: out == CommittedExitZero(n) <==> Landed(out) && o.exitZeroOnFix && n == |fixes|)
  {
    hide Fixes, ToCommit, Dirty;
    ToCommitIsFixes(r, s);
  }

  /** Without a commit to build on there is never anything to commit: every tracked path was already dirty. */
  lemma NoHeadNothingToCommit(r: Repo, s: Scene, o: Options)
    requires r.head.None?
    ensures !Landed(RunCommit(r, s, o).outcome)
  {
    var after := Run(s.format, r);
    forall p | p in ToCommit(r, after)
      ensures p in HeadTree(r)
    {
      ToCommitWasClean(r, after, p);
    }
  }
}
