/** HEAD, index and worktree as three trees, git status derived from them, and the git commands the lanes use. */
module Git {
  import opened Optional

  type Path = string

  datatype File = File(mode: string, content: string)

  type Tree = map<Path, File>

  datatype Repo = Repo(head: Option<Tree>, index: Tree, worktree: Tree, ignored: Path -> bool)

  datatype Entry = Entry(staged: char, unstaged: char, path: Path)

  function At(t: Tree, p: Path): Option<File> {
    if p in t then Some(t[p]) else None
  }

  function HeadTree(r: Repo): Tree {
    match r.head
    case None => map[]
    case Some(t) => t
  }

  // ---- status ----

  // The index column: the index against HEAD.
  function StagedColumn(r: Repo, p: Path): char {
    var h, i := At(HeadTree(r), p), At(r.index, p);
    if h == i then ' ' else if h.None? then 'A' else if i.None? then 'D' else 'M'
  }

  // The worktree column: the worktree against the index.
  function UnstagedColumn(r: Repo, p: Path): char {
    var i, w := At(r.index, p), At(r.worktree, p);
    if i.None? || i == w then ' ' else if w.None? then 'D' else 'M'
  }

  lemma StagedColumnIff(r: Repo, p: Path)
    ensures StagedColumn(r, p) == ' ' <==> At(HeadTree(r), p) == At(r.index, p)
    ensures StagedColumn(r, p) == 'A' <==> p !in HeadTree(r) && p in r.index
    ensures StagedColumn(r, p) == 'D' <==> p in HeadTree(r) && p !in r.index
    ensures StagedColumn(r, p) == 'M' <==> p in HeadTree(r) && p in r.index && HeadTree(r)[p] != r.index[p]
  {}

  lemma UnstagedColumnIff(r: Repo, p: Path)
    ensures UnstagedColumn(r, p) == ' ' <==> p !in r.index || At(r.index, p) == At(r.worktree, p)
    ensures UnstagedColumn(r, p) == 'D' <==> p in r.index && p !in r.worktree
    ensures UnstagedColumn(r, p) == 'M' <==> p in r.index && p in r.worktree && r.index[p] != r.worktree[p]
  {}

  function EntryOf(r: Repo, p: Path): Entry {
    Entry(StagedColumn(r, p), UnstagedColumn(r, p), p)
  }

  function Tracked(r: Repo): set<Path> {
    HeadTree(r).Keys + r.index.Keys
  }

  // The tracked paths with staged or unstaged changes.
  function Dirty(r: Repo): set<Path> {
    set p | p in Tracked(r) && (StagedColumn(r, p) != ' ' || UnstagedColumn(r, p) != ' ')
  }

  function Untracked(r: Repo): set<Path> {
    set p | p in r.worktree.Keys && p !in r.index && !r.ignored(p)
  }

  function StatusEntries(r: Repo, untracked: bool): set<Entry> {
    (set p | p in Dirty(r) :: EntryOf(r, p)) + (if untracked then set p | p in Untracked(r) :: Entry('?', '?', p) else {})
  }

  function StatusPaths(r: Repo, untracked: bool): set<Path> {
    Dirty(r) + (if untracked then Untracked(r) else {})
  }

  /** The status lists a path exactly when HEAD, index and worktree do not agree on it, or, where untracked files are
      wanted, when it is only in the worktree and not ignored. */
  lemma StatusIff(r: Repo, untracked: bool, e: Entry)
    ensures e in StatusEntries(r, untracked) <==>
            || (e == EntryOf(r, e.path)
                && (At(HeadTree(r), e.path) != At(r.index, e.path)
                    || (e.path in r.index && At(r.index, e.path) != At(r.worktree, e.path))))
            || (untracked && e == Entry('?', '?', e.path) && e.path in r.worktree && e.path !in r.index && !r.ignored(e.path))
    ensures e in StatusEntries(r, untracked) ==> e.path in StatusPaths(r, untracked)
    ensures e.path in StatusPaths(r, untracked) ==> exists f :: f in StatusEntries(r, untracked) && f.path == e.path
  {
    if e.path in Dirty(r) { assert EntryOf(r, e.path) in StatusEntries(r, untracked); }
    if untracked && e.path in Untracked(r) { assert Entry('?', '?', e.path) in StatusEntries(r, untracked); }
  }

  // A tracked path on which HEAD, index and worktree agree.
  predicate Clean(r: Repo, p: Path) {
    p in Tracked(r) && p !in Dirty(r)
  }

  lemma CleanAgrees(r: Repo, p: Path)
    ensures Clean(r, p) <==> p in HeadTree(r) && At(HeadTree(r), p) == At(r.index, p) == At(r.worktree, p)
  {}

  // ---- commands ----

  // A tree with the given paths taken from another one, absent ones included.
  function Take(t: Tree, paths: set<Path>, source: Tree): Tree {
    map p | p in t.Keys + source.Keys && (if p in paths then p in source else p in t)
        :: if p in paths then source[p] else t[p]
  }

  lemma TakeAt(t: Tree, paths: set<Path>, source: Tree, p: Path)
    ensures At(Take(t, paths, source), p) == if p in paths then At(source, p) else At(t, p)
  {}

  // `git add`: fails, changing nothing, when a path is neither in the worktree nor in the index.
  function AddPaths(r: Repo, paths: set<Path>): Option<Repo> {
    if paths <= r.worktree.Keys + r.index.Keys
    then Some(r.(index := Take(r.index, paths, r.worktree)))
    else None
  }

  // `git restore --source=HEAD --staged --worktree`.
  function RestorePaths(r: Repo, paths: set<Path>): Repo {
    r.(index := Take(r.index, paths, HeadTree(r)), worktree := Take(r.worktree, paths, HeadTree(r)))
  }

  // `git commit -- <paths>`: HEAD and index take exactly these paths from the worktree.
  function CommitPaths(r: Repo, paths: set<Path>): Repo {
    r.(head := Some(Take(HeadTree(r), paths, r.worktree)), index := Take(r.index, paths, r.worktree))
  }

  // ---- tools ----

  // A tool may read everything and leaves any worktree behind, successfully or not.
  datatype Ran = Ran(worktree: Tree, ok: bool)

  type Tool = Repo -> Ran

  function Run(tool: Tool, r: Repo): Repo {
    r.(worktree := tool(r).worktree)
  }

  // The repository as the lanes change it.
  class Repository {
    var head: Option<Tree>
    var index: Tree
    var worktree: Tree
    const ignored: Path -> bool

    function Snapshot(): Repo
      reads this
    {
      Repo(head, index, worktree, ignored)
    }

    method Execute(tool: Tool) returns (ok: bool)
      modifies this`worktree
      ensures Snapshot() == Run(tool, old(Snapshot())) && ok == tool(old(Snapshot())).ok
    {
      var ran := tool(Snapshot());
      worktree := ran.worktree;
      ok := ran.ok;
    }

    method Add(paths: set<Path>) returns (ok: bool)
      modifies this`index
      ensures ok == AddPaths(old(Snapshot()), paths).Some?
      ensures Snapshot() == if ok then AddPaths(old(Snapshot()), paths).value else old(Snapshot())
    {
      var added := AddPaths(Snapshot(), paths);
      ok := added.Some?;
      if ok { index := added.value.index; }
    }
  }
}
