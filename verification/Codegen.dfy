/** The codegen-repair loop: discover, build, apply one patch, rebuild, until nothing is left to apply. */
module Codegen {
  import opened Optional

  type Path = string
  type Tree = map<Path, string>

  datatype IndexEntry = Staged(content: string) | IntentToAdd

  // What a pass can change: the worktree (by applying a patch) and the index (by tracking created files).
  datatype World = World(worktree: Tree, index: map<Path, IndexEntry>)

  // A discovered check; `usable` is the verdict of its own validation.
  datatype Check = Check(name: string, usable: bool)

  datatype Build = BuildFailed | NoPatchFile | EmptyPatch | Patch(diff: string)

  /** Everything outside the session, as answers that may depend on the moment they are asked for. */
  datatype Host = Host(
    discover: (nat, World) -> Option<seq<Check>>,
    build: (nat, World, string) -> Build,
    appliesForward: (nat, World, Check, string) -> bool,
    appliesReverse: (nat, World, Check, string) -> bool,
    apply: (nat, World, Check, string) -> Option<Tree>,
    statusReadable: nat -> bool,
    addSucceeds: nat -> bool,
    removeSucceeds: nat -> bool,
    ignored: Path -> bool,
    head: Tree)
  {
    function Untracked(w: World): set<Path> {
      set p | p in w.worktree && p !in w.index && !ignored(p)
    }

    function Changed(w: World): set<Path> {
      set p | p in head.Keys + w.index.Keys &&
              !(p in head && p in w.index && p in w.worktree &&
                w.index[p] == Staged(head[p]) && w.worktree[p] == head[p])
    }

    // The paths `git status --untracked-files=all` lists.
    function StatusPaths(w: World): set<Path> {
      Untracked(w) + Changed(w)
    }

    // At moment t the check had nothing to apply to this world: an empty patch, or one already in the tree.
    predicate UpToDate(t: nat, w: World, c: Check) {
      match build(t, w, c.name)
      case EmptyPatch => true
      case Patch(diff) => !appliesForward(t + 1, w, c, diff) && appliesReverse(t + 2, w, c, diff)
      case _ => false
    }

    // What a patch that leaves this tree created: new, neither committed nor in the index, not ignored.
    function Created(w: World, tree: Tree): set<Path> {
      set p | p in tree && p !in w.worktree && p !in w.index && p !in head && !ignored(p)
    }

    // At moment t the check's patch applied to this world and left the other one: its worktree, and in the index the
    // created files, unless git could not list or add them.
    predicate Patches(t: nat, w: World, c: Check, after: World) {
      match build(t, w, c.name)
      case Patch(diff) =>
        && appliesForward(t + 1, w, c, diff) && apply(t + 3, w, c, diff) == Some(after.worktree)
        && after.index == if statusReadable(t + 2) && statusReadable(t + 4) && addSucceeds(t + 5)
                          then w.index + Intents(Created(w, after.worktree)) else w.index
      case _ => false
    }

    // At moment t the check's patch did not go into this world: neither check passed, or applying it failed.
    predicate Conflicts(t: nat, w: World, c: Check) {
      match build(t, w, c.name)
      case Patch(diff) =>
        if appliesForward(t + 1, w, c, diff) then apply(t + 3, w, c, diff).None? else !appliesReverse(t + 2, w, c, diff)
      case _ => false
    }

    // The check's build at moment t gave no patch file.
    predicate BuildFails(t: nat, w: World, name: string) {
      build(t, w, name).BuildFailed? || build(t, w, name).NoPatchFile?
    }
  }

  // What a run did: built a check in the world of a moment, applied the patch just built, gave a check up.
  datatype Event =
    | Built(name: string, moment: nat, built: World)
    | Patched(check: Check, after: World)
    | GaveUp(check: Check)

  datatype Repair = Soft | Refused | Current | Applied

  datatype Outcome =
    | DiscoveryFailed
    | DiscoverySkipped
    | NoChecks
    | NotConverged(names: seq<string>)
    | PatchRefused
    | Unrepaired(names: seq<string>)
    | Converged

  // A run of n checks may apply this many patches before it is called a cycle.
  function PassLimit(n: nat): nat {
    2 * n + 2
  }

  // ---- what the log of a run keeps ----

  function GivenUp(log: seq<Event>): seq<string> {
    if log == [] then []
    else
      var front, last := log[..|log| - 1], log[|log| - 1];
      if last.GaveUp? then GivenUp(front) + [last.check.name] else GivenUp(front)
  }

  function Repaired(log: seq<Event>): seq<string> {
    if log == [] then []
    else
      var front, last := log[..|log| - 1], log[|log| - 1];
      if last.Patched? then Repaired(front) + [last.check.name] else Repaired(front)
  }

  // The world after these events of a run that started from another one.
  function WorldAfter(log: seq<Event>, start: World): World {
    if log == [] then start
    else if log[|log| - 1].Patched? then log[|log| - 1].after
    else WorldAfter(log[..|log| - 1], start)
  }

  // No check is built after the run gave it up.
  predicate NeverRebuilt(log: seq<Event>) {
    forall i, j :: 0 <= i < j < |log| && log[i].GaveUp? && log[j].Built? ==> log[i].check.name != log[j].name
  }

  // The event before position k built this check.
  predicate JustBuilt(log: seq<Event>, k: nat, name: string) {
    0 < k <= |log| && log[k - 1].Built? && log[k - 1].name == name
  }

  // Every build was made in the world of its moment, a moment of this run; every patch came from the build just made
  // and applied to that world; every check given up was unusable or its build just made had failed.
  predicate Honest(host: Host, start: World, begin: nat, end: nat, log: seq<Event>) {
    forall k :: 0 <= k < |log| ==> HonestAt(host, start, begin, end, log, k)
  }

  predicate HonestAt(host: Host, start: World, begin: nat, end: nat, log: seq<Event>, k: nat)
    requires k < |log|
  {
    match log[k]
    case Built(_, t, w) => begin <= t < end && w == WorldAfter(log[..k], start)
    case Patched(c, after) =>
      c.usable && JustBuilt(log, k, c.name) && host.Patches(log[k - 1].moment, log[k - 1].built, c, after)
    case GaveUp(c) =>
      !c.usable || (JustBuilt(log, k, c.name) && host.BuildFails(log[k - 1].moment, log[k - 1].built, c.name))
  }

  lemma LogAppend(log: seq<Event>, e: Event, start: World)
    ensures GivenUp(log + [e]) == if e.GaveUp? then GivenUp(log) + [e.check.name] else GivenUp(log)
    ensures Repaired(log + [e]) == if e.Patched? then Repaired(log) + [e.check.name] else Repaired(log)
    ensures WorldAfter(log + [e], start) == if e.Patched? then e.after else WorldAfter(log, start)
  {
    assert (log + [e])[..|log|] == log;
  }

  lemma {:induction false} GivenUpMember(log: seq<Event>, i: nat)
    requires i < |log| && log[i].GaveUp?
    ensures log[i].check.name in GivenUp(log)
  {
    if i < |log| - 1 { GivenUpMember(log[..|log| - 1], i); }
  }

  /** Every name given up has its reason in the log. */
  lemma {:induction false} GivenUpReason(log: seq<Event>, name: string)
    requires name in GivenUp(log)
    ensures exists k :: 0 <= k < |log| && log[k].GaveUp? && log[k].check.name == name
  {
    var n := |log| - 1;
    if !(log[n].GaveUp? && log[n].check.name == name) {
      GivenUpReason(log[..n], name);
      var k :| 0 <= k < |log[..n]| && log[..n][k].GaveUp? && log[..n][k].check.name == name;
      assert log[k] == log[..n][k];
    }
  }

  // At this point of the log the check was found unusable, or its build had just failed, at a moment of the run and in
  // the world of that moment.
  predicate Hopeless(host: Host, start: World, begin: nat, end: nat, log: seq<Event>, k: nat, c: Check) {
    !c.usable || (JustBuilt(log, k, c.name) && begin <= log[k - 1].moment < end
                  && log[k - 1].built == WorldAfter(log[..k - 1], start)
                  && host.BuildFails(log[k - 1].moment, log[k - 1].built, c.name))
  }

  /** Every name an honest log gives up belongs to a check that was hopeless in that run. */
  lemma GivenUpWasHopeless(host: Host, start: World, begin: nat, end: nat, log: seq<Event>, name: string)
    requires Honest(host, start, begin, end, log) && name in GivenUp(log)
    ensures exists k, c: Check :: 0 <= k < |log| && c.name == name && Hopeless(host, start, begin, end, log, k, c)
  {
    hide WorldAfter;
    GivenUpReason(log, name);
    var k :| 0 <= k < |log| && log[k].GaveUp? && log[k].check.name == name;
    assert HonestAt(host, start, begin, end, log, k);
    assert k > 0 ==> HonestAt(host, start, begin, end, log, k - 1);
    assert Hopeless(host, start, begin, end, log, k, log[k].check);
  }

  // A check that was not given up may be built without breaking the record.
  lemma BuildKeepsLog(log: seq<Event>, e: Event)
    requires NeverRebuilt(log) && (e.Built? ==> e.name !in GivenUp(log))
    ensures NeverRebuilt(log + [e])
  {
    forall i | 0 <= i < |log| && log[i].GaveUp?
      ensures log[i].check.name in GivenUp(log)
    {
      GivenUpMember(log, i);
    }
  }

  lemma HonestAppend(host: Host, start: World, begin: nat, end: nat, later: nat, log: seq<Event>, e: Event)
    requires Honest(host, start, begin, end, log) && end <= later
    requires HonestAt(host, start, begin, later, log + [e], |log|)
    ensures Honest(host, start, begin, later, log + [e])
  {
    forall k | 0 <= k < |log|
      ensures HonestAt(host, start, begin, later, log + [e], k)
    {
      assert HonestAt(host, start, begin, end, log, k) && (log + [e])[..k] == log[..k];
    }
  }

  // ---- what intent-to-add bookkeeping keeps ----

  // The index is the one the run started from plus the entries it added, which were all new.
  predicate Restorable(index: map<Path, IndexEntry>, added: set<Path>, start: map<Path, IndexEntry>) {
    added !! start.Keys && added <= index.Keys && index - added == start
  }

  function Intents(paths: set<Path>): map<Path, IndexEntry> {
    map p | p in paths :: IntentToAdd
  }

  lemma TrackingKeepsRestorable(index: map<Path, IndexEntry>, added: set<Path>, start: map<Path, IndexEntry>,
                                created: set<Path>)
    requires Restorable(index, added, start) && created !! index.Keys
    ensures Restorable(index + Intents(created), added + created, start)
  {
    var next := index + Intents(created);
    assert start.Keys == index.Keys - added;
    assert (next - (added + created)).Keys == start.Keys;
    forall p | p in start
      ensures next[p] == start[p]
    {
      assert start[p] == (index - added)[p];
    }
  }

  class Session {
    const host: Host
    const strict: bool
    var world: World
    var clock: nat
    var intentAdded: set<Path>
    var unrepaired: seq<string>
    var appliedNames: seq<string>
    ghost var log: seq<Event>
    ghost var discoveries: nat

    constructor (host: Host, strict: bool, world: World, clock: nat)
      ensures this.host == host && this.strict == strict && this.world == world && this.clock == clock
      ensures intentAdded == {} && unrepaired == [] && appliedNames == [] && log == [] && discoveries == 0
    {
      this.host, this.strict, this.world, this.clock := host, strict, world, clock;
      intentAdded, unrepaired, appliedNames, log, discoveries := {}, [], [], [], 0;
    }

    // The session's fields are what its log says of a run that started from this world at this moment.
    ghost predicate Valid(start: World, begin: nat)
      reads this
    {
      && begin <= clock && NeverRebuilt(log) && Honest(host, start, begin, clock, log)
      && unrepaired == GivenUp(log) && appliedNames == Repaired(log) && world == WorldAfter(log, start)
      && Restorable(world.index, intentAdded, start.index)
    }

    // At a moment from `since` to before `until` the check had nothing left to apply to this world.
    ghost predicate Settled(c: Check, w: World, since: nat, until: nat) {
      exists t :: since <= t < until && host.UpToDate(t, w, c)
    }

    // The checks were discovered in this world at a moment from `since` to before `until`.
    ghost predicate Discovered(checks: seq<Check>, w: World, since: nat, until: nat) {
      exists t :: since <= t < until && host.discover(t, w) == Some(checks)
    }

    ghost predicate Undiscovered(w: World, since: nat, until: nat) {
      exists t :: since <= t < until && host.discover(t, w).None?
    }

    // At a moment from `since` to before `until` the patch of one of these checks did not go into this world.
    ghost predicate InConflict(checks: seq<Check>, w: World, since: nat, until: nat) {
      exists c, t :: c in checks && c.usable && since <= t < until && host.Conflicts(t, w, c)
    }

    method TrackCreated(before: set<Path>, ghost start: map<Path, IndexEntry>)
      requires Restorable(world.index, intentAdded, start)
      modifies this`world, this`intentAdded, this`clock
      ensures Restorable(world.index, intentAdded, start)
      ensures world.worktree == old(world.worktree) && clock >= old(clock)
      ensures var created := host.Untracked(old(world)) - before;
              if host.statusReadable(old(clock)) && host.addSucceeds(old(clock) + 1)
              then intentAdded == old(intentAdded) + created && world.index == old(world.index) + Intents(created)
              else intentAdded == old(intentAdded) && world.index == old(world.index)
    {
      var readable := host.statusReadable(clock);
      clock := clock + 1;
      if !readable { return; }
      var created := host.Untracked(world) - before;
      if created == {} { return; }
      var added := host.addSucceeds(clock);
      clock := clock + 1;
      if !added { return; }
      TrackingKeepsRestorable(world.index, intentAdded, start, created);
      world := world.(index := world.index + Intents(created));
      intentAdded := intentAdded + created;
    }

    method ApplyPatch(check: Check, diff: string, ghost start: map<Path, IndexEntry>) returns (r: Repair)
      requires Restorable(world.index, intentAdded, start)
      modifies this`world, this`intentAdded, this`clock
      ensures Restorable(world.index, intentAdded, start)
      ensures r != Soft && clock > old(clock)
      ensures r != Applied ==> world == old(world) && intentAdded == old(intentAdded)
      ensures r == Current ==> !host.appliesForward(old(clock), world, check, diff) &&
                               host.appliesReverse(old(clock) + 1, world, check, diff)
      ensures r == Applied ==> host.appliesForward(old(clock), old(world), check, diff) &&
                               host.apply(old(clock) + 2, old(world), check, diff) == Some(world.worktree)
      ensures r == Applied ==>
                world.index == if host.statusReadable(old(clock) + 1) && host.statusReadable(old(clock) + 3)
                                  && host.addSucceeds(old(clock) + 4)
                               then old(world.index) + Intents(host.Created(old(world), world.worktree)) else old(world.index)
      ensures r == Refused ==>
                if host.appliesForward(old(clock), world, check, diff)
                then host.apply(old(clock) + 2, world, check, diff).None?
                else !host.appliesReverse(old(clock) + 1, world, check, diff)
    {
      hide Restorable, Intents, Host.Created, Host.Untracked, Host.StatusPaths;
      var forward := host.appliesForward(clock, world, check, diff);
      clock := clock + 1;
      if !forward {
        var backward := host.appliesReverse(clock, world, check, diff);
        clock := clock + 1;
        return if backward then Current else Refused;
      }
      var readable := host.statusReadable(clock);
      var before := host.StatusPaths(world);
      clock := clock + 1;
      var landed := Land(check, diff, readable, before, start);
      return if landed then Applied else Refused;
    }

    // Applying a patch that passed its check, and tracking what it created when the snapshot before could be taken.
    method Land(check: Check, diff: string, readable: bool, before: set<Path>, ghost start: map<Path, IndexEntry>)
      returns (landed: bool)
      requires Restorable(world.index, intentAdded, start) && before == host.StatusPaths(world)
      modifies this`world, this`intentAdded, this`clock
      ensures Restorable(world.index, intentAdded, start) && clock > old(clock)
      ensures host.apply(old(clock), old(world), check, diff) == if landed then Some(world.worktree) else None
      ensures !landed ==> world == old(world) && intentAdded == old(intentAdded)
      ensures landed ==>
                world.index == if readable && host.statusReadable(old(clock) + 1) && host.addSucceeds(old(clock) + 2)
                               then old(world.index) + Intents(host.Created(old(world), world.worktree)) else old(world.index)
    {
      hide Restorable, Intents, Host.Created, Host.Untracked, Host.StatusPaths;
      var patched := host.apply(clock, world, check, diff);
      clock := clock + 1;
      if patched.None? { return false; }
      CreatedIsNew(host, world, patched.value);
      world := world.(worktree := patched.value);
      if readable { TrackCreated(before, start); }
      landed := true;
    }

    // Building and applying one check; the log records what was built in which world.
    method RepairOne(check: Check, ghost start: World, ghost begin: nat) returns (r: Repair)
      requires Valid(start, begin) && check.name !in unrepaired && check.usable
      modifies this`world, this`intentAdded, this`clock, this`log, this`appliedNames
      ensures Valid(start, begin) && clock > old(clock)
      ensures r != Applied ==> world == old(world) && appliedNames == old(appliedNames)
      ensures r == Current ==> host.UpToDate(old(clock), world, check)
      ensures r == Applied ==> appliedNames == old(appliedNames) + [check.name]
                               && host.Patches(old(clock), old(world), check, world)
      ensures r == Refused ==> host.Conflicts(old(clock), world, check)
      ensures r == Soft ==> JustBuilt(log, |log|, check.name)
                            && log[|log| - 1].moment == old(clock) && log[|log| - 1].built == old(world)
                            && host.BuildFails(old(clock), old(world), check.name)
    {
      hide NeverRebuilt, Honest, WorldAfter, GivenUp, Repaired, Restorable, Intents, Host.Created;
      ghost var e := Built(check.name, clock, world);
      ghost var before := log;
      BuildKeepsLog(log, e);
      LogAppend(log, e, start);
      BuiltHonest(host, start, begin, clock, log, e);
      log := log + [e];
      var built := host.build(clock, world, check.name);
      clock := clock + 1;
      match built {
        case BuildFailed => r := Soft;
        case NoPatchFile => r := Soft;
        case EmptyPatch => r := Current;
        case Patch(diff) =>
          ghost var asked := clock;
          r := ApplyPatch(check, diff, start.index);
          HonestLater(host, start, begin, asked, clock, log);
          if r == Applied {
            ghost var p := Patched(check, world);
            BuildKeepsLog(log, p);
            LogAppend(log, p, start);
            PatchHonest(host, start, begin, clock, log, p);
            log := log + [p];
            appliedNames := appliedNames + [check.name];
          }
      }
    }

    method GiveUp(check: Check, ghost start: World, ghost begin: nat)
      requires Valid(start, begin)
      requires !check.usable || (JustBuilt(log, |log|, check.name)
                                 && host.BuildFails(log[|log| - 1].moment, log[|log| - 1].built, check.name))
      modifies this`unrepaired, this`log
      ensures Valid(start, begin) && unrepaired == old(unrepaired) + [check.name]
    {
      hide NeverRebuilt, Honest, WorldAfter, GivenUp, Repaired;
      ghost var e := GaveUp(check);
      BuildKeepsLog(log, e);
      LogAppend(log, e, start);
      GiveUpHonest(host, start, begin, clock, log, e);
      unrepaired := unrepaired + [check.name];
      log := log + [e];
    }

    // One pass: the first outstanding check with a non-empty patch is applied, and the pass ends there.
    method Pass(checks: seq<Check>, ghost start: World, ghost begin: nat) returns (progressed: bool, refused: bool)
      requires Valid(start, begin)
      modifies this`world, this`intentAdded, this`clock, this`log, this`unrepaired, this`appliedNames
      ensures Valid(start, begin) && clock >= old(clock) && !(progressed && refused)
      ensures !progressed ==> appliedNames == old(appliedNames) && world == old(world)
      ensures progressed ==>
                exists k, t ::
                  && 0 <= k < |checks| && old(clock) <= t < clock
                  && checks[k].usable && appliedNames == old(appliedNames) + [checks[k].name]
                  && host.Patches(t, old(world), checks[k], world)
                  && forall c :: c in checks[..k] ==> c.name in unrepaired || Settled(c, old(world), old(clock), clock)
      ensures refused ==>
                exists k, t ::
                  && 0 <= k < |checks| && old(clock) <= t < clock && checks[k].usable && host.Conflicts(t, world, checks[k])
                  && forall c :: c in checks[..k] ==> c.name in unrepaired || Settled(c, world, old(clock), clock)
      ensures !progressed && !refused ==>
                forall c :: c in checks ==> c.name in unrepaired || Settled(c, world, old(clock), clock)
    {
      hide NeverRebuilt, Honest, WorldAfter, GivenUp, Repaired, Restorable;
      for i := 0 to |checks|
        invariant Valid(start, begin) && clock >= old(clock)
        invariant appliedNames == old(appliedNames) && world == old(world)
        invariant forall c :: c in checks[..i] ==> c.name in unrepaired || Settled(c, world, old(clock), clock)
      {
        var check := checks[i];
        assert checks[..i + 1] == checks[..i] + [check];
        if check.name in unrepaired { continue; }
        if !check.usable {
          GiveUp(check, start, begin);
          continue;
        }
        ghost var asked := clock;
        var r := RepairOne(check, start, begin);
        match r
        case Refused =>
          assert host.Conflicts(asked, world, checks[i]);
          return false, true;
        case Soft => GiveUp(check, start, begin);
        case Current => assert Settled(check, world, old(clock), clock);
        case Applied =>
          assert host.Patches(asked, old(world), checks[i], world);
          assert forall c :: c in checks[..i] ==> c.name in unrepaired || Settled(c, old(world), old(clock), clock);
          return true, false;
      }
      assert checks[..|checks|] == checks;
      return false, false;
    }

    method Discover(ghost start: World, ghost begin: nat) returns (found: Option<seq<Check>>)
      requires Valid(start, begin)
      modifies this`clock, this`discoveries
      ensures Valid(start, begin) && clock == old(clock) + 1 && discoveries == old(discoveries) + 1
      ensures found == host.discover(old(clock), world)
    {
      hide NeverRebuilt, Honest, WorldAfter, GivenUp, Repaired, Restorable;
      found := host.discover(clock, world);
      HonestLater(host, start, begin, clock, clock + 1, log);
      clock, discoveries := clock + 1, discoveries + 1;
    }

    method Converge(ghost start: World, ghost begin: nat)
      returns (out: Outcome, ghost first: nat, ghost last: seq<Check>)
      requires Valid(start, begin) && appliedNames == [] && discoveries == 0 && start == world && begin == clock
      modifies this
      ensures Valid(start, begin)
      ensures |appliedNames| <= 2 * first + 2 && discoveries == |appliedNames| + 1
      ensures first > 0 ==> host.discover(begin, start).Some? && first == |host.discover(begin, start).value|
      ensures forall names :: out == NotConverged(names) ==>
                                names == appliedNames && |names| == 2 * first + 2
                                && last != [] && Discovered(last, world, begin, clock)
      ensures out == PatchRefused ==> Discovered(last, world, begin, clock) && InConflict(last, world, begin, clock)
      ensures out == DiscoveryFailed || out == DiscoverySkipped ==> Undiscovered(world, begin, clock)
      ensures out == NoChecks ==> Discovered([], world, begin, clock)
      ensures out == Converged || out.Unrepaired? ==>
                && Discovered(last, world, begin, clock)
                && forall c :: c in last ==> c.name in unrepaired || Settled(c, world, begin, clock)
      ensures out == Converged ==> !strict || unrepaired == []
      ensures out.Unrepaired? ==> strict && unrepaired != [] && out.names == unrepaired
      ensures out == NoChecks ==> last == []
      ensures out == DiscoveryFailed ==> strict
      ensures out == DiscoverySkipped ==> !strict
    {
      hide NeverRebuilt, Honest, WorldAfter, GivenUp, Repaired, Restorable, Host.Conflicts, Host.UpToDate, Host.Patches;
      var limit := 0;
      var pass := 1;
      first, last := 0, [];
      while true
        invariant Valid(start, begin) && pass >= 1 && |appliedNames| == pass - 1 == discoveries
        invariant limit == 0 ==> pass == 1 && first == 0 && world == start && clock == begin
        invariant limit > 0 ==> limit == PassLimit(first) && pass <= limit + 1
        invariant first > 0 ==> host.discover(begin, start).Some? && first == |host.discover(begin, start).value|
        decreases if limit == 0 then 1 else 0, limit + 1 - pass
      {
        ghost var asked := clock;
        var found := Discover(start, begin);
        if found.None? {
          assert host.discover(asked, world).None?;
          return if strict then DiscoveryFailed else DiscoverySkipped, first, last;
        }
        var checks := found.value;
        last := checks;
        assert host.discover(asked, world) == Some(checks);
        if checks == [] { return NoChecks, first, last; }
        if limit == 0 {
          first := |checks|;
          limit := PassLimit(|checks|);
        }
        if pass > limit { return NotConverged(appliedNames), first, last; }
        var progressed, refused := Pass(checks, start, begin);
        if refused {
          assert host.discover(asked, world) == Some(last);
          return PatchRefused, first, last;
        }
        if !progressed {
          assert host.discover(asked, world) == Some(last);
          out := if unrepaired != [] && strict then Unrepaired(unrepaired) else Converged;
          return out, first, last;
        }
        pass := pass + 1;
      }
    }

    method RestoreIndex(ghost start: map<Path, IndexEntry>)
      requires Restorable(world.index, intentAdded, start)
      modifies this`world, this`clock
      ensures world.worktree == old(world.worktree) && clock >= old(clock)
      ensures world.index == start || (world.index == old(world.index) && !host.removeSucceeds(old(clock)))
    {
      if intentAdded == {} { return; }
      var removed := host.removeSucceeds(clock);
      clock := clock + 1;
      if removed {
        world := world.(index := world.index - intentAdded);
      }
    }

    /** One run. Whatever way it ends, the index is back as it was unless dropping the added entries itself fails; the log
        is an honest record of builds, patches and checks given up, none of which is built again; and on convergence every
        check of the last discovery was given up or had nothing to apply to the final world before the restoration, at a
        moment of this run. */
    method Run() returns (out: Outcome, ghost first: nat, ghost last: seq<Check>, ghost removal: nat)
      requires intentAdded == {} && unrepaired == [] && appliedNames == [] && log == [] && discoveries == 0
      modifies this
      ensures old(clock) <= removal <= clock
      ensures host.removeSucceeds(removal) ==> world.index == old(world.index)
      ensures world.index - intentAdded == old(world.index) && intentAdded !! old(world.index).Keys
      ensures Honest(host, old(world), old(clock), removal, log) && NeverRebuilt(log)
      ensures unrepaired == GivenUp(log) && appliedNames == Repaired(log)
      ensures discoveries == |appliedNames| + 1 <= 2 * first + 3
      ensures first > 0 ==>
                host.discover(old(clock), old(world)).Some? && first == |host.discover(old(clock), old(world)).value|
      ensures forall names :: out == NotConverged(names) ==> names == appliedNames && |names| == 2 * first + 2
      ensures var final := WorldAfter(log, old(world));
              && final.worktree == world.worktree
              && (out == PatchRefused ==>
                    Discovered(last, final, old(clock), removal) && InConflict(last, final, old(clock), removal))
              && (out == DiscoveryFailed || out == DiscoverySkipped ==> Undiscovered(final, old(clock), removal))
              && (out == NoChecks ==> Discovered([], final, old(clock), removal))
              && (out == Converged || out.Unrepaired? ==>
                    && Discovered(last, final, old(clock), removal)
                    && forall c :: c in last ==> c.name in unrepaired || Settled(c, final, old(clock), removal))
      ensures strict && (out == Converged) ==> unrepaired == []
      ensures (out.Unrepaired? ==> strict && unrepaired != [] && out.names == unrepaired)
              && (out == DiscoveryFailed ==> strict) && (out == DiscoverySkipped ==> !strict)
    {
      hide NeverRebuilt, Honest;
      NothingLogged(host, world, clock);
      ghost var start, begin := world, clock;
      out, first, last := Converge(start, begin);
      removal := clock;
      RestoreIndex(start.index);
    }
  }

  // A path that git lists as untracked now and did not list before is one the tree gained.
  lemma CreatedIsNew(host: Host, w: World, tree: Tree)
    ensures host.Untracked(w.(worktree := tree)) - host.StatusPaths(w) == host.Created(w, tree)
  {}

  lemma NothingLogged(host: Host, start: World, begin: nat)
    ensures NeverRebuilt([]) && Honest(host, start, begin, begin, [])
  {}

  lemma HonestLater(host: Host, start: World, begin: nat, end: nat, later: nat, log: seq<Event>)
    requires Honest(host, start, begin, end, log) && end <= later
    ensures Honest(host, start, begin, later, log)
  {
    forall k | 0 <= k < |log|
      ensures HonestAt(host, start, begin, later, log, k)
    {
      assert HonestAt(host, start, begin, end, log, k);
    }
  }

  lemma BuiltHonest(host: Host, start: World, begin: nat, end: nat, log: seq<Event>, e: Event)
    requires Honest(host, start, begin, end, log) && begin <= end
    requires e.Built? && e.moment == end && e.built == WorldAfter(log, start)
    ensures Honest(host, start, begin, end + 1, log + [e])
  {
    hide Honest, WorldAfter;
    assert (log + [e])[..|log|] == log;
    HonestAppend(host, start, begin, end, end + 1, log, e);
  }

  lemma PatchHonest(host: Host, start: World, begin: nat, end: nat, log: seq<Event>, e: Event)
    requires Honest(host, start, begin, end, log) && e.Patched? && e.check.usable && JustBuilt(log, |log|, e.check.name)
    requires host.Patches(log[|log| - 1].moment, log[|log| - 1].built, e.check, e.after)
    ensures Honest(host, start, begin, end, log + [e])
  {
    hide Honest, WorldAfter;
    HonestAppend(host, start, begin, end, end, log, e);
  }

  lemma GiveUpHonest(host: Host, start: World, begin: nat, end: nat, log: seq<Event>, e: Event)
    requires Honest(host, start, begin, end, log) && e.GaveUp?
    requires !e.check.usable || (JustBuilt(log, |log|, e.check.name)
                                 && host.BuildFails(log[|log| - 1].moment, log[|log| - 1].built, e.check.name))
    ensures Honest(host, start, begin, end, log + [e])
  {
    hide Honest, WorldAfter;
    HonestAppend(host, start, begin, end, end, log, e);
  }
}
