/** The content-addressed store that a profile's artifacts and rule programs are resolved into. */
module Store {
  import opened Blech32
  import opened Markl
  import opened Optional
  import opened Order

  // A file of the cache: artifacts/<dir>/<name>, or rules/<name>.
  datatype Place = InArtifacts(dir: Bytes, name: string) | InRules(file: Bytes)

  type Files = map<Place, Bytes>

  type Digest = Bytes -> Bytes

  // ---- profiles ----

  datatype Source = Source(url: Bytes, markl: Bytes)

  // One build for every system, or a table of builds by system when there is any.
  datatype Artifact = Artifact(own: Source, systems: map<string, Source>)

  // A program part: inline text, or a materialized artifact.
  datatype Part = Inline(text: Bytes) | FromArtifact(name: string)

  datatype Linter = Linter(rule: Option<Part>, preludes: seq<string>)

  datatype Document = Document(artifacts: map<string, Artifact>, preludes: map<string, Part>, linters: map<string, Linter>)

  function SourceFor(a: Artifact, system: string): Option<Source> {
    if a.systems == map[] then Some(a.own)
    else if system in a.systems then Some(a.systems[system])
    else None
  }

  /** The build for a system is the artifact's own exactly when it has no table, and otherwise the table's entry, if any. */
  lemma SourceForIff(a: Artifact, system: string, src: Source)
    ensures SourceFor(a, system) == Some(src) <==>
            (a.systems == map[] && src == a.own) || (system in a.systems && src == a.systems[system])
  {}

  function PinFor(formats: Formats, a: Artifact, system: string): Option<MarklID> {
    match SourceFor(a, system)
    case None => None
    case Some(src) => match Parse(formats, src.markl)
      case Pinned(id) => Some(id)
      case Refused(_) => None
  }

  // ---- the store's invariant ----

  // The content belongs where it stands: it hashes to the name of its directory or file.
  ghost predicate Belongs(formats: Formats, sha: Digest, at: Place, content: Bytes) {
    match at
    case InArtifacts(dir, _) => exists id: MarklID :: id.format in formats && dir == DirName(id) && formats[id.format](content) == id.digest
    case InRules(file) => file == Hex(sha(content))
  }

  ghost predicate Sound(formats: Formats, sha: Digest, files: Files) {
    forall at :: at in files ==> Belongs(formats, sha, at, files[at])
  }

  predicate ValidFormats(formats: Formats) {
    forall f :: f in formats ==> ValidHrp(f)
  }

  /** Read as a promise: in a sound store every file in a pin's directory has the pinned digest. */
  lemma SoundVerifies(formats: Formats, sha: Digest, files: Files, id: MarklID, name: string)
    requires Sound(formats, sha, files) && ValidFormats(formats) && id.format in formats
    requires InArtifacts(DirName(id), name) in files
    ensures formats[id.format](files[InArtifacts(DirName(id), name)]) == id.digest
  {
    hide DirName, ValidHrp;
    var content := files[InArtifacts(DirName(id), name)];
    assert Belongs(formats, sha, InArtifacts(DirName(id), name), content);
    var other: MarklID :| other.format in formats && DirName(id) == DirName(other) && formats[other.format](content) == other.digest;
    DirNameInjective(id, other);
  }

  // Everything that changed belongs; no artifact that was there was touched, and no file is gone.
  ghost predicate Wrote(formats: Formats, sha: Digest, before: Files, after: Files) {
    && (forall at :: at in before ==> at in after)
    && (forall at :: at in before && at.InArtifacts? ==> after[at] == before[at])
    && (forall at :: at in after ==> (at in before && after[at] == before[at]) || Belongs(formats, sha, at, after[at]))
  }

  lemma WroteSound(formats: Formats, sha: Digest, before: Files, after: Files)
    requires Wrote(formats, sha, before, after) && Sound(formats, sha, before)
    ensures Sound(formats, sha, after)
  {
    hide Belongs;
  }

  lemma WroteTwice(formats: Formats, sha: Digest, a: Files, b: Files, c: Files)
    requires Wrote(formats, sha, a, b) && Wrote(formats, sha, b, c)
    ensures Wrote(formats, sha, a, c)
  {
    hide Belongs;
  }

  /** From an empty store, after any number of resolutions, every file belongs where it stands. */
  lemma {:induction false} AlwaysSound(formats: Formats, sha: Digest, states: seq<Files>, k: nat)
    requires k < |states| && states[0] == map[]
    requires forall j :: 0 <= j < |states| - 1 ==> Wrote(formats, sha, states[j], states[j + 1])
    ensures Sound(formats, sha, states[k])
  {
    hide Belongs, Wrote;
    if k > 0 {
      AlwaysSound(formats, sha, states, k - 1);
      WroteSound(formats, sha, states[k - 1], states[k]);
    }
  }

  lemma WroteNothing(formats: Formats, sha: Digest, a: Files)
    ensures Wrote(formats, sha, a, a)
  {
    hide Belongs;
  }

  lemma WroteArtifact(formats: Formats, sha: Digest, a: Files, id: MarklID, name: string, content: Bytes)
    requires InArtifacts(DirName(id), name) !in a && Verifies(formats, id, content)
    ensures Wrote(formats, sha, a, a[InArtifacts(DirName(id), name) := content])
  {
    hide DirName;
    assert Belongs(formats, sha, InArtifacts(DirName(id), name), content);
  }

  lemma WroteRule(formats: Formats, sha: Digest, a: Files, rule: Bytes)
    ensures Wrote(formats, sha, a, a[InRules(Hex(sha(rule))) := rule])
  {
    hide Hex;
  }

  // ---- rule programs ----

  const NEWLINE: bv8 := 10

  // Inline text, or the content of the named artifact; None when it cannot be read.
  function PartText(part: Part, paths: map<string, Place>, files: Files): Option<Bytes> {
    match part
    case Inline(text) => Some(text)
    case FromArtifact(name) => if name in paths && paths[name] in files then Some(files[paths[name]]) else None
  }

  // An undeclared prelude reads as empty text.
  function Prelude(doc: Document, name: string): Part {
    if name in doc.preludes then doc.preludes[name] else Inline([])
  }

  // The listed preludes in their order, each on its own line, in front of the rule.
  function Program(doc: Document, preludes: seq<string>, rule: Part, paths: map<string, Place>,
                   files: Files): Option<Bytes> {
    if preludes == [] then PartText(rule, paths, files)
    else match (PartText(Prelude(doc, preludes[0]), paths, files), Program(doc, preludes[1..], rule, paths, files))
         case (Some(first), Some(rest)) => Some(first + [NEWLINE] + rest)
         case _ => None
  }

  predicate Carries(part: Part, paths: map<string, Place>, files: Files, text: Bytes) {
    match part
    case Inline(own) => own == text
    case FromArtifact(name) => name in paths && paths[name] in files && files[paths[name]] == text
  }

  // Each text is what its prelude carries, nothing for one that is not declared.
  predicate PreludesCarry(doc: Document, preludes: seq<string>, paths: map<string, Place>, files: Files, texts: seq<Bytes>) {
    && |texts| == |preludes|
    && forall i :: 0 <= i < |preludes| ==>
                     if preludes[i] in doc.preludes then Carries(doc.preludes[preludes[i]], paths, files, texts[i])
                     else texts[i] == []
  }

  // The texts one behind the other, each closed by a newline.
  function Lines(texts: seq<Bytes>): Bytes {
    if texts == [] then [] else Lines(texts[..|texts| - 1]) + texts[|texts| - 1] + [10]
  }

  lemma {:induction false} LinesConcat(a: seq<Bytes>, b: seq<Bytes>)
    ensures Lines(a + b) == Lines(a) + Lines(b)
  {
    if b == [] {
      assert a + b == a;
    } else {
      assert (a + b)[..|a + b| - 1] == a + b[..|b| - 1];
      LinesConcat(a, b[..|b| - 1]);
    }
  }

  /** A program is the text of its preludes in the listed order, each on its own line, and behind them the rule's. */
  lemma {:induction false} ProgramIs(doc: Document, preludes: seq<string>, rule: Part, paths: map<string, Place>,
                                     files: Files, texts: seq<Bytes>, last: Bytes)
    requires PreludesCarry(doc, preludes, paths, files, texts) && Carries(rule, paths, files, last)
    ensures Program(doc, preludes, rule, paths, files) == Some(Lines(texts) + last)
  {
    hide Lines;
    PartIs(rule, paths, files, last);
    if preludes == [] {
      NoLines(texts, last);
    } else {
      ProgramIs(doc, preludes[1..], rule, paths, files, texts[1..], last);
      PartIs(Prelude(doc, preludes[0]), paths, files, texts[0]);
      FirstLine(texts, last);
    }
  }

  lemma PartIs(part: Part, paths: map<string, Place>, files: Files, text: Bytes)
    requires Carries(part, paths, files, text)
    ensures PartText(part, paths, files) == Some(text)
  {}

  lemma NoLines(texts: seq<Bytes>, last: Bytes)
    requires texts == []
    ensures Lines(texts) + last == last
  {}

  lemma FirstLine(texts: seq<Bytes>, last: Bytes)
    requires texts != []
    ensures texts[0] + [NEWLINE] + (Lines(texts[1..]) + last) == Lines(texts) + last
  {
    assert texts == [texts[0]] + texts[1..] && [texts[0]][..0] == [];
    LinesConcat([texts[0]], texts[1..]);
    assert Lines([texts[0]]) == texts[0] + [10];
  }

  // Artifact files decide a program; rule files written meanwhile do not.
  lemma {:induction false} ProgramKept(doc: Document, preludes: seq<string>, rule: Part, paths: map<string, Place>,
                                       a: Files, b: Files)
    requires forall n :: n in paths ==> paths[n].InArtifacts?
    requires forall at: Place :: at.InArtifacts? ==> (at in a <==> at in b) && (at in a ==> a[at] == b[at])
    ensures Program(doc, preludes, rule, paths, a) == Program(doc, preludes, rule, paths, b)
  {
    if preludes != [] { ProgramKept(doc, preludes[1..], rule, paths, a, b); }
  }

  // ---- what a resolution promises ----

  ghost predicate AllPinned(formats: Formats, doc: Document, system: string) {
    forall n :: n in doc.artifacts ==> PinFor(formats, doc.artifacts[n], system).Some?
  }

  // The artifact of this name is in its pin's directory, with bytes of the pinned digest.
  ghost predicate Provided(formats: Formats, files: Files, n: string, id: MarklID, at: Place) {
    at == InArtifacts(DirName(id), n) && at in files && id.format in formats && formats[id.format](files[at]) == id.digest
  }

  lemma ProvidedKept(formats: Formats, sha: Digest, a: Files, b: Files, n: string, id: MarklID, at: Place)
    requires Provided(formats, a, n, id, at) && Wrote(formats, sha, a, b)
    ensures Provided(formats, b, n, id, at)
  {
    hide DirName, Verifies;
  }

  // The linter's rule file is named by the hash of its program, and its content has that hash.
  ghost predicate Ruled(sha: Digest, files: Files, doc: Document, l: Linter, paths: map<string, Place>, at: Place) {
    l.rule.Some? ==>
      exists program :: Program(doc, l.preludes, l.rule.value, paths, files) == Some(program)
                        && at == InRules(Hex(sha(program))) && at in files && sha(files[at]) == sha(program)
  }

  ghost predicate SameArtifacts(a: Files, b: Files) {
    forall at: Place :: at.InArtifacts? ==> (at in a <==> at in b) && (at in a ==> a[at] == b[at])
  }

  lemma RuledKept(formats: Formats, sha: Digest, a: Files, b: Files, doc: Document, l: Linter, paths: map<string,
                  Place>, at: Place)
    requires Ruled(sha, a, doc, l, paths, at) && Wrote(formats, sha, a, b) && SameArtifacts(a, b)
    requires forall n :: n in paths ==> paths[n].InArtifacts?
    ensures Ruled(sha, b, doc, l, paths, at)
  {
    hide Hex, Program, PartText;
    if l.rule.Some? {
      var program :| Program(doc, l.preludes, l.rule.value, paths, a) == Some(program)
                     && at == InRules(Hex(sha(program))) && at in a && sha(a[at]) == sha(program);
      ProgramKept(doc, l.preludes, l.rule.value, paths, a, b);
      if b[at] != a[at] {
        assert Belongs(formats, sha, at, b[at]);
        HexInjective(sha(program), sha(b[at]));
      }
    }
  }

  // ---- the resolver ----

  // What the world answers, at each of its turns: downloads, read failures, write failures.
  datatype World = World(fetch: (nat, Bytes) -> Option<Bytes>, readable: (nat, Place) -> bool, writable: (nat, Place) -> bool)

  datatype Resolution = Resolved(paths: map<string, Place>, rules: map<string, Place>) | Failed

  class Resolver {
    const formats: Formats
    const sha: Digest
    const system: string
    const world: World

    var files: Files
    var turn: nat
    // Every url fetched, in order.
    var fetched: seq<Bytes>

    constructor (f: Formats, s: Digest, sys: string, w: World)
      ensures formats == f && sha == s && system == sys && world == w && files == map[] && fetched == []
    {
      formats, sha, system, world := f, s, sys, w;
      files, turn, fetched := map[], 0, [];
    }

    // Whether an artifact can be had at this turn: the copy in the store, or else the download, has the pinned digest.
    ghost predicate Obtainable(store: Files, t: nat, name: string, url: Bytes, id: MarklID) {
      var at := InArtifacts(DirName(id), name);
      && world.readable(t, at) && id.format in formats
      && if at in store then formats[id.format](store[at]) == id.digest
         else match world.fetch(t, url)
           case Some(content) => formats[id.format](content) == id.digest && world.writable(t, at)
           case None => false
    }

    /** The verified path of an artifact, fetching it exactly when it is absent. */
    method Materialize(name: string, url: Bytes, id: MarklID) returns (path: Option<Place>)
      modifies `files, `turn, `fetched
      ensures Wrote(formats, sha, old(files), files)
      ensures path.Some? ==> Provided(formats, files, name, id, path.value) && path.value.InArtifacts?
      ensures turn == old(turn) + 1 && (path.Some? <==> Obtainable(old(files), turn, name, url, id))
      ensures path.None? ==> files == old(files)
      ensures fetched == if InArtifacts(DirName(id), name) !in old(files) && world.readable(turn, InArtifacts(DirName(id), name))
                         then old(fetched) + [url] else old(fetched)
      ensures fetched == old(fetched) || (fetched == old(fetched) + [url] && InArtifacts(DirName(id), name) !in old(files))
      ensures forall at :: at in files && at !in old(files) ==> at == InArtifacts(DirName(id), name)
    {
      hide Wrote, DirName;
      WroteNothing(formats, sha, files);
      var at := InArtifacts(DirName(id), name);
      turn := turn + 1;
      if at in files {
        if !world.readable(turn, at) { return None; }
        if !Verifies(formats, id, files[at]) { return None; }
        return Some(at);
      }
      if !world.readable(turn, at) { return None; }
      fetched := fetched + [url];
      var content := world.fetch(turn, url);
      if content.None? { return None; }
      if !Verifies(formats, id, content.value) { return None; }
      if !world.writable(turn, at) { return None; }
      WroteArtifact(formats, sha, files, id, name, content.value);
      files := files[at := content.value];
      path := Some(at);
    }

    // Whether a rule can be stored at this turn: it is there already, or can be written over whatever cannot be read.
    ghost predicate Storable(store: Files, t: nat, rule: Bytes) {
      var at := InRules(Hex(sha(rule)));
      if at in store && world.readable(t, at) then store[at] == rule else world.writable(t, at)
    }

    /** The path of a rule program, under the hash of its text. */
    method StoreRule(rule: Bytes) returns (path: Option<Place>)
      modifies `files, `turn
      ensures Wrote(formats, sha, old(files), files)
      ensures path.Some? ==> path.value == InRules(Hex(sha(rule))) && path.value in files && files[path.value] == rule
      ensures turn == old(turn) + 1 && (path.Some? <==> Storable(old(files), turn, rule))
      ensures path.None? ==> files == old(files)
      ensures files == old(files) || files == old(files)[InRules(Hex(sha(rule))) := rule]
    {
      hide Wrote, Hex;
      WroteNothing(formats, sha, files);
      var at := InRules(Hex(sha(rule)));
      turn := turn + 1;
      if at in files && world.readable(turn, at) {
        if files[at] == rule { return Some(at); }
        return None;
      }
      if !world.writable(turn, at) { return None; }
      WroteRule(formats, sha, files, rule);
      files := files[at := rule];
      path := Some(at);
    }

    // Every pin is selected and parsed before anything else happens.
    method SelectPins(doc: Document) returns (ok: bool, sources: map<string, Source>, pins: map<string, MarklID>)
      ensures ok <==> AllPinned(formats, doc, system)
      ensures ok ==> forall n :: n in doc.artifacts ==>
                                   && n in sources && SourceFor(doc.artifacts[n], system) == Some(sources[n])
                                   && n in pins && PinFor(formats, doc.artifacts[n], system) == Some(pins[n])
    {
      hide Parse, IsSortedListing;
      sources, pins := map[], map[];
      var names := SortedKeys(doc.artifacts.Keys);
      ListingMembers(names, doc.artifacts.Keys);
      for i := 0 to |names|
        invariant forall k :: 0 <= k < i ==>
                                && names[k] in sources && SourceFor(doc.artifacts[names[k]], system) == Some(sources[names[k]])
                                && names[k] in pins && PinFor(formats, doc.artifacts[names[k]], system) == Some(pins[names[k]])
      {
        var name := names[i];
        assert name in names;
        var src := SourceFor(doc.artifacts[name], system);
        if src.None? { return false, sources, pins; }
        var pin := Parse(formats, src.value.markl);
        if pin.Refused? { return false, sources, pins; }
        sources, pins := sources[name := src.value], pins[name := pin.id];
      }
      ok := true;
    }

    // What has been materialized so far, and what it took.
    ghost predicate Progress(before: Files, fetchedBefore: seq<Bytes>, names: seq<string>, i: nat,
                             sources: map<string, Source>, pins: map<string, MarklID>, paths: map<string, Place>)
      requires i <= |names| && forall n :: n in names ==> n in pins && n in sources
      reads `files, `fetched
    {
      && Wrote(formats, sha, before, files)
      && fetchedBefore <= fetched
      && (forall k :: |fetchedBefore| <= k < |fetched| ==> FetchedFor(before, names, sources, pins, fetched[k]))
      && (forall k :: 0 <= k < i ==> names[k] in paths && Provided(formats, files, names[k], pins[names[k]], paths[names[k]]))
      && (forall n :: n in paths ==> n in names && paths[n].InArtifacts?)
    }

    // The url is the source of an artifact the store did not have.
    ghost predicate FetchedFor(before: Files, names: seq<string>, sources: map<string, Source>, pins: map<string,
                               MarklID>, url: Bytes)
      requires forall n :: n in names ==> n in pins && n in sources
    {
      exists n :: n in names && url == sources[n].url && InArtifacts(DirName(pins[n]), n) !in before
    }

    method MaterializeAll(doc: Document, names: seq<string>, sources: map<string, Source>, pins: map<string, MarklID>)
      returns (ok: bool, paths: map<string, Place>)
      requires forall n :: n in names ==> n in pins && n in sources
      requires forall i, j :: 0 <= i < j < |names| ==> names[i] != names[j]
      modifies `files, `turn, `fetched
      ensures Progress(old(files), old(fetched), names, if ok then |names| else 0, sources, pins, paths) && turn >= old(turn)
      ensures !ok ==> exists n, t :: n in names && old(turn) < t <= turn
                                     && !Obtainable(old(files), t, n, sources[n].url, pins[n])
    {
      hide Wrote, Provided, FetchedFor, Obtainable, Untouched, DirName;
      paths := map[];
      WroteNothing(formats, sha, files);
      ghost var before, fetchedBefore := files, fetched;
      NothingTouched(before, names);
      for i := 0 to |names|
        invariant Progress(before, fetchedBefore, names, i, sources, pins, paths) && turn >= old(turn)
        invariant Untouched(before, files, names, i)
      {
        label Turn:
        assert names[i] in names;
        ghost var now := files;
        SameChance(before, now, names, i, turn + 1, sources[names[i]].url, pins[names[i]]);
        var path := Materialize(names[i], sources[names[i]].url, pins[names[i]]);
        UntouchedNext(before, now, names, i, DirName(pins[names[i]]));
        MaterializedNext(before, now, fetchedBefore, old@Turn(fetched), names, i, sources, pins, paths, path);
        if path.None? { return false, paths; }
        paths := paths[names[i] := path.value];
      }
      ok := true;
    }

    // The artifacts from the i-th on are as they were.
    ghost predicate Untouched(before: Files, now: Files, names: seq<string>, i: nat) {
      forall k, dir :: i <= k < |names| ==>
                         var at := InArtifacts(dir, names[k]); (at in before <==> at in now) && (at in before ==> before[at] == now[at])
    }

    lemma NothingTouched(before: Files, names: seq<string>)
      ensures Untouched(before, before, names, 0)
    {}

    lemma UntouchedNext(before: Files, now: Files, names: seq<string>, i: nat, dir: Bytes)
      requires i < |names| && Untouched(before, now, names, i) && Wrote(formats, sha, now, files)
      requires forall j, k :: 0 <= j < k < |names| ==> names[j] != names[k]
      requires forall at :: at in files && at !in now ==> at == InArtifacts(dir, names[i])
      ensures Untouched(before, files, names, i + 1)
    {
      hide Belongs;
    }

    lemma SameChance(before: Files, now: Files, names: seq<string>, i: nat, t: nat, url: Bytes, id: MarklID)
      requires i < |names| && Untouched(before, now, names, i)
      ensures Obtainable(before, t, names[i], url, id) <==> Obtainable(now, t, names[i], url, id)
    {
      hide DirName;
    }

    lemma MaterializedNext(before: Files, now: Files, fetchedBefore: seq<Bytes>, fetchedNow: seq<Bytes>,
                           names: seq<string>, i: nat,
                           sources: map<string, Source>, pins: map<string, MarklID>, paths: map<string, Place>, path: Option<Place>)
      requires i < |names| && forall n :: n in names ==> n in pins && n in sources
      requires Wrote(formats, sha, before, now) && Wrote(formats, sha, now, files) && fetchedBefore <= fetchedNow
      requires forall k :: |fetchedBefore| <= k < |fetchedNow| ==> FetchedFor(before, names, sources, pins, fetchedNow[k])
      requires forall k :: 0 <= k < i ==> names[k] in paths && Provided(formats, now, names[k], pins[names[k]], paths[names[k]])
      requires forall n :: n in paths ==> n in names && paths[n].InArtifacts?
      requires fetched == fetchedNow ||
               (fetched == fetchedNow + [sources[names[i]].url] && InArtifacts(DirName(pins[names[i]]), names[i]) !in now)
      requires path.Some? ==> Provided(formats, files, names[i], pins[names[i]], path.value) && path.value.InArtifacts?
      ensures Progress(before, fetchedBefore, names, 0, sources, pins, paths)
      ensures path.Some? ==> Progress(before, fetchedBefore, names, i + 1, sources, pins, paths[names[i] := path.value])
    {
      hide DirName, Verifies, Provided, Belongs;
      WroteTwice(formats, sha, before, now, files);
      if fetched != fetchedNow {
        assert names[i] in names;
        assert FetchedFor(before, names, sources, pins, sources[names[i]].url);
      }
      forall k | 0 <= k < i
        ensures Provided(formats, files, names[k], pins[names[k]], paths[names[k]])
      {
        ProvidedKept(formats, sha, now, files, names[k], pins[names[k]], paths[names[k]]);
      }
    }

    ghost predicate Unreadable(store: Files, t: nat, part: Part, paths: map<string, Place>) {
      part.FromArtifact? && !(part.name in paths && paths[part.name] in store && world.readable(t, paths[part.name]))
    }

    // At this turn a part of the linter's program cannot be read, or the program cannot be stored.
    ghost predicate RuleFails(store: Files, t: nat, doc: Document, l: Linter, paths: map<string, Place>) {
      l.rule.Some? &&
      (Unreadable(store, t, l.rule.value, paths) || (exists p :: p in l.preludes && Unreadable(store, t, Prelude(doc, p), paths))
       || exists program :: Program(doc, l.preludes, l.rule.value, paths, store) == Some(program) && !Storable(store, t, program))
    }

    // A part read now; an artifact that cannot be read gives none.
    method ReadPart(part: Part, paths: map<string, Place>) returns (text: Option<Bytes>)
      modifies `turn
      ensures text.Some? ==> text == PartText(part, paths, files)
      ensures turn == old(turn) + 1 && (text.None? <==> Unreadable(files, turn, part, paths))
    {
      turn := turn + 1;
      if part.FromArtifact? && part.name in paths && !world.readable(turn, paths[part.name]) { return None; }
      text := PartText(part, paths, files);
    }

    method AssembleProgram(doc: Document, preludes: seq<string>, rule: Part, paths: map<string, Place>)
      returns (program: Option<Bytes>)
      modifies `turn
      ensures program.Some? ==> program == Program(doc, preludes, rule, paths, files)
      ensures turn > old(turn)
      ensures program.None? ==> Unreadable(files, turn, rule, paths)
                                || exists p :: p in preludes && Unreadable(files, turn, Prelude(doc, p), paths)
    {
      hide PartText, Prelude, Unreadable;
      var text: Bytes := [];
      assert preludes[0..] == preludes;
      assert forall rest: Bytes :: text + rest == rest;
      for i := 0 to |preludes|
        invariant Continues(doc, preludes, i, rule, paths, text) && turn >= old(turn)
      {
        assert preludes[i] in preludes;
        var part := ReadPart(Prelude(doc, preludes[i]), paths);
        if part.None? { return None; }
        ProgramStep(doc, preludes, i, rule, paths, text, part.value);
        text := text + part.value + [NEWLINE];
      }
      var last := ReadPart(rule, paths);
      if last.None? { return None; }
      assert preludes[|preludes|..] == [];
      program := Some(text + last.value);
    }

    // The parts read so far, each closed by a newline, are the head of the program.
    ghost predicate Continues(doc: Document, preludes: seq<string>, i: nat, rule: Part, paths: map<string, Place>,
                              text: Bytes)
      requires i <= |preludes|
      reads `files
    {
      forall rest :: Program(doc, preludes[i..], rule, paths, files) == Some(rest) ==>
                       Program(doc, preludes, rule, paths, files) == Some(text + rest)
    }

    lemma ProgramStep(doc: Document, preludes: seq<string>, i: nat, rule: Part, paths: map<string, Place>,
                      text: Bytes, part: Bytes)
      requires i < |preludes| && Continues(doc, preludes, i, rule, paths, text)
      requires PartText(Prelude(doc, preludes[i]), paths, files) == Some(part)
      ensures Continues(doc, preludes, i + 1, rule, paths, text + part + [NEWLINE])
    {
      hide PartText, Prelude;
      assert preludes[i..][0] == preludes[i] && preludes[i..][1..] == preludes[i + 1..];
      forall rest | Program(doc, preludes[i + 1..], rule, paths, files) == Some(rest)
        ensures Program(doc, preludes, rule, paths, files) == Some(text + part + [NEWLINE] + rest)
      {
        assert Program(doc, preludes[i..], rule, paths, files) == Some(part + [NEWLINE] + rest);
        assert text + (part + [NEWLINE] + rest) == text + part + [NEWLINE] + rest;
      }
    }

    method TranslateAll(doc: Document, names: seq<string>, paths: map<string, Place>) returns (ok: bool,
                        rules: map<string, Place>)
      requires (forall n :: n in names ==> n in doc.linters) && forall n :: n in paths ==> paths[n].InArtifacts?
      modifies `files, `turn
      ensures Wrote(formats, sha, old(files), files) && SameArtifacts(old(files), files)
      ensures !ok ==> exists n, t :: n in names && old(turn) < t <= turn && RuleFails(files, t, doc, doc.linters[n], paths)
      ensures ok ==> forall n :: n in names && doc.linters[n].rule.Some? ==>
                                   n in rules && Ruled(sha, files, doc, doc.linters[n], paths, rules[n])
    {
      hide Wrote, Ruled, Program, Hex, Unreadable, Storable;
      rules := map[];
      WroteNothing(formats, sha, files);
      ghost var before := files;
      for i := 0 to |names|
        invariant Wrote(formats, sha, before, files) && SameArtifacts(before, files) && turn >= old(turn)
        invariant forall k :: 0 <= k < i && doc.linters[names[k]].rule.Some? ==>
                                names[k] in rules && Ruled(sha, files, doc, doc.linters[names[k]], paths, rules[names[k]])
      {
        assert names[i] in names;
        var l := doc.linters[names[i]];
        if l.rule.Some? {
          var program := AssembleProgram(doc, l.preludes, l.rule.value, paths);
          if program.None? {
            assert RuleFails(files, turn, doc, l, paths);
            return false, rules;
          }
          ghost var now := files;
          var path := StoreRule(program.value);
          WroteTwice(formats, sha, before, now, files);
          if path.None? {
            assert RuleFails(files, turn, doc, l, paths);
            return false, rules;
          }
          RuledNext(now, doc, names, i, paths, rules, program.value, path.value);
          rules := rules[names[i] := path.value];
        }
      }
      ok := true;
    }

    lemma RuledNext(now: Files, doc: Document, names: seq<string>, i: nat, paths: map<string, Place>,
                    rules: map<string, Place>,
                    program: Bytes, path: Place)
      requires i < |names| && (forall n :: n in names ==> n in doc.linters) && forall n :: n in paths ==> paths[n].InArtifacts?
      requires Wrote(formats, sha, now, files) && SameArtifacts(now, files)
      requires var l := doc.linters[names[i]]; l.rule.Some? && Program(doc, l.preludes, l.rule.value, paths, now) == Some(program)
      requires path == InRules(Hex(sha(program))) && path in files && files[path] == program
      requires forall k :: 0 <= k < i && doc.linters[names[k]].rule.Some? ==>
                             names[k] in rules && Ruled(sha, now, doc, doc.linters[names[k]], paths, rules[names[k]])
      ensures forall k :: 0 <= k <= i && doc.linters[names[k]].rule.Some? ==>
                            names[k] in rules[names[i] := path]
                            && Ruled(sha, files, doc, doc.linters[names[k]], paths, rules[names[i] := path][names[k]])
    {
      hide Wrote, Ruled, Hex, Program, SameArtifacts;
      var l := doc.linters[names[i]];
      RuledHere(now, doc, l, paths, program, path);
      forall k | 0 <= k <= i && doc.linters[names[k]].rule.Some?
        ensures names[k] in rules[names[i] := path]
                && Ruled(sha, files, doc, doc.linters[names[k]], paths, rules[names[i] := path][names[k]])
      {
        if names[k] != names[i] { RuledKept(formats, sha, now, files, doc, doc.linters[names[k]], paths, rules[names[k]]); }
      }
    }

    lemma RuledHere(now: Files, doc: Document, l: Linter, paths: map<string, Place>, program: Bytes, path: Place)
      requires SameArtifacts(now, files) && forall n :: n in paths ==> paths[n].InArtifacts?
      requires l.rule.Some? && Program(doc, l.preludes, l.rule.value, paths, now) == Some(program)
      requires path == InRules(Hex(sha(program))) && path in files && files[path] == program
      ensures Ruled(sha, files, doc, l, paths, path)
    {
      hide Hex, Program;
      ProgramKept(doc, l.preludes, l.rule.value, paths, now, files);
    }

    /** Resolving a profile, successfully or not: whatever is written belongs where it stands and no artifact is touched;
        nothing is fetched or written unless every pin for this system parsed, and then only missing artifacts are
        fetched; on success every artifact is there with verified bytes, and every rule is there under its hash. */
    method Resolve(doc: Document) returns (r: Resolution)
      modifies `files, `turn, `fetched
      ensures Wrote(formats, sha, old(files), files)
      ensures !AllPinned(formats, doc, system) ==> r.Failed? && files == old(files) && fetched == old(fetched)
      ensures old(fetched) <= fetched
      ensures forall k :: |old(fetched)| <= k < |fetched| ==> Needed(doc, old(files), fetched[k])
      ensures r.Resolved? ==> AllPinned(formats, doc, system) && Complete(doc, files, r.paths, r.rules)
      ensures r.Failed? && AllPinned(formats, doc, system) ==>
                (exists n, t :: old(turn) < t <= turn && NotHad(doc, old(files), n, t))
                || (exists n, t, paths :: old(turn) < t <= turn && n in doc.linters && Places(doc, paths)
                                          && RuleFails(files, t, doc, doc.linters[n], paths))
    {
      hide Wrote, Ruled, Provided, PinFor, SourceFor, AllPinned, IsSortedListing, SameArtifacts, FetchedFor, Needed, Complete,
           RuleFails, Places, NotHad;
      WroteNothing(formats, sha, files);
      var ok, sources, pins := SelectPins(doc);
      if !ok { return Failed; }
      ghost var before, fetchedBefore := files, fetched;
      var names := SortedKeys(doc.artifacts.Keys);
      ListingMembers(names, doc.artifacts.Keys);
      ListingDistinct(names, doc.artifacts.Keys);
      var made, paths := MaterializeAll(doc, names, sources, pins);
      forall k | |fetchedBefore| <= k < |fetched|
        ensures Needed(doc, before, fetched[k])
      {
        NeededFor(doc, before, names, sources, pins, fetched[k]);
      }
      if !made {
        ghost var n, t :| n in names && old(turn) < t <= turn && !Obtainable(before, t, n, sources[n].url, pins[n]);
        WhyNotHad(doc, before, n, t, sources[n], pins[n]);
        return Failed;
      }
      PlacesOf(doc, names, pins, paths);
      ghost var now := files;
      var linters := SortedKeys(doc.linters.Keys);
      ListingMembers(linters, doc.linters.Keys);
      var translated, rules := TranslateAll(doc, linters, paths);
      WroteTwice(formats, sha, before, now, files);
      if !translated { return Failed; }
      CompleteNow(doc, now, names, pins, paths, rules);
      r := Resolved(paths, rules);
    }

    // The artifact of this name could not be had at this turn.
    ghost predicate NotHad(doc: Document, store: Files, n: string, t: nat) {
      && n in doc.artifacts
      && var src, pin := SourceFor(doc.artifacts[n], system), PinFor(formats, doc.artifacts[n], system);
         src.Some? && pin.Some? && !Obtainable(store, t, n, src.value.url, pin.value)
    }

    lemma WhyNotHad(doc: Document, store: Files, n: string, t: nat, src: Source, pin: MarklID)
      requires n in doc.artifacts && SourceFor(doc.artifacts[n], system) == Some(src)
      requires PinFor(formats, doc.artifacts[n], system) == Some(pin) && !Obtainable(store, t, n, src.url, pin)
      ensures NotHad(doc, store, n, t)
    {}

    // Where the artifacts of the document are.
    ghost predicate Places(doc: Document, paths: map<string, Place>) {
      && (forall n :: n in paths <==> n in doc.artifacts)
      && forall n :: n in doc.artifacts ==>
                       && PinFor(formats, doc.artifacts[n], system).Some?
                       && paths[n] == InArtifacts(DirName(PinFor(formats, doc.artifacts[n], system).value), n)
    }

    lemma PlacesOf(doc: Document, names: seq<string>, pins: map<string, MarklID>, paths: map<string, Place>)
      requires forall n :: n in names <==> n in doc.artifacts
      requires forall n :: n in doc.artifacts ==> n in pins && PinFor(formats, doc.artifacts[n], system) == Some(pins[n])
      requires forall k :: 0 <= k < |names| ==> names[k] in paths && Provided(formats, files, names[k], pins[names[k]], paths[names[k]])
      requires forall n :: n in paths ==> n in names
      ensures Places(doc, paths)
    {
      hide PinFor, DirName;
      forall n | n in doc.artifacts
        ensures n in paths && paths[n] == InArtifacts(DirName(pins[n]), n)
      {
        var k :| 0 <= k < |names| && names[k] == n;
      }
    }

    lemma CompleteNow(doc: Document, now: Files, names: seq<string>, pins: map<string, MarklID>, paths: map<string,
                      Place>,
                      rules: map<string, Place>)
      requires (forall n :: n in names <==> n in doc.artifacts) && forall n :: n in doc.artifacts ==>
                                                                                 n in pins && PinFor(formats, doc.artifacts[n], system) == Some(pins[n])
      requires forall k :: 0 <= k < |names| ==> names[k] in paths && Provided(formats, now, names[k], pins[names[k]], paths[names[k]])
      requires Wrote(formats, sha, now, files)
      requires forall n :: n in doc.linters && doc.linters[n].rule.Some? ==>
                             n in rules && Ruled(sha, files, doc, doc.linters[n], paths, rules[n])
      ensures Complete(doc, files, paths, rules)
    {
      hide Wrote, Ruled, Provided, PinFor;
      forall n | n in doc.artifacts
        ensures n in paths && Provided(formats, files, n, pins[n], paths[n])
      {
        var k :| 0 <= k < |names| && names[k] == n;
        ProvidedKept(formats, sha, now, files, n, pins[n], paths[n]);
      }
    }

    // Every artifact and rule of the document is in the store.
    ghost predicate Complete(doc: Document, store: Files, paths: map<string, Place>, rules: map<string, Place>) {
      && (forall n :: n in doc.artifacts ==>
                        && PinFor(formats, doc.artifacts[n], system).Some? && n in paths
                        && Provided(formats, store, n, PinFor(formats, doc.artifacts[n], system).value, paths[n]))
      && (forall n :: n in doc.linters && doc.linters[n].rule.Some? ==>
                        n in rules && Ruled(sha, store, doc, doc.linters[n], paths, rules[n]))
    }

    // The url of an artifact of this document that the store did not have.
    ghost predicate Needed(doc: Document, before: Files, url: Bytes) {
      exists n :: NeededBy(doc, before, url, n)
    }

    ghost predicate NeededBy(doc: Document, before: Files, url: Bytes, n: string) {
      && n in doc.artifacts
      && var src, pin := SourceFor(doc.artifacts[n], system), PinFor(formats, doc.artifacts[n], system);
         src.Some? && pin.Some? && url == src.value.url && InArtifacts(DirName(pin.value), n) !in before
    }

    lemma NeededFor(doc: Document, before: Files, names: seq<string>, sources: map<string, Source>, pins: map<string,
                    MarklID>, url: Bytes)
      requires forall n :: n in names ==> n in pins && n in sources && n in doc.artifacts
      requires forall n :: n in names ==>
                             && SourceFor(doc.artifacts[n], system) == Some(sources[n])
                             && PinFor(formats, doc.artifacts[n], system) == Some(pins[n])
      requires FetchedFor(before, names, sources, pins, url)
      ensures Needed(doc, before, url)
    {
      hide DirName, SourceFor, PinFor;
      var n :| n in names && url == sources[n].url && InArtifacts(DirName(pins[n]), n) !in before;
      assert NeededBy(doc, before, url, n);
    }
  }
}
