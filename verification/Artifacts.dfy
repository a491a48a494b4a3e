/** Session artifact directories and their manifests as values (src/artifact_lifecycle.cpp,
    `prepare_output_paths` of src/logging.cpp). */
module Artifacts {
  import opened Wrappers
  import opened Sorting

  datatype Area = Pending | Archive

  /** A session directory below an artifacts directory. */
  datatype Location = Location(root: string, area: Area, name: string)

  datatype ArtifactState = Capturing | ReadyToUpload | Archived | Unknown

  datatype Failure = Failure(attemptUtc: string, destinationUrl: string, error: string)

  /** `state.json` as far as the lifecycle reads it back; fields that may be absent are optional. */
  datatype Manifest = Manifest(
    state: ArtifactState, runId: string, sessionId: string, createdUtc: string, updatedUtc: string,
    stateFile: Option<Location>, destinationConfigured: bool,
    failures: Option<seq<Failure>>, lastFailure: Option<Failure>,
    attempts: Option<int>, lastAttemptUtc: Option<string>)

  datatype StateFile = Missing | Damaged | Written(manifest: Manifest)

  datatype Dir = Dir(stateFile: StateFile, otherFiles: bool)

  type Store = map<Location, Dir>

  datatype Config = Config(root: string, runId: string, sessionId: string, destinationUrl: string)

  /** Where a session lives and where its manifest is read and written. */
  datatype Paths = Paths(artifactDir: Location, stateFile: Location)

  datatype Fault = ArchiveExists | NotEmpty | NoDirectory

  datatype Result = Done(store: Store) | Failed(fault: Fault)

  function DefaultPaths(dir: Location): Paths {
    Paths(dir, dir)
  }

  function StateAt(store: Store, file: Location): StateFile {
    if file in store then store[file].stateFile else Missing
  }

  function MakeDir(store: Store, dir: Location): Store {
    if dir in store then store else store[dir := Dir(Missing, false)]
  }

  function PutState(store: Store, file: Location, m: Manifest): Store {
    store[file := Dir(Written(m), file in store && store[file].otherFiles)]
  }

  /** A manifest for the present moment that carries over what the previous one recorded; a damaged
      or missing previous manifest carries nothing. */
  function BaseState(config: Config, paths: Paths, previous: StateFile, state: ArtifactState, now: string): Manifest {
    var created := if previous.Written? && previous.manifest.createdUtc != "" then previous.manifest.createdUtc else now;
    Manifest(state, config.runId, config.sessionId, created, now,
             Some(paths.stateFile), config.destinationUrl != "",
             if previous.Written? then previous.manifest.failures else None,
             if previous.Written? then previous.manifest.lastFailure else None,
             if previous.Written? then previous.manifest.attempts else None,
             if previous.Written? then previous.manifest.lastAttemptUtc else None)
  }

  function WriteState(store: Store, config: Config, paths: Paths, state: ArtifactState, now: string): Store {
    var made := MakeDir(store, paths.artifactDir);
    PutState(made, paths.stateFile, BaseState(config, paths, StateAt(made, paths.stateFile), state, now))
  }

  /** The manifest with one more failed upload in its ledger. */
  function WithFailure(m: Manifest, failure: Failure): Manifest {
    m.(failures := Some((if m.failures.Some? then m.failures.value else []) + [failure]),
       lastFailure := Some(failure),
       attempts := Some((if m.attempts.Some? then m.attempts.value else 0) + 1),
       lastAttemptUtc := Some(failure.attemptUtc))
  }

  function RecordFailure(store: Store, config: Config, paths: Paths, error: string, now: string): Store {
    var made := MakeDir(store, paths.artifactDir);
    var base := BaseState(config, paths, StateAt(made, paths.stateFile), ReadyToUpload, now);
    PutState(made, paths.stateFile, WithFailure(base, Failure(now, config.destinationUrl, error)))
  }

  /** Refuses a session name that is archived, or pending with anything in its directory. */
  function Prepare(store: Store, config: Config): Result {
    var dir := Location(config.root, Pending, config.sessionId);
    if Location(config.root, Archive, config.sessionId) in store then Failed(ArchiveExists)
    else if dir in store && (!store[dir].stateFile.Missing? || store[dir].otherFiles) then Failed(NotEmpty)
    else Done(MakeDir(store, dir))
  }

  function ArchivePlace(config: Config, paths: Paths): Location {
    Location(config.root, Archive, paths.artifactDir.name)
  }

  /** The rename of `archive_artifact_session`, which refuses an existing archive directory. */
  function MoveToArchive(store: Store, config: Config, paths: Paths): Result {
    var dest := ArchivePlace(config, paths);
    if dest in store then Failed(ArchiveExists)
    else if paths.artifactDir !in store then Failed(NoDirectory)
    else Done((store - {paths.artifactDir})[dest := store[paths.artifactDir]])
  }

  function ArchiveSession(store: Store, config: Config, paths: Paths, now: string): Result {
    match MoveToArchive(store, config, paths)
    case Failed(fault) => Failed(fault)
    case Done(moved) => Done(WriteState(moved, config, DefaultPaths(ArchivePlace(config, paths)), Archived, now))
  }

  // ----- The pending scan -----

  datatype PendingSession = PendingSession(paths: Paths, runId: string, sessionId: string, state: ArtifactState)

  /** What the scan makes of one pending directory. An unreadable manifest leaves the state unknown. */
  function Inspect(store: Store, dir: Location): PendingSession {
    match StateAt(store, dir)
    case Written(m) =>
      PendingSession(Paths(dir, if m.stateFile.Some? then m.stateFile.value else dir),
                     m.runId, if m.sessionId != "" then m.sessionId else dir.name, m.state)
    case _ => PendingSession(DefaultPaths(dir), "", dir.name, Unknown)
  }

  function PendingDirs(store: Store, root: string): set<Location> {
    set dir | dir in store && dir.root == root && dir.area == Pending
  }

  /** Session names in the order of `std::filesystem::path`, which for single components is
      the lexicographic order of their characters. */
  predicate NameAtMost(a: string, b: string) {
    |a| == 0 || (|b| > 0 && (a[0] < b[0] || (a[0] == b[0] && NameAtMost(a[1..], b[1..]))))
  }

  predicate DirAtMost(a: Location, b: Location) {
    if a.name == b.name then LocationAtMost(a, b) else NameAtMost(a.name, b.name)
  }

  /** Directories of one scan have different names; this only completes the order. */
  predicate LocationAtMost(a: Location, b: Location) {
    if a.root == b.root then (a.area.Pending? || b.area.Archive?) else NameAtMost(a.root, b.root)
  }

  lemma {:induction false} NamesAreOrdered(a: string, b: string, c: string)
    ensures NameAtMost(a, b) || NameAtMost(b, a)
    ensures NameAtMost(a, b) && NameAtMost(b, a) ==> a == b
    ensures NameAtMost(a, b) && NameAtMost(b, c) ==> NameAtMost(a, c)
    decreases |a| + |b| + |c|
  {
    if |a| > 0 && |b| > 0 {
      NamesAreOrdered(a[1..], b[1..], if |c| > 0 then c[1..] else c);
      assert a == [a[0]] + a[1..] && b == [b[0]] + b[1..];
    }
  }

  lemma DirsAreOrdered()
    ensures TotalOrder(DirAtMost)
  {
    forall a: Location, b: Location, c: Location
      ensures DirAtMost(a, b) || DirAtMost(b, a)
      ensures DirAtMost(a, b) && DirAtMost(b, a) ==> a == b
      ensures DirAtMost(a, b) && DirAtMost(b, c) ==> DirAtMost(a, c)
    {
      NamesAreOrdered(a.name, b.name, c.name);
      NamesAreOrdered(c.name, b.name, a.name);
      NamesAreOrdered(b.name, a.name, c.name);
      NamesAreOrdered(a.root, b.root, c.root);
      NamesAreOrdered(c.root, b.root, a.root);
      NamesAreOrdered(b.root, a.root, c.root);
    }
  }

  ghost function Listed(dirs: set<Location>): (s: seq<Location>)
    ensures multiset(s) == multiset(dirs)
  {
    if dirs == {} then []
    else
      var d :| d in dirs;
      assert multiset(dirs) == multiset(dirs - {d}) + multiset{d};
      [d] + Listed(dirs - {d})
  }

  /** The pending directories in scan order. */
  ghost function ScanOrder(store: Store, root: string): (s: seq<Location>)
    ensures multiset(s) == multiset(PendingDirs(store, root))
  {
    Sort(Listed(PendingDirs(store, root)), DirAtMost)
  }

  lemma ScanOrderFacts(store: Store, root: string)
    ensures var s := ScanOrder(store, root);
            && SortedBy(s, DirAtMost)
            && (forall i, j :: 0 <= i < j < |s| ==> s[i] != s[j])
            && (forall d :: d in s <==> d in PendingDirs(store, root))
  {
    var s, dirs := ScanOrder(store, root), PendingDirs(store, root);
    DirsAreOrdered();
    SortSorts(Listed(dirs), DirAtMost);
    forall i, j | 0 <= i < j < |s| ensures s[i] != s[j] {
      if s[i] == s[j] { Twice(s, i, j); }
    }
    forall d ensures d in s <==> d in dirs {
      assert d in s <==> d in multiset(s);
      assert d in multiset(dirs) <==> d in dirs;
    }
  }

  /** The first `d` characters agree, and then `a` has ended or has the smaller character. */
  predicate PrecedesAt(a: string, b: string, d: nat) {
    && d <= |a| && d < |b| && a[..d] == b[..d]
    && (d == |a| || a[d] < b[d])
  }

  /** `a` is a proper beginning of `b`, or smaller in the first character in which they differ. */
  ghost predicate Precedes(a: string, b: string) {
    exists d: nat :: PrecedesAt(a, b, d)
  }

  lemma {:induction false} SmallerNamePrecedes(a: string, b: string) returns (d: nat)
    requires NameAtMost(a, b) && a != b
    ensures PrecedesAt(a, b, d)
  {
    if |a| == 0 || a[0] < b[0] {
      d := 0;
    } else {
      assert a == [a[0]] + a[1..] && b == [b[0]] + b[1..];
      d := SmallerNamePrecedes(a[1..], b[1..]);
      d := d + 1;
      assert a[..d] == [a[0]] + a[1..][..d - 1] && b[..d] == [b[0]] + b[1..][..d - 1];
    }
  }

  /** The scan lists exactly the pending directories of the root, each once, in the order of their
      names, character by character. */
  lemma ScanIsInNameOrder(store: Store, root: string)
    ensures var s := ScanOrder(store, root);
            && (forall i, j :: 0 <= i < j < |s| ==> Precedes(s[i].name, s[j].name))
            && (forall d :: d in s <==> d in store && d.root == root && d.area.Pending?)
  {
    var s := ScanOrder(store, root);
    ScanOrderFacts(store, root);
    hide ScanOrder;
    forall i, j | 0 <= i < j < |s| ensures Precedes(s[i].name, s[j].name) {
      assert s[i] in s && s[j] in s && s[i] != s[j] && DirAtMost(s[i], s[j]);
      assert s[i] in PendingDirs(store, root) && s[j] in PendingDirs(store, root);
      var d := SmallerNamePrecedes(s[i].name, s[j].name);
    }
  }

  lemma Twice<T>(s: seq<T>, i: int, j: int)
    requires 0 <= i < j < |s| && s[i] == s[j]
    ensures multiset(s)[s[i]] >= 2
  {
    assert s == s[..j] + s[j..];
    assert s[i] in s[..j] && s[j] in s[j..];
    assert multiset(s[..j])[s[i]] >= 1 && multiset(s[j..])[s[i]] >= 1;
  }
}
