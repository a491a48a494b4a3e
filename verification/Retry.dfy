/** One pass over the pending sessions (`retry_pending_artifact_uploads` of src/main.cpp). */
module Retry {
  import opened Wrappers
  import opened Artifacts

  /** What the environment answers for each session directory: whether the destination accepts
      the upload, the error text if not, and the clock at the write that follows. */
  datatype Environment = Environment(accepts: string -> bool, error: string -> string, utc: string -> string)

  datatype Outcome = Finished(uploadedAny: bool) | UploadFailed(name: string) | ArchiveFailed(name: string)

  /** Uploads go out under the session's own run and session ids. */
  function UploadConfig(config: Config, session: PendingSession): Config {
    config.(runId := if session.runId == "" then config.runId else session.runId,
            sessionId := if session.sessionId == "" then session.paths.artifactDir.name else session.sessionId)
  }

  function NameOf(session: PendingSession): string {
    session.paths.artifactDir.name
  }

  function Inspected(store: Store, dirs: seq<Location>): seq<PendingSession> {
    seq(|dirs|, i requires 0 <= i < |dirs| => Inspect(store, dirs[i]))
  }

  /** The pass over the sessions found, in order; the first failure ends it. */
  function Pass(store: Store, config: Config, env: Environment, queue: seq<PendingSession>, any: bool): (Store, Outcome)
    decreases |queue|
  {
    if |queue| == 0 then (store, Finished(any))
    else
      var session := queue[0];
      var name, upload := NameOf(session), UploadConfig(config, session);
      if !session.state.ReadyToUpload? || config.destinationUrl == "" then Pass(store, config, env, queue[1..], any)
      else if !env.accepts(name) then
        (RecordFailure(store, upload, session.paths, env.error(name), env.utc(name)), UploadFailed(name))
      else
        match ArchiveSession(store, upload, session.paths, env.utc(name))
        case Failed(_) => (store, ArchiveFailed(name))
        case Done(archived) => Pass(archived, config, env, queue[1..], true)
  }

  // ----- What a pass should do, directory by directory -----

  /** The manifest says where it is kept, or says nothing about it. */
  predicate KeepsOwnState(store: Store, dir: Location) {
    StateAt(store, dir).Written? ==>
      StateAt(store, dir).manifest.stateFile.None? || StateAt(store, dir).manifest.stateFile.value == dir
  }

  predicate IsReady(store: Store, dir: Location) {
    StateAt(store, dir).Written? && StateAt(store, dir).manifest.state.ReadyToUpload?
  }

  function ArchivedAt(dir: Location): Location {
    dir.(area := Archive)
  }

  /** A ready session at which a pass ends: the destination rejects it, or its name is archived already. */
  predicate Stops(store: Store, env: Environment, dir: Location) {
    IsReady(store, dir) && (!env.accepts(dir.name) || ArchivedAt(dir) in store)
  }

  predicate AnyReady(store: Store, dirs: seq<Location>) {
    exists dir :: dir in dirs && IsReady(store, dir)
  }

  lemma AnyReadyStep(store: Store, dirs: seq<Location>)
    ensures AnyReady(store, dirs) <==> |dirs| > 0 && (IsReady(store, dirs[0]) || AnyReady(store, dirs[1..]))
  {
    hide IsReady;
    if |dirs| > 0 { assert dirs == [dirs[0]] + dirs[1..]; }
  }

  function FirstStop(store: Store, env: Environment, dirs: seq<Location>): (k: nat)
    ensures k <= |dirs|
    ensures forall i :: 0 <= i < k ==> !Stops(store, env, dirs[i])
    ensures k < |dirs| ==> Stops(store, env, dirs[k])
  {
    if |dirs| == 0 then 0
    else if Stops(store, env, dirs[0]) then 0
    else FirstStop(store, env, dirs[1..]) + 1
  }

  /** The manifest a session has in the archive. */
  function ArchivedManifest(config: Config, store: Store, dir: Location, now: string): Manifest {
    BaseState(UploadConfig(config, Inspect(store, dir)), DefaultPaths(ArchivedAt(dir)), StateAt(store, dir), Archived, now)
  }

  /** The file that the scan takes for a session's manifest from then on. */
  function StateFileOf(store: Store, dir: Location): Location {
    Inspect(store, dir).paths.stateFile
  }

  /** What is written over `previous` when the upload of the session at `dir` was rejected. */
  function RejectedManifest(config: Config, store: Store, dir: Location, previous: StateFile,
                            error: string, now: string): Manifest {
    WithFailure(BaseState(UploadConfig(config, Inspect(store, dir)), Inspect(store, dir).paths, previous, ReadyToUpload, now),
                Failure(now, config.destinationUrl, error))
  }

  /** `after` is `before` with the ready ones among `gone` moved to the archive. */
  ghost predicate Moved(before: Store, after: Store, config: Config, env: Environment, gone: seq<Location>) {
    forall loc: Location {:trigger loc in after} ::
      if loc in gone && IsReady(before, loc) then loc !in after
      else if loc.area.Archive? && loc.(area := Pending) in gone && IsReady(before, loc.(area := Pending)) then
        var dir := loc.(area := Pending);
        loc in after && dir in before
        && after[loc] == Dir(Written(ArchivedManifest(config, before, dir, env.utc(dir.name))), before[dir].otherFiles)
      else (loc in after <==> loc in before) && (loc in before ==> after[loc] == before[loc])
  }

  /** `after` is `moved` with the failure of the session at `dir` in the state file that its
      manifest named when the scan read it. */
  ghost predicate Charged(before: Store, moved: Store, after: Store, config: Config, env: Environment, dir: Location) {
    var file := StateFileOf(before, dir);
    && after.Keys == moved.Keys + {file}
    && (forall loc :: loc in moved && loc != file ==> after[loc] == moved[loc])
    && after[file] == Dir(Written(RejectedManifest(config, before, dir, StateAt(moved, file), env.error(dir.name), env.utc(dir.name))),
                          file in moved && moved[file].otherFiles)
  }

  /** Different pending directories of one root. */
  ghost predicate ScanList(store: Store, root: string, dirs: seq<Location>) {
    && (forall i :: 0 <= i < |dirs| ==> dirs[i] in store && dirs[i].root == root && dirs[i].area.Pending?)
    && (forall i, j :: 0 <= i < j < |dirs| ==> dirs[i] != dirs[j])
  }

  lemma ScanListed(store: Store, root: string)
    ensures ScanList(store, root, ScanOrder(store, root))
  {
    var dirs := ScanOrder(store, root);
    ScanOrderFacts(store, root);
    hide ScanOrder;
    forall i | 0 <= i < |dirs| ensures dirs[i] in store && dirs[i].root == root && dirs[i].area.Pending? {
      assert dirs[i] in dirs;
    }
  }

  /** Archiving one more session extends what has been moved. */
  lemma MoveOne(before: Store, store: Store, config: Config, env: Environment, dirs: seq<Location>, k: nat)
    requires k < |dirs| && ScanList(before, config.root, dirs) && Moved(before, store, config, env, dirs[..k])
    requires IsReady(before, dirs[k]) && ArchivedAt(dirs[k]) !in before
    ensures var session := Inspect(before, dirs[k]);
            var r := ArchiveSession(store, UploadConfig(config, session), session.paths, env.utc(dirs[k].name));
            r.Done? && Moved(before, r.store, config, env, dirs[..k + 1]) && |r.store| == |store|
  {
    var dir := dirs[k];
    var dest := ArchivedAt(dir);
    UntouchedSoFar(before, store, config, env, dirs, k);
    var session := Inspect(before, dir);
    var upload := UploadConfig(config, session);
    var moved := (store - {dir})[dest := store[dir]];
    assert MoveToArchive(store, upload, session.paths) == Done(moved);
    var after := moved[dest := Dir(Written(ArchivedManifest(config, before, dir, env.utc(dir.name))), before[dir].otherFiles)];
    assert ArchiveSession(store, upload, session.paths, env.utc(dir.name)) == Done(after);
    OneMoreMoved(before, store, after, config, env, dirs, k);
    assert after.Keys == store.Keys - {dir} + {dest};
    assert |store.Keys - {dir}| == |store.Keys| - 1;
    hide Moved, ArchivedManifest;
    assert |after| == |after.Keys| == |store.Keys| == |store|;
  }

  lemma UntouchedSoFar(before: Store, store: Store, config: Config, env: Environment, dirs: seq<Location>, k: nat)
    requires k < |dirs| && ScanList(before, config.root, dirs) && Moved(before, store, config, env, dirs[..k])
    ensures dirs[k] in store && store[dirs[k]] == before[dirs[k]]
    ensures ArchivedAt(dirs[k]) in store <==> ArchivedAt(dirs[k]) in before
  {
    var dir := dirs[k];
    assert dir !in dirs[..k];
    assert ArchivedAt(dir).(area := Pending) == dir;
    assert forall i :: 0 <= i < k ==> dirs[i].area.Pending?;
    assert ArchivedAt(dir) !in dirs[..k];
    assert dir in store <==> dir in before;
    assert ArchivedAt(dir) in store <==> ArchivedAt(dir) in before;
  }

  lemma OneMoreMoved(before: Store, store: Store, after: Store, config: Config, env: Environment, dirs: seq<Location>, k: nat)
    requires k < |dirs| && ScanList(before, config.root, dirs) && Moved(before, store, config, env, dirs[..k])
    requires IsReady(before, dirs[k]) && dirs[k] in store
    requires var dir := dirs[k];
             after == (store - {dir})[ArchivedAt(dir) := store[dir]]
                        [ArchivedAt(dir) := Dir(Written(ArchivedManifest(config, before, dir, env.utc(dir.name))), before[dir].otherFiles)]
    ensures Moved(before, after, config, env, dirs[..k + 1])
  {
    hide ArchivedManifest;
    var dir := dirs[k];
    assert dirs[..k + 1] == dirs[..k] + [dir];
    forall loc: Location {:trigger loc in after}
      ensures if loc in dirs[..k + 1] && IsReady(before, loc) then loc !in after
              else if loc.area.Archive? && loc.(area := Pending) in dirs[..k + 1] && IsReady(before, loc.(area := Pending)) then
                var d := loc.(area := Pending);
                loc in after && d in before
                && after[loc] == Dir(Written(ArchivedManifest(config, before, d, env.utc(d.name))), before[d].otherFiles)
              else (loc in after <==> loc in before) && (loc in before ==> after[loc] == before[loc])
    {
      assert loc in store || loc !in store;
      if loc == ArchivedAt(dir) {
        assert loc.(area := Pending) == dir;
      }
    }
  }

  lemma SkipOne(before: Store, store: Store, config: Config, env: Environment, dirs: seq<Location>, k: nat)
    requires k < |dirs| && Moved(before, store, config, env, dirs[..k]) && !IsReady(before, dirs[k])
    ensures Moved(before, store, config, env, dirs[..k + 1])
  {
    hide ArchivedManifest;
    assert dirs[..k + 1] == dirs[..k] + [dirs[k]];
  }

  lemma RejectOne(before: Store, store: Store, config: Config, env: Environment, dirs: seq<Location>, k: nat)
    requires k < |dirs| && ScanList(before, config.root, dirs) && Moved(before, store, config, env, dirs[..k])
    ensures var session, name := Inspect(before, dirs[k]), dirs[k].name;
            Charged(before, store, RecordFailure(store, UploadConfig(config, session), session.paths, env.error(name), env.utc(name)),
                    config, env, dirs[k])
  {
    UntouchedSoFar(before, store, config, env, dirs, k);
    InspectedName(before, dirs[k]);
    hide Moved, ScanList, BaseState, Inspect;
  }

  /** A session whose name is archived already is uploaded, and stays where it is. */
  lemma CollideOne(before: Store, store: Store, config: Config, env: Environment, dirs: seq<Location>, k: nat)
    requires k < |dirs| && ScanList(before, config.root, dirs) && Moved(before, store, config, env, dirs[..k])
    requires ArchivedAt(dirs[k]) in before
    ensures var session := Inspect(before, dirs[k]);
            ArchiveSession(store, UploadConfig(config, session), session.paths, env.utc(dirs[k].name)).Failed?
  {
    UntouchedSoFar(before, store, config, env, dirs, k);
    InspectedName(before, dirs[k]);
    hide Moved, WriteState, Inspect;
  }

  /** How a pass ends that has archived what it could of `dirs[..f]` and stops at `f`. */
  ghost predicate EndsAt(before: Store, moved: Store, after: Store, outcome: Outcome, config: Config, env: Environment,
                         dirs: seq<Location>, f: nat, any: bool)
    requires f <= |dirs|
  {
    if f == |dirs| then after == moved && outcome == Finished(any)
    else if !env.accepts(dirs[f].name) then
      outcome == UploadFailed(dirs[f].name) && Charged(before, moved, after, config, env, dirs[f])
    else outcome == ArchiveFailed(dirs[f].name) && after == moved
  }

  /** From any point of the pass on: it stops at the first session it has to stop at, having
      archived the ready sessions before it. */
  lemma {:induction false} PassFrom(before: Store, store: Store, config: Config, env: Environment, dirs: seq<Location>, k: nat, any: bool)
      returns (moved: Store)
    requires config.destinationUrl != "" && k <= FirstStop(before, env, dirs)
    requires ScanList(before, config.root, dirs) && Moved(before, store, config, env, dirs[..k])
    ensures var f := FirstStop(before, env, dirs);
            var (after, outcome) := Pass(store, config, env, Inspected(before, dirs[k..]), any);
            && Moved(before, moved, config, env, dirs[..f]) && |moved| == |store|
            && EndsAt(before, moved, after, outcome, config, env, dirs, f, any || AnyReady(before, dirs[k..]))
    decreases |dirs| - k
  {
    hide Moved, ScanList, Charged, RecordFailure, ArchiveSession, UploadConfig, IsReady, AnyReady, FirstStop;
    moved := store;
    AnyReadyStep(before, dirs[k..]);
    if k < |dirs| {
      RestOfScan(before, dirs, k);
      ReadyIsSeen(before, dirs[k]);
      InspectedName(before, dirs[k]);
      hide Inspect, Inspected;
      if !IsReady(before, dirs[k]) {
        SkipOne(before, store, config, env, dirs, k);
        moved := PassFrom(before, store, config, env, dirs, k + 1, any);
      } else if !env.accepts(dirs[k].name) {
        RejectOne(before, store, config, env, dirs, k);
      } else if ArchivedAt(dirs[k]) in before {
        CollideOne(before, store, config, env, dirs, k);
      } else {
        MoveOne(before, store, config, env, dirs, k);
        var session := Inspect(before, dirs[k]);
        var r := ArchiveSession(store, UploadConfig(config, session), session.paths, env.utc(dirs[k].name));
        moved := PassFrom(before, r.store, config, env, dirs, k + 1, true);
      }
    }
  }

  lemma InspectedName(store: Store, dir: Location)
    ensures Inspect(store, dir).paths.artifactDir == dir
  {
  }

  lemma RestOfScan(store: Store, dirs: seq<Location>, k: nat)
    requires k < |dirs|
    ensures dirs[k..][0] == dirs[k] && dirs[k..][1..] == dirs[k + 1..]
    ensures Inspected(store, dirs[k..])[0] == Inspect(store, dirs[k])
    ensures Inspected(store, dirs[k..])[1..] == Inspected(store, dirs[k + 1..])
  {
    hide Inspect;
  }

  lemma ReadyIsSeen(store: Store, dir: Location)
    ensures IsReady(store, dir) <==> Inspect(store, dir).state.ReadyToUpload?
  {
  }

  /** A pass with a destination, over any store: it stops at the first ready session that is rejected
      or whose name is archived already. The ready sessions before that one are archived and nothing
      else is moved; without such a session every ready one is archived. A rejection changes the one
      state file that the session's manifest names; a name archived already changes nothing. */
  lemma PassStopsAtFirstFailure(store: Store, config: Config, env: Environment) returns (moved: Store)
    requires config.destinationUrl != ""
    ensures var dirs := ScanOrder(store, config.root);
            var f := FirstStop(store, env, dirs);
            var (after, outcome) := Pass(store, config, env, Inspected(store, dirs), false);
            && Moved(store, moved, config, env, dirs[..f]) && |moved| == |store|
            && EndsAt(store, moved, after, outcome, config, env, dirs, f, AnyReady(store, dirs))
  {
    var dirs := ScanOrder(store, config.root);
    ScanListed(store, config.root);
    hide Pass, ScanOrder, ScanList, EndsAt;
    NothingMoved(store, config, env);
    assert dirs[..0] == [] && dirs[0..] == dirs;
    moved := PassFrom(store, store, config, env, dirs, 0, false);
  }

  lemma NothingMoved(store: Store, config: Config, env: Environment)
    ensures Moved(store, store, config, env, [])
  {
  }

  lemma OwnFile(store: Store, dir: Location)
    ensures KeepsOwnState(store, dir) <==> StateFileOf(store, dir) == dir
  {
  }

  /** A rejected session that keeps its own manifest is itself charged, whatever was archived before
      it, and no directory is created. */
  lemma OwnManifestIsCharged(store: Store, moved: Store, after: Store, config: Config, env: Environment, dirs: seq<Location>, f: nat)
    requires f < |dirs| && ScanList(store, config.root, dirs) && Moved(store, moved, config, env, dirs[..f])
    requires Charged(store, moved, after, config, env, dirs[f]) && KeepsOwnState(store, dirs[f])
    ensures var dir := dirs[f];
            && |after| == |moved| && dir in after
            && after[dir] == Dir(Written(RejectedManifest(config, store, dir, StateAt(store, dir), env.error(dir.name), env.utc(dir.name))),
                                 store[dir].otherFiles)
            && after - {dir} == moved - {dir}
  {
    UntouchedSoFar(store, moved, config, env, dirs, f);
    OwnFile(store, dirs[f]);
    hide Moved, ScanList, RejectedManifest, KeepsOwnState, StateFileOf, Inspect;
    assert after.Keys == moved.Keys;
    assert |after| == |after.Keys| == |moved.Keys| == |moved|;
  }

  /** Without a destination a pass changes nothing. */
  lemma {:induction false} PassWithoutDestination(store: Store, config: Config, env: Environment, queue: seq<PendingSession>, any: bool)
    requires config.destinationUrl == ""
    ensures Pass(store, config, env, queue, any) == (store, Finished(any))
  {
    if |queue| > 0 {
      PassWithoutDestination(store, config, env, queue[1..], any);
    }
  }

  /** `value`, or what stands in for it when it is empty. */
  function OrElse(value: string, other: string): string {
    if value != "" then value else other
  }

  /** What a rejection writes: a ready manifest under the session's own ids, or their stand-ins, whose
      ledger is that of the file it replaces and exactly the new failure more. */
  lemma RejectionCharges(config: Config, store: Store, dir: Location, previous: StateFile, error: string, now: string)
    requires IsReady(store, dir)
    ensures var m, r := StateAt(store, dir).manifest, RejectedManifest(config, store, dir, previous, error, now);
            && r.state.ReadyToUpload? && r.stateFile == Some(StateFileOf(store, dir))
            && r.runId == OrElse(m.runId, config.runId) && r.sessionId == OrElse(m.sessionId, dir.name)
            && r.createdUtc == OrElse(if previous.Written? then previous.manifest.createdUtc else "", now)
            && Ledger(r) == (if previous.Written? then Ledger(previous.manifest) else []) + [Failure(now, config.destinationUrl, error)]
            && Attempts(r) == (if previous.Written? then Attempts(previous.manifest) else 0) + 1
            && r.lastFailure == Some(Failure(now, config.destinationUrl, error)) && r.lastAttemptUtc == Some(now)
            && r.updatedUtc == now && r.destinationConfigured == (config.destinationUrl != "")
  {
  }

  /** The failure of a ready session reaches its own directory exactly when its manifest is kept
      there: a manifest that names another file, as after moving the artifacts directory, has the
      failure recorded at the other place and its own ledger left as it was. */
  lemma ChargedExactlyWhenOwn(config: Config, store: Store, dir: Location, error: string, now: string)
    requires IsReady(store, dir)
    ensures var session := Inspect(store, dir);
            var after := RecordFailure(store, UploadConfig(config, session), session.paths, error, now);
            && IsReady(after, dir)
            && (KeepsOwnState(store, dir) <==>
                Ledger(StateAt(after, dir).manifest)
                == Ledger(StateAt(store, dir).manifest) + [Failure(now, config.destinationUrl, error)])
            && (!KeepsOwnState(store, dir) ==> after[dir] == store[dir])
  {
    var before := Ledger(StateAt(store, dir).manifest);
    assert |before + [Failure(now, config.destinationUrl, error)]| == |before| + 1;
  }

  /** A session whose artifacts directory was moved after it became ready: the rejected pass leaves
      the session's ledger alone and begins a new directory, with the ledger, below the old root. */
  lemma MovedRootLosesFailure(m: Manifest, oldRoot: string, newRoot: string, name: string, config: Config, env: Environment)
    requires m.state.ReadyToUpload? && m.stateFile == Some(Location(oldRoot, Pending, name)) && oldRoot != newRoot
    requires config.root == newRoot && config.destinationUrl != "" && !env.accepts(name)
    ensures var here, there := Location(newRoot, Pending, name), Location(oldRoot, Pending, name);
            var store := map[here := Dir(Written(m), true)];
            var (after, outcome) := Pass(store, config, env, Inspected(store, ScanOrder(store, newRoot)), false);
            && !KeepsOwnState(store, here) && outcome == UploadFailed(name)
            && after.Keys == {here, there} && after[here] == store[here]
            && StateAt(after, there).Written?
            && Ledger(StateAt(after, there).manifest) == [Failure(env.utc(name), config.destinationUrl, env.error(name))]
  {
    var here := Location(newRoot, Pending, name);
    var store := map[here := Dir(Written(m), true)];
    OnlyOneListed(store, here);
    assert ScanOrder(store, newRoot) == [here];
    assert Inspected(store, [here]) == [Inspect(store, here)];
    hide ScanOrder;
  }

  lemma OnlyOneListed(store: Store, dir: Location)
    requires store.Keys == {dir} && dir.area.Pending?
    ensures ScanOrder(store, dir.root) == [dir]
  {
    var dirs := ScanOrder(store, dir.root);
    ScanOrderFacts(store, dir.root);
    hide ScanOrder;
    assert dir in dirs && (|dirs| > 1 ==> dirs[0] != dirs[1]);
    forall i | 0 <= i < |dirs| ensures dirs[i] == dir {
      assert dirs[i] in dirs;
    }
  }

  /** Archiving keeps the ledger, and the identity in as far as it is recorded: what is empty is filled in. */
  lemma ArchivingKeeps(config: Config, store: Store, dir: Location, now: string)
    requires IsReady(store, dir)
    ensures var m, r := StateAt(store, dir).manifest, ArchivedManifest(config, store, dir, now);
            && r.state.Archived? && r.stateFile == Some(ArchivedAt(dir))
            && Ledger(r) == Ledger(m) && Attempts(r) == Attempts(m) && r.lastFailure == m.lastFailure
            && r.lastAttemptUtc == m.lastAttemptUtc && r.updatedUtc == now
            && r.destinationConfigured == (config.destinationUrl != "")
            && r.runId == OrElse(m.runId, config.runId) && r.sessionId == OrElse(m.sessionId, dir.name)
            && r.createdUtc == OrElse(m.createdUtc, now)
            && (m.runId != "" && m.sessionId != "" && m.createdUtc != "" ==> SameIdentity(m, r))
  {
  }

  predicate SameIdentity(m: Manifest, n: Manifest) {
    m.createdUtc == n.createdUtc && m.runId == n.runId && m.sessionId == n.sessionId
  }

  function Ledger(m: Manifest): seq<Failure> {
    if m.failures.Some? then m.failures.value else []
  }

  function Attempts(m: Manifest): int {
    if m.attempts.Some? then m.attempts.value else 0
  }
}
