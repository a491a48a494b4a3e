/** Every sequence of program runs over the same file system, with a crash possible between any
    two steps and in the middle of any write of a manifest (src/main.cpp, src/artifact_lifecycle.cpp). */
module Lifecycle {
  import opened Wrappers
  import opened Artifacts
  import opened Retry

  /** What remains to be done after an archive move: the rest of the retry scan, or nothing. */
  datatype Rest = Rest(config: Config, queue: seq<PendingSession>) | NoRest

  /** Where a run of the program stands. */
  datatype Phase =
    | Idle
    | Scanned(config: Config, queue: seq<PendingSession>)
    | Prepared(config: Config)
    | Captured(config: Config)
    | Ready(config: Config)
    | Accepted(upload: Config, paths: Paths, rest: Rest)
    | Renamed(upload: Config, place: Location, rest: Rest)
    | Rejected(upload: Config, paths: Paths)
    | Collided

  /** The file system, where the run stands, and which sessions the destination has ever accepted
      or seen their capture completed (by their pending location). */
  datatype World = World(store: Store, phase: Phase, accepted: set<Location>, completed: set<Location>)

  datatype Step =
    | Start(config: Config)
    | Skip
    | Send(accepts: bool)
    | Rename
    | WriteArchived(now: string)
    | RecordRejection(error: string, now: string)
    | EndScan(runId: string, sessionId: string)
    | WriteCapturing(now: string)
    | WriteEvents
    | WriteReady(now: string)
    | Crash
    | TornWrite

  function Initial(): World {
    World(map[], Idle, {}, {})
  }

  /** A new session's directory and state file. */
  function OwnDir(config: Config): Location {
    Location(config.root, Pending, config.sessionId)
  }

  function Continue(rest: Rest): Phase {
    match rest
    case Rest(config, queue) => Scanned(config, queue)
    case NoRest => Idle
  }

  /** The session at the head of the scan is sent only if it is ready and there is a destination. */
  predicate Sendable(config: Config, queue: seq<PendingSession>) {
    |queue| > 0 && queue[0].state.ReadyToUpload? && config.destinationUrl != ""
  }

  function Spoil(store: Store, file: Location): Store {
    if file in store then store[file := store[file].(stateFile := Damaged)]
    else store[file := Dir(Damaged, false)]
  }

  /** The state file that the next write of this phase would replace. */
  function NextWrite(phase: Phase): Option<Location> {
    match phase
    case Prepared(config) => Some(OwnDir(config))
    case Captured(config) => Some(OwnDir(config))
    case Renamed(_, place, _) => Some(place)
    case Rejected(_, paths) => Some(paths.stateFile)
    case _ => None
  }

  /** One step; a step that the phase does not allow changes nothing. */
  ghost function Next(w: World, step: Step): World {
    match (w.phase, step)
    case (_, Crash) => w.(phase := Idle)
    case (phase, TornWrite) =>
      if NextWrite(phase).Some? then w.(store := Spoil(w.store, NextWrite(phase).value), phase := Idle) else w
    case (Idle, Start(config)) =>
      w.(phase := Scanned(config, Inspected(w.store, ScanOrder(w.store, config.root))))
    case (Scanned(config, queue), Skip) =>
      if |queue| > 0 && !Sendable(config, queue) then w.(phase := Scanned(config, queue[1..])) else w
    case (Scanned(config, queue), Send(accepts)) =>
      if !Sendable(config, queue) then w
      else
        var upload, paths := UploadConfig(config, queue[0]), queue[0].paths;
        if accepts then
          w.(phase := Accepted(upload, paths, Rest(config, queue[1..])), accepted := w.accepted + {paths.artifactDir})
        else w.(phase := Rejected(upload, paths))
    case (Scanned(config, queue), EndScan(runId, sessionId)) =>
      if |queue| > 0 || runId == "" || sessionId == "" then w
      else
        var c := config.(runId := runId, sessionId := sessionId);
        (match Prepare(w.store, c)
         case Done(store) => w.(store := store, phase := Prepared(c))
         case Failed(_) => w.(phase := Idle))
    case (Prepared(config), WriteCapturing(now)) =>
      if now == "" then w
      else w.(store := WriteState(w.store, config, DefaultPaths(OwnDir(config)), Capturing, now), phase := Captured(config))
    case (Captured(config), WriteEvents) =>
      if OwnDir(config) in w.store then
        w.(store := w.store[OwnDir(config) := w.store[OwnDir(config)].(otherFiles := true)])
      else w
    case (Captured(config), WriteReady(now)) =>
      if now == "" then w
      else w.(store := WriteState(w.store, config, DefaultPaths(OwnDir(config)), ReadyToUpload, now),
              completed := w.completed + {OwnDir(config)},
              phase := if config.destinationUrl == "" then Idle else Ready(config))
    case (Ready(config), Send(accepts)) =>
      if accepts then
        w.(phase := Accepted(config, DefaultPaths(OwnDir(config)), NoRest), accepted := w.accepted + {OwnDir(config)})
      else w.(phase := Rejected(config, DefaultPaths(OwnDir(config))))
    case (Accepted(upload, paths, rest), Rename) =>
      (match MoveToArchive(w.store, upload, paths)
       case Done(store) => w.(store := store, phase := Renamed(upload, ArchivePlace(upload, paths), rest))
       case Failed(_) => w.(phase := Collided))
    case (Renamed(upload, place, rest), WriteArchived(now)) =>
      if now == "" then w
      else w.(store := WriteState(w.store, upload, DefaultPaths(place), Archived, now), phase := Continue(rest))
    case (Rejected(upload, paths), RecordRejection(error, now)) =>
      if now == "" then w
      else w.(store := RecordFailure(w.store, upload, paths, error, now), phase := Idle)
    case _ => w
  }

  /** All runs, crashes included, as one sequence of steps. */
  ghost function After(w: World, steps: seq<Step>): World {
    if |steps| == 0 then w else Next(After(w, steps[..|steps| - 1]), steps[|steps| - 1])
  }

  // ----- What every reachable world satisfies -----

  /** The ledger of failed uploads agrees with itself. */
  predicate LedgerAgrees(m: Manifest) {
    && Attempts(m) == |Ledger(m)|
    && (|Ledger(m)| > 0 ==> var last := Ledger(m)[|Ledger(m)| - 1]; m.lastFailure == Some(last) && m.lastAttemptUtc == Some(last.attemptUtc))
    && (|Ledger(m)| == 0 ==> m.lastFailure.None? && m.lastAttemptUtc.None?)
  }

  /** A readable manifest is complete, belongs to its directory's session, and while pending is
      kept in its own directory. */
  predicate GoodManifest(loc: Location, m: Manifest) {
    && m.runId != "" && m.createdUtc != "" && m.sessionId == loc.name && m.sessionId != ""
    && LedgerAgrees(m)
    && (loc.area.Pending? ==> m.stateFile == Some(loc) && (m.state.Capturing? || m.state.ReadyToUpload?))
  }

  ghost predicate GoodStore(w: World) {
    && (forall loc :: loc in w.store && w.store[loc].stateFile.Written? ==> GoodManifest(loc, w.store[loc].stateFile.manifest))
    && (forall loc :: loc in w.store && loc.area.Pending? ==> loc.(area := Archive) !in w.store)
    && (forall loc :: loc in w.store && loc.area.Archive? ==> loc.(area := Pending) in w.accepted)
    && (forall loc :: IsReady(w.store, loc) && loc.area.Pending? ==> loc in w.completed)
    && w.accepted <= w.completed
  }

  /** A session that is about to be sent or moved under `upload`. */
  predicate Carries(store: Store, upload: Config, paths: Paths) {
    var dir := paths.artifactDir;
    && paths == DefaultPaths(dir) && dir.area.Pending? && dir.root == upload.root
    && IsReady(store, dir)
    && StateAt(store, dir).manifest.runId == upload.runId && upload.sessionId == dir.name
  }

  /** The scan results still describe the store. */
  ghost predicate Current(store: Store, config: Config, queue: seq<PendingSession>) {
    && (forall i :: 0 <= i < |queue| ==>
          var dir := queue[i].paths.artifactDir;
          dir in store && dir.root == config.root && dir.area.Pending? && queue[i] == Inspect(store, dir))
    && (forall i, j :: 0 <= i < j < |queue| ==> queue[i].paths.artifactDir != queue[j].paths.artifactDir)
  }

  ghost predicate CurrentRest(store: Store, rest: Rest, except: Location) {
    rest.Rest? ==>
      Current(store, rest.config, rest.queue)
      && forall i :: 0 <= i < |rest.queue| ==> rest.queue[i].paths.artifactDir != except
  }

  /** A session of this run whose manifest has the given state. */
  predicate Owns(store: Store, config: Config, state: ArtifactState) {
    && config.runId != "" && config.sessionId != ""
    && StateAt(store, OwnDir(config)).Written?
    && StateAt(store, OwnDir(config)).manifest.state == state
    && StateAt(store, OwnDir(config)).manifest.runId == config.runId
  }

  ghost predicate GoodPhase(w: World) {
    match w.phase
    case Idle => true
    case Collided => false
    case Scanned(config, queue) => Current(w.store, config, queue)
    case Prepared(config) =>
      config.runId != "" && config.sessionId != "" && OwnDir(config) in w.store && StateAt(w.store, OwnDir(config)).Missing?
    case Captured(config) => Owns(w.store, config, Capturing)
    case Ready(config) => Owns(w.store, config, ReadyToUpload)
    case Accepted(upload, paths, rest) =>
      Carries(w.store, upload, paths) && paths.artifactDir in w.accepted && CurrentRest(w.store, rest, paths.artifactDir)
    case Rejected(upload, paths) => Carries(w.store, upload, paths)
    case Renamed(upload, place, rest) =>
      && place.area.Archive? && StateAt(w.store, place).Written?
      && StateAt(w.store, place).manifest.runId == upload.runId && upload.sessionId == place.name
      && CurrentRest(w.store, rest, place)
  }

  ghost predicate Safe(w: World) {
    GoodStore(w) && GoodPhase(w)
  }

  lemma StartIsSafe(store: Store, config: Config)
    ensures Current(store, config, Inspected(store, ScanOrder(store, config.root)))
  {
    var dirs := ScanOrder(store, config.root);
    ScanOrderFacts(store, config.root);
    hide ScanOrder, Inspect;
    forall i | 0 <= i < |dirs|
      ensures dirs[i] in store && dirs[i].root == config.root && dirs[i].area.Pending?
      ensures Inspect(store, dirs[i]).paths.artifactDir == dirs[i]
    {
      assert dirs[i] in dirs;
      InspectedName(store, dirs[i]);
    }
  }

  /** A write to one directory leaves the scan results about the others current. */
  lemma StaysCurrent(store: Store, after: Store, config: Config, queue: seq<PendingSession>)
    requires Current(store, config, queue)
    requires forall i :: 0 <= i < |queue| ==>
               var dir := queue[i].paths.artifactDir; dir in after && after[dir] == store[dir]
    ensures Current(after, config, queue)
  {
  }

  lemma SendFromScan(w: World, config: Config, queue: seq<PendingSession>)
    requires GoodStore(w) && Current(w.store, config, queue) && Sendable(config, queue)
    ensures Carries(w.store, UploadConfig(config, queue[0]), queue[0].paths)
    ensures CurrentRest(w.store, Rest(config, queue[1..]), queue[0].paths.artifactDir)
    ensures queue[0].paths.artifactDir in w.completed
  {
    var dir := queue[0].paths.artifactDir;
    assert GoodManifest(dir, w.store[dir].stateFile.manifest);
  }

  lemma RenameIsSafe(w: World, upload: Config, paths: Paths, rest: Rest)
    requires Safe(w) && w.phase == Accepted(upload, paths, rest)
    ensures MoveToArchive(w.store, upload, paths).Done?
    ensures Safe(Next(w, Rename))
  {
    var dir, place := paths.artifactDir, ArchivePlace(upload, paths);
    assert dir.(area := Archive) == place && place.(area := Pending) == dir;
    var after := Next(w, Rename);
    assert after.store == (w.store - {dir})[place := w.store[dir]];
    assert GoodManifest(dir, w.store[dir].stateFile.manifest);
    forall loc | loc in after.store && loc.area.Pending? ensures loc.(area := Archive) !in after.store {
      assert loc.(area := Archive) == place ==> loc == dir;
    }
    if rest.Rest? {
      StaysCurrent(w.store, after.store, rest.config, rest.queue);
    }
  }

  /** Writing a good manifest into a directory that is there keeps the store good. */
  lemma WriteIsGood(w: World, after: World, loc: Location, m: Manifest)
    requires GoodStore(w) && loc in w.store && GoodManifest(loc, m)
    requires after.store == PutState(w.store, loc, m)
    requires after.accepted == w.accepted && w.completed <= after.completed
    requires m.state.ReadyToUpload? && loc.area.Pending? ==> loc in after.completed
    ensures GoodStore(after)
  {
    forall x | IsReady(after.store, x) && x.area.Pending? ensures x in after.completed {
      if x != loc { assert IsReady(w.store, x); }
    }
  }

  lemma WriteArchivedIsSafe(w: World, upload: Config, place: Location, rest: Rest, now: string)
    requires Safe(w) && w.phase == Renamed(upload, place, rest) && now != ""
    ensures Safe(Next(w, WriteArchived(now)))
  {
    var after := Next(w, WriteArchived(now));
    var m := BaseState(upload, DefaultPaths(place), StateAt(w.store, place), Archived, now);
    assert GoodManifest(place, StateAt(w.store, place).manifest);
    WriteIsGood(w, after, place, m);
    if rest.Rest? {
      StaysCurrent(w.store, after.store, rest.config, rest.queue);
    }
  }

  lemma RejectionIsSafe(w: World, upload: Config, paths: Paths, error: string, now: string)
    requires Safe(w) && w.phase == Rejected(upload, paths) && now != ""
    ensures Safe(Next(w, RecordRejection(error, now)))
  {
    var after := Next(w, RecordRejection(error, now));
    var dir := paths.artifactDir;
    var base := BaseState(upload, paths, StateAt(w.store, dir), ReadyToUpload, now);
    assert GoodManifest(dir, StateAt(w.store, dir).manifest);
    LedgerGrows(base, Failure(now, upload.destinationUrl, error));
    WriteIsGood(w, after, dir, WithFailure(base, Failure(now, upload.destinationUrl, error)));
  }

  lemma LedgerGrows(m: Manifest, failure: Failure)
    requires LedgerAgrees(m)
    ensures LedgerAgrees(WithFailure(m, failure))
    ensures Ledger(WithFailure(m, failure)) == Ledger(m) + [failure]
  {
  }

  lemma PrepareIsSafe(w: World, config: Config)
    requires GoodStore(w) && config.runId != "" && config.sessionId != "" && Prepare(w.store, config).Done?
    ensures Safe(w.(store := Prepare(w.store, config).store, phase := Prepared(config)))
  {
    var dir := OwnDir(config);
    assert dir.(area := Archive) == Location(config.root, Archive, config.sessionId);
    var after := w.(store := Prepare(w.store, config).store, phase := Prepared(config));
    forall x | IsReady(after.store, x) && x.area.Pending? ensures x in after.completed {
      assert IsReady(w.store, x);
    }
    forall loc | loc in after.store && loc.area.Archive? ensures loc.(area := Pending) in after.accepted {
      assert loc in w.store;
    }
  }

  lemma WriteOwnIsSafe(w: World, config: Config, state: ArtifactState, now: string, after: World)
    requires GoodStore(w) && config.runId != "" && config.sessionId != "" && now != ""
    requires OwnDir(config) in w.store
    requires StateAt(w.store, OwnDir(config)).Missing? || Owns(w.store, config, Capturing)
    requires state.Capturing? || state.ReadyToUpload?
    requires after.store == WriteState(w.store, config, DefaultPaths(OwnDir(config)), state, now)
    requires after.accepted == w.accepted && w.completed <= after.completed
    requires state.ReadyToUpload? ==> OwnDir(config) in after.completed
    ensures GoodStore(after) && Owns(after.store, config, state)
  {
    var dir := OwnDir(config);
    var m := BaseState(config, DefaultPaths(dir), StateAt(w.store, dir), state, now);
    if StateAt(w.store, dir).Written? { assert GoodManifest(dir, StateAt(w.store, dir).manifest); }
    WriteIsGood(w, after, dir, m);
  }

  lemma EventsAreSafe(w: World, config: Config)
    requires Safe(w) && w.phase == Captured(config)
    ensures Safe(Next(w, WriteEvents))
  {
    var after := Next(w, WriteEvents);
    forall x | IsReady(after.store, x) && x.area.Pending? ensures x in after.completed {
      assert IsReady(w.store, x);
    }
  }

  lemma SpoilIsSafe(w: World)
    requires Safe(w) && NextWrite(w.phase).Some?
    ensures Safe(Next(w, TornWrite))
  {
    WritesInPlace(w);
    var after := Next(w, TornWrite);
    forall x | IsReady(after.store, x) && x.area.Pending? ensures x in after.completed {
      assert IsReady(w.store, x);
    }
  }

  /** A step that leaves the file system alone. */
  lemma SameStoreIsGood(w: World, after: World)
    requires GoodStore(w) && after.store == w.store
    requires w.accepted <= after.accepted <= after.completed && w.completed <= after.completed
    ensures GoodStore(after)
  {
  }

  lemma ScanStepIsSafe(w: World, step: Step)
    requires Safe(w) && w.phase.Scanned? && (step.Skip? || step.Send? || step.EndScan?)
    ensures Safe(Next(w, step))
  {
    var config, queue := w.phase.config, w.phase.queue;
    AcceptedCompleted(w);
    if step.Skip? {
      Shorter(w.store, config, queue);
      hide GoodStore, Current;
      SameStoreIsGood(w, Next(w, step));
    } else if step.Send? {
      if Sendable(config, queue) {
        SendFromScan(w, config, queue);
        hide GoodStore, Carries, CurrentRest, UploadConfig;
        SameStoreIsGood(w, Next(w, step));
      }
    } else {
      var c := config.(runId := step.runId, sessionId := step.sessionId);
      hide GoodStore, Current;
      if |queue| == 0 && c.runId != "" && c.sessionId != "" {
        if Prepare(w.store, c).Done? {
          PrepareIsSafe(w, c);
        } else {
          SameStoreIsGood(w, Next(w, step));
        }
      }
    }
  }

  lemma AcceptedCompleted(w: World)
    requires GoodStore(w)
    ensures w.accepted <= w.completed
  {
  }

  lemma Shorter(store: Store, config: Config, queue: seq<PendingSession>)
    requires Current(store, config, queue)
    ensures |queue| > 0 ==> Current(store, config, queue[1..])
  {
    hide Inspect;
  }

  lemma OwnStepIsSafe(w: World, step: Step)
    requires Safe(w)
    requires (w.phase.Prepared? && step.WriteCapturing?) || (w.phase.Captured? && step.WriteReady?) || (w.phase.Ready? && step.Send?)
    ensures Safe(Next(w, step))
  {
    var config, after := w.phase.config, Next(w, step);
    AcceptedCompleted(w);
    if step.Send? {
      ReadyCarries(w, config);
      hide GoodStore, Carries, OwnDir;
      SameStoreIsGood(w, after);
    } else if step.now != "" {
      WriteOwnIsSafe(w, config, if step.WriteReady? then ReadyToUpload else Capturing, step.now, after);
      hide GoodStore, WriteState, OwnDir;
    }
  }

  lemma NextIsSafe(w: World, step: Step)
    requires Safe(w)
    ensures Safe(Next(w, step))
  {
    hide GoodStore, Current, Carries, CurrentRest, Owns;
    match (w.phase, step) {
      case (_, TornWrite) => if NextWrite(w.phase).Some? { SpoilIsSafe(w); }
      case (_, Crash) => CrashIsSafe(w);
      case (Idle, Start(config)) =>
        StartIsSafe(w.store, config);
        AcceptedCompleted(w);
        SameStoreIsGood(w, Next(w, step));
      case (Scanned(_, _), Skip) => ScanStepIsSafe(w, step);
      case (Scanned(_, _), Send(_)) => ScanStepIsSafe(w, step);
      case (Scanned(_, _), EndScan(_, _)) => ScanStepIsSafe(w, step);
      case (Prepared(_), WriteCapturing(_)) => OwnStepIsSafe(w, step);
      case (Captured(config), WriteEvents) => EventsAreSafe(w, config);
      case (Captured(_), WriteReady(_)) => OwnStepIsSafe(w, step);
      case (Ready(_), Send(_)) => OwnStepIsSafe(w, step);
      case (Accepted(upload, paths, rest), Rename) => RenameIsSafe(w, upload, paths, rest);
      case (Renamed(upload, place, rest), WriteArchived(now)) =>
        if now != "" { WriteArchivedIsSafe(w, upload, place, rest, now); }
      case (Rejected(upload, paths), RecordRejection(error, now)) =>
        if now != "" { RejectionIsSafe(w, upload, paths, error, now); }
      case _ =>
    }
  }

  lemma CrashIsSafe(w: World)
    requires Safe(w)
    ensures Safe(Next(w, Crash))
  {
    AcceptedCompleted(w);
    hide GoodStore;
    SameStoreIsGood(w, Next(w, Crash));
  }

  lemma ReadyCarries(w: World, config: Config)
    requires Safe(w) && w.phase == Ready(config)
    ensures Carries(w.store, config, DefaultPaths(OwnDir(config))) && OwnDir(config) in w.completed
  {
    assert IsReady(w.store, OwnDir(config));
  }

  /** Whatever the runs do and wherever they crash: no session name is both pending and archived,
      so the archive collision never happens; every archived session was accepted; and no
      accepted session had an incomplete capture. */
  lemma {:induction false} EveryRunIsSafe(steps: seq<Step>)
    ensures Safe(After(Initial(), steps))
  {
    hide Safe, Next;
    if |steps| == 0 {
      InitialIsSafe();
    } else {
      EveryRunIsSafe(steps[..|steps| - 1]);
      NextIsSafe(After(Initial(), steps[..|steps| - 1]), steps[|steps| - 1]);
    }
  }

  lemma InitialIsSafe()
    ensures Safe(Initial())
  {
  }

  /** What safety means for the file system after any sequence of steps: a session is never both
      pending and archived, the archive collision is never met, what is archived was accepted, what was
      accepted had been captured completely, and every readable ledger agrees with itself. */
  lemma SafetyOfEveryRun(steps: seq<Step>)
    ensures var w := After(Initial(), steps);
            && (forall root, name :: Location(root, Pending, name) in w.store ==> Location(root, Archive, name) !in w.store)
            && !w.phase.Collided?
            && (forall loc :: loc in w.store && loc.area.Archive? ==> loc.(area := Pending) in w.accepted)
            && w.accepted <= w.completed
            && (forall loc :: loc in w.store && w.store[loc].stateFile.Written? ==> LedgerAgrees(w.store[loc].stateFile.manifest))
  {
    EveryRunIsSafe(steps);
    var w := After(Initial(), steps);
    hide After;
    forall root, name | Location(root, Pending, name) in w.store ensures Location(root, Archive, name) !in w.store {
      assert Location(root, Pending, name).(area := Archive) == Location(root, Archive, name);
    }
  }

  /** A session being sent, accepted or rejected is one whose manifest is readable, says ready, and
      whose capture was completed: never a capturing or unreadable one. */
  lemma OnlyReadySessionsAreSent(steps: seq<Step>)
    ensures var w := After(Initial(), steps);
            (w.phase.Accepted? || w.phase.Rejected?) ==>
              IsReady(w.store, w.phase.paths.artifactDir) && w.phase.paths.artifactDir in w.completed
  {
    EveryRunIsSafe(steps);
    hide After;
  }

  // ----- What later steps keep of earlier ones -----

  /** Where a session directory is found later. */
  function Whereabouts(store: Store, loc: Location): Location {
    if loc in store then loc else ArchivedAt(loc)
  }

  /** How far a session has come. */
  function Progress(state: ArtifactState): int {
    match state
    case Unknown => 0
    case Capturing => 0
    case ReadyToUpload => 1
    case Archived => 2
  }

  /** A readable manifest stays as it was, or has grown its ledger or come further under the same
      identity; one that is missing may be written; one that is destroyed stays so. */
  predicate Grown(before: StateFile, after: StateFile) {
    match before
    case Missing => !after.Damaged?
    case Damaged => after.Damaged?
    case Written(m) =>
      && after.Written? && SameIdentity(m, after.manifest) && Ledger(m) <= Ledger(after.manifest)
      && Progress(m.state) <= Progress(after.manifest.state)
  }

  /** No session directory is lost, nor the files in it; archived ones stay where they are; manifests only grow or
      are destroyed. */
  ghost predicate Keeps(before: Store, after: Store) {
    forall loc :: loc in before ==>
      && Whereabouts(after, loc) in after
      && (loc.area.Archive? ==> loc in after)
      && (before[loc].otherFiles ==> after[Whereabouts(after, loc)].otherFiles)
      && GrownOrDestroyed(before[loc].stateFile, after[Whereabouts(after, loc)].stateFile)
  }

  predicate GrownOrDestroyed(before: StateFile, after: StateFile) {
    Grown(before, after) || after.Damaged?
  }

  lemma PutKeeps(store: Store, loc: Location, m: Manifest)
    requires loc in store && Grown(store[loc].stateFile, Written(m))
    ensures Keeps(store, PutState(store, loc, m))
  {
    GrownItself();
  }

  lemma RenameKeeps(w: World, upload: Config, paths: Paths, rest: Rest)
    requires Safe(w) && w.phase == Accepted(upload, paths, rest)
    ensures Keeps(w.store, Next(w, Rename).store)
  {
    RenameIsSafe(w, upload, paths, rest);
    SentManifest(w);
    hide Safe, Keeps, GoodManifest;
    var dir, place := paths.artifactDir, ArchivePlace(upload, paths);
    assert ArchivedAt(dir) == place;
    assert Next(w, Rename).store == (w.store - {dir})[place := w.store[dir]];
    MoveKeeps(w.store, dir);
  }

  lemma MoveKeeps(store: Store, dir: Location)
    requires dir in store && dir.area.Pending? && ArchivedAt(dir) !in store
    ensures Keeps(store, (store - {dir})[ArchivedAt(dir) := store[dir]])
  {
    GrownItself();
    hide Grown, GrownOrDestroyed;
  }

  /** A manifest rewritten under the same ids carries its identity and ledger over. */
  lemma RewriteGrows(config: Config, paths: Paths, previous: StateFile, state: ArtifactState, now: string)
    requires !previous.Damaged?
    requires previous.Written? ==>
      var m := previous.manifest;
      m.createdUtc != "" && m.runId == config.runId && m.sessionId == config.sessionId && Progress(m.state) <= Progress(state)
    ensures Grown(previous, Written(BaseState(config, paths, previous, state, now)))
  {
  }

  lemma OwnWriteKeeps(w: World, config: Config, state: ArtifactState, now: string)
    requires GoodStore(w) && config.runId != "" && OwnDir(config) in w.store
    requires StateAt(w.store, OwnDir(config)).Missing? || Owns(w.store, config, Capturing)
    requires state.Capturing? || state.ReadyToUpload?
    ensures Keeps(w.store, WriteState(w.store, config, DefaultPaths(OwnDir(config)), state, now))
  {
    var dir := OwnDir(config);
    var previous := StateAt(w.store, dir);
    if previous.Written? { assert GoodManifest(dir, previous.manifest); }
    RewriteGrows(config, DefaultPaths(dir), previous, state, now);
    hide BaseState, Grown, Keeps;
    PutKeeps(w.store, dir, BaseState(config, DefaultPaths(dir), previous, state, now));
  }

  lemma ArchivedWriteKeeps(w: World, upload: Config, place: Location, rest: Rest, now: string)
    requires Safe(w) && w.phase == Renamed(upload, place, rest)
    ensures Keeps(w.store, WriteState(w.store, upload, DefaultPaths(place), Archived, now))
  {
    var previous := StateAt(w.store, place);
    assert GoodManifest(place, previous.manifest);
    RewriteGrows(upload, DefaultPaths(place), previous, Archived, now);
    hide BaseState, Grown, Keeps, Safe;
    PutKeeps(w.store, place, BaseState(upload, DefaultPaths(place), previous, Archived, now));
  }

  lemma RejectionKeeps(w: World, upload: Config, paths: Paths, error: string, now: string)
    requires Safe(w) && w.phase == Rejected(upload, paths)
    ensures Keeps(w.store, RecordFailure(w.store, upload, paths, error, now))
  {
    var dir := paths.artifactDir;
    var previous, failure := StateAt(w.store, dir), Failure(now, upload.destinationUrl, error);
    var base := BaseState(upload, paths, previous, ReadyToUpload, now);
    assert GoodManifest(dir, previous.manifest);
    RewriteGrows(upload, paths, previous, ReadyToUpload, now);
    LedgerGrows(base, failure);
    assert Grown(previous, Written(WithFailure(base, failure)));
    hide BaseState, Grown, Keeps, Safe, WithFailure;
    PutKeeps(w.store, dir, WithFailure(base, failure));
  }

  /** The steps of a run that write or move something. */
  predicate Changes(phase: Phase, step: Step) {
    || step.TornWrite? || (phase.Captured? && step.WriteEvents?) || (phase.Scanned? && step.EndScan?)
    || (phase.Prepared? && step.WriteCapturing?) || (phase.Captured? && step.WriteReady?)
    || (phase.Accepted? && step.Rename?) || (phase.Renamed? && step.WriteArchived?)
    || (phase.Rejected? && step.RecordRejection?)
  }

  lemma NextKeeps(w: World, step: Step)
    requires Safe(w)
    ensures Keeps(w.store, Next(w, step).store)
  {
    hide Keeps, Next, Safe, NextWrite;
    if !Changes(w.phase, step) {
      OtherwiseSameStore(w, step);
      KeepsItself(w.store);
    } else if step.TornWrite? {
      TornKeeps(w);
    } else if step.WriteEvents? || step.EndScan? {
      NewFilesKeep(w, step);
    } else if step.WriteCapturing? || step.WriteReady? {
      OwnStepKeeps(w, step);
    } else {
      UploadStepKeeps(w, step);
    }
  }

  lemma NewFilesKeep(w: World, step: Step)
    requires Changes(w.phase, step) && (step.WriteEvents? || step.EndScan?)
    ensures Keeps(w.store, Next(w, step).store)
  {
    KeepsItself(w.store);
    if step.WriteEvents? {
      EventsKeep(w);
    } else {
      PreparedKeeps(w.store, w.phase.config.(runId := step.runId, sessionId := step.sessionId));
    }
    hide Keeps, Prepare;
  }

  lemma OwnStepKeeps(w: World, step: Step)
    requires Safe(w) && Changes(w.phase, step) && (step.WriteCapturing? || step.WriteReady?)
    ensures Keeps(w.store, Next(w, step).store)
  {
    KeepsItself(w.store);
    hide Keeps, GoodStore, WriteState, OwnDir;
    OwnWriteKeeps(w, w.phase.config, if step.WriteReady? then ReadyToUpload else Capturing, step.now);
  }

  lemma UploadStepKeeps(w: World, step: Step)
    requires Safe(w) && Changes(w.phase, step) && (step.Rename? || step.WriteArchived? || step.RecordRejection?)
    ensures Keeps(w.store, Next(w, step).store)
  {
    KeepsItself(w.store);
    hide Keeps, Safe, WriteState, RecordFailure, MoveToArchive;
    if step.Rename? {
      RenameKeeps(w, w.phase.upload, w.phase.paths, w.phase.rest);
    } else if step.WriteArchived? {
      ArchivedWriteKeeps(w, w.phase.upload, w.phase.place, w.phase.rest, step.now);
    } else {
      RejectionKeeps(w, w.phase.upload, w.phase.paths, step.error, step.now);
    }
  }

  lemma OtherwiseSameStore(w: World, step: Step)
    requires !Changes(w.phase, step)
    ensures Next(w, step).store == w.store
  {
    hide Inspected, ScanOrder, UploadConfig, OwnDir;
  }

  lemma TornKeeps(w: World)
    requires Safe(w)
    ensures Keeps(w.store, Next(w, TornWrite).store)
  {
    if NextWrite(w.phase).Some? {
      WritesInPlace(w);
      SpoilKeeps(w.store, NextWrite(w.phase).value);
    } else {
      KeepsItself(w.store);
    }
    hide Keeps, Safe, NextWrite, Spoil;
  }

  /** Every write of a manifest goes to a directory that is there. */
  lemma WritesInPlace(w: World)
    requires Safe(w) && NextWrite(w.phase).Some?
    ensures NextWrite(w.phase).value in w.store
  {
    hide GoodStore, Current, CurrentRest;
  }

  lemma SpoilKeeps(store: Store, loc: Location)
    requires loc in store
    ensures Keeps(store, Spoil(store, loc))
  {
    GrownItself();
  }

  lemma EventsKeep(w: World)
    requires w.phase.Captured?
    ensures Keeps(w.store, Next(w, WriteEvents).store)
  {
    GrownItself();
  }

  lemma GrownItself()
    ensures forall f: StateFile :: Grown(f, f) && GrownOrDestroyed(f, f)
  {
  }

  lemma PreparedKeeps(store: Store, config: Config)
    ensures Prepare(store, config).Done? ==> Keeps(store, Prepare(store, config).store)
  {
    GrownItself();
  }

  lemma KeepsTransitive(a: Store, b: Store, c: Store)
    requires Keeps(a, b) && Keeps(b, c)
    requires forall loc :: loc in c && loc.area.Pending? ==> loc.(area := Archive) !in c
    ensures Keeps(a, c)
  {
    forall loc | loc in a
      ensures Whereabouts(c, loc) in c && (loc.area.Archive? ==> loc in c)
      ensures a[loc].otherFiles ==> c[Whereabouts(c, loc)].otherFiles
      ensures GrownOrDestroyed(a[loc].stateFile, c[Whereabouts(c, loc)].stateFile)
    {
      var here := Whereabouts(b, loc);
      assert here in b && Whereabouts(c, here) in c;
      if here != loc {
        assert here in c && loc !in c;
      }
      assert Whereabouts(c, here) == Whereabouts(c, loc);
      GrownTwice(a[loc].stateFile, b[here].stateFile, c[Whereabouts(c, loc)].stateFile);
    }
  }

  lemma GrownTwice(a: StateFile, b: StateFile, c: StateFile)
    requires GrownOrDestroyed(a, b) && GrownOrDestroyed(b, c)
    ensures GrownOrDestroyed(a, c)
  {
  }

  lemma {:induction false} RunKeeps(steps: seq<Step>, more: seq<Step>)
    ensures Keeps(After(Initial(), steps).store, After(Initial(), steps + more).store)
  {
    hide Keeps, Next, Safe;
    if |more| == 0 {
      assert steps + more == steps;
      KeepsItself(After(Initial(), steps).store);
    } else {
      var front, step := more[..|more| - 1], more[|more| - 1];
      var all := steps + more;
      RunKeeps(steps, front);
      assert all[..|all| - 1] == steps + front && all[|all| - 1] == step;
      EveryRunIsSafe(steps + front);
      NextKeeps(After(Initial(), steps + front), step);
      EveryRunIsSafe(all);
      SafeSeparates(After(Initial(), all));
      KeepsTransitive(After(Initial(), steps).store, After(Initial(), steps + front).store, After(Initial(), all).store);
    }
  }

  lemma KeepsItself(store: Store)
    ensures Keeps(store, store)
  {
  }

  lemma SafeSeparates(w: World)
    requires Safe(w)
    ensures forall loc :: loc in w.store && loc.area.Pending? ==> loc.(area := Archive) !in w.store
  {
  }

  lemma OnlyRenameRemoves(w: World, step: Step, loc: Location)
    requires loc in w.store && loc !in Next(w, step).store
    ensures w.phase.Accepted? && w.phase.paths.artifactDir == loc
  {
    hide BaseState, WithFailure, ScanOrder, Inspected, UploadConfig, Sendable;
  }

  // ----- Manifests are destroyed by torn writes and by nothing else -----

  predicate DamagedAt(store: Store, loc: Location) {
    loc in store && store[loc].stateFile.Damaged?
  }

  /** A step that cuts the write of the manifest at `loc` short. */
  predicate Tears(w: World, step: Step, loc: Location) {
    step.TornWrite? && NextWrite(w.phase) == Some(loc)
  }

  /** Some write of the manifest at `loc` was cut short. */
  ghost predicate Torn(steps: seq<Step>, loc: Location) {
    exists i {:trigger steps[i]} :: 0 <= i < |steps| && Tears(After(Initial(), steps[..i]), steps[i], loc)
  }

  lemma TornStep(steps: seq<Step>, loc: Location)
    requires |steps| > 0
    ensures var front := steps[..|steps| - 1];
            Torn(steps, loc) <==> Torn(front, loc) || Tears(After(Initial(), front), steps[|steps| - 1], loc)
  {
    hide After, Tears;
    var front := steps[..|steps| - 1];
    assert forall i {:trigger steps[i]} :: 0 <= i < |front| ==> front[..i] == steps[..i] && front[i] == steps[i];
    if Torn(front, loc) {
      var i :| 0 <= i < |front| && Tears(After(Initial(), front[..i]), front[i], loc);
      assert front[..i] == steps[..i] && front[i] == steps[i];
    }
  }

  lemma NextLeavesDestroyed(w: World, step: Step, loc: Location)
    requires Safe(w) && DamagedAt(w.store, loc)
    ensures DamagedAt(Next(w, step).store, loc)
  {
    NextKeeps(w, step);
    if loc !in Next(w, step).store {
      OnlyRenameRemoves(w, step, loc);
    }
    hide Next, GoodStore;
  }

  /** A write that is not cut short, and a new directory, leave no damage. */
  lemma WritesLeaveNoDamage(store: Store, config: Config, paths: Paths, state: ArtifactState, error: string, now: string, loc: Location)
    ensures DamagedAt(WriteState(store, config, paths, state, now), loc) ==> DamagedAt(store, loc)
    ensures DamagedAt(RecordFailure(store, config, paths, error, now), loc) ==> DamagedAt(store, loc)
  {
    hide BaseState, WithFailure;
  }

  lemma RenameLeavesNoDamage(w: World, loc: Location)
    requires Safe(w) && w.phase.Accepted? && DamagedAt(Next(w, Rename).store, loc)
    ensures DamagedAt(w.store, loc)
  {
    hide GoodStore, CurrentRest;
  }

  /** The damaged manifests after a step are those before it and the one it cuts short. */
  lemma NextDamages(w: World, step: Step, loc: Location)
    requires Safe(w)
    ensures DamagedAt(Next(w, step).store, loc) <==> DamagedAt(w.store, loc) || Tears(w, step, loc)
  {
    if DamagedAt(w.store, loc) { NextLeavesDestroyed(w, step, loc); }
    hide GoodStore, GoodPhase, Inspected, ScanOrder, UploadConfig, OwnDir, WriteState, RecordFailure, MoveToArchive;
    if !Changes(w.phase, step) {
      OtherwiseSameStore(w, step);
    } else if step.WriteCapturing? || step.WriteReady? {
      var config := w.phase.config;
      WritesLeaveNoDamage(w.store, config, DefaultPaths(OwnDir(config)), if step.WriteReady? then ReadyToUpload else Capturing, "", step.now, loc);
    } else if step.WriteArchived? {
      WritesLeaveNoDamage(w.store, w.phase.upload, DefaultPaths(w.phase.place), Archived, "", step.now, loc);
    } else if step.RecordRejection? {
      WritesLeaveNoDamage(w.store, w.phase.upload, w.phase.paths, Archived, step.error, step.now, loc);
    } else if step.Rename? {
      if DamagedAt(Next(w, step).store, loc) { RenameLeavesNoDamage(w, loc); }
    }
  }

  /** Every write of a manifest can be cut short, and ends the run. */
  lemma TornWriteDamages(w: World)
    ensures var v := Next(w, TornWrite);
            match w.phase
            case Prepared(config) => DamagedAt(v.store, OwnDir(config)) && v.phase == Idle
            case Captured(config) => DamagedAt(v.store, OwnDir(config)) && v.phase == Idle
            case Renamed(_, place, _) => DamagedAt(v.store, place) && v.phase == Idle
            case Rejected(_, paths) => DamagedAt(v.store, paths.stateFile) && v.phase == Idle
            case _ => v == w
  {
  }

  /** After any sequence of steps exactly those manifests are destroyed of which a write was cut short. */
  lemma {:induction false} DestroyedExactlyByTornWrites(steps: seq<Step>, loc: Location)
    ensures DamagedAt(After(Initial(), steps).store, loc) <==> Torn(steps, loc)
  {
    hide Next, Safe, DamagedAt, Tears, Torn;
    if |steps| == 0 {
      NothingDamaged(loc);
    } else {
      var front := steps[..|steps| - 1];
      DestroyedExactlyByTornWrites(front, loc);
      EveryRunIsSafe(front);
      NextDamages(After(Initial(), front), steps[|steps| - 1], loc);
      TornStep(steps, loc);
    }
  }

  lemma NothingDamaged(loc: Location)
    ensures !DamagedAt(Initial().store, loc) && !Torn([], loc)
  {
  }

  /** No session directory is lost, nor the files in it; archived ones stay where they are; a manifest of which no write was
      cut short has only grown, and any other is destroyed. */
  ghost predicate KeepsUnlessTorn(before: Store, after: Store, steps: seq<Step>) {
    forall loc :: loc in before ==>
      var here := Whereabouts(after, loc);
      && here in after
      && (loc.area.Archive? ==> loc in after)
      && (before[loc].otherFiles ==> after[here].otherFiles)
      && (if Torn(steps, here) then after[here].stateFile.Damaged? else Grown(before[loc].stateFile, after[here].stateFile))
  }

  /** Between any two points of any sequence of runs: sessions are not lost, creation time, run and
      session ids never change, and failure ledgers only grow by appending, through ready, any
      number of failed uploads under other configurations, and the move to the archive, for every
      manifest of which no write was cut short. */
  lemma EveryRunKeeps(steps: seq<Step>, more: seq<Step>)
    ensures KeepsUnlessTorn(After(Initial(), steps).store, After(Initial(), steps + more).store, steps + more)
  {
    RunKeeps(steps, more);
    var before, after := After(Initial(), steps).store, After(Initial(), steps + more).store;
    hide After, Grown, Torn;
    forall loc | loc in before
      ensures var here := Whereabouts(after, loc);
              && here in after && (loc.area.Archive? ==> loc in after)
              && (before[loc].otherFiles ==> after[here].otherFiles)
              && (if Torn(steps + more, here) then after[here].stateFile.Damaged?
                  else Grown(before[loc].stateFile, after[here].stateFile))
    {
      DestroyedExactlyByTornWrites(steps + more, Whereabouts(after, loc));
    }
  }

  predicate WithoutTornWrites(steps: seq<Step>) {
    forall i :: 0 <= i < |steps| ==> !steps[i].TornWrite?
  }

  lemma TornEarlier(steps: seq<Step>, more: seq<Step>, loc: Location)
    requires WithoutTornWrites(more) && Torn(steps + more, loc)
    ensures Torn(steps, loc)
  {
    var all := steps + more;
    assert forall j :: |steps| <= j < |all| ==> all[j] == more[j - |steps|];
    var i :| 0 <= i < |all| && Tears(After(Initial(), all[..i]), all[i], loc);
    hide After;
    assert all[..i] == steps[..i] && all[i] == steps[i];
  }

  /** Without torn writes, from any point on: every manifest that was not destroyed before keeps its
      identity and its ledger, wherever it is then. */
  lemma RunWithoutTornWritesKeeps(steps: seq<Step>, more: seq<Step>, loc: Location)
    requires WithoutTornWrites(more)
    requires loc in After(Initial(), steps).store && !DamagedAt(After(Initial(), steps).store, loc)
    ensures var before, after := After(Initial(), steps).store, After(Initial(), steps + more).store;
            Whereabouts(after, loc) in after && Grown(before[loc].stateFile, after[Whereabouts(after, loc)].stateFile)
  {
    var before, after := After(Initial(), steps).store, After(Initial(), steps + more).store;
    var here := Whereabouts(after, loc);
    EveryRunKeeps(steps, more);
    EveryRunIsSafe(steps);
    SafeSeparates(After(Initial(), steps));
    DestroyedExactlyByTornWrites(steps, here);
    hide After, Grown, Torn, Safe;
    if Torn(steps + more, here) {
      TornEarlier(steps, more, here);
    }
  }

  /** Runs without torn writes destroy nothing. */
  lemma NothingDestroyedWithoutTornWrites(steps: seq<Step>, loc: Location)
    requires WithoutTornWrites(steps)
    ensures !DamagedAt(After(Initial(), steps).store, loc)
  {
    DestroyedExactlyByTornWrites(steps, loc);
    hide After;
  }

  // ----- The retry pass is one of these runs -----

  /** The steps of a retry pass under an environment, without a crash. */
  function PassSteps(config: Config, env: Environment, queue: seq<PendingSession>): seq<Step>
    decreases |queue|
  {
    if |queue| == 0 then []
    else
      var name := NameOf(queue[0]);
      if !Sendable(config, queue) then [Skip] + PassSteps(config, env, queue[1..])
      else if !env.accepts(name) then [Send(false), RecordRejection(env.error(name), env.utc(name))]
      else [Send(true), Rename, WriteArchived(env.utc(name))] + PassSteps(config, env, queue[1..])
  }

  lemma {:induction false} AfterConcat(w: World, first: seq<Step>, second: seq<Step>)
    ensures After(w, first + second) == After(After(w, first), second)
  {
    hide Next;
    if |second| == 0 {
      assert first + second == first;
    } else {
      var all := first + second;
      AfterConcat(w, first, second[..|second| - 1]);
      assert all[..|all| - 1] == first + second[..|second| - 1];
    }
  }

  lemma AfterOne(w: World, a: Step)
    ensures After(w, [a]) == Next(w, a)
  {
    hide Next;
    assert [a][..0] == [];
  }

  lemma AfterThree(w: World, a: Step, b: Step, c: Step)
    ensures After(w, [a, b]) == Next(Next(w, a), b)
    ensures After(w, [a, b, c]) == Next(Next(Next(w, a), b), c)
  {
    hide Next;
    AfterOne(w, a);
    assert [a, b][..1] == [a] && [a, b, c][..2] == [a, b];
  }

  /** In a safe world a retry pass has the same effect on the file system as its run of steps, and
      never meets an archive collision. */
  lemma {:induction false} PassIsARun(w: World, env: Environment, any: bool)
    requires Safe(w) && w.phase.Scanned? && forall name :: env.utc(name) != ""
    ensures var (store, outcome) := Pass(w.store, w.phase.config, env, w.phase.queue, any);
            && After(w, PassSteps(w.phase.config, env, w.phase.queue)).store == store
            && !outcome.ArchiveFailed?
    decreases |w.phase.queue|
  {
    hide After, Next, Safe, RecordFailure, WriteState, MoveToArchive;
    var config, queue := w.phase.config, w.phase.queue;
    if |queue| == 0 {
      AfterNothing(w);
    } else {
      var name := NameOf(queue[0]);
      if !Sendable(config, queue) {
        var v := Next(w, Skip);
        NextIsSafe(w, Skip);
        SkipEffect(w);
        AfterOne(w, Skip);
        AfterConcat(w, [Skip], PassSteps(config, env, queue[1..]));
        PassIsARun(v, env, any);
      } else if !env.accepts(name) {
        RejectEffect(w, env.error(name), env.utc(name));
        AfterThree(w, Send(false), RecordRejection(env.error(name), env.utc(name)), Skip);
      } else {
        var u := [Send(true), Rename, WriteArchived(env.utc(name))];
        ArchiveEffect(w, env.utc(name));
        AfterThree(w, u[0], u[1], u[2]);
        AfterConcat(w, u, PassSteps(config, env, queue[1..]));
        PassIsARun(After(w, u), env, true);
      }
    }
  }

  lemma AfterNothing(w: World)
    ensures After(w, []) == w
  {
  }

  lemma SkipEffect(w: World)
    requires w.phase.Scanned? && |w.phase.queue| > 0 && !Sendable(w.phase.config, w.phase.queue)
    ensures Next(w, Skip) == w.(phase := Scanned(w.phase.config, w.phase.queue[1..]))
  {
  }

  lemma RejectEffect(w: World, error: string, now: string)
    requires w.phase.Scanned? && Sendable(w.phase.config, w.phase.queue) && now != ""
    ensures Next(Next(w, Send(false)), RecordRejection(error, now)).store
         == RecordFailure(w.store, UploadConfig(w.phase.config, w.phase.queue[0]), w.phase.queue[0].paths, error, now)
  {
    hide RecordFailure, UploadConfig;
  }

  lemma ArchiveEffect(w: World, now: string)
    requires Safe(w) && w.phase.Scanned? && Sendable(w.phase.config, w.phase.queue) && now != ""
    ensures var v := Next(Next(Next(w, Send(true)), Rename), WriteArchived(now));
            var session := w.phase.queue[0];
            && Safe(v) && v.phase == Scanned(w.phase.config, w.phase.queue[1..])
            && ArchiveSession(w.store, UploadConfig(w.phase.config, session), session.paths, now) == Done(v.store)
  {
    hide Safe, WriteState, UploadConfig, MoveToArchive;
    var sent := Next(w, Send(true));
    NextIsSafe(w, Send(true));
    RenameIsSafe(sent, sent.phase.upload, sent.phase.paths, sent.phase.rest);
    var moved := Next(sent, Rename);
    NextIsSafe(moved, WriteArchived(now));
  }

  // ----- The retry pass over reachable file systems -----

  /** In a safe world no pending session has its name archived, and every one keeps its own manifest. */
  lemma SafeKeepsOwnState(w: World, dir: Location)
    requires Safe(w) && dir in w.store && dir.area.Pending?
    ensures ArchivedAt(dir) !in w.store && KeepsOwnState(w.store, dir)
  {
    if w.store[dir].stateFile.Written? { assert GoodManifest(dir, w.store[dir].stateFile.manifest); }
  }

  /** Over every reachable file system a pass never meets an archived name: it stops at the first ready
      session that is rejected, charges exactly that one with the failure, and archives the ready ones
      before it; no directory is created or lost. */
  lemma PassOverReachableStore(steps: seq<Step>, config: Config, env: Environment) returns (moved: Store)
    requires config.destinationUrl != ""
    ensures var store := After(Initial(), steps).store;
            var dirs := ScanOrder(store, config.root);
            var f := FirstStop(store, env, dirs);
            var (after, outcome) := Pass(store, config, env, Inspected(store, dirs), false);
            && Moved(store, moved, config, env, dirs[..f]) && |after| == |store|
            && (forall dir :: dir in dirs ==> dir.area.Pending? && (Stops(store, env, dir) <==> IsReady(store, dir) && !env.accepts(dir.name)))
            && (if f == |dirs| then after == moved && outcome == Finished(AnyReady(store, dirs))
                else
                  var dir := dirs[f];
                  && outcome == UploadFailed(dir.name)
                  && dir in store && dir in after && after - {dir} == moved - {dir}
                  && after[dir] == Dir(Written(RejectedManifest(config, store, dir, StateAt(store, dir), env.error(dir.name), env.utc(dir.name))),
                                       store[dir].otherFiles))
  {
    var w := After(Initial(), steps);
    var dirs := ScanOrder(w.store, config.root);
    EveryRunIsSafe(steps);
    ScanListed(w.store, config.root);
    ScanOrderFacts(w.store, config.root);
    moved := PassStopsAtFirstFailure(w.store, config, env);
    hide After, Safe, Pass, ScanOrder, KeepsOwnState, Moved, Charged, IsReady;
    forall dir | dir in dirs ensures dir.area.Pending? && ArchivedAt(dir) !in w.store && KeepsOwnState(w.store, dir) {
      SafeKeepsOwnState(w, dir);
    }
    var f := FirstStop(w.store, env, dirs);
    if f < |dirs| {
      assert dirs[f] in dirs;
      OwnManifestIsCharged(w.store, moved, Pass(w.store, config, env, Inspected(w.store, dirs), false).0, config, env, dirs, f);
    }
  }

  // ----- Completed captures are found again, unless their manifest was destroyed -----

  /** A session whose capture was completed is archived, or pending and ready, or destroyed. */
  predicate KeptCompleted(store: Store, loc: Location) {
    && loc.area.Pending?
    && (ArchivedAt(loc) in store || (loc in store && (IsReady(store, loc) || store[loc].stateFile.Damaged?)))
  }

  lemma StaysKeptCompleted(before: Store, w: World, loc: Location)
    requires KeptCompleted(before, loc) && Keeps(before, w.store) && GoodStore(w)
    ensures KeptCompleted(w.store, loc)
  {
    if ArchivedAt(loc) !in before && loc in w.store {
      assert Whereabouts(w.store, loc) == loc;
      if w.store[loc].stateFile.Written? { assert GoodManifest(loc, w.store[loc].stateFile.manifest); }
    }
  }

  /** Only the write of the ready manifest completes a capture. */
  lemma NewlyCompleted(w: World, step: Step, loc: Location)
    requires Safe(w) && loc !in w.completed && loc in Next(w, step).completed
    ensures KeptCompleted(Next(w, step).store, loc)
  {
    var config := w.phase.config;
    assert loc == OwnDir(config) && step.WriteReady?;
    WriteOwnIsSafe(w, config, ReadyToUpload, step.now, Next(w, step));
  }

  lemma {:induction false} RunKeepsCompleted(steps: seq<Step>, loc: Location)
    requires loc in After(Initial(), steps).completed
    ensures KeptCompleted(After(Initial(), steps).store, loc)
  {
    hide Next, Safe, GoodStore, Keeps, KeptCompleted;
    if |steps| > 0 {
      var front, step := steps[..|steps| - 1], steps[|steps| - 1];
      var w := After(Initial(), front);
      EveryRunIsSafe(front);
      if loc in w.completed {
        RunKeepsCompleted(front, loc);
        NextKeeps(w, step);
        EveryRunIsSafe(steps);
        SafeIsGood(After(Initial(), steps));
        StaysKeptCompleted(w.store, After(Initial(), steps), loc);
      } else {
        NewlyCompleted(w, step, loc);
      }
    }
  }

  lemma SafeIsGood(w: World)
    requires Safe(w)
    ensures GoodStore(w)
  {
  }

  /** After any sequence of steps a session whose capture was completed is archived, or pending: then it is
      ready, unless a write of its manifest was cut short, which has destroyed it. */
  lemma CompletedIsKept(steps: seq<Step>, loc: Location)
    requires loc in After(Initial(), steps).completed
    ensures var store := After(Initial(), steps).store;
            && loc.area.Pending?
            && (ArchivedAt(loc) in store
                || (loc in store && if Torn(steps, loc) then store[loc].stateFile.Damaged? else IsReady(store, loc)))
  {
    RunKeepsCompleted(steps, loc);
    DestroyedExactlyByTornWrites(steps, loc);
    hide After, Torn;
  }

  /** Without torn writes every completed session is archived or found ready by a scan. */
  lemma CompletedWithoutTornWrites(steps: seq<Step>, loc: Location)
    requires WithoutTornWrites(steps) && loc in After(Initial(), steps).completed
    ensures var store := After(Initial(), steps).store;
            ArchivedAt(loc) in store || (loc in ScanOrder(store, loc.root) && Inspect(store, loc).state.ReadyToUpload?)
  {
    NothingDestroyedWithoutTornWrites(steps, loc);
    if ArchivedAt(loc) !in After(Initial(), steps).store {
      FoundReadyUnlessDestroyed(steps, loc);
    }
    hide After, ScanOrder;
  }

  /** A completed session that is not archived yet is seen by every scan, and is found ready if and only if
      its manifest was not destroyed. */
  lemma FoundReadyUnlessDestroyed(steps: seq<Step>, loc: Location)
    requires loc in After(Initial(), steps).completed && ArchivedAt(loc) !in After(Initial(), steps).store
    ensures var store := After(Initial(), steps).store;
            && loc in store && loc in ScanOrder(store, loc.root)
            && (Inspect(store, loc).state.ReadyToUpload? <==> !store[loc].stateFile.Damaged?)
  {
    RunKeepsCompleted(steps, loc);
    ScanOrderFacts(After(Initial(), steps).store, loc.root);
    hide After, ScanOrder;
  }

  /** The next pass whose uploads are all accepted archives a completed session if and only if its
      manifest was not destroyed. */
  lemma ArchivedNextUnlessDestroyed(steps: seq<Step>, loc: Location, config: Config, env: Environment)
    requires loc in After(Initial(), steps).completed && ArchivedAt(loc) !in After(Initial(), steps).store
    requires config.root == loc.root && config.destinationUrl != "" && forall name :: env.accepts(name)
    ensures var store := After(Initial(), steps).store;
            && loc in store
            && (ArchivedAt(loc) in Pass(store, config, env, Inspected(store, ScanOrder(store, config.root)), false).0
                <==> !store[loc].stateFile.Damaged?)
  {
    var w := After(Initial(), steps);
    var dirs := ScanOrder(w.store, config.root);
    FoundReadyUnlessDestroyed(steps, loc);
    RunKeepsCompleted(steps, loc);
    ReadyIsSeen(w.store, loc);
    var moved := PassOverReachableStore(steps, config, env);
    hide After, Pass, ScanOrder, Inspect, Inspected, Moved, IsReady;
    var f := FirstStop(w.store, env, dirs);
    assert f == |dirs| && dirs[..f] == dirs;
    MovedWhenReady(w.store, moved, config, env, dirs, loc);
  }

  lemma MovedWhenReady(store: Store, moved: Store, config: Config, env: Environment, dirs: seq<Location>, loc: Location)
    requires Moved(store, moved, config, env, dirs) && loc in dirs && loc.area.Pending? && ArchivedAt(loc) !in store
    requires forall dir :: dir in dirs ==> dir.area.Pending?
    ensures ArchivedAt(loc) in moved <==> IsReady(store, loc)
  {
    assert ArchivedAt(loc).(area := Pending) == loc;
    assert ArchivedAt(loc) !in dirs;
    hide ArchivedManifest, IsReady;
    assert ArchivedAt(loc) in moved || ArchivedAt(loc) !in moved;
  }

  /** A destroyed manifest stays destroyed and its session where it is, and no later step sends it. */
  lemma {:induction false} DestroyedIsNeverSent(steps: seq<Step>, more: seq<Step>, loc: Location)
    requires DamagedAt(After(Initial(), steps).store, loc)
    ensures var w := After(Initial(), steps + more);
            && DamagedAt(w.store, loc)
            && !((w.phase.Accepted? || w.phase.Rejected?) && w.phase.paths.artifactDir == loc)
  {
    hide Next, Safe;
    var all := steps + more;
    if |more| == 0 {
      assert all == steps;
    } else {
      var front, step := more[..|more| - 1], more[|more| - 1];
      DestroyedIsNeverSent(steps, front, loc);
      assert all[..|all| - 1] == steps + front && all[|all| - 1] == step;
      EveryRunIsSafe(steps + front);
      NextLeavesDestroyed(After(Initial(), steps + front), step, loc);
    }
    OnlyReadySessionsAreSent(all);
  }

  /** Such a session can be reached: its upload was rejected, and recording that was cut short. */
  lemma DestroyedSessionExists(config: Config, runId: string, sessionId: string, now: string)
    requires runId != "" && sessionId != "" && now != "" && config.destinationUrl != ""
    ensures var w := After(Initial(), [Start(config), EndScan(runId, sessionId), WriteCapturing(now), WriteReady(now), Send(false), TornWrite]);
            var loc := Location(config.root, Pending, sessionId);
            && loc in w.completed && loc in w.store && ArchivedAt(loc) !in w.store && w.store[loc].stateFile.Damaged?
  {
    var first := [Start(config), EndScan(runId, sessionId), WriteCapturing(now)];
    var second := [WriteReady(now), Send(false), TornWrite];
    FirstCapture(config, config.(runId := runId, sessionId := sessionId), now);
    RejectionCutShort(After(Initial(), first), config.(runId := runId, sessionId := sessionId), now);
    AfterConcat(Initial(), first, second);
    hide After;
    assert first + second == [Start(config), EndScan(runId, sessionId), WriteCapturing(now), WriteReady(now), Send(false), TornWrite];
  }

  /** The capture of a first session. */
  lemma FirstCapture(config: Config, c: Config, now: string)
    requires c == config.(runId := c.runId, sessionId := c.sessionId) && c.runId != "" && c.sessionId != "" && now != ""
    ensures var w := After(Initial(), [Start(config), EndScan(c.runId, c.sessionId), WriteCapturing(now)]);
            w.phase == Captured(c) && w.store.Keys == {OwnDir(c)}
  {
    NothingListed(config.root);
    AfterThree(Initial(), Start(config), EndScan(c.runId, c.sessionId), WriteCapturing(now));
    hide After, BaseState, ScanOrder, Inspected;
  }

  lemma RejectionCutShort(w: World, config: Config, now: string)
    requires w.phase == Captured(config) && config.destinationUrl != "" && now != ""
    ensures var v := After(w, [WriteReady(now), Send(false), TornWrite]);
            && v.store.Keys == w.store.Keys + {OwnDir(config)}
            && OwnDir(config) in v.completed && v.store[OwnDir(config)].stateFile.Damaged?
  {
    AfterThree(w, WriteReady(now), Send(false), TornWrite);
    var ready := Next(w, WriteReady(now));
    BecomesReady(w, config, now);
    SendRejected(ready, config);
    SpoilOne(Next(ready, Send(false)), config, DefaultPaths(OwnDir(config)));
    hide Next, After;
  }

  lemma BecomesReady(w: World, config: Config, now: string)
    requires w.phase == Captured(config) && config.destinationUrl != "" && now != ""
    ensures var v := Next(w, WriteReady(now));
            v.phase == Ready(config) && v.store.Keys == w.store.Keys + {OwnDir(config)} && OwnDir(config) in v.completed
  {
    hide BaseState;
  }

  lemma SendRejected(w: World, config: Config)
    requires w.phase == Ready(config)
    ensures Next(w, Send(false)) == w.(phase := Rejected(config, DefaultPaths(OwnDir(config))))
  {
  }

  lemma SpoilOne(w: World, upload: Config, paths: Paths)
    requires w.phase == Rejected(upload, paths) && paths.stateFile in w.store
    ensures var v := Next(w, TornWrite);
            && v.store.Keys == w.store.Keys && v.store[paths.stateFile].stateFile.Damaged?
            && v.completed == w.completed
  {
  }

  lemma NothingListed(root: string)
    ensures Inspected(map[], ScanOrder(map[], root)) == []
  {
    assert PendingDirs(map[], root) == {};
    assert |multiset(ScanOrder(map[], root))| == 0;
    hide ScanOrder;
  }

  // ----- Every upload is followed through -----

  /** The next thing the run does is to send a session: its own, or the one at the head of the scan. */
  predicate AboutToSend(phase: Phase) {
    phase.Ready? || (phase.Scanned? && Sendable(phase.config, phase.queue))
  }

  function SessionToSend(phase: Phase): Location
    requires AboutToSend(phase)
  {
    if phase.Ready? then OwnDir(phase.config) else phase.queue[0].paths.artifactDir
  }

  /** Where the run stands when it has dealt with that session. */
  function PhaseAfterSending(phase: Phase): Phase
    requires AboutToSend(phase)
  {
    if phase.Ready? then Idle else Scanned(phase.config, phase.queue[1..])
  }

  /** The same readable manifest in another state: identity and ledger are kept. */
  predicate Restated(m: Manifest, n: Manifest, state: ArtifactState) {
    n.state == state && SameIdentity(m, n) && Ledger(m) == Ledger(n) && Attempts(m) == Attempts(n) && m.lastFailure == n.lastFailure
  }

  lemma AcceptedNext(w: World)
    requires Safe(w) && AboutToSend(w.phase)
    ensures var v, dir := Next(w, Send(true)), SessionToSend(w.phase);
            && v.store == w.store && v.accepted == w.accepted + {dir} && v.completed == w.completed
            && v.phase.Accepted? && (w.phase.Ready? ==> v.phase.upload == w.phase.config)
            && v.phase.paths == DefaultPaths(dir) && Continue(v.phase.rest) == PhaseAfterSending(w.phase)
            && Safe(v)
  {
    NextIsSafe(w, Send(true));
    if w.phase.Scanned? { SendFromScan(w, w.phase.config, w.phase.queue); }
    hide GoodStore, Current, CurrentRest, IsReady;
  }

  lemma ArchivedNext(w: World, upload: Config, dir: Location, rest: Rest, now: string)
    requires Safe(w) && w.phase == Accepted(upload, DefaultPaths(dir), rest) && now != ""
    ensures ArchivedAt(dir) == ArchivePlace(upload, DefaultPaths(dir)) && dir in w.store && IsReady(w.store, dir)
    ensures var v := Next(Next(w, Rename), WriteArchived(now));
            && dir !in v.store && v.accepted == w.accepted && v.phase == Continue(rest)
            && v.store == (w.store - {dir})[ArchivedAt(dir) :=
                 Dir(Written(BaseState(upload, DefaultPaths(ArchivedAt(dir)), w.store[dir].stateFile, Archived, now)), w.store[dir].otherFiles)]
  {
    RenameIsSafe(w, upload, DefaultPaths(dir), rest);
    var place := ArchivePlace(upload, DefaultPaths(dir));
    assert ArchivedAt(dir) == place;
    var moved := Next(w, Rename);
    assert moved.store == (w.store - {dir})[place := w.store[dir]] && moved.phase == Renamed(upload, place, rest);
    hide BaseState, Safe, GoodStore;
  }

  lemma RestatedByWrite(dir: Location, m: Manifest, upload: Config, paths: Paths, now: string)
    requires GoodManifest(dir, m) && m.runId == upload.runId && upload.sessionId == dir.name
    ensures Restated(m, BaseState(upload, paths, Written(m), Archived, now), Archived)
  {
  }

  /** In every run: a session whose upload is accepted leaves `pending/` and is archived under the same identity,
      with the same ledger and files; nothing else changes, and the run goes on with the rest. */
  lemma AcceptedUploadIsArchived(steps: seq<Step>, now: string)
    requires AboutToSend(After(Initial(), steps).phase) && now != ""
    ensures var w, v := After(Initial(), steps), After(Initial(), steps + [Send(true), Rename, WriteArchived(now)]);
            var dir := SessionToSend(w.phase);
            var place := ArchivedAt(dir);
            && dir.area.Pending? && dir in w.store && IsReady(w.store, dir)
            && dir !in v.store && place in v.store && v.store - {place} == w.store - {dir, place}
            && v.store[place].stateFile.Written? && v.store[place].otherFiles == w.store[dir].otherFiles
            && Restated(w.store[dir].stateFile.manifest, v.store[place].stateFile.manifest, Archived)
            && dir in v.accepted && v.phase == PhaseAfterSending(w.phase)
  {
    var w := After(Initial(), steps);
    EveryRunIsSafe(steps);
    AcceptedNext(w);
    var sent, dir := Next(w, Send(true)), SessionToSend(w.phase);
    ArchivedNext(sent, sent.phase.upload, dir, sent.phase.rest, now);
    AfterConcat(Initial(), steps, [Send(true), Rename, WriteArchived(now)]);
    AfterThree(w, Send(true), Rename, WriteArchived(now));
    SentManifest(sent);
    RestatedByWrite(dir, w.store[dir].stateFile.manifest, sent.phase.upload, DefaultPaths(ArchivedAt(dir)), now);
    hide Next, After, Safe, BaseState, Restated, IsReady, SameIdentity, AboutToSend;
    assert dir.area.Pending? && ArchivedAt(dir) !in w.store;
  }

  lemma SentManifest(w: World)
    requires Safe(w) && (w.phase.Accepted? || w.phase.Rejected?)
    ensures var dir := w.phase.paths.artifactDir;
            && w.phase.paths == DefaultPaths(dir) && dir.area.Pending? && ArchivedAt(dir) !in w.store
            && dir in w.store && w.store[dir].stateFile.Written?
            && GoodManifest(dir, w.store[dir].stateFile.manifest)
            && w.store[dir].stateFile.manifest.runId == w.phase.upload.runId && w.phase.upload.sessionId == dir.name
  {
    hide CurrentRest, GoodManifest;
  }

  lemma RejectedNext(w: World)
    requires Safe(w) && AboutToSend(w.phase)
    ensures var v, dir := Next(w, Send(false)), SessionToSend(w.phase);
            && v.store == w.store && v.accepted == w.accepted && v.completed == w.completed
            && v.phase.Rejected? && v.phase.paths == DefaultPaths(dir) && v.phase.upload.destinationUrl == w.phase.config.destinationUrl
            && Safe(v)
  {
    NextIsSafe(w, Send(false));
    if w.phase.Scanned? { SendFromScan(w, w.phase.config, w.phase.queue); }
    hide GoodStore, Current, CurrentRest, IsReady;
  }

  lemma ChargedNext(w: World, upload: Config, dir: Location, error: string, now: string)
    requires Safe(w) && w.phase == Rejected(upload, DefaultPaths(dir)) && now != ""
    ensures var v, failure := Next(w, RecordRejection(error, now)), Failure(now, upload.destinationUrl, error);
            && dir in w.store && w.store[dir].stateFile.Written? && v.phase == Idle && v.accepted == w.accepted
            && dir in v.store && v.store - {dir} == w.store - {dir} && v.store[dir].stateFile.Written?
            && v.store[dir].otherFiles == w.store[dir].otherFiles
            && Recharged(w.store[dir].stateFile.manifest, v.store[dir].stateFile.manifest, failure)
  {
    SentManifest(w);
    var m := w.store[dir].stateFile.manifest;
    var base := BaseState(upload, DefaultPaths(dir), w.store[dir].stateFile, ReadyToUpload, now);
    var failure := Failure(now, upload.destinationUrl, error);
    RechargedByWrite(dir, m, upload, DefaultPaths(dir), failure);
    hide Safe, BaseState, WithFailure, Recharged, GoodManifest;
    assert Next(w, RecordRejection(error, now)).store == w.store[dir := Dir(Written(WithFailure(base, failure)), w.store[dir].otherFiles)];
  }

  /** The same manifest, ready, with one failure more. */
  predicate Recharged(m: Manifest, n: Manifest, failure: Failure) {
    && n.state.ReadyToUpload? && SameIdentity(m, n)
    && Ledger(n) == Ledger(m) + [failure] && Attempts(n) == Attempts(m) + 1 && n.lastFailure == Some(failure)
  }

  lemma RechargedByWrite(dir: Location, m: Manifest, upload: Config, paths: Paths, failure: Failure)
    requires GoodManifest(dir, m) && m.runId == upload.runId && upload.sessionId == dir.name
    ensures Recharged(m, WithFailure(BaseState(upload, paths, Written(m), ReadyToUpload, failure.attemptUtc), failure), failure)
  {
  }

  /** In every run: a session whose upload is rejected stays where it is, ready, under the same identity, with exactly
      this failure more in its ledger; nothing else changes, and the run ends. */
  lemma RejectedUploadIsCharged(steps: seq<Step>, error: string, now: string)
    requires AboutToSend(After(Initial(), steps).phase) && now != ""
    ensures var w, v := After(Initial(), steps), After(Initial(), steps + [Send(false), RecordRejection(error, now)]);
            var dir := SessionToSend(w.phase);
            && dir.area.Pending? && dir in w.store && w.store[dir].stateFile.Written?
            && dir in v.store && v.store - {dir} == w.store - {dir} && v.store[dir].stateFile.Written?
            && v.store[dir].otherFiles == w.store[dir].otherFiles
            && Recharged(w.store[dir].stateFile.manifest, v.store[dir].stateFile.manifest,
                         Failure(now, w.phase.config.destinationUrl, error))
            && v.accepted == w.accepted && v.phase == Idle
  {
    var w := After(Initial(), steps);
    EveryRunIsSafe(steps);
    RejectedNext(w);
    var sent, dir := Next(w, Send(false)), SessionToSend(w.phase);
    SentManifest(sent);
    ChargedNext(sent, sent.phase.upload, dir, error, now);
    AfterConcat(Initial(), steps, [Send(false), RecordRejection(error, now)]);
    AfterThree(w, Send(false), RecordRejection(error, now), Crash);
    hide Next, After, Safe, Recharged, AboutToSend, GoodManifest;
  }

  /** A crash came after the session at `loc` was accepted and before it was moved. */
  ghost predicate CrashedAccepted(steps: seq<Step>, loc: Location) {
    exists i {:trigger steps[i]} :: 0 <= i < |steps| && CrashesAccepted(After(Initial(), steps[..i]), steps[i], loc)
  }

  predicate CrashesAccepted(w: World, step: Step, loc: Location) {
    step.Crash? && w.phase.Accepted? && w.phase.paths.artifactDir == loc
  }

  lemma CrashedStep(steps: seq<Step>, loc: Location)
    requires |steps| > 0
    ensures var front := steps[..|steps| - 1];
            CrashedAccepted(front, loc) || CrashesAccepted(After(Initial(), front), steps[|steps| - 1], loc) ==> CrashedAccepted(steps, loc)
  {
    hide After, CrashesAccepted;
    var front := steps[..|steps| - 1];
    if CrashedAccepted(front, loc) {
      var i :| 0 <= i < |front| && CrashesAccepted(After(Initial(), front[..i]), front[i], loc);
      assert front[..i] == steps[..i] && front[i] == steps[i];
    }
  }

  /** What one step does to an accepted session. */
  lemma AcceptedStep(w: World, step: Step, loc: Location)
    requires Safe(w) && loc in Next(w, step).accepted
    requires loc in w.accepted ==> ArchivedAt(loc) in w.store || (w.phase.Accepted? && w.phase.paths.artifactDir == loc)
    ensures var v := Next(w, step);
            || ArchivedAt(loc) in v.store
            || (v.phase.Accepted? && v.phase.paths.artifactDir == loc)
            || CrashesAccepted(w, step, loc)
  {
    if loc in w.accepted && ArchivedAt(loc) in w.store {
      NextKeeps(w, step);
      hide Next, Safe;
      assert ArchivedAt(loc).area.Archive?;
    } else if loc in w.accepted && step.Rename? {
      SentManifest(w);
      ArchivedByRename(w, loc);
      hide Next, Safe, GoodManifest;
    } else {
      hide Safe, WriteState, RecordFailure, ScanOrder, Inspected, UploadConfig, Prepare, Sendable;
    }
  }

  lemma ArchivedByRename(w: World, loc: Location)
    requires Safe(w) && w.phase.Accepted? && w.phase.paths.artifactDir == loc
    ensures ArchivedAt(loc) in Next(w, Rename).store
  {
    RenameIsSafe(w, w.phase.upload, w.phase.paths, w.phase.rest);
    assert ArchivedAt(loc) == ArchivePlace(w.phase.upload, w.phase.paths);
    hide GoodStore;
  }

  /** Over all runs: an accepted session is archived, or the run is just about to move it, or a crash came between the
      acceptance and the move. */
  lemma {:induction false} AcceptedIsArchived(steps: seq<Step>, loc: Location)
    requires loc in After(Initial(), steps).accepted
    ensures var w := After(Initial(), steps);
            || ArchivedAt(loc) in w.store
            || (w.phase.Accepted? && w.phase.paths.artifactDir == loc)
            || CrashedAccepted(steps, loc)
  {
    hide Next, Safe, CrashesAccepted, CrashedAccepted;
    if |steps| > 0 {
      var front := steps[..|steps| - 1];
      var w := After(Initial(), front);
      EveryRunIsSafe(front);
      CrashedStep(steps, loc);
      if loc in w.accepted { AcceptedIsArchived(front, loc); }
      if !CrashedAccepted(front, loc) { AcceptedStep(w, steps[|steps| - 1], loc); }
    }
  }

  // ----- A new session from beginning to end -----

  /** Once the scan is done a new session begins, exactly if its name is not archived and no directory with anything
      in it is pending under it; otherwise the run ends and nothing is changed. */
  lemma SessionBeginsWhen(w: World, config: Config, runId: string, sessionId: string)
    requires w.phase == Scanned(config, []) && runId != "" && sessionId != ""
    ensures var v, dir := Next(w, EndScan(runId, sessionId)), Location(config.root, Pending, sessionId);
            if Location(config.root, Archive, sessionId) in w.store
               || (dir in w.store && (!w.store[dir].stateFile.Missing? || w.store[dir].otherFiles))
            then v == w.(phase := Idle)
            else
              && v.phase == Prepared(config.(runId := runId, sessionId := sessionId))
              && v.store == w.store[dir := Dir(Missing, false)]
              && v.accepted == w.accepted && v.completed == w.completed
  {
  }

  /** A run that has ended or crashed is followed by one that scans what is there. */
  lemma NextRunScans(w: World, config: Config)
    ensures After(w, [Crash, Start(config)]) == w.(phase := Scanned(config, Inspected(w.store, ScanOrder(w.store, config.root))))
  {
    hide After, Inspected, ScanOrder;
    AfterThree(w, Crash, Start(config), Crash);
    assert Next(w, Crash) == w.(phase := Idle);
  }

  /** The manifest of a session that was captured and uploaded without a failure. */
  predicate Fresh(m: Manifest, config: Config, state: ArtifactState, created: string, updated: string) {
    && m.state == state && m.runId == config.runId && m.sessionId == config.sessionId
    && m.createdUtc == created && m.updatedUtc == updated
    && Ledger(m) == [] && Attempts(m) == 0 && m.lastFailure.None? && m.lastAttemptUtc.None?
  }

  lemma CaptureSteps(w: World, config: Config, t1: string, t2: string)
    requires w.phase == Prepared(config) && OwnDir(config) in w.store && w.store[OwnDir(config)] == Dir(Missing, false)
    requires t1 != "" && t2 != ""
    ensures var dir, written := OwnDir(config), Next(w, WriteCapturing(t1));
            var ready := Next(Next(written, WriteEvents), WriteReady(t2));
            && written.phase == Captured(config) && written.store - {dir} == w.store - {dir} && dir in written.store
            && written.store[dir].stateFile.Written? && Fresh(written.store[dir].stateFile.manifest, config, Capturing, t1, t1)
            && ready.phase == (if config.destinationUrl == "" then Idle else Ready(config))
            && ready.store - {dir} == w.store - {dir} && dir in ready.store
            && ready.store[dir].stateFile.Written? && ready.store[dir].otherFiles
            && Fresh(ready.store[dir].stateFile.manifest, config, ReadyToUpload, t1, t2)
            && ready.completed == w.completed + {dir} && ready.accepted == w.accepted
  {
    var dir := OwnDir(config);
    var first := BaseState(config, DefaultPaths(dir), Missing, Capturing, t1);
    var second := BaseState(config, DefaultPaths(dir), Written(first), ReadyToUpload, t2);
    assert Fresh(first, config, Capturing, t1, t1) && Fresh(second, config, ReadyToUpload, t1, t2);
    hide Fresh;
    var written := Next(w, WriteCapturing(t1));
    assert written.store == w.store[dir := Dir(Written(first), false)];
    var noted := Next(written, WriteEvents);
    assert noted.store == w.store[dir := Dir(Written(first), true)];
    hide BaseState, OwnDir;
    assert Next(noted, WriteReady(t2)).store == w.store[dir := Dir(Written(second), true)];
  }

  /** A session under a new name: captured, sent, accepted and archived, it ends in the archive with its files, its ids, its
      times and an empty ledger, and nowhere else; nothing else in the file system has changed. */
  lemma NewSessionIsArchived(steps: seq<Step>, config: Config, runId: string, sessionId: string, t1: string, t2: string, t3: string)
    requires After(Initial(), steps).phase == Scanned(config, []) && config.destinationUrl != ""
    requires runId != "" && sessionId != "" && t1 != "" && t2 != "" && t3 != ""
    requires Location(config.root, Pending, sessionId) !in After(Initial(), steps).store
    requires Location(config.root, Archive, sessionId) !in After(Initial(), steps).store
    ensures var w := After(Initial(), steps);
            var v := After(Initial(), steps + [EndScan(runId, sessionId), WriteCapturing(t1), WriteEvents, WriteReady(t2)]
                                        + [Send(true), Rename, WriteArchived(t3)]);
            var c, dir, place := config.(runId := runId, sessionId := sessionId), Location(config.root, Pending, sessionId), Location(config.root, Archive, sessionId);
            && dir !in v.store && place in v.store && v.store - {place} == w.store
            && v.store[place].otherFiles && v.store[place].stateFile.Written?
            && Fresh(v.store[place].stateFile.manifest, c, Archived, t1, t3)
            && dir in v.completed && dir in v.accepted && v.phase == Idle
  {
    var w, c := After(Initial(), steps), config.(runId := runId, sessionId := sessionId);
    EveryRunIsSafe(steps);
    NewSessionCaptured(w, config, c, t1, t2);
    var all := steps + [EndScan(runId, sessionId), WriteCapturing(t1), WriteEvents, WriteReady(t2)];
    AfterConcat(Initial(), steps, [EndScan(runId, sessionId), WriteCapturing(t1), WriteEvents, WriteReady(t2)]);
    AfterConcat(Initial(), all, [Send(true), Rename, WriteArchived(t3)]);
    NewSessionMoved(After(Initial(), all), c, t1, t2, t3);
    assert OwnDir(c) == Location(config.root, Pending, sessionId);
    assert ArchivedAt(OwnDir(c)) == Location(config.root, Archive, sessionId);
    hide After, Safe, Fresh;
  }

  lemma NewSessionCaptured(w: World, config: Config, c: Config, t1: string, t2: string)
    requires Safe(w) && w.phase == Scanned(config, []) && config.destinationUrl != ""
    requires c == config.(runId := c.runId, sessionId := c.sessionId)
    requires c.runId != "" && c.sessionId != "" && t1 != "" && t2 != ""
    requires OwnDir(c) !in w.store && ArchivedAt(OwnDir(c)) !in w.store
    ensures var ready, dir := After(w, [EndScan(c.runId, c.sessionId), WriteCapturing(t1), WriteEvents, WriteReady(t2)]), OwnDir(c);
            && Safe(ready) && ready.phase == Ready(c) && ready.store - {dir} == w.store && dir in ready.store
            && ready.store[dir].stateFile.Written? && ready.store[dir].otherFiles
            && Fresh(ready.store[dir].stateFile.manifest, c, ReadyToUpload, t1, t2)
            && dir in ready.completed
  {
    SessionBeginsWhen(w, config, c.runId, c.sessionId);
    NextIsSafe(w, EndScan(c.runId, c.sessionId));
    AfterFour(w, EndScan(c.runId, c.sessionId), WriteCapturing(t1), WriteEvents, WriteReady(t2));
    var prepared := Next(w, EndScan(c.runId, c.sessionId));
    assert prepared.phase == Prepared(c) && prepared.store == w.store[OwnDir(c) := Dir(Missing, false)];
    hide Next, After, Safe, Fresh;
    CaptureSteps(prepared, c, t1, t2);
    var written := Next(prepared, WriteCapturing(t1));
    NextIsSafe(prepared, WriteCapturing(t1));
    NextIsSafe(written, WriteEvents);
    NextIsSafe(Next(written, WriteEvents), WriteReady(t2));
    assert prepared.store - {OwnDir(c)} == w.store;
  }

  lemma NewSessionMoved(w: World, c: Config, t1: string, t2: string, t3: string)
    requires Safe(w) && w.phase == Ready(c) && t3 != ""
    requires OwnDir(c) in w.store && w.store[OwnDir(c)].stateFile.Written?
    requires w.store[OwnDir(c)].otherFiles && t1 != "" && Fresh(w.store[OwnDir(c)].stateFile.manifest, c, ReadyToUpload, t1, t2)
    ensures var v, dir := After(w, [Send(true), Rename, WriteArchived(t3)]), OwnDir(c);
            var place := ArchivedAt(dir);
            && dir !in v.store && place in v.store && v.store - {place} == w.store - {dir, place}
            && place !in w.store
            && v.store[place].otherFiles && v.store[place].stateFile.Written?
            && Fresh(v.store[place].stateFile.manifest, c, Archived, t1, t3)
            && v.completed == w.completed && dir in v.accepted && v.phase == Idle
  {
    var dir := OwnDir(c);
    AcceptedNext(w);
    assert SessionToSend(w.phase) == dir;
    var sent := Next(w, Send(true));
    SentManifest(sent);
    ArchivedNext(sent, c, dir, sent.phase.rest, t3);
    ArchiveCompletesNothing(sent, t3);
    AfterThree(w, Send(true), Rename, WriteArchived(t3));
    FreshArchived(w.store[dir].stateFile.manifest, c, DefaultPaths(ArchivedAt(dir)), t1, t2, t3);
    hide Next, After, Safe, Fresh, BaseState, GoodManifest;
  }

  lemma ArchiveCompletesNothing(w: World, now: string)
    requires w.phase.Accepted?
    ensures Next(Next(w, Rename), WriteArchived(now)).completed == w.completed
  {
    hide WriteState, MoveToArchive;
  }

  lemma FreshArchived(m: Manifest, c: Config, paths: Paths, t1: string, t2: string, t3: string)
    requires t1 != "" && Fresh(m, c, ReadyToUpload, t1, t2)
    ensures Fresh(BaseState(c, paths, Written(m), Archived, t3), c, Archived, t1, t3)
  {
  }

  lemma AfterFour(w: World, a: Step, b: Step, c: Step, d: Step)
    ensures After(w, [a, b, c, d]) == Next(Next(Next(Next(w, a), b), c), d)
  {
    hide Next, After;
    AfterThree(w, a, b, c);
    AfterConcat(w, [a, b, c], [d]);
    AfterOne(After(w, [a, b, c]), d);
    assert [a, b, c] + [d] == [a, b, c, d];
  }

  // ----- Nothing ready is passed over -----

  /** The steps that a phase allows. */
  predicate Allows(phase: Phase, step: Step) {
    step.Crash? ||
    match phase
    case Idle => step.Start?
    case Scanned(config, queue) =>
      if |queue| == 0 then step.EndScan? && step.runId != "" && step.sessionId != ""
      else if queue[0].state.ReadyToUpload? && config.destinationUrl != "" then step.Send?
      else step.Skip?
    case Prepared(_) => step.TornWrite? || (step.WriteCapturing? && step.now != "")
    case Captured(_) => step.TornWrite? || step.WriteEvents? || (step.WriteReady? && step.now != "")
    case Ready(_) => step.Send?
    case Accepted(_, _, _) => step.Rename?
    case Renamed(_, _, _) => step.TornWrite? || (step.WriteArchived? && step.now != "")
    case Rejected(_, _) => step.TornWrite? || (step.RecordRejection? && step.now != "")
    case Collided => false
  }

  /** No other step has an effect: a ready session at the head of the scan is sent or the run crashes, a session is archived
      only after its upload, and so on. */
  lemma OtherStepsDoNothing(w: World, step: Step)
    requires !Allows(w.phase, step)
    ensures Next(w, step) == w
  {
    hide WriteState, RecordFailure, MoveToArchive, Prepare, Inspected, ScanOrder, UploadConfig;
  }

  predicate ReadyAt(store: Store, root: string, loc: Location) {
    loc.root == root && loc.area.Pending? && IsReady(store, loc)
  }

  ghost predicate InQueue(queue: seq<PendingSession>, loc: Location) {
    exists i :: 0 <= i < |queue| && queue[i].paths.artifactDir == loc
  }

  /** Whatever is ready below the root is still to come. */
  ghost predicate StillToCome(store: Store, config: Config, queue: seq<PendingSession>, except: Option<Location>) {
    config.destinationUrl != "" ==>
      forall loc :: ReadyAt(store, config.root, loc) ==> InQueue(queue, loc) || except == Some(loc)
  }

  ghost predicate NothingForgotten(w: World) {
    match w.phase
    case Scanned(config, queue) => StillToCome(w.store, config, queue, None)
    case Accepted(_, paths, Rest(config, queue)) => StillToCome(w.store, config, queue, Some(paths.artifactDir))
    case Renamed(_, _, Rest(config, queue)) => StillToCome(w.store, config, queue, None)
    case Prepared(config) => StillToCome(w.store, config, [], None)
    case Captured(config) => StillToCome(w.store, config, [], None)
    case _ => true
  }

  lemma ScanForgetsNothing(store: Store, config: Config)
    ensures StillToCome(store, config, Inspected(store, ScanOrder(store, config.root)), None)
  {
    var dirs := ScanOrder(store, config.root);
    ScanIsInNameOrder(store, config.root);
    hide ScanOrder;
    forall loc | ReadyAt(store, config.root, loc) ensures InQueue(Inspected(store, dirs), loc) {
      assert loc in dirs;
      var i :| 0 <= i < |dirs| && dirs[i] == loc;
      InspectedName(store, loc);
      assert Inspected(store, dirs)[i].paths.artifactDir == loc;
    }
  }

  lemma QueueShrinks(store: Store, config: Config, queue: seq<PendingSession>)
    requires |queue| > 0 && StillToCome(store, config, queue, None) && Current(store, config, queue)
    ensures StillToCome(store, config, queue[1..], Some(queue[0].paths.artifactDir))
    ensures !Sendable(config, queue) ==> StillToCome(store, config, queue[1..], None)
  {
    forall loc | ReadyAt(store, config.root, loc) && InQueue(queue, loc)
      ensures InQueue(queue[1..], loc) || loc == queue[0].paths.artifactDir
    {
      var i :| 0 <= i < |queue| && queue[i].paths.artifactDir == loc;
      if i > 0 { assert queue[1..][i - 1] == queue[i]; }
    }
    ReadyIsSeen(store, queue[0].paths.artifactDir);
    hide Inspect, IsReady;
  }

  /** Fewer sessions are ready than before. */
  lemma FewerToCome(before: Store, after: Store, config: Config, queue: seq<PendingSession>, a: Option<Location>, b: Option<Location>)
    requires StillToCome(before, config, queue, a)
    requires forall loc :: ReadyAt(after, config.root, loc) ==> ReadyAt(before, config.root, loc) && (a == Some(loc) ==> b == a)
    ensures StillToCome(after, config, queue, b)
  {
    hide ReadyAt, InQueue;
  }

  lemma NextForgetsNothing(w: World, step: Step)
    requires Safe(w) && NothingForgotten(w)
    ensures NothingForgotten(Next(w, step))
  {
    if !Allows(w.phase, step) {
      OtherStepsDoNothing(w, step);
      hide Next, NothingForgotten;
    } else if step.Crash? || step.TornWrite? || w.phase.Ready? || w.phase.Rejected? {
      hide StillToCome, Safe, RecordFailure;
    } else if w.phase.Idle? {
      ScanForgetsNothing(w.store, step.config);
      hide StillToCome, Inspected, ScanOrder;
    } else if w.phase.Scanned? {
      ScanStepForgetsNothing(w, step);
    } else if w.phase.Accepted? || w.phase.Renamed? {
      ArchivingForgetsNothing(w, step);
    } else {
      CaptureForgetsNothing(w, step);
    }
  }

  lemma ScanStepForgetsNothing(w: World, step: Step)
    requires Safe(w) && NothingForgotten(w) && w.phase.Scanned? && Allows(w.phase, step) && !step.Crash?
    ensures NothingForgotten(Next(w, step))
  {
    var config, queue := w.phase.config, w.phase.queue;
    if |queue| > 0 {
      QueueShrinks(w.store, config, queue);
      hide StillToCome, GoodStore, Current, UploadConfig;
    } else {
      var c := config.(runId := step.runId, sessionId := step.sessionId);
      if Prepare(w.store, c).Done? {
        FewerToCome(w.store, Prepare(w.store, c).store, config, [], None, None);
        assert queue == [];
        SameRoot(Prepare(w.store, c).store, config, c);
      }
      hide StillToCome, GoodStore, Current, Prepare;
    }
  }

  lemma SameRoot(store: Store, config: Config, c: Config)
    requires c.root == config.root && c.destinationUrl == config.destinationUrl && StillToCome(store, config, [], None)
    ensures StillToCome(store, c, [], None)
  {
  }

  lemma ArchivingForgetsNothing(w: World, step: Step)
    requires Safe(w) && NothingForgotten(w) && (w.phase.Accepted? || w.phase.Renamed?) && Allows(w.phase, step) && !step.Crash? && !step.TornWrite?
    ensures NothingForgotten(Next(w, step))
  {
    if w.phase.rest.Rest? {
      var config, queue := w.phase.rest.config, w.phase.rest.queue;
      var v := Next(w, step);
      if w.phase.Accepted? {
        var dir := w.phase.paths.artifactDir;
        ArchivedByRename(w, dir);
        RenamedStore(w);
        FewerToCome(w.store, v.store, config, queue, Some(dir), None);
      } else {
        ArchiveWriteOnly(w, step);
        FewerToCome(w.store, v.store, config, queue, None, None);
      }
    }
    hide StillToCome, Safe, WriteState, MoveToArchive;
  }

  lemma RenamedStore(w: World)
    requires Safe(w) && w.phase.Accepted?
    ensures var v, dir := Next(w, Rename), w.phase.paths.artifactDir;
            v.phase.Renamed? && forall root, loc :: ReadyAt(v.store, root, loc) ==> ReadyAt(w.store, root, loc) && loc != dir
  {
    RenameIsSafe(w, w.phase.upload, w.phase.paths, w.phase.rest);
    var dir, place := w.phase.paths.artifactDir, ArchivePlace(w.phase.upload, w.phase.paths);
    assert Next(w, Rename).store == (w.store - {dir})[place := w.store[dir]];
    hide GoodStore, Safe;
  }

  lemma ArchiveWriteOnly(w: World, step: Step)
    requires Safe(w) && w.phase.Renamed? && step.WriteArchived?
    ensures forall root, loc :: ReadyAt(Next(w, step).store, root, loc) ==> ReadyAt(w.store, root, loc)
  {
    hide GoodStore, BaseState, CurrentRest;
  }

  lemma CaptureForgetsNothing(w: World, step: Step)
    requires Safe(w) && NothingForgotten(w) && (w.phase.Prepared? || w.phase.Captured?) && Allows(w.phase, step) && !step.Crash? && !step.TornWrite?
    ensures NothingForgotten(Next(w, step))
  {
    if !step.WriteReady? {
      NotYetReady(w, step);
      FewerToCome(w.store, Next(w, step).store, w.phase.config, [], None, None);
    }
    hide StillToCome, Safe, WriteState;
  }

  lemma NotYetReady(w: World, step: Step)
    requires (w.phase.Prepared? && step.WriteCapturing?) || (w.phase.Captured? && step.WriteEvents?)
    ensures forall loc :: ReadyAt(Next(w, step).store, w.phase.config.root, loc) ==> ReadyAt(w.store, w.phase.config.root, loc)
  {
  }

  lemma {:induction false} EveryRunForgetsNothing(steps: seq<Step>)
    ensures NothingForgotten(After(Initial(), steps))
  {
    hide Next, Safe, NothingForgotten;
    if |steps| == 0 {
      NothingYet();
    } else {
      var front := steps[..|steps| - 1];
      EveryRunForgetsNothing(front);
      EveryRunIsSafe(front);
      NextForgetsNothing(After(Initial(), front), steps[|steps| - 1]);
    }
  }

  lemma NothingYet()
    ensures NothingForgotten(Initial())
  {
  }

  /** In every run with a destination a new session begins only when no pending session of the same artifacts
      directory is ready: each was sent before. */
  lemma NewSessionsWaitForOld(steps: seq<Step>, loc: Location)
    ensures var w := After(Initial(), steps);
            (w.phase.Prepared? || w.phase.Captured?) && w.phase.config.destinationUrl != "" ==>
              loc.root == w.phase.config.root && loc.area.Pending? ==> !IsReady(w.store, loc)
  {
    EveryRunForgetsNothing(steps);
    hide After, IsReady;
    var w := After(Initial(), steps);
    assert w.phase.Prepared? || w.phase.Captured? ==> ReadyAt(w.store, w.phase.config.root, loc) ==> w.phase.config.destinationUrl == "" || InQueue([], loc);
  }
}
