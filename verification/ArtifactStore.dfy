/** The file system below the artifacts directories, changed step by step by the lifecycle functions
    of src/artifact_lifecycle.cpp, src/logging.cpp and the retry loop of src/main.cpp. */
module ArtifactStorage {
  import opened Wrappers
  import opened Sorting
  import opened Artifacts
  import opened Retry

  class ArtifactStore {
    var dirs: Store

    constructor ()
      ensures dirs == map[]
    {
      dirs := map[];
    }

    method CreateDirectories(dir: Location)
      modifies this
      ensures dirs == MakeDir(old(dirs), dir)
    {
      if dir !in dirs {
        dirs := dirs[dir := Dir(Missing, false)];
      }
    }

    /** `write_json_file`: replaces the state file, creating the directory above it. */
    method WriteJsonFile(file: Location, m: Manifest)
      modifies this
      ensures dirs == PutState(old(dirs), file, m)
    {
      CreateDirectories(file);
      dirs := dirs[file := dirs[file].(stateFile := Written(m))];
    }

    /** `prepare_output_paths`. */
    method PrepareOutputPaths(config: Config) returns (fault: Option<Fault>)
      modifies this
      ensures match Prepare(old(dirs), config)
              case Done(store) => fault == None && dirs == store
              case Failed(f) => fault == Some(f) && dirs == old(dirs)
    {
      var dir := Location(config.root, Pending, config.sessionId);
      if Location(config.root, Archive, config.sessionId) in dirs {
        return Some(ArchiveExists);
      }
      if dir in dirs {
        if !dirs[dir].stateFile.Missing? || dirs[dir].otherFiles {
          return Some(NotEmpty);
        }
      }
      CreateDirectories(dir);
      fault := None;
    }

    method BaseStateJson(config: Config, paths: Paths, state: ArtifactState, now: string) returns (m: Manifest)
      ensures m == BaseState(config, paths, StateAt(dirs, paths.stateFile), state, now)
    {
      m := Manifest(state, config.runId, config.sessionId, now, now, Some(paths.stateFile),
                    config.destinationUrl != "", None, None, None, None);
      if paths.stateFile in dirs && dirs[paths.stateFile].stateFile.Written? {
        var previous := dirs[paths.stateFile].stateFile.manifest;
        if previous.createdUtc != "" { m := m.(createdUtc := previous.createdUtc); }
        if previous.failures.Some? { m := m.(failures := previous.failures); }
        if previous.lastFailure.Some? { m := m.(lastFailure := previous.lastFailure); }
        if previous.attempts.Some? { m := m.(attempts := previous.attempts); }
        if previous.lastAttemptUtc.Some? { m := m.(lastAttemptUtc := previous.lastAttemptUtc); }
      }
    }

    method WriteArtifactState(config: Config, paths: Paths, state: ArtifactState, now: string)
      modifies this
      ensures dirs == WriteState(old(dirs), config, paths, state, now)
    {
      CreateDirectories(paths.artifactDir);
      var m := BaseStateJson(config, paths, state, now);
      WriteJsonFile(paths.stateFile, m);
    }

    method RecordArtifactUploadFailure(config: Config, paths: Paths, error: string, now: string)
      modifies this
      ensures dirs == RecordFailure(old(dirs), config, paths, error, now)
    {
      CreateDirectories(paths.artifactDir);
      var m := BaseStateJson(config, paths, ReadyToUpload, now);
      var attemptCount := 0;
      if m.attempts.Some? {
        attemptCount := m.attempts.value;
      }
      attemptCount := attemptCount + 1;
      var failure := Failure(now, config.destinationUrl, error);
      if m.failures.None? {
        m := m.(failures := Some([]));
      }
      m := m.(failures := Some(m.failures.value + [failure]));
      m := m.(lastFailure := Some(failure), attempts := Some(attemptCount), lastAttemptUtc := Some(now));
      WriteJsonFile(paths.stateFile, m);
    }

    method ArchiveArtifactSession(config: Config, paths: Paths, now: string) returns (fault: Option<Fault>)
      modifies this
      ensures match ArchiveSession(old(dirs), config, paths, now)
              case Done(store) => fault == None && dirs == store
              case Failed(f) => fault == Some(f) && dirs == old(dirs)
    {
      var dest := Location(config.root, Archive, paths.artifactDir.name);
      if dest in dirs {
        return Some(ArchiveExists);
      }
      if paths.artifactDir !in dirs {
        return Some(NoDirectory);
      }
      dirs := (dirs - {paths.artifactDir})[dest := dirs[paths.artifactDir]];
      WriteArtifactState(config, DefaultPaths(dest), Archived, now);
      fault := None;
    }

    /** The directory iterator yields the pending directories in some order; sorting by name
        makes the result independent of it. */
    method FindPendingArtifactSessions(root: string) returns (sessions: seq<PendingSession>)
      ensures sessions == Inspected(dirs, ScanOrder(dirs, root))
      ensures forall i, j :: 0 <= i < j < |sessions| ==>
                Precedes(sessions[i].paths.artifactDir.name, sessions[j].paths.artifactDir.name)
    {
      var rest := set dir | dir in dirs && dir.root == root && dir.area == Pending;
      ghost var all := rest;
      var found: seq<Location> := [];
      while rest != {}
        invariant rest <= all
        invariant multiset(found) + multiset(rest) == multiset(all)
        decreases rest
      {
        var dir :| dir in rest;
        found := found + [dir];
        rest := rest - {dir};
      }
      assert multiset(found) == multiset(PendingDirs(dirs, root));
      var ordered := Sort(found, DirAtMost);
      OrderIsScanOrder(dirs, root, found);
      sessions := Inspected(dirs, ordered);
      SessionsInNameOrder(dirs, root);
    }

    method RetryPendingArtifactUploads(config: Config, env: Environment) returns (outcome: Outcome)
      modifies this
      ensures (dirs, outcome) == Pass(old(dirs), config, env, Inspected(old(dirs), ScanOrder(old(dirs), config.root)), false)
    {
      hide ArchiveSession, RecordFailure, ScanOrder, Inspected, UploadConfig;
      var sessions := FindPendingArtifactSessions(config.root);
      var uploadedAny := false;
      for i := 0 to |sessions|
        invariant Pass(old(dirs), config, env, sessions, false) == Pass(dirs, config, env, sessions[i..], uploadedAny)
      {
        var session := sessions[i];
        assert sessions[i..][1..] == sessions[i + 1..];
        if !session.state.ReadyToUpload? {
          continue;
        }
        if config.destinationUrl == "" {
          continue;
        }
        var upload := UploadConfig(config, session);
        var name := session.paths.artifactDir.name;
        if !env.accepts(name) {
          RecordArtifactUploadFailure(upload, session.paths, env.error(name), env.utc(name));
          return UploadFailed(name);
        }
        var fault := ArchiveArtifactSession(upload, session.paths, env.utc(name));
        if fault.Some? {
          return ArchiveFailed(name);
        }
        uploadedAny := true;
      }
      outcome := Finished(uploadedAny);
    }
  }

  lemma SessionsInNameOrder(store: Store, root: string)
    ensures var sessions := Inspected(store, ScanOrder(store, root));
            forall i, j :: 0 <= i < j < |sessions| ==>
              Precedes(sessions[i].paths.artifactDir.name, sessions[j].paths.artifactDir.name)
  {
    ScanIsInNameOrder(store, root);
    hide ScanOrder, Precedes;
    var dirs := ScanOrder(store, root);
    forall i | 0 <= i < |dirs| ensures Inspected(store, dirs)[i].paths.artifactDir == dirs[i] {
      InspectedName(store, dirs[i]);
    }
  }

  lemma OrderIsScanOrder(store: Store, root: string, found: seq<Location>)
    requires multiset(found) == multiset(PendingDirs(store, root))
    ensures Sort(found, DirAtMost) == ScanOrder(store, root)
  {
    DirsAreOrdered();
    SortSorts(found, DirAtMost);
    SortSorts(Listed(PendingDirs(store, root)), DirAtMost);
    SortedIsUnique(Sort(found, DirAtMost), ScanOrder(store, root), DirAtMost);
  }
}
