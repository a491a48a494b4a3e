/** The pacing of snapshots and sleeps in the run loop of src/main.cpp. Clock readings are
    steady-clock nanoseconds; intervals and sleeps are milliseconds. */
module RunLoop {

  const NS_PER_MS: int := 1_000_000
  const NS_PER_S: int := 1_000_000_000

  /** One turn of the loop as the environment sees it: whether a stop was requested before it, the
      reading once the alerts are drained, and the reading just before sleeping. */
  datatype Turn = Turn(stop: bool, now: int, beforeSleep: int)

  datatype Schedule = Schedule(start: int, intervalMs: int, runtimeSeconds: int)

  /** The clock never goes back. */
  ghost predicate SteadyClock(start: int, turns: seq<Turn>) {
    && (forall i :: 0 <= i < |turns| ==> start <= turns[i].now <= turns[i].beforeSleep)
    && (forall i, j :: 0 <= i < j < |turns| ==> turns[i].beforeSleep <= turns[j].now)
  }

  /** `duration_cast` to milliseconds truncates toward zero. */
  function ToMs(ns: int): int {
    if ns >= 0 then ns / NS_PER_MS else -(-ns / NS_PER_MS)
  }

  function PollInterval(s: Schedule): int {
    if s.intervalMs < 100 then s.intervalMs else 100
  }

  function Deadline(s: Schedule): int {
    s.start + s.runtimeSeconds * NS_PER_S
  }

  /** A runtime of zero seconds means no deadline. */
  predicate Expired(s: Schedule, now: int) {
    s.runtimeSeconds != 0 && now >= Deadline(s)
  }

  /** When the next snapshot is due after these turns. */
  function Due(s: Schedule, turns: seq<Turn>): int {
    if |turns| == 0 then s.start
    else
      var due, now := Due(s, turns[..|turns| - 1]), turns[|turns| - 1].now;
      if now >= due then now + s.intervalMs * NS_PER_MS else due
  }

  /** The readings at which snapshots are taken: each is the first at or after the due time. */
  function Snapshots(s: Schedule, turns: seq<Turn>): seq<int> {
    if |turns| == 0 then []
    else
      var front, now := turns[..|turns| - 1], turns[|turns| - 1].now;
      if now >= Due(s, front) then Snapshots(s, front) + [now] else Snapshots(s, front)
  }

  /** How long the loop asks to sleep at the end of the last of these turns; zero for not at all. */
  function Sleep(s: Schedule, turns: seq<Turn>): int
    requires |turns| > 0
  {
    var due := Due(s, turns);
    var until := if s.runtimeSeconds != 0 && Deadline(s) < due then Deadline(s) else due;
    var remaining := ToMs(until - turns[|turns| - 1].beforeSleep);
    var sleep := if remaining > PollInterval(s) then PollInterval(s) else remaining;
    if sleep > 0 then sleep else 0
  }

  datatype Ending = StopRequested | RuntimeElapsed | StillRunning

  datatype Trace = Trace(turns: nat, snapshots: seq<int>, sleeps: seq<int>, ending: Ending)

  /** How the loop ends: no turn begins after a stop request, and none follows the first reading
      at or past the deadline. */
  ghost predicate EndsProperly(s: Schedule, env: seq<Turn>, trace: Trace) {
    && trace.turns <= |env|
    && (forall i :: 0 <= i < trace.turns ==> !env[i].stop)
    && (forall i :: 0 <= i < trace.turns - (if trace.ending.RuntimeElapsed? then 1 else 0) ==> !Expired(s, env[i].now))
    && match trace.ending
       case StopRequested => trace.turns < |env| && env[trace.turns].stop
       case RuntimeElapsed => trace.turns > 0 && Expired(s, env[trace.turns - 1].now)
       case StillRunning => trace.turns == |env|
  }

  /** The loop over as many turns as the environment offers. */
  method RunTurns(s: Schedule, env: seq<Turn>) returns (trace: Trace)
    ensures EndsProperly(s, env, trace)
    ensures trace.snapshots == Snapshots(s, env[..trace.turns])
    ensures |trace.sleeps| == trace.turns - if trace.ending.RuntimeElapsed? then 1 else 0
    ensures forall i :: 0 <= i < |trace.sleeps| ==> trace.sleeps[i] == Sleep(s, env[..i + 1])
  {
    hide ToMs, Deadline;
    var deadline, pollInterval, runForever := Deadline(s), PollInterval(s), s.runtimeSeconds == 0;
    var nextSnapshot := s.start;
    var snapshots: seq<int>, sleeps: seq<int> := [], [];
    var i := 0;
    while i < |env|
      invariant i <= |env| && |sleeps| == i
      invariant nextSnapshot == Due(s, env[..i]) && snapshots == Snapshots(s, env[..i])
      invariant forall j :: 0 <= j < i ==> sleeps[j] == Sleep(s, env[..j + 1])
      invariant forall j :: 0 <= j < i ==> !env[j].stop && !Expired(s, env[j].now)
    {
      if env[i].stop {
        return Trace(i, snapshots, sleeps, StopRequested);
      }
      assert env[..i + 1][..i] == env[..i];
      var now := env[i].now;
      if now >= nextSnapshot {
        snapshots := snapshots + [now];
        nextSnapshot := now + s.intervalMs * NS_PER_MS;
      }
      if !runForever && now >= deadline {
        return Trace(i + 1, snapshots, sleeps, RuntimeElapsed);
      }
      var sleepUntil := nextSnapshot;
      if !runForever && deadline < sleepUntil {
        sleepUntil := deadline;
      }
      var remaining := ToMs(sleepUntil - env[i].beforeSleep);
      var sleepFor := if remaining > pollInterval then pollInterval else remaining;
      sleeps := sleeps + [if sleepFor > 0 then sleepFor else 0];
      i := i + 1;
    }
    trace := Trace(i, snapshots, sleeps, StillRunning);
  }

  /** Where the due time stands relative to the snapshots: exactly one interval after the last. */
  lemma {:induction false} DueAfterLast(s: Schedule, turns: seq<Turn>)
    requires s.intervalMs > 0 && SteadyClock(s.start, turns)
    ensures var shots := Snapshots(s, turns);
            && Due(s, turns) == (if |shots| == 0 then s.start else shots[|shots| - 1] + s.intervalMs * NS_PER_MS)
            && (|turns| > 0 ==> |shots| > 0 && shots[0] == turns[0].now && turns[|turns| - 1].now < Due(s, turns))
  {
    if |turns| > 0 {
      var front := turns[..|turns| - 1];
      assert SteadyClock(s.start, front);
      DueAfterLast(s, front);
    }
  }

  /** Consecutive snapshots are at least one interval apart. */
  lemma {:induction false} SnapshotsAreSpaced(s: Schedule, turns: seq<Turn>)
    requires s.intervalMs > 0 && SteadyClock(s.start, turns)
    ensures var shots := Snapshots(s, turns);
            forall i :: 0 <= i < |shots| - 1 ==> shots[i + 1] - shots[i] >= s.intervalMs * 1_000_000
  {
    if |turns| > 0 {
      var front := turns[..|turns| - 1];
      assert SteadyClock(s.start, front);
      SnapshotsAreSpaced(s, front);
      DueAfterLast(s, front);
    }
  }

  lemma {:induction false} SpacedSpan(shots: seq<int>, gap: int)
    requires |shots| > 0 && forall i :: 0 <= i < |shots| - 1 ==> shots[i + 1] - shots[i] >= gap
    ensures shots[|shots| - 1] - shots[0] >= (|shots| - 1) * gap
  {
    if |shots| > 1 {
      SpacedSpan(shots[..|shots| - 1], gap);
      assert (|shots| - 1) * gap == (|shots| - 2) * gap + gap;
    }
  }

  /** Snapshots never crowd and never lapse: k of them span at least k - 1 intervals, the first is
      taken in the first turn, and at the end of every turn the last one is less than an interval old. */
  lemma SnapshotsArePaced(s: Schedule, turns: seq<Turn>)
    requires s.intervalMs > 0 && SteadyClock(s.start, turns) && |turns| > 0
    ensures var shots := Snapshots(s, turns); var n := |shots|;
            && n > 0 && shots[0] == turns[0].now
            && shots[n - 1] - shots[0] >= (n - 1) * (s.intervalMs * 1_000_000)
            && 0 <= turns[|turns| - 1].now - shots[n - 1] < s.intervalMs * 1_000_000
  {
    DueAfterLast(s, turns);
    SnapshotsAreSpaced(s, turns);
    SpacedSpan(Snapshots(s, turns), s.intervalMs * NS_PER_MS);
    SnapshotNotAhead(s, turns);
  }

  lemma {:induction false} SnapshotNotAhead(s: Schedule, turns: seq<Turn>)
    requires SteadyClock(s.start, turns) && |Snapshots(s, turns)| > 0
    ensures |turns| > 0 && Snapshots(s, turns)[|Snapshots(s, turns)| - 1] <= turns[|turns| - 1].now
  {
    var n := |turns| - 1;
    var front := turns[..n];
    if turns[n].now < Due(s, front) {
      assert SteadyClock(s.start, front);
      SnapshotNotAhead(s, front);
      assert turns[n - 1].beforeSleep <= turns[n].now;
    }
  }

  /** A sleep lasts at most 100 ms and at most a snapshot interval, and ends no later than the next snapshot
      is due and no later than the deadline; and no sleep is a whole millisecond shorter than that. */
  lemma SleepsAreShort(s: Schedule, turns: seq<Turn>)
    requires s.intervalMs > 0 && |turns| > 0
    ensures var sleep, from := Sleep(s, turns), turns[|turns| - 1].beforeSleep;
            var deadline := s.start + s.runtimeSeconds * 1_000_000_000;
            && 0 <= sleep <= 100 && sleep <= s.intervalMs
            && (sleep > 0 ==> from + sleep * 1_000_000 <= Due(s, turns))
            && (sleep > 0 && s.runtimeSeconds != 0 ==> from + sleep * 1_000_000 <= deadline)
            && (sleep == 100 || sleep == s.intervalMs
                || from + (sleep + 1) * 1_000_000 > Due(s, turns)
                || (s.runtimeSeconds != 0 && from + (sleep + 1) * 1_000_000 > deadline))
  {
    hide Due;
    var due := Due(s, turns);
    var until := if s.runtimeSeconds != 0 && Deadline(s) < due then Deadline(s) else due;
    Truncates(until - turns[|turns| - 1].beforeSleep);
    hide ToMs;
  }

  lemma Truncates(ns: int)
    ensures ToMs(ns) > 0 ==> ToMs(ns) * 1_000_000 <= ns
    ensures ToMs(ns) >= 0 ==> ns < (ToMs(ns) + 1) * 1_000_000
    ensures ToMs(ns) < 0 ==> ns < 0
  {
  }

  /** A run ends for its runtime exactly in the first turn that reads the clock at least that many seconds after the
      start; a run without a runtime never does. */
  lemma RuntimeIsKept(s: Schedule, env: seq<Turn>, trace: Trace)
    requires EndsProperly(s, env, trace)
    ensures trace.turns <= |env|
    ensures forall i :: 0 <= i < trace.turns ==>
              (s.runtimeSeconds != 0 && env[i].now - s.start >= s.runtimeSeconds * 1_000_000_000
               <==> trace.ending.RuntimeElapsed? && i == trace.turns - 1)
    ensures trace.ending.RuntimeElapsed? ==> trace.turns > 0
    ensures trace.ending.StillRunning? <==> trace.turns == |env| && !trace.ending.RuntimeElapsed?
    ensures trace.ending.StopRequested? ==> trace.turns < |env| && env[trace.turns].stop
    ensures forall i :: 0 <= i < trace.turns ==> !env[i].stop
  {
    forall i | 0 <= i < trace.turns
      ensures Expired(s, env[i].now) <==> s.runtimeSeconds != 0 && env[i].now - s.start >= s.runtimeSeconds * 1_000_000_000
    {
    }
  }

  /** A bounded run over a clock that reaches the deadline ends, at the first reading at or past it,
      unless a stop comes first. */
  lemma BoundedRunEnds(s: Schedule, env: seq<Turn>, trace: Trace, k: nat)
    requires k < |env| && EndsProperly(s, env, trace)
    requires s.runtimeSeconds != 0 && env[k].now - s.start >= s.runtimeSeconds * 1_000_000_000
    requires forall i :: 0 <= i < k ==> env[i].now - s.start < s.runtimeSeconds * 1_000_000_000
    requires forall i :: 0 <= i <= k ==> !env[i].stop
    ensures trace.ending.RuntimeElapsed? && trace.turns == k + 1
  {
    RuntimeIsKept(s, env, trace);
  }
}
