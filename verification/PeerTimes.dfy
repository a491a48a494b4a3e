/** What holds of the clocks, counters, event pacing, activity window and choke counters of a
    record after any history. */
module PeerTimes {
  import opened Wrappers
  import opened Sums
  import opened PeerModel

  /** The state of a record's clocks after a history: when it was first and last seen, and
      whether it is still live. */
  lemma {:induction false} ClocksAfter(b: Birth, h: seq<PeerEvent>)
    requires b.now > 0 && WellFormed(b.now, h)
    ensures var p := Record(b, h);
            && p.times.firstSeen == b.now && p.times.connected == b.now
            && b.now <= p.times.lastSeen <= LastTime(b.now, h)
            && (p.live <==> Open(h))
            && (Open(h) ==> p.times.disconnected == 0 && p.times.lastSeen == LastTime(b.now, h))
            && (!Open(h) ==> b.now <= p.times.disconnected <= LastTime(b.now, h))
  {
    hide Record;
    TimesAfter(b, h);
    LiveAfter(b, h);
    if |h| > 0 {
      var front := Front(h);
      ClocksAfter(b, front);
      assert Open(h) <==> Open(front) && !h[|h| - 1].Disconnected? && !h[|h| - 1].Finalized?;
    }
  }

  /** When the record was last closed, by a disconnection or by the final close of an open record; zero if never. */
  function LastClose(h: seq<PeerEvent>): int {
    if |h| == 0 then 0
    else
      var front, e := h[..|h| - 1], h[|h| - 1];
      if e.Disconnected? || (e.Finalized? && Open(front)) then e.now else LastClose(front)
  }

  lemma {:induction false} ClosedAtLastClose(b: Birth, h: seq<PeerEvent>)
    requires b.now > 0 && WellFormed(b.now, h)
    ensures Record(b, h).times.disconnected == LastClose(h)
  {
    hide Record, Open;
    TimesAfter(b, h);
    if |h| > 0 {
      ClosedAtLastClose(b, Front(h));
      ClocksAfter(b, Front(h));
    }
  }

  // ----- Counters -----

  function Count(h: seq<PeerEvent>, p: PeerEvent -> bool): (c: nat)
    ensures c <= |h|
  {
    if |h| == 0 then 0 else Count(h[..|h| - 1], p) + if p(h[|h| - 1]) then 1 else 0
  }

  /** Every counter is the number of events of its kind. */
  lemma {:induction false} CountersCountEvents(b: Birth, h: seq<PeerEvent>)
    ensures Record(b, h).counters == Counters(
              Count(h, (e: PeerEvent) => e.Sent?), Count(h, (e: PeerEvent) => e.Responded?), Count(h, (e: PeerEvent) => e.TimedOut?),
              Count(h, (e: PeerEvent) => e.Dropped?), Count(h, (e: PeerEvent) => e.Credited?), Count(h, (e: PeerEvent) => e.Requested?),
              Count(h, (e: PeerEvent) => e.Uploaded?), Count(h, (e: PeerEvent) => e.Snubbed?), Count(h, (e: PeerEvent) => e.Unsnubbed?))
  {
    hide Record;
    CountersAfter(b, h);
    if |h| > 0 {
      CountersCountEvents(b, Front(h));
    }
  }

  // ----- Gaps telescope -----

  /** When the events of one kind happened. */
  function TimesOf(h: seq<PeerEvent>, k: Pacing): (ts: seq<int>)
    ensures |ts| == Count(h, (e: PeerEvent) => Paces(k, e))
  {
    if |h| == 0 then []
    else
      var before, e := TimesOf(h[..|h| - 1], k), h[|h| - 1];
      if (match k case Sending => e.Sent? case Receiving => e.Requested? case Uploading => e.Uploaded?)
      then before + [e.now] else before
  }

  ghost predicate Ascending(ts: seq<int>) {
    forall i :: 0 <= i < |ts| - 1 ==> ts[i] <= ts[i + 1]
  }

  lemma {:induction false} TimesAscend(start: int, h: seq<PeerEvent>, k: Pacing)
    requires WellFormed(start, h)
    ensures start <= LastTime(start, h)
    ensures Ascending(TimesOf(h, k))
    ensures |TimesOf(h, k)| > 0 ==> start <= TimesOf(h, k)[0] && TimesOf(h, k)[|TimesOf(h, k)| - 1] <= LastTime(start, h)
  {
    if |h| > 0 {
      TimesAscend(start, h[..|h| - 1], k);
    }
  }

  /** `samples` are the differences of consecutive entries of `ts`, in milliseconds. */
  ghost predicate Differences(ts: seq<int>, samples: seq<real>) {
    && |samples| == |ts| - 1
    && forall i :: 0 <= i < |samples| ==> samples[i] == NsToMs(ts[i + 1] - ts[i])
  }

  /** `g` records the pacing of events at times `ts` on a connection begun at `start`. */
  ghost predicate PacedBy(g: Gaps, ts: seq<int>, start: int) {
    if |ts| == 0 then g == Gaps(None, None, [])
    else
      && g.firstDelay == Some(NsToMs(ts[0] - start))
      && g.last == Some(ts[|ts| - 1])
      && Differences(ts, g.samples)
  }

  lemma NothingPaced(start: int)
    ensures PacedBy(Gaps(None, None, []), [], start)
  {
  }

  lemma OneMoreGap(g: Gaps, ts: seq<int>, start: int, now: int)
    requires start > 0 && PacedBy(g, ts, start)
    ensures PacedBy(NoteGap(g, start, now), ts + [now], start)
  {
    if |ts| > 0 {
      var samples := g.samples + [NsToMs(now - ts[|ts| - 1])];
      forall i | 0 <= i < |samples| ensures samples[i] == NsToMs((ts + [now])[i + 1] - (ts + [now])[i]) {
      }
      assert Differences(ts + [now], samples);
    }
  }

  /** After n events of a kind there are n - 1 gap samples, each the time between two
      consecutive events, and the first delay counts from the start of the connection. */
  lemma {:induction false} GapsFollowTimes(b: Birth, h: seq<PeerEvent>, k: Pacing)
    requires b.now > 0 && WellFormed(b.now, h)
    ensures PacedBy(GapsOf(Record(b, h), k), TimesOf(h, k), b.now)
  {
    hide Record, PacedBy, NoteGap;
    GapsAfter(b, h, k);
    if |h| == 0 {
      NothingPaced(b.now);
    } else {
      var front, e := Front(h), Last(h);
      GapsFollowTimes(b, front, k);
      ClocksAfter(b, front);
      if Paces(k, e) {
        OneMoreGap(GapsOf(Record(b, front), k), TimesOf(front, k), b.now, e.now);
      }
    }
  }

  /** The same for the three kinds of pacing by name. */
  lemma EachPaceFollowsTimes(b: Birth, h: seq<PeerEvent>)
    requires b.now > 0 && WellFormed(b.now, h)
    ensures var p := Record(b, h);
            && PacedBy(p.sent, TimesOf(h, Sending), b.now)
            && PacedBy(p.received, TimesOf(h, Receiving), b.now)
            && PacedBy(p.uploaded, TimesOf(h, Uploading), b.now)
  {
    hide Record, PacedBy, TimesOf, WellFormed;
    GapsFollowTimes(b, h, Sending);
    GapsFollowTimes(b, h, Receiving);
    GapsFollowTimes(b, h, Uploading);
  }

  lemma {:induction false} DifferencesTelescope(ts: seq<int>, samples: seq<real>)
    requires |ts| > 0 && Differences(ts, samples)
    ensures Total(samples) == NsToMs(ts[|ts| - 1] - ts[0])
  {
    if |samples| > 0 {
      DifferencesTelescope(ts[..|ts| - 1], samples[..|samples| - 1]);
    }
  }

  /** First delay plus all gaps is the time from connection to the last event, and no gap is negative. */
  lemma GapsTelescope(b: Birth, h: seq<PeerEvent>, k: Pacing)
    requires b.now > 0 && WellFormed(b.now, h) && |TimesOf(h, k)| > 0
    ensures var g := GapsOf(Record(b, h), k);
            && g.firstDelay.Some? && g.last.Some?
            && |g.samples| == |TimesOf(h, k)| - 1
            && (forall i :: 0 <= i < |g.samples| ==> g.samples[i] >= 0.0)
            && g.firstDelay.value >= 0.0
            && g.firstDelay.value + Total(g.samples) == NsToMs(g.last.value - b.now)
  {
    hide Record, TimesOf;
    GapsFollowTimes(b, h, k);
    TimesAscend(b.now, h, k);
    var ts, samples := TimesOf(h, k), GapsOf(Record(b, h), k).samples;
    DifferencesTelescope(ts, samples);
    forall i | 0 <= i < |samples| ensures samples[i] >= 0.0 {
      assert ts[i] <= ts[i + 1];
    }
  }

  // ----- Interactions -----

  /** A snapshot shows the peer active: some speed or queue is not zero, or it has been heard of within
      two intervals. */
  predicate ShowsActivity(info: PeerInfo, intervalMs: int) {
    || info.payloadDownSpeed > 0 || info.downSpeed > 0 || info.payloadUpSpeed > 0 || info.upSpeed > 0
    || info.downloadQueue > 0 || info.uploadQueue > 0
    || info.lastActiveMs <= 2 * intervalMs
  }

  lemma ActivityShown(info: PeerInfo, intervalMs: int)
    ensures RecentlyActive(info, intervalMs) <==> ShowsActivity(info, intervalMs)
  {
  }

  /** When interactions were noted: whenever requests, answers, uploads or snubs were exchanged, and at an active
      snapshot that comes a whole interval after the previous interaction. */
  function InteractionTimes(h: seq<PeerEvent>): seq<int> {
    if |h| == 0 then []
    else
      var before, e := InteractionTimes(h[..|h| - 1]), h[|h| - 1];
      match e
      case Seen(_) => before
      case Connected(_) => before
      case Disconnected(_) => before
      case Finalized(_) => before
      case Lost => before
      case Credited => before
      case Observed(now, info, intervalMs) =>
        if ShowsActivity(info, intervalMs) && (|before| == 0 || now - before[|before| - 1] >= intervalMs * 1_000_000)
        then before + [now] else before
      case _ => before + [e.now]
  }

  function Rises(ts: seq<int>): nat {
    if |ts| <= 1 then 0
    else Rises(ts[..|ts| - 1]) + if ts[|ts| - 2] < ts[|ts| - 1] then 1 else 0
  }

  /** The times between interactions, wherever the clock has moved on. */
  function RiseGaps(ts: seq<int>): seq<real> {
    if |ts| <= 1 then []
    else
      var before, from, to := RiseGaps(ts[..|ts| - 1]), ts[|ts| - 2], ts[|ts| - 1];
      if from < to then before + [NsToMs(to - from)] else before
  }

  ghost predicate InteractedAt(i: Interactions, ts: seq<int>) {
    && |i.gaps| == Rises(ts)
    && (forall n :: 0 <= n < |i.gaps| ==> i.gaps[n] > 0.0)
    && (if |ts| == 0 then i == Interactions(None, [])
        else i.last == Some(ts[|ts| - 1]) && Total(i.gaps) == NsToMs(ts[|ts| - 1] - ts[0]))
  }

  lemma OneMoreInteraction(i: Interactions, ts: seq<int>, now: int)
    requires InteractedAt(i, ts) && (|ts| > 0 ==> ts[|ts| - 1] <= now)
    ensures InteractedAt(NoteInteraction(i, now), ts + [now])
  {
    assert (ts + [now])[..|ts|] == ts;
    var j := NoteInteraction(i, now);
    if j.gaps != i.gaps {
      assert j.gaps[..|j.gaps| - 1] == i.gaps;
    }
  }

  lemma LaterAscends(ts: seq<int>, now: int)
    requires Ascending(ts) && (|ts| > 0 ==> ts[|ts| - 1] <= now)
    ensures Ascending(ts + [now])
  {
  }

  lemma LastInteraction(i: Interactions, ts: seq<int>)
    requires InteractedAt(i, ts)
    ensures i.last == if |ts| == 0 then None else Some(ts[|ts| - 1])
  {
  }

  lemma NoInteraction()
    ensures InteractedAt(Interactions(None, []), []) && Ascending([])
  {
  }

  /** Interaction gaps are strictly positive, one for every time the clock has moved on, and
      add up to the time from the first interaction to the last. */
  lemma {:induction false} InteractionGapsTelescope(b: Birth, h: seq<PeerEvent>)
    requires WellFormed(b.now, h)
    ensures Ascending(InteractionTimes(h))
    ensures InteractedAt(Record(b, h).interactions, InteractionTimes(h))
    ensures |InteractionTimes(h)| > 0 ==> InteractionTimes(h)[|InteractionTimes(h)| - 1] <= LastTime(b.now, h)
  {
    hide Record, RecentlyActive, ShowsActivity, NoteInteraction, InteractedAt, Ascending;
    InteractionsAfter(b, h);
    if |h| == 0 {
      NoInteraction();
    } else {
      var front, e := Front(h), Last(h);
      var i, ts := Record(b, front).interactions, InteractionTimes(front);
      InteractionGapsTelescope(b, front);
      LastInteraction(i, ts);
      if e.Observed? { ActivityShown(e.info, e.intervalMs); }
      if Interacts(i.last, e) {
        OneMoreInteraction(i, ts, e.now);
        LaterAscends(ts, e.now);
      }
    }
  }

  lemma OneMoreRise(i: Interactions, ts: seq<int>, now: int)
    requires i.gaps == RiseGaps(ts) && i.last == (if |ts| == 0 then None else Some(ts[|ts| - 1]))
    requires |ts| > 0 ==> ts[|ts| - 1] <= now
    ensures NoteInteraction(i, now).gaps == RiseGaps(ts + [now])
    ensures NoteInteraction(i, now).last == Some(now)
  {
    RiseGapsGrow(ts, now);
    hide NsToMs, RiseGaps;
  }

  lemma RiseGapsGrow(ts: seq<int>, now: int)
    ensures RiseGaps(ts + [now])
         == if |ts| > 0 && ts[|ts| - 1] < now then RiseGaps(ts) + [NsToMs(now - ts[|ts| - 1])] else RiseGaps(ts)
  {
    hide NsToMs;
    var all := ts + [now];
    assert all[..|all| - 1] == ts && all[|all| - 1] == now;
    if |ts| > 0 { assert all[|all| - 2] == ts[|ts| - 1]; }
  }

  /** Each interaction gap is the time from one noted interaction to the next later one. */
  lemma {:induction false} InteractionGapsFollowTimes(b: Birth, h: seq<PeerEvent>)
    requires WellFormed(b.now, h)
    ensures var i, ts := Record(b, h).interactions, InteractionTimes(h);
            i.gaps == RiseGaps(ts) && i.last == (if |ts| == 0 then None else Some(ts[|ts| - 1]))
  {
    hide Record, RecentlyActive, ShowsActivity, NoteInteraction, RiseGaps;
    InteractionsAfter(b, h);
    if |h| == 0 {
      NoRises();
    } else {
      var front, e := Front(h), Last(h);
      var i, ts := Record(b, front).interactions, InteractionTimes(front);
      InteractionGapsFollowTimes(b, front);
      InteractionGapsTelescope(b, front);
      if e.Observed? { ActivityShown(e.info, e.intervalMs); }
      if Interacts(i.last, e) {
        OneMoreRise(i, ts, e.now);
      }
    }
  }

  lemma NoRises()
    ensures RiseGaps([]) == []
  {
  }

  // ----- Time conservation -----

  /** The clock readings at which the activity window moved, each with whether the time that
      follows it is active: first sight is, a snapshot decides it anew, and a close ends it. */
  function WindowMarks(start: int, h: seq<PeerEvent>): (marks: seq<(int, bool)>)
    ensures |marks| > 0
  {
    if |h| == 0 then [(start, true)]
    else
      var before, e := WindowMarks(start, h[..|h| - 1]), h[|h| - 1];
      if e.Observed? then before + [(e.now, ShowsActivity(e.info, e.intervalMs))]
      else if e.Disconnected? || e.Finalized? then before + [(e.now, false)]
      else before
  }

  /** The total length of the intervals between marks that begin with the given mark. */
  function TimeMarked(marks: seq<(int, bool)>, active: bool): int {
    if |marks| <= 1 then 0
    else
      var front := marks[..|marks| - 1];
      TimeMarked(front, active)
      + if marks[|marks| - 2].1 == active then marks[|marks| - 1].0 - marks[|marks| - 2].0 else 0
  }

  /** `a` has measured the intervals between `marks`. */
  ghost predicate Measures(a: Activity, marks: seq<(int, bool)>)
    requires |marks| > 0
  {
    && a.last == Some(marks[|marks| - 1].0) && a.wasActive == marks[|marks| - 1].1
    && a.activeNs == TimeMarked(marks, true) && a.idleNs == TimeMarked(marks, false)
  }

  lemma OneMoreMark(a: Activity, marks: seq<(int, bool)>, now: int, active: bool)
    requires |marks| > 0 && Measures(a, marks) && marks[|marks| - 1].0 <= now
    ensures Measures(AdvanceActivity(a, now, active), marks + [(now, active)])
  {
    assert (marks + [(now, active)])[..|marks|] == marks;
  }

  /** Active time is exactly the time between window marks that began active, and idle time the rest. */
  lemma {:induction false} WindowMeasuresMarks(b: Birth, h: seq<PeerEvent>)
    requires WellFormed(b.now, h)
    ensures Measures(Record(b, h).activity, WindowMarks(b.now, h))
    ensures WindowMarks(b.now, h)[|WindowMarks(b.now, h)| - 1].0 <= LastTime(b.now, h)
  {
    hide Record, RecentlyActive, ShowsActivity, Measures, AdvanceActivity, TimeMarked;
    ActivityAfter(b, h);
    if |h| == 0 {
      FirstMark(b.now);
    } else {
      var front, e := Front(h), Last(h);
      var a, marks := Record(b, front).activity, WindowMarks(b.now, front);
      WindowMeasuresMarks(b, front);
      MarkIsLast(a, marks);
      if e.Observed? {
        ActivityShown(e.info, e.intervalMs);
        OneMoreMark(a, marks, e.now, ShowsActivity(e.info, e.intervalMs));
      } else if e.Disconnected? || e.Finalized? {
        OneMoreMark(a, marks, e.now, false);
      }
    }
  }

  /** What a snapshot does to the window and to the interactions. The window is active from then on exactly when a
      speed or a queue is positive or the peer was active within two intervals; and an interaction is noted
      exactly when it is and none was noted for a whole interval. */
  lemma SnapshotDecidesActivity(b: Birth, h: seq<PeerEvent>)
    requires WellFormed(b.now, h) && |h| > 0 && Last(h).Observed?
    ensures var info, now, intervalMs := Last(h).info, Last(h).now, Last(h).intervalMs;
            var before, after := Record(b, Front(h)), Record(b, h);
            && after.activity.last == Some(now)
            && (after.activity.wasActive <==>
                  info.payloadDownSpeed > 0 || info.downSpeed > 0 || info.payloadUpSpeed > 0 || info.upSpeed > 0
                  || info.downloadQueue > 0 || info.uploadQueue > 0 || info.lastActiveMs <= 2 * intervalMs)
            && (if after.activity.wasActive
                   && (before.interactions.last.None? || now - before.interactions.last.value >= intervalMs * 1_000_000)
                then after.interactions.last == Some(now)
                else after.interactions == before.interactions)
  {
    hide Record, RecentlyActive;
    InteractionsAfter(b, h);
    ActivityAfter(b, h);
    ActivityShown(Last(h).info, Last(h).intervalMs);
  }

  lemma FirstMark(start: int)
    ensures Measures(Activity(Some(start), true, 0, 0), [(start, true)])
  {
  }

  lemma MarkIsLast(a: Activity, marks: seq<(int, bool)>)
    requires |marks| > 0 && Measures(a, marks)
    ensures a.last.Some?
  {
  }

  /** The activity window accounts for all time up to its last advance; active time is that between
      its marks that began active, and never more than connected time. */
  lemma {:induction false} WindowAccountsForTime(b: Birth, h: seq<PeerEvent>)
    requires b.now > 0 && WellFormed(b.now, h)
    ensures var p := Record(b, h); var a := p.activity;
            && a.last.Some? && b.now <= a.last.value <= LastTime(b.now, h)
            && 0 <= a.activeNs == TimeMarked(WindowMarks(b.now, h), true)
            && 0 <= a.idleNs == TimeMarked(WindowMarks(b.now, h), false)
            && a.activeNs + a.idleNs == a.last.value - b.now
            && (Open(h) ==> a.activeNs <= p.times.lastSeen - b.now)
            && (!Open(h) ==> !a.wasActive && a.activeNs <= p.times.disconnected - b.now)
  {
    hide Record, RecentlyActive, TimeMarked, WindowMarks;
    WindowMeasuresMarks(b, h);
    ActivityAfter(b, h);
    TimesAfter(b, h);
    ClocksAfter(b, h);
    if |h| > 0 {
      var front := Front(h);
      WindowAccountsForTime(b, front);
      ClocksAfter(b, front);
      assert Open(h) <==> Open(front) && !h[|h| - 1].Disconnected? && !h[|h| - 1].Finalized?;
    }
  }

  /** After the final close, active and idle time add up to the time from first sight to the end of
      the session, and active time is within the connected time that the summary reports. */
  lemma TimeIsConserved(b: Birth, h: seq<PeerEvent>)
    requires b.now > 0 && WellFormed(b.now, h) && |h| > 0 && h[|h| - 1].Finalized?
    ensures var p := Record(b, h);
            && !p.live
            && p.activity.activeNs + p.activity.idleNs == h[|h| - 1].now - p.times.firstSeen
            && 0 <= p.activity.activeNs <= ConnectedDuration(p.times)
  {
    hide Record;
    WindowAccountsForTime(b, h);
    WindowAccountsForTime(b, Front(h));
    ActivityAfter(b, h);
    ClocksAfter(b, h);
    assert !Open(h) by { assert h[|h| - 1].Finalized?; }
  }

  /** The connected time that a summary reports of a closed record runs from the connection to its last close. */
  lemma ReportedDuration(b: Birth, h: seq<PeerEvent>)
    requires b.now > 0 && WellFormed(b.now, h) && !Open(h)
    ensures ConnectedDuration(Record(b, h).times) == Record(b, h).times.disconnected - b.now
  {
    hide Record;
    ClocksAfter(b, h);
  }

  /** A record has seen a connect alert exactly when one is in its history, and is snubbed as the latest alert
      or snapshot about that says. */
  lemma {:induction false} FlagsFollowHistory(b: Birth, h: seq<PeerEvent>)
    ensures Record(b, h).sawConnectAlert <==> exists i :: 0 <= i < |h| && h[i].Connected?
    ensures Record(b, h).isSnubbed <==> SaidSnubbed(h)
  {
    hide Apply;
    if |h| > 0 {
      var front, e := Front(h), Last(h);
      FlagsFollowHistory(b, front);
      FlagsStep(Record(b, front), e);
      assert forall i :: 0 <= i < |front| ==> front[i] == h[i];
    }
  }

  lemma FlagsStep(p: PeerState, e: PeerEvent)
    ensures Apply(p, e).sawConnectAlert <==> p.sawConnectAlert || e.Connected?
    ensures Apply(p, e).isSnubbed == StepSnubbed(p.isSnubbed, e)
  {
  }

  predicate SaidSnubbed(h: seq<PeerEvent>) {
    |h| > 0 &&
    var e := h[|h| - 1];
    if e.Observed? then e.info.snubbed else e.Snubbed? || (!e.Unsnubbed? && SaidSnubbed(h[..|h| - 1]))
  }

  /** The byte totals of a record are those of its latest snapshot. */
  function TotalsSeen(h: seq<PeerEvent>): (int, int) {
    if |h| == 0 then (0, 0)
    else if h[|h| - 1].Observed? then (h[|h| - 1].info.totalDownload, h[|h| - 1].info.totalUpload)
    else TotalsSeen(h[..|h| - 1])
  }

  lemma {:induction false} TotalsFollowSnapshots(b: Birth, h: seq<PeerEvent>)
    ensures (Record(b, h).downloadBytes, Record(b, h).uploadBytes) == TotalsSeen(h)
  {
    hide Apply;
    if |h| > 0 {
      TotalsFollowSnapshots(b, Front(h));
      TotalsStep(Record(b, Front(h)), Last(h));
    }
  }

  lemma TotalsStep(p: PeerState, e: PeerEvent)
    ensures (Apply(p, e).downloadBytes, Apply(p, e).uploadBytes)
         == if e.Observed? then (e.info.totalDownload, e.info.totalUpload) else (p.downloadBytes, p.uploadBytes)
  {
  }

  // ----- Choke edges -----

  /** The choke flag that the snapshots reported, on the peer's side or on ours. */
  function FlagsSeen(h: seq<PeerEvent>, remote: bool): seq<bool> {
    if |h| == 0 then []
    else
      var before, e := FlagsSeen(h[..|h| - 1], remote), h[|h| - 1];
      if e.Observed? then before + [if remote then e.info.remoteChoked else e.info.localChoked] else before
  }

  function Changes(flags: seq<bool>): nat {
    if |flags| <= 1 then 0
    else Changes(flags[..|flags| - 1]) + if flags[|flags| - 1] != flags[|flags| - 2] then 1 else 0
  }

  function Bit(b: bool): int { if b then 1 else 0 }

  /** `up` and `down` count the changes of a flag that was seen with these values. */
  ghost predicate CountsEdges(flags: seq<bool>, flag: bool, up: int, down: int) {
    && up >= 0 && down >= 0
    && up + down == Changes(flags)
    && (if |flags| == 0 then up == down == 0
        else flag == flags[|flags| - 1] && up - down == Bit(flag) - Bit(flags[0]))
  }

  lemma NoFlags()
    ensures CountsEdges([], false, 0, 0)
  {
  }

  lemma OneMoreFlag(flags: seq<bool>, flag: bool, up: int, down: int, now: bool)
    requires CountsEdges(flags, flag, up, down)
    ensures |flags| == 0 ==> CountsEdges(flags + [now], now, up, down)
    ensures |flags| > 0 ==> CountsEdges(flags + [now], now, up + Edge(flag, now), down + Edge(!flag, !now))
  {
    assert (flags + [now])[..|flags|] == flags;
  }

  /** The choke counters count the changes of the flag, the first snapshot counting none; their
      difference is the flag now minus the flag first seen. */
  lemma {:induction false} ChokeCountersCountEdges(b: Birth, h: seq<PeerEvent>)
    ensures var c := Record(b, h).chokes;
            && (c.initialized <==> |FlagsSeen(h, true)| > 0) && (c.initialized <==> |FlagsSeen(h, false)| > 0)
            && CountsEdges(FlagsSeen(h, true), c.remote, c.choked, c.unchoked)
            && CountsEdges(FlagsSeen(h, false), c.local, c.weChoked, c.weUnchoked)
  {
    hide Record, Edge, CountsEdges;
    ChokesAfter(b, h);
    if |h| == 0 {
      NoFlags();
    } else {
      var front, e := Front(h), Last(h);
      var c := Record(b, front).chokes;
      ChokeCountersCountEdges(b, front);
      if e.Observed? {
        OneMoreFlag(FlagsSeen(front, true), c.remote, c.choked, c.unchoked, e.info.remoteChoked);
        OneMoreFlag(FlagsSeen(front, false), c.local, c.weChoked, c.weUnchoked, e.info.localChoked);
      }
    }
  }
}
