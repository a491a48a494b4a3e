/** One observed connection as a value: the fields of `PeerStats` grouped by what they measure,
    and how each measurement responds to the events of the connection (src/peer_stats.hpp,
    src/peer_stats.cpp). The source is written handler by handler; this specification is written
    measurement by measurement. Timestamps are steady-clock nanoseconds; samples are exact milliseconds. */
module PeerModel {
  import opened Wrappers

  datatype RequestKey = RequestKey(piece: int, block: int)

  /** A request received from the peer, as the wire protocol states it. */
  datatype PeerRequest = PeerRequest(piece: int, start: int, length: int)

  /** What a snapshot of the peer says, as far as these statistics use it. */
  datatype PeerInfo = PeerInfo(
    totalDownload: int, totalUpload: int,
    payloadDownSpeed: int, downSpeed: int, payloadUpSpeed: int, upSpeed: int,
    downloadQueue: int, uploadQueue: int, lastActiveMs: int,
    remoteChoked: bool, localChoked: bool, snubbed: bool)

  datatype Times = Times(firstSeen: int, lastSeen: int, connected: int, disconnected: int)

  datatype Counters = Counters(
    requestsSent: int, blockResponses: int, timeouts: int, drops: int, piecesFinished: int,
    incomingRequests: int, blocksUploaded: int, snubbed: int, unsnubbed: int)

  /** Pacing of one kind of event: delay of the first, then the gap before each later one. */
  datatype Gaps = Gaps(firstDelay: Option<real>, last: Option<int>, samples: seq<real>)

  datatype Interactions = Interactions(last: Option<int>, gaps: seq<real>)

  datatype Requests = Requests(outstanding: map<RequestKey, int>, latencies: seq<real>, depths: seq<real>)

  datatype Uploads = Uploads(pending: map<RequestKey, seq<int>>, latencies: seq<real>)

  datatype Bursts = Bursts(
    active: bool, size: int, start: int, last: int,
    sizes: seq<real>, durations: seq<real>, idleGaps: seq<real>)

  datatype Activity = Activity(last: Option<int>, wasActive: bool, activeNs: int, idleNs: int)

  datatype Chokes = Chokes(
    initialized: bool, remote: bool, local: bool,
    choked: int, unchoked: int, weChoked: int, weUnchoked: int)

  datatype PeerState = PeerState(
    peerKey: string, endpointKey: string, times: Times,
    live: bool, sawConnectAlert: bool, isSnubbed: bool,
    counters: Counters, downloadBytes: int, uploadBytes: int,
    sent: Gaps, received: Gaps, uploaded: Gaps, interactions: Interactions,
    requests: Requests, uploads: Uploads, bursts: Bursts, activity: Activity, chokes: Chokes)

  const BURST_GAP_MS: real := 100.0

  function NsToMs(ns: int): real {
    ns as real / 1000000.0
  }

  /** Milliseconds add up, and a million nanoseconds are one. */
  lemma MillisecondsAddUp(a: int, b: int)
    ensures NsToMs(a + b) == NsToMs(a) + NsToMs(b) && NsToMs(1_000_000) == 1.0
    ensures a < b ==> NsToMs(a) < NsToMs(b)
  {
  }

  /** C++ integer division truncates toward zero. */
  function BlockIndex(request: PeerRequest): int {
    if request.length <= 0 then 0
    else if request.start >= 0 then request.start / request.length
    else -(-request.start / request.length)
  }

  function KeyOf(request: PeerRequest): RequestKey {
    RequestKey(request.piece, BlockIndex(request))
  }

  function NewPeer(peerKey: string, endpointKey: string, now: int): PeerState {
    PeerState(peerKey, endpointKey, Times(now, now, now, 0), true, false, false,
              Counters(0, 0, 0, 0, 0, 0, 0, 0, 0), 0, 0,
              Gaps(None, None, []), Gaps(None, None, []), Gaps(None, None, []), Interactions(None, []),
              Requests(map[], [], []), Uploads(map[], []),
              Bursts(false, 0, 0, 0, [], [], []), Activity(Some(now), true, 0, 0),
              Chokes(false, false, false, 0, 0, 0, 0))
  }

  // ----- Events -----

  datatype PeerEvent =
    | Seen(now: int)
    | Connected(now: int)
    | Disconnected(now: int)
    | Sent(now: int, key: RequestKey)
    | Responded(now: int, key: RequestKey)
    | TimedOut(now: int, key: RequestKey)
    | Dropped(now: int, key: RequestKey)
    | Requested(now: int, request: PeerRequest)
    | Uploaded(now: int, key: RequestKey)
    | Snubbed(now: int)
    | Unsnubbed(now: int)
    | Observed(now: int, info: PeerInfo, intervalMs: int)
    | Lost
    | Credited
    | Finalized(now: int)

  /** Exchanges with the peer that an alert reports, and that count as interactions. */
  predicate Exchange(e: PeerEvent) {
    e.Sent? || e.Responded? || e.TimedOut? || e.Dropped? || e.Requested? || e.Uploaded? || e.Snubbed? || e.Unsnubbed?
  }

  /** Disconnection, also when the end of the session brings it about. */
  predicate Closes(live: bool, e: PeerEvent) {
    e.Disconnected? || (e.Finalized? && live)
  }

  /** Whatever is still unanswered is forgotten. */
  predicate Clears(live: bool, e: PeerEvent) {
    Closes(live, e) || e.Lost?
  }

  // ----- How each measurement responds -----

  function MarkSeen(t: Times, now: int): Times {
    t.(firstSeen := if t.firstSeen == 0 then now else t.firstSeen, lastSeen := now)
  }

  function StepTimes(t: Times, live: bool, e: PeerEvent): Times {
    match e
    case Lost => t
    case Credited => t
    case Connected(now) => MarkSeen(t, now).(connected := if t.connected == 0 then now else t.connected)
    case Disconnected(now) => MarkSeen(t, now).(disconnected := now)
    case Finalized(now) => if live then MarkSeen(t, now).(disconnected := now) else t
    case _ => MarkSeen(t, e.now)
  }

  function StepLive(live: bool, e: PeerEvent): bool {
    e.Connected? || (live && !Closes(live, e))
  }

  function StepSnubbed(snubbed: bool, e: PeerEvent): bool {
    match e
    case Snubbed(_) => true
    case Unsnubbed(_) => false
    case Observed(_, info, _) => info.snubbed
    case _ => snubbed
  }

  function StepCounters(c: Counters, e: PeerEvent): Counters {
    match e
    case Sent(_, _) => c.(requestsSent := c.requestsSent + 1)
    case Responded(_, _) => c.(blockResponses := c.blockResponses + 1)
    case TimedOut(_, _) => c.(timeouts := c.timeouts + 1)
    case Dropped(_, _) => c.(drops := c.drops + 1)
    case Credited => c.(piecesFinished := c.piecesFinished + 1)
    case Requested(_, _) => c.(incomingRequests := c.incomingRequests + 1)
    case Uploaded(_, _) => c.(blocksUploaded := c.blocksUploaded + 1)
    case Snubbed(_) => c.(snubbed := c.snubbed + 1)
    case Unsnubbed(_) => c.(unsnubbed := c.unsnubbed + 1)
    case _ => c
  }

  function NoteGap(g: Gaps, connected: int, now: int): Gaps {
    if g.last.Some? then
      g.(samples := g.samples + [NsToMs(now - g.last.value)], last := Some(now))
    else if connected != 0 then
      g.(firstDelay := Some(NsToMs(now - connected)), last := Some(now))
    else
      g.(last := Some(now))
  }

  datatype Pacing = Sending | Receiving | Uploading

  predicate Paces(k: Pacing, e: PeerEvent) {
    match k
    case Sending => e.Sent?
    case Receiving => e.Requested?
    case Uploading => e.Uploaded?
  }

  function StepGaps(k: Pacing, g: Gaps, connected: int, e: PeerEvent): Gaps {
    if Paces(k, e) then NoteGap(g, connected, e.now) else g
  }

  function NoteInteraction(i: Interactions, now: int): Interactions {
    if i.last.Some? && now > i.last.value then
      Interactions(Some(now), i.gaps + [NsToMs(now - i.last.value)])
    else
      i.(last := Some(now))
  }

  function DownloadRate(info: PeerInfo): int {
    if info.payloadDownSpeed > 0 then info.payloadDownSpeed else info.downSpeed
  }

  function UploadRate(info: PeerInfo): int {
    if info.payloadUpSpeed > 0 then info.payloadUpSpeed else info.upSpeed
  }

  predicate RecentlyActive(info: PeerInfo, intervalMs: int) {
    DownloadRate(info) > 0 || UploadRate(info) > 0 || info.downloadQueue > 0 || info.uploadQueue > 0
    || info.lastActiveMs <= intervalMs * 2
  }

  /** A snapshot of an active peer counts as an interaction when none was noted for an interval. */
  predicate Interacts(last: Option<int>, e: PeerEvent) {
    || Exchange(e)
    || (e.Observed? && RecentlyActive(e.info, e.intervalMs)
        && (last.None? || e.now - last.value >= e.intervalMs * 1000000))
  }

  function StepInteractions(i: Interactions, e: PeerEvent): Interactions {
    if Interacts(i.last, e) then NoteInteraction(i, e.now) else i
  }

  /** Every exchange of requests, and every loss, samples the number of requests outstanding;
      a snapshot samples the peer's own queue length when that is larger. */
  function StepRequests(r: Requests, live: bool, e: PeerEvent): Requests {
    match e
    case Sent(now, key) => Sampled(r.(outstanding := r.outstanding[key := now]))
    case Responded(now, key) =>
      Sampled(if key in r.outstanding then
                r.(latencies := r.latencies + [NsToMs(now - r.outstanding[key])], outstanding := r.outstanding - {key})
              else r)
    case TimedOut(_, key) => Sampled(r.(outstanding := r.outstanding - {key}))
    case Dropped(_, key) => Sampled(r.(outstanding := r.outstanding - {key}))
    case Observed(_, info, _) => r.(depths := r.depths + [MaxOf(|r.outstanding|, info.downloadQueue) as real])
    case _ => if Clears(live, e) then Sampled(r.(outstanding := map[])) else r
  }

  function Sampled(r: Requests): (s: Requests)
    ensures s.outstanding == r.outstanding && s.latencies == r.latencies
  {
    r.(depths := r.depths + [|r.outstanding| as real])
  }

  function MaxOf(a: int, b: int): int {
    if a < b then b else a
  }

  function StepUploads(u: Uploads, live: bool, e: PeerEvent): Uploads {
    match e
    case Requested(now, request) =>
      var key := KeyOf(request);
      u.(pending := u.pending[key := (if key in u.pending then u.pending[key] else []) + [now]])
    case Uploaded(now, key) =>
      if key in u.pending && |u.pending[key]| > 0 then TakeOldest(u, key, now) else u
    case _ => if Clears(live, e) then u.(pending := map[]) else u
  }

  /** The guard on the clock is the source's own. */
  function TakeOldest(u: Uploads, key: RequestKey, now: int): Uploads
    requires key in u.pending && |u.pending[key]| > 0
  {
    var oldest, rest := u.pending[key][0], u.pending[key][1..];
    Uploads(if |rest| == 0 then u.pending - {key} else u.pending[key := rest],
            if now >= oldest then u.latencies + [NsToMs(now - oldest)] else u.latencies)
  }

  function FlushBurst(b: Bursts): Bursts {
    if !b.active then b
    else Bursts(false, 0, 0, 0, b.sizes + [b.size as real], b.durations + [NsToMs(b.last - b.start)], b.idleGaps)
  }

  function NoteBurst(b: Bursts, now: int): Bursts {
    if !b.active then
      b.(active := true, size := 1, start := now, last := now)
    else
      var gap := NsToMs(now - b.last);
      if gap <= BURST_GAP_MS then
        b.(size := b.size + 1, last := now)
      else
        var closed := FlushBurst(b);
        closed.(active := true, size := 1, start := now, last := now, idleGaps := closed.idleGaps + [gap])
  }

  function StepBursts(b: Bursts, e: PeerEvent): Bursts {
    match e
    case Requested(now, _) => NoteBurst(b, now)
    case Disconnected(_) => FlushBurst(b)
    case Finalized(_) => FlushBurst(b)
    case _ => b
  }

  function AdvanceActivity(a: Activity, now: int, activeNow: bool): Activity {
    var delta := if a.last.Some? && now > a.last.value then now - a.last.value else 0;
    Activity(Some(now), activeNow,
             if a.wasActive then a.activeNs + delta else a.activeNs,
             if a.wasActive then a.idleNs else a.idleNs + delta)
  }

  function StepActivity(a: Activity, live: bool, e: PeerEvent): Activity {
    match e
    case Connected(now) => if a.last.None? then a.(last := Some(now)) else a
    case Disconnected(now) => AdvanceActivity(a, now, false)
    case Observed(now, info, intervalMs) => AdvanceActivity(a, now, RecentlyActive(info, intervalMs))
    case Finalized(now) => if live || a.last.Some? then AdvanceActivity(a, now, false) else a
    case _ => a
  }

  function Edge(before: bool, now: bool): int {
    if !before && now then 1 else 0
  }

  function CountFlags(c: Chokes, info: PeerInfo): Chokes {
    if c.initialized then
      Chokes(true, info.remoteChoked, info.localChoked,
             c.choked + Edge(c.remote, info.remoteChoked), c.unchoked + Edge(!c.remote, !info.remoteChoked),
             c.weChoked + Edge(c.local, info.localChoked), c.weUnchoked + Edge(!c.local, !info.localChoked))
    else
      c.(initialized := true, remote := info.remoteChoked, local := info.localChoked)
  }

  function StepChokes(c: Chokes, e: PeerEvent): Chokes {
    if e.Observed? then CountFlags(c, e.info) else c
  }

  /** The record after one more event. */
  function Apply(p: PeerState, e: PeerEvent): PeerState {
    PeerState(
      p.peerKey, p.endpointKey,
      StepTimes(p.times, p.live, e),
      StepLive(p.live, e),
      p.sawConnectAlert || e.Connected?,
      StepSnubbed(p.isSnubbed, e),
      StepCounters(p.counters, e),
      if e.Observed? then e.info.totalDownload else p.downloadBytes,
      if e.Observed? then e.info.totalUpload else p.uploadBytes,
      StepGaps(Sending, p.sent, p.times.connected, e),
      StepGaps(Receiving, p.received, p.times.connected, e),
      StepGaps(Uploading, p.uploaded, p.times.connected, e),
      StepInteractions(p.interactions, e),
      StepRequests(p.requests, p.live, e),
      StepUploads(p.uploads, p.live, e),
      StepBursts(p.bursts, e),
      StepActivity(p.activity, p.live, e),
      StepChokes(p.chokes, e))
  }

  // ----- What each event leaves as it is -----

  lemma SentApplied(p: PeerState, now: int, key: RequestKey)
    ensures Apply(p, Sent(now, key))
         == p.(times := MarkSeen(p.times, now), counters := StepCounters(p.counters, Sent(now, key)),
               sent := NoteGap(p.sent, p.times.connected, now), interactions := NoteInteraction(p.interactions, now),
               requests := StepRequests(p.requests, p.live, Sent(now, key)))
  {
    hide MarkSeen, NoteGap, NoteInteraction, StepRequests;
  }

  lemma RespondedApplied(p: PeerState, now: int, key: RequestKey)
    ensures Apply(p, Responded(now, key))
         == p.(times := MarkSeen(p.times, now), counters := StepCounters(p.counters, Responded(now, key)),
               interactions := NoteInteraction(p.interactions, now),
               requests := StepRequests(p.requests, p.live, Responded(now, key)))
  {
    hide MarkSeen, NoteGap, NoteInteraction, StepRequests;
  }

  lemma TimedOutApplied(p: PeerState, now: int, key: RequestKey)
    ensures Apply(p, TimedOut(now, key))
         == p.(times := MarkSeen(p.times, now), counters := StepCounters(p.counters, TimedOut(now, key)),
               interactions := NoteInteraction(p.interactions, now),
               requests := Sampled(p.requests.(outstanding := p.requests.outstanding - {key})))
  {
    hide MarkSeen, NoteGap, NoteInteraction, Sampled;
  }

  lemma DroppedApplied(p: PeerState, now: int, key: RequestKey)
    ensures Apply(p, Dropped(now, key))
         == p.(times := MarkSeen(p.times, now), counters := StepCounters(p.counters, Dropped(now, key)),
               interactions := NoteInteraction(p.interactions, now),
               requests := Sampled(p.requests.(outstanding := p.requests.outstanding - {key})))
  {
    hide MarkSeen, NoteGap, NoteInteraction, Sampled;
  }

  lemma DisconnectedApplied(p: PeerState, now: int)
    ensures Apply(p, Disconnected(now))
         == p.(times := MarkSeen(p.times, now).(disconnected := now), live := false,
               requests := Sampled(p.requests.(outstanding := map[])), uploads := p.uploads.(pending := map[]),
               bursts := FlushBurst(p.bursts), activity := AdvanceActivity(p.activity, now, false))
  {
    hide MarkSeen, Sampled, FlushBurst, AdvanceActivity;
  }

  lemma FinalizedApplied(p: PeerState, now: int)
    ensures Apply(p, Finalized(now)) ==
              if p.live then Apply(p.(bursts := FlushBurst(p.bursts)), Disconnected(now))
              else p.(bursts := FlushBurst(p.bursts),
                      activity := if p.activity.last.Some? then AdvanceActivity(p.activity, now, false) else p.activity)
  {
    hide MarkSeen, Sampled, AdvanceActivity;
  }

  lemma LostApplied(p: PeerState)
    ensures Apply(p, Lost)
         == p.(requests := Sampled(p.requests.(outstanding := map[])), uploads := p.uploads.(pending := map[]))
  {
    hide Sampled;
  }

  lemma RequestedApplied(p: PeerState, now: int, request: PeerRequest)
    ensures Apply(p, Requested(now, request))
         == p.(times := MarkSeen(p.times, now), counters := StepCounters(p.counters, Requested(now, request)),
               received := NoteGap(p.received, p.times.connected, now), interactions := NoteInteraction(p.interactions, now),
               uploads := StepUploads(p.uploads, p.live, Requested(now, request)), bursts := NoteBurst(p.bursts, now))
  {
    hide MarkSeen, NoteGap, NoteInteraction, StepUploads, NoteBurst;
  }

  lemma UploadedApplied(p: PeerState, now: int, key: RequestKey)
    ensures Apply(p, Uploaded(now, key))
         == p.(times := MarkSeen(p.times, now), counters := StepCounters(p.counters, Uploaded(now, key)),
               uploaded := NoteGap(p.uploaded, p.times.connected, now), interactions := NoteInteraction(p.interactions, now),
               uploads := StepUploads(p.uploads, p.live, Uploaded(now, key)))
  {
    hide MarkSeen, NoteGap, NoteInteraction, StepUploads;
  }

  lemma ObservedApplied(p: PeerState, now: int, info: PeerInfo, intervalMs: int)
    ensures Apply(p, Observed(now, info, intervalMs))
         == p.(times := MarkSeen(p.times, now), isSnubbed := info.snubbed,
               downloadBytes := info.totalDownload, uploadBytes := info.totalUpload,
               interactions := StepInteractions(p.interactions, Observed(now, info, intervalMs)),
               requests := p.requests.(depths := p.requests.depths + [MaxOf(|p.requests.outstanding|, info.downloadQueue) as real]),
               activity := StepActivity(p.activity, p.live, Observed(now, info, intervalMs)),
               chokes := CountFlags(p.chokes, info))
  {
    hide MarkSeen, StepInteractions, StepActivity, CountFlags, MaxOf;
  }

  lemma ConnectedApplied(p: PeerState, now: int)
    ensures Apply(p, Connected(now))
         == p.(times := StepTimes(p.times, p.live, Connected(now)), live := true, sawConnectAlert := true,
               activity := StepActivity(p.activity, p.live, Connected(now)))
  {
    hide StepTimes, StepActivity;
  }

  function GapsOf(p: PeerState, k: Pacing): Gaps {
    match k
    case Sending => p.sent
    case Receiving => p.received
    case Uploading => p.uploaded
  }

  /** The connected time that the summary reports (`connected_duration_ns`). */
  function ConnectedDuration(t: Times): int {
    var start := if t.connected != 0 then t.connected else t.firstSeen;
    var end := if t.disconnected != 0 then t.disconnected else t.lastSeen;
    if start == 0 || end <= start then 0 else end - start
  }

  // ----- Histories -----

  /** Where and when a record begins. */
  datatype Birth = Birth(peerKey: string, endpointKey: string, now: int)

  /** The record that a history leaves behind. */
  function Record(b: Birth, h: seq<PeerEvent>): PeerState {
    if |h| == 0 then NewPeer(b.peerKey, b.endpointKey, b.now)
    else Apply(Record(b, h[..|h| - 1]), h[|h| - 1])
  }

  // Each measurement of a record, one event further on.

  function Front(h: seq<PeerEvent>): seq<PeerEvent>
    requires |h| > 0
  {
    h[..|h| - 1]
  }

  function Last(h: seq<PeerEvent>): PeerEvent
    requires |h| > 0
  {
    h[|h| - 1]
  }

  lemma TimesAfter(b: Birth, h: seq<PeerEvent>)
    ensures |h| == 0 ==> Record(b, h).times == Times(b.now, b.now, b.now, 0)
    ensures |h| > 0 ==>
      Record(b, h).times == StepTimes(Record(b, Front(h)).times, Record(b, Front(h)).live, Last(h))
  {
    hide StepTimes;
  }

  lemma LiveAfter(b: Birth, h: seq<PeerEvent>)
    ensures |h| == 0 ==> Record(b, h).live
    ensures |h| > 0 ==> Record(b, h).live == StepLive(Record(b, Front(h)).live, Last(h))
  {
    hide StepLive;
  }

  lemma CountersAfter(b: Birth, h: seq<PeerEvent>)
    ensures |h| == 0 ==> Record(b, h).counters == Counters(0, 0, 0, 0, 0, 0, 0, 0, 0)
    ensures |h| > 0 ==> Record(b, h).counters == StepCounters(Record(b, Front(h)).counters, Last(h))
  {
    hide StepCounters;
  }

  lemma GapsAfter(b: Birth, h: seq<PeerEvent>, k: Pacing)
    ensures |h| == 0 ==> GapsOf(Record(b, h), k) == Gaps(None, None, [])
    ensures |h| > 0 ==>
      GapsOf(Record(b, h), k)
      == StepGaps(k, GapsOf(Record(b, Front(h)), k), Record(b, Front(h)).times.connected, Last(h))
  {
    hide StepGaps;
  }

  lemma InteractionsAfter(b: Birth, h: seq<PeerEvent>)
    ensures |h| == 0 ==> Record(b, h).interactions == Interactions(None, [])
    ensures |h| > 0 ==>
      Record(b, h).interactions == StepInteractions(Record(b, Front(h)).interactions, Last(h))
  {
    hide StepInteractions;
  }

  lemma RequestsAfter(b: Birth, h: seq<PeerEvent>)
    ensures |h| == 0 ==> Record(b, h).requests == Requests(map[], [], [])
    ensures |h| > 0 ==>
      Record(b, h).requests == StepRequests(Record(b, Front(h)).requests, Record(b, Front(h)).live, Last(h))
  {
    hide StepRequests;
  }

  lemma UploadsAfter(b: Birth, h: seq<PeerEvent>)
    ensures |h| == 0 ==> Record(b, h).uploads == Uploads(map[], [])
    ensures |h| > 0 ==>
      Record(b, h).uploads == StepUploads(Record(b, Front(h)).uploads, Record(b, Front(h)).live, Last(h))
  {
    hide StepUploads;
  }

  lemma BurstsAfter(b: Birth, h: seq<PeerEvent>)
    ensures |h| == 0 ==> Record(b, h).bursts == Bursts(false, 0, 0, 0, [], [], [])
    ensures |h| > 0 ==> Record(b, h).bursts == StepBursts(Record(b, Front(h)).bursts, Last(h))
  {
    hide StepBursts;
  }

  lemma ActivityAfter(b: Birth, h: seq<PeerEvent>)
    ensures |h| == 0 ==> Record(b, h).activity == Activity(Some(b.now), true, 0, 0)
    ensures |h| > 0 ==>
      Record(b, h).activity == StepActivity(Record(b, Front(h)).activity, Record(b, Front(h)).live, Last(h))
  {
    hide StepActivity;
  }

  lemma ChokesAfter(b: Birth, h: seq<PeerEvent>)
    ensures |h| == 0 ==> Record(b, h).chokes == Chokes(false, false, false, 0, 0, 0, 0)
    ensures |h| > 0 ==> Record(b, h).chokes == StepChokes(Record(b, Front(h)).chokes, Last(h))
  {
    hide StepChokes;
  }

  predicate Timed(e: PeerEvent) {
    !e.Lost? && !e.Credited?
  }

  /** The clock reading of the latest timed event. */
  function LastTime(start: int, h: seq<PeerEvent>): int {
    if |h| == 0 then start
    else if Timed(h[|h| - 1]) then h[|h| - 1].now
    else LastTime(start, h[..|h| - 1])
  }

  /** No event has closed the record yet. */
  predicate Open(h: seq<PeerEvent>) {
    forall i :: 0 <= i < |h| ==> !h[i].Disconnected? && !h[i].Finalized?
  }

  /** The histories a record can have: the clock never goes back, and a closed record only
      takes part in alert loss, piece credit and the final close. */
  ghost predicate WellFormed(start: int, h: seq<PeerEvent>) {
    |h| == 0 ||
    (var front, e := h[..|h| - 1], h[|h| - 1];
     && WellFormed(start, front)
     && (Timed(e) ==> LastTime(start, front) <= e.now)
     && (Open(front) || e.Lost? || e.Credited? || e.Finalized?))
  }
}
