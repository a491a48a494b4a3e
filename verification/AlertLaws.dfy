/** What the records of a session say, read straight from the alerts that were drained
    (`drain_alerts` of src/main.cpp), without the events and handlers in between. */
module AlertLaws {
  import opened Wrappers
  import opened Keys
  import opened PeerModel
  import opened PeerTimes
  import opened PeerRequests
  import opened SessionModel
  import opened Registry
  import opened Accounting

  /** The alert is about the n-th connection of the endpoint, which has been disconnected n - 1 times. */
  predicate Concerns(front: seq<Alert>, a: Alert, ep: string, n: nat) {
    && (a.PeerConnect? || a.PeerAlert? || a.PeerDisconnect? || a.PeerSnapshot?)
    && a.endpoint == ep && n == Disconnects(front, ep) + 1
  }

  // ----- One step of a record -----

  /** What a record was before the latest alert: a new one if that alert began the connection. */
  function RecordBefore(log: seq<Alert>, ep: string, n: nat): PeerState
    requires |log| > 0 && (Addressed(LastAlert(log)) || n <= Connections(EarlierAlerts(log), ep))
  {
    if n <= Connections(EarlierAlerts(log), ep) then RecordAt(EarlierAlerts(log), ep, n)
    else NewPeer(Key(ep, n), ep, LastAlert(log).now)
  }

  lemma RecordAfterAlert(log: seq<Alert>, ep: string, n: nat)
    requires |log| > 0 && 1 <= n <= Connections(log, ep)
    ensures var front, a := EarlierAlerts(log), LastAlert(log);
            && (Addressed(a) || n <= Connections(front, ep))
            && (n > Connections(front, ep) ==> Concerns(front, a, ep, n))
            && var before := RecordBefore(log, ep, n);
               RecordAt(log, ep, n) ==
                 if Concerns(front, a, ep, n) then Feed(before, EventsOf(a))
                 else if a.AlertsDropped? then Apply(before, Lost)
                 else if a.PieceFinished? && ImpliesNetworkPiece(CurrentState(front)) && LastResponder(front, a.piece) == Some((ep, n))
                 then Apply(before, Credited)
                 else before
  {
    hide *;
    if n <= Connections(EarlierAlerts(log), ep) {
      OldRecordAfterAlert(log, ep, n);
    } else {
      NewRecordAfterAlert(log, ep, n);
    }
    BeforeIs(log, ep, n);
  }

  lemma BeforeIs(log: seq<Alert>, ep: string, n: nat)
    requires |log| > 0 && (Addressed(LastAlert(log)) || n <= Connections(EarlierAlerts(log), ep))
    ensures RecordBefore(log, ep, n)
         == if n <= Connections(EarlierAlerts(log), ep) then RecordAt(EarlierAlerts(log), ep, n)
            else NewPeer(Key(ep, n), ep, LastAlert(log).now)
  {
    hide RecordAt, NewPeer, Connections, Key;
  }

  lemma NewRecordAfterAlert(log: seq<Alert>, ep: string, n: nat)
    requires |log| > 0 && Connections(EarlierAlerts(log), ep) < n <= Connections(log, ep)
    ensures Concerns(EarlierAlerts(log), LastAlert(log), ep, n) && Addressed(LastAlert(log))
    ensures RecordAt(log, ep, n) == Feed(NewPeer(Key(ep, n), ep, LastAlert(log).now), EventsOf(LastAlert(log)))
  {
    ConnectionsStep(log, ep);
    RecordStep(log, ep, n);
    hide RecordAt, Feed, EventsOf, NewPeer, Key, NewsFor;
  }

  lemma OldRecordAfterAlert(log: seq<Alert>, ep: string, n: nat)
    requires |log| > 0 && 1 <= n <= Connections(EarlierAlerts(log), ep)
    ensures n <= Connections(log, ep)
    ensures Concerns(EarlierAlerts(log), LastAlert(log), ep, n) ==> Addressed(LastAlert(log))
    ensures var front, a := EarlierAlerts(log), LastAlert(log);
            var before := RecordAt(front, ep, n);
            RecordAt(log, ep, n) ==
              if Concerns(front, a, ep, n) then Feed(before, EventsOf(a))
              else if a.AlertsDropped? then Apply(before, Lost)
              else if a.PieceFinished? && ImpliesNetworkPiece(CurrentState(front)) && LastResponder(front, a.piece) == Some((ep, n))
              then Apply(before, Credited)
              else before
  {
    ConnectionsStep(log, ep);
    RecordStep(log, ep, n);
    var before := RecordAt(EarlierAlerts(log), ep, n);
    NewsCases(EarlierAlerts(log), LastAlert(log), ep, n);
    NothingFed(before);
    OneFed(before, Lost);
    OneFed(before, Credited);
    hide RecordAt, Feed, Apply, EventsOf, LastResponder, CurrentState, NewPeer, NewsFor, Connections, ImpliesNetworkPiece, Disconnects;
  }

  lemma NewsCases(front: seq<Alert>, a: Alert, ep: string, n: nat)
    requires 1 <= n <= Connections(front, ep)
    ensures NewsFor(front, a, ep, n) ==
              if Concerns(front, a, ep, n) then EventsOf(a)
              else if a.AlertsDropped? then [Lost]
              else if a.PieceFinished? && ImpliesNetworkPiece(CurrentState(front)) && LastResponder(front, a.piece) == Some((ep, n))
              then [Credited]
              else []
  {
    hide EventsOf, LastResponder, CurrentState, Connections, Disconnects, ImpliesNetworkPiece;
  }

  /** The events of an alert, taken in one after the other. */
  function Heard(p: PeerState, a: Alert): PeerState
    requires Addressed(a)
  {
    match a
    case PeerConnect(_, now) => Apply(p, Connected(now))
    case PeerDisconnect(_, now) => Apply(Apply(p, Seen(now)), Disconnected(now))
    case PeerSnapshot(_, now, info, intervalMs) => Apply(p, Observed(now, info, intervalMs))
    case PeerAlert(_, now, action) =>
      if action.NothingMore? then Apply(p, Seen(now)) else Apply(Apply(p, Seen(now)), ActionEvents(now, action)[0])
  }

  lemma AlertFed(p: PeerState, a: Alert)
    requires Addressed(a)
    ensures Feed(p, EventsOf(a)) == Heard(p, a)
  {
    hide Apply, Feed;
    var events := EventsOf(a);
    if |events| == 1 {
      assert events == [events[0]];
      OneFed(p, events[0]);
    } else {
      assert events == [events[0], events[1]];
      TwoFed(p, events[0], events[1]);
    }
  }

  // ----- Counting alerts -----

  datatype Report = Sendings | Answers | TimeOuts | Drops | Receipts | Deliveries | Snubs | Unsnubs

  predicate Reports(a: Alert, k: Report) {
    a.PeerAlert? &&
    match k
    case Sendings => a.action.Send?
    case Answers => a.action.Respond?
    case TimeOuts => a.action.TimeOut?
    case Drops => a.action.Drop?
    case Receipts => a.action.Request?
    case Deliveries => a.action.Upload?
    case Snubs => a.action.Snub?
    case Unsnubs => a.action.Unsnub?
  }

  /** How many alerts with such a report were about the n-th connection of the endpoint. */
  function CountAlerts(log: seq<Alert>, ep: string, n: nat, k: Report): nat {
    if |log| == 0 then 0
    else
      var front, a := log[..|log| - 1], log[|log| - 1];
      CountAlerts(front, ep, n, k) + if Concerns(front, a, ep, n) && Reports(a, k) then 1 else 0
  }

  lemma {:induction false} NoneCounted(log: seq<Alert>, ep: string, n: nat, k: Report)
    requires n > Connections(log, ep)
    ensures CountAlerts(log, ep, n, k) == 0
  {
    if |log| > 0 {
      ConnectionsStep(log, ep);
      NoneCounted(EarlierAlerts(log), ep, n, k);
    }
  }

  function CounterOf(c: Counters, k: Report): int {
    match k
    case Sendings => c.requestsSent
    case Answers => c.blockResponses
    case TimeOuts => c.timeouts
    case Drops => c.drops
    case Receipts => c.incomingRequests
    case Deliveries => c.blocksUploaded
    case Snubs => c.snubbed
    case Unsnubs => c.unsnubbed
  }

  lemma CountersApplied(p: PeerState, e: PeerEvent)
    ensures Apply(p, e).counters == StepCounters(p.counters, e)
  {
    hide StepCounters;
  }

  lemma ActionCounts(c: Counters, now: int, action: Action, k: Report)
    requires !action.NothingMore?
    ensures CounterOf(StepCounters(c, ActionEvents(now, action)[0]), k)
         == CounterOf(c, k) + if Reports(PeerAlert("", now, action), k) then 1 else 0
  {
  }

  lemma QuietEvent(c: Counters, e: PeerEvent)
    requires e.Seen? || e.Connected? || e.Disconnected? || e.Observed? || e.Lost?
    ensures StepCounters(c, e) == c
  {
  }

  lemma CreditCounts(c: Counters, k: Report)
    ensures CounterOf(StepCounters(c, Credited), k) == CounterOf(c, k)
  {
  }

  lemma QuietAlert(p: PeerState, a: Alert)
    requires Addressed(a) && !a.PeerAlert?
    ensures Heard(p, a).counters == p.counters
  {
    hide Apply, StepCounters;
    if a.PeerDisconnect? {
      CountersApplied(p, Seen(a.now));
      CountersApplied(Apply(p, Seen(a.now)), Disconnected(a.now));
      QuietEvent(p.counters, Seen(a.now));
      QuietEvent(p.counters, Disconnected(a.now));
    } else {
      var e := if a.PeerConnect? then Connected(a.now) else Observed(a.now, a.info, a.intervalMs);
      CountersApplied(p, e);
      QuietEvent(p.counters, e);
    }
  }

  lemma ActionHeard(p: PeerState, a: Alert, k: Report)
    requires a.PeerAlert?
    ensures CounterOf(Heard(p, a).counters, k) == CounterOf(p.counters, k) + if Reports(a, k) then 1 else 0
  {
    CountersApplied(p, Seen(a.now));
    QuietEvent(p.counters, Seen(a.now));
    if !a.action.NothingMore? {
      hide Apply, CounterOf, StepCounters, ActionEvents;
      CountersApplied(Apply(p, Seen(a.now)), ActionEvents(a.now, a.action)[0]);
      ActionCounts(p.counters, a.now, a.action, k);
    }
  }

  /** An alert raises the counter of what it reports by one, and no other. */
  lemma CounterHears(p: PeerState, a: Alert, k: Report)
    requires Addressed(a)
    ensures CounterOf(Feed(p, EventsOf(a)).counters, k) == CounterOf(p.counters, k) + if Reports(a, k) then 1 else 0
  {
    AlertFed(p, a);
    hide Feed, EventsOf, CounterOf, Heard;
    if a.PeerAlert? {
      ActionHeard(p, a, k);
    } else {
      QuietAlert(p, a);
    }
  }

  lemma {:induction false} CounterCountsAlerts(log: seq<Alert>, ep: string, n: nat, k: Report)
    requires 1 <= n <= Connections(log, ep)
    ensures CounterOf(RecordAt(log, ep, n).counters, k) == CountAlerts(log, ep, n, k)
  {
    var front, a := EarlierAlerts(log), LastAlert(log);
    RecordAfterAlert(log, ep, n);
    var before := RecordBefore(log, ep, n);
    BeforeCounts(log, ep, n, k);
    hide RecordAt, Feed, Apply, EventsOf, LastResponder, CurrentState, Connections, Disconnects, Reports, CounterOf, StepCounters, RecordBefore;
    if n <= Connections(front, ep) {
      CounterCountsAlerts(front, ep, n, k);
    }
    if Concerns(front, a, ep, n) {
      CounterHears(before, a, k);
    } else {
      CountersApplied(before, Lost);
      CountersApplied(before, Credited);
      QuietEvent(before.counters, Lost);
      CreditCounts(before.counters, k);
    }
  }

  lemma BeforeCounts(log: seq<Alert>, ep: string, n: nat, k: Report)
    requires |log| > 0 && 1 <= n <= Connections(log, ep)
    requires Addressed(LastAlert(log)) || n <= Connections(EarlierAlerts(log), ep)
    ensures n <= Connections(EarlierAlerts(log), ep) ==> RecordBefore(log, ep, n) == RecordAt(EarlierAlerts(log), ep, n)
    ensures n > Connections(EarlierAlerts(log), ep) ==>
              CountAlerts(EarlierAlerts(log), ep, n, k) == CounterOf(RecordBefore(log, ep, n).counters, k) == 0
  {
    if n > Connections(EarlierAlerts(log), ep) { NoneCounted(EarlierAlerts(log), ep, n, k); }
    hide RecordAt, CountAlerts, Connections;
  }

  /** For every log and connection each counter of its record is the number of alerts about the connection
      that report what it counts. */
  lemma CountersCountAlerts(start: int, log: seq<Alert>, ep: string, n: nat)
    requires 1 <= n <= Connections(log, ep)
    ensures Key(ep, n) in Run(start, log).peers
    ensures var c := Run(start, log).peers[Key(ep, n)].counters;
            && c.requestsSent == CountAlerts(log, ep, n, Sendings)
            && c.blockResponses == CountAlerts(log, ep, n, Answers)
            && c.timeouts == CountAlerts(log, ep, n, TimeOuts)
            && c.drops == CountAlerts(log, ep, n, Drops)
            && c.incomingRequests == CountAlerts(log, ep, n, Receipts)
            && c.blocksUploaded == CountAlerts(log, ep, n, Deliveries)
            && c.snubbed == CountAlerts(log, ep, n, Snubs)
            && c.unsnubbed == CountAlerts(log, ep, n, Unsnubs)
  {
    hide Run, RecordAt, CountAlerts, Connections;
    RecordHeld(start, log, ep, n);
    forall k ensures CounterOf(RecordAt(log, ep, n).counters, k) == CountAlerts(log, ep, n, k) {
      CounterCountsAlerts(log, ep, n, k);
    }
  }

  /** How many pieces finished, while the torrent was downloading, finished or seeding, that this connection had last
      answered for since the latest loss of alerts. */
  function CreditsTo(log: seq<Alert>, ep: string, n: nat): nat {
    if |log| == 0 then 0
    else
      var front, a := log[..|log| - 1], log[|log| - 1];
      CreditsTo(front, ep, n)
      + if a.PieceFinished? && CurrentState(front) in {Downloading, Finished, Seeding} && LastResponder(front, a.piece) == Some((ep, n))
        then 1 else 0
  }

  lemma {:induction false} NoCreditsYet(log: seq<Alert>, ep: string, n: nat)
    requires n > Connections(log, ep)
    ensures CreditsTo(log, ep, n) == 0
  {
    if |log| > 0 {
      var front, a := EarlierAlerts(log), LastAlert(log);
      ConnectionsStep(log, ep);
      NoCreditsYet(front, ep, n);
      if a.PieceFinished? && LastResponder(front, a.piece) == Some((ep, n)) { ResponderExists(front, a.piece); }
    }
  }

  lemma CreditedCounts(p: PeerState, a: Alert)
    requires Addressed(a)
    ensures Feed(p, EventsOf(a)).counters.piecesFinished == p.counters.piecesFinished
  {
    AlertFed(p, a);
    hide Feed, EventsOf, Apply, ActionEvents;
    if a.PeerAlert? {
      CountersApplied(p, Seen(a.now));
      if !a.action.NothingMore? {
        CountersApplied(Apply(p, Seen(a.now)), ActionEvents(a.now, a.action)[0]);
        ActionCreditsNothing(p.counters, a.now, a.action);
      }
    } else {
      QuietAlert(p, a);
    }
  }

  lemma ActionCreditsNothing(c: Counters, now: int, action: Action)
    requires !action.NothingMore?
    ensures StepCounters(c, ActionEvents(now, action)[0]).piecesFinished == c.piecesFinished
  {
  }

  lemma {:induction false} RecordIsCredited(log: seq<Alert>, ep: string, n: nat)
    requires 1 <= n <= Connections(log, ep)
    ensures RecordAt(log, ep, n).counters.piecesFinished == CreditsTo(log, ep, n)
  {
    var front, a := EarlierAlerts(log), LastAlert(log);
    RecordAfterAlert(log, ep, n);
    var before := RecordBefore(log, ep, n);
    if n > Connections(front, ep) { NoCreditsYet(front, ep, n); }
    hide RecordAt, Feed, Apply, EventsOf, LastResponder, CurrentState, Connections, Disconnects, StepCounters;
    if n <= Connections(front, ep) {
      RecordIsCredited(front, ep, n);
    }
    if Concerns(front, a, ep, n) {
      CreditedCounts(before, a);
    } else {
      CountersApplied(before, Lost);
      CountersApplied(before, Credited);
      QuietEvent(before.counters, Lost);
      OneMoreCredit(before.counters);
    }
  }

  lemma OneMoreCredit(c: Counters)
    ensures StepCounters(c, Credited).piecesFinished == c.piecesFinished + 1
  {
  }

  /** Every record is credited with exactly the pieces that it was the last to answer for. */
  lemma PiecesAreCreditedTo(start: int, log: seq<Alert>, ep: string, n: nat)
    requires 1 <= n <= Connections(log, ep)
    ensures Key(ep, n) in Run(start, log).peers
    ensures Run(start, log).peers[Key(ep, n)].counters.piecesFinished == CreditsTo(log, ep, n)
  {
    hide Run, RecordAt, CreditsTo, Connections;
    RecordHeld(start, log, ep, n);
    RecordIsCredited(log, ep, n);
  }

  lemma RecordHeld(start: int, log: seq<Alert>, ep: string, n: nat)
    requires 1 <= n <= Connections(log, ep)
    ensures Key(ep, n) in Run(start, log).peers && Run(start, log).peers[Key(ep, n)] == RecordAt(log, ep, n)
  {
    RegistryFollowsLog(start, log, ep, 0);
    hide Run, RecordAt, Connections;
    NumbersOf(Run(start, log).peers, log, ep, n);
  }

  // ----- What a record says about one request key, and of itself -----

  /** What the alerts about a connection say of it, and of requests for one key. */
  datatype Told = Told(
    waiting: Option<int>, queue: seq<int>, lastHeard: int,
    announced: bool, snubbed: bool, downloaded: int, uploaded: int)

  /** What one more alert about the connection says. */
  function Tell(t: Told, a: Alert, key: RequestKey): Told {
    match a
    case PeerConnect(_, now) => t.(lastHeard := now, announced := true)
    case PeerDisconnect(_, now) => t.(lastHeard := now, waiting := None, queue := [])
    case PeerSnapshot(_, now, info, _) =>
      t.(lastHeard := now, snubbed := info.snubbed, downloaded := info.totalDownload, uploaded := info.totalUpload)
    case PeerAlert(_, now, action) => TellAction(t.(lastHeard := now), now, action, key)
    case _ => t
  }

  function TellAction(t: Told, now: int, action: Action, key: RequestKey): Told {
    match action
    case NothingMore => t
    case Snub => t.(snubbed := true)
    case Unsnub => t.(snubbed := false)
    case Send(k) => if k == key then t.(waiting := Some(now)) else t
    case Respond(k) => if k == key then t.(waiting := None) else t
    case TimeOut(k) => if k == key then t.(waiting := None) else t
    case Drop(k) => if k == key then t.(waiting := None) else t
    case Request(request) =>
      if request.piece == key.piece && BlockIndex(request) == key.block then t.(queue := t.queue + [now]) else t
    case Upload(k) => if k == key && |t.queue| > 0 then t.(queue := t.queue[1..]) else t
  }

  /** What a log says of the n-th connection of an endpoint; a loss of alerts ends all waiting. */
  function ToldBy(log: seq<Alert>, ep: string, n: nat, key: RequestKey): Told {
    if |log| == 0 then Told(None, [], 0, false, false, 0, 0)
    else
      var front, a := log[..|log| - 1], log[|log| - 1];
      var t := ToldBy(front, ep, n, key);
      if Concerns(front, a, ep, n) then Tell(t, a, key)
      else if a.AlertsDropped? then t.(waiting := None, queue := [])
      else t
  }

  ghost predicate WaitHolds(outstanding: map<RequestKey, int>, waiting: Option<int>, key: RequestKey) {
    && (key in outstanding <==> waiting.Some?)
    && (waiting.Some? ==> outstanding[key] == waiting.value)
  }

  /** The record holds what was told. */
  ghost predicate Holds(p: PeerState, t: Told, key: RequestKey) {
    && WaitHolds(p.requests.outstanding, t.waiting, key)
    && QueueHolds(p.uploads.pending, key, t.queue)
    && p.sawConnectAlert == t.announced && p.isSnubbed == t.snubbed
    && p.downloadBytes == t.downloaded && p.uploadBytes == t.uploaded
  }

  lemma {:induction false} NothingTold(log: seq<Alert>, ep: string, n: nat, key: RequestKey)
    requires n > Connections(log, ep)
    ensures ToldBy(log, ep, n, key) == Told(None, [], 0, false, false, 0, 0)
  {
    if |log| > 0 {
      ConnectionsStep(log, ep);
      NothingTold(EarlierAlerts(log), ep, n, key);
    }
  }

  lemma SeenHolds(p: PeerState, t: Told, key: RequestKey, now: int)
    requires Holds(p, t, key)
    ensures Holds(Apply(p, Seen(now)), t.(lastHeard := now), key) && Apply(p, Seen(now)).times.lastSeen == now
  {
  }

  lemma ConnectedHolds(p: PeerState, t: Told, key: RequestKey, now: int)
    requires Holds(p, t, key)
    ensures Holds(Apply(p, Connected(now)), t.(lastHeard := now, announced := true), key)
    ensures Apply(p, Connected(now)).times.lastSeen == now
  {
    ConnectedApplied(p, now);
    hide Apply;
  }

  lemma ClearedHolds(p: PeerState, t: Told, key: RequestKey, now: int)
    requires Holds(p, t, key)
    ensures Holds(Apply(p, Disconnected(now)), t.(waiting := None, queue := []), key)
    ensures Apply(p, Disconnected(now)).times.lastSeen == now
    ensures Holds(Apply(p, Lost), t.(waiting := None, queue := []), key)
    ensures Apply(p, Lost).times == p.times
  {
    DisconnectedApplied(p, now);
    LostApplied(p);
    hide Apply, FlushBurst, AdvanceActivity;
  }

  lemma CreditHolds(p: PeerState, t: Told, key: RequestKey)
    requires Holds(p, t, key)
    ensures Holds(Apply(p, Credited), t, key) && Apply(p, Credited).times == p.times
  {
  }

  lemma SnapshotHolds(p: PeerState, t: Told, key: RequestKey, now: int, info: PeerInfo, intervalMs: int)
    requires Holds(p, t, key)
    ensures var q := Apply(p, Observed(now, info, intervalMs));
            && Holds(q, t.(lastHeard := now, snubbed := info.snubbed, downloaded := info.totalDownload, uploaded := info.totalUpload), key)
            && q.times.lastSeen == now
  {
    ObservedApplied(p, now, info, intervalMs);
    hide Apply, StepInteractions, StepActivity, CountFlags;
  }

  lemma ActionWaits(r: Requests, live: bool, t: Told, key: RequestKey, now: int, action: Action)
    requires WaitHolds(r.outstanding, t.waiting, key) && !action.NothingMore?
    ensures WaitHolds(StepRequests(r, live, ActionEvents(now, action)[0]).outstanding, TellAction(t, now, action, key).waiting, key)
  {
    var e := ActionEvents(now, action)[0];
    OutstandingStep(r, live, e, key);
    ActionSends(t, key, now, action);
    hide StepRequests, ActionEvents, TellAction, Sends, Ends;
  }

  lemma ActionSends(t: Told, key: RequestKey, now: int, action: Action)
    requires !action.NothingMore?
    ensures var e, u := ActionEvents(now, action)[0], TellAction(t, now, action, key);
            && (Sends(e, key) ==> e.now == now)
            && u.waiting == (if Sends(e, key) then Some(now) else if Ends(e, key) then None else t.waiting)
  {
    hide BlockIndex;
  }

  lemma ActionQueues(u: Uploads, live: bool, t: Told, key: RequestKey, now: int, action: Action)
    requires QueueHolds(u.pending, key, t.queue) && !action.NothingMore?
    ensures QueueHolds(StepUploads(u, live, ActionEvents(now, action)[0]).pending, key, TellAction(t, now, action, key).queue)
  {
    if action.Request? {
      QueueGrows(u.pending, key, KeyOf(action.request), now, t.queue);
      hide BlockIndex, QueueHolds;
    } else if action.Upload? {
      QueueServed(u, key, action.key, now, t.queue);
      hide QueueHolds;
    }
  }

  lemma ActionFlags(p: PeerState, t: Told, key: RequestKey, now: int, action: Action)
    requires p.isSnubbed == t.snubbed && !action.NothingMore?
    ensures var q, u := Apply(p, ActionEvents(now, action)[0]), TellAction(t, now, action, key);
            && q.times.lastSeen == now
            && q.sawConnectAlert == p.sawConnectAlert && u.announced == t.announced && q.isSnubbed == u.snubbed
            && q.downloadBytes == p.downloadBytes && u.downloaded == t.downloaded
            && q.uploadBytes == p.uploadBytes && u.uploaded == t.uploaded
  {
    hide StepCounters, StepGaps, StepInteractions, StepRequests, StepUploads, StepBursts, StepActivity, StepChokes;
  }

  lemma TablesApplied(p: PeerState, e: PeerEvent)
    ensures Apply(p, e).requests == StepRequests(p.requests, p.live, e)
    ensures Apply(p, e).uploads == StepUploads(p.uploads, p.live, e)
  {
    hide StepRequests, StepUploads;
  }

  lemma ActionHolds(p: PeerState, t: Told, key: RequestKey, now: int, action: Action)
    requires Holds(p, t, key) && !action.NothingMore?
    ensures var q := Apply(p, ActionEvents(now, action)[0]);
            Holds(q, TellAction(t, now, action, key), key) && q.times.lastSeen == now
  {
    TablesApplied(p, ActionEvents(now, action)[0]);
    ActionWaits(p.requests, p.live, t, key, now, action);
    ActionQueues(p.uploads, p.live, t, key, now, action);
    ActionFlags(p, t, key, now, action);
    hide Apply, StepRequests, StepUploads, ActionEvents, TellAction, WaitHolds, QueueHolds;
  }

  lemma AlertHolds(p: PeerState, t: Told, key: RequestKey, a: Alert)
    requires Holds(p, t, key) && Addressed(a)
    ensures Holds(Heard(p, a), Tell(t, a, key), key)
    ensures Heard(p, a).times.lastSeen == a.now
  {
    hide Apply, Holds, TellAction, ActionEvents;
    if a.PeerConnect? {
      ConnectedHolds(p, t, key, a.now);
    } else if a.PeerSnapshot? {
      SnapshotHolds(p, t, key, a.now, a.info, a.intervalMs);
    } else {
      SeenHolds(p, t, key, a.now);
      if a.PeerDisconnect? {
        ClearedHolds(Apply(p, Seen(a.now)), t.(lastHeard := a.now), key, a.now);
      } else {
        NothingMoreTold(t, key, a.now);
        if !a.action.NothingMore? {
          ActionHolds(Apply(p, Seen(a.now)), t.(lastHeard := a.now), key, a.now, a.action);
        }
      }
    }
  }

  lemma NothingMoreTold(t: Told, key: RequestKey, now: int)
    ensures TellAction(t.(lastHeard := now), now, NothingMore, key) == t.(lastHeard := now)
  {
  }

  lemma LastHeardIs(t: Told, key: RequestKey, a: Alert)
    requires Addressed(a)
    ensures Tell(t, a, key).lastHeard == a.now
  {
  }

  lemma {:induction false} RecordHoldsTold(log: seq<Alert>, ep: string, n: nat, key: RequestKey)
    requires 1 <= n <= Connections(log, ep)
    ensures Holds(RecordAt(log, ep, n), ToldBy(log, ep, n, key), key)
    ensures RecordAt(log, ep, n).times.lastSeen == ToldBy(log, ep, n, key).lastHeard
  {
    var front, a := EarlierAlerts(log), LastAlert(log);
    RecordAfterAlert(log, ep, n);
    var before, t := RecordBefore(log, ep, n), ToldBy(front, ep, n, key);
    BeforeTold(log, ep, n, key);
    hide RecordAt, Feed, Apply, EventsOf, LastResponder, CurrentState, Connections, Disconnects, Tell, Holds, Heard, RecordBefore;
    if n <= Connections(front, ep) {
      RecordHoldsTold(front, ep, n, key);
    }
    if Concerns(front, a, ep, n) {
      AlertFed(before, a);
      AlertHolds(before, t, key, a);
      LastHeardIs(t, key, a);
    } else if a.AlertsDropped? {
      ClearedHolds(before, t, key, 0);
    } else {
      CreditHolds(before, t, key);
    }
  }

  lemma BeforeTold(log: seq<Alert>, ep: string, n: nat, key: RequestKey)
    requires |log| > 0 && 1 <= n <= Connections(log, ep)
    requires Addressed(LastAlert(log)) || n <= Connections(EarlierAlerts(log), ep)
    ensures n <= Connections(EarlierAlerts(log), ep) ==> RecordBefore(log, ep, n) == RecordAt(EarlierAlerts(log), ep, n)
    ensures n > Connections(EarlierAlerts(log), ep) ==> Holds(RecordBefore(log, ep, n), ToldBy(EarlierAlerts(log), ep, n, key), key)
  {
    if n > Connections(EarlierAlerts(log), ep) { NothingTold(EarlierAlerts(log), ep, n, key); }
    hide RecordAt, ToldBy, Connections;
  }

  /** For every log, connection and request key: the record holds the request that waits for an answer, with the
      time it was sent, and the received requests that wait for their upload, with theirs; it was last seen at the
      latest alert about the connection, was announced and is snubbed as the alerts say, and has the byte totals
      of the latest snapshot. */
  lemma RecordsFollowAlerts(start: int, log: seq<Alert>, ep: string, n: nat, key: RequestKey)
    requires 1 <= n <= Connections(log, ep)
    ensures Key(ep, n) in Run(start, log).peers
    ensures var p, t := Run(start, log).peers[Key(ep, n)], ToldBy(log, ep, n, key);
            && (key in p.requests.outstanding <==> t.waiting.Some?)
            && (t.waiting.Some? ==> p.requests.outstanding[key] == t.waiting.value)
            && (key in p.uploads.pending <==> |t.queue| > 0)
            && (|t.queue| > 0 ==> p.uploads.pending[key] == t.queue)
            && p.times.lastSeen == t.lastHeard
            && p.sawConnectAlert == t.announced && p.isSnubbed == t.snubbed
            && p.downloadBytes == t.downloaded && p.uploadBytes == t.uploaded
  {
    hide Run, RecordAt, ToldBy, Connections;
    RecordHeld(start, log, ep, n);
    RecordHoldsTold(log, ep, n, key);
  }

  // ----- What a snapshot says -----

  lemma {:induction false} SnapshotIsLast(log: seq<Alert>, ep: string, n: nat)
    requires |log| > 0 && LastAlert(log).PeerSnapshot? && Concerns(EarlierAlerts(log), LastAlert(log), ep, n)
    ensures 1 <= n <= Connections(log, ep)
    ensures var h, a := HistoryOf(log, ep, n), LastAlert(log);
            && |h| > 0 && Last(h) == Observed(a.now, a.info, a.intervalMs)
            && Front(h) == HistoryOf(EarlierAlerts(log), ep, n)
  {
    ConnectionsStep(log, ep);
  }

  /** A snapshot reaches the live record of its endpoint: from then on the window is active exactly when it shows
      a speed, a queue, or activity within two of its intervals, the choke flags are its flags, and the window
      has moved to its time. */
  lemma SnapshotsAreFollowed(start: int, log: seq<Alert>, ep: string, n: nat)
    requires start > 0 && Chronological(start, log)
    requires |log| > 0 && LastAlert(log).PeerSnapshot? && Concerns(EarlierAlerts(log), LastAlert(log), ep, n)
    ensures Key(ep, n) in Run(start, log).peers
    ensures var p, info, intervalMs := Run(start, log).peers[Key(ep, n)], LastAlert(log).info, LastAlert(log).intervalMs;
            && p.activity.last == Some(LastAlert(log).now)
            && (p.activity.wasActive <==>
                  info.payloadDownSpeed > 0 || info.downSpeed > 0 || info.payloadUpSpeed > 0 || info.upSpeed > 0
                  || info.downloadQueue > 0 || info.uploadQueue > 0 || info.lastActiveMs <= 2 * intervalMs)
            && p.chokes.initialized && p.chokes.remote == info.remoteChoked && p.chokes.local == info.localChoked
  {
    SnapshotIsLast(log, ep, n);
    HistoryIsWellFormed(start, log, ep, n);
    var b, h := BirthOf(log, ep, n), HistoryOf(log, ep, n);
    hide Run, Record, HistoryOf, Connections, BeganAt, Chronological, WellFormed;
    RecordHeld(start, log, ep, n);
    SnapshotDecidesActivity(b, h);
    ChokesAfter(b, h);
  }

  // ----- Losses and pieces -----

  /** A loss of alerts reaches every record, the closed ones too: nothing waits any more, and a depth of zero is sampled. */
  lemma LossReachesEveryRecord(start: int, log: seq<Alert>, key: string)
    requires |log| > 0 && LastAlert(log).AlertsDropped? && key in Run(start, EarlierAlerts(log)).peers
    ensures key in Run(start, log).peers
    ensures var before, after := Run(start, EarlierAlerts(log)).peers[key], Run(start, log).peers[key];
            && after.requests.outstanding == map[] && after.uploads.pending == map[]
            && after.requests.depths == before.requests.depths + [0.0]
            && after.live == before.live && after.times == before.times
  {
    LostApplied(Run(start, EarlierAlerts(log)).peers[key]);
    hide Apply, Deliver;
  }

  function Losses(log: seq<Alert>): nat {
    if |log| == 0 then 0 else Losses(log[..|log| - 1]) + if log[|log| - 1].AlertsDropped? then 1 else 0
  }

  function LostBits(log: seq<Alert>): int {
    if |log| == 0 then 0
    else LostBits(log[..|log| - 1]) + if log[|log| - 1].AlertsDropped? then log[|log| - 1].typeBits else 0
  }

  /** Pieces finished while the torrent was downloading, finished or seeding. */
  function NetworkPieces(log: seq<Alert>): nat {
    if |log| == 0 then 0
    else
      var front, a := log[..|log| - 1], log[|log| - 1];
      NetworkPieces(front) + if a.PieceFinished? && CurrentState(front) in {Downloading, Finished, Seeding} then 1 else 0
  }

  /** Losses of alerts are counted and their types added up; a finished piece counts as a network completion
      exactly when the torrent was then downloading, finished or seeding, and as a verification otherwise. */
  lemma {:induction false} SessionCountsAlerts(start: int, log: seq<Alert>)
    ensures var s := Run(start, log);
            && s.dropNotices == Losses(log) && s.dropTypeBits == LostBits(log)
            && (s.alertLossDetected <==> Losses(log) > 0)
            && s.pieceCompletions == NetworkPieces(log)
            && s.verificationCompletions == PieceEvents(log) - NetworkPieces(log)
            && s.startNs == start && s.endNs == 0
  {
    hide Deliver, Apply, ForAll;
    if |log| > 0 {
      var front, a := EarlierAlerts(log), LastAlert(log);
      SessionCountsAlerts(start, front);
      StateFollowsLog(start, front);
      if Addressed(a) {
        StepIsDeliver(Run(start, front), a);
        DeliveryCountsNothing(Run(start, front), a);
      }
    }
  }

  lemma DeliveryCountsNothing(s: Session, a: Alert)
    requires Linked(s) && Addressed(a)
    ensures var r := Deliver(s, a);
            && r.dropNotices == s.dropNotices && r.dropTypeBits == s.dropTypeBits && r.alertLossDetected == s.alertLossDetected
            && r.pieceCompletions == s.pieceCompletions && r.verificationCompletions == s.verificationCompletions
            && r.startNs == s.startNs && r.endNs == s.endNs
  {
    EnsuringCountsNothing(s, a.endpoint, a.now);
    hide Feed, EventsOf, Ensure, Linked;
  }

  lemma EnsuringCountsNothing(s: Session, endpoint: string, now: int)
    requires Linked(s)
    ensures var r := Ensure(s, endpoint, now);
            && r.dropNotices == s.dropNotices && r.dropTypeBits == s.dropTypeBits && r.alertLossDetected == s.alertLossDetected
            && r.pieceCompletions == s.pieceCompletions && r.verificationCompletions == s.verificationCompletions
            && r.startNs == s.startNs && r.endNs == s.endNs
  {
    hide Emplaced, KeyFor;
  }
}
