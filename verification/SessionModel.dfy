/** The connection registry as a value, and what each alert or snapshot does to it
    (`SessionStats` of src/peer_stats.cpp, dispatched by `drain_alerts` of src/main.cpp). */
module SessionModel {
  import opened Wrappers
  import opened Keys
  import opened PeerModel

  datatype TorrentState =
    | QueuedForChecking | CheckingFiles | DownloadingMetadata | Downloading
    | Finished | Seeding | Allocating | CheckingResumeData

  predicate ImpliesNetworkPiece(state: TorrentState) {
    state.Downloading? || state.Finished? || state.Seeding?
  }

  /** What an alert about one peer reports. */
  datatype Action =
    | NothingMore
    | Snub | Unsnub
    | Send(key: RequestKey) | Respond(key: RequestKey) | TimeOut(key: RequestKey) | Drop(key: RequestKey)
    | Request(request: PeerRequest) | Upload(key: RequestKey)

  datatype Alert =
    | PeerConnect(endpoint: string, now: int)
    | PeerAlert(endpoint: string, now: int, action: Action)
    | PeerDisconnect(endpoint: string, now: int)
    | PeerSnapshot(endpoint: string, now: int, info: PeerInfo, intervalMs: int)
    | StateReported(state: TorrentState)
    | PieceFinished(piece: int)
    | AlertsDropped(typeBits: int)

  datatype Session = Session(
    startNs: int, endNs: int,
    successfulConnects: int, disconnects: int,
    alertLossDetected: bool, dropNotices: int, dropTypeBits: int,
    pieceCompletions: int, verificationCompletions: int, state: TorrentState,
    endpoints: set<string>, sequence: map<string, int>, live: map<string, string>,
    peers: map<string, PeerState>, lastPiece: map<int, string>)

  function NewSession(start: int): Session {
    Session(start, 0, 0, 0, false, 0, 0, 0, 0, CheckingResumeData, {}, map[], map[], map[], map[])
  }

  /** Every live key names a record, so that looking it up cannot fail. */
  ghost predicate Linked(s: Session) {
    forall ep :: ep in s.live ==> s.live[ep] in s.peers
  }

  /** Like `emplace`: a new record does not replace one that already has its key. */
  function Emplaced(peers: map<string, PeerState>, key: string, endpoint: string, now: int): (r: map<string, PeerState>)
    ensures r.Keys == peers.Keys + {key}
  {
    if key in peers then peers else peers[key := NewPeer(key, endpoint, now)]
  }

  /** Numbers a new connection of an endpoint and makes it the live one. */
  function Begin(s: Session, endpoint: string, now: int): Session {
    var n := (if endpoint in s.sequence then s.sequence[endpoint] else 0) + 1;
    var key := KeyFor(endpoint, n);
    s.(sequence := s.sequence[endpoint := n],
       live := s.live[endpoint := key],
       peers := Emplaced(s.peers, key, endpoint, now))
  }

  /** Finds or begins the live record of an endpoint. */
  function Ensure(s: Session, endpoint: string, now: int): (r: Session)
    requires Linked(s)
    ensures Linked(r) && endpoint in r.live && r.live[endpoint] in r.peers
  {
    var seen := s.(endpoints := s.endpoints + {endpoint});
    if endpoint in s.live then seen else Begin(seen, endpoint, now)
  }

  /** `std::to_string` of a sequence number; sequence numbers start at one. */
  function KeyFor(endpoint: string, n: int): string {
    Key(endpoint, if n >= 0 then n else 0)
  }

  function ActionEvents(now: int, action: Action): seq<PeerEvent> {
    match action
    case NothingMore => []
    case Snub => [Snubbed(now)]
    case Unsnub => [Unsnubbed(now)]
    case Send(key) => [Sent(now, key)]
    case Respond(key) => [Responded(now, key)]
    case TimeOut(key) => [TimedOut(now, key)]
    case Drop(key) => [Dropped(now, key)]
    case Request(request) => [Requested(now, request)]
    case Upload(key) => [Uploaded(now, key)]
  }

  predicate Addressed(a: Alert) {
    a.PeerConnect? || a.PeerAlert? || a.PeerDisconnect? || a.PeerSnapshot?
  }

  /** What an alert means for the record it is addressed to. */
  function EventsOf(a: Alert): seq<PeerEvent>
    requires Addressed(a)
  {
    match a
    case PeerConnect(_, now) => [Connected(now)]
    case PeerAlert(_, now, action) => [Seen(now)] + ActionEvents(now, action)
    case PeerDisconnect(_, now) => [Seen(now), Disconnected(now)]
    case PeerSnapshot(_, now, info, intervalMs) => [Observed(now, info, intervalMs)]
  }

  function Feed(p: PeerState, events: seq<PeerEvent>): PeerState {
    if |events| == 0 then p else Apply(Feed(p, events[..|events| - 1]), events[|events| - 1])
  }

  /** The registry after the addressed record has taken the alert in. */
  function Deliver(s: Session, a: Alert): (r: Session)
    requires Linked(s) && Addressed(a)
    ensures Linked(r)
  {
    var t := Ensure(s, a.endpoint, a.now);
    var key := t.live[a.endpoint];
    var peer := t.peers[key];
    var u := t.(peers := t.peers[key := Feed(peer, EventsOf(a))]);
    match a
    case PeerConnect(_, _) =>
      u.(successfulConnects := u.successfulConnects + if peer.sawConnectAlert then 0 else 1)
    case PeerDisconnect(_, _) =>
      u.(live := u.live - {peer.endpointKey}, disconnects := u.disconnects + 1)
    case PeerAlert(_, _, Respond(block)) => u.(lastPiece := u.lastPiece[block.piece := key])
    case _ => u
  }

  function ForAll(peers: map<string, PeerState>, e: PeerEvent): map<string, PeerState> {
    map key | key in peers :: Apply(peers[key], e)
  }

  function FinishPiece(s: Session, piece: int): Session {
    if !ImpliesNetworkPiece(s.state) then s.(verificationCompletions := s.verificationCompletions + 1)
    else
      var t := s.(pieceCompletions := s.pieceCompletions + 1);
      if piece in s.lastPiece && s.lastPiece[piece] in s.peers then
        t.(peers := s.peers[s.lastPiece[piece] := Apply(s.peers[s.lastPiece[piece]], Credited)])
      else t
  }

  function Step(s: Session, a: Alert): (r: Session)
    requires Linked(s)
    ensures Linked(r)
  {
    match a
    case StateReported(state) => s.(state := state)
    case PieceFinished(piece) => FinishPiece(s, piece)
    case AlertsDropped(typeBits) =>
      s.(alertLossDetected := true, dropNotices := s.dropNotices + 1,
         dropTypeBits := s.dropTypeBits + typeBits, lastPiece := map[], peers := ForAll(s.peers, Lost))
    case _ => Deliver(s, a)
  }

  /** The registry after a log of alerts and snapshots. */
  function Run(start: int, log: seq<Alert>): (s: Session)
    ensures Linked(s)
  {
    if |log| == 0 then NewSession(start) else Step(Run(start, log[..|log| - 1]), log[|log| - 1])
  }

  /** The end of the session closes every record. */
  function FinalizeSession(s: Session, end: int): Session {
    s.(endNs := end, peers := ForAll(s.peers, Finalized(end)))
  }

  // ----- What a log says, without the registry -----

  predicate To(a: Alert, ep: string) {
    Addressed(a) && a.endpoint == ep
  }

  /** How often the endpoint was disconnected. */
  function Disconnects(log: seq<Alert>, ep: string): nat {
    if |log| == 0 then 0
    else Disconnects(log[..|log| - 1], ep)
         + if log[|log| - 1].PeerDisconnect? && log[|log| - 1].endpoint == ep then 1 else 0
  }

  /** The last alert about the endpoint, if there is one, is not a disconnection. */
  predicate IsLive(log: seq<Alert>, ep: string) {
    |log| > 0 &&
    if To(log[|log| - 1], ep) then !log[|log| - 1].PeerDisconnect? else IsLive(log[..|log| - 1], ep)
  }

  /** How many connections the endpoint has had. */
  function Connections(log: seq<Alert>, ep: string): nat {
    Disconnects(log, ep) + if IsLive(log, ep) then 1 else 0
  }

  /** When the n-th connection of an endpoint was first heard of. */
  function BeganAt(log: seq<Alert>, ep: string, n: nat): int {
    if |log| == 0 then 0
    else if n <= Connections(log[..|log| - 1], ep) then BeganAt(log[..|log| - 1], ep, n)
    else if To(log[|log| - 1], ep) then log[|log| - 1].now
    else 0
  }

  function BirthOf(log: seq<Alert>, ep: string, n: nat): Birth {
    Birth(Key(ep, n), ep, BeganAt(log, ep, n))
  }

  function CurrentState(log: seq<Alert>): TorrentState {
    if |log| == 0 then CheckingResumeData
    else if log[|log| - 1].StateReported? then log[|log| - 1].state
    else CurrentState(log[..|log| - 1])
  }

  /** Which connection last answered with a block of the piece, since alerts were last lost. */
  function LastResponder(log: seq<Alert>, piece: int): Option<(string, nat)> {
    if |log| == 0 then None
    else
      var front, a := log[..|log| - 1], log[|log| - 1];
      if a.AlertsDropped? then None
      else if a.PeerAlert? && a.action.Respond? && a.action.key.piece == piece
      then Some((a.endpoint, Disconnects(front, a.endpoint) + 1))
      else LastResponder(front, piece)
  }

  /** Everything that concerns the n-th connection of an endpoint, in order. */
  function HistoryOf(log: seq<Alert>, ep: string, n: nat): seq<PeerEvent> {
    if |log| == 0 then []
    else
      var front, a := log[..|log| - 1], log[|log| - 1];
      HistoryOf(front, ep, n) + NewsFor(front, a, ep, n)
  }

  function NewsFor(front: seq<Alert>, a: Alert, ep: string, n: nat): seq<PeerEvent> {
    if To(a, ep) then (if n == Disconnects(front, ep) + 1 then EventsOf(a) else [])
    else if a.AlertsDropped? then (if 1 <= n <= Connections(front, ep) then [Lost] else [])
    else if a.PieceFinished? then
      (if ImpliesNetworkPiece(CurrentState(front)) && LastResponder(front, a.piece) == Some((ep, n)) then [Credited] else [])
    else []
  }

  /** The clock reading of the latest addressed alert. */
  function LogTime(start: int, log: seq<Alert>): int {
    if |log| == 0 then start
    else if Addressed(log[|log| - 1]) then log[|log| - 1].now
    else LogTime(start, log[..|log| - 1])
  }

  /** The clock never goes back. */
  ghost predicate Chronological(start: int, log: seq<Alert>) {
    |log| == 0 ||
    (var front, a := log[..|log| - 1], log[|log| - 1];
     Chronological(start, front) && (Addressed(a) ==> LogTime(start, front) <= a.now))
  }
}
