/** The four collections of the registry agree with each other, and every record is exactly what
    its own part of the log makes of it. */
module Registry {
  import opened Wrappers
  import opened Keys
  import opened PeerModel
  import opened SessionModel

  function EarlierAlerts(log: seq<Alert>): seq<Alert>
    requires |log| > 0
  {
    log[..|log| - 1]
  }

  function LastAlert(log: seq<Alert>): Alert
    requires |log| > 0
  {
    log[|log| - 1]
  }

  /** The n-th connection of an endpoint as its own history makes it. */
  function RecordAt(log: seq<Alert>, ep: string, n: nat): PeerState {
    Record(BirthOf(log, ep, n), HistoryOf(log, ep, n))
  }

  /** What the registry holds about one endpoint. */
  ghost predicate RegistryAt(s: Session, log: seq<Alert>, ep: string) {
    && (ep in s.endpoints <==> Connections(log, ep) > 0)
    && (ep in s.sequence <==> Connections(log, ep) > 0)
    && (ep in s.sequence ==> s.sequence[ep] == Connections(log, ep))
    && (ep in s.live <==> IsLive(log, ep))
    && (ep in s.live ==> s.live[ep] == Key(ep, Connections(log, ep)))
    && RecordsAt(s.peers, log, ep)
  }

  ghost predicate RecordsAt(peers: map<string, PeerState>, log: seq<Alert>, ep: string) {
    forall n: nat {:trigger Key(ep, n)} ::
      && (Key(ep, n) in peers <==> 1 <= n <= Connections(log, ep))
      && (Key(ep, n) in peers ==> peers[Key(ep, n)] == RecordAt(log, ep, n))
  }

  // ----- Feeding a record -----

  lemma {:induction false} RecordOfConcat(b: Birth, h: seq<PeerEvent>, events: seq<PeerEvent>)
    ensures Record(b, h + events) == Feed(Record(b, h), events)
  {
    hide Apply;
    if |events| == 0 {
      assert h + events == h;
    } else {
      var front := events[..|events| - 1];
      RecordOfConcat(b, h, front);
      assert (h + events)[..|h + events| - 1] == h + front;
    }
  }

  lemma {:induction false} RecordKeepsNames(b: Birth, h: seq<PeerEvent>)
    ensures Record(b, h).peerKey == b.peerKey && Record(b, h).endpointKey == b.endpointKey
  {
    if |h| > 0 {
      RecordKeepsNames(b, h[..|h| - 1]);
    }
  }

  // ----- One delivery -----

  /** The record an alert is addressed to, before it takes the alert in. */
  function Addressee(s: Session, a: Alert): PeerState
    requires Linked(s) && Addressed(a)
  {
    if a.endpoint in s.live then s.peers[s.live[a.endpoint]]
    else NewPeer(AddresseeKey(s, a), a.endpoint, a.now)
  }

  function AddresseeKey(s: Session, a: Alert): string
    requires Addressed(a)
  {
    if a.endpoint in s.live then s.live[a.endpoint]
    else KeyFor(a.endpoint, (if a.endpoint in s.sequence then s.sequence[a.endpoint] else 0) + 1)
  }

  /** An alert that begins a connection finds its key free, and one that does not finds the
      endpoint's own record. */
  ghost predicate Deliverable(s: Session, a: Alert)
    requires Linked(s) && Addressed(a)
  {
    && (a.endpoint !in s.live ==> AddresseeKey(s, a) !in s.peers)
    && Addressee(s, a).endpointKey == a.endpoint
  }

  lemma EnsureEffect(s: Session, a: Alert)
    requires Linked(s) && Addressed(a) && Deliverable(s, a)
    ensures var t := Ensure(s, a.endpoint, a.now);
            t == s.(endpoints := s.endpoints + {a.endpoint},
                    sequence := t.sequence,
                    live := s.live[a.endpoint := AddresseeKey(s, a)],
                    peers := s.peers[AddresseeKey(s, a) := Addressee(s, a)])
    ensures Ensure(s, a.endpoint, a.now).sequence == SequenceAfter(s, a)
  {
    hide NewPeer, KeyFor;
    if a.endpoint in s.live {
      assert s.live[a.endpoint := s.live[a.endpoint]] == s.live;
      assert s.peers[s.live[a.endpoint] := s.peers[s.live[a.endpoint]]] == s.peers;
    }
  }

  function SequenceAfter(s: Session, a: Alert): map<string, int>
    requires Addressed(a)
  {
    if a.endpoint in s.live then s.sequence
    else s.sequence[a.endpoint := (if a.endpoint in s.sequence then s.sequence[a.endpoint] else 0) + 1]
  }

  /** What a delivery does to the records and to the three other collections. */
  lemma DeliverRecords(s: Session, a: Alert)
    requires Linked(s) && Addressed(a) && Deliverable(s, a)
    ensures var r, key := Deliver(s, a), AddresseeKey(s, a);
            && r.peers == s.peers[key := Feed(Addressee(s, a), EventsOf(a))]
            && r.live == (if a.PeerDisconnect? then s.live - {a.endpoint} else s.live[a.endpoint := key])
            && r.endpoints == s.endpoints + {a.endpoint}
            && r.sequence == SequenceAfter(s, a)
  {
    EnsureEffect(s, a);
    hide Feed, EventsOf, Ensure, Addressee, AddresseeKey, SequenceAfter;
    var key, peer := AddresseeKey(s, a), Addressee(s, a);
    UpdateTwice(s.peers, key, peer, Feed(peer, EventsOf(a)));
    UpdateTwice(s.live, a.endpoint, key, key);
  }

  lemma UpdateTwice<K, V>(m: map<K, V>, k: K, v: V, w: V)
    ensures m[k := v][k := w] == m[k := w] && m[k := v] - {k} == m - {k}
  {
  }

  /** What a delivery does to the counters and the piece table. */
  lemma DeliverCounts(s: Session, a: Alert)
    requires Linked(s) && Addressed(a) && Deliverable(s, a)
    ensures var r, key := Deliver(s, a), AddresseeKey(s, a);
            && r.disconnects == s.disconnects + (if a.PeerDisconnect? then 1 else 0)
            && r.successfulConnects
               == s.successfulConnects + (if a.PeerConnect? && !Addressee(s, a).sawConnectAlert then 1 else 0)
            && r.lastPiece == (if a.PeerAlert? && a.action.Respond? then s.lastPiece[a.action.key.piece := key] else s.lastPiece)
            && r.pieceCompletions == s.pieceCompletions && r.verificationCompletions == s.verificationCompletions
            && r.state == s.state && r.startNs == s.startNs
  {
    EnsureEffect(s, a);
    hide Feed, EventsOf, Ensure, Addressee, AddresseeKey, SequenceAfter;
  }

  // ----- What a log says -----

  lemma ConnectionsStep(log: seq<Alert>, ep: string)
    requires |log| > 0
    ensures Connections(EarlierAlerts(log), ep) <= Connections(log, ep)
    ensures To(LastAlert(log), ep) ==> Connections(log, ep) == Disconnects(EarlierAlerts(log), ep) + 1
    ensures !To(LastAlert(log), ep) ==>
      Connections(log, ep) == Connections(EarlierAlerts(log), ep) && (IsLive(log, ep) <==> IsLive(EarlierAlerts(log), ep))
  {
  }

  lemma {:induction false} ResponderExists(log: seq<Alert>, piece: int)
    requires LastResponder(log, piece).Some?
    ensures var (ep, n) := LastResponder(log, piece).value; 1 <= n <= Connections(log, ep)
  {
    var front, a := EarlierAlerts(log), LastAlert(log);
    var (ep, n) := LastResponder(log, piece).value;
    ConnectionsStep(log, ep);
    if !(a.PeerAlert? && a.action.Respond? && a.action.key.piece == piece) {
      ResponderExists(front, piece);
    }
  }

  /** Nothing concerns a connection that has not begun. */
  lemma {:induction false} NoHistoryYet(log: seq<Alert>, ep: string, n: nat)
    requires n == 0 || n > Connections(log, ep)
    ensures HistoryOf(log, ep, n) == []
  {
    if |log| > 0 {
      var front, a := EarlierAlerts(log), LastAlert(log);
      ConnectionsStep(log, ep);
      NoHistoryYet(front, ep, n);
      if a.PieceFinished? && LastResponder(front, a.piece) == Some((ep, n)) {
        ResponderExists(front, a.piece);
      }
    }
  }

  /** The record of a connection takes in what the next alert means for it. */
  lemma RecordStep(log: seq<Alert>, ep: string, n: nat)
    requires |log| > 0 && 1 <= n <= Connections(log, ep)
    ensures var front := EarlierAlerts(log); var news := NewsFor(front, LastAlert(log), ep, n);
            if n <= Connections(front, ep)
            then RecordAt(log, ep, n) == Feed(RecordAt(front, ep, n), news)
            else RecordAt(log, ep, n) == Feed(NewPeer(Key(ep, n), ep, LastAlert(log).now), EventsOf(LastAlert(log)))
  {
    var front := EarlierAlerts(log);
    ConnectionsStep(log, ep);
    hide Apply, NewsFor;
    RecordOfConcat(BirthOf(log, ep, n), HistoryOf(front, ep, n), NewsFor(front, LastAlert(log), ep, n));
    if n > Connections(front, ep) {
      NoHistoryYet(front, ep, n);
      NewsOfBeginning(front, LastAlert(log), ep, n);
    }
  }

  lemma NewsOfBeginning(front: seq<Alert>, a: Alert, ep: string, n: nat)
    requires To(a, ep) && n == Disconnects(front, ep) + 1
    ensures NewsFor(front, a, ep, n) == EventsOf(a)
  {
  }

  // ----- The registry follows the log -----

  lemma DeliverableFromRegistry(s: Session, log: seq<Alert>, a: Alert)
    requires Linked(s) && Addressed(a) && RegistryAt(s, log, a.endpoint)
    ensures Deliverable(s, a)
    ensures AddresseeKey(s, a) == Key(a.endpoint, Disconnects(log, a.endpoint) + 1)
  {
    hide Record, Decimal, Disconnects, IsLive, HistoryOf;
    var ep := a.endpoint;
    var c := Connections(log, ep);
    assert Key(ep, c) in s.peers <==> 1 <= c <= c;
    assert Key(ep, c + 1) in s.peers <==> 1 <= c + 1 <= c;
    if ep in s.live {
      RecordKeepsNames(BirthOf(log, ep, c), HistoryOf(log, ep, c));
    }
  }

  lemma DeliverHere(s: Session, log: seq<Alert>, ep: string)
    requires |log| > 0 && To(LastAlert(log), ep) && Linked(s) && RegistryAt(s, EarlierAlerts(log), ep)
    ensures RegistryAt(Deliver(s, LastAlert(log)), log, ep)
  {
    hide Deliver, Feed, EventsOf, RecordAt, HistoryOf, Key, RecordsAt, Deliverable;
    var front, a := EarlierAlerts(log), LastAlert(log);
    DeliverableFromRegistry(s, front, a);
    DeliverRecords(s, a);
    ConnectionsStep(log, ep);
    RecordsHere(s, log, ep);
  }

  lemma RecordsHere(s: Session, log: seq<Alert>, ep: string)
    requires |log| > 0 && To(LastAlert(log), ep) && Linked(s) && RegistryAt(s, EarlierAlerts(log), ep)
    ensures RecordsAt(s.peers[AddresseeKey(s, LastAlert(log)) := Feed(Addressee(s, LastAlert(log)), EventsOf(LastAlert(log)))], log, ep)
  {
    hide Feed, EventsOf, RecordAt, HistoryOf, Key, NewPeer, Deliverable;
    var front, a := EarlierAlerts(log), LastAlert(log);
    var m := Disconnects(front, ep) + 1;
    DeliverableFromRegistry(s, front, a);
    ConnectionsStep(log, ep);
    var after := s.peers[AddresseeKey(s, a) := Feed(Addressee(s, a), EventsOf(a))];
    forall n: nat {:trigger Key(ep, n)}
      ensures Key(ep, n) in after <==> 1 <= n <= Connections(log, ep)
      ensures Key(ep, n) in after ==> after[Key(ep, n)] == RecordAt(log, ep, n)
    {
      assert Key(ep, n) in s.peers <==> 1 <= n <= Connections(front, ep);
      if Key(ep, n) == Key(ep, m) { KeyInjective(ep, n, ep, m); }
      if 1 <= n <= m {
        RecordStep(log, ep, n);
        if n < m {
          NothingFed(RecordAt(front, ep, n));
        } else {
          NewsOfBeginning(front, a, ep, n);
        }
      }
    }
  }

  lemma NothingFed(p: PeerState)
    ensures Feed(p, []) == p
  {
  }

  lemma DeliverElsewhere(s: Session, log: seq<Alert>, ep: string)
    requires |log| > 0 && Addressed(LastAlert(log)) && !To(LastAlert(log), ep)
    requires Linked(s) && RegistryAt(s, EarlierAlerts(log), ep) && RegistryAt(s, EarlierAlerts(log), LastAlert(log).endpoint)
    ensures RegistryAt(Deliver(s, LastAlert(log)), log, ep)
  {
    hide Deliver, Feed, EventsOf, RecordAt, HistoryOf, RegistryAt, RecordsAt, Addressee, Connections, IsLive, Deliverable;
    var front, a := EarlierAlerts(log), LastAlert(log);
    var m := Disconnects(front, a.endpoint) + 1;
    DeliverableFromRegistry(s, front, a);
    DeliverRecords(s, a);
    ConnectionsStep(log, ep);
    var r := Deliver(s, a);
    RecordsOf(s, front, ep);
    OtherRecordsKept(s.peers, r.peers, log, ep, a.endpoint, m);
    RegistryParts(s, r, log, ep);
  }

  lemma RecordsOf(s: Session, log: seq<Alert>, ep: string)
    requires RegistryAt(s, log, ep)
    ensures RecordsAt(s.peers, log, ep)
  {
  }

  lemma RegistryParts(s: Session, r: Session, log: seq<Alert>, ep: string)
    requires |log| > 0 && RegistryAt(s, EarlierAlerts(log), ep) && RecordsAt(r.peers, log, ep)
    requires Connections(log, ep) == Connections(EarlierAlerts(log), ep) && (IsLive(log, ep) <==> IsLive(EarlierAlerts(log), ep))
    requires (ep in r.endpoints <==> ep in s.endpoints)
    requires (ep in r.sequence <==> ep in s.sequence) && (ep in s.sequence ==> r.sequence[ep] == s.sequence[ep])
    requires (ep in r.live <==> ep in s.live) && (ep in s.live ==> r.live[ep] == s.live[ep])
    ensures RegistryAt(r, log, ep)
  {
  }

  lemma OtherRecordsKept(before: map<string, PeerState>, after: map<string, PeerState>,
                         log: seq<Alert>, ep: string, other: string, m: nat)
    requires |log| > 0 && Addressed(LastAlert(log)) && LastAlert(log).endpoint == other && ep != other
    requires RecordsAt(before, EarlierAlerts(log), ep)
    requires forall k :: k != Key(other, m) ==> (k in after <==> k in before) && (k in before ==> after[k] == before[k])
    ensures RecordsAt(after, log, ep)
  {
    var front := EarlierAlerts(log);
    ConnectionsStep(log, ep);
    forall n: nat {:trigger Key(ep, n)}
      ensures Key(ep, n) in after <==> 1 <= n <= Connections(log, ep)
      ensures Key(ep, n) in after ==> after[Key(ep, n)] == RecordAt(log, ep, n)
    {
      hide RecordAt, Feed;
      if Key(ep, n) == Key(other, m) { KeyInjective(ep, n, other, m); }
      if 1 <= n <= Connections(front, ep) {
        RecordStep(log, ep, n);
        NothingFed(RecordAt(front, ep, n));
      }
    }
  }

  lemma BroadcastLoss(s: Session, log: seq<Alert>, ep: string)
    requires |log| > 0 && LastAlert(log).AlertsDropped? && Linked(s) && RegistryAt(s, EarlierAlerts(log), ep)
    ensures RegistryAt(Step(s, LastAlert(log)), log, ep)
  {
    var front, r := EarlierAlerts(log), Step(s, LastAlert(log));
    ConnectionsStep(log, ep);
    forall n: nat {:trigger Key(ep, n)}
      ensures Key(ep, n) in r.peers <==> 1 <= n <= Connections(log, ep)
      ensures Key(ep, n) in r.peers ==> r.peers[Key(ep, n)] == RecordAt(log, ep, n)
    {
      hide RecordAt, Apply;
      if 1 <= n <= Connections(front, ep) {
        RecordStep(log, ep, n);
        OneFed(RecordAt(front, ep, n), Lost);
      }
    }
  }

  lemma OneFed(p: PeerState, e: PeerEvent)
    ensures Feed(p, [e]) == Apply(p, e)
  {
    hide Apply;
    assert [e][..|[e]| - 1] == [];
  }

  lemma TwoFed(p: PeerState, d: PeerEvent, e: PeerEvent)
    ensures Feed(p, [d, e]) == Apply(Apply(p, d), e)
  {
    hide Apply;
    assert [d, e][..1] == [d];
    OneFed(p, d);
  }

  /** What a finished piece does to the record of one connection. */
  lemma CreditRecord(log: seq<Alert>, ep: string, n: nat)
    requires |log| > 0 && LastAlert(log).PieceFinished? && 1 <= n <= Connections(EarlierAlerts(log), ep)
    ensures n <= Connections(log, ep)
    ensures var front, before := EarlierAlerts(log), RecordAt(EarlierAlerts(log), ep, n);
            RecordAt(log, ep, n) ==
              if ImpliesNetworkPiece(CurrentState(front)) && LastResponder(front, LastAlert(log).piece) == Some((ep, n))
              then Apply(before, Credited) else before
  {
    ConnectionsStep(log, ep);
    RecordStep(log, ep, n);
    NothingFed(RecordAt(EarlierAlerts(log), ep, n));
    OneFed(RecordAt(EarlierAlerts(log), ep, n), Credited);
    hide RecordAt, Apply, Feed, LastResponder, CurrentState;
  }

  lemma CreditOne(s: Session, log: seq<Alert>, ep: string)
    requires |log| > 0 && LastAlert(log).PieceFinished? && Linked(s) && RegistryAt(s, EarlierAlerts(log), ep)
    requires s.state == CurrentState(EarlierAlerts(log))
    requires PieceAt(s, EarlierAlerts(log), LastAlert(log).piece)
    ensures RegistryAt(Step(s, LastAlert(log)), log, ep)
  {
    var front, piece := EarlierAlerts(log), LastAlert(log).piece;
    var r := Step(s, LastAlert(log));
    ConnectionsStep(log, ep);
    var responder := LastResponder(front, piece);
    forall n: nat {:trigger Key(ep, n)}
      ensures Key(ep, n) in r.peers <==> 1 <= n <= Connections(log, ep)
      ensures Key(ep, n) in r.peers ==> r.peers[Key(ep, n)] == RecordAt(log, ep, n)
    {
      hide RecordAt, Apply, LastResponder, CurrentState;
      if responder.Some? && Key(ep, n) == Key(responder.value.0, responder.value.1) {
        KeyInjective(ep, n, responder.value.0, responder.value.1);
      }
      if 1 <= n <= Connections(front, ep) {
        CreditRecord(log, ep, n);
      }
    }
    hide RecordAt, LastResponder, CurrentState, Connections, IsLive;
    RegistryParts(s, r, log, ep);
  }

  /** The piece table names the connection that last answered with a block of the piece. */
  ghost predicate PieceAt(s: Session, log: seq<Alert>, piece: int) {
    match LastResponder(log, piece)
    case None => piece !in s.lastPiece
    case Some((ep, n)) => piece in s.lastPiece && s.lastPiece[piece] == Key(ep, n) && Key(ep, n) in s.peers
  }

  lemma {:induction false} StateFollowsLog(start: int, log: seq<Alert>)
    ensures Run(start, log).state == CurrentState(log)
  {
    hide Feed, EventsOf, Apply, NewPeer;
    if |log| > 0 {
      StateFollowsLog(start, EarlierAlerts(log));
    }
  }

  /** For every log, endpoint and piece: the collections hold exactly what the log says, and every
      record is the one its own history makes. */
  lemma {:induction false} RegistryFollowsLog(start: int, log: seq<Alert>, ep: string, piece: int)
    ensures RegistryAt(Run(start, log), log, ep)
    ensures PieceAt(Run(start, log), log, piece)
  {
    hide RegistryAt, Step;
    if |log| == 0 {
      EmptyRegistry(start, ep);
    } else {
      var front, a := EarlierAlerts(log), LastAlert(log);
      var s := Run(start, front);
      RegistryFollowsLog(start, front, ep, piece);
      StateFollowsLog(start, front);
      if Addressed(a) {
        RegistryFollowsLog(start, front, a.endpoint, piece);
        StepIsDeliver(s, a);
        if To(a, ep) { DeliverHere(s, log, ep); } else { DeliverElsewhere(s, log, ep); }
        PieceAfterDelivery(s, log, piece);
      } else {
        if a.PieceFinished? { RegistryFollowsLog(start, front, ep, a.piece); }
        NotAddressed(s, log, ep, piece);
      }
    }
  }

  lemma EmptyRegistry(start: int, ep: string)
    ensures RegistryAt(NewSession(start), [], ep)
  {
  }

  lemma StepIsDeliver(s: Session, a: Alert)
    requires Linked(s) && Addressed(a)
    ensures Step(s, a) == Deliver(s, a)
  {
    hide Deliver;
  }

  lemma PieceAfterDelivery(s: Session, log: seq<Alert>, piece: int)
    requires |log| > 0 && Addressed(LastAlert(log)) && Linked(s)
    requires RegistryAt(s, EarlierAlerts(log), LastAlert(log).endpoint) && PieceAt(s, EarlierAlerts(log), piece)
    ensures PieceAt(Deliver(s, LastAlert(log)), log, piece)
  {
    hide Deliver, Feed, RegistryAt, Addressee, Deliverable, EventsOf, Key;
    DeliverableFromRegistry(s, EarlierAlerts(log), LastAlert(log));
    DeliverRecords(s, LastAlert(log));
    DeliverCounts(s, LastAlert(log));
  }

  lemma NotAddressed(s: Session, log: seq<Alert>, ep: string, piece: int)
    requires |log| > 0 && !Addressed(LastAlert(log)) && Linked(s)
    requires RegistryAt(s, EarlierAlerts(log), ep) && PieceAt(s, EarlierAlerts(log), piece)
    requires s.state == CurrentState(EarlierAlerts(log))
    requires LastAlert(log).PieceFinished? ==> PieceAt(s, EarlierAlerts(log), LastAlert(log).piece)
    ensures RegistryAt(Step(s, LastAlert(log)), log, ep) && PieceAt(Step(s, LastAlert(log)), log, piece)
  {
    var a := LastAlert(log);
    if a.AlertsDropped? {
      BroadcastLoss(s, log, ep);
    } else if a.PieceFinished? {
      CreditOne(s, log, ep);
    } else {
      NothingNew(s, log, ep);
    }
    hide RegistryAt, Apply;
  }

  lemma NothingNew(s: Session, log: seq<Alert>, ep: string)
    requires |log| > 0 && LastAlert(log).StateReported? && Linked(s) && RegistryAt(s, EarlierAlerts(log), ep)
    ensures RegistryAt(Step(s, LastAlert(log)), log, ep)
  {
    var front := EarlierAlerts(log);
    ConnectionsStep(log, ep);
    forall n: nat {:trigger Key(ep, n)} | 1 <= n <= Connections(front, ep)
      ensures RecordAt(log, ep, n) == RecordAt(front, ep, n)
    {
      RecordStep(log, ep, n);
      NothingFed(RecordAt(front, ep, n));
      hide RecordAt;
    }
    hide RecordAt;
  }
}
