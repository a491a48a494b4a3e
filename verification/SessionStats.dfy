/** `SessionStats` of src/peer_stats.cpp: the registry, updated in place, with the dispatch of
    `drain_alerts` and the final close. Records are objects that the registry owns. */
module SessionStatistics {
  import opened PeerModel
  import opened PeerStatistics
  import opened SessionModel
  import opened Registry

  class SessionStats {
    const startNs: int
    var endNs: int
    var successfulPeerConnects: int
    var disconnectCount: int
    var alertLossDetected: bool
    var alertsDroppedNotifications: int
    var alertsDroppedTypeBits: int
    var pieceCompletions: int
    var verificationPieceCompletions: int
    var latestTorrentState: TorrentState

    var uniquePeerEndpoints: set<string>
    var connectSequenceByEndpoint: map<string, int>
    var activePeerKeyByEndpoint: map<string, string>
    var peersByKey: map<string, PeerStats>
    var lastPiecePeerKey: map<int, string>

    /** Live keys name records, and records know their keys, so no two keys share one. */
    ghost predicate Valid()
      reads this`peersByKey, this`activePeerKeyByEndpoint
    {
      && (forall ep :: ep in activePeerKeyByEndpoint ==> activePeerKeyByEndpoint[ep] in peersByKey)
      && (forall k :: k in peersByKey ==> peersByKey[k].peerKey == k)
    }

    ghost function Records(): map<string, PeerState>
      reads this`peersByKey, peersByKey.Values
      ensures Records().Keys == peersByKey.Keys
    {
      map key | key in peersByKey :: peersByKey[key].View()
    }

    ghost function View(): Session
      reads this, peersByKey.Values
      ensures Valid() ==> Linked(View())
    {
      Session(startNs, endNs, successfulPeerConnects, disconnectCount,
              alertLossDetected, alertsDroppedNotifications, alertsDroppedTypeBits,
              pieceCompletions, verificationPieceCompletions, latestTorrentState,
              uniquePeerEndpoints, connectSequenceByEndpoint, activePeerKeyByEndpoint,
              Records(), lastPiecePeerKey)
    }

    /** Handing an event to one record changes that record only. */
    twostate lemma OneRecordChanged(key: string)
      requires old(Valid()) && peersByKey == old(peersByKey) && key in peersByKey
      requires forall k :: k in peersByKey && k != key ==> unchanged(peersByKey[k])
      ensures Records() == old(Records())[key := peersByKey[key].View()]
    {
    }

    constructor (start: int)
      ensures Valid() && View() == NewSession(start) && peersByKey == map[]
    {
      startNs, endNs := start, 0;
      successfulPeerConnects, disconnectCount := 0, 0;
      alertLossDetected, alertsDroppedNotifications, alertsDroppedTypeBits := false, 0, 0;
      pieceCompletions, verificationPieceCompletions := 0, 0;
      latestTorrentState := CheckingResumeData;
      uniquePeerEndpoints, connectSequenceByEndpoint, activePeerKeyByEndpoint := {}, map[], map[];
      peersByKey, lastPiecePeerKey := map[], map[];
    }

    method EnsurePeerForEndpoint(endpoint: string, now: int) returns (peer: PeerStats)
      requires Valid()
      modifies this
      ensures Valid() && fresh(peersByKey.Values - old(peersByKey.Values))
      ensures View() == Ensure(old(View()), endpoint, now)
      ensures endpoint in activePeerKeyByEndpoint && peer == peersByKey[activePeerKeyByEndpoint[endpoint]]
    {
      hide Linked, Records, Emplaced, KeyFor, PeerStats.View;
      NoteEndpoint(endpoint);
      if endpoint !in activePeerKeyByEndpoint {
        BeginRecord(endpoint, now);
      }
      peer := peersByKey[activePeerKeyByEndpoint[endpoint]];
    }

    method NoteEndpoint(endpoint: string)
      modifies this`uniquePeerEndpoints
      ensures uniquePeerEndpoints == old(uniquePeerEndpoints) + {endpoint}
      ensures View() == old(View()).(endpoints := old(View()).endpoints + {endpoint})
    {
      hide Records;
      uniquePeerEndpoints := uniquePeerEndpoints + {endpoint};
    }

    method BeginRecord(endpoint: string, now: int)
      requires Valid() && endpoint !in activePeerKeyByEndpoint
      modifies this`connectSequenceByEndpoint, this`activePeerKeyByEndpoint, this`peersByKey
      ensures Valid() && endpoint in activePeerKeyByEndpoint && fresh(peersByKey.Values - old(peersByKey.Values))
      ensures View() == Begin(old(View()), endpoint, now)
    {
      hide Emplaced, KeyFor, Linked, Records, PeerStats.View, Valid;
      var sequence := NextSequence(endpoint);
      var peerKey := KeyFor(endpoint, sequence);
      Emplace(peerKey, endpoint, now);
      GoLive(endpoint, peerKey);
    }

    method GoLive(endpoint: string, peerKey: string)
      requires Valid() && peerKey in peersByKey
      modifies this`activePeerKeyByEndpoint
      ensures Valid() && activePeerKeyByEndpoint == old(activePeerKeyByEndpoint)[endpoint := peerKey]
      ensures View() == old(View()).(live := activePeerKeyByEndpoint)
    {
      hide Records, Linked;
      activePeerKeyByEndpoint := activePeerKeyByEndpoint[endpoint := peerKey];
    }

    /** `++connect_sequence_by_endpoint[endpoint]`; a missing entry counts from zero. */
    method NextSequence(endpoint: string) returns (n: int)
      modifies this`connectSequenceByEndpoint
      ensures n == (if endpoint in old(connectSequenceByEndpoint) then old(connectSequenceByEndpoint)[endpoint] else 0) + 1
      ensures View() == old(View()).(sequence := old(connectSequenceByEndpoint)[endpoint := n])
    {
      hide Records;
      n := (if endpoint in connectSequenceByEndpoint then connectSequenceByEndpoint[endpoint] else 0) + 1;
      connectSequenceByEndpoint := connectSequenceByEndpoint[endpoint := n];
    }

    /** `peers_by_key.emplace`: begins a record unless the key is taken. */
    method Emplace(peerKey: string, endpoint: string, now: int)
      requires Valid()
      modifies this`peersByKey
      ensures Valid() && peerKey in peersByKey && fresh(peersByKey.Values - old(peersByKey.Values))
      ensures View() == old(View()).(peers := Emplaced(old(View()).peers, peerKey, endpoint, now))
    {
      hide NewPeer, Linked;
      if peerKey !in peersByKey {
        var created := new PeerStats(peerKey, endpoint, now);
        assert created.View().peerKey == peerKey by { NewPeerKey(peerKey, endpoint, now); }
        peersByKey := peersByKey[peerKey := created];
        assert Records() == old(Records())[peerKey := NewPeer(peerKey, endpoint, now)];
      }
    }

    method NotePeerConnect(endpoint: string, now: int) returns (peer: PeerStats)
      requires Valid()
      modifies this, peersByKey.Values
      ensures Valid() && fresh(peersByKey.Values - old(peersByKey.Values))
      ensures View() == Deliver(old(View()), PeerConnect(endpoint, now))
    {
      hide Apply, Ensure, Linked, Records, PeerStats.View, Deliver, Valid;
      ConnectDelivered(View(), endpoint, now);
      peer := EnsurePeerForEndpoint(endpoint, now);
      KeyIsThere(endpoint);
      ConnectRecord(activePeerKeyByEndpoint[endpoint], now);
    }

    lemma KeyIsThere(endpoint: string)
      requires Valid() && endpoint in activePeerKeyByEndpoint
      ensures activePeerKeyByEndpoint[endpoint] in peersByKey && activePeerKeyByEndpoint[endpoint] in Records()
    {
    }

    /** The part of `note_peer_connect` that counts the connection and tells its record. */
    method ConnectRecord(key: string, now: int)
      requires Valid() && key in peersByKey && key in Records()
      modifies this`successfulPeerConnects, peersByKey[key]
      ensures Valid()
      ensures var t := old(View());
              View() == t.(peers := t.peers[key := Apply(t.peers[key], Connected(now))],
                           successfulConnects := t.successfulConnects + if t.peers[key].sawConnectAlert then 0 else 1)
    {
      hide Apply, Linked, Records, PeerStats.View;
      var peer := peersByKey[key];
      RecordFields(key);
      if !peer.sawConnectAlert {
        successfulPeerConnects := successfulPeerConnects + 1;
      }
      peer.NoteConnect(now);
      OneRecordChanged(key);
    }

    lemma RecordFields(key: string)
      requires key in peersByKey
      ensures key in Records() && Records()[key] == peersByKey[key].View()
      ensures Records()[key].sawConnectAlert == peersByKey[key].sawConnectAlert
      ensures Records()[key].endpointKey == peersByKey[key].endpointKey
    {
    }

    method NotePeerEvent(endpoint: string, now: int) returns (peer: PeerStats)
      requires Valid()
      modifies this, peersByKey.Values
      ensures Valid() && fresh(peersByKey.Values - old(peersByKey.Values))
      ensures endpoint in activePeerKeyByEndpoint && peer == peersByKey[activePeerKeyByEndpoint[endpoint]]
      ensures var t := Ensure(old(View()), endpoint, now);
              var key := t.live[endpoint];
              View() == t.(peers := t.peers[key := Apply(t.peers[key], Seen(now))])
    {
      hide Apply, Ensure, Linked, Records, PeerStats.View;
      peer := EnsurePeerForEndpoint(endpoint, now);
      ghost var key := activePeerKeyByEndpoint[endpoint];
      RecordFields(key);
      label before:
      peer.NoteSeen(now);
      OneRecordChanged@before(key);
    }

    method NotePeerDisconnect(endpoint: string, now: int) returns (peer: PeerStats)
      requires Valid()
      modifies this, peersByKey.Values
      ensures Valid() && fresh(peersByKey.Values - old(peersByKey.Values))
      ensures View() == Deliver(old(View()), PeerDisconnect(endpoint, now))
    {
      hide Apply, Ensure, Feed, Linked, Records, PeerStats.View;
      ghost var t := Ensure(old(View()), endpoint, now);
      ghost var key := t.live[endpoint];
      peer := NotePeerEvent(endpoint, now);
      RecordFields(key);
      label before:
      peer.NoteDisconnect(now);
      OneRecordChanged@before(key);
      TwoFed(t.peers[key], Seen(now), Disconnected(now));
      assert Records() == t.peers[key := Feed(t.peers[key], EventsOf(PeerDisconnect(endpoint, now)))];
      ApplyKeepsNames(t.peers[key], Seen(now));
      EndConnection(peer.endpointKey);
    }

    method EndConnection(endpointKey: string)
      requires Valid()
      modifies this`activePeerKeyByEndpoint, this`disconnectCount
      ensures Valid()
      ensures View() == old(View()).(live := old(View()).live - {endpointKey}, disconnects := old(View()).disconnects + 1)
    {
      hide Records, Linked;
      activePeerKeyByEndpoint := activePeerKeyByEndpoint - {endpointKey};
      disconnectCount := disconnectCount + 1;
    }

    method NotePeerSnapshot(endpoint: string, info: PeerInfo, now: int, intervalMs: int) returns (peer: PeerStats)
      requires Valid()
      modifies this, peersByKey.Values
      ensures Valid() && fresh(peersByKey.Values - old(peersByKey.Values))
      ensures View() == Deliver(old(View()), PeerSnapshot(endpoint, now, info, intervalMs))
    {
      hide Apply, Ensure, Linked, Records, PeerStats.View;
      peer := EnsurePeerForEndpoint(endpoint, now);
      ghost var key := activePeerKeyByEndpoint[endpoint];
      RecordFields(key);
      label before:
      peer.UpdateFromSnapshot(info, now, intervalMs);
      OneRecordChanged@before(key);
      OneFed(old@before(peer.View()), Observed(now, info, intervalMs));
    }

    method NotePieceFinished(piece: int)
      requires Valid()
      modifies this, peersByKey.Values
      ensures Valid() && peersByKey == old(peersByKey)
      ensures View() == FinishPiece(old(View()), piece)
    {
      hide Apply, Linked, Records, PeerStats.View;
      if !ImpliesNetworkPiece(latestTorrentState) {
        verificationPieceCompletions := verificationPieceCompletions + 1;
        return;
      }
      pieceCompletions := pieceCompletions + 1;
      if piece !in lastPiecePeerKey {
        return;
      }
      var key := lastPiecePeerKey[piece];
      if key in peersByKey {
        RecordFields(key);
        label before:
        peersByKey[key].CreditPiece();
        OneRecordChanged@before(key);
      }
    }

    method NoteTorrentState(state: TorrentState)
      requires Valid()
      modifies this`latestTorrentState
      ensures Valid() && View() == old(View()).(state := state)
    {
      hide Records;
      latestTorrentState := state;
    }

    method NoteAlertLoss(droppedTypeBits: int)
      requires Valid()
      modifies this, peersByKey.Values
      ensures Valid() && peersByKey == old(peersByKey)
      ensures View() == Step(old(View()), AlertsDropped(droppedTypeBits))
    {
      hide Apply, Linked, Records, PeerStats.View, Valid, ForAll;
      alertLossDetected := true;
      alertsDroppedNotifications := alertsDroppedNotifications + 1;
      alertsDroppedTypeBits := alertsDroppedTypeBits + droppedTypeBits;
      lastPiecePeerKey := map[];
      ResetAll();
    }

    /** The loop over all records that forgets their outstanding requests. */
    method ResetAll()
      requires Valid()
      modifies peersByKey.Values
      ensures Records() == ForAll(old(Records()), Lost)
    {
      hide Apply, PeerStats.View;
      var rest := peersByKey.Keys;
      while rest != {}
        invariant rest <= peersByKey.Keys
        invariant forall k :: k in peersByKey && k in rest ==> peersByKey[k].View() == old(peersByKey[k].View())
        invariant forall k :: k in peersByKey && k !in rest ==> peersByKey[k].View() == Apply(old(peersByKey[k].View()), Lost)
        decreases rest
      {
        var key :| key in rest;
        peersByKey[key].ResetOutstandingRequests();
        rest := rest - {key};
      }
    }

    method Finalize(end: int)
      requires Valid()
      modifies this`endNs, peersByKey.Values
      ensures Valid() && peersByKey == old(peersByKey)
      ensures View() == FinalizeSession(old(View()), end)
    {
      hide Apply, Linked, Records, PeerStats.View;
      endNs := end;
      FinalizeAll(end);
    }

    /** The loop over all records that closes them. */
    method FinalizeAll(end: int)
      requires Valid()
      modifies peersByKey.Values
      ensures Records() == ForAll(old(Records()), Finalized(end))
    {
      hide Apply, PeerStats.View;
      var rest := peersByKey.Keys;
      while rest != {}
        invariant rest <= peersByKey.Keys
        invariant forall k :: k in peersByKey && k in rest ==> peersByKey[k].View() == old(peersByKey[k].View())
        invariant forall k :: k in peersByKey && k !in rest ==> peersByKey[k].View() == Apply(old(peersByKey[k].View()), Finalized(end))
        decreases rest
      {
        var key :| key in rest;
        peersByKey[key].Finalize(end);
        rest := rest - {key};
      }
    }

    /** An alert about one peer: the event itself, then what the alert adds. */
    method HandlePeerAlert(endpoint: string, now: int, action: Action)
      requires Valid()
      modifies this, peersByKey.Values
      ensures Valid() && fresh(peersByKey.Values - old(peersByKey.Values))
      ensures View() == Deliver(old(View()), PeerAlert(endpoint, now, action))
    {
      hide Apply, Ensure, Feed, ActionEvents, Linked, Records, PeerStats.View;
      ghost var t := Ensure(old(View()), endpoint, now);
      ghost var key := t.live[endpoint];
      var peer := NotePeerEvent(endpoint, now);
      RecordFields(key);
      label before:
      Dispatch(peer, now, action);
      OneRecordChanged@before(key);
      FeedAction(t.peers[key], now, action);
      assert Records() == t.peers[key := Feed(t.peers[key], EventsOf(PeerAlert(endpoint, now, action)))];
      if action.Respond? {
        NotePieceResponder(action.key.piece, peer.peerKey);
      }
    }

    /** `drain_alerts` remembers which record last answered for the piece. */
    method NotePieceResponder(piece: int, peerKey: string)
      modifies this`lastPiecePeerKey
      ensures View() == old(View()).(lastPiece := old(View()).lastPiece[piece := peerKey])
    {
      hide Records;
      lastPiecePeerKey := lastPiecePeerKey[piece := peerKey];
    }

    /** Takes in one alert, one peer of a snapshot, or one report of the torrent's state. */
    method Handle(a: Alert)
      requires Valid()
      modifies this, peersByKey.Values
      ensures Valid() && fresh(peersByKey.Values - old(peersByKey.Values))
      ensures View() == Step(old(View()), a)
    {
      hide Deliver, Linked, Records, FinishPiece;
      match a
      case PeerConnect(endpoint, now) => var _ := NotePeerConnect(endpoint, now);
      case PeerAlert(endpoint, now, action) => HandlePeerAlert(endpoint, now, action);
      case PeerDisconnect(endpoint, now) => var _ := NotePeerDisconnect(endpoint, now);
      case PeerSnapshot(endpoint, now, info, intervalMs) => var _ := NotePeerSnapshot(endpoint, info, now, intervalMs);
      case StateReported(state) => NoteTorrentState(state);
      case PieceFinished(piece) => NotePieceFinished(piece);
      case AlertsDropped(typeBits) => NoteAlertLoss(typeBits);
    }

    /** Takes in a batch of alerts after the `log` so far. */
    method DrainAlerts(alerts: seq<Alert>, ghost start: int, ghost log: seq<Alert>)
      requires Valid() && View() == Run(start, log)
      modifies this, peersByKey.Values
      ensures Valid() && fresh(peersByKey.Values - old(peersByKey.Values))
      ensures View() == Run(start, log + alerts)
    {
      hide Step, Linked, Records, PeerStats.View, Valid, View, Run;
      assert log + [] == log;
      for i := 0 to |alerts|
        invariant Valid() && fresh(peersByKey.Values - old(peersByKey.Values))
        invariant View() == Run(start, log + alerts[..i])
      {
        Handle(alerts[i]);
        OneMoreAlert(start, log + alerts[..i], alerts[i]);
        assert log + alerts[..i + 1] == log + alerts[..i] + [alerts[i]];
      }
      assert alerts[..|alerts|] == alerts;
    }
  }

  lemma OneMoreAlert(start: int, log: seq<Alert>, a: Alert)
    ensures Run(start, log + [a]) == Step(Run(start, log), a)
  {
    hide Step;
    assert (log + [a])[..|log|] == log;
  }

  lemma ConnectDelivered(s: Session, endpoint: string, now: int)
    requires Linked(s)
    ensures var t := Ensure(s, endpoint, now);
            var key := t.live[endpoint];
            Deliver(s, PeerConnect(endpoint, now))
            == t.(peers := t.peers[key := Apply(t.peers[key], Connected(now))],
                  successfulConnects := t.successfulConnects + if t.peers[key].sawConnectAlert then 0 else 1)
  {
    var t := Ensure(s, endpoint, now);
    OneFed(t.peers[t.live[endpoint]], Connected(now));
    hide Apply, Ensure, Linked, Feed;
  }

  lemma NewPeerKey(peerKey: string, endpoint: string, now: int)
    ensures NewPeer(peerKey, endpoint, now).peerKey == peerKey
  {
  }

  /** Hands an action to the handler for it. */
  method Dispatch(peer: PeerStats, now: int, action: Action)
    modifies peer
    ensures peer.View() == Feed(old(peer.View()), ActionEvents(now, action))
  {
    hide Apply;
    match action
    case NothingMore =>
    case Snub => peer.NoteSnubbed(now);
    case Unsnub => peer.NoteUnsnubbed(now);
    case Send(key) => peer.NoteRequestSent(now, key);
    case Respond(key) => peer.NoteBlockResponse(now, key);
    case TimeOut(key) => peer.NoteTimeout(now, key);
    case Drop(key) => peer.NoteDrop(now, key);
    case Request(request) => peer.NoteIncomingRequest(now, request);
    case Upload(key) => peer.NoteBlockUploaded(now, key);
  }

  lemma ApplyKeepsNames(p: PeerState, e: PeerEvent)
    ensures Apply(p, e).endpointKey == p.endpointKey && Apply(p, e).peerKey == p.peerKey
  {
  }

  lemma FeedAction(p: PeerState, now: int, action: Action)
    ensures Feed(p, [Seen(now)] + ActionEvents(now, action)) == Feed(Apply(p, Seen(now)), ActionEvents(now, action))
  {
    hide Apply;
    if action.NothingMore? {
      assert [Seen(now)] + [] == [Seen(now)];
      OneFed(p, Seen(now));
    } else {
      var e := ActionEvents(now, action)[0];
      assert [Seen(now)] + [e] == [Seen(now), e];
      TwoFed(p, Seen(now), e);
      OneFed(Apply(p, Seen(now)), e);
    }
  }
}

