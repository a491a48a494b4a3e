/** What every run of the registry keeps: live records, sizes, piece credit, and the conservation
    laws of the individual records lifted to the whole session. */
module Accounting {
  import opened Sums
  import opened Keys
  import opened PeerModel
  import opened PeerTimes
  import opened PeerBursts
  import opened SessionModel
  import opened Registry

  // ----- Histories of records are well-formed -----

  lemma AppendOne(start: int, h: seq<PeerEvent>, e: PeerEvent)
    requires WellFormed(start, h)
    requires Timed(e) ==> LastTime(start, h) <= e.now
    requires Open(h) || e.Lost? || e.Credited? || e.Finalized?
    ensures WellFormed(start, h + [e])
    ensures LastTime(start, h + [e]) == if Timed(e) then e.now else LastTime(start, h)
    ensures Open(h + [e]) <==> Open(h) && !e.Disconnected? && !e.Finalized?
  {
    assert (h + [e])[..|h|] == h;
    if Open(h + [e]) {
      forall i | 0 <= i < |h| ensures !h[i].Disconnected? && !h[i].Finalized? {
        assert (h + [e])[i] == h[i];
      }
      assert (h + [e])[|h|] == e;
    }
  }

  lemma AppendAlert(start: int, h: seq<PeerEvent>, a: Alert)
    requires Addressed(a) && WellFormed(start, h) && Open(h) && LastTime(start, h) <= a.now
    ensures WellFormed(start, h + EventsOf(a))
    ensures LastTime(start, h + EventsOf(a)) == a.now
    ensures Open(h + EventsOf(a)) <==> !a.PeerDisconnect?
  {
    hide WellFormed, Open, LastTime;
    var events := EventsOf(a);
    AppendOne(start, h, events[0]);
    if |events| == 2 {
      AppendOne(start, h + [events[0]], events[1]);
      assert h + events == h + [events[0]] + [events[1]];
    } else {
      assert events == [events[0]];
    }
  }

  /** The history of every connection is well-formed, and still open exactly when it is the
      endpoint's latest connection and the endpoint is live. */
  lemma {:induction false} HistoryIsWellFormed(start: int, log: seq<Alert>, ep: string, n: nat)
    requires Chronological(start, log) && 1 <= n <= Connections(log, ep)
    ensures start <= BeganAt(log, ep, n)
    ensures WellFormed(BeganAt(log, ep, n), HistoryOf(log, ep, n))
    ensures LastTime(BeganAt(log, ep, n), HistoryOf(log, ep, n)) <= LogTime(start, log)
    ensures Open(HistoryOf(log, ep, n)) <==> IsLive(log, ep) && n == Connections(log, ep)
  {
    hide WellFormed, Open, LastTime, EventsOf;
    var front, a := EarlierAlerts(log), LastAlert(log);
    ConnectionsStep(log, ep);
    if n > Connections(front, ep) {
      NoHistoryYet(front, ep, n);
      NothingBefore(a.now);
      AppendAlert(a.now, [], a);
      StartBeforeLog(start, front);
      assert HistoryOf(log, ep, n) == [] + EventsOf(a);
    } else {
      var began, h := BeganAt(front, ep, n), HistoryOf(front, ep, n);
      HistoryIsWellFormed(start, front, ep, n);
      if To(a, ep) && n == Disconnects(front, ep) + 1 {
        AppendAlert(began, h, a);
      } else if NewsFor(front, a, ep, n) == [] {
        assert h + [] == h;
      } else {
        AppendOne(began, h, NewsFor(front, a, ep, n)[0]);
        assert NewsFor(front, a, ep, n) == [NewsFor(front, a, ep, n)[0]];
      }
    }
  }

  lemma NothingBefore(now: int)
    ensures WellFormed(now, []) && Open([]) && LastTime(now, []) == now
  {
  }

  lemma {:induction false} StartBeforeLog(start: int, log: seq<Alert>)
    requires Chronological(start, log)
    ensures start <= LogTime(start, log)
  {
    if |log| > 0 {
      StartBeforeLog(start, EarlierAlerts(log));
    }
  }

  // ----- Every record is one of the numbered connections -----

  /** Every key of the registry is the key of a connection, and its record that connection's. */
  lemma {:induction false} RecordOfKey(start: int, log: seq<Alert>, key: string) returns (ep: string, n: nat)
    requires key in Run(start, log).peers
    ensures key == Key(ep, n) && 1 <= n <= Connections(log, ep)
    ensures Run(start, log).peers[key] == RecordAt(log, ep, n)
  {
    hide RecordAt, Deliver, Feed, Addressee, EventsOf, Apply;
    var front, a := EarlierAlerts(log), LastAlert(log);
    var s := Run(start, front);
    if key in s.peers {
      ep, n := RecordOfKey(start, front, key);
      ConnectionsStep(log, ep);
    } else {
      assert Addressed(a);
      StepIsDeliver(s, a);
      RegistryFollowsLog(start, front, a.endpoint, 0);
      DeliverableFromRegistry(s, front, a);
      DeliverRecords(s, a);
      ConnectionsStep(log, a.endpoint);
      ep, n := a.endpoint, Disconnects(front, a.endpoint) + 1;
    }
    RegistryFollowsLog(start, log, ep, 0);
  }

  /** Every record of every session is the record of a well-formed history that begins when the
      connection was first heard of, so that whatever holds of all such records holds of it. */
  lemma RecordIsExplained(start: int, log: seq<Alert>, key: string) returns (b: Birth, h: seq<PeerEvent>)
    requires start > 0 && Chronological(start, log) && key in Run(start, log).peers
    ensures b.now >= start && b.peerKey == key && WellFormed(b.now, h)
    ensures Run(start, log).peers[key] == Record(b, h)
    ensures LastTime(b.now, h) <= LogTime(start, log)
  {
    hide Run, Record, WellFormed, Chronological;
    var ep, n := RecordOfKey(start, log, key);
    HistoryIsWellFormed(start, log, ep, n);
    b, h := BirthOf(log, ep, n), HistoryOf(log, ep, n);
  }

  /** The registry agrees with itself: a live endpoint leads to its own record, which is open; an
      open record is its endpoint's live one; and the records of an endpoint are exactly those
      numbered from one to its sequence number. */
  ghost predicate Agrees(s: Session) {
    && (forall ep :: ep in s.live ==>
          s.live[ep] in s.peers && s.peers[s.live[ep]].endpointKey == ep && s.peers[s.live[ep]].live)
    && (forall key :: key in s.peers && s.peers[key].live ==>
          s.peers[key].endpointKey in s.live && s.live[s.peers[key].endpointKey] == key)
    && (forall key :: key in s.peers ==> s.peers[key].peerKey == key)
    && (forall ep, n: nat :: Key(ep, n) in s.peers <==> ep in s.sequence && 1 <= n <= s.sequence[ep])
  }

  lemma RegistryAgrees(start: int, log: seq<Alert>)
    requires start > 0 && Chronological(start, log)
    ensures Agrees(Run(start, log))
  {
    var s := Run(start, log);
    hide Run, Record, RecordsAt, HistoryOf, WellFormed, Connections, IsLive, Chronological;
    forall key | key in s.peers
      ensures s.peers[key].peerKey == key
      ensures s.peers[key].live ==> s.peers[key].endpointKey in s.live && s.live[s.peers[key].endpointKey] == key
    {
      var ep, n := RecordOfKey(start, log, key);
      RecordFacts(start, log, ep, n);
      RegistryFollowsLog(start, log, ep, 0);
    }
    forall ep | ep in s.live
      ensures s.live[ep] in s.peers && s.peers[s.live[ep]].endpointKey == ep && s.peers[s.live[ep]].live
    {
      var n := Connections(log, ep);
      RegistryFollowsLog(start, log, ep, 0);
      NumbersOf(s.peers, log, ep, n);
      LiveCounts(log, ep);
      RecordFacts(start, log, ep, n);
    }
    forall ep, n: nat ensures Key(ep, n) in s.peers <==> ep in s.sequence && 1 <= n <= s.sequence[ep] {
      RegistryFollowsLog(start, log, ep, 0);
      NumbersOf(s.peers, log, ep, n);
    }
  }

  lemma NumbersOf(peers: map<string, PeerState>, log: seq<Alert>, ep: string, n: nat)
    requires RecordsAt(peers, log, ep)
    ensures Key(ep, n) in peers <==> 1 <= n <= Connections(log, ep)
    ensures Key(ep, n) in peers ==> peers[Key(ep, n)] == RecordAt(log, ep, n)
  {
  }

  lemma LiveCounts(log: seq<Alert>, ep: string)
    ensures IsLive(log, ep) ==> Connections(log, ep) >= 1
  {
  }

  lemma RecordFacts(start: int, log: seq<Alert>, ep: string, n: nat)
    requires start > 0 && Chronological(start, log) && 1 <= n <= Connections(log, ep)
    ensures var p := RecordAt(log, ep, n);
            && p.peerKey == Key(ep, n) && p.endpointKey == ep
            && (p.live <==> IsLive(log, ep) && n == Connections(log, ep))
  {
    hide Record, WellFormed, Connections, IsLive, HistoryOf;
    HistoryIsWellFormed(start, log, ep, n);
    ClocksAfter(BirthOf(log, ep, n), HistoryOf(log, ep, n));
    RecordKeepsNames(BirthOf(log, ep, n), HistoryOf(log, ep, n));
  }

  /** A record that has been closed stays closed: later alerts never make it live again. */
  lemma ClosedStaysClosed(start: int, log: seq<Alert>, a: Alert, key: string)
    requires start > 0 && Chronological(start, log + [a])
    requires key in Run(start, log).peers && !Run(start, log).peers[key].live
    ensures key in Run(start, log + [a]).peers && !Run(start, log + [a]).peers[key].live
  {
    var more := log + [a];
    assert EarlierAlerts(more) == log;
    assert Chronological(start, log);
    hide Run, Record, RecordAt, Chronological, IsLive, Connections;
    var ep, n := RecordOfKey(start, log, key);
    RecordFacts(start, log, ep, n);
    LiveStep(more, ep);
    RegistryFollowsLog(start, more, ep, 0);
    NumbersOf(Run(start, more).peers, more, ep, n);
    RecordFacts(start, more, ep, n);
  }

  lemma LiveStep(log: seq<Alert>, ep: string)
    requires |log| > 0
    ensures Connections(EarlierAlerts(log), ep) <= Connections(log, ep)
    ensures IsLive(log, ep) && Connections(log, ep) == Connections(EarlierAlerts(log), ep) ==> IsLive(EarlierAlerts(log), ep)
  {
  }

  // ----- Sizes -----

  function Same(n: int): int { n }

  function Announced(p: PeerState): int { if p.sawConnectAlert then 1 else 0 }

  function Credits(p: PeerState): int { p.counters.piecesFinished }

  /** Records are the closed connections plus the live endpoints, and the sum of the sequence
      numbers; every endpoint seen has a sequence number; connects count announced records. */
  ghost predicate Balanced(s: Session) {
    && |s.peers| == s.disconnects + |s.live|
    && |s.peers| == MapSum(s.sequence, Same)
    && s.endpoints == s.sequence.Keys
    && s.successfulConnects == MapSum(s.peers, Announced)
  }

  lemma ApplyKeeps(p: PeerState, e: PeerEvent)
    ensures Announced(Apply(p, e)) == if e.Connected? then 1 else Announced(p)
    ensures Credits(Apply(p, e)) == Credits(p) + if e.Credited? then 1 else 0
  {
  }

  lemma {:induction false} FeedKeeps(p: PeerState, events: seq<PeerEvent>)
    requires forall i :: 0 <= i < |events| ==> !events[i].Connected? && !events[i].Credited?
    ensures Announced(Feed(p, events)) == Announced(p)
    ensures Credits(Feed(p, events)) == Credits(p)
  {
    hide Apply;
    if |events| > 0 {
      FeedKeeps(p, events[..|events| - 1]);
      ApplyKeeps(Feed(p, events[..|events| - 1]), events[|events| - 1]);
    }
  }

  lemma AlertKeeps(p: PeerState, a: Alert)
    requires Addressed(a)
    ensures Announced(Feed(p, EventsOf(a))) == Announced(p) + if a.PeerConnect? && !p.sawConnectAlert then 1 else 0
    ensures Credits(Feed(p, EventsOf(a))) == Credits(p)
  {
    hide Feed, Apply, Credits;
    if a.PeerConnect? {
      OneFed(p, Connected(a.now));
      ApplyKeeps(p, Connected(a.now));
    } else {
      FeedKeeps(p, EventsOf(a));
    }
  }

  lemma MapSizeUpdate<K, V>(m: map<K, V>, k: K, v: V)
    ensures |m[k := v]| == |m| + if k in m then 0 else 1
  {
    assert m[k := v].Keys == m.Keys + {k};
  }

  lemma BalancedDelivery(s: Session, a: Alert)
    requires Linked(s) && Addressed(a) && Deliverable(s, a) && Balanced(s)
    requires a.endpoint in s.live ==> a.endpoint in s.sequence
    ensures Balanced(Deliver(s, a))
  {
    hide Deliver, MapSum, Announced, Deliverable, Linked;
    DeliverySizes(s, a);
    DeliverySequence(s, a);
    DeliveryAnnounces(s, a);
  }

  lemma DeliverySizes(s: Session, a: Alert)
    requires Linked(s) && Addressed(a) && Deliverable(s, a)
    ensures var r, new' := Deliver(s, a), if a.endpoint in s.live then 0 else 1;
            && |r.peers| == |s.peers| + new'
            && r.disconnects + |r.live| == s.disconnects + |s.live| + new'
  {
    hide Deliver, Feed, EventsOf, Addressee, AddresseeKey, Deliverable, Linked;
    DeliverRecords(s, a);
    DeliverCounts(s, a);
    KeyIsFresh(s, a);
    MapSizeUpdate(s.peers, AddresseeKey(s, a), Feed(Addressee(s, a), EventsOf(a)));
    LiveSizes(s.live, a.endpoint, AddresseeKey(s, a));
  }

  lemma DeliverySequence(s: Session, a: Alert)
    requires Linked(s) && Addressed(a) && Deliverable(s, a) && s.endpoints == s.sequence.Keys
    requires a.endpoint in s.live ==> a.endpoint in s.sequence
    ensures var r, new' := Deliver(s, a), if a.endpoint in s.live then 0 else 1;
            MapSum(r.sequence, Same) == MapSum(s.sequence, Same) + new' && r.endpoints == r.sequence.Keys
  {
    hide Deliver, Feed, EventsOf, Addressee, AddresseeKey, Deliverable, Linked, MapSum;
    DeliverRecords(s, a);
    OneMoreConnection(s.sequence, s.endpoints, a.endpoint);
  }

  lemma KeyIsFresh(s: Session, a: Alert)
    requires Linked(s) && Addressed(a) && Deliverable(s, a)
    ensures AddresseeKey(s, a) in s.peers <==> a.endpoint in s.live
    ensures a.endpoint in s.live ==> s.peers[AddresseeKey(s, a)] == Addressee(s, a)
    ensures a.endpoint !in s.live ==> Announced(Addressee(s, a)) == 0 && Credits(Addressee(s, a)) == 0
  {
    hide KeyFor;
  }

  lemma LiveSizes(live: map<string, string>, ep: string, key: string)
    ensures |live[ep := key]| == |live| + if ep in live then 0 else 1
    ensures |live - {ep}| == |live| - if ep in live then 1 else 0
  {
    MapSizeUpdate(live, ep, key);
    if ep in live {
      MapRemoveSize(live, ep);
    } else {
      assert live - {ep} == live;
    }
  }

  lemma OneMoreConnection(sequence: map<string, int>, endpoints: set<string>, ep: string)
    requires endpoints == sequence.Keys
    ensures var more := sequence[ep := (if ep in sequence then sequence[ep] else 0) + 1];
            MapSum(more, Same) == MapSum(sequence, Same) + 1 && endpoints + {ep} == more.Keys
    ensures ep in sequence ==> endpoints + {ep} == sequence.Keys
  {
    MapSumUpdate(sequence, ep, (if ep in sequence then sequence[ep] else 0) + 1, Same);
  }

  lemma DeliveryAnnounces(s: Session, a: Alert)
    requires Linked(s) && Addressed(a) && Deliverable(s, a)
    ensures var r := Deliver(s, a);
            && r.successfulConnects - s.successfulConnects == MapSum(r.peers, Announced) - MapSum(s.peers, Announced)
            && MapSum(r.peers, Credits) == MapSum(s.peers, Credits)
  {
    hide Deliver, Feed, EventsOf, MapSum, Announced, Credits, Addressee, AddresseeKey, Deliverable, Linked;
    KeyIsFresh(s, a);
    DeliverRecords(s, a);
    DeliverCounts(s, a);
    var key, p := AddresseeKey(s, a), Addressee(s, a);
    AlertKeeps(p, a);
    MapSumUpdate(s.peers, key, Feed(p, EventsOf(a)), Announced);
    MapSumUpdate(s.peers, key, Feed(p, EventsOf(a)), Credits);
  }

  lemma {:induction false} SequenceCoversLive(start: int, log: seq<Alert>)
    ensures Run(start, log).live.Keys <= Run(start, log).sequence.Keys
  {
    forall ep | ep in Run(start, log).live ensures ep in Run(start, log).sequence {
      RegistryFollowsLog(start, log, ep, 0);
    }
    hide Run;
  }

  lemma ForAllKeeps(peers: map<string, PeerState>, e: PeerEvent)
    requires !e.Connected? && !e.Credited?
    ensures |ForAll(peers, e)| == |peers|
    ensures MapSum(ForAll(peers, e), Announced) == MapSum(peers, Announced)
    ensures MapSum(ForAll(peers, e), Credits) == MapSum(peers, Credits)
  {
    hide Apply, Announced, Credits;
    assert ForAll(peers, e).Keys == peers.Keys;
    forall key | key in peers
      ensures Announced(ForAll(peers, e)[key]) == Announced(peers[key]) && Credits(ForAll(peers, e)[key]) == Credits(peers[key])
    {
      ApplyKeeps(peers[key], e);
    }
    MapSumSame(peers, ForAll(peers, e), Announced);
    MapSumSame(peers, ForAll(peers, e), Credits);
  }

  lemma CreditCounts(s: Session, key: string)
    requires key in s.peers
    ensures var after := s.peers[key := Apply(s.peers[key], Credited)];
            && |after| == |s.peers|
            && MapSum(after, Announced) == MapSum(s.peers, Announced)
            && MapSum(after, Credits) == MapSum(s.peers, Credits) + 1
  {
    var p := Apply(s.peers[key], Credited);
    MapSizeUpdate(s.peers, key, p);
    MapSumUpdate(s.peers, key, p, Announced);
    MapSumUpdate(s.peers, key, p, Credits);
  }

  /** The books balance after every log of alerts, in whatever order they come. */
  lemma {:induction false} BooksBalance(start: int, log: seq<Alert>)
    ensures Balanced(Run(start, log))
  {
    hide Balanced, Deliver, Apply;
    if |log| == 0 {
      NewSessionBalanced(start);
    } else {
      var front, a := EarlierAlerts(log), LastAlert(log);
      var s := Run(start, front);
      BooksBalance(start, front);
      SequenceCoversLive(start, front);
      if Addressed(a) {
        StepIsDeliver(s, a);
        RegistryFollowsLog(start, front, a.endpoint, 0);
        DeliverableFromRegistry(s, front, a);
        BalancedDelivery(s, a);
      } else {
        BalancedOther(s, a);
      }
    }
  }

  lemma NewSessionBalanced(start: int)
    ensures Balanced(NewSession(start))
  {
  }

  lemma BalancedOther(s: Session, a: Alert)
    requires Linked(s) && !Addressed(a) && Balanced(s)
    ensures Balanced(Step(s, a))
  {
    hide Apply, ForAll, Announced, Credits, MapSum;
    if a.AlertsDropped? {
      ForAllKeeps(s.peers, Lost);
    } else if a.PieceFinished? && a.piece in s.lastPiece && s.lastPiece[a.piece] in s.peers {
      CreditCounts(s, s.lastPiece[a.piece]);
    }
  }

  // ----- Piece credit -----

  function PieceEvents(log: seq<Alert>): nat {
    if |log| == 0 then 0 else PieceEvents(log[..|log| - 1]) + if log[|log| - 1].PieceFinished? then 1 else 0
  }

  /** Network completions of pieces that some connection had answered for, since alerts were last lost. */
  function Attributable(log: seq<Alert>): nat {
    if |log| == 0 then 0
    else
      var front, a := log[..|log| - 1], log[|log| - 1];
      Attributable(front)
      + if a.PieceFinished? && CurrentState(front) in {Downloading, Finished, Seeding} && LastResponder(front, a.piece).Some? then 1 else 0
  }

  /** Every piece-finished event is counted once; the pieces credited to records are exactly the
      attributable network completions, and never more than the network completions. */
  lemma {:induction false} PiecesAreAttributed(start: int, log: seq<Alert>)
    ensures var s := Run(start, log);
            && s.pieceCompletions + s.verificationCompletions == PieceEvents(log)
            && MapSum(s.peers, Credits) == Attributable(log) <= s.pieceCompletions
  {
    hide Deliver, Apply, ForAll, Feed, LastResponder, FinishPiece;
    if |log| > 0 {
      var front, a := EarlierAlerts(log), LastAlert(log);
      var s := Run(start, front);
      PiecesAreAttributed(start, front);
      StateFollowsLog(start, front);
      if Addressed(a) {
        StepIsDeliver(s, a);
        RegistryFollowsLog(start, front, a.endpoint, 0);
        DeliverableFromRegistry(s, front, a);
        DeliveryKeepsCredits(s, a);
      } else if a.PieceFinished? {
        RegistryFollowsLog(start, front, "", a.piece);
        FinishCredits(s, front, a.piece);
      } else if a.AlertsDropped? {
        ForAllKeeps(s.peers, Lost);
      }
    }
  }

  lemma DeliveryKeepsCredits(s: Session, a: Alert)
    requires Linked(s) && Addressed(a) && Deliverable(s, a)
    ensures MapSum(Deliver(s, a).peers, Credits) == MapSum(s.peers, Credits)
    ensures Deliver(s, a).pieceCompletions == s.pieceCompletions
    ensures Deliver(s, a).verificationCompletions == s.verificationCompletions
  {
    hide *;
    DeliverCounts(s, a);
    DeliveryAnnounces(s, a);
  }

  lemma FinishCredits(s: Session, log: seq<Alert>, piece: int)
    requires PieceAt(s, log, piece)
    ensures var r := FinishPiece(s, piece);
            && MapSum(r.peers, Credits) == MapSum(s.peers, Credits)
                 + (if s.state in {Downloading, Finished, Seeding} && LastResponder(log, piece).Some? then 1 else 0)
            && r.pieceCompletions == s.pieceCompletions + (if s.state in {Downloading, Finished, Seeding} then 1 else 0)
            && r.pieceCompletions + r.verificationCompletions == s.pieceCompletions + s.verificationCompletions + 1
  {
    hide Apply, LastResponder;
    if piece in s.lastPiece && s.lastPiece[piece] in s.peers {
      CreditCounts(s, s.lastPiece[piece]);
    }
  }

  /** Every key in the piece table names an existing record. */
  lemma PieceTableNamesRecords(start: int, log: seq<Alert>, piece: int)
    requires piece in Run(start, log).lastPiece
    ensures Run(start, log).lastPiece[piece] in Run(start, log).peers
  {
    RegistryFollowsLog(start, log, "", piece);
    hide Run;
  }

  // ----- The end of the session -----

  /** The books still balance when the session is closed, and the credited pieces are the same. */
  lemma ClosedBooksBalance(start: int, log: seq<Alert>, end: int)
    ensures var s := FinalizeSession(Run(start, log), end);
            && Balanced(s)
            && s.pieceCompletions + s.verificationCompletions == PieceEvents(log)
            && MapSum(s.peers, Credits) == Attributable(log) <= s.pieceCompletions
            && s.endNs == end
  {
    var s := Run(start, log);
    BooksBalance(start, log);
    PiecesAreAttributed(start, log);
    ForAllKeeps(s.peers, Finalized(end));
    hide Run, ForAll, MapSum, Announced, Credits, Same, Attributable, PieceEvents;
  }

  /** The registry of a closed session agrees with itself if and only if no endpoint was live: closing ends
      every record and leaves the live keys standing. */
  lemma ClosedRegistryAgrees(start: int, log: seq<Alert>, end: int)
    requires start > 0 && Chronological(start, log)
    ensures Agrees(FinalizeSession(Run(start, log), end)) <==> Run(start, log).live == map[]
  {
    RegistryAgrees(start, log);
    hide Run, Chronological;
    var s := Run(start, log);
    var f := FinalizeSession(s, end);
    forall key | key in s.peers
      ensures !f.peers[key].live && f.peers[key].peerKey == s.peers[key].peerKey && f.peers[key].endpointKey == s.peers[key].endpointKey
    {
      ClosedRecord(s.peers[key], end);
    }
    hide Apply;
    if s.live != map[] {
      var ep :| ep in s.live;
      assert !f.peers[s.live[ep]].live;
    }
  }

  lemma ClosedRecord(p: PeerState, end: int)
    ensures var q := Apply(p, Finalized(end)); !q.live && q.peerKey == p.peerKey && q.endpointKey == p.endpointKey
  {
  }

  /** When the session ends, every record's active and idle time add up to the time since it was
      first seen, its bursts account for all its requests, and no record stays live. */
  lemma SessionConservesTime(start: int, log: seq<Alert>, end: int, key: string)
    requires start > 0 && Chronological(start, log) && LogTime(start, log) <= end
    requires key in Run(start, log).peers
    ensures var p := FinalizeSession(Run(start, log), end).peers[key];
            && !p.live && !p.bursts.active
            && p.activity.activeNs + p.activity.idleNs == end - p.times.firstSeen
            && 0 <= p.activity.activeNs <= ConnectedDuration(p.times)
            && Total(p.bursts.sizes) == p.counters.incomingRequests as real
            && ConnectedDuration(p.times) == p.times.disconnected - p.times.connected
            && (var before := Run(start, log).peers[key];
                p.times.disconnected == if before.live then end else before.times.disconnected)
  {
    hide Run, Record, WellFormed, Chronological, Apply, Open, LastClose;
    var b, h := RecordIsExplained(start, log, key);
    AppendOne(b.now, h, Finalized(end));
    ClosesAtEnd(b, h, end);
    ReportedDuration(b, h + [Finalized(end)]);
    ClocksAfter(b, h + [Finalized(end)]);
    RecordOfConcat(b, h, [Finalized(end)]);
    OneFed(Record(b, h), Finalized(end));
    TimeIsConserved(b, h + [Finalized(end)]);
    BurstsConserveRequests(b, h + [Finalized(end)]);
  }

  lemma ClosesAtEnd(b: Birth, h: seq<PeerEvent>, end: int)
    requires b.now > 0 && WellFormed(b.now, h) && WellFormed(b.now, h + [Finalized(end)])
    ensures Record(b, h + [Finalized(end)]).times.disconnected
         == if Record(b, h).live then end else Record(b, h).times.disconnected
  {
    hide Record, WellFormed, Open;
    ClosedAtLastClose(b, h);
    ClosedAtLastClose(b, h + [Finalized(end)]);
    ClocksAfter(b, h);
    assert (h + [Finalized(end)])[..|h|] == h;
  }
}
