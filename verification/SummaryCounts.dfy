/** The session totals of src/summary_writer.cpp: folds over all records, in whatever order the
    records are visited. */
module SummaryCounts {
  import opened Sums
  import opened PeerModel
  import opened PeerStatistics
  import opened PeerTimes
  import opened SessionModel
  import opened Registry
  import opened Accounting
  import opened SessionStatistics

  datatype NetworkByteTotals = NetworkByteTotals(downloaded: int, uploaded: int)

  datatype PeerObservationCounts = PeerObservationCounts(
    uniqueEndpoints: int, connectionsObserved: int, activeConnections: int, fingerprintable: int)

  function Downloaded(p: PeerState): int { p.downloadBytes }

  function Uploaded(p: PeerState): int { p.uploadBytes }

  predicate HadProtocolActivity(p: PeerState) {
    p.counters.requestsSent > 0 || p.counters.blockResponses > 0 || p.counters.incomingRequests > 0
    || p.counters.blocksUploaded > 0 || p.downloadBytes > 0 || p.uploadBytes > 0
  }

  predicate Fingerprintable(p: PeerState) {
    p.counters.requestsSent + p.counters.incomingRequests >= 100 && HadProtocolActivity(p)
  }

  function Active(p: PeerState): int { if HadProtocolActivity(p) then 1 else 0 }

  function Printable(p: PeerState): int { if Fingerprintable(p) then 1 else 0 }

  function Kept<V>(m: map<string, V>, keys: set<string>): (r: map<string, V>)
    ensures r.Keys == m.Keys * keys
  {
    map k | k in m && k in keys :: m[k]
  }

  /** Visiting one more key adds its entry to the sum over the keys visited. */
  lemma VisitOne<V>(m: map<string, V>, rest: set<string>, key: string, f: V -> int)
    requires rest <= m.Keys && key in rest
    ensures MapSum(Kept(m, m.Keys - (rest - {key})), f) == MapSum(Kept(m, m.Keys - rest), f) + f(m[key])
  {
    var after, before := Kept(m, m.Keys - (rest - {key})), Kept(m, m.Keys - rest);
    assert after == before[key := m[key]];
    MapSumUpdate(before, key, m[key], f);
  }

  lemma VisitedAll<V>(m: map<string, V>)
    ensures Kept(m, m.Keys - {}) == m && Kept(m, m.Keys - m.Keys) == map[]
  {
  }

  /** `peer_network_byte_totals`: the sums over all records, whatever the order of the loop. */
  method PeerNetworkByteTotals(stats: SessionStats) returns (totals: NetworkByteTotals)
    requires stats.Valid()
    ensures totals == NetworkByteTotals(MapSum(stats.Records(), Downloaded), MapSum(stats.Records(), Uploaded))
  {
    hide MapSum, Kept;
    ghost var m := stats.Records();
    VisitedAll(m);
    EmptySums();
    var down, up := 0, 0;
    var rest := stats.peersByKey.Keys;
    while rest != {}
      invariant rest <= stats.peersByKey.Keys
      invariant down == MapSum(Kept(m, m.Keys - rest), Downloaded)
      invariant up == MapSum(Kept(m, m.Keys - rest), Uploaded)
      decreases rest
    {
      var key :| key in rest;
      var peer := stats.peersByKey[key];
      down := down + peer.totalDownloadBytes;
      up := up + peer.totalUploadBytes;
      VisitOne(m, rest, key, Downloaded);
      VisitOne(m, rest, key, Uploaded);
      rest := rest - {key};
    }
    totals := NetworkByteTotals(down, up);
  }

  lemma EmptySums()
    ensures forall f: PeerState -> int :: MapSum<string, PeerState>(map[], f) == 0
  {
  }

  /** What the observation counts of a registry are. */
  ghost function Observations(endpoints: set<string>, peers: map<string, PeerState>): PeerObservationCounts {
    PeerObservationCounts(|endpoints|, |peers|, MapSum(peers, Active), MapSum(peers, Printable))
  }

  /** `had_protocol_activity`. */
  method HadActivity(peer: PeerStats) returns (had: bool)
    ensures had == HadProtocolActivity(peer.View())
  {
    had := peer.counters.requestsSent > 0 || peer.counters.blockResponses > 0 || peer.counters.incomingRequests > 0
           || peer.counters.blocksUploaded > 0 || peer.totalDownloadBytes > 0 || peer.totalUploadBytes > 0;
  }

  lemma CountersSeen(peer: PeerStats)
    ensures peer.View().counters == peer.counters
  {
  }

  /** `peer_observation_counts`. */
  method CountPeerObservations(stats: SessionStats) returns (counts: PeerObservationCounts)
    requires stats.Valid()
    ensures counts == Observations(stats.uniquePeerEndpoints, stats.Records())
  {
    hide MapSum, Kept, HadProtocolActivity, PeerStats.View;
    ghost var m := stats.Records();
    VisitedAll(m);
    EmptySums();
    var active, printable := 0, 0;
    var rest := stats.peersByKey.Keys;
    while rest != {}
      invariant rest <= stats.peersByKey.Keys
      invariant active == MapSum(Kept(m, m.Keys - rest), Active)
      invariant printable == MapSum(Kept(m, m.Keys - rest), Printable)
      decreases rest
    {
      var key :| key in rest;
      var peer := stats.peersByKey[key];
      var hadActivity := HadActivity(peer);
      CountersSeen(peer);
      if hadActivity {
        active := active + 1;
      }
      var samples := peer.counters.requestsSent + peer.counters.incomingRequests;
      if samples >= 100 && hadActivity {
        printable := printable + 1;
      }
      VisitOne(m, rest, key, Active);
      VisitOne(m, rest, key, Printable);
      rest := rest - {key};
    }
    assert |stats.peersByKey| == |m| by { assert m.Keys == stats.peersByKey.Keys; }
    counts := PeerObservationCounts(|stats.uniquePeerEndpoints|, |stats.peersByKey|, active, printable);
  }

  /** Sums of entries that are all at least one: never below the number of entries, and equal
      to it exactly when every entry is one. */
  lemma {:induction false} SumOfPositives(m: map<string, int>)
    requires forall k :: k in m ==> m[k] >= 1
    ensures MapSum(m, Same) >= |m|
    ensures MapSum(m, Same) == |m| <==> forall k :: k in m ==> m[k] == 1
    decreases |m|
  {
    if |m| > 0 {
      var k :| k in m;
      var rest := m - {k};
      MapRemoveSize(m, k);
      MapSumRemove(m, k, Same);
      SumOfPositives(rest);
      forall j | j in m ensures j == k || (j in rest && rest[j] == m[j]) {
        assert j != k ==> j in rest;
      }
      assert forall j :: j in rest ==> j in m && m[j] == rest[j];
      hide MapSum;
    }
  }

  function Plentiful(p: PeerState): int {
    if p.counters.requestsSent + p.counters.incomingRequests >= 100 then 1 else 0
  }

  /** The guard on activity never decides: a hundred samples already are activity. */
  lemma SamplesAreActivity(p: PeerState)
    ensures Plentiful(p) == Printable(p) <= Active(p)
  {
  }

  lemma {:induction false} CountedExists(h: seq<PeerEvent>, p: PeerEvent -> bool)
    ensures Count(h, p) > 0 <==> exists i :: 0 <= i < |h| && p(h[i])
  {
    if |h| > 0 {
      var front := h[..|h| - 1];
      CountedExists(front, p);
      assert forall i :: 0 <= i < |front| ==> front[i] == h[i];
    }
  }

  /** What the summary makes of one record, in terms of its history: its totals are those of its latest
      snapshot; it counts as active exactly when a request or a block was exchanged or the latest snapshot shows
      bytes, and as fingerprintable exactly when a hundred requests were sent or received. */
  lemma SummaryFollowsHistory(b: Birth, h: seq<PeerEvent>)
    ensures var p, totals := Record(b, h), TotalsSeen(h);
            && Downloaded(p) == totals.0 && Uploaded(p) == totals.1
            && (Active(p) == 1 <==>
                  (exists i :: 0 <= i < |h| && (h[i].Sent? || h[i].Responded? || h[i].Requested? || h[i].Uploaded?))
                  || totals.0 > 0 || totals.1 > 0)
            && (Printable(p) == 1 <==>
                  Count(h, (e: PeerEvent) => e.Sent?) + Count(h, (e: PeerEvent) => e.Requested?) >= 100)
  {
    TotalsFollowSnapshots(b, h);
    CountersCountEvents(b, h);
    CountedExists(h, (e: PeerEvent) => e.Sent?);
    CountedExists(h, (e: PeerEvent) => e.Responded?);
    CountedExists(h, (e: PeerEvent) => e.Requested?);
    CountedExists(h, (e: PeerEvent) => e.Uploaded?);
    hide Record, Count, TotalsSeen;
  }

  /** Closing a session changes nothing that the summary counts or adds up. */
  lemma CloseKeepsCounts(s: Session, end: int)
    ensures var f := FinalizeSession(s, end);
            && Observations(f.endpoints, f.peers) == Observations(s.endpoints, s.peers)
            && MapSum(f.peers, Downloaded) == MapSum(s.peers, Downloaded)
            && MapSum(f.peers, Uploaded) == MapSum(s.peers, Uploaded)
            && MapSum(f.peers, Plentiful) == MapSum(s.peers, Plentiful)
  {
    var f := FinalizeSession(s, end);
    CloseKeepsTotals(s.peers, end);
    hide MapSum, ForAll, Apply, CountsAlike;
    AllAlike(s.peers, f.peers);
    hide Downloaded, Uploaded, Plentiful, Active, Printable;
    assert |f.peers| == |f.peers.Keys| == |s.peers|;
    MapSumSame(s.peers, f.peers, Downloaded);
    MapSumSame(s.peers, f.peers, Uploaded);
    MapSumSame(s.peers, f.peers, Plentiful);
    MapSumSame(s.peers, f.peers, Active);
    MapSumSame(s.peers, f.peers, Printable);
  }

  /** Two records that the summary cannot tell apart. */
  predicate CountsAlike(p: PeerState, q: PeerState) {
    && Downloaded(p) == Downloaded(q) && Uploaded(p) == Uploaded(q)
    && Plentiful(p) == Plentiful(q) && Active(p) == Active(q) && Printable(p) == Printable(q)
  }

  lemma CloseKeepsTotals(peers: map<string, PeerState>, end: int)
    ensures ForAll(peers, Finalized(end)).Keys == peers.Keys
    ensures forall key :: key in peers ==> CountsAlike(peers[key], ForAll(peers, Finalized(end))[key])
  {
    hide CountsAlike, Apply;
    forall key | key in peers ensures CountsAlike(peers[key], Apply(peers[key], Finalized(end))) {
      CloseKeeps(peers[key], end);
    }
  }

  lemma CloseKeeps(p: PeerState, end: int)
    ensures CountsAlike(p, Apply(p, Finalized(end)))
  {
  }

  lemma AllAlike(peers: map<string, PeerState>, others: map<string, PeerState>)
    requires peers.Keys == others.Keys && forall key :: key in peers ==> CountsAlike(peers[key], others[key])
    ensures forall key :: key in peers ==>
              var p, q := peers[key], others[key];
              && Downloaded(p) == Downloaded(q) && Uploaded(p) == Uploaded(q)
              && Plentiful(p) == Plentiful(q) && Active(p) == Active(q) && Printable(p) == Printable(q)
  {
    hide Downloaded, Uploaded, Plentiful, Active, Printable;
  }

  /** In the closed registry that the summary is written from, and in every registry before: fingerprintable <=
      active <= observed, every record with 100 samples counts as both, unique endpoints never exceed the
      connections observed, and equal them exactly when no endpoint has a second connection. */
  lemma SummaryIsConsistent(start: int, log: seq<Alert>, end: int)
    ensures var s := FinalizeSession(Run(start, log), end); var c := Observations(s.endpoints, s.peers);
            && c == Observations(Run(start, log).endpoints, Run(start, log).peers)
            && 0 <= c.fingerprintable <= c.activeConnections <= c.connectionsObserved
            && c.fingerprintable == MapSum(s.peers, Plentiful)
            && (forall key :: key in s.peers && Plentiful(s.peers[key]) == 1 ==> Fingerprintable(s.peers[key]) && Active(s.peers[key]) == 1)
            && c.uniqueEndpoints <= c.connectionsObserved
            && (c.uniqueEndpoints == c.connectionsObserved <==> forall ep :: Connections(log, ep) <= 1)
            && c.connectionsObserved == s.disconnects + |s.live|
  {
    CloseKeepsCounts(Run(start, log), end);
    ObservationsAreOrdered(start, log);
    hide Run, ForAll, MapSum, Connections, Apply;
  }

  lemma ObservationsAreOrdered(start: int, log: seq<Alert>)
    ensures var s := Run(start, log); var c := Observations(s.endpoints, s.peers);
            && 0 <= c.fingerprintable <= c.activeConnections <= c.connectionsObserved
            && c.fingerprintable == MapSum(s.peers, Plentiful)
            && (forall key :: key in s.peers && Plentiful(s.peers[key]) == 1 ==> Fingerprintable(s.peers[key]) && Active(s.peers[key]) == 1)
            && c.uniqueEndpoints <= c.connectionsObserved
            && (c.uniqueEndpoints == c.connectionsObserved <==> forall ep :: Connections(log, ep) <= 1)
            && c.connectionsObserved == s.disconnects + |s.live|
  {
    var s := Run(start, log);
    BooksBalance(start, log);
    hide Run, MapSum, Connections;
    forall key | key in s.peers ensures Plentiful(s.peers[key]) == Printable(s.peers[key]) <= Active(s.peers[key]) {
      SamplesAreActivity(s.peers[key]);
    }
    MapSumBound(s.peers, Printable, Plentiful);
    MapSumBound(s.peers, Plentiful, Printable);
    MapSumBound(s.peers, Printable, Active);
    MapSumBound(s.peers, Active, v => 1);
    MapSumBound(s.peers, v => 0, Printable);
    MapSumOfZeros(s.peers);
    MapSumOfOnes(s.peers);
    forall ep ensures ep in s.sequence <==> Connections(log, ep) > 0
              ensures ep in s.sequence ==> s.sequence[ep] == Connections(log, ep)
    {
      RegistryFollowsLog(start, log, ep, 0);
    }
    SumOfPositives(s.sequence);
    assert |s.endpoints| == |s.sequence|;
  }

  lemma {:induction false} MapSumOfZeros<K, V>(m: map<K, V>)
    ensures MapSum(m, v => 0) == 0
    decreases |m|
  {
    if |m| > 0 {
      var k :| k in m;
      MapRemoveSize(m, k);
      MapSumRemove(m, k, v => 0);
      MapSumOfZeros(m - {k});
    }
  }
}
