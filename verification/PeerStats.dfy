/** `PeerStats` of src/peer_stats.cpp: one observed connection, updated in place by its handlers.
    Its fields are grouped by measurement, as in PeerModel. */
module PeerStatistics {
  import opened Wrappers
  import opened PeerModel

  class PeerStats {
    const peerKey: string
    const endpointKey: string
    var times: Times
    var activeConnection: bool
    var sawConnectAlert: bool
    var snubbed: bool
    var counters: Counters
    var totalDownloadBytes: int
    var totalUploadBytes: int
    var sent: Gaps
    var received: Gaps
    var uploaded: Gaps
    var interactions: Interactions
    var requests: Requests
    var uploads: Uploads
    var bursts: Bursts
    var activity: Activity
    var chokes: Chokes

    /** The record as a value. */
    ghost function View(): PeerState
      reads this
    {
      PeerState(peerKey, endpointKey, times, activeConnection, sawConnectAlert, snubbed, counters,
                totalDownloadBytes, totalUploadBytes, sent, received, uploaded, interactions,
                requests, uploads, bursts, activity, chokes)
    }

    constructor (peerKey: string, endpointKey: string, now: int)
      ensures View() == NewPeer(peerKey, endpointKey, now)
    {
      this.peerKey, this.endpointKey := peerKey, endpointKey;
      times := Times(now, now, now, 0);
      activeConnection, sawConnectAlert, snubbed := true, false, false;
      counters := Counters(0, 0, 0, 0, 0, 0, 0, 0, 0);
      totalDownloadBytes, totalUploadBytes := 0, 0;
      sent, received, uploaded := Gaps(None, None, []), Gaps(None, None, []), Gaps(None, None, []);
      interactions := Interactions(None, []);
      requests := Requests(map[], [], []);
      uploads := Uploads(map[], []);
      bursts := Bursts(false, 0, 0, 0, [], [], []);
      activity := Activity(Some(now), true, 0, 0);
      chokes := Chokes(false, false, false, 0, 0, 0, 0);
    }

    method MarkSeen(now: int)
      modifies this`times
      ensures times == PeerModel.MarkSeen(old(times), now)
    {
      if times.firstSeen == 0 {
        times := times.(firstSeen := now);
      }
      times := times.(lastSeen := now);
    }

    method NoteInteraction(now: int)
      modifies this`interactions
      ensures interactions == PeerModel.NoteInteraction(old(interactions), now)
    {
      if interactions.last.Some? && now > interactions.last.value {
        interactions := interactions.(gaps := interactions.gaps + [NsToMs(now - interactions.last.value)]);
      }
      interactions := interactions.(last := Some(now));
    }

    /** How the handler of every exchange begins. */
    method Touch(now: int)
      modifies this`times, this`interactions
      ensures times == PeerModel.MarkSeen(old(times), now)
      ensures interactions == PeerModel.NoteInteraction(old(interactions), now)
    {
      MarkSeen(now);
      NoteInteraction(now);
    }

    method FlushIncomingRequestBurst()
      modifies this`bursts
      ensures bursts == FlushBurst(old(bursts))
    {
      if !bursts.active {
        return;
      }
      bursts := bursts.(sizes := bursts.sizes + [bursts.size as real]);
      bursts := bursts.(durations := bursts.durations + [NsToMs(bursts.last - bursts.start)]);
      bursts := bursts.(active := false, size := 0, start := 0, last := 0);
    }

    method NoteIncomingRequestBurst(now: int)
      modifies this`bursts
      ensures bursts == NoteBurst(old(bursts), now)
    {
      if !bursts.active {
        bursts := bursts.(active := true, size := 1, start := now, last := now);
        return;
      }
      var gap := NsToMs(now - bursts.last);
      if gap <= BURST_GAP_MS {
        bursts := bursts.(size := bursts.size + 1, last := now);
        return;
      }
      FlushIncomingRequestBurst();
      bursts := bursts.(idleGaps := bursts.idleGaps + [gap]);
      bursts := bursts.(active := true, size := 1, start := now, last := now);
    }

    /** The pacing of sends, of requests received and of uploads is kept the same way. */
    method Paced(gaps: Gaps, now: int) returns (r: Gaps)
      ensures r == NoteGap(gaps, times.connected, now)
    {
      r := gaps;
      if r.last.Some? {
        r := r.(samples := r.samples + [NsToMs(now - r.last.value)]);
      } else if times.connected != 0 {
        r := r.(firstDelay := Some(NsToMs(now - times.connected)));
      }
      r := r.(last := Some(now));
    }

    method RecordOutstandingDepth(depth: int)
      modifies this`requests
      ensures requests == old(requests).(depths := old(requests).depths + [depth as real])
    {
      requests := requests.(depths := requests.depths + [depth as real]);
    }

    method AdvanceActivityWindow(now: int, activeNow: bool)
      modifies this`activity
      ensures activity == AdvanceActivity(old(activity), now, activeNow)
    {
      if activity.last.Some? && now > activity.last.value {
        var delta := now - activity.last.value;
        if activity.wasActive {
          activity := activity.(activeNs := activity.activeNs + delta);
        } else {
          activity := activity.(idleNs := activity.idleNs + delta);
        }
      }
      activity := activity.(last := Some(now), wasActive := activeNow);
    }

    /** What `note_peer_event` does to the record it finds. */
    method NoteSeen(now: int)
      modifies this
      ensures View() == Apply(old(View()), Seen(now))
    {
      MarkSeen(now);
    }

    method NoteConnect(now: int)
      modifies this
      ensures View() == Apply(old(View()), Connected(now))
    {
      ghost var before := View();
      ConnectedApplied(before, now);
      hide Apply;
      MarkSeen(now);
      activeConnection := true;
      if times.connected == 0 {
        times := times.(connected := now);
      }
      if activity.last.None? {
        activity := activity.(last := Some(now));
      }
      sawConnectAlert := true;
    }

    method NoteDisconnect(now: int)
      modifies this
      ensures View() == Apply(old(View()), Disconnected(now))
    {
      ghost var before := View();
      DisconnectedApplied(before, now);
      hide Apply, FlushBurst, AdvanceActivity, Sampled, PeerModel.MarkSeen;
      MarkSeen(now);
      CloseMeasurements(now);
      ForgetAll();
    }

    /** The part of `note_disconnect` that ends the open burst, the active time and the connection. */
    method CloseMeasurements(now: int)
      modifies this`bursts, this`activity, this`times, this`activeConnection
      ensures bursts == FlushBurst(old(bursts)) && activity == AdvanceActivity(old(activity), now, false)
      ensures times == old(times).(disconnected := now) && !activeConnection
    {
      FlushIncomingRequestBurst();
      AdvanceActivityWindow(now, false);
      times := times.(disconnected := now);
      activeConnection := false;
    }

    /** Whatever waits is given up on. */
    method ForgetAll()
      modifies this`requests, this`uploads
      ensures requests == Sampled(old(requests).(outstanding := map[])) && uploads == old(uploads).(pending := map[])
    {
      requests := requests.(outstanding := map[]);
      uploads := uploads.(pending := map[]);
      RecordOutstandingDepth(0);
    }

    method NoteRequestSent(now: int, key: RequestKey)
      modifies this
      ensures View() == Apply(old(View()), Sent(now, key))
    {
      ghost var before := View();
      SentApplied(before, now, key);
      hide Apply, StepRequests, PeerModel.NoteInteraction, NoteGap;
      Touch(now);
      counters := counters.(requestsSent := counters.requestsSent + 1);
      sent := Paced(sent, now);
      AwaitAnswer(now, key);
    }

    method AwaitAnswer(now: int, key: RequestKey)
      modifies this`requests
      ensures requests == StepRequests(old(requests), activeConnection, Sent(now, key))
    {
      requests := requests.(outstanding := requests.outstanding[key := now]);
      RecordOutstandingDepth(|requests.outstanding|);
    }

    method NoteBlockResponse(now: int, key: RequestKey)
      modifies this
      ensures View() == Apply(old(View()), Responded(now, key))
    {
      ghost var before := View();
      RespondedApplied(before, now, key);
      hide Apply, StepRequests, PeerModel.MarkSeen, PeerModel.NoteInteraction;
      Touch(now);
      counters := counters.(blockResponses := counters.blockResponses + 1);
      MatchResponse(now, key);
    }

    /** The part of `note_block_response` that measures and forgets the request. */
    method MatchResponse(now: int, key: RequestKey)
      modifies this`requests
      ensures requests == StepRequests(old(requests), activeConnection, Responded(now, key))
    {
      if key in requests.outstanding {
        requests := requests.(latencies := requests.latencies + [NsToMs(now - requests.outstanding[key])]);
        requests := requests.(outstanding := requests.outstanding - {key});
      }
      RecordOutstandingDepth(|requests.outstanding|);
    }

    /** A request is given up on. */
    method Forget(key: RequestKey)
      modifies this`requests
      ensures requests == Sampled(old(requests).(outstanding := old(requests).outstanding - {key}))
    {
      requests := requests.(outstanding := requests.outstanding - {key});
      RecordOutstandingDepth(|requests.outstanding|);
    }

    method NoteTimeout(now: int, key: RequestKey)
      modifies this
      ensures View() == Apply(old(View()), TimedOut(now, key))
    {
      ghost var before := View();
      TimedOutApplied(before, now, key);
      hide Apply, PeerModel.MarkSeen, PeerModel.NoteInteraction, Sampled;
      Touch(now);
      counters := counters.(timeouts := counters.timeouts + 1);
      Forget(key);
    }

    method NoteDrop(now: int, key: RequestKey)
      modifies this
      ensures View() == Apply(old(View()), Dropped(now, key))
    {
      ghost var before := View();
      DroppedApplied(before, now, key);
      hide Apply, PeerModel.MarkSeen, PeerModel.NoteInteraction, Sampled;
      Touch(now);
      counters := counters.(drops := counters.drops + 1);
      Forget(key);
    }

    method NoteIncomingRequest(now: int, request: PeerRequest)
      modifies this
      ensures View() == Apply(old(View()), Requested(now, request))
    {
      ghost var before := View();
      RequestedApplied(before, now, request);
      hide Apply, StepUploads, PeerModel.NoteInteraction, NoteGap, NoteBurst;
      Touch(now);
      counters := counters.(incomingRequests := counters.incomingRequests + 1);
      PaceRequest(now);
      QueueUpload(now, request);
    }

    /** The part of `note_incoming_request` that measures gaps and bursts. */
    method PaceRequest(now: int)
      modifies this`received, this`bursts
      ensures received == NoteGap(old(received), times.connected, now) && bursts == NoteBurst(old(bursts), now)
    {
      received := Paced(received, now);
      NoteIncomingRequestBurst(now);
    }

    method QueueUpload(now: int, request: PeerRequest)
      modifies this`uploads
      ensures uploads == StepUploads(old(uploads), activeConnection, Requested(now, request))
    {
      var key := KeyOf(request);
      var queue := if key in uploads.pending then uploads.pending[key] else [];
      uploads := uploads.(pending := uploads.pending[key := queue + [now]]);
    }

    method NoteBlockUploaded(now: int, key: RequestKey)
      modifies this
      ensures View() == Apply(old(View()), Uploaded(now, key))
    {
      ghost var before := View();
      UploadedApplied(before, now, key);
      hide Apply, StepUploads, PeerModel.NoteInteraction, NoteGap;
      Touch(now);
      counters := counters.(blocksUploaded := counters.blocksUploaded + 1);
      uploaded := Paced(uploaded, now);
      MatchUpload(now, key);
    }

    /** The part of `note_block_uploaded` that matches the oldest waiting request. */
    method MatchUpload(now: int, key: RequestKey)
      modifies this`uploads
      ensures uploads == StepUploads(old(uploads), activeConnection, Uploaded(now, key))
    {
      if key in uploads.pending && |uploads.pending[key]| > 0 {
        var requestNs := uploads.pending[key][0];
        uploads := uploads.(pending := uploads.pending[key := uploads.pending[key][1..]]);
        if now >= requestNs {
          uploads := uploads.(latencies := uploads.latencies + [NsToMs(now - requestNs)]);
        }
        if |uploads.pending[key]| == 0 {
          uploads := uploads.(pending := uploads.pending - {key});
          assert uploads.pending == old(uploads).pending - {key};
        }
      }
    }

    method NoteSnubbed(now: int)
      modifies this
      ensures View() == Apply(old(View()), Snubbed(now))
    {
      Touch(now);
      counters := counters.(snubbed := counters.snubbed + 1);
      snubbed := true;
    }

    method NoteUnsnubbed(now: int)
      modifies this
      ensures View() == Apply(old(View()), Unsnubbed(now))
    {
      Touch(now);
      counters := counters.(unsnubbed := counters.unsnubbed + 1);
      snubbed := false;
    }

    method UpdateFromSnapshot(info: PeerInfo, now: int, intervalMs: int)
      modifies this
      ensures View() == Apply(old(View()), Observed(now, info, intervalMs))
    {
      ghost var before := View();
      ObservedApplied(before, now, info, intervalMs);
      hide Apply, CountFlags, StepActivity, StepInteractions, MaxOf, PeerModel.MarkSeen;
      NoteTraffic(info, now);
      CountFlagEdges(info);
      snubbed := info.snubbed;
      NoteSnapshotActivity(info, now, intervalMs);
    }

    /** The part of `update_from_snapshot` that takes over totals and samples the depth. */
    method NoteTraffic(info: PeerInfo, now: int)
      modifies this`times, this`totalDownloadBytes, this`totalUploadBytes, this`requests
      ensures times == PeerModel.MarkSeen(old(times), now)
      ensures totalDownloadBytes == info.totalDownload && totalUploadBytes == info.totalUpload
      ensures requests == old(requests).(depths := old(requests).depths + [MaxOf(|old(requests).outstanding|, info.downloadQueue) as real])
    {
      MarkSeen(now);
      totalDownloadBytes, totalUploadBytes := info.totalDownload, info.totalUpload;
      RecordOutstandingDepth(MaxOf(|requests.outstanding|, info.downloadQueue));
    }

    /** The part of `update_from_snapshot` that judges whether the peer is active. */
    method NoteSnapshotActivity(info: PeerInfo, now: int, intervalMs: int)
      modifies this`activity, this`interactions
      ensures activity == StepActivity(old(activity), activeConnection, Observed(now, info, intervalMs))
      ensures interactions == StepInteractions(old(interactions), Observed(now, info, intervalMs))
    {
      var activeNow := RecentlyActive(info, intervalMs);
      AdvanceActivityWindow(now, activeNow);
      if activeNow {
        if interactions.last.None? || now - interactions.last.value >= intervalMs * 1000000 {
          NoteInteraction(now);
        }
      }
    }

    /** The part of `update_from_snapshot` that counts changes of the choke flags. */
    method CountFlagEdges(info: PeerInfo)
      modifies this`chokes
      ensures chokes == CountFlags(old(chokes), info)
    {
      if chokes.initialized {
        if !chokes.remote && info.remoteChoked { chokes := chokes.(choked := chokes.choked + 1); }
        if chokes.remote && !info.remoteChoked { chokes := chokes.(unchoked := chokes.unchoked + 1); }
        if !chokes.local && info.localChoked { chokes := chokes.(weChoked := chokes.weChoked + 1); }
        if chokes.local && !info.localChoked { chokes := chokes.(weUnchoked := chokes.weUnchoked + 1); }
      } else {
        chokes := chokes.(initialized := true);
      }
      chokes := chokes.(remote := info.remoteChoked, local := info.localChoked);
    }

    method Finalize(end: int)
      modifies this
      ensures View() == Apply(old(View()), Finalized(end))
    {
      ghost var before := View();
      FinalizedApplied(before, end);
      hide Apply, FlushBurst, AdvanceActivity;
      FlushIncomingRequestBurst();
      if activeConnection {
        NoteDisconnect(end);
      } else if activity.last.Some? {
        AdvanceActivityWindow(end, false);
      }
    }

    method ResetOutstandingRequests()
      modifies this
      ensures View() == Apply(old(View()), Lost)
    {
      ghost var before := View();
      LostApplied(before);
      hide Apply, Sampled;
      ForgetAll();
    }

    /** One more piece is attributed to this connection; the session does this itself
        (`SessionStats::note_piece_finished`). */
    method CreditPiece()
      modifies this
      ensures View() == Apply(old(View()), Credited)
    {
      counters := counters.(piecesFinished := counters.piecesFinished + 1);
    }
  }
}
