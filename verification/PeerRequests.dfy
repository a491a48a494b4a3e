/** The table of outstanding requests and the upload queues of a record, against its history. */
module PeerRequests {
  import opened Sums
  import opened PeerModel
  import opened PeerTimes

  // ----- Outstanding requests -----

  /** What ends the wait for an answer to a request for `key`. */
  predicate Ends(e: PeerEvent, key: RequestKey) {
    || (e.Responded? && e.key == key) || (e.TimedOut? && e.key == key) || (e.Dropped? && e.key == key)
    || e.Disconnected? || e.Lost? || e.Finalized?
  }

  predicate Sends(e: PeerEvent, key: RequestKey) {
    e.Sent? && e.key == key
  }

  /** Event `i` is a request for `key` that nothing after it has repeated or ended. */
  predicate Unanswered(h: seq<PeerEvent>, key: RequestKey, i: int) {
    && 0 <= i < |h| && Sends(h[i], key)
    && forall j :: i < j < |h| ==> !Sends(h[j], key) && !Ends(h[j], key)
  }

  lemma UnansweredStep(h: seq<PeerEvent>, key: RequestKey, i: int)
    requires |h| > 0
    ensures Unanswered(h, key, i) <==>
              if i == |h| - 1 then Sends(Last(h), key)
              else Unanswered(Front(h), key, i) && !Sends(Last(h), key) && !Ends(Last(h), key)
  {
    var front := Front(h);
    if i != |h| - 1 && Unanswered(h, key, i) {
      forall j | i < j < |front| ensures !Sends(front[j], key) && !Ends(front[j], key) {
        assert front[j] == h[j];
      }
    }
    if i != |h| - 1 && Unanswered(front, key, i) && !Sends(Last(h), key) && !Ends(Last(h), key) {
      forall j | i < j < |h| ensures !Sends(h[j], key) && !Ends(h[j], key) {
        assert j < |front| ==> front[j] == h[j];
      }
    }
  }

  /** The table holds exactly the unanswered requests, each with the time it was last sent. */
  ghost predicate TableMatches(outstanding: map<RequestKey, int>, h: seq<PeerEvent>, key: RequestKey) {
    && (key in outstanding ==> exists i :: Unanswered(h, key, i))
    && (forall i :: Unanswered(h, key, i) ==> key in outstanding && outstanding[key] == h[i].now)
  }

  /** A closed record holds no requests, and waits for no uploads. */
  lemma {:induction false} ClosedHoldsNothing(b: Birth, h: seq<PeerEvent>)
    requires b.now > 0 && WellFormed(b.now, h) && !Open(h)
    ensures Record(b, h).requests.outstanding == map[] && Record(b, h).uploads.pending == map[]
  {
    hide Record, WellFormed;
    RequestsAfter(b, h);
    UploadsAfter(b, h);
    WellFormedFront(b.now, h);
    var front, e := Front(h), Last(h);
    if Open(front) {
      ClocksAfter(b, front);
      assert Closes(Record(b, front).live, e);
    } else {
      ClosedHoldsNothing(b, front);
    }
  }

  lemma OutstandingStep(r: Requests, live: bool, e: PeerEvent, key: RequestKey)
    requires e.Finalized? ==> live || r.outstanding == map[]
    ensures var after := StepRequests(r, live, e).outstanding;
            if Sends(e, key) then key in after && after[key] == e.now
            else if Ends(e, key) then key !in after
            else (key in after <==> key in r.outstanding) && (key in after ==> after[key] == r.outstanding[key])
  {
    hide Sampled, NsToMs, MaxOf;
  }

  lemma TableStep(r: Requests, live: bool, h: seq<PeerEvent>, key: RequestKey)
    requires |h| > 0 && TableMatches(r.outstanding, Front(h), key)
    requires Last(h).Finalized? ==> live || r.outstanding == map[]
    ensures TableMatches(StepRequests(r, live, Last(h)).outstanding, h, key)
  {
    hide StepRequests;
    var front, e := Front(h), Last(h);
    var after := StepRequests(r, live, e).outstanding;
    OutstandingStep(r, live, e, key);
    hide Unanswered;
    forall i | Unanswered(h, key, i) ensures key in after && after[key] == h[i].now {
      UnansweredStep(h, key, i);
    }
    if key in after {
      if Sends(e, key) {
        UnansweredStep(h, key, |h| - 1);
      } else {
        var i :| Unanswered(front, key, i);
        UnansweredStep(h, key, i);
      }
    }
  }

  /** For every history and key: the key is outstanding exactly when some request for it is
      unanswered, and the time kept is that request's. */
  lemma {:induction false} OutstandingIsUnanswered(b: Birth, h: seq<PeerEvent>, key: RequestKey)
    requires b.now > 0 && WellFormed(b.now, h)
    ensures TableMatches(Record(b, h).requests.outstanding, h, key)
  {
    hide Record, WellFormed, StepRequests;
    RequestsAfter(b, h);
    if |h| > 0 {
      var front, e := Front(h), Last(h);
      WellFormedFront(b.now, h);
      OutstandingIsUnanswered(b, front, key);
      ClocksAfter(b, front);
      if e.Finalized? && !Open(front) {
        ClosedHoldsNothing(b, front);
      }
      TableStep(Record(b, front).requests, Record(b, front).live, h, key);
    }
  }

  lemma WellFormedFront(start: int, h: seq<PeerEvent>)
    requires |h| > 0 && WellFormed(start, h)
    ensures WellFormed(start, Front(h))
    ensures Timed(Last(h)) ==> LastTime(start, Front(h)) <= Last(h).now
    ensures Open(Front(h)) || Last(h).Lost? || Last(h).Credited? || Last(h).Finalized?
  {
  }

  // ----- Outstanding depth -----

  /** The requests, by position, that still wait for an answer at the end of a history. */
  ghost function UnansweredRequests(h: seq<PeerEvent>): set<int> {
    set i | 0 <= i < |h| && h[i].Sent? && Unanswered(h, h[i].key, i)
  }

  /** What the depth samples should be: after every exchange of requests, every loss and every close, the
      number of requests that wait then; at a snapshot that number or the peer's own, whichever is larger. */
  ghost function Depths(h: seq<PeerEvent>): seq<real> {
    if |h| == 0 then []
    else
      var front, e := h[..|h| - 1], h[|h| - 1];
      if e.Observed? then
        Depths(front) + [(if |UnansweredRequests(h)| < e.info.downloadQueue then e.info.downloadQueue else |UnansweredRequests(h)|) as real]
      else if e.Sent? || e.Responded? || e.TimedOut? || e.Dropped? || e.Lost? || e.Disconnected? || (e.Finalized? && Open(front))
      then Depths(front) + [|UnansweredRequests(h)| as real]
      else Depths(front)
  }

  lemma {:induction false} KeysAreCounted(h: seq<PeerEvent>, waiting: set<int>, n: nat)
    requires n <= |h| && (forall i :: i in waiting ==> 0 <= i < n) && forall i :: i in waiting ==> h[i].Sent?
    requires forall i, j :: i in waiting && j in waiting && h[i].key == h[j].key ==> i == j
    ensures |set i | i in waiting :: h[i].key| == |waiting|
  {
    var keys := set i | i in waiting :: h[i].key;
    if n == 0 {
      assert forall i :: i !in waiting;
    } else if n - 1 in waiting {
      var rest := waiting - {n - 1};
      KeysAreCounted(h, rest, n - 1);
      assert keys - {h[n - 1].key} == set i | i in rest :: h[i].key;
    } else {
      KeysAreCounted(h, waiting, n - 1);
    }
  }

  /** The table has one entry for each request that waits. */
  lemma OutstandingCounted(b: Birth, h: seq<PeerEvent>)
    requires b.now > 0 && WellFormed(b.now, h)
    ensures |Record(b, h).requests.outstanding| == |UnansweredRequests(h)|
  {
    hide Record, WellFormed;
    var outstanding, waiting := Record(b, h).requests.outstanding, UnansweredRequests(h);
    forall key ensures TableMatches(outstanding, h, key) {
      OutstandingIsUnanswered(b, h, key);
    }
    SameKeys(outstanding, h);
    forall i, j | i in waiting && j in waiting && h[i].key == h[j].key ensures i == j {
      OnlyOneUnanswered(h, h[i].key, i, j);
    }
    KeysAreCounted(h, waiting, |h|);
  }

  lemma SameKeys(outstanding: map<RequestKey, int>, h: seq<PeerEvent>)
    requires forall key :: TableMatches(outstanding, h, key)
    ensures outstanding.Keys == set i | i in UnansweredRequests(h) :: h[i].key
  {
    forall key | key in outstanding ensures exists i :: i in UnansweredRequests(h) && h[i].key == key {
      assert TableMatches(outstanding, h, key);
      var i :| Unanswered(h, key, i);
      assert i in UnansweredRequests(h);
    }
    forall i | i in UnansweredRequests(h) ensures h[i].key in outstanding {
      assert TableMatches(outstanding, h, h[i].key);
    }
  }

  lemma OnlyOneUnanswered(h: seq<PeerEvent>, key: RequestKey, i: int, j: int)
    requires Unanswered(h, key, i) && Unanswered(h, key, j)
    ensures i == j
  {
  }

  /** After a loss or a close nothing waits. */
  lemma NothingWaitsAfterClear(h: seq<PeerEvent>)
    requires |h| > 0 && (Last(h).Lost? || Last(h).Disconnected? || Last(h).Finalized?)
    ensures UnansweredRequests(h) == {}
  {
    forall i | 0 <= i < |h| && h[i].Sent? ensures !Unanswered(h, h[i].key, i) {
      assert Ends(Last(h), h[i].key);
    }
  }

  /** For every history the depth samples count the requests that wait, and are zero after a loss
      or a close. */
  lemma {:induction false} DepthsCountUnanswered(b: Birth, h: seq<PeerEvent>)
    requires b.now > 0 && WellFormed(b.now, h)
    ensures Record(b, h).requests.depths == Depths(h)
    ensures |h| > 0 && (Last(h).Lost? || Last(h).Disconnected? || (Last(h).Finalized? && Open(Front(h)))) ==>
              |Depths(h)| > 0 && Depths(h)[|Depths(h)| - 1] == 0.0
  {
    hide Record, WellFormed, UnansweredRequests;
    RequestsAfter(b, h);
    if |h| > 0 {
      var front, e := Front(h), Last(h);
      WellFormedFront(b.now, h);
      DepthsCountUnanswered(b, front);
      OutstandingCounted(b, h);
      ClocksAfter(b, front);
      if e.Lost? || e.Disconnected? || e.Finalized? { NothingWaitsAfterClear(h); }
      DepthStep(Record(b, front).requests, Record(b, front).live, e);
    }
  }

  /** The depth sampled at a snapshot is at least the number of requests that wait and at least the peer's own
      queue, and one of the two. */
  lemma SnapshotDepth(b: Birth, h: seq<PeerEvent>)
    requires b.now > 0 && WellFormed(b.now, h) && |h| > 0 && Last(h).Observed?
    ensures var depths, waiting, queue := Record(b, h).requests.depths, |UnansweredRequests(h)|, Last(h).info.downloadQueue;
            && |depths| == |Record(b, Front(h)).requests.depths| + 1
            && var depth := depths[|depths| - 1];
               depth >= waiting as real && depth >= queue as real && (depth == waiting as real || depth == queue as real)
  {
    hide Record, WellFormed, UnansweredRequests;
    DepthsCountUnanswered(b, h);
    WellFormedFront(b.now, h);
    DepthsCountUnanswered(b, Front(h));
  }

  /** Which events sample the depth, and what of. */
  lemma DepthStep(r: Requests, live: bool, e: PeerEvent)
    ensures var s := StepRequests(r, live, e);
            s.depths == r.depths +
              (if e.Observed? then [MaxOf(|s.outstanding|, e.info.downloadQueue) as real]
               else if e.Sent? || e.Responded? || e.TimedOut? || e.Dropped? || Clears(live, e) then [|s.outstanding| as real]
               else [])
  {
    hide NsToMs, MaxOf;
  }

  // ----- Block latencies -----

  /** Event `j` answers request `i`, which was still unanswered when the answer came. */
  ghost predicate Answers(h: seq<PeerEvent>, i: int, j: int) {
    && 0 <= i < j < |h| && h[j].Responded? && Unanswered(h[..j], h[j].key, i)
  }

  /** `pairs` lists all answered requests with their answers, in the order of the answers. */
  ghost predicate ListsAnswers(h: seq<PeerEvent>, pairs: seq<(int, int)>) {
    && (forall n :: 0 <= n < |pairs| ==> Answers(h, pairs[n].0, pairs[n].1))
    && (forall m, n :: 0 <= m < n < |pairs| ==> pairs[m].1 < pairs[n].1)
    && (forall i, j :: Answers(h, i, j) ==> (i, j) in pairs)
  }

  ghost predicate LatenciesOf(h: seq<PeerEvent>, pairs: seq<(int, int)>, latencies: seq<real>)
    requires ListsAnswers(h, pairs)
  {
    && |latencies| == |pairs|
    && forall n :: 0 <= n < |pairs| ==> latencies[n] == NsToMs(h[pairs[n].1].now - h[pairs[n].0].now)
  }

  lemma AnswersInFront(h: seq<PeerEvent>, i: int, j: int)
    requires |h| > 0 && j < |h| - 1
    ensures Answers(h, i, j) <==> Answers(Front(h), i, j)
  {
    if 0 <= j { assert Front(h)[..j] == h[..j]; }
  }

  lemma SameAnswers(h: seq<PeerEvent>, pairs: seq<(int, int)>, latencies: seq<real>)
    requires |h| > 0 && ListsAnswers(Front(h), pairs) && LatenciesOf(Front(h), pairs, latencies)
    requires forall i, j :: Answers(h, i, j) ==> j < |h| - 1
    ensures ListsAnswers(h, pairs) && LatenciesOf(h, pairs, latencies)
  {
    forall n | 0 <= n < |pairs| ensures Answers(h, pairs[n].0, pairs[n].1) {
      AnswersInFront(h, pairs[n].0, pairs[n].1);
    }
    forall i, j | Answers(h, i, j) ensures (i, j) in pairs {
      AnswersInFront(h, i, j);
    }
  }

  lemma OneMoreAnswer(h: seq<PeerEvent>, pairs: seq<(int, int)>, latencies: seq<real>, i: int)
    requires |h| > 0 && ListsAnswers(Front(h), pairs) && LatenciesOf(Front(h), pairs, latencies)
    requires Answers(h, i, |h| - 1)
    ensures var more := pairs + [(i, |h| - 1)];
            ListsAnswers(h, more) && LatenciesOf(h, more, latencies + [NsToMs(Last(h).now - h[i].now)])
  {
    var more := pairs + [(i, |h| - 1)];
    forall n | 0 <= n < |more| ensures Answers(h, more[n].0, more[n].1) {
      if n < |pairs| { AnswersInFront(h, pairs[n].0, pairs[n].1); }
    }
    forall a, j | Answers(h, a, j) ensures (a, j) in more {
      if j < |h| - 1 {
        AnswersInFront(h, a, j);
        assert (a, j) in pairs;
      } else {
        OnlyOneUnanswered(h[..j], h[j].key, a, i);
        assert more[|pairs|] == (i, |h| - 1);
      }
    }
  }

  /** The block latencies are exactly the times from each answered request to its answer: one
      sample for every pair, in order, none twice and none from before a loss of alerts. */
  lemma {:induction false} LatenciesPairAnswers(b: Birth, h: seq<PeerEvent>) returns (pairs: seq<(int, int)>)
    requires b.now > 0 && WellFormed(b.now, h)
    ensures ListsAnswers(h, pairs) && LatenciesOf(h, pairs, Record(b, h).requests.latencies)
  {
    hide Record, WellFormed, ListsAnswers, LatenciesOf;
    RequestsAfter(b, h);
    if |h| == 0 {
      pairs := [];
      NoAnswers();
    } else {
      var front, e := Front(h), Last(h);
      WellFormedFront(b.now, h);
      pairs := LatenciesPairAnswers(b, front);
      if e.Responded? { OutstandingIsUnanswered(b, front, e.key); }
      pairs := AnswersStep(Record(b, front).requests, Record(b, front).live, h, pairs);
    }
  }

  lemma AnswersStep(r: Requests, live: bool, h: seq<PeerEvent>, pairs: seq<(int, int)>) returns (more: seq<(int, int)>)
    requires |h| > 0 && ListsAnswers(Front(h), pairs) && LatenciesOf(Front(h), pairs, r.latencies)
    requires Last(h).Responded? ==> TableMatches(r.outstanding, Front(h), Last(h).key)
    ensures ListsAnswers(h, more) && LatenciesOf(h, more, StepRequests(r, live, Last(h)).latencies)
  {
    hide ListsAnswers, LatenciesOf, Sampled, NsToMs, MaxOf;
    var front, e := Front(h), Last(h);
    if e.Responded? && e.key in r.outstanding {
      var i :| Unanswered(front, e.key, i);
      assert Answers(h, i, |h| - 1);
      OneMoreAnswer(h, pairs, r.latencies, i);
      more := pairs + [(i, |h| - 1)];
    } else {
      SameAnswers(h, pairs, r.latencies);
      more := pairs;
    }
  }

  lemma NoAnswers()
    ensures ListsAnswers([], []) && LatenciesOf([], [], [])
  {
  }

  lemma {:induction false} TimesAreOrdered(start: int, h: seq<PeerEvent>, i: int, j: int)
    requires WellFormed(start, h) && 0 <= i < j < |h| && Timed(h[i]) && Timed(h[j])
    ensures start <= h[i].now <= h[j].now
  {
    var front := Front(h);
    if j < |h| - 1 {
      TimesAreOrdered(start, front, i, j);
    } else {
      NotAfterLast(start, front, i);
    }
  }

  lemma {:induction false} NotAfterLast(start: int, h: seq<PeerEvent>, i: int)
    requires WellFormed(start, h) && 0 <= i < |h| && Timed(h[i])
    ensures start <= h[i].now <= LastTime(start, h)
  {
    TimesAscend(start, Front(h), Sending);
    if i < |h| - 1 {
      NotAfterLast(start, Front(h), i);
    }
  }

  /** Every block latency is nonnegative and within the age of the connection at the answer. */
  lemma LatenciesWithinConnection(b: Birth, h: seq<PeerEvent>, n: int)
    requires b.now > 0 && WellFormed(b.now, h) && 0 <= n < |Record(b, h).requests.latencies|
    ensures exists i, j :: Answers(h, i, j)
              && Record(b, h).requests.latencies[n] == NsToMs(h[j].now - h[i].now)
              && 0.0 <= Record(b, h).requests.latencies[n] <= NsToMs(h[j].now - Record(b, h).times.connected)
  {
    hide Record, WellFormed;
    var pairs := LatenciesPairAnswers(b, h);
    var i, j := pairs[n].0, pairs[n].1;
    assert Answers(h, i, j);
    TimesAreOrdered(b.now, h, i, j);
    ClocksAfter(b, h);
  }

  // ----- Upload queues -----

  /** When requests for `key` were received. */
  function RequestTimes(h: seq<PeerEvent>, key: RequestKey): seq<int> {
    if |h| == 0 then []
    else
      var before, e := RequestTimes(h[..|h| - 1], key), h[|h| - 1];
      if e.Requested? && KeyOf(e.request) == key then before + [e.now] else before
  }

  /** How many requests for `key` wait: each request adds one, each upload takes one if there
      is one, and closing or losing alerts drops them all. */
  function Waiting(h: seq<PeerEvent>, key: RequestKey): (n: nat)
    ensures n <= |RequestTimes(h, key)|
  {
    if |h| == 0 then 0
    else
      var before, e := Waiting(h[..|h| - 1], key), h[|h| - 1];
      if e.Requested? && KeyOf(e.request) == key then before + 1
      else if e.Uploaded? && e.key == key then (if before > 0 then before - 1 else 0)
      else if e.Disconnected? || e.Lost? || e.Finalized? then 0
      else before
  }

  /** The requests that wait: the last received ones. */
  function WaitingTimes(h: seq<PeerEvent>, key: RequestKey): (ts: seq<int>)
    ensures |ts| == Waiting(h, key)
  {
    RequestTimes(h, key)[|RequestTimes(h, key)| - Waiting(h, key)..]
  }

  /** The latency of every upload that found a request waiting, measured from the oldest one. */
  function UploadLatencies(h: seq<PeerEvent>): seq<real> {
    if |h| == 0 then []
    else
      var front, e := h[..|h| - 1], h[|h| - 1];
      if e.Uploaded? && Waiting(front, e.key) > 0
      then UploadLatencies(front) + [NsToMs(e.now - WaitingTimes(front, e.key)[0])]
      else UploadLatencies(front)
  }

  /** There is a queue for `key` exactly when a request waits, and it holds `times`. */
  ghost predicate QueueHolds(pending: map<RequestKey, seq<int>>, key: RequestKey, times: seq<int>) {
    && (key in pending <==> |times| > 0)
    && (key in pending ==> pending[key] == times)
  }

  ghost predicate QueueMatches(pending: map<RequestKey, seq<int>>, h: seq<PeerEvent>, key: RequestKey) {
    QueueHolds(pending, key, WaitingTimes(h, key))
  }

  lemma {:induction false} RequestTimesBounded(start: int, h: seq<PeerEvent>, key: RequestKey)
    requires WellFormed(start, h)
    ensures Ascending(RequestTimes(h, key))
    ensures start <= LastTime(start, h)
    ensures forall i :: 0 <= i < |RequestTimes(h, key)| ==> RequestTimes(h, key)[i] <= LastTime(start, h)
  {
    if |h| > 0 {
      RequestTimesBounded(start, h[..|h| - 1], key);
    }
  }

  /** How one event changes which requests wait. */
  lemma WaitingStep(h: seq<PeerEvent>, key: RequestKey)
    requires |h| > 0
    ensures var front, e := Front(h), Last(h);
            WaitingTimes(h, key) ==
              if e.Requested? && KeyOf(e.request) == key then WaitingTimes(front, key) + [e.now]
              else if e.Uploaded? && e.key == key then
                (if Waiting(front, key) > 0 then WaitingTimes(front, key)[1..] else [])
              else if e.Disconnected? || e.Lost? || e.Finalized? then []
              else WaitingTimes(front, key)
  {
    hide KeyOf;
  }

  lemma QueueStep(u: Uploads, live: bool, h: seq<PeerEvent>, key: RequestKey)
    requires |h| > 0 && QueueMatches(u.pending, Front(h), key)
    requires Last(h).Uploaded? ==> QueueMatches(u.pending, Front(h), Last(h).key)
    requires Last(h).Requested? ==> QueueMatches(u.pending, Front(h), KeyOf(Last(h).request))
    requires Last(h).Finalized? ==> live || u.pending == map[]
    ensures QueueMatches(StepUploads(u, live, Last(h)).pending, h, key)
  {
    var front, e := Front(h), Last(h);
    WaitingStep(h, key);
    hide KeyOf, RequestTimes, Waiting, WaitingTimes, NsToMs;
    if e.Requested? {
      QueueGrows(u.pending, key, KeyOf(e.request), e.now, WaitingTimes(front, key));
    } else if e.Uploaded? {
      QueueServed(u, key, e.key, e.now, WaitingTimes(front, key));
    }
  }

  lemma QueueGrows(pending: map<RequestKey, seq<int>>, key: RequestKey, grown: RequestKey, now: int, times: seq<int>)
    requires QueueHolds(pending, key, times)
    ensures QueueHolds(pending[grown := (if grown in pending then pending[grown] else []) + [now]], key,
                       if grown == key then times + [now] else times)
  {
    if key !in pending { assert [] + [now] == times + [now]; }
  }

  lemma QueueServed(u: Uploads, key: RequestKey, served: RequestKey, now: int, times: seq<int>)
    requires QueueHolds(u.pending, key, times)
    ensures QueueHolds(StepUploads(u, true, Uploaded(now, served)).pending, key,
                       if served == key then (if |times| > 0 then times[1..] else []) else times)
  {
    hide NsToMs;
  }

  /** For every history and key: the queue holds the waiting request times, oldest first, and a
      key without waiting requests has no queue at all. */
  lemma {:induction false} QueuesAreFifo(b: Birth, h: seq<PeerEvent>, key: RequestKey)
    requires b.now > 0 && WellFormed(b.now, h)
    ensures QueueMatches(Record(b, h).uploads.pending, h, key)
    ensures Ascending(WaitingTimes(h, key))
  {
    WaitingAscends(b.now, h, key);
    hide Record, WellFormed, QueueMatches, StepUploads, Waiting, WaitingTimes, Ascending;
    UploadsAfter(b, h);
    if |h| == 0 {
      NoQueue(key);
    } else {
      var front, e := Front(h), Last(h);
      WellFormedFront(b.now, h);
      QueuesAreFifo(b, front, key);
      ClocksAfter(b, front);
      if e.Uploaded? { QueuesAreFifo(b, front, e.key); }
      if e.Requested? { QueuesAreFifo(b, front, KeyOf(e.request)); }
      if e.Finalized? && !Open(front) { ClosedHoldsNothing(b, front); }
      QueueStep(Record(b, front).uploads, Record(b, front).live, h, key);
    }
  }

  lemma WaitingAscends(start: int, h: seq<PeerEvent>, key: RequestKey)
    requires WellFormed(start, h)
    ensures Ascending(WaitingTimes(h, key))
  {
    RequestTimesBounded(start, h, key);
    hide WellFormed, RequestTimes, Waiting;
    var all, ts := RequestTimes(h, key), WaitingTimes(h, key);
    forall i | 0 <= i < |ts| - 1 ensures ts[i] <= ts[i + 1] {
      assert all[|all| - |ts| + i] <= all[|all| - |ts| + i + 1];
    }
  }

  lemma NoQueue(key: RequestKey)
    ensures QueueMatches(map[], [], key)
  {
  }

  /** The upload latencies are those of the matched uploads, and under a clock that never goes
      back the guard on negative latencies drops none. */
  lemma {:induction false} UploadsTakeOldest(b: Birth, h: seq<PeerEvent>)
    requires b.now > 0 && WellFormed(b.now, h)
    ensures Record(b, h).uploads.latencies == UploadLatencies(h)
    ensures forall n :: 0 <= n < |UploadLatencies(h)| ==> UploadLatencies(h)[n] >= 0.0
  {
    hide Record, WellFormed, QueueMatches, QueueHolds, StepUploads, NsToMs, Waiting, WaitingTimes;
    UploadsAfter(b, h);
    if |h| > 0 {
      var front, e := Front(h), Last(h);
      WellFormedFront(b.now, h);
      UploadsTakeOldest(b, front);
      if e.Uploaded? {
        QueuesAreFifo(b, front, e.key);
        WaitingBefore(b.now, front, e.key);
        TakenStep(Record(b, front).uploads, Record(b, front).live, front, e);
      } else {
        OnlyUploadsMeasure(Record(b, front).uploads, Record(b, front).live, e);
      }
    }
  }

  lemma WaitingBefore(start: int, h: seq<PeerEvent>, key: RequestKey)
    requires WellFormed(start, h)
    ensures forall i :: 0 <= i < |WaitingTimes(h, key)| ==> WaitingTimes(h, key)[i] <= LastTime(start, h)
  {
    RequestTimesBounded(start, h, key);
    hide RequestTimes, Waiting, WellFormed;
  }

  lemma TakenStep(u: Uploads, live: bool, h: seq<PeerEvent>, e: PeerEvent)
    requires e.Uploaded? && QueueMatches(u.pending, h, e.key)
    requires forall i :: 0 <= i < |WaitingTimes(h, e.key)| ==> WaitingTimes(h, e.key)[i] <= e.now
    ensures StepUploads(u, live, e).latencies
         == u.latencies + if Waiting(h, e.key) > 0 then [NsToMs(e.now - WaitingTimes(h, e.key)[0])] else []
    ensures Waiting(h, e.key) > 0 ==> NsToMs(e.now - WaitingTimes(h, e.key)[0]) >= 0.0
  {
    hide RequestTimes, Waiting, WaitingTimes;
  }

  lemma OnlyUploadsMeasure(u: Uploads, live: bool, e: PeerEvent)
    requires !e.Uploaded?
    ensures StepUploads(u, live, e).latencies == u.latencies
  {
  }

  // ----- Blocks -----

  /** The block of `size` bytes that a request begins in, which is what an upload of it is reported as. */
  function BlockOf(request: PeerRequest, size: int): int
    requires size > 0 && request.start >= 0
  {
    request.start / size
  }

  lemma Multiples(a: int, b: int, d: int)
    requires a <= b && d >= 0
    ensures a * d <= b * d
  {
    assert (b - a) * d >= 0;
    assert (b - a) * d == b * d - a * d;
  }

  lemma QuotientWithin(n: int, d: int, k: int)
    requires n >= 0 && d > 0 && k >= 0
    ensures n / d == k <==> k * d <= n < (k + 1) * d
  {
    var q := n / d;
    assert q * d <= n < (q + 1) * d by { assert n == d * q + n % d; }
    if k < q { Multiples(k + 1, q, d); }
    if k > q { Multiples(q + 1, k, d); }
  }

  /** Requests without a length all share the index 0, and a negative start is truncated toward zero. */
  lemma BlockIndexWithout(request: PeerRequest)
    ensures request.length <= 0 ==> BlockIndex(request) == 0
    ensures request.length > 0 ==> BlockIndex(request.(start := -request.start)) == -BlockIndex(request)
  {
  }

  /** The index under which a request is queued is that of its block exactly when its start, measured in its
      own length, says so. */
  lemma BlockIndexWhen(request: PeerRequest, size: int)
    requires size > 0 && request.start >= 0 && request.length > 0
    ensures var k := BlockOf(request, size);
            BlockIndex(request) == k <==> k * request.length <= request.start < (k + 1) * request.length
  {
    QuotientWithin(request.start, request.length, BlockOf(request, size));
  }

  /** For a request that begins with block `k` and is no longer than a block, as the last one of a piece may be. */
  lemma AlignedBlockIndexWhen(piece: int, k: int, size: int, length: int)
    requires k >= 0 && 0 < length <= size
    ensures k * size >= 0 && BlockOf(PeerRequest(piece, k * size, length), size) == k
    ensures BlockIndex(PeerRequest(piece, k * size, length)) == k <==> k * size < (k + 1) * length
  {
    Multiples(0, k, size);
    Multiples(length, size, k);
    QuotientWithin(k * size, size, k);
    QuotientWithin(k * size, length, k);
    assert k * size < (k + 1) * size by { assert (k + 1) * size == k * size + size; }
  }

  /** Two requests for the same first byte share a queue exactly when it lies before the end of the block of the
      longer one, measured in the length of the shorter. */
  lemma ShareQueueWhen(piece: int, start: int, shorter: int, longer: int)
    requires start >= 0 && 0 < shorter <= longer
    ensures KeyOf(PeerRequest(piece, start, shorter)) == KeyOf(PeerRequest(piece, start, longer))
       <==> start < (start / longer + 1) * shorter
  {
    var k := start / longer;
    QuotientWithin(start, longer, k);
    QuotientWithin(start, shorter, k);
    Multiples(shorter, longer, k);
    assert k * shorter == shorter * k && k * longer == longer * k;
  }

  /** An upload finds the request it serves if and only if the request was queued under the block uploaded;
      otherwise no latency is sampled and the request waits on. */
  lemma UploadFindsRequestWhen(b: Birth, request: PeerRequest, now: int, later: int, block: int)
    requires now <= later
    ensures Record(b, [Requested(now, request), Uploaded(later, RequestKey(request.piece, block))]).uploads
         == if BlockIndex(request) == block then Uploads(map[], [NsToMs(later - now)])
            else Uploads(map[KeyOf(request) := [now]], [])
  {
    var h := [Requested(now, request), Uploaded(later, RequestKey(request.piece, block))];
    assert Front(h) == [Requested(now, request)] && Front(Front(h)) == [];
    UploadsAfter(b, h);
    UploadsAfter(b, Front(h));
    UploadsAfter(b, []);
    hide Record, BlockIndex, NsToMs;
    var key := KeyOf(request);
    assert [] + [now] == [now] && [now][1..] == [];
    assert Record(b, Front(h)).uploads == Uploads(map[key := [now]], []);
    assert key.piece == request.piece && key.block == BlockIndex(request);
    assert map[key := [now]] - {key} == map[];
  }

  /** The last block of a piece is often short. This one, the fourth, is queued as the tenth, and its upload
      never finds it. */
  lemma ShortLastBlockIsMissed(b: Birth, now: int, later: int)
    requires now <= later
    ensures BlockOf(PeerRequest(0, 3 * 16384, 5000), 16384) == 3
    ensures Record(b, [Requested(now, PeerRequest(0, 3 * 16384, 5000)), Uploaded(later, RequestKey(0, 3))]).uploads
         == Uploads(map[RequestKey(0, 9) := [now]], [])
  {
    UploadFindsRequestWhen(b, PeerRequest(0, 3 * 16384, 5000), now, later, 3);
    hide Record;
  }

  /** A short request in the middle of a piece is even taken for another block's: this one begins in the
      second block, and the upload of the third is measured from it. */
  lemma OtherBlockIsMatched(b: Birth, now: int, later: int)
    requires now <= later
    ensures BlockOf(PeerRequest(0, 16384, 8192), 16384) == 1
    ensures Record(b, [Requested(now, PeerRequest(0, 16384, 8192)), Uploaded(later, RequestKey(0, 2))]).uploads
         == Uploads(map[], [NsToMs(later - now)])
  {
    UploadFindsRequestWhen(b, PeerRequest(0, 16384, 8192), now, later, 2);
    hide Record;
  }

  /** Every request received is queued under its block. */
  predicate QueuedByBlock(h: seq<PeerEvent>, size: int)
    requires size > 0
  {
    forall i :: 0 <= i < |h| && h[i].Requested? ==> h[i].request.start >= 0 && BlockIndex(h[i].request) == BlockOf(h[i].request, size)
  }

  /** When requests that begin in the block `key` were received. */
  function BlockTimes(h: seq<PeerEvent>, key: RequestKey, size: int): seq<int>
    requires size > 0
  {
    if |h| == 0 then []
    else
      var before, e := BlockTimes(h[..|h| - 1], key, size), h[|h| - 1];
      if e.Requested? && e.request.start >= 0 && RequestKey(e.request.piece, BlockOf(e.request, size)) == key
      then before + [e.now] else before
  }

  lemma {:induction false} QueuedAsBlocks(h: seq<PeerEvent>, size: int, key: RequestKey)
    requires size > 0 && QueuedByBlock(h, size)
    ensures RequestTimes(h, key) == BlockTimes(h, key, size)
  {
    hide BlockIndex, BlockOf;
    if |h| > 0 {
      QueuedAsBlocks(h[..|h| - 1], size, key);
    }
  }

  /** Requests are queued by block all through a history if and only if each of them is queued under its block. */
  lemma QueuesAreByBlockWhen(h: seq<PeerEvent>, size: int)
    requires size > 0
    ensures QueuedByBlock(h, size) <==>
              forall n, key :: 0 <= n <= |h| ==> RequestTimes(h[..n], key) == BlockTimes(h[..n], key, size)
  {
    if QueuedByBlock(h, size) {
      forall n, key | 0 <= n <= |h| ensures RequestTimes(h[..n], key) == BlockTimes(h[..n], key, size) {
        QueuedAsBlocks(h[..n], size, key);
      }
    } else {
      var i :| 0 <= i < |h| && h[i].Requested?
               && !(h[i].request.start >= 0 && BlockIndex(h[i].request) == BlockOf(h[i].request, size));
      MisfiledShows(h, size, i);
    }
  }

  lemma MisfiledShows(h: seq<PeerEvent>, size: int, i: int)
    requires size > 0 && 0 <= i < |h| && h[i].Requested?
    requires !(h[i].request.start >= 0 && BlockIndex(h[i].request) == BlockOf(h[i].request, size))
    ensures exists n, key :: 0 <= n <= |h| && RequestTimes(h[..n], key) != BlockTimes(h[..n], key, size)
  {
    var key := KeyOf(h[i].request);
    assert h[..i + 1][..i] == h[..i] && h[..i + 1][i] == h[i];
    hide BlockIndex, BlockOf;
    assert RequestTimes(h[..i + 1], key) == RequestTimes(h[..i], key) + [h[i].now];
    assert BlockTimes(h[..i + 1], key, size) == BlockTimes(h[..i], key, size);
    if RequestTimes(h[..i], key) == BlockTimes(h[..i], key, size) {
      assert |RequestTimes(h[..i + 1], key)| != |BlockTimes(h[..i + 1], key, size)|;
    }
  }

  /** Then each queue holds the latest request times of its block, oldest first. */
  lemma QueuesHoldBlocks(b: Birth, h: seq<PeerEvent>, size: int, key: RequestKey)
    requires b.now > 0 && WellFormed(b.now, h) && size > 0 && QueuedByBlock(h, size)
    ensures var times, pending := BlockTimes(h, key, size), Record(b, h).uploads.pending;
            && Waiting(h, key) <= |times|
            && (key in pending <==> Waiting(h, key) > 0)
            && (key in pending ==> pending[key] == times[|times| - Waiting(h, key)..])
  {
    QueuesAreFifo(b, h, key);
    QueuedAsBlocks(h, size, key);
    hide Record, WellFormed, QueuedByBlock;
  }

  // ----- Conservation of received requests -----

  function Length(queue: seq<int>): int { |queue| }

  /** Requests dropped from the queues whenever they were cleared. */
  ghost function Discarded(b: Birth, h: seq<PeerEvent>): int {
    if |h| == 0 then 0
    else
      var front, e := h[..|h| - 1], h[|h| - 1];
      Discarded(b, front)
      + if e.Disconnected? || e.Lost? || e.Finalized? then MapSum(Record(b, front).uploads.pending, Length) else 0
  }

  /** Under a clock that has not gone back, taking the oldest request always gives a sample. */
  lemma TakingOneGivesSample(b: Birth, h: seq<PeerEvent>, key: RequestKey, now: int)
    requires b.now > 0 && WellFormed(b.now, h) && LastTime(b.now, h) <= now
    requires key in Record(b, h).uploads.pending
    ensures var u := Record(b, h).uploads;
            && |u.pending[key]| > 0
            && |TakeOldest(u, key, now).latencies| == |u.latencies| + 1
            && MapSum(TakeOldest(u, key, now).pending, Length) == MapSum(u.pending, Length) - 1
  {
    hide Record, WellFormed;
    QueuesAreFifo(b, h, key);
    RequestTimesBounded(b.now, h, key);
    var u := Record(b, h).uploads;
    MapSumUpdate(u.pending, key, u.pending[key][1..], Length);
    MapSumRemove(u.pending, key, Length);
  }

  lemma OneMoreWaits(u: Uploads, key: RequestKey, now: int)
    ensures MapSum(u.pending[key := (if key in u.pending then u.pending[key] else []) + [now]], Length)
         == MapSum(u.pending, Length) + 1
  {
    MapSumUpdate(u.pending, key, (if key in u.pending then u.pending[key] else []) + [now], Length);
  }

  /** How one event moves requests between waiting, matched and discarded. */
  lemma QueueCases(u: Uploads, live: bool, c: Counters, e: PeerEvent)
    ensures StepCounters(c, e).incomingRequests == c.incomingRequests + if e.Requested? then 1 else 0
    ensures !e.Requested? && !(e.Uploaded? && e.key in u.pending && |u.pending[e.key]| > 0) ==>
      StepUploads(u, live, e) == if Clears(live, e) then u.(pending := map[]) else u
  {
  }

  /** Every request received has been matched by an upload, still waits, or was discarded. */
  lemma {:induction false} RequestsAreConserved(b: Birth, h: seq<PeerEvent>)
    requires b.now > 0 && WellFormed(b.now, h)
    ensures Record(b, h).counters.incomingRequests
         == |Record(b, h).uploads.latencies| + MapSum(Record(b, h).uploads.pending, Length) + Discarded(b, h)
  {
    hide Record, WellFormed, TakeOldest, StepCounters;
    UploadsAfter(b, h);
    CountersAfter(b, h);
    if |h| > 0 {
      var front, e := Front(h), Last(h);
      var u := Record(b, front).uploads;
      WellFormedFront(b.now, h);
      RequestsAreConserved(b, front);
      QueueCases(u, Record(b, front).live, Record(b, front).counters, e);
      if e.Requested? {
        OneMoreWaits(u, KeyOf(e.request), e.now);
      } else if e.Uploaded? && e.key in u.pending {
        TakingOneGivesSample(b, front, e.key, e.now);
      } else {
        hide StepUploads;
        ClocksAfter(b, front);
        if e.Finalized? && !Open(front) {
          ClosedHoldsNothing(b, front);
        }
      }
    }
  }
}
