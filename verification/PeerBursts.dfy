/** The online burst segmenter against offline splitting of the request times. */
module PeerBursts {
  import opened Sums
  import opened PeerModel
  import opened PeerTimes

  const BURST_GAP_NS: int := 100_000_000

  /** A time put before the first group, either into it or as a group of its own. */
  function PutFirst(t: int, near: bool, groups: seq<seq<int>>): seq<seq<int>>
    requires |groups| > 0
  {
    if near then [[t] + groups[0]] + groups[1..] else [[t]] + groups
  }

  /** A time put after the last group, either into it or as a group of its own. */
  function PutLast(groups: seq<seq<int>>, near: bool, t: int): seq<seq<int>>
    requires |groups| > 0
  {
    if near then groups[|groups| - 1 := groups[|groups| - 1] + [t]] else groups + [[t]]
  }

  /** The times split wherever two consecutive ones are more than 100 ms apart. */
  function Split(ts: seq<int>): (groups: seq<seq<int>>)
    ensures |ts| > 0 ==> |groups| > 0 && |groups[0]| > 0 && groups[0][0] == ts[0]
    ensures |ts| == 0 ==> groups == []
    ensures forall i :: 0 <= i < |groups| ==> |groups[i]| > 0
  {
    if |ts| == 0 then []
    else if |ts| == 1 then [ts]
    else PutFirst(ts[0], ts[1] - ts[0] <= BURST_GAP_NS, Split(ts[1..]))
  }

  function Joined(groups: seq<seq<int>>): seq<int> {
    if |groups| == 0 then [] else groups[0] + Joined(groups[1..])
  }

  function LastOf(group: seq<int>): int
    requires |group| > 0
  {
    group[|group| - 1]
  }

  /** Short gaps inside groups, long gaps between them. */
  ghost predicate GapsDecide(groups: seq<seq<int>>)
    requires AllNonempty(groups)
  {
    && (forall g, i :: 0 <= g < |groups| && 0 <= i < |groups[g]| - 1 ==>
          groups[g][i + 1] - groups[g][i] <= 100_000_000)
    && (forall g :: 0 <= g < |groups| - 1 ==> groups[g + 1][0] - LastOf(groups[g]) > 100_000_000)
  }

  ghost predicate AllNonempty(groups: seq<seq<int>>) {
    forall i :: 0 <= i < |groups| ==> |groups[i]| > 0
  }

  lemma PutFirstDecides(t: int, groups: seq<seq<int>>)
    requires |groups| > 0 && AllNonempty(groups) && GapsDecide(groups)
    ensures var r := PutFirst(t, groups[0][0] - t <= BURST_GAP_NS, groups);
            AllNonempty(r) && GapsDecide(r) && Joined(r) == [t] + Joined(groups)
  {
    var near := groups[0][0] - t <= BURST_GAP_NS;
    var r := PutFirst(t, near, groups);
    if near {
      assert r[1..] == groups[1..];
      assert LastOf(r[0]) == LastOf(groups[0]);
      assert [t] + groups[0] + Joined(groups[1..]) == [t] + (groups[0] + Joined(groups[1..]));
    } else {
      assert r[1..] == groups;
    }
  }

  /** Splitting loses nothing, keeps short gaps inside groups and long gaps between them. */
  lemma {:induction false} SplitIsPartition(ts: seq<int>)
    ensures Joined(Split(ts)) == ts && GapsDecide(Split(ts))
  {
    if |ts| == 1 {
      assert Split(ts) == [ts];
      assert Joined([ts][1..]) == [];
    } else if |ts| > 1 {
      SplitIsPartition(ts[1..]);
      assert Split(ts[1..])[0][0] == ts[1];
      PutFirstDecides(ts[0], Split(ts[1..]));
    }
  }

  lemma PutFirstThenLast(x: int, n: bool, groups: seq<seq<int>>, m: bool, t: int)
    requires |groups| > 0
    ensures PutLast(PutFirst(x, n, groups), m, t) == PutFirst(x, n, PutLast(groups, m, t))
  {
    if !n {
      assert ([[x]] + groups) + [[t]] == [[x]] + (groups + [[t]]);
    } else if !m {
      assert (groups + [[t]])[1..] == groups[1..] + [[t]];
    } else if |groups| == 1 {
      assert [x] + groups[0] + [t] == [x] + (groups[0] + [t]);
    }
  }

  lemma PutFirstKeepsLast(x: int, n: bool, groups: seq<seq<int>>)
    requires |groups| > 0 && AllNonempty(groups)
    ensures var r := PutFirst(x, n, groups);
            AllNonempty(r) && LastOf(r[|r| - 1]) == LastOf(groups[|groups| - 1])
  {
  }

  /** A later time joins the last group or starts a new one. */
  lemma {:induction false} SplitAppend(ts: seq<int>, t: int)
    requires |ts| > 0
    ensures |Split(ts)| > 0 && LastOf(Split(ts)[|Split(ts)| - 1]) == LastOf(ts)
    ensures Split(ts + [t]) == PutLast(Split(ts), t - LastOf(ts) <= BURST_GAP_NS, t)
  {
    hide Split, PutFirst, PutLast;
    if |ts| == 1 {
      SplitOne(ts[0], t);
      assert ts == [ts[0]] && ts + [t] == [ts[0], t];
    } else {
      SplitAppend(ts[1..], t);
      assert (ts + [t])[1..] == ts[1..] + [t];
      SplitUnfolds(ts);
      SplitUnfolds(ts + [t]);
      PutFirstThenLast(ts[0], ts[1] - ts[0] <= BURST_GAP_NS, Split(ts[1..]), t - LastOf(ts) <= BURST_GAP_NS, t);
      PutFirstKeepsLast(ts[0], ts[1] - ts[0] <= BURST_GAP_NS, Split(ts[1..]));
    }
  }

  lemma SplitUnfolds(ts: seq<int>)
    requires |ts| > 1
    ensures Split(ts) == PutFirst(ts[0], ts[1] - ts[0] <= BURST_GAP_NS, Split(ts[1..]))
  {
  }

  lemma SplitOne(x: int, t: int)
    ensures Split([x]) == [[x]]
    ensures Split([x, t]) == PutLast([[x]], t - x <= BURST_GAP_NS, t)
  {
    assert [x, t][1..] == [t];
    assert [x] + [t] == [x, t];
  }

  function Sizes(groups: seq<seq<int>>): (r: seq<real>)
    ensures |r| == |groups|
  {
    seq(|groups|, i requires 0 <= i < |groups| => |groups[i]| as real)
  }

  function Durations(groups: seq<seq<int>>): (r: seq<real>)
    requires AllNonempty(groups)
    ensures |r| == |groups|
  {
    seq(|groups|, i requires 0 <= i < |groups| => NsToMs(LastOf(groups[i]) - groups[i][0]))
  }

  function IdleGaps(groups: seq<seq<int>>): (r: seq<real>)
    requires AllNonempty(groups)
    ensures |r| == if |groups| == 0 then 0 else |groups| - 1
  {
    seq(if |groups| == 0 then 0 else |groups| - 1,
        i requires 0 <= i < |groups| - 1 => NsToMs(groups[i + 1][0] - LastOf(groups[i])))
  }

  /** The segmenter's samples for `groups` when every group is closed. */
  ghost predicate ClosedAs(b: Bursts, groups: seq<seq<int>>)
    requires AllNonempty(groups)
  {
    && !b.active && b.size == 0 && b.start == 0 && b.last == 0
    && b.sizes == Sizes(groups) && b.durations == Durations(groups) && b.idleGaps == IdleGaps(groups)
  }

  /** ... and when the last group is the burst still open. */
  ghost predicate OpenAs(b: Bursts, groups: seq<seq<int>>)
    requires AllNonempty(groups)
  {
    if |groups| == 0 then ClosedAs(b, groups)
    else
      var n := |groups| - 1;
      && b.active && b.size == |groups[n]| && b.start == groups[n][0] && b.last == LastOf(groups[n])
      && b.sizes == Sizes(groups[..n]) && b.durations == Durations(groups[..n]) && b.idleGaps == IdleGaps(groups)
  }

  lemma OneMoreRequest(b: Bursts, ts: seq<int>, now: int)
    requires OpenAs(b, Split(ts))
    ensures OpenAs(NoteBurst(b, now), Split(ts + [now]))
  {
    if |ts| == 0 {
      assert ts + [now] == [now];
      assert Split([now]) == [[now]];
    } else {
      SplitAppend(ts, now);
      hide Split;
      if now - LastOf(ts) <= BURST_GAP_NS {
        ExtendLast(b, Split(ts), now);
      } else {
        StartNext(b, Split(ts), now);
      }
    }
  }

  lemma ExtendLast(b: Bursts, groups: seq<seq<int>>, now: int)
    requires |groups| > 0 && AllNonempty(groups) && OpenAs(b, groups)
    requires now - LastOf(groups[|groups| - 1]) <= BURST_GAP_NS
    ensures OpenAs(NoteBurst(b, now), groups[|groups| - 1 := groups[|groups| - 1] + [now]])
  {
    var n := |groups| - 1;
    var grown := groups[n := groups[n] + [now]];
    assert grown[..n] == groups[..n];
    assert IdleGaps(grown) == IdleGaps(groups);
  }

  lemma StartNext(b: Bursts, groups: seq<seq<int>>, now: int)
    requires |groups| > 0 && AllNonempty(groups) && OpenAs(b, groups)
    requires now - LastOf(groups[|groups| - 1]) > BURST_GAP_NS
    ensures OpenAs(NoteBurst(b, now), groups + [[now]])
  {
    var n := |groups| - 1;
    assert (groups + [[now]])[..n + 1] == groups;
    CloseLast(b, groups);
    assert IdleGaps(groups + [[now]]) == IdleGaps(groups) + [NsToMs(now - LastOf(groups[n]))];
  }

  lemma CloseLast(b: Bursts, groups: seq<seq<int>>)
    requires AllNonempty(groups) && OpenAs(b, groups)
    ensures ClosedAs(FlushBurst(b), groups)
  {
    if |groups| > 0 {
      var n := |groups| - 1;
      assert Sizes(groups) == Sizes(groups[..n]) + [|groups[n]| as real];
      assert Durations(groups) == Durations(groups[..n]) + [NsToMs(LastOf(groups[n]) - groups[n][0])];
    }
  }

  /** After any history the closed bursts together with the open one are the offline split of
      all request times at gaps of more than 100 ms; once the record is closed, every burst is. */
  lemma {:induction false} BurstsAreSplit(b: Birth, h: seq<PeerEvent>)
    requires WellFormed(b.now, h)
    ensures var bursts, groups := Record(b, h).bursts, Split(TimesOf(h, Receiving));
            if Open(h) then OpenAs(bursts, groups) else ClosedAs(bursts, groups)
  {
    hide Record, OpenAs, ClosedAs, Split, FlushBurst, NoteBurst;
    BurstsAfter(b, h);
    if |h| == 0 {
      NoBursts();
    } else {
      var front, e := Front(h), Last(h);
      var ts := TimesOf(front, Receiving);
      BurstsAreSplit(b, front);
      assert Open(h) <==> Open(front) && !e.Disconnected? && !e.Finalized?;
      if Open(front) {
        if e.Requested? {
          OneMoreRequest(Record(b, front).bursts, ts, e.now);
        } else if e.Disconnected? || e.Finalized? {
          CloseLast(Record(b, front).bursts, Split(ts));
        }
      } else {
        StaysClosed(Record(b, front).bursts, Split(ts));
      }
    }
  }

  lemma NoBursts()
    ensures OpenAs(Bursts(false, 0, 0, 0, [], [], []), Split([]))
  {
  }

  lemma StaysClosed(b: Bursts, groups: seq<seq<int>>)
    requires AllNonempty(groups) && ClosedAs(b, groups)
    ensures FlushBurst(b) == b
  {
  }

  // ----- Conservation -----

  lemma {:induction false} SizesAddUp(groups: seq<seq<int>>)
    ensures Total(Sizes(groups)) == |Joined(groups)| as real
  {
    if |groups| > 0 {
      SizesAddUp(groups[1..]);
      assert Sizes(groups) == [|groups[0]| as real] + Sizes(groups[1..]);
      SumOfConcat([|groups[0]| as real], Sizes(groups[1..]), Identity);
      TotalOfOne(|groups[0]| as real);
    }
  }

  lemma TotalOfOne(x: real)
    ensures Total([x]) == x
  {
    SumOfOne(x, Identity);
  }

  lemma {:induction false} DurationsAndGapsAddUp(groups: seq<seq<int>>)
    requires AllNonempty(groups) && |groups| > 0
    ensures Total(Durations(groups)) + Total(IdleGaps(groups)) == NsToMs(LastOf(groups[|groups| - 1]) - groups[0][0])
  {
    var n := |groups| - 1;
    var front := groups[..n];
    OneMoreGroup(groups);
    if n > 0 {
      DurationsAndGapsAddUp(front);
    }
    hide Durations, IdleGaps;
  }

  /** What the last group adds to the samples. */
  lemma OneMoreGroup(groups: seq<seq<int>>)
    requires AllNonempty(groups) && |groups| > 0
    ensures var n := |groups| - 1;
            && Total(Durations(groups)) == Total(Durations(groups[..n])) + NsToMs(LastOf(groups[n]) - groups[n][0])
            && Total(IdleGaps(groups)) == Total(IdleGaps(groups[..n]))
                                        + if n == 0 then 0.0 else NsToMs(groups[n][0] - LastOf(groups[n - 1]))
  {
    var n := |groups| - 1;
    var front := groups[..n];
    assert Durations(groups)[..n] == Durations(front);
    if n > 0 { assert IdleGaps(groups)[..n - 1] == IdleGaps(front); }
    hide NsToMs;
  }

  /** Once the record is closed: burst sizes add up to the requests received, idle gaps are one
      fewer than bursts, and durations plus idle gaps span the first request to the last. */
  lemma BurstsConserveRequests(b: Birth, h: seq<PeerEvent>)
    requires WellFormed(b.now, h) && !Open(h)
    ensures var p, ts := Record(b, h), TimesOf(h, Receiving);
            && !p.bursts.active
            && Total(p.bursts.sizes) == p.counters.incomingRequests as real
            && |p.bursts.durations| == |p.bursts.sizes|
            && (|ts| > 0 ==>
                  && |p.bursts.idleGaps| == |p.bursts.sizes| - 1
                  && Total(p.bursts.durations) + Total(p.bursts.idleGaps) == NsToMs(LastOf(ts) - ts[0]))
  {
    hide Record, Split, Sizes, Durations, IdleGaps, SumOf, Count, TimesOf, WellFormed;
    var ts := TimesOf(h, Receiving);
    var groups := Split(ts);
    BurstsAreSplit(b, h);
    CountersCountEvents(b, h);
    SplitIsPartition(ts);
    SizesAddUp(groups);
    CountSame(h);
    if |ts| > 0 {
      SplitAppend(ts, 0);
      DurationsAndGapsAddUp(groups);
    }
  }

  lemma {:induction false} CountSame(h: seq<PeerEvent>)
    ensures |TimesOf(h, Receiving)| == Count(h, (e: PeerEvent) => e.Requested?)
  {
    if |h| > 0 {
      CountSame(h[..|h| - 1]);
    }
  }
}
