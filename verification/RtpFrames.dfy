/** Access units seen at the RTP level: runs of packets with one timestamp
    (h264.go, rtpFrameTracker). */
module RtpFrames {

  datatype Packet = Packet(timestamp: nat, marker: bool, idr: bool)

  datatype Frames = Frames(
    started: bool, timestamp: nat, runPackets: nat, runHasIDR: bool, runMarked: bool,
    markers: nat, timestampChanges: nat, unmarkedRuns: nat, maxRun: nat, maxKeyframeRun: nat)

  const FRESH := Frames(false, 0, 0, false, false, 0, 0, 0, 0, 0)

  function EndRun(t: Frames): Frames {
    t.(timestampChanges := t.timestampChanges + 1,
       unmarkedRuns := if t.runMarked then t.unmarkedRuns else t.unmarkedRuns + 1,
       maxRun := if t.runPackets > t.maxRun then t.runPackets else t.maxRun,
       maxKeyframeRun :=
         if t.runHasIDR && t.runPackets > t.maxKeyframeRun then t.runPackets else t.maxKeyframeRun,
       runPackets := 0, runHasIDR := false, runMarked := false)
  }

  function Observe(t: Frames, p: Packet): Frames {
    var t' :=
      if !t.started then t.(started := true, timestamp := p.timestamp)
      else if p.timestamp != t.timestamp then EndRun(t).(timestamp := p.timestamp)
      else t;
    t'.(runPackets := t'.runPackets + 1, runHasIDR := t'.runHasIDR || p.idr,
        markers := if p.marker then t'.markers + 1 else t'.markers,
        runMarked := t'.runMarked || p.marker)
  }

  function LargestRun(t: Frames): nat {
    if t.runPackets > t.maxRun then t.runPackets else t.maxRun
  }

  /** The tracker, updated packet by packet. */
  class FrameTracker {
    var started: bool
    var timestamp: nat
    var runPackets: nat
    var runHasIDR: bool
    var runMarked: bool
    var markers: nat
    var timestampChanges: nat
    var unmarkedRuns: nat
    var maxRun: nat
    var maxKeyframeRun: nat

    function View(): Frames
      reads this
    {
      Frames(started, timestamp, runPackets, runHasIDR, runMarked,
             markers, timestampChanges, unmarkedRuns, maxRun, maxKeyframeRun)
    }

    constructor ()
      ensures View() == FRESH
    {
      started, timestamp, runPackets, runHasIDR, runMarked := false, 0, 0, false, false;
      markers, timestampChanges, unmarkedRuns, maxRun, maxKeyframeRun := 0, 0, 0, 0, 0;
    }

    method CloseRun()
      modifies this
      ensures View() == EndRun(old(View()))
    {
      timestampChanges := timestampChanges + 1;
      if !runMarked { unmarkedRuns := unmarkedRuns + 1; }
      if runPackets > maxRun { maxRun := runPackets; }
      if runHasIDR && runPackets > maxKeyframeRun { maxKeyframeRun := runPackets; }
      runPackets, runHasIDR, runMarked := 0, false, false;
    }

    method ObservePacket(p: Packet)
      modifies this
      ensures View() == Observe(old(View()), p)
      ensures started && timestamp == p.timestamp && runPackets >= 1
      ensures timestampChanges == old(timestampChanges) <==> (old(started) ==> old(timestamp) == p.timestamp)
    {
      if !started {
        started := true;
        timestamp := p.timestamp;
      } else if p.timestamp != timestamp {
        CloseRun();
        timestamp := p.timestamp;
      }
      runPackets := runPackets + 1;
      runHasIDR := runHasIDR || p.idr;
      if p.marker {
        markers := markers + 1;
        runMarked := true;
      }
    }
  }

  function Track(packets: seq<Packet>): Frames {
    if |packets| == 0 then FRESH
    else Observe(Track(packets[..|packets| - 1]), packets[|packets| - 1])
  }

  // --- grouping the whole packet list -------------------------------------------

  /** Non-empty runs of one timestamp each, neighbours differing: the maximal
      equal-timestamp runs of their concatenation. */
  predicate MaximalRuns(runs: seq<seq<Packet>>) {
    && (forall i | 0 <= i < |runs| ::
          |runs[i]| > 0 && forall k | 0 <= k < |runs[i]| :: runs[i][k].timestamp == runs[i][0].timestamp)
    && (forall i | 0 < i < |runs| :: runs[i - 1][0].timestamp != runs[i][0].timestamp)
  }

  function Flatten(runs: seq<seq<Packet>>): seq<Packet> {
    if |runs| == 0 then [] else Flatten(runs[..|runs| - 1]) + runs[|runs| - 1]
  }

  predicate HasMarker(run: seq<Packet>) { exists k | 0 <= k < |run| :: run[k].marker }

  predicate HasIDR(run: seq<Packet>) { exists k | 0 <= k < |run| :: run[k].idr }

  function MarkerCount(packets: seq<Packet>): nat {
    if |packets| == 0 then 0
    else MarkerCount(packets[..|packets| - 1]) + (if packets[|packets| - 1].marker then 1 else 0)
  }

  function UnmarkedCount(runs: seq<seq<Packet>>): nat {
    if |runs| == 0 then 0
    else UnmarkedCount(runs[..|runs| - 1]) + (if HasMarker(runs[|runs| - 1]) then 0 else 1)
  }

  /** n is the length of the longest run that satisfies `keyframe ==> HasIDR`, 0 if none. */
  predicate Longest(runs: seq<seq<Packet>>, keyframe: bool, n: nat) {
    && (forall i | 0 <= i < |runs| :: (keyframe ==> HasIDR(runs[i])) ==> |runs[i]| <= n)
    && (n > 0 ==> exists i | 0 <= i < |runs| :: (keyframe ==> HasIDR(runs[i])) && |runs[i]| == n)
  }

  /** The tracker after `runs`, the last of which is still open. */
  predicate Summarizes(t: Frames, runs: seq<seq<Packet>>)
    requires |runs| > 0 && MaximalRuns(runs)
  {
    var open, done := runs[|runs| - 1], runs[..|runs| - 1];
    && t.started && t.timestamp == open[0].timestamp
    && t.runPackets == |open| && t.runHasIDR == HasIDR(open) && t.runMarked == HasMarker(open)
    && t.timestampChanges == |runs| - 1
    && t.unmarkedRuns == UnmarkedCount(done)
    && Longest(done, false, t.maxRun)
    && Longest(done, true, t.maxKeyframeRun)
  }

  lemma ExtendStaysMaximal(runs: seq<seq<Packet>>, p: Packet)
    requires |runs| > 0 && MaximalRuns(runs) && p.timestamp == runs[|runs| - 1][0].timestamp
    ensures |runs[|runs| - 1]| > 0 && MaximalRuns(runs[..|runs| - 1] + [runs[|runs| - 1] + [p]])
  {
  }

  lemma HasSnoc(run: seq<Packet>, p: Packet)
    ensures HasMarker(run + [p]) <==> HasMarker(run) || p.marker
    ensures HasIDR(run + [p]) <==> HasIDR(run) || p.idr
  {
    var all := run + [p];
    assert all[|run|] == p && forall k | 0 <= k < |run| :: all[k] == run[k];
  }

  /** One more packet in the open run. */
  lemma ExtendRun(t: Frames, runs: seq<seq<Packet>>, p: Packet)
    requires |runs| > 0 && MaximalRuns(runs) && Summarizes(t, runs)
    requires p.timestamp == runs[|runs| - 1][0].timestamp
    ensures var open := runs[|runs| - 1] + [p];
            var runs' := runs[..|runs| - 1] + [open];
            MaximalRuns(runs') && Summarizes(Observe(t, p), runs')
  {
    hide HasMarker, HasIDR, Longest, UnmarkedCount, MaximalRuns;
    var done, last := runs[..|runs| - 1], runs[|runs| - 1];
    var open := last + [p];
    var runs' := done + [open];
    assert runs'[..|runs'| - 1] == done && runs'[|runs'| - 1] == open;
    ExtendStaysMaximal(runs, p);
    HasSnoc(last, p);
  }

  lemma NewRunStaysMaximal(runs: seq<seq<Packet>>, p: Packet)
    requires |runs| > 0 && MaximalRuns(runs)
    requires p.timestamp != runs[|runs| - 1][0].timestamp
    ensures MaximalRuns(runs + [[p]])
  {
  }

  lemma NoneInEmpty()
    ensures !HasMarker([]) && !HasIDR([])
  {
  }

  lemma LongestSnoc(done: seq<seq<Packet>>, last: seq<Packet>, keyframe: bool, n: nat)
    requires Longest(done, keyframe, n)
    ensures Longest(done + [last], keyframe,
                    if (keyframe ==> HasIDR(last)) && |last| > n then |last| else n)
  {
    var all := done + [last];
    assert all[|done|] == last;
    if n > 0 {
      var i :| 0 <= i < |done| && (keyframe ==> HasIDR(done[i])) && |done[i]| == n;
      assert all[i] == done[i];
    }
  }

  /** A packet that starts a new run. */
  lemma StartRun(t: Frames, runs: seq<seq<Packet>>, p: Packet)
    requires |runs| > 0 && MaximalRuns(runs) && Summarizes(t, runs)
    requires p.timestamp != runs[|runs| - 1][0].timestamp
    ensures MaximalRuns(runs + [[p]]) && Summarizes(Observe(t, p), runs + [[p]])
  {
    hide HasMarker, HasIDR, Longest, MaximalRuns;
    var done, last := runs[..|runs| - 1], runs[|runs| - 1];
    var runs' := runs + [[p]];
    assert runs'[..|runs'| - 1] == runs && runs'[|runs'| - 1] == [p];
    assert runs == done + [last];
    NewRunStaysMaximal(runs, p);
    HasSnoc([], p);
    assert [] + [p] == [p] && !HasMarker([]) && !HasIDR([]) by { NoneInEmpty(); }
    LongestSnoc(done, last, false, t.maxRun);
    LongestSnoc(done, last, true, t.maxKeyframeRun);
  }

  lemma FirstRun(p: Packet)
    ensures MaximalRuns([[p]]) && Summarizes(Observe(FRESH, p), [[p]])
  {
    assert [[p]][..0] == [];
  }

  lemma FlattenSnoc(done: seq<seq<Packet>>, open: seq<Packet>)
    ensures Flatten(done + [open]) == Flatten(done) + open
  {
    assert (done + [open])[..|done|] == done;
  }

  /** The packet list without its last packet, and its grouping. */
  function Before(runs: seq<seq<Packet>>): seq<seq<Packet>>
    requires |runs| > 0 && MaximalRuns(runs)
  {
    var done, open := runs[..|runs| - 1], runs[|runs| - 1];
    if |open| > 1 then done + [open[..|open| - 1]] else done
  }

  lemma BeforeGroups(runs: seq<seq<Packet>>)
    requires |runs| > 0 && MaximalRuns(runs)
    ensures var open := runs[|runs| - 1];
            MaximalRuns(Before(runs)) && Flatten(runs) == Flatten(Before(runs)) + [open[|open| - 1]]
  {
    hide Flatten;
    var done, open := runs[..|runs| - 1], runs[|runs| - 1];
    var shorter := open[..|open| - 1];
    assert runs == done + [open] && open == shorter + [open[|open| - 1]];
    FlattenSnoc(done, open);
    if |open| > 1 {
      FlattenSnoc(done, shorter);
      assert Flatten(done) + open == Flatten(done) + shorter + [open[|open| - 1]];
    }
  }

  lemma StepSummarizes(t: Frames, runs: seq<seq<Packet>>)
    requires |runs| > 0 && MaximalRuns(runs) && MaximalRuns(Before(runs))
    requires if |Before(runs)| == 0 then t == FRESH else Summarizes(t, Before(runs))
    ensures var open := runs[|runs| - 1]; Summarizes(Observe(t, open[|open| - 1]), runs)
  {
    hide Summarizes, Observe, UnmarkedCount, HasMarker, HasIDR, Longest;
    var done, open := runs[..|runs| - 1], runs[|runs| - 1];
    var p := open[|open| - 1];
    var before := Before(runs);
    assert runs == done + [open];
    if |open| > 1 {
      ExtendRun(t, before, p);
      assert before[..|before| - 1] == done && open[..|open| - 1] + [p] == open;
    } else {
      assert open == [p];
      if |done| == 0 { FirstRun(p); } else { StartRun(t, done, p); }
    }
  }

  /** Whatever the packets, the tracker holds the statistics of their grouping into
      maximal equal-timestamp runs. */
  lemma {:induction false} TrackSummarizes(runs: seq<seq<Packet>>)
    requires |runs| > 0 && MaximalRuns(runs)
    ensures Summarizes(Track(Flatten(runs)), runs)
    decreases |Flatten(runs)|
  {
    var before, packets := Before(runs), Flatten(runs);
    BeforeGroups(runs);
    assert packets[..|packets| - 1] == Flatten(before);
    if |before| == 0 { assert Flatten(before) == []; } else { TrackSummarizes(before); }
    StepSummarizes(Track(Flatten(before)), runs);
  }

  /** largestRun also counts the run still in progress. */
  lemma LargestRunIsLongest(runs: seq<seq<Packet>>)
    requires |runs| > 0 && MaximalRuns(runs)
    ensures Longest(runs, false, LargestRun(Track(Flatten(runs))))
  {
    hide Track, Flatten, HasMarker, HasIDR, UnmarkedCount, Longest, MaximalRuns;
    TrackSummarizes(runs);
    var done, open := runs[..|runs| - 1], runs[|runs| - 1];
    assert runs == done + [open];
    LongestSnoc(done, open, false, Track(Flatten(runs)).maxRun);
  }

  lemma {:induction false} MarkersAreCounted(packets: seq<Packet>)
    ensures Track(packets).markers == MarkerCount(packets)
  {
    if |packets| > 0 { MarkersAreCounted(packets[..|packets| - 1]); }
  }

  /** One more packet, in the open run or a new one. */
  function Place(runs: seq<seq<Packet>>, p: Packet): seq<seq<Packet>>
    requires MaximalRuns(runs)
  {
    if |runs| > 0 && runs[|runs| - 1][0].timestamp == p.timestamp
    then runs[..|runs| - 1] + [runs[|runs| - 1] + [p]]
    else runs + [[p]]
  }

  lemma PlaceGroups(runs: seq<seq<Packet>>, p: Packet)
    requires MaximalRuns(runs)
    ensures MaximalRuns(Place(runs, p)) && Flatten(Place(runs, p)) == Flatten(runs) + [p]
  {
    hide Flatten;
    if |runs| > 0 && runs[|runs| - 1][0].timestamp == p.timestamp {
      ExtendStaysMaximal(runs, p);
      FlattenSnoc(runs[..|runs| - 1], runs[|runs| - 1]);
      assert runs[..|runs| - 1] + [runs[|runs| - 1]] == runs;
      FlattenSnoc(runs[..|runs| - 1], runs[|runs| - 1] + [p]);
    } else {
      FlattenSnoc(runs, [p]);
    }
  }

  /** Every packet list has such a grouping. */
  lemma {:induction false} GroupingExists(packets: seq<Packet>) returns (runs: seq<seq<Packet>>)
    ensures MaximalRuns(runs) && Flatten(runs) == packets
  {
    if |packets| == 0 {
      runs := [];
    } else {
      var before := GroupingExists(packets[..|packets| - 1]);
      PlaceGroups(before, packets[|packets| - 1]);
      runs := Place(before, packets[|packets| - 1]);
    }
  }
}
