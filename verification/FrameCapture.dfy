/** Frame reassembly and freshness (video.go): parameter sets and IDR slices are
    collected from access units into self-contained frames, and waiters are woken by a
    broadcast channel that is replaced on every change. */
module FrameCapture {
  import opened Outcomes
  import opened Words
  import opened AnnexB

  type Nal = seq<byte>

  const SPS := 7
  const PPS := 8
  const IDR := 5

  datatype Frame = Frame(annexB: seq<byte>, generation: nat)

  /** The fields f.mu guards. `err` names the error recorded by fail; `updated` numbers
      the current broadcast channel, and every lower-numbered one is closed. */
  datatype Capture = Capture(
    sps: Option<Nal>, pps: Option<Nal>, latest: Option<Frame>, generation: nat, err: Option<nat>, updated: nat)

  const FRESH := Capture(None, None, None, 0, None, 0)

  predicate HasType(n: Nal, t: nat) { |n| > 0 && n[0] % 32 == t }

  function Notify(c: Capture): Capture { c.(updated := c.updated + 1) }

  /** One NAL unit of the scan. */
  function Store(c: Capture, n: Nal): Capture {
    if HasType(n, SPS) then c.(sps := Some(n))
    else if HasType(n, PPS) then c.(pps := Some(n))
    else c
  }

  function StoreAll(c: Capture, nalus: seq<Nal>): Capture {
    if |nalus| == 0 then c
    else Store(StoreAll(c, nalus[..|nalus| - 1]), nalus[|nalus| - 1])
  }

  function Idrs(nalus: seq<Nal>): seq<Nal> {
    if |nalus| == 0 then []
    else Idrs(nalus[..|nalus| - 1]) + (if HasType(nalus[|nalus| - 1], IDR) then [nalus[|nalus| - 1]] else [])
  }

  /** The last critical section of ingest. */
  function Assemble(c: Capture, idrs: seq<Nal>): Capture {
    if |idrs| == 0 || c.err.Some? || c.sps.None? || c.pps.None? then c
    else
      var fr := Frame(Build([c.sps.value, c.pps.value] + idrs), c.generation + 1);
      Notify(c.(generation := c.generation + 1, latest := Some(fr)))
  }

  function Fail(c: Capture, err: nat): Capture {
    if c.err.Some? then c else Notify(c.(err := Some(err)))
  }

  function Seed(c: Capture, sps: Option<Nal>, pps: Option<Nal>): Capture {
    c.(sps := if c.sps.None? then sps else c.sps, pps := if c.pps.None? then pps else c.pps)
  }

  datatype Seen = Return(frame: Frame) | Broken(err: nat) | WaitOn(channel: nat)

  /** The critical section of waitForFrameAfter. */
  function Look(c: Capture, after: nat): Seen {
    if c.latest.Some? && c.latest.value.generation > after then Return(c.latest.value)
    else if c.err.Some? then Broken(c.err.value)
    else WaitOn(c.updated)
  }

  lemma Prefix<T>(s: seq<T>, i: nat)
    requires i < |s|
    ensures s[..i + 1][..i] == s[..i] && s[..i + 1][i] == s[i]
  {
  }

  // --- the mutable capture --------------------------------------------------------

  class FrameStore {
    var sps: Option<Nal>
    var pps: Option<Nal>
    var latest: Option<Frame>
    var generation: nat
    var err: Option<nat>
    var updated: nat

    function View(): Capture
      reads this
    {
      Capture(sps, pps, latest, generation, err, updated)
    }

    constructor ()
      ensures View() == FRESH
    {
      sps, pps, latest, generation, err, updated := None, None, None, 0, None, 0;
    }

    method NotifyLocked()
      modifies this`updated
      ensures View() == Notify(old(View()))
    {
      updated := updated + 1;
    }

    method RecordFailure(e: nat)
      modifies this
      ensures View() == Fail(old(View()), e)
      ensures err == Some(if old(err).Some? then old(err).value else e) && latest == old(latest)
      ensures updated > old(updated) <==> old(err).None?
    {
      if err.Some? { return; }
      err := Some(e);
      NotifyLocked();
    }

    method SeedParameterSets(newSps: Option<Nal>, newPps: Option<Nal>)
      modifies this
      ensures View() == Seed(old(View()), newSps, newPps)
      ensures (old(sps).Some? ==> sps == old(sps)) && (old(pps).Some? ==> pps == old(pps))
      ensures latest == old(latest) && generation == old(generation) && updated == old(updated)
    {
      if newSps.None? && newPps.None? { return; }
      if newSps.Some? && sps.None? { sps := newSps; }
      if newPps.Some? && pps.None? { pps := newPps; }
    }

    method Ingest(annexB: seq<byte>)
      modifies this
      ensures View() == Assemble(StoreAll(old(View()), Split(annexB)), Idrs(Split(annexB)))
      ensures generation == old(generation) || (generation == old(generation) + 1 && latest.Some? && err.None?)
    {
      var nalus := SplitAnnexB(annexB);
      var idrs: seq<Nal> := [];
      for i := 0 to |nalus|
        invariant View() == StoreAll(old(View()), nalus[..i]) && generation == old(generation)
        invariant idrs == Idrs(nalus[..i])
      {
        Prefix(nalus, i);
        var n := nalus[i];
        if |n| > 0 {
          if n[0] % 32 == SPS { sps := Some(n); }
          else if n[0] % 32 == PPS { pps := Some(n); }
          else if n[0] % 32 == IDR { idrs := idrs + [n]; }
        }
      }
      assert nalus[..|nalus|] == nalus;
      if |idrs| == 0 || err.Some? || sps.None? || pps.None? { return; }
      var out := BuildAnnexB([sps.value, pps.value] + idrs);
      generation := generation + 1;
      latest := Some(Frame(out, generation));
      NotifyLocked();
    }

    method LookAfter(after: nat) returns (seen: Seen)
      ensures seen == Look(View(), after)
      ensures seen.Return? ==> seen.frame.generation > after && latest == Some(seen.frame)
      ensures !seen.Return? ==> latest.None? || latest.value.generation <= after
      ensures seen.WaitOn? <==> !seen.Return? && err.None?
      ensures seen.Broken? ==> err == Some(seen.err)
      ensures seen.WaitOn? ==> seen.channel == updated
    {
      if latest.Some? && latest.value.generation > after { return Return(latest.value); }
      if err.Some? { return Broken(err.value); }
      return WaitOn(updated);
    }
  }

  // --- the track reader, failures, seeds and waiters, interleaved -------------------

  /** The reader between its critical sections: `at` units of `unit` are scanned. */
  datatype Ingest = Resting | Scanning(unit: seq<Nal>, at: nat)

  /** `mark` is how many frames had been published when the request read its boundary. */
  datatype Waiter =
    | Looking(after: nat, mark: nat)
    | Sleeping(after: nat, mark: nat, channel: nat)
    | GotFrame(frame: Frame, mark: nat)
    | GotError(err: nat)
    | GaveUp

  /** A frame, the access unit that completed it, and how much of the stream came before. */
  datatype Published = Published(frame: Frame, unit: seq<Nal>, upTo: nat)

  /** `stream` is every NAL unit scanned so far; the seeds are the first ones offered. */
  datatype Sys = Sys(
    capture: Capture, ingest: Ingest, stream: seq<Nal>, seedSps: Option<Nal>, seedPps: Option<Nal>,
    history: seq<Published>, waiters: map<nat, Waiter>)

  const INIT := Sys(FRESH, Resting, [], None, None, [], map[])

  datatype Action =
    | BeginUnit(data: seq<byte>) | ScanNext | EndUnit
    | FailWith(err: nat) | SeedWith(sps: Option<Nal>, pps: Option<Nal>)
    | ReadBoundary(w: nat) | TakeLook(w: nat) | Wake(w: nat) | Cancel(w: nat)

  function Or(a: Option<Nal>, b: Option<Nal>): Option<Nal> { if a.Some? then a else b }

  function DoReader(s: Sys, a: Action): Option<Sys> {
    match a
    case BeginUnit(data) => if s.ingest.Resting? then Some(s.(ingest := Scanning(Split(data), 0))) else None
    case ScanNext =>
      if !s.ingest.Scanning? || s.ingest.at >= |s.ingest.unit| then None
      else
        var n := s.ingest.unit[s.ingest.at];
        Some(s.(capture := Store(s.capture, n), stream := s.stream + [n], ingest := s.ingest.(at := s.ingest.at + 1)))
    case EndUnit =>
      if !s.ingest.Scanning? || s.ingest.at != |s.ingest.unit| then None
      else
        var c := Assemble(s.capture, Idrs(s.ingest.unit));
        Some(s.(capture := c, ingest := Resting,
                history := if c == s.capture then s.history
                           else s.history + [Published(c.latest.value, s.ingest.unit, |s.stream|)]))
    case _ => None
  }

  function DoWaiter(s: Sys, a: Action): Option<Sys> {
    match a
    case ReadBoundary(w) =>
      if w in s.waiters then None
      else Some(s.(waiters := s.waiters[w := Looking(s.capture.generation, |s.history|)]))
    case TakeLook(w) =>
      if w !in s.waiters || !s.waiters[w].Looking? then None
      else
        var me := s.waiters[w];
        Some(s.(waiters := s.waiters[w :=
          match Look(s.capture, me.after)
          case Return(frame) => GotFrame(frame, me.mark)
          case Broken(err) => GotError(err)
          case WaitOn(channel) => Sleeping(me.after, me.mark, channel)]))
    case Wake(w) =>
      if w in s.waiters && s.waiters[w].Sleeping? && s.waiters[w].channel < s.capture.updated
      then Some(s.(waiters := s.waiters[w := Looking(s.waiters[w].after, s.waiters[w].mark)])) else None
    case Cancel(w) =>
      if w in s.waiters && s.waiters[w].Sleeping? then Some(s.(waiters := s.waiters[w := GaveUp])) else None
    case _ => None
  }

  function Do(s: Sys, a: Action): Option<Sys> {
    match a
    case FailWith(err) => Some(s.(capture := Fail(s.capture, err)))
    case SeedWith(sps, pps) =>
      Some(s.(capture := Seed(s.capture, sps, pps), seedSps := Or(s.seedSps, sps), seedPps := Or(s.seedPps, pps)))
    case BeginUnit(_) => DoReader(s, a)
    case ScanNext => DoReader(s, a)
    case EndUnit => DoReader(s, a)
    case _ => DoWaiter(s, a)
  }

  function Exec(s: Sys, run: seq<Action>): Option<Sys>
    decreases |run|
  {
    if |run| == 0 then Some(s)
    else match Do(s, run[0])
      case None => None
      case Some(s') => Exec(s', run[1..])
  }

  // --- invariant --------------------------------------------------------------------

  /** The last unit of this type in the stream. */
  function Newest(stream: seq<Nal>, t: nat): Option<Nal> {
    if |stream| == 0 then None
    else if HasType(stream[|stream| - 1], t) then Some(stream[|stream| - 1])
    else Newest(stream[..|stream| - 1], t)
  }

  /** In-band parameter sets win; a seed only fills the gap. */
  function NewestSps(s: Sys, upTo: nat): Option<Nal>
    requires upTo <= |s.stream|
  {
    Or(Newest(s.stream[..upTo], 7), s.seedSps)
  }

  function NewestPps(s: Sys, upTo: nat): Option<Nal>
    requires upTo <= |s.stream|
  {
    Or(Newest(s.stream[..upTo], 8), s.seedPps)
  }

  predicate ReaderOk(s: Sys) {
    && (s.ingest.Scanning? ==>
          && s.ingest.at <= |s.ingest.unit| && s.ingest.at <= |s.stream|
          && s.stream[|s.stream| - s.ingest.at..] == s.ingest.unit[..s.ingest.at]
          && AllCodeFree(s.ingest.unit))
    && AllCodeFree(s.stream)
  }

  predicate SetsOk(s: Sys) {
    && s.capture.sps == NewestSps(s, |s.stream|)
    && s.capture.pps == NewestPps(s, |s.stream|)
  }

  /** A frame is built from the newest parameter sets at its publication and the IDR
      slices of the access unit that ends there. */
  predicate PublishedOk(s: Sys, p: Published) {
    && |p.unit| <= p.upTo <= |s.stream| && s.stream[p.upTo - |p.unit|..p.upTo] == p.unit
    && NewestSps(s, p.upTo).Some? && NewestPps(s, p.upTo).Some? && |Idrs(p.unit)| > 0
    && p.frame.annexB == Build([NewestSps(s, p.upTo).value, NewestPps(s, p.upTo).value] + Idrs(p.unit))
  }

  function Parts(s: Sys, p: Published): seq<Nal>
    requires PublishedOk(s, p)
  {
    [NewestSps(s, p.upTo).value, NewestPps(s, p.upTo).value] + Idrs(p.unit)
  }

  predicate HistoryOk(s: Sys) {
    && s.capture.generation == |s.history|
    && (s.capture.latest.None? <==> |s.history| == 0)
    && (s.capture.latest.Some? ==> s.capture.latest.value == s.history[|s.history| - 1].frame)
    && (forall i | 0 <= i < |s.history| :: s.history[i].frame.generation == i + 1)
    && (forall i | 0 <= i < |s.history| :: PublishedOk(s, s.history[i]))
  }

  predicate WaiterOk(c: Capture, history: seq<Published>, w: Waiter) {
    match w
    case Looking(after, mark) => after == mark <= |history|
    case Sleeping(after, mark, channel) =>
      && after == mark <= |history| && channel <= c.updated
      && (channel == c.updated <==> |history| <= after && c.err.None?)
    case GotFrame(frame, mark) => mark < frame.generation <= |history| && history[frame.generation - 1].frame == frame
    case GotError(err) => c.err == Some(err)
    case GaveUp => true
  }

  predicate WaitersOk(s: Sys) {
    forall w <- s.waiters :: WaiterOk(s.capture, s.history, s.waiters[w])
  }

  predicate Inv(s: Sys) { ReaderOk(s) && SetsOk(s) && HistoryOk(s) && WaitersOk(s) }

  /** What every step may do to the shared part: frames only accumulate, and not after a failure. */
  predicate Grows(s: Sys, s': Sys) {
    && |s.history| <= |s'.history| && s'.history[..|s.history|] == s.history
    && s.capture.updated <= s'.capture.updated
    && (s.capture.err.Some? ==> s'.capture.err == s.capture.err && s'.history == s.history)
    && (s'.capture.updated == s.capture.updated <==> s'.history == s.history && s'.capture.err == s.capture.err)
  }

  lemma WaitersFrame(s: Sys, s': Sys)
    requires WaitersOk(s) && Grows(s, s') && s'.waiters == s.waiters
    ensures WaitersOk(s')
  {
    forall w <- s.waiters ensures WaiterOk(s'.capture, s'.history, s'.waiters[w]) {
      assert WaiterOk(s.capture, s.history, s.waiters[w]);
      if s.waiters[w].GotFrame? {
        var i := s.waiters[w].frame.generation - 1;
        assert s'.history[..|s.history|][i] == s.history[i];
      }
    }
  }

  /** The newest sets of a published frame do not change as the stream and the seeds grow. */
  lemma PublishedFrame(s: Sys, s': Sys, p: Published)
    requires PublishedOk(s, p)
    requires |s.stream| <= |s'.stream| && s'.stream[..|s.stream|] == s.stream
    requires (s.seedSps.Some? ==> s'.seedSps == s.seedSps) && (s.seedPps.Some? ==> s'.seedPps == s.seedPps)
    ensures PublishedOk(s', p) && Parts(s', p) == Parts(s, p)
  {
    assert s'.stream[..p.upTo] == s.stream[..p.upTo];
    assert s'.stream[p.upTo - |p.unit|..p.upTo] == s.stream[p.upTo - |p.unit|..p.upTo];
  }

  lemma HistoryFrame(s: Sys, s': Sys)
    requires HistoryOk(s) && s'.history == s.history
    requires s'.capture.latest == s.capture.latest && s'.capture.generation == s.capture.generation
    requires |s.stream| <= |s'.stream| && s'.stream[..|s.stream|] == s.stream
    requires (s.seedSps.Some? ==> s'.seedSps == s.seedSps) && (s.seedPps.Some? ==> s'.seedPps == s.seedPps)
    ensures HistoryOk(s')
  {
    forall i | 0 <= i < |s.history| ensures PublishedOk(s', s.history[i]) { PublishedFrame(s, s', s.history[i]); }
  }

  lemma NewestSnoc(stream: seq<Nal>, n: Nal, t: nat)
    ensures Newest(stream + [n], t) == if HasType(n, t) then Some(n) else Newest(stream, t)
  {
    assert (stream + [n])[..|stream|] == stream;
  }

  lemma ScanKeepsReader(s: Sys, s': Sys)
    requires ReaderOk(s) && DoReader(s, ScanNext) == Some(s')
    ensures ReaderOk(s')
  {
    var n, at := s.ingest.unit[s.ingest.at], s.ingest.at;
    assert s'.ingest.unit[..at + 1] == s.ingest.unit[..at] + [n];
    assert s'.stream[|s'.stream| - (at + 1)..] == s.stream[|s.stream| - at..] + [n];
  }

  lemma ScanKeepsInv(s: Sys, s': Sys)
    requires Inv(s) && DoReader(s, ScanNext) == Some(s')
    ensures Inv(s') && Grows(s, s')
  {
    hide PublishedOk, Newest, WaiterOk;
    var n := s.ingest.unit[s.ingest.at];
    ScanKeepsReader(s, s');
    NewestSnoc(s.stream, n, SPS);
    NewestSnoc(s.stream, n, PPS);
    assert s'.stream[..|s'.stream|] == s.stream + [n] && s.stream[..|s.stream|] == s.stream;
    HistoryFrame(s, s');
    WaitersFrame(s, s');
  }

  lemma EndKeepsHistory(s: Sys, s': Sys)
    requires Inv(s) && DoReader(s, EndUnit) == Some(s')
    ensures HistoryOk(s') && Grows(s, s')
  {
    if s'.capture == s.capture {
      HistoryFrame(s, s');
    } else {
      var p := s'.history[|s.history|];
      assert s.stream[|s.stream| - |p.unit|..] == s.ingest.unit[..|p.unit|];
      assert PublishedOk(s', p);
      forall i | 0 <= i < |s.history| ensures PublishedOk(s', s'.history[i]) {
        assert s'.history[i] == s.history[i];
        PublishedFrame(s, s', s.history[i]);
      }
    }
  }

  lemma WaiterKeepsInv(s: Sys, a: Action, s': Sys)
    requires Inv(s) && DoWaiter(s, a) == Some(s')
    ensures Inv(s') && Grows(s, s')
  {
    hide PublishedOk, Newest;
    HistoryFrame(s, s');
  }

  lemma StepKeepsInv(s: Sys, a: Action, s': Sys)
    requires Inv(s) && Do(s, a) == Some(s')
    ensures Inv(s') && Grows(s, s')
  {
    hide PublishedOk, Newest, WaiterOk;
    match a
    case BeginUnit(data) =>
      SplitIsCodeFree(data);
      HistoryFrame(s, s');
    case ScanNext => ScanKeepsInv(s, s');
    case EndUnit =>
      EndKeepsHistory(s, s');
      WaitersFrame(s, s');
    case FailWith(_) =>
      HistoryFrame(s, s');
      WaitersFrame(s, s');
    case SeedWith(_, _) =>
      HistoryFrame(s, s');
      WaitersFrame(s, s');
    case _ => WaiterKeepsInv(s, a, s');
  }

  lemma GrowsTransitive(a: Sys, b: Sys, c: Sys)
    requires Grows(a, b) && Grows(b, c)
    ensures Grows(a, c)
  {
    assert c.history[..|a.history|] == c.history[..|b.history|][..|a.history|];
  }

  lemma {:induction false} RunKeepsInv(s: Sys, run: seq<Action>, s': Sys)
    requires Inv(s) && Exec(s, run) == Some(s')
    ensures Inv(s') && Grows(s, s')
    decreases |run|
  {
    hide Inv, Do;
    if |run| > 0 {
      var next := Do(s, run[0]).value;
      StepKeepsInv(s, run[0], next);
      RunKeepsInv(next, run[1..], s');
      GrowsTransitive(s, next, s');
    }
  }

  // --- what waiters can rely on -------------------------------------------------------

  predicate Reaches(run: seq<Action>, s: Sys) { Exec(INIT, run) == Some(s) }

  lemma ReachableInv(run: seq<Action>, s: Sys)
    requires Reaches(run, s)
    ensures Inv(s)
  {
    RunKeepsInv(INIT, run, s);
  }

  lemma {:induction false} NewestIsCodeFree(stream: seq<Nal>, t: nat)
    requires AllCodeFree(stream)
    ensures Newest(stream, t).Some? ==> CodeFree(Newest(stream, t).value)
  {
    if |stream| > 0 { NewestIsCodeFree(stream[..|stream| - 1], t); }
  }

  lemma {:induction false} IdrsAreCodeFree(nalus: seq<Nal>)
    requires AllCodeFree(nalus)
    ensures AllCodeFree(Idrs(nalus))
  {
    if |nalus| > 0 { IdrsAreCodeFree(nalus[..|nalus| - 1]); }
  }

  lemma PartsAreCodeFree(s: Sys, p: Published)
    requires AllCodeFree(s.stream) && PublishedOk(s, p)
    requires (s.seedSps.Some? ==> CodeFree(s.seedSps.value)) && (s.seedPps.Some? ==> CodeFree(s.seedPps.value))
    ensures AllCodeFree(Parts(s, p))
  {
    hide CodeFree, Idrs, Newest;
    NewestIsCodeFree(s.stream[..p.upTo], SPS);
    NewestIsCodeFree(s.stream[..p.upTo], PPS);
    assert AllCodeFree(p.unit) by {
      forall i | 0 <= i < |p.unit| ensures CodeFree(p.unit[i]) {
        assert p.unit[i] == s.stream[p.upTo - |p.unit|..p.upTo][i] == s.stream[p.upTo - |p.unit| + i];
      }
    }
    IdrsAreCodeFree(p.unit);
  }

  /** A frame a request got was published after the request read its boundary. It is
      built from the newest SPS, the newest PPS and the IDR slices of the access unit
      that ended at its publication, and it splits back to exactly those whenever
      seeds taken from the SDP hold no start code. */
  lemma ReturnedFrameIsFresh(run: seq<Action>, s: Sys, w: nat) returns (k: nat)
    requires Reaches(run, s) && w in s.waiters && s.waiters[w].GotFrame?
    ensures s.waiters[w].mark <= k < |s.history| && s.history[k].frame == s.waiters[w].frame
    ensures PublishedOk(s, s.history[k])
    ensures (s.seedSps.Some? ==> CodeFree(s.seedSps.value)) && (s.seedPps.Some? ==> CodeFree(s.seedPps.value)) ==>
              Split(s.waiters[w].frame.annexB) == Parts(s, s.history[k])
  {
    ReachableInv(run, s);
    assert WaiterOk(s.capture, s.history, s.waiters[w]);
    k := s.waiters[w].frame.generation - 1;
    assert PublishedOk(s, s.history[k]);
    if (s.seedSps.Some? ==> CodeFree(s.seedSps.value)) && (s.seedPps.Some? ==> CodeFree(s.seedPps.value)) {
      PartsAreCodeFree(s, s.history[k]);
      SplitOfBuild(Parts(s, s.history[k]));
    }
  }

  /** No lost wakeup and no spurious one: a sleeping waiter can wake exactly when a
      frame past its boundary, or a failure, is there, and its next look then returns,
      preferring the newest frame. */
  lemma NoLostWakeup(run: seq<Action>, s: Sys, w: nat)
    requires Reaches(run, s) && w in s.waiters && s.waiters[w].Sleeping?
    ensures Do(s, Wake(w)).Some? <==> |s.history| > s.waiters[w].mark || s.capture.err.Some?
    ensures Do(s, Wake(w)).Some? ==>
              var awake := Do(s, Wake(w)).value;
              && Do(awake, TakeLook(w)).Some?
              && w in Do(awake, TakeLook(w)).value.waiters
              && Do(awake, TakeLook(w)).value.waiters[w] ==
                   if |s.history| > s.waiters[w].mark
                   then GotFrame(s.history[|s.history| - 1].frame, s.waiters[w].mark)
                   else GotError(s.capture.err.value)
  {
    ReachableInv(run, s);
    assert WaiterOk(s.capture, s.history, s.waiters[w]);
  }

  /** After a failure no frame is ever published, and every error a waiter is given is
      the first one recorded. */
  lemma FailureIsTerminal(run: seq<Action>, s: Sys, more: seq<Action>, s': Sys, w: nat)
    requires Reaches(run, s) && s.capture.err.Some? && Exec(s, more) == Some(s')
    ensures s'.history == s.history && s'.capture.err == s.capture.err && s'.capture.latest == s.capture.latest
    ensures w in s'.waiters && s'.waiters[w].GotError? ==> Some(s'.waiters[w].err) == s.capture.err
  {
    ReachableInv(run, s);
    RunKeepsInv(s, more, s');
    if w in s'.waiters { assert WaiterOk(s'.capture, s'.history, s'.waiters[w]); }
  }

  lemma {:induction false} ExecSnoc(s: Sys, run: seq<Action>, a: Action)
    requires Exec(s, run).Some?
    ensures Exec(s, run + [a]) == Do(Exec(s, run).value, a)
    decreases |run|
  {
    if |run| == 0 {
      assert [a][1..] == [];
    } else {
      assert (run + [a])[1..] == run[1..] + [a];
      ExecSnoc(Do(s, run[0]).value, run[1..], a);
    }
  }

  /** The reader's steps for one access unit, uninterrupted, are the ingest method. */
  lemma {:induction false} ScanIsStoreAll(s: Sys, unit: seq<Nal>, n: nat)
    requires s.ingest == Scanning(unit, 0) && n <= |unit|
    ensures var s' := Exec(s, seq(n, _ => ScanNext));
            s'.Some? && s'.value == s.(capture := StoreAll(s.capture, unit[..n]), stream := s.stream + unit[..n],
                                       ingest := Scanning(unit, n))
  {
    if n == 0 {
      assert s.stream + unit[..0] == s.stream;
    } else {
      ScanIsStoreAll(s, unit, n - 1);
      var all, most := seq(n, _ => ScanNext), seq(n - 1, _ => ScanNext);
      assert all == most + [ScanNext];
      ExecSnoc(s, most, ScanNext);
      Prefix(unit, n - 1);
      assert s.stream + unit[..n - 1] + [unit[n - 1]] == s.stream + unit[..n];
    }
  }

  /** So the interleaved model, left undisturbed, computes what the ingest method does. */
  lemma IngestIsItsSections(s: Sys, data: seq<byte>)
    requires s.ingest.Resting?
    ensures var n := |Split(data)|;
            var s' := Exec(s, [BeginUnit(data)] + seq(n, _ => ScanNext) + [EndUnit]);
            s'.Some? && s'.value.capture == Assemble(StoreAll(s.capture, Split(data)), Idrs(Split(data)))
  {
    var unit := Split(data);
    var begun := s.(ingest := Scanning(unit, 0));
    var scans := seq(|unit|, _ => ScanNext);
    ScanIsStoreAll(begun, unit, |unit|);
    assert unit[..|unit|] == unit;
    assert ([BeginUnit(data)] + scans)[1..] == scans;
    ExecSnoc(s, [BeginUnit(data)] + scans, EndUnit);
  }

  // --- and every decodable unit is published --------------------------------------------

  /** `picked` is some of the units, in order: those at the increasing positions `at`. */
  predicate InOrder(nalus: seq<Nal>, picked: seq<Nal>, at: seq<nat>) {
    && |picked| == |at|
    && (forall k | 0 <= k < |at| :: at[k] < |nalus| && picked[k] == nalus[at[k]])
    && (forall j, k | 0 <= j < k < |at| :: at[j] < at[k])
  }

  /** As often as in the unit when of that type, and never otherwise. */
  ghost predicate SameOfType(nalus: seq<Nal>, picked: seq<Nal>, t: nat) {
    forall n: Nal :: multiset(picked)[n] == if HasType(n, t) then multiset(nalus)[n] else 0
  }

  lemma InOrderSnoc(nalus: seq<Nal>, picked: seq<Nal>, at: seq<nat>, n: Nal)
    requires InOrder(nalus, picked, at)
    ensures InOrder(nalus + [n], picked, at) && InOrder(nalus + [n], picked + [n], at + [|nalus|])
  {
  }

  lemma SameOfTypeSnoc(nalus: seq<Nal>, picked: seq<Nal>, t: nat, n: Nal)
    requires SameOfType(nalus, picked, t)
    ensures SameOfType(nalus + [n], if HasType(n, t) then picked + [n] else picked, t)
  {
    hide HasType;
  }

  lemma NoIdrs()
    ensures Idrs([]) == [] && InOrder([], [], []) && SameOfType([], [], IDR)
  {
  }

  lemma IdrsSnoc(nalus: seq<Nal>, n: Nal)
    ensures Idrs(nalus + [n]) == if HasType(n, IDR) then Idrs(nalus) + [n] else Idrs(nalus)
  {
    assert (nalus + [n])[..|nalus|] == nalus;
  }

  /** Idrs is exactly the unit's IDR slices: those and no others, each as often as it occurs,
      in the unit's order. */
  lemma {:induction false} IdrsAreExact(nalus: seq<Nal>) returns (at: seq<nat>)
    ensures InOrder(nalus, Idrs(nalus), at) && SameOfType(nalus, Idrs(nalus), 5)
  {
    hide HasType, InOrder, SameOfType, Idrs;
    if |nalus| == 0 {
      at := [];
      NoIdrs();
      assert nalus == [];
    } else {
      var rest, n := nalus[..|nalus| - 1], nalus[|nalus| - 1];
      at := IdrsAreExact(rest);
      InOrderSnoc(rest, Idrs(rest), at, n);
      SameOfTypeSnoc(rest, Idrs(rest), IDR, n);
      IdrsSnoc(rest, n);
      assert nalus == rest + [n];
      if HasType(n, IDR) { at := at + [|rest|]; }
    }
  }

  predicate HasIdr(unit: seq<Nal>) { exists i | 0 <= i < |unit| :: HasType(unit[i], 5) }

  lemma IdrsOrNone(unit: seq<Nal>)
    ensures |Idrs(unit)| > 0 <==> HasIdr(unit)
  {
    hide Idrs, HasType;
    var idrs := Idrs(unit);
    var at := IdrsAreExact(unit);
    if |idrs| > 0 {
      assert idrs[0] in multiset(idrs);
      assert idrs[0] in multiset(unit);
    }
    if HasIdr(unit) {
      var i :| 0 <= i < |unit| && HasType(unit[i], IDR);
      assert unit[i] in multiset(unit);
      assert unit[i] in multiset(idrs);
    }
  }

  /** Newest is the last of its type. */
  lemma {:induction false} NewestIsLast(stream: seq<Nal>, t: nat)
    ensures Newest(stream, t).None? <==> forall i | 0 <= i < |stream| :: !HasType(stream[i], t)
    ensures Newest(stream, t).Some? ==>
              exists i | 0 <= i < |stream| :: stream[i] == Newest(stream, t).value && HasType(stream[i], t)
                && forall j | i < j < |stream| :: !HasType(stream[j], t)
  {
    if |stream| > 0 {
      var rest, n := stream[..|stream| - 1], |stream| - 1;
      NewestIsLast(rest, t);
      assert forall i | 0 <= i < n :: rest[i] == stream[i];
      if !HasType(stream[n], t) && Newest(rest, t).Some? {
        var i :| 0 <= i < |rest| && rest[i] == Newest(rest, t).value && HasType(rest[i], t)
          && forall j | i < j < |rest| :: !HasType(rest[j], t);
        assert stream[i] == rest[i];
      }
    }
  }

  /** The end of an access unit publishes one frame if and only if the unit has an IDR slice,
      both parameter sets have been seen or seeded, and no failure was recorded; and then
      it wakes every sleeper. Otherwise nothing changes. */
  lemma KeyframeIsPublished(run: seq<Action>, s: Sys, s': Sys)
    requires Reaches(run, s) && Do(s, EndUnit) == Some(s') && s.ingest.Scanning?
    ensures var publishes := s.capture.err.None? && NewestSps(s, |s.stream|).Some? && NewestPps(s, |s.stream|).Some?
                               && HasIdr(s.ingest.unit);
            && |s'.history| == |s.history| + (if publishes then 1 else 0)
            && s'.history[..|s.history|] == s.history
            && (publishes ==> s.capture.updated < s'.capture.updated && s'.history[|s.history|].unit == s.ingest.unit)
            && (!publishes ==> s'.capture == s.capture)
            && s'.ingest.Resting?
  {
    hide PublishedOk, Newest, WaiterOk, Idrs, HasIdr, Build, ReaderOk, WaitersOk;
    ReachableInv(run, s);
    IdrsOrNone(s.ingest.unit);
    assert s.history + [] == s.history;
  }

  /** What a waiter's look finds. */
  lemma LookIsExact(run: seq<Action>, s: Sys, w: nat, s': Sys)
    requires Reaches(run, s) && Do(s, TakeLook(w)) == Some(s')
    ensures w in s.waiters && s.waiters[w].Looking? && w in s'.waiters && s' == s.(waiters := s'.waiters)
    ensures var mark := s.waiters[w].mark;
            s'.waiters[w] == (if |s.history| > mark then GotFrame(s.history[|s.history| - 1].frame, mark)
                              else if s.capture.err.Some? then GotError(s.capture.err.value)
                              else Sleeping(mark, mark, s.capture.updated))
  {
    ReachableInv(run, s);
    assert WaiterOk(s.capture, s.history, s.waiters[w]);
  }

  /** A failure is recorded, once, and a context can end any wait. */
  lemma FailureIsRecorded(run: seq<Action>, s: Sys, e: nat, w: nat)
    requires Reaches(run, s)
    ensures Do(s, FailWith(e)).Some?
    ensures Do(s, FailWith(e)).value.capture.err == Some(if s.capture.err.Some? then s.capture.err.value else e)
    ensures w in s.waiters && s.waiters[w].Sleeping? ==> Do(s, Cancel(w)) == Some(s.(waiters := s.waiters[w := GaveUp]))
  {
  }

  predicate MarkIs(s: Sys, w: nat, mark: nat) {
    w in s.waiters && match s.waiters[w]
      case Looking(_, m) => m == mark
      case Sleeping(_, m, _) => m == mark
      case GotFrame(_, m) => m == mark
      case _ => true
  }

  lemma StepKeepsMark(s: Sys, a: Action, s': Sys, w: nat, mark: nat)
    requires MarkIs(s, w, mark) && Do(s, a) == Some(s')
    ensures MarkIs(s', w, mark)
  {
    hide Assemble, Split;
  }

  lemma {:induction false} RunKeepsMark(s: Sys, run: seq<Action>, s': Sys, w: nat, mark: nat)
    requires MarkIs(s, w, mark) && Exec(s, run) == Some(s')
    ensures MarkIs(s', w, mark)
    decreases |run|
  {
    hide Do, MarkIs;
    if |run| > 0 {
      StepKeepsMark(s, run[0], Do(s, run[0]).value, w, mark);
      RunKeepsMark(Do(s, run[0]).value, run[1..], s', w, mark);
    }
  }

  lemma GotFrameFacts(s: Sys, w: nat)
    requires Inv(s) && w in s.waiters && s.waiters[w].GotFrame?
    ensures s.waiters[w].mark < s.waiters[w].frame.generation <= |s.history|
    ensures s.history[s.waiters[w].frame.generation - 1].frame == s.waiters[w].frame
  {
    assert WaiterOk(s.capture, s.history, s.waiters[w]);
  }

  /** CaptureScreenshot: a request that reads its boundary in state s and later has a frame
      has one that was published after s. */
  lemma ScreenshotIsFresh(run: seq<Action>, s: Sys, w: nat, s1: Sys, more: seq<Action>, s': Sys) returns (k: nat)
    requires Reaches(run, s) && Do(s, ReadBoundary(w)) == Some(s1) && Exec(s1, more) == Some(s')
    requires w in s'.waiters && s'.waiters[w].GotFrame?
    ensures |s.history| <= k < |s'.history| && s'.history[k].frame == s'.waiters[w].frame
    ensures s'.history[..|s.history|] == s.history
  {
    hide Inv, WaitersOk;
    ReachableInv(run, s);
    StepKeepsInv(s, ReadBoundary(w), s1);
    RunKeepsInv(s1, more, s');
    RunKeepsMark(s1, more, s', w, |s.history|);
    GrowsTransitive(s, s1, s');
    GotFrameFacts(s', w);
    k := s'.waiters[w].frame.generation - 1;
  }
}
