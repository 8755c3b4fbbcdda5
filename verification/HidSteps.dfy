/** Every step of the HID control protocol keeps the invariant. */
module HidSteps {
  import opened Outcomes
  import opened HidProto
  import opened HidCore
  import opened HidProtocol
  import opened HidInvariant

  // --- what a change of one part leaves intact ----------------------------------

  predicate Idle(w: Writer) { !w.Sending? && !AtBarrier(w) }

  lemma WriterAdvance(c: Core, c': Core, w: Writer)
    requires WriterInv(c, w) && Advances(c, c') && c'.held == c.held
    ensures WriterInv(c', w)
  {
  }

  lemma OrderAdvance(c: Core, c': Core, w: Writer, w': Writer, log: seq<Entry>)
    requires OrderInv(c, w, log) && Advances(c, c')
    requires w' == w || !w'.Sending?
    ensures OrderInv(c', w', log)
  {
    forall i | 0 <= i < |log| ensures EntryOk(c', log[i]) { AdvanceKeeps(c, c', log[i].epoch); }
  }

  predicate SameAwaits(s: Sys, s': Sys) {
    && (s'.gate == s.gate || !(TxAwaiting(s.gate) || TxAwaiting(s'.gate)))
    && (s'.client.hs == s.client.hs || !(s.client.hs.HsAwaiting? || s'.client.hs.HsAwaiting?))
  }

  predicate QueuesGrow(q: Queues, q': Queues) { q.nextId <= q'.nextId && q.expired <= q'.expired }

  lemma PrivilegedFrame(s: Sys, s': Sys, r: Request)
    requires PrivilegedOk(s, r) && Advances(s.core, s'.core)
    requires QueuesGrow(s.queues, s'.queues) && r.id !in s'.queues.results
    requires s.writer.Stopped? ==> s'.writer.Stopped?
    requires SameAwaits(s, s')
    ensures PrivilegedOk(s', r)
  {
  }

  lemma QueueFrame(s: Sys, s': Sys)
    requires QueueInv(s) && Advances(s.core, s'.core)
    requires QueuesGrow(s.queues, s'.queues)
    requires s'.queues.sendQ == s.queues.sendQ && s'.queues.prioQ == s.queues.prioQ
    requires s'.queues.results == s.queues.results
    requires InHand(s'.writer) == InHand(s.writer)
    requires s.writer.Stopped? ==> s'.writer.Stopped?
    requires SameAwaits(s, s')
    ensures QueueInv(s')
  {
    var q := s.queues.prioQ;
    forall i | 0 <= i < |q| ensures PrivilegedOk(s', q[i]) { PrivilegedFrame(s, s', q[i]); }
    if InHandPrivileged(s.writer) { PrivilegedFrame(s, s', InHand(s.writer).value); }
  }

  lemma TxFrame(s: Sys, s': Sys)
    requires TxInv(s) && Advances(s.core, s'.core) && s'.core.held == s.core.held
    requires s'.gate == s.gate
    requires QueuesGrow(s.queues, s'.queues)
    requires s.core.activeGen == 0 ==> s'.core.activeGen == 0
    requires s.client.hs.HsDone? ==> s'.client.hs.HsDone?
    requires |s'.wire.log| == |s.wire.log| && (s'.wire.acked == s.wire.acked || s.wire.acked < |s.wire.log|)
    ensures TxInv(s')
  {
  }

  lemma SilenceFrame(g: Gate, results: map<nat, bool>, w: Writer, w': Writer, wire: Wire, wire': Wire)
    requires SilenceInv(g, results, w, wire)
    requires w' == w || Idle(w')
    requires wire'.log == wire.log
    ensures SilenceInv(g, results, w', wire')
  {
  }

  lemma PointerFrame(h: HeldInput, w: Writer, w': Writer, wire: Wire)
    requires PointerInv(h, w, wire) && !w.Sending? && !w'.Sending?
    ensures PointerInv(h, w', wire)
  {
  }

  lemma BytesFrame(w: Writer, w': Writer, wire: Wire)
    requires BytesInv(w, wire) && !w'.Final? && !w'.Sending?
    ensures BytesInv(w', wire)
  {
  }

  // --- the world and the peer ---------------------------------------------------

  lemma CloseKeepsInv(s: Sys, s': Sys)
    requires Inv(s) && s' == s.(core := CloseWith(s.core))
    ensures Inv(s')
  {
    QueueFrame(s, s');
    WriterAdvance(s.core, s'.core, s.writer);
    OrderAdvance(s.core, s'.core, s.writer, s.writer, s.wire.log);
    TxFrame(s, s');
  }

  lemma SendKeepsQueue(s: Sys, s': Sys, r: Request)
    requires QueueInv(s) && HolderRequest(r)
    requires s' == s.(queues := s.queues.(sendQ := s.queues.sendQ + [r]))
    ensures QueueInv(s')
  {
    QueueFrame(s, s'.(queues := s'.queues.(sendQ := s.queues.sendQ)));
    var q := s.queues.prioQ;
    forall i | 0 <= i < |q| ensures PrivilegedOk(s', q[i]) { PrivilegedFrame(s, s', q[i]); }
    if InHandPrivileged(s.writer) { PrivilegedFrame(s, s', InHand(s.writer).value); }
  }

  lemma WorldKeepsInv(s: Sys, a: WorldAction, s': Sys)
    requires Inv(s) && DoWorld(s, a) == Some(s')
    ensures Inv(s')
  {
    match a
    case CloseNow => CloseKeepsInv(s, s');
    case HolderSend(r) =>
      SendKeepsQueue(s, s', r);
      TxFrame(s, s');
    case _ =>
      QueueFrame(s, s');
      TxFrame(s, s');
  }

  lemma PeerKeepsInv(s: Sys, a: PeerAction, s': Sys)
    requires Inv(s) && DoPeer(s, a) == Some(s')
    ensures Inv(s')
  {
    QueueFrame(s, s');
    TxFrame(s, s');
    SilenceFrame(s.gate, s.queues.results, s.writer, s.writer, s.wire, s'.wire);
    match a
    case Deliver =>
    case Ack(upTo) => BytesMonotone(s.wire.log, s.wire.acked, upTo);
    case Callback =>
  }

  // --- handshake ----------------------------------------------------------------

  /** An awaited request leaves the books only when it was completed, canceled, or orphaned. */
  predicate StopsAwaiting(s: Sys, s': Sys) {
    && (s'.gate == s.gate || !TxAwaiting(s'.gate))
    && (s'.gate != s.gate && TxAwaiting(s.gate) ==>
          || s.gate.tx.phase.id in s.queues.results
          || s.gate.tx.ctx in s.queues.expired || s.writer.Stopped?)
    && (s'.client.hs == s.client.hs || !s'.client.hs.HsAwaiting?)
    && (s'.client.hs != s.client.hs && s.client.hs.HsAwaiting? ==>
          || s.client.hs.id in s.queues.results
          || s.client.hs.ctx in s.queues.expired || s.writer.Stopped?)
  }

  lemma UnawaitKeepsQueue(s: Sys, s': Sys)
    requires QueueInv(s) && StopsAwaiting(s, s')
    requires Advances(s.core, s'.core) && s'.queues == s.queues && s'.writer == s.writer
    ensures QueueInv(s')
  {
    forall r | PrivilegedOk(s, r) ensures PrivilegedOk(s', r) {
      AdvanceKeeps(s.core, s'.core, r.epoch);
    }
  }

  /** A fresh privileged request at the end of priorityCh, awaited by its sender. */
  lemma PushKeepsQueue(s: Sys, s': Sys, r: Request)
    requires QueueInv(s) && IdsInv(s.queues, s.writer)
    requires s'.core == s.core && s'.writer == s.writer
    requires s'.queues == s.queues.(prioQ := s.queues.prioQ + [r], nextId := s.queues.nextId + 1)
    requires r.id == s.queues.nextId && PrivilegedOk(s', r)
    requires s'.gate == s.gate || (!TxAwaiting(s.gate) && TxAwaits(s'.gate, r.id))
    requires s'.client.hs == s.client.hs || (!s.client.hs.HsAwaiting? && HsAwaits(s'.client.hs, r.id))
    ensures QueueInv(s') && IdsInv(s'.queues, s'.writer)
  {
    forall q | PrivilegedOk(s, q) ensures PrivilegedOk(s', q) && q.id < r.id { }
  }

  lemma NegotiateControl(s: Sys, a: HandshakeAction, s': Sys)
    requires HandshakeInv(s.core.state, s.client, s.writer, s.queues.nextId)
    requires CoreOk(s.core) && DoHandshake(s, a) == Some(s')
    ensures HandshakeInv(s'.core.state, s'.client, s'.writer, s'.queues.nextId)
    ensures CoreOk(s'.core) && Advances(s.core, s'.core) && s'.core.held == s.core.held
    ensures s'.core.activeGen == s.core.activeGen && s'.core.genCounter == s.core.genCounter
    ensures s.client.hs.HsDone? ==> s'.client.hs.HsDone?
    ensures s.core.state == Closed ==> s'.core.state == Closed
    ensures s'.gate == s.gate && s'.wire == s.wire && s'.writer == s.writer
  {
  }

  lemma HsEnqueueKeepsQueue(s: Sys, s': Sys)
    requires QueueInv(s) && IdsInv(s.queues, s.writer) && 0 < s.queues.nextId
    requires DoHandshake(s, HsEnqueue) == Some(s')
    requires TxAwaiting(s.gate) ==> s.gate.tx.phase.id < s.queues.nextId
    ensures QueueInv(s') && IdsInv(s'.queues, s'.writer)
  {
    var r := HandshakeRequest(s.client.hs.ctx, s.queues.nextId);
    assert PrivilegedOk(s', r);
    PushKeepsQueue(s, s', r);
  }

  lemma NegotiateQueue(s: Sys, a: HandshakeAction, s': Sys)
    requires QueueInv(s) && IdsInv(s.queues, s.writer) && 0 < s.queues.nextId
    requires CoreOk(s.core) && DoHandshake(s, a) == Some(s') && Advances(s.core, s'.core)
    requires TxAwaiting(s.gate) ==> s.gate.tx.phase.id < s.queues.nextId
    requires s.core.state == Negotiating ==> !s.client.hs.HsAwaiting?
    ensures QueueInv(s') && IdsInv(s'.queues, s'.writer)
    ensures QueuesGrow(s.queues, s'.queues) && s'.queues.results == s.queues.results
  {
    if a == HsEnqueue {
      HsEnqueueKeepsQueue(s, s');
    } else {
      UnawaitKeepsQueue(s, s');
    }
  }

  lemma NegotiateKeepsInv(s: Sys, a: HandshakeAction, s': Sys)
    requires Inv(s) && DoHandshake(s, a) == Some(s')
    ensures Inv(s')
  {
    NegotiateControl(s, a, s');
    NegotiateQueue(s, a, s');
    WriterAdvance(s.core, s'.core, s.writer);
    OrderAdvance(s.core, s'.core, s.writer, s.writer, s.wire.log);
    TxFrame(s, s');
  }

  // --- lease and scroll ---------------------------------------------------------

  lemma LeaseControl(s: Sys, a: LeaseAction, s': Sys)
    requires LeaseInv(s.core.state, s.client, s.gate)
    requires a != BeginSection && DoLease(s, a) == Some(s')
    ensures LeaseInv(s'.core.state, s'.client, s'.gate)
    ensures s'.core == s.core && s'.queues == s.queues && s'.writer == s.writer && s'.wire == s.wire
    ensures s'.client == s.client.(slot := s'.client.slot)
    ensures s'.gate == s.gate
            || (!s.gate.Releasing? && (s'.gate.Releasing? ==> s'.gate.tx.phase.Entered? && !s'.gate.tx.wasReady))
  {
  }

  lemma LeaseKeepsInv(s: Sys, a: LeaseAction, s': Sys)
    requires Inv(s) && a != BeginSection && DoLease(s, a) == Some(s')
    ensures Inv(s')
  {
    LeaseControl(s, a, s');
    QueueFrame(s, s');
    if s'.gate == s.gate { TxFrame(s, s'); }
  }

  lemma BeginControl(s: Sys, s': Sys)
    requires CoreOk(s.core) && GenerationsInv(s.core, s.client.issued) && LeaseInv(s.core.state, s.client, s.gate)
    requires s.gate.Beginning? && s' == DoBegin(s)
    ensures CoreOk(s'.core) && Advances(s.core, s'.core) && s'.core.held == s.core.held && s'.core.state == s.core.state
    ensures GenerationsInv(s'.core, s'.client.issued) && LeaseInv(s'.core.state, s'.client, s'.gate)
    ensures s'.client == s.client.(issued := s'.client.issued) && s'.gate.Leaving?
    ensures s'.queues == s.queues && s'.writer == s.writer && s'.wire == s.wire
  {
    var r := BeginLease(s.core, s.gate.ctx in s.queues.expired).1;
    if r.Success? { assert s'.client.issued[|s.client.issued|] == r.value; }
  }

  lemma BeginKeepsInv(s: Sys, s': Sys)
    requires Inv(s) && DoLease(s, BeginSection) == Some(s')
    ensures Inv(s')
  {
    BeginControl(s, s');
    QueueFrame(s, s');
    WriterAdvance(s.core, s'.core, s.writer);
    OrderAdvance(s.core, s'.core, s.writer, s.writer, s.wire.log);
  }

  lemma WheelKeepsInv(s: Sys, a: ScrollAction, s': Sys)
    requires Inv(s) && DoScroll(s, a) == Some(s')
    ensures Inv(s')
  {
    if a == ScrollClose { CloseKeepsInv(s, s.(core := CloseWith(s.core))); }
    var t := s.(core := s'.core);
    QueueFrame(t, s');
    TxFrame(t, s');
  }

  // --- writer: taking and failing requests --------------------------------------

  lemma TakeKeepsQueue(s: Sys, s': Sys)
    requires QueueInv(s) && IdsInv(s.queues, s.writer)
    requires |s.queues.prioQ| > 0 && InHand(s.writer).None? && !s.writer.Stopped? && s' == TakePrio(s)
    ensures QueueInv(s') && IdsInv(s'.queues, s'.writer)
  {
    forall r | PrivilegedOk(s, r) ensures PrivilegedOk(s', r) { }
  }

  lemma TakeSendKeepsQueue(s: Sys, s': Sys)
    requires QueueInv(s) && IdsInv(s.queues, s.writer)
    requires DoDequeue(s, TakeSend) == Some(s')
    ensures QueueInv(s') && IdsInv(s'.queues, s'.writer)
  {
    assert !s.queues.sendQ[0].privileged;
    forall r | PrivilegedOk(s, r) ensures PrivilegedOk(s', r) { }
  }

  lemma DequeueKeepsInv(s: Sys, a: DequeueAction, s': Sys)
    requires Inv(s) && DoDequeue(s, a) == Some(s')
    ensures Inv(s')
  {
    hide GenerationsInv, LeaseInv, HeldInv, TxInv, SilenceInv, PointerInv, BytesInv, QueueInv;
    if a == TakeSend {
      TakeSendKeepsQueue(s, s');
    } else if |s.queues.prioQ| > 0 {
      TakeKeepsQueue(s, s');
    } else {
      QueueFrame(s, s');
    }
    TxFrame(s, s');
    SilenceFrame(s.gate, s.queues.results, s.writer, s'.writer, s.wire, s'.wire);
    PointerFrame(s.core.held, s.writer, s'.writer, s.wire);
    BytesFrame(s.writer, s'.writer, s.wire);
  }

  lemma FailHeadKeepsQueue(s: Sys, s': Sys)
    requires QueueInv(s) && IdsInv(s.queues, s.writer)
    requires s.writer.Stopping? && |s.queues.prioQ| > 0 && DoStopping(s, FailQueued) == Some(s')
    ensures QueueInv(s') && IdsInv(s'.queues, s'.writer)
  {
    var q := s.queues.prioQ;
    forall i | 1 <= i < |q| ensures PrivilegedOk(s', q[i]) { PrivilegedFrame(s, s', q[i]); }
    assert forall i | 0 <= i < |s'.queues.prioQ| :: s'.queues.prioQ[i] == q[i + 1];
  }

  lemma DropSendKeepsQueue(s: Sys, s': Sys)
    requires QueueInv(s) && |s.queues.sendQ| > 0
    requires s' == s.(queues := Complete(s.queues, s.queues.sendQ[0], false).(sendQ := s.queues.sendQ[1..]))
    ensures QueueInv(s') && s'.queues.results == s.queues.results
  {
    assert !s.queues.sendQ[0].privileged;
    forall r | PrivilegedOk(s, r) ensures PrivilegedOk(s', r) { }
  }

  /** A request that ends in an error brings no transaction forward. */
  lemma FailureKeepsSilence(g: Gate, results: map<nat, bool>, id: nat, w: Writer, w': Writer, wire: Wire)
    requires SilenceInv(g, results, w, wire) && id !in results && Idle(w')
    ensures SilenceInv(g, results[id := false], w', wire)
  {
    assert g.Releasing? ==> Progress(g.tx, results[id := false]) == Progress(g.tx, results);
  }

  lemma StoppingKeepsInv(s: Sys, a: StoppingAction, s': Sys)
    requires Inv(s) && DoStopping(s, a) == Some(s')
    ensures Inv(s')
  {
    if a == FailQueued && |s.queues.prioQ| > 0 {
      FailHeadKeepsQueue(s, s');
      FailureKeepsSilence(s.gate, s.queues.results, s.queues.prioQ[0].id, s.writer, s'.writer, s.wire);
    } else if a == FailQueued {
      DropSendKeepsQueue(s, s');
    } else {
      QueueFrame(s, s');
      SilenceFrame(s.gate, s.queues.results, s.writer, s'.writer, s.wire, s'.wire);
    }
    TxFrame(s, s');
    PointerFrame(s.core.held, s.writer, s'.writer, s.wire);
    BytesFrame(s.writer, s'.writer, s.wire);
  }

  lemma CompleteKeepsQueue(s: Sys, s': Sys, r: Request, ok: bool)
    requires QueueInv(s) && IdsInv(s.queues, s.writer)
    requires InHand(s.writer) == Some(r) && s'.writer == Poll
    requires s'.queues == Complete(s.queues, r, ok)
    requires s'.gate == s.gate && s'.client == s.client && s'.core == s.core
    ensures QueueInv(s') && IdsInv(s'.queues, s'.writer)
  {
    var q := s.queues.prioQ;
    forall i | 0 <= i < |q| ensures PrivilegedOk(s', q[i]) { PrivilegedFrame(s, s', q[i]); }
  }

  /** Any refusal by the writer: nothing was offered. */
  lemma RefusalKeepsInv(s: Sys, s': Sys, r: Request)
    requires Inv(s) && InHand(s.writer) == Some(r) && !s.writer.Sending?
    requires s' == s.(writer := Poll, queues := Complete(s.queues, r, false))
    ensures Inv(s')
  {
    CompleteKeepsQueue(s, s', r, false);
    TxFrame(s, s');
    if r.privileged {
      FailureKeepsSilence(s.gate, s.queues.results, r.id, s.writer, s'.writer, s.wire);
    } else {
      SilenceFrame(s.gate, s.queues.results, s.writer, s'.writer, s.wire, s'.wire);
    }
    PointerFrame(s.core.held, s.writer, s'.writer, s.wire);
    BytesFrame(s.writer, s'.writer, s.wire);
  }

  /** Moving on with the same request, short of Sending. */
  lemma MoveOnKeepsInv(s: Sys, s': Sys)
    requires Inv(s) && !s.writer.Sending? && s' == s.(writer := s'.writer)
    requires InHand(s.writer).Some? && InHand(s'.writer) == InHand(s.writer) && Idle(s'.writer)
    requires BytesInv(s'.writer, s.wire)
    ensures Inv(s')
  {
    QueueFrame(s, s');
    TxFrame(s, s');
    SilenceFrame(s.gate, s.queues.results, s.writer, s'.writer, s.wire, s'.wire);
    PointerFrame(s.core.held, s.writer, s'.writer, s.wire);
  }

  lemma ValidateKeepsInv(s: Sys, a: ValidateAction, s': Sys)
    requires Inv(s) && a != LastCheck && DoValidate(s, a) == Some(s')
    ensures Inv(s')
  {
    if s'.writer == Poll {
      RefusalKeepsInv(s, s', s.writer.req);
    } else {
      MoveOnKeepsInv(s, s');
    }
  }

  // --- writer: the last validation ----------------------------------------------

  /** The held model only gains: whatever was recorded stays recorded. */
  predicate Gains(h: HeldInput, h': HeldInput) {
    && (h.keyboard ==> h'.keyboard)
    && (h.absoluteButtons ==> h'.absoluteButtons)
    && (h.relativeButtons ==> h'.relativeButtons)
    && (h'.absoluteButtons ==> h.absoluteButtons || h'.positionKnown)
    && (h.positionKnown ==> h'.positionKnown)
  }

  function After(h: HeldInput, r: Request): HeldInput {
    if r.held.Some? then h.Add(r.held.value) else h
  }

  /** What a holder's request records covers what its report can put down. */
  lemma HolderRecords(h: HeldInput, r: Request)
    requires HolderRequest(r)
    ensures !r.privileged
    ensures Gains(h, After(h, r)) && Recorded(After(h, r), r.report)
    ensures r.report.Pointer? ==> At(After(h, r), r.report.x, r.report.y) && InRange(r.report.x, r.report.y)
    ensures !r.report.Pointer? ==> After(h, r).positionKnown == h.positionKnown
    ensures !r.report.Pointer? ==> After(h, r).absoluteButtons == h.absoluteButtons
    ensures !r.report.Pointer? ==> After(h, r).x == h.x && After(h, r).y == h.y
  {
    if r.report.Keyboard? && !KeydownState(r.report.modifier, r.report.keys).IsReleaseAll() && r.report.modifier == 0 {
      var i :| 0 <= i < |r.report.keys| && r.report.keys[i] != 0;
      assert r.report.keys[i] in r.report.keys;
    }
  }

  lemma GainsKeepHeld(h: HeldInput, h': HeldInput, w: Wire)
    requires HeldInv(h, w) && Gains(h, h')
    requires h'.absoluteButtons ==> h'.positionKnown
    requires h'.positionKnown ==> InRange(h'.x, h'.y)
    ensures HeldInv(h', w)
  {
    forall i | w.delivered <= i < |w.log| ensures Recorded(h', w.log[i].report) {
      assert Recorded(h, w.log[i].report);
    }
  }

  /** An ordinary frame that passes: recorded first, under the live generation. */
  lemma PassOrdinary(s: Sys, s': Sys, r: Request)
    requires Inv(s) && s.writer == Final(r) && !r.privileged
    requires s' == DoLastCheck(s) && s'.writer.Sending?
    ensures s'.core == s.core.(held := After(s.core.held, r))
    ensures s' == s.(core := s'.core, writer := s'.writer) && s'.writer.req == r
    ensures r.token == s.core.activeGen && 0 < r.token
    ensures WriterInv(s'.core, s'.writer) && HeldInv(s'.core.held, s'.wire)
    ensures OrderInv(s'.core, s'.writer, s'.wire.log)
  {
    HolderRecords(s.core.held, r);
    GainsKeepHeld(s.core.held, s'.core.held, s.wire);
    forall i | 0 <= i < |s.wire.log|
      ensures EntryOk(s'.core, s.wire.log[i]) && (s.wire.log[i].privileged ==> s.wire.log[i].epoch < r.token)
    {
      assert EntryOk(s.core, s.wire.log[i]);
    }
  }

  lemma PassOrdinaryKeepsInv(s: Sys, s': Sys, r: Request)
    requires Inv(s) && s.writer == Final(r) && !r.privileged
    requires s' == DoLastCheck(s) && s'.writer.Sending?
    ensures Inv(s')
  {
    PassOrdinary(s, s', r);
    HolderRecords(s.core.held, r);
    QueueFrame(s, s');
  }

  /** A privileged frame that passes is the one someone awaits. */
  lemma PassPrivileged(s: Sys, s': Sys, r: Request)
    requires Inv(s) && s.writer == Final(r) && r.privileged
    requires s' == DoLastCheck(s) && s'.writer.Sending?
    ensures s' == s.(writer := Sending(r, None))
    ensures s.gate.Releasing? && s.gate.tx.wasReady ==> TxAwaits(s.gate, r.id)
    ensures WriterInv(s'.core, s'.writer) && OrderInv(s'.core, s'.writer, s'.wire.log)
  {
    assert PrivilegedOk(s, r);
    assert !(s.gate.Releasing? && s.gate.tx.wasReady && s.client.hs.HsAwaiting?);
  }

  lemma PassPointer(s: Sys, r: Request)
    requires Inv(s) && s.writer == Final(r) && r.privileged && r.ctx !in s.queues.expired
    requires r.report.Pointer?
    ensures At(s.core.held, r.report.x, r.report.y)
  {
    assert PrivilegedOk(s, r) && Accounted(s, r);
    assert !HsAwaits(s.client.hs, r.id);
    assert TxAwaits(s.gate, r.id);
    assert TxOk(s.gate.tx, s);
  }

  lemma PassPrivilegedKeepsInv(s: Sys, s': Sys, r: Request)
    requires Inv(s) && s.writer == Final(r) && r.privileged
    requires s' == DoLastCheck(s) && s'.writer.Sending?
    ensures Inv(s')
  {
    PassPrivileged(s, s', r);
    QueueFrame(s, s');
    TxFrame(s, s');
    if r.report.Pointer? { PassPointer(s, r); }
  }

  lemma LastCheckRefuses(s: Sys, s': Sys, r: Request)
    requires CoreOk(s.core) && QueueInv(s)
    requires s.writer == Final(r) && s' == DoLastCheck(s) && !s'.writer.Sending?
    ensures s' == s.(writer := Poll, queues := Complete(s.queues, r, false))
  {
    if r.privileged { assert PrivilegedOk(s, r); } else { HolderRecords(s.core.held, r); }
  }

  lemma LastCheckKeepsInv(s: Sys, s': Sys)
    requires Inv(s) && s.writer.Final? && s' == DoLastCheck(s)
    ensures Inv(s')
  {
    var r := s.writer.req;
    if !s'.writer.Sending? {
      LastCheckRefuses(s, s', r);
      RefusalKeepsInv(s, s', r);
    } else if r.privileged {
      PassPrivilegedKeepsInv(s, s', r);
    } else {
      PassOrdinaryKeepsInv(s, s', r);
    }
  }

  // --- writer: Send --------------------------------------------------------------

  function Sent(r: Request): Entry { Entry(r.report, r.privileged, r.token, r.epoch) }

  lemma AppendKeepsHeld(h: HeldInput, w: Wire, w': Wire, e: Entry)
    requires HeldInv(h, w) && Recorded(h, e.report)
    requires w'.log == w.log + [e] && w'.delivered == w.delivered && w'.acked == w.acked
    ensures HeldInv(h, w')
  {
    ReplayAppend(w.log, e, w.delivered);
    forall i | w.delivered <= i < |w'.log| ensures Recorded(h, w'.log[i].report) {
      if i < |w.log| { assert Recorded(h, w.log[i].report); }
    }
  }

  lemma AppendKeepsOrder(c: Core, w: Writer, w': Writer, log: seq<Entry>)
    requires OrderInv(c, w, log) && w.Sending? && !w'.Sending?
    requires EntryOk(c, Sent(w.req))
    ensures OrderInv(c, w', log + [Sent(w.req)])
  {
  }

  lemma AppendKeepsBytes(w: Writer, w': Writer, wire: Wire, wire': Wire)
    requires BytesInv(w, wire) && w.Sending? && !w'.Sending? && !w'.Final?
    requires wire'.log == wire.log + [Sent(w.req)] && wire'.delivered == wire.delivered && wire'.acked == wire.acked
    ensures BytesInv(w', wire')
    ensures BufferedAmount(wire') <= Limit(w.req)
  {
    BytesAppend(wire.log, Sent(w.req), wire.acked);
  }

  lemma AppendFull(w: Wire, w': Wire, e: Entry)
    requires w'.log == w.log + [e]
    ensures Full(w') == Apply(Full(w), e.report)
  {
    ReplayAppend(w.log, e, |w.log|);
  }

  /** A harmless report silences nothing less than before. */
  lemma HarmlessKeepsSilence(w: Wire, w': Wire, e: Entry, n: nat)
    requires w'.log == w.log + [e] && Harmless(e.report) && Silenced(w, n)
    ensures Silenced(w', n)
  {
    AppendFull(w, w', e);
  }

  /** Plan frame n (keyboard, relative, absolute) silences its own interface too. */
  lemma PlanFrameSilences(held: HeldInput, plan: Plan, n: nat, w: Wire, w': Wire, e: Entry)
    requires BuildPlan(held) == Success(plan) && n < |plan.frames|
    requires e.report == plan.frames[n] && w'.log == w.log + [e] && Silenced(w, n)
    ensures Silenced(w', n + 1)
  {
    AppendFull(w, w', e);
    assert |plan.frames| <= 3;
  }

  lemma OfferKeepsPointer(h: HeldInput, w: Writer, w': Writer, wire: Wire, wire': Wire)
    requires PointerInv(h, w, wire) && w.Sending? && !w'.Sending?
    requires wire'.log == wire.log + [Sent(w.req)] && (wire'.failed || wire'.failed == wire.failed)
    ensures PointerInv(h, w', wire')
  {
    AppendFull(wire, wire', Sent(w.req));
    if !wire'.failed {
      ReplayAppendAll(wire.log, Sent(w.req));
      forall j | 0 <= j < |wire'.log| ensures NoJump(wire'.log, j) {
        if j < |wire.log| { assert NoJump(wire.log, j); }
      }
    }
  }

  /** The one Send that moves a transaction forward is its own awaited frame. */
  lemma OfferKeepsSilence(s: Sys, results: map<nat, bool>, w': Writer, wire': Wire)
    requires QueueInv(s) && TxInv(s) && SilenceInv(s.gate, s.queues.results, s.writer, s.wire)
    requires s.writer.Sending? && wire'.log == s.wire.log + [Sent(s.writer.req)]
    requires w'.Poll? || (w'.Level? && !s.writer.req.privileged)
    requires if s.writer.req.privileged
             then results == s.queues.results[s.writer.req.id := true]
                  || results == s.queues.results[s.writer.req.id := false]
             else results == s.queues.results
    ensures SilenceInv(s.gate, results, w', wire')
  {
    var r := s.writer.req;
    if s.gate.Releasing? && s.gate.tx.wasReady {
      var tx := s.gate.tx;
      assert TxOk(tx, s);
      var n := Progress(tx, s.queues.results);
      if r.privileged {
        assert PrivilegedOk(s, r);
        HarmlessKeepsSilence(s.wire, wire', Sent(r), n);
        if Progress(tx, results) != n {
          assert TxAwaits(s.gate, r.id);
          PlanFrameSilences(tx.snapshot, tx.plan, n, s.wire, wire', Sent(r));
        }
      }
    }
  }

  /** While a frame is on its way, no transaction has its confirmation. */
  lemma SendingUnconfirmed(s: Sys)
    requires TxInv(s) && SilenceInv(s.gate, s.queues.results, s.writer, s.wire) && s.writer.Sending?
    ensures s.gate.Releasing? && s.gate.tx.wasReady ==> !s.gate.tx.phase.Confirmed? && !DoneOk(s.gate.tx)
    ensures s.gate.Releasing? && s.gate.tx.wasReady ==> !s.gate.tx.phase.DrainBlocked?
  {
  }

  lemma GrowKeepsTx(s: Sys, s': Sys)
    requires TxInv(s) && SilenceInv(s.gate, s.queues.results, s.writer, s.wire) && s.writer.Sending?
    requires s'.core == s.core && s'.client == s.client && s'.gate == s.gate && QueuesGrow(s.queues, s'.queues)
    ensures TxInv(s')
  {
    SendingUnconfirmed(s);
  }

  lemma AcceptBarrierKeepsInv(s: Sys, s': Sys)
    requires Inv(s) && DoOffer(s, Accepted) == Some(s') && s.writer.done.Some?
    ensures Inv(s')
  {
    var w := s.writer;
    AppendKeepsHeld(s.core.held, s.wire, s'.wire, Sent(w.req));
    AppendKeepsOrder(s.core, w, s'.writer, s.wire.log);
    AppendKeepsBytes(w, s'.writer, s.wire, s'.wire);
    OfferKeepsPointer(s.core.held, w, s'.writer, s.wire, s'.wire);
    OfferKeepsSilence(s, s'.queues.results, s'.writer, s'.wire);
    GrowKeepsTx(s, s');
    QueueFrame(s, s');
  }

  lemma DeliverKeepsInv(s: Sys, s': Sys, ok: bool)
    requires Inv(s) && s.writer.Sending?
    requires s'.core == s.core && s'.client == s.client && s'.gate == s.gate && s'.writer == Poll
    requires s'.queues == Complete(s.queues, s.writer.req, ok)
    requires s'.wire == Append(s.wire, s.writer.req).(failed := s'.wire.failed)
    requires s'.wire.failed || s'.wire.failed == s.wire.failed
    ensures Inv(s')
  {
    var w := s.writer;
    CompleteKeepsQueue(s, s', w.req, ok);
    assert EntryOk(s.core, Sent(w.req)) by { if w.req.privileged { assert PrivilegedOk(s, w.req); } }
    AppendKeepsHeld(s.core.held, s.wire, s'.wire, Sent(w.req));
    AppendKeepsOrder(s.core, w, s'.writer, s.wire.log);
    AppendKeepsBytes(w, s'.writer, s.wire, s'.wire);
    OfferKeepsPointer(s.core.held, w, s'.writer, s.wire, s'.wire);
    OfferKeepsSilence(s, s'.queues.results, s'.writer, s'.wire);
    GrowKeepsTx(s, s');
  }

  lemma LoseKeepsInv(s: Sys, s': Sys)
    requires Inv(s) && DoOffer(s, FailedLost) == Some(s')
    ensures Inv(s')
  {
    var r := s.writer.req;
    CompleteKeepsQueue(s, s', r, false);
    GrowKeepsTx(s, s');
    BytesFrame(s.writer, s'.writer, s.wire);
    if r.privileged {
      FailureKeepsSilence(s.gate, s.queues.results, r.id, s.writer, s'.writer, s.wire);
    } else {
      SilenceFrame(s.gate, s.queues.results, s.writer, s'.writer, s.wire, s'.wire);
    }
    SilenceFrame(s.gate, s'.queues.results, s'.writer, s'.writer, s.wire, s'.wire);
  }

  lemma OfferKeepsInv(s: Sys, a: SendOutcome, s': Sys)
    requires Inv(s) && DoOffer(s, a) == Some(s')
    ensures Inv(s')
  {
    match a
    case Accepted =>
      if s.writer.done.Some? { AcceptBarrierKeepsInv(s, s'); } else { DeliverKeepsInv(s, s', true); }
    case FailedDelivered => DeliverKeepsInv(s, s', false);
    case FailedLost => LoseKeepsInv(s, s');
  }

  // --- writer: drain barrier ----------------------------------------------------

  /** The drain has a single waiter: a transaction drains only once the writer left its barrier. */
  lemma OneWaiter(s: Sys)
    requires TxInv(s) && SilenceInv(s.gate, s.queues.results, s.writer, s.wire)
    ensures TxBlocked(s.gate) ==> !AtBarrier(s.writer)
  {
    if TxBlocked(s.gate) { assert TxOk(s.gate.tx, s); }
  }

  lemma BarrierKeepsInv(s: Sys, a: BarrierAction, s': Sys)
    requires Inv(s) && DoBarrier(s, a) == Some(s')
    ensures Inv(s')
  {
    hide QueueInv, LeaseInv, GenerationsInv, TxInv;
    var r := s.writer.req;
    OneWaiter(s);
    EmptyBuffer(s.wire);
    if s'.writer == Poll {
      CompleteKeepsQueue(s, s', r, s'.queues == Complete(s.queues, r, true));
    } else {
      QueueFrame(s, s');
    }
    TxFrame(s, s');
    BytesFrame(s.writer, s'.writer, s.wire);
    PointerFrame(s.core.held, s.writer, s'.writer, s.wire);
  }

  // --- release transaction ------------------------------------------------------

  /** Every plan frame can be encoded, and is neutral at the recorded coordinates. */
  lemma PlanFrames(held: HeldInput, plan: Plan, i: nat)
    requires BuildPlan(held) == Success(plan) && i < |plan.frames|
    ensures Encodable(plan.frames[i]) && Harmless(plan.frames[i])
    ensures plan.frames[i].Pointer? ==> At(held, plan.frames[i].x, plan.frames[i].y)
  {
    EncodeReachesDevice(plan.frames[i], POWER_ON);
  }

  lemma EnqueueKeepsInv(s: Sys, s': Sys)
    requires Inv(s) && DoRelease(s, EnqueueNeutral) == Some(s') && s'.queues != s.queues
    ensures Inv(s')
  {
    var tx := s.gate.tx;
    assert TxOk(tx, s);
    var r := NeutralRequest(tx, tx.phase.i, s.queues.nextId);
    PlanFrames(tx.snapshot, tx.plan, tx.phase.i);
    assert PrivilegedOk(s', r);
    PushKeepsQueue(s, s', r);
    assert Progress(s'.gate.tx, s'.queues.results) == Progress(tx, s.queues.results);
  }

  /** A transaction that only moves its own program counter, never gaining progress. */
  lemma PhaseKeepsInv(s: Sys, s': Sys)
    requires Inv(s) && s.gate.Releasing? && s'.gate.Releasing?
    requires s' == s.(gate := s'.gate, wire := s'.wire) && s'.wire == s.wire.(edge := s'.wire.edge)
    requires s'.gate.tx.closing == s.gate.tx.closing && s'.gate.tx.wasReady == s.gate.tx.wasReady
    requires s'.gate.tx.wasReady && !s'.gate.tx.phase.Entered? && !TxAwaiting(s'.gate)
    requires StopsAwaiting(s, s') && TxOk(s'.gate.tx, s')
    requires s'.gate.tx.plan == s.gate.tx.plan
    requires Progress(s'.gate.tx, s.queues.results) <= Progress(s.gate.tx, s.queues.results)
    requires TxAwaiting(s.gate) && Progress(s'.gate.tx, s.queues.results) >= 1 ==>
               s.gate.tx.phase.id in s.queues.results
    requires WakeInv(s'.gate, s.writer, s'.wire)
    ensures Inv(s')
  {
    UnawaitKeepsQueue(s, s'.(wire := s.wire));
    QueueFrame(s'.(wire := s.wire), s');
    if s.writer.Sending? && s.writer.req.privileged { assert PrivilegedOk(s, s.writer.req); }
  }

  lemma ReleaseKeepsInv(s: Sys, a: ReleaseAction, s': Sys)
    requires Inv(s) && DoRelease(s, a) == Some(s')
    ensures Inv(s')
  {
    hide GenerationsInv, LeaseInv, QueueInv, IdsInv, WriterInv, HeldInv, OrderInv, BytesInv, SilenceInv, PointerInv;
    assert TxOk(s.gate.tx, s);
    if s'.queues != s.queues {
      EnqueueKeepsInv(s, s');
    } else {
      PhaseKeepsInv(s, s');
    }
  }

  lemma DrainKeepsInv(s: Sys, a: DrainAction, s': Sys)
    requires Inv(s) && DoDrain(s, a) == Some(s')
    ensures Inv(s')
  {
    hide HandshakeInv, GenerationsInv, LeaseInv, QueueInv, IdsInv, WriterInv, OrderInv, PointerInv;
    assert TxOk(s.gate.tx, s);
    EmptyBuffer(s.wire);
    PhaseKeepsInv(s, s');
  }

  lemma RevokeKeepsInv(s: Sys, s': Sys)
    requires Inv(s) && DoFinish(s, Revoke) == Some(s')
    ensures Inv(s')
  {
    QueueFrame(s, s');
    WriterAdvance(s.core, s'.core, s.writer);
    OrderAdvance(s.core, s'.core, s.writer, s.writer, s.wire.log);
  }

  /** At the clearing step everything offered is acknowledged and neutral. */
  lemma ConfirmKeepsHeld(s: Sys, s': Sys)
    requires Inv(s) && DoFinish(s, ConfirmHeld) == Some(s')
    ensures Idle(s.writer) && !s'.core.held.Any()
    ensures HeldInv(s'.core.held, s'.wire) && s'.wire == s.wire && s.wire.acked == |s.wire.log|
    ensures s'.core == s.core.(held := s'.core.held)
    ensures s'.core.held.positionKnown == s.core.held.positionKnown
    ensures s'.core.held.x == s.core.held.x && s'.core.held.y == s.core.held.y
  {
    assert TxOk(s.gate.tx, s);
  }

  lemma ConfirmKeepsInv(s: Sys, s': Sys)
    requires Inv(s) && DoFinish(s, ConfirmHeld) == Some(s')
    ensures Inv(s')
  {
    ConfirmKeepsHeld(s, s');
    QueueFrame(s, s');
    OrderAdvance(s.core, s'.core, s.writer, s.writer, s.wire.log);
  }

  lemma ShutKeepsInv(s: Sys, s': Sys)
    requires Inv(s) && DoFinish(s, ShutChannel) == Some(s')
    ensures Inv(s')
  {
    var t := s.(core := CloseWith(s.core));
    CloseKeepsInv(s, t);
    QueueFrame(t, s');
  }

  lemma UnlockKeepsInv(s: Sys, s': Sys)
    requires Inv(s) && DoFinish(s, Unlock) == Some(s')
    ensures Inv(s')
  {
    QueueFrame(s, s');
  }

  /** The context a critical section of this step consults, as it stands. */
  function SectionCanceled(s: Sys, a: Action): bool {
    if a.Validate? && s.writer.Final? then s.writer.req.ctx in s.queues.expired
    else if a.Lease? && s.gate.Beginning? then s.gate.ctx in s.queues.expired
    else a.Negotiate? && s.client.hs.HsCommit? && s.client.hs.ctx in s.queues.expired
  }

  lemma SameAdvances(c: Core)
    ensures Advances(c, c)
  {
  }

  /** Whatever happens, generations are only ever burned. */
  lemma StepAdvances(s: Sys, a: Action, s': Sys)
    requires CoreOk(s.core) && Do(s, a) == Some(s')
    ensures Advances(s.core, s'.core)
  {
    hide BufferedAmount, FinalValidate, InvalidateLease, CloseWith, ConfirmRelease, BeginLease;
    hide CoreOk, BuildPlan;
    SameAdvances(s.core);
    var req := if s.writer.Final? then s.writer.req else HandshakeRequest(0, 0);
    var plan := if s.gate.Releasing? then s.gate.tx.plan else NO_PLAN;
    var canceled := SectionCanceled(s, a);
    SectionsAdvance(s.core, req, canceled, plan);
  }

  // --- every step, every run ----------------------------------------------------

  lemma StepKeepsInv(s: Sys, a: Action, s': Sys)
    requires Inv(s) && Do(s, a) == Some(s')
    ensures Inv(s')
  {
    hide Inv, DoWorld, DoPeer, DoHandshake, DoLease, DoScroll, DoDequeue, DoStopping;
    hide DoOffer, DoBarrier, DoRelease, DoDrain, DoFinish;
    match a
    case World(w) => WorldKeepsInv(s, w, s');
    case Peer(p) => PeerKeepsInv(s, p, s');
    case Negotiate(h) => NegotiateKeepsInv(s, h, s');
    case Lease(l) => if l == BeginSection { BeginKeepsInv(s, s'); } else { LeaseKeepsInv(s, l, s'); }
    case Wheel(w) => WheelKeepsInv(s, w, s');
    case Dequeue(d) => DequeueKeepsInv(s, d, s');
    case Stop(t) => StoppingKeepsInv(s, t, s');
    case Validate(v) => if v == LastCheck { LastCheckKeepsInv(s, s'); } else { ValidateKeepsInv(s, v, s'); }
    case OfferFrame(o) => OfferKeepsInv(s, o, s');
    case Barrier(b) => BarrierKeepsInv(s, b, s');
    case Release(r) => ReleaseKeepsInv(s, r, s');
    case Drain(d) => DrainKeepsInv(s, d, s');
    case Finish(f) =>
      match f
      case Revoke => RevokeKeepsInv(s, s');
      case ConfirmHeld => ConfirmKeepsInv(s, s');
      case ShutChannel => ShutKeepsInv(s, s');
      case Unlock => UnlockKeepsInv(s, s');
  }

  /** The invariant holds after every run from the initial state, and after any
      continuation of a run. */
  lemma {:induction false} RunKeepsInv(s: Sys, run: seq<Action>, s': Sys)
    requires Inv(s) && Exec(s, run) == Some(s')
    ensures Inv(s')
    decreases |run|
  {
    hide Inv, Do;
    if |run| > 0 {
      var next := Do(s, run[0]).value;
      StepKeepsInv(s, run[0], next);
      RunKeepsInv(next, run[1..], s');
    }
  }
}
