/** What every step of the HID control protocol keeps. */
module HidInvariant {
  import opened Outcomes
  import opened HidProto
  import opened HidCore
  import opened HidProtocol

  // --- held model against device ----------------------------------------------

  /** The held model accounts for everything the device has down. */
  predicate Covers(h: HeldInput, d: Device) {
    && (!d.keyboard.IsReleaseAll() ==> h.keyboard)
    && (d.absButtons != 0 ==> h.absoluteButtons)
    && (d.relButtons != 0 ==> h.relativeButtons)
  }

  /** The held model accounts for what this report would put down. */
  predicate Recorded(h: HeldInput, r: Report) {
    match r
    case Handshake => true
    case Keyboard(modifier, keys) => !KeydownState(modifier, keys).IsReleaseAll() ==> h.keyboard
    case Pointer(_, _, buttons) => buttons != 0 ==> h.absoluteButtons
    case Mouse(_, _, buttons) => buttons != 0 ==> h.relativeButtons
  }

  /** Handshake and neutral reports: what privileged frames may be. */
  predicate Harmless(r: Report) {
    match r
    case Handshake => true
    case Keyboard(_, _) => r == RELEASE_ALL_KEYBOARD
    case Pointer(x, y, buttons) => buttons == 0 && InRange(x, y)
    case Mouse(_, _, _) => r == RELEASE_ALL_MOUSE
  }

  // --- who is in flight -------------------------------------------------------

  function InHand(w: Writer): Option<Request> {
    match w
    case Check(req) => Some(req)
    case Buffer(req) => Some(req)
    case Final(req) => Some(req)
    case Sending(req, _) => Some(req)
    case Level(req, _) => Some(req)
    case Blocked(req, _) => Some(req)
    case LastLook(req, _) => Some(req)
    case _ => None
  }

  predicate InHandPrivileged(w: Writer) { InHand(w).Some? && InHand(w).value.privileged }

  predicate AtBarrier(w: Writer) { w.Level? || w.Blocked? || w.LastLook? }

  predicate TxAwaiting(g: Gate) { g.Releasing? && g.tx.phase.Awaiting? }

  predicate TxAwaits(g: Gate, id: nat) { TxAwaiting(g) && g.tx.phase.id == id }

  predicate HsAwaits(hs: Handshaker, id: nat) { hs.HsAwaiting? && hs.id == id }

  /** A privileged request is awaited, or its context has ended, or nobody will write it. */
  predicate Accounted(s: Sys, q: Request) {
    q.ctx in s.queues.expired || s.writer.Stopped? || TxAwaits(s.gate, q.id) || HsAwaits(s.client.hs, q.id)
  }

  predicate PrivilegedOk(s: Sys, q: Request) {
    && q.privileged && q.held.None? && !q.drain
    && Encodable(q.report) && Harmless(q.report)
    && 0 < q.id < s.queues.nextId && q.id !in s.queues.results
    && EpochOk(s.core, q.epoch)
    && Accounted(s, q)
    && (TxAwaits(s.gate, q.id) ==>
          var tx := s.gate.tx;
          tx.phase.i < |tx.plan.frames| && q == NeutralRequest(tx, tx.phase.i, q.id))
    && (HsAwaits(s.client.hs, q.id) ==> q == HandshakeRequest(s.client.hs.ctx, q.id))
  }

  // --- the invariant, by topic ------------------------------------------------

  predicate HandshakeInv(state: HidState, c: Client, writer: Writer, nextId: nat) {
    && (c.hs.HsIdle? ==> state == Negotiating || state == Closed)
    && (!c.hs.HsIdle? && !c.hs.HsDone? ==> state == Handshaking || state == Closed)
    && (c.hs.HsDone? ==> state == Ready || state == Closed)
    && (c.hs.HsCommit? || state == Ready ==> c.echo)
    && 0 < nextId && (c.hs.HsAwaiting? ==> 0 < c.hs.id < nextId)
    && (c.stop ==> state == Closed)
    && (writer.Stopping? || writer.Stopped? ==> c.stop)
  }

  predicate Increasing(issued: seq<nat>) {
    forall i, j | 0 <= i < j < |issued| :: issued[i] < issued[j]
  }

  predicate GenerationsInv(core: Core, issued: seq<nat>) {
    && CoreOk(core)
    && Increasing(issued)
    && (forall i | 0 <= i < |issued| :: 0 < issued[i] <= core.genCounter)
  }

  predicate LastIssued(issued: seq<nat>, token: nat) {
    |issued| > 0 && issued[|issued| - 1] == token
  }

  predicate LeaseInv(state: HidState, c: Client, gate: Gate) {
    && (gate.Beginning? || gate.Leaving? ==> c.slot.SlotAcquiring?)
    && (gate.Leaving? && gate.issued.Some? ==> LastIssued(c.issued, gate.issued.value))
    && (gate.Releasing? && !gate.tx.closing ==> c.slot.SlotReleasing?)
    && (c.slot.SlotHeld? ==> LastIssued(c.issued, c.slot.token))
    && (c.scroll.Calling? || c.scroll.Ambiguous? ==> c.slot == SlotHeld(c.scroll.token))
    && (c.scroll.Retired? ==> state == Closed)
  }

  predicate QueueInv(s: Sys) {
    && (forall i | 0 <= i < |s.queues.sendQ| :: HolderRequest(s.queues.sendQ[i]))
    && (forall i | 0 <= i < |s.queues.prioQ| :: PrivilegedOk(s, s.queues.prioQ[i]))
    && (InHandPrivileged(s.writer) ==> PrivilegedOk(s, InHand(s.writer).value))
    && (InHand(s.writer).Some? && !InHandPrivileged(s.writer) ==> HolderRequest(InHand(s.writer).value))
  }

  /** Privileged requests carry distinct identities, in queue order. */
  predicate IdsInv(q: Queues, w: Writer) {
    && (forall i, j | 0 <= i < j < |q.prioQ| :: q.prioQ[i].id < q.prioQ[j].id)
    && (InHandPrivileged(w) ==> forall i | 0 <= i < |q.prioQ| :: InHand(w).value.id < q.prioQ[i].id)
    && (forall id <- q.results :: id < q.nextId)
  }

  /** A drain barrier waits on the done-channel of its own generation. */
  predicate BarrierOk(c: Core, req: Request, gen: nat) {
    !req.privileged && req.drain && gen == req.token && Watched(c, gen)
  }

  predicate WriterInv(core: Core, w: Writer) {
    && (w.Sending? ==>
          && Recorded(core.held, w.req.report) && (w.done.Some? <==> w.req.drain)
          && (w.done.Some? ==> BarrierOk(core, w.req, w.done.value))
          && (!w.req.privileged ==> 0 < w.req.token <= core.genCounter))
    && (AtBarrier(w) ==> BarrierOk(core, w.req, w.gen))
    && (w.LastLook? ==> w.gen in core.doneClosed)
  }

  predicate HeldInv(h: HeldInput, w: Wire) {
    && IndicesOk(w)
    && (h.absoluteButtons ==> h.positionKnown)
    && (h.positionKnown ==> InRange(h.x, h.y))
    && Covers(h, Replay(w.log, w.delivered))
    && (forall i | w.delivered <= i < |w.log| :: Recorded(h, w.log[i].report))
  }

  predicate EntryOk(c: Core, e: Entry) {
    e.privileged ==> Harmless(e.report) && EpochOk(c, e.epoch)
  }

  predicate OrderInv(core: Core, writer: Writer, log: seq<Entry>) {
    && (forall i | 0 <= i < |log| :: EntryOk(core, log[i]))
    && (writer.Sending? && !writer.req.privileged ==>
          forall i | 0 <= i < |log| :: log[i].privileged ==> log[i].epoch < writer.req.token)
    && (forall i, j | 0 <= i < j < |log| && log[i].privileged && !log[j].privileged ::
          log[i].epoch < log[j].token)
  }

  predicate BytesInv(writer: Writer, w: Wire) {
    && IndicesOk(w)
    && BufferedAmount(w) <= MAX_BUFFERED
    && (writer.Final? || writer.Sending? ==>
          BufferedAmount(w) + Size(writer.req.report) <= Limit(writer.req))
  }

  predicate TxBlocked(g: Gate) { g.Releasing? && g.tx.phase.DrainBlocked? }

  predicate WakeInv(gate: Gate, writer: Writer, w: Wire) {
    w.acked == |w.log| && (writer.Blocked? || TxBlocked(gate)) ==> w.edge || w.callbacks > 0
  }

  /** How many plan frames the current attempt has had accepted. */
  function Progress(tx: Tx, results: map<nat, bool>): nat {
    match tx.phase
    case Queueing(i) => i
    case Awaiting(i, id) => if id in results && results[id] then i + 1 else i
    case Draining => |tx.plan.frames|
    case DrainBlocked => |tx.plan.frames|
    case DrainLastLook => |tx.plan.frames|
    case Confirmed => |tx.plan.frames|
    case Finished(ok) => if ok then |tx.plan.frames| else 0
    case Shut(ok) => if ok then |tx.plan.frames| else 0
    case _ => 0
  }

  predicate DoneOk(tx: Tx) {
    (tx.phase.Finished? || tx.phase.Shut?) && tx.phase.ok
  }

  function Full(w: Wire): Device { Replay(w.log, |w.log|) }

  /** The first n interfaces of the plan (keyboard, relative, absolute) stay neutral. */
  predicate Silenced(w: Wire, n: nat) {
    && (n >= 1 ==> Full(w).keyboard.IsReleaseAll())
    && (n >= 2 ==> Full(w).relButtons == 0)
    && (n >= 3 ==> Full(w).absButtons == 0)
  }

  /** Nothing revoked is still on its way: the writer can only be sending the
      neutral frame the transaction awaits. */
  predicate WriterQuiet(writer: Writer, gate: Gate) {
    !AtBarrier(writer) && (writer.Sending? ==> writer.req.privileged && TxAwaits(gate, writer.req.id))
  }

  predicate ReadyTxOk(tx: Tx, c: Core, hs: Handshaker, q: Queues, w: Wire) {
    && hs.HsDone?
    && tx.attempt < RELEASE_ATTEMPTS
    && (tx.phase.Pausing? ==> tx.attempt + 1 < RELEASE_ATTEMPTS)
    && (if DoneOk(tx) then !c.held.Any() else c.held == tx.snapshot)
    && (!tx.phase.Finished? && !tx.phase.Shut? ==> BuildPlan(tx.snapshot) == Success(tx.plan))
    && (DoneOk(tx) ==> BuildPlan(tx.snapshot) == Success(tx.plan))
    && (tx.phase.Queueing? ==> tx.phase.i <= |tx.plan.frames|)
    && (tx.phase.Awaiting? ==> tx.phase.i < |tx.plan.frames| && 0 < tx.phase.id < q.nextId)
    && (tx.phase.Confirmed? || DoneOk(tx) ==> w.acked == |w.log|)
  }

  predicate TxOk(tx: Tx, s: Sys) {
    && s.core.activeGen == 0
    && EpochOk(s.core, tx.epoch)
    && (!tx.wasReady ==> (tx.phase.Finished? || tx.phase.Shut?) && (DoneOk(tx) ==> !s.core.held.Any()))
    && (tx.wasReady ==> ReadyTxOk(tx, s.core, s.client.hs, s.queues, s.wire))
  }

  predicate TxInv(s: Sys) {
    s.gate.Releasing? ==> if s.gate.tx.phase.Entered? then !s.gate.tx.wasReady else TxOk(s.gate.tx, s)
  }

  predicate SilenceInv(gate: Gate, results: map<nat, bool>, writer: Writer, w: Wire) {
    gate.Releasing? && gate.tx.wasReady && Progress(gate.tx, results) >= 1 ==>
      WriterQuiet(writer, gate) && Silenced(w, Progress(gate.tx, results))
  }

  predicate SendingPointer(w: Writer) { w.Sending? && w.req.report.Pointer? }

  predicate At(h: HeldInput, x: int, y: int) { h.positionKnown && h.x == x && h.y == y }

  predicate NoJump(log: seq<Entry>, j: nat)
    requires j < |log|
  {
    log[j].privileged && log[j].report.Pointer? ==>
      Replay(log, j).x == log[j].report.x && Replay(log, j).y == log[j].report.y
  }

  /** Without Send errors the device ends where the last absolute report put it,
      and no neutral report in the log moves the pointer. */
  predicate PointerInv(h: HeldInput, writer: Writer, w: Wire) {
    && (SendingPointer(writer) ==> At(h, writer.req.report.x, writer.req.report.y))
    && (!w.failed && h.positionKnown && !(SendingPointer(writer) && !writer.req.privileged) ==>
          Full(w).x == h.x && Full(w).y == h.y)
    && (!w.failed ==> forall j | 0 <= j < |w.log| :: NoJump(w.log, j))
  }

  predicate Inv(s: Sys) {
    && HandshakeInv(s.core.state, s.client, s.writer, s.queues.nextId)
    && GenerationsInv(s.core, s.client.issued)
    && LeaseInv(s.core.state, s.client, s.gate)
    && QueueInv(s) && IdsInv(s.queues, s.writer) && WriterInv(s.core, s.writer)
    && HeldInv(s.core.held, s.wire) && OrderInv(s.core, s.writer, s.wire.log)
    && BytesInv(s.writer, s.wire) && WakeInv(s.gate, s.writer, s.wire)
    && TxInv(s) && SilenceInv(s.gate, s.queues.results, s.writer, s.wire)
    && PointerInv(s.core.held, s.writer, s.wire)
  }

  // --- facts about the log ----------------------------------------------------

  lemma {:induction false} ReplayAppend(log: seq<Entry>, e: Entry, k: nat)
    requires k <= |log|
    ensures Replay(log + [e], k) == Replay(log, k)
  {
    if k > 0 { ReplayAppend(log, e, k - 1); }
  }

  lemma ReplayAppendAll(log: seq<Entry>, e: Entry)
    ensures forall k | 0 <= k <= |log| :: Replay(log + [e], k) == Replay(log, k)
    ensures Replay(log + [e], |log| + 1) == Apply(Replay(log, |log|), e.report)
  {
    forall k | 0 <= k <= |log| ensures Replay(log + [e], k) == Replay(log, k) { ReplayAppend(log, e, k); }
  }

  lemma {:induction false} BytesAppend(log: seq<Entry>, e: Entry, from: nat)
    requires from <= |log|
    ensures Bytes(log + [e], from) == Bytes(log, from) + Size(e.report)
    decreases |log| - from
  {
    if from == |log| {
      assert (log + [e])[from] == e;
    } else {
      BytesAppend(log, e, from + 1);
    }
  }

  lemma {:induction false} BytesMonotone(log: seq<Entry>, a: nat, b: nat)
    requires a <= b <= |log|
    ensures Bytes(log, b) <= Bytes(log, a)
    decreases b - a
  {
    if a < b { BytesMonotone(log, a + 1, b); }
  }

  /** BufferedAmount is zero exactly when everything offered is acknowledged. */
  lemma EmptyBuffer(w: Wire)
    requires IndicesOk(w)
    ensures BufferedAmount(w) == 0 <==> w.acked == |w.log|
  {
  }

  lemma {:induction false} CoversReplay(h: HeldInput, log: seq<Entry>, from: nat, to: nat)
    requires from <= to <= |log|
    requires Covers(h, Replay(log, from))
    requires forall i | from <= i < |log| :: Recorded(h, log[i].report)
    ensures Covers(h, Replay(log, to))
    decreases |log| - from
  {
    if from < to {
      assert Recorded(h, log[from].report);
      CoversReplay(h, log, from + 1, to);
    }
  }

  lemma InitInv()
    ensures Inv(INIT)
  {
  }

}
