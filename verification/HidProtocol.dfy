/** The HID control protocol as a transition system (hid.go, owner.go, client.go).

    `Do(s, a)` performs one atomic step, or is None when the step is not enabled:
    one critical section, one channel operation, one call into the transport, one
    context expiry. A Go select becomes a choice among its enabled arms, and the
    actors (lease holders, the watchdog, the handshake, the single writer, one
    lifecycle transaction at a time, concurrent closers, the peer) interleave freely.

    The transport is an ordered log of the frames that entered it. `delivered`
    frames have reached the device, `acked` ones have also been acknowledged, and
    BufferedAmount is the byte sum of the rest. A failed Send may or may not have
    put its frame in the log. */
module HidProtocol {
  import opened Outcomes
  import opened HidProto
  import opened HidCore

  const SEND_QUEUE_DEPTH := 16
  const PRIORITY_QUEUE_DEPTH := 4
  const MAX_BUFFERED := 4096
  const NEUTRAL_RESERVE := 22
  const RELEASE_ATTEMPTS := 2

  /** A frame in the transport, with the token or burned epoch it was sent under. */
  datatype Entry = Entry(report: Report, privileged: bool, token: nat, epoch: nat)

  /** The writer's program counter. */
  datatype Writer =
    | Poll                                  // about to look at priorityCh only
    | Wait                                  // blocked on priorityCh, sendCh and stop
    | Check(req: Request)                   // first context and state check
    | Buffer(req: Request)                  // about to read BufferedAmount
    | Final(req: Request)                   // last validation
    | Sending(req: Request, done: Option<nat>) // validated, Send not yet performed
    | Level(req: Request, gen: nat)         // drain barrier: about to read the level
    | Blocked(req: Request, gen: nat)       // drain barrier: in select
    | LastLook(req: Request, gen: nat)      // drain barrier: woken by invalidation
    | Stopping                              // failing what is still queued
    | Stopped                               // writerDone is closed

  datatype Handshaker =
    | HsIdle | HsQueueing(ctx: nat) | HsAwaiting(ctx: nat, id: nat)
    | HsEcho(ctx: nat) | HsCommit(ctx: nat)
    | HsDone                                // handshake returned nil
    | HsFailed                              // handshake returned an error

  /** Where a release transaction is. */
  datatype Phase =
    | Entered                               // gate taken, nothing revoked yet
    | Queueing(i: nat)                      // next: plan frame i
    | Awaiting(i: nat, id: nat)             // plan frame i queued
    | Pausing                               // between the two attempts
    | Draining                              // about to read the buffered level
    | DrainBlocked                          // in select
    | DrainLastLook                         // woken by writerDone
    | Confirmed                             // level was zero, held not yet cleared
    | Finished(ok: bool)                    // releaseAllLocked has its result
    | Shut(ok: bool)                        // and closeWith has run (closing only)

  /** `wasReady`, `epoch` and `snapshot` are what the revoking critical section saw. */
  datatype Tx = Tx(
    ctx: nat, closing: bool, phase: Phase, wasReady: bool,
    epoch: nat, snapshot: HeldInput, plan: Plan, attempt: nat)

  datatype Gate = GateFree | Beginning(ctx: nat) | Leaving(issued: Option<nat>) | Releasing(tx: Tx)

  /** The one-slot lease and where its Held is in its life. */
  datatype Slot = SlotFree | SlotAcquiring | SlotHeld(token: nat) | SlotReleasing | SlotEnding

  /** Client.Scroll, which holds the slot through an RPC on another channel. */
  datatype Scroll = NoScroll | Calling(token: nat) | Ambiguous(token: nat) | Retired

  /** Handshake progress, lease slot, and the tokens issued so far. `echo` and
      `stop` are the closed handshakeDone and stop channels. */
  datatype Client = Client(echo: bool, stop: bool, hs: Handshaker, slot: Slot, scroll: Scroll, issued: seq<nat>)

  /** What the writer reported for an ordinary request. */
  datatype Outcome = Outcome(req: Request, ok: bool)

  /** Both request queues, the result channels (those of ordinary requests as the sequence
      of what was reported), and the contexts that have ended. */
  datatype Queues = Queues(
    sendQ: seq<Request>, prioQ: seq<Request>, results: map<nat, bool>, finished: seq<Outcome>,
    nextId: nat, expired: set<nat>)

  /** The ordered transport. `callbacks` are scheduled OnBufferedAmountLow calls,
      `edge` is the token in bufferedAmountLow, `failed` records any Send error. */
  datatype Wire = Wire(log: seq<Entry>, delivered: nat, acked: nat, callbacks: nat, edge: bool, failed: bool)

  datatype Sys = Sys(core: Core, client: Client, gate: Gate, queues: Queues, writer: Writer, wire: Wire)

  const NO_PLAN := Plan([], false, false, false)

  const INIT := Sys(
    INITIAL_CORE, Client(false, false, HsIdle, SlotFree, NoScroll, []), GateFree,
    Queues([], [], map[], [], 1, {}), Poll, Wire([], 0, 0, 0, false, false))

  datatype SendOutcome = Accepted | FailedDelivered | FailedLost

  /** The clock, the device's echo, closes, and callers handing over frames. */
  datatype WorldAction = Expire(ctx: nat) | EchoArrives | CloseNow | SignalStop | HolderSend(req: Request)

  /** The ordered transport and Pion's callback. */
  datatype PeerAction = Deliver | Ack(upTo: nat) | Callback

  datatype HandshakeAction = HsStart(ctx: nat) | HsEnqueue | HsResult | HsEchoSeen | HsReady | HsFail

  /** controlLease and Held; CloseGate is Client.Close reaching the gate. */
  datatype LeaseAction =
    | TakeSlot | GiveUpSlot | BeginGate(ctx: nat) | BeginSection | BeginUnlock
    | ReleaseSlot | ReleaseGate(ctx: nat) | ReleaseNoGate | FreeSlot | CloseGate(ctx: nat)

  datatype ScrollAction = ScrollStart | ScrollAmbiguous | ScrollReturns | ScrollClose

  datatype DequeueAction = PollPriority | TakePriority | TakeSend

  datatype StoppingAction = SeeStop | FailQueued | Exit

  datatype ValidateAction = FirstCheck(pass: bool) | ReadAmount | LastCheck

  datatype BarrierAction = ReadLevel | TakeEdge | SeeInvalidated | SeeCanceled | LookAgain

  /** releaseAllLocked between its first critical section and the drain. */
  datatype ReleaseAction = EnqueueNeutral | TakeResult | GiveUp | Retry | CancelPause

  datatype DrainAction = DrainLevel | DrainEdge | DrainWriterGone | DrainCanceled | DrainLookAgain

  /** The critical sections of a transaction, and leaving the gate. */
  datatype FinishAction = Revoke | ConfirmHeld | ShutChannel | Unlock

  datatype Action =
    | World(w: WorldAction) | Peer(p: PeerAction) | Negotiate(h: HandshakeAction)
    | Lease(l: LeaseAction) | Wheel(wh: ScrollAction)
    | Dequeue(d: DequeueAction) | Stop(t: StoppingAction) | Validate(v: ValidateAction)
    | OfferFrame(outcome: SendOutcome) | Barrier(b: BarrierAction)
    | Release(r: ReleaseAction) | Drain(dr: DrainAction) | Finish(f: FinishAction)

  // --- derived state ----------------------------------------------------------

  function Bytes(log: seq<Entry>, from: nat): nat
    requires from <= |log|
    decreases |log| - from
  {
    if from == |log| then 0 else Size(log[from].report) + Bytes(log, from + 1)
  }

  /** The device after the first k frames of the log. */
  function Replay(log: seq<Entry>, k: nat): Device
    requires k <= |log|
  {
    if k == 0 then POWER_ON else Apply(Replay(log, k - 1), log[k - 1].report)
  }

  predicate IndicesOk(w: Wire) { w.acked <= w.delivered <= |w.log| }

  function BufferedAmount(w: Wire): nat
    requires IndicesOk(w)
  {
    Bytes(w.log, w.acked)
  }

  function Limit(req: Request): nat {
    if req.privileged then MAX_BUFFERED else MAX_BUFFERED - NEUTRAL_RESERVE
  }

  /** The reports a holder can ask for; anything unencodable fails before enqueue. */
  predicate HolderRequest(req: Request) {
    && Encodable(req.report)
    && (match req.report
        case Handshake => false
        case Keyboard(modifier, keys) =>
          || req == SendKeyboardReport(req.ctx, req.token, modifier, keys)
          || req == ReleaseKeyboard(req.ctx, req.token)
        case Pointer(x, y, buttons) => req == SendPointerReport(req.ctx, req.token, x, y, buttons)
        case Mouse(dx, dy, buttons) => req == SendMouseReport(req.ctx, req.token, dx, dy, buttons))
  }

  function HandshakeRequest(ctx: nat, id: nat): Request {
    Request(Report.Handshake, ctx, 0, true, None, false, id, 0)
  }

  function NeutralRequest(tx: Tx, i: nat, id: nat): Request
    requires i < |tx.plan.frames|
  {
    Request(tx.plan.frames[i], tx.ctx, 0, true, None, false, id, tx.epoch)
  }

  // --- writer -----------------------------------------------------------------

  /** req.complete: one result per request. */
  function Complete(q: Queues, req: Request, ok: bool): Queues {
    if req.privileged then q.(results := q.results[req.id := ok])
    else q.(finished := q.finished + [Outcome(req, ok)])
  }

  function Append(w: Wire, req: Request): Wire {
    w.(log := w.log + [Entry(req.report, req.privileged, req.token, req.epoch)])
  }

  function TakePrio(s: Sys): Sys
    requires |s.queues.prioQ| > 0
  {
    s.(writer := Check(s.queues.prioQ[0]), queues := s.queues.(prioQ := s.queues.prioQ[1..]))
  }

  function DoDequeue(s: Sys, a: DequeueAction): Option<Sys> {
    var q := s.queues;
    match a
    case PollPriority =>
      if !s.writer.Poll? then None
      else if |q.prioQ| == 0 then Some(s.(writer := Wait))
      else Some(TakePrio(s))
    case TakePriority => if s.writer.Wait? && |q.prioQ| > 0 then Some(TakePrio(s)) else None
    case TakeSend =>
      if s.writer.Wait? && |q.sendQ| > 0
      then Some(s.(writer := Check(q.sendQ[0]), queues := q.(sendQ := q.sendQ[1..]))) else None
  }

  /** Once stop is closed: fail what is queued, then close writerDone. */
  function DoStopping(s: Sys, a: StoppingAction): Option<Sys> {
    var q := s.queues;
    match a
    case SeeStop =>
      if s.writer.Wait? && s.client.stop then Some(s.(writer := Stopping)) else None
    case FailQueued =>
      if !s.writer.Stopping? then None
      else if |q.prioQ| > 0 then Some(s.(queues := Complete(q, q.prioQ[0], false).(prioQ := q.prioQ[1..])))
      else if |q.sendQ| > 0 then Some(s.(queues := Complete(q, q.sendQ[0], false).(sendQ := q.sendQ[1..])))
      else None
    case Exit =>
      if s.writer.Stopping? && |q.prioQ| == 0 && |q.sendQ| == 0 then Some(s.(writer := Stopped)) else None
  }

  function DoLastCheck(s: Sys): Sys
    requires s.writer.Final?
  {
    var req := s.writer.req;
    var (c, outcome) := FinalValidate(s.core, req, req.ctx in s.queues.expired);
    match outcome
    case Failure(_) => s.(core := c, writer := Poll, queues := Complete(s.queues, req, false))
    case Success(done) => s.(core := c, writer := Sending(req, done))
  }

  function DoValidate(s: Sys, a: ValidateAction): Option<Sys>
    requires IndicesOk(s.wire)
  {
    match a
    case FirstCheck(pass) =>
      if !s.writer.Check? then None
      else
        var req := s.writer.req;
        var writable := CheckWritable(s.core, req.privileged, req.token).None?;
        if pass then (if writable then Some(s.(writer := Buffer(req))) else None)
        else if req.ctx in s.queues.expired || !writable
        then Some(s.(writer := Poll, queues := Complete(s.queues, req, false)))
        else None
    case ReadAmount =>
      if !s.writer.Buffer? then None
      else
        var req := s.writer.req;
        if Size(req.report) > Limit(req) || BufferedAmount(s.wire) > Limit(req) - Size(req.report)
        then Some(s.(writer := Poll, queues := Complete(s.queues, req, false)))
        else Some(s.(writer := Final(req)))
    case LastCheck => if s.writer.Final? then Some(DoLastCheck(s)) else None
  }

  /** channel.Send, and for a drain request the entry into its barrier. */
  function DoOffer(s: Sys, outcome: SendOutcome): Option<Sys> {
    if !s.writer.Sending? then None
    else
      var req := s.writer.req;
      match outcome
      case Accepted =>
        if s.writer.done.Some?
        then Some(s.(wire := Append(s.wire, req), writer := Level(req, s.writer.done.value)))
        else Some(s.(wire := Append(s.wire, req), writer := Poll, queues := Complete(s.queues, req, true)))
      case FailedDelivered =>
        Some(s.(wire := Append(s.wire, req).(failed := true), writer := Poll, queues := Complete(s.queues, req, false)))
      case FailedLost =>
        Some(s.(wire := s.wire.(failed := true), writer := Poll, queues := Complete(s.queues, req, false)))
  }

  function DoBarrier(s: Sys, a: BarrierAction): Option<Sys>
    requires IndicesOk(s.wire)
  {
    match a
    case ReadLevel =>
      if !s.writer.Level? then None
      else if BufferedAmount(s.wire) == 0
      then Some(s.(writer := Poll, queues := Complete(s.queues, s.writer.req, true)))
      else Some(s.(writer := Blocked(s.writer.req, s.writer.gen)))
    case TakeEdge =>
      if s.writer.Blocked? && s.wire.edge
      then Some(s.(wire := s.wire.(edge := false), writer := Level(s.writer.req, s.writer.gen))) else None
    case SeeInvalidated =>
      if s.writer.Blocked? && s.writer.gen in s.core.doneClosed
      then Some(s.(writer := LastLook(s.writer.req, s.writer.gen))) else None
    case SeeCanceled =>
      if s.writer.Blocked? && s.writer.req.ctx in s.queues.expired
      then Some(s.(writer := Poll, queues := Complete(s.queues, s.writer.req, false))) else None
    case LookAgain =>
      if s.writer.LastLook?
      then Some(s.(writer := Poll, queues := Complete(s.queues, s.writer.req, BufferedAmount(s.wire) == 0))) else None
  }

  // --- release transaction ----------------------------------------------------

  /** The end of one attempt that did not confirm: retry once, unless canceled. */
  function FailAttempt(s: Sys, tx: Tx): Gate {
    Releasing(tx.(phase :=
      if tx.ctx in s.queues.expired || tx.attempt + 1 >= RELEASE_ATTEMPTS then Finished(false) else Pausing))
  }

  /** The revoking critical section, and the plan built from its snapshot. */
  function DoRevoke(s: Sys, tx: Tx): Sys {
    var c := InvalidateLease(s.core);
    var held := s.core.held;
    var t := tx.(wasReady := s.core.state == Ready, epoch := c.genCounter, snapshot := held, attempt := 0);
    var t' :=
      if !t.wasReady then t.(phase := Finished(!held.Any()))
      else match BuildPlan(held)
        case Failure(_) => t.(phase := Finished(false))
        case Success(plan) => t.(plan := plan, phase := Queueing(0));
    s.(core := c, gate := Releasing(t'))
  }

  function DoRelease(s: Sys, a: ReleaseAction): Option<Sys> {
    if !s.gate.Releasing? then None
    else
      var tx := s.gate.tx;
      var p := tx.phase;
      var canceled := tx.ctx in s.queues.expired;
      match a
      case EnqueueNeutral =>
        if !p.Queueing? then None
        else if p.i >= |tx.plan.frames| then Some(s.(gate := Releasing(tx.(phase := Draining))))
        else if |s.queues.prioQ| >= PRIORITY_QUEUE_DEPTH then None
        else
          var id := s.queues.nextId;
          Some(s.(gate := Releasing(tx.(phase := Awaiting(p.i, id))),
                  queues := s.queues.(prioQ := s.queues.prioQ + [NeutralRequest(tx, p.i, id)], nextId := id + 1)))
      case TakeResult =>
        if !p.Awaiting? || p.id !in s.queues.results then None
        else if s.queues.results[p.id] && !canceled
        then Some(s.(gate := Releasing(tx.(phase := Queueing(p.i + 1)))))
        else Some(s.(gate := FailAttempt(s, tx)))
      case GiveUp =>
        // ctx.Done or writerDone, while queueing or while awaiting the result
        if ((p.Queueing? && p.i < |tx.plan.frames|) || p.Awaiting?) && (canceled || s.writer.Stopped?)
        then Some(s.(gate := FailAttempt(s, tx))) else None
      case Retry =>
        if p.Pausing? then Some(s.(gate := Releasing(tx.(attempt := tx.attempt + 1, phase := Queueing(0))))) else None
      case CancelPause =>
        if p.Pausing? && canceled then Some(s.(gate := Releasing(tx.(phase := Finished(false))))) else None
  }

  function DoDrain(s: Sys, a: DrainAction): Option<Sys>
    requires IndicesOk(s.wire)
  {
    if !s.gate.Releasing? then None
    else
      var tx := s.gate.tx;
      var p := tx.phase;
      var empty := BufferedAmount(s.wire) == 0;
      match a
      case DrainLevel =>
        if p.Draining?
        then Some(s.(gate := Releasing(tx.(phase := if empty then Confirmed else DrainBlocked)))) else None
      case DrainEdge =>
        if p.DrainBlocked? && s.wire.edge
        then Some(s.(gate := Releasing(tx.(phase := Draining)), wire := s.wire.(edge := false))) else None
      case DrainWriterGone =>
        if p.DrainBlocked? && s.writer.Stopped?
        then Some(s.(gate := Releasing(tx.(phase := DrainLastLook)))) else None
      case DrainCanceled =>
        if p.DrainBlocked? && tx.ctx in s.queues.expired then Some(s.(gate := FailAttempt(s, tx))) else None
      case DrainLookAgain =>
        if !p.DrainLastLook? then None
        else Some(s.(gate := if empty then Releasing(tx.(phase := Confirmed)) else FailAttempt(s, tx)))
  }

  function DoFinish(s: Sys, a: FinishAction): Option<Sys> {
    if !s.gate.Releasing? then None
    else
      var tx := s.gate.tx;
      var p := tx.phase;
      match a
      case Revoke => if p.Entered? then Some(DoRevoke(s, tx)) else None
      case ConfirmHeld =>
        if p.Confirmed?
        then Some(s.(core := ConfirmRelease(s.core, tx.plan), gate := Releasing(tx.(phase := Finished(true)))))
        else None
      case ShutChannel =>
        if p.Finished? && tx.closing
        then Some(s.(core := CloseWith(s.core), gate := Releasing(tx.(phase := Shut(p.ok))))) else None
      case Unlock =>
        if p.Finished? && !tx.closing
        then Some(s.(gate := GateFree, client := s.client.(slot := SlotEnding)))
        else if p.Shut? then Some(s.(gate := GateFree))
        else None
  }

  // --- lease slot, lifecycle gate, scroll -------------------------------------

  function EnterGate(ctx: nat, closing: bool): Gate {
    Releasing(Tx(ctx, closing, Entered, false, 0, NOTHING_HELD, NO_PLAN, 0))
  }

  function DoBegin(s: Sys): Sys
    requires s.gate.Beginning?
  {
    var (c, r) := BeginLease(s.core, s.gate.ctx in s.queues.expired);
    match r
    case Failure(_) => s.(core := c, gate := Leaving(None))
    case Success(g) => s.(core := c, gate := Leaving(Some(g)), client := s.client.(issued := s.client.issued + [g]))
  }

  function DoLease(s: Sys, a: LeaseAction): Option<Sys> {
    var slot := s.client.slot;
    match a
    // Connect makes the lease only after the handshake returned nil
    case TakeSlot =>
      if slot.SlotFree? && s.client.hs.HsDone? then Some(s.(client := s.client.(slot := SlotAcquiring))) else None
    case GiveUpSlot =>
      if slot.SlotAcquiring? && !s.gate.Beginning? && !s.gate.Leaving?
      then Some(s.(client := s.client.(slot := SlotFree))) else None
    case BeginGate(ctx) =>
      if slot.SlotAcquiring? && s.gate.GateFree? then Some(s.(gate := Beginning(ctx))) else None
    case BeginSection => if s.gate.Beginning? then Some(DoBegin(s)) else None
    case BeginUnlock =>
      if !s.gate.Leaving? then None
      else if s.gate.issued.Some?
      then Some(s.(gate := GateFree, client := s.client.(slot := SlotHeld(s.gate.issued.value))))
      else Some(s.(gate := GateFree))
    case ReleaseSlot =>
      // Held.Release or the watchdog, whichever runs once.Do first. Scroll's own
      // Release is deferred past its call and, when that is ambiguous, past closing
      // the session; its RPC bound ends before the watchdog, so that is later too.
      if slot.SlotHeld? && !s.client.scroll.Calling? && !s.client.scroll.Ambiguous?
      then Some(s.(client := s.client.(slot := SlotReleasing))) else None
    case ReleaseGate(ctx) =>
      if slot.SlotReleasing? && s.gate.GateFree? then Some(s.(gate := EnterGate(ctx, false))) else None
    case ReleaseNoGate =>
      // the cleanup context ended first: nothing was revoked
      if slot.SlotReleasing? && !(s.gate.Releasing? && !s.gate.tx.closing)
      then Some(s.(client := s.client.(slot := SlotEnding))) else None
    case FreeSlot => if slot.SlotEnding? then Some(s.(client := s.client.(slot := SlotFree))) else None
    case CloseGate(ctx) =>
      if s.gate.GateFree? && s.client.hs.HsDone? then Some(s.(gate := EnterGate(ctx, true))) else None
  }

  function DoScroll(s: Sys, a: ScrollAction): Option<Sys> {
    var scroll := s.client.scroll;
    match a
    case ScrollStart =>
      if scroll.NoScroll? && s.client.slot.SlotHeld?
      then Some(s.(client := s.client.(scroll := Calling(s.client.slot.token)))) else None
    case ScrollReturns => if scroll.Calling? then Some(s.(client := s.client.(scroll := NoScroll))) else None
    case ScrollAmbiguous =>
      if scroll.Calling? then Some(s.(client := s.client.(scroll := Ambiguous(scroll.token)))) else None
    case ScrollClose =>
      if scroll.Ambiguous?
      then Some(s.(client := s.client.(scroll := Retired), core := CloseWith(s.core))) else None
  }

  // --- handshake and environment ----------------------------------------------

  function DoHandshake(s: Sys, a: HandshakeAction): Option<Sys> {
    var hs, q := s.client.hs, s.queues;
    match a
    case HsStart(ctx) =>
      if s.core.state == Negotiating
      then Some(s.(core := StartHandshake(s.core), client := s.client.(hs := HsQueueing(ctx)))) else None
    case HsEnqueue =>
      if hs.HsQueueing? && |q.prioQ| < PRIORITY_QUEUE_DEPTH then
        Some(s.(client := s.client.(hs := HsAwaiting(hs.ctx, q.nextId)),
                queues := q.(prioQ := q.prioQ + [HandshakeRequest(hs.ctx, q.nextId)], nextId := q.nextId + 1)))
      else None
    case HsResult =>
      if hs.HsAwaiting? && hs.id in q.results && q.results[hs.id] && hs.ctx !in q.expired
      then Some(s.(client := s.client.(hs := HsEcho(hs.ctx)))) else None
    case HsEchoSeen =>
      if hs.HsEcho? && s.client.echo && hs.ctx !in q.expired && !s.writer.Stopped?
      then Some(s.(client := s.client.(hs := HsCommit(hs.ctx)))) else None
    case HsReady =>
      if !hs.HsCommit? then None
      else
        var c := CommitHandshake(s.core, hs.ctx in q.expired);
        Some(s.(client := s.client.(hs := if c.state == Ready then HsDone else HsFailed), core := c))
    case HsFail =>
      // every failing exit of handshake; its closeWith is the CloseNow step
      if hs.HsIdle? || hs.HsDone? || hs.HsFailed? then None
      else if hs.ctx in q.expired || s.writer.Stopped? || (hs.HsAwaiting? && hs.id in q.results && !q.results[hs.id])
      then Some(s.(client := s.client.(hs := HsFailed))) else None
  }

  function DoWorld(s: Sys, a: WorldAction): Option<Sys>
    requires IndicesOk(s.wire)
  {
    match a
    case Expire(ctx) => Some(s.(queues := s.queues.(expired := s.queues.expired + {ctx})))
    case EchoArrives => Some(s.(client := s.client.(echo := true)))
    case CloseNow => Some(s.(core := CloseWith(s.core)))
    case SignalStop => if s.core.state == Closed then Some(s.(client := s.client.(stop := true))) else None
    case HolderSend(req) =>
      if HolderRequest(req) && |s.queues.sendQ| < SEND_QUEUE_DEPTH
      then Some(s.(queues := s.queues.(sendQ := s.queues.sendQ + [req]))) else None
  }

  function DoPeer(s: Sys, a: PeerAction): Option<Sys>
    requires IndicesOk(s.wire)
  {
    var w := s.wire;
    match a
    case Deliver => if w.delivered < |w.log| then Some(s.(wire := w.(delivered := w.delivered + 1))) else None
    case Ack(upTo) =>
      // crossing to an empty buffer schedules one OnBufferedAmountLow callback
      if w.acked < upTo <= w.delivered
      then Some(s.(wire := w.(acked := upTo, callbacks := if upTo == |w.log| then w.callbacks + 1 else w.callbacks)))
      else None
    case Callback =>
      if w.callbacks > 0 then Some(s.(wire := w.(callbacks := w.callbacks - 1, edge := true))) else None
  }

  /** One step of the whole system. */
  function Do(s: Sys, a: Action): Option<Sys> {
    if !IndicesOk(s.wire) then None
    else
      match a
      case World(w) => DoWorld(s, w)
      case Peer(p) => DoPeer(s, p)
      case Negotiate(h) => DoHandshake(s, h)
      case Lease(l) => DoLease(s, l)
      case Wheel(w) => DoScroll(s, w)
      case Dequeue(d) => DoDequeue(s, d)
      case Stop(t) => DoStopping(s, t)
      case Validate(v) => DoValidate(s, v)
      case OfferFrame(outcome) => DoOffer(s, outcome)
      case Barrier(b) => DoBarrier(s, b)
      case Release(r) => DoRelease(s, r)
      case Drain(d) => DoDrain(s, d)
      case Finish(f) => DoFinish(s, f)
  }

  /** The state after a run, or None if some step of it was not enabled. */
  function Exec(s: Sys, run: seq<Action>): Option<Sys>
    decreases |run|
  {
    if |run| == 0 then Some(s)
    else match Do(s, run[0])
      case None => None
      case Some(s') => Exec(s', run[1..])
  }
}
