/** JSON-RPC over the rpc data channel (rpc.go): calls are numbered, registered in
    `pending`, sent under sendMu, and matched to the device's responses by number.

    As in HidProtocol, `Do(s, a)` is one atomic step or None. Callers, the read pump,
    close and error callbacks, acknowledgements and context expiries interleave freely. */
module Rpc {
  import opened Outcomes

  const MAX_BUFFERED := 0x1_0000

  datatype Kind = AuthFailed | Unreachable | Timeout | BadFrame

  /** An error as errors.As sees it: `device` is the DeviceError it already holds, if any. */
  datatype TransportError = TransportError(device: Option<Kind>)

  /** newDeviceError keeps the classification an error already has. */
  function NewDeviceError(kind: Kind, e: TransportError): TransportError {
    if e.device.Some? then e else TransportError(Some(kind))
  }

  /** rpcCallResult: the matching response, or the error failPending gave everyone. */
  datatype Reply = Matched(id: int, body: nat) | Broken(kind: Kind)

  /** A reply taken out of `pending` but not yet in its call's channel. */
  datatype Parcel = Parcel(to: int, reply: Reply)

  /** A frame from the device. Only the last kind is a well-formed response. */
  datatype Message = Oversized | NotJson | Event | BadResponse | BadId | Response(id: int, body: nat)

  datatype Stage =
    | Numbered                    // has its id, not yet encoded
    | Registered                  // in pending, wants sendMu
    | Holding                     // has sendMu
    | Measured(buffered: nat)     // has read BufferedAmount
    | Cleared                     // passed the context and buffer checks
    | SendFailed(err: TransportError)
    | Waiting                     // in select
    | Consumed(reply: Reply)
    | Leaving(marked: bool)       // result decided, entry not yet deleted
    | Returned(marked: bool)

  /** A call past its first context check. `invoked`, `sendError` and `taken` record what
      happened to it: SendText was called, how that failed, what it received. */
  datatype Call = Call(
    ctx: nat, size: nat, stage: Stage, invoked: bool, sendError: Option<TransportError>, taken: Option<Reply>)

  /** `slots` holds the one value a call's channel can buffer; `pushes` counts the
      values ever put in it; the wire's frames are its bytes in order. */
  datatype Sys = Sys(
    nextId: nat, calls: map<int, Call>, pending: set<int>, transit: seq<Parcel>,
    slots: map<int, Reply>, pushes: map<int, nat>, sendMu: Option<int>,
    sizes: seq<nat>, acked: nat, expired: set<nat>)

  const INIT := Sys(0, map[], {}, [], map[], map[], None, [], 0, {})

  datatype SendOutcome = Accepted | FailedDelivered(e: TransportError) | FailedLost(e: TransportError)

  datatype CallAction =
    | Register(size: Option<nat>) | LockSend | Measure | Decide | SendText(outcome: SendOutcome)
    | Report | Receive | SeeCanceled | Settle | Depart

  /** `order` is the order in which failPending walks its map. */
  datatype Action =
    | Begin(ctx: nat) | Step(id: int, a: CallAction)
    | Arrives(m: Message, order: seq<int>) | ChannelBreaks(order: seq<int>) | Push(k: nat)
    | Ack(upTo: nat) | Expire(ctx: nat)

  function Sum(sizes: seq<nat>, from: nat): nat
    requires from <= |sizes|
    decreases |sizes| - from
  {
    if from == |sizes| then 0 else sizes[from] + Sum(sizes, from + 1)
  }

  function Buffered(s: Sys): nat
    requires s.acked <= |s.sizes|
  {
    Sum(s.sizes, s.acked)
  }

  function At(s: Sys, id: int, stage: Stage): Sys
    requires id in s.calls
  {
    s.(calls := s.calls[id := s.calls[id].(stage := stage)])
  }

  /** The call's half of send, between the level it read and SendText. */
  function DoDecide(s: Sys, id: int): Sys
    requires id in s.calls && s.calls[id].stage.Measured?
  {
    var c := s.calls[id];
    if c.ctx in s.expired || c.size > MAX_BUFFERED || c.stage.buffered > MAX_BUFFERED - c.size
    then At(s, id, Leaving(false)).(sendMu := None)
    else At(s, id, Cleared)
  }

  function DoSend(s: Sys, id: int, outcome: SendOutcome): Sys
    requires id in s.calls
  {
    var c := s.calls[id].(invoked := true);
    var sent := s.sizes + [c.size];
    match outcome
    case Accepted => s.(calls := s.calls[id := c.(stage := Waiting)], sizes := sent, sendMu := None)
    case FailedDelivered(e) =>
      s.(calls := s.calls[id := c.(stage := SendFailed(NewDeviceError(Unreachable, e)), sendError := Some(e))],
         sizes := sent, sendMu := None)
    case FailedLost(e) =>
      s.(calls := s.calls[id := c.(stage := SendFailed(NewDeviceError(Unreachable, e)), sendError := Some(e))],
         sendMu := None)
  }

  function DoCall(s: Sys, id: int, a: CallAction): Option<Sys>
    requires s.acked <= |s.sizes|
  {
    if id !in s.calls then None
    else
      var c := s.calls[id];
      match a
      case Register(size) =>
        if !c.stage.Numbered? then None
        else if size.None? then Some(At(s, id, Leaving(false)))
        else Some(s.(calls := s.calls[id := c.(stage := Registered, size := size.value)], pending := s.pending + {id}))
      case LockSend =>
        if c.stage.Registered? && s.sendMu.None? then Some(At(s, id, Holding).(sendMu := Some(id))) else None
      case Measure => if c.stage.Holding? then Some(At(s, id, Measured(Buffered(s)))) else None
      case Decide => if c.stage.Measured? then Some(DoDecide(s, id)) else None
      case SendText(outcome) => if c.stage.Cleared? then Some(DoSend(s, id, outcome)) else None
      case Report =>
        if c.stage.SendFailed? then Some(At(s, id, Leaving(c.stage.err.device == Some(Unreachable)))) else None
      case Receive =>
        if c.stage.Waiting? && id in s.slots
        then Some(s.(calls := s.calls[id := c.(stage := Consumed(s.slots[id]), taken := Some(s.slots[id]))],
                     slots := s.slots - {id}))
        else None
      case SeeCanceled => if c.stage.Waiting? && c.ctx in s.expired then Some(At(s, id, Leaving(true))) else None
      case Settle => if c.stage.Consumed? then Some(At(s, id, Leaving(c.stage.reply.Broken?))) else None
      case Depart =>
        if c.stage.Leaving? then Some(At(s, id, Returned(c.stage.marked)).(pending := s.pending - {id})) else None
  }

  predicate Lists(order: seq<int>, ids: set<int>) {
    && (forall i, j | 0 <= i < j < |order| :: order[i] != order[j])
    && (forall id <- order :: id in ids) && (forall id <- ids :: id in order)
  }

  function Parcels(order: seq<int>, reply: Reply): seq<Parcel> {
    seq(|order|, i requires 0 <= i < |order| => Parcel(order[i], reply))
  }

  /** failPending: swap the map, then one reply for each call that was in it. */
  function DoFail(s: Sys, kind: Kind, order: seq<int>): Sys {
    s.(pending := {}, transit := s.transit + Parcels(order, Broken(kind)))
  }

  function DoArrives(s: Sys, m: Message, order: seq<int>): Sys {
    match m
    case Event => s
    case Response(id, body) =>
      if id in s.pending
      then s.(pending := s.pending - {id}, transit := s.transit + [Parcel(id, Matched(id, body))]) else s
    case _ => DoFail(s, BadFrame, order)
  }

  function DoPush(s: Sys, k: nat): Option<Sys> {
    if k >= |s.transit| || s.transit[k].to in s.slots then None
    else
      var p := s.transit[k];
      var n := if p.to in s.pushes then s.pushes[p.to] else 0;
      Some(s.(transit := s.transit[..k] + s.transit[k + 1..], slots := s.slots[p.to := p.reply],
              pushes := s.pushes[p.to := n + 1]))
  }

  function Do(s: Sys, a: Action): Option<Sys> {
    if s.acked > |s.sizes| then None
    else
      match a
      case Begin(ctx) =>
        if ctx in s.expired then None
        else Some(s.(nextId := s.nextId + 1,
                     calls := s.calls[s.nextId + 1 := Call(ctx, 0, Numbered, false, None, None)]))
      case Step(id, a) => DoCall(s, id, a)
      case Arrives(m, order) => if Lists(order, s.pending) then Some(DoArrives(s, m, order)) else None
      case ChannelBreaks(order) => if Lists(order, s.pending) then Some(DoFail(s, Unreachable, order)) else None
      case Push(k) => DoPush(s, k)
      case Ack(upTo) => if s.acked < upTo <= |s.sizes| then Some(s.(acked := upTo)) else None
      case Expire(ctx) => Some(s.(expired := s.expired + {ctx}))
  }

  function Exec(s: Sys, run: seq<Action>): Option<Sys>
    decreases |run|
  {
    if |run| == 0 then Some(s)
    else match Do(s, run[0])
      case None => None
      case Some(s') => Exec(s', run[1..])
  }

  // --- invariant ------------------------------------------------------------------

  /** The send error already carries a classification other than unreachable. */
  predicate Masked(e: Option<TransportError>) {
    e.Some? && e.value.device.Some? && e.value.device.value != Unreachable
  }

  predicate ReceivedResponse(c: Call) { c.taken.Some? && c.taken.value.Matched? }

  predicate Ambiguous(c: Call) { c.invoked && !ReceivedResponse(c) }

  predicate Early(g: Stage) { g.Numbered? || g.Registered? || g.Holding? || g.Measured? || g.Cleared? }

  /** The record of one call agrees with its stage. */
  predicate CallOk(c: Call) {
    match c.stage
    case SendFailed(err) =>
      c.invoked && c.taken.None? && c.sendError.Some? && err == NewDeviceError(Unreachable, c.sendError.value)
    case Waiting => c.invoked && c.taken.None? && c.sendError.None?
    case Consumed(reply) => c.invoked && c.taken == Some(reply) && c.sendError.None?
    case Leaving(marked) => marked <==> Ambiguous(c) && !Masked(c.sendError)
    case Returned(marked) => marked <==> Ambiguous(c) && !Masked(c.sendError)
    case _ => !c.invoked && c.taken.None? && c.sendError.None?
  }

  predicate CallsOk(s: Sys) {
    forall id <- s.calls :: 0 < id <= s.nextId && CallOk(s.calls[id])
  }

  predicate InTransit(transit: seq<Parcel>, id: int) { exists k | 0 <= k < |transit| :: transit[k].to == id }

  predicate RightReply(id: int, r: Reply) { r.Matched? ==> r.id == id }

  /** A call's value is in exactly one place: unclaimed in pending, in transit, or
      pushed once; and it is a reply to that call. */
  predicate PlacesOk(s: Sys) {
    && (forall id <- s.pending ::
          id in s.calls && !s.calls[id].stage.Returned? && id !in s.pushes && !InTransit(s.transit, id))
    && (forall k | 0 <= k < |s.transit| ::
          s.transit[k].to in s.calls && s.transit[k].to !in s.pushes && RightReply(s.transit[k].to, s.transit[k].reply))
    && (forall j, k | 0 <= j < k < |s.transit| :: s.transit[j].to != s.transit[k].to)
    && (forall id <- s.pushes :: id in s.calls && s.pushes[id] == 1)
    && (forall id <- s.slots :: id in s.pushes && RightReply(id, s.slots[id]))
    && (forall id <- s.calls :: s.calls[id].taken.Some? ==> RightReply(id, s.calls[id].taken.value))
  }

  predicate Served(s: Sys, id: int) { id in s.pending || InTransit(s.transit, id) || id in s.slots }

  /** Until it has its value, a registered call's value can still reach it; an
      unregistered one has none. */
  predicate ServedOk(s: Sys) {
    && (forall id <- s.calls :: s.calls[id].stage.Numbered? ==>
          id !in s.pending && !InTransit(s.transit, id) && id !in s.pushes)
    && (forall id <- s.calls ::
          (Early(s.calls[id].stage) && !s.calls[id].stage.Numbered?) || s.calls[id].stage.Waiting? ==>
          Served(s, id))
  }

  predicate SendingStage(g: Stage) { g.Holding? || g.Measured? || g.Cleared? }

  predicate BytesOk(s: Sys) {
    && s.acked <= |s.sizes| && Buffered(s) <= MAX_BUFFERED
    && (forall id <- s.calls :: SendingStage(s.calls[id].stage) ==> s.sendMu == Some(id))
    && (s.sendMu.Some? ==> s.sendMu.value in s.calls && SendingStage(s.calls[s.sendMu.value].stage))
    && (forall id <- s.calls ::
          && (s.calls[id].stage.Measured? ==> Buffered(s) <= s.calls[id].stage.buffered)
          && (s.calls[id].stage.Cleared? ==> Buffered(s) + s.calls[id].size <= MAX_BUFFERED))
  }

  predicate Inv(s: Sys) { CallsOk(s) && PlacesOk(s) && ServedOk(s) && BytesOk(s) }

  lemma {:induction false} SumSnoc(sizes: seq<nat>, n: nat, from: nat)
    requires from <= |sizes|
    ensures Sum(sizes + [n], from) == Sum(sizes, from) + n
    decreases |sizes| - from
  {
    if from == |sizes| { assert (sizes + [n])[from] == n; } else { SumSnoc(sizes, n, from + 1); }
  }

  lemma {:induction false} SumMonotone(sizes: seq<nat>, a: nat, b: nat)
    requires a <= b <= |sizes|
    ensures Sum(sizes, b) <= Sum(sizes, a)
    decreases b - a
  {
    if a < b { SumMonotone(sizes, a + 1, b); }
  }

  lemma TransitGrows(transit: seq<Parcel>, more: seq<Parcel>, id: int)
    ensures InTransit(transit + more, id) <==> InTransit(transit, id) || InTransit(more, id)
  {
    var all := transit + more;
    if k :| 0 <= k < |transit| && transit[k].to == id { assert all[k].to == id; }
    if k :| 0 <= k < |more| && more[k].to == id { assert all[|transit| + k].to == id; }
    if k :| 0 <= k < |all| && all[k].to == id {
      if k >= |transit| { assert more[k - |transit|].to == id; }
    }
  }

  lemma ParcelsGoTo(order: seq<int>, reply: Reply, id: int)
    ensures InTransit(Parcels(order, reply), id) <==> id in order
  {
    if id in order {
      var i :| 0 <= i < |order| && order[i] == id;
      assert Parcels(order, reply)[i].to == id;
    }
  }

  lemma TransitLoses(transit: seq<Parcel>, k: nat, id: int)
    requires k < |transit|
    requires forall i, j | 0 <= i < j < |transit| :: transit[i].to != transit[j].to
    ensures InTransit(transit[..k] + transit[k + 1..], id) <==> InTransit(transit, id) && id != transit[k].to
  {
    TransitGrows(transit[..k], transit[k + 1..], id);
    if i :| 0 <= i < |transit| && transit[i].to == id {
      if i < k { assert transit[..k][i].to == id; }
      if i > k { assert transit[k + 1..][i - k - 1].to == id; }
    }
  }

  lemma FailDistinct(s: Sys, order: seq<int>, more: seq<Parcel>)
    requires PlacesOk(s) && Lists(order, s.pending)
    requires |more| == |order| && forall i | 0 <= i < |order| :: more[i].to == order[i] && more[i].reply.Broken?
    ensures forall j, k | 0 <= j < k < |s.transit + more| :: (s.transit + more)[j].to != (s.transit + more)[k].to
    ensures forall k | 0 <= k < |s.transit + more| ::
              (s.transit + more)[k].to in s.calls && (s.transit + more)[k].to !in s.pushes
              && RightReply((s.transit + more)[k].to, (s.transit + more)[k].reply)
  {
    forall i | 0 <= i < |order| ensures order[i] in s.pending { assert order[i] in order; }
    forall j, k | 0 <= j < |s.transit| && 0 <= k < |order| ensures s.transit[j].to != order[k] {
      assert order[k] in s.pending && !InTransit(s.transit, order[k]);
    }
  }

  lemma FailKeepsInv(s: Sys, kind: Kind, order: seq<int>, s': Sys)
    requires Inv(s) && Lists(order, s.pending) && s' == DoFail(s, kind, order)
    ensures Inv(s')
  {
    hide InTransit, CallOk;
    var more := Parcels(order, Broken(kind));
    forall id ensures InTransit(s'.transit, id) <==> InTransit(s.transit, id) || id in s.pending {
      TransitGrows(s.transit, more, id);
      ParcelsGoTo(order, Broken(kind), id);
    }
    FailDistinct(s, order, more);
  }

  lemma OneParcel(p: Parcel, id: int)
    ensures InTransit([p], id) <==> id == p.to
  {
    assert [p][0].to == p.to;
  }

  lemma IsInTransit(transit: seq<Parcel>, k: nat)
    requires k < |transit|
    ensures InTransit(transit, transit[k].to)
  {
  }

  lemma MatchKeepsInv(s: Sys, id: int, body: nat, s': Sys)
    requires Inv(s) && id in s.pending
    requires s' == s.(pending := s.pending - {id}, transit := s.transit + [Parcel(id, Matched(id, body))])
    ensures Inv(s')
  {
    hide InTransit, CallOk;
    var more := [Parcel(id, Matched(id, body))];
    forall i ensures InTransit(s'.transit, i) <==> InTransit(s.transit, i) || i == id {
      TransitGrows(s.transit, more, i);
      OneParcel(more[0], i);
    }
    assert !InTransit(s.transit, id);
    forall j | 0 <= j < |s.transit| ensures s.transit[j].to != id { IsInTransit(s.transit, j); }
  }

  lemma PushKeepsInv(s: Sys, k: nat, s': Sys)
    requires Inv(s) && DoPush(s, k) == Some(s')
    ensures Inv(s')
  {
    hide InTransit, CallOk;
    var p := s.transit[k];
    forall i ensures InTransit(s'.transit, i) <==> InTransit(s.transit, i) && i != p.to {
      TransitLoses(s.transit, k, i);
    }
    IsInTransit(s.transit, k);
    forall i | 0 <= i < |s'.transit|
      ensures s'.transit[i] == s.transit[if i < k then i else i + 1] { }
  }

  lemma BeginKeepsInv(s: Sys, ctx: nat, s': Sys)
    requires Inv(s) && Do(s, Begin(ctx)) == Some(s')
    ensures Inv(s')
  {
    hide Sum;
    assert s.nextId + 1 !in s.calls;
  }

  /** A step of one call: only its own record, entry and slot change. */
  predicate OwnStep(s: Sys, id: int, s': Sys) {
    && id in s.calls && s'.calls.Keys == s.calls.Keys && s'.nextId == s.nextId
    && (forall i <- s.calls :: i != id ==> s'.calls[i] == s.calls[i])
    && s'.transit == s.transit && s'.pushes == s.pushes && s'.expired == s.expired && s'.acked == s.acked
  }

  lemma CallIsOwnStep(s: Sys, id: int, a: CallAction, s': Sys)
    requires s.acked <= |s.sizes| && DoCall(s, id, a) == Some(s')
    ensures OwnStep(s, id, s')
    ensures a.Register? || a.Depart? || s'.pending == s.pending
    ensures a.Receive? || s'.slots == s.slots
    ensures a.SendText? || s'.sizes == s.sizes
  {
  }

  lemma CallKeepsCalls(s: Sys, id: int, a: CallAction, s': Sys)
    requires CallsOk(s) && s.acked <= |s.sizes| && DoCall(s, id, a) == Some(s')
    ensures CallsOk(s')
  {
    hide Buffered;
    CallIsOwnStep(s, id, a, s');
    assert CallOk(s.calls[id]);
    assert CallOk(s'.calls[id]);
  }

  lemma CallKeepsPlaces(s: Sys, id: int, a: CallAction, s': Sys)
    requires PlacesOk(s) && ServedOk(s) && s.acked <= |s.sizes| && DoCall(s, id, a) == Some(s')
    ensures PlacesOk(s')
  {
    hide Buffered, InTransit, NewDeviceError;
    CallIsOwnStep(s, id, a, s');
  }

  lemma CallKeepsServed(s: Sys, id: int, a: CallAction, s': Sys)
    requires PlacesOk(s) && ServedOk(s) && s.acked <= |s.sizes| && DoCall(s, id, a) == Some(s')
    ensures ServedOk(s')
  {
    hide Buffered, InTransit, NewDeviceError;
    CallIsOwnStep(s, id, a, s');
  }

  lemma CallKeepsBytes(s: Sys, id: int, a: CallAction, s': Sys)
    requires BytesOk(s) && DoCall(s, id, a) == Some(s')
    ensures BytesOk(s')
  {
    hide Sum;
    CallIsOwnStep(s, id, a, s');
    SumSnoc(s.sizes, s.calls[id].size, s.acked);
  }

  lemma CallKeepsInv(s: Sys, id: int, a: CallAction, s': Sys)
    requires Inv(s) && DoCall(s, id, a) == Some(s')
    ensures Inv(s')
  {
    hide DoCall, CallsOk, PlacesOk, ServedOk;
    CallKeepsCalls(s, id, a, s');
    CallKeepsPlaces(s, id, a, s');
    CallKeepsServed(s, id, a, s');
    CallKeepsBytes(s, id, a, s');
  }

  lemma SamePlaces(s: Sys, s': Sys)
    requires PlacesOk(s) && ServedOk(s) && s' == s.(acked := s'.acked, expired := s'.expired)
    ensures PlacesOk(s') && ServedOk(s')
  {
  }

  lemma StepKeepsInv(s: Sys, a: Action, s': Sys)
    requires Inv(s) && Do(s, a) == Some(s')
    ensures Inv(s')
  {
    hide CallOk, InTransit, PlacesOk, ServedOk, Sum;
    match a
    case Begin(ctx) => BeginKeepsInv(s, ctx, s');
    case Step(id, b) => CallKeepsInv(s, id, b, s');
    case Arrives(m, order) =>
      if m.Response? {
        if m.id in s.pending { MatchKeepsInv(s, m.id, m.body, s'); }
      } else if !m.Event? {
        FailKeepsInv(s, BadFrame, order, s');
      }
    case ChannelBreaks(order) => FailKeepsInv(s, Unreachable, order, s');
    case Push(k) => PushKeepsInv(s, k, s');
    case Ack(upTo) =>
      SumMonotone(s.sizes, s.acked, upTo);
      SamePlaces(s, s');
    case Expire(_) => SamePlaces(s, s');
  }

  lemma {:induction false} RunKeepsInv(s: Sys, run: seq<Action>, s': Sys)
    requires Inv(s) && Exec(s, run) == Some(s')
    ensures Inv(s')
    decreases |run|
  {
    hide Inv, Do;
    if |run| > 0 {
      var next := Do(s, run[0]).value;
      StepKeepsInv(s, run[0], next);
      RunKeepsInv(next, run[1..], s');
    }
  }

  // --- what every run guarantees -----------------------------------------------------

  predicate Reaches(run: seq<Action>, s: Sys) { Exec(INIT, run) == Some(s) }

  lemma ReachableInv(run: seq<Action>, s: Sys)
    requires Reaches(run, s)
    ensures Inv(s)
  {
    RunKeepsInv(INIT, run, s);
  }

  /** Over any implementation of the channel: a returned call carries the ambiguous-delivery
      marker exactly when SendText was invoked for it and it consumed no matching response,
      unless SendText's own error already held a DeviceError of another kind. */
  lemma MarkerOverAnyChannel(run: seq<Action>, s: Sys, id: int)
    requires Reaches(run, s) && id in s.calls && s.calls[id].stage.Returned?
    ensures s.calls[id].stage.marked <==> Ambiguous(s.calls[id]) && !Masked(s.calls[id].sendError)
  {
    ReachableInv(run, s);
  }

  /** Pion's channel knows nothing of DeviceError: no error of its SendText holds one. */
  predicate Foreign(a: Action) {
    a.Step? && a.a.SendText? && !a.a.outcome.Accepted? ==> a.a.outcome.e.device.None?
  }

  predicate OverPion(run: seq<Action>) { forall i | 0 <= i < |run| :: Foreign(run[i]) }

  predicate ErrorsAreForeign(s: Sys) {
    forall id <- s.calls :: s.calls[id].sendError.Some? ==> s.calls[id].sendError.value.device.None?
  }

  lemma StepStaysForeign(s: Sys, a: Action, s': Sys)
    requires ErrorsAreForeign(s) && Foreign(a) && Do(s, a) == Some(s')
    ensures ErrorsAreForeign(s')
  {
    hide Buffered, Lists;
    if a.Step? { CallIsOwnStep(s, a.id, a.a, s'); }
  }

  lemma {:induction false} RunStaysForeign(s: Sys, run: seq<Action>, s': Sys)
    requires ErrorsAreForeign(s) && OverPion(run) && Exec(s, run) == Some(s')
    ensures ErrorsAreForeign(s')
    decreases |run|
  {
    hide Do, ErrorsAreForeign, Foreign;
    if |run| > 0 {
      StepStaysForeign(s, run[0], Do(s, run[0]).value);
      RunStaysForeign(Do(s, run[0]).value, run[1..], s');
    }
  }

  /** Over the real channel the marker is exact: a returned call carries it if and only if
      SendText was invoked for it and it consumed no matching response. */
  lemma MarkerIsExact(run: seq<Action>, s: Sys, id: int)
    requires Reaches(run, s) && OverPion(run) && id in s.calls && s.calls[id].stage.Returned?
    ensures s.calls[id].stage.marked <==> Ambiguous(s.calls[id])
  {
    MarkerOverAnyChannel(run, s, id);
    RunStaysForeign(INIT, run, s);
  }

  lemma {:induction false} ExecJoin(s: Sys, a: seq<Action>, b: seq<Action>)
    requires Exec(s, a).Some?
    ensures Exec(s, a + b) == Exec(Exec(s, a).value, b)
    decreases |a|
  {
    hide Do;
    if |a| == 0 {
      assert a + b == b;
    } else {
      assert (a + b)[1..] == a[1..] + b;
      ExecJoin(Do(s, a[0]).value, a[1..], b);
    }
  }

  lemma ExecThree(s: Sys, a: Action, b: Action, c: Action)
    requires Do(s, a).Some? && Do(Do(s, a).value, b).Some? && Do(Do(Do(s, a).value, b).value, c).Some?
    ensures Exec(s, [a, b, c]) == Do(Do(Do(s, a).value, b).value, c)
  {
    hide Do;
    var s1 := Do(s, a).value;
    var s2 := Do(s1, b).value;
    assert [a, b, c][1..] == [b, c] && [b, c][1..] == [c] && [c][1..] == [];
    assert Exec(s2, [c]) == Do(s2, c);
    assert Exec(s1, [b, c]) == Exec(s2, [c]);
  }

  /** One call of 10 bytes, alone, at this stage. */
  predicate OnlyCall(s: Sys, c: Call, sizes: seq<nat>) {
    s.calls == map[1 := c] && s.acked == 0 && s.sizes == sizes && s.expired == {} && s.sendMu.None?
  }

  const OPENING := [Begin(0), Step(1, Register(Some(10)))]

  lemma RegisterFirst()
    ensures Exec(INIT, OPENING).Some?
    ensures OnlyCall(Exec(INIT, OPENING).value, Call(0, 10, Registered, false, None, None), [])
  {
    var s1 := Do(INIT, Begin(0)).value;
    assert s1.calls == map[1 := Call(0, 0, Numbered, false, None, None)];
    assert OPENING[1..] == [OPENING[1]] && [OPENING[1]][1..] == [];
    var s2 := Do(s1, OPENING[1]).value;
    assert s2.calls == map[1 := Call(0, 10, Registered, false, None, None)];
    assert Exec(s1, [OPENING[1]]) == Exec(s2, []) == Some(s2);
    assert Exec(INIT, OPENING) == Exec(s1, OPENING[1..]);
  }

  /** sendMu, the level and the checks. */
  const CLEARING := [Step(1, LockSend), Step(1, Measure), Step(1, Decide)]

  lemma ClearFirst(s: Sys)
    requires OnlyCall(s, Call(0, 10, Registered, false, None, None), [])
    ensures Exec(s, CLEARING).Some?
    ensures var t := Exec(s, CLEARING).value;
            OnlyCall(t.(sendMu := None), Call(0, 10, Cleared, false, None, None), [])
  {
    var s1 := Do(s, CLEARING[0]).value;
    var s2 := Do(s1, CLEARING[1]).value;
    ExecThree(s, CLEARING[0], CLEARING[1], CLEARING[2]);
  }

  const MASKED := TransportError(Some(BadFrame))

  /** The frame is delivered, but SendText reports an error already classified. */
  const FAILING := [Step(1, SendText(FailedDelivered(MASKED))), Step(1, Report), Step(1, Depart)]

  lemma FailFirst(s: Sys)
    requires OnlyCall(s.(sendMu := None), Call(0, 10, Cleared, false, None, None), [])
    ensures Exec(s, FAILING).Some?
    ensures OnlyCall(Exec(s, FAILING).value, Call(0, 10, Returned(false), true, Some(MASKED), None), [10])
  {
    var s1 := Do(s, FAILING[0]).value;
    var s2 := Do(s1, FAILING[1]).value;
    ExecThree(s, FAILING[0], FAILING[1], FAILING[2]);
  }

  const MASKED_RUN := OPENING + CLEARING + FAILING

  /** A remark on newDeviceError, not a failure of the client: with some other implementation
      of rpcDataChannel, whose SendText returned this package's own DeviceError, a call
      could reach the device and return unmarked. */
  lemma MarkerCanBeMasked() returns (s: Sys)
    ensures Reaches(MASKED_RUN, s) && 1 in s.calls
    ensures s.calls[1].stage == Returned(false) && Ambiguous(s.calls[1]) && s.sizes == [10]
  {
    hide Do, Exec;
    RegisterFirst();
    var s2 := Exec(INIT, OPENING).value;
    ClearFirst(s2);
    var s5 := Exec(s2, CLEARING).value;
    FailFirst(s5);
    s := Exec(s5, FAILING).value;
    ExecJoin(INIT, OPENING, CLEARING);
    ExecJoin(INIT, OPENING + CLEARING, FAILING);
  }

  /** Whatever the device sends and however often, no channel ever receives a second
      value, so no delivery ever blocks the read pump. */
  lemma DeliveryNeverBlocks(run: seq<Action>, s: Sys, k: nat, id: int)
    requires Reaches(run, s)
    ensures k < |s.transit| ==> Do(s, Push(k)).Some?
    ensures id in s.pushes ==> s.pushes[id] == 1
  {
    ReachableInv(run, s);
  }

  /** Responses never cross: what a call consumed carries its own number. */
  lemma RepliesAreCorrelated(run: seq<Action>, s: Sys, id: int)
    requires Reaches(run, s) && id in s.calls && ReceivedResponse(s.calls[id])
    ensures s.calls[id].taken.value.id == id
  {
    ReachableInv(run, s);
  }

  /** No call is forgotten: while it waits, its value is still to be claimed, on its
      way, or there; and once the pending map was swapped out it is one of the last two. */
  lemma WaitingIsServed(run: seq<Action>, s: Sys, id: int)
    requires Reaches(run, s) && id in s.calls && s.calls[id].stage.Waiting?
    ensures || id in s.pending || (exists k | 0 <= k < |s.transit| :: s.transit[k].to == id)
            || Do(s, Step(id, Receive)).Some?
    ensures forall order | Lists(order, s.pending) ::
              var t := Do(s, ChannelBreaks(order));
              t.Some? && (InTransit(t.value.transit, id) || Do(t.value, Step(id, Receive)).Some?)
  {
    ReachableInv(run, s);
    assert Served(s, id);
    forall order | Lists(order, s.pending)
      ensures InTransit(DoFail(s, Unreachable, order).transit, id) || id in s.slots
    {
      TransitGrows(s.transit, Parcels(order, Broken(Unreachable)), id);
      ParcelsGoTo(order, Broken(Unreachable), id);
    }
  }

  /** The outbound buffer never holds more than 64 KiB, whatever the calls and however
      late the acknowledgements. */
  lemma BufferIsBounded(run: seq<Action>, s: Sys)
    requires Reaches(run, s)
    ensures s.acked <= |s.sizes| && Buffered(s) <= 65536
  {
    ReachableInv(run, s);
  }
}
