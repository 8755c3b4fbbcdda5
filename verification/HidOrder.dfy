/** Input keeps its order: every request a holder hands over is answered once, in order, and
    what reaches the transport is a subsequence of it. */
module HidOrder {
  import opened Outcomes
  import opened HidProto
  import opened HidCore
  import opened HidProtocol
  import opened HidInvariant
  import opened HidSteps
  import opened HidTheorems

  /** The requests handed over in a run, in order. */
  function Sends(run: seq<Action>): seq<Request> {
    if |run| == 0 then []
    else (if run[0].World? && run[0].w.HolderSend? then [run[0].w.req] else []) + Sends(run[1..])
  }

  function Answered(finished: seq<Outcome>): seq<Request> {
    seq(|finished|, i requires 0 <= i < |finished| => finished[i].req)
  }

  function Hand(w: Writer): seq<Request> {
    if InHand(w).Some? && !InHandPrivileged(w) then [InHand(w).value] else []
  }

  /** Answered, in the writer's hand, still queued. */
  function Pipeline(s: Sys): seq<Request> { Answered(s.queues.finished) + Hand(s.writer) + s.queues.sendQ }

  function SentBy(a: Action): seq<Request> { if a.World? && a.w.HolderSend? then [a.w.req] else [] }

  lemma AnsweredSnoc(finished: seq<Outcome>, o: Outcome)
    ensures Answered(finished + [o]) == Answered(finished) + [o.req]
  {
  }

  lemma CompleteKeepsPipeline(s: Sys, s': Sys, ok: bool)
    requires InHand(s.writer).Some? && InHand(s'.writer).None?
    requires s'.queues == Complete(s.queues, InHand(s.writer).value, ok)
    ensures Pipeline(s') == Pipeline(s)
  {
    AnsweredSnoc(s.queues.finished, Outcome(InHand(s.writer).value, ok));
  }

  /** The writer moves on with its request, or answers it. */
  lemma WriterMovesOn(s: Sys, a: Action, s': Sys)
    requires QueueInv(s) && Do(s, a) == Some(s') && (a.Validate? || a.OfferFrame? || a.Barrier?)
    ensures InHand(s.writer).Some?
    ensures || (InHand(s'.writer) == InHand(s.writer) && s'.queues == s.queues)
            || (InHand(s'.writer).None? && s'.queues == Complete(s.queues, InHand(s.writer).value, true))
            || (InHand(s'.writer).None? && s'.queues == Complete(s.queues, InHand(s.writer).value, false))
  {
    hide BufferedAmount, CheckWritable, QueueInv, Complete;
  }

  lemma WriterKeepsPipeline(s: Sys, a: Action, s': Sys)
    requires QueueInv(s) && Do(s, a) == Some(s') && (a.Validate? || a.OfferFrame? || a.Barrier?)
    ensures Pipeline(s') == Pipeline(s)
  {
    hide Do, Answered, Complete;
    WriterMovesOn(s, a, s');
    if InHand(s'.writer).None? {
      if s'.queues == Complete(s.queues, InHand(s.writer).value, true) { CompleteKeepsPipeline(s, s', true); }
      else { CompleteKeepsPipeline(s, s', false); }
    }
  }

  lemma HeadIsPrivileged(s: Sys)
    requires QueueInv(s) && |s.queues.prioQ| > 0
    ensures s.queues.prioQ[0].privileged
  {
    assert PrivilegedOk(s, s.queues.prioQ[0]);
  }

  lemma QueueKeepsPipeline(s: Sys, a: Action, s': Sys)
    requires QueueInv(s) && Do(s, a) == Some(s') && (a.Dequeue? || a.Stop?)
    ensures Pipeline(s') == Pipeline(s)
  {
    hide PrivilegedOk;
    var q := s.queues.sendQ;
    if |q| > 0 {
      assert q == [q[0]] + q[1..] && !q[0].privileged;
      AnsweredSnoc(s.queues.finished, Outcome(q[0], false));
    }
    if |s.queues.prioQ| > 0 { assert PrivilegedOk(s, s.queues.prioQ[0]); HeadIsPrivileged(s); }
  }

  lemma OtherKeepsPipeline(s: Sys, a: Action, s': Sys)
    requires Do(s, a) == Some(s')
    requires a.World? || a.Peer? || a.Negotiate? || a.Lease? || a.Wheel? || a.Release? || a.Drain? || a.Finish?
    ensures Pipeline(s') == Pipeline(s) + SentBy(a)
  {
    hide BufferedAmount, BuildPlan;
  }

  lemma StepKeepsPipeline(s: Sys, a: Action, s': Sys)
    requires QueueInv(s) && Do(s, a) == Some(s')
    ensures Pipeline(s') == Pipeline(s) + SentBy(a)
  {
    hide Do, Pipeline, QueueInv;
    if a.Validate? || a.OfferFrame? || a.Barrier? { WriterKeepsPipeline(s, a, s'); }
    else if a.Dequeue? || a.Stop? { QueueKeepsPipeline(s, a, s'); }
    else { OtherKeepsPipeline(s, a, s'); }
  }

  lemma QueuePart(s: Sys)
    requires Inv(s)
    ensures QueueInv(s)
  {
  }

  lemma {:induction false} RunKeepsPipeline(s: Sys, run: seq<Action>, s': Sys)
    requires Inv(s) && Exec(s, run) == Some(s')
    ensures Pipeline(s') == Pipeline(s) + Sends(run)
    decreases |run|
  {
    hide Do, Pipeline, Inv;
    if |run| > 0 {
      var next := Do(s, run[0]).value;
      QueuePart(s);
      StepKeepsInv(s, run[0], next);
      StepKeepsPipeline(s, run[0], next);
      RunKeepsPipeline(next, run[1..], s');
      assert Sends(run) == SentBy(run[0]) + Sends(run[1..]);
    }
  }

  /** Conservation: in every run, what was answered, what the writer holds and what is still
      queued are together exactly what holders handed over, in that order. No request is
      lost, answered twice, or overtaken by a later one. */
  lemma EveryRequestIsAnsweredOnce(run: seq<Action>, s: Sys)
    requires Reaches(run, s)
    ensures Answered(s.queues.finished) + Hand(s.writer) + s.queues.sendQ == Sends(run)
  {
    hide Do;
    InitInv();
    RunKeepsPipeline(INIT, run, s);
    assert Pipeline(INIT) == [];
  }

  // --- the log follows that order --------------------------------------------------------

  /** The ordinary frames of the log. */
  function Ordinary(log: seq<Entry>): seq<Entry> {
    if |log| == 0 then []
    else
      var last := log[|log| - 1];
      Ordinary(log[..|log| - 1]) + (if last.privileged then [] else [last])
  }

  /** a can be got from b by leaving elements out. */
  predicate Within<T(==)>(a: seq<T>, b: seq<T>)
    decreases |b|
  {
    if |a| == 0 then true
    else if |b| == 0 then false
    else
      || (a[|a| - 1] == b[|b| - 1] && Within(a[..|a| - 1], b[..|b| - 1]))
      || Within(a, b[..|b| - 1])
  }

  function Entries(requests: seq<Request>): seq<Entry> {
    seq(|requests|, i requires 0 <= i < |requests| => Sent(requests[i]))
  }

  /** Requests past the point of being offered: answered, or at the drain barrier. */
  function Past(s: Sys): seq<Request> {
    Answered(s.queues.finished) + if AtBarrier(s.writer) then Hand(s.writer) else []
  }

  predicate LogFollows(s: Sys) { Within(Ordinary(s.wire.log), Entries(Past(s))) }

  lemma WithinSnoc<T>(a: seq<T>, b: seq<T>, x: T)
    requires Within(a, b)
    ensures Within(a, b + [x]) && Within(a + [x], b + [x])
  {
    assert (b + [x])[..|b|] == b && (a + [x])[..|a|] == a;
  }

  lemma OrdinarySnoc(log: seq<Entry>, e: Entry)
    ensures Ordinary(log + [e]) == Ordinary(log) + if e.privileged then [] else [e]
  {
    assert (log + [e])[..|log|] == log;
  }

  lemma EntriesSnoc(requests: seq<Request>, r: Request)
    ensures Entries(requests + [r]) == Entries(requests) + [Sent(r)]
  {
  }

  lemma SendingOffers(s: Sys, o: SendOutcome, s': Sys)
    requires DoOffer(s, o) == Some(s')
    ensures s.writer.Sending?
  {
  }

  lemma SentKeepsKind(r: Request)
    ensures Sent(r).privileged == r.privileged
  {
  }

  lemma OfferPast(s: Sys, o: SendOutcome, s': Sys)
    requires DoOffer(s, o) == Some(s') && (s.writer.req.privileged ==> s.writer.done.None?)
    ensures Past(s') == Past(s) + if s.writer.req.privileged then [] else [s.writer.req]
    ensures s'.wire.log == if o == FailedLost then s.wire.log else s.wire.log + [Sent(s.writer.req)]
  {
    AnsweredSnoc(s.queues.finished, Outcome(s.writer.req, true));
    AnsweredSnoc(s.queues.finished, Outcome(s.writer.req, false));
  }

  lemma OfferKeepsFollowing(s: Sys, o: SendOutcome, s': Sys)
    requires LogFollows(s) && DoOffer(s, o) == Some(s')
    requires s.writer.req.privileged ==> s.writer.done.None?
    ensures LogFollows(s')
  {
    hide DoOffer, Past, Within, Sent, Ordinary, Entries;
    SendingOffers(s, o, s');
    var r := s.writer.req;
    OfferPast(s, o, s');
    OrdinarySnoc(s.wire.log, Sent(r));
    SentKeepsKind(r);
    if !r.privileged {
      EntriesSnoc(Past(s), r);
      WithinSnoc(Ordinary(s.wire.log), Entries(Past(s)), Sent(r));
    } else {
      assert Past(s) + [] == Past(s) && Ordinary(s.wire.log) + [] == Ordinary(s.wire.log);
    }
  }

  /** At most one more request is past. */
  predicate PastGrows(s: Sys, s': Sys) {
    && s'.wire.log == s.wire.log
    && (Past(s') == Past(s) || (|Past(s')| == |Past(s)| + 1 && Past(s') == Past(s) + [Past(s')[|Past(s)|]]))
  }

  lemma WriterPast(s: Sys, a: Action, s': Sys)
    requires Do(s, a) == Some(s') && (a.Validate? || a.Barrier?)
    ensures PastGrows(s, s')
  {
    hide BufferedAmount, FinalValidate, CheckWritable;
    AnsweredSnoc(s.queues.finished, Outcome(s.writer.req, true));
    AnsweredSnoc(s.queues.finished, Outcome(s.writer.req, false));
  }

  lemma QueuePast(s: Sys, a: Action, s': Sys)
    requires Do(s, a) == Some(s') && (a.Dequeue? || a.Stop?)
    ensures PastGrows(s, s')
  {
    if |s.queues.sendQ| > 0 { AnsweredSnoc(s.queues.finished, Outcome(s.queues.sendQ[0], false)); }
    if |s.queues.prioQ| > 0 { AnsweredSnoc(s.queues.finished, Outcome(s.queues.prioQ[0], false)); }
  }

  lemma OtherPast(s: Sys, a: Action, s': Sys)
    requires Do(s, a) == Some(s')
    requires a.World? || a.Peer? || a.Negotiate? || a.Lease? || a.Wheel? || a.Release? || a.Drain? || a.Finish?
    ensures PastGrows(s, s')
  {
    hide BufferedAmount, BuildPlan, Answered;
  }

  lemma OtherKeepsFollowing(s: Sys, a: Action, s': Sys)
    requires LogFollows(s) && Do(s, a) == Some(s') && !a.OfferFrame?
    ensures LogFollows(s')
  {
    hide Within, Do, Sent, Past, Entries, Ordinary;
    if a.Validate? || a.Barrier? { WriterPast(s, a, s'); }
    else if a.Dequeue? || a.Stop? { QueuePast(s, a, s'); }
    else { OtherPast(s, a, s'); }
    if Past(s') != Past(s) {
      var r := Past(s')[|Past(s)|];
      EntriesSnoc(Past(s), r);
      WithinSnoc(Ordinary(s.wire.log), Entries(Past(s)), Sent(r));
    }
  }

  lemma NoPrivilegedBarrier(s: Sys)
    requires Inv(s)
    ensures s.writer.Sending? && s.writer.req.privileged ==> s.writer.done.None?
  {
  }

  lemma StepKeepsFollowing(s: Sys, a: Action, s': Sys)
    requires Inv(s) && LogFollows(s) && Do(s, a) == Some(s')
    ensures LogFollows(s')
  {
    hide Inv, LogFollows, DoOffer;
    if a.OfferFrame? {
      SendingOffers(s, a.outcome, s');
      NoPrivilegedBarrier(s);
      OfferKeepsFollowing(s, a.outcome, s');
    } else {
      OtherKeepsFollowing(s, a, s');
    }
  }

  lemma {:induction false} RunKeepsFollowing(s: Sys, run: seq<Action>, s': Sys)
    requires Inv(s) && LogFollows(s) && Exec(s, run) == Some(s')
    ensures LogFollows(s')
    decreases |run|
  {
    hide Do, Inv, LogFollows;
    if |run| > 0 {
      var next := Do(s, run[0]).value;
      StepKeepsInv(s, run[0], next);
      StepKeepsFollowing(s, run[0], next);
      RunKeepsFollowing(next, run[1..], s');
    }
  }

  lemma {:induction false} WithinLonger<T>(a: seq<T>, b: seq<T>, c: seq<T>)
    requires Within(a, b)
    ensures Within(a, b + c)
  {
    if |c| == 0 {
      assert b + c == b;
    } else {
      WithinLonger(a, b, c[..|c| - 1]);
      WithinSnoc(a, b + c[..|c| - 1], c[|c| - 1]);
      assert b + c == b + c[..|c| - 1] + [c[|c| - 1]];
    }
  }

  lemma PastIsFirst(s: Sys, all: seq<Request>) returns (rest: seq<Request>)
    requires all == Answered(s.queues.finished) + Hand(s.writer) + s.queues.sendQ
    ensures all == Past(s) + rest
  {
    hide Answered;
    rest := (if AtBarrier(s.writer) then [] else Hand(s.writer)) + s.queues.sendQ;
  }

  lemma EntriesJoin(a: seq<Request>, b: seq<Request>)
    ensures Entries(a + b) == Entries(a) + Entries(b)
  {
  }

  lemma InitFollows()
    ensures LogFollows(INIT)
  {
  }

  /** The ordinary frames that entered the transport are, in order, some of the requests
      holders handed over: nothing is invented, repeated or reordered. */
  lemma LogKeepsInputOrder(run: seq<Action>, s: Sys)
    requires Reaches(run, s)
    ensures Within(Ordinary(s.wire.log), Entries(Sends(run)))
  {
    hide Do, Within, Sent, Ordinary, Entries, Past, Answered, Hand, Sends;
    InitInv();
    InitFollows();
    RunKeepsFollowing(INIT, run, s);
    EveryRequestIsAnsweredOnce(run, s);
    var rest := PastIsFirst(s, Sends(run));
    EntriesJoin(Past(s), rest);
    WithinLonger(Ordinary(s.wire.log), Entries(Past(s)), Entries(rest));
  }

  // --- the priority queue ------------------------------------------------------------------

  /** A writer about to look for work takes a waiting neutral frame before any input. */
  lemma PriorityFirst(s: Sys, a: DequeueAction, s': Sys)
    requires s.writer.Poll? && |s.queues.prioQ| > 0 && Do(s, Dequeue(a)) == Some(s')
    ensures s'.writer == Check(s.queues.prioQ[0]) && s'.queues.sendQ == s.queues.sendQ
  {
  }

  /** How often input was taken in a run. */
  function InputTaken(run: seq<Action>): nat {
    if |run| == 0 then 0 else (if run[0] == Dequeue(TakeSend) then 1 else 0) + InputTaken(run[1..])
  }

  /** The identity at the head of priorityCh is beyond: taken, and never there again. */
  predicate Taken(q: Queues, id: nat) { id < q.nextId && forall i | 0 <= i < |q.prioQ| :: id < q.prioQ[i].id }

  predicate Heads(q: Queues, id: nat) { |q.prioQ| > 0 && q.prioQ[0].id == id }

  /** Of a step: the head stays or is taken for good; input is taken only by a blocked
      writer, which a waiting head keeps from blocking again. */
  predicate Overtakes(s: Sys, a: Action, s': Sys, id: nat) {
    && (Heads(s'.queues, id) || Taken(s'.queues, id))
    && (Taken(s.queues, id) ==> Taken(s'.queues, id))
    && (Heads(s.queues, id) && Heads(s'.queues, id) ==>
          if a == Dequeue(TakeSend) then s.writer.Wait? && !s'.writer.Wait? else s'.writer.Wait? ==> s.writer.Wait?)
  }

  lemma QueueOvertakes(s: Sys, a: Action, s': Sys, id: nat)
    requires IdsInv(s.queues, s.writer) && Do(s, a) == Some(s') && (a.Dequeue? || a.Stop?)
    requires |s.queues.prioQ| > 0 ==> s.queues.prioQ[0].id < s.queues.nextId
    requires Heads(s.queues, id) || Taken(s.queues, id)
    ensures Overtakes(s, a, s', id)
  {
  }

  lemma WriterOvertakes(s: Sys, a: Action, s': Sys, id: nat)
    requires Do(s, a) == Some(s') && (a.Validate? || a.OfferFrame? || a.Barrier?)
    requires Heads(s.queues, id) || Taken(s.queues, id)
    ensures Overtakes(s, a, s', id)
  {
    hide BufferedAmount, FinalValidate, CheckWritable;
  }

  lemma OtherOvertakes(s: Sys, a: Action, s': Sys, id: nat)
    requires Do(s, a) == Some(s') && (Heads(s.queues, id) || Taken(s.queues, id))
    requires a.World? || a.Peer? || a.Negotiate? || a.Lease? || a.Wheel? || a.Release? || a.Drain? || a.Finish?
    ensures Overtakes(s, a, s', id)
  {
    hide BufferedAmount, BuildPlan;
  }

  lemma StepOvertakes(s: Sys, a: Action, s': Sys, id: nat)
    requires IdsInv(s.queues, s.writer) && QueueInv(s) && Do(s, a) == Some(s')
    requires Heads(s.queues, id) || Taken(s.queues, id)
    ensures Overtakes(s, a, s', id)
  {
    hide Do, Overtakes, IdsInv;
    if a.Dequeue? || a.Stop? {
      if |s.queues.prioQ| > 0 { assert PrivilegedOk(s, s.queues.prioQ[0]); }
      QueueOvertakes(s, a, s', id);
    } else if a.Validate? || a.OfferFrame? || a.Barrier? {
      WriterOvertakes(s, a, s', id);
    } else {
      OtherOvertakes(s, a, s', id);
    }
  }

  lemma IdsPart(s: Sys)
    requires Inv(s)
    ensures IdsInv(s.queues, s.writer)
  {
  }

  lemma {:induction false} RunOvertakes(s: Sys, run: seq<Action>, s': Sys, id: nat)
    requires Inv(s) && Exec(s, run) == Some(s')
    requires Heads(s.queues, id) || Taken(s.queues, id)
    ensures Heads(s'.queues, id) || Taken(s'.queues, id)
    ensures Taken(s.queues, id) ==> Taken(s'.queues, id)
    ensures Heads(s'.queues, id) ==> InputTaken(run) <= if s.writer.Wait? then 1 else 0
    decreases |run|
  {
    hide Do, Inv;
    if |run| > 0 {
      var next := Do(s, run[0]).value;
      QueuePart(s);
      IdsPart(s);
      StepKeepsInv(s, run[0], next);
      StepOvertakes(s, run[0], next, id);
      RunOvertakes(next, run[1..], s', id);
    }
  }

  /** A neutral frame at the head of priorityCh is overtaken by at most one input frame, and
      by that one only if the writer was already blocked waiting for either. */
  lemma AtMostOneOvertakes(run: seq<Action>, s: Sys, more: seq<Action>, s': Sys)
    requires Reaches(run, s) && Exec(s, more) == Some(s')
    requires |s.queues.prioQ| > 0 && |s'.queues.prioQ| > 0 && s'.queues.prioQ[0].id == s.queues.prioQ[0].id
    ensures InputTaken(more) <= if s.writer.Wait? then 1 else 0
  {
    hide Do, Exec;
    ReachableInv(run, s);
    RunOvertakes(s, more, s', s.queues.prioQ[0].id);
  }

  // --- bounds -------------------------------------------------------------------------------

  predicate QueuesBounded(q: Queues) { |q.sendQ| <= 16 && |q.prioQ| <= 4 }

  lemma StepKeepsBounds(s: Sys, a: Action, s': Sys)
    requires QueuesBounded(s.queues) && Do(s, a) == Some(s')
    ensures QueuesBounded(s'.queues)
  {
    hide BufferedAmount, BuildPlan, FinalValidate, CheckWritable;
  }

  /** At most 16 input frames and 4 neutral ones are ever queued. */
  lemma {:induction false} QueuesStayBounded(s: Sys, run: seq<Action>, s': Sys)
    requires QueuesBounded(s.queues) && Exec(s, run) == Some(s')
    ensures |s'.queues.sendQ| <= 16 && |s'.queues.prioQ| <= 4
    decreases |run|
  {
    hide Do;
    if |run| > 0 {
      StepKeepsBounds(s, run[0], Do(s, run[0]).value);
      QueuesStayBounded(Do(s, run[0]).value, run[1..], s');
    }
  }

  /** Every report the encoders admit, and nothing else, is one a holder may hand over, under
      any context and token. */
  lemma HoldersMaySend(ctx: nat, token: nat, r: Report)
    ensures match r
            case Handshake => forall req: Request | req.report == r :: !HolderRequest(req)
            case Keyboard(modifier, keys) =>
              && (HolderRequest(SendKeyboardReport(ctx, token, modifier, keys)) <==> |keys| <= 6)
              && HolderRequest(ReleaseKeyboard(ctx, token))
            case Pointer(x, y, buttons) =>
              HolderRequest(SendPointerReport(ctx, token, x, y, buttons))
              <==> 0 <= x <= 32767 && 0 <= y <= 32767 && buttons <= 31
            case Mouse(dx, dy, buttons) =>
              HolderRequest(SendMouseReport(ctx, token, dx, dy, buttons)) <==> dx != -128 && dy != -128
  {
  }

  /** And up to there nothing is turned away: a holder's report is queued whenever fewer than
      16 are, a neutral frame or the handshake's whenever fewer than 4 are. */
  lemma RoomIsUsed(run: seq<Action>, s: Sys, req: Request)
    requires Reaches(run, s) && HolderRequest(req)
    ensures Do(s, World(HolderSend(req))).Some? <==> |s.queues.sendQ| < 16
    ensures s.gate.Releasing? && s.gate.tx.phase.Queueing? && s.gate.tx.phase.i < |s.gate.tx.plan.frames| ==>
              (Do(s, Release(EnqueueNeutral)).Some? <==> |s.queues.prioQ| < 4)
    ensures s.client.hs.HsQueueing? ==> (Do(s, Negotiate(HsEnqueue)).Some? <==> |s.queues.prioQ| < 4)
  {
    hide BufferedAmount, HolderRequest;
    ReachableInv(run, s);
  }

  // --- the held model is not pessimistic --------------------------------------------------

  datatype Interface = OnKeyboard | OnPointer | OnMouse

  /** This report presses something on that interface. */
  predicate Presses(i: Interface, r: Report) {
    match r
    case Handshake => false
    case Keyboard(modifier, keys) => i.OnKeyboard? && (modifier != 0 || exists k <- keys :: k != 0)
    case Pointer(_, _, buttons) => i.OnPointer? && buttons != 0
    case Mouse(_, _, buttons) => i.OnMouse? && buttons != 0
  }

  predicate HeldOn(i: Interface, h: HeldInput) {
    match i
    case OnKeyboard => h.keyboard
    case OnPointer => h.absoluteButtons
    case OnMouse => h.relativeButtons
  }

  /** Nothing held on the interface, and no request in the pipeline that presses it. */
  predicate Idle(i: Interface, s: Sys) {
    && !HeldOn(i, s.core.held)
    && (forall k | 0 <= k < |s.queues.sendQ| :: !Presses(i, s.queues.sendQ[k].report))
    && (InHand(s.writer).Some? && !InHandPrivileged(s.writer) ==> !Presses(i, InHand(s.writer).value.report))
  }

  lemma CheckKeepsIdle(s: Sys, s': Sys, i: Interface)
    requires QueueInv(s) && Idle(i, s) && s.writer.Final? && s' == DoLastCheck(s)
    ensures Idle(i, s')
  {
    if s.writer.req.privileged { assert PrivilegedOk(s, s.writer.req); }
  }

  lemma QueueKeepsIdle(s: Sys, a: Action, s': Sys, i: Interface)
    requires QueueInv(s) && Idle(i, s) && Do(s, a) == Some(s') && (a.Dequeue? || a.Stop?)
    ensures Idle(i, s')
  {
    hide Presses, PrivilegedOk;
    if |s.queues.prioQ| > 0 { HeadIsPrivileged(s); }
  }

  lemma WriterKeepsIdle(s: Sys, a: Action, s': Sys, i: Interface)
    requires QueueInv(s) && Idle(i, s) && Do(s, a) == Some(s')
    requires a.Validate? || a.OfferFrame? || a.Barrier?
    ensures Idle(i, s')
  {
    hide Presses, BufferedAmount, CheckWritable, QueueInv, FinalValidate;
    if a == Validate(LastCheck) { CheckKeepsIdle(s, s', i); }
  }

  lemma OtherKeepsIdle(s: Sys, a: Action, s': Sys, i: Interface)
    requires Idle(i, s) && Do(s, a) == Some(s')
    requires a.World? || a.Peer? || a.Negotiate? || a.Lease? || a.Wheel? || a.Release? || a.Drain? || a.Finish?
    requires a.World? && a.w.HolderSend? ==> !Presses(i, a.w.req.report)
    ensures Idle(i, s')
  {
    hide Presses, BufferedAmount, BuildPlan;
  }

  lemma StepKeepsIdle(s: Sys, a: Action, s': Sys, i: Interface)
    requires QueueInv(s) && Idle(i, s) && Do(s, a) == Some(s')
    requires a.World? && a.w.HolderSend? ==> !Presses(i, a.w.req.report)
    ensures Idle(i, s')
  {
    hide Do, QueueInv, Idle, Presses;
    if a.Dequeue? || a.Stop? { QueueKeepsIdle(s, a, s', i); }
    else if a.Validate? || a.OfferFrame? || a.Barrier? { WriterKeepsIdle(s, a, s', i); }
    else { OtherKeepsIdle(s, a, s', i); }
  }

  lemma {:induction false} RunKeepsIdle(s: Sys, run: seq<Action>, s': Sys, i: Interface)
    requires Inv(s) && Idle(i, s) && Exec(s, run) == Some(s')
    requires forall r <- Sends(run) :: !Presses(i, r.report)
    ensures Idle(i, s')
    decreases |run|
  {
    hide Do, Inv, Idle, Presses;
    if |run| > 0 {
      var next := Do(s, run[0]).value;
      QueuePart(s);
      StepKeepsInv(s, run[0], next);
      assert forall r <- Sends(run[1..]) :: r in Sends(run);
      if run[0].World? && run[0].w.HolderSend? { assert run[0].w.req in Sends(run); }
      StepKeepsIdle(s, run[0], next, i);
      RunKeepsIdle(next, run[1..], s', i);
    }
  }

  /** The other side of HeldOverApproximates: an interface nobody pressed anything on is never
      believed to be held, whatever went over the others. */
  lemma UnusedIsNotHeld(run: seq<Action>, s: Sys, i: Interface)
    requires Reaches(run, s) && forall r <- Sends(run) :: !Presses(i, r.report)
    ensures !HeldOn(i, s.core.held)
  {
    hide Do, Sends, Presses;
    InitInv();
    RunKeepsIdle(INIT, run, s, i);
  }
}
