/** No RPC call is stuck: sendMu is always given back, each call only moves forward, and a
    cancelled call returns on the client's own steps. */
module RpcProgress {
  import opened Outcomes
  import opened Rpc

  /** How far along call() a stage is. */
  function Rank(g: Stage): nat {
    match g
    case Numbered => 0
    case Registered => 1
    case Holding => 2
    case Measured(_) => 3
    case Cleared => 4
    case SendFailed(_) => 5
    case Waiting => 5
    case Consumed(_) => 6
    case Leaving(_) => 7
    case Returned(_) => 8
  }

  /** A call's own steps only move it forward, so it takes at most eight of them. */
  lemma OwnStepsAdvance(s: Sys, id: int, a: CallAction, s': Sys)
    requires s.acked <= |s.sizes| && DoCall(s, id, a) == Some(s')
    ensures id in s.calls && s'.calls.Keys == s.calls.Keys
    ensures Rank(s'.calls[id].stage) > Rank(s.calls[id].stage)
    ensures forall i <- s.calls :: i != id ==> s'.calls[i] == s.calls[i]
  {
    hide Buffered;
    CallIsOwnStep(s, id, a, s');
  }

  /** What a call does next when nothing helps it. */
  function Next(g: Stage): CallAction {
    match g
    case Numbered => Register(Some(0))
    case Registered => LockSend
    case Holding => Measure
    case Measured(_) => Decide
    case Cleared => SendText(Accepted)
    case SendFailed(_) => Report
    case Waiting => SeeCanceled
    case Consumed(_) => Settle
    case Leaving(_) => Depart
    case Returned(_) => Depart
  }

  predicate CanStep(s: Sys, id: int)
    requires id in s.calls
  {
    Do(s, Step(id, Next(s.calls[id].stage))).Some?
  }

  /** A call that has not returned can step, or its turn at sendMu depends on a call that can,
      or it waits, not cancelled, and its value is still to come or ready. */
  lemma CallMoves(run: seq<Action>, s: Sys, id: int)
    requires Reaches(run, s) && id in s.calls && !s.calls[id].stage.Returned?
    ensures || CanStep(s, id)
            || (s.calls[id].stage.Registered? && s.sendMu.Some? && s.sendMu.value in s.calls
                && CanStep(s, s.sendMu.value))
            || (s.calls[id].stage.Waiting? && s.calls[id].ctx !in s.expired
                && (id in s.pending || InTransit(s.transit, id) || Do(s, Step(id, Receive)).Some?))
  {
    hide InTransit, Sum, CallOk;
    ReachableInv(run, s);
    if s.calls[id].stage.Waiting? { assert Served(s, id); }
  }

  /** A call gives up only for a cause: its arguments could not be encoded, its context has
      ended, its frame does not fit under 64 KiB, SendText failed, or it has its reply; and
      then it is marked as call() says. */
  lemma CallLeavesForCause(s: Sys, id: int, a: CallAction, s': Sys)
    requires Do(s, Step(id, a)) == Some(s') && id in s.calls && id in s'.calls
    requires s'.calls[id].stage.Leaving?
    ensures match s.calls[id].stage
            case Numbered => a == Register(None) && !s'.calls[id].stage.marked && s'.pending == s.pending
            case Measured(buffered) =>
              (s.calls[id].ctx in s.expired || buffered + s.calls[id].size > 65536) && !s'.calls[id].stage.marked
            case SendFailed(err) => s'.calls[id].stage.marked <==> err.device == Some(Unreachable)
            case Waiting => s.calls[id].ctx in s.expired && s'.calls[id].stage.marked
            case Consumed(reply) => s'.calls[id].stage.marked <==> reply.Broken?
            case _ => false
  {
    hide Buffered;
  }

  /** A request that cannot be encoded leaves nothing behind. */
  lemma UnencodedCallReturns(run: seq<Action>, s: Sys, id: int)
    requires Reaches(run, s) && id in s.calls && s.calls[id].stage.Numbered?
    ensures Exec(s, [Step(id, Register(None)), Step(id, Depart)])
         == Some(s.(calls := s.calls[id := s.calls[id].(stage := Returned(false))]))
  {
    ReachableInv(run, s);
    var first, second := Step(id, Register(None)), Step(id, Depart);
    var s1 := Do(s, first).value;
    assert [first, second][1..] == [second] && [second][1..] == [];
    assert Exec(s1, [second]) == Do(s1, second);
    assert s.pending - {id} == s.pending;
    assert s.calls[id := s.calls[id].(stage := Leaving(false))][id := s.calls[id].(stage := Returned(false))]
        == s.calls[id := s.calls[id].(stage := Returned(false))];
  }

  function Holder(s: Sys): nat {
    if s.sendMu.Some? && s.sendMu.value in s.calls then 8 - Rank(s.calls[s.sendMu.value].stage) else 0
  }

  lemma StepToward(s: Sys, id: int) returns (who: int, next: Sys)
    requires Inv(s) && id in s.calls && s.calls[id].ctx in s.expired && !s.calls[id].stage.Returned?
    ensures who in s.calls && Do(s, Step(who, Next(s.calls[who].stage))) == Some(next)
    ensures id in next.calls && next.calls[id].ctx == s.calls[id].ctx && next.expired == s.expired
    ensures || Rank(next.calls[id].stage) > Rank(s.calls[id].stage)
            || (next.calls[id] == s.calls[id] && Holder(next) < Holder(s))
  {
    hide InTransit, Sum, PlacesOk, ServedOk, CallOk;
    who := if s.calls[id].stage.Registered? && s.sendMu.Some? then s.sendMu.value else id;
    next := Do(s, Step(who, Next(s.calls[who].stage))).value;
    CallIsOwnStep(s, who, Next(s.calls[who].stage), next);
    OwnStepsAdvance(s, who, Next(s.calls[who].stage), next);
  }

  lemma {:induction false} GivesUp(s: Sys, id: int) returns (more: seq<Action>)
    requires Inv(s) && id in s.calls && s.calls[id].ctx in s.expired
    ensures forall a <- more :: a.Step?
    ensures Exec(s, more).Some? && id in Exec(s, more).value.calls
    ensures Exec(s, more).value.calls[id].stage.Returned?
    decreases 8 - Rank(s.calls[id].stage), Holder(s)
  {
    hide Inv, Do;
    if s.calls[id].stage.Returned? {
      more := [];
    } else {
      var who, next := StepToward(s, id);
      var a := Step(who, Next(s.calls[who].stage));
      StepKeepsInv(s, a, next);
      var rest := GivesUp(next, id);
      more := [a] + rest;
      assert more[1..] == rest;
    }
  }

  /** Once its context expires a call returns on the client's own steps alone: no response,
      acknowledgement or channel event is needed, whoever holds sendMu. */
  lemma CancelledCallReturns(run: seq<Action>, s: Sys, id: int) returns (more: seq<Action>)
    requires Reaches(run, s) && id in s.calls && s.calls[id].ctx in s.expired
    ensures forall a <- more :: a.Step?
    ensures Exec(s, more).Some? && id in Exec(s, more).value.calls
    ensures Exec(s, more).value.calls[id].stage.Returned?
  {
    ReachableInv(run, s);
    more := GivesUp(s, id);
  }

  /** Undisturbed, a call holding sendMu is cleared exactly when its context is live and its
      frame fits under 64 KiB with what is buffered, and then SendText puts it on the wire
      and gives sendMu back; otherwise it leaves unsent, and gives sendMu back too. */
  lemma SendIsExact(run: seq<Action>, s: Sys, id: int)
    requires Reaches(run, s) && id in s.calls && s.calls[id].stage.Holding?
    ensures Exec(s, [Step(id, Measure), Step(id, Decide)]).Some?
    ensures var t := Exec(s, [Step(id, Measure), Step(id, Decide)]).value;
            id in t.calls && t.sizes == s.sizes
            && if s.calls[id].ctx !in s.expired && Buffered(s) + s.calls[id].size <= 65536
               then
                 var u := Do(t, Step(id, SendText(Accepted)));
                 && u.Some? && u.value.sizes == s.sizes + [s.calls[id].size] && u.value.sendMu.None?
                 && id in u.value.calls && u.value.calls[id].stage.Waiting?
               else t.calls[id].stage == Leaving(false) && !t.calls[id].invoked && t.sendMu.None?
  {
    hide Sum, PlacesOk, ServedOk;
    ReachableInv(run, s);
    assert CallOk(s.calls[id]);
    var first, second := Step(id, Measure), Step(id, Decide);
    var s1 := Do(s, first).value;
    assert [first, second][1..] == [second] && [second][1..] == [];
    assert Exec(s1, [second]) == Do(s1, second);
    assert Exec(s, [first, second]) == Exec(s1, [second]);
  }
}
