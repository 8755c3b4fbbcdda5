/** Client.Scroll across its two channels (client.go): the wheel request travels over the
    RPC channel, which cannot carry a lease generation, while the lease it runs under
    lives on the HID channel. Both protocols run side by side here, and the marker the
    RPC call returns is what decides how the scroll ends. */
module ScrollSession {
  import opened Outcomes
  import H = HidProtocol
  import I = HidInvariant
  import S = HidSteps
  import T = HidTheorems
  import Rpc

  /** `wheels` is every wheel call made and the generation it was made under; `current`
      is the one in progress. */
  datatype Sys = Sys(hid: H.Sys, rpc: Rpc.Sys, current: Option<int>, wheels: map<int, nat>)

  const INIT := Sys(H.INIT, Rpc.INIT, None, map[])

  /** Steps of either protocol, and the two that belong to both. */
  datatype Action = Hid(h: H.Action) | Call(r: Rpc.Action) | WheelBegins(ctx: nat) | WheelEnds

  function DoBegins(s: Sys, ctx: nat): Option<Sys> {
    var hid := H.Do(s.hid, H.Wheel(H.ScrollStart));
    var rpc := Rpc.Do(s.rpc, Rpc.Begin(ctx));
    if s.current.Some? || hid.None? || rpc.None? then None
    else
      var id := s.rpc.nextId + 1;
      Some(Sys(hid.value, rpc.value, Some(id), s.wheels[id := hid.value.client.scroll.token]))
  }

  /** The call has returned: errors.Is(err, errRPCAmbiguousDelivery) decides. */
  function DoEnds(s: Sys): Option<Sys> {
    if s.current.None? || s.current.value !in s.rpc.calls then None
    else
      var stage := s.rpc.calls[s.current.value].stage;
      if !stage.Returned? then None
      else
        match H.Do(s.hid, H.Wheel(if stage.marked then H.ScrollAmbiguous else H.ScrollReturns))
        case None => None
        case Some(hid) => Some(s.(hid := hid, current := None))
  }

  function Do(s: Sys, a: Action): Option<Sys> {
    match a
    case Hid(h) =>
      if h.Wheel? && h.wh != H.ScrollClose then None
      else (match H.Do(s.hid, h) case None => None case Some(hid) => Some(s.(hid := hid)))
    case Call(r) =>
      if !Rpc.Foreign(r) then None
      else (match Rpc.Do(s.rpc, r) case None => None case Some(rpc) => Some(s.(rpc := rpc)))
    case WheelBegins(ctx) => DoBegins(s, ctx)
    case WheelEnds => DoEnds(s)
  }

  function Exec(s: Sys, run: seq<Action>): Option<Sys>
    decreases |run|
  {
    if |run| == 0 then Some(s)
    else match Do(s, run[0])
      case None => None
      case Some(s') => Exec(s', run[1..])
  }

  // --- invariant --------------------------------------------------------------------

  /** A wheel call in progress runs under its own lease; one that ended ambiguous is
      guarded by that lease or by the end of the session. */
  predicate WheelOk(s: Sys, id: int)
    requires id in s.wheels
  {
    && id in s.rpc.calls
    && if s.current == Some(id) then s.hid.client.scroll == H.Calling(s.wheels[id])
       else
         && s.rpc.calls[id].stage.Returned?
         && (s.rpc.calls[id].stage.marked ==>
               I.LastIssued(s.hid.client.issued, s.wheels[id]) && T.ScrollGuards(s.hid, s.wheels[id]))
  }

  predicate WheelsOk(s: Sys) {
    && (s.current.Some? ==> s.current.value in s.wheels)
    && forall id <- s.wheels :: WheelOk(s, id)
  }

  predicate Inv(s: Sys) { I.Inv(s.hid) && Rpc.Inv(s.rpc) && Rpc.ErrorsAreForeign(s.rpc) && WheelsOk(s) }

  lemma WriterLeavesScroll(s: H.Sys, a: H.Action, s': H.Sys)
    requires H.Do(s, a) == Some(s')
    requires a.Dequeue? || a.Stop? || a.Validate? || a.OfferFrame? || a.Barrier? || a.World? || a.Peer?
    ensures s'.client.scroll == s.client.scroll
  {
  }

  lemma OthersLeaveScroll(s: H.Sys, a: H.Action, s': H.Sys)
    requires H.Do(s, a) == Some(s')
    requires a.Negotiate? || a.Lease? || a.Release? || a.Drain? || a.Finish?
    ensures s'.client.scroll == s.client.scroll
  {
  }

  /** While a wheel call is in progress only its own end touches the scroll. */
  lemma CallingStays(s: H.Sys, a: H.Action, s': H.Sys)
    requires H.Do(s, a) == Some(s') && s.client.scroll.Calling? && (a.Wheel? ==> a.wh == H.ScrollClose)
    ensures s'.client.scroll == s.client.scroll
  {
    if a.Negotiate? || a.Lease? || a.Release? || a.Drain? || a.Finish? {
      OthersLeaveScroll(s, a, s');
    } else if !a.Wheel? {
      WriterLeavesScroll(s, a, s');
    }
  }

  lemma ReturnedStays(s: Rpc.Sys, a: Rpc.Action, s': Rpc.Sys, id: int)
    requires Rpc.CallsOk(s) && Rpc.Do(s, a) == Some(s')
    requires id in s.calls
    ensures id in s'.calls && (s.calls[id].stage.Returned? ==> s'.calls[id] == s.calls[id])
  {
    if a.Step? { Rpc.CallIsOwnStep(s, a.id, a.a, s'); }
  }

  lemma HidKeepsInv(s: Sys, h: H.Action, s': Sys)
    requires Inv(s) && Do(s, Hid(h)) == Some(s')
    ensures Inv(s')
  {
    hide H.Do, I.Inv, I.LastIssued, T.ScrollGuards, Rpc.Inv, Rpc.ErrorsAreForeign;
    S.StepKeepsInv(s.hid, h, s'.hid);
    forall id <- s'.wheels ensures WheelOk(s', id) {
      assert WheelOk(s, id);
      if s.current == Some(id) {
        CallingStays(s.hid, h, s'.hid);
      } else if s.rpc.calls[id].stage.marked {
        T.StepGuarded(s.hid, h, s'.hid, s.wheels[id]);
      }
    }
  }

  lemma CallKeepsInv(s: Sys, r: Rpc.Action, s': Sys)
    requires Inv(s) && Do(s, Call(r)) == Some(s')
    ensures Inv(s')
  {
    hide Rpc.Do, Rpc.ErrorsAreForeign, Rpc.Foreign, I.Inv, I.LastIssued, T.ScrollGuards;
    Rpc.StepKeepsInv(s.rpc, r, s'.rpc);
    Rpc.StepStaysForeign(s.rpc, r, s'.rpc);
    forall id <- s'.wheels ensures WheelOk(s', id) {
      assert WheelOk(s, id);
      ReturnedStays(s.rpc, r, s'.rpc, id);
    }
  }

  lemma StartScroll(s: H.Sys, s': H.Sys)
    requires H.Do(s, H.Wheel(H.ScrollStart)) == Some(s')
    ensures s'.client.scroll.Calling?
  {
  }

  lemma BeginCall(s: Rpc.Sys, ctx: nat, s': Rpc.Sys)
    requires Rpc.CallsOk(s) && Rpc.Do(s, Rpc.Begin(ctx)) == Some(s')
    ensures s.nextId + 1 !in s.calls && s.nextId + 1 in s'.calls && Rpc.Foreign(Rpc.Begin(ctx))
  {
  }

  lemma BeginsKeepsInv(s: Sys, ctx: nat, s': Sys)
    requires Inv(s) && DoBegins(s, ctx) == Some(s')
    ensures Inv(s')
  {
    hide H.Do, Rpc.Do, Rpc.ErrorsAreForeign, Rpc.Foreign, I.Inv, I.LastIssued, T.ScrollGuards;
    S.StepKeepsInv(s.hid, H.Wheel(H.ScrollStart), s'.hid);
    StartScroll(s.hid, s'.hid);
    Rpc.StepKeepsInv(s.rpc, Rpc.Begin(ctx), s'.rpc);
    BeginCall(s.rpc, ctx, s'.rpc);
    Rpc.StepStaysForeign(s.rpc, Rpc.Begin(ctx), s'.rpc);
    forall id <- s'.wheels ensures WheelOk(s', id) {
      if id != s.rpc.nextId + 1 {
        assert WheelOk(s, id);
        ReturnedStays(s.rpc, Rpc.Begin(ctx), s'.rpc, id);
        if s.rpc.calls[id].stage.marked { T.StepGuarded(s.hid, H.Wheel(H.ScrollStart), s'.hid, s.wheels[id]); }
      }
    }
  }

  /** A call that ended ambiguous leaves its scroll holding the newest lease. */
  lemma AmbiguousScroll(s: H.Sys, s': H.Sys, token: nat)
    requires I.Inv(s) && s.client.scroll == H.Calling(token) && H.Do(s, H.Wheel(H.ScrollAmbiguous)) == Some(s')
    ensures I.LastIssued(s'.client.issued, token) && T.ScrollGuards(s', token)
  {
  }

  lemma EndsKeepsInv(s: Sys, s': Sys)
    requires Inv(s) && DoEnds(s) == Some(s')
    ensures Inv(s')
  {
    hide H.Do, I.Inv, I.LastIssued, T.ScrollGuards, Rpc.Inv, Rpc.ErrorsAreForeign;
    var now := s.current.value;
    var marked := s.rpc.calls[now].stage.marked;
    var a := H.Wheel(if marked then H.ScrollAmbiguous else H.ScrollReturns);
    S.StepKeepsInv(s.hid, a, s'.hid);
    forall id <- s'.wheels ensures WheelOk(s', id) {
      assert WheelOk(s, id);
      if id == now {
        if marked { AmbiguousScroll(s.hid, s'.hid, s.wheels[id]); }
      } else if s.rpc.calls[id].stage.marked {
        T.StepGuarded(s.hid, a, s'.hid, s.wheels[id]);
      }
    }
  }

  lemma StepKeepsInv(s: Sys, a: Action, s': Sys)
    requires Inv(s) && Do(s, a) == Some(s')
    ensures Inv(s')
  {
    hide Inv, DoBegins, DoEnds, H.Do, Rpc.Do, Rpc.Foreign;
    match a
    case Hid(h) => HidKeepsInv(s, h, s');
    case Call(r) => CallKeepsInv(s, r, s');
    case WheelBegins(ctx) => BeginsKeepsInv(s, ctx, s');
    case WheelEnds => EndsKeepsInv(s, s');
  }

  lemma {:induction false} RunKeepsInv(s: Sys, run: seq<Action>, s': Sys)
    requires Inv(s) && Exec(s, run) == Some(s')
    ensures Inv(s')
    decreases |run|
  {
    hide Inv, Do;
    if |run| > 0 {
      var next := Do(s, run[0]).value;
      StepKeepsInv(s, run[0], next);
      RunKeepsInv(next, run[1..], s');
    }
  }

  lemma InitInv()
    ensures Inv(INIT)
  {
    hide I.Inv;
    I.InitInv();
  }

  // --- the guarantee ------------------------------------------------------------------

  predicate Reaches(run: seq<Action>, s: Sys) { Exec(INIT, run) == Some(s) }

  lemma IssuedUpTo(s: H.Sys, token: nat)
    requires I.Inv(s) && I.LastIssued(s.client.issued, token)
    ensures forall g <- s.client.issued :: g <= token
  {
    var issued := s.client.issued;
    forall g | g in issued ensures g <= token {
      var i :| 0 <= i < |issued| && issued[i] == g;
      assert i < |issued| - 1 ==> issued[i] < issued[|issued| - 1];
    }
  }

  lemma CallingHoldsLast(s: H.Sys)
    requires I.Inv(s) && s.client.scroll.Calling?
    ensures I.LastIssued(s.client.issued, s.client.scroll.token)
  {
  }

  lemma ReturnedIsMarked(s: Rpc.Sys, id: int)
    requires Rpc.Inv(s) && Rpc.ErrorsAreForeign(s) && id in s.calls && s.calls[id].stage.Returned?
    ensures s.calls[id].stage.marked <==> Rpc.Ambiguous(s.calls[id])
  {
  }

  /** A wheel request that may have been delivered, and whose response was not consumed,
      never coexists with a lease generation later than its own: not while the call is in
      progress, and not in any state after it returned. */
  lemma WheelNeverOutlivesItsLease(run: seq<Action>, s: Sys, id: int)
    requires Reaches(run, s) && id in s.wheels && id in s.rpc.calls && Rpc.Ambiguous(s.rpc.calls[id])
    ensures forall g <- s.hid.client.issued :: g <= s.wheels[id]
    ensures s.wheels[id] in s.hid.client.issued
  {
    hide I.Inv, Rpc.Inv, Rpc.ErrorsAreForeign, Rpc.Ambiguous, T.ScrollGuards;
    InitInv();
    RunKeepsInv(INIT, run, s);
    assert WheelOk(s, id);
    if s.current == Some(id) {
      CallingHoldsLast(s.hid);
    } else {
      ReturnedIsMarked(s.rpc, id);
    }
    IssuedUpTo(s.hid, s.wheels[id]);
  }

  // --- and only such a request ends the session --------------------------------------------

  predicate MarkedWheel(s: Sys, id: int) {
    id in s.wheels && id in s.rpc.calls && s.rpc.calls[id].stage.Returned? && s.rpc.calls[id].stage.marked
  }

  /** A scroll that went ambiguous did so for a call that returned marked. */
  predicate Blamed(s: Sys) {
    s.hid.client.scroll.Ambiguous? || s.hid.client.scroll.Retired? ==> exists id <- s.wheels :: MarkedWheel(s, id)
  }

  lemma ScrollOnlyEnds(s: H.Sys, h: H.Action, s': H.Sys)
    requires H.Do(s, h) == Some(s') && (h.Wheel? ==> h.wh == H.ScrollClose)
    ensures s'.client.scroll.Ambiguous? || s'.client.scroll.Retired? ==>
              s.client.scroll.Ambiguous? || s.client.scroll.Retired?
  {
    if h.Negotiate? || h.Lease? || h.Release? || h.Drain? || h.Finish? {
      OthersLeaveScroll(s, h, s');
    } else if !h.Wheel? {
      WriterLeavesScroll(s, h, s');
    }
  }

  lemma HidKeepsBlame(s: Sys, h: H.Action, s': Sys)
    requires Blamed(s) && Do(s, Hid(h)) == Some(s')
    ensures Blamed(s')
  {
    hide H.Do;
    ScrollOnlyEnds(s.hid, h, s'.hid);
    if s.hid.client.scroll.Ambiguous? || s.hid.client.scroll.Retired? {
      var id :| id in s.wheels && MarkedWheel(s, id);
      assert MarkedWheel(s', id);
    }
  }

  lemma CallKeepsBlame(s: Sys, r: Rpc.Action, s': Sys)
    requires Rpc.CallsOk(s.rpc) && Blamed(s) && Do(s, Call(r)) == Some(s')
    ensures Blamed(s')
  {
    hide Rpc.Do;
    if s.hid.client.scroll.Ambiguous? || s.hid.client.scroll.Retired? {
      var id :| id in s.wheels && MarkedWheel(s, id);
      ReturnedStays(s.rpc, r, s'.rpc, id);
      assert MarkedWheel(s', id);
    }
  }

  lemma EndEffect(s: Sys, s': Sys)
    requires DoEnds(s) == Some(s')
    ensures s.current.Some? && s.current.value in s.rpc.calls && s.rpc.calls[s.current.value].stage.Returned?
    ensures s'.rpc == s.rpc && s'.wheels == s.wheels && s.hid.client.scroll.Calling?
    ensures s'.hid == s.hid.(client := s.hid.client.(scroll :=
              if s.rpc.calls[s.current.value].stage.marked then H.Ambiguous(s.hid.client.scroll.token) else H.NoScroll))
  {
  }

  lemma StepKeepsBlame(s: Sys, a: Action, s': Sys)
    requires Inv(s) && Blamed(s) && Do(s, a) == Some(s')
    ensures Blamed(s')
  {
    hide H.Do, Rpc.Do, I.Inv, DoEnds, Rpc.PlacesOk, Rpc.ServedOk, Rpc.BytesOk;
    match a
    case Hid(h) => HidKeepsBlame(s, h, s');
    case Call(r) => CallKeepsBlame(s, r, s');
    case WheelBegins(_) => StartScroll(s.hid, s'.hid);
    case WheelEnds =>
      EndEffect(s, s');
      assert s.current.value in s.wheels;
      if s.rpc.calls[s.current.value].stage.marked { assert MarkedWheel(s', s.current.value); }
  }

  lemma {:induction false} RunKeepsBlame(s: Sys, run: seq<Action>, s': Sys)
    requires Inv(s) && Blamed(s) && Exec(s, run) == Some(s')
    ensures Blamed(s')
    decreases |run|
  {
    hide Inv, Do, Blamed;
    if |run| > 0 {
      var next := Do(s, run[0]).value;
      StepKeepsInv(s, run[0], next);
      StepKeepsBlame(s, run[0], next);
      RunKeepsBlame(next, run[1..], s');
    }
  }

  lemma RpcParts(s: Sys)
    requires Inv(s)
    ensures Rpc.Inv(s.rpc) && Rpc.ErrorsAreForeign(s.rpc)
  {
  }

  /** The converse: a scroll leaves the session terminal only because some wheel call really
      was ambiguous, that is had reached SendText and returned without its response. */
  lemma SessionEndsOnlyWhenAmbiguous(run: seq<Action>, s: Sys) returns (id: int)
    requires Reaches(run, s) && (s.hid.client.scroll.Ambiguous? || s.hid.client.scroll.Retired?)
    ensures id in s.wheels && id in s.rpc.calls
    ensures s.rpc.calls[id].stage.Returned? && Rpc.Ambiguous(s.rpc.calls[id])
  {
    hide Do, Rpc.Ambiguous;
    InitInv();
    RunKeepsInv(INIT, run, s);
    RunKeepsBlame(INIT, run, s);
    id :| id in s.wheels && MarkedWheel(s, id);
    RpcParts(s);
    ReturnedIsMarked(s.rpc, id);
  }

  lemma CallingHoldsSlot(s: H.Sys)
    requires I.Inv(s) && s.client.scroll.Calling?
    ensures s.client.slot.SlotHeld? && H.IndicesOk(s.wire)
  {
  }

  lemma EndIsDoEnds(s: Sys, s': Sys)
    requires Do(s, WheelEnds) == Some(s')
    ensures DoEnds(s) == Some(s') && s'.current.None?
  {
  }

  /** And an answered scroll changes nothing but itself: the channel is as it was, and the
      holder can release its slot at once. */
  lemma AnsweredScrollReleases(run: seq<Action>, s: Sys, s': Sys)
    requires Reaches(run, s) && Do(s, WheelEnds) == Some(s')
    requires s.current.Some? && s.current.value in s.rpc.calls
    requires !Rpc.Ambiguous(s.rpc.calls[s.current.value])
    ensures s'.hid == s.hid.(client := s.hid.client.(scroll := H.NoScroll)) && s'.current.None?
    ensures H.Do(s'.hid, H.Lease(H.ReleaseSlot)).Some?
  {
    hide Do, Rpc.Ambiguous;
    InitInv();
    RunKeepsInv(INIT, run, s);
    EndIsDoEnds(s, s');
    EndEffect(s, s');
    RpcParts(s);
    ReturnedIsMarked(s.rpc, s.current.value);
    CallingHoldsSlot(s.hid);
  }

  lemma Indices(s: Sys)
    requires Inv(s)
    ensures H.IndicesOk(s.hid.wire) && s.rpc.acked <= |s.rpc.sizes|
  {
  }

  lemma ScrollStarts(s: H.Sys)
    requires H.IndicesOk(s.wire) && s.client.scroll.NoScroll? && s.client.slot.SlotHeld?
    ensures H.Do(s, H.Wheel(H.ScrollStart))
         == Some(s.(client := s.client.(scroll := H.Calling(s.client.slot.token))))
  {
  }

  lemma CallBegins(s: Rpc.Sys, ctx: nat)
    requires s.acked <= |s.sizes| && ctx !in s.expired
    ensures Rpc.Do(s, Rpc.Begin(ctx)).Some?
  {
  }

  /** A holder that is not scrolling can scroll, under the generation it holds. */
  lemma ScrollCanBegin(run: seq<Action>, s: Sys, ctx: nat)
    requires Reaches(run, s) && s.current.None? && ctx !in s.rpc.expired
    requires s.hid.client.slot.SlotHeld? && s.hid.client.scroll.NoScroll?
    ensures Do(s, WheelBegins(ctx)).Some?
    ensures var t := Do(s, WheelBegins(ctx)).value;
            && t.current == Some(s.rpc.nextId + 1) && t.current.value in t.wheels
            && t.wheels[t.current.value] == s.hid.client.slot.token
            && t.hid.client.scroll == H.Calling(s.hid.client.slot.token)
  {
    hide Inv, Exec, H.Do, Rpc.Do;
    InitInv();
    RunKeepsInv(INIT, run, s);
    Indices(s);
    ScrollStarts(s.hid);
    CallBegins(s.rpc, ctx);
  }

  lemma EndStep(s: Sys)
    requires Inv(s) && s.current.Some? && s.current.value in s.rpc.calls
    requires s.rpc.calls[s.current.value].stage.Returned?
    ensures Do(s, WheelEnds).Some?
  {
    assert WheelOk(s, s.current.value);
  }

  lemma CloseAndRelease(s: H.Sys)
    requires I.Inv(s) && s.client.scroll.Ambiguous? && s.client.slot.SlotHeld?
    ensures H.Do(s, H.Wheel(H.ScrollClose)).Some?
    ensures var t := H.Do(s, H.Wheel(H.ScrollClose)).value;
            t.core.state == H.HidCore.Closed && H.Do(t, H.Lease(H.ReleaseSlot)).Some?
  {
  }

  /** Every wheel call that returns ends its scroll; an ambiguous one goes on to close the
      channel, and then its holder too can release its slot. */
  lemma EveryScrollEnds(run: seq<Action>, s: Sys)
    requires Reaches(run, s) && s.current.Some? && s.current.value in s.rpc.calls
    requires s.rpc.calls[s.current.value].stage.Returned?
    ensures Do(s, WheelEnds).Some?
    ensures Rpc.Ambiguous(s.rpc.calls[s.current.value]) ==>
              var t := Do(s, WheelEnds).value;
              && t.hid.client.scroll.Ambiguous? && H.Do(t.hid, H.Wheel(H.ScrollClose)).Some?
              && var u := H.Do(t.hid, H.Wheel(H.ScrollClose)).value;
                 u.core.state == H.HidCore.Closed && H.Do(u, H.Lease(H.ReleaseSlot)).Some?
  {
    hide Do, Rpc.Ambiguous, H.Do;
    InitInv();
    RunKeepsInv(INIT, run, s);
    EndStep(s);
    var t := Do(s, WheelEnds).value;
    EndIsDoEnds(s, t);
    EndEffect(s, t);
    RpcParts(s);
    ReturnedIsMarked(s.rpc, s.current.value);
    StepKeepsInv(s, WheelEnds, t);
    CallingHoldsSlot(s.hid);
    if Rpc.Ambiguous(s.rpc.calls[s.current.value]) { CloseAndRelease(t.hid); }
  }
}
