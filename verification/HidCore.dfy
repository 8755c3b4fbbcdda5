/** The part of hidClient that stateMu guards (hid.go): the channel state, the
    lease generation, the done-channel of the live generation and the held model.

    Each function below is one critical section on a `Core` value; class
    `HidClient` runs the same sections on mutable fields and is proved equal to
    them. The concurrent protocol (HidProtocol) is built from the functions. */
module HidCore {
  import opened Outcomes
  import opened Words
  import opened HidProto

  datatype HidState = Negotiating | Handshaking | Ready | Closed

  datatype HidError =
    | NotReady | ChannelClosed | StaleToken | NeutralizeUnverified
    | BufferFull | Canceled | NoCoordinates | BadReport

  /** What may still be held, per interface, and the last absolute coordinates offered. */
  datatype HeldInput = HeldInput(
    keyboard: bool, absoluteButtons: bool, relativeButtons: bool,
    positionKnown: bool, x: int, y: int)
  {
    predicate Any() { keyboard || absoluteButtons || relativeButtons }

    function Add(next: HeldInput): HeldInput {
      HeldInput(
        keyboard || next.keyboard,
        absoluteButtons || next.absoluteButtons,
        relativeButtons || next.relativeButtons,
        positionKnown || next.positionKnown,
        if next.positionKnown then next.x else x,
        if next.positionKnown then next.y else y)
    }
  }

  const NOTHING_HELD := HeldInput(false, false, false, false, 0, 0)

  /** One frame handed to the writer. `ctx` names the authorizing context;
      `id` names the result channel of a privileged request, and `epoch` the
      generation burned by the release transaction that built it (0 for the
      handshake): both are 0 on ordinary requests. */
  datatype Request = Request(
    report: Report, ctx: nat, token: nat, privileged: bool,
    held: Option<HeldInput>, drain: bool, id: nat, epoch: nat)

  /** A done-channel is named by the generation it was made for; `doneClosed`
      are the ones already closed. */
  datatype Core = Core(
    state: HidState, activeGen: nat, genCounter: nat,
    activeDone: Option<nat>, doneClosed: set<nat>, held: HeldInput)

  const INITIAL_CORE := Core(Negotiating, 0, 0, None, {}, NOTHING_HELD)

  /** The live generation is 0 or the newest one issued, and its done-channel
      exists exactly while it is live and is still open. */
  predicate GenerationsOk(c: Core) {
    && (c.activeGen == 0 || c.activeGen == c.genCounter)
    && c.activeDone == (if c.activeGen == 0 then None else Some(c.activeGen))
    && (forall g <- c.doneClosed :: 0 < g <= c.genCounter && g != c.activeGen)
  }

  predicate CoreOk(c: Core) {
    GenerationsOk(c) && (c.state != Ready ==> c.activeGen == 0)
  }

  // --- critical sections ------------------------------------------------------

  function CheckWritable(c: Core, privileged: bool, token: nat): Option<HidError> {
    match c.state
    case Closed => Some(ChannelClosed)
    case Negotiating => Some(NotReady)
    case Handshaking => if privileged then None else Some(NotReady)
    case Ready =>
      if privileged then None
      else if token == 0 || token != c.activeGen then Some(StaleToken)
      else None
  }

  /** The last validation in write: state and token again, then the context,
      then the held record, then the done-channel a drain barrier captures. */
  function FinalValidate(c: Core, req: Request, canceled: bool): (Core, Result<Option<nat>, HidError>) {
    var refused := CheckWritable(c, req.privileged, req.token);
    if refused.Some? then (c, Failure(refused.value))
    else if canceled then (c, Failure(Canceled))
    else
      var c' := if req.held.Some? then c.(held := c.held.Add(req.held.value)) else c;
      if !req.drain then (c', Success(None))
      else if c'.activeDone.None? then (c', Failure(StaleToken))
      else (c', Success(c'.activeDone))
  }

  function CloseDone(c: Core): set<nat> {
    if c.activeDone.Some? then c.doneClosed + {c.activeDone.value} else c.doneClosed
  }

  function InvalidateLease(c: Core): Core {
    c.(doneClosed := CloseDone(c), activeDone := None, activeGen := 0, genCounter := c.genCounter + 1)
  }

  function BeginLease(c: Core, canceled: bool): (Core, Result<nat, HidError>) {
    if canceled then (c, Failure(Canceled))
    else if c.state == Closed then (c, Failure(ChannelClosed))
    else if c.state != Ready then (c, Failure(NotReady))
    else if c.held.Any() then (c, Failure(NeutralizeUnverified))
    else
      var g := c.genCounter + 1;
      (c.(doneClosed := CloseDone(c), genCounter := g, activeGen := g, activeDone := Some(g)), Success(g))
  }

  function CloseWith(c: Core): Core {
    if c.state == Closed then c else InvalidateLease(c.(state := Closed))
  }

  function StartHandshake(c: Core): Core
    requires c.state == Negotiating
  {
    c.(state := Handshaking)
  }

  function CommitHandshake(c: Core, canceled: bool): Core {
    if c.state == Closed || canceled then c else c.(state := Ready)
  }

  datatype Plan = Plan(frames: seq<Report>, keyboard: bool, relativeButtons: bool, absoluteButtons: bool)

  /** buildNeutralizationPlan: keyboard and relative mouse always, the absolute
      pointer only when it may hold a button, at the recorded coordinates. */
  function BuildPlan(held: HeldInput): Result<Plan, HidError> {
    var base := [RELEASE_ALL_KEYBOARD, RELEASE_ALL_MOUSE];
    if !held.absoluteButtons then Success(Plan(base, true, true, false))
    else if !held.positionKnown then Failure(NoCoordinates)
    else
      var pointer := Pointer(held.x, held.y, 0);
      if Encode(pointer).Failure? then Failure(BadReport)
      else Success(Plan(base + [pointer], true, true, true))
  }

  function ConfirmRelease(c: Core, plan: Plan): Core {
    c.(held := c.held.(
      keyboard := c.held.keyboard && !plan.keyboard,
      relativeButtons := c.held.relativeButtons && !plan.relativeButtons,
      absoluteButtons := c.held.absoluteButtons && !plan.absoluteButtons))
  }

  /** No report of this epoch can precede an ordinary frame of a lease it revoked. */
  predicate EpochOk(c: Core, epoch: nat) {
    epoch <= c.genCounter && (c.activeGen != 0 ==> epoch < c.activeGen)
  }

  /** A generation is live, or its done-channel is closed. */
  predicate Watched(c: Core, gen: nat) {
    0 < gen <= c.genCounter && (gen == c.activeGen || gen in c.doneClosed)
  }

  /** Generations are only ever burned: the counter never goes back, a live
      generation ends by closing its channel, and a new one is above all others. */
  predicate Advances(c: Core, c': Core) {
    && c.genCounter <= c'.genCounter
    && c.doneClosed <= c'.doneClosed
    && (c'.activeGen == c.activeGen
        || ((c'.activeGen == 0 || c'.activeGen > c.genCounter)
            && (c.activeGen != 0 ==> c.activeGen in c'.doneClosed)))
  }

  lemma AdvanceKeeps(c: Core, c': Core, n: nat)
    requires Advances(c, c')
    ensures EpochOk(c, n) ==> EpochOk(c', n)
    ensures Watched(c, n) ==> Watched(c', n)
  {
  }

  /** Every critical section keeps the generation bookkeeping and only advances it. */
  lemma SectionsAdvance(c: Core, req: Request, canceled: bool, plan: Plan)
    requires CoreOk(c)
    ensures var v := FinalValidate(c, req, canceled).0; CoreOk(v) && Advances(c, v)
    ensures var v := InvalidateLease(c); CoreOk(v) && Advances(c, v)
    ensures var v := CloseWith(c); CoreOk(v) && Advances(c, v)
    ensures var v := ConfirmRelease(c, plan); CoreOk(v) && Advances(c, v)
    ensures var v := BeginLease(c, canceled).0; CoreOk(v) && Advances(c, v)
    ensures c.state == Negotiating ==> CoreOk(StartHandshake(c)) && Advances(c, StartHandshake(c))
    ensures c.state == Handshaking ==> CoreOk(CommitHandshake(c, canceled)) && Advances(c, CommitHandshake(c, canceled))
  {
  }

  // --- what a sender builds ---------------------------------------------------

  function SendKeyboardReport(ctx: nat, token: nat, modifier: byte, keys: seq<byte>): Request {
    var down := modifier != 0 || exists k <- keys :: k != 0;
    Request(Keyboard(modifier, keys), ctx, token, false, Some(NOTHING_HELD.(keyboard := down)), false, 0, 0)
  }

  function ReleaseKeyboard(ctx: nat, token: nat): Request {
    Request(RELEASE_ALL_KEYBOARD, ctx, token, false, None, true, 0, 0)
  }

  function SendPointerReport(ctx: nat, token: nat, x: int, y: int, buttons: byte): Request {
    Request(Pointer(x, y, buttons), ctx, token, false,
            Some(HeldInput(false, buttons != 0, false, true, x, y)), false, 0, 0)
  }

  function SendMouseReport(ctx: nat, token: nat, dx: int8, dy: int8, buttons: byte): Request {
    Request(Mouse(dx, dy, buttons), ctx, token, false,
            Some(NOTHING_HELD.(relativeButtons := buttons != 0)), false, 0, 0)
  }

  // --- the mutable client -----------------------------------------------------

  /** The fields stateMu guards, updated in place by one method per critical section. */
  class HidClient {
    var state: HidState
    var activeGen: nat
    var genCounter: nat
    var activeDone: Option<nat>
    var doneClosed: set<nat>
    var held: HeldInput

    function View(): Core
      reads this
    {
      Core(state, activeGen, genCounter, activeDone, doneClosed, held)
    }

    ghost predicate Valid()
      reads this
    {
      CoreOk(View())
    }

    constructor ()
      ensures Valid() && View() == INITIAL_CORE
    {
      state, activeGen, genCounter := Negotiating, 0, 0;
      activeDone, doneClosed, held := None, {}, NOTHING_HELD;
    }

    /** Closing a channel twice would panic: the precondition is that it is open. */
    method CloseChannel(g: nat)
      requires g !in doneClosed
      modifies this`doneClosed
      ensures doneClosed == old(doneClosed) + {g}
    {
      doneClosed := doneClosed + {g};
    }

    method InvalidateLeaseLocked()
      requires GenerationsOk(View())
      modifies this
      ensures Valid() && View() == InvalidateLease(old(View()))
    {
      if activeDone.Some? {
        CloseChannel(activeDone.value);
        activeDone := None;
      }
      activeGen := 0;
      genCounter := genCounter + 1;
    }

    method BeginLeaseLocked(canceled: bool) returns (r: Result<nat, HidError>)
      requires Valid()
      modifies this
      ensures Valid() && (View(), r) == BeginLease(old(View()), canceled)
      ensures r.Success? ==> old(genCounter) < r.value == activeGen && !held.Any() && state == Ready
    {
      if canceled { return Failure(Canceled); }
      if state == Closed { return Failure(ChannelClosed); }
      if state != Ready { return Failure(NotReady); }
      if held.Any() { return Failure(NeutralizeUnverified); }
      if activeDone.Some? { CloseChannel(activeDone.value); }
      genCounter := genCounter + 1;
      activeGen := genCounter;
      activeDone := Some(activeGen);
      return Success(activeGen);
    }

    method CloseWithLocked()
      requires Valid()
      modifies this
      ensures Valid() && View() == CloseWith(old(View()))
      ensures state == Closed && activeGen == 0
    {
      if state != Closed {
        state := Closed;
        InvalidateLeaseLocked();
      }
    }

    method FinalValidationLocked(req: Request, canceled: bool) returns (r: Result<Option<nat>, HidError>)
      requires Valid()
      modifies this`held
      ensures Valid() && (View(), r) == FinalValidate(old(View()), req, canceled)
      ensures r.Failure? && !req.drain ==> held == old(held)
      ensures r.Success? ==> state == Ready || (req.privileged && state == Handshaking)
      ensures r.Success? && !req.privileged ==> req.token == activeGen != 0
    {
      var refused := CheckWritable(View(), req.privileged, req.token);
      if refused.Some? { return Failure(refused.value); }
      if canceled { return Failure(Canceled); }
      if req.held.Some? { held := held.Add(req.held.value); }
      if !req.drain { return Success(None); }
      if activeDone.None? { return Failure(StaleToken); }
      return Success(activeDone);
    }

    /** The first critical section of releaseAllLocked: revoke, then snapshot. */
    method RevokeAndSnapshot() returns (s: HidState, snapshot: HeldInput)
      requires Valid()
      modifies this
      ensures Valid() && View() == InvalidateLease(old(View()))
      ensures s == old(state) && snapshot == old(held)
    {
      InvalidateLeaseLocked();
      s, snapshot := state, held;
    }

    /** The last one: each bit is cleared only if its interface was neutralized. */
    method ConfirmReleaseLocked(plan: Plan)
      requires Valid()
      modifies this`held
      ensures Valid() && View() == ConfirmRelease(old(View()), plan)
      ensures plan.keyboard && plan.relativeButtons && (plan.absoluteButtons || !old(held).absoluteButtons) ==>
                !held.Any()
      ensures !plan.absoluteButtons ==> held.absoluteButtons == old(held).absoluteButtons
      ensures held.positionKnown == old(held).positionKnown && held.x == old(held).x && held.y == old(held).y
    {
      if plan.keyboard { held := held.(keyboard := false); }
      if plan.relativeButtons { held := held.(relativeButtons := false); }
      if plan.absoluteButtons { held := held.(absoluteButtons := false); }
    }
  }
}
