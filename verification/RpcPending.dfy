/** The RPC client's pending map, updated in place (rpc.go): registering a call, failing
    every pending call, and routing one frame from the device. */
module RpcPending {
  import opened Outcomes
  import opened Rpc

  lemma EmptyOrNot(ids: set<int>)
    ensures ids == {} || exists id :: id in ids
  {
    if forall id :: id !in ids { assert ids == {}; }
  }

  /** A channel of capacity one. Sending to a full one would block. */
  class ReplyChannel {
    var slot: Option<Reply>

    constructor ()
      ensures slot == None
    {
      slot := None;
    }

    method Send(r: Reply)
      requires slot.None?
      modifies this
      ensures slot == Some(r)
    {
      slot := Some(r);
    }
  }

  class RpcClient {
    var nextID: nat
    var pending: map<int, ReplyChannel>

    /** Registered channels are empty and belong to one call each. */
    ghost predicate Valid()
      reads this, pending.Values
    {
      && (forall id <- pending :: 0 < id <= nextID && pending[id].slot.None?)
      && (forall i, j | i in pending && j in pending && i != j :: pending[i] != pending[j])
    }

    constructor ()
      ensures Valid() && pending == map[] && nextID == 0
    {
      nextID, pending := 0, map[];
    }

    method Enroll() returns (id: int, ch: ReplyChannel)
      requires Valid()
      modifies this
      ensures Valid() && fresh(ch) && id == nextID == old(nextID) + 1
      ensures pending == old(pending)[id := ch] && id !in old(pending)
    {
      nextID := nextID + 1;
      id := nextID;
      ch := new ReplyChannel();
      pending := pending[id := ch];
    }

    method Forget(id: int)
      requires Valid()
      modifies this`pending
      ensures Valid() && pending == old(pending) - {id}
    {
      pending := pending - {id};
    }

    /** Every call that was pending gets the error, once; nothing stays pending. */
    method FailPending(kind: Kind)
      requires Valid()
      modifies this`pending, pending.Values
      ensures Valid() && pending == map[]
      ensures forall id <- old(pending) :: old(pending)[id].slot == Some(Broken(kind))
    {
      var swapped := pending;
      pending := map[];
      var todo: set<int> := swapped.Keys;
      while todo != {}
        invariant todo <= swapped.Keys && pending == map[]
        invariant forall id <- todo :: swapped[id].slot.None?
        invariant forall id <- swapped.Keys - todo :: swapped[id].slot == Some(Broken(kind))
        decreases |todo|
      {
        EmptyOrNot(todo);
        var id :| id in todo;
        todo := todo - {id};
        swapped[id].Send(Broken(kind));
      }
    }

    /** A response reaches exactly the call it names; a malformed frame fails them all;
        an event or a response to nobody changes nothing. */
    method HandleMessage(m: Message)
      requires Valid()
      modifies this`pending, pending.Values
      ensures Valid()
      ensures m.Event? || (m.Response? && m.id !in old(pending)) ==>
                pending == old(pending) && forall id <- pending :: pending[id].slot.None?
      ensures m.Response? && m.id in old(pending) ==>
                && pending == old(pending) - {m.id}
                && old(pending)[m.id].slot == Some(Matched(m.id, m.body))
      ensures !m.Event? && !m.Response? ==>
                pending == map[] && forall id <- old(pending) :: old(pending)[id].slot == Some(Broken(BadFrame))
    {
      match m
      case Event =>
      case Response(id, body) =>
        if id in pending {
          var ch := pending[id];
          pending := pending - {id};
          ch.Send(Matched(id, body));
        }
      case _ => FailPending(BadFrame);
    }
  }
}
