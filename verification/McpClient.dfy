/**
 The MCP client's state and its critical sections, updated in place. Each method is one step of
 McpProtocol on the client's state, so what is proved there of every run holds of the client.
 */
module McpClient {
  import opened McpProtocol

  class Client {
    var nextID: nat
    var pending: map<nat, nat>
    var closed: bool
    var chans: seq<Channel>
    // where each caller and the pump stand
    var calls: seq<Call>
    var pump: Pump

    constructor ()
      ensures View() == INIT && Inv(View())
    {
      nextID, pending, closed, chans, calls, pump := 0, map[], false, [], [], Idle;
      new;
      InitInv();
    }

    ghost function View(): State
      reads this
    {
      State(nextID, pending, closed, calls, chans, pump)
    }

    /** call: takes the next request id and makes the response channel. */
    method BeginCall() returns (c: nat)
      requires Inv(View())
      modifies this
      ensures Inv(View()) && View() == Next(old(View()), Begin)
      ensures InPhase(View(), c, Encoding) && calls[c].id == nextID
    {
      StepInv(View(), Begin);
      nextID := nextID + 1;
      c := |calls|;
      calls := calls + [Call(nextID, Encoding)];
      chans := chans + [Channel([], false, [], 0)];
    }

    /** call: under the lock, enters the channel into the map unless the client is closed. */
    method RegisterCall(c: nat) returns (ok: bool)
      requires Inv(View()) && InPhase(View(), c, Encoding)
      modifies this
      ensures Inv(View()) && View() == Next(old(View()), Register(c))
      ensures ok == !old(closed) && (!ok ==> InPhase(View(), c, Done(Refused)))
    {
      StepInv(View(), Register(c));
      if closed {
        calls := calls[c := calls[c].(phase := Done(Refused))];
        return false;
      }
      pending := pending[calls[c].id := c];
      calls := calls[c := calls[c].(phase := Sending)];
      return true;
    }

    /** call: after a failed send, takes the entry out again. */
    method ForgetCall(c: nat)
      requires Inv(View()) && InPhase(View(), c, Forgetting)
      modifies this
      ensures Inv(View()) && View() == Next(old(View()), Forget(c))
    {
      StepInv(View(), Forget(c));
      pending := pending - {calls[c].id};
      calls := calls[c := calls[c].(phase := Done(SendFailed))];
    }

    /** call: takes from the response channel once it holds a response or is closed. */
    method ReceiveCall(c: nat, decodes: bool) returns (o: Outcome)
      requires Inv(View()) && Enabled(View(), Receive(c, decodes))
      modifies this
      ensures Inv(View()) && View() == Next(old(View()), Receive(c, decodes))
      ensures o == calls[c].phase.outcome
      ensures o.Succeeded? ==> o.msg.id == calls[c].id && !o.msg.fault
    {
      StepInv(View(), Receive(c, decodes));
      assert CallInv(Next(View(), Receive(c, decodes)), c);
      var ch := chans[c];
      if ch.buffer == [] {
        o := Disconnected;
      } else {
        var msg := ch.buffer[0];
        chans := chans[c := ch.(buffer := ch.buffer[1..])];
        o := if msg.fault then Faulted(msg) else if decodes then Succeeded(msg) else Undecodable(msg);
      }
      calls := calls[c := calls[c].(phase := Done(o))];
      assert old(View()).chans[c := old(chans[c])] == old(chans);
    }

    /** call: the select's other branch, when the context ends first; the entry stays in the map. */
    method CancelCall(c: nat)
      requires Inv(View()) && InPhase(View(), c, Waiting)
      modifies this
      ensures Inv(View()) && View() == Next(old(View()), Cancel(c))
      ensures calls[c].phase == Done(Cancelled) && pending == old(pending) && chans == old(chans)
    {
      StepInv(View(), Cancel(c));
      calls := calls[c := calls[c].(phase := Done(Cancelled))];
    }

    /** pump: under the lock, moves the channel a response is for from the map into the pump's hand. */
    method RouteResponse(msg: Message)
      requires Inv(View()) && pump.Idle?
      modifies this
      ensures Inv(View()) && View() == Next(old(View()), Route(msg))
    {
      StepInv(View(), Route(msg));
      if msg.id in pending {
        pump := Holding(pending[msg.id], msg);
        pending := pending - {msg.id};
      }
    }

    /** pump: outside the lock, sends the response and closes the channel. */
    method DeliverResponse()
      requires Inv(View()) && pump.Holding?
      modifies this
      ensures Inv(View()) && pump.Idle?
      ensures Enabled(old(View()), Deliver) && Enabled(Next(old(View()), Deliver), Finish)
      ensures View() == Next(Next(old(View()), Deliver), Finish)
    {
      assert CallInv(View(), pump.chan);
      StepInv(View(), Deliver);
      StepInv(Next(View(), Deliver), Finish);
      var c := pump.chan;
      chans := chans[c := chans[c].(buffer := chans[c].buffer + [pump.msg], sent := chans[c].sent + [pump.msg])];
      pump := Finishing(c);
      chans := chans[c := CloseChannel(chans[c])];
      pump := Idle;
    }

    /** The critical section of Close. */
    method CloseClient()
      requires Inv(View())
      modifies this
      ensures Inv(View()) && View() == Next(old(View()), Close)
    {
      StepInv(View(), Close);
      closed := true;
      DrainPending(old(View()));
    }

    /** The loop over the map that Close and the pump's exit share: closes each pending channel, none twice. */
    method DrainPending(ghost s: State)
      requires Inv(s) && s.pending == pending && s.chans == chans
      modifies this`pending, this`chans
      ensures pending == map[] && chans == CloseAll(s.chans, s.pending)
    {
      while pending != map[]
        invariant |chans| == |s.chans|
        invariant forall id | id in pending :: id in s.pending && pending[id] == id - 1
        invariant forall c | 0 <= c < |chans| ::
                    chans[c] == if InMap(s, c) && c + 1 !in pending then CloseChannel(s.chans[c]) else s.chans[c]
        decreases pending.Keys
      {
        var id :| id in pending;
        var c := pending[id];
        assert CallInv(s, c);
        assert !chans[c].closed;
        chans := chans[c := CloseChannel(chans[c])];
        pending := pending - {id};
      }
      forall c | 0 <= c < |chans|
        ensures chans[c] == CloseAll(s.chans, s.pending)[c]
      {
        CloseAllAt(s, c);
      }
    }

    /** pump: after the transport closed, unblocks whoever still waits; `closed` stays as it was. */
    method PumpExit()
      requires Inv(View()) && pump.Idle?
      modifies this
      ensures Inv(View()) && View() == Next(old(View()), Exit)
    {
      StepInv(View(), Exit);
      DrainPending(View());
      pump := Exited;
    }
  }
}
