/**
 * The signaling relay: a WebSocket hub that forwards every message it
 * receives from one connection to every other connection it holds.
 * Connections are identified by an opaque identity `C`; two connections
 * are the same exactly when their identities are equal. Messages are an
 * opaque payload `M`: the relay never looks inside them.
 */
module Relay {

  /** The relay's notion of "same client": identity equality, nothing else. */
  function IsSame<C(==)>(a: C, b: C): (r: bool)
    ensures r ==> a == b && b == a
    ensures a == b ==> r
  {
    a == b
  }

  lemma IsSameIsEquivalence<C>(a: C, b: C, c: C)
    ensures IsSame(a, a)
    ensures IsSame(a, b) == IsSame(b, a)
    ensures IsSame(a, b) && IsSame(b, c) ==> IsSame(a, c)
    ensures IsSame(a, b) <==> a == b
  {
  }

  /** One `client.send(message)` call. */
  datatype Send<C, M> = Send(to: C, payload: M)

  /** No connection is registered twice (the registry is a set). */
  ghost predicate Distinct<C>(s: seq<C>)
  {
    forall i, j :: 0 <= i < j < |s| ==> s[i] != s[j]
  }

  /** Dropping the last client keeps the rest distinct and excludes the dropped one. */
  lemma DistinctInit<C>(s: seq<C>)
    requires Distinct(s) && s != []
    ensures Distinct(s[..|s| - 1]) && s[|s| - 1] !in s[..|s| - 1]
  {
  }

  /**
   * The sends that the fan-out performs for one inbound message, in the
   * order the registry is walked: every client not the sender gets the
   * message, the sender is skipped.
   */
  function Deliveries<C(==), M>(clients: seq<C>, sender: C, message: M): (r: seq<Send<C, M>>)
    ensures |r| <= |clients|
    ensures forall d :: d in r ==> d.to in clients && d.to != sender && d.payload == message
  {
    if clients == [] then []
    else
      var last := clients[|clients| - 1];
      Deliveries(clients[..|clients| - 1], sender, message)
        + (if IsSame(sender, last) then [] else [Send(last, message)])
  }

  /** The payloads, in order, that the sends in `sends` hand to client `c`. */
  function Received<C(==), M>(sends: seq<Send<C, M>>, c: C): seq<M>
  {
    if sends == [] then []
    else
      var last := sends[|sends| - 1];
      Received(sends[..|sends| - 1], c) + (if last.to == c then [last.payload] else [])
  }

  lemma {:induction false} ReceivedAppend<C, M>(a: seq<Send<C, M>>, b: seq<Send<C, M>>, c: C)
    ensures Received(a + b, c) == Received(a, c) + Received(b, c)
  {
    if b == [] {
      assert a + b == a;
    } else {
      assert (a + b)[..|a + b| - 1] == a + b[..|b| - 1];
      ReceivedAppend(a, b[..|b| - 1], c);
    }
  }

  /**
   * Exclusivity, completeness and integrity in one statement: a send to
   * `c` carrying `p` happens exactly when `c` is a registered client other
   * than the sender and `p` is the very message received.
   */
  lemma {:induction false} DeliveredIff<C, M>(clients: seq<C>, sender: C, message: M, c: C, p: M)
    ensures Send(c, p) in Deliveries(clients, sender, message)
        <==> c in clients && c != sender && p == message
  {
    if clients != [] {
      var init := clients[..|clients| - 1];
      assert clients == init + [clients[|clients| - 1]];
      DeliveredIff(init, sender, message, c, p);
    }
  }

  /** The sender never receives its own message back. */
  lemma SenderExcluded<C, M>(clients: seq<C>, sender: C, message: M)
    ensures forall d :: d in Deliveries(clients, sender, message) ==> d.to != sender
  {
    forall d | d in Deliveries(clients, sender, message)
      ensures d.to != sender
    {
      DeliveredIff(clients, sender, message, d.to, d.payload);
    }
  }

  /** The forwarded payload is always the received message, unchanged. */
  lemma PayloadUnchanged<C, M>(clients: seq<C>, sender: C, message: M)
    ensures forall d :: d in Deliveries(clients, sender, message) ==> d.payload == message
  {
    forall d | d in Deliveries(clients, sender, message)
      ensures d.payload == message
    {
      DeliveredIff(clients, sender, message, d.to, d.payload);
    }
  }

  /** With n registered clients: n - 1 sends if the sender is one of them, n otherwise. */
  lemma {:induction false} DeliveriesCount<C, M>(clients: seq<C>, sender: C, message: M)
    requires Distinct(clients)
    ensures |Deliveries(clients, sender, message)|
         == if sender in clients then |clients| - 1 else |clients|
  {
    if clients != [] {
      var init := clients[..|clients| - 1];
      var last := clients[|clients| - 1];
      assert clients == init + [last];
      DistinctInit(clients);
      DeliveriesCount(init, sender, message);
    }
  }

  /**
   * What one client sees: exactly one copy of the message when it is a
   * registered client other than the sender, nothing otherwise.
   */
  lemma {:induction false} ReceivedOnce<C, M>(clients: seq<C>, sender: C, message: M, c: C)
    requires Distinct(clients)
    ensures Received(Deliveries(clients, sender, message), c)
         == if c in clients && c != sender then [message] else []
  {
    if clients != [] {
      var init := clients[..|clients| - 1];
      var last := clients[|clients| - 1];
      assert clients == init + [last];
      DistinctInit(clients);
      ReceivedOnce(init, sender, message, c);
      var tail: seq<Send<C, M>> := if IsSame(sender, last) then [] else [Send(last, message)];
      ReceivedAppend(Deliveries(init, sender, message), tail, c);
      if tail != [] {
        assert tail[..0] == [];
      }
    }
  }

  /**
   * The `forEach` over the registry: walks the clients in order and
   * performs `client.send(message)` for every one that is not the sender.
   */
  method FanOut<C(==), M>(clients: seq<C>, sender: C, message: M) returns (sends: seq<Send<C, M>>)
    ensures sends == Deliveries(clients, sender, message)
    ensures forall c :: c in clients && c != sender ==> Send(c, message) in sends
    ensures forall d :: d in sends ==> d.to in clients && d.to != sender && d.payload == message
  {
    sends := [];
    var i := 0;
    while i < |clients|
      invariant 0 <= i <= |clients|
      invariant sends == Deliveries(clients[..i], sender, message)
    {
      var client := clients[i];
      assert clients[..i + 1][..i] == clients[..i];
      if IsSame(sender, client) {
        // skip sender
      } else {
        sends := sends + [Send(client, message)];
      }
      i := i + 1;
    }
    assert clients[..i] == clients;
    forall c | c in clients && c != sender
      ensures Send(c, message) in sends
    {
      DeliveredIff(clients, sender, message, c, message);
    }
    forall d | d in sends
      ensures d.to in clients && d.to != sender && d.payload == message
    {
      DeliveredIff(clients, sender, message, d.to, d.payload);
    }
  }

  /**
   * The hub's state: the registry of open connections (kept by the
   * WebSocket server) and the log of every `client.send` performed so far.
   */
  class Hub<C(==), M> {
    var clients: seq<C>
    var sent: seq<Send<C, M>>

    ghost predicate Valid()
      reads this
    {
      Distinct(clients)
    }

    constructor ()
      ensures Valid()
      ensures clients == [] && sent == []
    {
      clients := [];
      sent := [];
    }

    /** A new connection is accepted and registered. */
    method Connect(c: C)
      requires Valid()
      modifies this
      ensures Valid()
      ensures c in clients
      ensures clients == if c in old(clients) then old(clients) else old(clients) + [c]
      ensures sent == old(sent)
    {
      if c !in clients {
        clients := clients + [c];
      }
    }

    /** An inbound message from `sender` is fanned out to every other client. */
    method OnMessage(sender: C, message: M)
      requires Valid()
      modifies this`sent
      ensures Valid()
      ensures clients == old(clients)
      ensures sent == old(sent) + Deliveries(clients, sender, message)
      ensures forall c ::
                Received(sent, c) ==
                Received(old(sent), c) + (if c in clients && c != sender then [message] else [])
    {
      var sends := FanOut(clients, sender, message);
      sent := sent + sends;
      forall c
        ensures Received(sent, c)
          == Received(old(sent), c) + (if c in clients && c != sender then [message] else [])
      {
        ReceivedAppend(old(sent), sends, c);
        ReceivedOnce(clients, sender, message, c);
      }
    }
  }
}
