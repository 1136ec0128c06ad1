/** The RUDP server: a single-client, stop-and-wait receiver. Each received
    datagram drives one step of a small state machine over the bound client
    address, the established flag and the next expected DATA sequence. The
    payloads the server prints are modelled as the sink `delivered`. */
module Server {
  import opened Codec

  /** A UDP peer address (host, port). */
  datatype Addr = Addr(host: seq<char>, port: nat)

  /** A datagram the server sends, and its destination. */
  datatype Packet = Packet(dest: Addr, bytes: seq<byte>)

  /** The server's state: the loop variables client_addr, established and
      expect_seq, and the payloads delivered on the current connection. */
  datatype Conn = Conn(clientAddr: Option<Addr>, established: bool, expectSeq: nat, delivered: seq<seq<byte>>)

  /** The state at start-up and after every teardown. */
  function Fresh(): Conn
  {
    Conn(None, false, 0, [])
  }

  /** What every reachable state satisfies: an established connection has a
      bound client; before it is established nothing has been delivered; the
      next expected sequence counts the delivered payloads. */
  predicate Consistent(c: Conn)
  {
    (c.established ==> c.clientAddr.Some?) &&
    (!c.established ==> c.expectSeq == 0 && c.delivered == []) &&
    |c.delivered| == c.expectSeq && c.expectSeq <= SeqLimit
  }

  /** The reply frame (type, sequence) with an empty payload, sent to `dest`. */
  function ReplyTo(dest: Addr, tp: byte, sq: nat): Packet
    requires sq < SeqLimit
  {
    Packet(dest, Pack(tp, sq, []))
  }

  /** The sequence a rejected DATA frame is re-acknowledged with: the last
      in-order one, or 0 before any. */
  function LastInOrder(expectSeq: nat): nat
  {
    if expectSeq > 0 then expectSeq - 1 else 0
  }

  /** One turn of the receive loop: the state after handling `datagram` from
      `addr`, and the reply sent, if any. A reply always goes back to the
      sender; while a connection lasts, delivered payloads are never changed
      and at most one is added. */
  function Next(c: Conn, datagram: seq<byte>, addr: Addr): (r: (Conn, Option<Packet>))
    requires Consistent(c)
    ensures Consistent(r.0)
    ensures r.1.Some? ==> r.1.value.dest == addr
    ensures c.established && r.0.established ==>
      r.0.clientAddr == c.clientAddr && c.delivered <= r.0.delivered && |r.0.delivered| <= |c.delivered| + 1
  {
    var f := Unpack(Received(datagram));
    if f.None? then (c, None)
    else
      var tp, sq, pl := f.value.tp, f.value.sq, f.value.payload;
      if !c.established then
        if tp == SYN && c.clientAddr.None? then
          (c.(clientAddr := Some(addr)), Some(ReplyTo(addr, SYN_ACK, 0)))
        else if tp == ACK && c.clientAddr == Some(addr) then
          (c.(established := true, expectSeq := 0), None)
        else (c, None)
      else if c.clientAddr.Some? && addr != c.clientAddr.value then (c, None)
      else if tp == DATA then
        if sq == c.expectSeq then
          (c.(expectSeq := c.expectSeq + 1, delivered := c.delivered + [pl]),
           Some(ReplyTo(c.clientAddr.value, DATA_ACK, sq)))
        else
          (c, Some(ReplyTo(c.clientAddr.value, DATA_ACK, LastInOrder(c.expectSeq))))
      else if tp == FIN then (Fresh(), Some(ReplyTo(c.clientAddr.value, FIN_ACK, 0)))
      else (c, None)
  }

  /** The receive loop over a finite sequence of (datagram, sender) inputs:
      the final state and the datagrams sent, in order. */
  function Run(c: Conn, inputs: seq<(seq<byte>, Addr)>): (r: (Conn, seq<Packet>))
    requires Consistent(c)
    ensures Consistent(r.0) && |r.1| <= |inputs|
    decreases |inputs|
  {
    if inputs == [] then (c, [])
    else
      var step := Next(c, inputs[0].0, inputs[0].1);
      var tail := Run(step.0, inputs[1..]);
      (tail.0, (if step.1.Some? then [step.1.value] else []) + tail.1)
  }

  /** The server's main loop state, updated in place. */
  class Responder {
    var clientAddr: Option<Addr>
    var established: bool
    var expectSeq: nat
    /** The payloads delivered on the current connection (printed). */
    ghost var delivered: seq<seq<byte>>

    ghost function State(): Conn
      reads this
    {
      Conn(clientAddr, established, expectSeq, delivered)
    }

    ghost predicate Valid()
      reads this
    {
      Consistent(State())
    }

    constructor ()
      ensures Valid() && State() == Fresh()
    {
      clientAddr, established, expectSeq := None, false, 0;
      delivered := [];
    }

    /** The body of the receive loop for one datagram from `addr`. */
    method Step(datagram: seq<byte>, addr: Addr) returns (reply: Option<Packet>)
      requires Valid()
      modifies this
      ensures Valid()
      ensures (State(), reply) == Next(old(State()), datagram, addr)
    {
      reply := None;
      var f := Unpack(Received(datagram));
      if f.None? {
        return;
      }
      var tp, sq, pl := f.value.tp, f.value.sq, f.value.payload;

      // Handshake.
      if !established {
        if tp == SYN && clientAddr.None? {
          clientAddr := Some(addr);
          reply := Some(Packet(addr, Pack(SYN_ACK, 0, [])));
          return;
        }
        if tp == ACK && clientAddr == Some(addr) {
          established := true;
          expectSeq := 0;
          return;
        }
        return;
      }

      // Other senders are ignored once a client is bound.
      if clientAddr.Some? && addr != clientAddr.value {
        return;
      }

      // Data.
      if tp == DATA {
        if sq == expectSeq {
          delivered := delivered + [pl];
          reply := Some(Packet(clientAddr.value, Pack(DATA_ACK, sq, [])));
          expectSeq := expectSeq + 1;
        } else {
          var lastInOrder := if expectSeq > 0 then expectSeq - 1 else 0;
          reply := Some(Packet(clientAddr.value, Pack(DATA_ACK, lastInOrder, [])));
        }
        return;
      }

      // Teardown.
      if tp == FIN {
        reply := Some(Packet(clientAddr.value, Pack(FIN_ACK, 0, [])));
        established, clientAddr, expectSeq := false, None, 0;
        delivered := [];
        return;
      }
    }

    /** The receive loop over `inputs`: every datagram in turn. */
    method Serve(inputs: seq<(seq<byte>, Addr)>) returns (sent: seq<Packet>)
      requires Valid()
      modifies this
      ensures Valid()
      ensures (State(), sent) == Run(old(State()), inputs)
    {
      sent := [];
      ghost var start := State();
      assert inputs[0..] == inputs && [] + Run(start, inputs).1 == Run(start, inputs).1;
      for k := 0 to |inputs|
        invariant Valid()
        invariant Run(start, inputs).0 == Run(State(), inputs[k..]).0
        invariant Run(start, inputs).1 == sent + Run(State(), inputs[k..]).1
      {
        RunStep(State(), inputs[k..], sent);
        var reply := Step(inputs[k].0, inputs[k].1);
        assert inputs[k..][1..] == inputs[k + 1..];
        if reply.Some? {
          sent := sent + [reply.value];
        }
      }
      assert inputs[|inputs|..] == [] && sent + [] == sent;
    }
  }

  /** Unfolding Run by one input, with `sent` already sent. */
  lemma RunStep(c: Conn, inputs: seq<(seq<byte>, Addr)>, sent: seq<Packet>)
    requires Consistent(c) && inputs != []
    ensures var step := Next(c, inputs[0].0, inputs[0].1);
      Run(c, inputs).0 == Run(step.0, inputs[1..]).0 &&
      sent + Run(c, inputs).1 == (if step.1.Some? then sent + [step.1.value] else sent) + Run(step.0, inputs[1..]).1
  {
    var step := Next(c, inputs[0].0, inputs[0].1);
    var head: seq<Packet> := if step.1.Some? then [step.1.value] else [];
    AppendAssoc(sent, head, Run(step.0, inputs[1..]).1);
  }

  // ---------------------------------------------------------------------
  // Properties of one step

  /** A datagram shorter than the header changes nothing and gets no reply. */
  lemma ShortFrameIgnored(c: Conn, datagram: seq<byte>, addr: Addr)
    requires Consistent(c) && |datagram| < HeaderSize
    ensures Next(c, datagram, addr) == (c, None)
  {
  }

  /** Handshake: while not established, the server answers exactly one
      frame, a SYN when no client is bound, by binding the sender and
      replying SYN_ACK(0); an ACK from the bound client establishes the
      connection expecting DATA(0); everything else, a repeated SYN from the
      bound client included, is ignored. */
  lemma HandshakeStep(c: Conn, datagram: seq<byte>, addr: Addr)
    requires Consistent(c) && !c.established && FrameOf(datagram).Some?
    ensures var tp := FrameOf(datagram).value.tp;
      Next(c, datagram, addr) ==
        if tp == SYN && c.clientAddr.None? then (Conn(Some(addr), false, 0, []), Some(ReplyTo(addr, SYN_ACK, 0)))
        else if tp == ACK && c.clientAddr == Some(addr) then (Conn(Some(addr), true, 0, []), None)
        else (c, None)
  {
  }

  /** A server that bound a client but has not seen its ACK ignores every
      other frame from it, SYN and DATA included. */
  lemma BoundWaitsForAck(c: Conn, datagram: seq<byte>, addr: Addr)
    requires Consistent(c) && !c.established && c.clientAddr.Some?
    requires FrameOf(datagram).Some? ==> FrameOf(datagram).value.tp != ACK
    ensures Next(c, datagram, addr) == (c, None)
  {
  }

  /** Once established, frames from any address but the client's change
      nothing and get no reply. */
  lemma OtherSenderIgnored(c: Conn, datagram: seq<byte>, addr: Addr)
    requires Consistent(c) && c.established && c.clientAddr != Some(addr)
    ensures Next(c, datagram, addr) == (c, None)
  {
  }

  /** In-order DATA from the client is delivered once, acknowledged with its
      own sequence, and advances the expected sequence by one. */
  lemma InOrderDelivery(c: Conn, datagram: seq<byte>)
    requires Consistent(c) && c.established
    requires FrameOf(datagram).Some? && FrameOf(datagram).value.tp == DATA
    requires FrameOf(datagram).value.sq == c.expectSeq
    ensures var f := FrameOf(datagram).value;
      var (c1, reply) := Next(c, datagram, c.clientAddr.value);
      c1 == c.(expectSeq := c.expectSeq + 1, delivered := c.delivered + [f.payload]) &&
      c1.delivered[f.sq] == f.payload &&
      reply == Some(ReplyTo(c.clientAddr.value, DATA_ACK, f.sq))
  {
  }

  /** Out-of-order DATA from the client is not delivered, leaves the state
      alone and is answered with DATA_ACK of the last in-order sequence
      (0 before any). */
  lemma OutOfOrderReAck(c: Conn, datagram: seq<byte>)
    requires Consistent(c) && c.established
    requires FrameOf(datagram).Some? && FrameOf(datagram).value.tp == DATA
    requires FrameOf(datagram).value.sq != c.expectSeq
    ensures Next(c, datagram, c.clientAddr.value) ==
      (c, Some(ReplyTo(c.clientAddr.value, DATA_ACK, LastInOrder(c.expectSeq))))
  {
  }

  /** A retransmission of the last delivered DATA (its acknowledgement was
      lost) is acknowledged again with its own sequence and not delivered
      twice. */
  lemma RetransmitReAcked(c: Conn, datagram: seq<byte>)
    requires Consistent(c) && c.established && c.expectSeq > 0
    requires FrameOf(datagram).Some? && FrameOf(datagram).value.tp == DATA
    requires FrameOf(datagram).value.sq == c.expectSeq - 1
    ensures Next(c, datagram, c.clientAddr.value) ==
      (c, Some(ReplyTo(c.clientAddr.value, DATA_ACK, FrameOf(datagram).value.sq)))
  {
  }

  /** FIN from the client ends the connection: the state is reset and
      FIN_ACK(0) is sent back. */
  lemma FinResets(c: Conn, datagram: seq<byte>)
    requires Consistent(c) && c.established
    requires FrameOf(datagram).Some? && FrameOf(datagram).value.tp == FIN
    ensures Next(c, datagram, c.clientAddr.value) == (Fresh(), Some(ReplyTo(c.clientAddr.value, FIN_ACK, 0)))
  {
  }

  /** Once established, frames from the client other than DATA and FIN
      (a late SYN or ACK, say) are ignored. */
  lemma OtherTypesIgnored(c: Conn, datagram: seq<byte>)
    requires Consistent(c) && c.established
    requires FrameOf(datagram).Some? && FrameOf(datagram).value.tp != DATA && FrameOf(datagram).value.tp != FIN
    ensures Next(c, datagram, c.clientAddr.value) == (c, None)
  {
  }

  /** Along any run that keeps one connection open, the payloads delivered
      before stay delivered, in place: each sequence is delivered at most
      once and in order. */
  lemma {:induction false} DeliveredGrows(c: Conn, inputs: seq<(seq<byte>, Addr)>)
    requires Consistent(c) && c.established
    requires forall k :: 0 <= k < |inputs| ==> FrameOf(inputs[k].0).Some? ==> FrameOf(inputs[k].0).value.tp != FIN
    ensures Run(c, inputs).0.established
    ensures c.delivered <= Run(c, inputs).0.delivered
    ensures Run(c, inputs).0.clientAddr == c.clientAddr
    decreases |inputs|
  {
    if inputs != [] {
      var (c1, _) := Next(c, inputs[0].0, inputs[0].1);
      assert c1.established;
      forall k | 0 <= k < |inputs[1..]| ensures FrameOf(inputs[1..][k].0).Some? ==> FrameOf(inputs[1..][k].0).value.tp != FIN {
        assert inputs[1..][k] == inputs[k + 1];
      }
      DeliveredGrows(c1, inputs[1..]);
    }
  }
}
