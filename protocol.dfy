/** The client and the server together on a network that loses nothing:
    the server, fed the client's loss-free frames, delivers the message and
    answers every frame the client waits for; the client, fed those
    answers, closes the session. */
module Protocol {
  import opened Codec
  import opened Client
  import opened ClientProperties
  import opened Server

  /** The datagrams `frames`, each sent from `a`. */
  function From(frames: seq<seq<byte>>, a: Addr): (r: seq<(seq<byte>, Addr)>)
    ensures |r| == |frames|
    decreases |frames|
  {
    if frames == [] then [] else [(frames[0], a)] + From(frames[1..], a)
  }

  /** The server's packets as the client's socket receives them. */
  function Responses(ps: seq<Packet>): (r: seq<Response>)
    ensures |r| == |ps|
    decreases |ps|
  {
    if ps == [] then [] else [Datagram(ps[0].bytes)] + Responses(ps[1..])
  }

  /** DATA(i), ..., DATA(n-1). */
  function DataFrom(data: seq<byte>, i: nat): seq<seq<byte>>
    requires Sendable(data) && i <= NumChunks(|data|)
    decreases NumChunks(|data|) - i
  {
    if i == NumChunks(|data|) then [] else [DataFrame(data, i)] + DataFrom(data, i + 1)
  }

  /** DATA_ACK(i), ..., DATA_ACK(n-1), all sent to `a`. */
  function DataAcks(data: seq<byte>, a: Addr, i: nat): seq<Packet>
    requires Sendable(data) && i <= NumChunks(|data|)
    decreases NumChunks(|data|) - i
  {
    if i == NumChunks(|data|) then [] else [ReplyTo(a, DATA_ACK, i)] + DataAcks(data, a, i + 1)
  }

  /** What the server sends in a loss-free session with the client at `a`:
      SYN_ACK(0), DATA_ACK(0), ..., DATA_ACK(n-1), FIN_ACK(0). */
  function ServerReplies(data: seq<byte>, a: Addr): seq<Packet>
    requires Sendable(data)
  {
    [ReplyTo(a, SYN_ACK, 0)] + DataAcks(data, a, 0) + [ReplyTo(a, FIN_ACK, 0)]
  }

  /** The server established with the client at `a`, the first i chunks
      delivered. */
  function Streaming(data: seq<byte>, a: Addr, i: nat): (c: Conn)
    requires Sendable(data) && i <= NumChunks(|data|)
    ensures Consistent(c)
  {
    Conn(Some(a), true, i, Chunks(data)[..i])
  }

  // ---------------------------------------------------------------------
  // Sequence plumbing

  lemma FromAppend(x: seq<seq<byte>>, y: seq<seq<byte>>, a: Addr)
    ensures From(x + y, a) == From(x, a) + From(y, a)
    decreases |x|
  {
    if x != [] {
      assert (x + y)[1..] == x[1..] + y;
      FromAppend(x[1..], y, a);
    } else {
      assert x + y == y;
    }
  }

  lemma ResponsesAppend(x: seq<Packet>, y: seq<Packet>)
    ensures Responses(x + y) == Responses(x) + Responses(y)
    decreases |x|
  {
    if x != [] {
      assert (x + y)[1..] == x[1..] + y;
      ResponsesAppend(x[1..], y);
    } else {
      assert x + y == y;
    }
  }

  /** The receive loop over two batches of input is the loop over the first
      followed by the loop over the second. */
  lemma {:induction false} RunAppend(c: Conn, xs: seq<(seq<byte>, Addr)>, ys: seq<(seq<byte>, Addr)>)
    requires Consistent(c)
    ensures Run(c, xs + ys).0 == Run(Run(c, xs).0, ys).0
    ensures Run(c, xs + ys).1 == Run(c, xs).1 + Run(Run(c, xs).0, ys).1
    decreases |xs|
  {
    if xs == [] {
      assert xs + ys == ys;
    } else {
      assert (xs + ys)[0] == xs[0] && (xs + ys)[1..] == xs[1..] + ys;
      var step := Next(c, xs[0].0, xs[0].1);
      var c1 := step.0;
      RunAppend(c1, xs[1..], ys);
      var head: seq<Packet> := if step.1.Some? then [step.1.value] else [];
      AppendAssoc(head, Run(c1, xs[1..]).1, Run(Run(c1, xs[1..]).0, ys).1);
    }
  }

  /** The ideal frames are the handshake, the data frames and FIN. */
  lemma {:induction false} RemainingSplit(data: seq<byte>, i: nat)
    requires Sendable(data) && i <= NumChunks(|data|)
    ensures Remaining(data, i) == DataFrom(data, i) + [FinFrame]
    decreases NumChunks(|data|) - i
  {
    if i < NumChunks(|data|) {
      RemainingSplit(data, i + 1);
      AppendAssoc([DataFrame(data, i)], DataFrom(data, i + 1), [FinFrame]);
    }
  }

  // ---------------------------------------------------------------------
  // Decoding the frames on the wire

  /** A header-only frame arrives whole and decodes to its type and sequence. */
  lemma ReplyDecodes(tp: byte, sq: nat)
    requires sq < SeqLimit
    ensures Unpack(Received(Pack(tp, sq, []))) == Some(Frame(tp, sq, []))
  {
    RoundTrip(tp, sq, [], []);
    assert Pack(tp, sq, []) + [] == Pack(tp, sq, []);
  }

  /** A server reply of an expected type and sequence passes the client's
      acceptance test. */
  lemma ReplyMatches(a: Addr, tp: byte, sq: nat, types: set<byte>, expectSeq: Option<nat>)
    requires sq < SeqLimit && tp in types && (expectSeq.None? || expectSeq.value == sq)
    ensures Matches(Datagram(ReplyTo(a, tp, sq).bytes), types, expectSeq)
  {
    ReplyDecodes(tp, sq);
  }

  /** DATA(i) arrives whole and decodes to sequence i carrying chunk i. */
  lemma DataDecodes(data: seq<byte>, i: nat)
    requires Sendable(data) && i < NumChunks(|data|)
    ensures FrameOf(DataFrame(data, i)) == Some(Frame(DATA, i, ChunkOf(data, i)))
  {
    RoundTrip(DATA, i, ChunkOf(data, i), []);
    assert DataFrame(data, i) + [] == DataFrame(data, i);
  }

  // ---------------------------------------------------------------------
  // The server's side

  /** SYN then ACK from `a` bind and establish a fresh server, which answers
      the SYN only. */
  lemma ServerHandshake(data: seq<byte>, a: Addr)
    requires Sendable(data)
    ensures Run(Fresh(), From([SynFrame, AckFrame], a)) == (Streaming(data, a, 0), [ReplyTo(a, SYN_ACK, 0)])
  {
    ReplyDecodes(SYN, 0);
    ReplyDecodes(ACK, 0);
    var c1 := Conn(Some(a), false, 0, []);
    assert Next(Fresh(), SynFrame, a) == (c1, Some(ReplyTo(a, SYN_ACK, 0)));
    assert Next(c1, AckFrame, a) == (Streaming(data, a, 0), None);
    var xs, ys := From([SynFrame, AckFrame], a), From([AckFrame], a);
    assert [SynFrame, AckFrame][1..] == [AckFrame];
    assert xs[0] == (SynFrame, a) && xs[1..] == ys;
    assert ys[0] == (AckFrame, a) && ys[1..] == [];
    assert Run(c1, ys) == (Streaming(data, a, 0), []);
    assert [ReplyTo(a, SYN_ACK, 0)] + [] == [ReplyTo(a, SYN_ACK, 0)];
  }

  /** In-order DATA(i) delivers chunk i and is acknowledged. */
  lemma ServerDataStep(data: seq<byte>, a: Addr, i: nat)
    requires Sendable(data) && i < NumChunks(|data|)
    ensures Next(Streaming(data, a, i), DataFrame(data, i), a)
         == (Streaming(data, a, i + 1), Some(ReplyTo(a, DATA_ACK, i)))
  {
    DataDecodes(data, i);
    assert Chunks(data)[..i] + [ChunkOf(data, i)] == Chunks(data)[..i + 1];
  }

  /** DATA(i), ..., DATA(n-1) deliver the remaining chunks in order, each
      acknowledged with its own sequence. */
  lemma {:induction false} ServerDataPhase(data: seq<byte>, a: Addr, i: nat)
    requires Sendable(data) && i <= NumChunks(|data|)
    ensures Run(Streaming(data, a, i), From(DataFrom(data, i), a)).0 == Streaming(data, a, NumChunks(|data|))
    ensures Run(Streaming(data, a, i), From(DataFrom(data, i), a)).1 == DataAcks(data, a, i)
    decreases NumChunks(|data|) - i
  {
    if i < NumChunks(|data|) {
      ServerDataStep(data, a, i);
      ServerDataPhase(data, a, i + 1);
      var frames := DataFrom(data, i);
      assert frames[0] == DataFrame(data, i) && frames[1..] == DataFrom(data, i + 1);
    }
  }

  /** FIN from the client closes the connection with FIN_ACK(0). */
  lemma ServerTeardown(data: seq<byte>, a: Addr)
    requires Sendable(data)
    ensures Run(Streaming(data, a, NumChunks(|data|)), From([FinFrame], a)) == (Fresh(), [ReplyTo(a, FIN_ACK, 0)])
  {
    ReplyDecodes(FIN, 0);
    assert From([FinFrame], a)[1..] == [];
    assert [ReplyTo(a, FIN_ACK, 0)] + [] == [ReplyTo(a, FIN_ACK, 0)];
  }

  /** A fresh server fed the loss-free session from `a` delivers every chunk
      of the message in order before FIN arrives, answers SYN, each DATA
      and FIN once, and ends ready for a new client. */
  lemma ServerSession(data: seq<byte>, a: Addr)
    requires Sendable(data)
    ensures var upToFin := Run(Fresh(), From([SynFrame, AckFrame] + DataFrom(data, 0), a)).0;
      upToFin.established && upToFin.clientAddr == Some(a) &&
      upToFin.delivered == Chunks(data) && Concat(upToFin.delivered) == data
    ensures Run(Fresh(), From(Ideal(data), a)) == (Fresh(), ServerReplies(data, a))
  {
    var n := NumChunks(|data|);
    var hs, ds := [SynFrame, AckFrame], DataFrom(data, 0);
    ServerHandshake(data, a);
    ServerDataPhase(data, a, 0);
    ServerTeardown(data, a);
    FromAppend(hs, ds, a);
    RunAppend(Fresh(), From(hs, a), From(ds, a));
    assert Chunks(data)[..n] == Chunks(data);
    ChunksPartition(data);

    RemainingSplit(data, 0);
    assert Ideal(data) == (hs + ds) + [FinFrame];
    FromAppend(hs + ds, [FinFrame], a);
    RunAppend(Fresh(), From(hs + ds, a), From([FinFrame], a));
  }

  // ---------------------------------------------------------------------
  // The client's side, answered by the server

  /** DATA_ACK(i), ..., then FIN_ACK, as received, acknowledge the transfer
      from chunk i on. */
  lemma {:induction false} AcksReceived(data: seq<byte>, a: Addr, i: nat)
    requires Sendable(data) && i <= NumChunks(|data|)
    ensures AcksFrom(data, i, Responses(DataAcks(data, a, i) + [ReplyTo(a, FIN_ACK, 0)]))
    decreases NumChunks(|data|) - i
  {
    var fin := ReplyTo(a, FIN_ACK, 0);
    if i == NumChunks(|data|) {
      ReplyMatches(a, FIN_ACK, 0, {FIN_ACK}, None);
      assert DataAcks(data, a, i) + [fin] == [fin];
      ResponsesCons(fin, []);
    } else {
      var ack := ReplyTo(a, DATA_ACK, i);
      var rest := DataAcks(data, a, i + 1) + [fin];
      ReplyMatches(a, DATA_ACK, i, {DATA_ACK}, Some(i));
      AcksReceived(data, a, i + 1);
      AppendAssoc([ack], DataAcks(data, a, i + 1), [fin]);
      ResponsesCons(ack, rest);
    }
  }

  lemma ResponsesCons(p: Packet, ps: seq<Packet>)
    ensures Responses([p] + ps)[0] == Datagram(p.bytes)
    ensures Responses([p] + ps)[1..] == Responses(ps)
  {
    assert ([p] + ps)[1..] == ps;
  }

  /** End to end: a client at `a` whose every datagram reaches a fresh
      server, and whose every wait sees the server's answer, closes the
      session having sent each frame once; the server has delivered the
      whole message and is ready for the next client. */
  lemma Exchange(data: seq<byte>, a: Addr)
    requires Sendable(data)
    ensures Run(Fresh(), From(Ideal(data), a)) == (Fresh(), ServerReplies(data, a))
    ensures Session(data, Responses(ServerReplies(data, a))) == (Closed, Ideal(data))
  {
    ServerSession(data, a);
    var acks := DataAcks(data, a, 0) + [ReplyTo(a, FIN_ACK, 0)];
    var script := Responses(ServerReplies(data, a));
    assert ServerReplies(data, a) == [ReplyTo(a, SYN_ACK, 0)] + acks;
    ResponsesAppend([ReplyTo(a, SYN_ACK, 0)], acks);
    ReplyMatches(a, SYN_ACK, 0, {SYN_ACK}, None);
    assert script[0] == Datagram(ReplyTo(a, SYN_ACK, 0).bytes);
    assert script[1..] == Responses(acks);
    AcksReceived(data, a, 0);
    Lossless(data, script);
  }

  // ---------------------------------------------------------------------
  // A lost SYN_ACK

  /** Once the first SYN from `a` has bound the server, retransmitted SYNs
      from `a` are never answered: if the one SYN_ACK is lost, the client's
      handshake cannot succeed, and the server stays bound to `a` without a
      connection. */
  lemma {:induction false} SynRetriesUnanswered(a: Addr, k: nat)
    ensures Run(Fresh(), From(Repeat(SynFrame, k + 1), a)) == (Conn(Some(a), false, 0, []), [ReplyTo(a, SYN_ACK, 0)])
  {
    var bound := Conn(Some(a), false, 0, []);
    ReplyDecodes(SYN, 0);
    assert From([SynFrame], a)[1..] == [];
    assert Next(Fresh(), SynFrame, a) == (bound, Some(ReplyTo(a, SYN_ACK, 0)));
    assert Next(bound, SynFrame, a) == (bound, None);
    assert [ReplyTo(a, SYN_ACK, 0)] + [] == [ReplyTo(a, SYN_ACK, 0)];
    if k == 0 {
      assert Repeat(SynFrame, 1) == [SynFrame];
    } else {
      SynRetriesUnanswered(a, k - 1);
      FromAppend(Repeat(SynFrame, k), [SynFrame], a);
      RunAppend(Fresh(), From(Repeat(SynFrame, k), a), From([SynFrame], a));
      assert [ReplyTo(a, SYN_ACK, 0)] + [] == [ReplyTo(a, SYN_ACK, 0)];
    }
  }
}
