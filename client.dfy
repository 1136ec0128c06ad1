/** The RUDP client: the bounded send-and-wait primitive and the session
    driver (handshake, stop-and-wait DATA transfer, teardown).

    The socket is modelled as a script of responses, one per attempt: what
    recvfrom returns after the attempt's sendto, or a timeout. Attempts past
    the end of the script time out. Sent frames are returned as the list of
    datagrams passed to sendto, in order. */
module Client {
  import opened Codec

  /** RETRIES: attempts per send-and-wait. */
  const Retries: nat := 5
  /** CHUNK: payload bytes per DATA frame. */
  const ChunkSize: nat := 200

  /** What one attempt observes after sending. */
  datatype Response = Timeout | Datagram(bytes: seq<byte>)

  /** How a session ends. */
  datatype Outcome = Closed | HandshakeFailed | ChunkFailed(index: nat) | TeardownFailed

  /** The (tp, s) pair send_recv_with_retry returns on success. */
  datatype Reply = Reply(tp: byte, sq: nat)

  /** The response to attempt j; a script that has run out only times out. */
  function ResponseAt(script: seq<Response>, j: nat): Response
  {
    if j < |script| then script[j] else Timeout
  }

  /** The script left after n attempts have consumed their responses. */
  function Drop(script: seq<Response>, n: nat): (r: seq<Response>)
  {
    if n <= |script| then script[n..] else []
  }

  lemma DropDrop(script: seq<Response>, a: nat, b: nat)
    ensures Drop(Drop(script, a), b) == Drop(script, a + b)
  {
  }

  /** The frame a response decodes to, if any. */
  function Decoded(r: Response): Option<Frame>
  {
    match r
    case Timeout => None
    case Datagram(bytes) => FrameOf(bytes)
  }

  /** The acceptance test of send_recv_with_retry: a well-formed frame whose
      type is expected and, when a sequence is expected, whose sequence is it. */
  predicate Matches(r: Response, types: set<byte>, expectSeq: Option<nat>)
    ensures Matches(r, types, expectSeq) ==> r.Datagram? && |r.bytes| >= HeaderSize
  {
    var d := Decoded(r);
    d.Some? && d.value.tp in types && (expectSeq.None? || d.value.sq == expectSeq.value)
  }

  /** `reply` and `attempts` are what a bounded send-and-wait reports on
      `script`: it stops at the first attempt whose response matches and
      returns that response's (type, sequence); when none of the Retries
      attempts matches it reports failure after all of them. */
  predicate IsFirstMatch(script: seq<Response>, types: set<byte>, expectSeq: Option<nat>,
                         reply: Option<Reply>, attempts: nat)
    ensures IsFirstMatch(script, types, expectSeq, reply, attempts) && reply.Some? ==>
      reply.value.tp in types && (expectSeq.None? || reply.value.sq == expectSeq.value)
  {
    1 <= attempts <= Retries &&
    (forall j :: 0 <= j < attempts - 1 ==> !Matches(ResponseAt(script, j), types, expectSeq)) &&
    (reply.None? ==> attempts == Retries && !Matches(ResponseAt(script, attempts - 1), types, expectSeq)) &&
    (reply.Some? ==>
      Matches(ResponseAt(script, attempts - 1), types, expectSeq) &&
      var f := Decoded(ResponseAt(script, attempts - 1)).value;
      reply.value == Reply(f.tp, f.sq))
  }

  /** The responses the Retries attempts of one send-and-wait observe. */
  function Window(script: seq<Response>): (w: seq<Response>)
    ensures |w| == Retries && forall j :: 0 <= j < Retries ==> w[j] == ResponseAt(script, j)
  {
    seq(Retries, j requires 0 <= j < Retries => ResponseAt(script, j))
  }

  /** Reference definition of waiting over the responses `rs`: the first
      matching one ends the wait; a mismatch moves on to the next attempt. */
  function FirstMatch(rs: seq<Response>, types: set<byte>, expectSeq: Option<nat>): (r: (Option<Reply>, nat))
    requires rs != []
    ensures 1 <= r.1 <= |rs| && (r.0.None? ==> r.1 == |rs|)
    ensures r.0.Some? ==> r.0.value.tp in types && (expectSeq.None? || r.0.value.sq == expectSeq.value)
    decreases |rs|
  {
    if Matches(rs[0], types, expectSeq) then (Some(Reply(Decoded(rs[0]).value.tp, Decoded(rs[0]).value.sq)), 1)
    else if |rs| == 1 then (None, 1)
    else
      var (r, a) := FirstMatch(rs[1..], types, expectSeq);
      (r, a + 1)
  }

  /** The (reply, number of attempts) of a send-and-wait on `script`. */
  function Await(script: seq<Response>, types: set<byte>, expectSeq: Option<nat>): (r: (Option<Reply>, nat))
    ensures 1 <= r.1 <= Retries && (r.0.None? ==> r.1 == Retries)
    ensures r.0.Some? ==> r.0.value.tp in types && (expectSeq.None? || r.0.value.sq == expectSeq.value)
  {
    FirstMatch(Window(script), types, expectSeq)
  }

  /** FirstMatch stops at the first matching response, and reports failure
      only after every response in `rs` has been tried. */
  lemma {:induction false} FirstMatchIsFirst(rs: seq<Response>, types: set<byte>, expectSeq: Option<nat>)
    requires rs != []
    ensures var (r, a) := FirstMatch(rs, types, expectSeq);
      1 <= a <= |rs| &&
      (forall j :: 0 <= j < a - 1 ==> !Matches(rs[j], types, expectSeq)) &&
      (r.None? ==> a == |rs| && !Matches(rs[a - 1], types, expectSeq)) &&
      (r.Some? ==> Matches(rs[a - 1], types, expectSeq) &&
                   r.value == Reply(Decoded(rs[a - 1]).value.tp, Decoded(rs[a - 1]).value.sq))
    decreases |rs|
  {
    if !Matches(rs[0], types, expectSeq) && |rs| > 1 {
      FirstMatchIsFirst(rs[1..], types, expectSeq);
      var (r, a) := FirstMatch(rs[1..], types, expectSeq);
      forall j | 0 <= j < a ensures !Matches(rs[j], types, expectSeq) {
        if j > 0 { assert rs[j] == rs[1..][j - 1]; }
      }
    }
  }

  /** The reference definition and the first-match characterisation agree:
      a send-and-wait has exactly one possible report. */
  lemma AwaitCharacterized(script: seq<Response>, types: set<byte>, expectSeq: Option<nat>,
                           reply: Option<Reply>, attempts: nat)
    ensures IsFirstMatch(script, types, expectSeq, reply, attempts)
        <==> (reply, attempts) == Await(script, types, expectSeq)
  {
    FirstMatchIsFirst(Window(script), types, expectSeq);
  }

  /** send_recv_with_retry: send `pkt`, wait for a matching response, and
      retransmit on a timeout or on a non-matching or malformed response,
      at most Retries times. `sent` lists the datagrams sent. */
  method SendRecvWithRetry(pkt: seq<byte>, script: seq<Response>, types: set<byte>, expectSeq: Option<nat>)
    returns (reply: Option<Reply>, sent: seq<seq<byte>>)
    ensures (reply, |sent|) == Await(script, types, expectSeq)
    ensures sent == Repeat(pkt, |sent|)
  {
    sent := [];
    for attempt := 0 to Retries
      invariant sent == Repeat(pkt, attempt)
      invariant forall j :: 0 <= j < attempt ==> !Matches(ResponseAt(script, j), types, expectSeq)
    {
      sent := sent + [pkt];
      assert sent == Repeat(pkt, attempt + 1);
      var resp := ResponseAt(script, attempt);
      if resp.Datagram? {
        var d := FrameOf(resp.bytes);
        if d.Some? && d.value.tp in types && (expectSeq.None? || d.value.sq == expectSeq.value) {
          reply := Some(Reply(d.value.tp, d.value.sq));
          AwaitCharacterized(script, types, expectSeq, reply, |sent|);
          return;
        }
      }
      assert !Matches(resp, types, expectSeq);
    }
    reply := None;
    AwaitCharacterized(script, types, expectSeq, reply, |sent|);
  }

  // ---------------------------------------------------------------------
  // Chunking

  /** Number of chunks of a `len`-byte message: ceil(len / ChunkSize). */
  function NumChunks(len: nat): nat
  {
    (len + ChunkSize - 1) / ChunkSize
  }

  /** Chunk i: data[off : off + CHUNK] for off = i * CHUNK. */
  function ChunkOf(data: seq<byte>, i: nat): (r: seq<byte>)
    requires i < NumChunks(|data|)
    ensures |r| <= ChunkSize
  {
    data[i * ChunkSize .. Min(i * ChunkSize + ChunkSize, |data|)]
  }

  /** The chunks for off = 0, CHUNK, 2*CHUNK, ... */
  function Chunks(data: seq<byte>): (r: seq<seq<byte>>)
    ensures |r| == NumChunks(|data|)
  {
    seq(NumChunks(|data|), i requires 0 <= i < NumChunks(|data|) => ChunkOf(data, i))
  }

  function Concat(chunks: seq<seq<byte>>): seq<byte>
  {
    if chunks == [] then [] else chunks[0] + Concat(chunks[1..])
  }

  /** A slice of a suffix is a slice of the whole. */
  lemma SliceOfSuffix(data: seq<byte>, n: nat, x: nat, y: nat)
    requires n <= |data| && x <= y <= |data| - n
    ensures data[n..][x..y] == data[n + x..n + y]
  {
    var l, r := data[n..][x..y], data[n + x..n + y];
    assert |l| == |r|;
    forall j | 0 <= j < |l| ensures l[j] == r[j] {
      assert l[j] == data[n + x + j];
    }
  }

  /** Peeling the first chunk off a message leaves the chunks of the rest. */
  lemma ChunksUnfold(data: seq<byte>)
    requires data != []
    ensures Chunks(data) == [data[..Min(ChunkSize, |data|)]] + Chunks(data[Min(ChunkSize, |data|)..])
  {
    var n := Min(ChunkSize, |data|);
    var rest := data[n..];
    var a, b := Chunks(data), [data[..n]] + Chunks(rest);
    assert |a| == |b|;
    forall i | 0 <= i < |a| ensures a[i] == b[i] {
      if i > 0 {
        var k := (i - 1) * ChunkSize;
        assert i * ChunkSize == k + ChunkSize;
        assert n == ChunkSize && k < |rest|;
        var hi := Min(k + ChunkSize, |rest|);
        assert Min(k + ChunkSize + ChunkSize, |data|) == n + hi;
        assert a[i] == data[n + k .. n + hi];
        assert b[i] == rest[k .. hi];
        SliceOfSuffix(data, n, k, hi);
      }
    }
  }

  /** The chunks put back together are the message; every chunk is
      non-empty and at most ChunkSize long, and all but the last are full. */
  lemma {:induction false} ChunksPartition(data: seq<byte>)
    ensures Concat(Chunks(data)) == data
    ensures forall i :: 0 <= i < |Chunks(data)| ==> 0 < |Chunks(data)[i]| <= ChunkSize
    ensures forall i :: 0 <= i < |Chunks(data)| - 1 ==> |Chunks(data)[i]| == ChunkSize
    decreases |data|
  {
    if data != [] {
      var n := Min(ChunkSize, |data|);
      ChunksUnfold(data);
      ChunksPartition(data[n..]);
      assert data == data[..n] + data[n..];
    }
  }

  // ---------------------------------------------------------------------
  // The frames the client sends

  const SynFrame: seq<byte> := Pack(SYN, 0, [])
  const AckFrame: seq<byte> := Pack(ACK, 0, [])
  const FinFrame: seq<byte> := Pack(FIN, 0, [])

  /** Every chunk index fits the 32-bit sequence field. */
  predicate Sendable(data: seq<byte>)
  {
    NumChunks(|data|) <= SeqLimit
  }

  /** DATA(i) carrying chunk i. */
  function DataFrame(data: seq<byte>, i: nat): seq<byte>
    requires Sendable(data) && i < NumChunks(|data|)
  {
    Pack(DATA, i, ChunkOf(data, i))
  }

  /** n copies of one datagram: a frame and its retransmissions. */
  function Repeat(x: seq<byte>, n: nat): (r: seq<seq<byte>>)
    ensures |r| == n
  {
    if n == 0 then [] else Repeat(x, n - 1) + [x]
  }

  // ---------------------------------------------------------------------
  // Reference definition of a session

  /** Phase 3: FIN until FIN_ACK. */
  function Teardown(script: seq<Response>): (r: (Outcome, seq<seq<byte>>))
    ensures r.0 == Closed || r.0 == TeardownFailed
    ensures 1 <= |r.1| <= Retries && r.1 == Repeat(FinFrame, |r.1|)
    ensures r.0 == TeardownFailed ==> |r.1| == Retries
  {
    var (r, a) := Await(script, {FIN_ACK}, None);
    (if r.None? then TeardownFailed else Closed, Repeat(FinFrame, a))
  }

  /** Phase 2 from chunk i on: DATA(i) until DATA_ACK(i), then the next
      chunk; the first chunk whose retries run out ends the session. */
  function Transfer(data: seq<byte>, i: nat, script: seq<Response>): (r: (Outcome, seq<seq<byte>>))
    requires Sendable(data) && i <= NumChunks(|data|)
    ensures !r.0.HandshakeFailed? && (r.0.ChunkFailed? ==> i <= r.0.index < NumChunks(|data|))
    ensures r.0 != Closed ==> |r.1| >= Retries
    decreases NumChunks(|data|) - i
  {
    if i == NumChunks(|data|) then Teardown(script)
    else
      var (r, a) := Await(script, {DATA_ACK}, Some(i));
      var here := Repeat(DataFrame(data, i), a);
      if r.None? then (ChunkFailed(i), here)
      else
        var (o, rest) := Transfer(data, i + 1, Drop(script, a));
        (o, here + rest)
  }

  /** A whole session: SYN until SYN_ACK, one ACK, the transfer, teardown. */
  function Session(data: seq<byte>, script: seq<Response>): (r: (Outcome, seq<seq<byte>>))
    requires Sendable(data)
    ensures r.0.ChunkFailed? ==> r.0.index < NumChunks(|data|)
    ensures r.0 != Closed ==> |r.1| >= Retries
    ensures r.0 == HandshakeFailed <==> Await(script, {SYN_ACK}, None).0.None?
  {
    var (r, a) := Await(script, {SYN_ACK}, None);
    var syns := Repeat(SynFrame, a);
    if r.None? then (HandshakeFailed, syns)
    else
      var (o, rest) := Transfer(data, 0, Drop(script, a));
      (o, syns + ([AckFrame] + rest))
  }

  /** Chunk i exists exactly when its offset i * ChunkSize lies inside the
      message. */
  lemma ChunkAt(data: seq<byte>, i: nat)
    ensures i < NumChunks(|data|) <==> i * ChunkSize < |data|
  {
  }

  /** A session that has sent `sent` and goes on with the transfer from
      chunk i on `script`. */
  function Resume(data: seq<byte>, i: nat, script: seq<Response>, sent: seq<seq<byte>>): (Outcome, seq<seq<byte>>)
    requires Sendable(data) && i <= NumChunks(|data|)
  {
    var r := Transfer(data, i, script);
    (r.0, sent + r.1)
  }

  /** One acknowledged chunk: the transfer continues with the next chunk on
      the rest of the script. */
  lemma ResumeStep(data: seq<byte>, i: nat, script: seq<Response>, a: nat, sent: seq<seq<byte>>)
    requires Sendable(data) && i < NumChunks(|data|)
    requires Await(script, {DATA_ACK}, Some(i)).0.Some? && Await(script, {DATA_ACK}, Some(i)).1 == a
    ensures Resume(data, i, script, sent) == Resume(data, i + 1, Drop(script, a), sent + Repeat(DataFrame(data, i), a))
  {
    var next := Transfer(data, i + 1, Drop(script, a));
    AppendAssoc(sent, Repeat(DataFrame(data, i), a), next.1);
  }

  /** The loop step of SendChunks: chunk i acknowledged after |s| attempts
      moves the resumed transfer to chunk next = i + 1 on the rest of the
      script, `used'` responses in, having sent `sent'`. */
  lemma Advance(data: seq<byte>, i: nat, script: seq<Response>, used: nat, sent: seq<seq<byte>>, s: seq<seq<byte>>,
                total: (Outcome, seq<seq<byte>>), next: nat, used': nat, sent': seq<seq<byte>>)
    requires Sendable(data) && i < NumChunks(|data|)
    requires total == Resume(data, i, Drop(script, used), sent)
    requires Await(Drop(script, used), {DATA_ACK}, Some(i)) == (Await(Drop(script, used), {DATA_ACK}, Some(i)).0, |s|)
    requires Await(Drop(script, used), {DATA_ACK}, Some(i)).0.Some?
    requires s == Repeat(DataFrame(data, i), |s|)
    requires next == i + 1 && used' == used + |s| && sent' == sent + s
    ensures total == Resume(data, next, Drop(script, used'), sent')
  {
    ResumeStep(data, i, Drop(script, used), |s|, sent);
    DropDrop(script, used, |s|);
    assert Drop(Drop(script, used), |s|) == Drop(script, used');
  }

  /** A chunk whose retries run out ends the transfer, having sent its
      DATA frame once per attempt. */
  lemma ChunkFails(data: seq<byte>, i: nat, script: seq<Response>, s: seq<seq<byte>>)
    requires Sendable(data) && i < NumChunks(|data|)
    requires Await(script, {DATA_ACK}, Some(i)) == (None, |s|) && s == Repeat(DataFrame(data, i), |s|)
    ensures Transfer(data, i, script) == (ChunkFailed(i), s)
  {
  }

  /** Phase 2 of main: each chunk in turn, DATA(i) until DATA_ACK(i); the
      first chunk whose retries run out aborts the loop. */
  method SendChunks(data: seq<byte>, script: seq<Response>) returns (failed: Option<nat>, used: nat, sent: seq<seq<byte>>)
    requires Sendable(data)
    ensures failed.Some? ==> Transfer(data, 0, script) == (ChunkFailed(failed.value), sent)
    ensures failed.None? ==> Transfer(data, 0, script) == (Teardown(Drop(script, used)).0, sent + Teardown(Drop(script, used)).1)
  {
    sent, used := [], 0;
    var sq := 0;
    var off := 0;
    ghost var total := Transfer(data, 0, script);
    assert Drop(script, 0) == script;
    assert [] + total.1 == total.1;
    assert total == Resume(data, 0, Drop(script, used), sent);
    while off < |data|
      invariant sq <= NumChunks(|data|) && off == sq * ChunkSize
      invariant total == Resume(data, sq, Drop(script, used), sent)
      decreases |data| - off
    {
      var chunk := data[off..Min(off + ChunkSize, |data|)];
      ChunkAt(data, sq);
      var rest := Drop(script, used);
      var reply, s := SendRecvWithRetry(Pack(DATA, sq, chunk), rest, {DATA_ACK}, Some(sq));
      assert chunk == ChunkOf(data, sq);
      if reply.None? {
        ChunkFails(data, sq, rest, s);
        sent := sent + s;
        failed := Some(sq);
        return;
      }
      ghost var sq0, used0, sent0 := sq, used, sent;
      sent, used, sq, off := sent + s, used + |s|, sq + 1, off + ChunkSize;
      Advance(data, sq0, script, used0, sent0, s, total, sq, used, sent);
    }
    ChunkAt(data, sq);
    failed := None;
  }

  /** The client's main: returns how the session ended and every datagram
      sent, in order. */
  method RunSession(data: seq<byte>, script: seq<Response>) returns (outcome: Outcome, sent: seq<seq<byte>>)
    requires Sendable(data)
    ensures (outcome, sent) == Session(data, script)
  {
    // Phase 1: handshake.
    var reply, syns := SendRecvWithRetry(SynFrame, script, {SYN_ACK}, None);
    assert Await(script, {SYN_ACK}, None) == (reply, |syns|);
    if reply.None? {
      outcome, sent := HandshakeFailed, syns;
      return;
    }
    var rest := Drop(script, |syns|);

    // Phase 2: the chunks.
    var failed, used, datas := SendChunks(data, rest);
    sent := syns + ([AckFrame] + datas);
    assert Session(data, script) == (Transfer(data, 0, rest).0, syns + ([AckFrame] + Transfer(data, 0, rest).1));
    if failed.Some? {
      outcome := ChunkFailed(failed.value);
      return;
    }

    // Phase 3: teardown.
    var fins;
    reply, fins := SendRecvWithRetry(FinFrame, Drop(rest, used), {FIN_ACK}, None);
    outcome := if reply.None? then TeardownFailed else Closed;
    assert Teardown(Drop(rest, used)) == (outcome, fins);
    AppendAssoc([AckFrame], datas, fins);
    AppendAssoc(syns, [AckFrame] + datas, fins);
    sent := sent + fins;
  }
}
