/** Properties of the client's session: the order and number of the
    datagrams it sends, and the loss-free run. */
module ClientProperties {
  import opened Codec
  import opened Client

  /** DATA(i), ..., DATA(n-1), FIN: the loss-free frames from chunk i on. */
  function Remaining(data: seq<byte>, i: nat): seq<seq<byte>>
    requires Sendable(data) && i <= NumChunks(|data|)
    decreases NumChunks(|data|) - i
  {
    if i == NumChunks(|data|) then [FinFrame] else [DataFrame(data, i)] + Remaining(data, i + 1)
  }

  /** The frames of a session on a loss-free network, in order:
      SYN, ACK, DATA(0) ... DATA(n-1), FIN. */
  function Ideal(data: seq<byte>): seq<seq<byte>>
    requires Sendable(data)
  {
    [SynFrame, AckFrame] + Remaining(data, 0)
  }

  lemma {:induction false} RemainingLayout(data: seq<byte>, i: nat)
    requires Sendable(data) && i <= NumChunks(|data|)
    ensures |Remaining(data, i)| == NumChunks(|data|) - i + 1
    ensures Remaining(data, i)[NumChunks(|data|) - i] == FinFrame
    ensures forall k :: i <= k < NumChunks(|data|) ==> Remaining(data, i)[k - i] == DataFrame(data, k)
    decreases NumChunks(|data|) - i
  {
    if i < NumChunks(|data|) {
      RemainingLayout(data, i + 1);
      var r, q := Remaining(data, i), Remaining(data, i + 1);
      assert r == [DataFrame(data, i)] + q;
      forall j | 0 < j < |r| ensures r[j] == q[j - 1] { }
    }
  }

  /** The ideal session has n + 3 frames: SYN, ACK, DATA(k) at position
      2 + k for every chunk k, and FIN last. */
  lemma IdealLayout(data: seq<byte>)
    requires Sendable(data)
    ensures |Ideal(data)| == NumChunks(|data|) + 3
    ensures Ideal(data)[0] == SynFrame && Ideal(data)[1] == AckFrame
    ensures forall k :: 0 <= k < NumChunks(|data|) ==> Ideal(data)[2 + k] == DataFrame(data, k)
    ensures Ideal(data)[NumChunks(|data|) + 2] == FinFrame
  {
    RemainingLayout(data, 0);
    var r := Remaining(data, 0);
    forall k | 0 <= k <= NumChunks(|data|) ensures Ideal(data)[2 + k] == r[k] { }
  }

  /** The ideal frames a session ending in `o` never got to send: after a
      failed handshake everything from ACK on, after failed chunk j the
      frames from DATA(j+1) on, otherwise nothing. */
  function Unsent(data: seq<byte>, o: Outcome): seq<seq<byte>>
    requires Sendable(data)
  {
    match o
    case HandshakeFailed => [AckFrame] + Remaining(data, 0)
    case ChunkFailed(j) => if j < NumChunks(|data|) then Remaining(data, j + 1) else []
    case TeardownFailed => []
    case Closed => []
  }

  /** Each frame repeated its count of times, in order. */
  function Expand(frames: seq<seq<byte>>, counts: seq<nat>): seq<seq<byte>>
    requires |frames| == |counts|
    decreases |frames|
  {
    if frames == [] then [] else Repeat(frames[0], counts[0]) + Expand(frames[1..], counts[1..])
  }

  /** Every count is a possible number of attempts of one send-and-wait. */
  predicate WithinRetries(counts: seq<nat>)
  {
    forall k :: 0 <= k < |counts| ==> 1 <= counts[k] <= Retries
  }

  /** `sent` is `frames` in order, each sent between 1 and Retries times in
      a row; when `failed`, the last frame was sent all Retries times. */
  ghost predicate Retransmits(frames: seq<seq<byte>>, sent: seq<seq<byte>>, failed: bool)
  {
    exists counts: seq<nat> :: SentAs(frames, counts, sent, failed)
  }

  /** `sent` is `frames` sent `counts` times each, as Retransmits requires. */
  predicate SentAs(frames: seq<seq<byte>>, counts: seq<nat>, sent: seq<seq<byte>>, failed: bool)
  {
    |counts| == |frames| && WithinRetries(counts) && sent == Expand(frames, counts) &&
    (failed && counts != [] ==> counts[|counts| - 1] == Retries)
  }

  /** One frame sent `a` times. */
  lemma RetransmitsOne(x: seq<byte>, a: nat, failed: bool)
    requires 1 <= a <= Retries && (failed ==> a == Retries)
    ensures Retransmits([x], Repeat(x, a), failed)
  {
    assert [x][1..] == [] && [a][1..] == [];
    assert Repeat(x, a) + [] == Repeat(x, a);
    assert Expand([x], [a]) == Repeat(x, a);
    assert SentAs([x], [a], Repeat(x, a), failed);
  }

  lemma ExpandCons(x: seq<byte>, a: nat, frames: seq<seq<byte>>, counts: seq<nat>)
    requires |frames| == |counts|
    ensures Expand([x] + frames, [a] + counts) == Repeat(x, a) + Expand(frames, counts)
  {
    assert ([x] + frames)[1..] == frames && ([a] + counts)[1..] == counts;
  }

  /** A frame sent `a` times in front of frames sent `counts` times each. */
  lemma SentAsCons(x: seq<byte>, a: nat, frames: seq<seq<byte>>, counts: seq<nat>, rest: seq<seq<byte>>, failed: bool)
    requires 1 <= a <= Retries && frames != [] && SentAs(frames, counts, rest, failed)
    ensures SentAs([x] + frames, [a] + counts, Repeat(x, a) + rest, failed)
  {
    var c := [a] + counts;
    ExpandCons(x, a, frames, counts);
    forall k | 0 <= k < |c| ensures 1 <= c[k] <= Retries {
      if k > 0 { assert c[k] == counts[k - 1]; }
    }
    assert c[|c| - 1] == counts[|counts| - 1];
  }

  /** A frame sent `a` times in front of a retransmitted sequence. */
  lemma RetransmitsCons(x: seq<byte>, a: nat, frames: seq<seq<byte>>, rest: seq<seq<byte>>, failed: bool)
    requires 1 <= a <= Retries && frames != [] && Retransmits(frames, rest, failed)
    ensures Retransmits([x] + frames, Repeat(x, a) + rest, failed)
  {
    var counts: seq<nat> :| SentAs(frames, counts, rest, failed);
    SentAsCons(x, a, frames, counts, rest, failed);
    assert SentAs([x] + frames, [a] + counts, Repeat(x, a) + rest, failed);
  }

  /** The frames the transfer from chunk i on sends, in order, when the
      session ends in `o`: DATA(i), DATA(i+1), ... up to the chunk that
      failed, or every remaining chunk and then FIN. */
  function Planned(data: seq<byte>, i: nat, o: Outcome): seq<seq<byte>>
    requires Sendable(data) && i <= NumChunks(|data|)
    decreases NumChunks(|data|) - i
  {
    if i == NumChunks(|data|) then [FinFrame]
    else if o == ChunkFailed(i) then [DataFrame(data, i)]
    else [DataFrame(data, i)] + Planned(data, i + 1, o)
  }

  /** The frames a session ending in `o` sends, in order. */
  function SessionFrames(data: seq<byte>, o: Outcome): seq<seq<byte>>
    requires Sendable(data)
  {
    if o == HandshakeFailed then [SynFrame] else [SynFrame] + ([AckFrame] + Planned(data, 0, o))
  }

  /** The planned frames are the frames from DATA(i) on up to the one the
      outcome names; the unsent ones follow them. */
  lemma {:induction false} PlannedPrefix(data: seq<byte>, i: nat, o: Outcome)
    requires Sendable(data) && i <= NumChunks(|data|)
    requires !o.HandshakeFailed? && (o.ChunkFailed? ==> i <= o.index < NumChunks(|data|))
    ensures Planned(data, i, o) + Unsent(data, o) == Remaining(data, i)
    decreases NumChunks(|data|) - i
  {
    if i < NumChunks(|data|) && o != ChunkFailed(i) {
      PlannedPrefix(data, i + 1, o);
      AppendAssoc([DataFrame(data, i)], Planned(data, i + 1, o), Unsent(data, o));
    }
  }

  /** `sent` is what a session ending in `o` sends: its frames in order,
      each 1 to Retries times as Retransmits says, except the ACK, which
      waits for no response and goes out exactly once. */
  ghost predicate SessionSent(data: seq<byte>, o: Outcome, sent: seq<seq<byte>>)
    requires Sendable(data)
  {
    exists counts: seq<nat> :: SentAs(SessionFrames(data, o), counts, sent, o != Closed) &&
      (|counts| > 1 ==> counts[1] == 1)
  }

  /** The frames a session sends are the ideal frames up to the one the
      outcome names, and the unsent frames are the rest. */
  lemma SessionFramesAreIdeal(data: seq<byte>, o: Outcome)
    requires Sendable(data) && (o.ChunkFailed? ==> o.index < NumChunks(|data|))
    ensures SessionFrames(data, o) + Unsent(data, o) == Ideal(data)
  {
    if o != HandshakeFailed {
      PlannedPrefix(data, 0, o);
      AppendAssoc([AckFrame], Planned(data, 0, o), Unsent(data, o));
      AppendAssoc([SynFrame], [AckFrame] + Planned(data, 0, o), Unsent(data, o));
    }
  }

  lemma RepeatOnce(x: seq<byte>)
    ensures Repeat(x, 1) == [x]
  {
    assert [] + [x] == [x];
  }

  /** What TransferTrace states about the transfer from chunk i. */
  ghost predicate TransferShape(data: seq<byte>, i: nat, o: Outcome, sent: seq<seq<byte>>)
    requires Sendable(data) && i <= NumChunks(|data|)
  {
    !o.HandshakeFailed? &&
    (o.ChunkFailed? ==> i <= o.index < NumChunks(|data|)) &&
    Retransmits(Planned(data, i, o), sent, o != Closed)
  }

  /** Teardown: FIN sent 1 to Retries times, all of them if it failed. */
  lemma TeardownTrace(data: seq<byte>, script: seq<Response>)
    requires Sendable(data)
    ensures TransferShape(data, NumChunks(|data|), Teardown(script).0, Teardown(script).1)
  {
    var (r, a) := Await(script, {FIN_ACK}, None);
    RetransmitsOne(FinFrame, a, r.None?);
  }

  /** One chunk acknowledged: the shape of the rest of the transfer carries
      over with DATA(i) in front. */
  lemma TransferTraceStep(data: seq<byte>, i: nat, a: nat, o: Outcome, rest: seq<seq<byte>>)
    requires Sendable(data) && i < NumChunks(|data|) && 1 <= a <= Retries
    requires TransferShape(data, i + 1, o, rest)
    ensures TransferShape(data, i, o, Repeat(DataFrame(data, i), a) + rest)
  {
    RetransmitsCons(DataFrame(data, i), a, Planned(data, i + 1, o), rest, o != Closed);
  }

  /** The transfer from chunk i on sends DATA(i), DATA(i+1), ... in order,
      each 1 to Retries times, then FIN; a failed chunk or teardown ends it
      after Retries copies of the last frame. */
  lemma {:induction false} TransferTrace(data: seq<byte>, i: nat, script: seq<Response>)
    requires Sendable(data) && i <= NumChunks(|data|)
    ensures TransferShape(data, i, Transfer(data, i, script).0, Transfer(data, i, script).1)
    decreases NumChunks(|data|) - i
  {
    if i == NumChunks(|data|) {
      TeardownTrace(data, script);
    } else {
      var (r, a) := Await(script, {DATA_ACK}, Some(i));
      if r.None? {
        RetransmitsOne(DataFrame(data, i), a, true);
      } else {
        TransferTrace(data, i + 1, Drop(script, a));
        var (o, rest) := Transfer(data, i + 1, Drop(script, a));
        TransferTraceStep(data, i, a, o, rest);
      }
    }
  }

  /** A session sends SYN, ACK, DATA(0), ..., DATA(n-1), FIN in this order,
      each 1 to Retries times in a row except the ACK, which goes out exactly
      once, and stops after the frame the outcome names (SYN for a failed
      handshake, DATA(i) for a failed chunk i, FIN otherwise); a session
      that did not close sent its last frame all Retries times. */
  lemma SessionTrace(data: seq<byte>, script: seq<Response>)
    requires Sendable(data)
    ensures var (o, sent) := Session(data, script);
      (o.ChunkFailed? ==> o.index < NumChunks(|data|)) &&
      SessionSent(data, o, sent) &&
      SessionFrames(data, o) + Unsent(data, o) == Ideal(data)
  {
    var (o, sent) := Session(data, script);
    var (r, a) := Await(script, {SYN_ACK}, None);
    if r.None? {
      assert o == HandshakeFailed && sent == Repeat(SynFrame, a);
      RetransmitsOne(SynFrame, a, true);
      var counts: seq<nat> :| SentAs([SynFrame], counts, sent, true);
      assert SentAs(SessionFrames(data, o), counts, sent, o != Closed);
    } else {
      var (o', rest) := Transfer(data, 0, Drop(script, a));
      TransferTrace(data, 0, Drop(script, a));
      assert o == o' && TransferShape(data, 0, o, rest) && sent == Repeat(SynFrame, a) + ([AckFrame] + rest);
      var planned := Planned(data, 0, o);
      var counts: seq<nat> :| SentAs(planned, counts, rest, o != Closed);
      RepeatOnce(AckFrame);
      SentAsCons(AckFrame, 1, planned, counts, rest, o != Closed);
      SentAsCons(SynFrame, a, [AckFrame] + planned, [1] + counts, [AckFrame] + rest, o != Closed);
      var all := [a] + ([1] + counts);
      assert all[1] == 1;
      assert SentAs(SessionFrames(data, o), all, sent, o != Closed);
    }
    SessionFramesAreIdeal(data, o);
  }

  lemma {:induction false} ExpandLength(frames: seq<seq<byte>>, counts: seq<nat>)
    requires |frames| == |counts| && WithinRetries(counts)
    ensures |Expand(frames, counts)| <= Retries * |counts|
    decreases |frames|
  {
    if frames != [] {
      ExpandLength(frames[1..], counts[1..]);
    }
  }

  /** Frames sent `counts` times each, the second of them once, make at
      most Retries datagrams per frame plus one. */
  lemma {:induction false} ExpandSecondOnce(frames: seq<seq<byte>>, counts: seq<nat>)
    requires |frames| == |counts| >= 2 && WithinRetries(counts) && counts[1] == 1
    ensures |Expand(frames, counts)| <= Retries * (|counts| - 1) + 1
  {
    var tail, tailCounts := frames[1..][1..], counts[1..][1..];
    assert WithinRetries(tailCounts) by {
      forall k | 0 <= k < |tailCounts| ensures 1 <= tailCounts[k] <= Retries {
        assert tailCounts[k] == counts[k + 2];
      }
    }
    ExpandLength(tail, tailCounts);
  }

  /** Retry budget: a session sends at most Retries datagrams per frame of
      the loss-free session, except the ACK, which it sends once. */
  lemma RetryBudget(data: seq<byte>, script: seq<Response>)
    requires Sendable(data)
    ensures |Session(data, script).1| <= Retries * (NumChunks(|data|) + 2) + 1
  {
    var (o, sent) := Session(data, script);
    SessionTrace(data, script);
    var frames := SessionFrames(data, o);
    var counts: seq<nat> :| SentAs(frames, counts, sent, o != Closed) && (|counts| > 1 ==> counts[1] == 1);
    IdealLayout(data);
    assert |frames| <= NumChunks(|data|) + 3 by {
      assert |frames + Unsent(data, o)| == |Ideal(data)|;
    }
    if o == HandshakeFailed {
      ExpandLength(frames, counts);
    } else {
      ExpandSecondOnce(frames, counts);
    }
  }

  // ---------------------------------------------------------------------
  // The loss-free run

  /** The responses of `script` acknowledge DATA(i), ..., DATA(n-1) and then
      FIN, one response each, on their first attempt. */
  predicate AcksFrom(data: seq<byte>, i: nat, script: seq<Response>)
    requires Sendable(data) && i <= NumChunks(|data|)
    decreases NumChunks(|data|) - i
  {
    script != [] &&
    if i == NumChunks(|data|) then Matches(script[0], {FIN_ACK}, None)
    else Matches(script[0], {DATA_ACK}, Some(i)) && AcksFrom(data, i + 1, script[1..])
  }

  /** A send-and-wait whose first response matches takes one attempt. */
  lemma AwaitHit(script: seq<Response>, types: set<byte>, expectSeq: Option<nat>)
    requires script != [] && Matches(script[0], types, expectSeq)
    ensures Await(script, types, expectSeq).0.Some? && Await(script, types, expectSeq).1 == 1
  {
    assert Window(script)[0] == script[0];
  }

  /** A loss-free transfer step: DATA(i) is acknowledged at once and the
      transfer goes on with the next response. */
  lemma LosslessStep(data: seq<byte>, i: nat, script: seq<Response>)
    requires Sendable(data) && i < NumChunks(|data|) && AcksFrom(data, i, script)
    ensures Transfer(data, i, script).0 == Transfer(data, i + 1, script[1..]).0
    ensures Transfer(data, i, script).1 == [DataFrame(data, i)] + Transfer(data, i + 1, script[1..]).1
  {
    AwaitHit(script, {DATA_ACK}, Some(i));
    assert Drop(script, 1) == script[1..];
    RepeatOnce(DataFrame(data, i));
  }

  /** A loss-free teardown: FIN is acknowledged at once. */
  lemma LosslessTeardown(data: seq<byte>, i: nat, script: seq<Response>)
    requires Sendable(data) && i == NumChunks(|data|) && AcksFrom(data, i, script)
    ensures Transfer(data, i, script).0 == Closed
    ensures Transfer(data, i, script).1 == [FinFrame]
  {
    AwaitHit(script, {FIN_ACK}, None);
    RepeatOnce(FinFrame);
  }

  /** The induction step of TransferLossless: a loss-free transfer from
      chunk i + 1 that closes extends to one from chunk i. */
  lemma LosslessInduct(data: seq<byte>, i: nat, script: seq<Response>)
    requires Sendable(data) && i < NumChunks(|data|) && AcksFrom(data, i, script)
    requires Transfer(data, i + 1, script[1..]).0 == Closed
    requires Transfer(data, i + 1, script[1..]).1 == Planned(data, i + 1, Closed)
    ensures Transfer(data, i, script).0 == Closed
    ensures Transfer(data, i, script).1 == Planned(data, i, Closed)
  {
    LosslessStep(data, i, script);
    assert Planned(data, i, Closed) == [DataFrame(data, i)] + Planned(data, i + 1, Closed);
  }

  /** A transfer whose every frame is acknowledged at once closes the
      session having sent the remaining planned frames once each. */
  lemma {:induction false} TransferLossless(data: seq<byte>, i: nat, script: seq<Response>)
    requires Sendable(data) && i <= NumChunks(|data|) && AcksFrom(data, i, script)
    ensures Transfer(data, i, script).0 == Closed
    ensures Transfer(data, i, script).1 == Planned(data, i, Closed)
    decreases NumChunks(|data|) - i
  {
    if i == NumChunks(|data|) {
      LosslessTeardown(data, i, script);
    } else {
      TransferLossless(data, i + 1, script[1..]);
      LosslessInduct(data, i, script);
    }
  }

  /** On a network that loses nothing, with a server that acknowledges every
      frame on its first arrival, the session closes having sent each ideal
      frame exactly once. */
  lemma Lossless(data: seq<byte>, script: seq<Response>)
    requires Sendable(data) && script != [] && Matches(script[0], {SYN_ACK}, None)
    requires AcksFrom(data, 0, script[1..])
    ensures Session(data, script).0 == Closed
    ensures Session(data, script).1 == Ideal(data)
  {
    AwaitHit(script, {SYN_ACK}, None);
    assert Drop(script, 1) == script[1..];
    TransferLossless(data, 0, script[1..]);
    RepeatOnce(SynFrame);
    SessionFramesAreIdeal(data, Closed);
    assert SessionFrames(data, Closed) + [] == SessionFrames(data, Closed);
  }

  /** The configured message, 963 bytes once encoded, goes out as five
      chunks: four full ones of 200 bytes and a last one of 163 bytes. */
  lemma ConfiguredMessage(data: seq<byte>)
    requires |data| == 963
    ensures NumChunks(|data|) == 5
    ensures forall i :: 0 <= i < 4 ==> |ChunkOf(data, i)| == ChunkSize
    ensures |ChunkOf(data, 4)| == 163
  {
  }
}
