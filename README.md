# RUDP: a verified model of a stop-and-wait reliable UDP client and server

The system is a minimal "reliable UDP" protocol with two programs: a client
(`rudp_client_skeleton.py`) and a single-client server
(`rudp_server_skeleton.py`). Every datagram carries a 7-byte header followed by
a payload. The header holds the type (1 byte), the sequence (4 bytes,
big-endian) and the payload length (2 bytes, big-endian).

A session has three phases:
- **Handshake.** The client sends SYN and waits for SYN_ACK, then sends one
  ACK without waiting.
- **Transfer.** The message is cut into 200-byte chunks. Chunk i goes out as
  DATA(i), and the client waits for DATA_ACK(i).
- **Teardown.** The client sends FIN and waits for FIN_ACK.

Every wait is `send_recv_with_retry`. It sends the frame and reads one
response. It accepts that response if it decodes, has an expected type and,
when a sequence is expected, carries that sequence. Otherwise it sends again,
at most 5 times.

The server keeps `client_addr`, `established` and `expect_seq`:
- It binds the first client that sends SYN and answers SYN_ACK(0).
- The client's ACK establishes the connection.
- In-order DATA is delivered, acknowledged, and advances `expect_seq`.
- Any other DATA is re-acknowledged with `expect_seq - 1` (0 before any), and
  nothing is delivered.
- FIN is answered with FIN_ACK(0) and resets the state for the next client.

The project is made of five modules:

- `codec.dfy` (`Codec`): `pack_msg` and `unpack_msg`, which both programs
  carry as identical copies (client lines 45-54, server lines 20-29). It also
  models the truncation that `recvfrom(2048)` applies.
- `client.dfy` (`Client`):
  - the socket is a *script*: one response per attempt, either `Timeout` or
    `Datagram(bytes)`, and attempts past the end of the script time out;
  - the method `SendRecvWithRetry` is proved equal to a reference
    first-match function;
  - the methods `SendChunks` and `RunSession` are proved equal to the pure
    session definition `Session`, which returns the outcome and every datagram
    sent, in order.
- `client_props.dfy` (`ClientProperties`): what a session sends, in which
  order, how often, and the loss-free run.
- `server.dfy` (`Server`): the receive loop.
  - A pure transition `Next` over a state value `Conn`, with a reachability
    invariant `Consistent`.
  - The class `Responder`, whose `Step` updates its fields in place. The
    payloads the server prints are the ghost sink `delivered`, which holds the
    current connection's payloads in order.
  - `Serve` runs the loop over a finite input sequence.
- `protocol.dfy` (`Protocol`): the two programs together.
  - On a loss-free network, the server delivers the whole message, in order,
    before FIN and ends ready for a new client.
  - Its answers make the client close, having sent each frame exactly once.
  - A lost SYN_ACK leaves the server bound to a client it never answers
    again. This is documented behaviour: the server accepts only the first
    SYN and has no eviction of a half-open peer.

## Model

| member | source | states |
|---|---|---|
| `Codec.U32RoundTrip` | rudp_client_skeleton.py:33-34 | reading back the 4-byte big-endian field that `'!B I H'` writes gives the sequence back, for every value below 2^32 |
| `Codec.U16RoundTrip` | rudp_client_skeleton.py:33-34 | the same for the 2-byte length field, for every value below 2^16 |
| `Codec.Pack` | rudp_client_skeleton.py:45-48 | an encoded frame is 7 + \|payload\| bytes long, starts with the type and ends with the payload unchanged; struct.pack's ranges (sequence < 2^32, length < 2^16) are the precondition |
| `Codec.PackHeader` | rudp_client_skeleton.py:45-48 | bytes 1-4 of an encoded frame read big-endian as the sequence, and bytes 5-6 as the payload length |
| `Codec.Unpack` | rudp_client_skeleton.py:50-54 | decoding fails exactly when the buffer is shorter than the header; a decoded frame has byte 0 as its type, fits the header's ranges, and its payload is a prefix of the bytes after the header |
| `Codec.Received` | rudp_server_skeleton.py:41 | `recvfrom(2048)` yields exactly the first min(\|datagram\|, 2048) bytes of the datagram, so the whole datagram when it fits |
| `Codec.ShortBufferFails` | rudp_server_skeleton.py:25-27 | every buffer shorter than 7 bytes decodes to the failure value |
| `Codec.UnpackFields` | rudp_server_skeleton.py:25-29 | on a buffer holding a whole header, the type is byte 0, the sequence is bytes 1-4 big-endian, and the payload is `pkt[7 : 7+ln]` with length min(ln, \|pkt\| - 7) |
| `Codec.RoundTrip` | rudp_client_skeleton.py:45-54 | decoding an encoded frame, followed by any trailing bytes, gives back exactly its type, sequence and payload |
| `Codec.PackInjective` | rudp_client_skeleton.py:45-48 | two frames with the same encoding are the same frame |
| `Client.Matches` | rudp_client_skeleton.py:67-70 | the acceptance test of one attempt: the response decodes, has an expected type and, when a sequence is expected, that sequence; a matching response is a datagram holding at least a whole header |
| `Client.IsFirstMatch` | rudp_client_skeleton.py:63-74 | the independent description of a send-and-wait's report: 1 to 5 attempts, none before the last matched, failure only after all 5, and a reported (type, sequence) that the caller expects |
| `Client.FirstMatch` | rudp_client_skeleton.py:63-74 | waiting over a list of responses takes 1 to \|list\| attempts, all of them when it fails, and a reply it returns has an expected type and sequence |
| `Client.Await` | rudp_client_skeleton.py:63-74 | `send_recv_with_retry` on a script: 1 to 5 attempts, all 5 on failure, and a returned (type, sequence) always passes the caller's test |
| `Client.FirstMatchIsFirst` | rudp_client_skeleton.py:63-74 | the reference wait stops at the first matching response, all earlier ones fail to match, and it reports failure only after every response has been tried |
| `Client.AwaitCharacterized` | rudp_client_skeleton.py:63-74 | a (reply, attempts) pair satisfies the first-match description of `send_recv_with_retry` if and only if it is what the reference wait computes, so the report is unique |
| `Client.SendRecvWithRetry` | rudp_client_skeleton.py:56-74 | the loop returns the reference wait's reply, having sent the frame once per attempt and nothing else |
| `Client.ChunkOf` | rudp_client_skeleton.py:95-96 | chunk i is `data[200i : 200i+200]` and holds at most 200 bytes |
| `Client.Chunks` | rudp_client_skeleton.py:95-96 | there are ceil(\|data\| / 200) chunks |
| `Client.ChunksUnfold` | rudp_client_skeleton.py:95-96 | the chunks of a message are its first 200 bytes followed by the chunks of the rest |
| `Client.ChunksPartition` | rudp_client_skeleton.py:93-98 | the chunks concatenate back to the message, each is non-empty and at most 200 bytes, and all but the last are exactly 200 bytes |
| `Client.Teardown` | rudp_client_skeleton.py:108-117 | phase 3: FIN sent 1 to 5 times and nothing else; the session closes on FIN_ACK and fails only after all 5 attempts |
| `Client.Transfer` | rudp_client_skeleton.py:92-117 | phase 2 then phase 3 from chunk i: never a handshake failure, a failed chunk is one of i..n-1, and a transfer that did not close sent at least 5 datagrams (that these end in 5 copies of its last frame is `ClientProperties.TransferTrace`) |
| `Client.Session` | rudp_client_skeleton.py:76-119 | the whole of `main`: it fails the handshake exactly when no SYN_ACK arrives, a failed chunk is a real chunk index, and a session that did not close sent at least 5 datagrams (that these end in 5 copies of its last frame is `ClientProperties.SessionTrace`) |
| `Client.ChunkFails` | rudp_client_skeleton.py:99-103 | a chunk whose retries run out ends the session at that chunk, having sent its DATA frame once per attempt |
| `Client.ChunkAt` | rudp_client_skeleton.py:95 | chunk i exists exactly when its offset 200i lies inside the message, so the `off` loop runs once per chunk |
| `Client.ResumeStep` | rudp_client_skeleton.py:99-105 | once DATA(i) is acknowledged after `a` attempts, the session continues with chunk i+1 on the responses not yet consumed |
| `Client.Advance` | rudp_client_skeleton.py:99-105 | the loop invariant of the DATA loop carries over one acknowledged chunk to the updated loop variables |
| `Client.SendChunks` | rudp_client_skeleton.py:92-105 | the DATA loop sends what the reference transfer sends: it stops at the first chunk whose retries run out, reporting that chunk, or it hands over to teardown |
| `Client.RunSession` | rudp_client_skeleton.py:76-119 | the client's main returns exactly the outcome and the datagrams of the reference session |
| `ClientProperties.RemainingLayout` | rudp_client_skeleton.py:95-111 | the loss-free frames from chunk i on are DATA(i), ..., DATA(n-1) in order, then FIN |
| `ClientProperties.IdealLayout` | rudp_client_skeleton.py:81-111 | the loss-free session is n+3 frames: SYN, ACK, DATA(k) at position 2+k for every chunk k, then FIN |
| `ClientProperties.RetransmitsOne` | rudp_client_skeleton.py:63-64 | one frame sent 1 to 5 times is a valid retransmission trace of that frame |
| `ClientProperties.RetransmitsCons` | rudp_client_skeleton.py:63-64 | a frame sent 1 to 5 times in front of a valid trace of later frames is a valid trace of them all |
| `ClientProperties.PlannedPrefix` | rudp_client_skeleton.py:95-111 | the frames a transfer from chunk i gets to send are the loss-free frames up to the one the outcome names, and the unsent ones are exactly the rest |
| `ClientProperties.SessionFramesAreIdeal` | rudp_client_skeleton.py:76-116 | the frames of a session are a prefix of SYN, ACK, DATA(0..n-1), FIN ending at the frame the outcome names, followed in the ideal order by the frames never sent |
| `ClientProperties.TeardownTrace` | rudp_client_skeleton.py:108-116 | teardown sends FIN 1 to 5 times, 5 times when it fails |
| `ClientProperties.TransferTraceStep` | rudp_client_skeleton.py:99-105 | an acknowledged DATA(i) puts its copies in front of the trace of the transfer from chunk i+1 |
| `ClientProperties.TransferTrace` | rudp_client_skeleton.py:92-116 | the transfer from chunk i sends DATA(i), DATA(i+1), ... in order, each 1 to 5 times, and FIN only after every chunk is acknowledged; a failed chunk ends it with no later DATA and no FIN |
| `ClientProperties.SessionTrace` | rudp_client_skeleton.py:76-119 | a session sends SYN, ACK, DATA(0), ..., FIN in this order, each 1 to 5 times in a row except the ACK, which goes out exactly once, and stops after the frame its outcome names: a failed handshake sends nothing but SYN, a failed chunk i nothing after DATA(i); a session that did not close sent its last frame 5 times |
| `ClientProperties.ExpandLength` | rudp_client_skeleton.py:63 | a trace of k frames, each sent at most 5 times, has at most 5k datagrams |
| `ClientProperties.RetryBudget` | rudp_client_skeleton.py:76-119 | a session sends at most 5 (n + 2) + 1 datagrams: 5 per SYN, DATA and FIN frame, and the one ACK |
| `ClientProperties.AwaitHit` | rudp_client_skeleton.py:69-70 | a wait whose first response matches succeeds on its first attempt |
| `ClientProperties.LosslessStep` | rudp_client_skeleton.py:99-105 | when DATA(i) is acknowledged at once, it is sent once and the transfer continues on the next response |
| `ClientProperties.LosslessTeardown` | rudp_client_skeleton.py:109-116 | when FIN is acknowledged at once, the session closes after one FIN |
| `ClientProperties.LosslessInduct` | rudp_client_skeleton.py:95-105 | a transfer whose DATA(i) is acknowledged at once, and which closes from chunk i+1 having sent each later frame once, closes from chunk i having sent DATA(i) once in front |
| `ClientProperties.TransferLossless` | rudp_client_skeleton.py:92-116 | when every DATA and the FIN are acknowledged at once, the transfer closes having sent each remaining frame once |
| `ClientProperties.Lossless` | rudp_client_skeleton.py:76-119 | when every wait's first response matches, the session closes having sent exactly SYN, ACK, DATA(0..n-1), FIN |
| `ClientProperties.ConfiguredMessage` | rudp_client_skeleton.py:37-43 | the configured message, 963 bytes once encoded, goes out at CHUNK = 200 as 5 chunks: 4 full ones and a last one of 163 bytes |
| `Server.Next` | rudp_server_skeleton.py:40-103 | one turn of the receive loop keeps the state consistent: established implies a bound client, nothing is delivered before establishment, and `expect_seq` counts the delivered payloads; every reply goes to the sender of the frame that caused it; while a connection lasts, its client does not change and delivered payloads are never altered, with at most one added per frame |
| `Server.Run` | rudp_server_skeleton.py:40-44 | the loop over any finite input keeps the state consistent and sends at most one datagram per received datagram |
| `Server.Responder.constructor` | rudp_server_skeleton.py:36-38 | the server starts unbound, not established, expecting sequence 0 |
| `Server.Responder.Step` | rudp_server_skeleton.py:41-103 | the in-place update of the loop variables and its reply are the transition `Next` |
| `Server.Responder.Serve` | rudp_server_skeleton.py:40-103 | the loop over an input sequence ends in the state that `Run` computes and has sent the datagrams `Run` lists, in order |
| `Server.ShortFrameIgnored` | rudp_server_skeleton.py:42-44 | a datagram shorter than the header changes nothing and gets no reply |
| `Server.HandshakeStep` | rudp_server_skeleton.py:47-60 | before establishment: SYN with no bound client binds the sender and answers SYN_ACK(0); ACK from the bound client establishes the connection, expecting 0, with no reply; every other frame changes nothing and gets no reply |
| `Server.BoundWaitsForAck` | rudp_server_skeleton.py:47-60 | a bound server that is not yet established ignores every frame except ACK, a repeated SYN from the same client included |
| `Server.OtherSenderIgnored` | rudp_server_skeleton.py:63-65 | once established, frames from any address other than the client's change nothing and get no reply |
| `Server.InOrderDelivery` | rudp_server_skeleton.py:73-84 | in-order DATA is appended to the delivered payloads at its own sequence, acknowledged with that sequence, and advances `expect_seq` by exactly one |
| `Server.OutOfOrderReAck` | rudp_server_skeleton.py:85-90 | DATA with any other sequence is not delivered, changes nothing, and is answered with DATA_ACK of `expect_seq - 1`, or 0 before any delivery |
| `Server.RetransmitReAcked` | rudp_server_skeleton.py:85-90 | a retransmitted copy of the last delivered DATA(k) is answered with DATA_ACK(k) and not delivered again |
| `Server.FinResets` | rudp_server_skeleton.py:95-103 | FIN from the client answers FIN_ACK(0) and resets every loop variable to its start value |
| `Server.OtherTypesIgnored` | rudp_server_skeleton.py:66-104 | once established, frames from the client other than DATA and FIN change nothing and get no reply |
| `Server.DeliveredGrows` | rudp_server_skeleton.py:73-84 | along any run without FIN, the connection stays established with the same client, and every payload delivered earlier stays in place: each sequence is delivered at most once, in order |
| `Protocol.RunAppend` | rudp_server_skeleton.py:40 | running the loop over two batches of input in turn is running it over both |
| `Protocol.ReplyDecodes` | rudp_server_skeleton.py:52 | a header-only reply reaches the client whole and decodes to its type and sequence |
| `Protocol.ReplyMatches` | rudp_client_skeleton.py:68-70 | a server reply of an expected type and sequence passes the client's acceptance test |
| `Protocol.DataDecodes` | rudp_server_skeleton.py:41-42 | DATA(i) reaches the server whole and decodes to sequence i carrying chunk i |
| `Protocol.ServerHandshake` | rudp_server_skeleton.py:47-58 | SYN then ACK from one client bind and establish a fresh server, which answers the SYN only |
| `Protocol.ServerDataStep` | rudp_server_skeleton.py:73-84 | in-order DATA(i) delivers chunk i and is answered DATA_ACK(i) |
| `Protocol.ServerDataPhase` | rudp_server_skeleton.py:68-91 | DATA(i), ..., DATA(n-1) deliver chunks i..n-1 in order and are answered DATA_ACK(i), ..., DATA_ACK(n-1) |
| `Protocol.ServerTeardown` | rudp_server_skeleton.py:95-103 | FIN after the last chunk is answered FIN_ACK(0) and leaves the server as at start-up |
| `Protocol.ServerSession` | rudp_server_skeleton.py:36-103 | a fresh server that receives the loss-free session delivers exactly the chunks of the message, in order, before FIN, and the chunks concatenate to the message; it answers SYN_ACK, DATA_ACK(0..n-1), FIN_ACK and ends ready for a new client |
| `Protocol.AcksReceived` | rudp_server_skeleton.py:83-97 | the server's DATA_ACK(i), ..., FIN_ACK, as the client receives them, acknowledge the transfer from chunk i on at the first attempt |
| `Protocol.Exchange` | rudp_client_skeleton.py:76-119 | on a network that loses nothing, the server's answers make the client close, having sent every frame of the session exactly once |
| `Protocol.SynRetriesUnanswered` | rudp_server_skeleton.py:47-60 | of any number of SYNs from one client, a fresh server answers only the first; it stays bound to that client without a connection, so a lost SYN_ACK cannot be repaired by retransmission |

## Left out

- Sockets. Creating, binding, `sendto`, `recvfrom`, `settimeout` and `close`
  are I/O. The client's received traffic is a script of per-attempt responses
  (`Timeout` or a datagram), and the datagrams it sends are returned as a
  list. The server's inputs are (datagram, sender) pairs, and its
  `sendto` calls are returned as packets. Both receive through `recvfrom(2048)`,
  whose truncation is modelled.
- A socket can hold more than one queued datagram. The script assumes that
  each attempt reads exactly one response, which is what the loop in
  `send_recv_with_retry` does.
- Time.
  - The retransmission timeout (`RTO`) and the `socket.timeout` exception
    appear only as the `Timeout` response.
  - The server's random 100-1000 ms delay before each DATA_ACK
    (`random.randint`, `time.sleep`) has no effect on the protocol state and
    is not modelled.
- Printing.
  - All console output is left out.
  - The UTF-8 decoding of payloads for display is left out.
  - The payloads the server prints are kept as the sink `delivered`, which is
    reset with the rest of the state when a connection ends.
- The `str` branch of `pack_msg`. Payloads are always bytes here: both
  programs pass bytes.
- Configuration. The server host and port, and the demo `MESSAGE` text, are
  left out. The message is a parameter of the session; `ConfiguredMessage`
  checks the chunking of a message of the configured length, 963 bytes.
- `struct.pack` raises an exception for a sequence of 2^32 or more, or a
  payload of 2^16 bytes or more. The model does not cover that crash.
  `Codec.Pack` requires those ranges instead. The client requires a message of
  at most 2^32 chunks (`Sendable`), which keeps every DATA sequence in range.
- The client does not check the source address of a response. The script
  therefore carries no addresses.
