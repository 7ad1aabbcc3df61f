# A model of the aimjel/minecraft proxy core

This project models, in Dafny, the sequential logic at the heart of the
Minecraft proxy in `proxy.go`, together with two packet codecs.

- **`start`**: decodes the client's handshake and dispatches on its next
  state. A status request is either answered by the proxy itself or relayed
  to the target server. A login is forwarded to the target, followed by the
  login phase and the play-session relay. Any other state is ignored:
  `start` returns and leaves the client connection open.
- **`handleLogin`**: forwards the client's login start, then consumes the
  server's login packets.
  - `0x01` (encryption request) closes both connections and fails.
  - `0x02` (login success) stores the identity on both connections and hands
    the packet to the client.
  - `0x03` (set compression) hands the packet to the client and then enables
    compression on both sides.
  - Any other ID is skipped.
- **`proxy`**: switches the client connection to the server-bound packet pool
  and relays packets in both directions through the optional `OnReceive`
  filter. Each direction stops at its first failed read or send.
- **`PlayerChatMessage`** (`packet/player_chat_message.go`): its ID, its
  unimplemented decoder, and its encoder. The encoder has conditional-presence
  rules for the signature, previous messages, unsigned content, filter bits
  and target name.
- **`PluginMessage`** (`packet/plugin_message.go`): its ID, its encoder (a
  string then a byte array), and its panicking decoder.

Modules:

| module | file | contents |
|---|---|---|
| `Common` | `common.dfy` | `Option`, bounded integer types, int32 wrap-around, errors, Go call outcomes |
| `Wire` | `wire.dfy` | the packet writer as an append-only trace of typed write calls, with failing positions |
| `PluginMessages` | `plugin_message.dfy` | plugin message ID, encoder, decoder |
| `PlayerChat` | `player_chat_message.dfy` | chat message ID, decoder, encoder, an independent reader `Parse` of the encoding |
| `Packets` | `packets.dfy` | the packets the proxy handles; the decoders it calls, as a `Codec` parameter |
| `Connections` | `connections.dfy` | connections as immutable records, the `ProxyConn` pair, the event trace and its per-side logs |
| `Relay` | `relay.dfy` | one relay direction (`Pump`), the relay phase (`Proxy`), and the FIFO-filter specification |
| `Login` | `login.dfy` | `HandleLogin`, the upstream loop `AwaitUpstream` and its one-packet step `React` |
| `Proxy` | `proxy.dfy` | `Start` and the whole-connection properties |

Conventions of the model:

- A connection is three things:
  - the packets its peer will still deliver (`input`); a read past the end
    fails, as a read from a peer that hung up does;
  - how many more packets its peer accepts (`room`); a send fails on a
    closed connection or when `room` is 0;
  - the session state the proxy changes: compression threshold, identity,
    closed flag, packet pool.
- Everything done to the two connections is recorded in one event trace:
  reads, attempted sends with their outcome, compression switches, and
  closes.
- The relay-direction specification compares four logs of that trace with
  the reference filter `Kept`: the packets read, the send attempts, the
  deliveries, and what is left unread.
- The packet writer records every call, including a failing one. A set of
  positions says which calls the sink rejects.

## Model

| member | source | states |
|---|---|---|
| PluginMessages.Id | packet/plugin_message.go:10-12 | the plugin message's packet ID is 0x17 |
| PluginMessages.Encode | packet/plugin_message.go:19-22 | exactly two writes are appended, and an independent reader recovers the channel and data from them; the result is an error iff the second (byte-array) write fails; the sink's fault positions are untouched |
| PluginMessages.ChannelWriteErrorIgnored | packet/plugin_message.go:20-21 | whether the channel-string write fails makes no difference to Encode's result or writes: that error is discarded |
| PluginMessages.Decode | packet/plugin_message.go:14-17 | decoding panics on every input |
| PlayerChat.Id | packet/player_chat_message.go:33-35 | the chat message's packet ID is 0x35 |
| PlayerChat.Decode | packet/player_chat_message.go:37-40 | decoding fails with NotImplemented and leaves the receiver unchanged, whatever the input |
| PlayerChat.Encode | packet/player_chat_message.go:42-89 | Encode always returns nil, keeps what was written before, and appends writes that an independent reader parses back, with nothing left over, as exactly the message's intended view |
| PlayerChat.ChatRoundTrip | packet/player_chat_message.go:42-89 | the whole encoding, read section by section, yields the message's view: header, body, previous messages, unsigned content, trailer, and nothing after the trailer |
| PlayerChat.HeaderRoundTrip | packet/player_chat_message.go:43-50 | the header reads back as sender, index, and the signature present exactly when it is non-nil (an empty non-nil signature counts as present), leaving the rest of the input |
| PlayerChat.BodyRoundTrip | packet/player_chat_message.go:52-54 | the body reads back as message, timestamp and salt, in that order |
| PlayerChat.PreviousRoundTrip | packet/player_chat_message.go:56-62 | the previous-message section is an entry count followed by the entries, and it reads back as one view per entry, in order |
| PlayerChat.EntriesRoundTrip | packet/player_chat_message.go:57-62 | each entry is its ID plus one in int32 arithmetic, with the signature following exactly when that value is 0; the entries read back in order, and what follows is left untouched |
| PlayerChat.ShiftedIdZeroIff | packet/player_chat_message.go:58-59 | the shifted ID is 0 iff the ID is -1; the largest int32 ID wraps to the smallest int32, not to 0 |
| PlayerChat.PreviousMessageExamples | packet/player_chat_message.go:58-61 | ID -1 is written as 0 followed by the signature; ID 5 is written as 6 alone |
| PlayerChat.UnsignedRoundTrip | packet/player_chat_message.go:64-77 | unsigned content is present iff it is non-empty; the filter type appears only with it, and the counted filter bits appear only when the filter type is 2 |
| PlayerChat.LongsRoundTrip | packet/player_chat_message.go:70-73 | the filter bits are written one Int64 each, in order, and read back unchanged |
| PlayerChat.TrailerRoundTrip | packet/player_chat_message.go:79-88 | the trailer is the chat type, the wrapped network name, and the wrapped target name iff it is non-empty; nothing follows it |
| Relay.Pump | proxy.go:197-232 | one relay direction never closes a connection and changes neither identity nor the client's packet pool; what it reads and sends is stated by PumpIsFifoFilter |
| Relay.PumpIsFifoFilter | proxy.go:197-232 | one relay direction is a FIFO filter. It reads a prefix of its source. It attempts to send, in order, the kept packets of that prefix, up to one more than the destination accepts, and delivers those the destination accepts. It reads to the end of its source when every kept packet fits; otherwise it stops right after the first kept packet whose send fails, even when only dropped packets follow |
| Relay.FifoFilterUnique | proxy.go:217-232 | the FIFO-filter specification admits exactly one run for a given source, callback and destination room: one split into read and unread packets, one attempt log and one delivery log |
| Relay.DropCase | proxy.go:223-226 | a packet the callback rejects is read and not sent, and the loop goes on with the next packet |
| Relay.FailCase | proxy.go:229-231 | a kept packet whose send fails is the last packet read; the loop stops |
| Relay.DeliverCase | proxy.go:217-232 | a kept packet that is delivered is followed by the rest of the loop on the remaining input |
| Relay.DroppedStep | proxy.go:223-226 | the filter specification is preserved when a rejected packet is prepended to the source |
| Relay.FailedStep | proxy.go:229-231 | a read of a kept packet followed by a failed send meets the filter specification with the rest of the source unread |
| Relay.DeliveredStep | proxy.go:217-232 | the filter specification is preserved when a delivered packet is prepended to the source and to the attempt and delivery logs |
| Relay.DeliverCompose | proxy.go:218-232 | the delivered-step rule, read off the trace events of a read followed by a successful send |
| Relay.PumpDeliversAllKept | proxy.go:197-232 | when the destination accepts everything, a direction consumes its whole source and delivers exactly the kept packets in order; with a nil callback that is the whole source |
| Relay.KeptWithoutHook | proxy.go:223-227 | a nil callback keeps every packet |
| Relay.PumpFrame | proxy.go:197-232 | a relay direction changes only what is read from its source, the destination's remaining room, and the trace; it only appends reads from the source and sends to the destination |
| Relay.PumpKeepsConns | proxy.go:197-232 | a relay direction changes nothing on either connection except the source's remaining input and the destination's remaining room |
| Relay.PumpAppendsRelays | proxy.go:197-232 | a relay direction keeps the trace so far and appends only reads from its source and sends to its destination |
| Relay.Proxy | proxy.go:194-233 | the relay phase leaves the client on the server-bound pool, closes nothing and keeps both identities |
| Relay.ProxyFilters | proxy.go:194-233 | with both connections open, the server-to-client direction is a FIFO filter of the server's input, and then the client-to-server direction is one of the client's |
| Relay.ProxyFrame | proxy.go:194-233 | the relay phase switches the client to the server-bound pool; otherwise it changes only inputs and room, and it appends only reads and sends to the trace |
| Login.HandleLogin | proxy.go:142-192 | a login success leaves both connections with the same identity, and an online-mode-unsupported failure leaves both closed |
| Login.AwaitUpstream | proxy.go:149-191 | the same two guarantees for the loop over the server's login packets |
| Login.React | proxy.go:155-190 | handling one server packet reads nothing further from either connection |
| Login.ReactByPacket | proxy.go:155-190 | one server packet, by kind and ID. A non-raw packet panics with nothing changed. 0x01 rejects the login, closing the server side and then the client side. A decodable 0x02 succeeds: both connections get its identity and the client is handed it. A decodable 0x03 is handed to the client, then both sides compress at its threshold and the loop goes on. An undecodable 0x02 or 0x03 stops with its decode error and nothing changed. Any other ID is stepped over |
| Login.ReactCloses | proxy.go:159-162 | one reaction closes both connections iff it rejects an encryption request; in that case it closes the server, then the client, and does nothing else |
| Login.ClosesOnlyOnRejection | proxy.go:149-191 | over the whole loop, each connection ends closed iff the result is "online mode unsupported". Then the last events are the read of a 0x01 packet from the server, closing the server, and closing the client. Read and decode errors close nothing |
| Login.ReactIdentity | proxy.go:164-179 | a reaction that ends in success has decoded a 0x02 packet, stored its identity on both connections, and appended exactly the hand-off of that login success to the client; any other reaction leaves both identities alone |
| Login.SuccessAgreesOnIdentity | proxy.go:149-191 | on success, the last two events are reading a 0x02 packet from the server and handing its decoded login success to the client, and both connections carry that identity; on any other result both identities are unchanged |
| Login.ReactForwardsFirst | proxy.go:181-189 | one reaction switches compression only right after the set-compression packet was handed to the client, server side first, with the announced threshold |
| Login.ForwardsCompressionFirst | proxy.go:149-191 | every compression switch in the loop comes right after the client was handed the set-compression packet announcing that threshold |
| Login.CompressionStaysSymmetric | proxy.go:181-189 | if both connections start with the same threshold, they end the loop with the same threshold |
| Login.AwaitUpstreamExtends | proxy.go:149-191 | the loop only appends to the trace and does not change the client's packet pool |
| Login.SkipsOtherIds | proxy.go:155-190 | a run of raw packets with IDs other than 0x01-0x03 is read and has no other effect: the loop goes on exactly as if they had not been sent, except that they were read |
| Login.RejectsEncryptionRequest | proxy.go:159-162 | when the first packet after ignorable ones is an encryption request, the login fails as online-mode-unsupported right after reading it; both connections end closed, server first, and nothing else is read or sent |
| Login.AcceptsLoginSuccess | proxy.go:164-179 | when the first packet after ignorable ones is a decodable login success, the login succeeds right after reading it: both connections carry its identity, the client is handed it, and nothing is closed |
| Login.AppliesCompression | proxy.go:181-189 | when the first packet after ignorable ones is a decodable set-compression packet, the loop goes on from a state where the client was handed it and both sides compress at its threshold |
| Login.FailsWithoutSideEffects | proxy.go:150-190 | a read error (the server's input ends), a non-raw packet (a panic), or an undecodable 0x02 or 0x03 after ignorable packets ends the login with the matching error. Only the packets up to that point were read; nothing was sent, switched or closed |
| Login.ReactThresholds | proxy.go:181-189 | after one reaction, each side's threshold is what the compression switches it appended leave it |
| Login.ThresholdsFollowLoop | proxy.go:149-191 | after the upstream loop, each side's threshold is the one its last compression switch set, or its starting threshold if there was no switch |
| Login.HandleLoginThresholds | proxy.go:142-192 | the same holds for the whole login phase, including the login-start forwarding |
| Login.LoginStartGoesFirst | proxy.go:143-150 | the login phase starts by reading the client's login start and handing it to the server, before anything is read from the server |
| Login.LoginStartFailureStops | proxy.go:143-146 | without a readable, decodable login start the login phase fails at once, with the read error or the decoding error, without touching the server connection and reading at most the client's one packet |
| Login.HandleLoginGuarantees | proxy.go:142-192 | the whole login phase keeps the trace so far and leaves the pool alone. Compression is switched only right after forwarding. Each side's threshold is the one its last switch set, and equal thresholds stay equal. Both connections end closed iff the result is online-mode-unsupported, which is the result exactly when the deciding server packet is an encryption request (see RejectsEncryptionRequest and ClosesOnlyOnRejection). On success the phase ends by handing the client the login success whose identity both connections now carry |
| Login.LoginLoopGuarantees | proxy.go:149-191 | for the upstream loop: the trace is only extended and the pool is unchanged. Compression is switched only right after forwarding. Thresholds follow the switches, and equal thresholds stay equal. Both connections end closed iff the result is online-mode-unsupported. On success the last event hands the client the login success whose identity both connections carry |
| Login.AliceLogsIn | proxy.go:142-192 | example: set-compression 256 and then a login success for "Alice" end in success. Both thresholds are 256 and both identities are Alice's. The client is handed the set-compression packet before either side switches and is handed the login success last |
| Login.AliceCompression | proxy.go:149-191 | the server half of the example: positions of the hand-offs and switches in the trace |
| Proxy.Start | proxy.go:86-140 | a server connection exists only after a dial that succeeded, and a relayed play session ends with the client and the server carrying the same identity |
| Proxy.HandshakeFailureIsSilent | proxy.go:87-91 | without a readable handshake nothing is dialled, sent or closed |
| Proxy.StatusOverride | proxy.go:102-108 | a status request with a configured status is answered without dialling; the client ends as the connection the status handler returned, then closed; the handler's error makes no difference to the result |
| Proxy.OtherStatesAreInert | proxy.go:99-139 | a next state other than 1 or 2 dials nothing, sends nothing and closes nothing |
| Proxy.DialFailureClosesNothing | proxy.go:110-128 | a failed dial happens exactly for status (without an own status) and login requests; it closes nothing and sends nothing |
| Proxy.LoginForwardsHandshakeThenLoginStart | proxy.go:130-147 | on the login path the server first receives the client's handshake and then its login start |
| Proxy.StatusIsRelayed | proxy.go:110-121 | without a status of its own, the proxy relays a status request. The target is sent the client's handshake, and the whole relay phase runs, each direction a FIFO filter. Then the client side and the server side are closed, in that order, and the ending is a relayed status |
| Proxy.PlaySessionIsRelayed | proxy.go:123-138 | on a login request to an open target, the session ends relayed exactly when the login phase succeeded. Then the relay phase runs on the connections the login phase left, through the configured callback: server to client first, then client to server, each direction a FIFO filter. Any other login result leaves the connections as the login phase did |
| Proxy.RelayEnablesNothing | proxy.go:194-233 | relaying never switches compression |
| Proxy.SessionForwardsBeforeEnabling | proxy.go:86-140 | over a whole connection, each compression switch comes right after the client was handed the matching set-compression packet |
| Proxy.SessionCompressionSymmetric | proxy.go:86-140 | client and server that start with equal thresholds end the connection with equal thresholds |
| Proxy.WhoClosesWhat | proxy.go:99-162 | the client ends closed iff the ending is a status answer, a relayed status, or the online-mode-unsupported login failure. The server ends closed iff it is a relayed status or that login failure. A finished play session closes neither |
| Proxy.RelaysOnlyAfterLoginSuccess | proxy.go:123-138 | a play session is relayed only for a login request, and only after a login success was handed to the client. Both connections then carry that success's identity, the client uses the server-bound pool, and every later event is a relayed read or send. Outside the relaying endings the client's pool is unchanged. The converse, that a success is followed by the relay, is PlaySessionIsRelayed |

## Left out

- `status.go` is not part of this model: it is JSON, PNG and file I/O. The
  status handler is a parameter that returns the client connection and an
  error. Its own reads and writes are not traced.
- Listening, accepting, `handleConn` and `net.Dial` (proxy.go:24-84) are
  socket plumbing. The result of dialling is a parameter of `Start`: no
  connection, or a fresh server connection.
- The two relay goroutines run concurrently in the source. The model runs
  the server-to-client direction and then the client-to-server direction.
  The two directions touch disjoint state, so each direction's own
  properties do not depend on the interleaving. The interleaving of their
  events in the trace is not modelled, nor is one direction ending because
  the other closed a socket.
- The connection type's internals are not part of this model: packet
  framing, compression bytes, and the packet pools' decoding. A read takes
  the next packet from `input`. A send succeeds iff the connection is open
  and its peer has room.
- The decoders `DecodePacket`, `LoginSuccess.Decode` and
  `SetCompression.Decode` are parameters, bundled in `Packets.Codec`.
  `chat.NewMessage(..).String()` is the parameter `wrap`.
- `OnReceive` gets its packet and direction flag but not the `*ProxyConn`
  argument. A callback is a pure function and cannot mutate the
  connections.
- The byte-level writer and VarInt encoding are not modelled. The
  encoders are modelled as the sequence of typed writer calls they make.
  VarInt values are unbounded integers.
- Printing and the error messages' text are not modelled. Errors are
  constructors of `Common.Error`.
- Login.React: its own contract only says that it reads nothing. What it
  does with each packet kind and ID is stated by ReactByPacket. The loop
  lemmas RejectsEncryptionRequest, AcceptsLoginSuccess, AppliesCompression
  and FailsWithoutSideEffects lift that to the loop.
- Where the code departs from the usual login flow, the model follows
  the code.
  - Only an encryption request closes the connections. Read and decode
    errors close nothing.
  - Unknown login-phase IDs are skipped, not fatal.
  - A relayed status request runs the whole relay and then closes both
    connections.
  - After a relayed play session, `start` closes neither connection.
- The login loop reads its packet through an unchecked type assertion
  to a raw packet. Any other packet type panics, which is modelled as the
  result `LoginPanic`.
- The chat encoder ranges over `m.PreviousMesages`, a field the struct
  does not declare. The model iterates `PreviousMessages`, the evident
  intent, since the count written just before is `len(m.PreviousMessages)`.
  The file as written also uses unqualified `Reader` and `Writer`, so it
  would not compile as shown.
