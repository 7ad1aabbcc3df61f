/** The login phase (`ProxyConfig.handleLogin` in proxy.go): forward the
    client's login start to the server, then consume the server's login
    packets until it asks for encryption (rejected), reports success, or
    something fails. */
module Login {
  import opened Common
  import opened Packets
  import opened Connections

  /** How the login phase ends: success, an error return, or a panic (the
      source's unchecked type assertion on the packet it read). */
  datatype LoginResult = LoggedIn | LoginError(err: Error) | LoginPanic

  function IdentityOf(s: LoginSuccess): (r: Identity) {
    Identity(s.name, s.uuid, s.properties)
  }

  /** Login-phase packet IDs sent by the server. */
  const EncryptionRequestId: int32 := 0x01
  const LoginSuccessId: int32 := 0x02
  const SetCompressionId: int32 := 0x03

  /** Read and decode the client's login start, hand it to the server, then
      wait for the server's answer. */
  function HandleLogin(pc: ProxyConn, codec: Codec): (r: (ProxyConn, LoginResult))
    ensures r.1 == LoggedIn ==> r.0.client.identity == r.0.server.identity
    ensures r.1 == LoginError(OnlineModeUnsupported) ==> r.0.client.closed && r.0.server.closed
  {
    var (pc1, p) := ReadPacket(pc, Client);
    if p.None? then (pc1, LoginError(ReadFailed))
    else
      match codec.loginStart(p.value)
      case None => (pc1, LoginError(Malformed))
      case Some(ls) => AwaitUpstream(SendPacket(pc1, Server, LoginStartPacket(ls)).0, codec)
  }

  /** What the loop does with one packet it read from the server: stop with
      a result, or go on reading. */
  datatype Step = Stop(state: ProxyConn, result: LoginResult) | Continue(state: ProxyConn)

  /** The body of the loop, for the packet `pk` just read. Only raw packets
      are expected: anything else fails the source's type assertion. Every
      send's error is ignored, as in the source. Reacting reads nothing. */
  function React(pc: ProxyConn, pk: Packet, codec: Codec): (r: Step)
    ensures r.state.server.input == pc.server.input && r.state.client.input == pc.client.input
  {
    if !pk.Unknown? then Stop(pc, LoginPanic)
    else if pk.id == EncryptionRequestId then
      Stop(Close(Close(pc, Server), Client), LoginError(OnlineModeUnsupported))
    else if pk.id == LoginSuccessId then
      match codec.loginSuccess(pk.payload)
      case None => Stop(pc, LoginError(DecodingLoginSuccess))
      case Some(s) =>
        var pc2 := SetIdentity(SetIdentity(pc, Server, IdentityOf(s)), Client, IdentityOf(s));
        Stop(SendPacket(pc2, Client, LoginSuccessPacket(s)).0, LoggedIn)
    else if pk.id == SetCompressionId then
      match codec.setCompression(pk.payload)
      case None => Stop(pc, LoginError(DecodingCompression))
      case Some(t) =>
        var pc2 := SendPacket(pc, Client, SetCompressionPacket(t)).0;
        Continue(EnableCompression(EnableCompression(pc2, Server, t), Client, t))
    else
      Continue(pc)
  }

  /** The loop over the server's login packets. */
  function AwaitUpstream(pc: ProxyConn, codec: Codec): (r: (ProxyConn, LoginResult))
    ensures r.1 == LoggedIn ==> r.0.client.identity == r.0.server.identity
    ensures r.1 == LoginError(OnlineModeUnsupported) ==> r.0.client.closed && r.0.server.closed
    decreases |pc.server.input|
  {
    var (pc1, p) := ReadPacket(pc, Server);
    match p
    case None => (pc1, LoginError(ReadFailed))
    case Some(pk) =>
      match React(pc1, pk, codec)
      case Stop(r, res) => (r, res)
      case Continue(next) => AwaitUpstream(next, codec)
  }

  // ---------------------------------------------------------------------------
  // Compression is enabled only right after the client was sent SetCompression
  // ---------------------------------------------------------------------------

  /** The event at `k`, if it enables compression, follows the hand-off of the
      matching SetCompression packet to the client: the server side is
      enabled immediately after that send, the client side immediately after
      the server side. */
  ghost predicate EnableJustified(t: seq<Event>, k: int)
    requires 0 <= k < |t|
  {
    t[k].CompressionEnabled? ==>
      var thr := t[k].threshold;
      if t[k].side == Server then
        1 <= k && t[k - 1].Sent? && t[k - 1].side == Client && t[k - 1].packet == SetCompressionPacket(thr)
      else
        2 <= k && t[k - 1] == CompressionEnabled(Server, thr)
        && t[k - 2].Sent? && t[k - 2].side == Client && t[k - 2].packet == SetCompressionPacket(thr)
  }

  ghost predicate ForwardsBeforeEnabling(t: seq<Event>) {
    forall k | 0 <= k < |t| :: EnableJustified(t, k)
  }

  lemma JustifiedSnoc(t: seq<Event>, e: Event)
    requires ForwardsBeforeEnabling(t)
    requires EnableJustified(t + [e], |t|)
    ensures ForwardsBeforeEnabling(t + [e])
  {
    var t' := t + [e];
    forall k | 0 <= k < |t'|
      ensures EnableJustified(t', k)
    {
      if k < |t| {
        assert t'[k] == t[k];
        assert EnableJustified(t, k);
        if 1 <= k {
          assert t'[k - 1] == t[k - 1];
        }
        if 2 <= k {
          assert t'[k - 2] == t[k - 2];
        }
      }
    }
  }

  /** Appending events that enable nothing keeps the property. */
  lemma QuietAppend(t: seq<Event>, u: seq<Event>)
    requires ForwardsBeforeEnabling(t)
    requires forall i | 0 <= i < |u| :: !u[i].CompressionEnabled?
    ensures ForwardsBeforeEnabling(t + u)
  {
    var t' := t + u;
    forall k | 0 <= k < |t'|
      ensures EnableJustified(t', k)
    {
      if k < |t| {
        assert t'[k] == t[k];
        assert EnableJustified(t, k);
        if 1 <= k {
          assert t'[k - 1] == t[k - 1];
        }
        if 2 <= k {
          assert t'[k - 2] == t[k - 2];
        }
      } else {
        assert t'[k] == u[k - |t|];
      }
    }
  }

  // ---------------------------------------------------------------------------
  // Properties of the upstream loop
  // ---------------------------------------------------------------------------

  /** The loop only appends to the trace, and leaves the client's packet
      pool alone. */
  lemma {:induction false} AwaitUpstreamExtends(pc: ProxyConn, codec: Codec)
    ensures var r := AwaitUpstream(pc, codec).0;
            && |pc.trace| <= |r.trace| && r.trace[..|pc.trace|] == pc.trace
            && r.client.pool == pc.client.pool
    decreases |pc.server.input|
  {
    var (pc1, p) := ReadPacket(pc, Server);
    if p.Some? {
      var st := React(pc1, p.value, codec);
      assert |pc.trace| <= |st.state.trace| && st.state.trace[..|pc.trace|] == pc.trace;
      if st.Continue? {
        assert AwaitUpstream(pc, codec) == AwaitUpstream(st.state, codec);
        AwaitUpstreamExtends(st.state, codec);
        var r := AwaitUpstream(st.state, codec).0;
        assert r.trace[..|pc.trace|] == st.state.trace[..|pc.trace|];
      }
    }
  }

  /** Compression is enabled on the client and server sides only together,
      with the same threshold: equal thresholds stay equal. */
  lemma {:induction false} CompressionStaysSymmetric(pc: ProxyConn, codec: Codec)
    requires pc.client.threshold == pc.server.threshold
    ensures var r := AwaitUpstream(pc, codec).0;
            r.client.threshold == r.server.threshold
    decreases |pc.server.input|
  {
    var (pc1, p) := ReadPacket(pc, Server);
    if p.Some? {
      var st := React(pc1, p.value, codec);
      if st.Continue? {
        assert AwaitUpstream(pc, codec) == AwaitUpstream(st.state, codec);
        CompressionStaysSymmetric(st.state, codec);
      }
    }
  }

  /** One reaction keeps every compression switch justified. */
  lemma ReactForwardsFirst(pc: ProxyConn, pk: Packet, codec: Codec)
    requires ForwardsBeforeEnabling(pc.trace)
    ensures ForwardsBeforeEnabling(React(pc, pk, codec).state.trace)
  {
    if !pk.Unknown? {
    } else if pk.id == EncryptionRequestId {
      JustifiedSnoc(pc.trace, Closed(Server));
      JustifiedSnoc(Close(pc, Server).trace, Closed(Client));
    } else if pk.id == LoginSuccessId {
      match codec.loginSuccess(pk.payload)
      case None =>
      case Some(s) =>
        var pc2 := SetIdentity(SetIdentity(pc, Server, IdentityOf(s)), Client, IdentityOf(s));
        var (pc3, ok) := SendPacket(pc2, Client, LoginSuccessPacket(s));
        JustifiedSnoc(pc2.trace, Sent(Client, LoginSuccessPacket(s), ok));
    } else if pk.id == SetCompressionId {
      match codec.setCompression(pk.payload)
      case None =>
      case Some(t) =>
        var (pc2, ok) := SendPacket(pc, Client, SetCompressionPacket(t));
        JustifiedSnoc(pc.trace, Sent(Client, SetCompressionPacket(t), ok));
        var pc3 := EnableCompression(pc2, Server, t);
        JustifiedSnoc(pc2.trace, CompressionEnabled(Server, t));
        JustifiedSnoc(pc3.trace, CompressionEnabled(Client, t));
    }
  }

  /** Every compression switch in the loop comes right after the
      SetCompression packet was handed to the client. */
  lemma {:induction false} ForwardsCompressionFirst(pc: ProxyConn, codec: Codec)
    requires ForwardsBeforeEnabling(pc.trace)
    ensures ForwardsBeforeEnabling(AwaitUpstream(pc, codec).0.trace)
    decreases |pc.server.input|
  {
    var (pc1, p) := ReadPacket(pc, Server);
    if p.Some? {
      JustifiedSnoc(pc.trace, Received(Server, p.value));
      ReactForwardsFirst(pc1, p.value, codec);
      var st := React(pc1, p.value, codec);
      if st.Continue? {
        assert AwaitUpstream(pc, codec) == AwaitUpstream(st.state, codec);
        ForwardsCompressionFirst(st.state, codec);
      }
    }
  }

  /** One reaction closes both connections exactly when it rejects an
      encryption request, and then does nothing else. */
  lemma ReactCloses(pc: ProxyConn, pk: Packet, codec: Codec)
    requires !pc.client.closed && !pc.server.closed
    ensures
      var st := React(pc, pk, codec);
      var rejected := st.Stop? && st.result == LoginError(OnlineModeUnsupported);
      && (st.state.client.closed <==> rejected)
      && (st.state.server.closed <==> rejected)
      && (rejected ==>
            && pk.Unknown? && pk.id == EncryptionRequestId
            && st.state.trace == pc.trace + [Closed(Server), Closed(Client)])
  {
  }

  /** Both connections are closed exactly when the server asked for
      encryption. Then the login ends right after that request was read:
      the server side is closed, then the client side, and nothing else is
      read or sent. Every other way out closes neither connection. */
  lemma {:induction false} ClosesOnlyOnRejection(pc: ProxyConn, codec: Codec)
    requires !pc.client.closed && !pc.server.closed
    ensures
      var (r, res) := AwaitUpstream(pc, codec);
      && (r.client.closed <==> res == LoginError(OnlineModeUnsupported))
      && (r.server.closed <==> res == LoginError(OnlineModeUnsupported))
      && (res == LoginError(OnlineModeUnsupported) ==>
            && |r.trace| >= 3
            && r.trace[|r.trace| - 2..] == [Closed(Server), Closed(Client)]
            && var read := r.trace[|r.trace| - 3];
            && read.Received? && read.side == Server
            && read.packet.Unknown? && read.packet.id == EncryptionRequestId)
    decreases |pc.server.input|
  {
    var (pc1, p) := ReadPacket(pc, Server);
    if p.Some? {
      ReactCloses(pc1, p.value, codec);
      var st := React(pc1, p.value, codec);
      if st.Continue? {
        assert AwaitUpstream(pc, codec) == AwaitUpstream(st.state, codec);
        ClosesOnlyOnRejection(st.state, codec);
      } else {
        assert AwaitUpstream(pc, codec) == (st.state, st.result);
        if st.result == LoginError(OnlineModeUnsupported) {
          assert st.state.trace == pc.trace + [Received(Server, p.value), Closed(Server), Closed(Client)];
        }
      }
    }
  }

  /** One reaction that ends the login successfully has stored the decoded
      login success on both connections and handed it to the client; any
      other reaction leaves both identities alone. */
  lemma ReactIdentity(pc: ProxyConn, pk: Packet, codec: Codec)
    ensures
      var st := React(pc, pk, codec);
      && (st.Stop? && st.result == LoggedIn ==>
            && pk.Unknown? && pk.id == LoginSuccessId && codec.loginSuccess(pk.payload).Some?
            && var s := codec.loginSuccess(pk.payload).value;
            && |st.state.trace| == |pc.trace| + 1
            && st.state.trace[..|pc.trace|] == pc.trace
            && st.state.trace[|pc.trace|].Sent? && st.state.trace[|pc.trace|].side == Client
            && st.state.trace[|pc.trace|].packet == LoginSuccessPacket(s)
            && st.state.client.identity == IdentityOf(s) && st.state.server.identity == IdentityOf(s))
      && (!(st.Stop? && st.result == LoggedIn) ==>
            st.state.client.identity == pc.client.identity && st.state.server.identity == pc.server.identity)
  {
  }

  /** A successful login stores the identity decoded from the server's login
      success on both connections, and the last thing it does is hand that
      same packet to the client, right after reading it from the server.
      Every other outcome leaves both identities as they were. */
  lemma {:induction false} SuccessAgreesOnIdentity(pc: ProxyConn, codec: Codec)
    ensures
      var (r, res) := AwaitUpstream(pc, codec);
      && (res == LoggedIn ==>
            && |r.trace| >= 2
            && var sent := r.trace[|r.trace| - 1];
            && var read := r.trace[|r.trace| - 2];
            && sent.Sent? && sent.side == Client && sent.packet.LoginSuccessPacket?
            && read.Received? && read.side == Server
            && read.packet.Unknown? && read.packet.id == LoginSuccessId
            && codec.loginSuccess(read.packet.payload) == Some(sent.packet.success)
            && r.client.identity == IdentityOf(sent.packet.success)
            && r.server.identity == IdentityOf(sent.packet.success))
      && (res != LoggedIn ==> r.client.identity == pc.client.identity && r.server.identity == pc.server.identity)
    decreases |pc.server.input|
  {
    var (pc1, p) := ReadPacket(pc, Server);
    if p.Some? {
      ReactIdentity(pc1, p.value, codec);
      var st := React(pc1, p.value, codec);
      if st.Continue? {
        assert AwaitUpstream(pc, codec) == AwaitUpstream(st.state, codec);
        SuccessAgreesOnIdentity(st.state, codec);
      } else {
        assert AwaitUpstream(pc, codec) == (st.state, st.result);
        if st.result == LoggedIn {
          var n := |pc1.trace|;
          assert pc1.trace[n - 1] == Received(Server, p.value);
          assert st.state.trace[n - 1] == pc1.trace[n - 1];
        }
      }
    }
  }

  /** A packet the login loop steps over without reacting: a raw packet
      whose ID is none of 0x01, 0x02, 0x03. */
  predicate Ignorable(p: Packet) {
    p.Unknown? && p.id !in {EncryptionRequestId, LoginSuccessId, SetCompressionId}
  }

  function Receipts(s: Side, ps: seq<Packet>): (es: seq<Event>)
    ensures |es| == |ps|
  {
    seq(|ps|, i requires 0 <= i < |ps| => Received(s, ps[i]))
  }

  /** The state after the first `n` server packets were read and nothing
      else was done. */
  function ReadAhead(pc: ProxyConn, n: nat): (r: ProxyConn)
    requires n <= |pc.server.input|
    ensures r.server.input == pc.server.input[n..] && |r.trace| == |pc.trace| + n
  {
    pc.(server := pc.server.(input := pc.server.input[n..]), trace := pc.trace + Receipts(Server, pc.server.input[..n]))
  }

  /** A run of ignorable packets from the server is read and has no other
      effect: no error, nothing forwarded, no state change; the loop goes on
      as if they had never been sent, apart from having read them. */
  lemma {:induction false} SkipsOtherIds(pc: ProxyConn, codec: Codec, k: nat)
    requires !pc.server.closed && k <= |pc.server.input|
    requires forall i | 0 <= i < k :: Ignorable(pc.server.input[i])
    ensures AwaitUpstream(pc, codec) == AwaitUpstream(ReadAhead(pc, k), codec)
    decreases k
  {
    var ps := pc.server.input;
    if k == 0 {
      assert ps[0..] == ps;
      assert pc.trace + Receipts(Server, ps[..0]) == pc.trace;
      assert pc.(server := pc.server.(input := ps[0..]), trace := pc.trace) == pc;
    } else {
      var pc1 := ReadPacket(pc, Server).0;
      assert pc1 == pc.(server := pc.server.(input := ps[1..]), trace := pc.trace + [Received(Server, ps[0])]);
      assert Ignorable(ps[0]);
      assert AwaitUpstream(pc, codec) == AwaitUpstream(pc1, codec);
      SkipsOtherIds(pc1, codec, k - 1);
      assert ps[1..][k - 1..] == ps[k..];
      assert [Received(Server, ps[0])] + Receipts(Server, ps[1..][..k - 1]) == Receipts(Server, ps[..k]);
      assert pc1.trace + Receipts(Server, ps[1..][..k - 1]) == pc.trace + Receipts(Server, ps[..k]);
    }
  }

  /** Reading one more server packet after the first `k`. */
  lemma ReadAheadStep(pc: ProxyConn, k: nat)
    requires !pc.server.closed && k < |pc.server.input|
    ensures ReadPacket(ReadAhead(pc, k), Server) == (ReadAhead(pc, k + 1), Some(pc.server.input[k]))
  {
    var ps := pc.server.input;
    var q := ReadAhead(pc, k);
    assert q.server.input[0] == ps[k];
    assert q.server.input[1..] == ps[k + 1..];
    var rs := Receipts(Server, ps[..k]) + [Received(Server, ps[k])];
    assert forall i | 0 <= i < k + 1 :: rs[i] == Receipts(Server, ps[..k + 1])[i];
    assert rs == Receipts(Server, ps[..k + 1]);
    assert q.trace + [Received(Server, ps[k])] == ReadAhead(pc, k + 1).trace;
  }

  // ---------------------------------------------------------------------------
  // What each server packet leads to
  // ---------------------------------------------------------------------------

  /** One server packet, by kind and ID. An encryption request rejects the
      login and closes the server side, then the client side. A decodable
      login success ends the login with its identity on both connections,
      after handing it to the client. A decodable set-compression packet is
      handed to the client, then both sides compress at its threshold and
      the loop goes on. An undecodable payload, or a packet that is not raw,
      stops the login with nothing changed; any other ID is stepped over. */
  lemma ReactByPacket(pc: ProxyConn, pk: Packet, codec: Codec)
    ensures
      var st := React(pc, pk, codec);
      && (!pk.Unknown? ==> st == Stop(pc, LoginPanic))
      && (Ignorable(pk) ==> st == Continue(pc))
      && (pk.Unknown? && pk.id == EncryptionRequestId ==>
            && st.Stop? && st.result == LoginError(OnlineModeUnsupported)
            && st.state.client.closed && st.state.server.closed
            && st.state.trace == pc.trace + [Closed(Server), Closed(Client)])
      && (pk.Unknown? && pk.id == LoginSuccessId ==>
            (match codec.loginSuccess(pk.payload)
             case None => st == Stop(pc, LoginError(DecodingLoginSuccess))
             case Some(s) =>
               && st.Stop? && st.result == LoggedIn
               && st.state.client.identity == IdentityOf(s) && st.state.server.identity == IdentityOf(s)
               && st.state.client.closed == pc.client.closed && st.state.server.closed == pc.server.closed
               && st.state.trace == pc.trace + [Sent(Client, LoginSuccessPacket(s), Capacity(pc.client) > 0)]))
      && (pk.Unknown? && pk.id == SetCompressionId ==>
            (match codec.setCompression(pk.payload)
             case None => st == Stop(pc, LoginError(DecodingCompression))
             case Some(t) =>
               && st.Continue?
               && st.state.client.threshold == t && st.state.server.threshold == t
               && st.state.client.identity == pc.client.identity && st.state.server.identity == pc.server.identity
               && st.state.client.closed == pc.client.closed && st.state.server.closed == pc.server.closed
               && st.state.trace == pc.trace + [Sent(Client, SetCompressionPacket(t), Capacity(pc.client) > 0),
                                                CompressionEnabled(Server, t), CompressionEnabled(Client, t)]))
  {
  }

  /** When the first packet after a run of ignorable ones is an encryption
      request, the login is rejected right after reading it: both
      connections end closed, server side first, and nothing else is read
      or sent. */
  lemma RejectsEncryptionRequest(pc: ProxyConn, codec: Codec, k: nat)
    requires !pc.server.closed && k < |pc.server.input|
    requires forall i | 0 <= i < k :: Ignorable(pc.server.input[i])
    requires pc.server.input[k].Unknown? && pc.server.input[k].id == EncryptionRequestId
    ensures
      var (r, res) := AwaitUpstream(pc, codec);
      && res == LoginError(OnlineModeUnsupported)
      && r.client.closed && r.server.closed
      && r.server.input == pc.server.input[k + 1..]
      && r.trace == pc.trace + Receipts(Server, pc.server.input[..k + 1]) + [Closed(Server), Closed(Client)]
  {
    var pk := pc.server.input[k];
    var q1 := ReadAhead(pc, k + 1);
    SkipsOtherIds(pc, codec, k);
    ReadAheadStep(pc, k);
    assert AwaitUpstream(ReadAhead(pc, k), codec) == (React(q1, pk, codec).state, React(q1, pk, codec).result);
    ReactByPacket(q1, pk, codec);
  }

  /** When the first packet after a run of ignorable ones is a decodable
      login success, the login succeeds right after reading it: both
      connections carry its identity, it was handed to the client, and
      nothing is closed. */
  lemma AcceptsLoginSuccess(pc: ProxyConn, codec: Codec, k: nat)
    requires !pc.server.closed && k < |pc.server.input|
    requires forall i | 0 <= i < k :: Ignorable(pc.server.input[i])
    requires pc.server.input[k].Unknown? && pc.server.input[k].id == LoginSuccessId
    requires codec.loginSuccess(pc.server.input[k].payload).Some?
    ensures
      var (r, res) := AwaitUpstream(pc, codec);
      var s := codec.loginSuccess(pc.server.input[k].payload).value;
      && res == LoggedIn
      && r.client.identity == IdentityOf(s) && r.server.identity == IdentityOf(s)
      && r.client.closed == pc.client.closed && !r.server.closed
      && r.server.input == pc.server.input[k + 1..]
      && r.trace == pc.trace + Receipts(Server, pc.server.input[..k + 1])
                    + [Sent(Client, LoginSuccessPacket(s), Capacity(pc.client) > 0)]
  {
    var pk := pc.server.input[k];
    var q1 := ReadAhead(pc, k + 1);
    SkipsOtherIds(pc, codec, k);
    ReadAheadStep(pc, k);
    assert AwaitUpstream(ReadAhead(pc, k), codec) == (React(q1, pk, codec).state, React(q1, pk, codec).result);
    ReactByPacket(q1, pk, codec);
  }

  /** When the first packet after a run of ignorable ones is a decodable
      set-compression packet, the loop goes on from a state in which it was
      read and handed to the client and both sides compress at its
      threshold. */
  lemma AppliesCompression(pc: ProxyConn, codec: Codec, k: nat)
    requires !pc.server.closed && k < |pc.server.input|
    requires forall i | 0 <= i < k :: Ignorable(pc.server.input[i])
    requires pc.server.input[k].Unknown? && pc.server.input[k].id == SetCompressionId
    requires codec.setCompression(pc.server.input[k].payload).Some?
    ensures
      var t := codec.setCompression(pc.server.input[k].payload).value;
      var st := React(ReadAhead(pc, k + 1), pc.server.input[k], codec);
      && st.Continue?
      && AwaitUpstream(pc, codec) == AwaitUpstream(st.state, codec)
      && st.state.client.threshold == t && st.state.server.threshold == t
      && st.state.server.input == pc.server.input[k + 1..] && st.state.client.input == pc.client.input
      && st.state.trace == pc.trace + Receipts(Server, pc.server.input[..k + 1])
                           + [Sent(Client, SetCompressionPacket(t), Capacity(pc.client) > 0),
                              CompressionEnabled(Server, t), CompressionEnabled(Client, t)]
  {
    var pk := pc.server.input[k];
    var q1 := ReadAhead(pc, k + 1);
    SkipsOtherIds(pc, codec, k);
    ReadAheadStep(pc, k);
    ReactByPacket(q1, pk, codec);
    assert AwaitUpstream(ReadAhead(pc, k), codec) == AwaitUpstream(React(q1, pk, codec).state, codec);
  }

  /** The ways the login fails without side effects: after a run of
      ignorable packets the server's input ends (a read error), or the next
      packet is not raw (the type assertion panics), or it is a login
      success or set-compression packet that does not decode. Either way
      only the packets up to that point were read; nothing was sent,
      switched or closed. */
  lemma FailsWithoutSideEffects(pc: ProxyConn, codec: Codec, k: nat)
    requires !pc.server.closed && k <= |pc.server.input|
    requires forall i | 0 <= i < k :: Ignorable(pc.server.input[i])
    requires
      || k == |pc.server.input|
      || !pc.server.input[k].Unknown?
      || (pc.server.input[k].id == LoginSuccessId && codec.loginSuccess(pc.server.input[k].payload).None?)
      || (pc.server.input[k].id == SetCompressionId && codec.setCompression(pc.server.input[k].payload).None?)
    ensures
      var (r, res) := AwaitUpstream(pc, codec);
      var ps := pc.server.input;
      var n := if k == |ps| then k else k + 1;
      && r == ReadAhead(pc, n)
      && res == (if k == |ps| then LoginError(ReadFailed)
                 else if !ps[k].Unknown? then LoginPanic
                 else if ps[k].id == LoginSuccessId then LoginError(DecodingLoginSuccess)
                 else LoginError(DecodingCompression))
  {
    SkipsOtherIds(pc, codec, k);
    if k == |pc.server.input| {
      assert ReadPacket(ReadAhead(pc, k), Server).1.None?;
    } else {
      var pk := pc.server.input[k];
      var q1 := ReadAhead(pc, k + 1);
      ReadAheadStep(pc, k);
      assert AwaitUpstream(ReadAhead(pc, k), codec) == (React(q1, pk, codec).state, React(q1, pk, codec).result);
      ReactByPacket(q1, pk, codec);
    }
  }

  // ---------------------------------------------------------------------------
  // Thresholds follow the compression switches in the trace
  // ---------------------------------------------------------------------------

  /** A side's compression threshold as the events of `t` leave it, starting
      from `start`: each switch on that side replaces it. */
  function ThresholdAfter(t: seq<Event>, s: Side, start: int): (r: int)
    decreases |t|
  {
    if t == [] then start
    else ThresholdAfter(t[1..], s, if t[0].CompressionEnabled? && t[0].side == s then t[0].threshold else start)
  }

  lemma {:induction false} ThresholdAfterAppend(a: seq<Event>, b: seq<Event>, s: Side, start: int)
    ensures ThresholdAfter(a + b, s, start) == ThresholdAfter(b, s, ThresholdAfter(a, s, start))
    decreases |a|
  {
    if a == [] {
      assert a + b == b;
    } else {
      assert (a + b)[1..] == a[1..] + b;
      ThresholdAfterAppend(a[1..], b, s, if a[0].CompressionEnabled? && a[0].side == s then a[0].threshold else start);
    }
  }

  /** `r` extends `pc`'s trace, and each side's threshold in `r` is what the
      switches added since `pc` leave it. */
  ghost predicate ThresholdsFollow(pc: ProxyConn, r: ProxyConn) {
    && |pc.trace| <= |r.trace| && r.trace[..|pc.trace|] == pc.trace
    && r.client.threshold == ThresholdAfter(r.trace[|pc.trace|..], Client, pc.client.threshold)
    && r.server.threshold == ThresholdAfter(r.trace[|pc.trace|..], Server, pc.server.threshold)
  }

  lemma ThresholdsFollowCompose(a: ProxyConn, b: ProxyConn, c: ProxyConn)
    requires ThresholdsFollow(a, b) && ThresholdsFollow(b, c)
    ensures ThresholdsFollow(a, c)
  {
    var n := |a.trace|;
    var m := |b.trace|;
    assert c.trace[..m][..n] == c.trace[..n];
    assert c.trace[n..] == c.trace[n..m] + c.trace[m..];
    assert c.trace[n..m] == b.trace[n..];
    ThresholdAfterAppend(b.trace[n..], c.trace[m..], Client, a.client.threshold);
    ThresholdAfterAppend(b.trace[n..], c.trace[m..], Server, a.server.threshold);
  }

  /** One reaction: its thresholds are what its own switches leave them. */
  lemma ReactThresholds(pc: ProxyConn, pk: Packet, codec: Codec)
    ensures ThresholdsFollow(pc, React(pc, pk, codec).state)
  {
    var st := React(pc, pk, codec);
    ReactByPacket(pc, pk, codec);
    var u := st.state.trace[|pc.trace|..];
    if pk.Unknown? && pk.id == SetCompressionId && codec.setCompression(pk.payload).Some? {
      var t := codec.setCompression(pk.payload).value;
      assert u == [Sent(Client, SetCompressionPacket(t), Capacity(pc.client) > 0),
                   CompressionEnabled(Server, t), CompressionEnabled(Client, t)];
      var x, y := pc.client.threshold, pc.server.threshold;
      assert u[1..][1..] == [CompressionEnabled(Client, t)];
      assert u[1..][1..][1..] == [];
      assert ThresholdAfter(u, Client, x) == ThresholdAfter(u[1..][1..], Client, x) == t;
      assert ThresholdAfter(u, Server, y) == ThresholdAfter(u[1..][1..], Server, t) == t;
    } else if pk.Unknown? && pk.id == EncryptionRequestId {
      assert u == [Closed(Server), Closed(Client)];
      assert u[1..][1..] == [];
      assert st.state == Close(Close(pc, Server), Client);
      assert st.state.client.threshold == pc.client.threshold && st.state.server.threshold == pc.server.threshold;
      var x, y := pc.client.threshold, pc.server.threshold;
      assert ThresholdAfter(u, Client, x) == ThresholdAfter(u[1..], Client, x) == ThresholdAfter(u[1..][1..], Client, x) == x;
      assert ThresholdAfter(u, Server, y) == ThresholdAfter(u[1..], Server, y) == ThresholdAfter(u[1..][1..], Server, y) == y;
    } else if pk.Unknown? && pk.id == LoginSuccessId && codec.loginSuccess(pk.payload).Some? {
      assert u == [Sent(Client, LoginSuccessPacket(codec.loginSuccess(pk.payload).value), Capacity(pc.client) > 0)];
    } else {
      assert st.state == pc;
      assert u == [];
    }
  }

  /** Over the whole loop, each side's final threshold is the one its last
      compression switch set, or the one it started with when there was
      none. */
  lemma {:induction false} ThresholdsFollowLoop(pc: ProxyConn, codec: Codec)
    ensures ThresholdsFollow(pc, AwaitUpstream(pc, codec).0)
    decreases |pc.server.input|
  {
    var r := AwaitUpstream(pc, codec).0;
    var (pc1, p) := ReadPacket(pc, Server);
    if p.None? {
      assert r == pc;
      assert r.trace[|pc.trace|..] == [];
    } else {
      var u := pc1.trace[|pc.trace|..];
      assert u == [Received(Server, p.value)] && u[1..] == [];
      assert ThresholdAfter(u, Client, pc.client.threshold) == ThresholdAfter(u[1..], Client, pc.client.threshold);
      assert ThresholdAfter(u, Server, pc.server.threshold) == ThresholdAfter(u[1..], Server, pc.server.threshold);
      assert ThresholdsFollow(pc, pc1);
      var st := React(pc1, p.value, codec);
      ReactThresholds(pc1, p.value, codec);
      ThresholdsFollowCompose(pc, pc1, st.state);
      if st.Continue? {
        assert r == AwaitUpstream(st.state, codec).0;
        ThresholdsFollowLoop(st.state, codec);
        ThresholdsFollowCompose(pc, st.state, r);
      } else {
        assert r == st.state;
      }
    }
  }

  /** The whole login phase: each side's final threshold is the one its
      last compression switch set, or the one it started with. */
  lemma HandleLoginThresholds(pc: ProxyConn, codec: Codec)
    ensures ThresholdsFollow(pc, HandleLogin(pc, codec).0)
  {
    var (pc1, p) := ReadPacket(pc, Client);
    var x, y := pc.client.threshold, pc.server.threshold;
    if p.None? {
      assert pc.trace[|pc.trace|..] == [];
    } else {
      var u1 := pc1.trace[|pc.trace|..];
      assert u1 == [Received(Client, p.value)];
      assert ThresholdAfter(u1, Client, x) == ThresholdAfter(u1[1..], Client, x) == x;
      assert ThresholdAfter(u1, Server, y) == ThresholdAfter(u1[1..], Server, y) == y;
      assert ThresholdsFollow(pc, pc1);
      if codec.loginStart(p.value).Some? {
        var ls := codec.loginStart(p.value).value;
        var pc2 := SendPacket(pc1, Server, LoginStartPacket(ls)).0;
        var u2 := pc2.trace[|pc1.trace|..];
        assert u2 == [Sent(Server, LoginStartPacket(ls), Capacity(pc1.server) > 0)];
        assert ThresholdAfter(u2, Client, x) == ThresholdAfter(u2[1..], Client, x) == x;
        assert ThresholdAfter(u2, Server, y) == ThresholdAfter(u2[1..], Server, y) == y;
        assert ThresholdsFollow(pc1, pc2);
        ThresholdsFollowCompose(pc, pc1, pc2);
        assert HandleLogin(pc, codec) == AwaitUpstream(pc2, codec);
        ThresholdsFollowLoop(pc2, codec);
        ThresholdsFollowCompose(pc, pc2, AwaitUpstream(pc2, codec).0);
      }
    }
  }

  // ---------------------------------------------------------------------------
  // Properties of the whole login phase
  // ---------------------------------------------------------------------------

  /** The client's login start is handed to the server before anything is
      read from the server: the login phase begins by reading it from the
      client and sending the decoded packet on the server side. */
  lemma LoginStartGoesFirst(pc: ProxyConn, codec: Codec)
    requires !pc.client.closed && pc.client.input != []
    requires codec.loginStart(pc.client.input[0]).Some?
    ensures
      var r := HandleLogin(pc, codec).0;
      var ls := codec.loginStart(pc.client.input[0]).value;
      var n := |pc.trace|;
      && n + 2 <= |r.trace| && r.trace[..n] == pc.trace
      && r.trace[n] == Received(Client, pc.client.input[0])
      && r.trace[n + 1].Sent? && r.trace[n + 1].side == Server
      && r.trace[n + 1].packet == LoginStartPacket(ls)
  {
    var n := |pc.trace|;
    var ls := codec.loginStart(pc.client.input[0]).value;
    var pc1 := ReadPacket(pc, Client).0;
    var (pc2, ok) := SendPacket(pc1, Server, LoginStartPacket(ls));
    var t2 := pc.trace + [Received(Client, pc.client.input[0]), Sent(Server, LoginStartPacket(ls), ok)];
    assert pc2.trace == t2;
    assert HandleLogin(pc, codec) == AwaitUpstream(pc2, codec);
    AwaitUpstreamExtends(pc2, codec);
    var r := AwaitUpstream(pc2, codec).0;
    Prefixes(r.trace, t2, n);
  }

  /** Without a readable, decodable login start the login phase fails at
      once: the server connection is not touched, and at most the client's
      packet is read. A failed read reports the read error, an undecodable
      packet the decoding error. */
  lemma LoginStartFailureStops(pc: ProxyConn, codec: Codec)
    requires pc.client.closed || pc.client.input == [] || codec.loginStart(pc.client.input[0]).None?
    ensures
      var (r, res) := HandleLogin(pc, codec);
      && r.server == pc.server && r.client.closed == pc.client.closed
      && (pc.client.closed || pc.client.input == [] ==> r == pc && res == LoginError(ReadFailed))
      && (!pc.client.closed && pc.client.input != [] ==>
            && res == LoginError(Malformed)
            && r.client == pc.client.(input := pc.client.input[1..])
            && r.trace == pc.trace + [Received(Client, pc.client.input[0])])
  {
  }

  /** A prefix of a prefix. */
  lemma Prefixes(t: seq<Event>, u: seq<Event>, n: nat)
    requires n <= |u| <= |t| && t[..|u|] == u
    ensures t[..n] == u[..n]
    ensures forall i | 0 <= i < |u| :: t[i] == u[i]
  {
    assert forall i | 0 <= i < |u| :: t[..|u|][i] == t[i];
  }

  /** What the upstream loop guarantees holds for the whole login phase:
      compression is switched only right after the client was handed the
      SetCompression packet, equal thresholds stay equal, both connections
      are closed exactly when the server asked for encryption, and a
      successful login ends by handing the client the login success whose
      identity both connections now carry. */
  lemma HandleLoginGuarantees(pc: ProxyConn, codec: Codec)
    ensures
      var (r, res) := HandleLogin(pc, codec);
      && |pc.trace| <= |r.trace| && r.trace[..|pc.trace|] == pc.trace
      && r.client.pool == pc.client.pool
      && (ForwardsBeforeEnabling(pc.trace) ==> ForwardsBeforeEnabling(r.trace))
      && ThresholdsFollow(pc, r)
      && (pc.client.threshold == pc.server.threshold ==> r.client.threshold == r.server.threshold)
      && (!pc.client.closed && !pc.server.closed ==>
            && (r.client.closed <==> res == LoginError(OnlineModeUnsupported))
            && (r.server.closed <==> res == LoginError(OnlineModeUnsupported)))
      && (res == LoggedIn ==>
            && |r.trace| > |pc.trace|
            && var sent := r.trace[|r.trace| - 1];
            && sent.Sent? && sent.side == Client && sent.packet.LoginSuccessPacket?
            && r.client.identity == IdentityOf(sent.packet.success)
            && r.server.identity == IdentityOf(sent.packet.success))
  {
    HandleLoginThresholds(pc, codec);
    var (pc1, p) := ReadPacket(pc, Client);
    if p.Some? && codec.loginStart(p.value).Some? {
      var ls := codec.loginStart(p.value).value;
      var (pc2, ok) := SendPacket(pc1, Server, LoginStartPacket(ls));
      assert pc2.trace == pc.trace + [Received(Client, p.value), Sent(Server, LoginStartPacket(ls), ok)];
      assert pc2.client.threshold == pc.client.threshold && pc2.server.threshold == pc.server.threshold;
      assert pc2.client.closed == pc.client.closed && pc2.server.closed == pc.server.closed;
      assert HandleLogin(pc, codec) == AwaitUpstream(pc2, codec);
      LoginLoopGuarantees(pc2, codec);
      var r := AwaitUpstream(pc2, codec).0;
      Prefixes(r.trace, pc2.trace, |pc.trace|);
      if ForwardsBeforeEnabling(pc.trace) {
        JustifiedSnoc(pc.trace, Received(Client, p.value));
        JustifiedSnoc(pc1.trace, Sent(Server, LoginStartPacket(ls), ok));
      }
    } else if p.Some? {
      if ForwardsBeforeEnabling(pc.trace) {
        JustifiedSnoc(pc.trace, Received(Client, p.value));
      }
    }
  }

  /** The upstream loop's guarantees, gathered. */
  lemma LoginLoopGuarantees(pc: ProxyConn, codec: Codec)
    ensures
      var (r, res) := AwaitUpstream(pc, codec);
      && |pc.trace| <= |r.trace| && r.trace[..|pc.trace|] == pc.trace
      && r.client.pool == pc.client.pool
      && (ForwardsBeforeEnabling(pc.trace) ==> ForwardsBeforeEnabling(r.trace))
      && ThresholdsFollow(pc, r)
      && (pc.client.threshold == pc.server.threshold ==> r.client.threshold == r.server.threshold)
      && (!pc.client.closed && !pc.server.closed ==>
            && (r.client.closed <==> res == LoginError(OnlineModeUnsupported))
            && (r.server.closed <==> res == LoginError(OnlineModeUnsupported)))
      && (res == LoggedIn ==>
            && |r.trace| >= 2
            && var sent := r.trace[|r.trace| - 1];
            && sent.Sent? && sent.side == Client && sent.packet.LoginSuccessPacket?
            && r.client.identity == IdentityOf(sent.packet.success)
            && r.server.identity == IdentityOf(sent.packet.success))
  {
    AwaitUpstreamExtends(pc, codec);
    ThresholdsFollowLoop(pc, codec);
    if ForwardsBeforeEnabling(pc.trace) {
      ForwardsCompressionFirst(pc, codec);
    }
    if pc.client.threshold == pc.server.threshold {
      CompressionStaysSymmetric(pc, codec);
    }
    if !pc.client.closed && !pc.server.closed {
      ClosesOnlyOnRejection(pc, codec);
    }
    SuccessAgreesOnIdentity(pc, codec);
  }

  /** A concrete login: the client sends its login start, the server answers
      with SetCompression(256) and then a login success for "Alice". Both
      connections end up compressing at 256 and carrying Alice's identity,
      both inputs are used up, and the client was handed the SetCompression
      packet before compression was switched on, then the login success. */
  lemma AliceLogsIn(pc: ProxyConn, codec: Codec, start: Packet, ls: LoginStart,
                    compression: seq<byte>, success: seq<byte>, id: Uuid)
    requires !pc.client.closed && pc.client.input == [start] && codec.loginStart(start) == Some(ls)
    requires !pc.server.closed && pc.server.input == [Unknown(SetCompressionId, compression), Unknown(LoginSuccessId, success)]
    requires codec.setCompression(compression) == Some(256)
    requires codec.loginSuccess(success) == Some(LoginSuccess(id, "Alice", []))
    ensures
      var (r, res) := HandleLogin(pc, codec);
      var n := |pc.trace|;
      && res == LoggedIn
      && r.client.threshold == 256 && r.server.threshold == 256
      && r.client.identity == Identity("Alice", id, []) && r.server.identity == r.client.identity
      && r.client.input == [] && r.server.input == []
      && |r.trace| == n + 8
      && r.trace[n + 3].Sent? && r.trace[n + 3].side == Client && r.trace[n + 3].packet == SetCompressionPacket(256)
      && r.trace[n + 4] == CompressionEnabled(Server, 256) && r.trace[n + 5] == CompressionEnabled(Client, 256)
      && r.trace[n + 7].Sent? && r.trace[n + 7].side == Client
      && r.trace[n + 7].packet == LoginSuccessPacket(LoginSuccess(id, "Alice", []))
  {
    var pc1 := ReadPacket(pc, Client).0;
    var pc2 := SendPacket(pc1, Server, LoginStartPacket(ls)).0;
    assert HandleLogin(pc, codec) == AwaitUpstream(pc2, codec);
    assert |pc2.trace| == |pc.trace| + 2;
    AliceCompression(pc2, codec, compression, success, id);
  }

  /** The server half of AliceLogsIn: its two login packets. */
  lemma AliceCompression(pc: ProxyConn, codec: Codec, compression: seq<byte>, success: seq<byte>, id: Uuid)
    requires !pc.server.closed && pc.server.input == [Unknown(SetCompressionId, compression), Unknown(LoginSuccessId, success)]
    requires codec.setCompression(compression) == Some(256)
    requires codec.loginSuccess(success) == Some(LoginSuccess(id, "Alice", []))
    ensures
      var (r, res) := AwaitUpstream(pc, codec);
      var n := |pc.trace|;
      && res == LoggedIn
      && r.client.threshold == 256 && r.server.threshold == 256
      && r.client.identity == Identity("Alice", id, []) && r.server.identity == r.client.identity
      && r.client.input == pc.client.input && r.server.input == []
      && |r.trace| == n + 6
      && r.trace[n + 1].Sent? && r.trace[n + 1].side == Client && r.trace[n + 1].packet == SetCompressionPacket(256)
      && r.trace[n + 2] == CompressionEnabled(Server, 256) && r.trace[n + 3] == CompressionEnabled(Client, 256)
      && r.trace[n + 5].Sent? && r.trace[n + 5].side == Client
      && r.trace[n + 5].packet == LoginSuccessPacket(LoginSuccess(id, "Alice", []))
  {
    var welcome := LoginSuccess(id, "Alice", []);
    var pc1 := ReadPacket(pc, Server).0;
    var (pc2, ok2) := SendPacket(pc1, Client, SetCompressionPacket(256));
    var pc3 := EnableCompression(EnableCompression(pc2, Server, 256), Client, 256);
    assert AwaitUpstream(pc, codec) == AwaitUpstream(pc3, codec);
    assert pc3.trace == pc.trace + [Received(Server, Unknown(SetCompressionId, compression)),
                                    Sent(Client, SetCompressionPacket(256), ok2),
                                    CompressionEnabled(Server, 256), CompressionEnabled(Client, 256)];
    assert pc3.server.input == [Unknown(LoginSuccessId, success)];
    var pc4 := ReadPacket(pc3, Server).0;
    var pc5 := SetIdentity(SetIdentity(pc4, Server, IdentityOf(welcome)), Client, IdentityOf(welcome));
    var (r, ok5) := SendPacket(pc5, Client, LoginSuccessPacket(welcome));
    assert AwaitUpstream(pc3, codec) == (r, LoggedIn);
    assert r.trace == pc3.trace + [Received(Server, Unknown(LoginSuccessId, success)), Sent(Client, LoginSuccessPacket(welcome), ok5)];
  }
}
