/** What the proxy does with one accepted client connection
    (`ProxyConfig.start` in proxy.go): decode the handshake, then either
    answer or relay a status request, or dial the target server, run the
    login phase and relay the play session. */
module Proxy {
  import opened Common
  import opened Packets
  import opened Connections
  import opened Relay
  import opened Login

  /** The proxy's own status document (`*Status`); how it is built and
      answered belongs to status.go, which is not part of this model. */
  datatype Status = Status(document: seq<byte>)

  /** `Status.handleStatus` on the client connection: the connection as it
      leaves the handler, and the error it returned. */
  type StatusHandler = (Status, Conn) -> (Conn, Option<Error>)

  /** `ProxyConfig`: a status to answer with instead of the target's, and the
      callback that may drop relayed packets. */
  datatype ProxyConfig = ProxyConfig(status: Option<Status>, onReceive: Option<Hook>)

  /** The values of the handshake's next-state field the proxy acts on. */
  const StatusState: int32 := 0x01
  const LoginState: int32 := 0x02

  /** Where `start` returned. */
  datatype Ending =
    | HandshakeFailed
    | StatusAnswered
    | DialFailed
    | StatusRelayed
    | LoginFailed(err: Error)
    | LoginPanicked
    | Relayed
    | Unhandled(nextState: int32)

  /** The client connection and, once dialled, the server connection as
      `start` leaves them, whether a dial was attempted, and the events on
      both. */
  datatype Session = Session(client: Conn, upstream: Option<Conn>, dialed: bool, trace: seq<Event>, ending: Ending)

  function Finish(pc: ProxyConn, ending: Ending): (s: Session) {
    Session(pc.client, Some(pc.server), true, pc.trace, ending)
  }

  /** `start`. `dial` is what dialling the target gives: None for a failed
      dial, or the fresh server connection. The handler's events on the
      client are not traced. */
  function Start(cfg: ProxyConfig, client: Conn, dial: Option<Conn>, codec: Codec, handleStatus: StatusHandler): (s: Session)
    ensures s.upstream.Some? ==> s.dialed && dial.Some?
    ensures s.ending == Relayed ==> s.upstream.Some? && s.client.identity == s.upstream.value.identity
  {
    var (c1, p) := Take(client);
    if p.None? then Session(client, None, false, [], HandshakeFailed)
    else
      var t1 := [Received(Client, p.value)];
      match codec.handshake(p.value)
      case None => Session(c1, None, false, t1, HandshakeFailed)
      case Some(hs) =>
        if hs.nextState == StatusState then
          if cfg.status.Some? then
            var c2 := handleStatus(cfg.status.value, c1).0;
            Session(c2.(closed := true), None, false, t1 + [Closed(Client)], StatusAnswered)
          else if dial.None? then Session(c1, None, true, t1, DialFailed)
          else
            var pc := SendPacket(ProxyConn(c1, dial.value, t1), Server, HandshakePacket(hs)).0;
            Finish(Close(Close(Proxy(pc, cfg.onReceive), Client), Server), StatusRelayed)
        else if hs.nextState == LoginState then
          if dial.None? then Session(c1, None, true, t1, DialFailed)
          else
            var pc := SendPacket(ProxyConn(c1, dial.value, t1), Server, HandshakePacket(hs)).0;
            var (pc2, res) := HandleLogin(pc, codec);
            match res
            case LoggedIn => Finish(Proxy(pc2, cfg.onReceive), Relayed)
            case LoginError(e) => Finish(pc2, LoginFailed(e))
            case LoginPanic => Finish(pc2, LoginPanicked)
        else Session(c1, None, false, t1, Unhandled(hs.nextState))
  }

  /** The client's first packet is a handshake asking for `state`. */
  predicate Asks(client: Conn, codec: Codec, state: int32) {
    && !client.closed && client.input != []
    && codec.handshake(client.input[0]).Some?
    && codec.handshake(client.input[0]).value.nextState == state
  }

  // ---------------------------------------------------------------------------
  // The branches of start
  // ---------------------------------------------------------------------------

  /** Without a readable handshake nothing is dialled, sent or closed. */
  lemma HandshakeFailureIsSilent(cfg: ProxyConfig, client: Conn, dial: Option<Conn>, codec: Codec, handleStatus: StatusHandler)
    requires client.closed || client.input == [] || codec.handshake(client.input[0]).None?
    ensures
      var s := Start(cfg, client, dial, codec, handleStatus);
      && s.ending == HandshakeFailed && !s.dialed && s.upstream.None?
      && s.client.closed == client.closed
      && (forall i | 0 <= i < |s.trace| :: s.trace[i] == Received(Client, client.input[0]))
  {
  }

  /** With a status of its own, the proxy answers a status request itself:
      no dial, the client connection the handler returns is closed
      afterwards, and what the handler returned as its error makes no
      difference. */
  lemma StatusOverride(cfg: ProxyConfig, client: Conn, dial: Option<Conn>, codec: Codec,
                       handleStatus: StatusHandler, other: StatusHandler)
    requires Asks(client, codec, StatusState) && cfg.status.Some?
    requires forall st, c :: other(st, c).0 == handleStatus(st, c).0
    ensures
      var s := Start(cfg, client, dial, codec, handleStatus);
      && s.ending == StatusAnswered && !s.dialed && s.upstream.None? && s.client.closed
      && s.trace == [Received(Client, client.input[0]), Closed(Client)]
      && s.client == handleStatus(cfg.status.value, client.(input := client.input[1..])).0.(closed := true)
      && s == Start(cfg, client, dial, codec, other)
  {
  }

  /** A next state other than status or login ends the connection's handling
      right after the handshake, leaving the client open. */
  lemma OtherStatesAreInert(cfg: ProxyConfig, client: Conn, dial: Option<Conn>, codec: Codec, handleStatus: StatusHandler)
    requires !client.closed && client.input != [] && codec.handshake(client.input[0]).Some?
    requires codec.handshake(client.input[0]).value.nextState !in {StatusState, LoginState}
    ensures
      var s := Start(cfg, client, dial, codec, handleStatus);
      && s.ending == Unhandled(codec.handshake(client.input[0]).value.nextState)
      && !s.dialed && s.upstream.None?
      && s.client == client.(input := client.input[1..])
      && s.trace == [Received(Client, client.input[0])]
  {
  }

  /** A failed dial closes nothing and sends nothing. */
  lemma DialFailureClosesNothing(cfg: ProxyConfig, client: Conn, codec: Codec, handleStatus: StatusHandler)
    requires !(Asks(client, codec, StatusState) && cfg.status.Some?)
    ensures
      var s := Start(cfg, client, None, codec, handleStatus);
      && s.upstream.None?
      && s.client.closed == client.closed
      && (s.dialed <==> s.ending == DialFailed)
      && (s.ending == DialFailed <==> Asks(client, codec, StatusState) || Asks(client, codec, LoginState))
      && (forall i | 0 <= i < |s.trace| :: s.trace[i].Received?)
  {
  }

  /** On the login path the server first gets the client's handshake, and
      then its login start, before the proxy reads anything from the
      server. */
  lemma LoginForwardsHandshakeThenLoginStart(cfg: ProxyConfig, client: Conn, server: Conn, codec: Codec, handleStatus: StatusHandler)
    requires Asks(client, codec, LoginState)
    requires |client.input| >= 2 && codec.loginStart(client.input[1]).Some?
    ensures
      var s := Start(cfg, client, Some(server), codec, handleStatus);
      var hs := codec.handshake(client.input[0]).value;
      var ls := codec.loginStart(client.input[1]).value;
      && s.dialed && s.upstream.Some? && |s.trace| >= 4
      && s.trace[0] == Received(Client, client.input[0])
      && s.trace[1] == Sent(Server, HandshakePacket(hs), Capacity(server) > 0)
      && s.trace[2] == Received(Client, client.input[1])
      && s.trace[3].Sent? && s.trace[3].side == Server && s.trace[3].packet == LoginStartPacket(ls)
  {
    var hs := codec.handshake(client.input[0]).value;
    var c1 := client.(input := client.input[1..]);
    var pc := SendPacket(ProxyConn(c1, server, [Received(Client, client.input[0])]), Server, HandshakePacket(hs)).0;
    assert pc.trace == [Received(Client, client.input[0]), Sent(Server, HandshakePacket(hs), Capacity(server) > 0)];
    LoginStartGoesFirst(pc, codec);
    var (pc2, res) := HandleLogin(pc, codec);
    var s := Start(cfg, client, Some(server), codec, handleStatus);
    if res == LoggedIn {
      var r := Proxy(pc2, cfg.onReceive);
      assert s.trace == r.trace;
      ProxyFrame(pc2, cfg.onReceive);
      Prefixes(r.trace, pc2.trace, 4);
    } else {
      assert s.trace == pc2.trace;
    }
  }

  /** Without a status of its own, the proxy relays a status request: the
      target is sent the client's handshake, the whole relay phase runs,
      both directions as FIFO filters, and then the client side and the
      server side are closed, in that order. */
  lemma StatusIsRelayed(cfg: ProxyConfig, client: Conn, server: Conn, codec: Codec, handleStatus: StatusHandler)
    requires Asks(client, codec, StatusState) && cfg.status.None?
    ensures
      var s := Start(cfg, client, Some(server), codec, handleStatus);
      var hs := codec.handshake(client.input[0]).value;
      var pc := SendPacket(ProxyConn(client.(input := client.input[1..]), server, [Received(Client, client.input[0])]),
                           Server, HandshakePacket(hs)).0;
      var r := Proxy(pc, cfg.onReceive);
      && s.ending == StatusRelayed && s.dialed && s.upstream.Some?
      && pc.trace == [Received(Client, client.input[0]), Sent(Server, HandshakePacket(hs), Capacity(server) > 0)]
      && s.trace == r.trace + [Closed(Client), Closed(Server)]
      && |s.trace| >= 4 && s.trace[..2] == pc.trace
      && (forall i | 2 <= i < |s.trace| - 2 :: s.trace[i].Received? || s.trace[i].Sent?)
      && s.client == r.client.(closed := true) && s.upstream.value == r.server.(closed := true)
      && (!server.closed ==>
            var pc0 := pc.(client := pc.client.(pool := ServerBoundPool));
            var mid := Pump(pc0, Server, cfg.onReceive);
            && FiltersFrom(pc0, mid, Server, cfg.onReceive)
            && FiltersFrom(mid, r, Client, cfg.onReceive))
  {
    var hs := codec.handshake(client.input[0]).value;
    var pc := SendPacket(ProxyConn(client.(input := client.input[1..]), server, [Received(Client, client.input[0])]),
                         Server, HandshakePacket(hs)).0;
    var r := Proxy(pc, cfg.onReceive);
    var s := Start(cfg, client, Some(server), codec, handleStatus);
    assert s == Finish(Close(Close(r, Client), Server), StatusRelayed);
    ProxyFrame(pc, cfg.onReceive);
    Prefixes(r.trace, pc.trace, 2);
    assert s.trace[..|r.trace|] == r.trace;
    forall i | 2 <= i < |s.trace| - 2
      ensures s.trace[i].Received? || s.trace[i].Sent?
    {
      assert s.trace[i] == r.trace[i];
    }
    if !server.closed {
      ProxyFilters(pc, cfg.onReceive);
    }
  }

  /** After a successful login the play session is relayed, through the
      configured callback, on the connections as the login phase left them:
      server to client first, then client to server, each direction a FIFO
      filter. Any other login result ends without relaying. */
  lemma PlaySessionIsRelayed(cfg: ProxyConfig, client: Conn, server: Conn, codec: Codec, handleStatus: StatusHandler)
    requires Asks(client, codec, LoginState) && !server.closed
    ensures
      var s := Start(cfg, client, Some(server), codec, handleStatus);
      var hs := codec.handshake(client.input[0]).value;
      var pc := SendPacket(ProxyConn(client.(input := client.input[1..]), server, [Received(Client, client.input[0])]),
                           Server, HandshakePacket(hs)).0;
      var (pc2, res) := HandleLogin(pc, codec);
      && s.dialed && s.upstream.Some?
      && (s.ending == Relayed <==> res == LoggedIn)
      && (res == LoggedIn ==>
            && ProxyConn(s.client, s.upstream.value, s.trace) == Proxy(pc2, cfg.onReceive)
            && var pc0 := pc2.(client := pc2.client.(pool := ServerBoundPool));
            && var mid := Pump(pc0, Server, cfg.onReceive);
            && FiltersFrom(pc0, mid, Server, cfg.onReceive)
            && FiltersFrom(mid, ProxyConn(s.client, s.upstream.value, s.trace), Client, cfg.onReceive))
      && (res != LoggedIn ==> ProxyConn(s.client, s.upstream.value, s.trace) == pc2)
  {
    var hs := codec.handshake(client.input[0]).value;
    var pc := SendPacket(ProxyConn(client.(input := client.input[1..]), server, [Received(Client, client.input[0])]),
                         Server, HandshakePacket(hs)).0;
    var (pc2, res) := HandleLogin(pc, codec);
    var s := Start(cfg, client, Some(server), codec, handleStatus);
    HandleLoginGuarantees(pc, codec);
    if res == LoggedIn {
      assert s == Finish(Proxy(pc2, cfg.onReceive), Relayed);
      ProxyFilters(pc2, cfg.onReceive);
    } else {
      assert s == Finish(pc2, s.ending);
    }
  }

  // ---------------------------------------------------------------------------
  // Properties of a whole connection
  // ---------------------------------------------------------------------------

  /** Relaying never switches compression. */
  lemma RelayEnablesNothing(pc: ProxyConn, onReceive: Option<Hook>)
    requires ForwardsBeforeEnabling(pc.trace)
    ensures ForwardsBeforeEnabling(Proxy(pc, onReceive).trace)
  {
    var r := Proxy(pc, onReceive);
    ProxyFrame(pc, onReceive);
    var u := r.trace[|pc.trace|..];
    assert r.trace == pc.trace + u;
    QuietAppend(pc.trace, u);
  }

  /** Over a whole connection, each side's compression is switched on only
      right after the client was handed the SetCompression packet that
      announces it. */
  lemma SessionForwardsBeforeEnabling(cfg: ProxyConfig, client: Conn, dial: Option<Conn>, codec: Codec, handleStatus: StatusHandler)
    ensures ForwardsBeforeEnabling(Start(cfg, client, dial, codec, handleStatus).trace)
  {
    var (c1, p) := Take(client);
    if p.None? {
      return;
    }
    var t1 := [Received(Client, p.value)];
    JustifiedSnoc([], Received(Client, p.value));
    assert [] + t1 == t1;
    match codec.handshake(p.value)
    case None =>
    case Some(hs) =>
      if hs.nextState == StatusState && cfg.status.Some? {
        JustifiedSnoc(t1, Closed(Client));
      } else if hs.nextState in {StatusState, LoginState} && dial.Some? {
        var (pc, ok) := SendPacket(ProxyConn(c1, dial.value, t1), Server, HandshakePacket(hs));
        JustifiedSnoc(t1, Sent(Server, HandshakePacket(hs), ok));
        if hs.nextState == StatusState {
          var q := Proxy(pc, cfg.onReceive);
          RelayEnablesNothing(pc, cfg.onReceive);
          JustifiedSnoc(q.trace, Closed(Client));
          JustifiedSnoc(Close(q, Client).trace, Closed(Server));
        } else {
          HandleLoginGuarantees(pc, codec);
          var (pc2, res) := HandleLogin(pc, codec);
          if res == LoggedIn {
            RelayEnablesNothing(pc2, cfg.onReceive);
          }
        }
      }
  }

  /** If the client and the dialled server start with the same compression
      threshold, they end with the same one. */
  lemma SessionCompressionSymmetric(cfg: ProxyConfig, client: Conn, dial: Option<Conn>, codec: Codec, handleStatus: StatusHandler)
    requires dial.Some? ==> client.threshold == dial.value.threshold
    ensures
      var s := Start(cfg, client, dial, codec, handleStatus);
      s.upstream.Some? ==> s.client.threshold == s.upstream.value.threshold
  {
    var (c1, p) := Take(client);
    if p.Some? && codec.handshake(p.value).Some? && dial.Some? {
      var hs := codec.handshake(p.value).value;
      var pc := SendPacket(ProxyConn(c1, dial.value, [Received(Client, p.value)]), Server, HandshakePacket(hs)).0;
      if hs.nextState == StatusState && cfg.status.None? {
        ProxyFrame(pc, cfg.onReceive);
      } else if hs.nextState == LoginState {
        HandleLoginGuarantees(pc, codec);
        var pc2 := HandleLogin(pc, codec).0;
        ProxyFrame(pc2, cfg.onReceive);
      }
    }
  }

  /** Which connections are open when `start` returns, given that both were
      open at the start: the client is closed after a status exchange and
      after an encryption request, the server after a relayed status
      exchange and after an encryption request, and nothing else closes
      either, not even a finished play session. */
  lemma WhoClosesWhat(cfg: ProxyConfig, client: Conn, dial: Option<Conn>, codec: Codec, handleStatus: StatusHandler)
    requires !client.closed && (dial.Some? ==> !dial.value.closed)
    ensures
      var s := Start(cfg, client, dial, codec, handleStatus);
      && (s.client.closed <==> s.ending in {StatusAnswered, StatusRelayed, LoginFailed(OnlineModeUnsupported)})
      && (s.upstream.Some? ==>
            (s.upstream.value.closed <==> s.ending in {StatusRelayed, LoginFailed(OnlineModeUnsupported)}))
  {
    var (c1, p) := Take(client);
    if p.Some? && codec.handshake(p.value).Some? && dial.Some? {
      var hs := codec.handshake(p.value).value;
      var pc := SendPacket(ProxyConn(c1, dial.value, [Received(Client, p.value)]), Server, HandshakePacket(hs)).0;
      if hs.nextState == StatusState && cfg.status.None? {
        ProxyFrame(pc, cfg.onReceive);
      } else if hs.nextState == LoginState {
        HandleLoginGuarantees(pc, codec);
        var pc2 := HandleLogin(pc, codec).0;
        ProxyFrame(pc2, cfg.onReceive);
      }
    }
  }

  /** A play session is relayed only after a login success was handed to
      the client; both connections then carry that login's identity, the
      client reads with the server-bound pool, and everything after the
      hand-off is relaying. Outside the relaying endings the client's pool
      is left alone. */
  lemma RelaysOnlyAfterLoginSuccess(cfg: ProxyConfig, client: Conn, dial: Option<Conn>, codec: Codec, handleStatus: StatusHandler)
    ensures
      var s := Start(cfg, client, dial, codec, handleStatus);
      && (s.ending == Relayed ==>
            && Asks(client, codec, LoginState) && s.upstream.Some?
            && s.client.pool == ServerBoundPool
            && s.client.identity == s.upstream.value.identity
            && exists k | 0 <= k < |s.trace| ::
                 && s.trace[k].Sent? && s.trace[k].side == Client && s.trace[k].packet.LoginSuccessPacket?
                 && s.client.identity == IdentityOf(s.trace[k].packet.success)
                 && (forall i | k < i < |s.trace| :: s.trace[i].Received? || s.trace[i].Sent?))
      && (s.ending !in {Relayed, StatusRelayed, StatusAnswered} ==> s.client.pool == client.pool)
  {
    var (c1, p) := Take(client);
    if p.Some? && codec.handshake(p.value).Some? && dial.Some? {
      var hs := codec.handshake(p.value).value;
      var pc := SendPacket(ProxyConn(c1, dial.value, [Received(Client, p.value)]), Server, HandshakePacket(hs)).0;
      if hs.nextState == LoginState {
        HandleLoginGuarantees(pc, codec);
        var (pc2, res) := HandleLogin(pc, codec);
        if res == LoggedIn {
          ProxyFrame(pc2, cfg.onReceive);
          var r := Proxy(pc2, cfg.onReceive);
          var k := |pc2.trace| - 1;
          assert r.trace[k] == pc2.trace[k];
        }
      }
    }
  }
}
