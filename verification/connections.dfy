/** Connections as immutable records, and the pair of them the proxy holds for
    one player (`ProxyConn` in proxy.go). Socket framing, compression and the
    packet pools belong to the connection type, which is not part of this
    model: a connection here is what its peer will still deliver, how many more
    packets its peer accepts, and the session state the proxy changes. */
module Connections {
  import opened Common
  import opened Packets

  /** Which packet pool decodes what the connection reads. */
  datatype Pool = InitialPool | ServerBoundPool

  /** The session identity a connection carries once login succeeds. */
  datatype Identity = Identity(name: string, uuid: Uuid, properties: seq<Property>)

  const Anonymous: Identity := Identity("", NilUuid, [])

  /** `input`: the packets the peer still sends, in order; a read past the end
      fails, as a read from a peer that hung up does.
      `room`: how many more packets the peer accepts before a send fails.
      `threshold`: the compression threshold, -1 while compression is off. */
  datatype Conn = Conn(
    input: seq<Packet>,
    room: nat,
    threshold: int,
    identity: Identity,
    closed: bool,
    pool: Pool)

  /** A connection as it is when accepted or dialled. */
  function Fresh(input: seq<Packet>, room: nat): (r: Conn) {
    Conn(input, room, -1, Anonymous, false, InitialPool)
  }

  /** How many more sends on `c` succeed. */
  function Capacity(c: Conn): (r: nat) {
    if c.closed then 0 else c.room
  }

  /** The client side (`conn`) and the server side (`dialConn`). */
  datatype Side = Client | Server

  function Other(s: Side): (r: Side) {
    if s == Client then Server else Client
  }

  /** What happened on which connection, in program order. A send records the
      packet handed to `SendPacket` and whether it went through. */
  datatype Event =
    | Received(side: Side, packet: Packet)
    | Sent(side: Side, packet: Packet, delivered: bool)
    | CompressionEnabled(side: Side, threshold: int32)
    | Closed(side: Side)

  /** The client connection, the server connection, and everything done to
      them so far. */
  datatype ProxyConn = ProxyConn(client: Conn, server: Conn, trace: seq<Event>) {

    function On(s: Side): (r: Conn) {
      if s == Client then client else server
    }

    function With(s: Side, c: Conn): (r: ProxyConn)
      ensures r.On(s) == c && r.On(Other(s)) == On(Other(s)) && r.trace == trace
    {
      if s == Client then this.(client := c) else this.(server := c)
    }
  }

  /** One read on a single connection. */
  function Take(c: Conn): (r: (Conn, Option<Packet>))
    ensures r.1.None? <==> c.closed || c.input == []
    ensures r.1.None? ==> r.0 == c
    ensures r.1.Some? ==> r.1.value == c.input[0] && r.0 == c.(input := c.input[1..])
  {
    if c.closed || c.input == [] then (c, None) else (c.(input := c.input[1..]), Some(c.input[0]))
  }

  /** `ReadPacket` on one side: fails (None) on a closed or exhausted connection. */
  function ReadPacket(pc: ProxyConn, s: Side): (r: (ProxyConn, Option<Packet>))
    ensures r.1.None? ==> r.0 == pc
    ensures r.1.Some? ==> |pc.On(s).input| > 0 && r.1.value == pc.On(s).input[0]
    ensures r.1.Some? ==> r.0.On(s) == pc.On(s).(input := pc.On(s).input[1..])
    ensures r.0.On(Other(s)) == pc.On(Other(s))
  {
    var (c, p) := Take(pc.On(s));
    if p.None? then (pc, None)
    else (pc.With(s, c).(trace := pc.trace + [Received(s, p.value)]), p)
  }

  /** `SendPacket` on one side: goes through iff the connection is open and
      its peer still accepts packets. */
  function SendPacket(pc: ProxyConn, s: Side, p: Packet): (r: (ProxyConn, bool))
    ensures r.1 <==> Capacity(pc.On(s)) > 0
    ensures r.0.trace == pc.trace + [Sent(s, p, r.1)]
    ensures r.0.On(Other(s)) == pc.On(Other(s))
    ensures r.0.On(s) == pc.On(s).(room := if r.1 then pc.On(s).room - 1 else pc.On(s).room)
  {
    var c := pc.On(s);
    var ok := !c.closed && c.room > 0;
    var c' := if ok then c.(room := c.room - 1) else c;
    (pc.With(s, c').(trace := pc.trace + [Sent(s, p, ok)]), ok)
  }

  function EnableCompression(pc: ProxyConn, s: Side, threshold: int32): (r: ProxyConn) {
    pc.With(s, pc.On(s).(threshold := threshold)).(trace := pc.trace + [CompressionEnabled(s, threshold)])
  }

  /** `Close` is idempotent: it only sets the flag. */
  function Close(pc: ProxyConn, s: Side): (r: ProxyConn) {
    pc.With(s, pc.On(s).(closed := true)).(trace := pc.trace + [Closed(s)])
  }

  function SetIdentity(pc: ProxyConn, s: Side, id: Identity): (r: ProxyConn) {
    pc.With(s, pc.On(s).(identity := id))
  }

  // ---------------------------------------------------------------------------
  // Reading a trace back
  // ---------------------------------------------------------------------------

  /** Packets read from a side, packets handed to a side's send, or packets a
      side's send actually delivered. */
  datatype Kind = Reads | Attempts | Deliveries

  function Pick(e: Event, s: Side, k: Kind): (r: seq<Packet>) {
    match e
    case Received(side, p) => if k == Reads && side == s then [p] else []
    case Sent(side, p, ok) => if side == s && (k == Attempts || (k == Deliveries && ok)) then [p] else []
    case CompressionEnabled(_, _) => []
    case Closed(_) => []
  }

  /** The packets of kind `k` on side `s`, in trace order. */
  function Log(t: seq<Event>, s: Side, k: Kind): (r: seq<Packet>)
    decreases |t|
  {
    if t == [] then [] else Pick(t[0], s, k) + Log(t[1..], s, k)
  }

  lemma LogCons(e: Event, t: seq<Event>, s: Side, k: Kind)
    ensures Log([e] + t, s, k) == Pick(e, s, k) + Log(t, s, k)
  {
    assert ([e] + t)[1..] == t;
  }
}
