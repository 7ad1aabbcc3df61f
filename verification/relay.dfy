/** The relay phase (`ProxyConfig.proxy` in proxy.go), one direction at a
    time. The source runs the two directions concurrently, and they touch
    disjoint state: server-to-client reads the server side and sends on the
    client side, client-to-server the reverse. Each direction is modelled as a
    function of its own; their interleaving is not modelled. */
module Relay {
  import opened Common
  import opened Packets
  import opened Connections

  /** The `OnReceive` callback with its `*ProxyConn` argument left out: it is
      given the packet and whether it came from the server, and answers
      whether to forward it. */
  type Hook = (Packet, bool) -> bool

  /** A nil callback keeps everything. */
  predicate Keeps(onReceive: Option<Hook>, p: Packet, fromServer: bool) {
    onReceive.None? || onReceive.value(p, fromServer)
  }

  /** The reference filter: the packets of `ps` the callback keeps, in order. */
  function Kept(ps: seq<Packet>, onReceive: Option<Hook>, fromServer: bool): (r: seq<Packet>)
    ensures |r| <= |ps|
    decreases |ps|
  {
    if ps == [] then []
    else (if Keeps(onReceive, ps[0], fromServer) then [ps[0]] else []) + Kept(ps[1..], onReceive, fromServer)
  }

  /** One relay loop: read from `from`, ask the callback, send what it keeps
      to the other side; stop at the first failed read or failed send. */
  function Pump(pc: ProxyConn, from: Side, onReceive: Option<Hook>): (r: ProxyConn)
    ensures r.client.closed == pc.client.closed && r.server.closed == pc.server.closed
    ensures r.client.identity == pc.client.identity && r.server.identity == pc.server.identity
    ensures r.client.pool == pc.client.pool
    decreases |pc.On(from).input|
  {
    var (pc1, p) := ReadPacket(pc, from);
    match p
    case None => pc1
    case Some(pk) =>
      if !Keeps(onReceive, pk, from == Server) then
        Pump(pc1, from, onReceive)
      else
        var (pc2, ok) := SendPacket(pc1, Other(from), pk);
        if !ok then pc2 else Pump(pc2, from, onReceive)
  }

  /** The whole relay phase: the client connection switches to the
      server-bound packet pool, then each direction runs until it stops. */
  function Proxy(pc: ProxyConn, onReceive: Option<Hook>): (r: ProxyConn)
    ensures r.client.pool == ServerBoundPool
    ensures r.client.closed == pc.client.closed && r.server.closed == pc.server.closed
    ensures r.client.identity == pc.client.identity && r.server.identity == pc.server.identity
  {
    var pc0 := pc.(client := pc.client.(pool := ServerBoundPool));
    Pump(Pump(pc0, Server, onReceive), Client, onReceive)
  }

  // ---------------------------------------------------------------------------
  // Properties
  // ---------------------------------------------------------------------------

  lemma {:induction false} KeptWithoutHook(ps: seq<Packet>, fromServer: bool)
    ensures Kept(ps, None, fromServer) == ps
    decreases |ps|
  {
    if ps != [] {
      KeptWithoutHook(ps[1..], fromServer);
      assert [ps[0]] + ps[1..] == ps;
    }
  }

  /** An event a relay loop from `from` may produce. */
  predicate RelayEvent(e: Event, from: Side) {
    (e.Received? && e.side == from) || (e.Sent? && e.side == Other(from))
  }

  /** A relay loop changes nothing but what it reads from the source, the
      destination's remaining room, and the trace, to which it only appends
      reads from the source and sends to the destination. */
  lemma PumpFrame(pc: ProxyConn, from: Side, onReceive: Option<Hook>)
    ensures
      var r := Pump(pc, from, onReceive);
      && r.On(from) == pc.On(from).(input := r.On(from).input)
      && r.On(Other(from)) == pc.On(Other(from)).(room := r.On(Other(from)).room)
      && |pc.trace| <= |r.trace| && r.trace[..|pc.trace|] == pc.trace
      && (forall i | |pc.trace| <= i < |r.trace| :: RelayEvent(r.trace[i], from))
  {
    PumpKeepsConns(pc, from, onReceive);
    PumpAppendsRelays(pc, from, onReceive);
  }

  /** The connection half of PumpFrame. */
  lemma {:induction false} PumpKeepsConns(pc: ProxyConn, from: Side, onReceive: Option<Hook>)
    ensures
      var r := Pump(pc, from, onReceive);
      && r.On(from) == pc.On(from).(input := r.On(from).input)
      && r.On(Other(from)) == pc.On(Other(from)).(room := r.On(Other(from)).room)
    decreases |pc.On(from).input|
  {
    var r := Pump(pc, from, onReceive);
    var (pc1, p) := ReadPacket(pc, from);
    if p.Some? {
      var pk := p.value;
      if !Keeps(onReceive, pk, from == Server) {
        assert r == Pump(pc1, from, onReceive);
        PumpKeepsConns(pc1, from, onReceive);
      } else {
        var (pc2, ok) := SendPacket(pc1, Other(from), pk);
        assert Other(Other(from)) == from;
        if ok {
          assert r == Pump(pc2, from, onReceive);
          PumpKeepsConns(pc2, from, onReceive);
        } else {
          assert r == pc2;
        }
      }
    } else {
      assert r == pc;
    }
  }

  /** The trace half of PumpFrame. */
  lemma {:induction false} PumpAppendsRelays(pc: ProxyConn, from: Side, onReceive: Option<Hook>)
    ensures
      var r := Pump(pc, from, onReceive);
      && |pc.trace| <= |r.trace| && r.trace[..|pc.trace|] == pc.trace
      && (forall i | |pc.trace| <= i < |r.trace| :: RelayEvent(r.trace[i], from))
    decreases |pc.On(from).input|
  {
    var r := Pump(pc, from, onReceive);
    var (pc1, p) := ReadPacket(pc, from);
    if p.Some? {
      var pk := p.value;
      assert pc1.trace == pc.trace + [Received(from, pk)];
      if !Keeps(onReceive, pk, from == Server) {
        assert r == Pump(pc1, from, onReceive);
        PumpAppendsRelays(pc1, from, onReceive);
        RelayTrace(pc.trace, pc1.trace, r.trace, from);
      } else {
        var (pc2, ok) := SendPacket(pc1, Other(from), pk);
        assert pc2.trace == pc.trace + [Received(from, pk), Sent(Other(from), pk, ok)];
        if ok {
          assert r == Pump(pc2, from, onReceive);
          PumpAppendsRelays(pc2, from, onReceive);
          RelayTrace(pc.trace, pc2.trace, r.trace, from);
        }
      }
    }
  }

  /** Two extensions of a trace by relay events make one. */
  lemma RelayTrace(a: seq<Event>, b: seq<Event>, c: seq<Event>, from: Side)
    requires |a| <= |b| <= |c| && b[..|a|] == a && c[..|b|] == b
    requires forall i | |a| <= i < |b| :: RelayEvent(b[i], from)
    requires forall i | |b| <= i < |c| :: RelayEvent(c[i], from)
    ensures c[..|a|] == a
    ensures forall i | |a| <= i < |c| :: RelayEvent(c[i], from)
  {
    assert c[..|a|] == c[..|b|][..|a|];
    forall i | |a| <= i < |b|
      ensures RelayEvent(c[i], from)
    {
      assert c[i] == c[..|b|][i];
    }
  }

  /** What one relay loop does to its source, stated on sequences. `input`
      is what the source would deliver, `rest` what is left of it afterwards,
      and `taken`, `attempts`, `deliveries` are what the loop read from the
      source, handed to the destination's send, and got through. The
      destination is handed exactly the packets the callback keeps, in their
      original order, up to and including the first send that fails (the
      destination accepts `cap` more packets); the ones before that failure
      are delivered. The source is read to the end of its input, or up to the
      packet whose send failed and no further. */
  ghost predicate FifoFilter(input: seq<Packet>, rest: seq<Packet>, taken: seq<Packet>,
                             attempts: seq<Packet>, deliveries: seq<Packet>, cap: nat,
                             onReceive: Option<Hook>, fromServer: bool)
  {
    var kept := Kept(input, onReceive, fromServer);
    && |taken| <= |input|
    && input == taken + rest
    && attempts == kept[..Min(|kept|, cap + 1)]
    && deliveries == kept[..Min(|kept|, cap)]
    && |Kept(taken, onReceive, fromServer)| == Min(|kept|, cap + 1)
    && (cap < |kept| ==> taken != [] && Keeps(onReceive, taken[|taken| - 1], fromServer))
    && (|kept| <= cap ==> rest == [])
  }

  /** The part of `r`'s trace added since `pc`. */
  function Since(pc: ProxyConn, r: ProxyConn): (es: seq<Event>)
    requires |pc.trace| <= |r.trace|
  {
    r.trace[|pc.trace|..]
  }

  /** The property PumpIsFifoFilter states of a relay loop from `pc` to `r`. */
  ghost predicate FiltersFrom(pc: ProxyConn, r: ProxyConn, from: Side, onReceive: Option<Hook>) {
    && |pc.trace| <= |r.trace|
    && FifoFilter(pc.On(from).input, r.On(from).input,
                  Log(Since(pc, r), from, Reads), Log(Since(pc, r), Other(from), Attempts),
                  Log(Since(pc, r), Other(from), Deliveries), Capacity(pc.On(Other(from))),
                  onReceive, from == Server)
  }

  /** Each relay direction is a FIFO filter of its source. */
  lemma {:induction false} PumpIsFifoFilter(pc: ProxyConn, from: Side, onReceive: Option<Hook>)
    requires !pc.On(from).closed
    ensures FiltersFrom(pc, Pump(pc, from, onReceive), from, onReceive)
    decreases |pc.On(from).input|
  {
    var r := Pump(pc, from, onReceive);
    var (pc1, p) := ReadPacket(pc, from);
    if p.None? {
      assert r == pc;
      assert pc.On(from).input == [];
      assert Since(pc, r) == [];
    } else if !Keeps(onReceive, p.value, from == Server) {
      assert r == Pump(pc1, from, onReceive);
      PumpIsFifoFilter(pc1, from, onReceive);
      PumpAppendsRelays(pc1, from, onReceive);
      DropCase(pc, r, from, onReceive);
    } else {
      var (pc2, ok) := SendPacket(pc1, Other(from), p.value);
      assert Other(Other(from)) == from;
      if ok {
        assert r == Pump(pc2, from, onReceive);
        PumpIsFifoFilter(pc2, from, onReceive);
        PumpAppendsRelays(pc2, from, onReceive);
        DeliverCase(pc, r, from, onReceive);
      } else {
        assert r == pc2;
        FailCase(pc, from, onReceive);
      }
    }
  }

  /** What was added to a trace after a known head. */
  lemma SinceSplit(a: seq<Event>, head: seq<Event>, t: seq<Event>)
    requires |a + head| <= |t| && t[..|a + head|] == a + head
    ensures |a| <= |t| && t[|a|..] == head + t[|a + head|..]
  {
    assert t == t[..|a + head|] + t[|a + head|..];
    assert t == a + (head + t[|a + head|..]);
  }

  /** The logs of a read of a packet that is then dropped, followed by more. */
  lemma DropLogs(from: Side, pk: Packet, seg: seq<Event>)
    ensures
      && Log([Received(from, pk)] + seg, from, Reads) == [pk] + Log(seg, from, Reads)
      && Log([Received(from, pk)] + seg, Other(from), Attempts) == Log(seg, Other(from), Attempts)
      && Log([Received(from, pk)] + seg, Other(from), Deliveries) == Log(seg, Other(from), Deliveries)
  {
    LogCons(Received(from, pk), seg, from, Reads);
    LogCons(Received(from, pk), seg, Other(from), Attempts);
    LogCons(Received(from, pk), seg, Other(from), Deliveries);
  }

  /** The first packet is dropped: the loop goes on from the state after
      the read, and ends in `r`. */
  lemma DropCase(pc: ProxyConn, r: ProxyConn, from: Side, onReceive: Option<Hook>)
    requires !pc.On(from).closed && pc.On(from).input != []
    requires !Keeps(onReceive, pc.On(from).input[0], from == Server)
    requires
      var pc1 := ReadPacket(pc, from).0;
      && |pc1.trace| <= |r.trace| && r.trace[..|pc1.trace|] == pc1.trace
      && FiltersFrom(pc1, r, from, onReceive)
    ensures FiltersFrom(pc, r, from, onReceive)
  {
    var to := Other(from);
    var pc1 := ReadPacket(pc, from).0;
    var pk := pc.On(from).input[0];
    assert pc1.trace == pc.trace + [Received(from, pk)];
    SinceSplit(pc.trace, [Received(from, pk)], r.trace);
    var seg := Since(pc1, r);
    assert Since(pc, r) == [Received(from, pk)] + seg;
    DropLogs(from, pk, seg);
    assert pc1.On(to) == pc.On(to);
    assert pc1.On(from).input == pc.On(from).input[1..];
    DroppedStep(pc.On(from).input, r.On(from).input, Log(seg, from, Reads), Log(seg, to, Attempts),
                Log(seg, to, Deliveries), Capacity(pc.On(to)), onReceive, from == Server);
  }

  /** The log of a read and a send of the same packet, followed by more. */
  lemma HeadLog(from: Side, pk: Packet, ok: bool, seg: seq<Event>, s: Side, k: Kind)
    ensures Log([Received(from, pk), Sent(Other(from), pk, ok)] + seg, s, k)
            == Pick(Received(from, pk), s, k) + Pick(Sent(Other(from), pk, ok), s, k) + Log(seg, s, k)
  {
    var received := Received(from, pk);
    var sent := Sent(Other(from), pk, ok);
    assert [received, sent] + seg == [received] + ([sent] + seg);
    LogCons(received, [sent] + seg, s, k);
    LogCons(sent, seg, s, k);
  }

  /** The logs of a read and a send of the same packet, followed by more. */
  lemma HeadLogs(from: Side, pk: Packet, ok: bool, seg: seq<Event>)
    ensures
      var head := [Received(from, pk), Sent(Other(from), pk, ok)];
      && Log(head + seg, from, Reads) == [pk] + Log(seg, from, Reads)
      && Log(head + seg, Other(from), Attempts) == [pk] + Log(seg, Other(from), Attempts)
      && Log(head + seg, Other(from), Deliveries) == (if ok then [pk] else []) + Log(seg, Other(from), Deliveries)
  {
    HeadLog(from, pk, ok, seg, from, Reads);
    HeadLog(from, pk, ok, seg, Other(from), Attempts);
    HeadLog(from, pk, ok, seg, Other(from), Deliveries);
  }

  /** The first packet is kept and its send fails: the loop stops right
      there. */
  lemma FailCase(pc: ProxyConn, from: Side, onReceive: Option<Hook>)
    requires !pc.On(from).closed && pc.On(from).input != []
    requires Keeps(onReceive, pc.On(from).input[0], from == Server)
    requires Capacity(pc.On(Other(from))) == 0
    ensures FiltersFrom(pc, SendPacket(ReadPacket(pc, from).0, Other(from), pc.On(from).input[0]).0, from, onReceive)
  {
    var to := Other(from);
    assert Other(to) == from;
    var pc1 := ReadPacket(pc, from).0;
    var pk := pc.On(from).input[0];
    var r := SendPacket(pc1, to, pk).0;
    var head := [Received(from, pk), Sent(to, pk, false)];
    assert r.trace == pc.trace + head;
    HeadLogs(from, pk, false, []);
    assert head + [] == head;
    assert Since(pc, r) == head;
    FailedStep(pc.On(from).input, Capacity(pc.On(to)), onReceive, from == Server);
  }

  /** The first packet is kept and delivered: the loop goes on from the
      state after the send, and ends in `r`. */
  lemma DeliverCase(pc: ProxyConn, r: ProxyConn, from: Side, onReceive: Option<Hook>)
    requires !pc.On(from).closed && pc.On(from).input != []
    requires Keeps(onReceive, pc.On(from).input[0], from == Server)
    requires Capacity(pc.On(Other(from))) > 0
    requires
      var pc2 := SendPacket(ReadPacket(pc, from).0, Other(from), pc.On(from).input[0]).0;
      && |pc2.trace| <= |r.trace| && r.trace[..|pc2.trace|] == pc2.trace
      && FiltersFrom(pc2, r, from, onReceive)
    ensures FiltersFrom(pc, r, from, onReceive)
  {
    var to := Other(from);
    var input := pc.On(from).input;
    var pk := input[0];
    var pc1 := ReadPacket(pc, from).0;
    var pc2 := SendPacket(pc1, to, pk).0;
    var head := [Received(from, pk), Sent(to, pk, true)];
    assert pc2.trace == pc.trace + head;
    SinceSplit(pc.trace, head, r.trace);
    var seg := Since(pc2, r);
    assert Since(pc, r) == head + seg;
    assert Other(to) == from;
    assert Capacity(pc2.On(to)) == Capacity(pc.On(to)) - 1;
    assert pc2.On(from).input == input[1..];
    DeliverCompose(input, r.On(from).input, seg, from, Capacity(pc.On(to)), onReceive);
  }

  /** DeliveredStep, read off the events of a read and a successful send
      followed by the rest of the loop. */
  lemma DeliverCompose(input: seq<Packet>, rest: seq<Packet>, seg: seq<Event>, from: Side, cap: nat, onReceive: Option<Hook>)
    requires |input| > 0 && Keeps(onReceive, input[0], from == Server) && cap > 0
    requires FifoFilter(input[1..], rest, Log(seg, from, Reads), Log(seg, Other(from), Attempts),
                        Log(seg, Other(from), Deliveries), cap - 1, onReceive, from == Server)
    ensures
      var t := [Received(from, input[0]), Sent(Other(from), input[0], true)] + seg;
      FifoFilter(input, rest, Log(t, from, Reads), Log(t, Other(from), Attempts),
                 Log(t, Other(from), Deliveries), cap, onReceive, from == Server)
  {
    HeadLogs(from, input[0], true, seg);
    DeliveredStep(input, rest, Log(seg, from, Reads), Log(seg, Other(from), Attempts),
                  Log(seg, Other(from), Deliveries), cap, onReceive, from == Server);
  }

  /** The first packet is read and the callback drops it. */
  lemma DroppedStep(input: seq<Packet>, rest: seq<Packet>, taken: seq<Packet>, attempts: seq<Packet>,
                    deliveries: seq<Packet>, cap: nat, onReceive: Option<Hook>, fromServer: bool)
    requires |input| > 0 && !Keeps(onReceive, input[0], fromServer)
    requires FifoFilter(input[1..], rest, taken, attempts, deliveries, cap, onReceive, fromServer)
    ensures FifoFilter(input, rest, [input[0]] + taken, attempts, deliveries, cap, onReceive, fromServer)
  {
    assert input == [input[0]] + input[1..];
    assert ([input[0]] + taken)[1..] == taken;
    assert Kept(input, onReceive, fromServer) == Kept(input[1..], onReceive, fromServer);
    assert Kept([input[0]] + taken, onReceive, fromServer) == Kept(taken, onReceive, fromServer);
  }

  /** The first packet is kept and its send fails: the loop stops there. */
  lemma FailedStep(input: seq<Packet>, cap: nat, onReceive: Option<Hook>, fromServer: bool)
    requires |input| > 0 && Keeps(onReceive, input[0], fromServer) && cap == 0
    ensures FifoFilter(input, input[1..], [input[0]], [input[0]], [], cap, onReceive, fromServer)
  {
    assert input == [input[0]] + input[1..];
    assert Kept([input[0]], onReceive, fromServer) == [input[0]] + Kept([], onReceive, fromServer);
  }

  /** The first packet is kept and delivered; the loop goes on. */
  lemma DeliveredStep(input: seq<Packet>, rest: seq<Packet>, taken: seq<Packet>, attempts: seq<Packet>,
                      deliveries: seq<Packet>, cap: nat, onReceive: Option<Hook>, fromServer: bool)
    requires |input| > 0 && Keeps(onReceive, input[0], fromServer) && cap > 0
    requires FifoFilter(input[1..], rest, taken, attempts, deliveries, cap - 1, onReceive, fromServer)
    ensures FifoFilter(input, rest, [input[0]] + taken, [input[0]] + attempts, [input[0]] + deliveries,
                       cap, onReceive, fromServer)
  {
    var kept' := Kept(input[1..], onReceive, fromServer);
    var kept := Kept(input, onReceive, fromServer);
    assert kept == [input[0]] + kept';
    assert input == [input[0]] + input[1..];
    assert ([input[0]] + taken)[1..] == taken;
    assert kept[..Min(|kept|, cap + 1)] == [input[0]] + kept'[..Min(|kept'|, cap)];
    assert kept[..Min(|kept|, cap)] == [input[0]] + kept'[..Min(|kept'|, cap - 1)];
  }

  /** A run whose last packet is kept keeps at least one packet. */
  lemma {:induction false} KeptLast(q: seq<Packet>, onReceive: Option<Hook>, fromServer: bool)
    requires q != [] && Keeps(onReceive, q[|q| - 1], fromServer)
    ensures |Kept(q, onReceive, fromServer)| >= 1
    decreases |q|
  {
    var head := if Keeps(onReceive, q[0], fromServer) then [q[0]] else [];
    assert Kept(q, onReceive, fromServer) == head + Kept(q[1..], onReceive, fromServer);
    if |q| > 1 {
      assert q[1..][|q| - 2] == q[|q| - 1];
      KeptLast(q[1..], onReceive, fromServer);
    }
  }

  /** Extending a run of packets by some ending in a kept one keeps more. */
  lemma {:induction false} MoreKept(p: seq<Packet>, q: seq<Packet>, onReceive: Option<Hook>, fromServer: bool)
    requires |p| < |q| && q[..|p|] == p && Keeps(onReceive, q[|q| - 1], fromServer)
    ensures |Kept(p, onReceive, fromServer)| < |Kept(q, onReceive, fromServer)|
    decreases |p|
  {
    if p == [] {
      KeptLast(q, onReceive, fromServer);
    } else {
      assert q[0] == p[0];
      var head := if Keeps(onReceive, p[0], fromServer) then [p[0]] else [];
      assert Kept(p, onReceive, fromServer) == head + Kept(p[1..], onReceive, fromServer);
      assert Kept(q, onReceive, fromServer) == head + Kept(q[1..], onReceive, fromServer);
      assert q[1..][..|p| - 1] == p[1..];
      assert q[1..][|q| - 2] == q[|q| - 1];
      MoreKept(p[1..], q[1..], onReceive, fromServer);
    }
  }

  /** The filter specification leaves no choice: for a given source,
      callback and destination room, one split into read and unread packets,
      one attempt log and one delivery log meet it. In particular the loop
      stops right after the failed send, even when only dropped packets
      follow. */
  lemma FifoFilterUnique(input: seq<Packet>, rest1: seq<Packet>, taken1: seq<Packet>, attempts1: seq<Packet>,
                         deliveries1: seq<Packet>, rest2: seq<Packet>, taken2: seq<Packet>, attempts2: seq<Packet>,
                         deliveries2: seq<Packet>, cap: nat, onReceive: Option<Hook>, fromServer: bool)
    requires FifoFilter(input, rest1, taken1, attempts1, deliveries1, cap, onReceive, fromServer)
    requires FifoFilter(input, rest2, taken2, attempts2, deliveries2, cap, onReceive, fromServer)
    ensures taken1 == taken2 && rest1 == rest2 && attempts1 == attempts2 && deliveries1 == deliveries2
  {
    var kept := Kept(input, onReceive, fromServer);
    assert input[..|taken1|] == taken1;
    assert input[..|taken2|] == taken2;
    if cap < |kept| {
      if |taken1| < |taken2| {
        assert taken2[..|taken1|] == taken1;
        MoreKept(taken1, taken2, onReceive, fromServer);
        assert false;
      } else if |taken2| < |taken1| {
        assert taken1[..|taken2|] == taken2;
        MoreKept(taken2, taken1, onReceive, fromServer);
        assert false;
      }
    }
    assert taken1 == taken2;
    assert rest1 == input[|taken1|..] == rest2;
  }

  /** With a destination that accepts everything, a relay direction takes
      its whole input and delivers exactly the kept packets; with no callback,
      that is the whole input. */
  lemma PumpDeliversAllKept(pc: ProxyConn, from: Side, onReceive: Option<Hook>)
    requires !pc.On(from).closed && !pc.On(Other(from)).closed
    requires |Kept(pc.On(from).input, onReceive, from == Server)| <= pc.On(Other(from)).room
    ensures
      var r := Pump(pc, from, onReceive);
      && r.On(from).input == []
      && |pc.trace| <= |r.trace|
      && Log(Since(pc, r), Other(from), Deliveries) == Kept(pc.On(from).input, onReceive, from == Server)
      && (onReceive.None? ==> Log(Since(pc, r), Other(from), Deliveries) == pc.On(from).input)
  {
    var input := pc.On(from).input;
    var kept := Kept(input, onReceive, from == Server);
    PumpIsFifoFilter(pc, from, onReceive);
    assert kept[..Min(|kept|, Capacity(pc.On(Other(from))))] == kept;
    KeptWithoutHook(input, from == Server);
  }

  /** The relay phase, direction by direction: once the client has switched
      pools, the server-to-client direction is a FIFO filter of the server's
      input, and then the client-to-server direction is one of the
      client's. */
  lemma ProxyFilters(pc: ProxyConn, onReceive: Option<Hook>)
    requires !pc.client.closed && !pc.server.closed
    ensures
      var pc0 := pc.(client := pc.client.(pool := ServerBoundPool));
      var mid := Pump(pc0, Server, onReceive);
      && FiltersFrom(pc0, mid, Server, onReceive)
      && FiltersFrom(mid, Proxy(pc, onReceive), Client, onReceive)
  {
    var pc0 := pc.(client := pc.client.(pool := ServerBoundPool));
    var mid := Pump(pc0, Server, onReceive);
    PumpIsFifoFilter(pc0, Server, onReceive);
    PumpFrame(pc0, Server, onReceive);
    assert !mid.client.closed;
    PumpIsFifoFilter(mid, Client, onReceive);
  }

  /** The whole relay phase switches the client connection to the
      server-bound pool and otherwise changes only what is read and how much
      room is left: thresholds, identities and open/closed state stay as they
      were, and the trace only grows by reads and sends. */
  lemma ProxyFrame(pc: ProxyConn, onReceive: Option<Hook>)
    ensures
      var r := Proxy(pc, onReceive);
      && r.client == pc.client.(input := r.client.input, room := r.client.room, pool := ServerBoundPool)
      && r.server == pc.server.(input := r.server.input, room := r.server.room)
      && |pc.trace| <= |r.trace| && r.trace[..|pc.trace|] == pc.trace
      && (forall i | |pc.trace| <= i < |r.trace| :: r.trace[i].Received? || r.trace[i].Sent?)
  {
    var pc0 := pc.(client := pc.client.(pool := ServerBoundPool));
    var pc1 := Pump(pc0, Server, onReceive);
    PumpFrame(pc0, Server, onReceive);
    PumpFrame(pc1, Client, onReceive);
    var r := Pump(pc1, Client, onReceive);
    forall i | |pc.trace| <= i < |r.trace|
      ensures r.trace[i].Received? || r.trace[i].Sent?
    {
      if i < |pc1.trace| {
        assert r.trace[i] == pc1.trace[i];
        assert RelayEvent(pc1.trace[i], Server);
      } else {
        assert RelayEvent(r.trace[i], Client);
      }
    }
  }
}
