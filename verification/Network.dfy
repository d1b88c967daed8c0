// The two sessions over byte streams: what is sent is encoded, arrives in
// chunks of any size, and is framed again by the parser of the receiver.
// Every run of this system is a run of the packet-level system of Sessions.
module Network {
  import opened Protocol
  import opened StreamParser
  import opened StreamCodec
  import opened TestTypes
  import opened Generator
  import opened ReceiveStats
  import opened Wrappers
  import opened Sessions
  import opened SessionInvariant
  import opened SessionTheorems
  import opened Controller

  // One direction: bytes on their way, and the parser at the far end.
  datatype Link = Link(wire: Bytes, buffer: Bytes, streak: nat)

  datatype Net = Net(
    client: Party<ClientPc>,
    server: Party<ServerPc>,
    up: Link,
    down: Link,
    clientFailed: bool,
    serverFailed: bool)

  datatype NetEvent =
    | Session(e: Event)            // a session runs or times out, as in Sessions
    | ServerChunk(size: nat)       // a receive completes with that many bytes
    | ClientChunk(size: nat)

  function DispatchAll<Pc>(p: Party<Pc>, packets: seq<Packet>): Party<Pc>
    decreases |packets|
  {
    if packets == [] then p else DispatchAll(Dispatch(p, packets[0]), packets[1..])
  }

  // receiverLoop after one receive: append, drain, count failures, dispatch.
  function ReceiveChunk<Pc>(p: Party<Pc>, link: Link, size: nat): (Party<Pc>, Link)
    requires size <= |link.wire|
  {
    var r := Parse(MAX_PAYLOAD, link.buffer + link.wire[..size], link.streak);
    var counted := p.(counters := p.counters.(failedChecksums := p.counters.failedChecksums + r.checksumFailures));
    (DispatchAll(counted, r.packets), Link(link.wire[size..], r.rest, r.streak))
  }

  lemma {:induction false} DispatchAllKeeps<Pc>(p: Party<Pc>, packets: seq<Packet>)
    ensures var p' := DispatchAll(p, packets); p' == p.(counters := p'.counters, inbox := p'.inbox)
    decreases |packets|
  {
    hide OnData;
    if packets != [] {
      DispatchAllKeeps(Dispatch(p, packets[0]), packets[1..]);
    }
  }

  // The sessions themselves do not look at the streams.
  function Core(n: Net): System {
    System(n.client, n.server, [], [], n.clientFailed, n.serverFailed)
  }

  predicate NetEnabled(n: Net, e: NetEvent) {
    match e
    case Session(e) => !e.ServerReceives? && !e.ClientReceives? && Enabled(Core(n), e)
    case ServerChunk(size) => 1 <= size <= |n.up.wire| && size <= RECEIVE_BUFFER_SIZE
    case ClientChunk(size) => 1 <= size <= |n.down.wire| && size <= RECEIVE_BUFFER_SIZE
  }

  function NetStep(codec: Codec, n: Net, e: NetEvent): Net
    requires NetEnabled(n, e)
  {
    match e
    case Session(e) =>
      var s := Step(codec, Core(n), e);
      Net(s.client, s.server,
          n.up.(wire := n.up.wire + EncodeAll(s.up)), n.down.(wire := n.down.wire + EncodeAll(s.down)),
          s.clientFailed, s.serverFailed)
    case ServerChunk(size) =>
      var (server, up) := ReceiveChunk(n.server, n.up, size);
      n.(server := server, up := up)
    case ClientChunk(size) =>
      var (client, down) := ReceiveChunk(n.client, n.down, size);
      n.(client := client, down := down)
  }

  // ---------- Session steps over bytes ----------

  function Extended(link: Link, packets: seq<Packet>): Link {
    link.(wire := link.wire + EncodeAll(packets))
  }

  lemma ExtendedNothing(link: Link)
    ensures Extended(link, []) == link
  {
    assert link.wire + [] == link.wire;
  }

  lemma ClientNetStep(codec: Codec, n: Net, reported: nat)
    requires NetEnabled(n, Session(ClientRuns(reported)))
    ensures NetStep(codec, n, Session(ClientRuns(reported)))
         == match ClientStep(codec, n.client, reported)
            case None => n.(clientFailed := true)
            case Some(c) => n.(client := c, up := Extended(n.up, ClientSends(codec, n.client)))
  {
    hide ClientStep, ClientSends, ClientReady, EncodeAll;
    assert EncodeAll([]) == [] by { NothingEncoded(); }
    assert n.down.wire + [] == n.down.wire && n.up.wire + [] == n.up.wire;
    assert [] + ClientSends(codec, n.client) == ClientSends(codec, n.client);
  }

  lemma ServerNetStep(codec: Codec, n: Net, reported: nat)
    requires NetEnabled(n, Session(ServerRuns(reported)))
    ensures NetStep(codec, n, Session(ServerRuns(reported)))
         == match ServerStep(codec, n.server, reported)
            case None => n.(serverFailed := true)
            case Some(v) => n.(server := v, down := Extended(n.down, ServerSends(codec, n.server)))
  {
    hide ServerStep, ServerSends, ServerReady, EncodeAll;
    assert EncodeAll([]) == [] by { NothingEncoded(); }
    assert n.down.wire + [] == n.down.wire && n.up.wire + [] == n.up.wire;
    assert [] + ServerSends(codec, n.server) == ServerSends(codec, n.server);
  }

  lemma TimeoutNetStep(codec: Codec, n: Net, x: Event)
    requires NetEnabled(n, Session(x)) && IsTimeout(x)
    ensures NetStep(codec, n, Session(x))
         == if x.ClientTimesOut? then n.(clientFailed := true) else n.(serverFailed := true)
  {
    NothingEncoded();
    assert n.down.wire + [] == n.down.wire && n.up.wire + [] == n.up.wire;
  }

  lemma NothingEncoded()
    ensures EncodeAll([]) == []
  {
  }

  // ---------- Refinement ----------

  // The bytes received but not parsed and those still on their way are exactly
  // the packets in transit.
  ghost predicate Spells(link: Link, packets: seq<Packet>) {
    && link.buffer + link.wire == EncodeAll(packets)
    && AllValid(packets, MAX_PAYLOAD)
    && Settled(MAX_PAYLOAD, link.buffer)
    && link.streak == 0
  }

  ghost predicate Represents(n: Net, s: System) {
    && n.client == s.client && n.server == s.server
    && n.clientFailed == s.clientFailed && n.serverFailed == s.serverFailed
    && Spells(n.up, s.up) && Spells(n.down, s.down)
  }

  // A chunk completes some whole number of packets.
  lemma ParseDelivers(link: Link, packets: seq<Packet>, size: nat) returns (j: nat)
    requires Spells(link, packets) && size <= |link.wire|
    ensures j <= |packets|
    ensures var r := Parse(MAX_PAYLOAD, link.buffer + link.wire[..size], link.streak);
            && r.packets == packets[..j] && r.checksumFailures == 0
            && Spells(Link(link.wire[size..], r.rest, r.streak), packets[j..])
  {
    hide NextStep, EncodePacket, ValidPacket, Parse;
    var k := |link.buffer| + size;
    var front := link.buffer + link.wire[..size];
    assert front == EncodeAll(packets)[..k];
    j := FirstArrived(packets, k);
    ParseWhole(MAX_PAYLOAD, packets, j, k);
    ParseExtend(MAX_PAYLOAD, front, [], 0);
    var r := Parse(MAX_PAYLOAD, front, 0);
    SpellsRest(link, packets, j, k, size, r.rest);
  }

  lemma ChunkDelivers<Pc>(p: Party<Pc>, link: Link, packets: seq<Packet>, size: nat) returns (j: nat)
    requires Spells(link, packets) && size <= |link.wire|
    ensures j <= |packets|
    ensures var (p', link') := ReceiveChunk(p, link, size);
            p' == DispatchAll(p, packets[..j]) && Spells(link', packets[j..])
  {
    hide Spells, Parse, Dispatch;
    j := ParseDelivers(link, packets, size);
    assert p.(counters := p.counters.(failedChecksums := p.counters.failedChecksums + 0)) == p;
  }

  lemma SpellsRest(link: Link, packets: seq<Packet>, j: nat, k: nat, size: nat, rest: Bytes)
    requires Spells(link, packets) && ArrivedWhole(packets, j, k) && k == |link.buffer| + size && size <= |link.wire|
    requires rest == EncodeAll(packets)[|EncodeAll(packets[..j])|..k]
    requires Settled(MAX_PAYLOAD, rest)
    ensures Spells(Link(link.wire[size..], rest, 0), packets[j..])
  {
    hide NextStep, EncodePacket, ValidPacket;
    var all, done := EncodeAll(packets), EncodeAll(packets[..j]);
    assert packets == packets[..j] + packets[j..];
    EncodeAllConcat(packets[..j], packets[j..]);
    hide Settled, EncodeAll;
    Remainder(link.buffer, link.wire, all, size, |done|);
    assert all[|done|..] == EncodeAll(packets[j..]);
  }

  lemma Remainder(buffer: Bytes, wire: Bytes, all: Bytes, size: nat, d: nat)
    requires buffer + wire == all && size <= |wire| && d <= |buffer| + size
    ensures all[d..|buffer| + size] + wire[size..] == all[d..]
  {
  }

  lemma {:induction false} DeliverToServer(codec: Codec, s: System, j: nat) returns (events: seq<Event>)
    requires j <= |s.up|
    ensures |events| == j && forall e | e in events :: e == ServerReceives
    ensures IsRun(codec, s, events)
    ensures End(codec, s, events) == s.(server := DispatchAll(s.server, s.up[..j]), up := s.up[j..])
    decreases j
  {
    hide Dispatch;
    if j == 0 {
      events := [];
    } else {
      var s' := Step(codec, s, ServerReceives);
      var later := DeliverToServer(codec, s', j - 1);
      events := [ServerReceives] + later;
      assert events[1..] == later && s.up[..j][1..] == s'.up[..j - 1] && s'.up[j - 1..] == s.up[j..];
    }
  }

  lemma {:induction false} DeliverToClient(codec: Codec, s: System, j: nat) returns (events: seq<Event>)
    requires j <= |s.down|
    ensures |events| == j && forall e | e in events :: e == ClientReceives
    ensures IsRun(codec, s, events)
    ensures End(codec, s, events) == s.(client := DispatchAll(s.client, s.down[..j]), down := s.down[j..])
    decreases j
  {
    hide Dispatch;
    if j == 0 {
      events := [];
    } else {
      var s' := Step(codec, s, ClientReceives);
      var later := DeliverToClient(codec, s', j - 1);
      events := [ClientReceives] + later;
      assert events[1..] == later && s.down[..j][1..] == s'.down[..j - 1] && s'.down[j - 1..] == s.down[j..];
    }
  }

  // Statistics about to be sent are in the range of their 64-bit fields.
  lemma SentStatsFit(codec: Codec, config: Config, s: System)
    requires Inv(codec, config, s)
    ensures s.client.pc.CSendStats? ==> FitsInt64(s.client.lastStats)
    ensures s.client.pc.CSendStats2? ==> FitsInt64(s.client.clientStats2)
    ensures s.server.pc.SSendStatsAck? ==> FitsInt64(s.server.serverStats1)
    ensures s.server.pc.SSendStatsAck2? ==> FitsInt64(s.server.serverStats2)
  {
    hide Checksum, Wrap32, Counted, Batch, FitsInt64, Final;
    FinalFits(config);
    FinalFits(ServerSide(config));
    if HasSent(s.client, Total(config)) {
      SentFits(s.client, config);
    }
    if HasSent(s.server, Total(config)) {
      SentFits(s.server, config);
    }
  }

  lemma ControlValid(kind: Byte, payload: Bytes)
    requires |payload| <= MAX_PAYLOAD
    ensures AllValid([ControlPacket(kind, payload)], MAX_PAYLOAD)
  {
    ControlPacketValid(kind, payload);
    hide ValidPacket, ControlPacket;
  }

  lemma DataValid(config: Config, i: nat)
    requires HEADER_SIZE <= config.packetSize <= HEADER_SIZE + MAX_PAYLOAD
    ensures AllValid([Numbered(config, i)], MAX_PAYLOAD)
  {
    DataPacketValid(config, Wrap32(i), MAX_PAYLOAD);
    hide ValidPacket, DataPacket, Wrap32;
  }

  // No data packet above the bound of the parsers is about to be sent.
  predicate DataFits(config: Config, c: ClientPc, v: ServerPc) {
    (c.CSendData? || v.SSendData?) ==> config.packetSize <= HEADER_SIZE + MAX_PAYLOAD
  }

  lemma ClientSendsValid(codec: Codec, config: Config, c: Party<ClientPc>)
    requires Lossless(codec) && c.config == config
    requires c.pc.CSendData? ==> config.packetSize <= HEADER_SIZE + MAX_PAYLOAD
    requires c.pc.CSendStats? ==> FitsInt64(c.lastStats)
    requires c.pc.CSendStats2? ==> FitsInt64(c.clientStats2)
    ensures AllValid(ClientSends(codec, c), MAX_PAYLOAD)
  {
    hide Numbered, ControlPacket, FitsInt64, AllValid;
    match c.pc
    case CSendConfig => ControlValid(CONFIG_HANDSHAKE, codec.encConfig(c.config));
    case CSendData =>
      if config.packetSize >= HEADER_SIZE {
        DataValid(config, c.sent);
      } else {
        NothingValid();
      }
    case CSendFin => ControlValid(TEST_FIN, []);
    case CSendStats => ControlValid(STATS_EXCHANGE, codec.encStats(c.lastStats));
    case CSendStats2 => ControlValid(STATS_EXCHANGE, codec.encStats(c.clientStats2));
    case CSendReady => ControlValid(CLIENT_READY, []);
    case CSendShutdown => ControlValid(SHUTDOWN_ACK, []);
    case _ => NothingValid();
  }

  lemma ServerSendsValid(codec: Codec, config: Config, v: Party<ServerPc>)
    requires Lossless(codec)
    requires v.pc.SSendData? ==> v.config == config && config.packetSize <= HEADER_SIZE + MAX_PAYLOAD
    requires v.pc.SSendStatsAck? ==> FitsInt64(v.serverStats1)
    requires v.pc.SSendStatsAck2? ==> FitsInt64(v.serverStats2)
    ensures AllValid(ServerSends(codec, v), MAX_PAYLOAD)
  {
    hide Numbered, ControlPacket, FitsInt64, AllValid;
    match v.pc
    case SSendAck => ControlValid(CONFIG_ACK, []);
    case SSendFin | SSendFin2 => ControlValid(TEST_FIN, []);
    case SSendStatsAck => ControlValid(STATS_ACK, codec.encStats(v.serverStats1));
    case SSendData =>
      if config.packetSize >= HEADER_SIZE {
        DataValid(config, v.sent);
      } else {
        NothingValid();
      }
    case SSendStatsAck2 => ControlValid(STATS_ACK, codec.encStats(v.serverStats2));
    case _ => NothingValid();
  }

  lemma NothingValid()
    ensures AllValid([], MAX_PAYLOAD)
  {
  }

  // What the sessions put on the streams is what their receivers accept.
  lemma SendsValid(codec: Codec, config: Config, s: System)
    requires Lossless(codec) && Inv(codec, config, s) && DataFits(config, s.client.pc, s.server.pc)
    ensures AllValid(ClientSends(codec, s.client), MAX_PAYLOAD)
    ensures AllValid(ServerSends(codec, s.server), MAX_PAYLOAD)
  {
    hide Linked, Lossless, AllValid, ClientSends, ServerSends;
    SentStatsFit(codec, config, s);
    ClientSendsValid(codec, config, s.client);
    ServerSendsValid(codec, ServerSide(config), s.server);
  }

  lemma SpellsSent(link: Link, packets: seq<Packet>, more: seq<Packet>)
    requires Spells(link, packets) && AllValid(more, MAX_PAYLOAD)
    ensures Spells(link.(wire := link.wire + EncodeAll(more)), packets + more)
  {
    hide NextStep, EncodePacket, ValidPacket, Settled;
    EncodeAllConcat(packets, more);
    hide EncodeAll;
    assert link.buffer + (link.wire + EncodeAll(more)) == link.buffer + link.wire + EncodeAll(more);
  }

  // One step over byte streams is a run over packets: the same session step,
  // or the delivery of the packets that the chunk completes.
  lemma Refines(codec: Codec, config: Config, n: Net, s: System, e: NetEvent) returns (events: seq<Event>)
    requires Lossless(codec) && Inv(codec, config, s) && DataFits(config, s.client.pc, s.server.pc)
    requires Represents(n, s) && NetEnabled(n, e)
    ensures IsRun(codec, s, events) && Represents(NetStep(codec, n, e), End(codec, s, events))
    ensures if e.Session? then events == [e.e] else forall x | x in events :: Delivers(x)
  {
    hide Spells, Inv;
    match e
    case Session(x) =>
      events := [x];
      SendsValid(codec, config, s);
      SessionStep(codec, n, s, x);
    case ServerChunk(size) =>
      var j := ChunkDelivers(n.server, n.up, s.up, size);
      events := DeliverToServer(codec, s, j);
      hide ReceiveChunk;
    case ClientChunk(size) =>
      var j := ChunkDelivers(n.client, n.down, s.down, size);
      events := DeliverToClient(codec, s, j);
      hide ReceiveChunk;
  }

  lemma SessionStep(codec: Codec, n: Net, s: System, x: Event)
    requires Represents(n, s) && NetEnabled(n, Session(x))
    requires AllValid(ClientSends(codec, s.client), MAX_PAYLOAD) && AllValid(ServerSends(codec, s.server), MAX_PAYLOAD)
    ensures IsRun(codec, s, [x]) && Represents(NetStep(codec, n, Session(x)), End(codec, s, [x]))
  {
    hide Spells, ClientSends, ServerSends, ClientStep, ServerStep, ClientReady, ServerReady;
    assert EncodeAll([]) == [];
    assert n.up.wire + [] == n.up.wire && n.down.wire + [] == n.down.wire;
    var core := Step(codec, Core(n), x);
    var s' := Step(codec, s, x);
    assert core.up == [] || core.up == ClientSends(codec, s.client);
    assert core.down == [] || core.down == ServerSends(codec, s.server);
    assert s'.up == s.up + core.up && s'.down == s.down + core.down;
    SpellsSent(n.up, s.up, core.up);
    SpellsSent(n.down, s.down, core.down);
    assert End(codec, s, [x]) == s';
  }

  // ---------- Runs ----------

  ghost predicate NetInv(codec: Codec, config: Config, n: Net) {
    exists s :: Inv(codec, config, s) && Represents(n, s)
  }

  ghost predicate NetInitial(n: Net, config: Config) {
    Initial(Core(n), config) && n.up == n.down == Link([], [], 0)
  }

  ghost predicate IsNetRun(codec: Codec, n: Net, events: seq<NetEvent>)
    decreases |events|
  {
    events == [] || (NetEnabled(n, events[0]) && IsNetRun(codec, NetStep(codec, n, events[0]), events[1..]))
  }

  ghost function NetEnd(codec: Codec, n: Net, events: seq<NetEvent>): Net
    requires IsNetRun(codec, n, events)
    decreases |events|
  {
    if events == [] then n else NetEnd(codec, NetStep(codec, n, events[0]), events[1..])
  }

  lemma NetStepKeepsInv(codec: Codec, config: Config, n: Net, e: NetEvent)
    requires Lossless(codec) && DataFits(config, n.client.pc, n.server.pc)
    requires NetInv(codec, config, n) && NetEnabled(n, e)
    ensures NetInv(codec, config, NetStep(codec, n, e))
  {
    hide Inv, Spells, NetEnabled, NetStep;
    var s :| Inv(codec, config, s) && Represents(n, s);
    assert s.client.pc == n.client.pc && s.server.pc == n.server.pc;
    hide Represents;
    var events := Refines(codec, config, n, s, e);
    RunKeepsInv(codec, config, s, events);
  }

  lemma {:induction false} NetRunKeepsInv(codec: Codec, config: Config, n: Net, events: seq<NetEvent>)
    requires Lossless(codec) && config.packetSize <= HEADER_SIZE + MAX_PAYLOAD
    requires NetInv(codec, config, n) && IsNetRun(codec, n, events)
    ensures NetInv(codec, config, NetEnd(codec, n, events))
    decreases |events|
  {
    hide NetInv, NetEnabled, NetStep;
    if events != [] {
      NetStepKeepsInv(codec, config, n, events[0]);
      NetRunKeepsInv(codec, config, NetStep(codec, n, events[0]), events[1..]);
    }
  }

  lemma NetInitialInv(codec: Codec, config: Config, n: Net)
    requires NetInitial(n, config)
    ensures NetInv(codec, config, n)
  {
    InitialInv(codec, config, Core(n));
    SettledEmpty(MAX_PAYLOAD);
    assert Represents(n, Core(n));
  }

  // No deadlock over byte streams: bytes of an unfinished packet in a parser
  // are always followed by the rest of it.
  lemma EndToEndProgress(codec: Codec, config: Config, n: Net) returns (e: NetEvent)
    requires NetInv(codec, config, n)
    requires !BothFinished(Core(n)) && !n.clientFailed && !n.serverFailed
    ensures NetEnabled(n, e) && Untimed(e)
  {
    hide Inv, Spells, ClientReady, ServerReady;
    var s :| Inv(codec, config, s) && Represents(n, s);
    var x := Progress(codec, config, s);
    match x
    case ServerReceives =>
      BytesRemain(n.up, s.up);
      e := ServerChunk(1);
    case ClientReceives =>
      BytesRemain(n.down, s.down);
      e := ClientChunk(1);
    case _ =>
      e := Session(x);
  }

  lemma BytesRemain(link: Link, packets: seq<Packet>)
    requires Spells(link, packets) && packets != []
    ensures link.wire != []
  {
    if link.wire == [] {
      assert link.buffer == EncodePacket(packets[0]) + EncodeAll(packets[1..]);
      EmitEncoded(MAX_PAYLOAD, packets[0], EncodeAll(packets[1..]));
      hide NextStep, EncodePacket, ValidPacket;
      assert false;
    }
  }

  predicate Untimed(e: NetEvent) {
    e.Session? ==> !IsTimeout(e.e)
  }

  lemma {:induction false} UntimedNeverFails(codec: Codec, config: Config, n: Net, events: seq<NetEvent>)
    requires Lossless(codec) && config.packetSize <= HEADER_SIZE + MAX_PAYLOAD
    requires NetInv(codec, config, n) && IsNetRun(codec, n, events)
    requires !n.clientFailed && !n.serverFailed && forall e | e in events :: Untimed(e)
    ensures var m := NetEnd(codec, n, events); !m.clientFailed && !m.serverFailed
    decreases |events|
  {
    if events != [] {
      var e := events[0];
      assert Untimed(e);
      StepNeverFails(codec, config, n, e);
      NetStepKeepsInv(codec, config, n, e);
      hide NetInv, NetEnabled, NetStep;
      UntimedNeverFails(codec, config, NetStep(codec, n, e), events[1..]);
    }
  }

  lemma StepNeverFails(codec: Codec, config: Config, n: Net, e: NetEvent)
    requires Lossless(codec) && NetInv(codec, config, n) && NetEnabled(n, e)
    requires !n.clientFailed && !n.serverFailed && Untimed(e)
    ensures var m := NetStep(codec, n, e); !m.clientFailed && !m.serverFailed
  {
    hide Inv, Spells, ClientStep, ServerStep, ClientReady, ServerReady;
    if e.Session? {
      var s :| Inv(codec, config, s) && Represents(n, s);
      NeverThrows(codec, config, s, if e.e.ClientRuns? || e.e.ServerRuns? then e.e.reported else 0);
    }
    hide ReceiveChunk;
  }
}
