// What holds in every reachable state over byte streams, for every packet
// size: also above the bound of the parsers, where data is thrown away.
module AnySize {
  import opened Protocol
  import opened StreamParser
  import opened StreamCodec
  import opened TestTypes
  import opened Generator
  import opened ReceiveStats
  import opened Wrappers
  import opened Sessions
  import opened SessionInvariant
  import opened SessionTheorems
  import opened Network
  import opened Controller

  // No packet a parser emits is larger.
  ghost predicate Bounded(bytes: int, packets: int) {
    bytes <= packets * (HEADER_SIZE + MAX_PAYLOAD)
  }

  ghost predicate Counting(c: Counters) {
    Bounded(c.bytesReceived, c.packetsReceived)
  }

  ghost predicate Measured(s: TestStats) {
    Bounded(s.totalBytesReceived, s.totalPacketsReceived)
  }

  predicate Handshaking(pc: ClientPc) {
    pc.CSendConfig? || pc.CWaitAck?
  }

  // Until the client starts sending, everything is as in the packet-level
  // system; from then on the configurations are fixed.
  ghost predicate Configurations(codec: Codec, config: Config, n: Net) {
    && n.client.config == config
    && if Handshaking(n.client.pc) then NetInv(codec, config, n)
       else !n.server.pc.SWaitConfig? && n.server.config == ServerSide(config)
  }

  ghost predicate ClientSound(c: Party<ClientPc>) {
    && Counting(c.counters) && (ClientDone1b(c.pc) ==> Measured(c.clientStats2))
    && (c.pc.CSendData? ==> Below(c.config, c.sent))
  }

  ghost predicate ServerSound(v: Party<ServerPc>) {
    && Counting(v.counters) && (ServerDone1(v.pc) ==> Measured(v.serverStats1))
    && (v.pc.SSendData? ==> Below(v.config, v.sent))
  }

  ghost predicate AnyInv(codec: Codec, config: Config, n: Net) {
    Configurations(codec, config, n) && ClientSound(n.client) && ServerSound(n.server)
  }

  // ---------- Received chunks ----------

  lemma OnDataCounting(c: Counters, p: Packet)
    requires Counting(c) && ValidPacket(p, MAX_PAYLOAD)
    ensures Counting(OnData(c, p))
  {
    hide Mismatched, ReceiveStats.Next;
  }

  lemma {:induction false} DispatchAllCounting<Pc>(p: Party<Pc>, packets: seq<Packet>)
    requires AllValid(packets, MAX_PAYLOAD) && Counting(p.counters)
    ensures var p' := DispatchAll(p, packets);
            p' == p.(counters := p'.counters, inbox := p'.inbox) && Counting(p'.counters)
    decreases |packets|
  {
    hide OnData, ValidPacket, Counting;
    if packets != [] {
      assert ValidPacket(packets[0], MAX_PAYLOAD);
      OnDataCounting(p.counters, packets[0]);
      DispatchAllCounting(Dispatch(p, packets[0]), packets[1..]);
    }
  }

  lemma OnlyFailures(c: Counters)
    ensures forall n: nat :: Counting(c.(failedChecksums := n)) == Counting(c)
  {
  }

  lemma ChunkCounting<Pc>(p: Party<Pc>, link: Link, size: nat)
    requires size <= |link.wire| && Counting(p.counters)
    ensures var (p', link') := ReceiveChunk(p, link, size);
            p' == p.(counters := p'.counters, inbox := p'.inbox) && Counting(p'.counters) &&
            link'.wire == link.wire[size..]
  {
    hide Parse, ValidPacket, DispatchAll, Weave, AllValid, Counting;
    var gaps := ParseAccounts(MAX_PAYLOAD, link.buffer + link.wire[..size], link.streak);
    OnlyFailures(p.counters);
    var r := Parse(MAX_PAYLOAD, link.buffer + link.wire[..size], link.streak);
    var counted := p.(counters := p.counters.(failedChecksums := p.counters.failedChecksums + r.checksumFailures));
    DispatchAllCounting(counted, r.packets);
  }

  // ---------- Session steps ----------

  lemma ClientStepSound(codec: Codec, c: Party<ClientPc>, reported: nat)
    requires ClientSound(c) && ClientReady(c)
    ensures var c' := ClientStep(codec, c, reported);
            c'.Some? ==> ClientSound(c'.value) && c'.value.config == c.config &&
                         (Handshaking(c'.value.pc) ==> Handshaking(c.pc))
  {
    StartBelow(c);
    hide First, WithoutFirst, Has, More, Bounded, Below;
  }

  // The generator goes on only below the packet count.
  lemma StartBelow<Pc>(p: Party<Pc>)
    ensures More(p.config, 0) ==> Below(p.config, 0)
    ensures Below(p.config, p.sent) && More(p.config, p.sent + 1) ==> Below(p.config, p.sent + 1)
    ensures Bounded(0, 0)
  {
    MoreIffBelow(p.config, 0);
    if Below(p.config, p.sent) {
      MoreIffBelow(p.config, p.sent + 1);
    }
    hide More;
  }

  lemma ServerStepSound(codec: Codec, v: Party<ServerPc>, reported: nat)
    requires ServerSound(v) && ServerReady(v)
    ensures var v' := ServerStep(codec, v, reported);
            v'.Some? ==> ServerSound(v'.value) && !v'.value.pc.SWaitConfig? &&
                         (!v.pc.SWaitConfig? ==> v'.value.config == v.config)
  {
    StartBelow(v);
    hide First, WithoutFirst, Has, More, Bounded, Below;
  }

  lemma StepSound(codec: Codec, n: Net, e: NetEvent)
    requires ClientSound(n.client) && ServerSound(n.server) && NetEnabled(n, e)
    ensures var n' := NetStep(codec, n, e);
            && ClientSound(n'.client) && ServerSound(n'.server)
            && n'.client.config == n.client.config
            && (Handshaking(n'.client.pc) ==> Handshaking(n.client.pc))
            && (n'.server.pc.SWaitConfig? ==> n.server.pc.SWaitConfig?)
            && (!n.server.pc.SWaitConfig? ==> n'.server.config == n.server.config)
  {
    match e
    case Session(x) =>
      if x.ClientRuns? {
        ClientStepSound(codec, n.client, x.reported);
      } else if x.ServerRuns? {
        ServerStepSound(codec, n.server, x.reported);
      }
      hide ClientStep, ServerStep, ClientReady, ServerReady, ClientSound, ServerSound;
    case ServerChunk(size) =>
      ChunkCounting(n.server, n.up, size);
      hide ReceiveChunk, Counting, Below;
    case ClientChunk(size) =>
      ChunkCounting(n.client, n.down, size);
      hide ReceiveChunk, Counting, Below;
  }

  // In the handshake the server has no data to send, and it has taken the
  // configuration before the client goes on.
  lemma HandshakeServer(codec: Codec, config: Config, n: Net)
    requires NetInv(codec, config, n) && (Handshaking(n.client.pc) || n.client.pc.CSendData? || n.client.pc.CSendFin?)
    ensures !n.server.pc.SSendData?
    ensures !Handshaking(n.client.pc) ==> !n.server.pc.SWaitConfig? && n.server.config == ServerSide(config)
  {
    var s :| Inv(codec, config, s) && Represents(n, s);
    hide Spells, Batch, Counted, Phase1Stats, Phase2Data, Phase2Stats, Closing;
  }

  // The client leaves the handshake for its first send.
  lemma LeavesHandshake(codec: Codec, n: Net, e: NetEvent)
    requires NetEnabled(n, e) && Handshaking(n.client.pc) && Counting(n.client.counters)
    ensures var c := NetStep(codec, n, e).client;
            Handshaking(c.pc) || (c.pc == (if More(c.config, 0) then CSendData else CSendFin) && c.sent == 0)
  {
    if e.ClientChunk? {
      ChunkCounting(n.client, n.down, e.size);
      hide ReceiveChunk;
    }
    hide First, WithoutFirst, Has, More, ServerStep, ReceiveChunk;
  }

  lemma StepKeepsAnyInv(codec: Codec, config: Config, n: Net, e: NetEvent)
    requires Lossless(codec) && AnyInv(codec, config, n) && NetEnabled(n, e)
    ensures AnyInv(codec, config, NetStep(codec, n, e))
  {
    StepSound(codec, n, e);
    if Handshaking(n.client.pc) {
      HandshakeServer(codec, config, n);
      NetStepKeepsInv(codec, config, n, e);
      LeavesHandshake(codec, n, e);
      HandshakeServer(codec, config, NetStep(codec, n, e));
    }
    hide NetInv, NetStep, NetEnabled, ClientSound, ServerSound, Lossless;
  }

  lemma {:induction false} RunKeepsAnyInv(codec: Codec, config: Config, n: Net, events: seq<NetEvent>)
    requires Lossless(codec) && AnyInv(codec, config, n) && IsNetRun(codec, n, events)
    ensures AnyInv(codec, config, NetEnd(codec, n, events))
    decreases |events|
  {
    hide AnyInv, NetEnabled, NetStep;
    if events != [] {
      StepKeepsAnyInv(codec, config, n, events[0]);
      RunKeepsAnyInv(codec, config, NetStep(codec, n, events[0]), events[1..]);
    }
  }

  lemma InitialAnyInv(codec: Codec, config: Config, n: Net)
    requires NetInitial(n, config)
    ensures AnyInv(codec, config, n)
  {
    NetInitialInv(codec, config, n);
    hide NetInv;
  }

  // ---------- No success above the bound ----------

  lemma LargerProduct(n: int, small: int, large: int)
    requires n > 0 && small < large
    ensures n * small < large * n
  {
    assert n * (large - small) > 0;
  }

  lemma MeasuredIncomplete(config: Config, received: TestStats)
    requires Measured(received) && config.numPackets > 0 && config.packetSize > HEADER_SIZE + MAX_PAYLOAD
    ensures !Complete(received, config)
  {
    LargerProduct(config.numPackets, HEADER_SIZE + MAX_PAYLOAD, config.packetSize);
  }

  lemma OversizedFails(codec: Codec, config: Config, n: Net, runId: string)
    requires AnyInv(codec, config, n) && config.numPackets > 0
    requires config.packetSize > HEADER_SIZE + MAX_PAYLOAD
    ensures !ClientResult(Core(n), runId).success && !ServerResult(Core(n), runId).success
  {
    var c, v := n.client, n.server;
    VerdictMeaning(ClientState(c.pc, n.clientFailed), c.config, runId, "", Stored(c), "");
    VerdictMeaning(ServerState(v.pc, n.serverFailed), v.config, runId, "", Stored(v), "");
    hide BuildResult, Complete, Bounded;
    if c.pc.CFinished? {
      MeasuredIncomplete(c.config, c.clientStats2);
    }
    if v.pc.SFinished? {
      FinishedServerConfig(codec, config, n);
      MeasuredIncomplete(v.config, v.serverStats1);
    }
    hide Measured, Counting, NetInv;
  }

  lemma FinishedServerConfig(codec: Codec, config: Config, n: Net)
    requires Configurations(codec, config, n) && !n.server.pc.SWaitConfig?
    ensures n.server.config == ServerSide(config)
  {
    if Handshaking(n.client.pc) {
      var s :| Inv(codec, config, s) && Represents(n, s);
      hide Linked, Spells;
    }
  }

  // ---------- Termination ----------

  lemma BelowCount(codec: Codec, config: Config, n: Net)
    requires AnyInv(codec, config, n) && Limited(config)
    ensures n.client.pc.CSendData? ==> n.client.sent < config.numPackets
    ensures n.server.pc.SSendData? ==> n.server.sent < config.numPackets
  {
    if n.server.pc.SSendData? && Handshaking(n.client.pc) {
      HandshakeServer(codec, config, n);
    }
    hide NetInv;
  }

  lemma LeftNonNegative(config: Config, s: System)
    requires s.client.pc.CSendData? ==> s.client.sent < config.numPackets
    requires s.server.pc.SSendData? ==> s.server.sent < config.numPackets
    ensures StepsLeft(config, s) >= 0
  {
  }

  lemma LeftIgnoresReceiving(config: Config, n: Net, c: Party<ClientPc>, v: Party<ServerPc>, up: Link, down: Link)
    ensures StepsLeft(config, Core(n.(client := n.client.(counters := c.counters, inbox := c.inbox), down := down)))
         == StepsLeft(config, Core(n))
    ensures StepsLeft(config, Core(n.(server := n.server.(counters := v.counters, inbox := v.inbox), up := up)))
         == StepsLeft(config, Core(n))
  {
  }

  lemma ChunkKeepsLeft(codec: Codec, config: Config, n: Net, e: NetEvent)
    requires ClientSound(n.client) && ServerSound(n.server) && NetEnabled(n, e) && !e.Session?
    ensures var n' := NetStep(codec, n, e);
            && StepsLeft(config, Core(n')) == StepsLeft(config, Core(n))
            && |n'.up.wire| + |n'.down.wire| < |n.up.wire| + |n.down.wire|
  {
    match e
    case ServerChunk(size) =>
      ChunkCounting(n.server, n.up, size);
      var (v, link) := ReceiveChunk(n.server, n.up, size);
      LeftIgnoresReceiving(config, n, n.client, v, link, n.down);
      hide ReceiveChunk, Counting, StepsLeft;
    case ClientChunk(size) =>
      ChunkCounting(n.client, n.down, size);
      var (c, link) := ReceiveChunk(n.client, n.down, size);
      LeftIgnoresReceiving(config, n, c, n.server, n.up, link);
      hide ReceiveChunk, Counting, StepsLeft;
  }

  // An event either uses up a session step or a timeout, or uses up bytes in
  // transit, as long as no side sends past the packet count.
  lemma BelowShrinks(codec: Codec, config: Config, n: Net, e: NetEvent)
    requires ClientSound(n.client) && ServerSound(n.server) && NetEnabled(n, e)
    requires n.client.pc.CSendData? ==> n.client.sent < config.numPackets
    requires n.server.pc.SSendData? ==> n.server.sent < config.numPackets
    ensures var n' := NetStep(codec, n, e);
            var left, left' := StepsLeft(config, Core(n)), StepsLeft(config, Core(n'));
            left' < left || (left' == left && |n'.up.wire| + |n'.down.wire| < |n.up.wire| + |n.down.wire|)
  {
    if e.Session? {
      StepShrinks(codec, config, Core(n), e.e);
      hide ClientSound, ServerSound, StepsLeft;
      SameParties(codec, config, n, e.e);
    } else {
      hide StepsLeft;
      ChunkKeepsLeft(codec, config, n, e);
    }
  }

  // Every run is finite, for every packet size.
  lemma EventShrinks(codec: Codec, config: Config, n: Net, e: NetEvent)
    requires Lossless(codec) && AnyInv(codec, config, n) && NetEnabled(n, e) && Limited(config)
    ensures var n' := NetStep(codec, n, e);
            var left, left' := StepsLeft(config, Core(n)), StepsLeft(config, Core(n'));
            && left' >= 0
            && (left' < left ||
                (left' == left && |n'.up.wire| + |n'.down.wire| < |n.up.wire| + |n.down.wire|))
  {
    hide NetStep, StepsLeft, NetInv, NetEnabled, Configurations;
    BelowCount(codec, config, n);
    StepKeepsAnyInv(codec, config, n, e);
    var n' := NetStep(codec, n, e);
    BelowCount(codec, config, n');
    LeftNonNegative(config, Core(n'));
    BelowShrinks(codec, config, n, e);
  }

  lemma SameParties(codec: Codec, config: Config, n: Net, x: Event)
    requires NetEnabled(n, Session(x))
    ensures StepsLeft(config, Core(NetStep(codec, n, Session(x)))) == StepsLeft(config, Step(codec, Core(n), x))
    ensures !Delivers(x)
  {
    hide Step, ClientLeft, ServerLeft;
  }

  // ---------- Without a packet count ----------

  // The client goes on sending as long as there is a packet to send.
  lemma StaysSending(codec: Codec, config: Config, n: Net, e: NetEvent)
    requires AnyInv(codec, config, n) && NetEnabled(n, e) && n.client.pc.CSendData? && !Limited(config)
    ensures NetStep(codec, n, e).client.pc.CSendData?
  {
    MoreIffBelow(config, n.client.sent + 1);
    hide NetInv, More, ServerStep, ServerSends, ServerReady, ServerSound;
    if e.ClientChunk? {
      ChunkCounting(n.client, n.down, e.size);
    }
    hide ReceiveChunk, Counting;
  }

  ghost predicate Sending(n: Net) {
    Handshaking(n.client.pc) || n.client.pc.CSendData?
  }

  lemma {:induction false} KeepsSending(codec: Codec, config: Config, n: Net, events: seq<NetEvent>)
    requires Lossless(codec) && AnyInv(codec, config, n) && IsNetRun(codec, n, events) && !Limited(config) && Sending(n)
    ensures Sending(NetEnd(codec, n, events))
    decreases |events|
  {
    hide NetEnabled, NetStep, NetInv, ServerSound;
    if events != [] {
      var e := events[0];
      var n' := NetStep(codec, n, e);
      StepKeepsAnyInv(codec, config, n, e);
      if Handshaking(n.client.pc) {
        LeavesHandshake(codec, n, e);
        MoreIffBelow(config, 0);
        hide More;
      } else {
        StaysSending(codec, config, n, e);
      }
      hide AnyInv;
      KeepsSending(codec, config, n', events[1..]);
    }
  }
}
