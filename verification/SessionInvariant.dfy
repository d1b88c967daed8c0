// The inductive invariant of the two sessions: for every reachable pair of
// program points, exactly what is in transit and what has been stored.
module SessionInvariant {
  import opened Protocol
  import opened TestTypes
  import opened Generator
  import opened ReceiveStats
  import opened Wrappers
  import opened Sessions

  // The packets a generator sends in one phase; a packet size below the header
  // size sends none.
  function Total(config: Config): nat {
    if config.packetSize < HEADER_SIZE then 0 else config.numPackets
  }

  // The generator has not sent everything yet; numPackets == 0 is unlimited.
  ghost predicate Below(config: Config, sent: nat) {
    config.packetSize >= HEADER_SIZE && (config.numPackets == 0 || sent < config.numPackets)
  }

  // Data packets first, ..., end - 1.
  function Batch(config: Config, first: nat, end: nat): seq<Packet>
    decreases end - first
  {
    if first >= end || config.packetSize < HEADER_SIZE then []
    else [Numbered(config, first)] + Batch(config, first + 1, end)
  }

  // The receive counters after the first n data packets.
  function Counted(config: Config, n: nat): Counters {
    if n == 0 || config.packetSize < HEADER_SIZE then ZERO
    else OnData(Counted(config, n - 1), Numbered(config, n - 1))
  }

  lemma {:induction false} BatchGrows(config: Config, first: nat, end: nat)
    requires first <= end && config.packetSize >= HEADER_SIZE
    ensures Batch(config, first, end + 1) == Batch(config, first, end) + [Numbered(config, end)]
    decreases end - first
  {
    hide Numbered;
    if first == end {
      assert Batch(config, first + 1, end + 1) == [];
    } else {
      BatchGrows(config, first + 1, end);
    }
  }

  function ServerSide(config: Config): Config {
    config.(mode := SERVER)
  }

  // ---------- What is in transit ----------

  ghost predicate Silent(wire: seq<Packet>, inbox: seq<Packet>) {
    wire == [] && inbox == []
  }

  // One control message, on the wire behind the given data or delivered after it.
  ghost predicate Carries(wire: seq<Packet>, inbox: seq<Packet>, data: seq<Packet>, m: Packet) {
    (inbox == [] && wire == data + [m]) || (data == [] && wire == [] && inbox == [m])
  }

  ghost predicate Flows(wire: seq<Packet>, inbox: seq<Packet>, data: seq<Packet>) {
    inbox == [] && wire == data
  }

  function Fin(): Packet {
    ControlPacket(TEST_FIN, [])
  }

  function Stats(codec: Codec, kind: Byte, stats: TestStats): Packet {
    ControlPacket(kind, codec.encStats(stats))
  }

  // ---------- What has been stored ----------

  // The generator has sent its first k packets; every report was in range.
  ghost predicate HasSent<Pc>(p: Party<Pc>, k: nat) {
    p.sent == p.packetsSent == k && p.bytesSent <= k * 0x7FFF_FFFF
  }

  ghost predicate Received<Pc>(p: Party<Pc>, config: Config, r: nat) {
    p.counters == Counted(config, r)
  }

  function Final(config: Config): TestStats {
    ReceiverStats(Counted(config, Total(config)))
  }

  ghost predicate ClientKeeps1(c: Party<ClientPc>, config: Config) {
    && HasSent(c, Total(config))
    && c.lastStats == c.clientStats1 == GeneratorStats(c)
    && c.serverStats1 == Final(config)
  }

  ghost predicate ServerKeeps1(s: Party<ServerPc>, c: Party<ClientPc>, config: Config) {
    && s.clientStats1 == GeneratorStats(c)
    && s.serverStats1 == Final(config)
  }

  ghost predicate Keeps1(c: Party<ClientPc>, s: Party<ServerPc>, config: Config) {
    ClientKeeps1(c, config) && ServerKeeps1(s, c, config)
  }

  ghost predicate ServerKeeps2(s: Party<ServerPc>, c: Party<ClientPc>) {
    s.serverStats2 == GeneratorStats(s) && s.clientStats2 == c.clientStats2
  }

  // The number of data packets counted so far is itself part of the state.
  ghost function SoFar<Pc>(p: Party<Pc>): nat {
    p.counters.packetsReceived
  }

  // ---------- The invariant ----------

  // Each predicate lists the pairs of program points of one stage with the
  // upstream (up, and the server's inbox) and the downstream in each.

  ghost predicate Handshake(codec: Codec, config: Config, c: Party<ClientPc>, v: Party<ServerPc>, up: seq<Packet>,
                            down: seq<Packet>)
  {
    if c.pc.CSendConfig? then v.pc.SWaitConfig? && Silent(up, v.inbox) && Silent(down, c.inbox)
    else match v.pc
      case SWaitConfig =>
        Silent(down, c.inbox) && Carries(up, v.inbox, [], ControlPacket(CONFIG_HANDSHAKE, codec.encConfig(config)))
      case SSendAck => Silent(up, v.inbox) && Silent(down, c.inbox)
      case SWaitFin =>
        Silent(up, v.inbox) && Carries(down, c.inbox, [], ControlPacket(CONFIG_ACK, [])) && v.counters == ZERO
      case _ => false
  }

  ghost predicate Phase1Data(config: Config, c: Party<ClientPc>, v: Party<ServerPc>, up: seq<Packet>,
                             down: seq<Packet>)
  {
    var n, r := Total(config), SoFar(v);
    if c.pc.CSendData? || c.pc.CSendFin? then
      && v.pc.SWaitFin? && Silent(down, c.inbox) && HasSent(c, c.sent)
      && (if c.pc.CSendData? then Below(config, c.sent) else c.sent == n)
      && r <= c.sent && Flows(up, v.inbox, Batch(config, r, c.sent)) && Received(v, config, r)
    else
      && HasSent(c, n)
      && match v.pc
         case SWaitFin =>
           Silent(down, c.inbox) && r <= n && Carries(up, v.inbox, Batch(config, r, n), Fin()) && Received(v, config, r)
         case SSendFin => Silent(up, v.inbox) && Silent(down, c.inbox) && Received(v, config, n)
         case SWaitStats => Silent(up, v.inbox) && Carries(down, c.inbox, [], Fin()) && Received(v, config, n)
         case _ => false
  }

  ghost predicate Phase1Stats(codec: Codec, config: Config, c: Party<ClientPc>, v: Party<ServerPc>, up: seq<Packet>,
                              down: seq<Packet>)
  {
    && HasSent(c, Total(config)) && c.lastStats == GeneratorStats(c)
    && match v.pc
       case SWaitStats =>
         && Silent(down, c.inbox) && Received(v, config, Total(config))
         && (if c.pc.CSendStats? then Silent(up, v.inbox)
             else c.pc.CWaitStatsAck? && Carries(up, v.inbox, [], Stats(codec, STATS_EXCHANGE, c.lastStats)))
       case SSendStatsAck =>
         c.pc.CWaitStatsAck? && Silent(up, v.inbox) && Silent(down, c.inbox) && ServerKeeps1(v, c, config)
       case SWaitReady =>
         && Silent(up, v.inbox) && ServerKeeps1(v, c, config)
         && (if c.pc.CWaitStatsAck? then Carries(down, c.inbox, [], Stats(codec, STATS_ACK, v.serverStats1))
             else c.pc.CSendReady? && Silent(down, c.inbox) && ClientKeeps1(c, config))
       case _ => false
  }

  ghost predicate Phase2Data(config: Config, c: Party<ClientPc>, v: Party<ServerPc>, up: seq<Packet>,
                             down: seq<Packet>)
  {
    var n, q := Total(config), SoFar(c);
    var back := ServerSide(config);
    && Keeps1(c, v, config) && q <= (if v.pc.SWaitReady? then 0 else v.sent) && Received(c, back, q)
    && match v.pc
       case SWaitReady => Silent(down, c.inbox) && Carries(up, v.inbox, [], ControlPacket(CLIENT_READY, []))
       case SSendData =>
         && Silent(up, v.inbox) && HasSent(v, v.sent) && Below(config, v.sent)
         && Flows(down, c.inbox, Batch(back, q, v.sent))
       case SSendFin2 => Silent(up, v.inbox) && HasSent(v, n) && Flows(down, c.inbox, Batch(back, q, n))
       case SWaitStats2 => Silent(up, v.inbox) && HasSent(v, n) && Carries(down, c.inbox, Batch(back, q, n), Fin())
       case _ => false
  }

  ghost predicate Phase2Stats(codec: Codec, config: Config, c: Party<ClientPc>, v: Party<ServerPc>, up: seq<Packet>,
                              down: seq<Packet>)
  {
    && Keeps1(c, v, config) && HasSent(v, Total(config)) && c.clientStats2 == Final(ServerSide(config))
    && match v.pc
       case SWaitStats2 =>
         && Silent(down, c.inbox)
         && (if c.pc.CSendStats2? then Silent(up, v.inbox)
             else c.pc.CWaitStatsAck2? && Carries(up, v.inbox, [], Stats(codec, STATS_EXCHANGE, c.clientStats2)))
       case SSendStatsAck2 =>
         c.pc.CWaitStatsAck2? && Silent(up, v.inbox) && Silent(down, c.inbox) && ServerKeeps2(v, c)
       case SWaitShutdown =>
         && c.pc.CWaitStatsAck2? && Silent(up, v.inbox) && ServerKeeps2(v, c)
         && Carries(down, c.inbox, [], Stats(codec, STATS_ACK, v.serverStats2))
       case _ => false
  }

  ghost predicate Closing(config: Config, c: Party<ClientPc>, v: Party<ServerPc>, up: seq<Packet>, down: seq<Packet>) {
    && Keeps1(c, v, config) && HasSent(v, Total(config)) && c.clientStats2 == Final(ServerSide(config))
    && ServerKeeps2(v, c) && c.serverStats2 == v.serverStats2 && Silent(down, c.inbox)
    && (if v.pc.SFinished? then c.pc.CFinished? && Silent(up, v.inbox)
        else
          && v.pc.SWaitShutdown?
          && (if c.pc.CFinished? then Carries(up, v.inbox, [], ControlPacket(SHUTDOWN_ACK, []))
              else Silent(up, v.inbox)))
  }

  ghost predicate Linked(codec: Codec, config: Config, c: Party<ClientPc>, v: Party<ServerPc>, up: seq<Packet>,
                         down: seq<Packet>)
  {
    match c.pc
    case CSendConfig | CWaitAck => Handshake(codec, config, c, v, up, down)
    case CSendData | CSendFin | CWaitFin => Phase1Data(config, c, v, up, down)
    case CSendStats | CWaitStatsAck | CSendReady => Phase1Stats(codec, config, c, v, up, down)
    case CWaitFin2 => Phase2Data(config, c, v, up, down)
    case CSendStats2 | CWaitStatsAck2 => Phase2Stats(codec, config, c, v, up, down)
    case CSendShutdown | CFinished => Closing(config, c, v, up, down)
  }

  ghost predicate Configured(config: Config, c: Party<ClientPc>, v: Party<ServerPc>) {
    c.config == config && (!v.pc.SWaitConfig? ==> v.config == ServerSide(config))
  }

  ghost predicate Inv(codec: Codec, config: Config, s: System) {
    && Configured(config, s.client, s.server)
    && (s.clientFailed ==> ClientAwaits(s.client.pc).Some?)
    && (s.serverFailed ==> ServerAwaits(s.server.pc).Some?)
    && Linked(codec, config, s.client, s.server, s.up, s.down)
  }

  lemma InitialInv(codec: Codec, config: Config, s: System)
    requires Initial(s, config)
    ensures Inv(codec, config, s)
  {
  }

  // ---------- Facts about the parts ----------

  lemma MoreIffBelow(config: Config, sent: nat)
    requires config.numPackets > 0 ==> sent <= config.numPackets
    ensures More(config, sent) <==> Below(config, sent)
  {
    CountsUp(config.numPackets, sent);
  }

  lemma OnlyMessage(inbox: seq<Packet>, m: Packet, kind: Byte)
    requires inbox == [m]
    ensures Has(inbox, kind) <==> m.header.messageType == kind
    ensures Has(inbox, kind) ==> First(inbox, kind) == m && WithoutFirst(inbox, kind) == []
  {
    assert inbox[0] == m;
  }

  lemma BatchDone(config: Config, first: nat, end: nat)
    requires first <= end && (end > 0 ==> config.packetSize >= HEADER_SIZE)
    ensures Batch(config, first, end) == [] <==> first == end
  {
  }

  lemma {:induction false} CountedValue(config: Config, n: nat)
    requires n > 0 ==> config.packetSize >= HEADER_SIZE
    ensures Counted(config, n) == Counters(n * config.packetSize, n, 0, 0, 0, Wrap32(n))
  {
    assert Wrap32(0) == 0;
    if n > 0 {
      CountedValue(config, n - 1);
      CountNumbered(config, n - 1, (n - 1) * config.packetSize);
      hide Wrap32, Numbered, OnData;
      OneMore(n - 1, config.packetSize);
    }
  }

  lemma CountNumbered(config: Config, i: nat, bytes: nat)
    requires config.packetSize >= HEADER_SIZE
    ensures OnData(Counters(bytes, i, 0, 0, 0, Wrap32(i)), Numbered(config, i))
         == Counters(bytes + config.packetSize, i + 1, 0, 0, 0, Wrap32(i + 1))
  {
    NumberedCounts(config, i);
    hide Wrap32, Numbered, Mismatched, ReceiveStats.Next;
  }

  lemma OneMore(n: nat, size: nat)
    ensures (n + 1) * size == n * size + size
  {
  }

  lemma NumberedCounts(config: Config, i: nat)
    requires config.packetSize >= HEADER_SIZE
    ensures var p := Numbered(config, i);
            && p.header.messageType == DATA_PACKET && p.header.packetCounter == Wrap32(i)
            && p.TotalPacketSize() == config.packetSize && !Mismatched(p)
            && ReceiveStats.Next(Wrap32(i)) == Wrap32(i + 1)
  {
    hide BuildExpectedPayload, Checksum;
  }

  lemma ProductFits(a: nat, b: nat)
    requires a <= 0x7FFF_FFFF && b <= 0x7FFF_FFFF
    ensures a * b < 0x8000_0000_0000_0000
  {
    assert a * b <= 0x7FFF_FFFF * b;
  }

  lemma FinalFits(config: Config)
    ensures FitsInt64(Final(config))
  {
    CountedValue(config, Total(config));
    ProductFits(Total(config), config.packetSize);
    hide Counted;
  }

  lemma SentFits<Pc>(p: Party<Pc>, config: Config)
    requires HasSent(p, Total(config))
    ensures FitsInt64(GeneratorStats(p))
  {
    ProductFits(Total(config), 0x7FFF_FFFF);
  }

  // ---------- Steps keep the invariant ----------

  lemma HandshakeStep(codec: Codec, config: Config, s: System, e: Event)
    requires Lossless(codec)
    requires Inv(codec, config, s) && Enabled(s, e) && (s.client.pc.CSendConfig? || s.client.pc.CWaitAck?)
    ensures Inv(codec, config, Step(codec, s, e))
  {
    hide Phase1Stats, Phase2Data, Phase2Stats, Closing;
    hide Checksum, Wrap32;
    MoreIffBelow(config, 0);
    hide More;
    match e
    case ClientRuns(_) =>
      if s.client.inbox != [] {
        OnlyMessage(s.client.inbox, ControlPacket(CONFIG_ACK, []), CONFIG_ACK);
      }
    case ServerRuns(_) =>
    case _ =>
  }

  // Delivering from a wire that carries one control message behind data.
  lemma CountedNext(config: Config, r: nat)
    requires config.packetSize >= HEADER_SIZE
    ensures Counted(config, r + 1) == OnData(Counted(config, r), Numbered(config, r))
    ensures Counted(config, r + 1).packetsReceived == Counted(config, r).packetsReceived + 1
    ensures Numbered(config, r).header.messageType == DATA_PACKET
  {
    NumberedCounts(config, r);
    hide Numbered, Mismatched, ReceiveStats.Next;
  }

  lemma BatchHead(config: Config, r: nat, n: nat)
    requires r < n && config.packetSize >= HEADER_SIZE
    ensures Batch(config, r, n) == [Numbered(config, r)] + Batch(config, r + 1, n)
  {
  }

  lemma DeliverCarried<Pc>(config: Config, p: Party<Pc>, wire: seq<Packet>, r: nat, n: nat, m: Packet)
    requires wire != [] && Carries(wire, p.inbox, Batch(config, r, n), m) && Received(p, config, r)
    requires r <= n && SoFar(p) == r && m.header.messageType != DATA_PACKET
    ensures var p' := Dispatch(p, wire[0]);
            if r < n && config.packetSize >= HEADER_SIZE
            then p' == p.(counters := p'.counters) && Received(p', config, r + 1) && SoFar(p') == r + 1
                 && Carries(wire[1..], p'.inbox, Batch(config, r + 1, n), m)
            else p' == p.(inbox := [m]) && Carries(wire[1..], p'.inbox, Batch(config, r, n), m)
  {
    if r < n && config.packetSize >= HEADER_SIZE {
      CountedNext(config, r);
      BatchHead(config, r, n);
      hide Numbered, Counted, OnData, Batch;
      assert (Batch(config, r, n) + [m])[1..] == Batch(config, r + 1, n) + [m];
    }
  }

  lemma DeliverFlowing<Pc>(config: Config, p: Party<Pc>, wire: seq<Packet>, r: nat, n: nat)
    requires wire != [] && Flows(wire, p.inbox, Batch(config, r, n)) && Received(p, config, r) && SoFar(p) == r
    ensures var p' := Dispatch(p, wire[0]);
            && r < n && p' == p.(counters := p'.counters) && Received(p', config, r + 1) && SoFar(p') == r + 1
            && Flows(wire[1..], p'.inbox, Batch(config, r + 1, n))
  {
    assert r < n && config.packetSize >= HEADER_SIZE;
    CountedNext(config, r);
    BatchHead(config, r, n);
    hide Numbered, Counted, OnData, Batch;
  }

  lemma DeliverMessage<Pc>(p: Party<Pc>, wire: seq<Packet>, m: Packet)
    requires wire != [] && Carries(wire, p.inbox, [], m) && m.header.messageType != DATA_PACKET
    ensures Dispatch(p, wire[0]) == p.(inbox := [m]) && Carries(wire[1..], [m], [], m)
  {
    assert [] + [m] == [m];
  }

  lemma Phase1ClientSends(codec: Codec, config: Config, c: Party<ClientPc>, v: Party<ServerPc>,
                          up: seq<Packet>, down: seq<Packet>, reported: nat)
    requires Phase1Data(config, c, v, up, down) && c.config == config
    requires (c.pc.CSendData? || c.pc.CSendFin?) && reported <= MAX_REPORTED
    ensures var c' := ClientStep(codec, c, reported);
            && c'.Some? && c'.value.config == c.config
            && (c'.value.pc.CSendData? || c'.value.pc.CSendFin? || c'.value.pc.CWaitFin?)
            && Phase1Data(config, c'.value, v, up + ClientSends(codec, c), down)
  {
    hide Checksum, Wrap32, Numbered, Counted, Received;
    if c.pc.CSendData? {
      MoreIffBelow(config, c.sent + 1);
      BatchGrows(config, SoFar(v), c.sent);
      hide Batch, More;
    } else {
      hide Batch, More;
    }
  }

  lemma Phase1ClientGotFin(codec: Codec, config: Config, c: Party<ClientPc>, v: Party<ServerPc>,
                           up: seq<Packet>, down: seq<Packet>, reported: nat)
    requires Phase1Data(config, c, v, up, down) && c.pc.CWaitFin? && ClientReady(c)
    ensures var c' := ClientStep(codec, c, reported);
            && c'.Some? && c'.value.config == c.config && c'.value.pc.CSendStats? && ClientSends(codec, c) == []
            && Phase1Stats(codec, config, c'.value, v, up, down)
  {
    OnlyMessage(c.inbox, Fin(), TEST_FIN);
    hide Checksum, Wrap32, Batch, Numbered, First, WithoutFirst, Counted;
  }

  lemma Phase1ClientRuns(codec: Codec, config: Config, c: Party<ClientPc>, v: Party<ServerPc>,
                         up: seq<Packet>, down: seq<Packet>, reported: nat)
    requires Phase1Data(config, c, v, up, down) && c.config == config && ClientReady(c) && reported <= MAX_REPORTED
    requires c.pc.CSendData? || c.pc.CSendFin? || c.pc.CWaitFin?
    ensures var c' := ClientStep(codec, c, reported);
            && c'.Some? && c'.value.config == c.config
            && Linked(codec, config, c'.value, v, up + ClientSends(codec, c), down)
  {
    hide Handshake, Phase1Data, Phase1Stats, Phase2Data, Phase2Stats, Closing, ClientReady;
    if c.pc.CWaitFin? {
      Phase1ClientGotFin(codec, config, c, v, up, down, reported);
      assert up + ClientSends(codec, c) == up;
    } else {
      Phase1ClientSends(codec, config, c, v, up, down, reported);
    }
    hide ClientStep, ClientSends;
  }

  lemma Phase1ServerRuns(codec: Codec, config: Config, c: Party<ClientPc>, v: Party<ServerPc>,
                         up: seq<Packet>, down: seq<Packet>, reported: nat)
    requires Phase1Data(config, c, v, up, down) && (c.pc.CSendData? || c.pc.CSendFin? || c.pc.CWaitFin?)
    requires ServerReady(v)
    ensures var v' := ServerStep(codec, v, reported);
            && v'.Some? && v'.value.config == v.config && !v'.value.pc.SWaitConfig?
            && Phase1Data(config, c, v'.value, up, down + ServerSends(codec, v))
  {
    if v.inbox != [] {
      BatchDone(config, SoFar(v), Total(config));
      OnlyMessage(v.inbox, Fin(), TEST_FIN);
    }
    hide Checksum, Wrap32, Batch, Numbered, First, WithoutFirst, Counted;
  }

  lemma Phase1ServerReceives(config: Config, c: Party<ClientPc>, v: Party<ServerPc>, up: seq<Packet>, down: seq<Packet>)
    requires Phase1Data(config, c, v, up, down) && (c.pc.CSendData? || c.pc.CSendFin? || c.pc.CWaitFin?) && up != []
    ensures Phase1Data(config, c, Dispatch(v, up[0]), up[1..], down)
  {
    hide Checksum, Wrap32, Batch, Numbered, Counted, OnData;
    if c.pc.CWaitFin? {
      DeliverCarried(config, v, up, SoFar(v), Total(config), Fin());
      hide Dispatch, Received;
    } else {
      DeliverFlowing(config, v, up, SoFar(v), c.sent);
      hide Dispatch, Received;
    }
  }

  lemma Phase1ClientReceives(config: Config, c: Party<ClientPc>, v: Party<ServerPc>, up: seq<Packet>, down: seq<Packet>)
    requires Phase1Data(config, c, v, up, down) && (c.pc.CSendData? || c.pc.CSendFin? || c.pc.CWaitFin?) && down != []
    ensures Phase1Data(config, Dispatch(c, down[0]), v, up, down[1..])
  {
    DeliverMessage(c, down, Fin());
    hide Checksum, Wrap32, Batch, Numbered, Counted, Dispatch;
  }

  lemma StatsDecode(codec: Codec, kind: Byte, stats: TestStats)
    requires Lossless(codec) && FitsInt64(stats)
    ensures codec.decStats(Stats(codec, kind, stats).payload) == Some(stats)
  {
  }

  // The client takes the server's statistics, and then the counters start again.
  lemma Phase1StatsClientRuns(codec: Codec, config: Config, s: System, e: Event)
    requires Lossless(codec) && Inv(codec, config, s) && Enabled(s, e) && e.ClientRuns?
    requires s.client.pc.CSendStats? || s.client.pc.CWaitStatsAck? || s.client.pc.CSendReady?
    ensures Inv(codec, config, Step(codec, s, e))
  {
    assert Counted(ServerSide(config), 0) == ZERO;
    hide Handshake, Phase1Data, Phase2Stats, Closing, ServerStep, ServerSends, ServerReady;
    hide Checksum, Wrap32, Counted, FitsInt64, First, WithoutFirst, Lossless, Batch;
    var c, v := s.client, s.server;
    FinalFits(config);
    if c.inbox != [] {
      StatsDecode(codec, STATS_ACK, v.serverStats1);
      OnlyMessage(c.inbox, Stats(codec, STATS_ACK, v.serverStats1), STATS_ACK);
    }
    hide Final;
  }

  lemma Phase1StatsServerRuns(codec: Codec, config: Config, s: System, e: Event)
    requires Lossless(codec) && Inv(codec, config, s) && Enabled(s, e) && e.ServerRuns?
    requires s.client.pc.CSendStats? || s.client.pc.CWaitStatsAck? || s.client.pc.CSendReady?
    ensures Inv(codec, config, Step(codec, s, e))
  {
    hide Handshake, Phase1Data, Phase2Stats, Closing, ClientStep, ClientSends, ClientReady;
    hide Checksum, Wrap32, Counted, FitsInt64, First, WithoutFirst;
    var c, v := s.client, s.server;
    FinalFits(config);
    SentFits(c, config);
    if v.inbox != [] {
      OnlyMessage(v.inbox, Stats(codec, STATS_EXCHANGE, c.lastStats), STATS_EXCHANGE);
    }
  }

  lemma Phase1StatsReceives(codec: Codec, config: Config, s: System, e: Event)
    requires Inv(codec, config, s) && Enabled(s, e) && (e.ClientReceives? || e.ServerReceives?)
    requires s.client.pc.CSendStats? || s.client.pc.CWaitStatsAck? || s.client.pc.CSendReady?
    ensures Inv(codec, config, Step(codec, s, e))
  {
    hide Handshake, Phase1Data, Phase2Data, Phase2Stats, Closing;
    var c, v := s.client, s.server;
    if e.ClientReceives? {
      DeliverMessage(c, s.down, Stats(codec, STATS_ACK, v.serverStats1));
    } else {
      DeliverMessage(v, s.up, Stats(codec, STATS_EXCHANGE, c.lastStats));
    }
    hide Checksum, Wrap32, Counted, Dispatch;
  }

  lemma Keeps1Frame(config: Config, c: Party<ClientPc>, v: Party<ServerPc>, c': Party<ClientPc>, v': Party<ServerPc>)
    requires Keeps1(c, v, config)
    requires c' == c.(pc := c'.pc, counters := c'.counters, inbox := c'.inbox,
                      clientStats2 := c'.clientStats2, serverStats2 := c'.serverStats2)
    requires v'.clientStats1 == v.clientStats1 && v'.serverStats1 == v.serverStats1
    ensures Keeps1(c', v', config)
  {
    hide Final;
  }

  lemma Phase2ServerRuns(codec: Codec, config: Config, c: Party<ClientPc>, v: Party<ServerPc>,
                         up: seq<Packet>, down: seq<Packet>, reported: nat)
    requires Phase2Data(config, c, v, up, down) && Configured(config, c, v)
    requires ServerReady(v) && reported <= MAX_REPORTED
    ensures var v' := ServerStep(codec, v, reported);
            && v'.Some? && v'.value.config == v.config && !v'.value.pc.SWaitConfig?
            && Phase2Data(config, c, v'.value, up, down + ServerSends(codec, v))
  {
    var q, back := SoFar(c), ServerSide(config);
    hide Checksum, Wrap32, Numbered, Counted, Keeps1, Received;
    Keeps1Frame(config, c, v, c, ServerStep(codec, v, reported).value);
    if v.pc.SSendData? {
      MoreIffBelow(back, v.sent + 1);
      BatchGrows(back, q, v.sent);
      hide More, Batch;
    } else if v.pc.SWaitReady? {
      MoreIffBelow(back, 0);
      OnlyMessage(v.inbox, ControlPacket(CLIENT_READY, []), CLIENT_READY);
      assert Batch(back, 0, 0) == [];
      hide More, Batch, First, WithoutFirst;
    } else {
      hide Batch;
    }
  }

  lemma Phase2ClientRuns(codec: Codec, config: Config, c: Party<ClientPc>, v: Party<ServerPc>,
                         up: seq<Packet>, down: seq<Packet>, reported: nat)
    requires Phase2Data(config, c, v, up, down) && c.pc.CWaitFin2? && ClientReady(c)
    ensures var c' := ClientStep(codec, c, reported);
            && c'.Some? && c'.value.pc == CSendStats2 && c'.value.config == c.config && ClientSends(codec, c) == []
            && Phase2Stats(codec, config, c'.value, v, up, down)
  {
    hide Checksum, Wrap32, Batch, Numbered, Counted, First, WithoutFirst;
    BatchDone(ServerSide(config), SoFar(c), Total(config));
    OnlyMessage(c.inbox, Fin(), TEST_FIN);
    Keeps1Frame(config, c, v, ClientStep(codec, c, reported).value, v);
    hide Keeps1;
  }

  lemma Phase2ClientReceives(config: Config, c: Party<ClientPc>, v: Party<ServerPc>, up: seq<Packet>, down: seq<Packet>)
    requires Phase2Data(config, c, v, up, down) && down != []
    ensures Phase2Data(config, Dispatch(c, down[0]), v, up, down[1..])
  {
    hide Checksum, Wrap32, Batch, Numbered, Counted, OnData, Keeps1;
    var c' := Dispatch(c, down[0]);
    if v.pc.SWaitStats2? {
      DeliverCarried(ServerSide(config), c, down, SoFar(c), Total(config), Fin());
    } else {
      DeliverFlowing(ServerSide(config), c, down, SoFar(c), v.sent);
    }
    Keeps1Frame(config, c, v, c', v);
    hide Dispatch, Received;
    if v.pc.SSendData? {
      assert Phase2Data(config, c', v, up, down[1..]);
    } else if v.pc.SSendFin2? {
      assert Phase2Data(config, c', v, up, down[1..]);
    }
  }

  lemma Phase2ServerReceives(config: Config, c: Party<ClientPc>, v: Party<ServerPc>, up: seq<Packet>, down: seq<Packet>)
    requires Phase2Data(config, c, v, up, down) && up != []
    ensures Phase2Data(config, c, Dispatch(v, up[0]), up[1..], down)
  {
    DeliverMessage(v, up, ControlPacket(CLIENT_READY, []));
    hide Checksum, Wrap32, Batch, Numbered, Counted, Dispatch;
  }

  lemma Phase2StatsClientRuns(codec: Codec, config: Config, c: Party<ClientPc>, v: Party<ServerPc>,
                              up: seq<Packet>, down: seq<Packet>, reported: nat)
    requires Lossless(codec) && Phase2Stats(codec, config, c, v, up, down)
    requires (c.pc.CSendStats2? || c.pc.CWaitStatsAck2?) && ClientReady(c)
    ensures var c' := ClientStep(codec, c, reported);
            && c'.Some? && c'.value.config == c.config
            && Linked(codec, config, c'.value, v, up + ClientSends(codec, c), down)
  {
    hide Handshake, Phase1Data, Phase1Stats, Phase2Data, Final;
    SentFits(v, config);
    if c.pc.CWaitStatsAck2? {
      OnlyMessage(c.inbox, Stats(codec, STATS_ACK, v.serverStats2), STATS_ACK);
    }
    hide Checksum, Wrap32, FitsInt64, First, WithoutFirst;
    Keeps1Frame(config, c, v, ClientStep(codec, c, reported).value, v);
    hide Keeps1;
  }

  lemma Phase2StatsServerRuns(codec: Codec, config: Config, c: Party<ClientPc>, v: Party<ServerPc>,
                              up: seq<Packet>, down: seq<Packet>, reported: nat)
    requires Lossless(codec) && Phase2Stats(codec, config, c, v, up, down)
    requires (c.pc.CSendStats2? || c.pc.CWaitStatsAck2?) && ServerReady(v)
    ensures var v' := ServerStep(codec, v, reported);
            && v'.Some? && v'.value.config == v.config && !v'.value.pc.SWaitConfig?
            && Phase2Stats(codec, config, c, v'.value, up, down + ServerSends(codec, v))
  {
    FinalFits(ServerSide(config));
    hide Final;
    if v.pc.SWaitStats2? {
      OnlyMessage(v.inbox, Stats(codec, STATS_EXCHANGE, c.clientStats2), STATS_EXCHANGE);
    }
    hide Checksum, Wrap32, FitsInt64, First, WithoutFirst;
    Keeps1Frame(config, c, v, c, ServerStep(codec, v, reported).value);
    hide Keeps1;
  }

  lemma Phase2StatsRuns(codec: Codec, config: Config, s: System, e: Event)
    requires Lossless(codec) && Inv(codec, config, s) && Enabled(s, e) && (e.ClientRuns? || e.ServerRuns?)
    requires s.client.pc.CSendStats2? || s.client.pc.CWaitStatsAck2?
    ensures Inv(codec, config, Step(codec, s, e))
  {
    var c, v, up, down := s.client, s.server, s.up, s.down;
    hide Handshake, Phase1Data, Phase1Stats, Phase2Data, Closing, Batch, Counted, Final, Checksum;
    assert !v.pc.SWaitConfig?;
    hide Phase2Stats;
    hide ClientStep, ServerStep, ClientSends, ServerSends, Has, ClientAwaits, ServerAwaits;
    match e
    case ClientRuns(reported) =>
      Phase2StatsClientRuns(codec, config, c, v, up, down, reported);
    case ServerRuns(reported) =>
      Phase2StatsServerRuns(codec, config, c, v, up, down, reported);
  }

  lemma Phase2StatsReceives(codec: Codec, config: Config, s: System, e: Event)
    requires Inv(codec, config, s) && Enabled(s, e) && (e.ClientReceives? || e.ServerReceives?)
    requires s.client.pc.CSendStats2? || s.client.pc.CWaitStatsAck2?
    ensures Inv(codec, config, Step(codec, s, e))
  {
    hide Handshake, Phase1Data, Phase1Stats, Phase2Data, Closing;
    var c, v := s.client, s.server;
    if e.ClientReceives? {
      DeliverMessage(c, s.down, Stats(codec, STATS_ACK, v.serverStats2));
    } else {
      DeliverMessage(v, s.up, Stats(codec, STATS_EXCHANGE, c.clientStats2));
    }
    hide Checksum, Wrap32, Counted, Dispatch;
  }

  lemma ClosingStep(codec: Codec, config: Config, s: System, e: Event)
    requires Inv(codec, config, s) && Enabled(s, e) && (s.client.pc.CSendShutdown? || s.client.pc.CFinished?)
    ensures Inv(codec, config, Step(codec, s, e))
  {
    hide Handshake, Phase1Data, Phase1Stats, Phase2Data, Phase2Stats;
    hide Checksum, Wrap32, Counted;
    if s.server.inbox != [] {
      OnlyMessage(s.server.inbox, ControlPacket(SHUTDOWN_ACK, []), SHUTDOWN_ACK);
    }
  }

  lemma DispatchKeeps<Pc>(p: Party<Pc>, packet: Packet)
    ensures Dispatch(p, packet).pc == p.pc && Dispatch(p, packet).config == p.config
  {
  }

  lemma Phase1DataStep(codec: Codec, config: Config, s: System, e: Event)
    requires Inv(codec, config, s) && Enabled(s, e) && !e.ClientTimesOut? && !e.ServerTimesOut?
    requires s.client.pc.CSendData? || s.client.pc.CSendFin? || s.client.pc.CWaitFin?
    ensures Inv(codec, config, Step(codec, s, e))
  {
    var c, v, up, down := s.client, s.server, s.up, s.down;
    hide Handshake, Phase1Stats, Phase2Data, Phase2Stats, Closing, Batch, Counted, Final, Checksum;
    assert !v.pc.SWaitConfig?;
    hide Phase1Data;
    hide ClientStep, ServerStep, ClientSends, ServerSends, Has, ClientAwaits, ServerAwaits;
    match e
    case ClientRuns(reported) =>
      Phase1ClientRuns(codec, config, c, v, up, down, reported);
    case ServerRuns(reported) =>
      Phase1ServerRuns(codec, config, c, v, up, down, reported);
    case ServerReceives =>
      Phase1ServerReceives(config, c, v, up, down);
      DispatchKeeps(v, up[0]);
      hide Dispatch;
    case ClientReceives =>
      Phase1ClientReceives(config, c, v, up, down);
      DispatchKeeps(c, down[0]);
      hide Dispatch;
  }

  lemma Phase2DataStep(codec: Codec, config: Config, s: System, e: Event)
    requires Inv(codec, config, s) && Enabled(s, e) && !e.ClientTimesOut? && !e.ServerTimesOut?
    requires s.client.pc.CWaitFin2?
    ensures Inv(codec, config, Step(codec, s, e))
  {
    var c, v, up, down := s.client, s.server, s.up, s.down;
    hide Handshake, Phase1Data, Phase1Stats, Phase2Stats, Closing, Batch, Counted, Final, Checksum;
    assert !v.pc.SWaitConfig?;
    hide Phase2Data;
    hide ClientStep, ServerStep, ClientSends, ServerSends, Has, ClientAwaits, ServerAwaits;
    match e
    case ClientRuns(reported) =>
      Phase2ClientRuns(codec, config, c, v, up, down, reported);
      assert up + ClientSends(codec, c) == up;
    case ServerRuns(reported) =>
      Phase2ServerRuns(codec, config, c, v, up, down, reported);
    case ServerReceives =>
      Phase2ServerReceives(config, c, v, up, down);
      DispatchKeeps(v, up[0]);
      hide Dispatch;
    case ClientReceives =>
      Phase2ClientReceives(config, c, v, up, down);
      DispatchKeeps(c, down[0]);
      hide Dispatch;
  }

  // Every step of either side, of either stream and of the timers keeps the
  // invariant.
  lemma StepKeepsInv(codec: Codec, config: Config, s: System, e: Event)
    requires Lossless(codec) && Inv(codec, config, s) && Enabled(s, e)
    ensures Inv(codec, config, Step(codec, s, e))
  {
    if e.ClientTimesOut? || e.ServerTimesOut? {
      hide Linked;
    } else {
      var runs := e.ClientRuns? || e.ServerRuns?;
      match s.client.pc
      case CSendConfig | CWaitAck => HandshakeStep(codec, config, s, e);
      case CSendData | CSendFin | CWaitFin => Phase1DataStep(codec, config, s, e);
      case CSendStats | CWaitStatsAck | CSendReady =>
        if e.ClientRuns? {
          Phase1StatsClientRuns(codec, config, s, e);
        } else if e.ServerRuns? {
          Phase1StatsServerRuns(codec, config, s, e);
        } else {
          Phase1StatsReceives(codec, config, s, e);
        }
      case CWaitFin2 => Phase2DataStep(codec, config, s, e);
      case CSendStats2 | CWaitStatsAck2 =>
        if runs {
          Phase2StatsRuns(codec, config, s, e);
        } else {
          Phase2StatsReceives(codec, config, s, e);
        }
      case CSendShutdown | CFinished => ClosingStep(codec, config, s, e);
    }
  }
}
