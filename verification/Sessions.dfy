// The client and the server session of one test, as two sequential processes
// joined by two lossless FIFO streams of packets.
//
// Program points are the suspension points of the coroutines: a send (the
// packet goes onto the stream and the session runs on to its next suspension)
// or a wait (the session takes a delivered message and runs on). Packets are
// dispatched one at a time: data to the receive counters, control messages to
// the inbox, from which a wait takes the oldest of its type.
module Sessions {
  import opened Protocol
  import opened TestTypes
  import opened Generator
  import opened ReceiveStats
  import opened Wrappers

  datatype ClientPc =
    | CSendConfig | CWaitAck
    | CSendData | CSendFin | CWaitFin | CSendStats | CWaitStatsAck
    | CSendReady | CWaitFin2 | CSendStats2 | CWaitStatsAck2 | CSendShutdown
    | CFinished

  datatype ServerPc =
    | SWaitConfig | SSendAck
    | SWaitFin | SSendFin | SWaitStats | SSendStatsAck
    | SWaitReady | SSendData | SSendFin2 | SWaitStats2 | SSendStatsAck2 | SWaitShutdown
    | SFinished

  // What one process owns: its generator totals, receive counters, inbox and
  // the four stored phase statistics.
  datatype Party<Pc> = Party(
    pc: Pc,
    config: Config,
    sent: nat,
    packetsSent: nat,
    bytesSent: nat,
    lastStats: TestStats,
    counters: Counters,
    inbox: seq<Packet>,
    clientStats1: TestStats,
    serverStats1: TestStats,
    clientStats2: TestStats,
    serverStats2: TestStats)

  // A failed session has thrown, for example on a timeout; it stays where it
  // was, and its receiver goes on running.
  datatype System = System(
    client: Party<ClientPc>,
    server: Party<ServerPc>,
    up: seq<Packet>,
    down: seq<Packet>,
    clientFailed: bool,
    serverFailed: bool)

  // The JSON text of configurations and statistics.
  datatype Codec = Codec(
    encConfig: Config -> Bytes,
    decConfig: Bytes -> Option<Config>,
    encStats: TestStats -> Bytes,
    decStats: Bytes -> Option<TestStats>)

  ghost predicate FitsInt64(s: TestStats) {
    && 0 <= s.totalBytesSent < 0x8000_0000_0000_0000 && 0 <= s.totalPacketsSent < 0x8000_0000_0000_0000
    && 0 <= s.totalBytesReceived < 0x8000_0000_0000_0000 && 0 <= s.totalPacketsReceived < 0x8000_0000_0000_0000
    && 0 <= s.failedChecksumCount < 0x8000_0000_0000_0000
    && 0 <= s.sequenceErrorCount < 0x8000_0000_0000_0000
    && 0 <= s.contentMismatchCount < 0x8000_0000_0000_0000
  }

  ghost predicate Lossless(codec: Codec) {
    && (forall c: Config :: codec.decConfig(codec.encConfig(c)) == Some(c) && |codec.encConfig(c)| <= MAX_PAYLOAD)
    && (forall s: TestStats | FitsInt64(s) ::
          codec.decStats(codec.encStats(s)) == Some(s) && |codec.encStats(s)| <= MAX_PAYLOAD)
  }

  function ControlPacket(kind: Byte, payload: Bytes): Packet {
    Packet(PacketHeader(PROTOCOL_START_CODE, 0, 0, kind, 0, Wrap32(|payload|), Checksum(payload)), payload)
  }

  lemma ControlPacketValid(kind: Byte, payload: Bytes)
    requires |payload| <= MAX_PAYLOAD
    ensures ValidPacket(ControlPacket(kind, payload), MAX_PAYLOAD)
  {
  }

  // ---------- Local computations ----------

  function GeneratorStats<Pc>(p: Party<Pc>): TestStats {
    NO_STATS.(totalBytesSent := p.bytesSent, totalPacketsSent := p.packetsSent)
  }

  function ReceiverStats(c: Counters): TestStats {
    TestStats(0, 0, c.bytesReceived, c.packetsReceived, c.failedChecksums, c.sequenceErrors, c.contentMismatches)
  }

  // The generator loop goes on after this many packets.
  predicate More(config: Config, sent: nat) {
    config.packetSize >= HEADER_SIZE && ShouldContinue(config.numPackets, Wrap32(sent))
  }

  function StartSending<Pc>(p: Party<Pc>, busy: Pc, idle: Pc): Party<Pc> {
    p.(sent := 0, packetsSent := 0, bytesSent := 0, lastStats := NO_STATS,
       pc := if More(p.config, 0) then busy else idle)
  }

  function AfterSend<Pc>(p: Party<Pc>, reported: nat, busy: Pc, idle: Pc): Party<Pc> {
    p.(sent := p.sent + 1, packetsSent := p.packetsSent + 1, bytesSent := p.bytesSent + reported,
       pc := if More(p.config, p.sent + 1) then busy else idle)
  }

  predicate Has(inbox: seq<Packet>, kind: Byte) {
    exists i | 0 <= i < |inbox| :: inbox[i].header.messageType == kind
  }

  // The oldest message of a type.
  function First(inbox: seq<Packet>, kind: Byte): Packet
    requires Has(inbox, kind)
  {
    if inbox[0].header.messageType == kind then inbox[0] else First(inbox[1..], kind)
  }

  function WithoutFirst(inbox: seq<Packet>, kind: Byte): seq<Packet>
    requires Has(inbox, kind)
  {
    if inbox[0].header.messageType == kind then inbox[1..] else [inbox[0]] + WithoutFirst(inbox[1..], kind)
  }

  function Dispatch<Pc>(p: Party<Pc>, packet: Packet): Party<Pc> {
    if packet.header.messageType == DATA_PACKET then p.(counters := OnData(p.counters, packet))
    else p.(inbox := p.inbox + [packet])
  }

  // ---------- The client session ----------

  function ClientAwaits(pc: ClientPc): Option<Byte> {
    match pc
    case CWaitAck => Some(CONFIG_ACK)
    case CWaitFin | CWaitFin2 => Some(TEST_FIN)
    case CWaitStatsAck | CWaitStatsAck2 => Some(STATS_ACK)
    case _ => None
  }

  function ClientSends(codec: Codec, c: Party<ClientPc>): seq<Packet> {
    match c.pc
    case CSendConfig => [ControlPacket(CONFIG_HANDSHAKE, codec.encConfig(c.config))]
    case CSendData => if c.config.packetSize >= HEADER_SIZE then [Numbered(c.config, c.sent)] else []
    case CSendFin => [ControlPacket(TEST_FIN, [])]
    case CSendStats => [ControlPacket(STATS_EXCHANGE, codec.encStats(c.lastStats))]
    case CSendReady => [ControlPacket(CLIENT_READY, [])]
    case CSendStats2 => [ControlPacket(STATS_EXCHANGE, codec.encStats(c.clientStats2))]
    case CSendShutdown => [ControlPacket(SHUTDOWN_ACK, [])]
    case _ => []
  }

  // The session runs on from a send; reported is the byte count the network
  // gives for a data packet.
  function ClientSent(c: Party<ClientPc>, reported: nat): Party<ClientPc> {
    match c.pc
    case CSendConfig => c.(pc := CWaitAck)
    case CSendData => AfterSend(c, reported, CSendData, CSendFin)
    case CSendFin => c.(pc := CWaitFin)
    case CSendStats => c.(pc := CWaitStatsAck)
    case CSendReady => c.(pc := CWaitFin2, counters := ZERO)
    case CSendStats2 => c.(pc := CWaitStatsAck2)
    case CSendShutdown => c.(pc := CFinished)
    case _ => c
  }

  // The session runs on from a wait that got message m; None if the payload
  // does not parse.
  function ClientGot(codec: Codec, c: Party<ClientPc>, m: Packet): Option<Party<ClientPc>> {
    match c.pc
    case CWaitAck => Some(StartSending(c, CSendData, CSendFin))
    case CWaitFin => Some(c.(pc := CSendStats, lastStats := GeneratorStats(c)))
    case CWaitStatsAck =>
      (match codec.decStats(m.payload)
       case None => None
       case Some(stats) => Some(c.(pc := CSendReady, serverStats1 := stats, clientStats1 := c.lastStats)))
    case CWaitFin2 => Some(c.(pc := CSendStats2, clientStats2 := ReceiverStats(c.counters)))
    case CWaitStatsAck2 =>
      (match codec.decStats(m.payload)
       case None => None
       case Some(stats) => Some(c.(pc := CSendShutdown, serverStats2 := stats)))
    case _ => Some(c)
  }

  // ---------- The server session ----------

  function ServerAwaits(pc: ServerPc): Option<Byte> {
    match pc
    case SWaitConfig => Some(CONFIG_HANDSHAKE)
    case SWaitFin => Some(TEST_FIN)
    case SWaitStats | SWaitStats2 => Some(STATS_EXCHANGE)
    case SWaitReady => Some(CLIENT_READY)
    case SWaitShutdown => Some(SHUTDOWN_ACK)
    case _ => None
  }

  function ServerSends(codec: Codec, s: Party<ServerPc>): seq<Packet> {
    match s.pc
    case SSendAck => [ControlPacket(CONFIG_ACK, [])]
    case SSendFin | SSendFin2 => [ControlPacket(TEST_FIN, [])]
    case SSendStatsAck => [ControlPacket(STATS_ACK, codec.encStats(s.serverStats1))]
    case SSendData => if s.config.packetSize >= HEADER_SIZE then [Numbered(s.config, s.sent)] else []
    case SSendStatsAck2 => [ControlPacket(STATS_ACK, codec.encStats(s.serverStats2))]
    case _ => []
  }

  function ServerSent(s: Party<ServerPc>, reported: nat): Party<ServerPc> {
    match s.pc
    case SSendAck => s.(pc := SWaitFin, counters := ZERO)
    case SSendFin => s.(pc := SWaitStats)
    case SSendStatsAck => s.(pc := SWaitReady)
    case SSendData => AfterSend(s, reported, SSendData, SSendFin2)
    case SSendFin2 => s.(pc := SWaitStats2)
    case SSendStatsAck2 => s.(pc := SWaitShutdown)
    case _ => s
  }

  function ServerGot(codec: Codec, s: Party<ServerPc>, m: Packet): Option<Party<ServerPc>> {
    match s.pc
    case SWaitConfig =>
      (match codec.decConfig(m.payload)
       case None => None
       case Some(config) => Some(s.(pc := SSendAck, config := config.(mode := SERVER))))
    case SWaitFin => Some(s.(pc := SSendFin))
    case SWaitStats =>
      (match codec.decStats(m.payload)
       case None => None
       case Some(stats) =>
         Some(s.(pc := SSendStatsAck, clientStats1 := stats, serverStats1 := ReceiverStats(s.counters))))
    case SWaitReady => Some(StartSending(s, SSendData, SSendFin2))
    case SWaitStats2 =>
      (match codec.decStats(m.payload)
       case None => None
       case Some(stats) => Some(s.(pc := SSendStatsAck2, clientStats2 := stats, serverStats2 := GeneratorStats(s))))
    case SWaitShutdown => Some(s.(pc := SFinished))
    case _ => Some(s)
  }

  // ---------- Steps of the system ----------

  datatype Event =
    | ClientRuns(reported: nat)
    | ServerRuns(reported: nat)
    | ClientTimesOut
    | ServerTimesOut
    | ServerReceives     // the next packet of the upstream is dispatched
    | ClientReceives

  const MAX_REPORTED: nat := 0x7FFF_FFFF

  // The session is at a send, or the message it waits for has been delivered.
  predicate ClientReady(c: Party<ClientPc>) {
    && !c.pc.CFinished?
    && (ClientAwaits(c.pc).Some? ==> Has(c.inbox, ClientAwaits(c.pc).value))
  }

  predicate ServerReady(s: Party<ServerPc>) {
    && !s.pc.SFinished?
    && (ServerAwaits(s.pc).Some? ==> Has(s.inbox, ServerAwaits(s.pc).value))
  }

  predicate Enabled(s: System, e: Event) {
    match e
    case ClientRuns(reported) => !s.clientFailed && ClientReady(s.client) && 1 <= reported <= MAX_REPORTED
    case ServerRuns(reported) => !s.serverFailed && ServerReady(s.server) && 1 <= reported <= MAX_REPORTED
    case ClientTimesOut => !s.clientFailed && ClientAwaits(s.client.pc).Some? && !ClientReady(s.client)
    case ServerTimesOut => !s.serverFailed && ServerAwaits(s.server.pc).Some? && !ServerReady(s.server)
    case ServerReceives => s.up != []
    case ClientReceives => s.down != []
  }

  function ClientStep(codec: Codec, c: Party<ClientPc>, reported: nat): Option<Party<ClientPc>>
    requires ClientReady(c)
  {
    match ClientAwaits(c.pc)
    case None => Some(ClientSent(c, reported))
    case Some(kind) => ClientGot(codec, c.(inbox := WithoutFirst(c.inbox, kind)), First(c.inbox, kind))
  }

  function ServerStep(codec: Codec, s: Party<ServerPc>, reported: nat): Option<Party<ServerPc>>
    requires ServerReady(s)
  {
    match ServerAwaits(s.pc)
    case None => Some(ServerSent(s, reported))
    case Some(kind) => ServerGot(codec, s.(inbox := WithoutFirst(s.inbox, kind)), First(s.inbox, kind))
  }

  function Step(codec: Codec, s: System, e: Event): System
    requires Enabled(s, e)
  {
    match e
    case ClientRuns(reported) =>
      (match ClientStep(codec, s.client, reported)
       case None => s.(clientFailed := true)
       case Some(c) => s.(client := c, up := s.up + ClientSends(codec, s.client)))
    case ServerRuns(reported) =>
      (match ServerStep(codec, s.server, reported)
       case None => s.(serverFailed := true)
       case Some(v) => s.(server := v, down := s.down + ServerSends(codec, s.server)))
    case ClientTimesOut => s.(clientFailed := true)
    case ServerTimesOut => s.(serverFailed := true)
    case ServerReceives => s.(server := Dispatch(s.server, s.up[0]), up := s.up[1..])
    case ClientReceives => s.(client := Dispatch(s.client, s.down[0]), down := s.down[1..])
  }

  // Connected, receivers attached, nothing sent yet. The server's own
  // configuration is whatever it was started with.
  ghost predicate Initial(s: System, config: Config) {
    && s.client.pc == CSendConfig && s.server.pc == SWaitConfig
    && !s.clientFailed && !s.serverFailed
    && s.client.config == config && config.mode == CLIENT
    && s.client.counters == s.server.counters == ZERO
    && s.client.inbox == s.server.inbox == []
    && s.up == s.down == []
  }
}
