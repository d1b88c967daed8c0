// Both sessions while data packets are above the bound of the parsers: for
// every pair of program points, what each link and inbox can hold and what has
// been stored. No data packet is ever counted.
module OversizedSessions {
  import opened Protocol
  import opened StreamParser
  import opened StreamCodec
  import opened TestTypes
  import opened Generator
  import opened ReceiveStats
  import opened Wrappers
  import opened Sessions
  import opened SessionInvariant
  import opened SessionTheorems
  import opened Network
  import opened AnySize
  import opened OversizedStream

  // ---------- The invariant ----------

  // The pairs of program points after the handshake.
  predicate Together(c: ClientPc, v: ServerPc) {
    match v
    case SWaitConfig | SSendAck => false
    case SWaitFin => c.CSendData? || c.CSendFin? || c.CWaitFin?
    case SSendFin => c.CWaitFin?
    case SWaitStats => c.CWaitFin? || c.CSendStats? || c.CWaitStatsAck?
    case SSendStatsAck => c.CWaitStatsAck?
    case SWaitReady => c.CWaitStatsAck? || c.CSendReady? || c.CWaitFin2?
    case SSendData | SSendFin2 => c.CWaitFin2?
    case SWaitStats2 => c.CWaitFin2? || c.CSendStats2? || c.CWaitStatsAck2?
    case SSendStatsAck2 => c.CWaitStatsAck2?
    case SWaitShutdown => c.CWaitStatsAck2? || c.CSendShutdown? || c.CFinished?
    case SFinished => c.CFinished?
  }

  // While a run is calm, all data sent has been thrown away already, and a
  // TEST_FIN stands alone.
  function Data(calm: bool): Load {
    if calm then Empty else Flood
  }

  function DataEnd(calm: bool): Load {
    if calm then Control(Fin()) else FloodFin
  }

  function UpLoad(codec: Codec, c: Party<ClientPc>, v: ServerPc, calm: bool): Load {
    match c.pc
    case CSendData | CSendFin => Data(calm)
    case CWaitFin => if v.SWaitFin? then DataEnd(calm) else Empty
    case CWaitStatsAck => if v.SWaitStats? then Control(Stats(codec, STATS_EXCHANGE, c.lastStats)) else Empty
    case CWaitFin2 => if v.SWaitReady? then Control(ControlPacket(CLIENT_READY, [])) else Empty
    case CWaitStatsAck2 => if v.SWaitStats2? then Control(Stats(codec, STATS_EXCHANGE, c.clientStats2)) else Empty
    case CFinished => if v.SWaitShutdown? then Control(ControlPacket(SHUTDOWN_ACK, [])) else Empty
    case _ => Empty
  }

  function DownLoad(codec: Codec, c: ClientPc, v: Party<ServerPc>, calm: bool): Load {
    match v.pc
    case SWaitStats => if c.CWaitFin? then Control(Fin()) else Empty
    case SWaitReady => if c.CWaitStatsAck? then Control(Stats(codec, STATS_ACK, v.serverStats1)) else Empty
    case SSendData | SSendFin2 => Data(calm)
    case SWaitStats2 => if c.CWaitFin2? then DataEnd(calm) else Empty
    case SWaitShutdown => if c.CWaitStatsAck2? then Control(Stats(codec, STATS_ACK, v.serverStats2)) else Empty
    case _ => Empty
  }

  const UNRECEIVED := ReceiverStats(ZERO)

  ghost predicate ClientHolds(config: Config, c: Party<ClientPc>) {
    && (if c.pc.CSendData? then HasSent(c, c.sent) && Below(config, c.sent) else HasSent(c, Total(config)))
    && (c.pc.CSendData? || c.pc.CSendFin? || c.pc.CWaitFin? || c.lastStats == GeneratorStats(c))
    && (ClientDone1(c.pc) ==> c.clientStats1 == GeneratorStats(c) && c.serverStats1 == UNRECEIVED)
    && (c.pc.CWaitFin2? ==> c.counters == ZERO)
    && (ClientDone1b(c.pc) ==> c.clientStats2 == UNRECEIVED)
  }

  ghost predicate ServerHolds(config: Config, v: Party<ServerPc>) {
    && (v.pc.SWaitFin? || v.pc.SSendFin? || v.pc.SWaitStats? ==> v.counters == ZERO)
    && (ServerDone1(v.pc) ==> v.serverStats1 == UNRECEIVED)
    && (v.pc.SSendData? ==> HasSent(v, v.sent) && Below(config, v.sent))
    && (v.pc.SSendFin2? || v.pc.SWaitStats2? || ServerDone2(v.pc) ==> HasSent(v, Total(config)))
    && (ServerDone2(v.pc) ==> v.serverStats2 == GeneratorStats(v) && v.clientStats2 == UNRECEIVED)
  }

  // What one side has stored of the other.
  ghost predicate Exchanged(c: Party<ClientPc>, v: Party<ServerPc>) {
    && (ServerDone1(v.pc) ==> v.clientStats1 == GeneratorStats(c))
    && (ClientDone2(c.pc) ==> c.serverStats2 == GeneratorStats(v))
  }

  ghost predicate Holds(config: Config, c: Party<ClientPc>, v: Party<ServerPc>) {
    && c.config == config && v.config == ServerSide(config) && Together(c.pc, v.pc)
    && ClientHolds(config, c) && ServerHolds(config, v) && Exchanged(c, v)
  }

  ghost predicate Waiting(n: Net) {
    && (n.clientFailed ==> ClientAwaits(n.client.pc).Some?)
    && (n.serverFailed ==> ServerAwaits(n.server.pc).Some?)
  }

  ghost predicate Flooded(codec: Codec, config: Config, n: Net, calm: bool) {
    && TooLarge(config) && Waiting(n) && Holds(config, n.client, n.server)
    && On(UpLoad(codec, n.client, n.server.pc, calm), n.up, n.server.inbox)
    && On(DownLoad(codec, n.client.pc, n.server, calm), n.down, n.client.inbox)
  }

  // None of this looks at the inboxes.
  lemma InboxFree(config: Config, c: Party<ClientPc>, v: Party<ServerPc>, inbox: seq<Packet>)
    ensures Holds(config, c.(inbox := inbox), v) == Holds(config, c, v.(inbox := inbox)) == Holds(config, c, v)
  {
  }

  // ---------- The client runs ----------

  lemma ClientSendHolds(config: Config, c: Party<ClientPc>, v: Party<ServerPc>, reported: nat)
    requires TooLarge(config) && Holds(config, c, v) && reported <= MAX_REPORTED
    requires ClientAwaits(c.pc).None? && !c.pc.CFinished?
    ensures Holds(config, ClientSent(c, reported), v)
  {
    hide More, ServerHolds;
    assert ServerHolds(config, v);
    if c.pc.CSendData? {
      MoreIffBelow(config, c.sent + 1);
    }
  }

  lemma SentStatsValid(codec: Codec, config: Config, c: Party<ClientPc>, v: Party<ServerPc>)
    requires Lossless(codec) && TooLarge(config) && Holds(config, c, v)
    ensures FitsInt64(UNRECEIVED) && |codec.encStats(UNRECEIVED)| <= MAX_PAYLOAD
    ensures !c.pc.CSendData? ==> FitsInt64(GeneratorStats(c)) && |codec.encStats(GeneratorStats(c))| <= MAX_PAYLOAD
    ensures ServerDone2(v.pc) ==> FitsInt64(GeneratorStats(v)) && |codec.encStats(GeneratorStats(v))| <= MAX_PAYLOAD
  {
    if !c.pc.CSendData? {
      SentFits(c, config);
    }
    if ServerDone2(v.pc) {
      SentFits(v, config);
    }
    hide FitsInt64, GeneratorStats;
  }

  lemma ClientSendKeeps(codec: Codec, config: Config, n: Net, calm: bool, reported: nat)
    requires Lossless(codec) && Flooded(codec, config, n, calm) && reported <= MAX_REPORTED
    requires ClientAwaits(n.client.pc).None? && !n.client.pc.CFinished? && (calm ==> !n.client.pc.CSendData?)
    ensures Flooded(codec, config, n.(client := ClientSent(n.client, reported),
                                      up := Extended(n.up, ClientSends(codec, n.client))), calm)
  {
    hide On, ServerHolds, Exchanged, GeneratorStats, Extended, FitsInt64, Lossless, ControlPacket, Numbered, More;
    var c, v := n.client, n.server;
    ClientSendHolds(config, c, v, reported);
    SentStatsValid(codec, config, c, v);
    assert Holds(config, ClientSent(c, reported), v) && c.config == config && Together(c.pc, v.pc);
    assert ClientHolds(config, c);
    hide Holds;
    match c.pc
    case CSendData => SendData(n.up, v.inbox, config, c.sent);
    case CSendFin =>
      if calm {
        SendControl(n.up, v.inbox, TEST_FIN, []);
      } else {
        SendFin(n.up, v.inbox);
      }
    case CSendStats => SendControl(n.up, v.inbox, STATS_EXCHANGE, codec.encStats(c.lastStats));
    case CSendReady => SendControl(n.up, v.inbox, CLIENT_READY, []);
    case CSendStats2 => SendControl(n.up, v.inbox, STATS_EXCHANGE, codec.encStats(c.clientStats2));
    case CSendShutdown => SendControl(n.up, v.inbox, SHUTDOWN_ACK, []);
    case _ =>
  }

  // The message is the one on the downstream, so it is of this phase.
  lemma ClientTakes(codec: Codec, config: Config, c: Party<ClientPc>, v: Party<ServerPc>, calm: bool, m: Packet)
    requires Lossless(codec) && TooLarge(config) && Holds(config, c, v) && ClientAwaits(c.pc).Some?
    requires Messages(DownLoad(codec, c.pc, v, calm)) == [m]
    ensures match c.pc
      case CWaitFin => v.pc.SWaitStats?
      case CWaitStatsAck => v.pc.SWaitReady? && codec.decStats(m.payload) == Some(UNRECEIVED)
      case CWaitFin2 => v.pc.SWaitStats2?
      case CWaitStatsAck2 => v.pc.SWaitShutdown? && codec.decStats(m.payload) == Some(GeneratorStats(v))
      case _ => false
  {
    SentStatsValid(codec, config, c, v);
    hide FitsInt64, GeneratorStats, Wrap32, Checksum, ClientHolds, Exchanged;
  }

  lemma ClientTakeHolds(codec: Codec, config: Config, c: Party<ClientPc>, v: Party<ServerPc>, calm: bool, m: Packet)
    requires Lossless(codec) && TooLarge(config) && Holds(config, c, v) && ClientAwaits(c.pc).Some?
    requires Messages(DownLoad(codec, c.pc, v, calm)) == [m]
    ensures var c' := ClientGot(codec, c, m);
            && c'.Some? && c'.value.inbox == c.inbox && Holds(config, c'.value, v)
            && UpLoad(codec, c'.value, v.pc, calm) == UpLoad(codec, c, v.pc, calm)
            && DownLoad(codec, c'.value.pc, v, calm) == Empty
  {
    hide FitsInt64, Lossless, ServerHolds;
    assert ServerHolds(config, v);
    ClientTakes(codec, config, c, v, calm, m);
  }

  lemma ClientTakeKeeps(codec: Codec, config: Config, n: Net, calm: bool)
    requires Lossless(codec) && Flooded(codec, config, n, calm)
    requires ClientAwaits(n.client.pc).Some? && ClientReady(n.client) && !n.clientFailed
    ensures var c' := ClientStep(codec, n.client, 1);
            c'.Some? && Flooded(codec, config, n.(client := c'.value), calm)
  {
    var c, v, kind := n.client, n.server, ClientAwaits(n.client.pc).value;
    hide On, Holds;
    TakeOn(DownLoad(codec, c.pc, v, calm), n.down, c.inbox, kind);
    InboxFree(config, c, v, WithoutFirst(c.inbox, kind));
    ClientTakeHolds(codec, config, c.(inbox := WithoutFirst(c.inbox, kind)), v, calm, First(c.inbox, kind));
  }

  // ---------- The server runs ----------

  lemma ServerSendHolds(config: Config, c: Party<ClientPc>, v: Party<ServerPc>, reported: nat)
    requires TooLarge(config) && Holds(config, c, v) && reported <= MAX_REPORTED
    requires ServerAwaits(v.pc).None? && !v.pc.SFinished?
    ensures Holds(config, c, ServerSent(v, reported))
  {
    hide More, ClientHolds;
    assert ClientHolds(config, c);
    if v.pc.SSendData? {
      MoreIffBelow(v.config, v.sent + 1);
    }
  }

  lemma ServerSendKeeps(codec: Codec, config: Config, n: Net, calm: bool, reported: nat)
    requires Lossless(codec) && Flooded(codec, config, n, calm) && reported <= MAX_REPORTED
    requires ServerAwaits(n.server.pc).None? && !n.server.pc.SFinished? && (calm ==> !n.server.pc.SSendData?)
    ensures Flooded(codec, config, n.(server := ServerSent(n.server, reported),
                                      down := Extended(n.down, ServerSends(codec, n.server))), calm)
  {
    hide On, ClientHolds, Exchanged, GeneratorStats, Extended, FitsInt64, Lossless, ControlPacket, Numbered, More;
    var c, v := n.client, n.server;
    ServerSendHolds(config, c, v, reported);
    SentStatsValid(codec, config, c, v);
    assert Holds(config, c, ServerSent(v, reported)) && v.config == ServerSide(config) && Together(c.pc, v.pc);
    assert ServerHolds(config, v);
    hide Holds;
    match v.pc
    case SSendData => SendData(n.down, c.inbox, v.config, v.sent);
    case SSendFin => SendControl(n.down, c.inbox, TEST_FIN, []);
    case SSendFin2 =>
      if calm {
        SendControl(n.down, c.inbox, TEST_FIN, []);
      } else {
        SendFin(n.down, c.inbox);
      }
    case SSendStatsAck => SendControl(n.down, c.inbox, STATS_ACK, codec.encStats(v.serverStats1));
    case SSendStatsAck2 => SendControl(n.down, c.inbox, STATS_ACK, codec.encStats(v.serverStats2));
    case _ =>
  }

  lemma ServerTakes(codec: Codec, config: Config, c: Party<ClientPc>, v: Party<ServerPc>, calm: bool, m: Packet)
    requires Lossless(codec) && TooLarge(config) && Holds(config, c, v) && ServerAwaits(v.pc).Some?
    requires Messages(UpLoad(codec, c, v.pc, calm)) == [m]
    ensures match v.pc
      case SWaitFin => c.pc.CWaitFin?
      case SWaitStats => c.pc.CWaitStatsAck? && codec.decStats(m.payload) == Some(GeneratorStats(c))
      case SWaitReady => c.pc.CWaitFin2?
      case SWaitStats2 => c.pc.CWaitStatsAck2? && codec.decStats(m.payload) == Some(UNRECEIVED)
      case SWaitShutdown => c.pc.CFinished?
      case _ => false
  {
    SentStatsValid(codec, config, c, v);
    hide FitsInt64, GeneratorStats, Wrap32, Checksum, ServerHolds, Exchanged;
  }

  // After CLIENT_READY the server goes on to data.
  lemma ServerTakeHolds(codec: Codec, config: Config, c: Party<ClientPc>, v: Party<ServerPc>, calm: bool, m: Packet)
    requires Lossless(codec) && TooLarge(config) && Holds(config, c, v) && ServerAwaits(v.pc).Some?
    requires Messages(UpLoad(codec, c, v.pc, calm)) == [m]
    ensures var v' := ServerGot(codec, v, m);
            && v'.Some? && v'.value.inbox == v.inbox && Holds(config, c, v'.value)
            && UpLoad(codec, c, v'.value.pc, calm) == Empty
            && (if v.pc.SWaitReady? then DownLoad(codec, c.pc, v, calm) == Empty &&
                                         DownLoad(codec, c.pc, v'.value, calm) == Data(calm)
                else DownLoad(codec, c.pc, v'.value, calm) == DownLoad(codec, c.pc, v, calm))
  {
    hide FitsInt64, Lossless, ClientHolds, More;
    assert ClientHolds(config, c);
    ServerTakes(codec, config, c, v, calm, m);
    MoreIffBelow(v.config, 0);
  }

  lemma ServerTakeKeeps(codec: Codec, config: Config, n: Net, calm: bool)
    requires Lossless(codec) && Flooded(codec, config, n, calm)
    requires ServerAwaits(n.server.pc).Some? && ServerReady(n.server) && !n.serverFailed
    ensures var v' := ServerStep(codec, n.server, 1);
            v'.Some? && Flooded(codec, config, n.(server := v'.value), calm)
  {
    var c, v, kind := n.client, n.server, ServerAwaits(n.server.pc).value;
    hide On, Holds;
    TakeOn(UpLoad(codec, c, v.pc, calm), n.up, v.inbox, kind);
    InboxFree(config, c, v, WithoutFirst(v.inbox, kind));
    ServerTakeHolds(codec, config, c, v.(inbox := WithoutFirst(v.inbox, kind)), calm, First(v.inbox, kind));
    if v.pc.SWaitReady? {
      EmptyFloods(n.down, c.inbox);
    }
  }

  // ---------- Every event ----------

  lemma ChunkKeeps(codec: Codec, config: Config, n: Net, calm: bool, e: NetEvent)
    requires Flooded(codec, config, n, calm) && NetEnabled(n, e) && !e.Session?
    ensures Flooded(codec, config, NetStep(codec, n, e), calm)
  {
    hide On, ReceiveChunk, Holds;
    var c, v := n.client, n.server;
    match e
    case ServerChunk(size) =>
      ReceiveOn(UpLoad(codec, c, v.pc, calm), v, n.up, size);
      InboxFree(config, c, v, ReceiveChunk(v, n.up, size).0.inbox);
    case ClientChunk(size) =>
      ReceiveOn(DownLoad(codec, c.pc, v, calm), c, n.down, size);
      InboxFree(config, c, v, ReceiveChunk(c, n.down, size).0.inbox);
  }

  // A data packet leaves.
  predicate SendsData(n: Net, e: NetEvent) {
    && e.Session?
    && ((e.e.ClientRuns? && n.client.pc.CSendData?) || (e.e.ServerRuns? && n.server.pc.SSendData?))
  }

  lemma ClientKeeps(codec: Codec, config: Config, n: Net, calm: bool, reported: nat)
    requires Lossless(codec) && Flooded(codec, config, n, calm) && NetEnabled(n, Session(ClientRuns(reported)))
    requires calm ==> !n.client.pc.CSendData?
    ensures var n' := NetStep(codec, n, Session(ClientRuns(reported)));
            Flooded(codec, config, n', calm) && n'.clientFailed == n.clientFailed && n'.serverFailed == n.serverFailed
  {
    ClientNetStep(codec, n, reported);
    ExtendedNothing(n.up);
    hide Flooded, NetStep, Extended;
    if ClientAwaits(n.client.pc).Some? {
      ClientTakeKeeps(codec, config, n, calm);
    } else {
      ClientSendKeeps(codec, config, n, calm, reported);
    }
  }

  lemma ServerKeeps(codec: Codec, config: Config, n: Net, calm: bool, reported: nat)
    requires Lossless(codec) && Flooded(codec, config, n, calm) && NetEnabled(n, Session(ServerRuns(reported)))
    requires calm ==> !n.server.pc.SSendData?
    ensures var n' := NetStep(codec, n, Session(ServerRuns(reported)));
            Flooded(codec, config, n', calm) && n'.clientFailed == n.clientFailed && n'.serverFailed == n.serverFailed
  {
    ServerNetStep(codec, n, reported);
    ExtendedNothing(n.down);
    hide Flooded, NetStep, Extended;
    if ServerAwaits(n.server.pc).Some? {
      ServerTakeKeeps(codec, config, n, calm);
    } else {
      ServerSendKeeps(codec, config, n, calm, reported);
    }
  }

  lemma TimeoutKeeps(codec: Codec, config: Config, n: Net, calm: bool, x: Event)
    requires Flooded(codec, config, n, calm) && NetEnabled(n, Session(x)) && IsTimeout(x)
    ensures Flooded(codec, config, NetStep(codec, n, Session(x)), calm)
  {
    TimeoutNetStep(codec, n, x);
    hide Holds, On, UpLoad, DownLoad, NetStep;
  }

  // Whatever happens, no side fails but by a timeout.
  lemma StepKeepsFlooded(codec: Codec, config: Config, n: Net, calm: bool, e: NetEvent)
    requires Lossless(codec) && Flooded(codec, config, n, calm) && NetEnabled(n, e) && (calm ==> !SendsData(n, e))
    ensures var n' := NetStep(codec, n, e);
            && Flooded(codec, config, n', calm)
            && (Untimed(e) ==> n'.clientFailed == n.clientFailed && n'.serverFailed == n.serverFailed)
  {
    if !e.Session? {
      ChunkKeeps(codec, config, n, calm, e);
      hide Flooded, ReceiveChunk;
    } else if IsTimeout(e.e) {
      TimeoutKeeps(codec, config, n, calm, e.e);
    } else if e.e.ClientRuns? {
      ClientKeeps(codec, config, n, calm, e.e.reported);
      hide Flooded, NetStep;
    } else {
      ServerKeeps(codec, config, n, calm, e.e.reported);
      hide Flooded, NetStep;
    }
  }

  // ---------- From the handshake on ----------

  // Nothing is on its way when the client begins to send.
  lemma QuietStart(codec: Codec, config: Config, n: Net)
    requires NetInv(codec, config, n) && n.client.pc.CSendData? && n.client.sent == 0
    ensures n.client.config == config && n.server.config == ServerSide(config) && n.server.pc == SWaitFin
    ensures n.client.inbox == n.server.inbox == [] && n.up == n.down == EMPTY_LINK
    ensures n.server.counters == ZERO && HasSent(n.client, 0) && Below(config, 0) && Waiting(n)
  {
    var s :| Inv(codec, config, s) && Represents(n, s);
    assert Batch(config, 0, 0) == [] && Counted(config, 0) == ZERO;
    hide Counted, Handshake, Phase1Stats, Phase2Data, Phase2Stats, Closing, Spells, Below;
    SpellsNothing(n.up);
    SpellsNothing(n.down);
  }

  lemma EntersFlood(codec: Codec, config: Config, n: Net)
    requires TooLarge(config) && NetInv(codec, config, n) && n.client.pc.CSendData? && n.client.sent == 0
    ensures Flooded(codec, config, n, true)
  {
    QuietStart(codec, config, n);
    hide NetInv;
  }

  lemma CalmFloods(codec: Codec, config: Config, n: Net)
    requires Flooded(codec, config, n, true)
    ensures Flooded(codec, config, n, false)
  {
    hide On, Holds;
    var c, v := n.client, n.server;
    if UpLoad(codec, c, v.pc, true) != UpLoad(codec, c, v.pc, false) {
      LoadFloods(UpLoad(codec, c, v.pc, true), n.up, v.inbox);
    }
    if DownLoad(codec, c.pc, v, true) != DownLoad(codec, c.pc, v, false) {
      LoadFloods(DownLoad(codec, c.pc, v, true), n.down, c.inbox);
    }
  }

  lemma LoadFloods(load: Load, link: Link, inbox: seq<Packet>)
    requires (load == Data(true) || load == DataEnd(true)) && On(load, link, inbox)
    ensures On(if load == Data(true) then Data(false) else DataEnd(false), link, inbox)
  {
    hide Fin, Barren, FinAt, Spells;
    if load == Data(true) {
      EmptyFloods(link, inbox);
    } else if inbox == [] {
      SpelledFin(link);
    }
  }

  lemma SpelledFin(link: Link)
    requires Spells(link, [Fin()])
    ensures FinAt(link.buffer + link.wire, 0)
  {
    NothingBarren();
    OneEncoded(Fin());
    hide Fin, EncodePacket, Barren, AllValid, Settled;
    var all := link.buffer + link.wire;
    assert all[..0] == [] && all[0..] == all;
  }

  ghost predicate Tracked(codec: Codec, config: Config, n: Net) {
    && TooLarge(config) && AnyInv(codec, config, n)
    && (!Handshaking(n.client.pc) ==> Flooded(codec, config, n, false))
  }

  lemma LeavesForData(codec: Codec, config: Config, n: Net, e: NetEvent)
    requires Lossless(codec) && Tracked(codec, config, n) && NetEnabled(n, e) && Handshaking(n.client.pc)
    requires !Handshaking(NetStep(codec, n, e).client.pc)
    ensures Flooded(codec, config, NetStep(codec, n, e), true)
  {
    HandshakeServer(codec, config, n);
    NetStepKeepsInv(codec, config, n, e);
    LeavesHandshake(codec, n, e);
    StepSound(codec, n, e);
    MoreIffBelow(config, 0);
    hide NetInv, NetStep, Flooded, ClientSound, ServerSound, NetEnabled;
    EntersFlood(codec, config, NetStep(codec, n, e));
  }

  lemma StepKeepsTracked(codec: Codec, config: Config, n: Net, e: NetEvent)
    requires Lossless(codec) && Tracked(codec, config, n) && NetEnabled(n, e)
    ensures Tracked(codec, config, NetStep(codec, n, e))
  {
    hide AnyInv, NetStep, Flooded, NetEnabled, Handshaking;
    StepKeepsAnyInv(codec, config, n, e);
    if !Handshaking(n.client.pc) {
      StepKeepsFlooded(codec, config, n, false, e);
    } else if !Handshaking(NetStep(codec, n, e).client.pc) {
      LeavesForData(codec, config, n, e);
      CalmFloods(codec, config, NetStep(codec, n, e));
    }
  }

  lemma {:induction false} RunKeepsTracked(codec: Codec, config: Config, n: Net, events: seq<NetEvent>)
    requires Lossless(codec) && Tracked(codec, config, n) && IsNetRun(codec, n, events)
    ensures Tracked(codec, config, NetEnd(codec, n, events))
    decreases |events|
  {
    hide Tracked, NetEnabled, NetStep;
    if events != [] {
      StepKeepsTracked(codec, config, n, events[0]);
      RunKeepsTracked(codec, config, NetStep(codec, n, events[0]), events[1..]);
    }
  }

  lemma InitialTracked(codec: Codec, config: Config, n: Net)
    requires NetInitial(n, config) && TooLarge(config)
    ensures Tracked(codec, config, n)
  {
    InitialAnyInv(codec, config, n);
    hide AnyInv;
  }

  // ---------- What follows ----------

  lemma TrackedStepNeverFails(codec: Codec, config: Config, n: Net, e: NetEvent)
    requires Lossless(codec) && Tracked(codec, config, n) && NetEnabled(n, e)
    requires !n.clientFailed && !n.serverFailed && Untimed(e)
    ensures var m := NetStep(codec, n, e); !m.clientFailed && !m.serverFailed
  {
    hide NetInv, NetStep, NetEnabled, Flooded, Untimed, ClientSound, ServerSound;
    if Handshaking(n.client.pc) {
      StepNeverFails(codec, config, n, e);
    } else {
      StepKeepsFlooded(codec, config, n, false, e);
    }
  }

  lemma {:induction false} TrackedNeverFails(codec: Codec, config: Config, n: Net, events: seq<NetEvent>)
    requires Lossless(codec) && Tracked(codec, config, n) && IsNetRun(codec, n, events)
    requires !n.clientFailed && !n.serverFailed && forall e | e in events :: Untimed(e)
    ensures var m := NetEnd(codec, n, events); !m.clientFailed && !m.serverFailed
    decreases |events|
  {
    hide Tracked, NetEnabled, NetStep, Untimed;
    if events != [] {
      var e := events[0];
      assert Untimed(e);
      TrackedStepNeverFails(codec, config, n, e);
      StepKeepsTracked(codec, config, n, e);
      TrackedNeverFails(codec, config, NetStep(codec, n, e), events[1..]);
    }
  }

  lemma TrackedAgreed(codec: Codec, config: Config, n: Net)
    requires Tracked(codec, config, n)
    ensures Agreed(n.client, n.server, n.clientFailed)
  {
    if Handshaking(n.client.pc) {
      NetAgreed(codec, config, n);
    } else {
      hide On, UpLoad, DownLoad, AnyInv, HasSent, GeneratorStats;
    }
  }

  lemma NetAgreed(codec: Codec, config: Config, n: Net)
    requires NetInv(codec, config, n)
    ensures Agreed(n.client, n.server, n.clientFailed) && WaitsMatch(codec, config, n.client, n.server)
  {
    hide Inv, Spells, Agreed, WaitsMatch;
    var s :| Inv(codec, config, s) && Represents(n, s);
    Agreement(codec, config, s);
    WaitsMatchPhase(codec, config, s);
  }

  lemma TrackedWaitsMatch(codec: Codec, config: Config, n: Net)
    requires Tracked(codec, config, n)
    ensures WaitsMatch(codec, config, n.client, n.server)
  {
    if Handshaking(n.client.pc) {
      NetAgreed(codec, config, n);
    } else {
      var c, v := n.client, n.server;
      hide On, AnyInv, ClientHolds, ServerHolds, Exchanged, Checksum, Wrap32, Has;
      if ClientReady(c) && ClientAwaits(c.pc).Some? {
        TakeOn(DownLoad(codec, c.pc, v, false), n.down, c.inbox, ClientAwaits(c.pc).value);
      }
      if ServerReady(v) && ServerAwaits(v.pc).Some? {
        TakeOn(UpLoad(codec, c, v.pc, false), n.up, v.inbox, ServerAwaits(v.pc).value);
      }
      hide First, WithoutFirst;
    }
  }

  // In the packet-level system and in this one.
  lemma NetOneControl(codec: Codec, config: Config, n: Net)
    requires NetInv(codec, config, n)
    ensures OneControlLeft(n)
  {
    hide Inv, Spells, ToCome, Controls;
    var s :| Inv(codec, config, s) && Represents(n, s);
    OneControlInFlight(codec, config, s);
    forall ups: seq<Bytes>, downs: seq<Bytes> | Concat(ups) == n.up.wire && Concat(downs) == n.down.wire
      ensures ToCome(n.up, ups) + Controls(n.server.inbox) + ToCome(n.down, downs) + Controls(n.client.inbox) <= 1
    {
      FeedSpelled(n.up, s.up, ups);
      FeedSpelled(n.down, s.down, downs);
    }
  }

  lemma OneMessage(codec: Codec, c: Party<ClientPc>, v: Party<ServerPc>)
    requires Together(c.pc, v.pc)
    ensures |Messages(UpLoad(codec, c, v.pc, false))| + |Messages(DownLoad(codec, c.pc, v, false))| <= 1
  {
  }

  lemma TrackedOneControl(codec: Codec, config: Config, n: Net)
    requires Tracked(codec, config, n)
    ensures OneControlLeft(n)
  {
    if Handshaking(n.client.pc) {
      hide OneControlLeft;
      NetOneControl(codec, config, n);
    } else {
      hide On, AnyInv, ClientHolds, ServerHolds, Exchanged, ToCome, Controls, UpLoad, DownLoad, Messages;
      var c, v := n.client, n.server;
      OneMessage(codec, c, v);
      forall ups: seq<Bytes>, downs: seq<Bytes> | Concat(ups) == n.up.wire && Concat(downs) == n.down.wire
        ensures ToCome(n.up, ups) + Controls(v.inbox) + ToCome(n.down, downs) + Controls(c.inbox) <= 1
      {
        FeedOn(UpLoad(codec, c, v.pc, false), n.up, v.inbox, ups);
        FeedOn(DownLoad(codec, c.pc, v, false), n.down, c.inbox, downs);
      }
    }
  }
}
