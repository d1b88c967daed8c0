// What the invariant gives for whole runs of the two sessions.
module SessionTheorems {
  import opened Protocol
  import opened TestTypes
  import opened Generator
  import opened ReceiveStats
  import opened Wrappers
  import opened Sessions
  import opened SessionInvariant
  import opened Controller

  // ---------- Runs ----------

  ghost predicate IsRun(codec: Codec, s: System, events: seq<Event>)
    decreases |events|
  {
    events == [] || (Enabled(s, events[0]) && IsRun(codec, Step(codec, s, events[0]), events[1..]))
  }

  ghost function End(codec: Codec, s: System, events: seq<Event>): System
    requires IsRun(codec, s, events)
    decreases |events|
  {
    if events == [] then s else End(codec, Step(codec, s, events[0]), events[1..])
  }

  lemma {:induction false} RunKeepsInv(codec: Codec, config: Config, s: System, events: seq<Event>)
    requires Lossless(codec) && Inv(codec, config, s) && IsRun(codec, s, events)
    ensures Inv(codec, config, End(codec, s, events))
    decreases |events|
  {
    hide Inv, Step, Enabled;
    if events != [] {
      StepKeepsInv(codec, config, s, events[0]);
      RunKeepsInv(codec, config, Step(codec, s, events[0]), events[1..]);
    }
  }

  // ---------- One control message at a time ----------

  function Controls(ps: seq<Packet>): nat {
    if ps == [] then 0
    else (if ps[0].header.messageType == DATA_PACKET then 0 else 1) + Controls(ps[1..])
  }

  ghost function ControlsInFlight(s: System): nat {
    Controls(s.up) + Controls(s.server.inbox) + Controls(s.down) + Controls(s.client.inbox)
  }

  lemma {:induction false} BatchControls(config: Config, first: nat, end: nat, last: seq<Packet>)
    ensures Controls(Batch(config, first, end) + last) == Controls(last)
    decreases end - first
  {
    hide Numbered;
    if first < end && config.packetSize >= HEADER_SIZE {
      NumberedCounts(config, first);
      BatchControls(config, first + 1, end, last);
      var rest := Batch(config, first + 1, end);
      assert (Batch(config, first, end) + last)[1..] == rest + last;
    } else {
      assert Batch(config, first, end) + last == last;
    }
  }

  lemma CarriesOne(config: Config, wire: seq<Packet>, inbox: seq<Packet>, first: nat, end: nat, m: Packet)
    requires Carries(wire, inbox, Batch(config, first, end), m)
    ensures Controls(wire) + Controls(inbox) <= 1
  {
    BatchControls(config, first, end, [m]);
    assert Controls([m]) <= 1 && Controls([]) == 0;
  }

  lemma FlowsNone(config: Config, wire: seq<Packet>, inbox: seq<Packet>, first: nat, end: nat)
    requires Flows(wire, inbox, Batch(config, first, end))
    ensures Controls(wire) + Controls(inbox) == 0
  {
    BatchControls(config, first, end, []);
    assert wire + [] == wire;
  }

  // In every reachable state at most one control message is in transit or
  // delivered and not yet consumed, counting both directions.
  lemma OneControlInFlight(codec: Codec, config: Config, s: System)
    requires Inv(codec, config, s)
    ensures ControlsInFlight(s) <= 1
  {
    var c, v, n, back := s.client, s.server, Total(config), ServerSide(config);
    hide Checksum, Wrap32, Counted, Final, Keeps1;
    assert Batch(config, 0, 0) == [];
    forall wire: seq<Packet>, inbox, m | Carries(wire, inbox, [], m)
      ensures Controls(wire) + Controls(inbox) <= 1
    {
      CarriesOne(config, wire, inbox, 0, 0, m);
    }
    if c.pc.CSendData? || c.pc.CSendFin? {
      FlowsNone(config, s.up, v.inbox, SoFar(v), c.sent);
    } else if c.pc.CWaitFin? && v.pc.SWaitFin? {
      CarriesOne(config, s.up, v.inbox, SoFar(v), n, Fin());
    } else if c.pc.CWaitFin2? && (v.pc.SSendData? || v.pc.SSendFin2?) {
      FlowsNone(back, s.down, c.inbox, SoFar(c), v.sent);
    } else if c.pc.CWaitFin2? && v.pc.SWaitStats2? {
      CarriesOne(back, s.down, c.inbox, SoFar(c), n, Fin());
    }
    hide Batch, Controls;
  }

  // What a ready wait takes is what the peer sent in the same phase, and it is
  // the only message there.
  ghost predicate WaitsMatch(codec: Codec, config: Config, c: Party<ClientPc>, v: Party<ServerPc>) {
    && (ClientReady(c) ==>
          match c.pc
          case CWaitAck => c.inbox == [ControlPacket(CONFIG_ACK, [])] && v.pc.SWaitFin?
          case CWaitFin => c.inbox == [Fin()] && v.pc.SWaitStats?
          case CWaitStatsAck => c.inbox == [Stats(codec, STATS_ACK, v.serverStats1)] && v.pc.SWaitReady?
          case CWaitFin2 => c.inbox == [Fin()] && v.pc.SWaitStats2?
          case CWaitStatsAck2 => c.inbox == [Stats(codec, STATS_ACK, v.serverStats2)] && v.pc.SWaitShutdown?
          case _ => true)
    && (ServerReady(v) ==>
          match v.pc
          case SWaitConfig =>
            v.inbox == [ControlPacket(CONFIG_HANDSHAKE, codec.encConfig(config))] && c.pc.CWaitAck?
          case SWaitFin => v.inbox == [Fin()] && c.pc.CWaitFin?
          case SWaitStats => v.inbox == [Stats(codec, STATS_EXCHANGE, c.lastStats)] && c.pc.CWaitStatsAck?
          case SWaitReady => v.inbox == [ControlPacket(CLIENT_READY, [])] && c.pc.CWaitFin2?
          case SWaitStats2 => v.inbox == [Stats(codec, STATS_EXCHANGE, c.clientStats2)] && c.pc.CWaitStatsAck2?
          case SWaitShutdown => v.inbox == [ControlPacket(SHUTDOWN_ACK, [])] && c.pc.CFinished?
          case _ => true)
  }

  // A type that occurs in both phases is never consumed in the wrong one.
  lemma WaitsMatchPhase(codec: Codec, config: Config, s: System)
    requires Inv(codec, config, s)
    ensures WaitsMatch(codec, config, s.client, s.server)
  {
    hide Checksum, Wrap32, Counted, Final, Keeps1, Batch;
  }

  // With a lossless codec no received payload fails to parse.
  lemma NeverThrows(codec: Codec, config: Config, s: System, reported: nat)
    requires Lossless(codec) && Inv(codec, config, s)
    ensures ClientReady(s.client) ==> ClientStep(codec, s.client, reported).Some?
    ensures ServerReady(s.server) ==> ServerStep(codec, s.server, reported).Some?
  {
    WaitsMatchPhase(codec, config, s);
    StatsInFlightFit(codec, config, s);
    hide Inv, FitsInt64, Checksum, Wrap32;
  }

  lemma StatsInFlightFit(codec: Codec, config: Config, s: System)
    requires Inv(codec, config, s)
    ensures s.server.pc.SWaitReady? ==> FitsInt64(s.server.serverStats1)
    ensures s.server.pc.SWaitShutdown? ==> FitsInt64(s.server.serverStats2)
    ensures s.client.pc.CWaitStatsAck? ==> FitsInt64(s.client.lastStats)
    ensures s.client.pc.CWaitStatsAck2? ==> FitsInt64(s.client.clientStats2)
  {
    hide Checksum, Wrap32, Counted, Batch, FitsInt64, Final;
    FinalFits(config);
    FinalFits(ServerSide(config));
    if HasSent(s.client, Total(config)) {
      SentFits(s.client, config);
    }
    if HasSent(s.server, Total(config)) {
      SentFits(s.server, config);
    }
  }

  // ---------- Agreement ----------

  predicate ClientDone1(pc: ClientPc) {
    pc.CSendReady? || pc.CWaitFin2? || ClientDone1b(pc)
  }

  predicate ClientDone1b(pc: ClientPc) {
    pc.CSendStats2? || pc.CWaitStatsAck2? || ClientDone2(pc)
  }

  predicate ClientDone2(pc: ClientPc) {
    pc.CSendShutdown? || pc.CFinished?
  }

  predicate ServerDone2(pc: ServerPc) {
    pc.SSendStatsAck2? || pc.SWaitShutdown? || pc.SFinished?
  }

  predicate ServerDone1(pc: ServerPc) {
    pc.SSendStatsAck? || pc.SWaitReady? || pc.SSendData? || pc.SSendFin2? || pc.SWaitStats2? || ServerDone2(pc)
  }

  // Whatever phases both sides completed, they stored the same statistics for,
  // and a finished server means the client completed both phases and sent its
  // SHUTDOWN_ACK.
  ghost predicate Agreed(c: Party<ClientPc>, v: Party<ServerPc>, clientFailed: bool) {
    && (ClientDone1(c.pc) && ServerDone1(v.pc) ==>
          c.clientStats1 == v.clientStats1 && c.serverStats1 == v.serverStats1)
    && (ClientDone2(c.pc) && ServerDone2(v.pc) ==>
          c.clientStats2 == v.clientStats2 && c.serverStats2 == v.serverStats2)
    && (v.pc.SFinished? ==> c.pc.CFinished? && !clientFailed)
    && (ClientDone2(c.pc) ==> ServerDone2(v.pc))
    && (ServerDone2(v.pc) ==> ClientDone1(c.pc))
  }

  // Also when a side has timed out.
  lemma Agreement(codec: Codec, config: Config, s: System)
    requires Inv(codec, config, s)
    ensures Agreed(s.client, s.server, s.clientFailed)
  {
    hide Checksum, Wrap32, Counted, Final, Batch;
  }

  // ---------- Progress and termination ----------

  ghost predicate BothFinished(s: System) {
    s.client.pc.CFinished? && s.server.pc.SFinished?
  }

  predicate IsTimeout(e: Event) {
    e.ClientTimesOut? || e.ServerTimesOut?
  }

  // Deadlock freedom of the packet-level system: unless both sessions have finished or one has failed,
  // a session can run or a packet can be delivered.
  lemma Progress(codec: Codec, config: Config, s: System) returns (e: Event)
    requires Inv(codec, config, s) && !BothFinished(s) && !s.clientFailed && !s.serverFailed
    ensures Enabled(s, e) && !IsTimeout(e)
  {
    hide Checksum, Wrap32, Counted, Final, Keeps1, Batch;
    var left, right := s.client.inbox, s.server.inbox;
    assert left != [] ==> Has(left, left[0].header.messageType);
    assert right != [] ==> Has(right, right[0].header.messageType);
    if ClientReady(s.client) {
      e := ClientRuns(1);
    } else if ServerReady(s.server) {
      e := ServerRuns(1);
    } else if s.up != [] {
      e := ServerReceives;
    } else {
      e := ClientReceives;
      assert ClientAwaits(s.client.pc).Some? || s.client.pc.CFinished?;
    }
  }

  // The generators come to an end: at a packet count, or at once.
  predicate Limited(config: Config) {
    config.numPackets > 0 || config.packetSize < HEADER_SIZE
  }

  // The session steps a client still has to take.
  function ClientLeft(config: Config, c: Party<ClientPc>): int {
    var n := config.numPackets;
    match c.pc
    case CSendConfig => 11 + n
    case CWaitAck => 10 + n
    case CSendData => 9 + n - c.sent
    case CSendFin => 9
    case CWaitFin => 8
    case CSendStats => 7
    case CWaitStatsAck => 6
    case CSendReady => 5
    case CWaitFin2 => 4
    case CSendStats2 => 3
    case CWaitStatsAck2 => 2
    case CSendShutdown => 1
    case CFinished => 0
  }

  function ServerLeft(config: Config, v: Party<ServerPc>): int {
    var n := config.numPackets;
    match v.pc
    case SWaitConfig => 11 + n
    case SSendAck => 10 + n
    case SWaitFin => 9 + n
    case SSendFin => 8 + n
    case SWaitStats => 7 + n
    case SSendStatsAck => 6 + n
    case SWaitReady => 5 + n
    case SSendData => 4 + n - v.sent
    case SSendFin2 => 4
    case SWaitStats2 => 3
    case SSendStatsAck2 => 2
    case SWaitShutdown => 1
    case SFinished => 0
  }

  // Session steps and timeouts still possible; each also accounts for the
  // packet it may put on a stream.
  ghost function StepsLeft(config: Config, s: System): int {
    ClientLeft(config, s.client) + ServerLeft(config, s.server)
    + (if s.clientFailed then 0 else 1) + (if s.serverFailed then 0 else 1)
  }

  lemma LeftIsNat(codec: Codec, config: Config, s: System)
    requires Inv(codec, config, s) && Limited(config)
    ensures ClientLeft(config, s.client) >= 0 && ServerLeft(config, s.server) >= 0
    ensures s.client.pc.CSendData? ==> s.client.sent < config.numPackets
    ensures s.server.pc.SSendData? ==> s.server.sent < config.numPackets
  {
    hide Checksum, Wrap32, Counted, Final, Keeps1, Batch;
  }

  ghost predicate Delivers(e: Event) {
    e.ServerReceives? || e.ClientReceives?
  }

  lemma StepShrinks(codec: Codec, config: Config, s: System, e: Event)
    requires Enabled(s, e)
    requires s.client.pc.CSendData? ==> s.client.sent < config.numPackets
    requires s.server.pc.SSendData? ==> s.server.sent < config.numPackets
    ensures var s' := Step(codec, s, e);
            if Delivers(e)
            then StepsLeft(config, s') == StepsLeft(config, s) && |s'.up| + |s'.down| == |s.up| + |s.down| - 1
            else StepsLeft(config, s') < StepsLeft(config, s) && |s'.up| + |s'.down| <= |s.up| + |s.down| + 1
  {
    hide ClientStep, ServerStep, ClientSends, ServerSends;
    if e.ClientRuns? {
      ClientStepDecreases(codec, config, s.client, e.reported);
      hide ClientLeft, ServerLeft, ClientReady, ServerReady;
    } else if e.ServerRuns? {
      ServerStepDecreases(codec, config, s.server, e.reported);
      hide ClientLeft, ServerLeft, ClientReady, ServerReady;
    } else {
      LeftOfParties(config, s, Step(codec, s, e));
      hide ClientLeft, ServerLeft, ClientReady, ServerReady;
    }
  }

  // What has been received does not count.
  lemma LeftOfParties(config: Config, s: System, s': System)
    requires s'.client == s.client.(counters := s'.client.counters, inbox := s'.client.inbox)
    requires s'.server == s.server.(counters := s'.server.counters, inbox := s'.server.inbox)
    ensures ClientLeft(config, s'.client) == ClientLeft(config, s.client)
    ensures ServerLeft(config, s'.server) == ServerLeft(config, s.server)
  {
  }

  // Termination: unless there are packets to send without a count, every step
  // either uses up one of the session steps left, or leaves them and shortens a
  // stream.
  lemma MeasureDecreases(codec: Codec, config: Config, s: System, e: Event)
    requires Lossless(codec) && Inv(codec, config, s) && Enabled(s, e) && Limited(config)
    ensures var s' := Step(codec, s, e);
            && StepsLeft(config, s') >= 0
            && if Delivers(e)
               then StepsLeft(config, s') == StepsLeft(config, s) && |s'.up| + |s'.down| == |s.up| + |s.down| - 1
               else StepsLeft(config, s') < StepsLeft(config, s) && |s'.up| + |s'.down| <= |s.up| + |s.down| + 1
  {
    hide Step, Enabled, Linked, ClientLeft, ServerLeft;
    StepKeepsInv(codec, config, s, e);
    LeftIsNat(codec, config, s);
    LeftIsNat(codec, config, Step(codec, s, e));
    StepShrinks(codec, config, s, e);
  }

  lemma ClientStepDecreases(codec: Codec, config: Config, c: Party<ClientPc>, reported: nat)
    requires ClientReady(c) && (c.pc.CSendData? ==> c.sent < config.numPackets)
    ensures var c' := ClientStep(codec, c, reported);
            c'.Some? ==> ClientLeft(config, c'.value) < ClientLeft(config, c)
    ensures |ClientSends(codec, c)| <= 1
  {
    hide First, WithoutFirst, Has, Wrap32, Checksum;
  }

  lemma ServerStepDecreases(codec: Codec, config: Config, v: Party<ServerPc>, reported: nat)
    requires ServerReady(v) && (v.pc.SSendData? ==> v.sent < config.numPackets)
    ensures var v' := ServerStep(codec, v, reported);
            v'.Some? ==> ServerLeft(config, v'.value) < ServerLeft(config, v)
    ensures |ServerSends(codec, v)| <= 1
  {
    hide First, WithoutFirst, Has, Wrap32, Checksum;
  }

  // ---------- The verdict ----------

  function ClientState(pc: ClientPc, failed: bool): State {
    if failed then ERRORED
    else match pc
      case CSendConfig => SENDING_CONFIG
      case CWaitAck => WAITING_FOR_ACK
      case CSendData => RUNNING_TEST
      case CSendFin => FINISHING
      case CWaitFin | CSendStats | CWaitStatsAck | CSendReady => EXCHANGING_STATS
      case CWaitFin2 => WAITING_FOR_SERVER_FIN
      case CSendStats2 | CWaitStatsAck2 | CSendShutdown => EXCHANGING_SERVER_STATS
      case CFinished => FINISHED
  }

  function ServerState(pc: ServerPc, failed: bool): State {
    if failed then ERRORED
    else match pc
      case SWaitConfig | SSendAck => State.WAITING_FOR_CONFIG
      case SWaitFin => RUNNING_TEST
      case SSendFin | SWaitStats => FINISHING
      case SSendStatsAck | SWaitReady => WAITING_FOR_CLIENT_READY
      case SSendData => RUNNING_SERVER_TEST
      case SSendFin2 | SWaitStats2 => SERVER_TEST_FINISHING
      case SSendStatsAck2 | SWaitShutdown => WAITING_FOR_SHUTDOWN_ACK
      case SFinished => FINISHED
  }

  function Stored<Pc>(p: Party<Pc>): PhaseStats {
    PhaseStats(p.clientStats1, p.serverStats1, p.clientStats2, p.serverStats2)
  }

  function ClientResult(s: System, runId: string): TestRunResult {
    BuildResult(ClientState(s.client.pc, s.clientFailed), s.client.config, runId, "", Stored(s.client), "")
  }

  function ServerResult(s: System, runId: string): TestRunResult {
    BuildResult(ServerState(s.server.pc, s.serverFailed), s.server.config, runId, "", Stored(s.server), "")
  }

  // A packet can hold its header, or no packets are asked for.
  predicate Feasible(config: Config) {
    config.packetSize >= HEADER_SIZE || config.numPackets == 0
  }

  lemma FinalComplete(config: Config)
    ensures Complete(Final(config), config) <==> Feasible(config)
    ensures Feasible(config) ==>
              && Final(config).totalPacketsReceived == config.numPackets
              && Final(config).totalBytesReceived == config.packetSize * config.numPackets
  {
    CountedValue(config, Total(config));
    hide Counted, Wrap32;
    if Feasible(config) {
      Commutes(config.numPackets, config.packetSize);
    } else {
      assert Final(config).totalPacketsReceived == 0;
    }
  }

  lemma Commutes(a: int, b: int)
    ensures a * b == b * a
  {
  }

  ghost predicate GotEverything(phase: TestPhaseResult, config: Config) {
    && phase.receiverStats.totalPacketsReceived == config.numPackets
    && phase.receiverStats.totalBytesReceived == config.packetSize * config.numPackets
  }

  lemma StoredVerdict(config: Config, runId: string, stats: PhaseStats)
    requires stats.server1 == Final(config.(mode := CLIENT)) && stats.client2 == Final(ServerSide(config))
    ensures var r := BuildResult(FINISHED, config, runId, "", stats, "");
            && (r.success <==> Feasible(config))
            && (r.success ==> GotEverything(r.phase1, config) && GotEverything(r.phase2, config))
  {
    FinalComplete(config.(mode := CLIENT));
    FinalComplete(ServerSide(config));
    VerdictMeaning(FINISHED, config, runId, "", stats, "");
    hide Final, ValidateReceiverStats;
  }

  lemma FinishedStores(codec: Codec, config: Config, s: System)
    requires Inv(codec, config, s)
    ensures s.client.pc.CFinished? ==>
              && !s.clientFailed && s.client.config == config
              && s.client.serverStats1 == Final(config) && s.client.clientStats2 == Final(ServerSide(config))
    ensures s.server.pc.SFinished? ==>
              && !s.serverFailed && s.server.config == ServerSide(config)
              && s.server.serverStats1 == Final(config) && s.server.clientStats2 == Final(ServerSide(config))
  {
    Agreement(codec, config, s);
    hide Handshake, Phase1Data, Phase1Stats, Phase2Data, Phase2Stats, Final;
  }

  lemma FinishedStates(s: System)
    ensures ClientState(s.client.pc, s.clientFailed) == FINISHED <==> s.client.pc.CFinished? && !s.clientFailed
    ensures ServerState(s.server.pc, s.serverFailed) == FINISHED <==> s.server.pc.SFinished? && !s.serverFailed
  {
  }

  lemma SameDemand(phase: TestPhaseResult, config: Config)
    ensures GotEverything(phase, ServerSide(config)) == GotEverything(phase, config)
  {
  }

  lemma UnfinishedFails(state: State, config: Config, runId: string, stats: PhaseStats)
    requires state != FINISHED
    ensures !BuildResult(state, config, runId, "", stats, "").success
  {
    hide ValidateReceiverStats, StateToString;
  }

  // In the packet-level system, which delivers every packet whole, a result is
  // a success exactly when its session has finished and the configuration is
  // feasible, whatever has become of the other side.
  lemma ClientVerdict(codec: Codec, config: Config, s: System, runId: string)
    requires Inv(codec, config, s) && config.mode == CLIENT
    ensures var r := ClientResult(s, runId);
            && (r.success <==> s.client.pc.CFinished? && Feasible(config))
            && (r.success ==> GotEverything(r.phase1, config) && GotEverything(r.phase2, config))
  {
    FinishedStores(codec, config, s);
    FinishedStates(s);
    hide Inv, Final, BuildResult, GotEverything, ClientState, ServerState;
    var c := s.client;
    if c.pc.CFinished? {
      assert config.(mode := CLIENT) == config;
      StoredVerdict(config, runId, Stored(c));
    } else {
      UnfinishedFails(ClientState(c.pc, s.clientFailed), c.config, runId, Stored(c));
    }
  }

  lemma ServerVerdict(codec: Codec, config: Config, s: System, runId: string)
    requires Inv(codec, config, s) && config.mode == CLIENT
    ensures var r := ServerResult(s, runId);
            && (r.success <==> s.server.pc.SFinished? && Feasible(config))
            && (r.success ==> GotEverything(r.phase1, config) && GotEverything(r.phase2, config))
  {
    FinishedStores(codec, config, s);
    FinishedStates(s);
    hide Inv, Final, BuildResult, GotEverything, ClientState, ServerState;
    var v, back := s.server, ServerSide(config);
    if v.pc.SFinished? {
      assert back.(mode := CLIENT) == config && ServerSide(back) == back;
      StoredVerdict(back, runId, Stored(v));
      SameDemand(ServerResult(s, runId).phase1, config);
      SameDemand(ServerResult(s, runId).phase2, config);
    } else {
      UnfinishedFails(ServerState(v.pc, s.serverFailed), v.config, runId, Stored(v));
    }
  }
}
