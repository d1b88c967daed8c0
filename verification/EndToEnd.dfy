// From the first byte to the report: what every run over byte streams leads
// to, and what TestRunner says about it on both machines.
module EndToEnd {
  import opened Protocol
  import opened TestTypes
  import opened Controller
  import opened Sessions
  import opened SessionInvariant
  import opened SessionTheorems
  import opened Network
  import opened AnySize
  import opened OversizedStream
  import opened OversizedSessions
  import opened SentStatistics
  import opened TestRunner

  // A data packet can hold its header and passes the bound of the parsers.
  predicate Fits(config: Config) {
    HEADER_SIZE <= config.packetSize <= HEADER_SIZE + MAX_PAYLOAD
  }

  // ---------- Along the run ----------

  // The packet-level state behind the end of a run.
  lemma PacketLevel(codec: Codec, config: Config, n: Net, events: seq<NetEvent>) returns (s: System)
    requires Lossless(codec) && config.packetSize <= HEADER_SIZE + MAX_PAYLOAD
    requires NetInitial(n, config) && IsNetRun(codec, n, events)
    ensures var m := NetEnd(codec, n, events);
            && Inv(codec, config, s) && Represents(m, s) && NetInv(codec, config, m)
            && s.client == m.client && s.server == m.server
            && s.clientFailed == m.clientFailed && s.serverFailed == m.serverFailed
  {
    NetInitialInv(codec, config, n);
    NetRunKeepsInv(codec, config, n, events);
    hide Inv, Spells;
    s :| Inv(codec, config, s) && Represents(NetEnd(codec, n, events), s);
  }

  // For every packet size: no wait ever takes a message of the other phase, and
  // at most one control message is delivered and not yet consumed or can still
  // come out of the bytes in transit. While packets pass the parsers, it is one
  // of the packets in transit.
  lemma PhasesNeverMix(codec: Codec, config: Config, n: Net, events: seq<NetEvent>)
    requires Lossless(codec) && NetInitial(n, config) && IsNetRun(codec, n, events)
    ensures var m := NetEnd(codec, n, events);
            && WaitsMatch(codec, config, m.client, m.server) && OneControlLeft(m)
            && (config.packetSize <= HEADER_SIZE + MAX_PAYLOAD ==>
                  exists s :: Represents(m, s) && ControlsInFlight(s) <= 1)
  {
    var m := NetEnd(codec, n, events);
    hide NetInitial, Inv, NetInv, Represents, Tracked, WaitsMatch, OneControlLeft;
    if config.packetSize > HEADER_SIZE + MAX_PAYLOAD {
      InitialTracked(codec, config, n);
      RunKeepsTracked(codec, config, n, events);
      TrackedWaitsMatch(codec, config, m);
      TrackedOneControl(codec, config, m);
    } else {
      var s := PacketLevel(codec, config, n, events);
      NetAgreed(codec, config, m);
      NetOneControl(codec, config, m);
      OneControlInFlight(codec, config, s);
    }
  }

  // For every packet size, with timeouts or not: both sides store the same
  // statistics for every phase both completed.
  lemma StoredAgree(codec: Codec, config: Config, n: Net, events: seq<NetEvent>)
    requires Lossless(codec) && NetInitial(n, config) && IsNetRun(codec, n, events)
    ensures var m := NetEnd(codec, n, events); Agreed(m.client, m.server, m.clientFailed)
  {
    var m := NetEnd(codec, n, events);
    hide NetInitial, Inv, NetInv, Represents, Tracked, Agreed, WaitsMatch;
    if config.packetSize > HEADER_SIZE + MAX_PAYLOAD {
      InitialTracked(codec, config, n);
      RunKeepsTracked(codec, config, n, events);
      TrackedAgreed(codec, config, m);
    } else {
      var s := PacketLevel(codec, config, n, events);
      NetAgreed(codec, config, m);
    }
  }

  // For every packet size, nothing but a timeout makes a side fail: no payload
  // that a wait takes fails to parse.
  lemma OnlyTimeoutsFail(codec: Codec, config: Config, n: Net, events: seq<NetEvent>)
    requires Lossless(codec) && NetInitial(n, config) && IsNetRun(codec, n, events)
    requires forall e | e in events :: Untimed(e)
    ensures var m := NetEnd(codec, n, events); !m.clientFailed && !m.serverFailed
  {
    assert !n.clientFailed && !n.serverFailed;
    hide NetInitial, NetInv, Tracked, Untimed;
    if config.packetSize > HEADER_SIZE + MAX_PAYLOAD {
      InitialTracked(codec, config, n);
      TrackedNeverFails(codec, config, n, events);
    } else {
      NetInitialInv(codec, config, n);
      UntimedNeverFails(codec, config, n, events);
    }
  }

  // ---------- The verdict ----------

  ghost predicate GotAll(r: TestRunResult, config: Config) {
    GotEverything(r.phase1, config) && GotEverything(r.phase2, config)
  }

  ghost predicate SentAll(r: TestRunResult, config: Config) {
    r.phase1.senderStats.totalPacketsSent == r.phase2.senderStats.totalPacketsSent == config.numPackets
  }

  // Everything asked for was sent, and arrived.
  ghost predicate Delivered(r: TestRunResult, config: Config) {
    GotAll(r, config) && SentAll(r, config)
  }

  // What is asked for can be received; without a packet count nothing is asked
  // for.
  predicate Satisfiable(config: Config) {
    Fits(config) || config.numPackets == 0
  }

  ghost predicate Judged(config: Config, s: System, runId: string) {
    var c, v := ClientResult(s, runId), ServerResult(s, runId);
    && (c.success <==> s.client.pc.CFinished? && Satisfiable(config))
    && (v.success <==> s.server.pc.SFinished? && Satisfiable(config))
    && (c.success ==> GotAll(c, config)) && (v.success ==> GotAll(v, config))
  }

  lemma SmallVerdict(codec: Codec, config: Config, n: Net, events: seq<NetEvent>, runId: string)
    requires Lossless(codec) && NetInitial(n, config) && IsNetRun(codec, n, events)
    requires config.packetSize <= HEADER_SIZE + MAX_PAYLOAD
    ensures Judged(config, Core(NetEnd(codec, n, events)), runId)
  {
    assert config.mode == CLIENT;
    hide BuildResult, GotEverything, NetInitial, NetInv, Represents, Inv;
    var s := PacketLevel(codec, config, n, events);
    ClientVerdict(codec, config, s, runId);
    ServerVerdict(codec, config, s, runId);
    hide IsNetRun, ClientState, ServerState;
  }

  lemma TooLargeVerdict(codec: Codec, config: Config, n: Net, events: seq<NetEvent>, runId: string)
    requires Lossless(codec) && NetInitial(n, config) && IsNetRun(codec, n, events) && TooLarge(config)
    ensures Judged(config, Core(NetEnd(codec, n, events)), runId)
  {
    hide NetInitial, AnyInv, ClientResult, ServerResult;
    if config.numPackets > 0 {
      InitialAnyInv(codec, config, n);
      RunKeepsAnyInv(codec, config, n, events);
      OversizedFails(codec, config, NetEnd(codec, n, events), runId);
    } else {
      FinishedLimited(codec, config, n, events);
      UnfinishedFail(Core(NetEnd(codec, n, events)), runId);
    }
  }

  // The results of finished sides name the packets asked for as sent.
  lemma SendersCounted(codec: Codec, config: Config, n: Net, events: seq<NetEvent>, runId: string)
    requires Lossless(codec) && NetInitial(n, config) && IsNetRun(codec, n, events)
    ensures var m := Core(NetEnd(codec, n, events));
            && (m.client.pc.CFinished? && Satisfiable(config) ==> SentAll(ClientResult(m, runId), config))
            && (m.server.pc.SFinished? && Satisfiable(config) ==> SentAll(ServerResult(m, runId), config))
  {
    hide NetInitial, IsNetRun, NetEnd, BuildResult, ClientState, ServerState;
    var m := Core(NetEnd(codec, n, events));
    SendersStored(codec, config, n, events);
    var c, v := m.client, m.server;
    ResultCarries(ClientState(c.pc, m.clientFailed), c.config, runId, "", Stored(c), "");
    ResultCarries(ServerState(v.pc, m.serverFailed), v.config, runId, "", Stored(v), "");
  }

  // In every state that any run reaches, for every configuration, chunking and
  // interleaving, with timeouts or not: the result of a side is a success
  // exactly when that side has finished and what was asked for could be
  // received, and then every packet and byte has been received in both phases.
  // Without a packet count no side finishes that has a packet to send.
  lemma EndToEndVerdict(codec: Codec, config: Config, n: Net, events: seq<NetEvent>, runId: string)
    requires Lossless(codec) && NetInitial(n, config) && IsNetRun(codec, n, events)
    ensures var m := Core(NetEnd(codec, n, events));
            var c, v := ClientResult(m, runId), ServerResult(m, runId);
            && (c.success <==> m.client.pc.CFinished? && Satisfiable(config))
            && (v.success <==> m.server.pc.SFinished? && Satisfiable(config))
            && (c.success ==> Delivered(c, config)) && (v.success ==> Delivered(v, config))
            && (m.client.pc.CFinished? || m.server.pc.SFinished? ==> Limited(config))
  {
    hide NetInitial, IsNetRun, NetEnd, ClientResult, ServerResult, GotAll, SentAll, Satisfiable, Limited;
    FinishedLimited(codec, config, n, events);
    SendersCounted(codec, config, n, events, runId);
    if config.packetSize > HEADER_SIZE + MAX_PAYLOAD {
      TooLargeVerdict(codec, config, n, events, runId);
    } else {
      SmallVerdict(codec, config, n, events, runId);
    }
  }

  lemma UnfinishedFail(s: System, runId: string)
    ensures !s.client.pc.CFinished? ==> !ClientResult(s, runId).success
    ensures !s.server.pc.SFinished? ==> !ServerResult(s, runId).success
  {
    hide BuildResult, Stored;
    if !s.client.pc.CFinished? {
      UnfinishedFails(ClientState(s.client.pc, s.clientFailed), s.client.config, runId, Stored(s.client));
    }
    if !s.server.pc.SFinished? {
      UnfinishedFails(ServerState(s.server.pc, s.serverFailed), s.server.config, runId, Stored(s.server));
    }
  }

  lemma FinishedLimited(codec: Codec, config: Config, n: Net, events: seq<NetEvent>)
    requires Lossless(codec) && NetInitial(n, config) && IsNetRun(codec, n, events)
    ensures var m := NetEnd(codec, n, events);
            m.client.pc.CFinished? || m.server.pc.SFinished? ==> Limited(config)
  {
    StoredAgree(codec, config, n, events);
    if !Limited(config) {
      assert Sending(n);
      hide AnyInv, NetInitial;
      InitialAnyInv(codec, config, n);
      KeepsSending(codec, config, n, events);
    }
  }

  // ---------- To the end ----------

  // With a packet count, or nothing to send, every run is finite, for every
  // packet size: each event either uses up a session step or a timeout, or uses
  // up bytes in transit.
  lemma EndToEndTermination(codec: Codec, config: Config, n: Net, events: seq<NetEvent>, e: NetEvent)
    requires Lossless(codec) && Limited(config)
    requires NetInitial(n, config) && IsNetRun(codec, n, events) && NetEnabled(NetEnd(codec, n, events), e)
    ensures var m := NetEnd(codec, n, events);
            var m' := NetStep(codec, m, e);
            var left, left' := StepsLeft(config, Core(m)), StepsLeft(config, Core(m'));
            && left' >= 0
            && (left' < left ||
                (left' == left && |m'.up.wire| + |m'.down.wire| < |m.up.wire| + |m.down.wire|))
  {
    hide NetInitial, AnyInv, NetEnabled, NetStep, StepsLeft;
    InitialAnyInv(codec, config, n);
    RunKeepsAnyInv(codec, config, n, events);
    EventShrinks(codec, config, NetEnd(codec, n, events), e);
  }

  // A run without timeouts that cannot go on has finished on both sides while
  // packets pass the parsers, and successfully whenever that is possible.
  lemma MaximalRunSucceeds(codec: Codec, config: Config, n: Net, events: seq<NetEvent>, runId: string)
    requires Lossless(codec) && config.packetSize <= HEADER_SIZE + MAX_PAYLOAD
    requires NetInitial(n, config) && IsNetRun(codec, n, events) && forall e | e in events :: Untimed(e)
    requires forall e | NetEnabled(NetEnd(codec, n, events), e) :: !Untimed(e)
    ensures var m := Core(NetEnd(codec, n, events));
            && BothFinished(m)
            && (ClientResult(m, runId).success <==> Satisfiable(config))
            && (ServerResult(m, runId).success <==> Satisfiable(config))
  {
    assert !n.clientFailed && !n.serverFailed;
    hide NetInitial, BuildResult, NetEnabled, BothFinished, Untimed, NetInv, Satisfiable;
    var m := NetEnd(codec, n, events);
    NetInitialInv(codec, config, n);
    NetRunKeepsInv(codec, config, n, events);
    UntimedNeverFails(codec, config, n, events);
    if !BothFinished(Core(m)) {
      var e := EndToEndProgress(codec, config, m);
    } else {
      FinishedBoth(Core(m));
      EndToEndVerdict(codec, config, n, events, runId);
    }
  }

  lemma FinishedBoth(s: System)
    requires BothFinished(s)
    ensures s.client.pc.CFinished? && s.server.pc.SFinished?
  {
  }

  // Such a run exists from every state in which neither side has failed.
  lemma {:induction false} FinishingRun(codec: Codec, config: Config, n: Net) returns (events: seq<NetEvent>)
    requires Lossless(codec) && config.packetSize <= HEADER_SIZE + MAX_PAYLOAD && Limited(config)
    requires NetInv(codec, config, n) && AnyInv(codec, config, n) && !n.clientFailed && !n.serverFailed
    ensures IsNetRun(codec, n, events) && forall e | e in events :: Untimed(e)
    ensures BothFinished(Core(NetEnd(codec, n, events)))
    decreases StepsLeft(config, Core(n)), |n.up.wire| + |n.down.wire|
  {
    hide NetInv, AnyInv, NetEnabled, NetStep, StepsLeft, BothFinished, Untimed;
    if BothFinished(Core(n)) {
      events := [];
    } else {
      var e := EndToEndProgress(codec, config, n);
      EventShrinks(codec, config, n, e);
      NetStepKeepsInv(codec, config, n, e);
      StepKeepsAnyInv(codec, config, n, e);
      StepNeverFails(codec, config, n, e);
      var later := FinishingRun(codec, config, NetStep(codec, n, e));
      events := [e] + later;
      assert events[1..] == later;
    }
  }

  // ---------- What TestRunner reports ----------

  ghost predicate Passes(runId: string, role: string, result: TestRunResult, config: Config) {
    var parsed := ParseResultFile(runId, role, result);
    parsed.Some? && Analyzed(parsed.value, config.numPackets, config.packetSize * config.numPackets).success
  }

  lemma FinalConfigs(codec: Codec, config: Config, n: Net, events: seq<NetEvent>)
    requires Lossless(codec) && config.packetSize <= HEADER_SIZE + MAX_PAYLOAD
    requires NetInitial(n, config) && IsNetRun(codec, n, events) && BothFinished(Core(NetEnd(codec, n, events)))
    ensures var m := NetEnd(codec, n, events); m.client.config == config && m.server.config == ServerSide(config)
  {
    var s := PacketLevel(codec, config, n, events);
    hide Linked, Represents;
  }

  // A result with everything delivered passes exactly when a packet was asked
  // for.
  lemma RunnerPasses(state: State, own: Config, config: Config, runId: string, stats: PhaseStats, role: string)
    requires runId != "" && own.packetSize == config.packetSize && own.numPackets == config.numPackets
    requires var r := BuildResult(state, own, runId, "", stats, ""); r.success ==> Delivered(r, config)
    ensures var r := BuildResult(state, own, runId, "", stats, "");
            Passes(runId, role, r, config) <==> r.success && config.numPackets > 0
  {
    hide BuildResult, ParseResultFile, Analyzed;
    ResultCarries(state, own, runId, "", stats, "");
    SameVerdict(state, own, runId, "", stats, "", role);
  }

  // A run without timeouts that cannot go on, with packets that pass the
  // parsers: TestRunner, reading either result and expecting the configuration
  // of the run, reports success exactly when packets can hold their header.
  // (Below that size a result can be a success only without a packet count,
  // and TestRunner wants at least one packet.)
  lemma RunnersPass(codec: Codec, config: Config, n: Net, events: seq<NetEvent>, runId: string)
    requires Lossless(codec) && runId != "" && config.packetSize <= HEADER_SIZE + MAX_PAYLOAD
    requires NetInitial(n, config) && IsNetRun(codec, n, events) && forall e | e in events :: Untimed(e)
    requires forall e | NetEnabled(NetEnd(codec, n, events), e) :: !Untimed(e)
    ensures var m := Core(NetEnd(codec, n, events));
            && (Passes(runId, "Client", ClientResult(m, runId), config) <==> Fits(config))
            && (Passes(runId, "Server", ServerResult(m, runId), config) <==> Fits(config))
  {
    hide NetInitial, NetEnabled, Untimed, BuildResult, BothFinished, Delivered, Passes, ClientState, ServerState;
    var m := Core(NetEnd(codec, n, events));
    MaximalRunSucceeds(codec, config, n, events, runId);
    FinishedBoth(m);
    EndToEndVerdict(codec, config, n, events, runId);
    FinalConfigs(codec, config, n, events);
    RunnerPasses(ClientState(m.client.pc, m.clientFailed), m.client.config, config, runId, Stored(m.client), "Client");
    RunnerPasses(ServerState(m.server.pc, m.serverFailed), m.server.config, config, runId, Stored(m.server), "Server");
  }
}
