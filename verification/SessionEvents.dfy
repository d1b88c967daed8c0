// What the two controllers announce while their sessions run: over every run
// the published events are determined by how far the session has come.
module SessionEvents {
  import opened Protocol
  import opened TestTypes
  import opened Wrappers
  import opened Controller
  import opened Sessions
  import opened SessionInvariant
  import opened SessionTheorems
  import opened StreamParser
  import opened Network
  import opened EndToEnd
  import opened ResultEvents
  import opened EventVerifier
  import EventSink
  import PipeReading

  // What a controller sees of its session.
  datatype Snapshot = Snapshot(phases: nat, over: bool, state: State, config: Config, stats: PhaseStats)

  function ClientSnapshot(s: System): Snapshot {
    var pc := s.client.pc;
    Snapshot(if ClientDone2(pc) then 2 else if ClientDone1(pc) then 1 else 0,
             pc.CFinished? || s.clientFailed,
             ClientState(pc, s.clientFailed), s.client.config, Stored(s.client))
  }

  function ServerSnapshot(s: System): Snapshot {
    var pc := s.server.pc;
    Snapshot(if ServerDone2(pc) then 2 else if ServerDone1(pc) then 1 else 0,
             pc.SFinished? || s.serverFailed,
             ServerState(pc, s.serverFailed), s.server.config, Stored(s.server))
  }

  // The session tells the controller its state and statistics, announces a
  // phase it has completed, and ends by returning or by throwing. reason is
  // the text of the exception, warning what writing the result files gives.
  function Acts(before: Snapshot, after: Snapshot, reason: string, warning: string): seq<Act> {
    [Sync(after.state, after.config, after.stats)]
    + (if after.phases > before.phases then [PhaseComplete(after.phases)] else [])
    + (if after.over && !before.over then [Finalize(Thrown(after, reason), warning)] else [])
  }

  function Thrown(now: Snapshot, reason: string): string {
    if now.state == FINISHED then "" else reason
  }

  // The controller of one side along a run over byte streams.
  ghost function Follow(codec: Codec, n: Net, events: seq<NetEvent>, view: System -> Snapshot, r: Run,
                        reason: string, warning: string): Run
    requires IsNetRun(codec, n, events)
    decreases |events|
  {
    if events == [] then r
    else
      var n' := NetStep(codec, n, events[0]);
      var acts := Acts(view(Core(n)), view(Core(n')), reason, warning);
      Follow(codec, n', events[1..], view, PerformAll(r, acts), reason, warning)
  }

  // ---------- What has been announced ----------

  function FirstPhase(now: Snapshot): TestPhaseResult {
    Controller.PhaseResult("client_to_server", "CLIENT", "SERVER", now.stats.client1, now.stats.server1, now.config)
  }

  function SecondPhase(now: Snapshot): TestPhaseResult {
    Controller.PhaseResult("server_to_client", "SERVER", "CLIENT", now.stats.server2, now.stats.client2, now.config)
  }

  function FinalResult(now: Snapshot, runId: string, reason: string, warning: string): TestRunResult {
    BuildResult(now.state, now.config, runId, "", now.stats, Thrown(now, reason)).(resultExportWarning := warning)
  }

  function Told(runId: string, own: Config, now: Snapshot, reason: string, warning: string): seq<ResultEvent> {
    var role := RoleString(own.mode);
    [RunStarted(runId, role, own)]
    + (if now.phases >= 1 then [PhaseEvent(runId, role, 1, FirstPhase(now))] else [])
    + (if now.phases >= 2 then [PhaseEvent(runId, role, 2, SecondPhase(now))] else [])
    + (if now.over then [FinalEvent(runId, role, FinalResult(now, runId, reason, warning))] else [])
  }

  // The controller of a session that has come this far.
  function Reached(runId: string, own: Config, now: Snapshot, reason: string, warning: string): Run {
    Run(runId, now.config, now.state, now.stats, if now.over then warning else "",
        now.over, now.phases >= 1, now.phases >= 2, !now.over, now.over,
        if now.over then Some(FinalResult(now, runId, reason, warning)) else None,
        Told(runId, own, now, reason, warning))
  }

  // How a session moves on: phases one by one, completed ones untouched.
  ghost predicate Continues(before: Snapshot, after: Snapshot) {
    && (before.over ==> after == before)
    && before.phases <= after.phases <= before.phases + 1 && after.phases <= 2
    && (after.over ==> after.phases == before.phases)
    && (before.phases >= 1 ==> after.config == before.config && after.stats.client1 == before.stats.client1 &&
                               after.stats.server1 == before.stats.server1)
    && (before.phases >= 2 ==> after.stats == before.stats)
  }

  lemma MovesOn(runId: string, own: Config, before: Snapshot, after: Snapshot, reason: string, warning: string)
    requires Continues(before, after) && after.config.mode == own.mode
    ensures PerformAll(Reached(runId, own, before, reason, warning), Acts(before, after, reason, warning))
         == Reached(runId, own, after, reason, warning)
  {
    hide ValidateReceiverStats, StateToString;
    var r := Reached(runId, own, before, reason, warning);
    var synced := Perform(r, Sync(after.state, after.config, after.stats));
    var acts := Acts(before, after, reason, warning);
    if after.phases > before.phases {
      assert acts == [Sync(after.state, after.config, after.stats), PhaseComplete(after.phases)];
      Perform2(r, acts[0], acts[1]);
      var told, role := Told(runId, own, before, reason, warning), RoleString(own.mode);
      assert PublishPhase(synced, after.phases).events
          == told + [PhaseEvent(runId, role, after.phases, if after.phases == 1 then FirstPhase(after)
              else SecondPhase(after))];
      if after.phases == 1 {
        assert told == [RunStarted(runId, role, own)];
        assert Told(runId, own, after, reason, warning)
            == [RunStarted(runId, role, own), PhaseEvent(runId, role, 1, FirstPhase(after))];
      } else {
        assert told == [RunStarted(runId, role, own), PhaseEvent(runId, role, 1, FirstPhase(after))];
      }
    } else if after.over && !before.over {
      Perform2(r, acts[0], acts[1]);
    } else {
      Perform1(r, acts[0]);
    }
  }

  lemma Perform1(r: Run, x: Act)
    ensures PerformAll(r, [x]) == Perform(r, x)
  {
  }

  lemma Perform2(r: Run, x: Act, y: Act)
    ensures PerformAll(r, [x, y]) == Perform(Perform(r, x), y)
  {
    assert [x, y][1..] == [y];
    Perform1(Perform(r, x), y);
  }

  // ---------- The sessions ----------

  // The client goes on from a send, from a wait, or not at all.
  lemma ClientSentContinues(s: System, reported: nat)
    requires !s.clientFailed && ClientAwaits(s.client.pc).None? && !s.client.pc.CFinished?
    ensures var s' := s.(client := ClientSent(s.client, reported));
            && Continues(ClientSnapshot(s), ClientSnapshot(s'))
            && ClientSnapshot(s').config == s'.client.config == s.client.config
  {
    hide More, ClientState;
  }

  lemma ClientGotContinues(codec: Codec, s: System, inbox: seq<Packet>, m: Packet)
    requires !s.clientFailed && ClientAwaits(s.client.pc).Some?
    ensures var p := ClientGot(codec, s.client.(inbox := inbox), m);
            p.Some? ==>
              var s' := s.(client := p.value);
              && Continues(ClientSnapshot(s), ClientSnapshot(s'))
              && ClientSnapshot(s').config == s'.client.config == s.client.config
  {
    hide More, ClientState, ReceiverStats, GeneratorStats;
  }

  lemma ClientStaysPut(s: System, s': System)
    requires s'.client == s.client.(counters := s'.client.counters, inbox := s'.client.inbox)
    requires s.clientFailed ==> s'.clientFailed
    requires s'.clientFailed != s.clientFailed ==> ClientAwaits(s.client.pc).Some?
    ensures Continues(ClientSnapshot(s), ClientSnapshot(s'))
    ensures ClientSnapshot(s').config == s'.client.config == s.client.config
  {
    hide ClientState;
  }

  lemma ClientContinues(codec: Codec, s: System, e: Event)
    requires Enabled(s, e)
    ensures var s' := Step(codec, s, e);
            && Continues(ClientSnapshot(s), ClientSnapshot(s'))
            && ClientSnapshot(s').config == s'.client.config == s.client.config
  {
    hide Continues, ClientSnapshot, ServerStep, ServerSends, ServerReady;
    hide ClientSends, ClientSent, ClientGot, First, WithoutFirst;
    var p, s' := s.client, Step(codec, s, e);
    if e.ClientRuns? && ClientStep(codec, p, e.reported).Some? {
      if ClientAwaits(p.pc).Some? {
        var kind := ClientAwaits(p.pc).value;
        ClientGotContinues(codec, s, WithoutFirst(p.inbox, kind), First(p.inbox, kind));
      } else {
        ClientSentContinues(s, e.reported);
      }
      ClientAlone(s.(client := s'.client), s');
    } else {
      ClientStaysPut(s, s');
    }
  }

  lemma ClientAlone(s: System, s': System)
    requires s'.client == s.client && s'.clientFailed == s.clientFailed
    ensures ClientSnapshot(s') == ClientSnapshot(s)
  {
  }

  // The server goes on from a send, from a wait, or not at all.
  lemma ServerSentContinues(s: System, reported: nat)
    requires !s.serverFailed && ServerAwaits(s.server.pc).None? && !s.server.pc.SFinished?
    requires s.server.config.mode == SERVER
    ensures var s' := s.(server := ServerSent(s.server, reported));
            && Continues(ServerSnapshot(s), ServerSnapshot(s'))
            && ServerSnapshot(s').config.mode == s'.server.config.mode == SERVER
  {
    hide More, ServerState;
  }

  lemma ServerGotContinues(codec: Codec, s: System, inbox: seq<Packet>, m: Packet)
    requires !s.serverFailed && ServerAwaits(s.server.pc).Some? && s.server.config.mode == SERVER
    ensures var p := ServerGot(codec, s.server.(inbox := inbox), m);
            p.Some? ==>
              var s' := s.(server := p.value);
              && Continues(ServerSnapshot(s), ServerSnapshot(s'))
              && ServerSnapshot(s').config.mode == s'.server.config.mode == SERVER
  {
    hide More, ServerState, ReceiverStats, GeneratorStats;
  }

  lemma ServerStaysPut(s: System, s': System)
    requires s'.server == s.server.(counters := s'.server.counters, inbox := s'.server.inbox)
    requires s.serverFailed ==> s'.serverFailed
    requires s'.serverFailed != s.serverFailed ==> ServerAwaits(s.server.pc).Some?
    requires s.server.config.mode == SERVER
    ensures Continues(ServerSnapshot(s), ServerSnapshot(s'))
    ensures ServerSnapshot(s').config.mode == s'.server.config.mode == SERVER
  {
    hide ServerState;
  }

  lemma ServerContinues(codec: Codec, s: System, e: Event)
    requires Enabled(s, e) && s.server.config.mode == SERVER
    ensures var s' := Step(codec, s, e);
            && Continues(ServerSnapshot(s), ServerSnapshot(s'))
            && ServerSnapshot(s').config.mode == s'.server.config.mode == SERVER
  {
    hide Continues, ServerSnapshot, ClientStep, ClientSends, ClientReady;
    hide ServerSends, ServerSent, ServerGot, First, WithoutFirst;
    var p, s' := s.server, Step(codec, s, e);
    if e.ServerRuns? && ServerStep(codec, p, e.reported).Some? {
      if ServerAwaits(p.pc).Some? {
        var kind := ServerAwaits(p.pc).value;
        ServerGotContinues(codec, s, WithoutFirst(p.inbox, kind), First(p.inbox, kind));
      } else {
        ServerSentContinues(s, e.reported);
      }
      ServerAlone(s.(server := s'.server), s');
    } else {
      ServerStaysPut(s, s');
    }
  }

  lemma ServerAlone(s: System, s': System)
    requires s'.server == s.server && s'.serverFailed == s.serverFailed
    ensures ServerSnapshot(s') == ServerSnapshot(s)
  {
  }

  lemma ClientNetContinues(codec: Codec, n: Net, e: NetEvent)
    requires NetEnabled(n, e)
    ensures var now, next := ClientSnapshot(Core(n)), ClientSnapshot(Core(NetStep(codec, n, e)));
            Continues(now, next) && next.config == now.config
  {
    match e
    case Session(x) =>
      ClientContinues(codec, Core(n), x);
      hide Step, Continues;
    case ServerChunk(_) =>
      hide ReceiveChunk;
    case ClientChunk(size) =>
      var r := Parse(MAX_PAYLOAD, n.down.buffer + n.down.wire[..size], n.down.streak);
      var c := n.client;
      DispatchAllKeeps(c.(counters := c.counters.(failedChecksums := c.counters.failedChecksums + r.checksumFailures)),
                       r.packets);
      hide Parse, DispatchAll;
  }

  lemma ServerNetContinues(codec: Codec, n: Net, e: NetEvent)
    requires NetEnabled(n, e) && n.server.config.mode == SERVER
    ensures var now, next := ServerSnapshot(Core(n)), ServerSnapshot(Core(NetStep(codec, n, e)));
            Continues(now, next) && next.config.mode == SERVER
  {
    match e
    case Session(x) =>
      ServerContinues(codec, Core(n), x);
      hide Step, Continues;
    case ClientChunk(_) =>
      hide ReceiveChunk;
    case ServerChunk(size) =>
      var r := Parse(MAX_PAYLOAD, n.up.buffer + n.up.wire[..size], n.up.streak);
      var v := n.server;
      DispatchAllKeeps(v.(counters := v.counters.(failedChecksums := v.counters.failedChecksums + r.checksumFailures)),
                       r.packets);
      hide Parse, DispatchAll;
  }

  lemma {:induction false} ClientFollows(codec: Codec, n: Net, events: seq<NetEvent>, runId: string, own: Config,
                                         reason: string, warning: string)
    requires IsNetRun(codec, n, events) && ClientSnapshot(Core(n)).config.mode == own.mode
    ensures var start := Reached(runId, own, ClientSnapshot(Core(n)), reason, warning);
            var end := ClientSnapshot(Core(NetEnd(codec, n, events)));
            && Follow(codec, n, events, ClientSnapshot, start, reason, warning)
               == Reached(runId, own, end, reason, warning)
            && end.config.mode == own.mode
    decreases |events|
  {
    hide NetStep, NetEnabled, ClientSnapshot, Reached, Acts, PerformAll, Continues;
    if events != [] {
      var n' := NetStep(codec, n, events[0]);
      ClientNetContinues(codec, n, events[0]);
      MovesOn(runId, own, ClientSnapshot(Core(n)), ClientSnapshot(Core(n')), reason, warning);
      ClientFollows(codec, n', events[1..], runId, own, reason, warning);
    }
  }

  lemma {:induction false} ServerFollows(codec: Codec, n: Net, events: seq<NetEvent>, runId: string, own: Config,
                                         reason: string, warning: string)
    requires IsNetRun(codec, n, events) && n.server.config.mode == own.mode == SERVER
    requires ServerSnapshot(Core(n)).config == n.server.config
    ensures var start := Reached(runId, own, ServerSnapshot(Core(n)), reason, warning);
            var end := ServerSnapshot(Core(NetEnd(codec, n, events)));
            && Follow(codec, n, events, ServerSnapshot, start, reason, warning)
               == Reached(runId, own, end, reason, warning)
            && end.config.mode == SERVER
    decreases |events|
  {
    hide NetStep, NetEnabled, ServerSnapshot, Reached, Acts, PerformAll, Continues;
    if events != [] {
      var n' := NetStep(codec, n, events[0]);
      ServerNetContinues(codec, n, events[0]);
      ServerConfigSeen(n');
      MovesOn(runId, own, ServerSnapshot(Core(n)), ServerSnapshot(Core(n')), reason, warning);
      ServerFollows(codec, n', events[1..], runId, own, reason, warning);
    }
  }

  lemma ServerConfigSeen(n: Net)
    ensures ServerSnapshot(Core(n)).config == n.server.config
  {
  }

  // The controllers when the sessions begin.
  function ClientStart(runId: string, n: Net): Run {
    Perform(Started(n.client.config, runId, true), Sync(SENDING_CONFIG, n.client.config, Stored(n.client)))
  }

  function ServerStart(runId: string, n: Net): Run {
    Perform(Started(n.server.config, runId, true),
            Sync(State.WAITING_FOR_CONFIG, n.server.config, Stored(n.server)))
  }

  // Over any run, with timeouts or not and for every packet size, the client
  // announces run_started, then each phase it completes, and in the end one
  // final result; the phases announced are those of the final result.
  lemma ClientAnnounces(codec: Codec, config: Config, n: Net, events: seq<NetEvent>, runId: string,
                        reason: string, warning: string)
    requires NetInitial(n, config) && IsNetRun(codec, n, events)
    ensures var end := ClientSnapshot(Core(NetEnd(codec, n, events)));
            && Follow(codec, n, events, ClientSnapshot, ClientStart(runId, n), reason, warning)
               == Reached(runId, config, end, reason, warning)
            && end.config.mode == CLIENT
  {
    assert ClientStart(runId, n) == Reached(runId, config, ClientSnapshot(Core(n)), reason, warning);
    assert ClientSnapshot(Core(n)).config.mode == config.mode == CLIENT;
    hide *;
    ClientFollows(codec, n, events, runId, config, reason, warning);
  }

  lemma ServerAnnounces(codec: Codec, config: Config, n: Net, events: seq<NetEvent>, runId: string,
                        reason: string, warning: string)
    requires NetInitial(n, config) && IsNetRun(codec, n, events) && n.server.config.mode == SERVER
    ensures var end := ServerSnapshot(Core(NetEnd(codec, n, events)));
            && Follow(codec, n, events, ServerSnapshot, ServerStart(runId, n), reason, warning)
               == Reached(runId, n.server.config, end, reason, warning)
            && end.config.mode == SERVER
  {
    assert ServerStart(runId, n) == Reached(runId, n.server.config, ServerSnapshot(Core(n)), reason, warning);
    ServerConfigSeen(n);
    hide *;
    ServerFollows(codec, n, events, runId, n.server.config, reason, warning);
  }

  // ---------- Up to the verifier ----------

  // The result a controller holds now, and its session's place in the run.
  function ResultNow(now: Snapshot, runId: string): TestRunResult {
    BuildResult(now.state, now.config, runId, "", now.stats, "")
  }

  lemma FinalFields(own: Config, now: Snapshot, runId: string, reason: string, warning: string)
    requires now.config.mode == own.mode
    ensures var role, result := RoleString(own.mode), FinalResult(now, runId, reason, warning);
            && result.runId == runId && result.role == role
            && result.success == ResultNow(now, runId).success
            && (result.success ==> now.state == FINISHED)
            && (now.state == FINISHED ==> result.finalState == "FINISHED")
  {
    hide ValidateReceiverStats;
  }

  // Whatever a controller has told so far is accepted exactly when its result
  // is a success; what an unfinished or failed session has told never is.
  lemma ToldAccepted(runId: string, own: Config, now: Snapshot, reason: string, warning: string,
                     dump: ResultEvent -> string, parse: string -> Option<EventJson>)
    requires now.config.mode == own.mode && now.phases <= 2
    requires now.state == FINISHED ==> now.phases == 2 && now.over
    requires Faithful(dump, parse)
    ensures Accepted(Dumped(dump, Told(runId, own, now, reason, warning)), parse, RoleString(own.mode), runId)
            <==> ResultNow(now, runId).success
  {
    hide Faithful, FinalResult, FirstPhase, SecondPhase, ResultNow, RoleString;
    var role, result := RoleString(own.mode), FinalResult(now, runId, reason, warning);
    FinalFields(own, now, runId, reason, warning);
    if now.phases == 2 && now.over {
      assert Told(runId, own, now, reason, warning)
          == [RunStarted(runId, role, own), PhaseEvent(runId, role, 1, FirstPhase(now)),
              PhaseEvent(runId, role, 2, SecondPhase(now)), FinalEvent(runId, role, result)];
      AcceptedIffSuccess(dump, parse, own, FirstPhase(now), SecondPhase(now), result, runId, role);
    } else {
      assert |Told(runId, own, now, reason, warning)| != 4;
      hide EventOk;
    }
  }

  lemma ClientPlace(s: System, runId: string)
    ensures var now := ClientSnapshot(s);
            && now.phases <= 2 && (now.state == FINISHED ==> now.phases == 2 && now.over)
            && ResultNow(now, runId) == ClientResult(s, runId)
  {
    hide BuildResult;
  }

  lemma ServerPlace(s: System, runId: string)
    ensures var now := ServerSnapshot(s);
            && now.phases <= 2 && (now.state == FINISHED ==> now.phases == 2 && now.over)
            && ResultNow(now, runId) == ServerResult(s, runId)
  {
    hide BuildResult;
  }

  function Read(chunks: seq<string>): seq<string> {
    PipeReading.Flush(PipeReading.ConsumeAll(PipeReading.Reading([], ""), chunks))
  }

  // The lines on the pipe are accepted exactly when all of them got there and
  // the controller's result is a success.
  lemma KeptAccepted(runId: string, own: Config, now: Snapshot, reason: string, warning: string,
                     dump: ResultEvent -> string, parse: string -> Option<EventJson>,
                     fates: seq<EventSink.Fate>, queue: seq<string>, chunks: seq<string>)
    requires now.config.mode == own.mode && now.phases <= 2
    requires now.state == FINISHED ==> now.phases == 2 && now.over
    requires Faithful(dump, parse)
    requires EventSink.Lines(fates) + queue == Rendered(dump, Told(runId, own, now, reason, warning))
    requires PipeReading.Concat(chunks) == PipeReading.Concat(EventSink.Kept(fates))
    ensures Accepted(Read(chunks), parse, RoleString(own.mode), runId)
            <==> ResultNow(now, runId).success && EventSink.AllWritten(fates) && queue == []
  {
    var told := Told(runId, own, now, reason, warning);
    assert |told| <= 4;
    hide Told, Rendered, ResultNow, RoleString, Faithful, EventOk, EventSink.Kept, EventSink.Lines,
        EventSink.AllWritten;
    var kept := KeptEvents(dump, told, fates, queue);
    LinesArrive(dump, parse, kept, chunks);
    if kept == told {
      ToldAccepted(runId, own, now, reason, warning, dump, parse);
    }
  }

  // From the first byte to the verifier: over any run, for every configuration,
  // and in every state of the sink, what has reached the client's pipe, read in
  // any chunks, is accepted exactly when it is everything and the result is a
  // success, that is, when the client has finished and what was asked for could
  // be received.
  lemma ClientVerified(codec: Codec, config: Config, n: Net, events: seq<NetEvent>, runId: string,
                       reason: string, warning: string,
                       dump: ResultEvent -> string, parse: string -> Option<EventJson>,
                       fates: seq<EventSink.Fate>, queue: seq<string>, chunks: seq<string>)
    requires Lossless(codec) && NetInitial(n, config) && IsNetRun(codec, n, events)
    requires Faithful(dump, parse)
    requires var run := Follow(codec, n, events, ClientSnapshot, ClientStart(runId, n), reason, warning);
             EventSink.Lines(fates) + queue == Rendered(dump, run.events)
    requires PipeReading.Concat(chunks) == PipeReading.Concat(EventSink.Kept(fates))
    ensures var m := Core(NetEnd(codec, n, events));
            var arrived := EventSink.AllWritten(fates) && queue == [];
            var accepted := Accepted(Read(chunks), parse, "CLIENT", runId);
            && (accepted <==> ClientResult(m, runId).success && arrived)
            && (accepted <==> m.client.pc.CFinished? && Satisfiable(config) && arrived)
  {
    var m := Core(NetEnd(codec, n, events));
    var now := ClientSnapshot(m);
    var told := Told(runId, config, now, reason, warning);
    assert Reached(runId, config, now, reason, warning).events == told && RoleString(CLIENT) == "CLIENT";
    assert config.mode == CLIENT;
    hide *;
    EndToEndVerdict(codec, config, n, events, runId);
    ClientAnnounces(codec, config, n, events, runId, reason, warning);
    ClientPlace(m, runId);
    KeptAccepted(runId, config, now, reason, warning, dump, parse, fates, queue, chunks);
  }

  lemma ServerVerified(codec: Codec, config: Config, n: Net, events: seq<NetEvent>, runId: string,
                       reason: string, warning: string,
                       dump: ResultEvent -> string, parse: string -> Option<EventJson>,
                       fates: seq<EventSink.Fate>, queue: seq<string>, chunks: seq<string>)
    requires Lossless(codec) && NetInitial(n, config) && IsNetRun(codec, n, events)
    requires Faithful(dump, parse) && n.server.config.mode == SERVER
    requires var run := Follow(codec, n, events, ServerSnapshot, ServerStart(runId, n), reason, warning);
             EventSink.Lines(fates) + queue == Rendered(dump, run.events)
    requires PipeReading.Concat(chunks) == PipeReading.Concat(EventSink.Kept(fates))
    ensures var m := Core(NetEnd(codec, n, events));
            var arrived := EventSink.AllWritten(fates) && queue == [];
            var accepted := Accepted(Read(chunks), parse, "SERVER", runId);
            && (accepted <==> ServerResult(m, runId).success && arrived)
            && (accepted <==> m.server.pc.SFinished? && Satisfiable(config) && arrived)
  {
    var m, own := Core(NetEnd(codec, n, events)), n.server.config;
    var now := ServerSnapshot(m);
    var told := Told(runId, own, now, reason, warning);
    assert Reached(runId, own, now, reason, warning).events == told && RoleString(SERVER) == "SERVER";
    hide *;
    EndToEndVerdict(codec, config, n, events, runId);
    ServerAnnounces(codec, config, n, events, runId, reason, warning);
    ServerPlace(m, runId);
    KeptAccepted(runId, own, now, reason, warning, dump, parse, fates, queue, chunks);
  }

  // The sink is stopped right after the last event; before are the lines
  // written by then, queue those it tries once more.
  ghost predicate Stopped(dump: ResultEvent -> string, events: seq<ResultEvent>, before: seq<EventSink.Fate>,
                          queue: seq<string>, writes: nat -> bool, chunks: seq<string>)
  {
    && EventSink.AllWritten(before) && EventSink.Lines(before) + queue == Rendered(dump, events)
    && PipeReading.Concat(chunks) == PipeReading.Concat(EventSink.Kept(before + EventSink.Tries(queue, writes)))
  }

  // So what a client has announced is accepted exactly when its result is a
  // success and every write that stopping the sink makes succeeds.
  lemma ClientDelivered(codec: Codec, config: Config, n: Net, events: seq<NetEvent>, runId: string,
                        reason: string, warning: string,
                        dump: ResultEvent -> string, parse: string -> Option<EventJson>,
                        before: seq<EventSink.Fate>, queue: seq<string>, writes: nat -> bool, chunks: seq<string>)
    requires Lossless(codec) && NetInitial(n, config) && IsNetRun(codec, n, events)
    requires Faithful(dump, parse)
    requires var run := Follow(codec, n, events, ClientSnapshot, ClientStart(runId, n), reason, warning);
             Stopped(dump, run.events, before, queue, writes, chunks)
    ensures var m := Core(NetEnd(codec, n, events));
            Accepted(Read(chunks), parse, "CLIENT", runId)
            <==> ClientResult(m, runId).success && forall i | 0 <= i < |queue| :: writes(i)
  {
    assert EventSink.AllWritten(before);
    assert PipeReading.Concat(chunks) == PipeReading.Concat(EventSink.Kept(before + EventSink.Tries(queue, writes)));
    hide *;
    var fates := before + EventSink.Tries(queue, writes);
    EventSink.TriedLines(before, queue, writes);
    EventSink.AllTried(before, queue, writes);
    assert EventSink.Lines(fates) + [] == EventSink.Lines(fates);
    ClientVerified(codec, config, n, events, runId, reason, warning, dump, parse, fates, [], chunks);
  }

  lemma ServerDelivered(codec: Codec, config: Config, n: Net, events: seq<NetEvent>, runId: string,
                        reason: string, warning: string,
                        dump: ResultEvent -> string, parse: string -> Option<EventJson>,
                        before: seq<EventSink.Fate>, queue: seq<string>, writes: nat -> bool, chunks: seq<string>)
    requires Lossless(codec) && NetInitial(n, config) && IsNetRun(codec, n, events)
    requires Faithful(dump, parse) && n.server.config.mode == SERVER
    requires var run := Follow(codec, n, events, ServerSnapshot, ServerStart(runId, n), reason, warning);
             Stopped(dump, run.events, before, queue, writes, chunks)
    ensures var m := Core(NetEnd(codec, n, events));
            Accepted(Read(chunks), parse, "SERVER", runId)
            <==> ServerResult(m, runId).success && forall i | 0 <= i < |queue| :: writes(i)
  {
    assert EventSink.AllWritten(before);
    assert PipeReading.Concat(chunks) == PipeReading.Concat(EventSink.Kept(before + EventSink.Tries(queue, writes)));
    hide *;
    var fates := before + EventSink.Tries(queue, writes);
    EventSink.TriedLines(before, queue, writes);
    EventSink.AllTried(before, queue, writes);
    assert EventSink.Lines(fates) + [] == EventSink.Lines(fates);
    ServerVerified(codec, config, n, events, runId, reason, warning, dump, parse, fates, [], chunks);
  }
}
