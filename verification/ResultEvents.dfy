// The result of a run is finalised once, and its progress is published as a
// sequence of events: run_started, the phase results, final_result.
module ResultEvents {
  import opened TestTypes
  import opened Controller
  import opened Wrappers
  import EventSink

  datatype ResultEvent =
    | RunStarted(runId: string, role: string, config: Config)
    | PhaseEvent(runId: string, role: string, phaseNumber: int, phase: TestPhaseResult)
    | FinalEvent(runId: string, role: string, result: TestRunResult)

  // The part of the controller that publishing depends on and changes.
  datatype Run = Run(
    runId: string,
    config: Config,
    state: State,
    stats: PhaseStats,
    exportWarning: string,
    finalized: bool,
    phase1Published: bool,
    phase2Published: bool,
    sinkEnabled: bool,
    completed: bool,
    lastResult: Option<TestRunResult>,
    events: seq<ResultEvent>)

  function CurrentResult(r: Run, failureReason: string): TestRunResult {
    BuildResult(r.state, r.config, r.runId, r.exportWarning, r.stats, failureReason)
  }

  // What the session does to the controller, and what anyone may do to it.
  datatype Act =
    | Sync(state: State, config: Config, stats: PhaseStats)   // state change, received config, stored statistics
    | PhaseComplete(phaseNumber: int)
    | Finalize(failureReason: string, exportWarning: string)  // exportWarning: what writing the result files gave

  function PublishPhase(r: Run, phaseNumber: int): Run {
    if !r.sinkEnabled || (phaseNumber == 1 && r.phase1Published) || (phaseNumber == 2 && r.phase2Published) then r
    else
      var snapshot := CurrentResult(r, "");
      var phase := if phaseNumber == 1 then snapshot.phase1 else snapshot.phase2;
      r.(phase1Published := r.phase1Published || phaseNumber == 1,
         phase2Published := r.phase2Published || phaseNumber == 2,
         events := r.events + [PhaseEvent(snapshot.runId, snapshot.role, phaseNumber, phase)])
  }

  function FinalizeOnce(r: Run, failureReason: string, exportWarning: string): Run {
    if r.finalized then r.(completed := true)
    else
      var built := CurrentResult(r, failureReason);
      var warning := if exportWarning == "" then r.exportWarning else exportWarning;
      var result := if exportWarning == "" then built else built.(resultExportWarning := exportWarning);
      r.(finalized := true, exportWarning := warning, lastResult := Some(result), completed := true,
         sinkEnabled := false,
         events := if r.sinkEnabled then r.events + [Announced(result)] else r.events)
  }

  function Perform(r: Run, act: Act): Run {
    match act
    case Sync(state, config, stats) => r.(state := state, config := config, stats := stats)
    case PhaseComplete(n) => PublishPhase(r, n)
    case Finalize(reason, warning) => FinalizeOnce(r, reason, warning)
  }

  function PerformAll(r: Run, acts: seq<Act>): Run
    decreases |acts|
  {
    if acts == [] then r else PerformAll(Perform(r, acts[0]), acts[1..])
  }

  // ---------- In any order of calls ----------

  // 0 for run_started, the number of a phase event, 4 for final_result.
  function Tag(e: ResultEvent): int {
    match e
    case RunStarted(_, _, _) => 0
    case PhaseEvent(_, _, n, _) => if 1 <= n <= 2 then n else 3
    case FinalEvent(_, _, _) => 4
  }

  function Count(events: seq<ResultEvent>, tag: int): nat {
    if events == [] then 0
    else Count(events[..|events| - 1], tag) + if Tag(events[|events| - 1]) == tag then 1 else 0
  }

  function Once(happened: bool): nat {
    if happened then 1 else 0
  }

  function Announced(result: TestRunResult): ResultEvent {
    FinalEvent(result.runId, result.role, result)
  }

  // run_started first and once, each of the two phases at most once, and
  // final_result only at the end, exactly when the result has been finalised.
  ghost predicate Ordered(r: Run) {
    && r.events != [] && r.events[0].RunStarted? && Count(r.events, 0) == 1
    && Count(r.events, 1) == Once(r.phase1Published) && Count(r.events, 2) == Once(r.phase2Published)
    && Count(r.events, 4) == Once(r.finalized) && r.sinkEnabled == !r.finalized
    && (r.finalized <==> r.lastResult.Some?)
    && (r.finalized ==> r.completed)
    && (r.finalized ==> r.events[|r.events| - 1] == Announced(r.lastResult.value))
  }

  lemma EventAdded(events: seq<ResultEvent>, e: ResultEvent)
    ensures Count(events + [e], 0) == Count(events, 0) + Once(Tag(e) == 0)
    ensures Count(events + [e], 1) == Count(events, 1) + Once(Tag(e) == 1)
    ensures Count(events + [e], 2) == Count(events, 2) + Once(Tag(e) == 2)
    ensures Count(events + [e], 4) == Count(events, 4) + Once(Tag(e) == 4)
  {
    assert (events + [e])[..|events|] == events;
  }

  lemma PhaseEventKeepsOrder(r: Run, e: ResultEvent)
    requires Ordered(r) && r.sinkEnabled && e.PhaseEvent?
    requires (e.phaseNumber == 1 ==> !r.phase1Published) && (e.phaseNumber == 2 ==> !r.phase2Published)
    ensures Ordered(r.(phase1Published := r.phase1Published || e.phaseNumber == 1,
                       phase2Published := r.phase2Published || e.phaseNumber == 2,
                       events := r.events + [e]))
  {
    EventAdded(r.events, e);
    hide Count;
  }

  lemma PhaseKeepsOrder(r: Run, phaseNumber: int)
    requires Ordered(r)
    ensures Ordered(PublishPhase(r, phaseNumber)) && r.events <= PublishPhase(r, phaseNumber).events
  {
    hide BuildResult, Ordered;
    var r' := PublishPhase(r, phaseNumber);
    if r' != r {
      PhaseEventKeepsOrder(r, r'.events[|r.events|]);
    }
  }

  lemma FinalEventKeepsOrder(r: Run, result: TestRunResult, warning: string)
    requires Ordered(r) && !r.finalized
    ensures Ordered(r.(finalized := true, exportWarning := warning, lastResult := Some(result), completed := true,
                       sinkEnabled := false, events := r.events + [Announced(result)]))
  {
    EventAdded(r.events, Announced(result));
    hide Count;
  }

  lemma FinalizeKeepsOrder(r: Run, failureReason: string, warning: string)
    requires Ordered(r)
    ensures Ordered(FinalizeOnce(r, failureReason, warning))
        && r.events <= FinalizeOnce(r, failureReason, warning).events
  {
    hide BuildResult, Count;
    var r' := FinalizeOnce(r, failureReason, warning);
    assert r.sinkEnabled == !r.finalized;
    if !r.finalized {
      FinalEventKeepsOrder(r, r'.lastResult.value, r'.exportWarning);
      hide Ordered;
    }
  }

  lemma PerformKeepsOrder(r: Run, act: Act)
    requires Ordered(r)
    ensures var r' := Perform(r, act);
            && Ordered(r') && r.events <= r'.events
            && (r.finalized ==> r'.finalized && r'.lastResult == r.lastResult && r'.events == r.events)
  {
    match act
    case Sync(_, _, _) =>
    case PhaseComplete(n) => PhaseKeepsOrder(r, n); hide BuildResult, Count;
    case Finalize(reason, warning) => FinalizeKeepsOrder(r, reason, warning); hide BuildResult, Count;
  }

  // However often and in whatever order phases are announced and the result is
  // finalised, the first finalisation is the one that stays.
  lemma {:induction false} CallsKeepOrder(r: Run, acts: seq<Act>)
    requires Ordered(r)
    ensures Ordered(PerformAll(r, acts)) && r.events <= PerformAll(r, acts).events
    ensures r.finalized ==> PerformAll(r, acts).lastResult == r.lastResult && PerformAll(r, acts).events == r.events
    decreases |acts|
  {
    hide Ordered, Perform;
    if acts != [] {
      PerformKeepsOrder(r, acts[0]);
      CallsKeepOrder(Perform(r, acts[0]), acts[1..]);
    }
  }

  const NO_PHASES := PhaseStats(NO_STATS, NO_STATS, NO_STATS, NO_STATS)

  function Started(config: Config, runId: string, sinkEnabled: bool): Run {
    Run(runId, config, IDLE, NO_PHASES, "", false, false, false, sinkEnabled, false, None,
        if sinkEnabled then [RunStarted(runId, RoleString(config.mode), config)] else [])
  }

  lemma StartedOrdered(config: Config, runId: string)
    ensures Ordered(Started(config, runId, true))
  {
    var e := RunStarted(runId, RoleString(config.mode), config);
    EventAdded([], e);
    assert [] + [e] == [e];
  }

  // A run that is finalised before any state has been reached is no success,
  // even when nothing was asked for, and says the caller's reason first.
  lemma FinalizedAtOnceFails(config: Config, runId: string, sinkEnabled: bool, reason: string, warning: string)
    ensures var r := FinalizeOnce(Started(config, runId, sinkEnabled), reason, warning);
            && r.lastResult.Some? && !r.lastResult.value.success && r.lastResult.value.finalState == "IDLE"
            && reason <= r.lastResult.value.failureReason && r.lastResult.value.failureReason != ""
            && r.lastResult.value.runId == runId && r.lastResult.value.config == config
  {
    VerdictMeaning(IDLE, config, runId, "", NO_PHASES, reason);
    ResultCarries(IDLE, config, runId, "", NO_PHASES, reason);
    hide BuildResult, Contains;
  }

  // A controller that has started with a result pipe, whatever calls follow.
  lemma StartedKeepsOrder(config: Config, runId: string, acts: seq<Act>, later: seq<Act>)
    ensures var r := PerformAll(Started(config, runId, true), acts);
            && Ordered(r) && r.events[0] == RunStarted(runId, RoleString(config.mode), config)
            && (r.finalized ==>
                  PerformAll(r, later).lastResult == r.lastResult && PerformAll(r, later).events == r.events)
  {
    hide Ordered, Perform, PerformAll;
    var start := Started(config, runId, true);
    StartedOrdered(config, runId);
    CallsKeepOrder(start, acts);
    CallsKeepOrder(PerformAll(start, acts), later);
    assert start.events[0] == PerformAll(start, acts).events[0];
  }

  // ---------- The controller ----------

  function Rendered(dump: ResultEvent -> string, events: seq<ResultEvent>): seq<string> {
    if events == [] then [] else Rendered(dump, events[..|events| - 1]) + [dump(events[|events| - 1]) + "\n"]
  }

  lemma RenderedLast(dump: ResultEvent -> string, events: seq<ResultEvent>, shown: seq<string>)
    requires shown == Rendered(dump, events) && shown != []
    ensures events != [] && shown[..|shown| - 1] == Rendered(dump, events[..|events| - 1])
    ensures shown[|shown| - 1] == dump(events[|events| - 1]) + "\n"
  {
  }

  lemma RenderedMore(dump: ResultEvent -> string, events: seq<ResultEvent>, e: ResultEvent)
    ensures Rendered(dump, events + [e]) == Rendered(dump, events) + [dump(e) + "\n"]
  {
    assert (events + [e])[..|events|] == events;
  }

  // What has reached the pipe are the lines of some of the events, and of all
  // of them only if no line has been given up or is still queued.
  lemma {:induction false} KeptEvents(dump: ResultEvent -> string, events: seq<ResultEvent>,
                                      fates: seq<EventSink.Fate>, queue: seq<string>)
    returns (kept: seq<ResultEvent>)
    requires EventSink.Lines(fates) + queue == Rendered(dump, events)
    ensures EventSink.Kept(fates) == Rendered(dump, kept) && |kept| <= |events|
    ensures if EventSink.AllWritten(fates) && queue == [] then kept == events else |kept| < |events|
    decreases |queue|, |fates|, 1
  {
    var shown := EventSink.Lines(fates) + queue;
    if queue != [] {
      hide EventSink.Lines, EventSink.Kept, EventSink.AllWritten, Rendered;
      RenderedLast(dump, events, shown);
      assert shown[..|shown| - 1] == EventSink.Lines(fates) + queue[..|queue| - 1];
      kept := KeptEvents(dump, events[..|events| - 1], fates, queue[..|queue| - 1]);
    } else if fates != [] {
      kept := KeptLast(dump, events, fates);
    } else {
      kept := [];
    }
  }

  lemma {:induction false} KeptLast(dump: ResultEvent -> string, events: seq<ResultEvent>, fates: seq<EventSink.Fate>)
    returns (kept: seq<ResultEvent>)
    requires fates != [] && EventSink.Lines(fates) + [] == Rendered(dump, events)
    ensures EventSink.Kept(fates) == Rendered(dump, kept) && |kept| <= |events|
    ensures if EventSink.AllWritten(fates) then kept == events else |kept| < |events|
    decreases 0, |fates|, 0
  {
    var front, last, n := fates[..|fates| - 1], fates[|fates| - 1], |events| - 1;
    EventSink.LastFate(fates);
    hide EventSink.Lines, EventSink.Kept, EventSink.AllWritten, Rendered;
    var shown := EventSink.Lines(fates) + [];
    RenderedLast(dump, events, shown);
    assert shown[..|shown| - 1] == EventSink.Lines(front) + [];
    kept := KeptEvents(dump, events[..n], front, []);
    if last.written {
      RenderedMore(dump, kept, events[n]);
      kept := kept + [events[n]];
      assert events[..n] + [events[n]] == events;
    }
  }

  class TestController {
    const sink: EventSink.ResultEventSink
    const dump: ResultEvent -> string
    var config: Config
    var runId: string
    var state: State
    var stats: PhaseStats
    var exportWarning: string
    var stopped: bool
    var started: bool
    var finalized: bool
    var phase1Published: bool
    var phase2Published: bool
    var completed: bool
    var lastResult: Option<TestRunResult>
    ghost var events: seq<ResultEvent>

    ghost function State(): Run
      reads this, sink
    {
      Run(runId, config, state, stats, exportWarning, finalized, phase1Published, phase2Published,
          sink.running, completed, lastResult, events)
    }

    // The sink has accepted exactly the lines of the events.
    ghost predicate Valid()
      reads this, sink
    {
      sink.Valid() && (!sink.running ==> sink.queue == []) && sink.published == Rendered(dump, events)
    }

    constructor (dump: ResultEvent -> string, config: Config)
      ensures Valid() && fresh(sink) && this.dump == dump && events == [] && !started && !sink.running
    {
      this.dump := dump;
      this.config := config;
      sink := new EventSink.ResultEventSink();
      runId, state, stats, exportWarning := "", IDLE, PhaseStats(NO_STATS, NO_STATS, NO_STATS, NO_STATS), "";
      stopped, started, finalized, completed := false, false, false, false;
      phase1Published, phase2Published := false, false;
      lastResult, events := None, [];
    }

    method Publish(event: ResultEvent)
      requires Valid() && sink.running
      modifies this`events, sink
      ensures Valid() && sink.running && events == old(events) + [event]
      ensures |sink.queue| == |old(sink.queue)| + 1
    {
      hide EventSink.ResultEventSink.Valid;
      sink.Publish(dump(event) + "\n");
      events := events + [event];
      assert events[..|events| - 1] == old(events);
    }

    // writes says how the last writes of a sink that has to be stopped go.
    method Reset(writes: nat -> bool)
      requires Valid()
      modifies this, sink
      ensures Valid() && !sink.running && !started && !stopped
      ensures state == IDLE && stats == NO_PHASES && exportWarning == "" && lastResult == None
      ensures !finalized && !phase1Published && !phase2Published && !completed
    {
      hide EventSink.ResultEventSink.Valid, Rendered, EventSink.AllWritten, EventSink.Tries, EventSink.Lines;
      sink.Stop(writes, []);
      state, stopped, completed, finalized, started, phase1Published, phase2Published :=
        IDLE, false, false, false, false, false, false;
      stats, exportWarning, lastResult := NO_PHASES, "", None;
    }

    // The sink takes up a new run.
    method StartSink(pipe: string, writes: nat -> bool)
      requires Valid() && !sink.running
      modifies this`events, sink
      ensures Valid() && events == [] && sink.running == (pipe != "")
    {
      assert Rendered(dump, []) == [];
      hide EventSink.ResultEventSink.Valid, Rendered;
      sink.Start(pipe, writes);
      events := [];
    }

    method PublishRunStarted()
      requires Valid()
      modifies this`events, sink
      ensures Valid() && sink.running == old(sink.running)
      ensures events == if sink.running then old(events) + [RunStarted(runId, RoleString(config.mode), config)]
                        else old(events)
    {
      hide EventSink.ResultEventSink.Valid, Rendered;
      if !sink.running {
        return;
      }
      Publish(RunStarted(runId, RoleString(config.mode), config));
    }

    method StartTest(newConfig: Config, givenRunId: string, generatedRunId: string, pipe: string, writes: nat -> bool)
      requires Valid()
      modifies this, sink
      ensures Valid() && started && !stopped
      ensures State() == Started(newConfig, if givenRunId == "" then generatedRunId else givenRunId, pipe != "")
    {
      hide EventSink.ResultEventSink.Valid, Rendered, RoleString;
      Reset(writes);
      config := newConfig;
      runId := if givenRunId == "" then generatedRunId else givenRunId;
      started := true;
      StartSink(pipe, writes);
      PublishRunStarted();
      assert [] + events == events;
    }

    method BuildCurrentResult(failureReason: string) returns (result: TestRunResult)
      ensures result == CurrentResult(State(), failureReason)
    {
      hide ValidateReceiverStats, StateToString;
      var reason1 := ValidateReceiver(stats.server1, config);
      var phase1 := TestPhaseResult("client_to_server", "CLIENT", "SERVER", stats.client1, stats.server1,
                                    reason1 == "", reason1);
      var reason2 := ValidateReceiver(stats.client2, config);
      var phase2 := TestPhaseResult("server_to_client", "SERVER", "CLIENT", stats.server2, stats.client2,
                                    reason2 == "", reason2);
      var finished := state == FINISHED;
      var reason := failureReason;
      if !finished {
        reason := CombineReasons(reason, "Final state is " + StateToString(state));
      }
      if !phase1.success {
        reason := CombineReasons(reason, "Phase 1 failed: " + phase1.failureReason);
      }
      if !phase2.success {
        reason := CombineReasons(reason, "Phase 2 failed: " + phase2.failureReason);
      }
      return TestRunResult(runId, RoleString(config.mode), StateToString(state),
                           finished && phase1.success && phase2.success, reason, exportWarning, config, phase1, phase2);
    }

    method PublishPhaseResult(phaseNumber: int)
      requires Valid()
      modifies this, sink
      ensures Valid() && State() == PublishPhase(old(State()), phaseNumber)
      ensures started == old(started) && stopped == old(stopped)
    {
      hide EventSink.ResultEventSink.Valid, BuildResult, Rendered;
      if !sink.running {
        return;
      }
      if phaseNumber == 1 {
        if phase1Published {
          return;
        }
        phase1Published := true;
      }
      if phaseNumber == 2 {
        if phase2Published {
          return;
        }
        phase2Published := true;
      }
      var snapshot := BuildCurrentResult("");
      var phase := if phaseNumber == 1 then snapshot.phase1 else snapshot.phase2;
      Publish(PhaseEvent(snapshot.runId, snapshot.role, phaseNumber, phase));
    }

    // The last part of finalizeResultOnce: the sink is stopped right after its
    // last event. Everything announced reaches the pipe exactly when each write
    // that is tried while stopping succeeds.
    method PublishFinal(result: TestRunResult, writes: nat -> bool)
      requires Valid()
      modifies this`events, sink
      ensures Valid() && !sink.running
      ensures events == if old(sink.running) then old(events) + [Announced(result)] else old(events)
      ensures old(sink.running) ==>
                && sink.queue == []
                && (EventSink.AllWritten(sink.fates) <==> forall i | 0 <= i <= |old(sink.queue)| :: writes(i))
                && (sink.written == Rendered(dump, events) <==> forall i | 0 <= i <= |old(sink.queue)| :: writes(i))
    {
      hide EventSink.ResultEventSink.Valid, Rendered, EventSink.AllWritten, EventSink.Tries, EventSink.Lines;
      if sink.running {
        Publish(Announced(result));
        sink.Stop(writes, []);
        assert sink.published + [] == sink.published;
      }
    }

    // newWarning is what writing the result files reports.
    method FinalizeResultOnce(failureReason: string, newWarning: string, writes: nat -> bool)
      requires Valid()
      modifies this, sink
      ensures Valid() && State() == FinalizeOnce(old(State()), failureReason, newWarning) && finalized && completed
      ensures started == old(started) && stopped == old(stopped)
      ensures !old(finalized) && old(sink.running) ==>
                && sink.queue == []
                && (EventSink.AllWritten(sink.fates) <==> forall i | 0 <= i <= |old(sink.queue)| :: writes(i))
                && (sink.written == Rendered(dump, events) <==> forall i | 0 <= i <= |old(sink.queue)| :: writes(i))
    {
      hide EventSink.ResultEventSink.Valid, BuildResult, Rendered, EventSink.AllWritten, EventSink.Tries,
        EventSink.Lines, CombineReasons;
      if !finalized {
        finalized := true;
        var result := BuildCurrentResult(failureReason);
        if newWarning != "" {
          result := result.(resultExportWarning := newWarning);
          exportWarning := newWarning;
        }
        lastResult := Some(result);
        PublishFinal(result, writes);
      }
      completed := true;
    }

    // A second call, or one before any test has started, finalises nothing.
    method StopTest(newWarning: string, writes: nat -> bool)
      requires Valid()
      modifies this, sink
      ensures Valid() && stopped
      ensures State() == if old(stopped) || !old(started) then old(State())
                         else FinalizeOnce(old(State()), "Test stopped before completion", newWarning)
    {
      if stopped {
        return;
      }
      stopped := true;
      if started {
        FinalizeResultOnce("Test stopped before completion", newWarning, writes);
      }
    }
  }
}
