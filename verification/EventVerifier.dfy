// How ResultPipeVerifier judges the events read from a result pipe, and the
// whole way of a line from the controller to that verdict.
module EventVerifier {
  import opened Protocol
  import opened TestTypes
  import opened Wrappers
  import opened Controller
  import opened ResultEvents
  import PipeReading

  // The fields it looks at. A field of another JSON type counts as
  // missing; absent members of a result read as false and "".
  datatype ResultJson = ResultJson(success: bool, finalState: string, role: string, runId: string)

  datatype EventJson = EventJson(
    eventType: Option<string>,
    runId: Option<string>,
    role: Option<string>,
    phaseNumber: Option<int>,
    phase: bool,
    result: Option<ResultJson>)

  const EMPTY_OBJECT := EventJson(None, None, None, None, false, None)

  function ExpectedType(i: nat): string {
    if i == 0 then "run_started" else if i <= 2 then "phase_result" else "final_result"
  }

  // json::get<int> on a wider number.
  function CastInt(n: int): int {
    (n + 0x8000_0000) % 0x1_0000_0000 - 0x8000_0000
  }

  // ---------- What is accepted ----------

  predicate HeadOk(event: EventJson, i: nat, role: string, runId: string) {
    event.eventType == Some(ExpectedType(i)) && event.runId == Some(runId) && event.role == Some(role)
  }

  predicate PhaseOk(event: EventJson, i: nat) {
    event.phaseNumber.Some? && CastInt(event.phaseNumber.value) == i && event.phase
  }

  predicate ResultOk(event: EventJson, role: string, runId: string) {
    event.result == Some(ResultJson(true, "FINISHED", role, runId))
  }

  predicate EventOk(event: Option<EventJson>, i: nat, role: string, runId: string) {
    && event.Some? && HeadOk(event.value, i, role, runId)
    && (1 <= i <= 2 ==> PhaseOk(event.value, i))
    && (i == 3 ==> ResultOk(event.value, role, runId))
  }

  // Four events in their order, of this run and role, with a successful result.
  ghost predicate Accepted(lines: seq<string>, parse: string -> Option<EventJson>, role: string, runId: string) {
    |lines| == 4 && forall i | 0 <= i < 4 :: EventOk(parse(lines[i]), i, role, runId)
  }

  // ---------- verifyEvents ----------

  method ParseJsonLine(line: string, parse: string -> Option<EventJson>, errors: seq<string>, source: string,
                       index: nat)
    returns (event: EventJson, errors': seq<string>)
    ensures event == parse(line).GetOr(EMPTY_OBJECT)
    ensures errors <= errors' && (errors' == errors <==> parse(line).Some?)
  {
    match parse(line)
    case Some(e) => return e, errors;
    case None => return EMPTY_OBJECT, errors + [source + " event " + Decimal(index) + " is not valid JSON"];
  }

  method ExpectString(actual: Option<string>, key: string, expected: string, errors: seq<string>, context: string)
    returns (ok: bool, errors': seq<string>)
    ensures ok == (actual == Some(expected))
    ensures errors <= errors' && (errors' == errors <==> ok)
  {
    if actual.None? {
      return false, errors + [context + " missing string field '" + key + "'"];
    }
    if actual.value != expected {
      var mismatch := "' mismatch: actual=" + actual.value + " expected=" + expected;
      return false, errors + [context + " field '" + key + mismatch];
    }
    return true, errors;
  }

  method ExpectHead(event: EventJson, i: nat, role: string, runId: string, before: seq<string>, context: string)
    returns (errors: seq<string>)
    ensures before <= errors && (errors == before <==> HeadOk(event, i, role, runId))
  {
    var ok;
    ok, errors := ExpectString(event.eventType, "type", ExpectedType(i), before, context);
    ok, errors := ExpectString(event.runId, "runId", runId, errors, context);
    ok, errors := ExpectString(event.role, "role", role, errors, context);
  }

  method ExpectPhase(event: EventJson, i: nat, before: seq<string>, context: string) returns (errors: seq<string>)
    ensures before <= errors && (errors == before <==> PhaseOk(event, i))
  {
    errors := before;
    if event.phaseNumber.None? {
      errors := errors + [context + " missing integer phaseNumber"];
    } else if CastInt(event.phaseNumber.value) != i {
      errors := errors + [context + " phaseNumber mismatch"];
    }
    if !event.phase {
      errors := errors + [context + " missing phase object"];
    }
  }

  method ExpectResult(event: EventJson, role: string, runId: string, before: seq<string>, context: string)
    returns (errors: seq<string>)
    ensures before <= errors && (errors == before <==> ResultOk(event, role, runId))
  {
    errors := before;
    if event.result.None? {
      return errors + [context + " missing result object"];
    }
    var result := event.result.value;
    if !result.success {
      errors := errors + [context + " result.success is not true"];
    }
    if result.finalState != "FINISHED" {
      errors := errors + [context + " result.finalState is not FINISHED"];
    }
    if result.role != role {
      errors := errors + [context + " result.role mismatch"];
    }
    if result.runId != runId {
      errors := errors + [context + " result.runId mismatch"];
    }
  }

  // No error is added exactly for the accepted lines.
  method VerifyEvents(source: string, role: string, lines: seq<string>, runId: string,
                      parse: string -> Option<EventJson>, before: seq<string>) returns (errors: seq<string>)
    ensures before <= errors
    ensures errors == before <==> Accepted(lines, parse, role, runId)
  {
    hide HeadOk, PhaseOk, ResultOk, Decimal;
    errors := before;
    if |lines| != 4 {
      errors := errors + [source + " expected 4 events but got " + Decimal(|lines|)];
    }
    var events: seq<EventJson> := [];
    for i := 0 to |lines|
      invariant before <= errors && |events| == i
      invariant errors == before <==> |lines| == 4 && forall k | 0 <= k < i :: parse(lines[k]).Some?
      invariant forall k | 0 <= k < i :: events[k] == parse(lines[k]).GetOr(EMPTY_OBJECT)
    {
      var event;
      event, errors := ParseJsonLine(lines[i], parse, errors, source, i);
      events := events + [event];
    }
    ghost var parsed := errors;
    var count := if |events| < 4 then |events| else 4;
    for i := 0 to count
      invariant parsed <= errors
      invariant errors == parsed <==> forall k | 0 <= k < i :: HeadOk(events[k], k, role, runId)
    {
      errors := ExpectHead(events[i], i, role, runId, errors, source + " event " + Decimal(i));
    }
    ghost var headed := errors;
    if |events| >= 3 {
      for i := 1 to 3
        invariant headed <= errors
        invariant errors == headed <==> forall k | 1 <= k < i :: PhaseOk(events[k], k)
      {
        errors := ExpectPhase(events[i], i, errors, source + " phase event " + Decimal(i));
      }
    }
    if |events| >= 4 {
      errors := ExpectResult(events[3], role, runId, errors, source + " final_result");
    }
  }

  // ---------- From the controller to the verifier ----------

  function View(e: ResultEvent): EventJson {
    match e
    case RunStarted(runId, role, _) => EventJson(Some("run_started"), Some(runId), Some(role), None, false, None)
    case PhaseEvent(runId, role, n, _) => EventJson(Some("phase_result"), Some(runId), Some(role), Some(n), true, None)
    case FinalEvent(runId, role, result) =>
      EventJson(Some("final_result"), Some(runId), Some(role), None, false,
                Some(ResultJson(result.success, result.finalState, result.role, result.runId)))
  }

  // A dumped event is one line, and parses back to its fields.
  ghost predicate Faithful(dump: ResultEvent -> string, parse: string -> Option<EventJson>) {
    forall e: ResultEvent :: PipeReading.IsLine(dump(e)) && parse(dump(e)) == Some(View(e))
  }

  function Dumped(dump: ResultEvent -> string, events: seq<ResultEvent>): seq<string> {
    seq(|events|, i requires 0 <= i < |events| => dump(events[i]))
  }

  lemma {:induction false} RenderedText(dump: ResultEvent -> string, events: seq<ResultEvent>)
    ensures PipeReading.Concat(Rendered(dump, events)) == PipeReading.Text(Dumped(dump, events))
  {
    if events != [] {
      var front, last := events[..|events| - 1], events[|events| - 1];
      RenderedText(dump, front);
      PipeReading.ConcatLast(Rendered(dump, front), dump(last) + "\n");
      var all := Dumped(dump, events);
      assert all[..|all| - 1] == Dumped(dump, front) && all[|all| - 1] == dump(last);
    }
  }

  // Whatever chunks the written lines arrive in, the reader ends up with
  // exactly the dumped events.
  lemma LinesArrive(dump: ResultEvent -> string, parse: string -> Option<EventJson>,
                    events: seq<ResultEvent>, chunks: seq<string>)
    requires Faithful(dump, parse)
    requires PipeReading.Concat(chunks) == PipeReading.Concat(Rendered(dump, events))
    ensures PipeReading.Flush(PipeReading.ConsumeAll(PipeReading.Reading([], ""), chunks)) == Dumped(dump, events)
  {
    hide PipeReading.Flush, PipeReading.ConsumeAll, PipeReading.Concat, PipeReading.EventLines, PipeReading.Pieces;
    hide PipeReading.Text, PipeReading.IsLine, Rendered;
    RenderedText(dump, events);
    PipeReading.SplitterIgnoresChunks(chunks);
    PipeReading.LinesComeBack(Dumped(dump, events));
  }

  // All four events are accepted exactly when the result is a finished success.
  lemma AcceptedIffSuccess(dump: ResultEvent -> string, parse: string -> Option<EventJson>,
                           config: Config, phase1: TestPhaseResult, phase2: TestPhaseResult,
                           result: TestRunResult, runId: string, role: string)
    requires Faithful(dump, parse) && result.runId == runId && result.role == role
    ensures Accepted(Dumped(dump, [RunStarted(runId, role, config), PhaseEvent(runId, role, 1, phase1),
                                   PhaseEvent(runId, role, 2, phase2), FinalEvent(runId, role, result)]),
                     parse, role, runId)
            <==> result.success && result.finalState == "FINISHED"
  {
    hide Faithful;
    var events := [RunStarted(runId, role, config), PhaseEvent(runId, role, 1, phase1),
                   PhaseEvent(runId, role, 2, phase2), FinalEvent(runId, role, result)];
    var lines := Dumped(dump, events);
    forall i | 0 <= i < 4
      ensures parse(lines[i]) == Some(View(events[i]))
    {
      ParsesBack(dump, parse, events[i]);
    }
    assert EventOk(parse(lines[0]), 0, role, runId);
    assert EventOk(parse(lines[1]), 1, role, runId);
    assert EventOk(parse(lines[2]), 2, role, runId);
    assert EventOk(parse(lines[3]), 3, role, runId) <==> result.success && result.finalState == "FINISHED";
  }

  lemma ParsesBack(dump: ResultEvent -> string, parse: string -> Option<EventJson>, e: ResultEvent)
    requires Faithful(dump, parse)
    ensures parse(dump(e)) == Some(View(e))
  {
  }

  // ---------- Exactly ----------

  // The events a verifier accepts: run_started, both phases and a successful
  // final result, all of this run and role. The phase number is read as a
  // 32-bit integer.
  ghost predicate Wanted(events: seq<ResultEvent>, role: string, runId: string) {
    && |events| == 4
    && events[0].RunStarted? && events[0].runId == runId && events[0].role == role
    && (forall i | 1 <= i <= 2 ::
          events[i].PhaseEvent? && events[i].runId == runId && events[i].role == role &&
          (events[i].phaseNumber - i) % 0x1_0000_0000 == 0)
    && events[3].FinalEvent? && events[3].runId == runId && events[3].role == role
    && var result := events[3].result;
       result.success && result.finalState == "FINISHED" && result.role == role && result.runId == runId
  }

  lemma CastIs(n: int, i: int)
    requires 0 <= i < 0x8000_0000
    ensures CastInt(n) == i <==> (n - i) % 0x1_0000_0000 == 0
  {
    var k := (n + 0x8000_0000) / 0x1_0000_0000;
    assert n == CastInt(n) + k * 0x1_0000_0000;
    if CastInt(n) == i {
      assert (n - i) % 0x1_0000_0000 == (k * 0x1_0000_0000) % 0x1_0000_0000;
    }
  }

  lemma EventExactly(e: ResultEvent, i: nat, role: string, runId: string)
    requires i < 4
    ensures EventOk(Some(View(e)), i, role, runId) <==>
              && e.runId == runId && e.role == role
              && (i == 0 ==> e.RunStarted?)
              && (1 <= i <= 2 ==> e.PhaseEvent? && (e.phaseNumber - i) % 0x1_0000_0000 == 0)
              && (i == 3 ==> e.FinalEvent? && e.result.success && e.result.finalState == "FINISHED" &&
                             e.result.role == role && e.result.runId == runId)
  {
    TypesDiffer();
    if e.PhaseEvent? {
      CastIs(e.phaseNumber, i);
    }
    hide CastInt;
  }

  lemma TypesDiffer()
    ensures "run_started" != "phase_result" && "phase_result" != "final_result" && "run_started" != "final_result"
  {
    assert "run_started"[0] != "phase_result"[0] && "phase_result"[0] != "final_result"[0];
    assert "run_started"[0] != "final_result"[0];
  }

  // Of any events whatever, exactly these are accepted: another run, role,
  // phase number, order or outcome is an error.
  lemma AcceptedExactly(dump: ResultEvent -> string, parse: string -> Option<EventJson>, events: seq<ResultEvent>,
                        role: string, runId: string)
    requires Faithful(dump, parse)
    ensures Accepted(Dumped(dump, events), parse, role, runId) <==> Wanted(events, role, runId)
  {
    hide Faithful, EventOk, View;
    var lines := Dumped(dump, events);
    if |events| == 4 {
      forall i | 0 <= i < 4
        ensures EventOk(parse(lines[i]), i, role, runId) == EventOk(Some(View(events[i])), i, role, runId)
      {
        ParsesBack(dump, parse, events[i]);
      }
      EventExactly(events[0], 0, role, runId);
      EventExactly(events[1], 1, role, runId);
      EventExactly(events[2], 2, role, runId);
      EventExactly(events[3], 3, role, runId);
    }
  }
}
