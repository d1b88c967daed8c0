// The result of a run: validation of the receive statistics and the verdict.
module Controller {
  import opened Protocol
  import opened TestTypes
  import TextSearch

  datatype State =
    | IDLE | INITIALIZING | CONNECTING | SENDING_CONFIG | WAITING_FOR_ACK
    | ACCEPTING | WAITING_FOR_CONFIG | RUNNING_TEST | FINISHING | EXCHANGING_STATS
    | WAITING_FOR_CLIENT_READY | RUNNING_SERVER_TEST | WAITING_FOR_SERVER_FIN
    | SERVER_TEST_FINISHING | EXCHANGING_SERVER_STATS | WAITING_FOR_SHUTDOWN_ACK
    | FINISHED | ERRORED

  function StateToString(state: State): string {
    match state
    case IDLE => "IDLE"
    case INITIALIZING => "INITIALIZING"
    case CONNECTING => "CONNECTING"
    case SENDING_CONFIG => "SENDING_CONFIG"
    case WAITING_FOR_ACK => "WAITING_FOR_ACK"
    case ACCEPTING => "ACCEPTING"
    case WAITING_FOR_CONFIG => "WAITING_FOR_CONFIG"
    case RUNNING_TEST => "RUNNING_TEST"
    case FINISHING => "FINISHING"
    case EXCHANGING_STATS => "EXCHANGING_STATS"
    case WAITING_FOR_CLIENT_READY => "WAITING_FOR_CLIENT_READY"
    case RUNNING_SERVER_TEST => "RUNNING_SERVER_TEST"
    case WAITING_FOR_SERVER_FIN => "WAITING_FOR_SERVER_FIN"
    case SERVER_TEST_FINISHING => "SERVER_TEST_FINISHING"
    case EXCHANGING_SERVER_STATS => "EXCHANGING_SERVER_STATS"
    case WAITING_FOR_SHUTDOWN_ACK => "WAITING_FOR_SHUTDOWN_ACK"
    case FINISHED => "FINISHED"
    case ERRORED => "ERRORED"
  }

  function RoleString(mode: TestMode): string {
    if mode.CLIENT? then "CLIENT" else "SERVER"
  }

  function Signed(n: int): string {
    if n < 0 then "-" + Decimal(-n) else Decimal(n)
  }

  function CombineReasons(left: string, right: string): string {
    if left == "" then right else if right == "" then left else left + "; " + right
  }

  function ReasonIf(broken: bool, text: string): string {
    if broken then text else ""
  }

  function ExpectedBytes(config: Config): int {
    if config.numPackets > 0 then config.packetSize * config.numPackets else 0
  }

  function ValidateReceiverStats(receiver: TestStats, config: Config): string {
    var expectedPackets, expectedBytes := config.numPackets, ExpectedBytes(config);
    var r1 := ReasonIf(expectedPackets > 0 && receiver.totalPacketsReceived != expectedPackets,
                       "Packet count mismatch (Rx: " + Signed(receiver.totalPacketsReceived)
                       + ", Exp: " + Signed(expectedPackets) + ")");
    var r2 := CombineReasons(r1, ReasonIf(expectedBytes > 0 && receiver.totalBytesReceived != expectedBytes,
                                          "Byte count mismatch (Rx: " + Signed(receiver.totalBytesReceived)
                                          + ", Exp: " + Signed(expectedBytes) + ")"));
    var r3 := CombineReasons(r2, ReasonIf(receiver.failedChecksumCount > 0,
                                          "Checksum errors detected (" + Signed(receiver.failedChecksumCount) + ")"));
    var r4 := CombineReasons(r3, ReasonIf(receiver.sequenceErrorCount > 0,
                                          "Sequence errors detected (" + Signed(receiver.sequenceErrorCount) + ")"));
    CombineReasons(r4, ReasonIf(receiver.contentMismatchCount > 0,
                                "Content mismatches detected (" + Signed(receiver.contentMismatchCount) + ")"))
  }

  // The reason as it is put together, check by check.
  method ValidateReceiver(receiver: TestStats, config: Config) returns (reason: string)
    ensures reason == ValidateReceiverStats(receiver, config)
  {
    hide Signed;
    reason := "";
    var expectedPackets := config.numPackets;
    var expectedBytes := 0;
    if expectedPackets > 0 {
      expectedBytes := config.packetSize * expectedPackets;
    }
    if expectedPackets > 0 && receiver.totalPacketsReceived != expectedPackets {
      reason := CombineReasons(reason, "Packet count mismatch (Rx: " + Signed(receiver.totalPacketsReceived)
                                       + ", Exp: " + Signed(expectedPackets) + ")");
    }
    if expectedBytes > 0 && receiver.totalBytesReceived != expectedBytes {
      reason := CombineReasons(reason, "Byte count mismatch (Rx: " + Signed(receiver.totalBytesReceived)
                                       + ", Exp: " + Signed(expectedBytes) + ")");
    }
    if receiver.failedChecksumCount > 0 {
      reason := CombineReasons(reason, "Checksum errors detected (" + Signed(receiver.failedChecksumCount) + ")");
    }
    if receiver.sequenceErrorCount > 0 {
      reason := CombineReasons(reason, "Sequence errors detected (" + Signed(receiver.sequenceErrorCount) + ")");
    }
    if receiver.contentMismatchCount > 0 {
      reason := CombineReasons(reason, "Content mismatches detected (" + Signed(receiver.contentMismatchCount) + ")");
    }
  }

  datatype TestPhaseResult = TestPhaseResult(
    phaseName: string,
    senderRole: string,
    receiverRole: string,
    senderStats: TestStats,
    receiverStats: TestStats,
    success: bool,
    failureReason: string)

  datatype TestRunResult = TestRunResult(
    runId: string,
    role: string,
    finalState: string,
    success: bool,
    failureReason: string,
    resultExportWarning: string,
    config: Config,
    phase1: TestPhaseResult,
    phase2: TestPhaseResult)

  function PhaseResult(name: string, sender: string, receiver: string, sent: TestStats, received: TestStats,
                       config: Config): TestPhaseResult
  {
    var reason := ValidateReceiverStats(received, config);
    TestPhaseResult(name, sender, receiver, sent, received, reason == "", reason)
  }

  // The four statistics a session has stored.
  datatype PhaseStats = PhaseStats(client1: TestStats, server1: TestStats, client2: TestStats, server2: TestStats)

  function BuildResult(state: State, config: Config, runId: string, warning: string, stats: PhaseStats,
                       failureReason: string): TestRunResult
  {
    var phase1 := PhaseResult("client_to_server", "CLIENT", "SERVER", stats.client1, stats.server1, config);
    var phase2 := PhaseResult("server_to_client", "SERVER", "CLIENT", stats.server2, stats.client2, config);
    var finished := state == FINISHED;
    var r1 := if finished then failureReason
        else CombineReasons(failureReason, "Final state is " + StateToString(state));
    var r2 := if phase1.success then r1 else CombineReasons(r1, "Phase 1 failed: " + phase1.failureReason);
    var r3 := if phase2.success then r2 else CombineReasons(r2, "Phase 2 failed: " + phase2.failureReason);
    TestRunResult(runId, RoleString(config.mode), StateToString(state), finished && phase1.success && phase2.success,
                  r3, warning, config, phase1, phase2)
  }

  // ---------- What the verdict means ----------

  // The receiver got what was asked for, undamaged; nothing is asked for when
  // the packet count is unlimited.
  ghost predicate Complete(receiver: TestStats, config: Config) {
    && (config.numPackets > 0 ==>
          && receiver.totalPacketsReceived == config.numPackets
          && receiver.totalBytesReceived == config.packetSize * config.numPackets)
    && receiver.failedChecksumCount <= 0 && receiver.sequenceErrorCount <= 0 && receiver.contentMismatchCount <= 0
  }

  lemma PositiveProduct(size: int, count: int)
    requires size > 0 && count > 0
    ensures size * count > 0
  {
  }

  lemma ReasonEmptyIffComplete(receiver: TestStats, config: Config)
    ensures ValidateReceiverStats(receiver, config) == "" <==> Complete(receiver, config)
  {
    hide Signed;
    if config.numPackets > 0 {
      PositiveProduct(config.packetSize, config.numPackets);
    }
  }

  // A run succeeds exactly when it finished and both receivers are complete,
  // and a run that does not succeed always says why.
  lemma VerdictMeaning(state: State, config: Config, runId: string, warning: string, stats: PhaseStats,
                       failureReason: string)
    ensures var r := BuildResult(state, config, runId, warning, stats, failureReason);
            && (r.success <==> state == FINISHED && Complete(stats.server1, config) && Complete(stats.client2, config))
            && (!r.success ==> r.failureReason != "")
            && (r.success ==> r.failureReason == failureReason)
  {
    ReasonEmptyIffComplete(stats.server1, config);
    ReasonEmptyIffComplete(stats.client2, config);
    hide ValidateReceiverStats, StateToString, Complete;
  }

  // ---------- What a result says ----------

  // Different numbers are printed differently, and so are different states.
  lemma SignedDiffers(n: int, m: int)
    requires n != m
    ensures Signed(n) != Signed(m)
  {
    SignedReads(n);
    SignedReads(m);
    hide Signed, Number;
  }

  // The first character tells the sign, and the digits the number.
  lemma SignedReads(n: int)
    ensures var s := Signed(n);
            && s != "" && (s[0] == '-' <==> n < 0)
            && (n < 0 ==> (forall i | 0 <= i < |s[1..]| :: IsDigit(s[1..][i])) && Number(s[1..]) == -n)
            && (n >= 0 ==> (forall i | 0 <= i < |s| :: IsDigit(s[i])) && Number(s) == n)
  {
    var digits := Decimal(if n < 0 then -n else n);
    DecimalReads(if n < 0 then -n else n);
    hide Decimal, Number;
    if n < 0 {
      assert Signed(n)[1..] == digits;
    } else {
      assert IsDigit(digits[0]);
    }
  }

  lemma StatesNamed(s: State, t: State)
    requires s != t
    ensures StateToString(s) != StateToString(t)
  {
  }

  // The texts of several checks, one after the other, "; " between them.
  function Joined(texts: seq<string>): string {
    if texts == [] then ""
    else if |texts| == 1 then texts[0]
    else texts[0] + "; " + Joined(texts[1..])
  }

  function Given(texts: seq<string>): seq<string> {
    if texts == [] then []
    else (if texts[0] == "" then [] else [texts[0]]) + Given(texts[1..])
  }

  // Combining in turn joins the texts that say something.
  lemma {:induction false} CombineJoins(left: string, right: string, later: seq<string>)
    ensures Joined(Given([left, right] + later)) == Joined(Given([CombineReasons(left, right)] + later))
  {
    var all, combined := [left, right] + later, [CombineReasons(left, right)] + later;
    assert all[1..] == [right] + later && ([right] + later)[1..] == later && combined[1..] == later;
    assert Given(all) == (if left == "" then [] else [left]) + ((if right == "" then [] else [right]) + Given(later));
    assert Given(combined) == (if CombineReasons(left, right) == "" then [] else [CombineReasons(left, right)])
                              + Given(later);
    if left != "" && right != "" {
      var texts := [left, right] + Given(later);
      assert texts[1..] == [right] + Given(later);
      assert Given(all) == texts && Given(combined) == [left + "; " + right] + Given(later);
      JoinedFront(left, right, Given(later));
    } else {
      assert Given(all) == Given(combined);
    }
  }

  lemma FourJoined(t1: string, t2: string, t3: string, t4: string)
    ensures CombineReasons(CombineReasons(CombineReasons(t1, t2), t3), t4) == Joined(Given([t1, t2, t3, t4]))
  {
    hide CombineReasons, Joined, Given;
    var r2 := CombineReasons(t1, t2);
    var r3 := CombineReasons(r2, t3);
    assert [t1, t2] + [t3, t4] == [t1, t2, t3, t4] && [r2, t3] + [t4] == [r2] + [t3, t4] == [r2, t3, t4];
    assert [r3, t4] + [] == [r3] + [t4] == [r3, t4] && [CombineReasons(r3, t4)] + [] == [CombineReasons(r3, t4)];
    CombineJoins(t1, t2, [t3, t4]);
    CombineJoins(r2, t3, [t4]);
    CombineJoins(r3, t4, []);
    OneJoined(CombineReasons(r3, t4));
  }

  lemma OneJoined(t: string)
    ensures Joined(Given([t])) == t
  {
    assert Given([t][1..]) == [];
  }

  lemma FiveJoined(t1: string, t2: string, t3: string, t4: string, t5: string)
    ensures CombineReasons(CombineReasons(CombineReasons(CombineReasons(t1, t2), t3), t4), t5)
         == Joined(Given([t1, t2, t3, t4, t5]))
  {
    hide CombineReasons, Joined, Given;
    FourJoined(CombineReasons(t1, t2), t3, t4, t5);
    assert [t1, t2] + [t3, t4, t5] == [t1, t2, t3, t4, t5];
    assert [CombineReasons(t1, t2)] + [t3, t4, t5] == [CombineReasons(t1, t2), t3, t4, t5];
    CombineJoins(t1, t2, [t3, t4, t5]);
  }

  // The reason is the texts of the checks that fail, in their order.
  lemma ReasonListed(receiver: TestStats, config: Config)
    ensures ValidateReceiverStats(receiver, config) == Joined(Given([
              ReasonIf(config.numPackets > 0 && receiver.totalPacketsReceived != config.numPackets,
                       "Packet count mismatch (Rx: " + Signed(receiver.totalPacketsReceived)
                       + ", Exp: " + Signed(config.numPackets) + ")"),
              ReasonIf(ExpectedBytes(config) > 0 && receiver.totalBytesReceived != ExpectedBytes(config),
                       "Byte count mismatch (Rx: " + Signed(receiver.totalBytesReceived)
                       + ", Exp: " + Signed(ExpectedBytes(config)) + ")"),
              ReasonIf(receiver.failedChecksumCount > 0,
                       "Checksum errors detected (" + Signed(receiver.failedChecksumCount) + ")"),
              ReasonIf(receiver.sequenceErrorCount > 0,
                       "Sequence errors detected (" + Signed(receiver.sequenceErrorCount) + ")"),
              ReasonIf(receiver.contentMismatchCount > 0,
                       "Content mismatches detected (" + Signed(receiver.contentMismatchCount) + ")")]))
  {
    hide Signed, Joined, Given, CombineReasons;
    FiveJoined(ReasonIf(config.numPackets > 0 && receiver.totalPacketsReceived != config.numPackets,
                        "Packet count mismatch (Rx: " + Signed(receiver.totalPacketsReceived)
                        + ", Exp: " + Signed(config.numPackets) + ")"),
               ReasonIf(ExpectedBytes(config) > 0 && receiver.totalBytesReceived != ExpectedBytes(config),
                        "Byte count mismatch (Rx: " + Signed(receiver.totalBytesReceived)
                        + ", Exp: " + Signed(ExpectedBytes(config)) + ")"),
               ReasonIf(receiver.failedChecksumCount > 0,
                        "Checksum errors detected (" + Signed(receiver.failedChecksumCount) + ")"),
               ReasonIf(receiver.sequenceErrorCount > 0,
                        "Sequence errors detected (" + Signed(receiver.sequenceErrorCount) + ")"),
               ReasonIf(receiver.contentMismatchCount > 0,
                        "Content mismatches detected (" + Signed(receiver.contentMismatchCount) + ")"));
  }

  // A result's reason is the caller's text, the state when it is not FINISHED,
  // and the reasons of the phases that failed, in this order.
  lemma ReasonsInOrder(state: State, config: Config, runId: string, warning: string, stats: PhaseStats,
                       failureReason: string)
    ensures var r := BuildResult(state, config, runId, warning, stats, failureReason);
            r.failureReason == Joined(Given([
              failureReason,
              ReasonIf(state != FINISHED, "Final state is " + StateToString(state)),
              ReasonIf(!r.phase1.success, "Phase 1 failed: " + r.phase1.failureReason),
              ReasonIf(!r.phase2.success, "Phase 2 failed: " + r.phase2.failureReason)]))
  {
    hide ValidateReceiverStats, StateToString, Joined, Given;
    var r := BuildResult(state, config, runId, warning, stats, failureReason);
    FourJoined(failureReason, ReasonIf(state != FINISHED, "Final state is " + StateToString(state)),
               ReasonIf(!r.phase1.success, "Phase 1 failed: " + r.phase1.failureReason),
               ReasonIf(!r.phase2.success, "Phase 2 failed: " + r.phase2.failureReason));
  }

  lemma JoinedFront(left: string, right: string, later: seq<string>)
    ensures Joined([left, right] + later) == Joined([left + "; " + right] + later)
  {
    var two, one := [left, right] + later, [left + "; " + right] + later;
    assert two[1..] == [right] + later && two[1..][1..] == later && one[1..] == later;
    if later != [] {
      assert Joined(two) == left + "; " + (right + "; " + Joined(later));
      assert Joined(one) == left + "; " + right + "; " + Joined(later);
      assert left + "; " + (right + "; " + Joined(later)) == left + "; " + right + "; " + Joined(later);
    }
  }

  ghost predicate Contains(s: string, t: string) {
    exists i :: TextSearch.At(s, t, i)
  }

  lemma ContainsLeft(left: string, right: string, t: string)
    requires Contains(left, t)
    ensures Contains(CombineReasons(left, right), t)
  {
    var i :| TextSearch.At(left, t, i);
    var all := CombineReasons(left, right);
    assert left <= all && all[i..i + |t|] == left[i..i + |t|];
    assert TextSearch.At(all, t, i);
  }

  lemma ContainsRight(left: string, right: string)
    ensures Contains(CombineReasons(left, right), right)
  {
    var all := CombineReasons(left, right);
    var i := |all| - |right|;
    assert all[i..i + |right|] == right;
    assert TextSearch.At(all, right, i);
  }

  // Each check that fails is named, with the numbers it compared.
  lemma ReasonNames(receiver: TestStats, config: Config)
    ensures var reason := ValidateReceiverStats(receiver, config);
            && (config.numPackets > 0 && receiver.totalPacketsReceived != config.numPackets ==>
                  Contains(reason, "Packet count mismatch (Rx: " + Signed(receiver.totalPacketsReceived)
                                   + ", Exp: " + Signed(config.numPackets) + ")"))
            && (config.numPackets > 0 && receiver.totalBytesReceived != config.packetSize * config.numPackets ==>
                  Contains(reason, "Byte count mismatch (Rx: " + Signed(receiver.totalBytesReceived)
                                   + ", Exp: " + Signed(config.packetSize * config.numPackets) + ")"))
            && (receiver.failedChecksumCount > 0 ==>
                  Contains(reason, "Checksum errors detected (" + Signed(receiver.failedChecksumCount) + ")"))
            && (receiver.sequenceErrorCount > 0 ==>
                  Contains(reason, "Sequence errors detected (" + Signed(receiver.sequenceErrorCount) + ")"))
            && (receiver.contentMismatchCount > 0 ==>
                  Contains(reason, "Content mismatches detected (" + Signed(receiver.contentMismatchCount) + ")"))
  {
    hide Signed, Contains, CombineReasons;
    if config.numPackets > 0 {
      PositiveProduct(config.packetSize, config.numPackets);
    }
    var t1 := ReasonIf(config.numPackets > 0 && receiver.totalPacketsReceived != config.numPackets,
                       "Packet count mismatch (Rx: " + Signed(receiver.totalPacketsReceived)
                       + ", Exp: " + Signed(config.numPackets) + ")");
    var t2 := ReasonIf(ExpectedBytes(config) > 0 && receiver.totalBytesReceived != ExpectedBytes(config),
                       "Byte count mismatch (Rx: " + Signed(receiver.totalBytesReceived)
                       + ", Exp: " + Signed(ExpectedBytes(config)) + ")");
    var t3 := ReasonIf(receiver.failedChecksumCount > 0,
                       "Checksum errors detected (" + Signed(receiver.failedChecksumCount) + ")");
    var t4 := ReasonIf(receiver.sequenceErrorCount > 0,
                       "Sequence errors detected (" + Signed(receiver.sequenceErrorCount) + ")");
    var t5 := ReasonIf(receiver.contentMismatchCount > 0,
                       "Content mismatches detected (" + Signed(receiver.contentMismatchCount) + ")");
    FiveReasons(t1, t2, t3, t4, t5);
  }

  lemma FiveReasons(t1: string, t2: string, t3: string, t4: string, t5: string)
    ensures var all := CombineReasons(CombineReasons(CombineReasons(CombineReasons(t1, t2), t3), t4), t5);
            Contains(all, t1) && Contains(all, t2) && Contains(all, t3) && Contains(all, t4) && Contains(all, t5)
  {
    hide Contains, CombineReasons;
    var r2 := CombineReasons(t1, t2);
    var r3 := CombineReasons(r2, t3);
    var r4 := CombineReasons(r3, t4);
    assert Contains(t1, t1) by { ContainsRight("", t1); Alone(t1); }
    ContainsRight(t1, t2);
    ContainsRight(r2, t3);
    ContainsRight(r3, t4);
    ContainsRight(r4, t5);
    ContainsLeft(t1, t2, t1);
    ContainsLeft(r2, t3, t1);
    ContainsLeft(r2, t3, t2);
    ContainsLeft(r3, t4, t1);
    ContainsLeft(r3, t4, t2);
    ContainsLeft(r3, t4, t3);
    ContainsLeft(r4, t5, t1);
    ContainsLeft(r4, t5, t2);
    ContainsLeft(r4, t5, t3);
    ContainsLeft(r4, t5, t4);
  }

  lemma Alone(t: string)
    ensures CombineReasons("", t) == t
  {
  }

  // The text given by the caller comes first, and phases that fail follow with
  // their own reasons.
  lemma ResultCarries(state: State, config: Config, runId: string, warning: string, stats: PhaseStats,
                      failureReason: string)
    ensures var r := BuildResult(state, config, runId, warning, stats, failureReason);
            && r.runId == runId && r.resultExportWarning == warning && r.config == config
            && r.finalState == StateToString(state)
            && r.phase1.senderStats == stats.client1 && r.phase1.receiverStats == stats.server1
            && r.phase2.senderStats == stats.server2 && r.phase2.receiverStats == stats.client2
            && failureReason <= r.failureReason
            && (!r.phase1.success ==> r.phase1.failureReason != "" && Contains(r.failureReason, r.phase1.failureReason))
            && (!r.phase2.success ==> r.phase2.failureReason != "" && Contains(r.failureReason, r.phase2.failureReason))
            && (state != FINISHED ==> Contains(r.failureReason, "Final state is " + StateToString(state)))
  {
    hide ValidateReceiverStats, StateToString, Contains, CombineReasons;
    var r := BuildResult(state, config, runId, warning, stats, failureReason);
    var s := "Final state is " + StateToString(state);
    var r1 := if state == FINISHED then failureReason else CombineReasons(failureReason, s);
    var t1, t2 := "Phase 1 failed: " + r.phase1.failureReason, "Phase 2 failed: " + r.phase2.failureReason;
    var r2 := if r.phase1.success then r1 else CombineReasons(r1, t1);
    FrontKept(failureReason, s);
    FrontKept(r1, t1);
    FrontKept(r2, t2);
    ContainsRight(failureReason, s);
    if !r.phase1.success {
      CombinedContains(r1, "Phase 1 failed: ", r.phase1.failureReason);
      if state != FINISHED {
        ContainsLeft(r1, t1, s);
      }
    }
    if !r.phase2.success {
      CombinedContains(r2, "Phase 2 failed: ", r.phase2.failureReason);
      if !r.phase1.success {
        ContainsLeft(r2, t2, r.phase1.failureReason);
      }
      if state != FINISHED {
        ContainsLeft(r2, t2, s);
      }
    }
  }

  lemma FrontKept(left: string, right: string)
    ensures left <= CombineReasons(left, right)
  {
  }

  lemma CombinedContains(left: string, prefix: string, t: string)
    ensures Contains(CombineReasons(left, prefix + t), t)
  {
    var whole := prefix + t;
    var all := CombineReasons(left, whole);
    var i := |all| - |t|;
    assert all[|all| - |whole|..] == whole;
    assert all[i..i + |t|] == whole[|prefix|..] == t;
    assert TextSearch.At(all, t, i);
  }
}
