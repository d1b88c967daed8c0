// TestRunner reads the exported result and forms its own verdict.
module TestRunner {
  import opened Protocol
  import opened TestTypes
  import opened Controller
  import opened Wrappers
  import TextSearch

  datatype TestResult = TestResult(
    role: string,
    totalBytes: int,
    totalPackets: int,
    expectedBytes: int,
    expectedPackets: int,
    sequenceErrors: int,
    checksumErrors: int,
    contentMismatches: int,
    failureReason: string,
    success: bool)

  function NewResult(role: string): TestResult {
    TestResult(role, 0, 0, 0, 0, 0, 0, 0, "", false)
  }

  function FillFromStats(stats: TestStats, preferSent: bool, result: TestResult): TestResult {
    result.(
      totalBytes := if preferSent then stats.totalBytesSent else stats.totalBytesReceived,
      totalPackets := if preferSent then stats.totalPacketsSent else stats.totalPacketsReceived,
      sequenceErrors := stats.sequenceErrorCount,
      checksumErrors := stats.failedChecksumCount,
      contentMismatches := stats.contentMismatchCount)
  }

  // root is the parsed result JSON; None stands for the error returns.
  function ParseResultFile(configRunId: string, role: string, root: TestRunResult): Option<TestResult> {
    if configRunId == "" || root.runId != configRunId then None
    else
      var filled :=
        if role == "Client" then
          if root.phase2.receiverRole == "CLIENT"
          then FillFromStats(root.phase2.receiverStats, false, NewResult(role))
          else FillFromStats(root.phase1.senderStats, true, NewResult(role))
        else
          if root.phase1.receiverRole == "SERVER"
          then FillFromStats(root.phase1.receiverStats, false, NewResult(role))
          else FillFromStats(root.phase2.senderStats, true, NewResult(role));
      var reason :=
        if root.resultExportWarning == "" then root.failureReason
        else (if root.failureReason == "" then "" else root.failureReason + "; ")
             + "Result export warning: " + root.resultExportWarning;
      Some(filled.(success := root.success, failureReason := reason))
  }

  // What AnalyzeTestResult appends to the reason, check by check.
  function FaultTexts(r: TestResult, expectedPackets: int, expectedBytes: int): (texts: seq<string>)
    ensures |texts| == 7
  {
    [ReasonIf(!r.success && r.failureReason != "", r.failureReason + "; "),
     ReasonIf(expectedPackets > 0 && r.totalPackets != expectedPackets,
              "Packet count mismatch (Rx: " + Signed(r.totalPackets) + ", Exp: " + Signed(expectedPackets) + "); "),
     ReasonIf(expectedBytes > 0 && r.totalBytes != expectedBytes,
              "Byte count mismatch (Rx: " + Signed(r.totalBytes) + ", Exp: " + Signed(expectedBytes) + "); "),
     ReasonIf(r.totalPackets <= 0, "No packets parsed from IPEFTC output; "),
     ReasonIf(r.sequenceErrors > 0, "Sequence errors detected (" + Signed(r.sequenceErrors) + "); "),
     ReasonIf(r.checksumErrors > 0, "Checksum errors detected (" + Signed(r.checksumErrors) + "); "),
     ReasonIf(r.contentMismatches > 0, "Content mismatches detected (" + Signed(r.contentMismatches) + "); ")]
  }

  function Faults(r: TestResult, expectedPackets: int, expectedBytes: int): string {
    var t := FaultTexts(r, expectedPackets, expectedBytes);
    t[0] + t[1] + t[2] + t[3] + t[4] + t[5] + t[6]
  }

  function Analyzed(r: TestResult, expectedPackets: int, expectedBytes: int): TestResult {
    var passed :=
      && (r.success || r.failureReason == "")
      && (expectedPackets > 0 ==> r.totalPackets == expectedPackets)
      && (expectedBytes > 0 ==> r.totalBytes == expectedBytes)
      && r.totalPackets > 0 && r.sequenceErrors <= 0 && r.checksumErrors <= 0 && r.contentMismatches <= 0;
    var reason := Faults(r, expectedPackets, expectedBytes);
    r.(expectedPackets := expectedPackets, expectedBytes := expectedBytes, success := passed,
       failureReason := if passed && reason == "" then "Test passed successfully" else reason)
  }

  // One check: it clears the pass flag and adds to the reason together.
  method Check(broken: bool, text: string, passed: bool, reason: string) returns (stillPassed: bool, longer: string)
    ensures stillPassed == (passed && !broken) && longer == reason + ReasonIf(broken, text)
  {
    stillPassed, longer := passed, reason;
    if broken {
      stillPassed, longer := false, reason + text;
    } else {
      assert reason + "" == reason;
    }
  }

  method AnalyzeTestResult(r: TestResult, expectedPackets: int, expectedBytes: int) returns (result: TestResult)
    ensures result == Analyzed(r, expectedPackets, expectedBytes)
  {
    hide Signed, ReasonIf;
    var passed, reason := Check(!r.success && r.failureReason != "", r.failureReason + "; ", true, "");
    assert reason == FaultTexts(r, expectedPackets, expectedBytes)[0];
    passed, reason := Check(expectedPackets > 0 && r.totalPackets != expectedPackets,
      "Packet count mismatch (Rx: " + Signed(r.totalPackets) + ", Exp: " + Signed(expectedPackets) + "); ",
      passed, reason);
    passed, reason := Check(expectedBytes > 0 && r.totalBytes != expectedBytes,
      "Byte count mismatch (Rx: " + Signed(r.totalBytes) + ", Exp: " + Signed(expectedBytes) + "); ", passed, reason);
    passed, reason := Check(r.totalPackets <= 0, "No packets parsed from IPEFTC output; ", passed, reason);
    passed, reason := Check(r.sequenceErrors > 0,
      "Sequence errors detected (" + Signed(r.sequenceErrors) + "); ", passed, reason);
    passed, reason := Check(r.checksumErrors > 0,
      "Checksum errors detected (" + Signed(r.checksumErrors) + "); ", passed, reason);
    passed, reason := Check(r.contentMismatches > 0,
      "Content mismatches detected (" + Signed(r.contentMismatches) + "); ", passed, reason);
    result := r.(expectedPackets := expectedPackets, expectedBytes := expectedBytes,
                 success := passed, failureReason := reason);
    if passed && reason == "" {
      result := result.(failureReason := "Test passed successfully");
    }
  }

  // Empty, or ending in the blank after a semicolon.
  ghost predicate Piece(s: string) {
    s == "" || s[|s| - 1] == ' '
  }

  lemma PiecesAppended(a: string, b: string, c: string, d: string, e: string, f: string, g: string)
    requires Piece(a) && Piece(b) && Piece(c) && Piece(d) && Piece(e) && Piece(f) && Piece(g)
    ensures Piece(a + b + c + d + e + f + g)
    ensures a + b + c + d + e + f + g == "" <==> a == b == c == d == e == f == g == ""
  {
  }

  lemma FaultsFlagged(r: TestResult, expectedPackets: int, expectedBytes: int)
    ensures var texts := FaultTexts(r, expectedPackets, expectedBytes);
            && (forall i | 0 <= i < 7 :: Piece(texts[i]))
            && (Analyzed(r, expectedPackets, expectedBytes).success <==> forall i | 0 <= i < 7 :: texts[i] == "")
  {
    hide Signed, Faults;
    var t := FaultTexts(r, expectedPackets, expectedBytes);
    if !Analyzed(r, expectedPackets, expectedBytes).success {
      assert t[0] != "" || t[1] != "" || t[2] != "" || t[3] != "" || t[4] != "" || t[5] != "" || t[6] != "";
    }
  }

  // The reason text and the pass flag are accumulated side by side and always
  // agree; the success text is never one of the fault texts.
  lemma PassedIffNoFaults(r: TestResult, expectedPackets: int, expectedBytes: int)
    ensures var out := Analyzed(r, expectedPackets, expectedBytes);
            && (out.success <==> Faults(r, expectedPackets, expectedBytes) == "")
            && (out.success <==> out.failureReason == "Test passed successfully")
  {
    FaultsFlagged(r, expectedPackets, expectedBytes);
    hide FaultTexts;
    var t := FaultTexts(r, expectedPackets, expectedBytes);
    PiecesAppended(t[0], t[1], t[2], t[3], t[4], t[5], t[6]);
  }

  // Either role reads the receiving side of its own phase.
  lemma ParsedFields(runId: string, role: string, result: TestRunResult)
    requires runId != "" && result.runId == runId
    requires result.phase1.receiverRole == "SERVER" && result.phase2.receiverRole == "CLIENT"
    ensures var parsed := ParseResultFile(runId, role, result);
            var received := if role == "Client" then result.phase2.receiverStats else result.phase1.receiverStats;
            && parsed.Some? && parsed.value.success == result.success
            && (result.failureReason != "" ==> parsed.value.failureReason != "")
            && parsed.value.totalBytes == received.totalBytesReceived
            && parsed.value.totalPackets == received.totalPacketsReceived
            && parsed.value.sequenceErrors == received.sequenceErrorCount
            && parsed.value.checksumErrors == received.failedChecksumCount
            && parsed.value.contentMismatches == received.contentMismatchCount
  {
  }

  // A result is read exactly when it is of the expected run; a role whose phase
  // names another receiver falls back to what it sent in the other phase; and
  // reasons and warnings are carried over.
  lemma ParsedExactly(runId: string, role: string, root: TestRunResult)
    ensures var parsed := ParseResultFile(runId, role, root);
            && (parsed.Some? <==> runId != "" && root.runId == runId)
            && (parsed.Some? ==>
                  var (own, other, receiver) :=
                    if role == "Client" then (root.phase2.receiverStats, root.phase1.senderStats,
                                              root.phase2.receiverRole == "CLIENT")
                    else (root.phase1.receiverStats, root.phase2.senderStats, root.phase1.receiverRole == "SERVER");
                  var r := parsed.value;
                  && r.role == role && r.success == root.success
                  && r.totalBytes == (if receiver then own.totalBytesReceived else other.totalBytesSent)
                  && r.totalPackets == (if receiver then own.totalPacketsReceived else other.totalPacketsSent)
                  && r.sequenceErrors == (if receiver then own else other).sequenceErrorCount
                  && r.checksumErrors == (if receiver then own else other).failedChecksumCount
                  && r.contentMismatches == (if receiver then own else other).contentMismatchCount
                  && Contains(r.failureReason, root.failureReason)
                  && (root.resultExportWarning != "" ==> Contains(r.failureReason, root.resultExportWarning))
                  && (r.failureReason == "" <==> root.failureReason == "" && root.resultExportWarning == ""))
  {
    var front := if root.failureReason == "" then "" else root.failureReason + "; ";
    var whole := front + "Result export warning: " + root.resultExportWarning;
    InFront(root.failureReason, "");
    InFront(root.failureReason, whole[|root.failureReason|..]);
    Behind(front + "Result export warning: ", root.resultExportWarning);
    assert root.failureReason + "" == root.failureReason;
    assert root.failureReason + whole[|root.failureReason|..] == whole;
    hide Contains;
  }

  lemma InFront(a: string, b: string)
    ensures Contains(a + b, a)
  {
    assert (a + b)[0..0 + |a|] == a;
    assert TextSearch.At(a + b, a, 0);
  }

  lemma Behind(a: string, b: string)
    ensures Contains(a + b, b)
  {
    assert (a + b)[|a|..|a| + |b|] == b;
    assert TextSearch.At(a + b, b, |a|);
  }

  // What a role has received.
  function OwnStats(role: string, stats: PhaseStats): TestStats {
    if role == "Client" then stats.client2 else stats.server1
  }

  // For either role TestRunner, expecting the configuration that was run,
  // reports success exactly when the run did and the role has received a
  // packet. With a packet count the run alone decides.
  lemma SameVerdict(state: State, config: Config, runId: string, warning: string, stats: PhaseStats,
                    failureReason: string, role: string)
    requires runId != ""
    ensures var result := BuildResult(state, config, runId, warning, stats, failureReason);
            var parsed := ParseResultFile(runId, role, result);
            parsed.Some? &&
            var passed := Analyzed(parsed.value, config.numPackets, config.packetSize * config.numPackets).success;
            && (passed <==> result.success && OwnStats(role, stats).totalPacketsReceived > 0)
            && (config.numPackets > 0 ==> (passed <==> result.success))
  {
    hide ValidateReceiverStats, StateToString, Faults, CombineReasons, ParseResultFile;
    VerdictMeaning(state, config, runId, warning, stats, failureReason);
    if config.numPackets > 0 {
      PositiveProduct(config.packetSize, config.numPackets);
    }
    ParsedFields(runId, role, BuildResult(state, config, runId, warning, stats, failureReason));
    hide BuildResult, PhaseResult;
  }
}
