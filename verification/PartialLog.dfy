// A log that holds one phase summary, or none: the fallback then reads what the
// role has sent in the other phase, or reports that there is nothing to read.
module PartialLog {
  import opened Protocol
  import opened TestTypes
  import opened Wrappers
  import opened TextSearch
  import opened TestRunner
  import opened OutputParser
  import Controller

  const SENT_TAG := " (sent):"

  ghost predicate Opposite(side: string, other: string) {
    (side == ClientMarker() && other == ServerMarker()) || (side == ServerMarker() && other == ClientMarker())
  }

  // ---------- The sending block ----------

  function SentBlock(side: string, s: TestStats, duration: string, throughput: string, gap: string): string {
    side + Tagged(SENT_TAG, StatsLines(s, duration, throughput), gap, " ")
  }

  lemma LabelFree(side: string, m: string, c: char)
    requires IsSide(side) && c in m && c !in ClientMarker() && c !in ServerMarker() && c !in SENT_TAG
    ensures Free(side + SENT_TAG, m)
  {
    hide ClientMarker, ServerMarker, Free;
    FreeByChar(side + SENT_TAG, m, c);
  }

  lemma LabelWithoutSentKeys(side: string)
    requires IsSide(side)
    ensures Free(side + SENT_TAG, Key("Total Bytes Sent")) && Free(side + SENT_TAG, Key("Total Packets Sent"))
  {
    hide Free, IsSide;
    LabelFree(side, Key("Total Bytes Sent"), 'B');
    LabelFree(side, Key("Total Packets Sent"), 'P');
  }

  lemma LabelWithoutErrorKeys(side: string)
    requires IsSide(side)
    ensures Free(side + SENT_TAG, Key("Sequence Errors")) && Free(side + SENT_TAG, Key("Failed Checksums"))
    ensures Free(side + SENT_TAG, Key("Content Mismatches"))
  {
    hide Free, IsSide;
    LabelFree(side, Key("Sequence Errors"), 'q');
    LabelFree(side, Key("Failed Checksums"), 'F');
    LabelFree(side, Key("Content Mismatches"), 'M');
  }

  lemma SentNames()
    ensures FieldName("Total Bytes Sent") && FieldName("Total Packets Sent") && Blank(Pad(5)) && Blank(Pad(3))
  {
  }

  lemma BytesLineFree(n: nat)
    ensures Free(Line("Total Bytes Sent", Pad(5), Controller.Signed(n)), Key("Total Packets Sent"))
  {
    hide Free, Line, Controller.Signed;
    LineFree("Total Bytes Sent", Pad(5), n, Key("Total Packets Sent"), 'P');
  }

  lemma SentLines(s: TestStats, duration: string, throughput: string)
    requires NonNegative(s)
    ensures var lines := StatsLines(s, duration, throughput);
            && |lines| == 9
            && lines[0] == Line("Total Bytes Sent", Pad(5), Controller.Signed(s.totalBytesSent))
            && lines[1] == Line("Total Packets Sent", Pad(3), Controller.Signed(s.totalPacketsSent))
            && Free(lines[0], Key("Total Packets Sent"))
  {
    assert |Totals(s)| == 4 && |Times(duration, throughput)| == 2 && |Errors(s)| == 3;
    hide Times, Errors, Free, Line, Controller.Signed, Pad, Blank;
    BytesLineFree(s.totalBytesSent);
  }

  lemma SentTotals(side: string, s: TestStats, duration: string, throughput: string, gap: string)
    requires IsSide(side) && NonNegative(s)
    ensures var block := SentBlock(side, s, duration, throughput, gap);
            && ExtractLongLong(block, "Total Bytes Sent") == Some(s.totalBytesSent)
            && ExtractLongLong(block, "Total Packets Sent") == Some(s.totalPacketsSent)
  {
    hide StatsLines, Free, Line, Controller.Signed, Pad, Blank, Tagged, ExtractLongLong, IsSide, Key, FieldName;
    SentNames();
    LabelWithoutSentKeys(side);
    SentLines(s, duration, throughput);
    var lines := StatsLines(s, duration, throughput);
    FieldRead(side, SENT_TAG, lines, 0, "Total Bytes Sent", Pad(5), s.totalBytesSent, gap);
    FieldRead(side, SENT_TAG, lines, 1, "Total Packets Sent", Pad(3), s.totalPacketsSent, gap);
  }

  lemma SentErrors(side: string, s: TestStats, duration: string, throughput: string, gap: string)
    requires IsSide(side) && NonNegative(s) && Plain(duration) && Plain(throughput)
    ensures var block := SentBlock(side, s, duration, throughput, gap);
            && ExtractLongLong(block, "Sequence Errors") == Some(s.sequenceErrorCount)
            && ExtractLongLong(block, "Failed Checksums") == Some(s.failedChecksumCount)
            && ExtractLongLong(block, "Content Mismatches") == Some(s.contentMismatchCount)
  {
    hide StatsLines, Free, Line, Controller.Signed, Pad, Blank, Tagged, ExtractLongLong, Plain, IsSide, Key,
        FieldName;
    ErrorNames();
    LabelWithoutErrorKeys(side);
    ErrorKeysBefore(s, duration, throughput);
    LinesInPlace(s, duration, throughput);
    var lines := StatsLines(s, duration, throughput);
    FieldRead(side, SENT_TAG, lines, 6, "Sequence Errors", Pad(6), s.sequenceErrorCount, gap);
    FieldRead(side, SENT_TAG, lines, 7, "Failed Checksums", Pad(5), s.failedChecksumCount, gap);
    FieldRead(side, SENT_TAG, lines, 8, "Content Mismatches", Pad(3), s.contentMismatchCount, gap);
  }

  // ---------- Cutting it out ----------

  // What follows the name of the sending side in its phase.
  function AfterSide(sent: seq<string>, other: string, received: seq<string>, gaps: seq<string>, later: string): string
    requires |gaps| == 4
  {
    Tagged(SENT_TAG, sent, gaps[2], " " + (other + Received(received, gaps[3], Ending(later))))
  }

  // It begins right after the gap before its message.
  lemma SideFound(title: string, side: string, sent: seq<string>, other: string, received: seq<string>,
                  gaps: seq<string>, later: string)
    requires |gaps| == 4 && Separable(side) && Free(title + " ---", side) && Free(gaps[1], side)
    ensures Onward(FromTitle(title, side + " (sent)", sent, other, received, gaps, later), side)
         == Some(side + AfterSide(sent, other, received, gaps, later))
  {
    hide Onward, Free, Chain, Received, Ending;
    var s := AfterSide(sent, other, received, gaps, later);
    var inner := Chain(sent, Sep(gaps[2], ']', " " + (other + Received(received, gaps[3], Ending(later)))));
    SentShape(side, inner);
    assert At(side + s, side, 0);
    OnwardPrefix(" ", side + s, side);
    hide Sep, Separable, At;
    OnwardSep(gaps[1], ']', " " + (side + s), side);
    OnwardSep(title + " ---", '\n', Sep(gaps[1], ']', " " + (side + s)), side);
  }

  lemma SentShape(side: string, z: string)
    ensures Sep(" " + (side + " (sent)") + ":", '\n', z) == " " + (side + Sep(SENT_TAG, '\n', z))
  {
    assert " " + (side + " (sent)") + ":" + ['\n'] + z == " " + (side + (SENT_TAG + ['\n'] + z));
  }

  // It ends where the receiving side is named.
  lemma SideEnds(side: string, sent: seq<string>, other: string, received: seq<string>, gaps: seq<string>,
                 later: string)
    requires |gaps| == 4 && Opposite(side, other)
    requires forall m | IsMarker(m) && m != PhaseMarker() ::
               Free(SENT_TAG, m) && AllFree(sent, m) && Free(gaps[2], m)
    ensures var s, block := AfterSide(sent, other, received, gaps, later), Tagged(SENT_TAG, sent, gaps[2], " ");
            && Upto(s, other) == block
            && |Upto(s, ClientMarker())| >= |block| && |Upto(s, ServerMarker())| >= |block|
            && |Upto(s, EndMarker())| >= |block|
  {
    MarkersSeparable();
    MarkersDiffer();
    hide ClientMarker, ServerMarker, EndMarker, PhaseMarker, Upto, Tagged, Free, AllFree, Ending;
    var z := other + Received(received, gaps[3], Ending(later));
    assert At(z, other, 0);
    OnwardPrefix(" ", z, other);
    UptoBlank(z, side);
    UptoBlank(z, EndMarker());
    hide Separable, Received;
    UptoTagged(SENT_TAG, sent, gaps[2], " " + z, other);
    UptoTagged(SENT_TAG, sent, gaps[2], " " + z, side);
    UptoTagged(SENT_TAG, sent, gaps[2], " " + z, EndMarker());
    TaggedLonger(SENT_TAG, sent, gaps[2], Upto(" " + z, side));
    TaggedLonger(SENT_TAG, sent, gaps[2], Upto(" " + z, EndMarker()));
  }

  lemma MarkersDiffer()
    ensures ClientMarker() != PhaseMarker() && ServerMarker() != PhaseMarker() && EndMarker() != PhaseMarker()
  {
    assert ClientMarker()[0] != PhaseMarker()[0] && ServerMarker()[0] != PhaseMarker()[0];
    assert EndMarker()[0] != PhaseMarker()[0];
  }

  lemma TagFree()
    ensures Free(SENT_TAG, ClientMarker()) && Free(SENT_TAG, ServerMarker()) && Free(SENT_TAG, EndMarker())
  {
    hide Free;
    FreeByChar(SENT_TAG, ClientMarker(), 'C');
    FreeByChar(SENT_TAG, ServerMarker(), 'S');
    FreeByChar(SENT_TAG, EndMarker(), '-');
  }

  lemma SentCutOut(output: string, title: string, side: string, sent: Printout, other: string, received: Printout,
                   gaps: seq<string>, later: string)
    requires IsTitle(title) && Opposite(side, other) && sent.Valid() && received.Valid() && GapsUnrelated(gaps)
    requires Onward(output, title)
        == Onward(Printed(title, side + " (sent)", sent, other, received, gaps, later), title)
    ensures SliceLabelBlock(SlicePhase(output, title), side)
         == SentBlock(side, sent.stats, sent.duration, sent.throughput, gaps[2])
  {
    TitleFacts(title);
    SidesOpposite(side, other);
    LabelFacts(side + " (sent)", other);
    FixedFacts();
    TagFree();
    MarkersSeparable();
    StatsUnmarked(sent.stats, sent.duration, sent.throughput);
    StatsUnmarked(received.stats, received.duration, received.throughput);
    hide PhaseMarker, ClientMarker, ServerMarker, EndMarker, Free, Separable, AllFree, StatsLines;
    TitleFound(title, side + " (sent)", sent.Lines(), other, received.Lines(), gaps, later);
    hide PhaseSummary, FromTitle, Onward, SlicePhase, SliceLabelBlock, AfterSide, Tagged;
    PhaseOf(output, title, side + " (sent)", sent.Lines(), other, received.Lines(), gaps, later);
    var cut := Upto(later, PhaseMarker());
    SideFound(title, side, sent.Lines(), other, received.Lines(), gaps, cut);
    SideEnds(side, sent.Lines(), other, received.Lines(), gaps, cut);
    BlockSliced(FromTitle(title, side + " (sent)", sent.Lines(), other, received.Lines(), gaps, cut), side,
                AfterSide(sent.Lines(), other, received.Lines(), gaps, cut),
                Tagged(SENT_TAG, sent.Lines(), gaps[2], " "), other);
  }

  lemma SidesOpposite(side: string, other: string)
    requires Opposite(side, other)
    ensures Sides(side + " (sent)", other) && IsSide(side) && IsSide(other)
  {
  }

  // ---------- What the parser makes of it ----------

  function SentCounters(s: TestStats): (int, int, int, int, int) {
    (s.totalBytesSent, s.totalPacketsSent, s.sequenceErrorCount, s.failedChecksumCount, s.contentMismatchCount)
  }

  lemma SentParsed(output: string, title: string, side: string, p: Printout, gap: string, role: string)
    requires IsSide(side) && p.Valid()
    requires SliceLabelBlock(SlicePhase(output, title), side) == SentBlock(side, p.stats, p.duration, p.throughput, gap)
    ensures var (result, parsed) := TryParsePreferredBlock(output, title, side, true, NewResult(role));
            parsed && Counters(result) == SentCounters(p.stats) && result.role == role && result.failureReason == ""
  {
    SentTotals(side, p.stats, p.duration, p.throughput, gap);
    SentErrors(side, p.stats, p.duration, p.throughput, gap);
    assert SentBlock(side, p.stats, p.duration, p.throughput, gap) != "";
    hide SentBlock, ExtractLongLong, SliceLabelBlock, SlicePhase;
  }

  lemma NoPhase(output: string, title: string, side: string, preferSent: bool, result: TestResult)
    requires Free(output, title) && side != ""
    ensures TryParsePreferredBlock(output, title, side, preferSent, result) == (result, false)
  {
    FindFree(output, title);
  }

  lemma OneSummary(title: string, first: string, sent: Printout, side: string, received: Printout, gaps: seq<string>,
                   later: string, absent: string)
    requires (title == PHASE_1 && absent == PHASE_2) || (title == PHASE_2 && absent == PHASE_1)
    requires Sides(first, side) && sent.Valid() && received.Valid() && GapsUnrelated(gaps) && Free(later, absent)
    ensures Free(Printed(title, first, sent, side, received, gaps, later), absent)
  {
    TitleChars(absent);
    TitleWithoutOther(title, absent);
    FindFree(later, absent);
    hide Free, PhaseMarker, EndMarker, Separable, StatsLines, PhaseSummary, AfterTitle, Find;
    SummaryWithoutTitle(first, sent, side, received, gaps, absent);
    hide ClientMarker, ServerMarker, Sides;
    SummarySkipped(title, first, sent.Lines(), side, received.Lines(), gaps, later, absent);
    NothingFound(Printed(title, first, sent, side, received, gaps, later), absent);
  }

  lemma TitleWithoutOther(title: string, absent: string)
    requires (title == PHASE_1 && absent == PHASE_2) || (title == PHASE_2 && absent == PHASE_1)
    ensures Free(" --- " + title + " ---", absent)
  {
    hide Free;
    FreeByChar(" --- " + title + " ---", absent, if title == PHASE_1 then '2' else '1');
  }

  lemma LaterWithoutTitle(later: string, title: string)
    requires IsTitle(title) && Unrelated(later)
    ensures Free(later, title)
  {
    TitleFacts(title);
    hide Free;
  }

  // A text with one summary, in which the attempts of the two sides find what
  // they have printed.
  lemma SidesRead(title: string, side: string, sent: Printout, other: string, received: Printout, gaps: seq<string>,
                  later: string, sender: string, receiver: string)
    requires IsTitle(title) && Opposite(side, other) && sent.Valid() && received.Valid() && GapsUnrelated(gaps)
    ensures var text := Printed(title, side + " (sent)", sent, other, received, gaps, later);
            var (r, ok) := TryParsePreferredBlock(text, title, side, true, NewResult(sender));
            ok && Counters(r) == SentCounters(sent.stats) && r.role == sender && r.failureReason == ""
    ensures var text := Printed(title, side + " (sent)", sent, other, received, gaps, later);
            var (r, ok) := TryParsePreferredBlock(text, title, other, false, NewResult(receiver));
            ok && Counters(r) == ReceivedCounters(received.stats) && r.role == receiver && r.failureReason == ""
  {
    hide Printed, Onward, SliceLabelBlock, SlicePhase, Block, SentBlock, TryParsePreferredBlock, Printout.Valid, Free;
    hide Counters, SentCounters, ReceivedCounters;
    var text := Printed(title, side + " (sent)", sent, other, received, gaps, later);
    SidesOpposite(side, other);
    SentCutOut(text, title, side, sent, other, received, gaps, later);
    SentParsed(text, title, side, sent, gaps[2], sender);
    BlockCutOut(text, title, side + " (sent)", sent, other, received, gaps, later);
    BlockParsed(text, title, other, received, gaps[3], receiver);
  }

  lemma SecondAttempt(text: string, role: string, stats: TestStats)
    requires var (title, side, absent) :=
               if role == "Client" then (PHASE_1, "Client-side", PHASE_2) else (PHASE_2, "Server-side", PHASE_1);
             && Free(text, absent)
             && var (r, ok) := TryParsePreferredBlock(text, title, side, true, NewResult(role));
                ok && Counters(r) == SentCounters(stats) && r.role == role && r.failureReason == ""
    ensures var r := Parse(text, role);
            && Counters(r) == SentCounters(stats) && r.success == (stats.totalPacketsSent > 0)
            && (r.failureReason == "" <==> r.success)
  {
    hide TryParsePreferredBlock, Free;
    if role == "Client" {
      NoPhase(text, PHASE_2, "Client-side", false, NewResult(role));
    } else {
      NoPhase(text, PHASE_1, "Server-side", false, NewResult(role));
    }
  }

  lemma FirstAttempt(text: string, role: string, stats: TestStats)
    requires var (title, side) := if role == "Client" then (PHASE_2, "Client-side") else (PHASE_1, "Server-side");
             var (r, ok) := TryParsePreferredBlock(text, title, side, false, NewResult(role));
             ok && Counters(r) == ReceivedCounters(stats) && r.role == role && r.failureReason == ""
    ensures var r := Parse(text, role);
            && Counters(r) == ReceivedCounters(stats) && r.success == (stats.totalPacketsReceived > 0)
            && (r.failureReason == "" <==> r.success)
  {
    hide TryParsePreferredBlock;
  }

  // The test ended in phase 1: the client's text gives what it has sent, the
  // server's what it has received.
  lemma OnlyPhase1(client: Printout, server: Printout, gaps: seq<string>, later: string)
    requires client.Valid() && server.Valid() && GapsUnrelated(gaps) && Unrelated(later)
    ensures var text := Printed(PHASE_1, "Client-side (sent)", client, ServerMarker(), server, gaps, later);
            var c, v := Parse(text, "Client"), Parse(text, "Server");
            && Counters(c) == SentCounters(client.stats) && Counters(v) == ReceivedCounters(server.stats)
            && c.success == (client.stats.totalPacketsSent > 0) && (c.failureReason == "" <==> c.success)
            && v.success == (server.stats.totalPacketsReceived > 0) && (v.failureReason == "" <==> v.success)
  {
    hide Printed, TryParsePreferredBlock, Printout.Valid, Free, Parse, Counters, SentCounters, ReceivedCounters;
    var text := Printed(PHASE_1, "Client-side (sent)", client, ServerMarker(), server, gaps, later);
    assert "Client-side (sent)" == ClientMarker() + " (sent)";
    LaterWithoutTitle(later, PHASE_2);
    OneSummary(PHASE_1, "Client-side (sent)", client, ServerMarker(), server, gaps, later, PHASE_2);
    SidesRead(PHASE_1, ClientMarker(), client, ServerMarker(), server, gaps, later, "Client", "Server");
    SecondAttempt(text, "Client", client.stats);
    FirstAttempt(text, "Server", server.stats);
  }

  // Only phase 2 is in the text: the other way round.
  lemma OnlyPhase2(client: Printout, server: Printout, gaps: seq<string>, later: string)
    requires client.Valid() && server.Valid() && GapsUnrelated(gaps) && Unrelated(later)
    ensures var text := Printed(PHASE_2, "Server-side (sent)", server, ClientMarker(), client, gaps, later);
            var c, v := Parse(text, "Client"), Parse(text, "Server");
            && Counters(c) == ReceivedCounters(client.stats) && Counters(v) == SentCounters(server.stats)
            && c.success == (client.stats.totalPacketsReceived > 0) && (c.failureReason == "" <==> c.success)
            && v.success == (server.stats.totalPacketsSent > 0) && (v.failureReason == "" <==> v.success)
  {
    hide Printed, TryParsePreferredBlock, Printout.Valid, Free, Parse, Counters, SentCounters, ReceivedCounters;
    var text := Printed(PHASE_2, "Server-side (sent)", server, ClientMarker(), client, gaps, later);
    assert "Server-side (sent)" == ServerMarker() + " (sent)";
    LaterWithoutTitle(later, PHASE_1);
    OneSummary(PHASE_2, "Server-side (sent)", server, ClientMarker(), client, gaps, later, PHASE_1);
    SidesRead(PHASE_2, ServerMarker(), server, ClientMarker(), client, gaps, later, "Server", "Client");
    SecondAttempt(text, "Server", server.stats);
    FirstAttempt(text, "Client", client.stats);
  }

  // Without a summary nothing is read, and the result says so.
  lemma NoSummary(text: string, role: string)
    requires Free(text, PHASE_1) && Free(text, PHASE_2)
    ensures var r := Parse(text, role);
            && !r.success && r.failureReason == "Could not parse MyIperf phase summary for role " + role
            && Counters(r) == (0, 0, 0, 0, 0) && r.role == role
  {
    hide Free, TryParsePreferredBlock;
    NoPhase(text, PHASE_2, "Client-side", false, NewResult(role));
    NoPhase(text, PHASE_1, "Client-side", true, NewResult(role));
    NoPhase(text, PHASE_1, "Server-side", false, NewResult(role));
    NoPhase(text, PHASE_2, "Server-side", true, NewResult(role));
  }

  // ---------- A block that is cut short ----------

  lemma {:induction false} SearchFails(t: string, key: string, i: nat)
    requires Free(t, key)
    ensures SearchNumber(t, key, i) == None
    decreases |t| - i
  {
    hide SkipSpaces, SkipDigits, Number;
    assert !At(t, key, i);
    if i <= |t| {
      hide At;
      SearchFails(t, key, i + 1);
    }
  }

  // Where the field a role prefers does not occur, the other one is taken; an
  // error counter that does not occur keeps its value; and without any byte
  // total, or any packet total, the block counts as not parsed.
  lemma FallsBack(block: string, preferSent: bool, result: TestResult)
    requires block != ""
    ensures var (r, ok) := FillStatsFromBlock(block, preferSent, result);
            && (Free(block, Key("Total Bytes Received")) ==>
                  r.totalBytes == ExtractLongLong(block, "Total Bytes Sent").GetOr(0))
            && (Free(block, Key("Total Bytes Sent")) ==>
                  r.totalBytes == ExtractLongLong(block, "Total Bytes Received").GetOr(0))
            && (Free(block, Key("Total Packets Received")) ==>
                  r.totalPackets == ExtractLongLong(block, "Total Packets Sent").GetOr(0))
            && (Free(block, Key("Total Packets Sent")) ==>
                  r.totalPackets == ExtractLongLong(block, "Total Packets Received").GetOr(0))
            && (Free(block, Key("Sequence Errors")) ==> r.sequenceErrors == result.sequenceErrors)
            && (Free(block, Key("Failed Checksums")) ==> r.checksumErrors == result.checksumErrors)
            && (Free(block, Key("Content Mismatches")) ==> r.contentMismatches == result.contentMismatches)
            && (Free(block, Key("Total Bytes Received")) && Free(block, Key("Total Bytes Sent")) ==> !ok)
            && (Free(block, Key("Total Packets Received")) && Free(block, Key("Total Packets Sent")) ==> !ok)
  {
    hide Free, SearchNumber;
    NotExtracted(block, "Total Bytes Received");
    NotExtracted(block, "Total Bytes Sent");
    NotExtracted(block, "Total Packets Received");
    NotExtracted(block, "Total Packets Sent");
    NotExtracted(block, "Sequence Errors");
    NotExtracted(block, "Failed Checksums");
    NotExtracted(block, "Content Mismatches");
    hide ExtractLongLong, Key;
  }

  lemma NotExtracted(block: string, name: string)
    ensures Free(block, Key(name)) ==> ExtractLongLong(block, name) == None
  {
    hide Free;
    if Free(block, Key(name)) {
      SearchFails(block, Key(name), 0);
    }
  }

  // What a role reads first, and what it falls back to.
  ghost function FirstBlock(text: string, role: string): string {
    if role == "Client" then SliceLabelBlock(SlicePhase(text, PHASE_2), ClientMarker())
    else SliceLabelBlock(SlicePhase(text, PHASE_1), ServerMarker())
  }

  ghost function SecondBlock(text: string, role: string): string {
    if role == "Client" then SliceLabelBlock(SlicePhase(text, PHASE_1), ClientMarker())
    else SliceLabelBlock(SlicePhase(text, PHASE_2), ServerMarker())
  }

  // A first block without totals is given up, but an error counter read from it
  // stays where the second block has none.
  lemma ErrorsCarryOver(text: string, role: string)
    requires FirstBlock(text, role) != ""
    requires Free(FirstBlock(text, role), Key("Total Bytes Received"))
          && Free(FirstBlock(text, role), Key("Total Bytes Sent"))
    ensures var first, second, r := FirstBlock(text, role), SecondBlock(text, role), Parse(text, role);
            && (Free(second, Key("Sequence Errors")) ==>
                  r.sequenceErrors == ExtractLongLong(first, "Sequence Errors").GetOr(0))
            && (Free(second, Key("Failed Checksums")) ==>
                  r.checksumErrors == ExtractLongLong(first, "Failed Checksums").GetOr(0))
            && (Free(second, Key("Content Mismatches")) ==>
                  r.contentMismatches == ExtractLongLong(first, "Content Mismatches").GetOr(0))
  {
    hide Free, SliceLabelBlock, SlicePhase, ExtractLongLong, Key;
    var first, second := FirstBlock(text, role), SecondBlock(text, role);
    NotExtracted(first, "Total Bytes Received");
    NotExtracted(first, "Total Bytes Sent");
    NotExtracted(second, "Sequence Errors");
    NotExtracted(second, "Failed Checksums");
    NotExtracted(second, "Content Mismatches");
  }
}
