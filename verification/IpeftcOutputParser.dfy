// TestRunner's fallback: reading the counters out of the log text of MyIperf
// when there is no result file.
module OutputParser {
  import opened Protocol
  import opened TestTypes
  import opened Wrappers
  import opened TextSearch
  import opened TestRunner
  import Controller

  function PhaseMarker(): string { "Test Phase " }
  function ClientMarker(): string { "Client-side" }
  function ServerMarker(): string { "Server-side" }
  function EndMarker(): string { "----------------------------" }

  // ---------- The parser ----------

  function FindNextMarker(text: string, start: nat, marker: string): nat {
    Find(text, marker, start).GetOr(|text|)
  }

  function Min(a: nat, b: nat): nat {
    if a < b then a else b
  }

  function SlicePhase(output: string, phase: string): string {
    match Find(output, phase, 0)
    case None => ""
    case Some(begin) => output[begin..FindNextMarker(output, begin + |phase|, PhaseMarker())]
  }

  function SliceLabelBlock(phaseText: string, side: string): string {
    match Find(phaseText, side, 0)
    case None => ""
    case Some(begin) =>
      var searchFrom := begin + |side|;
      phaseText[begin..Min(Min(FindNextMarker(phaseText, searchFrom, ClientMarker()),
                               FindNextMarker(phaseText, searchFrom, ServerMarker())),
                           FindNextMarker(phaseText, searchFrom, EndMarker()))]
  }

  predicate IsSpace(c: char) {
    c == ' ' || '\t' <= c <= '\r'
  }

  function SkipSpaces(text: string, i: nat): (j: nat)
    requires i <= |text|
    ensures i <= j <= |text|
    decreases |text| - i
  {
    if i < |text| && IsSpace(text[i]) then SkipSpaces(text, i + 1) else i
  }

  function SkipDigits(text: string, i: nat): (j: nat)
    requires i <= |text|
    ensures i <= j <= |text|
    ensures forall k | i <= k < j :: IsDigit(text[k])
    decreases |text| - i
  {
    if i < |text| && IsDigit(text[i]) then SkipDigits(text, i + 1) else i
  }

  // The regular expression  key \s* ([0-9]+)  at one place.
  function NumberAt(text: string, key: string, i: nat): Option<int> {
    if !At(text, key, i) then None
    else
      var start := SkipSpaces(text, i + |key|);
      var end := SkipDigits(text, start);
      if start == end then None else Some(Number(text[start..end]))
  }

  function SearchNumber(text: string, key: string, i: nat): Option<int>
    decreases |text| - i
  {
    if i > |text| then None
    else if NumberAt(text, key, i).Some? then NumberAt(text, key, i)
    else SearchNumber(text, key, i + 1)
  }

  function Key(name: string): string {
    name + ":"
  }

  function ExtractLongLong(text: string, name: string): Option<int> {
    SearchNumber(text, Key(name), 0)
  }

  function FillStatsFromBlock(block: string, preferSent: bool, result: TestResult): (TestResult, bool) {
    if block == "" then (result, false)
    else
      var bytesReceived := ExtractLongLong(block, "Total Bytes Received");
      var bytesSent := ExtractLongLong(block, "Total Bytes Sent");
      var packetsReceived := ExtractLongLong(block, "Total Packets Received");
      var packetsSent := ExtractLongLong(block, "Total Packets Sent");
      (result.(
         totalBytes := if preferSent then bytesSent.GetOr(bytesReceived.GetOr(0))
                       else bytesReceived.GetOr(bytesSent.GetOr(0)),
         totalPackets := if preferSent then packetsSent.GetOr(packetsReceived.GetOr(0))
                         else packetsReceived.GetOr(packetsSent.GetOr(0)),
         sequenceErrors := ExtractLongLong(block, "Sequence Errors").GetOr(result.sequenceErrors),
         checksumErrors := ExtractLongLong(block, "Failed Checksums").GetOr(result.checksumErrors),
         contentMismatches := ExtractLongLong(block, "Content Mismatches").GetOr(result.contentMismatches)),
       (bytesReceived.Some? || bytesSent.Some?) && (packetsReceived.Some? || packetsSent.Some?))
  }

  function TryParsePreferredBlock(output: string, phaseTitle: string, side: string, preferSent: bool,
                                  result: TestResult): (TestResult, bool)
  {
    FillStatsFromBlock(SliceLabelBlock(SlicePhase(output, phaseTitle), side), preferSent, result)
  }

  function Parse(output: string, role: string): TestResult {
    var first :=
      if role == "Client" then TryParsePreferredBlock(output, "Test Phase 2 Summary", "Client-side", false,
          NewResult(role))
      else TryParsePreferredBlock(output, "Test Phase 1 Summary", "Server-side", false, NewResult(role));
    var (result, parsed) :=
      if first.1 then first
      else if role == "Client" then TryParsePreferredBlock(output, "Test Phase 1 Summary", "Client-side", true, first.0)
      else TryParsePreferredBlock(output, "Test Phase 2 Summary", "Server-side", true, first.0);
    if !parsed then
      result.(success := false, failureReason := "Could not parse MyIperf phase summary for role " + role)
    else if result.totalPackets > 0 then result.(success := true)
    else result.(success := false, failureReason := "Parsed result contains zero packets")
  }

  // ---------- The printer ----------

  predicate Blank(pad: string) {
    forall i | 0 <= i < |pad| :: pad[i] == ' '
  }

  function Pad(n: nat): (pad: string)
    ensures Blank(pad)
  {
    if n == 0 then "" else " " + Pad(n - 1)
  }

  function Line(name: string, pad: string, value: string): string {
    "    - " + name + ":" + pad + value
  }

  function Totals(s: TestStats): seq<string> {
    [Line("Total Bytes Sent", Pad(5), Controller.Signed(s.totalBytesSent)),
     Line("Total Packets Sent", Pad(3), Controller.Signed(s.totalPacketsSent)),
     Line("Total Bytes Received", Pad(1), Controller.Signed(s.totalBytesReceived)),
     Line("Total Packets Received", Pad(1), Controller.Signed(s.totalPacketsReceived))]
  }

  // Formatted floating-point numbers are opaque here.
  function Times(duration: string, throughput: string): seq<string> {
    [Line("Duration", Pad(13), duration + " s"),
     Line("Throughput", Pad(11), throughput + " Mbps")]
  }

  function Errors(s: TestStats): seq<string> {
    [Line("Sequence Errors", Pad(6), Controller.Signed(s.sequenceErrorCount)),
     Line("Failed Checksums", Pad(5), Controller.Signed(s.failedChecksumCount)),
     Line("Content Mismatches", Pad(3), Controller.Signed(s.contentMismatchCount))]
  }

  function StatsLines(s: TestStats, duration: string, throughput: string): seq<string> {
    Totals(s) + Times(duration, throughput) + Errors(s)
  }

  function Body(lines: seq<string>): string {
    if lines == [] then "" else "\n" + lines[0] + Body(lines[1..])
  }

  function FormatStatsForLogging(s: TestStats, duration: string, throughput: string): string {
    Body(StatsLines(s, duration, throughput))
  }

  // One logged message: everything printed before it, ending in its time
  // stamp, then the message, then whatever is printed later.
  function Logged(before: string, message: string, later: string): string {
    before + "] " + message + "\n" + later
  }

  // What logPhaseSummary prints, with other log text before each message.
  function PhaseSummary(title: string, first: string, firstText: string, second: string, secondText: string,
                        gaps: seq<string>, later: string): string
    requires |gaps| == 4
  {
    Logged(gaps[0], "--- " + title + " ---",
    Logged(gaps[1], first + ":" + firstText,
    Logged(gaps[2], second + ":" + secondText,
    Logged(gaps[3], EndMarker(), later))))
  }

  // ---------- Reading a number back ----------

  // The six characters \s stands for.
  predicate Spacing(pad: string) {
    forall i | 0 <= i < |pad| :: pad[i] in " \t\n\U{0B}\U{0C}\r"
  }

  lemma {:induction false} SpacesSkipped(p: string, pad: string, s: string)
    requires Spacing(pad) && s != "" && !IsSpace(s[0])
    ensures SkipSpaces(p + pad + s, |p|) == |p| + |pad|
    decreases |pad|
  {
    var t := p + pad + s;
    if pad == "" {
      assert t[|p|] == s[0];
    } else {
      assert t[|p|] == pad[0];
      assert p + pad + s == (p + [pad[0]]) + pad[1..] + s;
      SpacesSkipped(p + [pad[0]], pad[1..], s);
    }
  }

  lemma {:induction false} DigitsSkipped(p: string, digits: string, s: string)
    requires (forall i | 0 <= i < |digits| :: IsDigit(digits[i])) && s != "" && !IsDigit(s[0])
    ensures SkipDigits(p + digits + s, |p|) == |p| + |digits|
    decreases |digits|
  {
    var t := p + digits + s;
    if digits == "" {
      assert t[|p|] == s[0];
    } else {
      assert t[|p|] == digits[0];
      assert p + digits + s == (p + [digits[0]]) + digits[1..] + s;
      DigitsSkipped(p + [digits[0]], digits[1..], s);
    }
  }

  lemma NumberRead(p: string, key: string, pad: string, n: nat, s: string)
    requires Spacing(pad) && s != "" && !IsDigit(s[0])
    ensures NumberAt(p + (key + pad + Decimal(n) + s), key, |p|) == Some(n)
  {
    DecimalReads(n);
    hide Decimal, Number, SkipSpaces, SkipDigits;
    var digits, before := Decimal(n), p + key + pad;
    var t := p + (key + pad + digits + s);
    assert t[|p|..|p| + |key|] == key;
    assert t == p + key + pad + (digits + s) && t == before + digits + s;
    assert IsDigit(digits[0]) && (digits + s)[0] == digits[0];
    SpacesSkipped(p + key, pad, digits + s);
    DigitsSkipped(before, digits, s);
    assert t[|before|..|before| + |digits|] == digits;
  }

  lemma {:induction false} SearchFinds(t: string, key: string, i: nat, k: nat)
    requires i <= k && FirstAt(t, key, k) && NumberAt(t, key, k).Some?
    ensures SearchNumber(t, key, i) == NumberAt(t, key, k)
    decreases k - i
  {
    hide SkipSpaces, SkipDigits, Number;
    assert k <= |t|;
    if i < k {
      assert !At(t, key, i);
      SearchFinds(t, key, i + 1, k);
    }
  }

  // The number after the first occurrence of the key.
  lemma Extracted(t: string, name: string, pad: string, n: nat, s: string)
    requires Onward(t, Key(name)) == Some(Key(name) + pad + Decimal(n) + s)
    requires Blank(pad) && s != "" && !IsDigit(s[0])
    ensures ExtractLongLong(t, name) == Some(n)
  {
    hide SearchNumber, NumberAt, Decimal, Find, Free;
    var key := Key(name);
    var k := Find(t, key, 0).value;
    FoundFirst(t, key);
    assert t == t[..k] + t[k..];
    NumberRead(t[..k], key, pad, n, s);
    hide FirstAt;
    SearchFinds(t, key, 0, k);
  }

  // ---------- The slices ----------

  lemma PhaseSliced(output: string, title: string, s: string)
    requires Onward(output, title) == Some(title + s)
    ensures SlicePhase(output, title) == title + Upto(s, PhaseMarker())
  {
    hide Find, PhaseMarker;
    var k := Find(output, title, 0).value;
    assert output == output[..k] + (title + s) && output == (output[..k] + title) + s;
    FindInSuffix(output[..k] + title, s, PhaseMarker(), 0);
    assert |output[..k] + title| == k + |title|;
    assert output[k..] == title + s;
    assert SlicePhase(output, title) == output[k..][..|title| + |Upto(s, PhaseMarker())|];
  }

  lemma MarkerAt(t: string, k: nat, side: string, s: string, marker: string)
    requires k <= |t| && t[k..] == side + s
    ensures FindNextMarker(t, k + |side|, marker) == k + |side| + |Upto(s, marker)|
  {
    hide Find;
    assert t == (t[..k] + side) + s && |t[..k] + side| == k + |side|;
    FindInSuffix(t[..k] + side, s, marker, 0);
  }

  // cut is the marker that ends the block.
  lemma BlockSliced(phaseText: string, side: string, s: string, block: string, cut: string)
    requires Onward(phaseText, side) == Some(side + s)
    requires cut == ClientMarker() || cut == ServerMarker() || cut == EndMarker()
    requires Upto(s, cut) == block
    requires |Upto(s, ClientMarker())| >= |block| && |Upto(s, ServerMarker())| >= |block|
    requires |Upto(s, EndMarker())| >= |block|
    ensures SliceLabelBlock(phaseText, side) == side + block
  {
    hide Find, FindNextMarker, Upto, ClientMarker, ServerMarker, EndMarker;
    var k := Find(phaseText, side, 0).value;
    assert phaseText[k..] == side + s;
    hide Onward;
    MarkerAt(phaseText, k, side, s, ClientMarker());
    MarkerAt(phaseText, k, side, s, ServerMarker());
    MarkerAt(phaseText, k, side, s, EndMarker());
    UptoIsPrefix(s, cut);
    SliceAt(phaseText, k, side, s, |block|);
  }

  lemma UptoIsPrefix(s: string, m: string)
    ensures |Upto(s, m)| <= |s| && s[..|Upto(s, m)|] == Upto(s, m)
  {
    hide Find;
  }

  lemma SliceAt(t: string, k: nat, side: string, s: string, n: nat)
    requires k <= |t| && t[k..] == side + s && n <= |s|
    ensures t[k..k + |side| + n] == side + s[..n]
  {
    assert t[k..k + |side| + n] == t[k..][..|side| + n];
  }

  // ---------- The shape of a printed summary ----------

  // A statistics message is its label line and then one line per field.
  lemma {:induction false} BodyIsChain(head: string, lines: seq<string>, later: string)
    ensures head + Body(lines) + "\n" + later == Sep(head, '\n', Chain(lines, later))
    decreases |lines|
  {
    if lines == [] {
      assert head + "" + "\n" + later == head + ['\n'] + later;
    } else {
      BodyIsChain(lines[0], lines[1..], later);
      calc {
        head + Body(lines) + "\n" + later;
        head + ("\n" + lines[0] + Body(lines[1..])) + "\n" + later;
        head + "\n" + (lines[0] + Body(lines[1..]) + "\n" + later);
      }
    }
  }

  lemma LoggedIsSep(before: string, message: string, later: string)
    ensures Logged(before, message, later) == Sep(before, ']', Sep(" " + message, '\n', later))
  {
    assert before + "] " + message + "\n" + later == before + [']'] + ((" " + message) + ['\n'] + later);
  }

  lemma StatsLogged(before: string, side: string, lines: seq<string>, later: string)
    ensures Logged(before, side + ":" + Body(lines), later)
        == Sep(before, ']', Sep(" " + side + ":", '\n', Chain(lines, later)))
  {
    BodyIsChain(" " + side + ":", lines, later);
    LoggedIsSep(before, side + ":" + Body(lines), later);
    assert " " + (side + ":" + Body(lines)) == (" " + side + ":") + Body(lines);
  }

  // From the end of a label on.
  function Tagged(tag: string, lines: seq<string>, gap: string, z: string): string {
    Sep(tag, '\n', Chain(lines, Sep(gap, ']', z)))
  }

  // ... that of the receiving side.
  function Received(lines: seq<string>, gap: string, z: string): string {
    Tagged(" (received):", lines, gap, z)
  }

  function Ending(later: string): string {
    Sep(" " + EndMarker(), '\n', later)
  }

  // From the title on: the sending side, then the receiving side.
  function FromTitle(title: string, first: string, sent: seq<string>, side: string, received: seq<string>,
                     gaps: seq<string>, later: string): string
    requires |gaps| == 4
  {
    Sep(title + " ---", '\n', Sep(gaps[1], ']', Sep(" " + first + ":", '\n', Chain(sent,
      Sep(gaps[2], ']', " " + (side + Received(received, gaps[3], Ending(later))))))))
  }

  lemma SummaryShape(title: string, first: string, sent: seq<string>, side: string, received: seq<string>,
                     gaps: seq<string>, later: string)
    requires |gaps| == 4
    ensures PhaseSummary(title, first, Body(sent), side + " (received)", Body(received), gaps, later)
         == Sep(gaps[0], ']', " --- " + FromTitle(title, first, sent, side, received, gaps, later))
  {
    hide Logged, Sep, Chain, Body, EndMarker;
    LoggedIsSep(gaps[3], EndMarker(), later);
    var end := Logged(gaps[3], EndMarker(), later);
    StatsLogged(gaps[2], side + " (received)", received, end);
    ReceivedShape(side, received, end);
    var second := Logged(gaps[2], side + " (received)" + ":" + Body(received), end);
    StatsLogged(gaps[1], first, sent, second);
    var inner := Logged(gaps[1], first + ":" + Body(sent), second);
    LoggedIsSep(gaps[0], "--- " + title + " ---", inner);
    TitleShape(title, inner);
  }

  lemma ReceivedShape(side: string, received: seq<string>, end: string)
    ensures Sep(" " + (side + " (received)") + ":", '\n', Chain(received, end))
         == " " + (side + Sep(" (received):", '\n', Chain(received, end)))
  {
    var z := Chain(received, end);
    assert " " + (side + " (received)") + ":" + ['\n'] + z == " " + (side + (" (received):" + ['\n'] + z));
  }

  lemma TitleShape(title: string, inner: string)
    ensures Sep(" " + ("--- " + title + " ---"), '\n', inner) == " --- " + Sep(title + " ---", '\n', inner)
  {
    assert " " + ("--- " + title + " ---") + ['\n'] + inner == " --- " + (title + " ---" + ['\n'] + inner);
  }

  // ---------- Slicing a printed summary ----------

  ghost predicate Separable(m: string) {
    m != "" && '\n' !in m && ']' !in m && m[0] !in " "
  }

  ghost predicate AllFree(lines: seq<string>, m: string) {
    forall i | 0 <= i < |lines| :: Free(lines[i], m)
  }

  lemma UptoTagged(tag: string, lines: seq<string>, gap: string, z: string, m: string)
    requires Separable(m) && Free(tag, m) && AllFree(lines, m) && Free(gap, m)
    ensures Upto(Tagged(tag, lines, gap, z), m) == Tagged(tag, lines, gap, Upto(z, m))
  {
    hide Upto, Sep, Free;
    var inner := Sep(gap, ']', z);
    UptoSep(tag, '\n', Chain(lines, inner), m);
    UptoChain(lines, inner, m);
    UptoSep(gap, ']', z, m);
    hide Chain;
  }

  lemma UptoBlank(s: string, m: string)
    requires m != "" && m[0] !in " "
    ensures |Upto(" " + s, m)| >= 1
  {
    hide Find;
    if Find(" " + s, m, 0) == Some(0) {
      AtStarts(" " + s, m, 0);
    }
  }

  lemma TaggedLonger(tag: string, lines: seq<string>, gap: string, z: string)
    requires |z| >= 1
    ensures |Tagged(tag, lines, gap, z)| >= |Tagged(tag, lines, gap, " ")|
  {
    ChainLonger(lines, Sep(gap, ']', z), Sep(gap, ']', " "));
    hide Chain;
  }

  lemma {:induction false} ChainLonger(lines: seq<string>, y: string, z: string)
    requires |y| >= |z|
    ensures |Chain(lines, y)| >= |Chain(lines, z)|
    decreases |lines|
  {
    if lines != [] {
      ChainLonger(lines[1..], y, z);
    }
  }

  ghost predicate Markers() {
    && Separable(PhaseMarker()) && Separable(ClientMarker()) && Separable(ServerMarker()) && Separable(EndMarker())
  }

  lemma MarkersSeparable()
    ensures Markers()
  {
  }

  // No marker occurs where the receiving side is described.
  ghost predicate Unmarked(received: seq<string>, gap: string, m: string) {
    Free(" (received):", m) && AllFree(received, m) && Free(gap, m)
  }

  lemma BlockEnd(received: seq<string>, gap: string, later: string)
    requires Unmarked(received, gap, ClientMarker()) && Unmarked(received, gap, ServerMarker())
        && Unmarked(received, gap, EndMarker())
    ensures var s := Received(received, gap, Ending(later));
            && Upto(s, EndMarker()) == Received(received, gap, " ")
            && |Upto(s, ClientMarker())| >= |Received(received, gap, " ")|
            && |Upto(s, ServerMarker())| >= |Received(received, gap, " ")|
  {
    MarkersSeparable();
    hide ClientMarker, ServerMarker, EndMarker, Upto, Tagged, Free, AllFree;
    var z := Ending(later);
    assert z == " " + (EndMarker() + ['\n'] + later);
    assert At(EndMarker() + ['\n'] + later, EndMarker(), 0);
    OnwardPrefix(" ", EndMarker() + ['\n'] + later, EndMarker());
    UptoBlank(EndMarker() + ['\n'] + later, ClientMarker());
    UptoBlank(EndMarker() + ['\n'] + later, ServerMarker());
    hide Separable, Ending;
    UptoTagged(" (received):", received, gap, z, EndMarker());
    UptoTagged(" (received):", received, gap, z, ClientMarker());
    UptoTagged(" (received):", received, gap, z, ServerMarker());
    TaggedLonger(" (received):", received, gap, Upto(z, ClientMarker()));
    TaggedLonger(" (received):", received, gap, Upto(z, ServerMarker()));
  }

  // m does not occur in a summary before its receiving side.
  ghost predicate BeforeReceived(title: string, first: string, sent: seq<string>, gaps: seq<string>, m: string)
    requires |gaps| == 4
  {
    Free(title + " ---", m) && Free(gaps[1], m) && Free(" " + first + ":", m) && AllFree(sent, m) && Free(gaps[2], m)
  }

  lemma BlockOf(title: string, first: string, sent: seq<string>, side: string, received: seq<string>,
                gaps: seq<string>, later: string)
    requires |gaps| == 4 && Separable(side) && BeforeReceived(title, first, sent, gaps, side)
    requires Unmarked(received, gaps[3], ClientMarker()) && Unmarked(received, gaps[3], ServerMarker())
        && Unmarked(received, gaps[3], EndMarker())
    ensures SliceLabelBlock(FromTitle(title, first, sent, side, received, gaps, later), side)
         == side + Received(received, gaps[3], " ")
  {
    hide ClientMarker, ServerMarker, EndMarker, Upto, Onward, Received, Free, Ending, SliceLabelBlock, Sep;
    var s := Received(received, gaps[3], Ending(later));
    BlockEnd(received, gaps[3], later);
    hide Unmarked;
    var last := " " + (side + s);
    assert At(side + s, side, 0);
    OnwardPrefix(" ", side + s, side);
    var third := Sep(gaps[2], ']', last);
    OnwardSep(gaps[2], ']', last, side);
    OnwardChain(sent, |sent|, third, side);
    assert Chain(sent[|sent|..], third) == third;
    var second := Sep(" " + first + ":", '\n', Chain(sent, third));
    OnwardSep(" " + first + ":", '\n', Chain(sent, third), side);
    OnwardSep(gaps[1], ']', second, side);
    OnwardSep(title + " ---", '\n', Sep(gaps[1], ']', second), side);
    hide Separable, BeforeReceived, Chain;
    BlockSliced(FromTitle(title, first, sent, side, received, gaps, later), side, s, Received(received, gaps[3], " "),
                EndMarker());
  }

  // ... nor anywhere after its title.
  ghost predicate AfterTitle(first: string, sent: seq<string>, side: string, received: seq<string>, gaps: seq<string>,
                             m: string)
    requires |gaps| == 4
  {
    && Free(" ---", m) && Free(gaps[1], m) && Free(" " + first + ":", m) && AllFree(sent, m) && Free(gaps[2], m)
    && Free(" " + side + " (received):", m) && AllFree(received, m) && Free(gaps[3], m) && Free(" " + EndMarker(), m)
  }

  lemma UptoSide(side: string, received: seq<string>, gap: string, later: string, m: string)
    requires Separable(m) && Free(" " + side + " (received):", m) && AllFree(received, m) && Free(gap, m)
        && Free(" " + EndMarker(), m)
    ensures Upto(" " + (side + Received(received, gap, Ending(later))), m)
         == " " + (side + Received(received, gap, Ending(Upto(later, m))))
  {
    hide EndMarker, Upto, Free, Find;
    var end, cut := Ending(later), Ending(Upto(later, m));
    UptoSep(" " + EndMarker(), '\n', later, m);
    UptoSep(gap, ']', end, m);
    UptoChain(received, Sep(gap, ']', end), m);
    UptoSep(" " + side + " (received):", '\n', Chain(received, Sep(gap, ']', end)), m);
    hide Ending;
    SideShape(side, Chain(received, Sep(gap, ']', end)));
    SideShape(side, Chain(received, Sep(gap, ']', cut)));
  }

  lemma SideShape(side: string, z: string)
    ensures Sep(" " + side + " (received):", '\n', z) == " " + (side + Sep(" (received):", '\n', z))
  {
    assert " " + side + " (received):" + ['\n'] + z == " " + (side + (" (received):" + ['\n'] + z));
  }

  lemma PhaseOf(output: string, title: string, first: string, sent: seq<string>, side: string, received: seq<string>,
                gaps: seq<string>, later: string)
    requires |gaps| == 4 && Separable(PhaseMarker()) && AfterTitle(first, sent, side, received, gaps, PhaseMarker())
    requires Onward(output, title) == Some(FromTitle(title, first, sent, side, received, gaps, later))
    ensures SlicePhase(output, title)
         == FromTitle(title, first, sent, side, received, gaps, Upto(later, PhaseMarker()))
  {
    hide PhaseMarker, EndMarker, Upto, Onward, Received, Free, Ending, SlicePhase, Sep;
    var m := PhaseMarker();
    var last := " " + (side + Received(received, gaps[3], Ending(later)));
    UptoSide(side, received, gaps[3], later, m);
    UptoSep(gaps[2], ']', last, m);
    var third := Sep(gaps[2], ']', last);
    UptoChain(sent, third, m);
    var second := Sep(" " + first + ":", '\n', Chain(sent, third));
    UptoSep(" " + first + ":", '\n', Chain(sent, third), m);
    UptoSep(gaps[1], ']', second, m);
    UptoSep(" ---", '\n', Sep(gaps[1], ']', second), m);
    hide AfterTitle, Chain;
    var s := Sep(" ---", '\n', Sep(gaps[1], ']', second));
    TitleSplit(title, Sep(gaps[1], ']', second));
    PhaseSliced(output, title, s);
    var cut := " " + (side + Received(received, gaps[3], Ending(Upto(later, m))));
    TitleSplit(title, Sep(gaps[1], ']', Sep(" " + first + ":", '\n', Chain(sent, Sep(gaps[2], ']', cut)))));
  }

  lemma TitleFound(title: string, first: string, sent: seq<string>, side: string, received: seq<string>,
                   gaps: seq<string>, later: string)
    requires |gaps| == 4 && Separable(title) && title[0] !in " --- " && Free(gaps[0], title)
    ensures Onward(PhaseSummary(title, first, Body(sent), side + " (received)", Body(received), gaps, later), title)
         == Some(FromTitle(title, first, sent, side, received, gaps, later))
  {
    SummaryShape(title, first, sent, side, received, gaps, later);
    var whole := FromTitle(title, first, sent, side, received, gaps, later);
    assert At(whole, title, 0);
    hide FromTitle, PhaseSummary, Onward, At, Free;
    OnwardPrefix(" --- ", whole, title);
    OnwardSep(gaps[0], ']', " --- " + whole, title);
  }

  // A whole summary in which m does not occur.
  lemma SummarySkipped(title: string, first: string, sent: seq<string>, side: string, received: seq<string>,
                       gaps: seq<string>, later: string, m: string)
    requires |gaps| == 4 && Separable(m) && AfterTitle(first, sent, side, received, gaps, m)
    requires Free(gaps[0], m) && Free(" --- " + title + " ---", m)
    ensures Onward(PhaseSummary(title, first, Body(sent), side + " (received)", Body(received), gaps, later), m)
         == Onward(later, m)
  {
    SummaryShape(title, first, sent, side, received, gaps, later);
    hide EndMarker, Onward, Free, PhaseSummary, Sep;
    var end := Ending(later);
    OnwardSep(" " + EndMarker(), '\n', later, m);
    OnwardSep(gaps[3], ']', end, m);
    OnwardChain(received, |received|, Sep(gaps[3], ']', end), m);
    assert Chain(received[|received|..], Sep(gaps[3], ']', end)) == Sep(gaps[3], ']', end);
    var block := Chain(received, Sep(gaps[3], ']', end));
    OnwardSep(" " + side + " (received):", '\n', block, m);
    SideShape(side, block);
    var last := " " + (side + Received(received, gaps[3], end));
    OnwardSep(gaps[2], ']', last, m);
    var third := Sep(gaps[2], ']', last);
    OnwardChain(sent, |sent|, third, m);
    assert Chain(sent[|sent|..], third) == third;
    var second := Sep(" " + first + ":", '\n', Chain(sent, third));
    OnwardSep(" " + first + ":", '\n', Chain(sent, third), m);
    OnwardSep(gaps[1], ']', second, m);
    var inner := Sep(gaps[1], ']', second);
    TitleLine(title, inner);
    OnwardSep(" --- " + title + " ---", '\n', inner, m);
    hide Chain, Ending, Received, AfterTitle, Separable;
    OnwardSep(gaps[0], ']', " --- " + FromTitle(title, first, sent, side, received, gaps, later), m);
  }

  lemma TitleLine(title: string, inner: string)
    ensures Sep(" --- " + title + " ---", '\n', inner) == " --- " + Sep(title + " ---", '\n', inner)
  {
    assert " --- " + title + " ---" + ['\n'] + inner == " --- " + (title + " ---" + ['\n'] + inner);
  }

  lemma TitleSplit(title: string, z: string)
    ensures Sep(title + " ---", '\n', z) == title + Sep(" ---", '\n', z)
  {
    assert title + " ---" + ['\n'] + z == title + (" ---" + ['\n'] + z);
  }

  // ---------- The printed lines ----------

  ghost predicate NonNegative(s: TestStats) {
    && s.totalBytesSent >= 0 && s.totalPacketsSent >= 0 && s.totalBytesReceived >= 0 && s.totalPacketsReceived >= 0
    && s.sequenceErrorCount >= 0 && s.failedChecksumCount >= 0 && s.contentMismatchCount >= 0
  }

  // A keyword is told apart from a line by a character the line does not have.
  lemma LineFree(name: string, pad: string, n: int, m: string, c: char)
    requires n >= 0 && Blank(pad) && c in m && c !in name && c !in "    - :" && !IsDigit(c)
    ensures Free(Line(name, pad, Controller.Signed(n)), m)
  {
    DecimalReads(n);
    var line := Line(name, pad, Controller.Signed(n));
    hide Decimal, Number;
    assert c !in line;
    FreeByChar(line, m, c);
  }

  lemma TwoDashes(t: string, i: int)
    requires At(t, EndMarker(), i)
    ensures 0 <= i && i + 1 < |t| && t[i] == t[i + 1] == '-'
  {
    assert t[i] == t[i..i + 28][0] && t[i + 1] == t[i..i + 28][1];
  }

  // Only one dash in a line, so no dashes in a row.
  lemma LineWithoutRule(name: string, pad: string, n: int)
    requires n >= 0 && Blank(pad) && '-' !in name
    ensures Free(Line(name, pad, Controller.Signed(n)), EndMarker())
  {
    DecimalReads(n);
    hide Decimal, Number;
    var line := Line(name, pad, Controller.Signed(n));
    forall i
      ensures !At(line, EndMarker(), i)
    {
      if At(line, EndMarker(), i) {
        TwoDashes(line, i);
      }
    }
  }

  ghost predicate IsMarker(m: string) {
    m == PhaseMarker() || m == ClientMarker() || m == ServerMarker() || m == EndMarker()
  }

  // Digits and a point, as a finite non-negative number is printed.
  predicate Plain(value: string) {
    forall i | 0 <= i < |value| :: IsDigit(value[i]) || value[i] == '.'
  }

  lemma TimeFree(name: string, pad: string, value: string, unit: string, m: string, c: char)
    requires Plain(value) && Blank(pad) && c in m && c !in name && c !in unit && c !in "    - :." && !IsDigit(c)
    ensures Free(Line(name, pad, value + unit), m)
  {
    var line := Line(name, pad, value + unit);
    assert c !in line;
    FreeByChar(line, m, c);
  }

  lemma TimesWithout(duration: string, throughput: string, m: string, c: char, d: char)
    requires Plain(duration) && Plain(throughput) && c in m && d in m
    requires c !in "Duration" && c !in " s" && c !in "    - :." && !IsDigit(c)
    requires d !in "Throughput" && d !in " Mbps" && d !in "    - :." && !IsDigit(d)
    ensures AllFree(Times(duration, throughput), m)
  {
    hide Free, Line, Pad, Blank, IsDigit;
    TimeFree("Duration", Pad(13), duration, " s", m, c);
    TimeFree("Throughput", Pad(11), throughput, " Mbps", m, d);
  }

  lemma TimeWithoutRule(name: string, pad: string, value: string, unit: string)
    requires Plain(value) && Blank(pad) && '-' !in name && '-' !in unit
    ensures Free(Line(name, pad, value + unit), EndMarker())
  {
    var line := Line(name, pad, value + unit);
    forall i
      ensures !At(line, EndMarker(), i)
    {
      if At(line, EndMarker(), i) {
        TwoDashes(line, i);
      }
    }
  }

  lemma TimesWithoutRule(duration: string, throughput: string)
    requires Plain(duration) && Plain(throughput)
    ensures AllFree(Times(duration, throughput), EndMarker())
  {
    hide Free, Line, EndMarker, Plain, Pad, Blank;
    TimeWithoutRule("Duration", Pad(13), duration, " s");
    TimeWithoutRule("Throughput", Pad(11), throughput, " Mbps");
  }

  lemma ErrorsWithoutPhase(s: TestStats)
    requires NonNegative(s)
    ensures AllFree(Errors(s), PhaseMarker())
  {
    hide Free, Line, Controller.Signed, Pad, Blank;
    LineFree("Sequence Errors", Pad(6), s.sequenceErrorCount, PhaseMarker(), 'h');
    LineFree("Failed Checksums", Pad(5), s.failedChecksumCount, PhaseMarker(), 'P');
    LineFree("Content Mismatches", Pad(3), s.contentMismatchCount, PhaseMarker(), 'P');
    hide PhaseMarker;
  }

  lemma TotalsWithoutClient(s: TestStats)
    requires NonNegative(s)
    ensures AllFree(Totals(s), ClientMarker())
  {
    hide Free, Line, Controller.Signed, Pad, Blank;
    LineFree("Total Bytes Sent", Pad(5), s.totalBytesSent, ClientMarker(), 'i');
    LineFree("Total Packets Sent", Pad(3), s.totalPacketsSent, ClientMarker(), 'i');
    LineFree("Total Bytes Received", Pad(1), s.totalBytesReceived, ClientMarker(), 'n');
    LineFree("Total Packets Received", Pad(1), s.totalPacketsReceived, ClientMarker(), 'n');
    hide ClientMarker;
  }

  lemma ErrorsWithoutClient(s: TestStats)
    requires NonNegative(s)
    ensures AllFree(Errors(s), ClientMarker())
  {
    hide Free, Line, Controller.Signed, Pad, Blank;
    LineFree("Sequence Errors", Pad(6), s.sequenceErrorCount, ClientMarker(), 'l');
    LineFree("Failed Checksums", Pad(5), s.failedChecksumCount, ClientMarker(), 'n');
    LineFree("Content Mismatches", Pad(3), s.contentMismatchCount, ClientMarker(), 'l');
    hide ClientMarker;
  }

  lemma TotalsWithoutServer(s: TestStats)
    requires NonNegative(s)
    ensures AllFree(Totals(s), ServerMarker())
  {
    hide Free, Line, Controller.Signed, Pad, Blank;
    LineFree("Total Bytes Sent", Pad(5), s.totalBytesSent, ServerMarker(), 'v');
    LineFree("Total Packets Sent", Pad(3), s.totalPacketsSent, ServerMarker(), 'v');
    LineFree("Total Bytes Received", Pad(1), s.totalBytesReceived, ServerMarker(), 'S');
    LineFree("Total Packets Received", Pad(1), s.totalPacketsReceived, ServerMarker(), 'S');
    hide ServerMarker;
  }

  lemma ErrorsWithoutServer(s: TestStats)
    requires NonNegative(s)
    ensures AllFree(Errors(s), ServerMarker())
  {
    hide Free, Line, Controller.Signed, Pad, Blank;
    LineFree("Sequence Errors", Pad(6), s.sequenceErrorCount, ServerMarker(), 'v');
    LineFree("Failed Checksums", Pad(5), s.failedChecksumCount, ServerMarker(), 'v');
    LineFree("Content Mismatches", Pad(3), s.contentMismatchCount, ServerMarker(), 'v');
    hide ServerMarker;
  }

  lemma CountersWithoutRule(s: TestStats)
    requires NonNegative(s)
    ensures AllFree(Totals(s), EndMarker()) && AllFree(Errors(s), EndMarker())
  {
    hide Free, Line, EndMarker, Controller.Signed, Pad, Blank;
    LineWithoutRule("Total Bytes Sent", Pad(5), s.totalBytesSent);
    LineWithoutRule("Total Packets Sent", Pad(3), s.totalPacketsSent);
    LineWithoutRule("Total Bytes Received", Pad(1), s.totalBytesReceived);
    LineWithoutRule("Total Packets Received", Pad(1), s.totalPacketsReceived);
    LineWithoutRule("Sequence Errors", Pad(6), s.sequenceErrorCount);
    LineWithoutRule("Failed Checksums", Pad(5), s.failedChecksumCount);
    LineWithoutRule("Content Mismatches", Pad(3), s.contentMismatchCount);
  }

  lemma StatsUnmarked(s: TestStats, duration: string, throughput: string)
    requires NonNegative(s) && Plain(duration) && Plain(throughput)
    ensures forall m | IsMarker(m) :: AllFree(StatsLines(s, duration, throughput), m)
  {
    TotalsWithout(s, PhaseMarker(), 'h');
    ErrorsWithoutPhase(s);
    TotalsWithoutClient(s);
    ErrorsWithoutClient(s);
    TotalsWithoutServer(s);
    ErrorsWithoutServer(s);
    CountersWithoutRule(s);
    TimesWithout(duration, throughput, PhaseMarker(), 'P', 'P');
    TimesWithout(duration, throughput, ClientMarker(), 'C', 'C');
    TimesWithout(duration, throughput, ServerMarker(), 'S', 'S');
    TimesWithoutRule(duration, throughput);
    hide Totals, Times, Errors, Free, PhaseMarker, ClientMarker, ServerMarker, EndMarker;
  }

  // ---------- Reading the fields of a block ----------

  function Block(side: string, s: TestStats, duration: string, throughput: string, gap: string): string {
    side + Received(StatsLines(s, duration, throughput), gap, " ")
  }

  ghost predicate FieldName(name: string) {
    name != "" && name[0] !in "    - " && '\n' !in name
  }

  lemma TotalNames()
    ensures FieldName("Total Bytes Received") && FieldName("Total Packets Received")
    ensures Blank(Pad(1))
  {
  }

  lemma ErrorNames()
    ensures FieldName("Sequence Errors") && FieldName("Failed Checksums") && FieldName("Content Mismatches")
    ensures Blank(Pad(6)) && Blank(Pad(5)) && Blank(Pad(3))
  {
  }

  // Field j of a block, if its key occurs neither in the label line nor in an
  // earlier field.
  lemma FieldRead(side: string, tag: string, lines: seq<string>, j: nat, name: string, pad: string, n: nat,
                  gap: string)
    requires j < |lines| && lines[j] == Line(name, pad, Controller.Signed(n))
    requires FieldName(name) && Blank(pad)
    requires Free(side + tag, Key(name)) && forall i | 0 <= i < j :: Free(lines[i], Key(name))
    ensures ExtractLongLong(side + Tagged(tag, lines, gap, " "), name) == Some(n)
  {
    var key := Key(name);
    var z := Sep(gap, ']', " ");
    var later := Chain(lines[j + 1..], z);
    assert lines[j..][1..] == lines[j + 1..];
    assert Chain(lines[j..], z) == Sep(lines[j], '\n', later);
    var found := key + pad + Decimal(n) + (['\n'] + later);
    assert Sep(lines[j], '\n', later) == "    - " + found;
    assert At(found, key, 0);
    assert side + Tagged(tag, lines, gap, " ") == Sep(side + tag, '\n', Chain(lines, z)) by {
      BlockShape(side, tag, Chain(lines, z));
    }
    hide Decimal, Chain, At, Free, Onward, Tagged;
    OnwardPrefix("    - ", found, key);
    OnwardChain(lines, j, z, key);
    OnwardSep(side + tag, '\n', Chain(lines, z), key);
    hide Sep;
    Extracted(side + Tagged(tag, lines, gap, " "), name, pad, n, ['\n'] + later);
  }

  lemma BlockShape(side: string, tag: string, z: string)
    ensures side + Sep(tag, '\n', z) == Sep(side + tag, '\n', z)
  {
    assert side + (tag + ['\n'] + z) == side + tag + ['\n'] + z;
  }

  // ---------- The five counters of a block ----------

  // A key that does not occur before error field k.
  lemma FreeBeforeError(s: TestStats, duration: string, throughput: string, m: string, k: nat)
    requires k <= 3 && AllFree(Totals(s), m) && AllFree(Times(duration, throughput), m)
    requires forall i | 0 <= i < k :: Free(Errors(s)[i], m)
    ensures |StatsLines(s, duration, throughput)| == 9
    ensures forall i | 0 <= i < 6 + k :: Free(StatsLines(s, duration, throughput)[i], m)
  {
    var totals, times, errors := Totals(s), Times(duration, throughput), Errors(s);
    assert |totals| == 4 && |times| == 2 && |errors| == 3;
    hide Totals, Times, Errors, Free;
  }

  lemma TotalsKeysBefore(s: TestStats, duration: string, throughput: string)
    requires NonNegative(s)
    ensures var lines := StatsLines(s, duration, throughput);
            && |lines| == 9
            && (forall i | 0 <= i < 2 :: Free(lines[i], Key("Total Bytes Received")))
            && (forall i | 0 <= i < 3 :: Free(lines[i], Key("Total Packets Received")))
  {
    TotalsBefore(s);
    assert |Totals(s)| == 4 && |Times(duration, throughput)| == 2 && |Errors(s)| == 3;
    hide Totals, Times, Errors, Free, Key;
  }

  lemma TimesWithoutKeys(duration: string, throughput: string)
    requires Plain(duration) && Plain(throughput)
    ensures AllFree(Times(duration, throughput), Key("Sequence Errors"))
    ensures AllFree(Times(duration, throughput), Key("Failed Checksums"))
    ensures AllFree(Times(duration, throughput), Key("Content Mismatches"))
  {
    hide Times, AllFree, Plain;
    TimesWithout(duration, throughput, Key("Sequence Errors"), 'q', 'q');
    TimesWithout(duration, throughput, Key("Failed Checksums"), 'F', 'F');
    TimesWithout(duration, throughput, Key("Content Mismatches"), 'C', 'C');
  }

  lemma ErrorKeysBefore(s: TestStats, duration: string, throughput: string)
    requires NonNegative(s) && Plain(duration) && Plain(throughput)
    ensures var lines := StatsLines(s, duration, throughput);
            && |lines| == 9
            && (forall i | 0 <= i < 6 :: Free(lines[i], Key("Sequence Errors")))
            && (forall i | 0 <= i < 7 :: Free(lines[i], Key("Failed Checksums")))
            && (forall i | 0 <= i < 8 :: Free(lines[i], Key("Content Mismatches")))
  {
    hide Totals, Times, Errors, Free, Key, AllFree, StatsLines, NonNegative, Plain;
    LaterKeys(s);
    ErrorsBefore(s);
    TimesWithoutKeys(duration, throughput);
    FreeBeforeError(s, duration, throughput, Key("Sequence Errors"), 0);
    FreeBeforeError(s, duration, throughput, Key("Failed Checksums"), 1);
    FreeBeforeError(s, duration, throughput, Key("Content Mismatches"), 2);
  }

  lemma TotalsBefore(s: TestStats)
    requires NonNegative(s)
    ensures Free(Totals(s)[0], Key("Total Bytes Received")) && Free(Totals(s)[1], Key("Total Bytes Received"))
    ensures Free(Totals(s)[0], Key("Total Packets Received")) && Free(Totals(s)[1], Key("Total Packets Received"))
    ensures Free(Totals(s)[2], Key("Total Packets Received"))
  {
    hide Free, Line, Controller.Signed, Pad, Blank;
    SentTotalsWithout(s, Key("Total Bytes Received"), 'R');
    SentTotalsWithout(s, Key("Total Packets Received"), 'R');
    LineFree("Total Bytes Received", Pad(1), s.totalBytesReceived, Key("Total Packets Received"), 'P');
  }

  lemma SentTotalsWithout(s: TestStats, m: string, c: char)
    requires NonNegative(s) && c in m && c !in "    - :" && !IsDigit(c)
    requires c !in "Total Bytes Sent" && c !in "Total Packets Sent"
    ensures Free(Totals(s)[0], m) && Free(Totals(s)[1], m)
  {
    hide Free, Line, Controller.Signed, Pad, Blank, IsDigit;
    LineFree("Total Bytes Sent", Pad(5), s.totalBytesSent, m, c);
    LineFree("Total Packets Sent", Pad(3), s.totalPacketsSent, m, c);
  }

  lemma TotalsWithout(s: TestStats, m: string, c: char)
    requires NonNegative(s) && c in m && c !in "    - :" && !IsDigit(c)
    requires c !in "Total Bytes Sent" && c !in "Total Packets Sent" && c !in "Total Bytes Received"
        && c !in "Total Packets Received"
    ensures AllFree(Totals(s), m)
  {
    hide Free, Line, Controller.Signed, Pad, Blank, IsDigit;
    LineFree("Total Bytes Sent", Pad(5), s.totalBytesSent, m, c);
    LineFree("Total Packets Sent", Pad(3), s.totalPacketsSent, m, c);
    LineFree("Total Bytes Received", Pad(1), s.totalBytesReceived, m, c);
    LineFree("Total Packets Received", Pad(1), s.totalPacketsReceived, m, c);
  }

  lemma LaterKeys(s: TestStats)
    requires NonNegative(s)
    ensures AllFree(Totals(s), Key("Sequence Errors")) && AllFree(Totals(s), Key("Failed Checksums"))
        && AllFree(Totals(s), Key("Content Mismatches"))
  {
    hide Totals, AllFree, NonNegative;
    TotalsWithout(s, Key("Sequence Errors"), 'q');
    TotalsWithout(s, Key("Failed Checksums"), 'F');
    TotalsWithout(s, Key("Content Mismatches"), 'M');
  }

  lemma ErrorsBefore(s: TestStats)
    requires NonNegative(s)
    ensures Free(Errors(s)[0], Key("Failed Checksums")) && Free(Errors(s)[0], Key("Content Mismatches"))
    ensures Free(Errors(s)[1], Key("Content Mismatches"))
  {
    hide Free, Line, Controller.Signed, Pad, Blank;
    LineFree("Sequence Errors", Pad(6), s.sequenceErrorCount, Key("Failed Checksums"), 'F');
    LineFree("Sequence Errors", Pad(6), s.sequenceErrorCount, Key("Content Mismatches"), 'M');
    LineFree("Failed Checksums", Pad(5), s.failedChecksumCount, Key("Content Mismatches"), 'M');
  }

  ghost predicate IsSide(side: string) {
    side == ClientMarker() || side == ServerMarker()
  }

  lemma LabelWithout(side: string, m: string, c: char)
    requires IsSide(side) && c in m && c !in ClientMarker() && c !in ServerMarker() && c !in " (received):"
    ensures Free(side + " (received):", m)
  {
    hide ClientMarker, ServerMarker, Free;
    FreeByChar(side + " (received):", m, c);
  }

  lemma LabelWithoutTotals(side: string)
    requires IsSide(side)
    ensures Free(side + " (received):", Key("Total Bytes Received"))
        && Free(side + " (received):", Key("Total Packets Received"))
  {
    hide Free, IsSide;
    LabelWithout(side, Key("Total Bytes Received"), 'B');
    LabelWithout(side, Key("Total Packets Received"), 'P');
  }

  lemma LabelWithoutErrors(side: string)
    requires IsSide(side)
    ensures Free(side + " (received):", Key("Sequence Errors")) && Free(side + " (received):", Key("Failed Checksums"))
    ensures Free(side + " (received):", Key("Content Mismatches"))
  {
    hide Free, IsSide;
    LabelWithout(side, Key("Sequence Errors"), 'q');
    LabelWithout(side, Key("Failed Checksums"), 'F');
    LabelWithout(side, Key("Content Mismatches"), 'M');
  }

  lemma LinesInPlace(s: TestStats, duration: string, throughput: string)
    ensures var lines := StatsLines(s, duration, throughput);
            && |lines| == 9 && lines[2] == Totals(s)[2] && lines[3] == Totals(s)[3]
            && lines[6] == Errors(s)[0] && lines[7] == Errors(s)[1] && lines[8] == Errors(s)[2]
  {
    assert |Totals(s)| == 4 && |Times(duration, throughput)| == 2 && |Errors(s)| == 3;
    hide Totals, Times, Errors;
  }

  lemma BlockTotals(side: string, s: TestStats, duration: string, throughput: string, gap: string)
    requires IsSide(side) && NonNegative(s)
    ensures var block := Block(side, s, duration, throughput, gap);
            && ExtractLongLong(block, "Total Bytes Received") == Some(s.totalBytesReceived)
            && ExtractLongLong(block, "Total Packets Received") == Some(s.totalPacketsReceived)
  {
    hide StatsLines, Free, Line, Controller.Signed, Pad, Blank, Tagged, ExtractLongLong, IsSide, Key, FieldName;
    TotalNames();
    LabelWithoutTotals(side);
    TotalsKeysBefore(s, duration, throughput);
    LinesInPlace(s, duration, throughput);
    var lines := StatsLines(s, duration, throughput);
    FieldRead(side, " (received):", lines, 2, "Total Bytes Received", Pad(1), s.totalBytesReceived, gap);
    FieldRead(side, " (received):", lines, 3, "Total Packets Received", Pad(1), s.totalPacketsReceived, gap);
  }

  lemma BlockErrors(side: string, s: TestStats, duration: string, throughput: string, gap: string)
    requires IsSide(side) && NonNegative(s) && Plain(duration) && Plain(throughput)
    ensures var block := Block(side, s, duration, throughput, gap);
            && ExtractLongLong(block, "Sequence Errors") == Some(s.sequenceErrorCount)
            && ExtractLongLong(block, "Failed Checksums") == Some(s.failedChecksumCount)
            && ExtractLongLong(block, "Content Mismatches") == Some(s.contentMismatchCount)
  {
    hide StatsLines, Free, Line, Controller.Signed, Pad, Blank, Tagged, ExtractLongLong, Plain, IsSide, Key,
        FieldName;
    ErrorNames();
    LabelWithoutErrors(side);
    ErrorKeysBefore(s, duration, throughput);
    LinesInPlace(s, duration, throughput);
    var lines := StatsLines(s, duration, throughput);
    FieldRead(side, " (received):", lines, 6, "Sequence Errors", Pad(6), s.sequenceErrorCount, gap);
    FieldRead(side, " (received):", lines, 7, "Failed Checksums", Pad(5), s.failedChecksumCount, gap);
    FieldRead(side, " (received):", lines, 8, "Content Mismatches", Pad(3), s.contentMismatchCount, gap);
  }

  // A block gives back every counter that was printed into it.
  lemma BlockFields(side: string, s: TestStats, duration: string, throughput: string, gap: string)
    requires IsSide(side) && NonNegative(s) && Plain(duration) && Plain(throughput)
    ensures var block := Block(side, s, duration, throughput, gap);
            && ExtractLongLong(block, "Total Bytes Received") == Some(s.totalBytesReceived)
            && ExtractLongLong(block, "Total Packets Received") == Some(s.totalPacketsReceived)
            && ExtractLongLong(block, "Sequence Errors") == Some(s.sequenceErrorCount)
            && ExtractLongLong(block, "Failed Checksums") == Some(s.failedChecksumCount)
            && ExtractLongLong(block, "Content Mismatches") == Some(s.contentMismatchCount)
  {
    hide Block, ExtractLongLong, IsSide, Plain;
    BlockTotals(side, s, duration, throughput, gap);
    BlockErrors(side, s, duration, throughput, gap);
  }

  // ---------- Agreement with the result file ----------

  // Log text around the messages of a summary: no marker occurs in it.
  ghost predicate Unrelated(text: string) {
    forall m | IsMarker(m) :: Free(text, m)
  }

  datatype Printout = Printout(stats: TestStats, duration: string, throughput: string) {
    function Lines(): seq<string> {
      StatsLines(stats, duration, throughput)
    }

    ghost predicate Valid() {
      NonNegative(stats) && Plain(duration) && Plain(throughput)
    }
  }

  ghost predicate IsTitle(title: string) {
    title == "Test Phase 1 Summary" || title == "Test Phase 2 Summary"
  }

  ghost predicate Sides(first: string, side: string) {
    || (first == "Client-side (sent)" && side == ServerMarker())
    || (first == "Server-side (sent)" && side == ClientMarker())
  }

  lemma TitleStarts(title: string)
    requires IsTitle(title)
    ensures |title| == 20 && title == PhaseMarker() + title[11..]
  {
    assert title[..11] == PhaseMarker();
  }

  lemma TitleFacts(title: string)
    requires IsTitle(title)
    ensures Separable(title) && title[0] !in " --- "
    ensures forall t | Free(t, PhaseMarker()) :: Free(t, title)
    ensures Free(title + " ---", ClientMarker()) && Free(title + " ---", ServerMarker())
  {
    TitleStarts(title);
    TitleChars(title);
    TitleWithoutMarkers(title);
    hide PhaseMarker, ClientMarker, ServerMarker, Free, IsTitle;
    forall t | Free(t, PhaseMarker())
      ensures Free(t, title)
    {
      FreeLonger(t, PhaseMarker(), title[11..]);
    }
  }

  lemma TitleChars(title: string)
    requires IsTitle(title)
    ensures Separable(title) && title[0] !in " --- "
  {
  }

  lemma TitleWithoutMarkers(title: string)
    requires IsTitle(title)
    ensures Free(title + " ---", ClientMarker()) && Free(title + " ---", ServerMarker())
  {
    hide Free;
    FreeByChar(title + " ---", ClientMarker(), 'C');
    FreeByChar(title + " ---", ServerMarker(), 'v');
  }

  lemma LabelFacts(first: string, side: string)
    requires Sides(first, side)
    ensures IsSide(side) && Free(" " + first + ":", side) && Free(" " + first + ":", PhaseMarker())
    ensures Free(" " + side + " (received):", PhaseMarker())
  {
    FirstWithoutSide(first, side);
    LabelsWithoutPhase(first, side);
    hide *;
  }

  lemma FirstWithoutSide(first: string, side: string)
    requires Sides(first, side)
    ensures IsSide(side) && Free(" " + first + ":", side)
  {
    hide Free;
    FreeByChar(" " + first + ":", side, if side == ServerMarker() then 'v' else 'C');
  }

  lemma LabelsWithoutPhase(first: string, side: string)
    requires Sides(first, side)
    ensures Free(" " + first + ":", PhaseMarker()) && Free(" " + side + " (received):", PhaseMarker())
  {
    hide Free;
    FreeByChar(" " + first + ":", PhaseMarker(), 'T');
    FreeByChar(" " + side + " (received):", PhaseMarker(), 'T');
  }

  lemma FixedFacts()
    ensures Free(" ---", PhaseMarker()) && Free(" " + EndMarker(), PhaseMarker())
    ensures Free(" (received):", ClientMarker()) && Free(" (received):", ServerMarker())
        && Free(" (received):", EndMarker())
  {
    hide Free;
    FreeByChar(" ---", PhaseMarker(), 'T');
    FreeByChar(" " + EndMarker(), PhaseMarker(), 'T');
    FreeByChar(" (received):", ClientMarker(), 'C');
    FreeByChar(" (received):", ServerMarker(), 'S');
    FreeByChar(" (received):", EndMarker(), '-');
  }

  function Printed(title: string, first: string, sent: Printout, side: string, received: Printout, gaps: seq<string>,
                   later: string): string
    requires |gaps| == 4
  {
    PhaseSummary(title, first, FormatStatsForLogging(sent.stats, sent.duration, sent.throughput),
                 side + " (received)", FormatStatsForLogging(received.stats, received.duration, received.throughput),
                 gaps, later)
  }

  ghost predicate GapsUnrelated(gaps: seq<string>) {
    |gaps| == 4 && forall i | 0 <= i < 4 :: Unrelated(gaps[i])
  }

  // Wherever a summary has been found, its receiving block is cut out exactly.
  lemma BlockCutOut(output: string, title: string, first: string, sent: Printout, side: string, received: Printout,
                    gaps: seq<string>, later: string)
    requires IsTitle(title) && Sides(first, side) && sent.Valid() && received.Valid() && GapsUnrelated(gaps)
    requires Onward(output, title) == Onward(Printed(title, first, sent, side, received, gaps, later), title)
    ensures SliceLabelBlock(SlicePhase(output, title), side)
         == Block(side, received.stats, received.duration, received.throughput, gaps[3])
  {
    TitleFacts(title);
    LabelFacts(first, side);
    FixedFacts();
    MarkersSeparable();
    StatsUnmarked(sent.stats, sent.duration, sent.throughput);
    StatsUnmarked(received.stats, received.duration, received.throughput);
    hide PhaseMarker, ClientMarker, ServerMarker, EndMarker, Free, Separable, AllFree, StatsLines;
    TitleFound(title, first, sent.Lines(), side, received.Lines(), gaps, later);
    hide PhaseSummary, FromTitle, Onward, SlicePhase, SliceLabelBlock;
    PhaseOf(output, title, first, sent.Lines(), side, received.Lines(), gaps, later);
    BlockOf(title, first, sent.Lines(), side, received.Lines(), gaps, Upto(later, PhaseMarker()));
  }

  const PHASE_1 := "Test Phase 1 Summary"
  const PHASE_2 := "Test Phase 2 Summary"

  // Everything MyIperf logs: both summaries, with other log text around their
  // messages, and anything after them.
  function LogText(client1: Printout, server1: Printout, client2: Printout, server2: Printout,
                   gaps1: seq<string>, gaps2: seq<string>, later: string): string
    requires |gaps1| == |gaps2| == 4
  {
    Printed(PHASE_1, "Client-side (sent)", client1, ServerMarker(), server1, gaps1,
    Printed(PHASE_2, "Server-side (sent)", server2, ClientMarker(), client2, gaps2, later))
  }

  lemma AfterTitleTransfers(first: string, sent: seq<string>, side: string, received: seq<string>, gaps: seq<string>,
                            m: string, n: string)
    requires |gaps| == 4 && AfterTitle(first, sent, side, received, gaps, m)
    requires forall t | Free(t, m) :: Free(t, n)
    ensures AfterTitle(first, sent, side, received, gaps, n)
  {
    hide Free, EndMarker;
  }

  // No title occurs in a summary after its own title.
  lemma SummaryWithoutTitle(first: string, sent: Printout, side: string, received: Printout, gaps: seq<string>,
                            title: string)
    requires Sides(first, side) && sent.Valid() && received.Valid() && GapsUnrelated(gaps) && IsTitle(title)
    ensures AfterTitle(first, sent.Lines(), side, received.Lines(), gaps, title) && Free(gaps[0], title)
  {
    TitleFacts(title);
    LabelFacts(first, side);
    FixedFacts();
    StatsUnmarked(sent.stats, sent.duration, sent.throughput);
    StatsUnmarked(received.stats, received.duration, received.throughput);
    hide PhaseMarker, ClientMarker, ServerMarker, EndMarker, Free, AllFree, StatsLines, Sides, IsTitle, Separable;
    assert AfterTitle(first, sent.Lines(), side, received.Lines(), gaps, PhaseMarker());
    hide AfterTitle;
    AfterTitleTransfers(first, sent.Lines(), side, received.Lines(), gaps, PhaseMarker(), title);
  }

  // The search for the second summary passes over the first.
  lemma SecondSummary(client1: Printout, server1: Printout, client2: Printout, server2: Printout,
                      gaps1: seq<string>, gaps2: seq<string>, later: string)
    requires client1.Valid() && server1.Valid() && GapsUnrelated(gaps1) && |gaps2| == 4
    ensures Onward(LogText(client1, server1, client2, server2, gaps1, gaps2, later), PHASE_2)
         == Onward(Printed(PHASE_2, "Server-side (sent)", server2, ClientMarker(), client2, gaps2, later), PHASE_2)
  {
    TitleChars(PHASE_2);
    FreeByChar(" --- " + PHASE_1 + " ---", PHASE_2, '2');
    hide Free, PhaseMarker, EndMarker, Separable, StatsLines, PhaseSummary, Onward, AfterTitle;
    SummaryWithoutTitle("Client-side (sent)", client1, ServerMarker(), server1, gaps1, PHASE_2);
    hide ClientMarker, ServerMarker;
    var second := Printed(PHASE_2, "Server-side (sent)", server2, ClientMarker(), client2, gaps2, later);
    SummarySkipped(PHASE_1, "Client-side (sent)", client1.Lines(), ServerMarker(), server1.Lines(), gaps1, second,
        PHASE_2);
  }

  function Counters(r: TestResult): (int, int, int, int, int) {
    (r.totalBytes, r.totalPackets, r.sequenceErrors, r.checksumErrors, r.contentMismatches)
  }

  function ReceivedCounters(s: TestStats): (int, int, int, int, int) {
    (s.totalBytesReceived, s.totalPacketsReceived, s.sequenceErrorCount, s.failedChecksumCount, s.contentMismatchCount)
  }

  lemma BlockParsed(output: string, title: string, side: string, p: Printout, gap: string, role: string)
    requires IsSide(side) && p.Valid()
    requires SliceLabelBlock(SlicePhase(output, title), side) == Block(side, p.stats, p.duration, p.throughput, gap)
    ensures var (result, parsed) := TryParsePreferredBlock(output, title, side, false, NewResult(role));
            parsed && Counters(result) == ReceivedCounters(p.stats) && result.role == role && result.failureReason == ""
  {
    BlockFields(side, p.stats, p.duration, p.throughput, gap);
    assert Block(side, p.stats, p.duration, p.throughput, gap) != "";
    hide Block, ExtractLongLong, SliceLabelBlock, SlicePhase;
  }

  // For each role the log text gives the counters that its receiving side
  // printed, and counts as parsed and successful when packets were received.
  lemma ParseReadsReceived(client1: Printout, server1: Printout, client2: Printout, server2: Printout,
                           gaps1: seq<string>, gaps2: seq<string>, later: string, role: string)
    requires client1.Valid() && server1.Valid() && client2.Valid() && server2.Valid()
    requires GapsUnrelated(gaps1) && GapsUnrelated(gaps2)
    ensures var received := if role == "Client" then client2.stats else server1.stats;
            var result := Parse(LogText(client1, server1, client2, server2, gaps1, gaps2, later), role);
            && Counters(result) == ReceivedCounters(received)
            && result.success == (received.totalPacketsReceived > 0)
            && (result.failureReason == "" <==> result.success)
  {
    var output := LogText(client1, server1, client2, server2, gaps1, gaps2, later);
    var second := Printed(PHASE_2, "Server-side (sent)", server2, ClientMarker(), client2, gaps2, later);
    hide Printed, Onward, SliceLabelBlock, SlicePhase, Block, TryParsePreferredBlock, Printout.Valid;
    if role == "Client" {
      SecondSummary(client1, server1, client2, server2, gaps1, gaps2, later);
      BlockCutOut(output, PHASE_2, "Server-side (sent)", server2, ClientMarker(), client2, gaps2, later);
      BlockParsed(output, PHASE_2, ClientMarker(), client2, gaps2[3], role);
    } else {
      BlockCutOut(output, PHASE_1, "Client-side (sent)", client1, ServerMarker(), server1, gaps1, second);
      BlockParsed(output, PHASE_1, ServerMarker(), server1, gaps1[3], role);
    }
  }

  // The fallback agrees with the result file on every counter of either role.
  lemma TextAgreesWithFile(client1: Printout, server1: Printout, client2: Printout, server2: Printout,
                           gaps1: seq<string>, gaps2: seq<string>, later: string, role: string,
                           state: Controller.State, config: Config, runId: string, warning: string, reason: string)
    requires client1.Valid() && server1.Valid() && client2.Valid() && server2.Valid()
    requires GapsUnrelated(gaps1) && GapsUnrelated(gaps2) && runId != ""
    ensures var stats := Controller.PhaseStats(client1.stats, server1.stats, client2.stats, server2.stats);
            var file := ParseResultFile(runId, role,
                Controller.BuildResult(state, config, runId, warning, stats, reason));
            var text := Parse(LogText(client1, server1, client2, server2, gaps1, gaps2, later), role);
            file.Some? && Counters(text) == Counters(file.value)
  {
    ParseReadsReceived(client1, server1, client2, server2, gaps1, gaps2, later, role);
    hide Parse, ParseResultFile, LogText, Controller.ValidateReceiverStats, Controller.StateToString, Printout.Valid,
        GapsUnrelated;
    var stats := Controller.PhaseStats(client1.stats, server1.stats, client2.stats, server2.stats);
    ParsedFields(runId, role, Controller.BuildResult(state, config, runId, warning, stats, reason));
  }

  lemma CountersJudged(text: TestResult, own: TestStats, config: Config)
    requires Counters(text) == ReceivedCounters(own)
    requires text.success == (own.totalPacketsReceived > 0) && (text.failureReason == "" <==> text.success)
    ensures Analyzed(text, config.numPackets, config.packetSize * config.numPackets).success
        <==> Controller.Complete(own, config) && own.totalPacketsReceived > 0
  {
    hide Faults;
    if config.numPackets > 0 {
      Controller.PositiveProduct(config.packetSize, config.numPackets);
    }
  }

  // ... but not always on the verdict: the text tells success by the role's own
  // receiving phase alone, the file by both phases and the final state.
  lemma TextVerdict(client1: Printout, server1: Printout, client2: Printout, server2: Printout,
                    gaps1: seq<string>, gaps2: seq<string>, later: string, role: string, config: Config)
    requires client1.Valid() && server1.Valid() && client2.Valid() && server2.Valid()
    requires GapsUnrelated(gaps1) && GapsUnrelated(gaps2)
    ensures var text := Parse(LogText(client1, server1, client2, server2, gaps1, gaps2, later), role);
            var own := if role == "Client" then client2.stats else server1.stats;
            Analyzed(text, config.numPackets, config.packetSize * config.numPackets).success
            <==> Controller.Complete(own, config) && own.totalPacketsReceived > 0
  {
    hide Parse, LogText, Printout.Valid, Unrelated, Analyzed, Controller.Complete, Counters, ReceivedCounters;
    ParseReadsReceived(client1, server1, client2, server2, gaps1, gaps2, later, role);
    var text := Parse(LogText(client1, server1, client2, server2, gaps1, gaps2, later), role);
    CountersJudged(text, if role == "Client" then client2.stats else server1.stats, config);
  }

  // The two verdicts on one run agree exactly when the run failed in the role's
  // own receiving phase or nothing was received there, or it finished with the
  // other phase complete as well.
  lemma VerdictsAgree(client1: Printout, server1: Printout, client2: Printout, server2: Printout,
                      gaps1: seq<string>, gaps2: seq<string>, later: string, role: string,
                      state: Controller.State, config: Config, runId: string, warning: string, reason: string)
    requires client1.Valid() && server1.Valid() && client2.Valid() && server2.Valid()
    requires GapsUnrelated(gaps1) && GapsUnrelated(gaps2) && runId != ""
    ensures var stats := Controller.PhaseStats(client1.stats, server1.stats, client2.stats, server2.stats);
            var result := Controller.BuildResult(state, config, runId, warning, stats, reason);
            var file := ParseResultFile(runId, role, result);
            var text := Parse(LogText(client1, server1, client2, server2, gaps1, gaps2, later), role);
            var packets, bytes := config.numPackets, config.packetSize * config.numPackets;
            var (own, other) :=
              if role == "Client" then (client2.stats, server1.stats) else (server1.stats, client2.stats);
            && file.Some?
            && ((Analyzed(text, packets, bytes).success <==> Analyzed(file.value, packets, bytes).success)
                <==> (Controller.Complete(own, config) && own.totalPacketsReceived > 0 ==>
                        state == Controller.FINISHED && Controller.Complete(other, config)))
  {
    var stats := Controller.PhaseStats(client1.stats, server1.stats, client2.stats, server2.stats);
    hide Parse, ParseResultFile, LogText, Analyzed, Controller.BuildResult, Controller.Complete, Printout.Valid,
        GapsUnrelated;
    TextVerdict(client1, server1, client2, server2, gaps1, gaps2, later, role, config);
    SameVerdict(state, config, runId, warning, stats, reason, role);
    Controller.VerdictMeaning(state, config, runId, warning, stats, reason);
  }

  // A run on which they differ: phase 1 went through, phase 2 delivered nothing.
  // The server passes by its log text and fails by its result file.
  lemma VerdictsDiffer(runId: string)
    requires runId != ""
    ensures var config := Config(100, 1, SERVER);
            var full := Printout(TestStats(0, 0, 100, 1, 0, 0, 0), "0.10", "0.01");
            var none := Printout(NO_STATS, "0.00", "0.00");
            var stats := Controller.PhaseStats(none.stats, full.stats, none.stats, none.stats);
            var file := ParseResultFile(runId, "Server",
                                        Controller.BuildResult(Controller.FINISHED, config, runId, "", stats, ""));
            var text := Parse(LogText(none, full, none, none, ["", "", "", ""], ["", "", "", ""], ""), "Server");
            && Analyzed(text, 1, 100).success
            && file.Some? && !Analyzed(file.value, 1, 100).success
  {
    var config := Config(100, 1, SERVER);
    var full, none := Printout(TestStats(0, 0, 100, 1, 0, 0, 0), "0.10", "0.01"), Printout(NO_STATS, "0.00", "0.00");
    var gaps := ["", "", "", ""];
    NothingUnrelated();
    SampleStats();
    hide Parse, ParseResultFile, LogText, Analyzed, Controller.BuildResult, Controller.Complete, Printout.Valid,
        Unrelated;
    TextVerdict(none, full, none, none, gaps, gaps, "", "Server", config);
    VerdictsAgree(none, full, none, none, gaps, gaps, "", "Server", Controller.FINISHED, config, runId, "", "");
  }

  lemma SampleStats()
    ensures var config, full := Config(100, 1, SERVER), TestStats(0, 0, 100, 1, 0, 0, 0);
            && Controller.Complete(full, config) && !Controller.Complete(NO_STATS, config)
            && Printout(full, "0.10", "0.01").Valid() && Printout(NO_STATS, "0.00", "0.00").Valid()
  {
  }

  lemma NothingUnrelated()
    ensures Unrelated("")
  {
    MarkersSeparable();
    hide PhaseMarker, ClientMarker, ServerMarker, EndMarker;
  }
}
