// Splitting the bytes read from a result pipe into event lines.
module PipeReading {

  const NEWLINE: char := '\n'
  const RETURN: char := '\r'

  // The newline-separated pieces of a text; one more than it has newlines.
  function Pieces(text: string): (pieces: seq<string>)
    ensures pieces != []
  {
    if text == "" then [""] else Extend(Pieces(text[..|text| - 1]), text[|text| - 1])
  }

  // One more character at the end of a text.
  function Extend(pieces: seq<string>, c: char): (longer: seq<string>)
    requires pieces != []
    ensures longer != []
  {
    var n := |pieces| - 1;
    if c == NEWLINE then pieces + [""] else pieces[..n] + [pieces[n] + [c]]
  }

  function Complete(text: string): seq<string> {
    Pieces(text)[..|Pieces(text)| - 1]
  }

  function Unfinished(text: string): string {
    Pieces(text)[|Pieces(text)| - 1]
  }

  function Clean(line: string): string {
    if line != "" && line[|line| - 1] == RETURN then line[..|line| - 1] else line
  }

  // The event lines of some pieces: cleaned, and not empty.
  function EventLines(pieces: seq<string>): seq<string> {
    if pieces == [] then []
    else
      var line := Clean(pieces[|pieces| - 1]);
      EventLines(pieces[..|pieces| - 1]) + if line == "" then [] else [line]
  }

  // ---------- What Pieces means ----------

  function Unlines(pieces: seq<string>): string
    requires pieces != []
  {
    if |pieces| == 1 then pieces[0] else Unlines(pieces[..|pieces| - 1]) + [NEWLINE] + pieces[|pieces| - 1]
  }

  lemma UnlinesExtend(pieces: seq<string>, c: char)
    requires pieces != []
    ensures Unlines(Extend(pieces, c)) == Unlines(pieces) + [c]
  {
    var n := |pieces| - 1;
    if c == NEWLINE {
      assert (pieces + [""])[..|pieces|] == pieces;
      assert Unlines(pieces) + [NEWLINE] + "" == Unlines(pieces) + [c];
    } else {
      assert Extend(pieces, c)[..n] == pieces[..n];
      if n > 0 {
        var front := Unlines(pieces[..n]);
        assert front + [NEWLINE] + (pieces[n] + [c]) == front + [NEWLINE] + pieces[n] + [c];
      }
    }
  }

  lemma ExtendClean(pieces: seq<string>, c: char)
    requires pieces != [] && forall piece | piece in pieces :: NEWLINE !in piece
    ensures forall piece | piece in Extend(pieces, c) :: NEWLINE !in piece
  {
    var n := |pieces| - 1;
    assert pieces[n] in pieces;
    forall piece | piece in Extend(pieces, c)
      ensures NEWLINE !in piece
    {
      assert piece in pieces || piece == "" || (c != NEWLINE && piece == pieces[n] + [c]);
    }
  }

  // The pieces contain no newline and, joined by newlines, give the text.
  lemma {:induction false} PiecesMeaning(text: string)
    ensures Unlines(Pieces(text)) == text
    ensures forall piece | piece in Pieces(text) :: NEWLINE !in piece
  {
    hide Extend;
    if text != "" {
      var front, c := text[..|text| - 1], text[|text| - 1];
      PiecesMeaning(front);
      UnlinesExtend(Pieces(front), c);
      ExtendClean(Pieces(front), c);
      hide Unlines;
    }
  }

  // ---------- Reading in chunks ----------

  lemma ExtendConcat(done: seq<string>, pieces: seq<string>, c: char)
    requires pieces != []
    ensures Extend(done + pieces, c) == done + Extend(pieces, c)
  {
    assert (done + pieces)[..|done + pieces| - 1] == done + pieces[..|pieces| - 1];
  }

  lemma {:induction false} PiecesConcat(a: string, b: string)
    ensures Pieces(a + b) == Complete(a) + Pieces(Unfinished(a) + b)
    decreases |b|
  {
    hide Extend;
    var rest := Unfinished(a);
    if b == "" {
      assert a + b == a && rest + b == rest;
      OnePiece(a);
      assert Pieces(a) == Complete(a) + [rest];
    } else {
      var n := |b| - 1;
      PiecesConcat(a, b[..n]);
      ExtendConcat(Complete(a), Pieces(rest + b[..n]), b[n]);
      assert (a + b)[..|a + b| - 1] == a + b[..n];
      assert (rest + b)[..|rest + b| - 1] == rest + b[..n];
      hide Complete, Unfinished;
    }
  }

  // Text without a newline is one piece.
  lemma {:induction false} NoNewline(text: string)
    requires NEWLINE !in text
    ensures Pieces(text) == [text]
  {
    if text != "" {
      var front, c := text[..|text| - 1], text[|text| - 1];
      NoNewline(front);
      assert c in text && front + [c] == text;
      ExtendOnly(front, c);
      hide Extend;
    }
  }

  lemma ExtendOnly(piece: string, c: char)
    requires c != NEWLINE
    ensures Extend([piece], c) == [piece + [c]]
  {
  }

  lemma OnePiece(a: string)
    ensures NEWLINE !in Unfinished(a)
    ensures Pieces(Unfinished(a)) == [Unfinished(a)]
  {
    PiecesMeaning(a);
    hide Pieces;
    assert Unfinished(a) in Pieces(a);
    NoNewline(Unfinished(a));
  }

  lemma {:induction false} EventLinesConcat(ps: seq<string>, qs: seq<string>)
    ensures EventLines(ps + qs) == EventLines(ps) + EventLines(qs)
    decreases |qs|
  {
    if qs == [] {
      assert ps + qs == ps;
    } else {
      assert (ps + qs)[..|ps + qs| - 1] == ps + qs[..|qs| - 1];
      EventLinesConcat(ps, qs[..|qs| - 1]);
    }
  }

  // The state of a reader, and what consumeChunk makes of it.
  datatype Reading = Reading(lines: seq<string>, pending: string)

  function Consume(r: Reading, data: string): Reading {
    var text := r.pending + data;
    Reading(r.lines + EventLines(Complete(text)), Unfinished(text))
  }

  function ConsumeAll(r: Reading, chunks: seq<string>): Reading
    decreases |chunks|
  {
    if chunks == [] then r else ConsumeAll(Consume(r, chunks[0]), chunks[1..])
  }

  function Flush(r: Reading): seq<string> {
    r.lines + EventLines([r.pending])
  }

  function Concat(chunks: seq<string>): string {
    if chunks == [] then "" else chunks[0] + Concat(chunks[1..])
  }

  lemma {:induction false} ChunkedLines(r: Reading, chunks: seq<string>)
    requires NEWLINE !in r.pending
    ensures Flush(ConsumeAll(r, chunks)) == r.lines + EventLines(Pieces(r.pending + Concat(chunks)))
    decreases |chunks|
  {
    hide Pieces, EventLines, Complete, Unfinished;
    if chunks == [] {
      assert r.pending + "" == r.pending;
      NoNewline(r.pending);
    } else {
      var text, later := r.pending + chunks[0], Concat(chunks[1..]);
      OnePiece(text);
      ChunkedLines(Consume(r, chunks[0]), chunks[1..]);
      assert r.pending + Concat(chunks) == text + later;
      PiecesConcat(text, later);
      EventLinesConcat(Complete(text), Pieces(Unfinished(text) + later));
    }
  }

  // However the text arrives, consuming its chunks and flushing gives exactly
  // the event lines of the whole text.
  lemma SplitterIgnoresChunks(chunks: seq<string>)
    ensures Flush(ConsumeAll(Reading([], ""), chunks)) == EventLines(Pieces(Concat(chunks)))
  {
    ChunkedLines(Reading([], ""), chunks);
    assert "" + Concat(chunks) == Concat(chunks);
  }

  // ---------- Written lines come back ----------

  predicate IsLine(line: string) {
    NEWLINE !in line && Clean(line) == line && line != ""
  }

  function Text(lines: seq<string>): string {
    if lines == [] then "" else Text(lines[..|lines| - 1]) + (lines[|lines| - 1] + [NEWLINE])
  }

  lemma {:induction false} ConcatLast(chunks: seq<string>, last: string)
    ensures Concat(chunks + [last]) == Concat(chunks) + last
    decreases |chunks|
  {
    if chunks == [] {
      assert [] + [last] == [last] && last + "" == last;
    } else {
      assert (chunks + [last])[1..] == chunks[1..] + [last];
      ConcatLast(chunks[1..], last);
    }
  }

  lemma LineRead(front: string, line: string)
    requires Unfinished(front) == "" && IsLine(line)
    ensures var text := front + (line + [NEWLINE]);
            Complete(text) == Complete(front) + [line] && Unfinished(text) == ""
    ensures EventLines(Complete(front) + [line]) == EventLines(Complete(front)) + [line]
  {
    LineAdded(Complete(front), line);
    hide EventLines;
    hide Unfinished, Complete, Clean;
    var text := front + (line + [NEWLINE]);
    assert text[..|front|] == front && text[..|text|] == text;
    assert text[|front|..|text| - 1] == line;
    NextPiece(text, |front|, |text| - 1);
  }

  lemma {:induction false} LinesComplete(lines: seq<string>)
    requires forall line | line in lines :: IsLine(line)
    ensures Unfinished(Text(lines)) == "" && EventLines(Complete(Text(lines))) == lines
  {
    if lines == [] {
      EmptyText();
    } else {
      hide EventLines, Complete, Unfinished, IsLine;
      var init, last := lines[..|lines| - 1], lines[|lines| - 1];
      LinesComplete(init);
      assert lines == init + [last] && Text(lines) == Text(init) + (last + [NEWLINE]);
      hide Text;
      LineRead(Text(init), last);
    }
  }

  // Lines that are not empty, contain no newline and end in no carriage return
  // are read back exactly.
  lemma LinesComeBack(lines: seq<string>)
    requires forall line | line in lines :: IsLine(line)
    ensures EventLines(Pieces(Text(lines))) == lines
  {
    hide Pieces, EventLines, Complete, Unfinished, Text;
    LinesComplete(lines);
    var text := Text(lines);
    LastIsUnfinished(text);
    LineAdded(Complete(text), "");
  }

  // ---------- Other line endings and empty lines ----------

  function Ended(line: string, crlf: bool): string {
    if crlf then line + [RETURN] else line
  }

  // Lines ended by a newline, with or without a carriage return before it.
  function RawText(lines: seq<string>, crlf: seq<bool>): string
    requires |lines| == |crlf|
  {
    if lines == [] then ""
    else
      var n := |lines| - 1;
      RawText(lines[..n], crlf[..n]) + (Ended(lines[n], crlf[n]) + [NEWLINE])
  }

  function NonEmpty(lines: seq<string>): seq<string> {
    if lines == [] then []
    else NonEmpty(lines[..|lines| - 1]) + if lines[|lines| - 1] == "" then [] else [lines[|lines| - 1]]
  }

  lemma EndedClean(line: string, crlf: bool)
    requires IsLine(line) || line == ""
    ensures Clean(Ended(line, crlf)) == line && NEWLINE !in Ended(line, crlf)
  {
    assert (line + [RETURN])[..|line|] == line;
  }

  lemma RawLineRead(front: string, raw: string)
    requires Unfinished(front) == "" && NEWLINE !in raw
    ensures var text := front + (raw + [NEWLINE]);
            Complete(text) == Complete(front) + [raw] && Unfinished(text) == ""
  {
    hide Unfinished, Complete;
    var text := front + (raw + [NEWLINE]);
    assert text[..|front|] == front && text[..|text|] == text;
    assert text[|front|..|text| - 1] == raw;
    NextPiece(text, |front|, |text| - 1);
  }

  lemma {:induction false} RawComplete(lines: seq<string>, crlf: seq<bool>)
    requires |lines| == |crlf| && forall line | line in lines :: IsLine(line) || line == ""
    ensures Unfinished(RawText(lines, crlf)) == "" && EventLines(Complete(RawText(lines, crlf))) == NonEmpty(lines)
  {
    if lines == [] {
      EmptyText();
    } else {
      hide EventLines, Complete, Unfinished, IsLine;
      var n := |lines| - 1;
      RawComplete(lines[..n], crlf[..n]);
      assert lines[n] in lines;
      EndedClean(lines[n], crlf[n]);
      RawLineRead(RawText(lines[..n], crlf[..n]), Ended(lines[n], crlf[n]));
      hide Ended;
      LineAdded(Complete(RawText(lines[..n], crlf[..n])), Ended(lines[n], crlf[n]));
    }
  }

  // A line ended by a carriage return and a newline is read without either, and
  // empty lines are passed over.
  lemma LineEndings(lines: seq<string>, crlf: seq<bool>)
    requires |lines| == |crlf| && forall line | line in lines :: IsLine(line) || line == ""
    ensures EventLines(Pieces(RawText(lines, crlf))) == NonEmpty(lines)
  {
    hide Pieces, EventLines, Complete, Unfinished, RawText, NonEmpty;
    RawComplete(lines, crlf);
    var text := RawText(lines, crlf);
    LastIsUnfinished(text);
    LineAdded(Complete(text), "");
  }

  lemma LastIsUnfinished(text: string)
    ensures Pieces(text) == Complete(text) + [Unfinished(text)]
  {
    hide Pieces;
  }

  class PipeReader {
    var eventLines: seq<string>
    var pending: string

    function State(): Reading
      reads this
    {
      Reading(eventLines, pending)
    }

    constructor ()
      ensures State() == Reading([], "")
    {
      eventLines, pending := [], "";
    }

    method AddLine(line: string)
      modifies this`eventLines
      ensures eventLines == old(eventLines) + if line == "" then [] else [line]
    {
      if line == "" {
        return;
      }
      eventLines := eventLines + [line];
    }

    method ConsumeChunk(data: string)
      modifies this
      ensures State() == Consume(old(State()), data)
    {
      hide Pieces, EventLines, Clean, Complete, Unfinished;
      pending := pending + data;
      var pos := 0;
      EmptyText();
      assert pending[..0] == "" && pending[0..] == pending;
      while true
        invariant 0 <= pos <= |pending| && pending == old(pending) + data
        invariant eventLines == old(eventLines) + EventLines(Complete(pending[..pos]))
        invariant Unfinished(pending[..pos]) == ""
        decreases |pending| - pos
      {
        var newline := Find(pending, pos);
        if newline == |pending| {
          LastPiece(pending, pos);
          if pos > 0 {
            pending := pending[pos..];
          }
          return;
        }
        var line := pending[pos..newline];
        NextPiece(pending, pos, newline);
        LineAdded(Complete(pending[..pos]), line);
        line := CleanLine(line);
        AddLine(line);
        pos := newline + 1;
      }
    }

    method FlushPending()
      modifies this
      ensures eventLines == Flush(old(State())) && pending == ""
    {
      LineAdded([], pending);
      assert [] + [pending] == [pending];
      if pending != "" {
        pending := CleanLine(pending);
        AddLine(pending);
        pending := "";
      }
    }
  }

  // One trailing carriage return is dropped.
  method CleanLine(text: string) returns (line: string)
    ensures line == Clean(text)
  {
    line := text;
    if line != "" && line[|line| - 1] == RETURN {
      line := line[..|line| - 1];
    }
  }

  lemma EmptyText()
    ensures Complete("") == [] && Unfinished("") == "" && EventLines([]) == []
  {
  }

  lemma LineAdded(pieces: seq<string>, line: string)
    ensures EventLines([]) == []
    ensures EventLines(pieces + [line]) == EventLines(pieces) + if Clean(line) == "" then [] else [Clean(line)]
  {
    hide Clean;
    assert (pieces + [line])[..|pieces|] == pieces;
  }

  // The text up to pos ends with a newline, or is empty; the next newline is at
  // the given place.
  lemma NextPiece(text: string, pos: nat, newline: nat)
    requires pos <= newline < |text| && Unfinished(text[..pos]) == ""
    requires NEWLINE !in text[pos..newline] && text[newline] == NEWLINE
    ensures Complete(text[..newline + 1]) == Complete(text[..pos]) + [text[pos..newline]]
    ensures Unfinished(text[..newline + 1]) == ""
  {
    hide Extend;
    var line := text[pos..newline];
    PiecesAt(text, pos, newline);
    NoNewline(line);
    assert text[..newline + 1][..newline] == text[..newline];
    var pieces := Pieces(text[..newline]);
    ExtendNewline(pieces);
    assert Pieces(text[..newline + 1]) == pieces + [""];
    hide Pieces;
  }

  lemma PiecesAt(text: string, pos: nat, end: nat)
    requires pos <= end <= |text| && Unfinished(text[..pos]) == ""
    ensures Pieces(text[..end]) == Complete(text[..pos]) + Pieces(text[pos..end])
  {
    hide Pieces, Unfinished, Complete;
    PiecesConcat(text[..pos], text[pos..end]);
    assert "" + text[pos..end] == text[pos..end];
    assert text[..pos] + text[pos..end] == text[..end];
  }

  lemma ExtendNewline(pieces: seq<string>)
    requires pieces != []
    ensures Extend(pieces, NEWLINE) == pieces + [""]
  {
  }

  lemma LastPiece(text: string, pos: nat)
    requires pos <= |text| && Unfinished(text[..pos]) == "" && NEWLINE !in text[pos..]
    ensures Complete(text) == Complete(text[..pos]) && Unfinished(text) == text[pos..]
  {
    PiecesAt(text, pos, |text|);
    assert text[..|text|] == text && text[pos..|text|] == text[pos..];
    NoNewline(text[pos..]);
    hide Pieces;
  }

  // std::string::find for a newline; |text| stands for npos.
  method Find(text: string, start: nat) returns (at: nat)
    requires start <= |text|
    ensures start <= at <= |text|
    ensures NEWLINE !in text[start..at]
    ensures at < |text| ==> text[at] == NEWLINE
  {
    at := start;
    while at < |text| && text[at] != NEWLINE
      invariant start <= at <= |text| && NEWLINE !in text[start..at]
    {
      at := at + 1;
    }
  }
}
