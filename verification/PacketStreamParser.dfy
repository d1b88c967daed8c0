// Incremental framing of a received byte stream: PacketStreamParser keeps the
// unparsed bytes, and each drain takes every packet it can from the front.
module StreamParser {
  import opened Protocol

  const MAX_CONSECUTIVE_FAILURES: nat := 100

  // What the loop of drainPackets decides from the front of the buffer.
  datatype ParseStep =
    | NeedMore                      // header or payload incomplete: stop
    | Oversized                     // payload above the bound: drop the whole buffer, stop
    | SkipByte(badChecksum: bool)   // resynchronise by one byte
    | Emit(packet: Packet)

  function NextStep(maxPayloadSize: nat, buffer: Bytes): ParseStep {
    if |buffer| < HEADER_SIZE then NeedMore
    else
      var header := DecodeHeader(buffer);
      if header.payloadSize > maxPayloadSize then Oversized
      else if |buffer| < HEADER_SIZE + header.payloadSize then NeedMore
      else
        var payload := buffer[HEADER_SIZE..HEADER_SIZE + header.payloadSize];
        if header.startCode != PROTOCOL_START_CODE then SkipByte(false)
        else if header.checksum != Checksum(payload) then SkipByte(true)
        else Emit(Packet(header, payload))
  }

  // The effect of a drain, or of several: packets in order, failed checksums,
  // the bytes left over, the running count of consecutive failures, and how
  // many bytes the oversized-payload branch threw away.
  datatype Outcome = Outcome(
    packets: seq<Packet>,
    checksumFailures: nat,
    rest: Bytes,
    streak: nat,
    cleared: nat)

  function Nothing(buffer: Bytes, streak: nat): Outcome {
    Outcome([], 0, buffer, streak, 0)
  }

  function NextStreak(streak: nat): nat {
    if streak + 1 >= MAX_CONSECUTIVE_FAILURES then 0 else streak + 1
  }

  function Parse(maxPayloadSize: nat, buffer: Bytes, streak: nat): Outcome
    decreases |buffer|
  {
    match NextStep(maxPayloadSize, buffer)
    case NeedMore => Nothing(buffer, streak)
    case Oversized => Outcome([], 0, [], streak, |buffer|)
    case SkipByte(bad) =>
      Then(Outcome([], if bad then 1 else 0, [], 0, 0),
           Parse(maxPayloadSize, buffer[1..], NextStreak(streak)))
    case Emit(p) =>
      Then(Outcome([p], 0, [], 0, 0), Parse(maxPayloadSize, buffer[p.TotalPacketSize()..], 0))
  }

  // One outcome followed by another that started from its leftovers.
  function Then(first: Outcome, second: Outcome): Outcome {
    Outcome(first.packets + second.packets,
            first.checksumFailures + second.checksumFailures,
            second.rest,
            second.streak,
            first.cleared + second.cleared)
  }

  // A whole receive history: append a chunk, drain, and so on.
  function Feed(maxPayloadSize: nat, buffer: Bytes, streak: nat, chunks: seq<Bytes>): Outcome
    decreases |chunks|
  {
    if chunks == [] then Nothing(buffer, streak)
    else
      var first := Parse(maxPayloadSize, buffer + chunks[0], streak);
      Then(first, Feed(maxPayloadSize, first.rest, first.streak, chunks[1..]))
  }

  function Concat(chunks: seq<Bytes>): Bytes {
    if chunks == [] then [] else chunks[0] + Concat(chunks[1..])
  }

  class PacketStreamParser {
    const maxPayloadSize: nat
    var buffer: Bytes
    var consecutiveFailures: nat

    constructor (maxPayloadSize: nat)
      ensures this.maxPayloadSize == maxPayloadSize && buffer == [] && consecutiveFailures == 0
    {
      this.maxPayloadSize := maxPayloadSize;
      buffer := [];
      consecutiveFailures := 0;
    }

    method Reset()
      modifies this
      ensures buffer == [] && consecutiveFailures == 0
    {
      buffer := [];
      consecutiveFailures := 0;
    }

    method Append(data: Bytes)
      modifies this`buffer
      ensures buffer == old(buffer) + data
    {
      buffer := buffer + data;
    }

    method DrainPackets() returns (packets: seq<Packet>, checksumFailures: nat)
      modifies this
      ensures var r := Parse(maxPayloadSize, old(buffer), old(consecutiveFailures));
              packets == r.packets && checksumFailures == r.checksumFailures &&
              buffer == r.rest && consecutiveFailures == r.streak
    {
      hide DecodeHeader, Checksum, NextStreak;
      packets, checksumFailures := [], 0;
      ghost var goal := Parse(maxPayloadSize, buffer, consecutiveFailures);
      ghost var done := Nothing([], 0);
      while buffer != []
        invariant goal == Then(done, Parse(maxPayloadSize, buffer, consecutiveFailures))
        invariant done.packets == packets && done.checksumFailures == checksumFailures
        decreases |buffer|
      {
        if |buffer| < HEADER_SIZE {
          break;
        }
        var header := DecodeHeader(buffer);
        if header.payloadSize > maxPayloadSize {
          buffer := [];
          break;
        }
        var totalPacketSize := HEADER_SIZE + header.payloadSize;
        if |buffer| < totalPacketSize {
          break;
        }
        var payload := buffer[HEADER_SIZE..totalPacketSize];
        ghost var step := NextStep(maxPayloadSize, buffer);
        ghost var taken := if step.Emit? then Outcome([step.packet], 0, [], 0, 0)
                           else Outcome([], if step.badChecksum then 1 else 0, [], 0, 0);
        if header.startCode != PROTOCOL_START_CODE {
          buffer := buffer[1..];
          consecutiveFailures := NextStreak(consecutiveFailures);
        } else {
          var verified := VerifyPacket(header, payload);
          if !verified {
            buffer := buffer[1..];
            checksumFailures := checksumFailures + 1;
            consecutiveFailures := NextStreak(consecutiveFailures);
          } else {
            consecutiveFailures := 0;
            packets := packets + [Packet(header, payload)];
            buffer := buffer[totalPacketSize..];
          }
        }
        ThenAssociates(done, taken, Parse(maxPayloadSize, buffer, consecutiveFailures));
        done := Then(done, taken);
      }
    }
  }

  lemma ThenAssociates(a: Outcome, b: Outcome, c: Outcome)
    ensures Then(Then(a, b), c) == Then(a, Then(b, c))
  {
    assert (a.packets + b.packets) + c.packets == a.packets + (b.packets + c.packets);
  }

  // ---------- Chunk independence ----------

  // A buffer the parser stops at without consuming anything.
  ghost predicate Settled(maxPayloadSize: nat, buffer: Bytes) {
    NextStep(maxPayloadSize, buffer) == NeedMore
  }

  lemma StepIgnoresTail(maxPayloadSize: nat, buffer: Bytes, tail: Bytes)
    requires !Settled(maxPayloadSize, buffer)
    ensures NextStep(maxPayloadSize, buffer + tail) == NextStep(maxPayloadSize, buffer)
  {
    var header := DecodeHeader(buffer);
    assert DecodeHeader(buffer + tail) == header;
    hide DecodeHeader;
    if header.payloadSize <= maxPayloadSize {
      var n := HEADER_SIZE + header.payloadSize;
      assert (buffer + tail)[HEADER_SIZE..n] == buffer[HEADER_SIZE..n];
    }
  }

  // The same extension behind a first step that clears nothing.
  lemma ThenExtend(first: Outcome, r: Outcome, longer: Outcome, more: Outcome, n: nat)
    requires first.cleared == 0
    requires longer == if r.cleared == 0 then Then(r, more) else r.(cleared := r.cleared + n)
    ensures var w := Then(first, r);
            && w.rest == r.rest && w.streak == r.streak && w.cleared == r.cleared
            && Then(first, longer) == if w.cleared == 0 then Then(w, more) else w.(cleared := w.cleared + n)
  {
    ThenAssociates(first, r, more);
  }

  // Bytes that arrive later never change what was decided before: parsing
  // buffer + tail is parsing buffer and then the leftovers with the tail,
  // except that a clear also swallows the tail when it is already there.
  lemma {:induction false} ParseExtend(maxPayloadSize: nat, buffer: Bytes, tail: Bytes, streak: nat)
    ensures var r := Parse(maxPayloadSize, buffer, streak);
            Parse(maxPayloadSize, buffer + tail, streak) ==
            if r.cleared == 0
            then Then(r, Parse(maxPayloadSize, r.rest + tail, r.streak))
            else r.(cleared := r.cleared + |tail|)
    ensures var r := Parse(maxPayloadSize, buffer, streak);
            if r.cleared == 0 then Settled(maxPayloadSize, r.rest) else r.rest == []
    decreases |buffer|
  {
    hide NextStep, NextStreak, Then;
    SkipWithin(maxPayloadSize, buffer);
    if Settled(maxPayloadSize, buffer) {
      NothingThen(buffer, streak, Parse(maxPayloadSize, buffer + tail, streak));
    } else {
      StepIgnoresTail(maxPayloadSize, buffer, tail);
      var step := NextStep(maxPayloadSize, buffer);
      if !step.Oversized? {
        var n := if step.Emit? then step.packet.TotalPacketSize() else 1;
        var next := if step.Emit? then 0 else NextStreak(streak);
        var first := if step.Emit? then Outcome([step.packet], 0, [], 0, 0)
                     else Outcome([], if step.badChecksum then 1 else 0, [], 0, 0);
        assert (buffer + tail)[n..] == buffer[n..] + tail;
        ParseExtend(maxPayloadSize, buffer[n..], tail, next);
        var r := Parse(maxPayloadSize, buffer[n..], next);
        ThenExtend(first, r, Parse(maxPayloadSize, buffer[n..] + tail, next),
                   Parse(maxPayloadSize, r.rest + tail, r.streak), |tail|);
      }
    }
  }

  lemma NothingThen(buffer: Bytes, streak: nat, r: Outcome)
    ensures Then(Nothing(buffer, streak), r) == r
  {
    assert [] + r.packets == r.packets;
  }

  lemma SkipWithin(maxPayloadSize: nat, buffer: Bytes)
    ensures var s := NextStep(maxPayloadSize, buffer);
            && (s.Oversized? || s.SkipByte? ==> |buffer| >= HEADER_SIZE)
            && (s.Emit? ==> HEADER_SIZE <= s.packet.TotalPacketSize() <= |buffer|)
  {
    hide DecodeHeader;
  }

  // The stream without its last byte already makes the parser clear.
  ghost predicate ClearsEarly(maxPayloadSize: nat, stream: Bytes) {
    stream != [] && Parse(maxPayloadSize, stream[..|stream| - 1], 0).cleared > 0
  }

  ghost predicate SameResult(a: Outcome, b: Outcome) {
    && a.packets == b.packets && a.checksumFailures == b.checksumFailures
    && a.rest == b.rest && a.streak == b.streak
  }

  lemma {:induction false} ConcatEmpty(chunks: seq<Bytes>, buffer: Bytes, maxPayloadSize: nat, streak: nat)
    requires Concat(chunks) == [] && Settled(maxPayloadSize, buffer)
    ensures Feed(maxPayloadSize, buffer, streak, chunks) == Nothing(buffer, streak)
  {
    hide NextStep;
    if chunks != [] {
      assert chunks[0] == [] && buffer + [] == buffer;
      ConcatEmpty(chunks[1..], buffer, maxPayloadSize, streak);
    }
  }

  lemma {:induction false} FeedIsParse(maxPayloadSize: nat, buffer: Bytes, streak: nat, chunks: seq<Bytes>)
    requires Settled(maxPayloadSize, buffer)
    requires var all := buffer + Concat(chunks);
             all == [] || Parse(maxPayloadSize, all[..|all| - 1], streak).cleared == 0
    ensures SameResult(Feed(maxPayloadSize, buffer, streak, chunks),
                       Parse(maxPayloadSize, buffer + Concat(chunks), streak))
    decreases |chunks|
  {
    hide NextStep;
    if chunks == [] {
      assert buffer + [] == buffer;
    } else {
      var front, later := buffer + chunks[0], Concat(chunks[1..]);
      var first := Parse(maxPayloadSize, front, streak);
      assert buffer + Concat(chunks) == front + later;
      ParseExtend(maxPayloadSize, front, later, streak);
      if later == [] {
        assert front + later == front;
        SettledEmpty(maxPayloadSize);
        ConcatEmpty(chunks[1..], first.rest, maxPayloadSize, first.streak);
      } else {
        var shorter := later[..|later| - 1];
        assert (front + later)[..|front + later| - 1] == front + shorter;
        ParseExtend(maxPayloadSize, front, shorter, streak);
        assert (first.rest + later)[..|first.rest + later| - 1] == first.rest + shorter;
        FeedIsParse(maxPayloadSize, first.rest, first.streak, chunks[1..]);
      }
    }
  }

  lemma SettledEmpty(maxPayloadSize: nat)
    ensures Settled(maxPayloadSize, [])
  {
  }

  // From an empty buffer.
  lemma FeedWhole(maxPayloadSize: nat, chunks: seq<Bytes>)
    requires !ClearsEarly(maxPayloadSize, Concat(chunks))
    ensures SameResult(Feed(maxPayloadSize, [], 0, chunks), Parse(maxPayloadSize, Concat(chunks), 0))
  {
    hide NextStep, Feed, Parse, SameResult;
    SettledEmpty(maxPayloadSize);
    assert [] + Concat(chunks) == Concat(chunks);
    FeedIsParse(maxPayloadSize, [], 0, chunks);
  }

  // Chunk independence, exactly: all ways of splitting a stream into receives
  // give what one receive gives if and only if the oversized-payload clear is
  // not reached before the last byte.
  lemma ChunkIndependence(maxPayloadSize: nat, stream: Bytes)
    ensures (forall chunks: seq<Bytes> | Concat(chunks) == stream ::
              SameResult(Feed(maxPayloadSize, [], 0, chunks), Parse(maxPayloadSize, stream, 0)))
            <==> !ClearsEarly(maxPayloadSize, stream)
  {
    hide NextStep;
    SettledEmpty(maxPayloadSize);
    if ClearsEarly(maxPayloadSize, stream) {
      LastByteSurvives(maxPayloadSize, stream);
    } else {
      forall chunks: seq<Bytes> | Concat(chunks) == stream
        ensures SameResult(Feed(maxPayloadSize, [], 0, chunks), Parse(maxPayloadSize, stream, 0))
      {
        FeedWhole(maxPayloadSize, chunks);
      }
    }
  }

  // The witness: hold back the last byte of a stream that clears early. It is
  // then left in the buffer instead of being thrown away.
  lemma LastByteSurvives(maxPayloadSize: nat, stream: Bytes)
    requires ClearsEarly(maxPayloadSize, stream)
    ensures var n := |stream| - 1;
            var chunks := [stream[..n], stream[n..]];
            && Concat(chunks) == stream
            && Feed(maxPayloadSize, [], 0, chunks).rest == stream[n..]
            && Parse(maxPayloadSize, stream, 0).rest == []
  {
    var n := |stream| - 1;
    var chunks := [stream[..n], stream[n..]];
    assert chunks[1..] == [stream[n..]];
    assert Concat(chunks[1..]) == stream[n..];
    assert Settled(maxPayloadSize, stream[n..]);
    hide NextStep;
    assert stream[..n] + stream[n..] == stream;
    ParseExtend(maxPayloadSize, stream[..n], stream[n..], 0);
    assert [] + stream[..n] == stream[..n] && [] + stream[n..] == stream[n..];
    var first := Parse(maxPayloadSize, stream[..n], 0);
    assert Feed(maxPayloadSize, first.rest, first.streak, chunks[1..]).rest == stream[n..];
  }
}
