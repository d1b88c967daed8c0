// What the parser counts while it discards bytes: the checksum failures of a
// drain, exactly, and that no damaged payload goes unnoticed.
module DiscardedBytes {
  import opened Protocol
  import opened StreamParser
  import opened StreamCodec

  // A header, and within the bound the whole payload it asks for.
  ghost predicate Whole(maxPayloadSize: nat, b: Bytes) {
    |b| >= HEADER_SIZE && DecodeHeader(b).payloadSize <= maxPayloadSize &&
    HEADER_SIZE + DecodeHeader(b).payloadSize <= |b|
  }

  ghost predicate Started(b: Bytes)
    requires |b| >= HEADER_SIZE
  {
    DecodeHeader(b).startCode == PROTOCOL_START_CODE
  }

  ghost predicate Intact(b: Bytes)
    requires |b| >= HEADER_SIZE && HEADER_SIZE + DecodeHeader(b).payloadSize <= |b|
  {
    DecodeHeader(b).checksum == Checksum(b[HEADER_SIZE..HEADER_SIZE + DecodeHeader(b).payloadSize])
  }

  // A packet whose checksum does not fit its payload.
  ghost predicate BadChecksum(maxPayloadSize: nat, b: Bytes) {
    Whole(maxPayloadSize, b) && Started(b) && !Intact(b)
  }

  // Something whole, but no packet.
  ghost predicate NoPacket(maxPayloadSize: nat, b: Bytes) {
    Whole(maxPayloadSize, b) && !(Started(b) && Intact(b))
  }

  ghost predicate Claims(maxPayloadSize: nat, b: Bytes) {
    |b| >= HEADER_SIZE && DecodeHeader(b).payloadSize > maxPayloadSize
  }

  // Every place of a discarded stretch holds something whole that is no packet.
  ghost predicate OnlyNoise(maxPayloadSize: nat, gap: Bytes, behind: Bytes) {
    gap == [] || (NoPacket(maxPayloadSize, gap + behind) && OnlyNoise(maxPayloadSize, gap[1..], behind))
  }

  ghost predicate AllNoise(maxPayloadSize: nat, gaps: seq<Bytes>, packets: seq<Packet>, behind: Bytes)
    requires |gaps| == |packets| + 1
  {
    if packets == [] then OnlyNoise(maxPayloadSize, gaps[0], behind)
    else
      var later := Weave(gaps[1..], packets[1..]) + behind;
      && OnlyNoise(maxPayloadSize, gaps[0], EncodePacket(packets[0]) + later)
      && AllNoise(maxPayloadSize, gaps[1..], packets[1..], behind)
  }

  // The places in a discarded stretch where such a packet stands, with what
  // follows the stretch.
  ghost function BadPlaces(maxPayloadSize: nat, gap: Bytes, behind: Bytes): nat {
    if gap == [] then 0
    else (if BadChecksum(maxPayloadSize, gap + behind) then 1 else 0) + BadPlaces(maxPayloadSize, gap[1..], behind)
  }

  ghost function AllBadPlaces(maxPayloadSize: nat, gaps: seq<Bytes>, packets: seq<Packet>, behind: Bytes): nat
    requires |gaps| == |packets| + 1
  {
    if packets == [] then BadPlaces(maxPayloadSize, gaps[0], behind)
    else
      var later := Weave(gaps[1..], packets[1..]) + behind;
      BadPlaces(maxPayloadSize, gaps[0], EncodePacket(packets[0]) + later)
      + AllBadPlaces(maxPayloadSize, gaps[1..], packets[1..], behind)
  }

  // The stream is discarded stretches and packets alternating, and then what
  // is kept because it is not whole yet, or cleared because it claims too much.
  // Exactly the places that hold something whole but no packet are discarded;
  // the failures are the bad checksums among them, and the streak is the length
  // of the last stretch, modulo 100.
  ghost predicate Explains(maxPayloadSize: nat, stream: Bytes, streak: nat, gaps: seq<Bytes>, behind: Bytes, r: Outcome)
  {
    && |gaps| == |r.packets| + 1
    && stream == Weave(gaps, r.packets) + behind
    && AllValid(r.packets, maxPayloadSize) && AllNoise(maxPayloadSize, gaps, r.packets, behind)
    && (if r.cleared == 0 then behind == r.rest && !Whole(maxPayloadSize, behind) && !Claims(maxPayloadSize, behind)
        else |behind| == r.cleared && r.rest == [] && Claims(maxPayloadSize, behind))
    && r.checksumFailures == AllBadPlaces(maxPayloadSize, gaps, r.packets, behind)
    && r.streak == ((if r.packets == [] then streak else 0) + |gaps[|r.packets|]|) % MAX_CONSECUTIVE_FAILURES
  }

  lemma SkipMeans(maxPayloadSize: nat, b: Bytes)
    requires NextStep(maxPayloadSize, b).SkipByte?
    ensures NoPacket(maxPayloadSize, b) && (NextStep(maxPayloadSize, b).badChecksum <==> BadChecksum(maxPayloadSize, b))
  {
    hide Checksum, DecodeHeader;
  }

  lemma StopMeans(maxPayloadSize: nat, b: Bytes)
    ensures NextStep(maxPayloadSize, b).NeedMore? <==> !Whole(maxPayloadSize, b) && !Claims(maxPayloadSize, b)
    ensures NextStep(maxPayloadSize, b).Oversized? <==> Claims(maxPayloadSize, b)
  {
    hide Checksum, DecodeHeader;
  }

  lemma StreakNext(streak: nat, n: nat)
    requires streak < MAX_CONSECUTIVE_FAILURES
    ensures NextStreak(streak) < MAX_CONSECUTIVE_FAILURES
    ensures (NextStreak(streak) + n) % MAX_CONSECUTIVE_FAILURES == (streak + 1 + n) % MAX_CONSECUTIVE_FAILURES
  {
    if streak + 1 == MAX_CONSECUTIVE_FAILURES {
      OnceAround(n);
    }
  }

  lemma OnceAround(n: nat)
    ensures (100 + n) % 100 == n % 100
  {
  }

  // One discarded byte in front.
  lemma ExplainsSkip(maxPayloadSize: nat, stream: Bytes, streak: nat, gaps: seq<Bytes>, behind: Bytes, r: Outcome)
    requires stream != [] && streak < MAX_CONSECUTIVE_FAILURES && NoPacket(maxPayloadSize, stream)
    requires Explains(maxPayloadSize, stream[1..], NextStreak(streak), gaps, behind, r)
    ensures var n := if BadChecksum(maxPayloadSize, stream) then 1 else 0;
            Explains(maxPayloadSize, stream, streak, [stream[..1] + gaps[0]] + gaps[1..], behind,
                     Then(Outcome([], n, [], 0, 0), r))
  {
    hide BadChecksum, NoPacket, Whole, Claims, EncodePacket, ValidPacket, AllValid, AllBadPlaces, AllNoise, Weave;
    assert [] + r.packets == r.packets;
    SkipStream(stream, gaps, r.packets, behind);
    SkipCounts(maxPayloadSize, stream, gaps, behind, r.packets);
    SkipStreak(stream, streak, gaps, |r.packets|);
  }

  lemma SkipStream(stream: Bytes, gaps: seq<Bytes>, packets: seq<Packet>, behind: Bytes)
    requires |gaps| == |packets| + 1 && stream != [] && stream[1..] == Weave(gaps, packets) + behind
    ensures stream == Weave([stream[..1] + gaps[0]] + gaps[1..], packets) + behind
  {
    hide EncodePacket, Weave;
    WeaveHead(stream[..1], gaps, packets);
    ByteInFront(stream, Weave(gaps, packets), behind);
  }

  lemma ByteInFront(stream: Bytes, middle: Bytes, behind: Bytes)
    requires stream != [] && stream[1..] == middle + behind
    ensures stream == stream[..1] + middle + behind
  {
    assert stream == stream[..1] + stream[1..];
  }

  lemma SkipStreak(stream: Bytes, streak: nat, gaps: seq<Bytes>, n: nat)
    requires stream != [] && streak < MAX_CONSECUTIVE_FAILURES && n < |gaps|
    ensures var longer := [stream[..1] + gaps[0]] + gaps[1..];
            ((if n == 0 then NextStreak(streak) else 0) + |gaps[n]|) % MAX_CONSECUTIVE_FAILURES
            == ((if n == 0 then streak else 0) + |longer[n]|) % MAX_CONSECUTIVE_FAILURES
  {
    if n == 0 {
      StreakNext(streak, |gaps[0]|);
    }
  }

  lemma SkipCounts(maxPayloadSize: nat, stream: Bytes, gaps: seq<Bytes>, behind: Bytes, packets: seq<Packet>)
    requires |gaps| == |packets| + 1 && stream != [] && stream[1..] == Weave(gaps, packets) + behind
    ensures AllNoise(maxPayloadSize, [stream[..1] + gaps[0]] + gaps[1..], packets, behind)
        <==> NoPacket(maxPayloadSize, stream) && AllNoise(maxPayloadSize, gaps, packets, behind)
    ensures AllBadPlaces(maxPayloadSize, [stream[..1] + gaps[0]] + gaps[1..], packets, behind)
         == (if BadChecksum(maxPayloadSize, stream) then 1 else 0)
            + AllBadPlaces(maxPayloadSize, gaps, packets, behind)
  {
    hide BadChecksum, NoPacket, Whole, Claims, EncodePacket, ValidPacket;
    var longer := [stream[..1] + gaps[0]] + gaps[1..];
    assert longer[1..] == gaps[1..] && longer[0][1..] == gaps[0];
    if packets == [] {
      assert longer[0] + behind == stream[..1] + (gaps[0] + behind) == stream;
    } else {
      var p, rest := EncodePacket(packets[0]), Weave(gaps[1..], packets[1..]);
      assert gaps[0] + p + rest + behind == gaps[0] + (p + (rest + behind));
      assert longer[0] + (p + (rest + behind)) == stream[..1] + (gaps[0] + (p + (rest + behind))) == stream;
    }
  }

  // One packet in front.
  lemma ExplainsPacket(maxPayloadSize: nat, p: Packet, later: Bytes, streak: nat, gaps: seq<Bytes>, behind: Bytes,
                       r: Outcome)
    requires Explains(maxPayloadSize, later, 0, gaps, behind, r) && ValidPacket(p, maxPayloadSize)
    ensures Explains(maxPayloadSize, EncodePacket(p) + later, streak, [[]] + gaps, behind,
                     Then(Outcome([p], 0, [], 0, 0), r))
  {
    hide BadChecksum, NoPacket, Whole, Claims, EncodePacket, ValidPacket;
    var all, ps := [[]] + gaps, [p] + r.packets;
    assert all[1..] == gaps && ps[1..] == r.packets && all[0] == [];
    assert [] + EncodePacket(p) + Weave(gaps, r.packets) + behind
        == EncodePacket(p) + (Weave(gaps, r.packets) + behind);
    assert BadPlaces(maxPayloadSize, [], EncodePacket(p) + (Weave(gaps, r.packets) + behind)) == 0;
    assert all[|ps|] == gaps[|r.packets|];
  }

  // The failures of a drain, exactly, on arbitrary bytes.
  lemma {:induction false} FailuresExactly(maxPayloadSize: nat, buffer: Bytes, streak: nat)
    returns (gaps: seq<Bytes>, behind: Bytes)
    requires streak < MAX_CONSECUTIVE_FAILURES
    ensures Explains(maxPayloadSize, buffer, streak, gaps, behind, Parse(maxPayloadSize, buffer, streak))
    decreases |buffer|
  {
    hide NextStep, EncodePacket, BadChecksum, NoPacket, Whole, Claims, Explains, Weave, ValidPacket;
    SkipWithin(maxPayloadSize, buffer);
    StopMeans(maxPayloadSize, buffer);
    match NextStep(maxPayloadSize, buffer)
    case NeedMore =>
      gaps, behind := [[]], buffer;
      ExplainsNothing(maxPayloadSize, buffer, streak, Nothing(buffer, streak));
    case Oversized =>
      gaps, behind := [[]], buffer;
      ExplainsNothing(maxPayloadSize, buffer, streak, Outcome([], 0, [], streak, |buffer|));
    case SkipByte(bad) =>
      SkipMeans(maxPayloadSize, buffer);
      StreakNext(streak, 0);
      var inner;
      inner, behind := FailuresExactly(maxPayloadSize, buffer[1..], NextStreak(streak));
      var r := Parse(maxPayloadSize, buffer[1..], NextStreak(streak));
      GapsCount(maxPayloadSize, buffer[1..], NextStreak(streak), inner, behind, r);
      gaps := [buffer[..1] + inner[0]] + inner[1..];
      ExplainsSkip(maxPayloadSize, buffer, streak, inner, behind, r);
    case Emit(p) =>
      EmitIsSlice(maxPayloadSize, buffer);
      var later := buffer[p.TotalPacketSize()..];
      var inner;
      inner, behind := FailuresExactly(maxPayloadSize, later, 0);
      gaps := [[]] + inner;
      ExplainsPacket(maxPayloadSize, p, later, streak, inner, behind, Parse(maxPayloadSize, later, 0));
  }

  lemma GapsCount(maxPayloadSize: nat, stream: Bytes, streak: nat, gaps: seq<Bytes>, behind: Bytes, r: Outcome)
    requires Explains(maxPayloadSize, stream, streak, gaps, behind, r)
    ensures |gaps| == |r.packets| + 1
  {
  }

  lemma ExplainsNothing(maxPayloadSize: nat, buffer: Bytes, streak: nat, r: Outcome)
    requires streak < MAX_CONSECUTIVE_FAILURES && r.packets == [] && r.checksumFailures == 0 && r.streak == streak
    requires if r.cleared == 0 then r.rest == buffer && !Whole(maxPayloadSize, buffer)
        && !Claims(maxPayloadSize, buffer)
             else r.cleared == |buffer| && r.rest == [] && Claims(maxPayloadSize, buffer)
    ensures Explains(maxPayloadSize, buffer, streak, [[]], buffer, r)
  {
    assert [] + buffer == buffer;
  }

  // ---------- A damaged payload ----------

  ghost predicate Shaped(p: Packet, maxPayloadSize: nat) {
    p.header.startCode == PROTOCOL_START_CODE && |p.payload| == p.header.payloadSize <= maxPayloadSize
  }

  // A packet as some receiver may get it: whole, but its checksum does not fit.
  ghost predicate Damaged(q: Packet, maxPayloadSize: nat) {
    Shaped(q, maxPayloadSize) && q.header.checksum != Checksum(q.payload)
  }

  function Altered(p: Packet, i: nat, b: Byte): Packet
    requires i < |p.payload|
  {
    p.(payload := p.payload[i := b])
  }

  lemma AlteredDamaged(p: Packet, i: nat, b: Byte, maxPayloadSize: nat)
    requires ValidPacket(p, maxPayloadSize) && i < |p.payload| && p.payload[i] != b
    ensures Damaged(Altered(p, i, b), maxPayloadSize)
  {
    SingleByteChangeDetected(p.payload, i, b);
    hide Checksum;
  }

  lemma DamagedStep(maxPayloadSize: nat, q: Packet, rest: Bytes)
    requires Damaged(q, maxPayloadSize)
    ensures EncodePacket(q) + rest != [] && NextStep(maxPayloadSize, EncodePacket(q) + rest) == SkipByte(true)
  {
    DecodeEncodeHeader(q.header, q.payload + rest);
    hide DecodeHeader, EncodeHeader, Checksum;
    var b := EncodePacket(q) + rest;
    assert b == EncodeHeader(q.header) + (q.payload + rest);
    assert b[HEADER_SIZE..HEADER_SIZE + q.header.payloadSize] == q.payload;
  }

  // Whatever follows, a drain counts it, and then goes on one byte later.
  lemma DamageCounted(maxPayloadSize: nat, q: Packet, rest: Bytes, streak: nat)
    requires Damaged(q, maxPayloadSize)
    ensures var b := EncodePacket(q) + rest;
            && b != []
            && Parse(maxPayloadSize, b, streak)
               == Then(Outcome([], 1, [], 0, 0), Parse(maxPayloadSize, b[1..], NextStreak(streak)))
  {
    hide NextStep, EncodePacket, Damaged, NextStreak;
    DamagedStep(maxPayloadSize, q, rest);
  }

  lemma {:induction false} CountedBehind(maxPayloadSize: nat, ps: seq<Packet>, q: Packet, rest: Bytes, streak: nat)
    requires AllValid(ps, maxPayloadSize) && Damaged(q, maxPayloadSize)
    ensures Parse(maxPayloadSize, EncodeAll(ps) + (EncodePacket(q) + rest), streak).checksumFailures >= 1
    decreases |ps|
  {
    hide NextStep, EncodePacket, ValidPacket, Damaged;
    if ps == [] {
      assert EncodeAll(ps) + (EncodePacket(q) + rest) == EncodePacket(q) + rest;
      DamageCounted(maxPayloadSize, q, rest, streak);
    } else {
      var tail := EncodeAll(ps[1..]) + (EncodePacket(q) + rest);
      assert EncodeAll(ps) + (EncodePacket(q) + rest) == EncodePacket(ps[0]) + tail;
      EmitEncoded(maxPayloadSize, ps[0], tail);
      SkipWithin(maxPayloadSize, EncodePacket(ps[0]) + tail);
      CountedBehind(maxPayloadSize, ps[1..], q, rest, 0);
    }
  }

  lemma AllShaped(maxPayloadSize: nat, ps: seq<Packet>, q: Packet, j: nat)
    requires AllValid(ps, maxPayloadSize) && Shaped(q, maxPayloadSize) && j <= |ps|
    ensures Shaped((ps + [q])[j], maxPayloadSize)
  {
    hide Checksum;
    if j < |ps| {
      assert ValidPacket(ps[j], maxPayloadSize);
    }
  }

  // Before it has arrived whole, some packets before it come out, and the rest
  // is kept.
  lemma FrontParsed(maxPayloadSize: nat, ps: seq<Packet>, q: Packet, k: nat, streak: nat) returns (j: nat)
    requires AllValid(ps, maxPayloadSize) && Shaped(q, maxPayloadSize)
    requires k < |EncodeAll(ps) + EncodePacket(q)|
    ensures j <= |ps| && |EncodeAll(ps[..j])| <= k
    ensures var stream := EncodeAll(ps) + EncodePacket(q);
            var r := Parse(maxPayloadSize, stream[..k], streak);
            r.rest == stream[|EncodeAll(ps[..j])|..k]
    ensures EncodeAll(ps) == EncodeAll(ps[..j]) + EncodeAll(ps[j..])
    ensures |EncodeAll(ps)| + |EncodePacket(q)| == |EncodeAll(ps[..j])| + |EncodeAll(ps[j..]) + EncodePacket(q)|
  {
    hide NextStep, EncodePacket, ValidPacket;
    var all := ps + [q];
    EncodeAllConcat(ps, [q]);
    OneEncoded(q);
    j := FirstArrived(all, k);
    assert all[..|all|] == all;
    SplitAtArrived(all, j, k);
    assert all[..j] == ps[..j];
    var tail := EncodeAll(all)[|EncodeAll(ps[..j])|..k];
    AllShaped(maxPayloadSize, ps, q, j);
    PartialWaits(maxPayloadSize, all[j], k - |EncodeAll(ps[..j])|);
    ParseEncoded(maxPayloadSize, ps[..j], tail, streak);
    assert ps == ps[..j] + ps[j..];
    EncodeAllConcat(ps[..j], ps[j..]);
  }

  // In any chunks, and behind any good packets.
  lemma {:induction false} DamageCountedInChunks(maxPayloadSize: nat, buffer: Bytes, streak: nat, chunks: seq<Bytes>,
                                                 ps: seq<Packet>, q: Packet, after: Bytes)
    requires AllValid(ps, maxPayloadSize) && Damaged(q, maxPayloadSize)
    requires buffer + Concat(chunks) == EncodeAll(ps) + (EncodePacket(q) + after)
    requires |buffer| < |EncodeAll(ps) + EncodePacket(q)|
    ensures Feed(maxPayloadSize, buffer, streak, chunks).checksumFailures >= 1
    decreases |chunks|
  {
    hide NextStep, EncodePacket, ValidPacket, Parse, AllValid, EncodeAll;
    var stream := EncodeAll(ps) + EncodePacket(q);
    NextFront(buffer, chunks, EncodeAll(ps), EncodePacket(q), after);
    var front, later := buffer + chunks[0], Concat(chunks[1..]);
    var k := |front|;
    if k >= |stream| {
      var x := front[|stream|..];
      WholeFront(front, later, EncodeAll(ps), EncodePacket(q), after);
      CountedBehind(maxPayloadSize, ps, q, x, streak);
    } else {
      assert (front + later)[..k] == front && (stream + after)[..k] == stream[..k];
      var j := FrontParsed(maxPayloadSize, ps, q, k, streak);
      var first := Parse(maxPayloadSize, front, streak);
      var n := |EncodeAll(ps[..j])|;
      KeptRest(EncodeAll(ps[..j]), EncodeAll(ps[j..]), EncodePacket(q), after, k, later);
      AllValidTail(ps, j, maxPayloadSize);
      DamageCountedInChunks(maxPayloadSize, first.rest, first.streak, chunks[1..], ps[j..], q, after);
    }
  }

  lemma NextFront(buffer: Bytes, chunks: seq<Bytes>, a: Bytes, q: Bytes, after: Bytes)
    requires buffer + Concat(chunks) == a + (q + after) && |buffer| < |a + q|
    ensures chunks != [] && buffer + chunks[0] + Concat(chunks[1..]) == a + q + after
  {
    assert |buffer + Concat(chunks)| >= |a + q|;
    assert a + q + after == a + (q + after);
    if chunks != [] {
      assert buffer + chunks[0] + Concat(chunks[1..]) == buffer + (chunks[0] + Concat(chunks[1..]));
    }
  }

  lemma WholeFront(front: Bytes, later: Bytes, a: Bytes, q: Bytes, after: Bytes)
    requires front + later == a + q + after && |front| >= |a + q|
    ensures front == a + (q + front[|a + q|..])
  {
    assert front[..|a + q|] == (front + later)[..|a + q|] == a + q;
    assert front == front[..|a + q|] + front[|a + q|..];
  }

  lemma AllValidTail(ps: seq<Packet>, j: nat, maxPayloadSize: nat)
    requires AllValid(ps, maxPayloadSize) && j <= |ps|
    ensures AllValid(ps[j..], maxPayloadSize)
  {
    hide ValidPacket;
  }

  lemma KeptRest(done: Bytes, todo: Bytes, q: Bytes, after: Bytes, k: nat, later: Bytes)
    requires |done| <= k < |done + todo + q|
    requires (done + todo + q)[..k] + later == done + todo + q + after
    ensures (done + todo + q)[|done|..k] + later == todo + (q + after)
  {
    var all := done + todo + q;
    assert all[|done|..k] == all[..k][|done|..];
    assert (all[..k] + later)[|done|..] == all[..k][|done|..] + later;
    assert (done + todo + q + after)[|done|..] == todo + (q + after);
  }
}
