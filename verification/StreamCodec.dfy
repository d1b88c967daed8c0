// What the parser and the encoder mean together: every emitted packet is a
// genuine slice of the received stream, and encoded packets come back whole.
module StreamCodec {
  import opened Protocol
  import opened StreamParser

  // ---------- Emission soundness, on any input ----------

  // gaps[0] packet[0] gaps[1] packet[1] ... gaps[n]
  function Weave(gaps: seq<Bytes>, packets: seq<Packet>): Bytes
    requires |gaps| == |packets| + 1
  {
    if packets == [] then gaps[0]
    else gaps[0] + EncodePacket(packets[0]) + Weave(gaps[1..], packets[1..])
  }

  ghost predicate AllValid(packets: seq<Packet>, maxPayloadSize: nat) {
    forall i | 0 <= i < |packets| :: ValidPacket(packets[i], maxPayloadSize)
  }

  // The stream is exactly: discarded bytes and whole packets alternating, then
  // the leftovers. In particular the packets sit at increasing, disjoint places.
  ghost predicate Accounts(stream: Bytes, gaps: seq<Bytes>, r: Outcome, maxPayloadSize: nat) {
    && |gaps| == |r.packets| + 1
    && stream == Weave(gaps, r.packets) + r.rest
    && AllValid(r.packets, maxPayloadSize)
  }

  lemma EmitIsSlice(maxPayloadSize: nat, buffer: Bytes)
    requires NextStep(maxPayloadSize, buffer).Emit?
    ensures var p := NextStep(maxPayloadSize, buffer).packet;
            && ValidPacket(p, maxPayloadSize)
            && HEADER_SIZE <= p.TotalPacketSize() <= |buffer|
            && buffer == EncodePacket(p) + buffer[p.TotalPacketSize()..]
  {
    EncodeDecodeHeader(buffer);
    hide DecodeHeader, EncodeHeader, Checksum;
    var p := NextStep(maxPayloadSize, buffer).packet;
    Split3(buffer, HEADER_SIZE, p.TotalPacketSize());
  }

  lemma Split3(b: Bytes, i: nat, j: nat)
    requires i <= j <= |b|
    ensures b[..i] + b[i..j] + b[j..] == b
  {
  }

  lemma WeaveHead(gap: Bytes, gaps: seq<Bytes>, packets: seq<Packet>)
    requires |gaps| == |packets| + 1
    ensures Weave([gap + gaps[0]] + gaps[1..], packets) == gap + Weave(gaps, packets)
  {
    hide EncodePacket;
    if packets != [] {
      assert ([gap + gaps[0]] + gaps[1..])[1..] == gaps[1..];
      assert gap + gaps[0] + EncodePacket(packets[0]) + Weave(gaps[1..], packets[1..])
          == gap + (gaps[0] + EncodePacket(packets[0]) + Weave(gaps[1..], packets[1..]));
    }
  }

  lemma AccountsAfterByte(buffer: Bytes, inner: seq<Bytes>, r: Outcome, whole: Outcome, maxPayloadSize: nat)
    requires buffer != [] && Accounts(buffer[1..], inner, r, maxPayloadSize)
    requires whole.packets == r.packets && whole.rest == r.rest
    ensures Accounts(buffer, [buffer[..1] + inner[0]] + inner[1..], whole, maxPayloadSize)
  {
    hide EncodePacket, ValidPacket;
    WeaveHead(buffer[..1], inner, r.packets);
    calc {
      buffer;
      buffer[..1] + buffer[1..];
      buffer[..1] + (Weave(inner, r.packets) + r.rest);
      buffer[..1] + Weave(inner, r.packets) + r.rest;
    }
  }

  lemma AccountsAfterPacket(p: Packet, later: Bytes, inner: seq<Bytes>, r: Outcome, whole: Outcome, maxPayloadSize: nat)
    requires Accounts(later, inner, r, maxPayloadSize) && ValidPacket(p, maxPayloadSize)
    requires whole.packets == [p] + r.packets && whole.rest == r.rest
    ensures Accounts(EncodePacket(p) + later, [[]] + inner, whole, maxPayloadSize)
  {
    hide EncodePacket, ValidPacket;
    assert ([[]] + inner)[1..] == inner && whole.packets[1..] == r.packets;
    calc {
      EncodePacket(p) + later;
      EncodePacket(p) + (Weave(inner, r.packets) + r.rest);
      [] + EncodePacket(p) + Weave(inner, r.packets) + r.rest;
    }
  }

  lemma {:induction false} ParseAccounts(maxPayloadSize: nat, buffer: Bytes, streak: nat) returns (gaps: seq<Bytes>)
    ensures Accounts(buffer, gaps, Parse(maxPayloadSize, buffer, streak), maxPayloadSize)
    decreases |buffer|
  {
    hide NextStep, EncodePacket, ValidPacket;
    SkipWithin(maxPayloadSize, buffer);
    var whole := Parse(maxPayloadSize, buffer, streak);
    match NextStep(maxPayloadSize, buffer)
    case NeedMore =>
      gaps := [[]];
    case Oversized =>
      gaps := [buffer];
    case SkipByte(bad) =>
      var inner := ParseAccounts(maxPayloadSize, buffer[1..], NextStreak(streak));
      var r := Parse(maxPayloadSize, buffer[1..], NextStreak(streak));
      gaps := [buffer[..1] + inner[0]] + inner[1..];
      assert [] + r.packets == r.packets;
      AccountsAfterByte(buffer, inner, r, whole, maxPayloadSize);
    case Emit(p) =>
      EmitIsSlice(maxPayloadSize, buffer);
      var later := buffer[p.TotalPacketSize()..];
      var inner := ParseAccounts(maxPayloadSize, later, 0);
      gaps := [[]] + inner;
      AccountsAfterPacket(p, later, inner, Parse(maxPayloadSize, later, 0), whole, maxPayloadSize);
  }

  lemma {:induction false} WeaveConcat(gs: seq<Bytes>, ps: seq<Packet>, hs: seq<Bytes>, qs: seq<Packet>)
    requires |gs| == |ps| + 1 && |hs| == |qs| + 1
    ensures Weave(gs[..|ps|] + [gs[|ps|] + hs[0]] + hs[1..], ps + qs) == Weave(gs, ps) + Weave(hs, qs)
    decreases |ps|
  {
    hide EncodePacket;
    var all := gs[..|ps|] + [gs[|ps|] + hs[0]] + hs[1..];
    if ps == [] {
      assert ps + qs == qs && all == [gs[0] + hs[0]] + hs[1..];
      WeaveHead(gs[0], hs, qs);
    } else {
      var g := gs[1..];
      assert g[..|ps| - 1] == gs[1..|ps|];
      assert all[1..] == g[..|ps| - 1] + [g[|ps| - 1] + hs[0]] + hs[1..];
      assert (ps + qs)[1..] == ps[1..] + qs;
      WeaveConcat(g, ps[1..], hs, qs);
      assert gs[0] + EncodePacket(ps[0]) + (Weave(g, ps[1..]) + Weave(hs, qs))
          == gs[0] + EncodePacket(ps[0]) + Weave(g, ps[1..]) + Weave(hs, qs);
    }
  }

  // One accounted stretch after another.
  lemma AccountsThen(front: Bytes, gs: seq<Bytes>, first: Outcome, later: Bytes, hs: seq<Bytes>, second: Outcome,
                     maxPayloadSize: nat)
    returns (gaps: seq<Bytes>)
    requires Accounts(front, gs, first, maxPayloadSize) && Accounts(first.rest + later, hs, second, maxPayloadSize)
    ensures Accounts(front + later, gaps, Then(first, second), maxPayloadSize)
  {
    hide EncodePacket, ValidPacket;
    var ps, qs := first.packets, second.packets;
    gaps := gs[..|ps|] + [gs[|ps|] + hs[0]] + hs[1..];
    WeaveConcat(gs, ps, hs, qs);
    hide Weave;
    calc {
      front + later;
      Weave(gs, ps) + (first.rest + later);
      Weave(gs, ps) + Weave(hs, qs) + second.rest;
    }
  }

  // Over any appends and drains of any bytes, corrupt or not: nothing is
  // invented, reordered or read twice.
  lemma {:induction false} EmissionSound(maxPayloadSize: nat, buffer: Bytes, streak: nat, chunks: seq<Bytes>)
    ensures exists gaps ::
              Accounts(buffer + Concat(chunks), gaps, Feed(maxPayloadSize, buffer, streak, chunks), maxPayloadSize)
    decreases |chunks|
  {
    hide NextStep, EncodePacket, ValidPacket, Parse;
    var r := Feed(maxPayloadSize, buffer, streak, chunks);
    if chunks == [] {
      assert Accounts(buffer + Concat(chunks), [[]], r, maxPayloadSize);
    } else {
      hide Accounts, Then;
      var front, later := buffer + chunks[0], Concat(chunks[1..]);
      var first := Parse(maxPayloadSize, front, streak);
      var gs := ParseAccounts(maxPayloadSize, front, streak);
      EmissionSound(maxPayloadSize, first.rest, first.streak, chunks[1..]);
      var second := Feed(maxPayloadSize, first.rest, first.streak, chunks[1..]);
      var hs :| Accounts(first.rest + later, hs, second, maxPayloadSize);
      var gaps := AccountsThen(front, gs, first, later, hs, second, maxPayloadSize);
      assert buffer + Concat(chunks) == front + later;
      assert Accounts(buffer + Concat(chunks), gaps, r, maxPayloadSize);
    }
  }

  // ---------- Round trip ----------

  lemma EmitEncoded(maxPayloadSize: nat, p: Packet, rest: Bytes)
    requires ValidPacket(p, maxPayloadSize)
    ensures NextStep(maxPayloadSize, EncodePacket(p) + rest) == Emit(p)
    ensures (EncodePacket(p) + rest)[p.TotalPacketSize()..] == rest
  {
    DecodeEncodeHeader(p.header, p.payload + rest);
    hide DecodeHeader, EncodeHeader, Checksum;
    var b := EncodePacket(p) + rest;
    assert b == EncodeHeader(p.header) + (p.payload + rest);
    assert b[HEADER_SIZE..p.TotalPacketSize()] == p.payload;
  }

  lemma PartialSettled(maxPayloadSize: nat, p: Packet, k: nat)
    requires ValidPacket(p, maxPayloadSize) && k < |EncodePacket(p)|
    ensures Settled(maxPayloadSize, EncodePacket(p)[..k])
  {
    PartialWaits(maxPayloadSize, p, k);
  }

  // A packet of which not all bytes have arrived keeps the parser waiting, also
  // one that will turn out damaged.
  lemma PartialWaits(maxPayloadSize: nat, p: Packet, k: nat)
    requires |p.payload| == p.header.payloadSize <= maxPayloadSize && k < |EncodePacket(p)|
    ensures Settled(maxPayloadSize, EncodePacket(p)[..k])
  {
    if k >= HEADER_SIZE {
      DecodeEncodeHeader(p.header, p.payload[..k - HEADER_SIZE]);
      hide DecodeHeader, EncodeHeader;
      assert EncodePacket(p)[..k] == EncodeHeader(p.header) + p.payload[..k - HEADER_SIZE];
    }
  }

  lemma {:induction false} ParseEncoded(maxPayloadSize: nat, ps: seq<Packet>, tail: Bytes, streak: nat)
    requires AllValid(ps, maxPayloadSize) && Settled(maxPayloadSize, tail)
    ensures Parse(maxPayloadSize, EncodeAll(ps) + tail, streak)
         == Outcome(ps, 0, tail, if ps == [] then streak else 0, 0)
    decreases |ps|
  {
    hide NextStep, EncodePacket, ValidPacket;
    if ps == [] {
      assert EncodeAll(ps) + tail == tail;
    } else {
      var rest := EncodeAll(ps[1..]) + tail;
      assert EncodeAll(ps) + tail == EncodePacket(ps[0]) + rest;
      EmitEncoded(maxPayloadSize, ps[0], rest);
      SkipWithin(maxPayloadSize, EncodePacket(ps[0]) + rest);
      ParseEncoded(maxPayloadSize, ps[1..], tail, 0);
      assert [ps[0]] + ps[1..] == ps;
    }
  }

  // The first j packets are all that fit in the first k bytes.
  ghost predicate ArrivedWhole(ps: seq<Packet>, j: nat, k: nat) {
    && j <= |ps|
    && |EncodeAll(ps[..j])| <= k <= |EncodeAll(ps)|
    && (j < |ps| ==> k < |EncodeAll(ps[..j + 1])|)
  }

  // The unfinished part of packet j among the first k bytes.
  lemma SplitAtArrived(ps: seq<Packet>, j: nat, k: nat)
    requires ArrivedWhole(ps, j, k)
    ensures var n := |EncodeAll(ps[..j])|;
            && EncodeAll(ps)[..k] == EncodeAll(ps[..j]) + EncodeAll(ps)[n..k]
            && (j == |ps| ==> EncodeAll(ps)[n..k] == [])
            && (j < |ps| ==> k - n < |EncodePacket(ps[j])| && EncodeAll(ps)[n..k] == EncodePacket(ps[j])[..k - n])
  {
    hide EncodePacket;
    var front := EncodeAll(ps[..j]);
    assert ps == ps[..j] + ps[j..];
    EncodeAllConcat(ps[..j], ps[j..]);
    if j < |ps| {
      var p, rest := EncodePacket(ps[j]), EncodeAll(ps[j + 1..]);
      assert ps[..j + 1] == ps[..j] + [ps[j]];
      EncodeAllConcat(ps[..j], [ps[j]]);
      OneEncoded(ps[j]);
      assert EncodeAll(ps[j..]) == p + rest by {
        assert ps[j..][1..] == ps[j + 1..];
      }
      hide EncodeAll;
      Window(EncodeAll(ps), front, p, rest, k);
    } else {
      assert ps[..j] == ps;
    }
  }

  lemma OneEncoded(p: Packet)
    ensures EncodeAll([p]) == EncodePacket(p)
  {
    hide EncodePacket;
    assert [p][1..] == [];
  }

  lemma Window(all: Bytes, front: Bytes, p: Bytes, rest: Bytes, k: nat)
    requires all == front + (p + rest) && |front| <= k < |front| + |p|
    ensures all[|front|..k] == p[..k - |front|] && all[..k] == front + all[|front|..k]
  {
  }

  // Encode any packets the receiver accepts, deliver any k bytes of the result
  // in any chunks: exactly the packets that have fully arrived come out, with
  // no checksum failure, and the bytes of the unfinished packet stay buffered.
  lemma RoundTrip(maxPayloadSize: nat, ps: seq<Packet>, j: nat, k: nat, chunks: seq<Bytes>)
    requires AllValid(ps, maxPayloadSize)
    requires ArrivedWhole(ps, j, k)
    requires Concat(chunks) == EncodeAll(ps)[..k]
    ensures var r := Feed(maxPayloadSize, [], 0, chunks);
            && r.packets == ps[..j] && r.checksumFailures == 0 && r.streak == 0
            && r.rest == EncodeAll(ps)[|EncodeAll(ps[..j])|..k]
  {
    hide NextStep, EncodePacket, ValidPacket;
    var stream := EncodeAll(ps)[..k];
    ParseWhole(maxPayloadSize, ps, j, k);
    if k > 0 {
      var i := FirstArrived(ps, k - 1);
      ParseWhole(maxPayloadSize, ps, i, k - 1);
      assert stream[..|stream| - 1] == EncodeAll(ps)[..k - 1];
    }
    assert !ClearsEarly(maxPayloadSize, stream);
    hide EncodeAll, Parse, Feed, ClearsEarly;
    FeedWhole(maxPayloadSize, chunks);
  }

  lemma ParseWhole(maxPayloadSize: nat, ps: seq<Packet>, j: nat, k: nat)
    requires AllValid(ps, maxPayloadSize) && ArrivedWhole(ps, j, k)
    ensures Parse(maxPayloadSize, EncodeAll(ps)[..k], 0)
         == Outcome(ps[..j], 0, EncodeAll(ps)[|EncodeAll(ps[..j])|..k], 0, 0)
  {
    hide NextStep, EncodePacket, ValidPacket;
    SplitAtArrived(ps, j, k);
    var n := |EncodeAll(ps[..j])|;
    var tail := EncodeAll(ps)[n..k];
    if j < |ps| {
      PartialSettled(maxPayloadSize, ps[j], k - n);
    } else {
      SettledEmpty(maxPayloadSize);
    }
    ParseEncoded(maxPayloadSize, ps[..j], tail, 0);
  }

  lemma {:induction false} FirstArrived(ps: seq<Packet>, k: nat) returns (j: nat)
    requires k <= |EncodeAll(ps)|
    ensures ArrivedWhole(ps, j, k)
  {
    hide EncodePacket;
    j := |ps|;
    assert ps[..|ps|] == ps;
    while j > 0 && k < |EncodeAll(ps[..j])|
      invariant j <= |ps|
      invariant j < |ps| ==> k < |EncodeAll(ps[..j + 1])|
    {
      j := j - 1;
    }
  }
}
