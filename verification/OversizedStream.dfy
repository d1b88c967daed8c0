// One direction of the network with data packets above the bound of the
// parsers on it: in whatever chunks they arrive, they are thrown away, and
// nothing comes out but a TEST_FIN behind them.
module OversizedStream {
  import opened Protocol
  import opened StreamParser
  import opened StreamCodec
  import opened TestTypes
  import opened Generator
  import opened Sessions
  import opened SessionInvariant
  import opened SessionTheorems
  import opened Network

  // Data packets are above the bound of the parsers.
  predicate TooLarge(config: Config) {
    config.packetSize > HEADER_SIZE + MAX_PAYLOAD
  }

  // ---------- Where no packet can begin ----------

  // The first byte of a start code.
  const START_LOW: Byte := 0xCD

  // Whatever follows, no packet up to the bound begins here: the byte is not
  // the first of a start code, or the header claims too large a payload.
  ghost predicate Dead(b: Bytes, p: nat)
    requires p < |b|
  {
    b[p] != START_LOW || (p + 13 <= |b| && FromLe32(b[p + 9], b[p + 10], b[p + 11], b[p + 12]) > MAX_PAYLOAD)
  }

  ghost predicate Barren(b: Bytes) {
    forall p | 0 <= p < |b| :: Dead(b, p)
  }

  lemma BarrenTail(b: Bytes, q: nat)
    requires Barren(b) && q <= |b|
    ensures Barren(b[q..])
  {
    forall p | 0 <= p < |b[q..]|
      ensures Dead(b[q..], p)
    {
      assert Dead(b, q + p);
    }
  }

  lemma BarrenJoin(a: Bytes, b: Bytes)
    requires Barren(a) && Barren(b)
    ensures Barren(a + b)
  {
    forall p | 0 <= p < |a + b|
      ensures Dead(a + b, p)
    {
      assert if p < |a| then Dead(a, p) else Dead(b, p - |a|);
    }
  }

  // A payload is printable text.
  lemma PayloadPrintable(counter: UInt32, size: nat)
    ensures forall i | 0 <= i < size :: 0x20 <= BuildExpectedPayload(counter, size)[i] < 0x80
  {
    DecimalReads(counter);
    var digits := Decimal(counter);
    hide Decimal, Number;
    TextPrintable(digits);
    hide Ascii, IsDigit;
  }

  lemma TextPrintable(digits: string)
    requires forall k | 0 <= k < |digits| :: IsDigit(digits[k])
    ensures forall k | 0 <= k < 7 + |digits| :: 0x20 <= Ascii("Packet " + digits)[k] < 0x80
  {
    var text := "Packet " + digits;
    assert forall k | 0 <= k < |text| :: 0x20 <= text[k] as int < 0x80;
  }

  // The bytes of a header that matter here.
  lemma HeaderBytes(h: PacketHeader)
    requires h.startCode == PROTOCOL_START_CODE
    requires h.senderId <= 1 && h.receiverId <= 1 && h.messageType == DATA_PACKET
    ensures var b := EncodeHeader(h);
            && FromLe32(b[9], b[10], b[11], b[12]) == h.payloadSize
            && b[1] != START_LOW && b[2] != START_LOW && b[3] != START_LOW && b[4] != START_LOW
  {
    Le32RoundTrip(h.payloadSize);
    var b, size := EncodeHeader(h), Le32(h.payloadSize);
    assert b[9] == size[0] && b[10] == size[1] && b[11] == size[2] && b[12] == size[3];
    hide Le32, FromLe32;
  }

  lemma DataBytes(config: Config, i: nat)
    requires TooLarge(config)
    ensures var b := EncodePacket(Numbered(config, i));
            && |b| == config.packetSize
            && FromLe32(b[9], b[10], b[11], b[12]) == config.packetSize - HEADER_SIZE
            && b[1] != START_LOW && b[2] != START_LOW && b[3] != START_LOW && b[4] != START_LOW
            && forall k | HEADER_SIZE <= k < |b| :: 0x20 <= b[k] < 0x80
  {
    hide BuildExpectedPayload, Checksum, Wrap32, EncodeHeader, FromLe32;
    PayloadPrintable(Wrap32(i), config.packetSize - HEADER_SIZE);
    HeaderBytes(Numbered(config, i).header);
  }

  lemma DataBarren(config: Config, i: nat)
    requires TooLarge(config)
    ensures Barren(EncodePacket(Numbered(config, i)))
  {
    DataBytes(config, i);
    hide EncodePacket, Numbered;
    var b := EncodePacket(Numbered(config, i));
    forall p | 0 <= p < |b|
      ensures Dead(b, p)
    {
      if 5 <= p < HEADER_SIZE {
        assert b[p + 12] >= 0x20;
      }
    }
  }

  // ---------- Draining ----------

  // Only such bytes before j, and behind them a TEST_FIN or less than a header.
  ghost predicate FinAt(b: Bytes, j: nat) {
    j <= |b| && Barren(b[..j]) && (|b| - j < HEADER_SIZE || b[j..] == EncodePacket(Fin()))
  }

  lemma FinAtTail(b: Bytes, j: nat, q: nat)
    requires FinAt(b, j) && q <= |b|
    ensures FinAt(b[q..], if q <= j then j - q else 0)
  {
    FinSize();
    hide Barren, Fin, EncodePacket;
    if q <= j {
      BarrenTail(b[..j], q);
      assert b[..j][q..] == b[q..][..j - q] && b[q..][j - q..] == b[j..];
    } else {
      NothingBarren();
    }
  }

  lemma NothingBarren()
    ensures Barren([])
  {
  }

  lemma FinSize()
    ensures |EncodePacket(Fin())| == HEADER_SIZE
    ensures ValidPacket(Fin(), MAX_PAYLOAD) && Fin().header.messageType == TEST_FIN
  {
  }

  lemma DeadStep(b: Bytes)
    requires b != [] && Dead(b, 0)
    ensures var s := NextStep(MAX_PAYLOAD, b); s.NeedMore? || s.Oversized? || s == SkipByte(false)
  {
    hide Checksum;
    if |b| >= HEADER_SIZE {
      StartByte(b);
      hide DecodeHeader, FromLe32;
    }
  }

  lemma StartByte(b: Bytes)
    requires |b| >= HEADER_SIZE
    ensures b[0] != START_LOW ==> DecodeHeader(b).startCode != PROTOCOL_START_CODE
    ensures DecodeHeader(b).payloadSize == FromLe32(b[9], b[10], b[11], b[12])
  {
  }

  lemma FinStep(b: Bytes, streak: nat)
    requires b == EncodePacket(Fin())
    ensures NextStep(MAX_PAYLOAD, b) == Emit(Fin()) && Parse(MAX_PAYLOAD, b, streak) == Outcome([Fin()], 0, [], 0, 0)
  {
    FinSize();
    assert b + [] == b;
    EmitEncoded(MAX_PAYLOAD, Fin(), []);
    SettledEmpty(MAX_PAYLOAD);
    hide Fin, NextStep, EncodePacket;
    assert b[Fin().TotalPacketSize()..] == [];
  }

  lemma DeadFront(b: Bytes, j: nat, p: nat, e: nat)
    requires FinAt(b, j) && p < j && p + HEADER_SIZE <= e <= |b|
    ensures Dead(b[p..e], 0)
  {
    assert Dead(b[..j], p);
  }

  // What the parser does at one place.
  lemma DrainStep(b: Bytes, j: nat, p: nat, e: nat)
    requires FinAt(b, j) && p <= e <= |b|
    ensures var s := NextStep(MAX_PAYLOAD, b[p..e]);
            if s.Emit? then j == p < e == |b| && b[p..e] == EncodePacket(Fin())
            else s.NeedMore? || s.Oversized? || (s == SkipByte(false) && p < e)
  {
    var front := b[p..e];
    ShortSettled(front);
    if |front| >= HEADER_SIZE {
      FinSize();
      if p < j {
        DeadFront(b, j, p, e);
        DeadStep(front);
        hide *;
      } else {
        hide Barren, Fin, EncodePacket, NextStep;
        assert front == b[j..];
        FinStep(front, 0);
      }
    }
  }

  // From any place on: nothing comes out and a tail of what has arrived is
  // kept, or the TEST_FIN comes out and nothing is left at all.
  lemma {:induction false} Drain(b: Bytes, j: nat, p: nat, e: nat, streak: nat)
    requires FinAt(b, j) && p <= e <= |b|
    ensures var r := Parse(MAX_PAYLOAD, b[p..e], streak);
            && r.checksumFailures == 0
            && if r.packets == [] then |r.rest| <= e - p && r.rest == b[e - |r.rest|..e]
               else r.packets == [Fin()] && j < e == |b| && r.rest == [] && r.streak == 0
    decreases e - p
  {
    hide FinAt, NextStep, Fin, EncodePacket, NextStreak;
    DrainStep(b, j, p, e);
    match NextStep(MAX_PAYLOAD, b[p..e])
    case SkipByte(_) =>
      assert b[p..e][1..] == b[p + 1..e];
      Drain(b, j, p + 1, e, NextStreak(streak));
    case Emit(_) =>
      FinStep(b[p..e], streak);
    case _ =>
  }

  lemma ShortSettled(b: Bytes)
    ensures |b| < HEADER_SIZE ==> NextStep(MAX_PAYLOAD, b) == NeedMore
  {
  }

  // ---------- What is on a link ----------

  // For a link and the inbox behind it: nothing, one control message, data
  // above the bound, or such data and a TEST_FIN, which may get lost.
  datatype Load = Empty | Control(m: Packet) | Flood | FloodFin

  const EMPTY_LINK := Link([], [], 0)

  ghost predicate On(load: Load, link: Link, inbox: seq<Packet>) {
    match load
    case Empty => link == EMPTY_LINK && inbox == []
    case Control(m) =>
      && m.header.messageType != DATA_PACKET
      && ((inbox == [] && Spells(link, [m])) || (inbox == [m] && link == EMPTY_LINK))
    case Flood => inbox == [] && Barren(link.buffer + link.wire)
    case FloodFin =>
      (inbox == [] && exists j :: FinAt(link.buffer + link.wire, j)) || (inbox == [Fin()] && link == EMPTY_LINK)
  }

  function Messages(load: Load): seq<Packet> {
    match load
    case Control(m) => [m]
    case FloodFin => [Fin()]
    case _ => []
  }

  lemma InboxOn(load: Load, link: Link, inbox: seq<Packet>)
    requires On(load, link, inbox)
    ensures inbox == [] || (inbox == Messages(load) && link == EMPTY_LINK)
    ensures forall m | m in Messages(load) :: m.header.messageType != DATA_PACKET
  {
    FinSize();
    hide Spells, FinAt, Barren, EncodePacket;
  }

  lemma ParseNothing(streak: nat)
    ensures Parse(MAX_PAYLOAD, [], streak) == Nothing([], streak)
  {
  }

  lemma SpellsNothing(link: Link)
    ensures Spells(link, []) <==> link == EMPTY_LINK
  {
    SettledEmpty(MAX_PAYLOAD);
    hide NextStep;
  }

  // Any number of bytes received leaves the same load, with what came out now
  // in the inbox.
  lemma ParseOn(load: Load, link: Link, inbox: seq<Packet>, size: nat)
    requires On(load, link, inbox) && size <= |link.wire|
    ensures var r := Parse(MAX_PAYLOAD, link.buffer + link.wire[..size], link.streak);
            r.checksumFailures == 0 && On(load, Link(link.wire[size..], r.rest, r.streak), inbox + r.packets)
  {
    InboxOn(load, link, inbox);
    ParseNothing(0);
    hide Parse, Spells, FinAt, Barren, Fin;
    if link == EMPTY_LINK {
      assert link.buffer + link.wire[..size] == [] && link.wire[size..] == [];
      assert inbox + [] == inbox;
    } else if load.Control? {
      var j := ParseDelivers(link, [load.m], size);
      if j == 1 {
        assert [load.m][1..] == [] && [load.m][..1] == [load.m];
        SpellsNothing(Link(link.wire[size..], Parse(MAX_PAYLOAD, link.buffer + link.wire[..size], link.streak).rest,
                           Parse(MAX_PAYLOAD, link.buffer + link.wire[..size], link.streak).streak));
      }
    } else {
      ParseFlood(load, link, size);
    }
  }

  // A receive from such a stream.
  lemma DrainLink(link: Link, j: nat, size: nat)
    requires FinAt(link.buffer + link.wire, j) && size <= |link.wire|
    ensures var all := link.buffer + link.wire;
            var r := Parse(MAX_PAYLOAD, link.buffer + link.wire[..size], link.streak);
            && r.checksumFailures == 0
            && if r.packets == [] then
                 var left := r.rest + link.wire[size..];
                 |left| <= |all| && left == all[|all| - |left|..]
               else
                 r.packets == [Fin()] && j < |all| && Link(link.wire[size..], r.rest, r.streak) == EMPTY_LINK
  {
    hide Parse, Fin, FinAt;
    var all, e := link.buffer + link.wire, |link.buffer| + size;
    assert all[0..e] == link.buffer + link.wire[..size];
    Drain(all, j, 0, e, link.streak);
  }

  lemma ParseFlood(load: Load, link: Link, size: nat)
    requires On(load, link, []) && (load.Flood? || load.FloodFin?) && size <= |link.wire|
    ensures var r := Parse(MAX_PAYLOAD, link.buffer + link.wire[..size], link.streak);
            r.checksumFailures == 0 && On(load, Link(link.wire[size..], r.rest, r.streak), [] + r.packets)
  {
    hide Parse, Fin, FinAt, Barren, Spells;
    var all := link.buffer + link.wire;
    var r := Parse(MAX_PAYLOAD, link.buffer + link.wire[..size], link.streak);
    var left := r.rest + link.wire[size..];
    if load.Flood? {
      BarrenFinAt(all);
      DrainLink(link, |all|, size);
      BarrenTail(all, |all| - |left|);
    } else {
      var j :| FinAt(all, j);
      DrainLink(link, j, size);
      if r.packets == [] {
        FinAtTail(all, j, |all| - |left|);
      }
    }
  }

  lemma BarrenFinAt(b: Bytes)
    requires Barren(b)
    ensures FinAt(b, |b|)
  {
    assert b[..|b|] == b;
  }

  lemma DispatchFew<Pc>(p: Party<Pc>, packets: seq<Packet>)
    requires |packets| <= 1 && forall m | m in packets :: m.header.messageType != DATA_PACKET
    ensures DispatchAll(p, packets) == p.(inbox := p.inbox + packets)
  {
    if packets == [] {
      assert p.inbox + packets == p.inbox;
    } else {
      assert packets == [packets[0]] && packets[1..] == [];
      assert DispatchAll(Dispatch(p, packets[0]), []) == Dispatch(p, packets[0]);
    }
  }

  lemma ReceiveOn<Pc>(load: Load, p: Party<Pc>, link: Link, size: nat)
    requires On(load, link, p.inbox) && size <= |link.wire|
    ensures var (p', link') := ReceiveChunk(p, link, size);
            p' == p.(inbox := p'.inbox) && On(load, link', p'.inbox)
  {
    hide On, Parse, DispatchAll, Messages;
    var r := Parse(MAX_PAYLOAD, link.buffer + link.wire[..size], link.streak);
    ParseOn(load, link, p.inbox, size);
    AtMostOne(load, Link(link.wire[size..], r.rest, r.streak), p.inbox + r.packets);
    assert r.packets == (p.inbox + r.packets)[|p.inbox|..];
    DispatchFew(p, r.packets);
    assert p.(counters := p.counters.(failedChecksums := p.counters.failedChecksums + 0)) == p;
  }

  lemma AtMostOne(load: Load, link: Link, inbox: seq<Packet>)
    requires On(load, link, inbox)
    ensures |inbox| <= 1 && forall m | m in inbox :: m.header.messageType != DATA_PACKET
  {
    InboxOn(load, link, inbox);
    hide On;
  }

  // ---------- Sending and taking ----------

  lemma ExtendedOne(link: Link, p: Packet)
    ensures Extended(link, [p]) == link.(wire := link.wire + EncodePacket(p))
  {
    OneEncoded(p);
  }

  lemma SendControl(link: Link, inbox: seq<Packet>, kind: Byte, payload: Bytes)
    requires On(Empty, link, inbox) && kind != DATA_PACKET && |payload| <= MAX_PAYLOAD
    ensures On(Control(ControlPacket(kind, payload)), Extended(link, [ControlPacket(kind, payload)]), inbox)
  {
    ControlValid(kind, payload);
    SpellsNothing(link);
    assert ControlPacket(kind, payload).header.messageType == kind;
    hide ControlPacket, Spells, EncodeAll, AllValid;
    SpellsSent(link, [], [ControlPacket(kind, payload)]);
    assert [] + [ControlPacket(kind, payload)] == [ControlPacket(kind, payload)];
  }

  lemma SendData(link: Link, inbox: seq<Packet>, config: Config, i: nat)
    requires On(Flood, link, inbox) && TooLarge(config)
    ensures On(Flood, Extended(link, [Numbered(config, i)]), inbox)
  {
    DataBarren(config, i);
    ExtendedOne(link, Numbered(config, i));
    hide Numbered, EncodePacket, Barren, EncodeAll;
    var b := EncodePacket(Numbered(config, i));
    assert link.buffer + (link.wire + b) == link.buffer + link.wire + b;
    BarrenJoin(link.buffer + link.wire, b);
  }

  lemma SendFin(link: Link, inbox: seq<Packet>)
    requires On(Flood, link, inbox)
    ensures On(FloodFin, Extended(link, [Fin()]), inbox)
  {
    ExtendedOne(link, Fin());
    hide Fin, EncodePacket, Barren, EncodeAll;
    var data, b := link.buffer + link.wire, EncodePacket(Fin());
    var all := link.buffer + (link.wire + b);
    assert all[..|data|] == data && all[|data|..] == b;
    assert FinAt(all, |data|);
  }

  // An empty link is ready for anything.
  lemma EmptyFloods(link: Link, inbox: seq<Packet>)
    requires On(Empty, link, inbox)
    ensures On(Flood, link, inbox)
  {
    NothingBarren();
  }

  // What a wait finds is the one message of the link, which is then empty.
  lemma TakeOn(load: Load, link: Link, inbox: seq<Packet>, kind: Byte)
    requires On(load, link, inbox) && Has(inbox, kind)
    ensures Messages(load) == inbox == [First(inbox, kind)] && First(inbox, kind).header.messageType == kind
    ensures On(Empty, link, WithoutFirst(inbox, kind))
  {
    InboxOn(load, link, inbox);
    hide Fin, Spells, FinAt, Barren;
    assert inbox != [];
    OnlyMessage(inbox, inbox[0], kind);
    hide First, WithoutFirst, Has, Messages;
  }

  // ---------- What can still come out ----------

  // Control messages that a receiver hands on when the rest of the wire arrives
  // in these chunks.
  ghost function ToCome(link: Link, chunks: seq<Bytes>): nat {
    Controls(Feed(MAX_PAYLOAD, link.buffer, link.streak, chunks).packets)
  }

  // At most one control message is in an inbox or still comes out of a parser,
  // counting both directions, in whatever chunks the bytes in transit arrive.
  ghost predicate OneControlLeft(n: Net) {
    forall ups: seq<Bytes>, downs: seq<Bytes> | Concat(ups) == n.up.wire && Concat(downs) == n.down.wire ::
      ToCome(n.up, ups) + Controls(n.server.inbox) + ToCome(n.down, downs) + Controls(n.client.inbox) <= 1
  }

  lemma {:induction false} ControlsConcat(a: seq<Packet>, b: seq<Packet>)
    ensures Controls(a + b) == Controls(a) + Controls(b)
  {
    if a == [] {
      assert a + b == b;
    } else {
      ControlsConcat(a[1..], b);
      assert (a + b)[1..] == a[1..] + b;
    }
  }

  lemma ControlsOn(load: Load, link: Link, inbox: seq<Packet>)
    requires On(load, link, inbox)
    ensures Controls(inbox) <= |Messages(load)|
  {
    InboxOn(load, link, inbox);
    hide On;
    if inbox != [] {
      assert inbox[1..] == [];
    }
  }

  // However the rest of the wire is cut into receives.
  lemma {:induction false} FeedOn(load: Load, link: Link, inbox: seq<Packet>, chunks: seq<Bytes>)
    requires On(load, link, inbox) && Concat(chunks) == link.wire
    ensures ToCome(link, chunks) + Controls(inbox) <= |Messages(load)|
    decreases |chunks|
  {
    ControlsOn(load, link, inbox);
    hide On, Messages, Parse, Controls;
    if chunks == [] {
      assert Controls([]) == 0 by { NoControls(); }
    } else {
      var n := |chunks[0]|;
      assert link.wire[..n] == chunks[0] && link.wire[n..] == Concat(chunks[1..]);
      var r := Parse(MAX_PAYLOAD, link.buffer + link.wire[..n], link.streak);
      ParseOn(load, link, inbox, n);
      FeedOn(load, Link(link.wire[n..], r.rest, r.streak), inbox + r.packets, chunks[1..]);
      ControlsConcat(inbox, r.packets);
      ControlsConcat(r.packets, Feed(MAX_PAYLOAD, r.rest, r.streak, chunks[1..]).packets);
    }
  }

  lemma NoControls()
    ensures Controls([]) == 0
  {
  }

  // Below the bound, no more than the packets in transit hold.
  lemma {:induction false} FeedSpelled(link: Link, packets: seq<Packet>, chunks: seq<Bytes>)
    requires Spells(link, packets) && Concat(chunks) == link.wire
    ensures ToCome(link, chunks) <= Controls(packets)
    decreases |chunks|
  {
    hide Spells, Parse, Controls;
    NoControls();
    if chunks != [] {
      var n := |chunks[0]|;
      assert link.wire[..n] == chunks[0] && link.wire[n..] == Concat(chunks[1..]);
      var r := Parse(MAX_PAYLOAD, link.buffer + link.wire[..n], link.streak);
      var j := ParseDelivers(link, packets, n);
      FeedSpelled(Link(link.wire[n..], r.rest, r.streak), packets[j..], chunks[1..]);
      assert packets[..j] + packets[j..] == packets;
      ControlsConcat(packets[..j], packets[j..]);
      ControlsConcat(r.packets, Feed(MAX_PAYLOAD, r.rest, r.streak, chunks[1..]).packets);
    }
  }
}
