// The receive loop: chunks to the parser, packets to the dispatcher, data to
// the statistics and control messages to the bus.
module Receiver {
  import opened Protocol
  import opened StreamParser
  import opened ReceiveStats
  import opened MessageBus
  import opened MessageBusObjects

  function DataOnly(ps: seq<Packet>): seq<Packet> {
    if ps == [] then []
    else DataOnly(ps[..|ps| - 1]) + if ps[|ps| - 1].header.messageType == DATA_PACKET then [ps[|ps| - 1]] else []
  }

  ghost predicate Known<W>(b: Bus<W>) {
    forall kind | kind in b.pending :: b.pending[kind] in b.waits
  }

  // Deliver every packet in turn; data packets do not reach the bus.
  ghost function HandAll<W>(b: Bus<W>, ps: seq<Packet>): (b': Bus<W>)
    requires Known(b)
    ensures Known(b')
  {
    if ps == [] then b else Hand(HandAll(b, ps[..|ps| - 1]), ps[|ps| - 1])
  }

  function CountFailures(c: Counters, n: nat): Counters {
    c.(failedChecksums := c.failedChecksums + n)
  }

  method Dispatch(packets: seq<Packet>, stats: PacketReceiveStats, bus: ControlMessageBus)
    requires Known(bus.State())
    modifies stats, bus, bus.awaiters
    ensures stats.Snapshot() == OnAll(old(stats.Snapshot()), DataOnly(packets))
    ensures bus.awaiters == old(bus.awaiters) && bus.State() == HandAll(old(bus.State()), packets)
  {
    hide OnData, Hand;
    ghost var counters, handed := stats.Snapshot(), bus.State();
    assert packets[..0] == [];
    for i := 0 to |packets|
      invariant bus.awaiters == old(bus.awaiters)
      invariant stats.Snapshot() == OnAll(counters, DataOnly(packets[..i]))
      invariant bus.State() == HandAll(handed, packets[..i])
    {
      var packet := packets[i];
      DispatchOne(counters, handed, packets, i);
      if packet.header.messageType == DATA_PACKET {
        stats.OnDataPacket(packet);
      } else {
        bus.Deliver(packet);
      }
    }
    assert packets[..|packets|] == packets;
  }

  lemma DispatchOne<W>(c: Counters, b: Bus<W>, ps: seq<Packet>, i: nat)
    requires i < |ps| && Known(b)
    ensures var data := ps[i].header.messageType == DATA_PACKET;
            && HandAll(b, ps[..i + 1]) == (if data then HandAll(b, ps[..i]) else Hand(HandAll(b, ps[..i]), ps[i]))
            && OnAll(c, DataOnly(ps[..i + 1])) == (if data then OnData(OnAll(c, DataOnly(ps[..i])), ps[i])
                                                   else OnAll(c, DataOnly(ps[..i])))
  {
    hide OnData;
    var now, before := ps[..i + 1], ps[..i];
    assert now[..|now| - 1] == before && now[|now| - 1] == ps[i];
    var data := DataOnly(before);
    if ps[i].header.messageType == DATA_PACKET {
      assert (data + [ps[i]])[..|data|] == data;
    } else {
      assert data + [] == data;
    }
  }

  // ---------- Whole receive histories ----------

  lemma {:induction false} DataOnlyConcat(ps: seq<Packet>, qs: seq<Packet>)
    ensures DataOnly(ps + qs) == DataOnly(ps) + DataOnly(qs)
    decreases |qs|
  {
    if qs == [] {
      assert ps + qs == ps;
    } else {
      var n := |qs| - 1;
      assert (ps + qs)[..|ps + qs| - 1] == ps + qs[..n];
      DataOnlyConcat(ps, qs[..n]);
    }
  }

  lemma {:induction false} OnAllConcat(c: Counters, n: nat, ps: seq<Packet>, qs: seq<Packet>)
    ensures OnAll(CountFailures(OnAll(c, ps), n), qs) == CountFailures(OnAll(c, ps + qs), n)
    decreases |qs|
  {
    hide ReceiveStats.Next;
    if qs == [] {
      assert ps + qs == ps;
    } else {
      assert (ps + qs)[..|ps + qs| - 1] == ps + qs[..|qs| - 1];
      OnAllConcat(c, n, ps, qs[..|qs| - 1]);
    }
  }

  lemma {:induction false} HandAllConcat<W>(b: Bus<W>, ps: seq<Packet>, qs: seq<Packet>)
    requires Known(b)
    ensures HandAll(HandAll(b, ps), qs) == HandAll(b, ps + qs)
    decreases |qs|
  {
    hide Hand;
    if qs == [] {
      assert ps + qs == ps;
    } else {
      assert (ps + qs)[..|ps + qs| - 1] == ps + qs[..|qs| - 1];
      HandAllConcat(b, ps, qs[..|qs| - 1]);
    }
  }

  lemma {:induction false} FeedLast(maxPayloadSize: nat, buffer: Bytes, streak: nat, chunks: seq<Bytes>, chunk: Bytes)
    ensures var r := Feed(maxPayloadSize, buffer, streak, chunks);
            Feed(maxPayloadSize, buffer, streak, chunks + [chunk])
                == Then(r, Parse(maxPayloadSize, r.rest + chunk, r.streak))
    decreases |chunks|
  {
    hide Parse;
    if chunks == [] {
      assert [] + [chunk] == [chunk] && [chunk][1..] == [];
    } else {
      assert (chunks + [chunk])[1..] == chunks[1..] + [chunk];
      var first := Parse(maxPayloadSize, buffer + chunks[0], streak);
      FeedLast(maxPayloadSize, first.rest, first.streak, chunks[1..], chunk);
      var later := Feed(maxPayloadSize, first.rest, first.streak, chunks[1..]);
      ThenAssociates(first, later, Parse(maxPayloadSize, later.rest + chunk, later.streak));
    }
  }

  // What one receive comes to: bytes, and whether stop() came before the loop
  // tested its flag again, or an exception.
  datatype Receive = Received(data: Bytes, stopped: bool) | Failed

  predicate Ends(r: Receive) {
    r.Failed? || r.data == [] || r.stopped
  }

  function Chunks(receives: seq<Receive>): seq<Bytes> {
    if receives == [] then []
    else
      var last := receives[|receives| - 1];
      Chunks(receives[..|receives| - 1]) + if last.Received? then [last.data] else []
  }

  lemma ChunksLast(receives: seq<Receive>, used: nat)
    requires 1 <= used <= |receives|
    ensures var last := receives[used - 1];
            Chunks(receives[..used]) == Chunks(receives[..used - 1]) + if last.Received? then [last.data] else []
  {
    assert receives[..used][..used - 1] == receives[..used - 1];
  }

  class PacketReceiver {
    const parser: PacketStreamParser
    const stats: PacketReceiveStats
    var running: bool

    constructor ()
      ensures fresh(parser) && fresh(stats) && !running
      ensures parser.maxPayloadSize == MAX_PAYLOAD == 131072 && parser.buffer == [] && parser.consecutiveFailures == 0
      ensures stats.Snapshot() == ZERO
    {
      parser := new PacketStreamParser(MAX_PAYLOAD);
      stats := new PacketReceiveStats();
      running := false;
    }

    // Does nothing when already running.
    method Start()
      modifies this`running, parser, stats
      ensures running
      ensures if old(running)
              then parser.buffer == old(parser.buffer) &&
                   parser.consecutiveFailures == old(parser.consecutiveFailures) &&
                   stats.Snapshot() == old(stats.Snapshot())
              else parser.buffer == [] && parser.consecutiveFailures == 0 && stats.Snapshot() == ZERO
    {
      if running {
        return;
      }
      parser.Reset();
      stats.Reset();
      running := true;
    }

    method Stop()
      modifies this`running
      ensures !running
    {
      running := false;
    }

    ghost function Before(): Outcome
      reads this, parser
    {
      Nothing(parser.buffer, parser.consecutiveFailures)
    }

    // A receive of no bytes means that the connection was closed.
    method ReceiverLoop(receives: seq<Receive>, bus: ControlMessageBus) returns (used: nat)
      requires running && Known(bus.State())
      modifies this`running, parser, stats, bus, bus.awaiters
      ensures used <= |receives| && (forall i | 0 <= i < used - 1 :: !Ends(receives[i]))
      ensures if running then used == |receives| && (used > 0 ==> !Ends(receives[used - 1]))
              else used > 0 && Ends(receives[used - 1])
      ensures var chunks := Chunks(receives[..used]);
              var r := Feed(parser.maxPayloadSize, old(parser.buffer), old(parser.consecutiveFailures), chunks);
              var all := OnAll(old(stats.Snapshot()), DataOnly(r.packets));
              && parser.buffer == r.rest && parser.consecutiveFailures == r.streak
              && stats.Snapshot() == CountFailures(all, r.checksumFailures)
              && bus.awaiters == old(bus.awaiters) && bus.State() == HandAll(old(bus.State()), r.packets)
    {
      hide Parse, Feed, OnAll, HandAll, DataOnly, CountFailures;
      used := 0;
      ghost var counters, handed, start := stats.Snapshot(), bus.State(), Before();
      ghost var r := Nothing(parser.buffer, parser.consecutiveFailures);
      ghost var chunks: seq<Bytes> := [];
      FeedNone(counters, handed, start, parser.maxPayloadSize);
      assert receives[..0] == [];
      while running && used < |receives|
        invariant used <= |receives| && bus.awaiters == old(bus.awaiters) && chunks == Chunks(receives[..used])
        invariant forall i | 0 <= i < used - 1 :: !Ends(receives[i])
        invariant if running then used > 0 ==> !Ends(receives[used - 1]) else used > 0 && Ends(receives[used - 1])
        invariant r == Feed(parser.maxPayloadSize, start.rest, start.streak, chunks)
        invariant parser.buffer == r.rest && parser.consecutiveFailures == r.streak
        invariant stats.Snapshot() == CountFailures(OnAll(counters, DataOnly(r.packets)), r.checksumFailures)
        invariant bus.State() == HandAll(handed, r.packets)
      {
        var receive := receives[used];
        used := used + 1;
        ChunksLast(receives, used);
        match receive
        case Failed =>
          running := false;
        case Received(chunk, stopped) =>
          FeedLast(parser.maxPayloadSize, start.rest, start.streak, chunks, chunk);
          OnReceive(chunk, bus);
          ghost var more := Parse(parser.maxPayloadSize, r.rest + chunk, r.streak);
          Accumulate(counters, handed, r, more);
          r, chunks := Then(r, more), chunks + [chunk];
          if chunk == [] || stopped {
            running := false;
          }
      }
    }

    // One completed receive; an empty one only drains.
    method OnReceive(chunk: Bytes, bus: ControlMessageBus)
      requires Known(bus.State())
      modifies parser, stats, bus, bus.awaiters
      ensures var r := Parse(parser.maxPayloadSize, old(parser.buffer) + chunk, old(parser.consecutiveFailures));
              && parser.buffer == r.rest && parser.consecutiveFailures == r.streak
              && stats.Snapshot() == OnAll(CountFailures(old(stats.Snapshot()), r.checksumFailures),
                  DataOnly(r.packets))
              && bus.awaiters == old(bus.awaiters) && bus.State() == HandAll(old(bus.State()), r.packets)
    {
      hide Parse, OnAll, HandAll, DataOnly;
      if chunk != [] {
        parser.Append(chunk);
      } else {
        assert parser.buffer + [] == parser.buffer;
      }
      var packets, failures := parser.DrainPackets();
      CountAll(failures);
      Dispatch(packets, stats, bus);
    }

    method CountAll(failures: nat)
      modifies stats
      ensures stats.Snapshot() == CountFailures(old(stats.Snapshot()), failures)
    {
      for i := 0 to failures
        invariant stats.Snapshot() == CountFailures(old(stats.Snapshot()), i)
      {
        stats.OnChecksumFailure();
      }
    }
  }

  lemma FeedNone<W>(c: Counters, b: Bus<W>, start: Outcome, maxPayloadSize: nat)
    requires Known(b)
    ensures Feed(maxPayloadSize, start.rest, start.streak, []) == Nothing(start.rest, start.streak)
    ensures CountFailures(OnAll(c, DataOnly([])), 0) == c && HandAll(b, []) == b
  {
  }

  // Handling the outcomes of two drains one after the other is handling both.
  lemma Accumulate<W>(c: Counters, b: Bus<W>, r: Outcome, more: Outcome)
    requires Known(b)
    ensures OnAll(CountFailures(CountFailures(OnAll(c, DataOnly(r.packets)), r.checksumFailures),
                                more.checksumFailures),
                  DataOnly(more.packets))
         == CountFailures(OnAll(c, DataOnly(Then(r, more).packets)), Then(r, more).checksumFailures)
    ensures HandAll(HandAll(b, r.packets), more.packets) == HandAll(b, Then(r, more).packets)
  {
    hide OnAll, HandAll, DataOnly;
    HandAllConcat(b, r.packets, more.packets);
    DataOnlyConcat(r.packets, more.packets);
    OnAllConcat(c, r.checksumFailures + more.checksumFailures, DataOnly(r.packets), DataOnly(more.packets));
  }
}
