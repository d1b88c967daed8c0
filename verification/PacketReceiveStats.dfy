// Sequence and content accounting of received data packets.
module ReceiveStats {
  import opened Protocol

  // The counters of PacketReceiveStats, and the counter it expects next.
  datatype Counters = Counters(
    bytesReceived: nat,
    packetsReceived: nat,
    failedChecksums: nat,
    sequenceErrors: nat,
    contentMismatches: nat,
    expectedCounter: UInt32)

  const ZERO := Counters(0, 0, 0, 0, 0, 0)

  function Next(counter: UInt32): UInt32 {
    Wrap32(counter + 1)
  }

  function Expected(p: Packet): Bytes {
    BuildExpectedPayload(p.header.packetCounter, p.header.payloadSize)
  }

  // The guard compares only payloads of the expected length; a parsed packet
  // always has it.
  predicate Mismatched(p: Packet) {
    |Expected(p)| == |p.payload| && p.payload != Expected(p)
  }

  function OnData(c: Counters, p: Packet): Counters {
    Counters(
      c.bytesReceived + p.TotalPacketSize(),
      c.packetsReceived + 1,
      c.failedChecksums,
      if p.header.packetCounter != c.expectedCounter then c.sequenceErrors + 1 else c.sequenceErrors,
      if Mismatched(p) then c.contentMismatches + 1 else c.contentMismatches,
      Next(p.header.packetCounter))
  }

  function OnAll(c: Counters, ps: seq<Packet>): Counters {
    if ps == [] then c else OnData(OnAll(c, ps[..|ps| - 1]), ps[|ps| - 1])
  }

  class PacketReceiveStats {
    var totalBytesReceived: nat
    var totalPacketsReceived: nat
    var failedChecksumCount: nat
    var sequenceErrorCount: nat
    var contentMismatchCount: nat
    var expectedPacketCounter: UInt32

    function Snapshot(): Counters
      reads this
    {
      Counters(totalBytesReceived, totalPacketsReceived, failedChecksumCount,
               sequenceErrorCount, contentMismatchCount, expectedPacketCounter)
    }

    constructor ()
      ensures Snapshot() == ZERO
    {
      totalBytesReceived := 0;
      totalPacketsReceived := 0;
      failedChecksumCount := 0;
      sequenceErrorCount := 0;
      contentMismatchCount := 0;
      expectedPacketCounter := 0;
    }

    method Reset()
      modifies this
      ensures Snapshot() == ZERO
    {
      totalBytesReceived := 0;
      totalPacketsReceived := 0;
      failedChecksumCount := 0;
      sequenceErrorCount := 0;
      contentMismatchCount := 0;
      expectedPacketCounter := 0;
    }

    method OnDataPacket(packet: Packet)
      modifies this
      ensures Snapshot() == OnData(old(Snapshot()), packet)
    {
      var expected := BuildExpectedPayload(packet.header.packetCounter, packet.header.payloadSize);
      if |expected| == |packet.payload| && packet.payload != expected {
        contentMismatchCount := contentMismatchCount + 1;
      }
      totalBytesReceived := totalBytesReceived + packet.TotalPacketSize();
      totalPacketsReceived := totalPacketsReceived + 1;
      if packet.header.packetCounter != expectedPacketCounter {
        sequenceErrorCount := sequenceErrorCount + 1;
        expectedPacketCounter := packet.header.packetCounter;
      }
      expectedPacketCounter := Wrap32(expectedPacketCounter + 1);
    }

    method OnChecksumFailure()
      modifies this
      ensures Snapshot() == old(Snapshot()).(failedChecksums := old(Snapshot()).failedChecksums + 1)
    {
      failedChecksumCount := failedChecksumCount + 1;
    }
  }

  // ---------- What the counters mean ----------

  // Packet i continues the numbering: it follows packet i - 1, or is packet 0.
  ghost predicate InSequence(ps: seq<Packet>, i: nat)
    requires i < |ps|
  {
    ps[i].header.packetCounter == if i == 0 then 0 else Next(ps[i - 1].header.packetCounter)
  }

  ghost function SequenceBreaks(ps: seq<Packet>): set<nat> {
    set i: nat | i < |ps| && !InSequence(ps, i)
  }

  ghost function MismatchedAt(ps: seq<Packet>): set<nat> {
    set i: nat | i < |ps| && Mismatched(ps[i])
  }

  ghost function TotalSize(ps: seq<Packet>): nat {
    if ps == [] then 0 else TotalSize(ps[..|ps| - 1]) + ps[|ps| - 1].TotalPacketSize()
  }

  lemma SequenceBreaksGrow(ps: seq<Packet>)
    requires ps != []
    ensures var n := |ps| - 1;
            |SequenceBreaks(ps)| == |SequenceBreaks(ps[..n])| + if InSequence(ps, n) then 0 else 1
  {
    hide Next;
    var n := |ps| - 1;
    var front := SequenceBreaks(ps[..n]);
    forall i: nat | i < n
      ensures InSequence(ps, i) == InSequence(ps[..n], i)
    {
    }
    if InSequence(ps, n) {
      assert SequenceBreaks(ps) == front;
    } else {
      assert SequenceBreaks(ps) == front + {n};
    }
  }

  lemma MismatchesGrow(ps: seq<Packet>)
    requires ps != []
    ensures var n := |ps| - 1;
            |MismatchedAt(ps)| == |MismatchedAt(ps[..n])| + if Mismatched(ps[n]) then 1 else 0
  {
    hide Mismatched;
    var n := |ps| - 1;
    var front := MismatchedAt(ps[..n]);
    if Mismatched(ps[n]) {
      assert MismatchedAt(ps) == front + {n};
    } else {
      assert MismatchedAt(ps) == front;
    }
  }

  // Sequence errors are counted once per break in the numbering, whatever was
  // received before, and content mismatches once per altered payload.
  lemma {:induction false} CountersMeaning(ps: seq<Packet>)
    ensures var c := OnAll(ZERO, ps);
            && c.packetsReceived == |ps| && c.bytesReceived == TotalSize(ps) && c.failedChecksums == 0
            && c.sequenceErrors == |SequenceBreaks(ps)|
            && c.contentMismatches == |MismatchedAt(ps)|
            && c.expectedCounter == if ps == [] then 0 else Next(ps[|ps| - 1].header.packetCounter)
  {
    hide Mismatched, Next;
    if ps == [] {
      assert SequenceBreaks(ps) == {} && MismatchedAt(ps) == {};
    } else {
      CountersMeaning(ps[..|ps| - 1]);
      SequenceBreaksGrow(ps);
      MismatchesGrow(ps);
      hide SequenceBreaks, MismatchedAt;
    }
  }

  // The packets 0, 1, 2, ... with their deterministic payloads, and no others.
  ghost predicate Pristine(ps: seq<Packet>) {
    forall i | 0 <= i < |ps| ::
      ps[i].header.packetCounter == Wrap32(i) && ps[i].payload == Expected(ps[i])
  }

  // No sequence error and no content mismatch is exactly an undisturbed run.
  lemma ErrorFreeIffPristine(ps: seq<Packet>)
    requires forall i | 0 <= i < |ps| :: |ps[i].payload| == ps[i].header.payloadSize
    ensures var c := OnAll(ZERO, ps);
            c.sequenceErrors == 0 && c.contentMismatches == 0 <==> Pristine(ps)
  {
    CountersMeaning(ps);
    hide BuildExpectedPayload, OnAll;
    if Pristine(ps) {
      PristineInSequence(ps);
      assert MismatchedAt(ps) == {};
    } else if SequenceBreaks(ps) == {} && MismatchedAt(ps) == {} {
      forall i: nat | i < |ps|
        ensures ps[i].header.packetCounter == Wrap32(i) && ps[i].payload == Expected(ps[i])
      {
        NumberedUpTo(ps, i);
        assert i !in MismatchedAt(ps);
      }
    }
  }

  lemma PristineInSequence(ps: seq<Packet>)
    requires Pristine(ps)
    ensures SequenceBreaks(ps) == {}
  {
    hide Expected;
    forall i: nat | i < |ps|
      ensures InSequence(ps, i)
    {
      if i > 0 {
        NextOfModulo(i - 1);
      }
    }
  }

  lemma NextOfModulo(i: nat)
    ensures Next(Wrap32(i)) == Wrap32(i + 1)
  {
  }

  lemma {:induction false} NumberedUpTo(ps: seq<Packet>, i: nat)
    requires i < |ps| && SequenceBreaks(ps) == {}
    ensures ps[i].header.packetCounter == Wrap32(i)
  {
    assert i !in SequenceBreaks(ps);
    if i > 0 {
      NumberedUpTo(ps, i - 1);
      NextOfModulo(i - 1);
    }
  }

  // ---------- Swapped payloads ----------

  function WithPayload(p: Packet, payload: Bytes): Packet {
    p.(payload := payload)
  }

  function Swapped(ps: seq<Packet>, i: nat, j: nat): seq<Packet>
    requires i < |ps| && j < |ps|
  {
    ps[i := WithPayload(ps[i], ps[j].payload)][j := WithPayload(ps[j], ps[i].payload)]
  }

  // The payload of another counter is a mismatch.
  lemma OtherPayload(p: Packet, counter: UInt32)
    requires p.header.payloadSize >= HEADER_SIZE && counter != p.header.packetCounter
    ensures Mismatched(WithPayload(p, BuildExpectedPayload(counter, p.header.payloadSize)))
  {
    PayloadsDiffer(counter, p.header.packetCounter, p.header.payloadSize);
    hide BuildExpectedPayload;
  }

  lemma ExchangeMismatches(ps: seq<Packet>, i: nat, j: nat)
    requires Pristine(ps) && i < j < |ps| && ps[i].header.packetCounter != ps[j].header.packetCounter
    requires ps[i].header.payloadSize == ps[j].header.payloadSize >= HEADER_SIZE
    ensures MismatchedAt(Swapped(ps, i, j)) == {i, j}
  {
    hide BuildExpectedPayload;
    OtherPayload(ps[i], ps[j].header.packetCounter);
    OtherPayload(ps[j], ps[i].header.packetCounter);
    var qs := Swapped(ps, i, j);
    forall k: nat | k < |ps|
      ensures Mismatched(qs[k]) <==> k == i || k == j
    {
      assert k != i && k != j ==> qs[k] == ps[k] && ps[k].payload == Expected(ps[k]);
    }
  }

  lemma ExchangeInSequence(ps: seq<Packet>, i: nat, j: nat)
    requires SequenceBreaks(ps) == {} && i < j < |ps|
    ensures SequenceBreaks(Swapped(ps, i, j)) == {}
  {
    var qs := Swapped(ps, i, j);
    assert forall k | 0 <= k < |ps| :: qs[k].header == ps[k].header;
    forall k: nat | k < |ps|
      ensures InSequence(qs, k)
    {
      assert k !in SequenceBreaks(ps);
    }
  }

  // In an undisturbed run the payloads of two packets are exchanged: exactly
  // these two are counted, and nothing else.
  lemma ExchangeCounted(ps: seq<Packet>, i: nat, j: nat)
    requires Pristine(ps) && i < j < |ps| && ps[i].header.packetCounter != ps[j].header.packetCounter
    requires ps[i].header.payloadSize == ps[j].header.payloadSize >= HEADER_SIZE
    ensures var c := OnAll(ZERO, Swapped(ps, i, j)); c.contentMismatches == 2 && c.sequenceErrors == 0
  {
    PristineInSequence(ps);
    ExchangeMismatches(ps, i, j);
    ExchangeInSequence(ps, i, j);
    hide *;
    CountersMeaning(Swapped(ps, i, j));
  }
}
