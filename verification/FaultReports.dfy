// What becomes of damage on the way: the statistics of a receiver, what they
// stand for, and a phase that cannot pass once a payload has been damaged.
module FaultReports {
  import opened Protocol
  import opened StreamParser
  import opened StreamCodec
  import opened TestTypes
  import opened ReceiveStats
  import opened Receiver
  import opened DiscardedBytes
  import opened Controller
  import opened Sessions

  // What the receiver reports after a receive history from its start.
  function Reported(r: Outcome): TestStats {
    ReceiverStats(CountFailures(OnAll(ZERO, DataOnly(r.packets)), r.checksumFailures))
  }

  // Each number of the report is that of what has been received.
  lemma ReportedMeaning(r: Outcome)
    ensures var stats, data := Reported(r), DataOnly(r.packets);
            && stats.totalPacketsReceived == |data| && stats.totalBytesReceived == TotalSize(data)
            && stats.failedChecksumCount == r.checksumFailures
            && stats.sequenceErrorCount == |SequenceBreaks(data)|
            && stats.contentMismatchCount == |MismatchedAt(data)|
            && stats.totalPacketsSent == stats.totalBytesSent == 0
  {
    CountersMeaning(DataOnly(r.packets));
    hide OnAll, SequenceBreaks, MismatchedAt, TotalSize;
  }

  // Whatever the rest of a stream does: once one payload byte has changed, the
  // failure is counted, and the phase fails and says so, in whatever chunks the
  // bytes arrive.
  lemma DamageReported(chunks: seq<Bytes>, ps: seq<Packet>, p: Packet, i: nat, b: Byte, after: Bytes,
                       name: string, sender: string, receiver: string, sent: TestStats, config: Config)
    requires AllValid(ps, MAX_PAYLOAD) && ValidPacket(p, MAX_PAYLOAD) && i < |p.payload| && p.payload[i] != b
    requires Concat(chunks) == EncodeAll(ps) + (EncodePacket(Altered(p, i, b)) + after)
    ensures var stats := Reported(Feed(MAX_PAYLOAD, [], 0, chunks));
            var phase := PhaseResult(name, sender, receiver, sent, stats, config);
            && stats.failedChecksumCount >= 1 && !Complete(stats, config) && !phase.success
            && Contains(phase.failureReason, "Checksum errors detected (" + Signed(stats.failedChecksumCount) + ")")
  {
    hide EncodePacket, ValidPacket, Feed, Contains, Signed, Altered, EncodeAll, Damaged;
    AlteredDamaged(p, i, b, MAX_PAYLOAD);
    var q := Altered(p, i, b);
    assert [] + Concat(chunks) == Concat(chunks);
    NotEmpty(q);
    DamageCountedInChunks(MAX_PAYLOAD, [], 0, chunks, ps, q, after);
    ReportedMeaning(Feed(MAX_PAYLOAD, [], 0, chunks));
    var stats := Reported(Feed(MAX_PAYLOAD, [], 0, chunks));
    hide Reported, SequenceBreaks, MismatchedAt, TotalSize;
    ReasonEmptyIffComplete(stats, config);
    ReasonNames(stats, config);
    hide ValidateReceiverStats;
  }

  lemma NotEmpty(q: Packet)
    ensures |EncodePacket(q)| > 0
  {
  }
}
