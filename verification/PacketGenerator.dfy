// The sender of numbered data packets.
module Generator {
  import opened Protocol
  import opened TestTypes

  function OtherMode(mode: TestMode): TestMode {
    if mode.CLIENT? then SERVER else CLIENT
  }

  function ModeId(mode: TestMode): Byte {
    if mode.CLIENT? then 0 else 1
  }

  function DataPacket(config: Config, counter: UInt32): Packet
    requires config.packetSize >= HEADER_SIZE
  {
    var payloadSize := config.packetSize - HEADER_SIZE;
    var payload := BuildExpectedPayload(counter, payloadSize);
    Packet(PacketHeader(PROTOCOL_START_CODE, ModeId(config.mode), ModeId(OtherMode(config.mode)),
                        DATA_PACKET, counter, payloadSize, Checksum(payload)),
           payload)
  }

  // Every data packet fills exactly packetSize bytes and is accepted by any
  // receiver whose payload bound it respects.
  lemma DataPacketValid(config: Config, counter: UInt32, maxPayloadSize: nat)
    requires HEADER_SIZE <= config.packetSize <= HEADER_SIZE + maxPayloadSize
    ensures var p := DataPacket(config, counter);
            ValidPacket(p, maxPayloadSize) && |EncodePacket(p)| == p.TotalPacketSize() == config.packetSize
  {
    hide BuildExpectedPayload, Checksum;
  }

  // The client is number 0 and the server number 1.
  lemma DataPacketAddressed(config: Config, counter: UInt32)
    requires config.packetSize >= HEADER_SIZE
    ensures var h := DataPacket(config, counter).header;
            && (if config.mode.CLIENT? then h.senderId == 0 && h.receiverId == 1
                else h.senderId == 1 && h.receiverId == 0)
            && h.packetCounter == counter && h.messageType == 2 && h.startCode == 0xABCD
  {
    hide BuildExpectedPayload, Checksum;
  }

  // static_cast<int> of the 32-bit packet counter.
  function ToInt32(counter: UInt32): int {
    if counter < 0x8000_0000 then counter else counter - 0x1_0000_0000
  }

  predicate ShouldContinue(numPackets: NonNegativeInt32, counter: UInt32) {
    numPackets == 0 || ToInt32(counter) < numPackets
  }

  // A counter from 2^31 on is negative for the comparison, and never ends a run.
  lemma UpperHalfContinues(numPackets: NonNegativeInt32, counter: UInt32)
    ensures ShouldContinue(numPackets, counter) <==>
            numPackets == 0 || counter < numPackets || counter >= 0x8000_0000
  {
  }

  // What the network answers to one send: the byte count it reports, and whether
  // stop() came before the generator looked again. 0 is a failed send; one that
  // throws leaves the loop in the same way, with the same totals.
  datatype SendAnswer = SendAnswer(bytesSent: nat, stopped: bool)

  // Packet number i of a run; its header carries the 32-bit counter.
  function Numbered(config: Config, i: nat): Packet
    requires config.packetSize >= HEADER_SIZE
  {
    DataPacket(config, Wrap32(i))
  }

  // The sends made, the totals kept, and whether sendPackets returned or is
  // still suspended in its last send.
  datatype SendRun = SendRun(sent: seq<Packet>, packetsSent: nat, bytesSent: nat, returned: bool)

  function RunSends(config: Config, first: nat, answers: seq<SendAnswer>): SendRun
    decreases |answers|
  {
    if !ShouldContinue(config.numPackets, Wrap32(first)) || config.packetSize < HEADER_SIZE then
      SendRun([], 0, 0, true)
    else
      var packet := Numbered(config, first);
      if answers == [] then SendRun([packet], 0, 0, false)
      else if answers[0].bytesSent == 0 then SendRun([packet], 0, 0, true)
      else if answers[0].stopped then SendRun([packet], 1, answers[0].bytesSent, true)
      else
        var later := RunSends(config, first + 1, answers[1..]);
        SendRun([packet] + later.sent, 1 + later.packetsSent,
                answers[0].bytesSent + later.bytesSent, later.returned)
  }

  class PacketGenerator {
    var config: Config
    var running: bool
    var totalBytesSent: nat
    var totalPacketsSent: nat
    var packetCounter: UInt32
    var lastStats: TestStats

    constructor (config: Config)
      ensures !running && totalBytesSent == totalPacketsSent == packetCounter == 0
      ensures this.config == config && lastStats == NO_STATS
    {
      this.config := config;
      running := false;
      totalBytesSent, totalPacketsSent, packetCounter := 0, 0, 0;
      lastStats := NO_STATS;
    }

    function GetStats(): (stats: TestStats)
      reads this
      ensures stats.totalPacketsSent == totalPacketsSent && stats.totalBytesSent == totalBytesSent
      ensures stats.totalPacketsReceived == stats.totalBytesReceived == 0
      ensures stats.failedChecksumCount == stats.sequenceErrorCount == stats.contentMismatchCount == 0
    {
      NO_STATS.(totalBytesSent := totalBytesSent, totalPacketsSent := totalPacketsSent)
    }

    method SaveLastStats(stats: TestStats)
      modifies this`lastStats
      ensures lastStats == stats
    {
      lastStats := stats;
    }

    method ResetStats()
      modifies this`totalBytesSent, this`totalPacketsSent, this`packetCounter
      ensures totalBytesSent == totalPacketsSent == packetCounter == 0
    {
      totalBytesSent, totalPacketsSent, packetCounter := 0, 0, 0;
    }

    predicate ShouldContinueSending()
      reads this
    {
      ShouldContinue(config.numPackets, packetCounter)
    }

    // Nothing is built, and nothing counted, when the header does not fit.
    method CreatePacket() returns (packet: Bytes)
      modifies this`packetCounter
      ensures config.packetSize < HEADER_SIZE ==> packet == [] && packetCounter == old(packetCounter)
      ensures config.packetSize >= HEADER_SIZE ==>
                && packet == EncodePacket(DataPacket(config, old(packetCounter)))
                && packetCounter == Wrap32(old(packetCounter) + 1) && packet != []
    {
      hide EncodeHeader, BuildExpectedPayload, ValidPacket;
      if config.packetSize < HEADER_SIZE {
        return [];
      }
      var payloadSize := config.packetSize - HEADER_SIZE;
      var payload := BuildExpectedPayload(packetCounter, payloadSize);
      var checksum := CalculateChecksum(payload);
      var header := PacketHeader(PROTOCOL_START_CODE, ModeId(config.mode), ModeId(OtherMode(config.mode)),
                                 DATA_PACKET, packetCounter, payloadSize, checksum);
      packet := EncodeHeader(header) + payload;
      packetCounter := Wrap32(packetCounter + 1);
    }

    // Runs until the answers are used up (suspended in the next send) or the
    // coroutine returns. calls holds the argument of every send.
    method SendPackets(cfg: Config, answers: seq<SendAnswer>) returns (calls: seq<Bytes>, returned: bool)
      modifies this
      ensures var r := RunSends(cfg, 0, answers);
              && returned == r.returned
              && |calls| == |r.sent| && (forall i | 0 <= i < |calls| :: calls[i] == EncodePacket(r.sent[i]))
              && totalPacketsSent == r.packetsSent && totalBytesSent == r.bytesSent
              && GetStats().totalPacketsSent == r.packetsSent && GetStats().totalBytesSent == r.bytesSent
              && packetCounter == Wrap32(|r.sent|)
      ensures config == cfg && lastStats == NO_STATS && running == !returned
    {
      hide DataPacket, Numbered, EncodePacket, ShouldContinue, Wrap32, RunSends;
      config := cfg;
      running := true;
      totalBytesSent, totalPacketsSent, packetCounter := 0, 0, 0;
      lastStats := NO_STATS;
      calls := [];
      var used := 0;
      ghost var sent: seq<Packet> := [];
      ghost var later := RunSends(cfg, 0, answers);
      ghost var goal := later;
      assert answers[0..] == answers;
      WrapIncrement(0);
      while running && ShouldContinueSending()
        invariant 0 <= used <= |answers| && config == cfg && lastStats == NO_STATS
        invariant |sent| == |calls| && (forall i | 0 <= i < |sent| :: calls[i] == EncodePacket(sent[i]))
        invariant packetCounter == Wrap32(|sent|)
        invariant goal == Prepend(sent, totalPacketsSent, totalBytesSent, later)
        invariant later == if running then RunSends(cfg, |sent|, answers[used..]) else SendRun([], 0, 0, true)
        decreases |answers| - used, running
      {
        RunSendsStep(cfg, |sent|, answers[used..]);
        WrapIncrement(|sent|);
        ghost var before := sent;
        var packet := CreatePacket();
        if packet == [] {
          break;
        }
        sent := sent + [Numbered(cfg, |sent|)];
        calls := calls + [packet];
        if used == |answers| {
          return calls, false;
        }
        var answer := answers[used];
        used := used + 1;
        assert answers[used - 1..][1..] == answers[used..];
        PrependAssociates(before, later.sent[0], later.sent[1..]);
        if answer.bytesSent > 0 {
          totalBytesSent := totalBytesSent + answer.bytesSent;
          totalPacketsSent := totalPacketsSent + 1;
        } else {
          break;
        }
        later := SendRun(later.sent[1..], later.packetsSent - 1, later.bytesSent - answer.bytesSent, later.returned);
        if answer.stopped {
          running := false;
        }
      }
      if running {
        RunSendsStep(cfg, |sent|, answers[used..]);
        running := false;
      }
      returned := true;
    }
  }

  // One round of the sending loop.
  lemma RunSendsStep(config: Config, first: nat, answers: seq<SendAnswer>)
    ensures var r := RunSends(config, first, answers);
            if !ShouldContinue(config.numPackets, Wrap32(first)) || config.packetSize < HEADER_SIZE
            then r == SendRun([], 0, 0, true)
            else
              && Numbered(config, first) == DataPacket(config, Wrap32(first))
              && r.sent != [] && r.sent[0] == Numbered(config, first)
              && (answers == [] ==> r == SendRun([r.sent[0]], 0, 0, false))
              && (answers != [] && answers[0].bytesSent == 0 ==> r == SendRun([r.sent[0]], 0, 0, true))
              && (answers != [] && answers[0].bytesSent > 0 && answers[0].stopped ==>
                    r == SendRun([r.sent[0]], 1, answers[0].bytesSent, true))
              && (answers != [] && answers[0].bytesSent > 0 && !answers[0].stopped ==>
                    r == Prepend([r.sent[0]], 1, answers[0].bytesSent, RunSends(config, first + 1, answers[1..]))
                    && r.sent[1..] == RunSends(config, first + 1, answers[1..]).sent)
  {
    hide DataPacket, ShouldContinue, Wrap32;
  }

  function Prepend(sent: seq<Packet>, packets: nat, bytes: nat, later: SendRun): SendRun {
    SendRun(sent + later.sent, packets + later.packetsSent, bytes + later.bytesSent, later.returned)
  }

  lemma WrapIncrement(n: nat)
    ensures Wrap32(0) == 0 && Wrap32(Wrap32(n) + 1) == Wrap32(n + 1)
  {
  }

  lemma PrependAssociates(a: seq<Packet>, p: Packet, b: seq<Packet>)
    ensures a + ([p] + b) == (a + [p]) + b
  {
  }

  ghost predicate Good(answer: SendAnswer) {
    answer.bytesSent > 0 && !answer.stopped
  }

  ghost predicate NumberedFrom(config: Config, first: nat, ps: seq<Packet>)
    requires config.packetSize >= HEADER_SIZE
  {
    forall i: nat | i < |ps| :: ps[i] == Numbered(config, first + i)
  }

  lemma NumberedCons(config: Config, first: nat, ps: seq<Packet>)
    requires config.packetSize >= HEADER_SIZE && NumberedFrom(config, first + 1, ps)
    ensures NumberedFrom(config, first, [Numbered(config, first)] + ps)
  {
    hide Numbered;
    var all := [Numbered(config, first)] + ps;
    forall i: nat | i < |all|
      ensures all[i] == Numbered(config, first + i)
    {
      if i > 0 {
        assert all[i] == ps[i - 1] == Numbered(config, first + 1 + (i - 1));
      }
    }
  }

  // Below numPackets the signed reading of the 32-bit counter is the count.
  lemma CountsUp(numPackets: NonNegativeInt32, count: nat)
    requires numPackets > 0 ==> count <= numPackets
    ensures ShouldContinue(numPackets, Wrap32(count)) <==> numPackets == 0 || count < numPackets
  {
  }

  ghost predicate AllGood(answers: seq<SendAnswer>) {
    forall i | 0 <= i < |answers| :: Good(answers[i])
  }

  // What the network reported in some answers.
  function ReportedBytes(answers: seq<SendAnswer>): nat {
    if answers == [] then 0 else answers[0].bytesSent + ReportedBytes(answers[1..])
  }

  // What is promised of a run that starts with packet number first.
  ghost predicate Orderly(config: Config, first: nat, answers: seq<SendAnswer>, r: SendRun)
    requires config.packetSize >= HEADER_SIZE
  {
    && NumberedFrom(config, first, r.sent)
    && (config.numPackets > 0 ==> first + |r.sent| <= config.numPackets)
    && r.packetsSent <= |r.sent| <= r.packetsSent + 1
    && r.packetsSent <= |answers| && r.bytesSent == ReportedBytes(answers[..r.packetsSent])
    && (r.returned && config.numPackets > 0 && AllGood(answers) ==>
          first + r.packetsSent == first + |r.sent| == config.numPackets)
    && (!r.returned ==> |r.sent| == |answers| + 1)
  }

  lemma OrderlyCons(config: Config, first: nat, answers: seq<SendAnswer>, later: SendRun, bytesSent: nat)
    requires answers != [] && bytesSent == answers[0].bytesSent + later.bytesSent
    requires config.packetSize >= HEADER_SIZE && answers != [] && Good(answers[0])
    requires Orderly(config, first + 1, answers[1..], later)
    ensures Orderly(config, first, answers,
                    SendRun([Numbered(config, first)] + later.sent, 1 + later.packetsSent, bytesSent, later.returned))
  {
    hide Numbered;
    AllGoodTail(answers);
    NumberedCons(config, first, later.sent);
    assert answers[..1 + later.packetsSent][1..] == answers[1..][..later.packetsSent];
    hide NumberedFrom, AllGood;
  }

  // The coroutine stops before or with this packet.
  lemma OrderlyLast(config: Config, first: nat, answers: seq<SendAnswer>)
    requires config.packetSize >= HEADER_SIZE && (config.numPackets > 0 ==> first <= config.numPackets)
    requires (config.numPackets > 0 && first == config.numPackets) || answers == [] || !Good(answers[0])
    ensures Orderly(config, first, answers, RunSends(config, first, answers))
  {
    CountsUp(config.numPackets, first);
    NumberedShort(config, first);
    RunSendsStep(config, first, answers);
    if answers != [] {
      AllGoodTail(answers);
      assert answers[..1][1..] == [] && answers[..1][0] == answers[0];
      assert ReportedBytes(answers[..1]) == answers[0].bytesSent;
    }
    assert ReportedBytes(answers[..0]) == 0;
    hide Numbered, DataPacket, NumberedFrom, ShouldContinue, Wrap32, AllGood, RunSends;
  }

  // Whatever the network answers, the packets handed to it are 0, 1, 2, ... of
  // this configuration, never more than asked for, and all but the last of
  // them acknowledged. Without failed sends and stops, exactly the requested
  // number is sent before the coroutine returns.
  lemma {:induction false} SendsNumbered(config: Config, first: nat, answers: seq<SendAnswer>)
    requires config.packetSize >= HEADER_SIZE
    requires config.numPackets > 0 ==> first <= config.numPackets
    ensures Orderly(config, first, answers, RunSends(config, first, answers))
    decreases |answers|
  {
    hide DataPacket, Numbered, NumberedFrom, ShouldContinue, Wrap32, AllGood, RunSends, Orderly;
    if (config.numPackets > 0 && first == config.numPackets) || answers == [] || !Good(answers[0]) {
      OrderlyLast(config, first, answers);
    } else {
      CountsUp(config.numPackets, first);
      RunSendsStep(config, first, answers);
      SendsNumbered(config, first + 1, answers[1..]);
      var later := RunSends(config, first + 1, answers[1..]);
      OrderlyCons(config, first, answers, later, answers[0].bytesSent + later.bytesSent);
    }
  }

  lemma AllGoodTail(answers: seq<SendAnswer>)
    requires answers != []
    ensures AllGood(answers) <==> Good(answers[0]) && AllGood(answers[1..])
  {
    assert forall i | 1 <= i < |answers| :: answers[i] == answers[1..][i - 1];
  }

  lemma NumberedShort(config: Config, first: nat)
    requires config.packetSize >= HEADER_SIZE
    ensures NumberedFrom(config, first, []) && NumberedFrom(config, first, [Numbered(config, first)])
  {
    hide Numbered;
  }
}
