// The assumptions of the session theorems can be met, and the bound on the
// packet size is needed.
module SessionAssumptions {
  import opened Protocol
  import opened StreamParser
  import opened StreamCodec
  import opened TestTypes
  import opened ReceiveStats
  import opened Wrappers
  import opened Sessions
  import opened Controller
  import opened AnySize

  // ---------- A lossless codec exists ----------

  type UInt64 = x: int | 0 <= x < 0x1_0000_0000_0000_0000

  function Word(n: UInt64): (b: Bytes)
    ensures |b| == 8
  {
    Le32(n % 0x1_0000_0000) + Le32(n / 0x1_0000_0000)
  }

  function FromWord(b: Bytes): UInt64
    requires |b| == 8
  {
    FromLe32(b[0], b[1], b[2], b[3]) + 0x1_0000_0000 * FromLe32(b[4], b[5], b[6], b[7])
  }

  lemma WordBack(n: UInt64)
    ensures FromWord(Word(n)) == n
  {
    Le32RoundTrip(n % 0x1_0000_0000);
    Le32RoundTrip(n / 0x1_0000_0000);
    var lo, hi := Le32(n % 0x1_0000_0000), Le32(n / 0x1_0000_0000);
    assert Word(n)[0] == lo[0] && Word(n)[1] == lo[1] && Word(n)[2] == lo[2] && Word(n)[3] == lo[3];
    assert Word(n)[4] == hi[0] && Word(n)[5] == hi[1] && Word(n)[6] == hi[2] && Word(n)[7] == hi[3];
    hide Word, Le32, FromLe32;
  }

  function Words(ns: seq<UInt64>): (b: Bytes)
    ensures |b| == 8 * |ns|
  {
    if ns == [] then [] else Word(ns[0]) + Words(ns[1..])
  }

  function FromWords(b: Bytes): seq<UInt64>
    requires |b| % 8 == 0
    decreases |b|
  {
    if b == [] then [] else [FromWord(b[..8])] + FromWords(b[8..])
  }

  lemma {:induction false} WordsBack(ns: seq<UInt64>)
    ensures FromWords(Words(ns)) == ns
  {
    hide Word, FromWord;
    if ns != [] {
      WordBack(ns[0]);
      WordsBack(ns[1..]);
      assert Words(ns)[..8] == Word(ns[0]) && Words(ns)[8..] == Words(ns[1..]);
    }
  }

  function Low(n: int): UInt64 {
    if 0 <= n < 0x1_0000_0000_0000_0000 then n else 0
  }

  function Fields(s: TestStats): seq<UInt64> {
    [Low(s.totalBytesSent), Low(s.totalPacketsSent), Low(s.totalBytesReceived), Low(s.totalPacketsReceived),
     Low(s.failedChecksumCount), Low(s.sequenceErrorCount), Low(s.contentMismatchCount)]
  }

  function EncodeStats(s: TestStats): Bytes {
    Words(Fields(s))
  }

  function DecodeStats(b: Bytes): Option<TestStats> {
    if |b| != 56 then None
    else
      var f := FromWords(b);
      if |f| != 7 then None else Some(TestStats(f[0], f[1], f[2], f[3], f[4], f[5], f[6]))
  }

  function EncodeConfig(c: Config): Bytes {
    Words([c.packetSize, c.numPackets, if c.mode.CLIENT? then 0 else 1])
  }

  function DecodeConfig(b: Bytes): Option<Config> {
    if |b| != 24 then None
    else
      var f := FromWords(b);
      if |f| == 3 && 1 <= f[0] < 0x8000_0000 && f[1] < 0x8000_0000
      then Some(Config(f[0], f[1], if f[2] == 0 then CLIENT else SERVER))
      else None
  }

  lemma StatsBack(s: TestStats)
    requires FitsInt64(s)
    ensures DecodeStats(EncodeStats(s)) == Some(s) && |EncodeStats(s)| == 56
  {
    WordsBack(Fields(s));
    hide Words, FromWords;
  }

  lemma ConfigBack(c: Config)
    ensures DecodeConfig(EncodeConfig(c)) == Some(c) && |EncodeConfig(c)| == 24
  {
    WordsBack([c.packetSize, c.numPackets, if c.mode.CLIENT? then 0 else 1]);
    hide Words, FromWords;
  }

  // So the theorems about sessions are not empty.
  lemma LosslessExists()
    ensures Lossless(Codec.Codec(EncodeConfig, DecodeConfig, EncodeStats, DecodeStats))
  {
    forall c: Config
      ensures DecodeConfig(EncodeConfig(c)) == Some(c) && |EncodeConfig(c)| <= MAX_PAYLOAD
    {
      ConfigBack(c);
    }
    forall s: TestStats | FitsInt64(s)
      ensures DecodeStats(EncodeStats(s)) == Some(s) && |EncodeStats(s)| <= MAX_PAYLOAD
    {
      StatsBack(s);
    }
    hide EncodeConfig, DecodeConfig, EncodeStats, DecodeStats;
  }

  // ---------- Larger packets cannot succeed ----------

  lemma {:induction false} OnAllCounting(ps: seq<Packet>)
    requires AllValid(ps, MAX_PAYLOAD)
    ensures Counting(OnAll(ZERO, ps))
  {
    hide OnData, ValidPacket;
    if ps != [] {
      var n := |ps| - 1;
      assert ValidPacket(ps[n], MAX_PAYLOAD);
      OnAllCounting(ps[..n]);
      hide Counting;
      OnDataCounting(OnAll(ZERO, ps[..n]), ps[n]);
    }
  }

  // Whatever bytes arrive in whatever chunks, corrupt or not, the receiver's
  // parser can only emit packets up to its bound, so with a larger packet size
  // no selection of the emitted packets makes a phase complete.
  lemma OversizedNeverComplete(config: Config, chunks: seq<Bytes>, ps: seq<Packet>, failures: nat)
    requires config.numPackets > 0 && config.packetSize > HEADER_SIZE + MAX_PAYLOAD
    requires forall p | p in ps :: p in Feed(MAX_PAYLOAD, [], 0, chunks).packets
    ensures !Complete(ReceiverStats(OnAll(ZERO, ps).(failedChecksums := failures)), config)
  {
    EmissionSound(MAX_PAYLOAD, [], 0, chunks);
    hide Feed, Weave, OnAll, ValidPacket, Complete;
    forall i | 0 <= i < |ps|
      ensures ValidPacket(ps[i], MAX_PAYLOAD)
    {
      assert ps[i] in ps;
    }
    OnAllCounting(ps);
    MeasuredIncomplete(config, ReceiverStats(OnAll(ZERO, ps).(failedChecksums := failures)));
  }
}
