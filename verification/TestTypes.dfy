// Configuration and statistics shared by the generator, the sessions and the
// result.
module TestTypes {
  type PositiveInt32 = x: int | 1 <= x < 0x8000_0000 witness 1
  type NonNegativeInt32 = x: int | 0 <= x < 0x8000_0000

  datatype TestMode = CLIENT | SERVER

  // The fields the test depends on; the setters of Config reject values
  // outside these ranges. numPackets == 0 means unlimited.
  datatype Config = Config(packetSize: PositiveInt32, numPackets: NonNegativeInt32, mode: TestMode)

  datatype TestStats = TestStats(
    totalBytesSent: int,
    totalPacketsSent: int,
    totalBytesReceived: int,
    totalPacketsReceived: int,
    failedChecksumCount: int,
    sequenceErrorCount: int,
    contentMismatchCount: int)

  const NO_STATS := TestStats(0, 0, 0, 0, 0, 0, 0)
}
