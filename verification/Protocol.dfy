// The wire format of MyIperf: the packed 17-byte header, the additive checksum
// and the deterministic payload of numbered data packets.
module Protocol {

  type Byte = x: int | 0 <= x < 0x100
  type UInt16 = x: int | 0 <= x < 0x1_0000
  type UInt32 = x: int | 0 <= x < 0x1_0000_0000
  type Bytes = seq<Byte>

  const PROTOCOL_START_CODE: UInt16 := 0xABCD
  const HEADER_SIZE: nat := 17

  // One receive takes at most this many bytes, and no receiver accepts a
  // payload above twice that.
  const RECEIVE_BUFFER_SIZE: nat := 65536
  const MAX_PAYLOAD: nat := RECEIVE_BUFFER_SIZE * 2

  // Arithmetic on uint32_t.
  function Wrap32(n: nat): UInt32 {
    n % 0x1_0000_0000
  }

  // MessageType is an enumeration over uint8_t, so a header read off the wire
  // can hold any byte here; these are the values that have a name.
  const CONFIG_HANDSHAKE: Byte := 0
  const CONFIG_ACK: Byte := 1
  const DATA_PACKET: Byte := 2
  const STATS_EXCHANGE: Byte := 3
  const STATS_ACK: Byte := 4
  const TEST_FIN: Byte := 5
  const CLIENT_READY: Byte := 6
  const SHUTDOWN_ACK: Byte := 7

  datatype PacketHeader = PacketHeader(
    startCode: UInt16,
    senderId: Byte,
    receiverId: Byte,
    messageType: Byte,
    packetCounter: UInt32,
    payloadSize: UInt32,
    checksum: UInt32)

  datatype Packet = Packet(header: PacketHeader, payload: Bytes) {
    function TotalPacketSize(): nat {
      HEADER_SIZE + header.payloadSize
    }
  }

  // ---------- Header layout (little endian, no padding) ----------

  function Le16(n: UInt16): Bytes {
    [n % 0x100, n / 0x100]
  }

  function Le32(n: UInt32): Bytes {
    [n % 0x100, n / 0x100 % 0x100, n / 0x1_0000 % 0x100, n / 0x100_0000]
  }

  function FromLe16(b0: Byte, b1: Byte): UInt16 {
    b0 + 0x100 * b1
  }

  function FromLe32(b0: Byte, b1: Byte, b2: Byte, b3: Byte): UInt32 {
    b0 + 0x100 * b1 + 0x1_0000 * b2 + 0x100_0000 * b3
  }

  function EncodeHeader(h: PacketHeader): (b: Bytes)
    ensures |b| == HEADER_SIZE
  {
    Le16(h.startCode) + [h.senderId, h.receiverId, h.messageType]
    + Le32(h.packetCounter) + Le32(h.payloadSize) + Le32(h.checksum)
  }

  function DecodeHeader(b: Bytes): PacketHeader
    requires |b| >= HEADER_SIZE
  {
    PacketHeader(
      FromLe16(b[0], b[1]), b[2], b[3], b[4],
      FromLe32(b[5], b[6], b[7], b[8]),
      FromLe32(b[9], b[10], b[11], b[12]),
      FromLe32(b[13], b[14], b[15], b[16]))
  }

  lemma Le32RoundTrip(n: UInt32)
    ensures var b := Le32(n); FromLe32(b[0], b[1], b[2], b[3]) == n
  {
    assert n / 0x1_0000 == n / 0x100 / 0x100;
    assert n / 0x100_0000 == n / 0x1_0000 / 0x100;
  }

  lemma FromLe32RoundTrip(b0: Byte, b1: Byte, b2: Byte, b3: Byte)
    ensures Le32(FromLe32(b0, b1, b2, b3)) == [b0, b1, b2, b3]
  {
    var n := FromLe32(b0, b1, b2, b3);
    assert n / 0x100 == b1 + 0x100 * b2 + 0x1_0000 * b3;
    assert n / 0x1_0000 == b2 + 0x100 * b3;
    assert n / 0x100_0000 == b3;
  }

  // The number some bytes stand for, lowest first.
  function Little(b: Bytes): int {
    if b == [] then 0 else b[0] + 0x100 * Little(b[1..])
  }

  // Where each field lies.
  lemma HeaderLayout(h: PacketHeader)
    ensures var b := EncodeHeader(h);
            && Little(b[..2]) == h.startCode
            && b[2] == h.senderId && b[3] == h.receiverId && b[4] == h.messageType
            && Little(b[5..9]) == h.packetCounter && Little(b[9..13]) == h.payloadSize
            && Little(b[13..17]) == h.checksum
  {
    LittleOf(h.startCode, h.packetCounter);
    LittleOf(0, h.payloadSize);
    LittleOf(0, h.checksum);
    hide Little;
    var b := EncodeHeader(h);
    assert b[..2] == Le16(h.startCode);
    assert b[5..9] == Le32(h.packetCounter) && b[9..13] == Le32(h.payloadSize) && b[13..17] == Le32(h.checksum);
    hide Le16, Le32;
  }

  lemma LittleOf(m: UInt16, n: UInt32)
    ensures Little(Le16(m)) == m && Little(Le32(n)) == n
  {
    var b, c := Le16(m), Le32(n);
    Little2(b[0], b[1]);
    Little4(c[0], c[1], c[2], c[3]);
    Le32RoundTrip(n);
  }

  lemma Little2(a: Byte, b: Byte)
    ensures Little([a, b]) == FromLe16(a, b)
  {
    assert [a, b][1..] == [b] && [b][1..] == [];
    assert Little([b]) == b;
  }

  lemma Little4(a: Byte, b: Byte, c: Byte, d: Byte)
    ensures Little([a, b, c, d]) == FromLe32(a, b, c, d)
  {
    Little2(c, d);
    assert [a, b, c, d][1..] == [b, c, d] && [b, c, d][1..] == [c, d];
    assert Little([b, c, d]) == b + 0x100 * Little([c, d]);
    assert Little([a, b, c, d]) == a + 0x100 * Little([b, c, d]);
  }

  // Reading back a header from the front of any buffer gives the header that
  // was written, whatever follows it.
  lemma DecodeEncodeHeader(h: PacketHeader, rest: Bytes)
    ensures DecodeHeader(EncodeHeader(h) + rest) == h
  {
    Le32RoundTrip(h.packetCounter);
    Le32RoundTrip(h.payloadSize);
    Le32RoundTrip(h.checksum);
  }

  lemma FromLe16RoundTrip(b0: Byte, b1: Byte)
    ensures Le16(FromLe16(b0, b1)) == [b0, b1]
  {
  }

  // The layout has no slack: the first 17 bytes of a buffer are determined by
  // the header read from them.
  lemma EncodeDecodeHeader(b: Bytes)
    requires |b| >= HEADER_SIZE
    ensures EncodeHeader(DecodeHeader(b)) == b[..HEADER_SIZE]
  {
    var h := DecodeHeader(b);
    assert Le16(h.startCode) == b[0..2] by {
      FromLe16RoundTrip(b[0], b[1]);
    }
    assert Le32(h.packetCounter) == b[5..9] by {
      FromLe32RoundTrip(b[5], b[6], b[7], b[8]);
    }
    assert Le32(h.payloadSize) == b[9..13] by {
      FromLe32RoundTrip(b[9], b[10], b[11], b[12]);
    }
    assert Le32(h.checksum) == b[13..17] by {
      FromLe32RoundTrip(b[13], b[14], b[15], b[16]);
    }
    JoinFields(b, Le16(h.startCode), Le32(h.packetCounter), Le32(h.payloadSize), Le32(h.checksum));
  }

  lemma JoinFields(b: Bytes, start: Bytes, counter: Bytes, size: Bytes, sum: Bytes)
    requires |b| >= HEADER_SIZE
    requires start == b[0..2] && counter == b[5..9] && size == b[9..13] && sum == b[13..17]
    ensures start + [b[2], b[3], b[4]] + counter + size + sum == b[..HEADER_SIZE]
  {
  }

  // ---------- Checksum ----------

  function Sum(data: Bytes): nat {
    if data == [] then 0 else Sum(data[..|data| - 1]) + data[|data| - 1]
  }

  function Checksum(data: Bytes): UInt32 {
    Wrap32(Sum(data))
  }

  method CalculateChecksum(data: Bytes) returns (sum: UInt32)
    ensures sum == Checksum(data)
  {
    sum := 0;
    var i := 0;
    while i < |data|
      invariant 0 <= i <= |data|
      invariant sum == Checksum(data[..i])
    {
      assert data[..i + 1][..i] == data[..i];
      sum := Wrap32(sum + data[i]);
      i := i + 1;
    }
    assert data[..i] == data;
  }

  method VerifyPacket(header: PacketHeader, payload: Bytes) returns (ok: bool)
    ensures ok == (header.startCode == PROTOCOL_START_CODE && header.checksum == Checksum(payload))
  {
    if header.startCode != PROTOCOL_START_CODE {
      return false;
    }
    var sum := CalculateChecksum(payload);
    return header.checksum == sum;
  }

  lemma {:induction false} SumUpdate(data: Bytes, i: nat, b: Byte)
    requires i < |data|
    ensures Sum(data[i := b]) == Sum(data) - data[i] + b
  {
    var n := |data| - 1;
    if i == n {
      assert data[i := b][..n] == data[..n];
    } else {
      assert data[i := b][..n] == data[..n][i := b];
      SumUpdate(data[..n], i, b);
    }
  }

  // The sum is that of the parts, and a byte counts as its value.
  lemma {:induction false} SumOfParts(a: Bytes, b: Bytes)
    ensures Sum(a + b) == Sum(a) + Sum(b)
    decreases |b|
  {
    if b == [] {
      assert a + b == a;
    } else {
      assert (a + b)[..|a + b| - 1] == a + b[..|b| - 1];
      SumOfParts(a, b[..|b| - 1]);
    }
  }

  lemma SumOfByte(b: Byte)
    ensures Sum([b]) == b
  {
    assert [b][..0] == [];
  }

  // Changing any single payload byte changes the checksum.
  lemma SingleByteChangeDetected(data: Bytes, i: nat, b: Byte)
    requires i < |data| && data[i] != b
    ensures Checksum(data[i := b]) != Checksum(data)
  {
    SumUpdate(data, i, b);
  }

  // The checksum is additive, so exchanging two payload bytes never changes it;
  // only the content comparison of PacketReceiveStats can notice.
  lemma ExchangeUndetected(data: Bytes, i: nat, j: nat)
    requires i < |data| && j < |data|
    ensures Checksum(data[i := data[j]][j := data[i]]) == Checksum(data)
  {
    SumUpdate(data, i, data[j]);
    SumUpdate(data[i := data[j]], j, data[i]);
  }

  // ---------- Whole packets ----------

  // What a receiver with the given payload bound accepts.
  ghost predicate ValidPacket(p: Packet, maxPayloadSize: nat) {
    && p.header.startCode == PROTOCOL_START_CODE
    && |p.payload| == p.header.payloadSize <= maxPayloadSize
    && p.header.checksum == Checksum(p.payload)
  }

  function EncodePacket(p: Packet): Bytes {
    EncodeHeader(p.header) + p.payload
  }

  function EncodeAll(ps: seq<Packet>): Bytes {
    if ps == [] then [] else EncodePacket(ps[0]) + EncodeAll(ps[1..])
  }

  lemma {:induction false} EncodeAllConcat(ps: seq<Packet>, qs: seq<Packet>)
    ensures EncodeAll(ps + qs) == EncodeAll(ps) + EncodeAll(qs)
  {
    hide EncodePacket;
    if ps == [] {
      assert ps + qs == qs;
    } else {
      EncodeAllConcat(ps[1..], qs);
      assert (ps + qs)[1..] == ps[1..] + qs;
      var first, rest := EncodePacket(ps[0]), EncodeAll(ps[1..]);
      assert first + (rest + EncodeAll(qs)) == first + rest + EncodeAll(qs);
    }
  }

  // ---------- Numbered payloads ----------

  function Digit(n: nat): (c: char)
    requires n < 10
  {
    ('0' as int + n) as char
  }

  // std::to_string on a non-negative number.
  function Decimal(n: nat): string {
    if n < 10 then [Digit(n)] else Decimal(n / 10) + [Digit(n % 10)]
  }

  function Ascii(s: string): Bytes {
    seq(|s|, i requires 0 <= i < |s| => s[i] as int % 0x100)
  }

  function BuildExpectedPayload(packetCounter: UInt32, payloadSize: nat): (payload: Bytes)
    ensures |payload| == payloadSize
  {
    var text := Ascii("Packet " + Decimal(packetCounter));
    if |text| < payloadSize
    then text + seq(payloadSize - |text|, _ => '.' as int)
    else text[..payloadSize]
  }

  predicate IsDigit(c: char) {
    '0' <= c <= '9'
  }

  // std::stoll on digits.
  function Number(digits: string): nat
    requires forall i | 0 <= i < |digits| :: IsDigit(digits[i])
  {
    if digits == "" then 0
    else
      assert IsDigit(digits[|digits| - 1]);
      10 * Number(digits[..|digits| - 1]) + (digits[|digits| - 1] as int - '0' as int)
  }

  lemma {:induction false} DecimalReads(n: nat)
    ensures Decimal(n) != "" && (forall i | 0 <= i < |Decimal(n)| :: IsDigit(Decimal(n)[i])) && Number(Decimal(n)) == n
  {
    if n >= 10 {
      DecimalReads(n / 10);
      assert Decimal(n)[..|Decimal(n)| - 1] == Decimal(n / 10);
    } else {
      assert Number("") == 0 && Decimal(n)[..0] == "";
    }
  }

  lemma {:induction false} DecimalShort(n: nat, digits: nat)
    requires digits >= 1 && n < Power10(digits)
    ensures |Decimal(n)| <= digits
    decreases digits
  {
    if n >= 10 {
      assert digits > 1;
      DecimalShort(n / 10, digits - 1);
    }
  }

  function Power10(k: nat): nat {
    if k == 0 then 1 else 10 * Power10(k - 1)
  }

  lemma TenDigits()
    ensures Power10(10) == 10000000000
  {
    assert Power10(2) == 100;
    assert Power10(4) == 10000;
    assert Power10(6) == 1000000;
    assert Power10(8) == 100000000;
  }

  // ---------- What a payload says ----------

  // Reading ASCII digits.
  function NumberIn(b: Bytes): int {
    if b == [] then 0 else 10 * NumberIn(b[..|b| - 1]) + (b[|b| - 1] as int - 48)
  }

  // "Packet ", between one and ten digits that read as the counter, and dots.
  ghost predicate Tells(payload: Bytes, counter: int, digits: nat) {
    && 1 <= digits <= 10 && 7 + digits <= |payload|
    && payload[..7] == [80, 97, 99, 107, 101, 116, 32]
    && (forall i | 7 <= i < 7 + digits :: 48 <= payload[i] <= 57)
    && NumberIn(payload[7..7 + digits]) == counter
    && forall i | 7 + digits <= i < |payload| :: payload[i] == 46
  }

  lemma {:induction false} AsciiNumber(s: string)
    requires forall i | 0 <= i < |s| :: IsDigit(s[i])
    ensures NumberIn(Ascii(s)) == Number(s)
  {
    if s != "" {
      var n := |s| - 1;
      AsciiNumber(s[..n]);
      assert Ascii(s)[..n] == Ascii(s[..n]);
      assert IsDigit(s[n]);
    }
  }

  lemma PacketText(d: string)
    ensures Ascii("Packet " + d) == [80, 97, 99, 107, 101, 116, 32] + Ascii(d)
  {
    var text := "Packet " + d;
    assert text[..7] == "Packet " && text[7..] == d;
    assert Ascii("Packet ") == [80, 97, 99, 107, 101, 116, 32];
    assert Ascii(text) == Ascii("Packet ") + Ascii(d);
  }

  lemma AsciiDigits(d: string)
    requires forall i | 0 <= i < |d| :: IsDigit(d[i])
    ensures forall i | 0 <= i < |d| :: 48 <= Ascii(d)[i] <= 57
  {
  }

  lemma TextTells(d: string, counter: nat, dots: nat)
    requires 1 <= |d| <= 10 && (forall i | 0 <= i < |d| :: IsDigit(d[i])) && Number(d) == counter
    ensures Tells(Ascii("Packet " + d) + seq(dots, _ => '.' as int), counter, |d|)
  {
    AsciiNumber(d);
    AsciiDigits(d);
    PacketText(d);
    assert |Ascii(d)| == |d|;
    hide Number, NumberIn, Ascii;
    ShapeTells(Ascii(d), counter, dots);
  }

  lemma ShapeTells(d: Bytes, counter: nat, dots: nat)
    requires 1 <= |d| <= 10 && (forall i | 0 <= i < |d| :: 48 <= d[i] <= 57) && NumberIn(d) == counter
    ensures Tells([80, 97, 99, 107, 101, 116, 32] + d + seq(dots, _ => '.' as int), counter, |d|)
  {
    hide NumberIn;
    var head := [80, 97, 99, 107, 101, 116, 32];
    var payload := head + d + seq(dots, _ => '.' as int);
    assert payload[..7] == head && payload[7..7 + |d|] == d;
    forall i | 7 <= i < 7 + |d|
      ensures payload[i] == d[i - 7]
    {
    }
  }

  lemma PayloadTells(counter: UInt32, size: nat) returns (digits: nat)
    requires size >= HEADER_SIZE
    ensures Tells(BuildExpectedPayload(counter, size), counter, digits)
  {
    DecimalReads(counter);
    TenDigits();
    DecimalShort(counter, 10);
    hide Decimal, Number, Power10, Tells;
    digits := |Decimal(counter)|;
    var text := Ascii("Packet " + Decimal(counter));
    TextTells(Decimal(counter), counter, size - |text|);
    assert text + seq(size - |text|, _ => '.' as int) == BuildExpectedPayload(counter, size);
  }

  // A shorter payload is the front of a longer one.
  lemma PayloadFront(counter: UInt32, size: nat, larger: nat)
    requires size <= larger
    ensures BuildExpectedPayload(counter, size) == BuildExpectedPayload(counter, larger)[..size]
  {
    hide Decimal;
  }

  lemma DigitOrDot(payload: Bytes, counter: int, digits: nat, k: nat)
    requires Tells(payload, counter, digits) && 7 + k < |payload|
    ensures k < digits <==> payload[7 + k] != 46
  {
  }

  // The same payload cannot tell two counters.
  lemma TellsOnce(payload: Bytes, c: int, i: nat, d: int, j: nat)
    requires Tells(payload, c, i) && Tells(payload, d, j)
    ensures c == d
  {
    var k := if i < j then i else j;
    if 7 + k < |payload| {
      DigitOrDot(payload, c, i, k);
      DigitOrDot(payload, d, j, k);
    }
  }

  lemma PayloadsDiffer(c: UInt32, d: UInt32, size: nat)
    requires size >= HEADER_SIZE && c != d
    ensures BuildExpectedPayload(c, size) != BuildExpectedPayload(d, size)
  {
    hide BuildExpectedPayload, Tells;
    var i := PayloadTells(c, size);
    var j := PayloadTells(d, size);
    if BuildExpectedPayload(c, size) == BuildExpectedPayload(d, size) {
      TellsOnce(BuildExpectedPayload(c, size), c, i, d, j);
    }
  }
}
