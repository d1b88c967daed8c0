// Data packets above the bound of the parsers: the receiver throws them away,
// and with them a TEST_FIN that arrives in the same chunk. So some runs end in
// a deadlock, and others finish, but fail.
module Deadlock {
  import opened Protocol
  import opened StreamParser
  import opened StreamCodec
  import opened TestTypes
  import opened Generator
  import opened ReceiveStats
  import opened Wrappers
  import opened Sessions
  import opened SessionInvariant
  import opened SessionTheorems
  import opened Network
  import opened AnySize
  import opened OversizedStream
  import opened OversizedSessions
  import opened Controller

  // ---------- Runs ----------

  ghost predicate AllUntimed(events: seq<NetEvent>) {
    forall e | e in events :: Untimed(e)
  }

  // An untimed run from n to m.
  ghost predicate Leads(codec: Codec, n: Net, events: seq<NetEvent>, m: Net) {
    IsNetRun(codec, n, events) && NetEnd(codec, n, events) == m && AllUntimed(events)
  }

  lemma {:induction false} LeadsOn(codec: Codec, n: Net, xs: seq<NetEvent>, m: Net, ys: seq<NetEvent>, k: Net)
    requires Leads(codec, n, xs, m) && Leads(codec, m, ys, k)
    ensures Leads(codec, n, xs + ys, k)
    decreases |xs|
  {
    hide NetEnabled, NetStep, Untimed;
    if xs == [] {
      assert xs + ys == ys;
    } else {
      assert (xs + ys)[1..] == xs[1..] + ys && xs[0] in xs;
      LeadsOn(codec, NetStep(codec, n, xs[0]), xs[1..], m, ys, k);
    }
  }

  lemma LeadsOne(codec: Codec, n: Net, e: NetEvent)
    requires NetEnabled(n, e) && Untimed(e)
    ensures Leads(codec, n, [e], NetStep(codec, n, e))
  {
    hide NetEnabled, NetStep, Untimed;
    assert [e][1..] == [];
    var k := NetStep(codec, n, e);
    assert IsNetRun(codec, k, []) && NetEnd(codec, k, []) == k;
  }

  lemma LeadsNowhere(codec: Codec, n: Net)
    ensures Leads(codec, n, [], n)
  {
  }

  lemma LeadsKeepAnyInv(codec: Codec, config: Config, n: Net, events: seq<NetEvent>, k: Net)
    requires Lossless(codec) && AnyInv(codec, config, n) && Leads(codec, n, events, k)
    ensures AnyInv(codec, config, k)
  {
    hide AnyInv;
    RunKeepsAnyInv(codec, config, n, events);
  }

  // ---------- What the parser throws away ----------

  const DOT: Byte := 46

  ghost predicate Dots(b: Bytes, from: nat, end: nat) {
    end <= |b| && forall i | from <= i < end :: b[i] == DOT
  }

  // After "Packet " and at most ten digits a payload is dots.
  lemma PayloadDots(counter: UInt32, size: nat)
    ensures Dots(BuildExpectedPayload(counter, size), 17, size)
  {
    TenDigits();
    DecimalShort(counter, 10);
    hide Decimal, Power10;
  }

  lemma PacketDots(config: Config, i: nat)
    requires TooLarge(config)
    ensures var b := EncodePacket(Numbered(config, i));
            |b| == config.packetSize && Dots(b, 34, |b|)
  {
    PayloadDots(Wrap32(i), config.packetSize - HEADER_SIZE);
    hide BuildExpectedPayload, EncodeHeader, Checksum, Wrap32;
  }

  // A buffer whose header claims too large a payload.
  ghost predicate Oversize(b: Bytes) {
    |b| >= HEADER_SIZE && DecodeHeader(b).payloadSize > MAX_PAYLOAD
  }

  lemma DotsOversize(b: Bytes)
    requires |b| >= HEADER_SIZE && Dots(b, 0, HEADER_SIZE)
    ensures Oversize(b)
  {
    assert b[9] == b[10] == b[11] == b[12] == DOT;
  }

  lemma HeaderOversize(config: Config, i: nat, k: nat)
    requires TooLarge(config) && HEADER_SIZE <= k <= config.packetSize
    ensures |EncodePacket(Numbered(config, i))| == config.packetSize
    ensures Oversize(EncodePacket(Numbered(config, i))[..k])
  {
    PacketDots(config, i);
    var p := Numbered(config, i);
    DecodeEncodeHeader(p.header, p.payload[..k - HEADER_SIZE]);
    hide BuildExpectedPayload, EncodeHeader, DecodeHeader, Checksum, Wrap32;
    assert EncodePacket(p)[..k] == EncodeHeader(p.header) + p.payload[..k - HEADER_SIZE];
  }

  lemma ParseOversize(b: Bytes, streak: nat)
    requires Oversize(b)
    ensures Parse(MAX_PAYLOAD, b, streak) == Outcome([], 0, [], streak, |b|)
  {
    hide DecodeHeader;
  }

  // Receives of these sizes, one after another, throw bytes away: nothing comes
  // out and no failure is counted.
  ghost predicate Throws(link: Link, sizes: seq<nat>, end: Link)
    decreases |sizes|
  {
    if sizes == [] then link == end
    else
      && 1 <= sizes[0] <= |link.wire| && sizes[0] <= RECEIVE_BUFFER_SIZE
      && var r := Parse(MAX_PAYLOAD, link.buffer + link.wire[..sizes[0]], link.streak);
         && r.packets == [] && r.checksumFailures == 0
         && Throws(Link(link.wire[sizes[0]..], r.rest, r.streak), sizes[1..], end)
  }

  lemma ThrowsOne(wire: Bytes, size: nat)
    requires size <= |wire| && size <= RECEIVE_BUFFER_SIZE && Oversize(wire[..size])
    ensures Throws(Link(wire, [], 0), [size], Link(wire[size..], [], 0))
  {
    ParseOversize(wire[..size], 0);
    assert size >= 1;
    hide Parse, Oversize;
    assert [] + wire[..size] == wire[..size];
    var end := Link(wire[size..], [], 0);
    assert [size][1..] == [] && Throws(end, [], end);
  }

  lemma {:induction false} ThrowsOn(a: Link, xs: seq<nat>, b: Link, ys: seq<nat>, c: Link)
    requires Throws(a, xs, b) && Throws(b, ys, c)
    ensures Throws(a, xs + ys, c)
    decreases |xs|
  {
    hide Parse;
    if xs == [] {
      assert xs + ys == ys;
    } else {
      assert (xs + ys)[1..] == xs[1..] + ys;
      var r := Parse(MAX_PAYLOAD, a.buffer + a.wire[..xs[0]], a.streak);
      ThrowsOn(Link(a.wire[xs[0]..], r.rest, r.streak), xs[1..], b, ys, c);
    }
  }

  // Dots, and up to a header's length of whatever follows, in small chunks.
  lemma {:induction false} ThrowsDots(wire: Bytes, dots: nat, extra: nat) returns (sizes: seq<nat>)
    requires HEADER_SIZE <= dots && extra <= HEADER_SIZE && dots + extra <= |wire| && Dots(wire, 0, dots)
    ensures Throws(Link(wire, [], 0), sizes, Link(wire[dots + extra..], [], 0))
    decreases dots
  {
    hide Throws, Oversize;
    if dots < 40 {
      DotsOversize(wire[..dots + extra]);
      ThrowsOne(wire, dots + extra);
      sizes := [dots + extra];
    } else {
      DotsOversize(wire[..17]);
      ThrowsOne(wire, 17);
      var later := ThrowsDots(wire[17..], dots - 17, extra);
      assert wire[17..][dots - 17 + extra..] == wire[dots + extra..];
      sizes := [17] + later;
      ThrowsOn(Link(wire, [], 0), [17], Link(wire[17..], [], 0), later, Link(wire[dots + extra..], [], 0));
    }
  }

  lemma PacketSplit(b: Bytes, rest: Bytes, extra: nat)
    requires |b| >= 100 && Dots(b, 34, |b|) && extra <= |rest|
    ensures var wire := b + rest;
            && wire[..64] == b[..64] && Dots(wire[64..], 0, |b| - 64)
            && wire[64..][|b| - 64 + extra..] == rest[extra..]
  {
  }

  lemma ThrowsPacket(config: Config, i: nat, rest: Bytes, extra: nat) returns (sizes: seq<nat>)
    requires TooLarge(config) && extra <= HEADER_SIZE && extra <= |rest|
    ensures Throws(Link(EncodePacket(Numbered(config, i)) + rest, [], 0), sizes, Link(rest[extra..], [], 0))
  {
    hide Numbered, EncodePacket, Throws, Oversize;
    HeaderOversize(config, i, 64);
    PacketDots(config, i);
    var b := EncodePacket(Numbered(config, i));
    var wire := b + rest;
    PacketSplit(b, rest, extra);
    ThrowsOne(wire, 64);
    var later := ThrowsDots(wire[64..], |b| - 64, extra);
    sizes := [64] + later;
    ThrowsOn(Link(wire, [], 0), [64], Link(wire[64..], [], 0), later, Link(rest[extra..], [], 0));
  }

  // All data packets from number i on, and the TEST_FIN behind them.
  lemma {:induction false} ThrowsAll(config: Config, i: nat) returns (sizes: seq<nat>)
    requires TooLarge(config) && i < config.numPackets
    ensures Throws(Link(EncodeAll(Batch(config, i, config.numPackets) + [Fin()]), [], 0), sizes, EMPTY_LINK)
    decreases config.numPackets - i
  {
    hide Numbered, EncodePacket, Throws, Fin;
    FinSize();
    var batch := Batch(config, i + 1, config.numPackets);
    var rest := EncodeAll(batch + [Fin()]);
    assert (Batch(config, i, config.numPackets) + [Fin()])[1..] == batch + [Fin()];
    if i + 1 == config.numPackets {
      assert batch + [Fin()] == [Fin()] && [Fin()][1..] == [];
      assert rest == EncodePacket(Fin()) && rest[HEADER_SIZE..] == [];
      sizes := ThrowsPacket(config, i, rest, HEADER_SIZE);
    } else {
      var first := ThrowsPacket(config, i, rest, 0);
      assert rest[0..] == rest;
      var later := ThrowsAll(config, i + 1);
      sizes := first + later;
      ThrowsOn(Link(EncodePacket(Numbered(config, i)) + rest, [], 0), first, Link(rest, [], 0), later, EMPTY_LINK);
    }
  }

  // Neither side notices.
  lemma ServerChunkThrown(codec: Codec, n: Net, size: nat, end: Link)
    requires Throws(n.up, [size], end)
    ensures Leads(codec, n, [ServerChunk(size)], n.(up := end))
  {
    ChunkThrown(n.server, n.up, size, end);
    hide Throws, ReceiveChunk;
    LeadsOne(codec, n, ServerChunk(size));
  }

  lemma ChunkThrown<Pc>(p: Party<Pc>, link: Link, size: nat, end: Link)
    requires Throws(link, [size], end)
    ensures 1 <= size <= |link.wire| && size <= RECEIVE_BUFFER_SIZE && ReceiveChunk(p, link, size) == (p, end)
  {
    hide Parse;
    assert p.(counters := p.counters.(failedChecksums := p.counters.failedChecksums + 0)) == p;
  }

  lemma {:induction false} ServerThrows(codec: Codec, n: Net, sizes: seq<nat>, end: Link)
    returns (events: seq<NetEvent>)
    requires Throws(n.up, sizes, end)
    ensures Leads(codec, n, events, n.(up := end))
    decreases |sizes|
  {
    if sizes == [] {
      events := [];
    } else {
      var next := FirstThrown(n.up, sizes, end);
      ServerChunkThrown(codec, n, sizes[0], next);
      hide Throws, Leads;
      var later := ServerThrows(codec, n.(up := next), sizes[1..], end);
      events := [ServerChunk(sizes[0])] + later;
      LeadsOn(codec, n, [ServerChunk(sizes[0])], n.(up := next), later, n.(up := end));
    }
  }

  lemma FirstThrown(link: Link, sizes: seq<nat>, end: Link) returns (next: Link)
    requires sizes != [] && Throws(link, sizes, end)
    ensures Throws(link, [sizes[0]], next) && Throws(next, sizes[1..], end)
  {
    hide Parse;
    var r := Parse(MAX_PAYLOAD, link.buffer + link.wire[..sizes[0]], link.streak);
    next := Link(link.wire[sizes[0]..], r.rest, r.streak);
    assert [sizes[0]][1..] == [] && Throws(next, [], next);
  }

  lemma ClientChunkThrown(codec: Codec, n: Net, size: nat, end: Link)
    requires Throws(n.down, [size], end)
    ensures Leads(codec, n, [ClientChunk(size)], n.(down := end))
  {
    ChunkThrown(n.client, n.down, size, end);
    hide Throws, ReceiveChunk;
    LeadsOne(codec, n, ClientChunk(size));
  }

  lemma {:induction false} ClientThrows(codec: Codec, n: Net, sizes: seq<nat>, end: Link)
    returns (events: seq<NetEvent>)
    requires Throws(n.down, sizes, end)
    ensures Leads(codec, n, events, n.(down := end))
    decreases |sizes|
  {
    if sizes == [] {
      events := [];
    } else {
      var next := FirstThrown(n.down, sizes, end);
      ClientChunkThrown(codec, n, sizes[0], next);
      hide Throws, Leads;
      var later := ClientThrows(codec, n.(down := next), sizes[1..], end);
      events := [ClientChunk(sizes[0])] + later;
      LeadsOn(codec, n, [ClientChunk(sizes[0])], n.(down := next), later, n.(down := end));
    }
  }

  // ---------- Up to the data ----------

  // Without timeouts the handshake ends with the client about to send.
  lemma {:induction false} ReachSending(codec: Codec, config: Config, n: Net) returns (events: seq<NetEvent>, m: Net)
    requires Lossless(codec) && AnyInv(codec, config, n)
    requires Handshaking(n.client.pc) && !n.clientFailed && !n.serverFailed
    ensures Leads(codec, n, events, m) && !m.clientFailed && !m.serverFailed
    ensures NetInv(codec, config, m) && m.client.sent == 0
    ensures m.client.pc == if More(config, 0) then CSendData else CSendFin
    decreases StepsLeft(config, Core(n)), |n.up.wire| + |n.down.wire|
  {
    assert NetInv(codec, config, n) && ClientSound(n.client) && ServerSound(n.server) && n.client.config == config;
    HandshakeServer(codec, config, n);
    hide NetInv, NetEnabled, NetStep, StepsLeft, Untimed, Leads, More, Counting, AnyInv, ClientSound, ServerSound;
    assert Counting(n.client.counters) by { SoundCounting(n.client); }
    NotFinished(n);
    LeftNonNegative(config, Core(n));
    var e := EndToEndProgress(codec, config, n);
    var k := NetStep(codec, n, e);
    BelowShrinks(codec, config, n, e);
    NetStepKeepsInv(codec, config, n, e);
    StepKeepsAnyInv(codec, config, n, e);
    StepNeverFails(codec, config, n, e);
    LeavesHandshake(codec, n, e);
    LeadsOne(codec, n, e);
    SameConfig(codec, config, k);
    if Handshaking(k.client.pc) {
      var later;
      later, m := ReachSending(codec, config, k);
      events := [e] + later;
      LeadsOn(codec, n, [e], k, later, m);
    } else {
      events, m := [e], k;
    }
  }

  lemma SoundCounting(c: Party<ClientPc>)
    requires ClientSound(c)
    ensures Counting(c.counters)
  {
  }

  lemma SameConfig(codec: Codec, config: Config, n: Net)
    requires AnyInv(codec, config, n)
    ensures n.client.config == config
  {
  }

  lemma NotFinished(n: Net)
    requires Handshaking(n.client.pc)
    ensures !BothFinished(Core(n))
  {
  }

  // ---------- The client sends everything ----------

  // n after the client has gone on, with these packets added to the stream.
  ghost predicate SentOn(n: Net, m: Net, packets: seq<Packet>) {
    && m == n.(client := m.client, up := Extended(n.up, packets))
    && m.client.inbox == n.client.inbox
  }

  lemma ClientSendsOne(codec: Codec, config: Config, n: Net) returns (m: Net)
    requires n.client.config == config && !n.clientFailed && config.packetSize >= HEADER_SIZE
    requires (n.client.pc.CSendData? && n.client.sent < config.numPackets) || n.client.pc.CSendFin?
    ensures Leads(codec, n, [Session(ClientRuns(1))], m) && m.client.config == config
    ensures if n.client.pc.CSendFin? then m.client.pc == CWaitFin && SentOn(n, m, [Fin()])
            else m.client.sent == n.client.sent + 1 && SentOn(n, m, [Numbered(config, n.client.sent)]) &&
                 m.client.pc == if m.client.sent < config.numPackets then CSendData else CSendFin
  {
    hide Numbered, Fin, More, Leads, Extended;
    if n.client.pc.CSendData? {
      MoreIffBelow(config, n.client.sent + 1);
    }
    FinIs();
    m := NetStep(codec, n, Session(ClientRuns(1)));
    ClientNetStep(codec, n, 1);
    LeadsOne(codec, n, Session(ClientRuns(1)));
  }

  lemma FinIs()
    ensures Fin() == ControlPacket(TEST_FIN, [])
  {
  }

  lemma {:induction false} ClientSendsAll(codec: Codec, config: Config, n: Net) returns (events: seq<NetEvent>, m: Net)
    requires n.client.config == config && !n.clientFailed && config.packetSize >= HEADER_SIZE
    requires n.client.pc.CSendData? && n.client.sent < config.numPackets
    ensures Leads(codec, n, events, m) && m.client.pc == CWaitFin
    ensures SentOn(n, m, Batch(config, n.client.sent, config.numPackets) + [Fin()])
    decreases config.numPackets - n.client.sent
  {
    hide Numbered, Fin, Leads, SentOn;
    var i, e := n.client.sent, Session(ClientRuns(1));
    var k := ClientSendsOne(codec, config, n);
    SentKeeps(n, k, [Numbered(config, i)]);
    var later;
    if i + 1 < config.numPackets {
      later, m := ClientSendsAll(codec, config, k);
    } else {
      m := ClientSendsOne(codec, config, k);
      later := [e];
      assert Batch(config, i + 1, config.numPackets) + [Fin()] == [Fin()];
    }
    events := [e] + later;
    LeadsOn(codec, n, [e], k, later, m);
    SentTwice(n, k, m, [Numbered(config, i)], Batch(config, i + 1, config.numPackets) + [Fin()]);
    assert [Numbered(config, i)] + (Batch(config, i + 1, config.numPackets) + [Fin()])
        == Batch(config, i, config.numPackets) + [Fin()];
  }

  lemma SentKeeps(n: Net, m: Net, packets: seq<Packet>)
    requires SentOn(n, m, packets)
    ensures m.clientFailed == n.clientFailed
  {
  }

  lemma SentTwice(n: Net, k: Net, m: Net, ps: seq<Packet>, qs: seq<Packet>)
    requires SentOn(n, k, ps) && SentOn(k, m, qs)
    ensures SentOn(n, m, ps + qs)
  {
    EncodeAllConcat(ps, qs);
    hide EncodeAll;
    assert n.up.wire + EncodeAll(ps) + EncodeAll(qs) == n.up.wire + (EncodeAll(ps) + EncodeAll(qs));
  }

  // ---------- Deadlock ----------

  // Nothing but a timeout can happen.
  ghost predicate Stuck(n: Net) {
    !BothFinished(Core(n)) && forall e | NetEnabled(n, e) :: !Untimed(e)
  }

  lemma NothingLeft(n: Net)
    requires n.client.pc.CWaitFin? && n.server.pc.SWaitFin? && n.client.inbox == n.server.inbox == []
    requires n.up.wire == n.down.wire == []
    ensures Stuck(n)
  {
  }

  // The whole of phase 1 is sent, and its TEST_FIN is thrown away with the end
  // of the data: both sessions wait for a TEST_FIN that is on no stream.
  lemma OversizedRunStops(codec: Codec, config: Config, n: Net) returns (events: seq<NetEvent>, m: Net)
    requires Lossless(codec) && config.numPackets > 0 && NetInitial(n, config) && TooLarge(config)
    ensures Leads(codec, n, events, m) && Stuck(m)
  {
    assert Handshaking(n.client.pc) && !n.clientFailed && !n.serverFailed;
    InitialAnyInv(codec, config, n);
    MoreIffBelow(config, 0);
    hide NetInitial, AnyInv, NetInv, Leads, Stuck, More, EncodeAll, Batch, Fin, Throws;
    var first, a := ReachSending(codec, config, n);
    QuietStart(codec, config, a);
    var second, b := ClientSendsAll(codec, config, a);
    var packets := Batch(config, 0, config.numPackets) + [Fin()];
    assert [] + EncodeAll(packets) == EncodeAll(packets);
    var sizes := ThrowsAll(config, 0);
    var third := ServerThrows(codec, b, sizes, EMPTY_LINK);
    m := b.(up := EMPTY_LINK);
    LeadsOn(codec, n, first, a, second, b);
    LeadsOn(codec, n, first + second, b, third, m);
    events := first + second + third;
    NothingLeft(m);
  }

  // Without a packet count there is always something to send.
  lemma NeverStuckUnlimited(codec: Codec, config: Config, n: Net, events: seq<NetEvent>, m: Net)
    requires Lossless(codec) && NetInitial(n, config) && Leads(codec, n, events, m) && !Limited(config)
    requires !m.clientFailed && !m.serverFailed
    ensures !Stuck(m)
  {
    assert Sending(n);
    hide NetInitial, NetInv, ClientSound, ServerSound;
    InitialAnyInv(codec, config, n);
    RunKeepsAnyInv(codec, config, n, events);
    KeepsSending(codec, config, n, events);
    if Handshaking(m.client.pc) {
      NotFinished(m);
      var e := EndToEndProgress(codec, config, m);
    } else {
      assert NetEnabled(m, Session(ClientRuns(1)));
    }
    hide AnyInv, BothFinished;
  }

  // Deadlock freedom, exactly: every run without timeouts can go on until both
  // sessions have finished if and only if packets pass the bound of the parsers
  // or their number is unlimited.
  lemma ProgressIffFits(codec: Codec, config: Config, n: Net)
    requires Lossless(codec) && NetInitial(n, config)
    ensures (forall events, m | Leads(codec, n, events, m) :: !Stuck(m))
            <==> config.packetSize <= HEADER_SIZE + MAX_PAYLOAD || config.numPackets == 0
  {
    if TooLarge(config) && config.numPackets > 0 {
      var events, m := OversizedRunStops(codec, config, n);
    } else {
      hide NetInitial, Leads, Stuck;
      forall events, m | Leads(codec, n, events, m)
        ensures !Stuck(m)
      {
        LeadsUnfailed(codec, config, n, events, m);
        if TooLarge(config) {
          NeverStuckUnlimited(codec, config, n, events, m);
        } else {
          NeverStuckFitting(codec, config, n, events, m);
        }
      }
    }
  }

  lemma LeadsUnfailed(codec: Codec, config: Config, n: Net, events: seq<NetEvent>, m: Net)
    requires Lossless(codec) && NetInitial(n, config) && Leads(codec, n, events, m)
    ensures !m.clientFailed && !m.serverFailed
  {
    assert !n.clientFailed && !n.serverFailed;
    hide NetInitial, NetInv, Tracked, Untimed;
    if TooLarge(config) {
      InitialTracked(codec, config, n);
      TrackedNeverFails(codec, config, n, events);
    } else {
      NetInitialInv(codec, config, n);
      UntimedNeverFails(codec, config, n, events);
    }
  }

  lemma NeverStuckFitting(codec: Codec, config: Config, n: Net, events: seq<NetEvent>, m: Net)
    requires Lossless(codec) && NetInitial(n, config) && Leads(codec, n, events, m) && !TooLarge(config)
    requires !m.clientFailed && !m.serverFailed
    ensures !Stuck(m)
  {
    hide NetInitial, NetInv, BothFinished, NetEnabled, Untimed;
    NetInitialInv(codec, config, n);
    NetRunKeepsInv(codec, config, n, events);
    if !BothFinished(Core(m)) {
      var e := EndToEndProgress(codec, config, m);
    }
  }

  // ---------- Runs without end ----------

  // Without a packet count runs get longer than any bound: the client sends one
  // packet after another.
  lemma UnlimitedRunsOn(codec: Codec, config: Config, n: Net, k: nat) returns (events: seq<NetEvent>, m: Net)
    requires Lossless(codec) && NetInitial(n, config) && !Limited(config)
    ensures Leads(codec, n, events, m) && |events| >= k
  {
    assert Handshaking(n.client.pc) && !n.clientFailed && !n.serverFailed;
    InitialAnyInv(codec, config, n);
    MoreIffBelow(config, 0);
    hide NetInitial, AnyInv, NetInv, Leads, More, SentOn;
    var first, a := ReachSending(codec, config, n);
    LeadsKeepAnyInv(codec, config, n, first, a);
    SameConfig(codec, config, a);
    var second;
    second, m := ClientSendsMany(codec, config, a, k);
    LeadsOn(codec, n, first, a, second, m);
    events := first + second;
  }

  lemma {:induction false} ClientSendsMany(codec: Codec, config: Config, n: Net, k: nat)
    returns (events: seq<NetEvent>, m: Net)
    requires n.client.config == config && !n.clientFailed && !Limited(config) && n.client.pc.CSendData?
    ensures Leads(codec, n, events, m) && |events| == k
    decreases k
  {
    hide Leads, More, NetStep, AfterSend;
    if k == 0 {
      events, m := [], n;
      LeadsNowhere(codec, n);
    } else {
      var e := Session(ClientRuns(1));
      var next := ClientSendsNext(codec, config, n);
      var later;
      later, m := ClientSendsMany(codec, config, next, k - 1);
      events := [e] + later;
      LeadsOn(codec, n, [e], next, later, m);
    }
  }

  lemma ClientSendsNext(codec: Codec, config: Config, n: Net) returns (m: Net)
    requires n.client.config == config && !n.clientFailed && !Limited(config) && n.client.pc.CSendData?
    ensures Leads(codec, n, [Session(ClientRuns(1))], m)
    ensures m.client.config == config && !m.clientFailed && m.client.pc.CSendData?
  {
    hide Numbered, More, Leads, Extended;
    MoreIffBelow(config, n.client.sent + 1);
    m := NetStep(codec, n, Session(ClientRuns(1)));
    ClientNetStep(codec, n, 1);
    LeadsOne(codec, n, Session(ClientRuns(1)));
  }

  // ---------- A run that finishes ----------

  // While a run is calm and neither session can go on, a message is on its way.
  lemma CalmProgress(codec: Codec, config: Config, n: Net)
    requires Flooded(codec, config, n, true) && !BothFinished(Core(n))
    requires !ClientReady(n.client) && !ServerReady(n.server)
    ensures n.up.wire != [] || n.down.wire != []
  {
    hide ClientHolds, ServerHolds, Exchanged, Checksum, Wrap32, Spells, Has;
    var c, v := n.client, n.server;
    var up, down := UpLoad(codec, c, v.pc, true), DownLoad(codec, c.pc, v, true);
    if up.Control? {
      MessageOrBytes(up.m, n.up, v.inbox);
    }
    if down.Control? {
      MessageOrBytes(down.m, n.down, c.inbox);
    }
  }

  lemma MessageOrBytes(m: Packet, link: Link, inbox: seq<Packet>)
    requires On(Control(m), link, inbox)
    ensures link.wire != [] || Has(inbox, m.header.messageType)
  {
    if inbox == [] {
      BytesRemain(link, [m]);
    } else {
      OnlyMessage(inbox, m, m.header.messageType);
    }
  }

  // A data packet sent over an empty link that is thrown away again.
  lemma ClientDataStep(codec: Codec, config: Config, n: Net)
    requires Flooded(codec, config, n, true) && n.client.pc.CSendData? && !n.clientFailed
    ensures NetEnabled(n, Session(ClientRuns(1)))
    ensures var k := n.(client := AfterSend(n.client, 1, CSendData, CSendFin));
            && Flooded(codec, config, k, true) && k.up == EMPTY_LINK
            && NetStep(codec, n, Session(ClientRuns(1)))
               == k.(up := Link(EncodePacket(Numbered(config, n.client.sent)), [], 0))
  {
    hide NetStep, Numbered, EncodePacket, Extended, More, ClientHolds, ServerHolds, Exchanged;
    var c := n.client;
    ClientNetStep(codec, n, 1);
    ClientSendHolds(config, c, n.server, 1);
    ExtendedOne(n.up, Numbered(config, c.sent));
    assert [] + EncodePacket(Numbered(config, c.sent)) == EncodePacket(Numbered(config, c.sent));
  }

  lemma ServerDataStep(codec: Codec, config: Config, n: Net)
    requires Flooded(codec, config, n, true) && n.server.pc.SSendData? && !n.serverFailed
    ensures NetEnabled(n, Session(ServerRuns(1)))
    ensures var k := n.(server := AfterSend(n.server, 1, SSendData, SSendFin2));
            && Flooded(codec, config, k, true) && k.down == EMPTY_LINK && TooLarge(n.server.config)
            && NetStep(codec, n, Session(ServerRuns(1)))
               == k.(down := Link(EncodePacket(Numbered(n.server.config, n.server.sent)), [], 0))
  {
    hide NetStep, Numbered, EncodePacket, Extended, More, ClientHolds, ServerHolds, Exchanged;
    var v := n.server;
    ServerNetStep(codec, n, 1);
    ServerSendHolds(config, n.client, v, 1);
    ExtendedOne(n.down, Numbered(v.config, v.sent));
    assert [] + EncodePacket(Numbered(v.config, v.sent)) == EncodePacket(Numbered(v.config, v.sent));
  }

  lemma PacketThrown(config: Config, i: nat) returns (sizes: seq<nat>)
    requires TooLarge(config)
    ensures Throws(Link(EncodePacket(Numbered(config, i)), [], 0), sizes, EMPTY_LINK)
  {
    hide Throws, Numbered, EncodePacket;
    var b, none: Bytes := EncodePacket(Numbered(config, i)), [];
    assert b + none == b && none[0..] == none;
    sizes := ThrowsPacket(config, i, none, 0);
  }

  lemma ClientDataLost(codec: Codec, config: Config, n: Net) returns (events: seq<NetEvent>, k: Net)
    requires Flooded(codec, config, n, true) && n.client.pc.CSendData? && !n.clientFailed
    ensures Leads(codec, n, events, k) && Flooded(codec, config, k, true)
    ensures k == n.(client := AfterSend(n.client, 1, CSendData, CSendFin))
  {
    hide NetStep, NetEnabled, Holds, On, UpLoad, DownLoad, AfterSend, Numbered, EncodePacket, Leads, Throws;
    var e := Session(ClientRuns(1));
    ClientDataStep(codec, config, n);
    LeadsOne(codec, n, e);
    var m := NetStep(codec, n, e);
    var sizes := PacketThrown(config, n.client.sent);
    var later := ServerThrows(codec, m, sizes, EMPTY_LINK);
    k := m.(up := EMPTY_LINK);
    events := [e] + later;
    LeadsOn(codec, n, [e], m, later, k);
  }

  lemma ServerDataLost(codec: Codec, config: Config, n: Net) returns (events: seq<NetEvent>, k: Net)
    requires Flooded(codec, config, n, true) && n.server.pc.SSendData? && !n.serverFailed
    ensures Leads(codec, n, events, k) && Flooded(codec, config, k, true)
    ensures k == n.(server := AfterSend(n.server, 1, SSendData, SSendFin2))
  {
    hide NetStep, NetEnabled, Holds, On, UpLoad, DownLoad, AfterSend, Numbered, EncodePacket, Leads, Throws;
    var e := Session(ServerRuns(1));
    ServerDataStep(codec, config, n);
    LeadsOne(codec, n, e);
    var m := NetStep(codec, n, e);
    var sizes := PacketThrown(n.server.config, n.server.sent);
    var later := ClientThrows(codec, m, sizes, EMPTY_LINK);
    k := m.(down := EMPTY_LINK);
    events := [e] + later;
    LeadsOn(codec, n, [e], m, later, k);
  }

  lemma DataStepLeft(codec: Codec, config: Config, n: Net)
    requires AnyInv(codec, config, n) && config.numPackets > 0
    ensures n.client.pc.CSendData? ==>
              StepsLeft(config, Core(n.(client := AfterSend(n.client, 1, CSendData, CSendFin))))
              < StepsLeft(config, Core(n))
    ensures n.server.pc.SSendData? ==>
              StepsLeft(config, Core(n.(server := AfterSend(n.server, 1, SSendData, SSendFin2))))
              < StepsLeft(config, Core(n))
    ensures StepsLeft(config, Core(n)) >= 0
  {
    BelowCount(codec, config, n);
    LeftNonNegative(config, Core(n));
    hide AnyInv, More;
  }

  // One event, or a data packet sent and lost.
  lemma CalmStep(codec: Codec, config: Config, n: Net) returns (events: seq<NetEvent>, k: Net)
    requires Lossless(codec) && config.numPackets > 0 && AnyInv(codec, config, n) && Flooded(codec, config, n, true)
    requires !n.clientFailed && !n.serverFailed && !BothFinished(Core(n))
    ensures Leads(codec, n, events, k) && AnyInv(codec, config, k) && Flooded(codec, config, k, true)
    ensures !k.clientFailed && !k.serverFailed
    ensures var left, left' := StepsLeft(config, Core(n)), StepsLeft(config, Core(k));
            left >= 0 &&
            (left' < left || (left' == left && |k.up.wire| + |k.down.wire| < |n.up.wire| + |n.down.wire|))
  {
    hide AnyInv, Flooded, NetStep, StepsLeft, Leads, AfterSend, ClientReady, ServerReady, BothFinished;
    DataStepLeft(codec, config, n);
    if n.client.pc.CSendData? {
      events, k := ClientDataLost(codec, config, n);
      LeadsKeepAnyInv(codec, config, n, events, k);
    } else if n.server.pc.SSendData? {
      events, k := ServerDataLost(codec, config, n);
      LeadsKeepAnyInv(codec, config, n, events, k);
    } else {
      var e;
      if ClientReady(n.client) {
        e := Session(ClientRuns(1));
      } else if ServerReady(n.server) {
        e := Session(ServerRuns(1));
      } else {
        CalmProgress(codec, config, n);
        e := if n.up.wire != [] then ServerChunk(1) else ClientChunk(1);
      }
      events, k := [e], NetStep(codec, n, e);
      LeadsOne(codec, n, e);
      StepKeepsFlooded(codec, config, n, true, e);
      StepKeepsAnyInv(codec, config, n, e);
      EventShrinks(codec, config, n, e);
    }
  }

  lemma {:induction false} CalmFinish(codec: Codec, config: Config, n: Net) returns (events: seq<NetEvent>, m: Net)
    requires Lossless(codec) && config.numPackets > 0 && AnyInv(codec, config, n) && Flooded(codec, config, n, true)
    requires !n.clientFailed && !n.serverFailed
    ensures Leads(codec, n, events, m) && BothFinished(Core(m)) && AnyInv(codec, config, m)
    decreases StepsLeft(config, Core(n)), |n.up.wire| + |n.down.wire|
  {
    hide AnyInv, Flooded, StepsLeft, BothFinished, Leads;
    if BothFinished(Core(n)) {
      events, m := [], n;
      LeadsNowhere(codec, n);
    } else {
      var first, k := CalmStep(codec, config, n);
      var later;
      later, m := CalmFinish(codec, config, k);
      events := first + later;
      LeadsOn(codec, n, first, k, later, m);
    }
  }

  // Not every such run deadlocks: when each TEST_FIN arrives in a chunk of its
  // own, both sessions finish, and both results report the missing data.
  lemma OversizedRunFinishes(codec: Codec, config: Config, n: Net, runId: string)
    returns (events: seq<NetEvent>, m: Net)
    requires Lossless(codec) && config.numPackets > 0 && NetInitial(n, config) && TooLarge(config)
    ensures Leads(codec, n, events, m) && BothFinished(Core(m))
    ensures !ClientResult(Core(m), runId).success && !ServerResult(Core(m), runId).success
  {
    assert Handshaking(n.client.pc) && !n.clientFailed && !n.serverFailed;
    InitialAnyInv(codec, config, n);
    MoreIffBelow(config, 0);
    hide NetInitial, AnyInv, NetInv, Flooded, Leads, More, BothFinished, BuildResult;
    var first, a := ReachSending(codec, config, n);
    LeadsKeepAnyInv(codec, config, n, first, a);
    EntersFlood(codec, config, a);
    var second;
    second, m := CalmFinish(codec, config, a);
    events := first + second;
    LeadsOn(codec, n, first, a, second, m);
    OversizedFails(codec, config, m, runId);
  }
}
