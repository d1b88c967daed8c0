// The sender statistics that both sides store, along every run over bytes and
// for every packet size: the packets asked for, and the bytes the network
// reported for them.
module SentStatistics {
  import opened Protocol
  import opened TestTypes
  import opened Generator
  import opened ReceiveStats
  import opened Wrappers
  import opened Sessions
  import opened SessionInvariant
  import opened SessionTheorems
  import opened StreamParser
  import opened Network
  import opened AnySize
  import opened OversizedStream
  import opened OversizedSessions

  // A sender's statistics: nothing received, and no error.
  ghost predicate Sent(s: TestStats, packets: int, bytes: int) {
    && s.totalPacketsSent == packets && s.totalBytesSent == bytes
    && s.totalPacketsReceived == s.totalBytesReceived == 0
    && s.failedChecksumCount == s.sequenceErrorCount == s.contentMismatchCount == 0
  }

  // What has been stored about the sender of each phase, on both sides.
  ghost predicate SentStored(config: Config, c: Party<ClientPc>, v: Party<ServerPc>) {
    && (ClientDone1(c.pc) ==> Sent(c.clientStats1, Total(config), c.bytesSent))
    && (ServerDone1(v.pc) ==> Sent(v.clientStats1, Total(config), c.bytesSent))
    && (ServerDone2(v.pc) ==> Sent(v.serverStats2, Total(config), v.bytesSent))
    && (ClientDone2(c.pc) ==> Sent(c.serverStats2, Total(config), v.bytesSent))
  }

  lemma PacketsStored(codec: Codec, config: Config, s: System)
    requires Inv(codec, config, s)
    ensures SentStored(config, s.client, s.server)
  {
    hide Checksum, Wrap32, Counted, Final, Batch;
  }

  lemma NetStored(codec: Codec, config: Config, n: Net)
    requires NetInv(codec, config, n)
    ensures SentStored(config, n.client, n.server)
  {
    hide Inv, Spells, SentStored;
    var s :| Inv(codec, config, s) && Represents(n, s);
    PacketsStored(codec, config, s);
  }

  lemma TrackedStored(codec: Codec, config: Config, n: Net)
    requires Tracked(codec, config, n)
    ensures SentStored(config, n.client, n.server)
  {
    if Handshaking(n.client.pc) {
      NetStored(codec, config, n);
    } else {
      hide On, UpLoad, DownLoad, AnyInv;
    }
  }

  // ---------- The reports of the network ----------

  // What the sends of a run were reported to have taken: the client's data
  // sends, and the server's.
  ghost function ClientReports(codec: Codec, n: Net, events: seq<NetEvent>): nat
    requires IsNetRun(codec, n, events)
    decreases |events|
  {
    if events == [] then 0
    else
      (if events[0].Session? && events[0].e.ClientRuns? && n.client.pc.CSendData? then events[0].e.reported else 0)
      + ClientReports(codec, NetStep(codec, n, events[0]), events[1..])
  }

  ghost function ServerReports(codec: Codec, n: Net, events: seq<NetEvent>): nat
    requires IsNetRun(codec, n, events)
    decreases |events|
  {
    if events == [] then 0
    else
      (if events[0].Session? && events[0].e.ServerRuns? && n.server.pc.SSendData? then events[0].e.reported else 0)
      + ServerReports(codec, NetStep(codec, n, events[0]), events[1..])
  }

  predicate Before2(pc: ServerPc) {
    pc.SWaitConfig? || pc.SSendAck? || pc.SWaitFin? || pc.SSendFin? || pc.SWaitStats? || pc.SSendStatsAck? ||
    pc.SWaitReady?
  }

  // The bytes a side has sent so far.
  ghost function ClientBytes(c: Party<ClientPc>): nat {
    if Handshaking(c.pc) then 0 else c.bytesSent
  }

  ghost function ServerBytes(v: Party<ServerPc>): nat {
    if Before2(v.pc) then 0 else v.bytesSent
  }

  lemma ClientBytesStep(codec: Codec, n: Net, e: NetEvent)
    requires NetEnabled(n, e)
    ensures ClientBytes(NetStep(codec, n, e).client)
         == ClientBytes(n.client)
            + if e.Session? && e.e.ClientRuns? && n.client.pc.CSendData? then e.e.reported else 0
  {
    hide First, WithoutFirst, Has, More, ServerStep, ServerSends, ServerReady, ReceiveChunk, EncodeAll, ClientSends;
    if e.ClientChunk? {
      ChunkKeepsParty(n.client, n.down, e.size);
    }
  }

  lemma ServerBytesStep(codec: Codec, n: Net, e: NetEvent)
    requires NetEnabled(n, e)
    ensures ServerBytes(NetStep(codec, n, e).server)
         == ServerBytes(n.server)
            + if e.Session? && e.e.ServerRuns? && n.server.pc.SSendData? then e.e.reported else 0
  {
    hide First, WithoutFirst, Has, More, ClientStep, ClientSends, ClientReady, ReceiveChunk, EncodeAll, ServerSends;
    if e.ServerChunk? {
      ChunkKeepsParty(n.server, n.up, e.size);
    }
  }

  lemma ChunkKeepsParty<Pc>(p: Party<Pc>, link: Link, size: nat)
    requires size <= |link.wire|
    ensures var p' := ReceiveChunk(p, link, size).0; p'.pc == p.pc && p'.bytesSent == p.bytesSent
  {
    hide Parse, DispatchAll;
    var r := Parse(MAX_PAYLOAD, link.buffer + link.wire[..size], link.streak);
    DispatchAllKeeps(p.(counters := p.counters.(failedChecksums := p.counters.failedChecksums + r.checksumFailures)),
                     r.packets);
  }

  lemma {:induction false} ReportsAdd(codec: Codec, n: Net, events: seq<NetEvent>)
    requires IsNetRun(codec, n, events)
    ensures var m := NetEnd(codec, n, events);
            && ClientBytes(m.client) == ClientBytes(n.client) + ClientReports(codec, n, events)
            && ServerBytes(m.server) == ServerBytes(n.server) + ServerReports(codec, n, events)
    decreases |events|
  {
    hide NetEnabled, NetStep, ClientBytes, ServerBytes;
    if events != [] {
      ClientBytesStep(codec, n, events[0]);
      ServerBytesStep(codec, n, events[0]);
      ReportsAdd(codec, NetStep(codec, n, events[0]), events[1..]);
    }
  }

  // ---------- Over whole runs ----------

  // Whoever is past a phase has stored, for its sender, exactly the packets
  // asked for and the sum of what the network reported, and nothing received.
  lemma SendersStored(codec: Codec, config: Config, n: Net, events: seq<NetEvent>)
    requires Lossless(codec) && NetInitial(n, config) && IsNetRun(codec, n, events)
    ensures var m := NetEnd(codec, n, events);
            var up, down := ClientReports(codec, n, events), ServerReports(codec, n, events);
            && (ClientDone1(m.client.pc) ==> Sent(m.client.clientStats1, Total(config), up))
            && (ServerDone1(m.server.pc) ==> Sent(m.server.clientStats1, Total(config), up))
            && (ServerDone2(m.server.pc) ==> Sent(m.server.serverStats2, Total(config), down))
            && (ClientDone2(m.client.pc) ==> Sent(m.client.serverStats2, Total(config), down))
  {
    StartBytes(n, config);
    hide NetInitial, Sent, Handshaking, Before2;
    ReportsAdd(codec, n, events);
    StoredInOrder(codec, config, n, events);
    StoredAtEnd(codec, config, n, events);
  }

  lemma StartBytes(n: Net, config: Config)
    requires NetInitial(n, config)
    ensures ClientBytes(n.client) == ServerBytes(n.server) == 0
  {
  }

  lemma StoredAtEnd(codec: Codec, config: Config, n: Net, events: seq<NetEvent>)
    requires Lossless(codec) && NetInitial(n, config) && IsNetRun(codec, n, events)
    ensures var m := NetEnd(codec, n, events); SentStored(config, m.client, m.server)
  {
    hide NetInitial, NetInv, Tracked, SentStored;
    if TooLarge(config) {
      InitialTracked(codec, config, n);
      RunKeepsTracked(codec, config, n, events);
      TrackedStored(codec, config, NetEnd(codec, n, events));
    } else {
      NetInitialInv(codec, config, n);
      NetRunKeepsInv(codec, config, n, events);
      NetStored(codec, config, NetEnd(codec, n, events));
    }
  }

  // The peer of a side past a phase has sent all of that phase.
  lemma StoredInOrder(codec: Codec, config: Config, n: Net, events: seq<NetEvent>)
    requires Lossless(codec) && NetInitial(n, config) && IsNetRun(codec, n, events)
    ensures var m := NetEnd(codec, n, events);
            && (ServerDone1(m.server.pc) ==> !Handshaking(m.client.pc))
            && (ClientDone2(m.client.pc) ==> !Before2(m.server.pc))
  {
    var m := NetEnd(codec, n, events);
    hide NetInitial, NetInv, AnyInv;
    if TooLarge(config) {
      InitialTracked(codec, config, n);
      RunKeepsTracked(codec, config, n, events);
      TrackedInOrder(codec, config, m);
    } else {
      NetInitialInv(codec, config, n);
      NetRunKeepsInv(codec, config, n, events);
      NetInOrder(codec, config, m);
    }
    hide Tracked;
  }

  lemma NetInOrder(codec: Codec, config: Config, n: Net)
    requires NetInv(codec, config, n)
    ensures ServerDone1(n.server.pc) ==> !Handshaking(n.client.pc)
    ensures ClientDone2(n.client.pc) ==> !Before2(n.server.pc)
  {
    hide Spells, Batch, Counted, Final, Checksum, Keeps1;
    var s :| Inv(codec, config, s) && Represents(n, s);
  }

  lemma TrackedInOrder(codec: Codec, config: Config, n: Net)
    requires Tracked(codec, config, n)
    ensures ServerDone1(n.server.pc) ==> !Handshaking(n.client.pc)
    ensures ClientDone2(n.client.pc) ==> !Before2(n.server.pc)
  {
    if Handshaking(n.client.pc) {
      NetInOrder(codec, config, n);
    } else {
      hide On, UpLoad, DownLoad, AnyInv, ClientHolds, ServerHolds, Exchanged;
    }
  }
}
