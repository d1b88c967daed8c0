// The sending and receiving steps of the session system are those of the
// generator, the receiver and the bus.
module SessionLinks {
  import opened Protocol
  import opened StreamParser
  import opened TestTypes
  import opened Generator
  import opened ReceiveStats
  import opened Wrappers
  import opened Sessions
  import opened SessionInvariant
  import opened SessionInbox
  import opened Network
  import opened Receiver
  import MessageBus

  // ---------- Sending ----------

  function Answers(reports: seq<nat>): seq<SendAnswer> {
    if reports == [] then [] else [SendAnswer(reports[0], false)] + Answers(reports[1..])
  }

  // A session at its data sends, given one report after another: where it ends
  // up, and what it has put on the stream.
  function SendOn<Pc(==)>(p: Party<Pc>, reports: seq<nat>, busy: Pc, idle: Pc): (Party<Pc>, seq<Packet>)
    requires p.config.packetSize >= HEADER_SIZE
    decreases |reports|
  {
    if p.pc != busy || reports == [] then (p, [])
    else
      var (q, ps) := SendOn(AfterSend(p, reports[0], busy, idle), reports[1..], busy, idle);
      (q, [Numbered(p.config, p.sent)] + ps)
  }

  // Both sessions take such steps.
  lemma DataSteps(codec: Codec, c: Party<ClientPc>, v: Party<ServerPc>, reported: nat)
    ensures c.pc.CSendData? ==>
              && ClientReady(c) && ClientStep(codec, c, reported) == Some(AfterSend(c, reported, CSendData, CSendFin))
              && (c.config.packetSize >= HEADER_SIZE ==> ClientSends(codec, c) == [Numbered(c.config, c.sent)])
    ensures v.pc.SSendData? ==>
              && ServerReady(v) && ServerStep(codec, v, reported) == Some(AfterSend(v, reported, SSendData, SSendFin2))
              && (v.config.packetSize >= HEADER_SIZE ==> ServerSends(codec, v) == [Numbered(v.config, v.sent)])
  {
  }

  // What the generator does on the same answers: the same packets and totals;
  // it has returned when the session has moved on, and is otherwise suspended
  // in the send that the session makes next.
  ghost predicate SameSends<Pc>(p: Party<Pc>, q: Party<Pc>, ps: seq<Packet>, r: SendRun, idle: Pc)
    requires p.config.packetSize >= HEADER_SIZE
  {
    && q.config == p.config && r.returned == (q.pc == idle)
    && GeneratorStats(q).totalPacketsSent == GeneratorStats(p).totalPacketsSent + r.packetsSent
    && GeneratorStats(q).totalBytesSent == GeneratorStats(p).totalBytesSent + r.bytesSent
    && r.sent == ps + if r.returned then [] else [Numbered(p.config, q.sent)]
  }

  lemma {:induction false} SendsAsGenerator<Pc>(p: Party<Pc>, reports: seq<nat>, busy: Pc, idle: Pc)
    requires busy != idle && p.pc == busy && More(p.config, p.sent) && forall i | 0 <= i < |reports| :: reports[i] >= 1
    ensures var (q, ps) := SendOn(p, reports, busy, idle);
            SameSends(p, q, ps, RunSends(p.config, p.sent, Answers(reports)), idle)
    decreases |reports|
  {
    hide Numbered, DataPacket, RunSends, ShouldContinue, Wrap32;
    RunSendsStep(p.config, p.sent, Answers(reports));
    if reports != [] {
      var next := AfterSend(p, reports[0], busy, idle);
      assert Answers(reports)[1..] == Answers(reports[1..]);
      hide Answers;
      var later := RunSends(p.config, p.sent + 1, Answers(reports[1..]));
      var (q, ps) := SendOn(next, reports[1..], busy, idle);
      if next.pc == busy {
        SendsAsGenerator(next, reports[1..], busy, idle);
        hide SendOn;
        var first, rest := [Numbered(p.config, p.sent)], later.sent[|ps|..];
        assert first + (ps + rest) == first + ps + rest;
      } else {
        RunSendsStep(p.config, p.sent + 1, Answers(reports[1..]));
      }
    }
  }

  predicate InRange(reports: seq<nat>) {
    forall i | 0 <= i < |reports| :: 1 <= reports[i] <= MAX_REPORTED
  }

  function ClientSendEvents(reports: seq<nat>): seq<NetEvent> {
    if reports == [] then [] else [Session(ClientRuns(reports[0]))] + ClientSendEvents(reports[1..])
  }

  function ServerSendEvents(reports: seq<nat>): seq<NetEvent> {
    if reports == [] then [] else [Session(ServerRuns(reports[0]))] + ServerSendEvents(reports[1..])
  }

  lemma ExtendedTwice(link: Link, ps: seq<Packet>, qs: seq<Packet>)
    ensures Extended(Extended(link, ps), qs) == Extended(link, ps + qs)
  {
    EncodeAllConcat(ps, qs);
    hide EncodeAll;
    assert link.wire + EncodeAll(ps) + EncodeAll(qs) == link.wire + (EncodeAll(ps) + EncodeAll(qs));
  }

  // The client's steps, as long as it is at its data sends.
  lemma {:induction false} ClientRunSends(codec: Codec, n: Net, reports: seq<nat>)
    requires n.client.config.packetSize >= HEADER_SIZE && !n.clientFailed && InRange(reports)
    ensures var (q, ps) := SendOn(n.client, reports, CSendData, CSendFin);
            && |ps| <= |reports| && (|ps| < |reports| ==> q.pc != CSendData)
            && IsNetRun(codec, n, ClientSendEvents(reports[..|ps|]))
            && NetEnd(codec, n, ClientSendEvents(reports[..|ps|])) == n.(client := q, up := Extended(n.up, ps))
    decreases |reports|
  {
    hide NetStep, Numbered, AfterSend, Extended;
    ExtendedNothing(n.up);
    if n.client.pc == CSendData && reports != [] {
      DataSteps(codec, n.client, n.server, reports[0]);
      hide ClientReady, ClientStep, ClientSends;
      ClientNetStep(codec, n, reports[0]);
      var k := NetStep(codec, n, Session(ClientRuns(reports[0])));
      AfterSendKeeps(n.client, reports[0], CSendData, CSendFin);
      ClientRunSends(codec, k, reports[1..]);
      var (q, ps) := SendOn(k.client, reports[1..], CSendData, CSendFin);
      ExtendedTwice(n.up, [Numbered(n.client.config, n.client.sent)], ps);
      FrontOf(reports, |ps|);
      hide SendOn;
    }
  }

  lemma AfterSendKeeps<Pc>(p: Party<Pc>, reported: nat, busy: Pc, idle: Pc)
    ensures AfterSend(p, reported, busy, idle).config == p.config
  {
  }

  lemma FrontOf(reports: seq<nat>, k: nat)
    requires reports != [] && k < |reports|
    ensures reports[..k + 1][0] == reports[0] && reports[..k + 1][1..] == reports[1..][..k]
  {
  }

  lemma {:induction false} ServerRunSends(codec: Codec, n: Net, reports: seq<nat>)
    requires n.server.config.packetSize >= HEADER_SIZE && !n.serverFailed && InRange(reports)
    ensures var (q, ps) := SendOn(n.server, reports, SSendData, SSendFin2);
            && |ps| <= |reports| && (|ps| < |reports| ==> q.pc != SSendData)
            && IsNetRun(codec, n, ServerSendEvents(reports[..|ps|]))
            && NetEnd(codec, n, ServerSendEvents(reports[..|ps|])) == n.(server := q, down := Extended(n.down, ps))
    decreases |reports|
  {
    hide NetStep, Numbered, AfterSend, Extended;
    ExtendedNothing(n.down);
    if n.server.pc == SSendData && reports != [] {
      DataSteps(codec, n.client, n.server, reports[0]);
      hide ServerReady, ServerStep, ServerSends;
      ServerNetStep(codec, n, reports[0]);
      var k := NetStep(codec, n, Session(ServerRuns(reports[0])));
      AfterSendKeeps(n.server, reports[0], SSendData, SSendFin2);
      ServerRunSends(codec, k, reports[1..]);
      var (q, ps) := SendOn(k.server, reports[1..], SSendData, SSendFin2);
      ExtendedTwice(n.down, [Numbered(n.server.config, n.server.sent)], ps);
      FrontOf(reports, |ps|);
      hide SendOn;
    }
  }

  // A client at its data sends, given one report after another, puts on the
  // upstream exactly the packets the generator sends on the same answers, keeps
  // its totals, and is past its data sends exactly when the generator returns.
  lemma ClientSendsAsGenerator(codec: Codec, n: Net, reports: seq<nat>) returns (events: seq<NetEvent>, ps: seq<Packet>)
    requires n.client.pc.CSendData? && !n.clientFailed && InRange(reports)
    requires More(n.client.config, n.client.sent)
    ensures |events| == |ps| <= |reports| && events == ClientSendEvents(reports[..|ps|])
    ensures IsNetRun(codec, n, events)
    ensures var m := NetEnd(codec, n, events);
            && m == n.(client := m.client, up := Extended(n.up, ps))
            && SameSends(n.client, m.client, ps,
                         RunSends(n.client.config, n.client.sent, Answers(reports)), CSendFin)
            && (|ps| < |reports| ==> m.client.pc != CSendData)
  {
    hide NetStep, RunSends, SameSends, SendOn, Answers;
    var (q, sent) := SendOn(n.client, reports, CSendData, CSendFin);
    ClientRunSends(codec, n, reports);
    SendsAsGenerator(n.client, reports, CSendData, CSendFin);
    ClientEventCount(reports[..|sent|]);
    events, ps := ClientSendEvents(reports[..|sent|]), sent;
  }

  lemma ServerSendsAsGenerator(codec: Codec, n: Net, reports: seq<nat>) returns (events: seq<NetEvent>, ps: seq<Packet>)
    requires n.server.pc.SSendData? && !n.serverFailed && InRange(reports)
    requires More(n.server.config, n.server.sent)
    ensures |events| == |ps| <= |reports| && events == ServerSendEvents(reports[..|ps|])
    ensures IsNetRun(codec, n, events)
    ensures var m := NetEnd(codec, n, events);
            && m == n.(server := m.server, down := Extended(n.down, ps))
            && SameSends(n.server, m.server, ps,
                         RunSends(n.server.config, n.server.sent, Answers(reports)), SSendFin2)
            && (|ps| < |reports| ==> m.server.pc != SSendData)
  {
    hide NetStep, RunSends, SameSends, SendOn, Answers;
    var (q, sent) := SendOn(n.server, reports, SSendData, SSendFin2);
    ServerRunSends(codec, n, reports);
    SendsAsGenerator(n.server, reports, SSendData, SSendFin2);
    ServerEventCount(reports[..|sent|]);
    events, ps := ServerSendEvents(reports[..|sent|]), sent;
  }

  lemma {:induction false} ClientEventCount(reports: seq<nat>)
    ensures |ClientSendEvents(reports)| == |reports|
  {
    if reports != [] {
      ClientEventCount(reports[1..]);
    }
  }

  lemma {:induction false} ServerEventCount(reports: seq<nat>)
    ensures |ServerSendEvents(reports)| == |reports|
  {
    if reports != [] {
      ServerEventCount(reports[1..]);
    }
  }

  // ---------- Receiving ----------

  lemma {:induction false} DispatchAllLast<Pc>(p: Party<Pc>, ps: seq<Packet>, m: Packet)
    ensures DispatchAll(p, ps + [m]) == Sessions.Dispatch(DispatchAll(p, ps), m)
    decreases |ps|
  {
    hide OnData;
    if ps == [] {
      assert [] + [m] == [m] && [m][1..] == [];
    } else {
      assert (ps + [m])[1..] == ps[1..] + [m];
      DispatchAllLast(Sessions.Dispatch(p, ps[0]), ps[1..], m);
    }
  }

  lemma {:induction false} DispatchAllCounts<Pc>(p: Party<Pc>, ps: seq<Packet>)
    ensures DispatchAll(p, ps).counters == OnAll(p.counters, DataOnly(ps))
    decreases |ps|
  {
    hide OnData;
    if ps != [] {
      var front, m := ps[..|ps| - 1], ps[|ps| - 1];
      assert ps == front + [m];
      DispatchAllLast(p, front, m);
      DispatchAllCounts(p, front);
      var data := DataOnly(front);
      assert (data + [m])[..|data|] == data && data + [] == data;
    }
  }

  // One received chunk changes the counters as the receive loop does.
  lemma ChunkCounts<Pc>(p: Party<Pc>, link: Link, size: nat)
    requires size <= |link.wire|
    ensures var r := Parse(MAX_PAYLOAD, link.buffer + link.wire[..size], link.streak);
            ReceiveChunk(p, link, size).0.counters
            == OnAll(CountFailures(p.counters, r.checksumFailures), DataOnly(r.packets))
  {
    hide Parse, DispatchAll, OnAll, DataOnly;
    var r := Parse(MAX_PAYLOAD, link.buffer + link.wire[..size], link.streak);
    DispatchAllCounts(p.(counters := CountFailures(p.counters, r.checksumFailures)), r.packets);
  }

  // ---------- The bus behind the inbox ----------

  lemma {:induction false} FirstOfLonger(inbox: seq<Packet>, m: Packet, kind: Byte)
    requires Has(inbox, kind)
    ensures Has(inbox + [m], kind) && First(inbox + [m], kind) == First(inbox, kind)
    ensures WithoutFirst(inbox + [m], kind) == WithoutFirst(inbox, kind) + [m]
    decreases |inbox|
  {
    var i :| 0 <= i < |inbox| && inbox[i].header.messageType == kind;
    assert (inbox + [m])[i] == inbox[i];
    if inbox[0].header.messageType == kind {
      assert (inbox + [m])[1..] == inbox[1..] + [m];
    } else {
      assert inbox[1..][i - 1] == inbox[i];
      assert (inbox + [m])[1..] == inbox[1..] + [m];
      FirstOfLonger(inbox[1..], m, kind);
    }
  }

  // The bus of a session that waits for one type, or for none, after packets
  // have been dispatched: what the inbox holds, less the message that woke the
  // waiting session.
  ghost predicate Follows<W>(b: MessageBus.Bus<W>, b': MessageBus.Bus<W>, inbox: seq<Packet>, waiting: Option<Byte>)
    requires waiting.Some? ==> waiting.value in b.pending
  {
    if waiting.Some? && Has(inbox, waiting.value) then
      var w := b.pending[waiting.value];
      && b'.pending == map[] && Holds(b', WithoutFirst(inbox, waiting.value))
      && w in b'.waits && b'.waits[w].message == Some(First(inbox, waiting.value))
    else
      b'.pending == b.pending && b'.waits == b.waits && Holds(b', inbox)
  }

  lemma HasLast(inbox: seq<Packet>, m: Packet, kind: Byte)
    ensures Has(inbox + [m], kind) <==> Has(inbox, kind) || m.header.messageType == kind
  {
    var all := inbox + [m];
    if m.header.messageType == kind {
      assert all[|inbox|] == m;
    }
    if Has(inbox, kind) {
      var i :| 0 <= i < |inbox| && inbox[i].header.messageType == kind;
      assert all[i] == inbox[i];
    }
  }

  lemma HandFollows<W>(b: MessageBus.Bus<W>, now: MessageBus.Bus<W>, inbox: seq<Packet>, m: Packet,
                       waiting: Option<Byte>)
    requires MessageBus.Valid(now) && m.header.messageType != DATA_PACKET
    requires b.pending.Keys == match waiting case None => {} case Some(kind) => {kind}
    requires Follows(b, now, inbox, waiting)
    ensures Follows(b, MessageBus.Hand(now, m), inbox + [m], waiting)
  {
    hide MessageBus.Valid, Holds, First, WithoutFirst, Has, MessageBus.Queue;
    var kind := m.header.messageType;
    if waiting.Some? {
      HasLast(inbox, m, waiting.value);
      if Has(inbox, waiting.value) {
        FirstOfLonger(inbox, m, waiting.value);
        DeliveryFillsInbox(now, m, WithoutFirst(inbox, waiting.value));
      } else {
        DeliveryFillsInbox(now, m, inbox);
        assert now.pending - {kind} == if kind == waiting.value then map[] else now.pending;
      }
    } else {
      DeliveryFillsInbox(now, m, inbox);
    }
  }

  // Dispatching to the bus fills the inbox of the session system, and wakes
  // the waiting session with the first message of its type.
  lemma {:induction false} DispatchFillsInbox<W, Pc>(b: MessageBus.Bus<W>, p: Party<Pc>, ps: seq<Packet>,
                                                     waiting: Option<Byte>)
    requires MessageBus.Valid(b) && Holds(b, p.inbox) && (waiting.Some? ==> !Has(p.inbox, waiting.value))
    requires b.pending.Keys == match waiting case None => {} case Some(kind) => {kind}
    ensures MessageBus.Valid(HandAll(b, ps)) && Follows(b, HandAll(b, ps), DispatchAll(p, ps).inbox, waiting)
    decreases |ps|
  {
    if ps == [] {
      hide MessageBus.Valid, Holds;
    } else {
      var front, m := ps[..|ps| - 1], ps[|ps| - 1];
      assert ps == front + [m];
      DispatchFillsInbox(b, p, front, waiting);
      DispatchAllLast(p, front, m);
      var now := HandAll(b, front);
      MessageBus.NextValid(now, MessageBus.Deliver(m));
      hide MessageBus.Valid, Holds, Follows, OnData, DispatchAll;
      if m.header.messageType != DATA_PACKET {
        HandFollows(b, now, DispatchAll(p, front).inbox, m, waiting);
      }
    }
  }
}
