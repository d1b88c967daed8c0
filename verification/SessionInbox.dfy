// Why the sessions may use an inbox: waiting through the message bus takes
// exactly the oldest delivered message of the type.
module SessionInbox {
  import opened Protocol
  import opened Wrappers
  import Sessions
  import opened MessageBus

  function OfKind(inbox: seq<Packet>, kind: Byte): seq<Packet> {
    if inbox == [] then []
    else (if inbox[0].header.messageType == kind then [inbox[0]] else []) + OfKind(inbox[1..], kind)
  }

  lemma {:induction false} OfKindAppend(inbox: seq<Packet>, m: Packet, kind: Byte)
    ensures OfKind(inbox + [m], kind) == OfKind(inbox, kind) + if m.header.messageType == kind then [m] else []
  {
    if inbox == [] {
      assert inbox + [m] == [m];
    } else {
      OfKindAppend(inbox[1..], m, kind);
      assert (inbox + [m])[1..] == inbox[1..] + [m];
    }
  }

  lemma {:induction false} TakeIsPop(inbox: seq<Packet>, kind: Byte, other: Byte)
    ensures Sessions.Has(inbox, kind) <==> OfKind(inbox, kind) != []
    ensures Sessions.Has(inbox, kind) ==>
              && Sessions.First(inbox, kind) == OfKind(inbox, kind)[0]
              && OfKind(Sessions.WithoutFirst(inbox, kind), kind) == OfKind(inbox, kind)[1..]
              && (other != kind ==> OfKind(Sessions.WithoutFirst(inbox, kind), other) == OfKind(inbox, other))
  {
    if inbox != [] && inbox[0].header.messageType != kind {
      TakeIsPop(inbox[1..], kind, other);
      assert Sessions.Has(inbox[1..], kind) ==> Sessions.Has(inbox, kind) by {
        assert forall i | 0 <= i < |inbox[1..]| :: inbox[1..][i] == inbox[i + 1];
      }
      assert Sessions.Has(inbox, kind) ==> Sessions.Has(inbox[1..], kind) by {
        if Sessions.Has(inbox, kind) {
          var i :| 0 <= i < |inbox| && inbox[i].header.messageType == kind;
          assert inbox[1..][i - 1] == inbox[i];
        }
      }
      if Sessions.Has(inbox, kind) {
        var rest := Sessions.WithoutFirst(inbox[1..], kind);
        assert ([inbox[0]] + rest)[1..] == rest;
      }
    }
  }

  // The buffers of the bus are the inbox, sorted by type.
  ghost predicate Holds<W>(b: Bus<W>, inbox: seq<Packet>) {
    forall kind: Byte :: Queue(b, kind) == OfKind(inbox, kind)
  }

  // A wait that finds its message, in await_ready or in await_suspend.
  lemma WaitTakesFirst<W>(b: Bus<W>, e: Event<W>, inbox: seq<Packet>)
    requires Valid(b) && Allowed(b, e) && (e.AwaitReady? || e.AwaitSuspend?) && Holds(b, inbox)
    ensures var kind, b' := b.waits[e.w].kind, Next(b, e);
            if Sessions.Has(inbox, kind)
            then b'.waits[e.w].message == Some(Sessions.First(inbox, kind)) && b'.waits[e.w].stage.Immediate?
                 && Holds(b', Sessions.WithoutFirst(inbox, kind))
            else b'.waits[e.w].message.None? && Holds(b', inbox)
  {
    var kind, b' := b.waits[e.w].kind, Next(b, e);
    assert WaitOk(b.waits[e.w], Registered(b, e.w));
    TakeIsPop(inbox, kind, kind);
    forall other: Byte
      ensures Queue(b', other)
          == OfKind(if Sessions.Has(inbox, kind) then Sessions.WithoutFirst(inbox, kind) else inbox, other)
    {
      TakeIsPop(inbox, kind, other);
    }
  }

  // A delivery to a pending wait is a delivery to the inbox and the taking of
  // that message in one; any other delivery stays in the inbox.
  lemma DeliveryFillsInbox<W>(b: Bus<W>, m: Packet, inbox: seq<Packet>)
    requires Valid(b) && Holds(b, inbox) && m.header.messageType != DATA_PACKET
    ensures var kind, b', grown := m.header.messageType, Next(b, Deliver(m)), inbox + [m];
            if kind in b.pending
            then Sessions.Has(grown, kind) && b'.waits[b.pending[kind]].message == Some(Sessions.First(grown, kind))
                 && Holds(b', Sessions.WithoutFirst(grown, kind))
            else Holds(b', grown)
  {
    var kind, b', grown := m.header.messageType, Next(b, Deliver(m)), inbox + [m];
    OfKindAppend(inbox, m, kind);
    TakeIsPop(grown, kind, kind);
    forall other: Byte
      ensures Queue(b', other) == OfKind(if kind in b.pending then Sessions.WithoutFirst(grown, kind) else grown, other)
    {
      OfKindAppend(inbox, m, other);
      TakeIsPop(grown, kind, other);
    }
  }
}
