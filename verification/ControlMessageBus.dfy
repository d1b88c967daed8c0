// The rendezvous between the receiver, which delivers control messages, and
// the session coroutine, which waits for one message type at a time. Every
// critical section under the bus mutex is one atomic step.
module MessageBus {
  import opened Protocol
  import opened Wrappers

  // How far the coroutine machinery got with one wait.
  datatype Stage =
    | Created      // the awaiter exists
    | NotReady     // await_ready found nothing; await_suspend is still to come
    | Immediate    // served from the buffer without suspending
    | Suspended    // registered, waiting to be resumed or already resumed

  datatype Wait = Wait(
    kind: Byte,
    stage: Stage,
    message: Option<Packet>,
    timedOut: bool,
    cancelled: bool,
    resumes: nat)
  {
    predicate Resolved() {
      message.Some? || timedOut || cancelled
    }
  }

  function NewWait(kind: Byte): Wait {
    Wait(kind, Created, None, false, false, 0)
  }

  // W identifies waits.
  datatype Bus<W(==)> = Bus(pending: map<Byte, W>, buffered: map<Byte, seq<Packet>>, waits: map<W, Wait>)

  datatype Event<W> =
    | Create(w: W, kind: Byte)
    | AwaitReady(w: W)
    | AwaitSuspend(w: W)
    | Deliver(m: Packet)
    | TimerFires(w: W)
    | CancelAll
    | Clear

  function Queue<W>(b: Bus<W>, kind: Byte): seq<Packet> {
    if kind in b.buffered then b.buffered[kind] else []
  }

  // A wait that can still be served.
  ghost predicate Active<W>(b: Bus<W>, w: W)
    requires w in b.waits
  {
    var wait := b.waits[w];
    wait.stage.Created? || wait.stage.NotReady? || (wait.kind in b.pending && b.pending[wait.kind] == w)
  }

  // What the callers respect: a wait goes through await_ready and then
  // await_suspend, and a session has one wait per message type at a time.
  ghost predicate Allowed<W>(b: Bus<W>, e: Event<W>) {
    match e
    case Create(w, kind) => w !in b.waits && forall v | v in b.waits && b.waits[v].kind == kind :: !Active(b, v)
    case AwaitReady(w) => w in b.waits && b.waits[w].stage.Created?
    case AwaitSuspend(w) => w in b.waits && b.waits[w].stage.NotReady?
    case TimerFires(w) => w in b.waits
    case _ => true
  }

  // await_ready and await_suspend look in the buffer the same way.
  function Take<W>(b: Bus<W>, w: W, otherwise: Stage): Bus<W>
    requires w in b.waits
  {
    var wait := b.waits[w];
    var queue := Queue(b, wait.kind);
    if queue != [] then
      b.(buffered := b.buffered[wait.kind := queue[1..]],
         waits := b.waits[w := wait.(stage := Immediate, message := Some(queue[0]))])
    else
      b.(buffered := b.buffered[wait.kind := []], waits := b.waits[w := wait.(stage := otherwise)])
  }

  function Suspend<W>(b: Bus<W>, w: W): Bus<W>
    requires w in b.waits
  {
    var kind := b.waits[w].kind;
    var taken := Take(b, w, Suspended);
    if Queue(b, kind) != [] then taken else taken.(pending := b.pending[kind := w])
  }

  function Hand<W>(b: Bus<W>, m: Packet): Bus<W>
    requires forall kind | kind in b.pending :: b.pending[kind] in b.waits
  {
    var kind := m.header.messageType;
    if kind == DATA_PACKET then b
    else if kind !in b.pending then b.(buffered := b.buffered[kind := Queue(b, kind) + [m]])
    else
      var w := b.pending[kind];
      var wait := b.waits[w];
      b.(pending := b.pending - {kind},
         waits := b.waits[w := wait.(message := Some(m), resumes := wait.resumes + 1)])
  }

  function Expire<W>(b: Bus<W>, w: W): Bus<W>
    requires w in b.waits
  {
    var wait := b.waits[w];
    if wait.kind in b.pending && b.pending[wait.kind] == w then
      b.(pending := b.pending - {wait.kind},
         waits := b.waits[w := wait.(timedOut := true, resumes := wait.resumes + 1)])
    else b
  }

  function Cancelled(wait: Wait): Wait {
    wait.(cancelled := true, resumes := wait.resumes + 1)
  }

  function CancelEvery<W>(b: Bus<W>): Bus<W> {
    Bus(map[], map[], map w | w in b.waits :: if w in b.pending.Values then Cancelled(b.waits[w]) else b.waits[w])
  }

  function Next<W>(b: Bus<W>, e: Event<W>): Bus<W>
    requires Valid(b) && Allowed(b, e)
  {
    match e
    case Create(w, kind) => b.(waits := b.waits[w := NewWait(kind)])
    case AwaitReady(w) => Take(b, w, NotReady)
    case AwaitSuspend(w) => Suspend(b, w)
    case Deliver(m) => Hand(b, m)
    case TimerFires(w) => Expire(b, w)
    case CancelAll => CancelEvery(b)
    case Clear => b.(pending := map[], buffered := map[])
  }

  // ---------- The invariant ----------

  ghost predicate WaitOk(wait: Wait, registered: bool) {
    match wait.stage
    case Created | NotReady => !wait.Resolved() && wait.resumes == 0 && !registered
    case Immediate => wait.message.Some? && !wait.timedOut && !wait.cancelled && wait.resumes == 0 && !registered
    case Suspended =>
      // exactly one outcome and one resume, or neither
      && wait.resumes == (if wait.message.Some? then 1 else 0) + (if wait.timedOut then 1 else 0)
                         + (if wait.cancelled then 1 else 0)
      && wait.resumes <= 1
      && (registered ==> wait.resumes == 0)
  }

  ghost predicate Registered<W>(b: Bus<W>, w: W) {
    w in b.waits && b.waits[w].kind in b.pending && b.pending[b.waits[w].kind] == w
  }

  ghost predicate Valid<W>(b: Bus<W>) {
    // a type with a pending wait has an empty buffer
    && (forall kind | kind in b.pending ::
          && b.pending[kind] in b.waits && b.waits[b.pending[kind]].kind == kind
          && b.waits[b.pending[kind]].stage.Suspended? && Queue(b, kind) == [])
    && (forall w | w in b.waits :: WaitOk(b.waits[w], Registered(b, w)))
    // one wait per type
    && (forall v, w | v in b.waits && w in b.waits && b.waits[v].kind == b.waits[w].kind &&
                      Active(b, v) && Active(b, w) :: v == w)
  }

  // A step that touches one wait and the entries of its type only.
  lemma OneWaitChanged<W>(b: Bus<W>, b': Bus<W>, w: W)
    requires Valid(b) && w in b.waits && w in b'.waits
    requires b'.waits == b.waits[w := b'.waits[w]] && b'.waits[w].kind == b.waits[w].kind
    requires var kind := b.waits[w].kind;
             && b'.pending - {kind} == b.pending - {kind}
             && (kind in b.pending ==> b.pending[kind] == w)
             && (kind in b'.pending ==> b'.pending[kind] == w && b'.waits[w].stage.Suspended? && Queue(b', kind) == [])
             && (forall k | k != kind :: Queue(b', k) == Queue(b, k))
    requires WaitOk(b'.waits[w], Registered(b', w))
    requires Active(b', w) ==> Active(b, w)
    ensures Valid(b')
  {
    hide WaitOk, Queue;
    var kind := b.waits[w].kind;
    forall k | k in b'.pending && k != kind
      ensures k in b.pending && b'.pending[k] == b.pending[k] && b.pending[k] != w
    {
      assert k in b'.pending - {kind} && (b'.pending - {kind})[k] == b'.pending[k];
      assert k in b.pending - {kind} && (b.pending - {kind})[k] == b.pending[k];
    }
    forall v | v in b.waits && v != w
      ensures b'.waits[v] == b.waits[v] && Registered(b', v) == Registered(b, v) && Active(b', v) == Active(b, v)
    {
      var k := b.waits[v].kind;
      if k in b.pending && k != kind {
        assert (b.pending - {kind})[k] == b.pending[k] && k in b'.pending - {kind};
      }
    }
  }

  lemma TakeValid<W>(b: Bus<W>, w: W)
    requires Valid(b) && Allowed(b, AwaitReady(w))
    ensures Valid(Take(b, w, NotReady))
  {
    assert WaitOk(b.waits[w], Registered(b, w)) && Active(b, w);
    NoneRegistered(b, w);
    OneWaitChanged(b, Take(b, w, NotReady), w);
  }

  lemma NoneRegistered<W>(b: Bus<W>, w: W)
    requires Valid(b) && w in b.waits && (b.waits[w].stage.Created? || b.waits[w].stage.NotReady?)
    ensures b.waits[w].kind !in b.pending
  {
    var kind := b.waits[w].kind;
    if kind in b.pending {
      assert Active(b, b.pending[kind]) && Active(b, w);
    }
  }

  lemma SuspendValid<W>(b: Bus<W>, w: W)
    requires Valid(b) && Allowed(b, AwaitSuspend(w))
    ensures Valid(Suspend(b, w))
  {
    assert WaitOk(b.waits[w], Registered(b, w)) && Active(b, w);
    NoneRegistered(b, w);
    OneWaitChanged(b, Suspend(b, w), w);
  }

  lemma HandValid<W>(b: Bus<W>, m: Packet)
    requires Valid(b)
    ensures Valid(Hand(b, m))
  {
    var kind := m.header.messageType;
    var b' := Hand(b, m);
    if kind != DATA_PACKET && kind in b.pending {
      var w := b.pending[kind];
      assert WaitOk(b.waits[w], Registered(b, w));
      OneWaitChanged(b, b', w);
    } else {
      hide WaitOk;
      assert forall v | v in b.waits :: Registered(b', v) == Registered(b, v);
    }
  }

  lemma ExpireValid<W>(b: Bus<W>, w: W)
    requires Valid(b) && Allowed(b, TimerFires(w))
    ensures Valid(Expire(b, w))
  {
    if Registered(b, w) {
      assert WaitOk(b.waits[w], Registered(b, w));
      OneWaitChanged(b, Expire(b, w), w);
    }
  }

  lemma CancelValid<W>(b: Bus<W>)
    requires Valid(b)
    ensures Valid(CancelEvery(b))
  {
    var b' := CancelEvery(b);
    forall v | v in b'.waits
      ensures WaitOk(b'.waits[v], Registered(b', v))
    {
      assert WaitOk(b.waits[v], Registered(b, v));
      RegisteredIffPendingValue(b, v);
    }
  }

  lemma RegisteredIffPendingValue<W>(b: Bus<W>, w: W)
    requires Valid(b) && w in b.waits
    ensures w in b.pending.Values <==> Registered(b, w)
  {
  }

  lemma CreateValid<W>(b: Bus<W>, e: Event<W>)
    requires Valid(b) && Allowed(b, e) && e.Create?
    ensures Valid(Next(b, e))
  {
    hide WaitOk;
    var b' := Next(b, e);
    assert e.w !in b.pending.Values;
    assert forall v | v in b.waits :: Registered(b', v) == Registered(b, v);
    NewWaitOk(e.kind);
  }

  lemma ClearValid<W>(b: Bus<W>)
    requires Valid(b)
    ensures Valid(Next(b, Clear))
  {
    forall v | v in b.waits
      ensures WaitOk(b.waits[v], false)
    {
      assert WaitOk(b.waits[v], Registered(b, v));
    }
  }

  // Every atomic step keeps the invariant, so every interleaving does.
  lemma NextValid<W>(b: Bus<W>, e: Event<W>)
    requires Valid(b) && Allowed(b, e)
    ensures Valid(Next(b, e))
  {
    hide Valid;
    match e
    case Create(_, _) => CreateValid(b, e);
    case AwaitReady(w) => TakeValid(b, w);
    case AwaitSuspend(w) => SuspendValid(b, w);
    case Deliver(m) => HandValid(b, m);
    case TimerFires(w) => ExpireValid(b, w);
    case CancelAll => CancelValid(b);
    case Clear => ClearValid(b);
  }

  lemma NewWaitOk(kind: Byte)
    ensures WaitOk(NewWait(kind), false)
  {
  }

  // ---------- Runs ----------

  ghost predicate RunAllowed<W>(b: Bus<W>, events: seq<Event<W>>)
    requires Valid(b)
    decreases |events|
  {
    events == [] ||
    (Allowed(b, events[0]) && (NextValid(b, events[0]); RunAllowed(Next(b, events[0]), events[1..])))
  }

  ghost function Run<W>(b: Bus<W>, events: seq<Event<W>>): (b': Bus<W>)
    requires Valid(b) && RunAllowed(b, events)
    ensures Valid(b')
    decreases |events|
  {
    if events == [] then b
    else
      NextValid(b, events[0]);
      Run(Next(b, events[0]), events[1..])
  }

  // The control messages of one type that a step delivers to the bus.
  ghost function Arrivals<W>(e: Event<W>, kind: Byte): seq<Packet> {
    if e.Deliver? && kind != DATA_PACKET && e.m.header.messageType == kind then [e.m] else []
  }

  ghost function Delivered<W>(events: seq<Event<W>>, kind: Byte): seq<Packet> {
    if events == [] then [] else Arrivals(events[0], kind) + Delivered(events[1..], kind)
  }

  // The waits of one type that hold a message after a step but not before it.
  ghost predicate NewlyServed<W>(b: Bus<W>, b': Bus<W>, kind: Byte, w: W, m: Packet) {
    && w in b'.waits && b'.waits[w].kind == kind && b'.waits[w].message == Some(m)
    && (w in b.waits ==> b.waits[w].message.None?)
  }

  ghost predicate Serves<W>(b: Bus<W>, b': Bus<W>, kind: Byte, w: W)
    requires w in b'.waits
  {
    b'.waits[w].message.Some? && NewlyServed(b, b', kind, w, b'.waits[w].message.value)
  }

  ghost predicate OnlyServes<W>(b: Bus<W>, b': Bus<W>, kind: Byte, w: W) {
    forall v | v in b'.waits :: Serves(b, b', kind, v) ==> v == w
  }

  // received lists the messages the waits of one type were given, in order.
  ghost predicate Receives<W>(b: Bus<W>, events: seq<Event<W>>, kind: Byte, received: seq<Packet>)
    requires Valid(b) && RunAllowed(b, events)
    decreases |events|
  {
    if events == [] then received == []
    else
      NextValid(b, events[0]);
      var b' := Next(b, events[0]);
      if exists w | w in b'.waits :: Serves(b, b', kind, w) then
        received != [] &&
        (exists w | w in b'.waits :: NewlyServed(b, b', kind, w, received[0]) && OnlyServes(b, b', kind, w)) &&
        Receives(b', events[1..], kind, received[1..])
      else Receives(b', events[1..], kind, received)
  }

  ghost predicate Discards<W>(e: Event<W>) {
    e.CancelAll? || e.Clear?
  }

  // What a wait that looks in the buffer is given.
  function Front<W>(b: Bus<W>, w: W, kind: Byte): seq<Packet>
    requires w in b.waits
  {
    if b.waits[w].kind == kind && Queue(b, kind) != [] then [Queue(b, kind)[0]] else []
  }

  lemma LookIsFifo<W>(b: Bus<W>, e: Event<W>, kind: Byte)
    requires Valid(b) && Allowed(b, e) && (e.AwaitReady? || e.AwaitSuspend?)
    ensures var b', given := Next(b, e), Front(b, e.w, kind);
            && Queue(b, kind) == given + Queue(b', kind) && GivesOne(b, b', kind, given)
  {
    assert WaitOk(b.waits[e.w], Registered(b, e.w));
    hide WaitOk, Valid, Registered;
    var given := Front(b, e.w, kind);
    assert given != [] ==> NewlyServed(b, Next(b, e), kind, e.w, given[0]);
  }

  // The messages given in a step: none, or one to the one wait that is served.
  ghost predicate GivesOne<W>(b: Bus<W>, b': Bus<W>, kind: Byte, given: seq<Packet>) {
    && |given| <= 1
    && if given == [] then forall w | w in b'.waits :: !Serves(b, b', kind, w)
       else exists w | w in b'.waits ::
              Serves(b, b', kind, w) && NewlyServed(b, b', kind, w, given[0]) && OnlyServes(b, b', kind, w)
  }

  lemma DeliveryIsFifo<W>(b: Bus<W>, m: Packet, kind: Byte) returns (given: seq<Packet>)
    requires Valid(b)
    ensures Queue(b, kind) + Arrivals(Event<W>.Deliver(m), kind) == given + Queue(Hand(b, m), kind)
    ensures GivesOne(b, Hand(b, m), kind, given)
  {
    given := [];
    if kind != DATA_PACKET && m.header.messageType == kind && kind in b.pending {
      given := [m];
      assert WaitOk(b.waits[b.pending[kind]], true);
      assert NewlyServed(b, Hand(b, m), kind, b.pending[kind], m);
    }
    hide Valid, WaitOk;
  }

  // One step of the FIFO queue of a type: what arrives goes to the back, what
  // a wait is given comes from the front.
  lemma StepIsFifo<W>(b: Bus<W>, e: Event<W>, kind: Byte) returns (given: seq<Packet>)
    requires Valid(b) && Allowed(b, e) && !Discards(e)
    ensures Queue(b, kind) + Arrivals(e, kind) == given + Queue(Next(b, e), kind)
    ensures GivesOne(b, Next(b, e), kind, given)
  {
    given := [];
    match e
    case Create(_, _) =>
    case AwaitReady(w) =>
      LookIsFifo(b, e, kind);
      given := Front(b, w, kind);
      hide Next, Front, GivesOne;
      assert Arrivals(e, kind) == [];
    case AwaitSuspend(w) =>
      LookIsFifo(b, e, kind);
      given := Front(b, w, kind);
      hide Next, Front, GivesOne;
      assert Arrivals(e, kind) == [];
    case Deliver(m) =>
      given := DeliveryIsFifo(b, m, kind);
      hide Hand, GivesOne;
    case TimerFires(w) =>
  }

  // The bus refines one FIFO queue per message type. Over any interleaving
  // without clear and cancelAll, the messages given to waits of a type,
  // followed by those still buffered, are the messages buffered at the start
  // followed by those delivered: none lost, doubled or overtaken.
  lemma {:induction false} RunIsFifo<W>(b: Bus<W>, events: seq<Event<W>>, kind: Byte) returns (received: seq<Packet>)
    requires Valid(b) && RunAllowed(b, events)
    requires forall e | e in events :: !Discards(e)
    ensures Receives(b, events, kind, received)
    ensures Queue(b, kind) + Delivered(events, kind) == received + Queue(Run(b, events), kind)
    decreases |events|
  {
    hide Valid, Allowed, Next, NewlyServed, Serves, OnlyServes, Arrivals, Queue;
    if events == [] {
      received := [];
    } else {
      var e := events[0];
      NextValid(b, e);
      var b' := Next(b, e);
      var given := StepIsFifo(b, e, kind);
      var later := RunIsFifo(b', events[1..], kind);
      received := given + later;
      calc {
        Queue(b, kind) + Delivered(events, kind);
        Queue(b, kind) + Arrivals(e, kind) + Delivered(events[1..], kind);
        given + (Queue(b', kind) + Delivered(events[1..], kind));
        received + Queue(Run(b, events), kind);
      }
      if given == [] {
        assert received == later;
      } else {
        assert received[0] == given[0] && received[1..] == later;
      }
    }
  }

  // Once a wait has its outcome no later step changes anything about it.
  lemma ResolvedForever<W>(b: Bus<W>, e: Event<W>, w: W)
    requires Valid(b) && Allowed(b, e) && w in b.waits && b.waits[w].Resolved()
    ensures w in Next(b, e).waits && Next(b, e).waits[w] == b.waits[w]
  {
    assert WaitOk(b.waits[w], Registered(b, w));
    if e.CancelAll? {
      RegisteredIffPendingValue(b, w);
    }
  }

  lemma {:induction false} ResolvedForRun<W>(b: Bus<W>, events: seq<Event<W>>, w: W)
    requires Valid(b) && RunAllowed(b, events) && w in b.waits && b.waits[w].Resolved()
    ensures w in Run(b, events).waits && Run(b, events).waits[w] == b.waits[w]
    decreases |events|
  {
    hide Valid, Allowed, Next;
    if events != [] {
      NextValid(b, events[0]);
      ResolvedForever(b, events[0], w);
      ResolvedForRun(Next(b, events[0]), events[1..], w);
    }
  }

  // From an empty bus, every interleaving of deliveries, timers, cancellation
  // and clears gives each wait at most one outcome, one resume if it had
  // suspended and none if it was served from the buffer, and an outcome once
  // given (after a prefix of the run) is the outcome at the end.
  lemma AtMostOnce<W>(events: seq<Event<W>>, more: seq<Event<W>>, w: W)
    requires var empty := Bus(map[], map[], map[]);
             Valid(empty) && RunAllowed(empty, events) && RunAllowed(Run(empty, events), more)
    requires w in Run(Bus(map[], map[], map[]), events).waits
    ensures var b := Run(Bus(map[], map[], map[]), events);
            var wait := b.waits[w];
            && (if wait.message.Some? then 1 else 0) + (if wait.timedOut then 1 else 0)
                + (if wait.cancelled then 1 else 0)
               == (if wait.Resolved() then 1 else 0)
            && wait.resumes == (if wait.Resolved() && wait.stage.Suspended? then 1 else 0)
            && (wait.Resolved() ==> w in Run(b, more).waits && Run(b, more).waits[w] == wait)
  {
    var b := Run(Bus(map[], map[], map[]), events);
    assert WaitOk(b.waits[w], Registered(b, w));
    if b.waits[w].Resolved() {
      ResolvedForRun(b, more, w);
    }
  }

  // A clear forgets what is buffered and who is registered, and resolves nobody:
  // the waits that were suspended stay so, and their timers are without effect.
  lemma ClearForgets<W>(b: Bus<W>, w: W, kind: Byte)
    requires Valid(b) && w in b.waits
    ensures var b' := Next(b, Clear);
            && Queue(b', kind) == [] && Queue(Next(b, CancelAll), kind) == []
            && !Registered(b', w) && b'.waits == b.waits
            && (ClearValid(b); Next(b', TimerFires(w)) == b')
  {
    ClearValid(b);
    hide Valid;
  }

  // cancelAll reaches exactly the waits registered at that moment. One that is
  // between await_ready and its registration is not resumed: it registers
  // afterwards and stays pending.
  lemma CancelReachesRegistered<W>(b: Bus<W>, w: W)
    requires Valid(b) && w in b.waits && !b.waits[w].Resolved()
    ensures var b' := Next(b, CancelAll);
            && b'.waits[w].cancelled == Registered(b, w)
            && (b.waits[w].stage.NotReady? ==>
                  Allowed(b', AwaitSuspend(w)) && (NextValid(b, CancelAll); Registered(Next(b', AwaitSuspend(w)), w)))
  {
    RegisteredIffPendingValue(b, w);
    assert WaitOk(b.waits[w], Registered(b, w));
  }

  // In the same window a timer that fires is spent without effect, so the wait
  // that registers afterwards has no timeout left.
  lemma TimerNeedsRegistration<W>(b: Bus<W>, w: W)
    requires Valid(b) && w in b.waits
    ensures Next(b, TimerFires(w)) != b <==> Registered(b, w)
    ensures Registered(b, w) ==> Next(b, TimerFires(w)).waits[w].timedOut
  {
    assert WaitOk(b.waits[w], Registered(b, w));
  }
}
