// The bus as the objects of the program: two maps and the flags of the
// awaiters, updated in place. Each method is one step of MessageBus.
module MessageBusObjects {
  import opened Protocol
  import opened Wrappers
  import opened MessageBus

  class Awaiter {
    const kind: Byte
    var message: Option<Packet>
    var timedOut: bool
    var cancelled: bool
    var cancelTimer: bool
    // What the coroutine machinery has done with this wait so far.
    ghost var stage: Stage
    ghost var resumes: nat

    constructor (kind: Byte)
      ensures this.kind == kind && State() == NewWait(kind)
    {
      this.kind := kind;
      message := None;
      timedOut, cancelled, cancelTimer := false, false, false;
      stage, resumes := Created, 0;
    }

    ghost function State(): Wait
      reads this
    {
      Wait(kind, stage, message, timedOut, cancelled, resumes)
    }

    ghost method Resume()
      modifies this`resumes
      ensures State() == old(State()).(resumes := old(resumes) + 1)
    {
      resumes := resumes + 1;
    }
  }

  class ControlMessageBus {
    var pendingWaits: map<Byte, Awaiter>
    var bufferedMessages: map<Byte, seq<Packet>>
    ghost var awaiters: set<Awaiter>

    ghost function State(): Bus<Awaiter>
      reads this, awaiters
    {
      Bus(pendingWaits, bufferedMessages, map a | a in awaiters :: a.State())
    }

    constructor ()
      ensures State() == Bus(map[], map[], map[])
    {
      pendingWaits, bufferedMessages, awaiters := map[], map[], {};
    }

    method WaitFor(kind: Byte) returns (a: Awaiter)
      modifies this`awaiters
      ensures fresh(a) && a.kind == kind && awaiters == old(awaiters) + {a}
      ensures State() == old(State()).(waits := old(State()).waits[a := NewWait(kind)])
    {
      a := new Awaiter(kind);
      awaiters := awaiters + {a};
    }

    method TryTakeBufferedMessage(kind: Byte) returns (message: Option<Packet>)
      modifies this`bufferedMessages
      ensures var queue := Queue(old(State()), kind);
              && bufferedMessages == old(bufferedMessages)[kind := if queue == [] then [] else queue[1..]]
              && message == if queue == [] then None else Some(queue[0])
    {
      if kind !in bufferedMessages {
        bufferedMessages := bufferedMessages[kind := []];
      }
      var queue := bufferedMessages[kind];
      if queue == [] {
        return None;
      }
      bufferedMessages := bufferedMessages[kind := queue[1..]];
      return Some(queue[0]);
    }

    // True lets the coroutine go on without suspending.
    method AwaitReady(a: Awaiter) returns (ready: bool)
      requires a in awaiters && a.stage.Created?
      modifies this`bufferedMessages, a
      ensures State() == Take(old(State()), a, NotReady)
      ensures ready == a.stage.Immediate?
    {
      assert State().waits[a] == a.State();
      var taken := TryTakeBufferedMessage(a.kind);
      ready := taken.Some?;
      if ready {
        a.message := taken;
      }
      a.stage := if ready then Immediate else NotReady;
    }

    // False resumes the coroutine at once: a message came in after await_ready.
    method AwaitSuspend(a: Awaiter) returns (suspended: bool)
      requires a in awaiters && a.stage.NotReady?
      modifies this, a
      ensures awaiters == old(awaiters)
      ensures State() == Suspend(old(State()), a)
      ensures suspended == a.stage.Suspended?
    {
      assert State().waits[a] == a.State();
      if a.kind !in bufferedMessages {
        bufferedMessages := bufferedMessages[a.kind := []];
      }
      var queue := bufferedMessages[a.kind];
      if queue != [] {
        a.message := Some(queue[0]);
        bufferedMessages := bufferedMessages[a.kind := queue[1..]];
        a.cancelTimer := true;
        a.stage := Immediate;
        assert State().waits == old(State()).waits[a := a.State()];
        return false;
      }
      pendingWaits := pendingWaits[a.kind := a];
      a.stage := Suspended;
      assert State().waits == old(State()).waits[a := a.State()];
      return true;
    }

    method TimerFires(a: Awaiter)
      requires a in awaiters
      modifies this`pendingWaits, a
      ensures State() == Expire(old(State()), a)
    {
      assert State().waits[a] == a.State();
      if a.kind in pendingWaits && pendingWaits[a.kind] == a {
        a.timedOut := true;
        pendingWaits := pendingWaits - {a.kind};
        a.Resume();
      }
    }

    method Deliver(m: Packet)
      requires forall kind | kind in pendingWaits :: pendingWaits[kind] in awaiters
      modifies this, awaiters
      ensures awaiters == old(awaiters)
      ensures State() == Hand(old(State()), m)
    {
      var kind := m.header.messageType;
      if kind == DATA_PACKET {
        return;
      }
      if kind !in pendingWaits {
        var queue := if kind in bufferedMessages then bufferedMessages[kind] else [];
        bufferedMessages := bufferedMessages[kind := queue + [m]];
        return;
      }
      var a := pendingWaits[kind];
      assert State().waits[a] == a.State();
      a.message := Some(m);
      pendingWaits := pendingWaits - {kind};
      a.Resume();
    }

    method Clear()
      modifies this`pendingWaits, this`bufferedMessages
      ensures State() == old(State()).(pending := map[], buffered := map[])
    {
      pendingWaits, bufferedMessages := map[], map[];
    }

    ghost predicate PendingKinds()
      reads this
    {
      forall kind | kind in pendingWaits :: pendingWaits[kind] in awaiters && pendingWaits[kind].kind == kind
    }

    method CancelAll()
      requires Valid(State())
      modifies this, awaiters
      ensures awaiters == old(awaiters)
      ensures State() == CancelEvery(old(State()))
    {
      hide WaitOk, Registered, Queue;
      assert PendingKinds() by {
        assert forall kind | kind in pendingWaits :: State().waits[pendingWaits[kind]].kind == kind;
      }
      hide Valid;
      ghost var cancelled := old(State()).pending.Values;
      var continuations := CancelPending();
      assert forall a | a in awaiters :: a in continuations <==> a in cancelled;
      ResumeAll(continuations);
    }

    // The part of cancelAll after the lock has been released.
    method ResumeAll(continuations: seq<Awaiter>)
      requires forall i, j | 0 <= i < j < |continuations| :: continuations[i] != continuations[j]
      requires forall a | a in continuations :: a in awaiters
      modifies awaiters
      ensures unchanged(this)
      ensures forall a | a in awaiters ::
                a.State() == if a in continuations then Resumed(old(a.State())) else old(a.State())
    {
      for i := 0 to |continuations|
        invariant unchanged(this)
        invariant forall a | a in awaiters ::
                    a.State() == if a in continuations[..i] then Resumed(old(a.State())) else old(a.State())
      {
        assert continuations[i] !in continuations[..i];
        continuations[i].Resume();
        assert continuations[..i + 1] == continuations[..i] + [continuations[i]];
      }
      assert continuations[..|continuations|] == continuations;
    }

    // The part of cancelAll under the lock.
    method CancelPending() returns (continuations: seq<Awaiter>)
      requires PendingKinds()
      modifies this`pendingWaits, this`bufferedMessages, awaiters
      ensures pendingWaits == map[] && bufferedMessages == map[]
      ensures forall a :: a in continuations <==> a in old(pendingWaits.Values)
      ensures forall i, j | 0 <= i < j < |continuations| :: continuations[i] != continuations[j]
      ensures forall a | a in continuations :: a in awaiters
      ensures forall a | a in awaiters ::
                a.State() == if a in continuations then old(a.State()).(cancelled := true) else old(a.State())
    {
      continuations := [];
      var kinds := pendingWaits.Keys;
      while kinds != {}
        invariant kinds <= pendingWaits.Keys
        invariant unchanged(this)
        invariant forall i, j | 0 <= i < j < |continuations| :: continuations[i] != continuations[j]
        invariant forall a | a in continuations ::
                    a.kind in pendingWaits && pendingWaits[a.kind] == a && a.kind !in kinds
        invariant forall k | k in pendingWaits :: k in kinds || pendingWaits[k] in continuations
        invariant forall a | a in awaiters ::
                    a.State() == if a in continuations then old(a.State()).(cancelled := true) else old(a.State())
        decreases kinds
      {
        var kind :| kind in kinds;
        var a := pendingWaits[kind];
        a.cancelled := true;
        continuations := continuations + [a];
        kinds := kinds - {kind};
      }
      pendingWaits, bufferedMessages := map[], map[];
    }
  }

  ghost function Resumed(wait: Wait): Wait {
    wait.(resumes := wait.resumes + 1)
  }
}
