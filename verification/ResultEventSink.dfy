// The queue between the controller, which publishes result lines, and the
// worker, which writes them to a pipe that may not be there yet.
module EventSink {

  // A line the worker is done with: written, or given up during shutdown.
  datatype Fate = Fate(line: string, written: bool)

  function Lines(fates: seq<Fate>): seq<string> {
    if fates == [] then [] else Lines(fates[..|fates| - 1]) + [fates[|fates| - 1].line]
  }

  function Kept(fates: seq<Fate>): seq<string> {
    if fates == [] then []
    else Kept(fates[..|fates| - 1]) + if fates[|fates| - 1].written then [fates[|fates| - 1].line] else []
  }

  ghost predicate AllWritten(fates: seq<Fate>) {
    forall i | 0 <= i < |fates| :: fates[i].written
  }

  // One line given up is one line short.
  lemma {:induction false} KeptAll(fates: seq<Fate>)
    ensures Kept(fates) == Lines(fates) <==> AllWritten(fates)
    ensures |Kept(fates)| <= |Lines(fates)| && (|Kept(fates)| == |Lines(fates)| <==> AllWritten(fates))
  {
    if fates != [] {
      KeptAll(fates[..|fates| - 1]);
    }
  }

  lemma {:induction false} WrittenLength(fates: seq<Fate>)
    ensures AllWritten(fates) ==> |Kept(fates)| == |fates|
    ensures |Outcomes(fates)| == |fates|
  {
    if fates != [] {
      WrittenLength(fates[..|fates| - 1]);
    }
  }

  lemma LastFate(fates: seq<Fate>)
    requires fates != []
    ensures var front, last := fates[..|fates| - 1], fates[|fates| - 1];
            && Lines(fates) == Lines(front) + [last.line]
            && Kept(fates) == Kept(front) + (if last.written then [last.line] else [])
            && (AllWritten(fates) <==> AllWritten(front) && last.written)
  {
  }

  // Every line of a queue tried once.
  function Tries(lines: seq<string>, writes: nat -> bool): (fates: seq<Fate>)
    ensures |fates| == |lines|
  {
    if lines == [] then []
    else Tries(lines[..|lines| - 1], writes) + [Fate(lines[|lines| - 1], writes(|lines| - 1))]
  }

  lemma {:induction false} AllTried(fates: seq<Fate>, lines: seq<string>, writes: nat -> bool)
    requires AllWritten(fates)
    ensures AllWritten(fates + Tries(lines, writes)) <==> forall i | 0 <= i < |lines| :: writes(i)
  {
    if lines == [] {
      assert fates + [] == fates;
    } else {
      var n := |lines| - 1;
      AllTried(fates, lines[..n], writes);
      var front, last := fates + Tries(lines[..n], writes), Fate(lines[n], writes(n));
      assert fates + Tries(lines, writes) == front + [last];
      assert (front + [last])[|front|] == last && (front + [last])[..|front|] == front;
    }
  }

  ghost predicate Subsequence(a: seq<string>, b: seq<string>)
    decreases |b|
  {
    a == [] ||
    (b != [] && (Subsequence(a, b[..|b| - 1]) ||
                 (a[|a| - 1] == b[|b| - 1] && Subsequence(a[..|a| - 1], b[..|b| - 1]))))
  }

  // What reached the pipe is always a subsequence of what was published, also
  // with lines still queued.
  lemma {:induction false} WrittenIsSubsequence(fates: seq<Fate>, queue: seq<string>)
    ensures Subsequence(Kept(fates), Lines(fates) + queue)
    decreases |queue|, |fates|
  {
    var all := Lines(fates) + queue;
    if queue != [] {
      WrittenIsSubsequence(fates, queue[..|queue| - 1]);
      assert all[..|all| - 1] == Lines(fates) + queue[..|queue| - 1];
    } else if fates != [] {
      var front := fates[..|fates| - 1];
      WrittenIsSubsequence(front, []);
      assert all == Lines(fates) && all[..|all| - 1] == Lines(front) == Lines(front) + [];
      if fates[|fates| - 1].written {
        assert Kept(fates)[..|Kept(fates)| - 1] == Kept(front);
      } else {
        assert Kept(fates) == Kept(front);
      }
    }
  }

  // What the other threads do around one round of the worker, and how its
  // write goes: lines pushed and a stop before it takes a line, and again while
  // it is writing. A publisher tests the running flag some time before it
  // pushes, so lines may also come after the stop.
  datatype Round = Round(
    before: seq<string>, stopBefore: bool,
    writeOk: bool,
    during: seq<string>, stopDuring: bool)

  // ---------- The worker's progress ----------

  // For each line taken off the queue for good whether it was written, the
  // lines pushed until the worker left, if it did, and whether the sink is
  // still running. Only the number of queued lines matters.
  datatype Plan = Plan(decided: seq<bool>, pushed: seq<string>, running: bool, exited: bool)

  function Later(decided: seq<bool>, pushed: seq<string>, plan: Plan): Plan {
    plan.(decided := decided + plan.decided, pushed := pushed + plan.pushed)
  }

  // A round that finds a line decides it, unless its write fails while the sink
  // is running; one that finds none leaves if the sink has been stopped.
  function WorkPlan(queued: nat, running: bool, rounds: seq<Round>): Plan
    decreases |rounds|
  {
    if rounds == [] then Plan([], [], running, false)
    else
      var round := rounds[0];
      var waiting, on := queued + |round.before|, running && !round.stopBefore;
      if waiting == 0 then
        if on then WorkPlan(0, true, rounds[1..]) else Plan([], [], false, true)
      else
        var still, pushed := on && !round.stopDuring, round.before + round.during;
        if round.writeOk || !still
        then Later([round.writeOk], pushed, WorkPlan(waiting - 1 + |round.during|, still, rounds[1..]))
        else Later([], pushed, WorkPlan(waiting + |round.during|, still, rounds[1..]))
  }

  ghost predicate NoStop(rounds: seq<Round>) {
    forall i | 0 <= i < |rounds| :: !rounds[i].stopBefore && !rounds[i].stopDuring
  }

  ghost predicate AllOk(rounds: seq<Round>) {
    forall i | 0 <= i < |rounds| :: rounds[i].writeOk
  }

  // Every round finds a line, as one does that has waited for it.
  ghost predicate AllFind(queued: nat, rounds: seq<Round>)
    decreases |rounds|
  {
    rounds == [] ||
    (queued + |rounds[0].before| > 0 &&
     AllFind(queued + |rounds[0].before| - 1 + |rounds[0].during|, rounds[1..]))
  }

  function AllPushed(rounds: seq<Round>): seq<string> {
    if rounds == [] then [] else rounds[0].before + rounds[0].during + AllPushed(rounds[1..])
  }

  function TotalPushed(rounds: seq<Round>): nat {
    if rounds == [] then 0 else |rounds[0].before| + |rounds[0].during| + TotalPushed(rounds[1..])
  }

  // Nothing is given up or left while the sink runs, and with successful writes
  // every round writes a line until those queued at the start are written.
  lemma {:induction false} RunningWrites(queued: nat, rounds: seq<Round>)
    requires NoStop(rounds)
    ensures var plan := WorkPlan(queued, true, rounds);
            && plan.running && !plan.exited && (forall i | 0 <= i < |plan.decided| :: plan.decided[i])
            && |plan.decided| <= queued + |plan.pushed|
            && (AllOk(rounds) ==> |plan.decided| >= if queued <= |rounds| then queued else |rounds|)
    decreases |rounds|
  {
    if rounds != [] {
      var round := rounds[0];
      assert !round.stopBefore && !round.stopDuring;
      var waiting := queued + |round.before|;
      if waiting == 0 {
        RunningWrites(0, rounds[1..]);
      } else if round.writeOk {
        RunningWrites(waiting - 1 + |round.during|, rounds[1..]);
      } else {
        RunningWrites(waiting + |round.during|, rounds[1..]);
      }
    }
  }

  // With successful writes and no stop, each round that finds a line writes one,
  // whatever is pushed meanwhile.
  lemma {:induction false} EachWrites(queued: nat, rounds: seq<Round>)
    requires NoStop(rounds) && AllOk(rounds) && AllFind(queued, rounds)
    ensures WorkPlan(queued, true, rounds) == Plan(seq(|rounds|, _ => true), AllPushed(rounds), true, false)
    decreases |rounds|
  {
    if rounds != [] {
      assert rounds[0].writeOk && !rounds[0].stopBefore && !rounds[0].stopDuring;
      EachWrites(queued + |rounds[0].before| - 1 + |rounds[0].during|, rounds[1..]);
      assert [true] + seq(|rounds| - 1, _ => true) == seq(|rounds|, _ => true);
    }
  }

  // A worker that has written as many lines as were there before the last one's
  // pushes has exactly these left.
  lemma {:induction false} CaughtUp(start: seq<string>, written: seq<string>, queue: seq<string>, rounds: seq<Round>)
    requires rounds != [] && written + queue == start + AllPushed(rounds)
    requires |written| + |rounds[|rounds| - 1].during| == |start + AllPushed(rounds)|
    ensures queue == rounds[|rounds| - 1].during
    decreases |rounds|
  {
    var first, rest := rounds[0].before + rounds[0].during, AllPushed(rounds[1..]);
    assert start + AllPushed(rounds) == start + first + rest;
    if |rounds| == 1 {
      assert rest == [] && start + first + rest == start + rounds[0].before + rounds[0].during;
      LastPart(written, queue, start + rounds[0].before, rounds[0].during);
    } else {
      CaughtUp(start + first, written, queue, rounds[1..]);
    }
  }

  lemma LastPart(a: seq<string>, b: seq<string>, c: seq<string>, d: seq<string>)
    requires a + b == c + d && |a| == |c|
    ensures b == d
  {
    assert (a + b)[|a|..] == b && (c + d)[|c|..] == d;
  }

  // A worker of a stopped sink leaves after enough rounds, with every line
  // decided.
  lemma {:induction false} StoppedLeaves(queued: nat, rounds: seq<Round>)
    requires |rounds| > queued + TotalPushed(rounds)
    ensures var plan := WorkPlan(queued, false, rounds);
            plan.exited && !plan.running && |plan.decided| == queued + |plan.pushed|
    decreases |rounds|
  {
    var round := rounds[0];
    var waiting := queued + |round.before|;
    if waiting > 0 {
      StoppedLeaves(waiting - 1 + |round.during|, rounds[1..]);
    }
  }

  lemma LaterNothing(plan: Plan)
    ensures Later([], [], plan) == plan
  {
  }

  lemma LaterTwice(a: seq<bool>, p: seq<string>, b: seq<bool>, q: seq<string>, plan: Plan)
    ensures Later(a, p, Later(b, q, plan)) == Later(a + b, p + q, plan)
  {
    assert a + (b + plan.decided) == a + b + plan.decided && p + (q + plan.pushed) == p + q + plan.pushed;
  }

  lemma LaterEnd(decided: seq<bool>, pushed: seq<string>, running: bool, exited: bool)
    ensures Later(decided, pushed, Plan([], [], running, exited)) == Plan(decided, pushed, running, exited)
  {
  }

  lemma PlanDone(queued: nat, running: bool)
    ensures WorkPlan(queued, running, []) == Plan([], [], running, false)
  {
  }

  // The plan from round i on.
  lemma PlanStep(queued: nat, running: bool, rounds: seq<Round>, i: nat)
    requires i < |rounds|
    ensures var round, rest := rounds[i], rounds[i + 1..];
            var waiting, on := queued + |round.before|, running && !round.stopBefore;
            var still, pushed := on && !round.stopDuring, round.before + round.during;
            WorkPlan(queued, running, rounds[i..])
            == if waiting == 0 then (if on then WorkPlan(0, true, rest) else Plan([], [], false, true))
               else if round.writeOk || !still
               then Later([round.writeOk], pushed, WorkPlan(waiting - 1 + |round.during|, still, rest))
               else Later([], pushed, WorkPlan(waiting + |round.during|, still, rest))
  {
    hide Later;
    assert rounds[i..][0] == rounds[i] && rounds[i..][1..] == rounds[i + 1..];
  }

  lemma OutcomesLast(fates: seq<Fate>, fate: Fate)
    ensures Outcomes(fates + [fate]) == Outcomes(fates) + [fate.written]
  {
  }

  function Outcomes(fates: seq<Fate>): seq<bool> {
    seq(|fates|, i requires 0 <= i < |fates| => fates[i].written)
  }

  class ResultEventSink {
    var queue: seq<string>
    var running: bool
    var warningLogged: bool
    // The history of a run: every line pushed, everything that reached the pipe,
    // and the fate of each line taken off the queue for good.
    ghost var published: seq<string>
    ghost var written: seq<string>
    ghost var fates: seq<Fate>

    // Nothing is lost, doubled or reordered, and nothing is given up while the
    // sink is running.
    ghost predicate Valid()
      reads this
    {
      && Lines(fates) + queue == published
      && written == Kept(fates)
      && (running ==> AllWritten(fates))
    }

    constructor ()
      ensures Valid() && !running && queue == published == written == [] && fates == []
    {
      queue, running, warningLogged := [], false, false;
      published, written, fates := [], [], [];
    }

    // Stops an earlier run first; writes says how its last writes go. A line
    // pushed after an earlier stop had cleared the queue is still there, and
    // becomes the first of the new run.
    method Start(name: string, writes: nat -> bool)
      requires Valid()
      modifies this
      ensures Valid() && running == (name != "") && written == [] && fates == []
      ensures queue == published == if old(running) then [] else old(queue)
    {
      Stop(writes, []);
      published, written, fates := queue, [], [];
      if name == "" {
        return;
      }
      warningLogged := false;
      running := true;
    }

    // Joins the worker, which tries every line still queued once, and clears the
    // queue. late are the lines pushed in between: they are given up.
    method Stop(writes: nat -> bool, late: seq<string>)
      requires Valid()
      modifies this
      ensures Valid() && !running
      ensures old(running) ==> queue == [] && published == old(published) + late && Lines(fates) == published
      ensures old(running) && late == [] ==> fates == old(fates) + Tries(old(queue), writes)
      ensures old(running) && late == [] ==>
                && (AllWritten(fates) <==> forall i | 0 <= i < |old(queue)| :: writes(i))
                && (written == published <==> forall i | 0 <= i < |old(queue)| :: writes(i))
      ensures !old(running) ==>
                queue == old(queue) && published == old(published) && written == old(written) && fates == old(fates)
    {
      hide Lines, Kept, AllWritten, Tries;
      if !running {
        return;
      }
      running := false;
      AllTried(fates, queue, writes);
      TryEach(writes);
      PushAll(late);
      assert [] + late == late;
      KeptAll(fates);
      Clear();
    }

    // The last rounds of the worker: every line still queued is tried once.
    method TryEach(writes: nat -> bool)
      requires Valid() && !running
      modifies this
      ensures Valid() && !running && queue == [] && published == old(published)
      ensures fates == old(fates) + Tries(old(queue), writes)
    {
      hide Lines, Kept, AllWritten;
      ghost var lines, before := queue, fates;
      assert lines[0..] == lines && lines[..0] == [] && before + [] == before;
      var tried := 0;
      while queue != []
        invariant Valid() && !running && published == old(published)
        invariant tried <= |lines| && queue == lines[tried..] && fates == before + Tries(lines[..tried], writes)
        decreases |queue|
      {
        WriteFront(Round([], false, writes(tried), [], false));
        TryNext(lines, tried, writes);
        ghost var done, last := Tries(lines[..tried], writes), [Fate(lines[tried], writes(tried))];
        assert before + done + last == before + (done + last);
        tried := tried + 1;
      }
      assert lines[..tried] == lines;
    }

    // What stop does with lines nobody will write any more.
    method Clear()
      requires Valid() && !running
      modifies this`queue, this`fates
      ensures Valid() && queue == [] && Lines(fates) == published
      ensures old(queue) == [] ==> fates == old(fates)
    {
      hide Lines, Kept;
      ghost var i := 0;
      ghost var lost := queue;
      assert lost[0..] == lost;
      while i < |lost|
        invariant i <= |lost|
        invariant Lines(fates) + lost[i..] == published && written == Kept(fates)
        invariant lost == [] ==> fates == old(fates)
      {
        assert lost[i..] == [lost[i]] + lost[i + 1..];
        assert Lines(fates) + ([lost[i]] + lost[i + 1..]) == Lines(fates) + [lost[i]] + lost[i + 1..];
        GivenUp(fates, lost[i]);
        fates := fates + [Fate(lost[i], false)];
        i := i + 1;
      }
      queue := [];
      assert Lines(fates) + [] == Lines(fates);
    }

    // The first half of publish.
    predicate Accepts()
      reads this
    {
      running
    }

    // The second half: by now the sink may have been stopped.
    method Push(line: string)
      requires Valid()
      modifies this`queue, this`published
      ensures Valid() && queue == old(queue) + [line] && published == old(published) + [line]
    {
      queue := queue + [line];
      published := published + [line];
    }

    method Publish(line: string)
      requires Valid()
      modifies this`queue, this`published
      ensures Valid()
      ensures queue == (if running then old(queue) + [line] else old(queue))
      ensures published == (if running then old(published) + [line] else old(published))
    {
      if !Accepts() {
        return;
      }
      Push(line);
    }

    method PushAll(lines: seq<string>)
      requires Valid()
      modifies this`queue, this`published
      ensures Valid() && queue == old(queue) + lines && published == old(published) + lines
    {
      hide Lines, Kept, AllWritten;
      for i := 0 to |lines|
        invariant Valid() && queue == old(queue) + lines[..i] && published == old(published) + lines[..i]
      {
        Push(lines[i]);
        assert lines[..i + 1] == lines[..i] + [lines[i]];
      }
      assert lines[..|lines|] == lines;
    }

    // The worker, for as many rounds as the schedule lasts; exited means that
    // it left its loop.
    method WorkerLoop(rounds: seq<Round>) returns (exited: bool)
      requires Valid()
      modifies this
      ensures Valid()
      ensures running ==> written + queue == published && !exited
      ensures exited ==> !running && queue == [] && Lines(fates) == published
      ensures old(written) <= written && old(published) <= published
      ensures var plan := WorkPlan(|old(queue)|, old(running), rounds);
              && exited == plan.exited && running == plan.running
              && published == old(published) + plan.pushed
              && Outcomes(fates) == Outcomes(old(fates)) + plan.decided
      ensures old(running) && NoStop(rounds) && AllOk(rounds) && AllFind(|old(queue)|, rounds) ==>
                running && |written| == |old(written)| + |rounds| &&
                published == old(published) + AllPushed(rounds)
    {
      hide Lines, Kept, AllWritten, WorkPlan, Outcomes, Later, AllFind, AllPushed, NoStop, AllOk;
      WrittenLength(fates);
      exited := false;
      var i := 0;
      ghost var plan := WorkPlan(|queue|, running, rounds);
      ghost var decided: seq<bool>, pushed: seq<string> := [], [];
      LaterNothing(plan);
      assert rounds[0..] == rounds && Outcomes(fates) + [] == Outcomes(fates) && published + [] == published;
      while i < |rounds|
        invariant Valid() && !exited && i <= |rounds|
        invariant old(written) <= written
        invariant published == old(published) + pushed && Outcomes(fates) == Outcomes(old(fates)) + decided
        invariant plan == Later(decided, pushed, WorkPlan(|queue|, running, rounds[i..]))
        decreases |rounds| - i
      {
        var round := rounds[i];
        PlanStep(|queue|, running, rounds, i);
        i := i + 1;
        exited := OneRound(round);
        if exited {
          LaterEnd(decided, pushed, false, true);
          break;
        }
        ghost var now := Outcomes(fates)[|Outcomes(old(fates))| + |decided|..];
        ghost var more := published[|old(published)| + |pushed|..];
        LaterTwice(decided, pushed, now, more, WorkPlan(|queue|, running, rounds[i..]));
        decided, pushed := decided + now, pushed + more;
        LaterNothing(WorkPlan(|queue|, running, rounds[i..]));
      }
      if !exited {
        assert rounds[i..] == [];
        PlanDone(|queue|, running);
        LaterEnd(decided, pushed, running, false);
      }
      if running {
        KeptAll(fates);
      }
      WrittenLength(fates);
      if old(running) && NoStop(rounds) && AllOk(rounds) && AllFind(|old(queue)|, rounds) {
        EachWrites(|old(queue)|, rounds);
      }
    }

    // One round of the loop.
    method OneRound(round: Round) returns (exited: bool)
      requires Valid()
      modifies this
      ensures Valid() && old(written) <= written
      ensures exited ==> Lines(fates) == published
      ensures var waiting, on := |old(queue)| + |round.before|, old(running) && !round.stopBefore;
              var still := on && !round.stopDuring;
              if waiting == 0 then
                queue == [] && running == on && exited == !on &&
                published == old(published) && Outcomes(fates) == Outcomes(old(fates))
              else
                && running == still && !exited && published == old(published) + (round.before + round.during)
                && (if round.writeOk || !still
                    then |queue| == waiting - 1 + |round.during| &&
                         Outcomes(fates) == Outcomes(old(fates)) + [round.writeOk]
                    else |queue| == waiting + |round.during| && Outcomes(fates) == Outcomes(old(fates)))
    {
      hide Lines, Kept, AllWritten, Outcomes;
      exited := false;
      PushAll(round.before);
      running := running && !round.stopBefore;
      if queue == [] {
        exited := !running;
        assert Lines(fates) + [] == Lines(fates) && published + [] == published;
      } else {
        WriteCounted(round);
        assert old(published) + round.before + round.during == old(published) + (round.before + round.during);
      }
    }

    method WriteCounted(round: Round)
      requires Valid() && queue != []
      modifies this
      ensures Valid() && old(written) <= written
      ensures running == (old(running) && !round.stopDuring) && published == old(published) + round.during
      ensures if round.writeOk || !running
              then |queue| == |old(queue)| - 1 + |round.during| &&
                   Outcomes(fates) == Outcomes(old(fates)) + [round.writeOk]
              else |queue| == |old(queue)| + |round.during| && Outcomes(fates) == Outcomes(old(fates))
    {
      hide ResultEventSink.Valid, Outcomes;
      OutcomesLast(fates, Fate(queue[0], round.writeOk));
      WriteFront(round);
    }

    // Take the front line, write it, and put it back if that failed while the
    // sink is still running.
    method WriteFront(round: Round)
      requires Valid() && queue != []
      modifies this
      ensures Valid()
      ensures written == (if round.writeOk then old(written) + [old(queue[0])] else old(written))
      ensures published == old(published) + round.during && running == (old(running) && !round.stopDuring)
      ensures queue == (if running && !round.writeOk then old(queue) else old(queue[1..])) + round.during
      ensures fates == if round.writeOk || !running then old(fates) + [Fate(old(queue[0]), round.writeOk)]
                       else old(fates)
    {
      hide Lines, Kept, AllWritten;
      var line := queue[0];
      queue := queue[1..];
      assert [line] + queue == old(queue);
      // The line is in flight: neither queued nor decided.
      InFlight(Lines(fates), line, queue, round.during);
      queue := queue + round.during;
      published := published + round.during;
      running := running && !round.stopDuring;
      if round.writeOk {
        Decide(line, true);
      } else {
        warningLogged := true;
        if running {
          assert Lines(fates) + ([line] + queue) == Lines(fates) + [line] + queue;
          queue := [line] + queue;
        } else {
          Decide(line, false);
        }
      }
    }

    ghost method Decide(line: string, ok: bool)
      requires Lines(fates) + [line] + queue == published && written == Kept(fates)
      requires running ==> AllWritten(fates) && ok
      modifies this`fates, this`written
      ensures Valid() && fates == old(fates) + [Fate(line, ok)]
      ensures written == if ok then old(written) + [line] else old(written)
    {
      fates := fates + [Fate(line, ok)];
      if ok {
        written := written + [line];
      }
      assert fates[..|fates| - 1] == old(fates);
    }
  }

  // A try takes a line off the queue, whatever comes of it.
  lemma {:induction false} TriedLines(fates: seq<Fate>, lines: seq<string>, writes: nat -> bool)
    ensures Lines(fates + Tries(lines, writes)) == Lines(fates) + lines
  {
    if lines == [] {
      assert fates + [] == fates;
    } else {
      var n := |lines| - 1;
      TriedLines(fates, lines[..n], writes);
      var front, last := fates + Tries(lines[..n], writes), Fate(lines[n], writes(n));
      assert fates + Tries(lines, writes) == front + [last];
      assert (front + [last])[..|front|] == front;
      assert Lines(fates) + lines[..n] + [lines[n]] == Lines(fates) + lines;
    }
  }

  lemma TryNext(lines: seq<string>, i: nat, writes: nat -> bool)
    requires i < |lines|
    ensures Tries(lines[..i + 1], writes) == Tries(lines[..i], writes) + [Fate(lines[i], writes(i))]
  {
    assert lines[..i + 1][..i] == lines[..i];
  }

  lemma GivenUp(fates: seq<Fate>, line: string)
    ensures Lines(fates + [Fate(line, false)]) == Lines(fates) + [line]
    ensures Kept(fates + [Fate(line, false)]) == Kept(fates)
  {
    assert (fates + [Fate(line, false)])[..|fates|] == fates;
  }

  lemma InFlight(done: seq<string>, line: string, rest: seq<string>, more: seq<string>)
    ensures done + ([line] + rest) == done + [line] + rest
    ensures done + [line] + (rest + more) == done + ([line] + rest) + more
  {
  }
}
