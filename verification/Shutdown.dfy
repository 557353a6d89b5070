/** `stop` returns: a ranking argument over the finite handler trees. */
module Shutdown {
  import opened IoPool

  // ------------------------------------------------------------------ the measure

  /** The steps a queued handler still costs: one to take it, one to finish it, and for each
      child one to post it besides what the child costs. */
  ghost function Cost(h: Handler): nat
    decreases h, 0
  {
    2 + |h.posts| + Costs(h.posts)
  }

  ghost function Costs(hs: seq<Handler>): nat
    decreases hs, 1
  {
    if hs == [] then 0 else Cost(hs[0]) + Costs(hs[1..])
  }

  lemma {:induction false} CostsAppend(hs: seq<Handler>, h: Handler)
    ensures Costs(hs + [h]) == Costs(hs) + Cost(h)
    decreases |hs|
  {
    if hs == [] {
      assert hs + [h] == [h] && [h][1..] == [];
    } else {
      assert (hs + [h])[1..] == hs[1..] + [h];
      CostsAppend(hs[1..], h);
    }
  }

  ghost function DoingCost(doing: Doing): nat {
    match doing
    case Left => 0
    case Waiting => 1
    case Busy(h, done) =>
      if done <= |h.posts| then 2 + |h.posts| - done + Costs(h.posts[done..]) else 0
  }

  ghost function QueueCosts(s: Pool): seq<nat> {
    seq(|s.contexts|, i requires 0 <= i < |s.contexts| => Costs(s.contexts[i].queue))
  }

  ghost function WorkerCosts(s: Pool): seq<nat> {
    seq(|s.workers|, i requires 0 <= i < |s.workers| => DoingCost(s.workers[i].doing))
  }

  ghost function StopCost(s: Pool): int {
    match s.phase
    case Serving => |s.contexts| + |s.workers| + 3 + (if s.halts then 1 else 0)
    case Releasing(g) => |s.contexts| - g + |s.workers| + 2 + (if s.halts then 1 else 0)
    case Joining(t) => |s.workers| - t + 1 + (if s.halts then 1 else 0)
    case Halting => 1
    case Returned => 0
  }

  /** Pending tree sizes, live workers and what `stop` has left to do. */
  ghost function Measure(s: Pool): int {
    Total(QueueCosts(s)) + Total(WorkerCosts(s)) + StopCost(s)
  }

  /** The queue of context `c` and the state of worker `w` change; nothing else does. */
  lemma MeasureChange(s: Pool, n: Pool, c: nat, w: nat)
    requires c < |s.contexts| == |n.contexts| && w < |s.workers| == |n.workers|
    requires n.phase == s.phase && n.halts == s.halts
    requires forall i :: 0 <= i < |s.contexts| && i != c ==> n.contexts[i].queue == s.contexts[i].queue
    requires forall i :: 0 <= i < |s.workers| && i != w ==> n.workers[i] == s.workers[i]
    ensures Measure(n) - Measure(s)
         == Costs(n.contexts[c].queue) - Costs(s.contexts[c].queue)
            + DoingCost(n.workers[w].doing) - DoingCost(s.workers[w].doing)
  {
    assert QueueCosts(n) == QueueCosts(s)[c := Costs(n.contexts[c].queue)];
    TotalUpdate(QueueCosts(s), c, Costs(n.contexts[c].queue));
    assert WorkerCosts(n) == WorkerCosts(s)[w := DoingCost(n.workers[w].doing)];
    TotalUpdate(WorkerCosts(s), w, DoingCost(n.workers[w].doing));
  }

  lemma TurnCostsOne(s: Pool, w: nat)
    requires WellAimed(s) && TurnStep(s, w).Some?
    ensures Measure(TurnStep(s, w).value) == Measure(s) - 1
  {
    var n := TurnStep(s, w).value;
    var home := s.workers[w].home;
    match s.workers[w].doing
    case Waiting =>
      MeasureChange(s, n, home, w);
      if !s.contexts[home].stopped {
        var h := s.contexts[home].queue[0];
        assert h.posts[0..] == h.posts;
      }
    case Busy(h, done) =>
      if done < |h.posts| {
        var child := h.posts[done];
        MeasureChange(s, n, child.target, w);
        CostsAppend(s.contexts[child.target].queue, child);
        assert h.posts[done..][1..] == h.posts[done + 1..];
      } else {
        MeasureChange(s, n, home, w);
        assert h.posts[done..] == [];
      }
  }

  lemma StopCostsOne(s: Pool)
    requires Inv(s) && StopStep(s).Some?
    ensures Measure(StopStep(s).value) == Measure(s) - 1
  {
    var n := StopStep(s).value;
    StopMovesNoHandler(s);
    assert QueueCosts(n) == QueueCosts(s);
    assert WorkerCosts(n) == WorkerCosts(s);
  }

  lemma StepCostsOne(s: Pool, e: Event)
    requires Inv(s) && Step(s, e).Some? && !e.Post?
    ensures 0 <= Measure(Step(s, e).value) == Measure(s) - 1
  {
    StepKeepsInv(s, e);
    match e
    case Turn(w) => TurnCostsOne(s, w);
    case Stopper => StopCostsOne(s);
  }

  /** With no outside posts, every schedule of workers and `stop` spends the measure one unit a
      step: no interleaving can run forever, and all that end in the same place are equally long. */
  lemma {:induction false} RunSpendsMeasure(s: Pool, run: seq<Event>)
    requires Inv(s) && Run(s, run).Some? && NoPosts(run)
    ensures |run| + Measure(Run(s, run).value) == Measure(s)
    ensures |run| <= Measure(s)
    decreases |run|
  {
    if run == [] {
    } else {
      var n := Step(s, run[0]).value;
      assert run[0] in run;
      forall e | e in run[1..]
        ensures !e.Post?
      {
        assert e in run;
      }
      StepKeepsInv(s, run[0]);
      StepCostsOne(s, run[0]);
      RunSpendsMeasure(n, run[1..]);
    }
  }

  // ------------------------------------------------------------------ no deadlock

  lemma BusyCanTurn(s: Pool, w: nat)
    requires WellAimed(s) && w < |s.workers| && s.workers[w].doing.Busy?
    ensures TurnStep(s, w).Some?
  {
    var h := s.workers[w].doing.handler;
    var done := s.workers[w].doing.done;
    assert Aimed(h, |s.contexts|);
    if done < |h.posts| {
      assert Aimed(h.posts[done], |s.contexts|);
    }
  }

  /** Some worker or the stopping thread can always move until `stop` has returned. */
  lemma SomeStepPossible(s: Pool) returns (e: Event)
    requires Inv(s) && s.phase != Returned
    ensures !e.Post? && Step(s, e).Some?
    ensures s.phase.Joining? && s.phase.thread < |s.workers| && !s.workers[s.phase.thread].doing.Left? ==> e.Turn?
  {
    e := Stopper;
    if s.phase.Joining? && s.phase.thread < |s.workers| {
      var t := s.phase.thread;
      var home := s.workers[t].home;
      BusyAtZero(s.workers, home);
      if s.workers[t].doing.Busy? {
        BusyCanTurn(s, t);
        e := Turn(t);
      } else if s.workers[t].doing.Waiting? {
        if s.contexts[home].stopped || s.contexts[home].queue != [] {
          e := Turn(t);
        } else {
          assert BusyAt(s.workers, home) > 0;
          var v: nat :| v < |s.workers| && IsBusy(s.workers[v], home);
          BusyCanTurn(s, v);
          e := Turn(v);
        }
      }
    }
  }

  /** `Stuck`: nothing inside the pool can move. */
  ghost predicate Stuck(s: Pool) {
    forall e: Event :: !e.Post? ==> Step(s, e).None?
  }

  /** Every schedule that runs until nothing inside can move ends with `stop` returned; by
      `RunSpendsMeasure` every schedule does get there. */
  lemma StopReturns(s: Pool, run: seq<Event>)
    requires Inv(s) && Run(s, run).Some? && NoPosts(run)
    ensures Stuck(Run(s, run).value) <==> Run(s, run).value.phase == Returned
    ensures Run(s, run).value.phase == Returned ==>
              |run| == Measure(s) - Total(QueueCosts(Run(s, run).value))
  {
    RunKeepsInv(s, run);
    RunSpendsMeasure(s, run);
    var end := Run(s, run).value;
    if end.phase != Returned {
      var e := SomeStepPossible(end);
    } else {
      var costs := WorkerCosts(end);
      TotalZero(costs);
    }
  }

  /** A way to finish always exists. */
  lemma {:induction false} RunToReturn(s: Pool) returns (run: seq<Event>)
    requires Inv(s)
    ensures NoPosts(run) && Run(s, run).Some? && Run(s, run).value.phase == Returned
    decreases Measure(s)
  {
    if s.phase == Returned {
      run := [];
    } else {
      var e := SomeStepPossible(s);
      var n := Step(s, e).value;
      StepKeepsInv(s, e);
      StepCostsOne(s, e);
      var more := RunToReturn(n);
      run := [e] + more;
      assert run[1..] == more;
    }
  }

  // ------------------------------------------------------------------ guards keep workers alive

  /** Until `stop` is called no worker leaves `run`, however empty its queue; once `stop` has
      returned every worker has left and every context is stopped. */
  lemma WorkersLiveUntilStop(s0: Pool, run: seq<Event>)
    requires Initial(s0) && Run(s0, run).Some?
    ensures var end := Run(s0, run).value;
            && (end.phase == Serving ==>
                  forall w: nat :: w < |end.workers| ==> !end.workers[w].doing.Left?)
            && (end.phase == Returned ==>
                  && (forall w: nat :: w < |end.workers| ==> end.workers[w].doing.Left?)
                  && (forall c: nat :: c < |end.contexts| ==> end.contexts[c].stopped))
  {
    InitialInv(s0);
    RunKeepsInv(s0, run);
    var end := Run(s0, run).value;
    if end.phase == Returned {
      forall c: nat | c < |end.contexts|
        ensures end.contexts[c].stopped
      {
        assert HasWorker(end.workers, c);
      }
    }
  }

  /** A pool needs a worker: with none, as hardware_concurrency() may have it, no handler is ever
      run by any interleaving, and `stop` returns without ever having to wait. */
  lemma {:induction false} WithoutWorkersNothingRuns(s: Pool, run: seq<Event>)
    requires s.workers == [] && Run(s, run).Some?
    ensures Run(s, run).value.workers == [] && |Run(s, run).value.contexts| == |s.contexts|
    ensures forall c: nat :: c < |s.contexts| ==>
              && Run(s, run).value.contexts[c].started == s.contexts[c].started
              && Run(s, run).value.contexts[c].finished == s.contexts[c].finished
    ensures Run(s, run).value.phase == Returned <==> StopStep(Run(s, run).value).None?
    decreases |run|
  {
    if run == [] {
    } else {
      StepKeepsHomes(s, run[0]);
      WithoutWorkersNothingRuns(Step(s, run[0]).value, run[1..]);
    }
  }
}
