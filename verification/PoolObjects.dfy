/** The steps of `stop` that both pools share: release the guards, then join the threads. */
module PoolThreads {
  import opened Prelude
  import opened IoPool
  import Shutdown
  import Drain

  /** The pool as its constructor left it. */
  ghost function Origin(s: Pool): Pool {
    Pool(seq(|s.contexts|, _ => FreshContext()),
         seq(|s.workers|, w requires 0 <= w < |s.workers| => Worker(s.workers[w].home, Waiting)),
         Serving, s.halts)
  }

  /** A state that a pool can be in, and what has happened to it since it was constructed. */
  ghost predicate Reached(s: Pool, past: seq<Event>) {
    Initial(Origin(s)) && Run(Origin(s), past) == Some(s)
  }

  lemma ReachedInv(s: Pool, past: seq<Event>)
    requires Reached(s, past)
    ensures Inv(s)
  {
    InitialInv(Origin(s));
    RunKeepsInv(Origin(s), past);
  }

  lemma ReachedAfter(s: Pool, past: seq<Event>, run: seq<Event>)
    requires Reached(s, past) && Run(s, run).Some?
    ensures Reached(Run(s, run).value, past + run) && Origin(Run(s, run).value) == Origin(s)
  {
    RunConcat(Origin(s), past, run);
    RunKeepsHomes(s, run);
    assert Origin(Run(s, run).value) == Origin(s);
  }

  /** Once `stop` has returned, a pool with one context has run everything ever posted, each
      handler with all its descendants, and has begun the handlers in posting order. */
  lemma ReachedDrains(s: Pool, past: seq<Event>, run: seq<Event>)
    requires Reached(s, past) && s.phase == Serving && |s.contexts| == 1
    requires NoPosts(run) && Run(s, run).Some? && Run(s, run).value.phase == Returned
    ensures |Run(s, run).value.contexts| == 1
    ensures Run(s, run).value.contexts[0].stopped && Run(s, run).value.contexts[0].queue == []
    ensures Drain.PostedTo(past + run, 0) == Drain.PostedTo(past, 0)
    ensures Drain.Beginnings(Origin(s), past + run, 0) == Drain.Arrivals(Origin(s), past + run, 0)
    ensures forall g: Handler ::
              multiset(Drain.Completions(Origin(s), past + run, 0))[g] == CopiesIn(Drain.PostedTo(past, 0), g)
  {
    var s0 := Origin(s);
    ReachedInv(s, past);
    RunKeepsInv(s, run);
    Drain.HaltingStopped(Run(s, run).value, 0);
    var n := Drain.SingleContextDrains(s0, past, run);
    Drain.NothingPosted(run, 0);
    Drain.PostedToConcat(past, run, 0);
    RunConcat(s0, past, run);
    Drain.BeginInPostingOrder(s0, past + run, 0);
    Drain.RunRecords(s0, past + run, 0);
    var posts := Drain.PostedTo(past, 0);
    assert posts + [] == posts && posts[..|posts|] == posts;
  }

  ghost function Below(n: nat): (below: set<nat>)
    ensures forall c: nat :: c in below <==> c < n
  {
    if n == 0 then {} else Below(n - 1) + {n - 1}
  }

  ghost function AllContexts(s: Pool): set<nat> {
    Below(|s.contexts|)
  }

  /** Once `stop` has returned, every handler has run as often as it occurs in the trees posted,
      less what comes of the queues. */
  lemma ReachedNothingLost(s: Pool, past: seq<Event>, g: Handler)
    requires Reached(s, past) && s.phase == Returned
    ensures Total(Drain.Held(s, AllContexts(s), g)) == Total(Drain.PostedCopies(|s.contexts|, past, g))
  {
    Drain.NothingLost(Origin(s), past, AllContexts(s), g);
  }

  /** Worker i is the only one of context i. */
  ghost predicate Paired(s: Pool) {
    |s.workers| == |s.contexts| && forall w: nat :: w < |s.workers| ==> s.workers[w].home == w
  }

  /** Then the handlers of a context have run in posting order, up to what it still holds. */
  lemma ReachedOrder(s: Pool, past: seq<Event>, c: nat)
    requires Reached(s, past) && Paired(s) && c < |s.contexts|
    ensures s.contexts[c].finished == Drain.Completions(Origin(s), past, c)
    ensures Drain.Arrivals(Origin(s), past, c) ==
              Drain.Completions(Origin(s), past, c)
              + (if s.workers[c].doing.Busy? then [s.workers[c].doing.handler] else [])
              + s.contexts[c].queue
  {
    Drain.RunRecords(Origin(s), past, c);
    Drain.PerContextOrder(Origin(s), past, c, c);
  }

  lemma RunAppend(s: Pool, run: seq<Event>, e: Event)
    requires Run(s, run).Some? && NoPosts(run) && !e.Post?
    ensures Run(s, run + [e]) == Step(Run(s, run).value, e)
    ensures NoPosts(run + [e])
  {
    RunConcat(s, run, [e]);
    var last := Run(s, run).value;
    assert [e][1..] == [];
    if Step(last, e).Some? {
      assert Run(Step(last, e).value, [e][1..]) == Step(last, e);
    }
  }

  lemma TurnKeepsLeft(s: Pool, w: nat)
    requires TurnStep(s, w).Some?
    ensures |TurnStep(s, w).value.workers| == |s.workers|
    ensures forall v: nat :: v < |s.workers| && s.workers[v].doing.Left? ==>
              TurnStep(s, w).value.workers[v].doing.Left?
  {
  }

  /** A turn continues a run, and undoes nothing that `stop` waits for. */
  lemma TurnAppend(s: Pool, run: seq<Event>, w: nat)
    requires Inv(s) && NoPosts(run) && Run(s, run).Some? && TurnStep(Run(s, run).value, w).Some?
    ensures var p, q := Run(s, run).value, TurnStep(Run(s, run).value, w).value;
            && NoPosts(run + [Turn(w)]) && Run(s, run + [Turn(w)]) == Some(q) && Inv(q)
            && q.phase == p.phase && q.halts == p.halts
            && |q.contexts| == |p.contexts| && |q.workers| == |p.workers|
            && Shutdown.Measure(q) < Shutdown.Measure(p) && Shutdown.Measure(q) >= 0
            && forall v: nat :: v < |p.workers| && p.workers[v].doing.Left? ==> q.workers[v].doing.Left?
  {
    var p := Run(s, run).value;
    RunKeepsInv(s, run);
    Shutdown.StepCostsOne(p, Turn(w));
    StepKeepsInv(p, Turn(w));
    StepKeepsHomes(p, Turn(w));
    TurnKeepsGuards(p, w);
    TurnKeepsLeft(p, w);
    RunAppend(s, run, Turn(w));
  }

  /** Any number of turns of any workers, in any order: what the workers may do between two steps
      of the thread that calls `stop`. */
  method LetWorkersTurn(p: Pool) returns (q: Pool, ghost run: seq<Event>)
    requires Inv(p)
    ensures NoPosts(run) && Run(p, run) == Some(q) && Inv(q) && q.phase == p.phase
    ensures |q.contexts| == |p.contexts| && |q.workers| == |p.workers| && q.halts == p.halts
    ensures forall v: nat :: v < |p.workers| && p.workers[v].doing.Left? ==> q.workers[v].doing.Left?
  {
    run := [];
    q := p;
    while *
      invariant NoPosts(run) && Run(p, run) == Some(q) && Inv(q) && q.phase == p.phase
      invariant |q.contexts| == |p.contexts| && |q.workers| == |p.workers| && q.halts == p.halts
      invariant forall v: nat :: v < |p.workers| && p.workers[v].doing.Left? ==> q.workers[v].doing.Left?
      decreases Shutdown.Measure(q)
    {
      if w: nat :| w < |q.workers| && TurnStep(q, w).Some? {
        TurnAppend(p, run, w);
        run := run + [Turn(w)];
        q := TurnStep(q, w).value;
      } else {
        break;
      }
    }
  }

  /** The next step of the thread that calls `stop`, after any turns of the workers. */
  method StepStopper(p: Pool) returns (q: Pool, ghost run: seq<Event>)
    requires Inv(p) && p.phase != Returned
    requires p.phase.Joining? ==> p.phase.thread == |p.workers| || p.workers[p.phase.thread].doing.Left?
    ensures NoPosts(run) && Run(p, run) == Some(q) && Inv(q)
    ensures StopStep(p).Some? && q.phase == StopStep(p).value.phase
    ensures |q.contexts| == |p.contexts| && |q.workers| == |p.workers| && q.halts == p.halts
  {
    var r;
    r, run := LetWorkersTurn(p);
    RunAppend(p, run, Stopper);
    StepKeepsInv(r, Stopper);
    StepKeepsHomes(r, Stopper);
    run := run + [Stopper];
    q := StopStep(r).value;
  }

  /** `stop` is called and releases the guards in order, waiting for no worker; the workers may
      take any turns in between. */
  method ReleaseGuards(p: Pool) returns (q: Pool, ghost run: seq<Event>)
    requires Inv(p) && p.phase == Serving
    ensures NoPosts(run) && Run(p, run) == Some(q) && Inv(q) && q.phase == Joining(0)
    ensures |q.contexts| == |p.contexts| && |q.workers| == |p.workers| && q.halts == p.halts
  {
    q, run := StepStopper(p);
    for g := 0 to |p.contexts|
      invariant NoPosts(run) && Run(p, run) == Some(q) && Inv(q) && q.phase == Releasing(g)
      invariant |q.contexts| == |p.contexts| && |q.workers| == |p.workers| && q.halts == p.halts
    {
      var r, release := StepStopper(q);
      RunConcat(p, run, release);
      run := run + release;
      q := r;
    }
    var r, last := StepStopper(q);
    RunConcat(p, run, last);
    run := run + last;
    q := r;
  }

  /** One `join`.  While the thread being joined has not left, some worker able to move does:
      any worker, in any order, so this stands for every schedule. */
  method AwaitThread(p: Pool, t: nat) returns (q: Pool, ghost run: seq<Event>)
    requires Inv(p) && p.phase == Joining(t) && t < |p.workers|
    ensures NoPosts(run) && Run(p, run) == Some(q) && Inv(q)
    ensures q.phase == Joining(t) && t < |q.workers| && q.workers[t].doing.Left?
    ensures |q.contexts| == |p.contexts| && |q.workers| == |p.workers| && q.halts == p.halts
  {
    run := [];
    q := p;
    while !q.workers[t].doing.Left?
      invariant NoPosts(run) && Run(p, run) == Some(q) && Inv(q) && q.phase == Joining(t)
      invariant |q.contexts| == |p.contexts| && |q.workers| == |p.workers| && q.halts == p.halts
      decreases Shutdown.Measure(q)
    {
      ghost var e := Shutdown.SomeStepPossible(q);
      assert TurnStep(q, e.worker).Some?;
      var w: nat :| w < |q.workers| && TurnStep(q, w).Some?;
      TurnAppend(p, run, w);
      run := run + [Turn(w)];
      q := TurnStep(q, w).value;
    }
  }

  /** Joins the threads in order. */
  method JoinThreads(p: Pool) returns (q: Pool, ghost run: seq<Event>)
    requires Inv(p) && p.phase == Joining(0)
    ensures NoPosts(run) && Run(p, run) == Some(q) && Inv(q) && q.phase == Joining(|q.workers|)
    ensures |q.contexts| == |p.contexts| && |q.workers| == |p.workers| && q.halts == p.halts
  {
    run := [];
    q := p;
    for t := 0 to |p.workers|
      invariant NoPosts(run) && Run(p, run) == Some(q) && Inv(q) && q.phase == Joining(t)
      invariant |q.contexts| == |p.contexts| && |q.workers| == |p.workers| && q.halts == p.halts
    {
      var r, wait := AwaitThread(q, t);
      RunConcat(p, run, wait);
      run := run + wait;
      var r', joined := StepStopper(r);
      RunConcat(p, run, joined);
      run := run + joined;
      q := r';
    }
  }
}

/** MAsioThreadPool: one context, many threads running it. */
module AsioThreadPool {
  import opened Prelude
  import opened IoPool
  import opened PoolThreads
  import Drain

  class MAsioThreadPool {
    var ioContext: Context   // its `guarded` field is the m_work member
    var threads: seq<Worker>
    var phase: Phase
    ghost var past: seq<Event>

    function AsPool(): Pool
      reads this
    {
      Pool([ioContext], threads, phase, true)
    }

    constructor (threadNum: nat)
      ensures phase == Serving && ioContext == FreshContext() && |threads| == threadNum
      ensures forall i :: 0 <= i < threadNum ==> threads[i] == Worker(0, Waiting)
      ensures past == [] && (threadNum > 0 ==> Reached(AsPool(), past))
    {
      ioContext := FreshContext();
      threads := [];
      phase := Serving;
      past := [];
      new;
      for i := 0 to threadNum
        invariant past == [] && phase == Serving && ioContext == FreshContext() && |threads| == i
        invariant forall j :: 0 <= j < i ==> threads[j] == Worker(0, Waiting)
      {
        threads := threads + [Worker(0, Waiting)];
      }
      if threadNum > 0 {
        assert threads[0].home == 0;
        assert HasWorker(threads, 0);
        assert Initial(AsPool());
        assert Origin(AsPool()) == AsPool();
      }
    }

    /** `stop`, with no outside posts once it has been called: it returns, every thread has left,
        the context is stopped and empty, every handler posted has begun in posting order, and
        every handler posted from outside, with every descendant, has run exactly as often as it
        occurs. */
    method Stop() returns (ghost run: seq<Event>)
      requires Reached(AsPool(), past) && phase == Serving
      modifies this
      ensures NoPosts(run) && Run(old(AsPool()), run) == Some(AsPool())
      ensures past == old(past) + run && Reached(AsPool(), past) && phase == Returned
      ensures forall i :: 0 <= i < |threads| ==> threads[i].doing == Left
      ensures ioContext.stopped && ioContext.queue == []
      ensures Drain.Beginnings(Origin(AsPool()), past, 0) == Drain.Arrivals(Origin(AsPool()), past, 0)
      ensures forall g: Handler ::
                multiset(Drain.Completions(Origin(AsPool()), past, 0))[g] == CopiesIn(Drain.PostedTo(past, 0), g)
    {
      ghost var start := AsPool();
      ReachedInv(start, past);
      var p, release := ReleaseGuards(AsPool());
      var q, join := JoinThreads(p);
      run := release + join;
      RunConcat(start, release, join);
      RunAppend(start, run, Stopper);
      StepKeepsInv(q, Stopper);
      run := run + [Stopper];
      q := StopStep(q).value;
      RunAppend(start, run, Stopper);
      StepKeepsInv(q, Stopper);
      run := run + [Stopper];
      q := StopStep(q).value;
      ioContext, threads, phase := q.contexts[0], q.workers, q.phase;
      assert [q.contexts[0]] == q.contexts;
      assert AsPool() == q;
      ReachedAfter(start, past, run);
      ReachedDrains(start, past, run);
      past := past + run;
    }
  }
}

/** MAsioIOServerPool: one thread per context, contexts handed out in turn. */
module AsioServerPool {
  import opened Prelude
  import opened IoPool
  import opened PoolThreads
  import opened RoundRobin
  import CrossPosts
  import Drain

  class MAsioIOServerPool {
    var iocontexts: seq<Context>   // the `guarded` fields are the m_works member
    var threads: seq<Worker>
    var iocontextIndex: nat
    var phase: Phase
    ghost var past: seq<Event>

    function AsPool(): Pool
      reads this
    {
      Pool(iocontexts, threads, phase, false)
    }

    ghost predicate Valid()
      reads this
    {
      Reached(AsPool(), past) && Paired(AsPool())
    }

    /** A context before anything guards or runs it. */
    static function BareContext(): Context {
      Context([], 0, false, false, [], [], [], [])
    }

    constructor (size: nat)
      ensures phase == Serving && |iocontexts| == |threads| == size && iocontextIndex == 0
      ensures forall i :: 0 <= i < size ==> iocontexts[i] == FreshContext() && threads[i] == Worker(i, Waiting)
      ensures past == [] && Valid()
    {
      iocontexts := seq(size, _ => BareContext());
      threads := [];
      iocontextIndex := 0;
      phase := Serving;
      past := [];
      new;
      for i := 0 to size
        invariant past == []
        invariant phase == Serving && |iocontexts| == size && |threads| == i && iocontextIndex == 0
        invariant forall j :: 0 <= j < i ==> iocontexts[j] == FreshContext() && threads[j] == Worker(j, Waiting)
        invariant forall j :: i <= j < size ==> iocontexts[j] == BareContext()
      {
        var x := iocontexts[i];
        iocontexts := iocontexts[i := x.(work := x.work + 1, guarded := true)];
        threads := threads + [Worker(i, Waiting)];
      }
      forall c: nat | c < size
        ensures HasWorker(threads, c)
      {
        assert threads[c].home == c;
      }
      assert Initial(AsPool());
      assert Origin(AsPool()) == AsPool();
    }

    /** Hands out the context under the cursor and moves the cursor on. */
    method GetIOContext() returns (context: nat)
      requires iocontextIndex < |iocontexts|
      modifies this`iocontextIndex
      ensures context == old(iocontextIndex) && iocontextIndex == Advance(|iocontexts|, context)
    {
      context := iocontextIndex;
      iocontextIndex := iocontextIndex + 1;
      if iocontextIndex >= |iocontexts| {
        iocontextIndex := 0;
      }
    }

    /** `stop`, with no outside posts once it has been called: it returns, every thread has left
        and every context is stopped.  Of what was posted to a context, all but what its queue
        still holds has run, in posting order; altogether each handler has run as often as it
        occurs in the trees posted, less what the queues hold.  A queue holds nothing if nothing
        still to be posted enters its context from another, and no queue does if nothing leaves
        its context. */
    method Stop() returns (ghost run: seq<Event>)
      requires Valid() && phase == Serving
      modifies this
      ensures NoPosts(run) && Run(old(AsPool()), run) == Some(AsPool())
      ensures past == old(past) + run && Valid() && phase == Returned
      ensures iocontextIndex == old(iocontextIndex) && |iocontexts| == old(|iocontexts|)
      ensures forall i :: 0 <= i < |threads| ==> threads[i].doing == Left
      ensures forall c: nat :: c < |iocontexts| ==> StoppedAs(old(AsPool()), AsPool(), past, c)
      ensures forall g: Handler :: Total(Drain.Held(AsPool(), AllContexts(AsPool()), g))
                                == Total(Drain.PostedCopies(|iocontexts|, past, g))
      ensures CrossPosts.NobodyStrays(old(AsPool())) ==> CrossPosts.AllQueuesEmpty(AsPool())
    {
      ghost var start := AsPool();
      ReachedInv(start, past);
      var p, release := ReleaseGuards(AsPool());
      var q, join := JoinThreads(p);
      run := release + join;
      RunConcat(start, release, join);
      RunAppend(start, run, Stopper);
      StepKeepsInv(q, Stopper);
      run := run + [Stopper];
      q := StopStep(q).value;
      iocontexts, threads, phase := q.contexts, q.workers, q.phase;
      assert AsPool() == q;
      ReachedAfter(start, past, run);
      RunKeepsHomes(start, run);
      StoppedServer(start, past, run);
      past := past + run;
    }
  }

  /** Context `c` has stopped, has run all that was ever posted to it but what it still holds, in
      posting order, and holds nothing if nothing was still to enter it from another. */
  ghost predicate StoppedAs(s: Pool, end: Pool, past: seq<Event>, c: nat) {
    && c < |s.contexts| == |end.contexts| && end.contexts[c].stopped
    && end.contexts[c].finished == Drain.Completions(Origin(end), past, c)
    && Drain.Arrivals(Origin(end), past, c) == Drain.Completions(Origin(end), past, c) + end.contexts[c].queue
    && (CrossPosts.NobodyEnters(s, c) ==> end.contexts[c].queue == [])
  }

  lemma OrderAtRest(s: Pool, past: seq<Event>, c: nat)
    requires Reached(s, past) && Paired(s) && s.phase == Returned && c < |s.contexts|
    ensures s.contexts[c].stopped && s.contexts[c].finished == Drain.Completions(Origin(s), past, c)
    ensures Drain.Arrivals(Origin(s), past, c) == Drain.Completions(Origin(s), past, c) + s.contexts[c].queue
  {
    ReachedInv(s, past);
    Drain.HaltingStopped(s, c);
    ReachedOrder(s, past, c);
    assert s.workers[c].doing.Left?;
  }

  lemma PairedAfter(s: Pool, run: seq<Event>)
    requires Paired(s) && Run(s, run).Some?
    ensures Paired(Run(s, run).value) && |Run(s, run).value.contexts| == |s.contexts|
  {
    RunKeepsHomes(s, run);
  }

  lemma StoppedContext(s: Pool, past: seq<Event>, run: seq<Event>, c: nat)
    requires Reached(s, past) && Paired(s) && s.phase == Serving && c < |s.contexts|
    requires NoPosts(run) && Run(s, run).Some? && Run(s, run).value.phase == Returned
    ensures StoppedAs(s, Run(s, run).value, past + run, c)
  {
    var end := Run(s, run).value;
    ReachedInv(s, past);
    PairedAfter(s, run);
    ReachedAfter(s, past, run);
    OrderAtRest(end, past + run, c);
    if CrossPosts.NobodyEnters(s, c) {
      CrossPosts.UnenteredDrains(s, run, c);
    }
  }

  /** What a run of the server pool in which `stop` returns has done. */
  lemma StoppedServer(s: Pool, past: seq<Event>, run: seq<Event>)
    requires Reached(s, past) && Paired(s) && s.phase == Serving
    requires NoPosts(run) && Run(s, run).Some? && Run(s, run).value.phase == Returned
    ensures var end := Run(s, run).value;
            && |end.contexts| == |s.contexts|
            && (forall c: nat :: c < |end.contexts| ==> StoppedAs(s, end, past + run, c))
            && (forall g: Handler :: Total(Drain.Held(end, AllContexts(end), g))
                                  == Total(Drain.PostedCopies(|end.contexts|, past + run, g)))
            && (CrossPosts.NobodyStrays(s) ==> CrossPosts.AllQueuesEmpty(end))
  {
    var end := Run(s, run).value;
    ReachedInv(s, past);
    RunKeepsInv(s, run);
    ReachedAfter(s, past, run);
    forall c: nat | c < |end.contexts|
      ensures StoppedAs(s, end, past + run, c)
    {
      StoppedContext(s, past, run, c);
    }
    forall g: Handler
      ensures Total(Drain.Held(end, AllContexts(end), g)) == Total(Drain.PostedCopies(|end.contexts|, past + run, g))
    {
      ReachedNothingLost(end, past + run, g);
    }
    if CrossPosts.NobodyStrays(s) {
      CrossPosts.StayingDrains(s, run);
    }
  }
}
