/** What has run when `stop` returns: a conservation law over handler trees, the order within a
    context, and the consequence for contexts whose handlers stay on them. */
module Drain {
  import opened IoPool

  lemma TotalOfOnly(parts: seq<nat>, c: nat)
    requires c < |parts|
    requires forall i :: 0 <= i < |parts| && i != c ==> parts[i] == 0
    ensures Total(parts) == parts[c]
  {
    TotalUpdate(parts, c, 0);
    TotalZero(parts[c := 0]);
  }

  // ------------------------------------------------------------------ the conservation law

  /** What a busy worker still owes, counted in copies of `g`: the handler it runs and the
      children it has not posted. */
  ghost function Load(doing: Doing, g: Handler): nat {
    match doing
    case Busy(h, done) =>
      (if h == g then 1 else 0) + (if done <= |h.posts| then CopiesIn(h.posts[done..], g) else 0)
    case _ => 0
  }

  /** Runs of `g` finished on a context, and runs that will come of its queue. */
  ghost function HeldPart(x: Context, g: Handler): nat {
    multiset(x.finished)[g] + CopiesIn(x.queue, g)
  }

  ghost function Held(s: Pool, zone: set<nat>, g: Handler): seq<nat> {
    seq(|s.contexts|, i requires 0 <= i < |s.contexts| => if i in zone then HeldPart(s.contexts[i], g) else 0)
  }

  ghost function Loads(s: Pool, zone: set<nat>, g: Handler): seq<nat> {
    seq(|s.workers|, i requires 0 <= i < |s.workers| =>
        if s.workers[i].home in zone then Load(s.workers[i].doing, g) else 0)
  }

  ghost function Given(s: Pool, zone: set<nat>, g: Handler): seq<nat> {
    seq(|s.contexts|, i requires 0 <= i < |s.contexts| =>
        if i in zone then CopiesIn(s.contexts[i].given, g) else 0)
  }

  /** Every copy of `g` in the trees given to the zone from outside is finished, being run, or
      still to come; and there is no other. */
  ghost predicate Conserved(s: Pool, zone: set<nat>, g: Handler) {
    Total(Held(s, zone, g)) + Total(Loads(s, zone, g)) == Total(Given(s, zone, g))
  }

  /** No handler in the pool crosses the zone's boundary. */
  ghost predicate AllConfined(s: Pool, zone: set<nat>) {
    && (forall c: nat, i: nat :: c < |s.contexts| && i < |s.contexts[c].queue| ==>
          Confined(s.contexts[c].queue[i], zone))
    && (forall w: nat :: w < |s.workers| && s.workers[w].doing.Busy? ==>
          Confined(s.workers[w].doing.handler, zone))
  }

  ghost predicate PostsConfined(run: seq<Event>, zone: set<nat>) {
    forall e :: e in run && e.Post? ==> Confined(e.handler, zone)
  }

  lemma PostKeepsConfined(s: Pool, h: Handler, zone: set<nat>)
    requires AllConfined(s, zone) && Step(s, Post(h)).Some? && Confined(h, zone)
    ensures AllConfined(Step(s, Post(h)).value, zone)
  {
  }

  lemma TurnKeepsConfined(s: Pool, w: nat, zone: set<nat>)
    requires AllConfined(s, zone) && TurnStep(s, w).Some?
    ensures AllConfined(TurnStep(s, w).value, zone)
  {
  }

  lemma StepKeepsConfined(s: Pool, e: Event, zone: set<nat>)
    requires AllConfined(s, zone) && Step(s, e).Some?
    requires e.Post? ==> Confined(e.handler, zone)
    ensures AllConfined(Step(s, e).value, zone)
  {
    match e
    case Post(h) => PostKeepsConfined(s, h, zone);
    case Turn(w) => TurnKeepsConfined(s, w, zone);
    case Stopper =>
      StopMovesNoHandler(s);
  }

  /** The effect on the sums of changing one context and one worker. */
  lemma SumsChange(s: Pool, n: Pool, zone: set<nat>, g: Handler, c: nat, w: nat)
    requires c < |s.contexts| == |n.contexts| && w < |s.workers| == |n.workers|
    requires forall i :: 0 <= i < |s.contexts| && i != c ==> n.contexts[i] == s.contexts[i]
    requires forall i :: 0 <= i < |s.workers| && i != w ==> n.workers[i] == s.workers[i]
    requires n.workers[w].home == s.workers[w].home && n.contexts[c].given == s.contexts[c].given
    ensures Total(Held(n, zone, g)) - Total(Held(s, zone, g))
         == if c in zone then HeldPart(n.contexts[c], g) - HeldPart(s.contexts[c], g) else 0
    ensures Total(Loads(n, zone, g)) - Total(Loads(s, zone, g))
         == if s.workers[w].home in zone then Load(n.workers[w].doing, g) - Load(s.workers[w].doing, g) else 0
    ensures Given(n, zone, g) == Given(s, zone, g)
  {
    var held := if c in zone then HeldPart(n.contexts[c], g) else 0;
    assert Held(n, zone, g) == Held(s, zone, g)[c := held];
    TotalUpdate(Held(s, zone, g), c, held);
    var load := if s.workers[w].home in zone then Load(n.workers[w].doing, g) else 0;
    assert Loads(n, zone, g) == Loads(s, zone, g)[w := load];
    TotalUpdate(Loads(s, zone, g), w, load);
  }

  lemma TakeConserves(s: Pool, w: nat, zone: set<nat>, g: Handler)
    requires TurnStep(s, w).Some? && s.workers[w].doing.Waiting?
    requires Conserved(s, zone, g)
    ensures Conserved(TurnStep(s, w).value, zone, g)
  {
    var n := TurnStep(s, w).value;
    var home := s.workers[w].home;
    SumsChange(s, n, zone, g, home, w);
    if !s.contexts[home].stopped {
      var queue := s.contexts[home].queue;
      assert queue[0].posts[0..] == queue[0].posts;
      assert CopiesIn(queue, g) == Copies(queue[0], g) + CopiesIn(queue[1..], g);
    }
  }

  lemma PostChildConserves(s: Pool, w: nat, zone: set<nat>, g: Handler)
    requires WellAimed(s) && AllConfined(s, zone) && TurnStep(s, w).Some?
    requires s.workers[w].doing.Busy? && s.workers[w].doing.done < |s.workers[w].doing.handler.posts|
    requires Conserved(s, zone, g)
    ensures Conserved(TurnStep(s, w).value, zone, g)
  {
    var n := TurnStep(s, w).value;
    var home, h, done := s.workers[w].home, s.workers[w].doing.handler, s.workers[w].doing.done;
    var child := h.posts[done];
    assert child.target in zone <==> home in zone by {
      assert Confined(h, zone);
    }
    SumsChange(s, n, zone, g, child.target, w);
    assert HeldPart(n.contexts[child.target], g) == HeldPart(s.contexts[child.target], g) + Copies(child, g) by {
      CopiesInAppend(s.contexts[child.target].queue, child, g);
    }
    assert Load(n.workers[w].doing, g) + Copies(child, g) == Load(s.workers[w].doing, g) by {
      assert h.posts[done..][1..] == h.posts[done + 1..];
    }
  }

  lemma FinishConserves(s: Pool, w: nat, zone: set<nat>, g: Handler)
    requires TurnStep(s, w).Some?
    requires s.workers[w].doing.Busy? && s.workers[w].doing.done == |s.workers[w].doing.handler.posts|
    requires Conserved(s, zone, g)
    ensures Conserved(TurnStep(s, w).value, zone, g)
  {
    var n := TurnStep(s, w).value;
    var h := s.workers[w].doing.handler;
    SumsChange(s, n, zone, g, s.workers[w].home, w);
    assert h.posts[|h.posts|..] == [];
  }

  lemma TotalAdd(parts: seq<nat>, more: seq<nat>, c: nat, x: nat)
    requires c < |parts| == |more| && more[c] == parts[c] + x
    requires forall i :: 0 <= i < |parts| && i != c ==> more[i] == parts[i]
    ensures Total(more) == Total(parts) + x
  {
    assert more == parts[c := parts[c] + x];
    TotalUpdate(parts, c, parts[c] + x);
  }

  lemma PostConserves(s: Pool, h: Handler, zone: set<nat>, g: Handler)
    requires Step(s, Post(h)).Some? && Conserved(s, zone, g)
    ensures Conserved(Step(s, Post(h)).value, zone, g)
  {
    var n := Step(s, Post(h)).value;
    var c := h.target;
    CopiesInAppend(s.contexts[c].queue, h, g);
    CopiesInAppend(s.contexts[c].given, h, g);
    assert Loads(n, zone, g) == Loads(s, zone, g);
    assert n.contexts[c].finished == s.contexts[c].finished;
    TotalAdd(Held(s, zone, g), Held(n, zone, g), c, if c in zone then Copies(h, g) else 0);
    TotalAdd(Given(s, zone, g), Given(n, zone, g), c, if c in zone then Copies(h, g) else 0);
  }

  lemma StopConserves(s: Pool, zone: set<nat>, g: Handler)
    requires StopStep(s).Some? && Conserved(s, zone, g)
    ensures Conserved(StopStep(s).value, zone, g)
  {
    var n := StopStep(s).value;
    StopMovesNoHandler(s);
    assert Held(n, zone, g) == Held(s, zone, g);
    assert Loads(n, zone, g) == Loads(s, zone, g);
    assert Given(n, zone, g) == Given(s, zone, g);
  }

  lemma StepConserves(s: Pool, e: Event, zone: set<nat>, g: Handler)
    requires WellAimed(s) && AllConfined(s, zone) && Step(s, e).Some?
    requires Conserved(s, zone, g)
    ensures Conserved(Step(s, e).value, zone, g)
  {
    match e
    case Post(h) => PostConserves(s, h, zone, g);
    case Turn(w) =>
      if s.workers[w].doing.Waiting? {
        TakeConserves(s, w, zone, g);
      } else if s.workers[w].doing.done < |s.workers[w].doing.handler.posts| {
        PostChildConserves(s, w, zone, g);
      } else {
        FinishConserves(s, w, zone, g);
      }
    case Stopper => StopConserves(s, zone, g);
  }

  /** Nothing is lost, invented or run twice, in any interleaving: the law holds for any zone no
      handler crosses, the whole pool included. */
  lemma {:induction false} RunConserves(s: Pool, run: seq<Event>, zone: set<nat>, g: Handler)
    requires Inv(s) && AllConfined(s, zone) && Conserved(s, zone, g)
    requires Run(s, run).Some? && PostsConfined(run, zone)
    ensures Conserved(Run(s, run).value, zone, g) && AllConfined(Run(s, run).value, zone)
    decreases |run|
  {
    if run == [] {
    } else {
      assert run[0] in run;
      forall e | e in run[1..] && e.Post?
        ensures Confined(e.handler, zone)
      {
        assert e in run;
      }
      StepKeepsInv(s, run[0]);
      StepKeepsConfined(s, run[0], zone);
      StepConserves(s, run[0], zone, g);
      RunConserves(Step(s, run[0]).value, run[1..], zone, g);
    }
  }

  lemma InitialConserved(s: Pool, zone: set<nat>, g: Handler)
    requires Initial(s)
    ensures AllConfined(s, zone) && Conserved(s, zone, g)
  {
    TotalZero(Held(s, zone, g));
    TotalZero(Loads(s, zone, g));
    TotalZero(Given(s, zone, g));
  }

  /** The law where no worker is busy, for one context: what has finished there, together with
      all that would come of its queue, is exactly what it was given. */
  lemma ConservedAtRest(s: Pool, c: nat, g: Handler)
    requires c < |s.contexts| && Conserved(s, {c}, g)
    requires forall w: nat :: w < |s.workers| ==> !s.workers[w].doing.Busy?
    ensures multiset(s.contexts[c].finished)[g] + CopiesIn(s.contexts[c].queue, g) == CopiesIn(s.contexts[c].given, g)
  {
    TotalOfOnly(Held(s, {c}, g), c);
    TotalZero(Loads(s, {c}, g));
    TotalOfOnly(Given(s, {c}, g), c);
  }

  lemma {:induction false} AimedConfined(h: Handler, n: nat, all: set<nat>)
    requires Aimed(h, n) && forall c: nat :: c < n ==> c in all
    ensures Confined(h, all)
    decreases h
  {
    forall i | 0 <= i < |h.posts|
      ensures (h.posts[i].target in all <==> h.target in all) && Confined(h.posts[i], all)
    {
      assert Aimed(h.posts[i], n);
      AimedConfined(h.posts[i], n, all);
    }
  }

  /** Every post the pool accepts is confined to the set of all its contexts. */
  lemma {:induction false} PostsAimed(s: Pool, run: seq<Event>, all: set<nat>)
    requires Run(s, run).Some? && forall c: nat :: c < |s.contexts| ==> c in all
    ensures PostsConfined(run, all)
    decreases |run|
  {
    if run == [] {
    } else {
      StepKeepsHomes(s, run[0]);
      PostsAimed(Step(s, run[0]).value, run[1..], all);
      if run[0].Post? {
        AimedConfined(run[0].handler, |s.contexts|, all);
      }
      forall e | e in run && e.Post?
        ensures Confined(e.handler, all)
      {
        assert e == run[0] || e in run[1..];
      }
    }
  }

  // ------------------------------------------------------------------ what a run posts and finishes

  /** The handlers that outside threads post to context `c` in a run, in order. */
  ghost function PostedTo(run: seq<Event>, c: nat): seq<Handler>
    decreases |run|
  {
    if run == [] then []
    else (if run[0].Post? && run[0].handler.target == c then [run[0].handler] else []) + PostedTo(run[1..], c)
  }

  /** What one step posts to `c`: an outside post, or the next child of the handler a worker runs. */
  ghost function Arrival(s: Pool, e: Event, c: nat): seq<Handler> {
    match e
    case Post(h) => if h.target == c then [h] else []
    case Turn(w) =>
      if w < |s.workers| && s.workers[w].doing.Busy?
         && s.workers[w].doing.done < |s.workers[w].doing.handler.posts|
         && s.workers[w].doing.handler.posts[s.workers[w].doing.done].target == c
      then [s.workers[w].doing.handler.posts[s.workers[w].doing.done]] else []
    case Stopper => []
  }

  /** What one step runs to the end at `c`: a handler with no child left to post. */
  ghost function Completion(s: Pool, e: Event, c: nat): seq<Handler> {
    if e.Turn? && e.worker < |s.workers| && IsBusy(s.workers[e.worker], c)
       && s.workers[e.worker].doing.done >= |s.workers[e.worker].doing.handler.posts|
    then [s.workers[e.worker].doing.handler] else []
  }

  /** What one step begins at `c`: the handler that a waiting worker comes to run. */
  ghost function Beginning(s: Pool, e: Event, c: nat): seq<Handler>
    requires Step(s, e).Some?
  {
    if e.Turn? && e.worker < |s.workers| && s.workers[e.worker].home == c && s.workers[e.worker].doing.Waiting? then
      var workers := Step(s, e).value.workers;
      if e.worker < |workers| && workers[e.worker].doing.Busy? then [workers[e.worker].doing.handler] else []
    else []
  }

  ghost function Arrivals(s: Pool, run: seq<Event>, c: nat): seq<Handler>
    decreases |run|
  {
    if run == [] || Step(s, run[0]).None? then []
    else Arrival(s, run[0], c) + Arrivals(Step(s, run[0]).value, run[1..], c)
  }

  ghost function Beginnings(s: Pool, run: seq<Event>, c: nat): seq<Handler>
    decreases |run|
  {
    if run == [] || Step(s, run[0]).None? then []
    else Beginning(s, run[0], c) + Beginnings(Step(s, run[0]).value, run[1..], c)
  }

  ghost function Completions(s: Pool, run: seq<Event>, c: nat): seq<Handler>
    decreases |run|
  {
    if run == [] || Step(s, run[0]).None? then []
    else Completion(s, run[0], c) + Completions(Step(s, run[0]).value, run[1..], c)
  }

  lemma StepRecords(s: Pool, e: Event, c: nat)
    requires Step(s, e).Some? && c < |s.contexts|
    ensures c < |Step(s, e).value.contexts|
    ensures var x, y := s.contexts[c], Step(s, e).value.contexts[c];
            && y.given == x.given + (if e.Post? && e.handler.target == c then [e.handler] else [])
            && y.posted == x.posted + Arrival(s, e, c)
            && y.started == x.started + Beginning(s, e, c)
            && y.finished == x.finished + Completion(s, e, c)
  {
    match e
    case Post(h) =>
    case Turn(w) =>
    case Stopper =>
      StopMovesNoHandler(s);
      assert Step(s, e).value.contexts[c].posted == s.contexts[c].posted;
  }

  lemma {:induction false} RunRecordsGiven(s: Pool, run: seq<Event>, c: nat)
    requires Run(s, run).Some? && c < |s.contexts|
    ensures c < |Run(s, run).value.contexts|
    ensures Run(s, run).value.contexts[c].given == s.contexts[c].given + PostedTo(run, c)
    decreases |run|
  {
    if run == [] {
    } else {
      var next := Step(s, run[0]).value;
      StepRecords(s, run[0], c);
      var first := if run[0].Post? && run[0].handler.target == c then [run[0].handler] else [];
      RunRecordsGiven(next, run[1..], c);
      assert Run(s, run) == Run(next, run[1..]);
      assert PostedTo(run, c) == first + PostedTo(run[1..], c);
    }
  }

  lemma {:induction false} RunRecordsPosted(s: Pool, run: seq<Event>, c: nat)
    requires Run(s, run).Some? && c < |s.contexts|
    ensures c < |Run(s, run).value.contexts|
    ensures Run(s, run).value.contexts[c].posted == s.contexts[c].posted + Arrivals(s, run, c)
    decreases |run|
  {
    if run == [] {
    } else {
      var next := Step(s, run[0]).value;
      StepRecords(s, run[0], c);
      RunRecordsPosted(next, run[1..], c);
      assert Run(s, run) == Run(next, run[1..]);
      assert Arrivals(s, run, c) == Arrival(s, run[0], c) + Arrivals(next, run[1..], c);
    }
  }

  lemma {:induction false} RunRecordsStarted(s: Pool, run: seq<Event>, c: nat)
    requires Run(s, run).Some? && c < |s.contexts|
    ensures c < |Run(s, run).value.contexts|
    ensures Run(s, run).value.contexts[c].started == s.contexts[c].started + Beginnings(s, run, c)
    decreases |run|
  {
    if run == [] {
    } else {
      var next := Step(s, run[0]).value;
      StepRecords(s, run[0], c);
      RunRecordsStarted(next, run[1..], c);
      assert Run(s, run) == Run(next, run[1..]);
      assert Beginnings(s, run, c) == Beginning(s, run[0], c) + Beginnings(next, run[1..], c);
    }
  }

  lemma {:induction false} RunRecordsFinished(s: Pool, run: seq<Event>, c: nat)
    requires Run(s, run).Some? && c < |s.contexts|
    ensures c < |Run(s, run).value.contexts|
    ensures Run(s, run).value.contexts[c].finished == s.contexts[c].finished + Completions(s, run, c)
    decreases |run|
  {
    if run == [] {
    } else {
      var next := Step(s, run[0]).value;
      StepRecords(s, run[0], c);
      RunRecordsFinished(next, run[1..], c);
      assert Run(s, run) == Run(next, run[1..]);
      assert Completions(s, run, c) == Completion(s, run[0], c) + Completions(next, run[1..], c);
    }
  }

  /** The histories of a context record exactly what a run of a fresh pool does to it: the
      outside posts, all posts, the handlers begun and those run to the end, each in the order
      of the run. */
  lemma RunRecords(s0: Pool, run: seq<Event>, c: nat)
    requires Initial(s0) && Run(s0, run).Some? && c < |s0.contexts|
    ensures c < |Run(s0, run).value.contexts|
    ensures var x := Run(s0, run).value.contexts[c];
            && x.given == PostedTo(run, c)
            && x.posted == Arrivals(s0, run, c)
            && x.started == Beginnings(s0, run, c)
            && x.finished == Completions(s0, run, c)
  {
    RunRecordsStarted(s0, run, c);
    RunRecordsGiven(s0, run, c);
    RunRecordsPosted(s0, run, c);
    RunRecordsFinished(s0, run, c);
  }

  lemma {:induction false} PostedToConcat(a: seq<Event>, b: seq<Event>, c: nat)
    ensures PostedTo(a + b, c) == PostedTo(a, c) + PostedTo(b, c)
    decreases |a|
  {
    if a == [] {
      assert a + b == b;
    } else {
      assert (a + b)[1..] == a[1..] + b;
      PostedToConcat(a[1..], b, c);
    }
  }

  lemma {:induction false} NothingPosted(run: seq<Event>, c: nat)
    requires NoPosts(run)
    ensures PostedTo(run, c) == []
    decreases |run|
  {
    if run == [] {
    } else {
      assert run[0] in run;
      forall e | e in run[1..]
        ensures e in run
      {
      }
      NothingPosted(run[1..], c);
    }
  }

  /** How often `g` occurs in the trees that outside threads post to each of n contexts. */
  ghost function PostedCopies(n: nat, run: seq<Event>, g: Handler): seq<nat> {
    seq(n, c requires 0 <= c < n => CopiesIn(PostedTo(run, c), g))
  }

  lemma GivenIsPosted(s0: Pool, run: seq<Event>, all: set<nat>, g: Handler)
    requires Initial(s0) && Run(s0, run).Some?
    requires forall c: nat :: c < |s0.contexts| ==> c in all
    ensures Given(Run(s0, run).value, all, g) == PostedCopies(|s0.contexts|, run, g)
  {
    RunKeepsHomes(s0, run);
    var end := Run(s0, run).value;
    forall c: nat | c < |s0.contexts|
      ensures Given(end, all, g)[c] == PostedCopies(|s0.contexts|, run, g)[c]
    {
      RunRecords(s0, run, c);
    }
  }

  /** The whole pool, wherever handlers post: once `stop` has returned, each handler has run to
      the end as often as it occurs in the trees posted, less what comes of the queues. */
  lemma NothingLost(s0: Pool, run: seq<Event>, all: set<nat>, g: Handler)
    requires Initial(s0) && Run(s0, run).Some? && Run(s0, run).value.phase == Returned
    requires forall c: nat :: c < |s0.contexts| ==> c in all
    ensures Total(Held(Run(s0, run).value, all, g)) == Total(PostedCopies(|s0.contexts|, run, g))
  {
    InitialInv(s0);
    RunKeepsInv(s0, run);
    InitialConserved(s0, all, g);
    PostsAimed(s0, run, all);
    RunConserves(s0, run, all, g);
    TotalZero(Loads(Run(s0, run).value, all, g));
    GivenIsPosted(s0, run, all, g);
  }

  // ------------------------------------------------------------------ order

  /** Handlers of a context begin in the order they were posted. */
  ghost predicate FirstInFirstOut(x: Context) {
    x.posted == x.started + x.queue
  }

  /** Of a context whose only worker is `w`: at most one handler is being run, the last begun,
      and those before it have finished in order. */
  ghost predicate OneAtATime(s: Pool, c: nat, w: nat) {
    && c < |s.contexts| && w < |s.workers|
    && (forall v: nat :: v < |s.workers| && s.workers[v].home == c ==> v == w)
    && s.workers[w].home == c
    && s.contexts[c].started ==
         s.contexts[c].finished + (if s.workers[w].doing.Busy? then [s.workers[w].doing.handler] else [])
  }

  lemma StepKeepsFifo(s: Pool, e: Event, c: nat)
    requires Step(s, e).Some? && c < |s.contexts| && FirstInFirstOut(s.contexts[c])
    ensures FirstInFirstOut(Step(s, e).value.contexts[c])
  {
  }

  lemma {:induction false} RunKeepsFifo(s: Pool, run: seq<Event>, c: nat)
    requires Run(s, run).Some? && c < |s.contexts| && FirstInFirstOut(s.contexts[c])
    ensures c < |Run(s, run).value.contexts| && FirstInFirstOut(Run(s, run).value.contexts[c])
    decreases |run|
  {
    if run == [] {
    } else {
      StepKeepsHomes(s, run[0]);
      StepKeepsFifo(s, run[0], c);
      RunKeepsFifo(Step(s, run[0]).value, run[1..], c);
    }
  }

  /** In every interleaving, whatever the number of workers, the handlers of a context begin in
      the order they were posted. */
  lemma BeginInPostingOrder(s0: Pool, run: seq<Event>, c: nat)
    requires Initial(s0) && Run(s0, run).Some? && c < |s0.contexts|
    ensures c < |Run(s0, run).value.contexts|
    ensures Arrivals(s0, run, c) == Beginnings(s0, run, c) + Run(s0, run).value.contexts[c].queue
  {
    RunKeepsFifo(s0, run, c);
    RunRecords(s0, run, c);
  }

  lemma StepKeepsOneAtATime(s: Pool, e: Event, c: nat, w: nat)
    requires WellAimed(s) && Step(s, e).Some? && OneAtATime(s, c, w)
    ensures OneAtATime(Step(s, e).value, c, w)
  {
    var n := Step(s, e).value;
    StepKeepsHomes(s, e);
    if e.Turn? && e.worker != w {
      assert s.workers[e.worker].home != c;
      assert n.workers[w] == s.workers[w];
      assert n.contexts[c].started == s.contexts[c].started;
      assert n.contexts[c].finished == s.contexts[c].finished;
    }
  }

  lemma {:induction false} RunKeepsOneAtATime(s: Pool, run: seq<Event>, c: nat, w: nat)
    requires Inv(s) && Run(s, run).Some?
    requires OneAtATime(s, c, w)
    ensures OneAtATime(Run(s, run).value, c, w)
    decreases |run|
  {
    if run == [] {
    } else {
      StepKeepsInv(s, run[0]);
      StepKeepsOneAtATime(s, run[0], c, w);
      RunKeepsOneAtATime(Step(s, run[0]).value, run[1..], c, w);
    }
  }

  /** One worker per context, in any interleaving: the handlers of a context never overlap, and
      they run to the end in the order they were posted. */
  lemma PerContextOrder(s0: Pool, run: seq<Event>, c: nat, w: nat)
    requires Initial(s0) && Run(s0, run).Some? && c < |s0.contexts| && w < |s0.workers|
    requires forall v: nat :: v < |s0.workers| && s0.workers[v].home == c ==> v == w
    ensures var end := Run(s0, run).value;
            && c < |end.contexts| && w < |end.workers|
            && (forall v: nat :: v < |end.workers| && IsBusy(end.workers[v], c) ==> v == w)
            && Arrivals(s0, run, c) ==
                 Completions(s0, run, c)
                 + (if end.workers[w].doing.Busy? then [end.workers[w].doing.handler] else [])
                 + end.contexts[c].queue
  {
    InitialInv(s0);
    assert HasWorker(s0.workers, c);
    assert OneAtATime(s0, c, w);
    RunKeepsOneAtATime(s0, run, c, w);
    RunKeepsFifo(s0, run, c);
    RunRecords(s0, run, c);
  }

  // ------------------------------------------------------------------ drain on stop

  /** Of a context whose handlers stay on it: a stopped one holds only outside posts that came
      after it stopped, and whatever it had been given by `k` is not among them. */
  ghost predicate Accepted(x: Context, k: nat) {
    && k <= |x.given|
    && (x.stopped ==> |x.queue| + k <= |x.given| && x.queue == x.given[|x.given| - |x.queue|..])
  }

  /** By the time the pool stops the contexts itself, they have stopped on their own. */
  lemma HaltingStopped(s: Pool, c: nat)
    requires Inv(s) && c < |s.contexts|
    ensures s.phase.Halting? || s.phase.Returned? ==> s.contexts[c].stopped
  {
    assert HasWorker(s.workers, c);
  }

  lemma PostKeepsAccepted(s: Pool, h: Handler, c: nat, k: nat)
    requires Step(s, Post(h)).Some? && c < |s.contexts| && Accepted(s.contexts[c], k)
    ensures Accepted(Step(s, Post(h)).value.contexts[c], k)
    ensures s.contexts[c].given <= Step(s, Post(h)).value.contexts[c].given
  {
  }

  lemma TurnKeepsAccepted(s: Pool, w: nat, c: nat, k: nat)
    requires Inv(s) && AllConfined(s, {c}) && TurnStep(s, w).Some? && c < |s.contexts|
    requires Accepted(s.contexts[c], k)
    ensures Accepted(TurnStep(s, w).value.contexts[c], k)
    ensures s.contexts[c].given == TurnStep(s, w).value.contexts[c].given
  {
    var x, y := s.contexts[c], TurnStep(s, w).value.contexts[c];
    var home := s.workers[w].home;
    if s.workers[w].doing.Busy? {
      assert IsBusy(s.workers[w], home);
      BusyAtZero(s.workers, home);
      assert Confined(s.workers[w].doing.handler, {c});
      if x.stopped {
        assert y == x;
      } else if y.stopped {
        assert home == c && x.work == 1;
        assert x.queue == [];
      }
    }
  }

  lemma StopKeepsAccepted(s: Pool, c: nat, k: nat)
    requires Inv(s) && StopStep(s).Some? && c < |s.contexts|
    requires Accepted(s.contexts[c], k)
    ensures Accepted(StopStep(s).value.contexts[c], k)
    ensures s.contexts[c].given == StopStep(s).value.contexts[c].given
  {
    var x, y := s.contexts[c], StopStep(s).value.contexts[c];
    assert y.queue == x.queue && y.given == x.given;
    HaltingStopped(s, c);
    if !x.stopped && y.stopped {
      assert s.phase == Releasing(c) && x.guarded && x.work == 1;
      assert x.queue == [];
    }
  }

  lemma StepKeepsAccepted(s: Pool, e: Event, c: nat, k: nat)
    requires Inv(s) && AllConfined(s, {c}) && Step(s, e).Some? && c < |s.contexts|
    requires Accepted(s.contexts[c], k)
    ensures Accepted(Step(s, e).value.contexts[c], k)
    ensures s.contexts[c].given <= Step(s, e).value.contexts[c].given
    ensures !e.Post? ==> s.contexts[c].given == Step(s, e).value.contexts[c].given
  {
    match e
    case Post(h) => PostKeepsAccepted(s, h, c, k);
    case Turn(w) => TurnKeepsAccepted(s, w, c, k);
    case Stopper => StopKeepsAccepted(s, c, k);
  }

  lemma {:induction false} RunKeepsAccepted(s: Pool, run: seq<Event>, c: nat, k: nat)
    requires Inv(s) && AllConfined(s, {c}) && Run(s, run).Some? && PostsConfined(run, {c})
    requires c < |s.contexts| && Accepted(s.contexts[c], k)
    ensures c < |Run(s, run).value.contexts| && Accepted(Run(s, run).value.contexts[c], k)
    ensures s.contexts[c].given <= Run(s, run).value.contexts[c].given
    ensures NoPosts(run) ==> s.contexts[c].given == Run(s, run).value.contexts[c].given
    decreases |run|
  {
    if run == [] {
    } else {
      assert run[0] in run;
      forall e | e in run[1..]
        ensures e in run
      {
      }
      StepKeepsInv(s, run[0]);
      StepKeepsHomes(s, run[0]);
      StepKeepsConfined(s, run[0], {c});
      StepKeepsAccepted(s, run[0], c, k);
      RunKeepsAccepted(Step(s, run[0]).value, run[1..], c, k);
    }
  }

  /** Of the handlers posted to a context, `early` before some moment and `late` after it: the
      first n, all the early ones among them, have been run to the end with all their
      descendants, exactly once each, and nothing else has; the rest is still queued. */
  ghost predicate Drained(early: seq<Handler>, late: seq<Handler>, end: Context, n: nat) {
    && |early| <= n <= |early + late|
    && (forall g: Handler :: multiset(end.finished)[g] == CopiesIn((early + late)[..n], g))
    && end.queue == (early + late)[n..]
  }

  /** Drain on stop.  Take any run `before` of a pool up to a moment when `stop` has not been
      called, and any continuation `after` in which it returns, outside posts included, with the
      handlers of context `c` staying on it.  Then `c` is drained of all that was posted to it
      before the call, and of everything if nothing was posted since. */
  lemma DrainOnStop(s0: Pool, before: seq<Event>, after: seq<Event>, c: nat) returns (n: nat)
    requires Initial(s0) && c < |s0.contexts|
    requires PostsConfined(before, {c}) && PostsConfined(after, {c})
    requires Run(s0, before).Some? && Run(s0, before).value.phase == Serving
    requires Run(Run(s0, before).value, after).Some? && Run(Run(s0, before).value, after).value.phase == Returned
    ensures c < |Run(Run(s0, before).value, after).value.contexts|
    ensures Drained(PostedTo(before, c), PostedTo(after, c), Run(Run(s0, before).value, after).value.contexts[c], n)
    ensures NoPosts(after) ==> Run(Run(s0, before).value, after).value.contexts[c].queue == []
  {
    InitialInv(s0);
    RunKeepsInv(s0, before);
    RunRecords(s0, before, c);
    var s1 := Run(s0, before).value;
    var anyone := Handler(0, 0, []);
    InitialConserved(s0, {c}, anyone);
    RunConserves(s0, before, {c}, anyone);
    forall g: Handler
      ensures Conserved(s1, {c}, g)
    {
      InitialConserved(s0, {c}, g);
      RunConserves(s0, before, {c}, g);
    }
    n := DrainFrom(s1, after, c);
  }

  lemma FinishedIsPrefix(s: Pool, c: nat, n: nat, g: Handler)
    requires c < |s.contexts| && Conserved(s, {c}, g)
    requires forall w: nat :: w < |s.workers| ==> !s.workers[w].doing.Busy?
    requires n <= |s.contexts[c].given| && s.contexts[c].queue == s.contexts[c].given[n..]
    ensures multiset(s.contexts[c].finished)[g] == CopiesIn(s.contexts[c].given[..n], g)
  {
    var x := s.contexts[c];
    assert x.given == x.given[..n] + x.queue;
    ConservedAtRest(s, c, g);
    CopiesInConcat(x.given[..n], x.queue, g);
  }

  /** The same from any moment before `stop` is called. */
  lemma DrainFrom(s: Pool, run: seq<Event>, c: nat) returns (n: nat)
    requires Inv(s) && s.phase == Serving && c < |s.contexts|
    requires AllConfined(s, {c}) && (forall g: Handler :: Conserved(s, {c}, g)) && PostsConfined(run, {c})
    requires Run(s, run).Some? && Run(s, run).value.phase == Returned
    ensures c < |Run(s, run).value.contexts|
    ensures Drained(s.contexts[c].given, PostedTo(run, c), Run(s, run).value.contexts[c], n)
    ensures NoPosts(run) ==> Run(s, run).value.contexts[c].queue == []
  {
    RunKeepsInv(s, run);
    RunKeepsAccepted(s, run, c, |s.contexts[c].given|);
    RunRecordsGiven(s, run, c);
    var end := Run(s, run).value;
    HaltingStopped(end, c);
    var x := end.contexts[c];
    n := |x.given| - |x.queue|;
    forall g: Handler
      ensures multiset(x.finished)[g] == CopiesIn(x.given[..n], g)
    {
      RunConserves(s, run, {c}, g);
      FinishedIsPrefix(end, c, n, g);
    }
  }

  /** MAsioThreadPool's case, one context: no hypothesis on the handlers is left. */
  lemma SingleContextDrains(s0: Pool, before: seq<Event>, after: seq<Event>) returns (n: nat)
    requires Initial(s0) && |s0.contexts| == 1
    requires Run(s0, before).Some? && Run(s0, before).value.phase == Serving
    requires Run(Run(s0, before).value, after).Some? && Run(Run(s0, before).value, after).value.phase == Returned
    ensures |Run(Run(s0, before).value, after).value.contexts| == 1
    ensures Drained(PostedTo(before, 0), PostedTo(after, 0), Run(Run(s0, before).value, after).value.contexts[0], n)
    ensures NoPosts(after) ==> Run(Run(s0, before).value, after).value.contexts[0].queue == []
  {
    InitialInv(s0);
    RunKeepsInv(s0, before);
    RunKeepsInv(Run(s0, before).value, after);
    PostsAimed(s0, before, {0});
    PostsAimed(Run(s0, before).value, after, {0});
    n := DrainOnStop(s0, before, after, 0);
  }
}
