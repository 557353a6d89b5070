/** When does `stop` leave nothing behind?  In MAsioIOServerPool a handler may post to another
    context; that context can stop, its worker can leave, and the handler then never runs.  This
    module says exactly when: for one context, and for the whole pool. */
module CrossPosts {
  import opened IoPool
  import Shutdown
  import Drain

  // ------------------------------------------------------------------ entering a context

  /** Somewhere in the tree a handler of another context posts to `c`. */
  ghost predicate Enters(h: Handler, c: nat)
    decreases h, 0
  {
    exists i :: 0 <= i < |h.posts| && PostEnters(h.posts[i], h.target, c)
  }

  /** So does the child itself, posted from `home`, or somewhere in its tree a handler. */
  ghost predicate PostEnters(child: Handler, home: nat, c: nat)
    decreases child, 1
  {
    (home != c && child.target == c) || Enters(child, c)
  }

  ghost predicate QueuedEnters(s: Pool, a: nat, c: nat) {
    a < |s.contexts| && exists i: nat :: i < |s.contexts[a].queue| && Enters(s.contexts[a].queue[i], c)
  }

  /** Among what worker `w` has still to post. */
  ghost predicate WorkerEnters(s: Pool, w: nat, c: nat) {
    && w < |s.workers| && s.workers[w].doing.Busy?
    && exists j: nat ::
         && s.workers[w].doing.done <= j < |s.workers[w].doing.handler.posts|
         && PostEnters(s.workers[w].doing.handler.posts[j], s.workers[w].home, c)
  }

  /** Nothing still to be posted, by a handler queued or running, enters `c` from another context. */
  ghost predicate NobodyEnters(s: Pool, c: nat) {
    (forall a: nat :: !QueuedEnters(s, a, c)) && (forall w: nat :: !WorkerEnters(s, w, c))
  }

  /** Stopped only if its queue is empty. */
  ghost predicate StopsEmpty(s: Pool, c: nat) {
    c < |s.contexts| && (s.contexts[c].stopped ==> s.contexts[c].queue == [])
  }

  // ------------------------------------------------------------------ not entering is enough

  lemma TurnKeepsUnentered(s: Pool, w: nat, c: nat)
    requires Inv(s) && NobodyEnters(s, c) && TurnStep(s, w).Some?
    ensures NobodyEnters(TurnStep(s, w).value, c)
  {
    var n := TurnStep(s, w).value;
    var home := s.workers[w].home;
    assert !WorkerEnters(s, w, c) && !QueuedEnters(s, home, c);
    forall a: nat
      ensures !QueuedEnters(n, a, c)
    {
      assert !QueuedEnters(s, a, c);
      if a < |n.contexts| {
        forall i: nat | i < |n.contexts[a].queue|
          ensures !Enters(n.contexts[a].queue[i], c)
        {
          var shift := if s.workers[w].doing.Waiting? && !s.contexts[home].stopped && a == home then 1 else 0;
          if i + shift < |s.contexts[a].queue| {
            assert n.contexts[a].queue[i] == s.contexts[a].queue[i + shift];
          } else {
            assert !PostEnters(s.workers[w].doing.handler.posts[s.workers[w].doing.done], home, c);
          }
        }
      }
    }
    forall v: nat
      ensures !WorkerEnters(n, v, c)
    {
      assert !WorkerEnters(s, v, c);
      if v == w && s.workers[w].doing.Waiting? && !s.contexts[home].stopped {
        assert !Enters(s.contexts[home].queue[0], c) && s.contexts[home].queue[0].target == home;
      }
    }
  }

  lemma TurnStopsEmpty(s: Pool, w: nat, c: nat)
    requires Inv(s) && NobodyEnters(s, c) && StopsEmpty(s, c) && TurnStep(s, w).Some?
    ensures StopsEmpty(TurnStep(s, w).value, c)
  {
    var home := s.workers[w].home;
    if s.workers[w].doing.Busy? {
      assert IsBusy(s.workers[w], home);
      BusyAtZero(s.workers, home);
      assert !WorkerEnters(s, w, c);
    }
  }

  lemma StopKeepsUnentered(s: Pool, c: nat)
    requires Inv(s) && NobodyEnters(s, c) && StopsEmpty(s, c) && StopStep(s).Some?
    ensures NobodyEnters(StopStep(s).value, c) && StopsEmpty(StopStep(s).value, c)
  {
    var n := StopStep(s).value;
    StopMovesNoHandler(s);
    forall a: nat
      ensures !QueuedEnters(n, a, c)
    {
      assert !QueuedEnters(s, a, c);
    }
    forall w: nat
      ensures !WorkerEnters(n, w, c)
    {
      assert !WorkerEnters(s, w, c);
    }
    Drain.HaltingStopped(s, c);
  }

  /** Where nobody enters, the context stops empty, in every interleaving. */
  lemma {:induction false} RunKeepsUnentered(s: Pool, run: seq<Event>, c: nat)
    requires Inv(s) && NobodyEnters(s, c) && StopsEmpty(s, c) && Run(s, run).Some? && NoPosts(run)
    ensures NobodyEnters(Run(s, run).value, c) && StopsEmpty(Run(s, run).value, c)
    decreases |run|
  {
    if run == [] {
    } else {
      assert run[0] in run;
      forall e | e in run[1..]
        ensures e in run
      {
      }
      StepKeepsInv(s, run[0]);
      match run[0] {
        case Turn(w) =>
          TurnKeepsUnentered(s, w, c);
          TurnStopsEmpty(s, w, c);
        case Stopper =>
          StopKeepsUnentered(s, c);
      }
      RunKeepsUnentered(Step(s, run[0]).value, run[1..], c);
    }
  }

  lemma UnenteredDrains(s: Pool, run: seq<Event>, c: nat)
    requires Inv(s) && s.phase == Serving && c < |s.contexts| && NobodyEnters(s, c)
    requires Run(s, run).Some? && NoPosts(run) && Run(s, run).value.phase == Returned
    ensures c < |Run(s, run).value.contexts| && Run(s, run).value.contexts[c].queue == []
  {
    RunKeepsInv(s, run);
    RunKeepsUnentered(s, run, c);
    Drain.HaltingStopped(Run(s, run).value, c);
  }

  // ------------------------------------------------------------------ not entering is necessary

  ghost predicate PostsInto(posts: seq<Handler>, done: nat, c: nat) {
    exists j: nat :: done <= j < |posts| && posts[j].target == c
  }

  ghost predicate QueuedPostsInto(s: Pool, a: nat, c: nat) {
    a < |s.contexts| && exists i: nat :: i < |s.contexts[a].queue| && PostsInto(s.contexts[a].queue[i].posts, 0, c)
  }

  ghost predicate WorkerPostsInto(s: Pool, a: nat, w: nat, c: nat) {
    && w < |s.workers| && IsBusy(s.workers[w], a)
    && PostsInto(s.workers[w].doing.handler.posts, s.workers[w].doing.done, c)
  }

  /** A handler queued or running at another context `a` has itself still to post to `c`. */
  ghost predicate DoorAt(s: Pool, a: nat, c: nat) {
    && a < |s.contexts| && a != c
    && (QueuedPostsInto(s, a, c) || exists w: nat :: WorkerPostsInto(s, a, w, c))
  }

  /** While serving, some worker can take a step towards what enters `c`. */
  lemma SomeTurnWhileServing(s: Pool, c: nat) returns (w: nat)
    requires Inv(s) && s.phase == Serving && !NobodyEnters(s, c)
    ensures TurnStep(s, w).Some?
  {
    if v: nat :| WorkerEnters(s, v, c) {
      w := v;
      Shutdown.BusyCanTurn(s, w);
    } else {
      var a: nat :| QueuedEnters(s, a, c);
      assert HasWorker(s.workers, a);
      w :| w < |s.workers| && s.workers[w].home == a;
      if s.workers[w].doing.Busy? {
        Shutdown.BusyCanTurn(s, w);
      }
    }
  }

  lemma TurnKeepsWorkerEntering(s: Pool, w: nat, c: nat, v: nat)
    requires Inv(s) && WorkerEnters(s, v, c) && TurnStep(s, w).Some?
    requires forall a: nat :: !DoorAt(s, a, c)
    ensures !NobodyEnters(TurnStep(s, w).value, c)
  {
    var n := TurnStep(s, w).value;
    var h, done, home := s.workers[v].doing.handler, s.workers[v].doing.done, s.workers[v].home;
    var j: nat :| done <= j < |h.posts| && PostEnters(h.posts[j], home, c);
    if v != w {
      assert n.workers[v] == s.workers[v];
      assert WorkerEnters(n, v, c);
    } else if j > done {
      assert WorkerEnters(n, v, c);
    } else {
      var child := h.posts[done];
      assert Enters(child, c) by {
        assert home == c || (!DoorAt(s, home, c) && !WorkerPostsInto(s, home, w, c));
      }
      assert n.contexts[child.target].queue[|s.contexts[child.target].queue|] == child;
      assert QueuedEnters(n, child.target, c);
    }
  }

  lemma TurnKeepsQueuedEntering(s: Pool, w: nat, c: nat, a: nat)
    requires Inv(s) && QueuedEnters(s, a, c) && TurnStep(s, w).Some?
    ensures !NobodyEnters(TurnStep(s, w).value, c)
  {
    var n := TurnStep(s, w).value;
    var queue := s.contexts[a].queue;
    var i: nat :| i < |queue| && Enters(queue[i], c);
    if s.workers[w].doing.Waiting? && !s.contexts[a].stopped && s.workers[w].home == a {
      if i == 0 {
        assert queue[0].target == a;
        assert WorkerEnters(n, w, c);
      } else {
        assert n.contexts[a].queue[i - 1] == queue[i];
        assert QueuedEnters(n, a, c);
      }
    } else {
      assert n.contexts[a].queue[i] == queue[i];
      assert QueuedEnters(n, a, c);
    }
  }

  /** Whatever moves, what enters `c` is still to come, as long as nobody is at the door. */
  lemma TurnKeepsEntering(s: Pool, w: nat, c: nat)
    requires Inv(s) && !NobodyEnters(s, c) && TurnStep(s, w).Some?
    requires forall a: nat :: !DoorAt(s, a, c)
    ensures !NobodyEnters(TurnStep(s, w).value, c)
  {
    if v: nat :| WorkerEnters(s, v, c) {
      TurnKeepsWorkerEntering(s, w, c, v);
    } else {
      var a: nat :| QueuedEnters(s, a, c);
      TurnKeepsQueuedEntering(s, w, c, a);
    }
  }

  /** While the guards hold, the workers can bring what enters `c` to its door. */
  lemma {:induction false} ReachDoor(s: Pool, c: nat) returns (run: seq<Event>, a: nat)
    requires Inv(s) && s.phase == Serving && !NobodyEnters(s, c)
    ensures NoPosts(run) && Run(s, run).Some?
    ensures Inv(Run(s, run).value) && Run(s, run).value.phase == Serving && DoorAt(Run(s, run).value, a, c)
    decreases Shutdown.Measure(s)
  {
    if b: nat :| DoorAt(s, b, c) {
      run, a := [], b;
    } else {
      var w := SomeTurnWhileServing(s, c);
      TurnKeepsEntering(s, w, c);
      TurnKeepsGuards(s, w);
      StepKeepsInv(s, Turn(w));
      Shutdown.StepCostsOne(s, Turn(w));
      var more;
      more, a := ReachDoor(TurnStep(s, w).value, c);
      run := [Turn(w)] + more;
      assert run[1..] == more;
    }
  }

  /** Somebody at `a`, which has not stopped, is at the door of `c`. */
  ghost predicate Waits(s: Pool, a: nat, c: nat) {
    Inv(s) && DoorAt(s, a, c) && !s.contexts[a].stopped
  }

  /** Releasing a guard stops no context where a handler is pending. */
  lemma ReleaseKeepsWaiting(s: Pool, a: nat, c: nat)
    requires Waits(s, a, c) && (s.phase.Serving? || s.phase.Releasing?)
    ensures Waits(StopStep(s).value, a, c)
  {
    var n := StopStep(s).value;
    StepKeepsInv(s, Stopper);
    StopMovesNoHandler(s);
    BusyAtZero(s.workers, a);
    if !QueuedPostsInto(s, a, c) {
      var w: nat :| WorkerPostsInto(s, a, w, c);
      assert WorkerPostsInto(n, a, w, c);
    }
  }

  /** `stop` can release every guard before any worker moves. */
  lemma {:induction false} ReleaseAll(s: Pool, a: nat, c: nat) returns (run: seq<Event>)
    requires Waits(s, a, c) && (s.phase.Serving? || s.phase.Releasing?)
    ensures NoPosts(run) && Run(s, run).Some?
    ensures Waits(Run(s, run).value, a, c) && Run(s, run).value.phase == Joining(0)
    decreases Shutdown.StopCost(s)
  {
    var n := StopStep(s).value;
    ReleaseKeepsWaiting(s, a, c);
    StopMovesNoHandler(s);
    var more: seq<Event> := [];
    if n.phase.Releasing? {
      more := ReleaseAll(n, a, c);
    }
    run := [Stopper] + more;
    assert run[1..] == more;
  }

  /** A turn at another context leaves what is pending at `a` pending. */
  lemma TurnElsewhereKeepsWaiting(s: Pool, a: nat, c: nat, w: nat)
    requires Waits(s, a, c) && TurnStep(s, w).Some? && s.workers[w].home != a
    ensures Waits(TurnStep(s, w).value, a, c)
  {
    var n := TurnStep(s, w).value;
    StepKeepsInv(s, Turn(w));
    if QueuedPostsInto(s, a, c) {
      var i: nat :| i < |s.contexts[a].queue| && PostsInto(s.contexts[a].queue[i].posts, 0, c);
      assert n.contexts[a].queue[i] == s.contexts[a].queue[i];
    } else {
      var v: nat :| WorkerPostsInto(s, a, v, c);
      assert WorkerPostsInto(n, a, v, c);
    }
  }

  /** A context without a guard that has not stopped has a worker that can move. */
  lemma SomeTurnAt(s: Pool, b: nat) returns (w: nat)
    requires Inv(s) && b < |s.contexts| && !s.contexts[b].stopped && !s.contexts[b].guarded
    ensures TurnStep(s, w).Some? && s.workers[w].home == b
  {
    BusyAtZero(s.workers, b);
    if v: nat :| v < |s.workers| && IsBusy(s.workers[v], b) {
      w := v;
      Shutdown.BusyCanTurn(s, w);
    } else {
      assert HasWorker(s.workers, b);
      w :| w < |s.workers| && s.workers[w].home == b;
    }
  }

  /** Letting only the workers of `c` run stops it. */
  lemma {:induction false} StopContext(s: Pool, a: nat, c: nat) returns (run: seq<Event>)
    requires Waits(s, a, c) && s.phase.Joining? && c < |s.contexts|
    ensures NoPosts(run) && Run(s, run).Some? && c < |Run(s, run).value.contexts|
    ensures Waits(Run(s, run).value, a, c) && Run(s, run).value.contexts[c].stopped
    decreases Shutdown.Measure(s)
  {
    if s.contexts[c].stopped {
      run := [];
    } else {
      var w := SomeTurnAt(s, c);
      TurnElsewhereKeepsWaiting(s, a, c, w);
      TurnKeepsGuards(s, w);
      Shutdown.StepCostsOne(s, Turn(w));
      var more := StopContext(TurnStep(s, w).value, a, c);
      run := [Turn(w)] + more;
      assert run[1..] == more;
    }
  }

  ghost predicate Stranded(s: Pool, c: nat) {
    c < |s.contexts| && s.contexts[c].stopped && s.contexts[c].queue != []
  }

  lemma StepKeepsStranded(s: Pool, e: Event, c: nat)
    requires Stranded(s, c) && Step(s, e).Some?
    ensures Stranded(Step(s, e).value, c)
  {
  }

  /** What a stopped context holds, it holds for ever. */
  lemma {:induction false} RunKeepsStranded(s: Pool, run: seq<Event>, c: nat)
    requires Stranded(s, c) && Run(s, run).Some?
    ensures Stranded(Run(s, run).value, c)
    decreases |run|
  {
    if run == [] {
    } else {
      StepKeepsStranded(s, run[0], c);
      RunKeepsStranded(Step(s, run[0]).value, run[1..], c);
    }
  }

  /** A turn of `w`, at `a`, keeps a handler queued there for the door. */
  lemma TurnKeepsQueued(s: Pool, a: nat, c: nat, w: nat)
    requires Waits(s, a, c) && QueuedPostsInto(s, a, c)
    requires w < |s.workers| && s.workers[w].home == a
    ensures TurnStep(s, w).Some? && Waits(TurnStep(s, w).value, a, c)
  {
    var queue := s.contexts[a].queue;
    var i: nat :| i < |queue| && PostsInto(queue[i].posts, 0, c);
    if s.workers[w].doing.Busy? {
      Shutdown.BusyCanTurn(s, w);
    }
    var n := TurnStep(s, w).value;
    StepKeepsInv(s, Turn(w));
    if s.workers[w].doing.Waiting? && i == 0 {
      assert WorkerPostsInto(n, a, w, c);
    } else {
      assert n.contexts[a].queue[if s.workers[w].doing.Waiting? then i - 1 else i] == queue[i];
      assert QueuedPostsInto(n, a, c);
    }
    BusyAtZero(n.workers, a);
  }

  /** A turn of the worker at the door keeps it there or goes through. */
  lemma TurnAtDoor(s: Pool, a: nat, c: nat, w: nat)
    requires Waits(s, a, c) && WorkerPostsInto(s, a, w, c) && c < |s.contexts| && s.contexts[c].stopped
    ensures TurnStep(s, w).Some?
    ensures Waits(TurnStep(s, w).value, a, c) || Stranded(TurnStep(s, w).value, c)
  {
    Shutdown.BusyCanTurn(s, w);
    var n := TurnStep(s, w).value;
    StepKeepsInv(s, Turn(w));
    var h, done := s.workers[w].doing.handler, s.workers[w].doing.done;
    if h.posts[done].target != c {
      assert PostsInto(h.posts, done + 1, c);
      assert WorkerPostsInto(n, a, w, c);
    }
  }

  /** Then letting only the workers of `a` run strands a handler at `c`. */
  lemma {:induction false} StrandOne(s: Pool, a: nat, c: nat) returns (run: seq<Event>)
    requires Waits(s, a, c) && c < |s.contexts| && s.contexts[c].stopped
    ensures NoPosts(run) && Run(s, run).Some? && Inv(Run(s, run).value) && Stranded(Run(s, run).value, c)
    decreases Shutdown.Measure(s)
  {
    var w: nat;
    if v: nat :| WorkerPostsInto(s, a, v, c) {
      w := v;
      TurnAtDoor(s, a, c, w);
    } else {
      assert HasWorker(s.workers, a);
      w :| w < |s.workers| && s.workers[w].home == a;
      TurnKeepsQueued(s, a, c, w);
    }
    var n := TurnStep(s, w).value;
    TurnKeepsGuards(s, w);
    Shutdown.StepCostsOne(s, Turn(w));
    StepKeepsInv(s, Turn(w));
    var more: seq<Event> := [];
    if !Stranded(n, c) {
      more := StrandOne(n, a, c);
    }
    run := [Turn(w)] + more;
    assert run[1..] == more;
  }

  /** Where something still to be posted enters `c`, some schedule of `stop` leaves a handler
      behind there. */
  lemma EnteringStrands(s: Pool, c: nat) returns (run: seq<Event>)
    requires Inv(s) && s.phase == Serving && c < |s.contexts| && !NobodyEnters(s, c)
    ensures NoPosts(run) && Run(s, run).Some? && Run(s, run).value.phase == Returned
    ensures c < |Run(s, run).value.contexts| && Run(s, run).value.contexts[c].queue != []
  {
    var approach, a := ReachDoor(s, c);
    var s1 := Run(s, approach).value;
    RunKeepsInv(s, approach);
    var release := ReleaseAll(s1, a, c);
    var s2 := Run(s1, release).value;
    RunKeepsInv(s1, release);
    var halt := StopContext(s2, a, c);
    var s3 := Run(s2, halt).value;
    var strand := StrandOne(s3, a, c);
    var s4 := Run(s3, strand).value;
    var finish := Shutdown.RunToReturn(s4);
    RunKeepsStranded(s4, finish, c);
    RunConcat(s3, strand, finish);
    RunConcat(s2, halt, strand + finish);
    RunConcat(s1, release, halt + (strand + finish));
    RunConcat(s, approach, release + (halt + (strand + finish)));
    run := approach + (release + (halt + (strand + finish)));
    forall e | e in run
      ensures !e.Post?
    {
      assert e in approach || e in release || e in halt || e in strand || e in finish;
    }
  }

  /** Whatever is going on when it is called, `stop` leaves context `c` empty in every
      interleaving if and only if nothing still to be posted enters it from another. */
  lemma ContextDrainsIffUnentered(s: Pool, c: nat)
    requires Inv(s) && s.phase == Serving && c < |s.contexts|
    ensures (forall run: seq<Event> ::
               Run(s, run).Some? && NoPosts(run) && Run(s, run).value.phase == Returned
               ==> c < |Run(s, run).value.contexts| && Run(s, run).value.contexts[c].queue == [])
       <==> NobodyEnters(s, c)
  {
    if NobodyEnters(s, c) {
      forall run: seq<Event> | Run(s, run).Some? && NoPosts(run) && Run(s, run).value.phase == Returned
        ensures c < |Run(s, run).value.contexts| && Run(s, run).value.contexts[c].queue == []
      {
        UnenteredDrains(s, run, c);
      }
    } else {
      var run := EnteringStrands(s, c);
    }
  }

  // ------------------------------------------------------------------ the whole pool

  ghost predicate AllQueuesEmpty(s: Pool) {
    forall c: nat :: c < |s.contexts| ==> s.contexts[c].queue == []
  }

  ghost predicate StaysAt(h: Handler, a: nat) {
    h.target == a && Confined(h, {a})
  }

  /** A handler queued on `a` has a descendant elsewhere. */
  ghost predicate StrayQueued(s: Pool, a: nat) {
    a < |s.contexts| && exists i: nat :: i < |s.contexts[a].queue| && !StaysAt(s.contexts[a].queue[i], a)
  }

  /** The handler that worker `w` runs has such a descendant still to post. */
  ghost predicate StrayAtWorker(s: Pool, w: nat) {
    && w < |s.workers| && s.workers[w].doing.Busy?
    && exists j: nat ::
         && s.workers[w].doing.done <= j < |s.workers[w].doing.handler.posts|
         && !StaysAt(s.workers[w].doing.handler.posts[j], s.workers[w].home)
  }

  /** Nothing that a handler has yet to post, in a queue or being run, leaves its context. */
  ghost predicate NobodyStrays(s: Pool) {
    (forall a: nat :: !StrayQueued(s, a)) && (forall w: nat :: !StrayAtWorker(s, w))
  }

  lemma {:induction false} StayingEntersNowhere(h: Handler, a: nat, c: nat)
    requires StaysAt(h, a)
    ensures !PostEnters(h, a, c)
    decreases h
  {
    forall i | 0 <= i < |h.posts|
      ensures !PostEnters(h.posts[i], h.target, c)
    {
      assert h.posts[i].target in {a};
      StayingEntersNowhere(h.posts[i], a, c);
    }
  }

  lemma {:induction false} StrayEntersSomewhere(h: Handler, a: nat, n: nat) returns (c: nat)
    requires !StaysAt(h, a) && Aimed(h, n)
    ensures c < n && PostEnters(h, a, c)
    decreases h
  {
    if h.target != a {
      c := h.target;
    } else {
      var i :| 0 <= i < |h.posts| && !StaysAt(h.posts[i], a);
      c := StrayEntersSomewhere(h.posts[i], a, n);
    }
  }

  lemma StayingUnentered(s: Pool, c: nat)
    requires Inv(s) && NobodyStrays(s)
    ensures NobodyEnters(s, c)
  {
    forall a: nat
      ensures !QueuedEnters(s, a, c)
    {
      assert !StrayQueued(s, a);
      if a < |s.contexts| {
        forall i: nat | i < |s.contexts[a].queue|
          ensures !Enters(s.contexts[a].queue[i], c)
        {
          StayingEntersNowhere(s.contexts[a].queue[i], a, c);
        }
      }
    }
    forall w: nat
      ensures !WorkerEnters(s, w, c)
    {
      assert !StrayAtWorker(s, w);
      if w < |s.workers| && s.workers[w].doing.Busy? {
        var posts := s.workers[w].doing.handler.posts;
        forall j: nat | s.workers[w].doing.done <= j < |posts|
          ensures !PostEnters(posts[j], s.workers[w].home, c)
        {
          StayingEntersNowhere(posts[j], s.workers[w].home, c);
        }
      }
    }
  }

  lemma StrayEnters(s: Pool) returns (c: nat)
    requires Inv(s) && !NobodyStrays(s)
    ensures c < |s.contexts| && !NobodyEnters(s, c)
  {
    if a: nat :| StrayQueued(s, a) {
      var i: nat :| i < |s.contexts[a].queue| && !StaysAt(s.contexts[a].queue[i], a);
      var h := s.contexts[a].queue[i];
      assert Aimed(h, |s.contexts|) && h.target == a;
      c := StrayEntersSomewhere(h, a, |s.contexts|);
      assert Enters(h, c);
      assert QueuedEnters(s, a, c);
    } else {
      var w: nat :| StrayAtWorker(s, w);
      var h := s.workers[w].doing.handler;
      var j: nat :| s.workers[w].doing.done <= j < |h.posts| && !StaysAt(h.posts[j], s.workers[w].home);
      assert Aimed(h, |s.contexts|);
      c := StrayEntersSomewhere(h.posts[j], s.workers[w].home, |s.contexts|);
      assert WorkerEnters(s, w, c);
    }
  }

  /** Nothing leaves its context if and only if nothing enters any. */
  lemma StayingIsUnentered(s: Pool)
    requires Inv(s)
    ensures NobodyStrays(s) <==> forall c: nat :: c < |s.contexts| ==> NobodyEnters(s, c)
  {
    if NobodyStrays(s) {
      forall c: nat | c < |s.contexts|
        ensures NobodyEnters(s, c)
      {
        StayingUnentered(s, c);
      }
    } else {
      var c := StrayEnters(s);
    }
  }

  lemma StayingDrains(s: Pool, run: seq<Event>)
    requires Inv(s) && s.phase == Serving && NobodyStrays(s)
    requires Run(s, run).Some? && NoPosts(run) && Run(s, run).value.phase == Returned
    ensures AllQueuesEmpty(Run(s, run).value)
  {
    RunKeepsInv(s, run);
    forall c: nat | c < |s.contexts|
      ensures Run(s, run).value.contexts[c].queue == []
    {
      StayingUnentered(s, c);
      UnenteredDrains(s, run, c);
    }
  }

  lemma StrayingStrands(s: Pool) returns (run: seq<Event>)
    requires Inv(s) && s.phase == Serving && !NobodyStrays(s)
    ensures NoPosts(run) && Run(s, run).Some? && Run(s, run).value.phase == Returned
    ensures !AllQueuesEmpty(Run(s, run).value)
  {
    var c := StrayEnters(s);
    run := EnteringStrands(s, c);
  }

  /** `stop` leaves every queue empty in every interleaving if and only if nothing still to be
      posted leaves its context. */
  lemma DrainsIffHandlersStay(s: Pool)
    requires Inv(s) && s.phase == Serving
    ensures (forall run: seq<Event> ::
               Run(s, run).Some? && NoPosts(run) && Run(s, run).value.phase == Returned
               ==> AllQueuesEmpty(Run(s, run).value))
       <==> NobodyStrays(s)
  {
    if NobodyStrays(s) {
      forall run: seq<Event> | Run(s, run).Some? && NoPosts(run) && Run(s, run).value.phase == Returned
        ensures AllQueuesEmpty(Run(s, run).value)
      {
        StayingDrains(s, run);
      }
    } else {
      var run := StrayingStrands(s);
    }
  }

  /** It does happen: in a fresh pool of two contexts with a worker each, a handler of the first
      that posts to the second, given before `stop` is called, may leave its child behind. */
  lemma CrossPostIsLeftBehind(s0: Pool) returns (run: seq<Event>)
    requires s0.contexts == [FreshContext(), FreshContext()] && s0.phase == Serving
    requires s0.workers == [Worker(0, Waiting), Worker(1, Waiting)]
    ensures Initial(s0) && Run(s0, run).Some? && Run(s0, run).value.phase == Returned
    ensures !AllQueuesEmpty(Run(s0, run).value)
  {
    assert s0.workers[0].home == 0 && s0.workers[1].home == 1;
    assert HasWorker(s0.workers, 0) && HasWorker(s0.workers, 1);
    InitialInv(s0);
    var child := Handler(1, 1, []);
    var given := Handler(0, 0, [child]);
    assert Aimed(child, 2) && Aimed(given, 2);
    var s1 := Step(s0, Post(given)).value;
    StepKeepsInv(s0, Post(given));
    assert s1.contexts[0].queue == [given] && s1.contexts[0].queue[0] == given;
    assert given.posts[0] == child && child.target !in {0};
    assert !StaysAt(given, 0);
    assert StrayQueued(s1, 0);
    var stop := StrayingStrands(s1);
    run := [Post(given)] + stop;
    assert run[1..] == stop;
  }
}
