/** The I/O pools, as a transition system: contexts (queues of handlers with an outstanding-work
    count), worker threads that sit in `run`, and the thread that calls `stop`.

    A context stops when its work count reaches zero; that is how io_context::run comes to
    return.  MAsioThreadPool is the instance with one context and many workers,
    MAsioIOServerPool the instance with one worker per context. */
module IoPool {
  import opened Prelude

  // ------------------------------------------------------------------ handlers

  /** A handler is a finite tree: running it posts `posts`, in order, each to its own target
      context. */
  datatype Handler = Handler(id: nat, target: nat, posts: seq<Handler>)

  /** Every handler of a tree posts to one of `n` contexts. */
  ghost predicate Aimed(h: Handler, n: nat)
    decreases h
  {
    h.target < n && forall i :: 0 <= i < |h.posts| ==> Aimed(h.posts[i], n)
  }

  /** The tree does not cross the boundary of `zone`: it lies wholly inside or wholly outside. */
  ghost predicate Confined(h: Handler, zone: set<nat>)
    decreases h
  {
    forall i :: 0 <= i < |h.posts| ==>
      (h.posts[i].target in zone <==> h.target in zone) && Confined(h.posts[i], zone)
  }

  /** How often handler `g` occurs in a tree: how often it must run for the tree to have run. */
  ghost function Copies(h: Handler, g: Handler): nat
    decreases h, 0
  {
    (if h == g then 1 else 0) + CopiesIn(h.posts, g)
  }

  ghost function CopiesIn(hs: seq<Handler>, g: Handler): nat
    decreases hs, 1
  {
    if hs == [] then 0 else Copies(hs[0], g) + CopiesIn(hs[1..], g)
  }

  lemma {:induction false} CopiesInConcat(a: seq<Handler>, b: seq<Handler>, g: Handler)
    ensures CopiesIn(a + b, g) == CopiesIn(a, g) + CopiesIn(b, g)
    decreases |a|
  {
    if a == [] {
      assert a + b == b;
    } else {
      assert (a + b)[1..] == a[1..] + b;
      CopiesInConcat(a[1..], b, g);
    }
  }

  lemma CopiesInAppend(hs: seq<Handler>, h: Handler, g: Handler)
    ensures CopiesIn(hs + [h], g) == CopiesIn(hs, g) + Copies(h, g)
  {
    CopiesInConcat(hs, [h], g);
    assert [h][1..] == [];
  }

  // ------------------------------------------------------------------ states

  /** `work` counts the guard, the queued handlers and the handlers being run.  The last four
      fields are histories: outside posts, all posts, handlers begun and handlers run to the
      end. */
  datatype Context = Context(
    queue: seq<Handler>, work: int, stopped: bool, guarded: bool,
    given: seq<Handler>, posted: seq<Handler>, started: seq<Handler>, finished: seq<Handler>)

  datatype Doing = Waiting | Busy(handler: Handler, done: nat) | Left

  /** A thread inside `run` of context `home`; `Left` once that call has returned. */
  datatype Worker = Worker(home: nat, doing: Doing)

  /** Where the thread that calls `stop` is. */
  datatype Phase = Serving | Releasing(guard: nat) | Joining(thread: nat) | Halting | Returned

  /** `halts`: whether `stop` ends by stopping the context itself. */
  datatype Pool = Pool(contexts: seq<Context>, workers: seq<Worker>, phase: Phase, halts: bool)

  datatype Event =
    | Post(handler: Handler)   // an outside thread posts
    | Turn(worker: nat)        // the next atomic step of a worker
    | Stopper                  // the next atomic step of the thread that calls stop

  // ------------------------------------------------------------------ steps

  function Enqueue(x: Context, h: Handler): Context {
    x.(queue := x.queue + [h], work := x.work + 1, posted := x.posted + [h])
  }

  /** One unit of work is over; the last one stops the context. */
  function WorkFinished(x: Context): Context {
    x.(work := x.work - 1, stopped := x.stopped || x.work == 1)
  }

  /** A worker's next step.  Waiting: leave a stopped context, else take the oldest handler.
      Busy: post the next child, or finish. */
  function TurnStep(s: Pool, w: nat): Option<Pool> {
    if w >= |s.workers| || s.workers[w].home >= |s.contexts| then None else
    var home := s.workers[w].home;
    var x := s.contexts[home];
    match s.workers[w].doing
    case Left => None
    case Waiting =>
      if x.stopped then
        Some(s.(workers := s.workers[w := Worker(home, Left)]))
      else if x.queue == [] then None
      else
        Some(s.(contexts := s.contexts[home := x.(queue := x.queue[1..], started := x.started + [x.queue[0]])],
                workers := s.workers[w := Worker(home, Busy(x.queue[0], 0))]))
    case Busy(h, done) =>
      if done < |h.posts| then
        var child := h.posts[done];
        if child.target >= |s.contexts| then None
        else
          Some(s.(contexts := s.contexts[child.target := Enqueue(s.contexts[child.target], child)],
                  workers := s.workers[w := Worker(home, Busy(h, done + 1))]))
      else
        Some(s.(contexts := s.contexts[home := WorkFinished(x).(finished := x.finished + [h])],
                workers := s.workers[w := Worker(home, Waiting)]))
  }

  /** The next step of `stop`: release the guards in order, join the workers in order (a join
      waits until the worker has left), then stop the contexts if this pool does. */
  function StopStep(s: Pool): Option<Pool> {
    match s.phase
    case Serving => Some(s.(phase := Releasing(0)))
    case Releasing(g) =>
      if g < |s.contexts| then
        Some(s.(contexts := s.contexts[g := WorkFinished(s.contexts[g]).(guarded := false)], phase := Releasing(g + 1)))
      else Some(s.(phase := Joining(0)))
    case Joining(t) =>
      if t < |s.workers| then
        if s.workers[t].doing.Left? then Some(s.(phase := Joining(t + 1))) else None
      else Some(s.(phase := if s.halts then Halting else Returned))
    case Halting =>
      Some(s.(contexts := seq(|s.contexts|, i requires 0 <= i < |s.contexts| => s.contexts[i].(stopped := true)),
              phase := Returned))
    case Returned => None
  }

  ghost function Step(s: Pool, e: Event): Option<Pool> {
    match e
    case Post(h) =>
      if !Aimed(h, |s.contexts|) then None
      else
        var x := Enqueue(s.contexts[h.target], h);
        Some(s.(contexts := s.contexts[h.target := x.(given := x.given + [h])]))
    case Turn(w) => TurnStep(s, w)
    case Stopper => StopStep(s)
  }

  ghost function Run(s: Pool, run: seq<Event>): Option<Pool>
    decreases |run|
  {
    if run == [] then Some(s)
    else match Step(s, run[0])
         case None => None
         case Some(next) => Run(next, run[1..])
  }

  ghost predicate NoPosts(run: seq<Event>) {
    forall e :: e in run ==> !e.Post?
  }

  lemma {:induction false} RunConcat(s: Pool, a: seq<Event>, b: seq<Event>)
    requires Run(s, a).Some?
    ensures Run(s, a + b) == Run(Run(s, a).value, b)
    decreases |a|
  {
    if a == [] {
      assert a + b == b;
    } else {
      assert (a + b)[1..] == a[1..] + b;
      RunConcat(Step(s, a[0]).value, a[1..], b);
    }
  }

  // ------------------------------------------------------------------ counting the busy workers

  ghost function Total(parts: seq<nat>): nat
    decreases |parts|
  {
    if parts == [] then 0 else parts[0] + Total(parts[1..])
  }

  lemma {:induction false} TotalUpdate(parts: seq<nat>, i: nat, x: nat)
    requires i < |parts|
    ensures Total(parts[i := x]) + parts[i] == Total(parts) + x
    decreases |parts|
  {
    if i == 0 {
      assert parts[0 := x][1..] == parts[1..];
    } else {
      assert parts[i := x][1..] == parts[1..][i - 1 := x];
      TotalUpdate(parts[1..], i - 1, x);
    }
  }

  lemma {:induction false} TotalZero(parts: seq<nat>)
    ensures Total(parts) == 0 <==> forall i :: 0 <= i < |parts| ==> parts[i] == 0
    decreases |parts|
  {
    if parts == [] {
    } else {
      TotalZero(parts[1..]);
      assert forall i :: 0 <= i < |parts| - 1 ==> parts[1..][i] == parts[i + 1];
      assert (forall i :: 0 <= i < |parts| ==> parts[i] == 0)
          <==> parts[0] == 0 && forall i :: 0 <= i < |parts[1..]| ==> parts[1..][i] == 0 by {
        if parts[0] == 0 && forall i :: 0 <= i < |parts[1..]| ==> parts[1..][i] == 0 {
          forall i | 0 <= i < |parts|
            ensures parts[i] == 0
          {
            assert i > 0 ==> parts[1..][i - 1] == parts[i];
          }
        }
      }
    }
  }

  ghost predicate IsBusy(w: Worker, c: nat) {
    w.home == c && w.doing.Busy?
  }

  ghost function BusyMarks(workers: seq<Worker>, c: nat): seq<nat> {
    seq(|workers|, i requires 0 <= i < |workers| => if IsBusy(workers[i], c) then 1 else 0)
  }

  ghost function BusyAt(workers: seq<Worker>, c: nat): nat {
    Total(BusyMarks(workers, c))
  }

  lemma BusyAtUpdate(workers: seq<Worker>, c: nat, w: nat, now: Worker)
    requires w < |workers|
    ensures BusyAt(workers[w := now], c) + (if IsBusy(workers[w], c) then 1 else 0)
         == BusyAt(workers, c) + (if IsBusy(now, c) then 1 else 0)
  {
    var mark := if IsBusy(now, c) then 1 else 0;
    assert BusyMarks(workers[w := now], c) == BusyMarks(workers, c)[w := mark];
    TotalUpdate(BusyMarks(workers, c), w, mark);
  }

  lemma BusyAtZero(workers: seq<Worker>, c: nat)
    ensures BusyAt(workers, c) == 0 <==> forall i :: 0 <= i < |workers| ==> !IsBusy(workers[i], c)
  {
    var marks := BusyMarks(workers, c);
    TotalZero(marks);
    if BusyAt(workers, c) == 0 {
      forall i | 0 <= i < |workers|
        ensures !IsBusy(workers[i], c)
      {
        assert marks[i] == 0;
      }
    }
  }

  // ------------------------------------------------------------------ the invariant

  ghost predicate HasWorker(workers: seq<Worker>, c: nat) {
    exists w: nat :: w < |workers| && workers[w].home == c
  }

  /** Every context has a worker; the constructors see to it when there is at least one thread. */
  ghost predicate Staffed(s: Pool) {
    forall c: nat :: c < |s.contexts| ==> HasWorker(s.workers, c)
  }

  ghost predicate WellAimed(s: Pool) {
    && (forall c: nat, i: nat :: c < |s.contexts| && i < |s.contexts[c].queue| ==>
          Aimed(s.contexts[c].queue[i], |s.contexts|) && s.contexts[c].queue[i].target == c)
    && (forall w: nat :: w < |s.workers| ==> s.workers[w].home < |s.contexts|)
    && (forall w: nat :: w < |s.workers| && s.workers[w].doing.Busy? ==>
          && Aimed(s.workers[w].doing.handler, |s.contexts|)
          && s.workers[w].doing.handler.target == s.workers[w].home
          && s.workers[w].doing.done <= |s.workers[w].doing.handler.posts|)
  }

  /** The work count is exact, a context runs on while it is positive, and a stopped context has
      neither guard nor running handler. */
  ghost predicate CountedAt(x: Context, busy: nat) {
    && x.work == (if x.guarded then 1 else 0) + |x.queue| + busy
    && (!x.stopped ==> x.work > 0)
    && (x.stopped ==> !x.guarded && busy == 0)
  }

  ghost predicate Counted(s: Pool) {
    forall c: nat :: c < |s.contexts| ==> CountedAt(s.contexts[c], BusyAt(s.workers, c))
  }

  ghost predicate InPhase(s: Pool) {
    && (forall w: nat :: w < |s.workers| && s.workers[w].doing.Left? && s.workers[w].home < |s.contexts| ==>
          s.contexts[s.workers[w].home].stopped)
    && (match s.phase
        case Serving => forall c: nat :: c < |s.contexts| ==> s.contexts[c].guarded
        case Releasing(g) =>
          g <= |s.contexts| && forall c: nat :: c < |s.contexts| ==> (s.contexts[c].guarded <==> g <= c)
        case Joining(t) =>
          && t <= |s.workers|
          && (forall c: nat :: c < |s.contexts| ==> !s.contexts[c].guarded)
          && (forall w: nat :: w < t ==> s.workers[w].doing.Left?)
        case _ =>
          && (forall c: nat :: c < |s.contexts| ==> !s.contexts[c].guarded)
          && (forall w: nat :: w < |s.workers| ==> s.workers[w].doing.Left?))
  }

  ghost predicate Inv(s: Pool) {
    Staffed(s) && WellAimed(s) && Counted(s) && InPhase(s)
  }

  function FreshContext(): Context {
    Context([], 1, false, true, [], [], [], [])
  }

  /** A pool as its constructor leaves it: every context guarded, every worker in `run`. */
  ghost predicate Initial(s: Pool) {
    && s.phase == Serving
    && Staffed(s)
    && (forall c: nat :: c < |s.contexts| ==> s.contexts[c] == FreshContext())
    && (forall w: nat :: w < |s.workers| ==> s.workers[w].home < |s.contexts| && s.workers[w].doing == Waiting)
  }

  lemma InitialInv(s: Pool)
    requires Initial(s)
    ensures Inv(s)
  {
    forall c: nat | c < |s.contexts|
      ensures BusyAt(s.workers, c) == 0
    {
      BusyAtZero(s.workers, c);
    }
  }

  lemma StepKeepsHomes(s: Pool, e: Event)
    requires Step(s, e).Some?
    ensures var n := Step(s, e).value;
            && |n.contexts| == |s.contexts| && |n.workers| == |s.workers| && n.halts == s.halts
            && forall w: nat :: w < |s.workers| ==> n.workers[w].home == s.workers[w].home
  {
  }

  lemma {:induction false} RunKeepsHomes(s: Pool, run: seq<Event>)
    requires Run(s, run).Some?
    ensures var n := Run(s, run).value;
            && |n.contexts| == |s.contexts| && |n.workers| == |s.workers| && n.halts == s.halts
            && forall w: nat :: w < |s.workers| ==> n.workers[w].home == s.workers[w].home
    decreases |run|
  {
    if run == [] {
    } else {
      StepKeepsHomes(s, run[0]);
      RunKeepsHomes(Step(s, run[0]).value, run[1..]);
    }
  }

  lemma StopMovesNoHandler(s: Pool)
    requires StopStep(s).Some?
    ensures var n := StopStep(s).value;
            && n.workers == s.workers && |n.contexts| == |s.contexts|
            && forall c: nat :: c < |s.contexts| ==>
                 var x, y := s.contexts[c], n.contexts[c];
                 && y.queue == x.queue && y.given == x.given && y.finished == x.finished
                 && (x.stopped ==> y.stopped)
  {
  }

  lemma TurnKeepsGuards(s: Pool, w: nat)
    requires TurnStep(s, w).Some?
    ensures var n := TurnStep(s, w).value;
            && n.phase == s.phase && |n.contexts| == |s.contexts|
            && forall c: nat :: c < |s.contexts| ==>
                 && n.contexts[c].guarded == s.contexts[c].guarded
                 && (s.contexts[c].stopped ==> n.contexts[c].stopped)
  {
  }

  lemma StepKeepsStaffed(s: Pool, e: Event)
    requires Staffed(s) && Step(s, e).Some?
    ensures Staffed(Step(s, e).value)
  {
    var n := Step(s, e).value;
    StepKeepsHomes(s, e);
    forall c: nat | c < |n.contexts|
      ensures HasWorker(n.workers, c)
    {
      assert HasWorker(s.workers, c);
      var v: nat :| v < |s.workers| && s.workers[v].home == c;
      assert n.workers[v].home == c;
    }
  }

  lemma TurnKeepsAim(s: Pool, w: nat)
    requires WellAimed(s) && TurnStep(s, w).Some?
    ensures WellAimed(TurnStep(s, w).value)
  {
  }

  lemma TurnKeepsCount(s: Pool, w: nat)
    requires WellAimed(s) && Counted(s) && TurnStep(s, w).Some?
    ensures Counted(TurnStep(s, w).value)
  {
    var n := TurnStep(s, w).value;
    var home := s.workers[w].home;
    BusyAtZero(s.workers, home);
    if s.workers[w].doing.Busy? {
      assert IsBusy(s.workers[w], home);
    }
    forall c: nat | c < |n.contexts|
      ensures CountedAt(n.contexts[c], BusyAt(n.workers, c))
    {
      assert CountedAt(s.contexts[c], BusyAt(s.workers, c));
      BusyAtUpdate(s.workers, c, w, n.workers[w]);
    }
  }

  lemma TurnKeepsPhase(s: Pool, w: nat)
    requires WellAimed(s) && Counted(s) && InPhase(s) && TurnStep(s, w).Some?
    ensures InPhase(TurnStep(s, w).value)
  {
    var n := TurnStep(s, w).value;
    TurnKeepsGuards(s, w);
    assert !s.workers[w].doing.Left?;
    forall v: nat | v < |n.workers| && n.workers[v].doing.Left? && n.workers[v].home < |n.contexts|
      ensures n.contexts[n.workers[v].home].stopped
    {
      if v != w {
        assert n.workers[v] == s.workers[v];
      }
    }
    forall v: nat | v < |s.workers| && s.workers[v].doing.Left?
      ensures n.workers[v].doing.Left?
    {
      assert v != w;
    }
  }

  lemma StopKeepsCount(s: Pool)
    requires WellAimed(s) && Counted(s) && InPhase(s) && StopStep(s).Some?
    ensures Counted(StopStep(s).value)
  {
    var n := StopStep(s).value;
    assert n.workers == s.workers;
    if s.phase.Halting? {
      forall c: nat | c < |s.contexts|
        ensures BusyAt(s.workers, c) == 0
      {
        BusyAtZero(s.workers, c);
      }
    }
  }

  lemma StopKeepsPhase(s: Pool)
    requires WellAimed(s) && InPhase(s) && StopStep(s).Some?
    ensures InPhase(StopStep(s).value)
  {
  }

  lemma StopKeepsAim(s: Pool)
    requires WellAimed(s) && StopStep(s).Some?
    ensures WellAimed(StopStep(s).value)
  {
  }

  lemma PostKeepsAim(s: Pool, h: Handler)
    requires WellAimed(s) && Step(s, Post(h)).Some?
    ensures WellAimed(Step(s, Post(h)).value)
  {
  }

  lemma PostKeepsCountAndPhase(s: Pool, h: Handler)
    requires Counted(s) && InPhase(s) && Step(s, Post(h)).Some?
    ensures Counted(Step(s, Post(h)).value) && InPhase(Step(s, Post(h)).value)
  {
  }

  lemma StepKeepsInv(s: Pool, e: Event)
    requires Inv(s) && Step(s, e).Some?
    ensures Inv(Step(s, e).value)
  {
    StepKeepsStaffed(s, e);
    match e
    case Post(h) =>
      PostKeepsAim(s, h);
      PostKeepsCountAndPhase(s, h);
    case Turn(w) =>
      TurnKeepsAim(s, w);
      TurnKeepsCount(s, w);
      TurnKeepsPhase(s, w);
    case Stopper =>
      StopKeepsAim(s);
      StopKeepsCount(s);
      StopKeepsPhase(s);
  }

  lemma {:induction false} RunKeepsInv(s: Pool, run: seq<Event>)
    requires Inv(s) && Run(s, run).Some?
    ensures Inv(Run(s, run).value)
    ensures |Run(s, run).value.contexts| == |s.contexts| && |Run(s, run).value.workers| == |s.workers|
    decreases |run|
  {
    if run == [] {
    } else {
      StepKeepsInv(s, run[0]);
      StepKeepsHomes(s, run[0]);
      RunKeepsInv(Step(s, run[0]).value, run[1..]);
    }
  }
}
