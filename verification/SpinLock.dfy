/** The spin lock of MAtomicLock: one atomic flag, taken by `test_and_set` in a loop and
    released by `clear`.

    The lock is modelled twice.  `Step` is a transition system over any number of threads whose
    critical sections are multi-step programs over a shared state; every theorem about
    interleavings is about its runs.  The class `MAtomicLock` is the object itself, whose `Lock`
    is the source's loop; `AcquiresIffFoundClear` ties the two together. */
module SpinLock {
  import opened Prelude

  type Thread = nat

  // ------------------------------------------------------------------ programs and states

  /** What a thread does between `lock` and `unlock`: atomic accesses to the shared state `S`
      (each may also read and write the thread's private state `P`), where what comes next depends
      on the private state reached, over at one that `next` does not list.  So any section whose
      runs all end is one, also a loop whose length depends on what it reads. */
  datatype Section<!S, !P> =
    | Done
    | Access(access: (S, P) -> (S, P), next: imap<P, Section<S, P>>)
  {
    ghost function After(private: P): Section<S, P>
      requires Access?
    {
      if private in next then next[private] else Done
    }
  }

  /** Where a thread is: outside the lock, in the `while` of `lock`, or between `lock` and
      `unlock` with part of its section still to do. */
  datatype Place<!S, !P> =
    | Outside
    | Spinning(body: Section<S, P>)
    | Inside(rest: Section<S, P>)

  datatype State<!S, !P> = State(flag: bool, shared: S, privates: seq<P>, places: seq<Place<S, P>>)
  {
    ghost predicate IsThread(t: Thread) {
      t < |places| && t < |privates|
    }

    ghost predicate Holds(t: Thread) {
      t < |places| && places[t].Inside?
    }
  }

  /** One atomic step of one thread. */
  datatype Event<!S, !P> =
    | Call(thread: Thread, body: Section<S, P>)       // enter lock()
    | TestAndSet(thread: Thread)                      // one turn of the loop in lock()
    | Work(thread: Thread)                            // one step of the section
    | Clear(thread: Thread)                           // unlock()
    | Probe(thread: Thread, use: (P, bool) -> P)      // try_lock(), whose answer the thread uses
    | Private(thread: Thread, update: P -> P)         // a step that touches only private state

  /** The effect of one atomic step; None when the thread is not at a point where its program
      could take it.  `Clear` is the raw `clear()`: it does not look at who holds the lock. */
  ghost function Step<S, P>(s: State<S, P>, e: Event<S, P>): Option<State<S, P>> {
    var t := e.thread;
    if !s.IsThread(t) then None else
    match e
    case Call(_, body) =>
      if s.places[t].Outside? then Some(s.(places := s.places[t := Spinning(body)])) else None
    case TestAndSet(_) =>
      if !s.places[t].Spinning? then None
      else if s.flag then Some(s)
      else Some(s.(flag := true, places := s.places[t := Inside(s.places[t].body)]))
    case Work(_) =>
      if !s.places[t].Inside? then None else
      (match s.places[t].rest
       case Done => None
       case Access(access, _) =>
         var (shared, private) := access(s.shared, s.privates[t]);
         Some(s.(shared := shared, privates := s.privates[t := private],
                 places := s.places[t := Inside(s.places[t].rest.After(private))])))
    case Clear(_) =>
      if s.places[t].Spinning? then None
      else Some(s.(flag := false, places := s.places[t := Outside]))
    case Probe(_, use) =>
      if s.places[t].Outside? then Some(s.(privates := s.privates[t := use(s.privates[t], s.flag)])) else None
    case Private(_, update) =>
      if s.places[t].Outside? then Some(s.(privates := s.privates[t := update(s.privates[t])])) else None
  }

  /** The rule the callers must keep and the code does not check: `unlock` is called by the
      thread that holds the lock, at the end of its section. */
  ghost predicate Disciplined<S, P>(s: State<S, P>, e: Event<S, P>) {
    e.Clear? ==> s.Holds(e.thread) && s.places[e.thread].rest.Done?
  }

  /** The state after an interleaving `run` of disciplined steps, or None if it is not one. */
  ghost function Run<S, P>(s: State<S, P>, run: seq<Event<S, P>>): Option<State<S, P>>
    decreases |run|
  {
    if run == [] then Some(s)
    else if !Disciplined(s, run[0]) then None
    else match Step(s, run[0])
         case None => None
         case Some(next) => Run(next, run[1..])
  }

  ghost predicate Initial<S, P>(s: State<S, P>) {
    !s.flag && |s.privates| == |s.places| && forall t: Thread :: t < |s.places| ==> s.places[t].Outside?
  }

  // ------------------------------------------------------------------ mutual exclusion

  /** At most one thread is inside, and the flag says whether one is. */
  ghost predicate Exclusive<S, P>(s: State<S, P>) {
    && |s.privates| == |s.places|
    && (forall t: Thread, u: Thread :: s.Holds(t) && s.Holds(u) ==> t == u)
    && (s.flag <==> exists t: Thread :: s.Holds(t))
  }

  lemma StepKeepsExclusive<S, P>(s: State<S, P>, e: Event<S, P>)
    requires Exclusive(s) && Disciplined(s, e) && Step(s, e).Some?
    ensures Exclusive(Step(s, e).value)
  {
    var n := Step(s, e).value;
    var t := e.thread;
    forall u: Thread | u != t
      ensures n.Holds(u) <==> s.Holds(u)
    {
    }
    assert n.Holds(t) ==> s.Holds(t) || !s.flag;
    forall u: Thread, v: Thread | n.Holds(u) && n.Holds(v)
      ensures u == v
    {
      assert s.Holds(u) || u == t;
      assert s.Holds(v) || v == t;
    }
    if n.flag {
      assert n.Holds(t) || exists u: Thread :: u != t && s.Holds(u);
    }
  }

  lemma {:induction false} RunKeepsExclusive<S, P>(s: State<S, P>, run: seq<Event<S, P>>)
    requires Exclusive(s) && Run(s, run).Some?
    ensures Exclusive(Run(s, run).value)
    decreases |run|
  {
    if run == [] {
    } else {
      StepKeepsExclusive(s, run[0]);
      RunKeepsExclusive(Step(s, run[0]).value, run[1..]);
    }
  }

  lemma MutualExclusion<S, P>(s0: State<S, P>, run: seq<Event<S, P>>)
    requires Initial(s0) && Run(s0, run).Some?
    ensures Exclusive(Run(s0, run).value)
  {
    RunKeepsExclusive(s0, run);
  }

  /** `try_lock` answers whether some thread holds the lock, and its caller's private state is all
      that changes. */
  lemma ProbeTellsWhetherHeld<S, P>(s: State<S, P>, t: Thread, use: (P, bool) -> P)
    requires Exclusive(s) && Step(s, Probe(t, use)).Some?
    ensures var n := Step(s, Probe(t, use)).value;
            && t < |s.privates|
            && n == s.(privates := s.privates[t := use(s.privates[t], exists h: Thread :: s.Holds(h))])
  {
  }

  /** What the missing owner check costs, exactly: a `clear` by any thread whatever keeps the
      lock's guarantee if and only if that thread holds the lock or nobody does. */
  lemma ClearSafeIffHolderOrFree<S, P>(s: State<S, P>, t: Thread)
    requires Exclusive(s) && Step(s, Clear(t)).Some?
    ensures Exclusive(Step(s, Clear(t)).value) <==> s.Holds(t) || !s.flag
  {
    var n := Step(s, Clear(t)).value;
    forall u: Thread | u != t
      ensures n.Holds(u) <==> s.Holds(u)
    {
    }
    if s.flag && !s.Holds(t) {
      var h: Thread :| s.Holds(h);
      assert n.Holds(h);
    }
  }

  ghost predicate TwoInside<S, P>(s: State<S, P>) {
    exists t: Thread, u: Thread :: t != u && s.Holds(t) && s.Holds(u)
  }

  /** The harm that can come of it: after a `clear` by a thread the others, however disciplined
      they are from then on, can get two threads inside if and only if the lock was held by
      another. */
  lemma ClearAdmitsTwoIffHeldByOther<S, P>(s: State<S, P>, t: Thread)
    requires Exclusive(s) && Step(s, Clear(t)).Some?
    ensures (exists run: seq<Event<S, P>> ::
               Run(Step(s, Clear(t)).value, run).Some? && TwoInside(Run(Step(s, Clear(t)).value, run).value))
       <==> s.flag && !s.Holds(t)
  {
    var n := Step(s, Clear(t)).value;
    if s.flag && !s.Holds(t) {
      var run := StealLock(n, t);
      var h: Thread :| s.Holds(h);
      assert n.Holds(h) && h != t;
      assert TwoInside(Run(n, run).value);
    } else {
      ClearSafeIffHolderOrFree(s, t);
      forall run: seq<Event<S, P>> | Run(n, run).Some?
        ensures !TwoInside(Run(n, run).value)
      {
        RunKeepsExclusive(n, run);
      }
    }
  }

  /** A thread outside gets in by `lock` once the flag is clear, whoever is inside. */
  lemma StealLock<S, P>(s: State<S, P>, t: Thread) returns (run: seq<Event<S, P>>)
    requires s.IsThread(t) && s.places[t].Outside? && !s.flag
    ensures Run(s, run).Some? && Run(s, run).value.Holds(t)
    ensures forall u: Thread :: s.Holds(u) ==> Run(s, run).value.Holds(u)
  {
    var s1 := Step(s, Call(t, Done)).value;
    var s2 := Step(s1, TestAndSet(t)).value;
    run := [Call(t, Done), TestAndSet(t)];
    assert run[1..] == [TestAndSet(t)] && run[1..][1..] == [];
    assert Run(s2, run[1..][1..]) == Some(s2);
    assert Run(s1, run[1..]) == Some(s2);
  }

  // ------------------------------------------------------------------ serialisation

  /** A whole section as one atomic action. */
  ghost function Perform<S, P>(section: Section<S, P>, shared: S, private: P): (S, P)
    decreases section
  {
    match section
    case Done => (shared, private)
    case Access(access, next) =>
      var (shared', private') := access(shared, private);
      if private' in next then Perform(next[private'], shared', private') else (shared', private')
  }

  /** What is left of a run when sections are made atomic: whole sections, each placed where its
      thread acquired the lock, and the private steps and try_locks taken outside. */
  datatype Entry<!S, !P> =
    | Whole(thread: Thread, body: Section<S, P>)
    | Solo(thread: Thread, update: P -> P)
    | Peek(thread: Thread, use: (P, bool) -> P, seen: bool)

  ghost function EntryOf<S, P>(s: State<S, P>, e: Event<S, P>): seq<Entry<S, P>> {
    var t := e.thread;
    if !s.IsThread(t) then [] else
    match e
    case TestAndSet(_) =>
      if s.places[t].Spinning? && !s.flag then [Whole(t, s.places[t].body)] else []
    case Probe(_, use) => [Peek(t, use, s.flag)]
    case Private(_, update) => [Solo(t, update)]
    case _ => []
  }

  /** The serial history of a run, in lock-acquisition order. */
  ghost function History<S, P>(s: State<S, P>, run: seq<Event<S, P>>): seq<Entry<S, P>>
    decreases |run|
  {
    if run == [] || Step(s, run[0]).None? then []
    else EntryOf(s, run[0]) + History(Step(s, run[0]).value, run[1..])
  }

  ghost function PerformEntry<S, P>(entry: Entry<S, P>, shared: S, privates: seq<P>): (S, seq<P>) {
    var t := entry.thread;
    if t >= |privates| then (shared, privates) else
    match entry
    case Whole(_, body) =>
      var (shared', private) := Perform(body, shared, privates[t]);
      (shared', privates[t := private])
    case Solo(_, update) => (shared, privates[t := update(privates[t])])
    case Peek(_, use, seen) => (shared, privates[t := use(privates[t], seen)])
  }

  /** Executes a history one entry at a time, with no lock and no interleaving. */
  ghost function Serial<S, P>(history: seq<Entry<S, P>>, shared: S, privates: seq<P>): (S, seq<P>)
    decreases |history|
  {
    if history == [] then (shared, privates)
    else
      var (shared', privates') := PerformEntry(history[0], shared, privates);
      Serial(history[1..], shared', privates')
  }

  /** The state `s` would settle in if the holder, if any, finished its section at once. */
  ghost predicate SettlesIn<S, P>(s: State<S, P>, shared: S, privates: seq<P>) {
    && |s.privates| == |s.places|
    && (forall t: Thread :: s.Holds(t) ==>
          (shared, privates) == PerformEntry(Whole(t, s.places[t].rest), s.shared, s.privates))
    && ((forall t: Thread :: !s.Holds(t)) ==> shared == s.shared && privates == s.privates)
  }

  lemma SerialOfOne<S, P>(entry: Entry<S, P>, shared: S, privates: seq<P>)
    ensures Serial([entry], shared, privates) == PerformEntry(entry, shared, privates)
  {
  }

  /** A step taken while `h` holds the lock either advances h's section or commutes with it. */
  lemma HeldStepSettles<S, P>(s: State<S, P>, e: Event<S, P>, h: Thread, shared: S, privates: seq<P>)
    requires Exclusive(s) && Disciplined(s, e) && Step(s, e).Some?
    requires s.Holds(h) && SettlesIn(s, shared, privates)
    ensures var (shared', privates') := Serial(EntryOf(s, e), shared, privates);
            SettlesIn(Step(s, e).value, shared', privates')
  {
    var n := Step(s, e).value;
    var t := e.thread;
    StepKeepsExclusive(s, e);
    if t == h {
      assert e.Work? || e.Clear?;
      if e.Clear? {
        assert forall u: Thread :: u != h ==> (n.Holds(u) <==> s.Holds(u));
      } else {
        assert n.Holds(h);
        assert PerformEntry(Whole(h, n.places[h].rest), n.shared, n.privates).1 == privates;
      }
    } else {
      assert !s.Holds(t) && n.Holds(h);
      if EntryOf(s, e) != [] {
        SerialOfOne(EntryOf(s, e)[0], shared, privates);
        var after := PerformEntry(EntryOf(s, e)[0], shared, privates);
        var settled := PerformEntry(Whole(h, n.places[h].rest), n.shared, n.privates);
        assert e.Probe? || e.Private?;
        assert n.places[h] == s.places[h] && n.privates[h] == s.privates[h];
        assert after.0 == settled.0;
        assert after.1 == settled.1;
      } else {
        assert Serial(EntryOf(s, e), shared, privates) == (shared, privates);
        assert n.shared == s.shared && n.privates == s.privates;
      }
    }
  }

  /** A step taken while nobody holds the lock is its own entry. */
  lemma FreeStepSettles<S, P>(s: State<S, P>, e: Event<S, P>, shared: S, privates: seq<P>)
    requires Exclusive(s) && Disciplined(s, e) && Step(s, e).Some?
    requires (forall t: Thread :: !s.Holds(t)) && SettlesIn(s, shared, privates)
    ensures var (shared', privates') := Serial(EntryOf(s, e), shared, privates);
            SettlesIn(Step(s, e).value, shared', privates')
  {
    var n := Step(s, e).value;
    var t := e.thread;
    StepKeepsExclusive(s, e);
    forall u: Thread | u != t
      ensures !n.Holds(u)
    {
      assert !s.Holds(u);
    }
    if EntryOf(s, e) != [] {
      SerialOfOne(EntryOf(s, e)[0], shared, privates);
      if e.TestAndSet? {
        assert n.Holds(t);
      } else {
        assert !n.Holds(t);
      }
    } else {
      assert !n.Holds(t);
    }
  }

  /** One step of the interleaving is matched by zero or one entries of the serial history. */
  lemma StepSettles<S, P>(s: State<S, P>, e: Event<S, P>, shared: S, privates: seq<P>)
    requires Exclusive(s) && Disciplined(s, e) && Step(s, e).Some?
    requires SettlesIn(s, shared, privates)
    ensures var (shared', privates') := Serial(EntryOf(s, e), shared, privates);
            SettlesIn(Step(s, e).value, shared', privates')
  {
    if h: Thread :| s.Holds(h) {
      HeldStepSettles(s, e, h, shared, privates);
    } else {
      FreeStepSettles(s, e, shared, privates);
    }
  }

  lemma SerialConcat<S, P>(a: seq<Entry<S, P>>, b: seq<Entry<S, P>>, shared: S, privates: seq<P>)
    requires |a| <= 1
    ensures Serial(a + b, shared, privates)
         == var (shared', privates') := Serial(a, shared, privates); Serial(b, shared', privates')
  {
    if a == [] {
      assert a + b == b;
    } else {
      assert (a + b)[1..] == b && a[1..] == [];
    }
  }

  lemma {:induction false} RunSettles<S, P>(s: State<S, P>, run: seq<Event<S, P>>, shared: S, privates: seq<P>)
    requires Exclusive(s) && Run(s, run).Some?
    requires SettlesIn(s, shared, privates)
    ensures var (shared', privates') := Serial(History(s, run), shared, privates);
            SettlesIn(Run(s, run).value, shared', privates')
    decreases |run|
  {
    if run == [] {
    } else {
      var n := Step(s, run[0]).value;
      StepKeepsExclusive(s, run[0]);
      StepSettles(s, run[0], shared, privates);
      var (shared', privates') := Serial(EntryOf(s, run[0]), shared, privates);
      RunSettles(n, run[1..], shared', privates');
      SerialConcat(EntryOf(s, run[0]), History(n, run[1..]), shared, privates);
    }
  }

  /** What a thread's program does: a section between lock and unlock, a step on its private
      state, a try_lock. */
  datatype Act<!S, !P> =
    | Enter(body: Section<S, P>)
    | Update(update: P -> P)
    | Ask(use: (P, bool) -> P)

  ghost function Called<S, P>(e: Event<S, P>, t: Thread): seq<Act<S, P>> {
    if e.thread != t then []
    else
      match e
      case Call(_, body) => [Enter(body)]
      case Probe(_, use) => [Ask(use)]
      case Private(_, update) => [Update(update)]
      case _ => []
  }

  /** The program of thread `t` as far as a run shows it: what it calls, in order. */
  ghost function Program<S, P>(run: seq<Event<S, P>>, t: Thread): seq<Act<S, P>>
    decreases |run|
  {
    if run == [] then [] else Called(run[0], t) + Program(run[1..], t)
  }

  /** What a serial history has thread `t` do, in order. */
  ghost function ActsOf<S, P>(history: seq<Entry<S, P>>, t: Thread): seq<Act<S, P>>
    decreases |history|
  {
    if history == [] then []
    else
      (if history[0].thread != t then []
       else match history[0]
            case Whole(_, body) => [Enter(body)]
            case Solo(_, update) => [Update(update)]
            case Peek(_, use, _) => [Ask(use)])
      + ActsOf(history[1..], t)
  }

  /** The section that thread `t` has called lock for and not yet entered. */
  ghost function Awaited<S, P>(s: State<S, P>, t: Thread): seq<Act<S, P>> {
    if t < |s.places| && s.places[t].Spinning? then [Enter(s.places[t].body)] else []
  }

  lemma ActsOfConcat<S, P>(a: seq<Entry<S, P>>, b: seq<Entry<S, P>>, t: Thread)
    requires |a| <= 1
    ensures ActsOf(a + b, t) == ActsOf(a, t) + ActsOf(b, t)
  {
    if a == [] {
      assert a + b == b;
    } else {
      assert (a + b)[1..] == b && a[1..] == [];
    }
  }

  /** One step adds to thread t's program what it adds to its history and to what it awaits. */
  lemma StepKeepsProgram<S, P>(s: State<S, P>, e: Event<S, P>, t: Thread)
    requires Step(s, e).Some?
    ensures Awaited(s, t) + Called(e, t) == ActsOf(EntryOf(s, e), t) + Awaited(Step(s, e).value, t)
  {
    var entries := EntryOf(s, e);
    if entries != [] {
      assert entries[1..] == [];
    }
  }

  /** The serial history of a run has every thread do exactly what the run has it call, in the
      same order: the sections it calls lock for, its private steps and its try_locks, all but a
      section it is still waiting to enter. */
  lemma {:induction false} HistoryKeepsPrograms<S, P>(s: State<S, P>, run: seq<Event<S, P>>, t: Thread)
    requires Run(s, run).Some?
    ensures Awaited(s, t) + Program(run, t) == ActsOf(History(s, run), t) + Awaited(Run(s, run).value, t)
    decreases |run|
  {
    if run == [] {
    } else {
      var e, next := run[0], Step(s, run[0]).value;
      StepKeepsProgram(s, e, t);
      HistoryKeepsPrograms(next, run[1..], t);
      ActsOfConcat(EntryOf(s, e), History(next, run[1..]), t);
      assert Program(run, t) == Called(e, t) + Program(run[1..], t);
      assert History(s, run) == EntryOf(s, e) + History(next, run[1..]);
      assert Run(s, run) == Run(next, run[1..]);
      Splice(Awaited(s, t), Called(e, t), ActsOf(EntryOf(s, e), t), Awaited(next, t), Program(run[1..], t),
             ActsOf(History(next, run[1..]), t), Awaited(Run(s, run).value, t));
    }
  }

  lemma Splice<T>(a: seq<T>, b: seq<T>, c: seq<T>, d: seq<T>, e: seq<T>, f: seq<T>, g: seq<T>)
    requires a + b == c + d && d + e == f + g
    ensures a + (b + e) == (c + f) + g
  {
    assert a + (b + e) == (a + b) + e;
    assert (c + d) + e == c + (d + e);
    assert c + (f + g) == (c + f) + g;
  }

  /** Every interleaved run that ends with no section open leaves the shared state, and every
      thread's private state, as some serial history does: one that runs whole sections
      atomically, in acquisition order, and has every thread do what it called, in order. */
  lemma Serialisation<S, P>(s0: State<S, P>, run: seq<Event<S, P>>)
    requires Initial(s0) && Run(s0, run).Some?
    requires forall t: Thread :: !Run(s0, run).value.Holds(t)
    ensures var end := Run(s0, run).value;
            && (end.shared, end.privates) == Serial(History(s0, run), s0.shared, s0.privates)
            && forall t: Thread :: Program(run, t) == ActsOf(History(s0, run), t) + Awaited(end, t)
  {
    RunSettles(s0, run, s0.shared, s0.privates);
    forall t: Thread
      ensures Program(run, t) == ActsOf(History(s0, run), t) + Awaited(Run(s0, run).value, t)
    {
      HistoryKeepsPrograms(s0, run, t);
    }
  }

  // ------------------------------------------------------------------ progress

  /** How many steps a section takes from a given state, left alone. */
  ghost function Length<S, P>(section: Section<S, P>, shared: S, private: P): nat
    decreases section
  {
    match section
    case Done => 0
    case Access(access, next) =>
      var (shared', private') := access(shared, private);
      1 + if private' in next then Length(next[private'], shared', private') else 0
  }

  /** What thread `h`, if it holds the lock, has left to do inside. */
  ghost function LeftInside<S, P>(s: State<S, P>, h: Thread): nat {
    if s.IsThread(h) && s.Holds(h) then Length(s.places[h].rest, s.shared, s.privates[h]) else 0
  }

  /** A waiter `w` whose `test_and_set` finds the flag clear gets in, and only then. */
  lemma ClearFlagAdmits<S, P>(s: State<S, P>, w: Thread)
    requires s.IsThread(w) && s.places[w].Spinning?
    ensures Run(s, [TestAndSet(w)]).Some?
    ensures Run(s, [TestAndSet(w)]).value.Holds(w) <==> !s.flag
    ensures !s.flag ==> Run(s, [TestAndSet(w)]).value.places[w] == Inside(s.places[w].body)
  {
  }

  /** From every exclusive state, any chosen waiter can be let in by a run just as long as what
      the holder has left to do, plus its `clear` and one `test_and_set`. */
  lemma {:induction false} WaiterGetsIn<S, P>(s: State<S, P>, w: Thread, h: Thread) returns (run: seq<Event<S, P>>)
    requires Exclusive(s) && s.IsThread(w) && s.places[w].Spinning?
    requires s.flag ==> s.Holds(h)
    ensures |run| == (if s.flag then LeftInside(s, h) + 2 else 1)
    ensures forall e :: e in run ==> e.thread == w || e.thread == h
    ensures Run(s, run).Some? && Run(s, run).value.Holds(w)
    ensures Run(s, run).value.places[w] == Inside(s.places[w].body)
    decreases s.flag, LeftInside(s, h)
  {
    if !s.flag {
      ClearFlagAdmits(s, w);
      run := [TestAndSet(w)];
    } else {
      var e := if s.places[h].rest.Done? then Clear(h) else Work(h);
      var n := Step(s, e).value;
      StepKeepsExclusive(s, e);
      var more := WaiterGetsIn(n, w, h);
      run := [e] + more;
      assert run[1..] == more;
    }
  }

  /** The form a scheduler would use: whenever somebody waits, some finite run lets them in. */
  lemma Progress<S, P>(s0: State<S, P>, run: seq<Event<S, P>>, w: Thread)
    requires Initial(s0) && Run(s0, run).Some?
    requires w < |Run(s0, run).value.places| && Run(s0, run).value.places[w].Spinning?
    ensures exists more: seq<Event<S, P>> ::
              Run(Run(s0, run).value, more).Some? && Run(Run(s0, run).value, more).value.Holds(w)
  {
    RunKeepsExclusive(s0, run);
    var s := Run(s0, run).value;
    var h: Thread := if s.flag then var t: Thread :| s.Holds(t); t else 0;
    var more := WaiterGetsIn(s, w, h);
    assert Run(s, more).value.Holds(w);
  }

  // ------------------------------------------------------------------ the object

  /** The flag values that thread `t`'s successive `test_and_set`s find in a run. */
  ghost function Found<S, P>(s: State<S, P>, run: seq<Event<S, P>>, t: Thread): seq<bool>
    decreases |run|
  {
    if run == [] || Step(s, run[0]).None? then []
    else (if run[0].TestAndSet? && run[0].thread == t then [s.flag] else [])
         + Found(Step(s, run[0]).value, run[1..], t)
  }

  /** A thread in `lock`, of whose own steps a run contains only `test_and_set`s, is inside at
      the end if and only if one of them found the flag clear.  `Lock` below is proved against
      exactly this: it returns when and only when it has found the flag clear. */
  lemma {:induction false} AcquiresIffFoundClear<S, P>(s: State<S, P>, run: seq<Event<S, P>>, t: Thread)
    requires Run(s, run).Some? && s.IsThread(t) && !s.places[t].Outside?
    requires forall e :: e in run && e.thread == t ==> e.TestAndSet?
    ensures Run(s, run).value.Holds(t) <==> s.Holds(t) || false in Found(s, run, t)
    ensures s.Holds(t) ==> Found(s, run, t) == []
    decreases |run|
  {
    if run == [] {
    } else {
      var n := Step(s, run[0]).value;
      assert run[0] in run;
      forall e | e in run[1..]
        ensures e in run
      {
      }
      AcquiresIffFoundClear(n, run[1..], t);
    }
  }

  /** The flag values found by `test_and_set`s that start at `flag` when, just before the i-th
      one, other threads leave the flag as `others[i]` says (None: they did not touch it). */
  function Findings(flag: bool, others: seq<Option<bool>>): (found: seq<bool>)
    ensures |found| == |others|
    decreases |others|
  {
    if others == [] then []
    else
      var seen := match others[0] case None => flag case Some(b) => b;
      [seen] + Findings(true, others[1..])
  }

  lemma {:induction false} FindingsAt(flag: bool, others: seq<Option<bool>>, i: nat)
    requires i < |others|
    ensures Findings(flag, others)[i]
         == match others[i] case None => (if i == 0 then flag else true) case Some(b) => b
    decreases |others|
  {
    if i == 0 {
    } else {
      FindingsAt(true, others[1..], i - 1);
    }
  }

  class MAtomicLock {
    var flag: bool

    constructor ()
      ensures !flag
    {
      flag := false;
    }

    /** std::atomic_flag::test_and_set: sets the flag, returns what it was. */
    method TestAndSet() returns (was: bool)
      modifies this
      ensures was == old(flag) && flag
    {
      was := flag;
      flag := true;
    }

    /** `lock`, observed for as many turns of its loop as `others` has entries.  It has returned
        by then if and only if some turn found the flag clear, and it returns at the first one. */
    method Lock(others: seq<Option<bool>>) returns (returned: bool, turns: nat)
      modifies this
      ensures returned <==> false in Findings(old(flag), others)
      ensures turns <= |others|
      ensures returned ==> turns > 0 && !Findings(old(flag), others)[turns - 1]
      ensures forall i :: 0 <= i < (if returned then turns - 1 else turns) ==> Findings(old(flag), others)[i]
      ensures flag == (turns > 0 || old(flag))
      ensures !returned ==> turns == |others|
    {
      turns := 0;
      var was := true;
      while turns < |others| && was
        invariant turns <= |others|
        invariant flag == (turns > 0 || old(flag))
        invariant !was ==> turns > 0 && !Findings(old(flag), others)[turns - 1]
        invariant forall i :: 0 <= i < (if was then turns else turns - 1) ==> Findings(old(flag), others)[i]
      {
        FindingsAt(old(flag), others, turns);
        match others[turns] {
          case None =>
          case Some(b) => flag := b;
        }
        was := TestAndSet();
        turns := turns + 1;
      }
      returned := !was;
      if returned {
        assert Findings(old(flag), others)[turns - 1] == false;
      }
    }

    method Unlock()
      modifies this
      ensures !flag
    {
      flag := false;
    }

    /** `try_lock` reads the flag.  Despite its name it never takes the lock: nothing changes. */
    method TryLock() returns (held: bool)
      ensures held == flag
    {
      held := flag;
    }
  }
}
