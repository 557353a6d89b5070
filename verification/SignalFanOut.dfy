/** MSignal: `connect` appends a slot, `emit` pushes one event per slot into the event loop the
    signal was built over.  Any number of signals may share a loop. */
module SignalFanOut {

  /** A slot: a callback bound to its receiver. */
  datatype SlotMsg = SlotMsg(callback: nat, receiver: nat)

  /** The event of one slot of one signal; the slot is known by its place in `slots`. */
  datatype Entry<A> = Entry(signal: nat, slot: nat, args: A)

  /** Each signal's slots, and the events pushed into the loop so far. */
  datatype State<A> = State(slots: seq<seq<SlotMsg>>, loop: seq<Entry<A>>)

  datatype Op<A> = Connect(signal: nat, slot: SlotMsg) | Emit(signal: nat, args: A)

  /** The events of one emit, in connection order. */
  function Block<A>(signal: nat, count: nat, args: A): (block: seq<Entry<A>>)
    ensures |block| == count
  {
    seq(count, j requires 0 <= j < count => Entry(signal, j, args))
  }

  function Step<A>(s: State<A>, op: Op<A>): (r: State<A>)
    requires op.signal < |s.slots|
  {
    match op
    case Connect(g, slot) => s.(slots := s.slots[g := s.slots[g] + [slot]])
    case Emit(g, args) => s.(loop := s.loop + Block(g, |s.slots[g]|, args))
  }

  ghost predicate Legal<A>(n: nat, ops: seq<Op<A>>) {
    forall i :: 0 <= i < |ops| ==> ops[i].signal < n
  }

  function Run<A>(s: State<A>, ops: seq<Op<A>>): (r: State<A>)
    requires Legal(|s.slots|, ops)
    ensures |r.slots| == |s.slots|
    decreases |ops|
  {
    if ops == [] then s else Step(Run(s, ops[..|ops| - 1]), ops[|ops| - 1])
  }

  // ------------------------------------------------------------------ what a slot gets to see

  /** The arguments of the loop's events for slot j of signal g, in loop order. */
  ghost function Seen<A>(loop: seq<Entry<A>>, g: nat, j: nat): seq<A>
    decreases |loop|
  {
    if loop == [] then []
    else
      var last := loop[|loop| - 1];
      Seen(loop[..|loop| - 1], g, j) + if last.signal == g && last.slot == j then [last.args] else []
  }

  /** The arguments of the emits of signal g, in order. */
  ghost function Emitted<A>(ops: seq<Op<A>>, g: nat): seq<A>
    decreases |ops|
  {
    if ops == [] then []
    else
      var last := ops[|ops| - 1];
      Emitted(ops[..|ops| - 1], g) + if last.Emit? && last.signal == g then [last.args] else []
  }

  /** How many slots of signal g a run connects. */
  ghost function Connects<A>(ops: seq<Op<A>>, g: nat): nat
    decreases |ops|
  {
    if ops == [] then 0
    else
      var last := ops[|ops| - 1];
      Connects(ops[..|ops| - 1], g) + if last.Connect? && last.signal == g then 1 else 0
  }

  lemma {:induction false} SeenConcat<A>(a: seq<Entry<A>>, b: seq<Entry<A>>, g: nat, j: nat)
    ensures Seen(a + b, g, j) == Seen(a, g, j) + Seen(b, g, j)
    decreases |b|
  {
    if b == [] {
      assert a + b == a;
    } else {
      assert (a + b)[..|a + b| - 1] == a + b[..|b| - 1];
      SeenConcat(a, b[..|b| - 1], g, j);
    }
  }

  lemma SeenAppend<A>(loop: seq<Entry<A>>, e: Entry<A>, g: nat, j: nat)
    ensures Seen(loop + [e], g, j) == Seen(loop, g, j) + if e.signal == g && e.slot == j then [e.args] else []
  {
  }

  lemma {:induction false} SeenOfBlock<A>(signal: nat, count: nat, args: A, g: nat, j: nat)
    ensures Seen(Block(signal, count, args), g, j) == if signal == g && j < count then [args] else []
    decreases count
  {
    if count == 0 {
    } else {
      var shorter := Block(signal, count - 1, args);
      SeenOfBlock(signal, count - 1, args, g, j);
      SeenAppend(shorter, Entry(signal, count - 1, args), g, j);
      assert Block(signal, count, args) == shorter + [Entry(signal, count - 1, args)];
    }
  }

  /** What the last operation of a run adds to the emits since operation `at`. */
  lemma EmittedSince<A>(ops: seq<Op<A>>, at: nat, g: nat)
    requires at + 1 < |ops|
    ensures var before, last := ops[..|ops| - 1], ops[|ops| - 1];
            Emitted(ops[at + 1..], g)
            == Emitted(before[at + 1..], g) + if last.Emit? && last.signal == g then [last.args] else []
  {
    var since := ops[at + 1..];
    assert since[..|since| - 1] == ops[..|ops| - 1][at + 1..];
    assert since[|since| - 1] == ops[|ops| - 1];
  }

  lemma {:induction false} SlotsAreConnects<A>(s: State<A>, ops: seq<Op<A>>, g: nat)
    requires Legal(|s.slots|, ops) && g < |s.slots|
    ensures |Run(s, ops).slots[g]| == |s.slots[g]| + Connects(ops, g)
    ensures s.slots[g] <= Run(s, ops).slots[g]
    decreases |ops|
  {
    if ops == [] {
    } else {
      SlotsAreConnects(s, ops[..|ops| - 1], g);
    }
  }

  ghost predicate Fresh<A>(s: State<A>) {
    s.loop == [] && forall g :: 0 <= g < |s.slots| ==> s.slots[g] == []
  }

  /** The slot that operation `at` connects keeps its place. */
  lemma {:induction false} SlotKeepsPlace<A>(s: State<A>, ops: seq<Op<A>>, at: nat, g: nat, j: nat)
    requires Fresh(s) && Legal(|s.slots|, ops)
    requires at < |ops| && ops[at].Connect? && ops[at].signal == g && j == Connects(ops[..at], g)
    ensures j < |Run(s, ops).slots[g]| && Run(s, ops).slots[g][j] == ops[at].slot
    decreases |ops|
  {
    var before := ops[..|ops| - 1];
    if at == |before| {
      SlotsAreConnects(s, before, g);
    } else {
      assert before[..at] == ops[..at];
      SlotKeepsPlace(s, before, at, g, j);
    }
  }

  lemma {:induction false} SeenSinceConnected<A>(s: State<A>, ops: seq<Op<A>>, at: nat, g: nat, j: nat)
    requires Fresh(s) && Legal(|s.slots|, ops)
    requires at < |ops| && ops[at].Connect? && ops[at].signal == g && j == Connects(ops[..at], g)
    ensures Seen(Run(s, ops).loop, g, j) == Emitted(ops[at + 1..], g)
    decreases |ops|
  {
    var before := ops[..|ops| - 1];
    LastStep(s, ops, g, j);
    if at == |before| {
      assert ops[..at] == before && ops[at + 1..] == [];
      NotYetConnected(s, before, g, j);
    } else {
      assert before[..at] == ops[..at] && before[at] == ops[at];
      SeenSinceConnected(s, before, at, g, j);
      SlotKeepsPlace(s, before, at, g, j);
      EmittedSince(ops, at, g);
    }
  }

  /** In every run, the events of a slot are exactly the emits of its signal issued after it was
      connected, in emit order and once each.  `at` is the operation that connected the slot. */
  lemma FanOut<A>(s: State<A>, ops: seq<Op<A>>, at: nat)
    requires Fresh(s) && Legal(|s.slots|, ops)
    requires at < |ops| && ops[at].Connect?
    ensures var g, j := ops[at].signal, Connects(ops[..at], ops[at].signal);
            && j < |Run(s, ops).slots[g]| && Run(s, ops).slots[g][j] == ops[at].slot
            && Seen(Run(s, ops).loop, g, j) == Emitted(ops[at + 1..], g)
  {
    var g, j := ops[at].signal, Connects(ops[..at], ops[at].signal);
    SlotKeepsPlace(s, ops, at, g, j);
    SeenSinceConnected(s, ops, at, g, j);
  }

  /** What the last operation of a run adds to what a slot sees. */
  lemma LastStep<A>(s: State<A>, ops: seq<Op<A>>, g: nat, j: nat)
    requires ops != [] && Legal(|s.slots|, ops)
    ensures var before, last := Run(s, ops[..|ops| - 1]), ops[|ops| - 1];
            Seen(Run(s, ops).loop, g, j)
            == Seen(before.loop, g, j)
               + if last.Emit? && last.signal == g && j < |before.slots[g]| then [last.args] else []
  {
    var before, last := Run(s, ops[..|ops| - 1]), ops[|ops| - 1];
    if last.Emit? {
      var block := Block(last.signal, |before.slots[last.signal]|, last.args);
      SeenConcat(before.loop, block, g, j);
      SeenOfBlock(last.signal, |before.slots[last.signal]|, last.args, g, j);
    }
  }

  /** Slots that no operation has connected have no events. */
  lemma {:induction false} NotYetConnected<A>(s: State<A>, ops: seq<Op<A>>, g: nat, j: nat)
    requires Fresh(s) && Legal(|s.slots|, ops) && g < |s.slots|
    requires Connects(ops, g) <= j
    ensures Seen(Run(s, ops).loop, g, j) == []
    decreases |ops|
  {
    if ops == [] {
    } else {
      NotYetConnected(s, ops[..|ops| - 1], g, j);
      SlotsAreConnects(s, ops[..|ops| - 1], g);
      LastStep(s, ops, g, j);
    }
  }

  /** Every event in the loop belongs to a slot that was connected to its signal. */
  ghost predicate Addressed<A>(s: State<A>) {
    forall e :: e in s.loop ==> e.signal < |s.slots| && e.slot < |s.slots[e.signal]|
  }

  lemma StepKeepsAddressed<A>(s: State<A>, op: Op<A>)
    requires Addressed(s) && op.signal < |s.slots|
    ensures Addressed(Step(s, op))
  {
  }

  lemma {:induction false} NoStrayEvents<A>(s: State<A>, ops: seq<Op<A>>)
    requires Fresh(s) && Legal(|s.slots|, ops)
    ensures Addressed(Run(s, ops))
    decreases |ops|
  {
    if ops == [] {
    } else {
      NoStrayEvents(s, ops[..|ops| - 1]);
      StepKeepsAddressed(Run(s, ops[..|ops| - 1]), ops[|ops| - 1]);
    }
  }

  // ------------------------------------------------------------------ where every event is

  /** How many events a run pushes: per emit, one for each slot its signal has by then. */
  ghost function Pushed<A>(ops: seq<Op<A>>): nat
    decreases |ops|
  {
    if ops == [] then 0
    else
      var before, last := ops[..|ops| - 1], ops[|ops| - 1];
      Pushed(before) + if last.Emit? then Connects(before, last.signal) else 0
  }

  /** One operation only adds to the end of the loop. */
  lemma StepExtends<A>(s: State<A>, op: Op<A>, i: nat)
    requires op.signal < |s.slots|
    ensures s.loop <= Step(s, op).loop
    ensures |Step(s, op).loop| == |s.loop| + if op.Emit? then |s.slots[op.signal]| else 0
    ensures op.Emit? && i < |s.slots[op.signal]| ==> Step(s, op).loop[|s.loop| + i] == Entry(op.signal, i, op.args)
  {
  }

  lemma {:induction false} LoopLength<A>(s: State<A>, ops: seq<Op<A>>)
    requires Fresh(s) && Legal(|s.slots|, ops)
    ensures |Run(s, ops).loop| == Pushed(ops)
    decreases |ops|
  {
    if ops == [] {
    } else {
      var before, last := ops[..|ops| - 1], ops[|ops| - 1];
      LoopLength(s, before);
      SlotsAreConnects(s, before, last.signal);
      StepExtends(Run(s, before), last, 0);
    }
  }

  /** The event of emit `at` for the i-th slot is where it belongs. */
  ghost predicate EventInPlace<A>(loop: seq<Entry<A>>, ops: seq<Op<A>>, at: nat, i: nat)
    requires at < |ops| && ops[at].Emit?
  {
    && Pushed(ops[..at]) + i < |loop|
    && loop[Pushed(ops[..at]) + i] == Entry(ops[at].signal, i, ops[at].args)
  }

  /** The whole loop, event by event: those of one emit stand together, after all pushed before
      it, one for each slot connected by then and in connection order. */
  lemma {:induction false} EmitInOrder<A>(s: State<A>, ops: seq<Op<A>>, at: nat, i: nat)
    requires Fresh(s) && Legal(|s.slots|, ops)
    requires at < |ops| && ops[at].Emit? && i < Connects(ops[..at], ops[at].signal)
    ensures |Run(s, ops).loop| == Pushed(ops) && EventInPlace(Run(s, ops).loop, ops, at, i)
    decreases |ops|
  {
    var before, last := ops[..|ops| - 1], ops[|ops| - 1];
    LoopLength(s, ops);
    LoopLength(s, before);
    StepExtends(Run(s, before), last, i);
    if at == |before| {
      assert ops[..at] == before;
      SlotsAreConnects(s, before, last.signal);
    } else {
      assert before[..at] == ops[..at] && before[at] == ops[at];
      EmitInOrder(s, before, at, i);
    }
  }

  /** Every slot connected is in its place, and the loop's events for it are exactly the emits of
      its signal since, in order and once each. */
  ghost predicate SlotsServed<A>(s: State<A>, ops: seq<Op<A>>) {
    forall at: nat :: at < |ops| && ops[at].Connect? ==>
      var g, j := ops[at].signal, Connects(ops[..at], ops[at].signal);
      && g < |s.slots| && j < |s.slots[g]| && s.slots[g][j] == ops[at].slot
      && Seen(s.loop, g, j) == Emitted(ops[at + 1..], g)
  }

  /** The events of one emit stand together, after all pushed before it, in connection order; and
      there are no others. */
  ghost predicate EmitsInOrder<A>(loop: seq<Entry<A>>, ops: seq<Op<A>>) {
    && |loop| == Pushed(ops)
    && forall at: nat, i: nat :: at < |ops| && ops[at].Emit? && i < Connects(ops[..at], ops[at].signal) ==>
         EventInPlace(loop, ops, at, i)
  }

  lemma RunServesSlots<A>(s: State<A>, ops: seq<Op<A>>)
    requires Fresh(s) && Legal(|s.slots|, ops)
    ensures SlotsServed(Run(s, ops), ops)
  {
    forall at: nat | at < |ops| && ops[at].Connect?
      ensures var g, j := ops[at].signal, Connects(ops[..at], ops[at].signal);
              && g < |s.slots| && j < |Run(s, ops).slots[g]| && Run(s, ops).slots[g][j] == ops[at].slot
              && Seen(Run(s, ops).loop, g, j) == Emitted(ops[at + 1..], g)
    {
      FanOut(s, ops, at);
    }
  }

  lemma RunEmitsInOrder<A>(s: State<A>, ops: seq<Op<A>>)
    requires Fresh(s) && Legal(|s.slots|, ops)
    ensures EmitsInOrder(Run(s, ops).loop, ops)
  {
    LoopLength(s, ops);
    forall at: nat, i: nat | at < |ops| && ops[at].Emit? && i < Connects(ops[..at], ops[at].signal)
      ensures EventInPlace(Run(s, ops).loop, ops, at, i)
    {
      EmitInOrder(s, ops, at, i);
    }
  }

  // ------------------------------------------------------------------ the objects

  /** A state of `n` signals without slots over an empty loop. */
  function Start<A>(n: nat): (s: State<A>)
    ensures |s.slots| == n
  {
    State(seq(n, _ => []), [])
  }

  lemma RunAppend<A>(s: State<A>, ops: seq<Op<A>>, op: Op<A>)
    requires Legal(|s.slots|, ops) && op.signal < |s.slots|
    ensures Legal(|s.slots|, ops + [op]) && Run(s, ops + [op]) == Step(Run(s, ops), op)
  {
  }

  /** A signal that has done nothing makes no difference to a run. */
  lemma {:induction false} RunWiden<A>(n: nat, ops: seq<Op<A>>)
    requires Legal(n, ops)
    ensures Legal(n + 1, ops)
    ensures Run(Start(n + 1), ops).slots == Run(Start(n), ops).slots + [[]]
    ensures Run(Start(n + 1), ops).loop == Run(Start(n), ops).loop
    decreases |ops|
  {
    if ops == [] {
    } else {
      RunWiden(n, ops[..|ops| - 1]);
    }
  }

  /** The part of MEventLoop that signals use, and a history of what its signals did. */
  class MEventLoop<A> {
    var queue: seq<Entry<A>>
    ghost var ops: seq<Op<A>>

    constructor ()
      ensures queue == [] && ops == []
    {
      queue := [];
      ops := [];
    }

    method PushBack(event: Entry<A>)
      modifies this`queue
      ensures queue == old(queue) + [event]
    {
      queue := queue + [event];
    }
  }

  class MSignal<A> {
    const id: nat
    const loop: MEventLoop<A>
    var slots: seq<SlotMsg>

    /** One more signal over the loop of `others`. */
    constructor (loop: MEventLoop<A>, ghost others: seq<MSignal<A>>, id: nat)
      requires Wired(loop, others) && Traced(loop, others) && id == |others|
      ensures this.id == id && this.loop == loop && slots == []
      ensures Wired(loop, others + [this]) && Traced(loop, others + [this])
    {
      this.id, this.loop := id, loop;
      slots := [];
      new;
      RunWiden(|others|, loop.ops);
      assert StateOf(loop, others + [this]).slots == StateOf(loop, others).slots + [[]];
    }

    method Connect(receiver: nat, callback: nat, ghost signals: seq<MSignal<A>>)
      requires Wired(loop, signals) && Traced(loop, signals) && id < |signals| && signals[id] == this
      modifies this`slots, loop`ops
      ensures slots == old(slots) + [SlotMsg(callback, receiver)]
      ensures loop.ops == old(loop.ops) + [Op.Connect(id, SlotMsg(callback, receiver))]
      ensures Traced(loop, signals) && FannedOut(loop, signals)
    {
      ghost var op := Op.Connect(id, SlotMsg(callback, receiver));
      RunAppend(Start(|signals|), loop.ops, op);
      slots := slots + [SlotMsg(callback, receiver)];
      loop.ops := loop.ops + [op];
      assert StateOf(loop, signals) == Step(old(StateOf(loop, signals)), op);
      TracedFansOut(loop, signals);
    }

    /** One event per slot, in connection order, after whatever the loop held already. */
    method Emit(args: A, ghost signals: seq<MSignal<A>>)
      requires Wired(loop, signals) && Traced(loop, signals) && id < |signals| && signals[id] == this
      modifies loop
      ensures |loop.queue| == |old(loop.queue)| + |slots| && old(loop.queue) <= loop.queue
      ensures forall j :: 0 <= j < |slots| ==> loop.queue[|old(loop.queue)| + j] == Entry(id, j, args)
      ensures loop.ops == old(loop.ops) + [Op.Emit(id, args)]
      ensures Traced(loop, signals) && FannedOut(loop, signals)
    {
      for j := 0 to |slots|
        invariant loop.queue == old(loop.queue) + Block(id, j, args) && loop.ops == old(loop.ops)
      {
        loop.PushBack(Entry(id, j, args));
        assert Block(id, j + 1, args) == Block(id, j, args) + [Entry(id, j, args)];
      }
      ghost var op := Op.Emit(id, args);
      RunAppend(Start(|signals|), loop.ops, op);
      loop.ops := loop.ops + [op];
      assert StateOf(loop, signals) == Step(old(StateOf(loop, signals)), op);
      TracedFansOut(loop, signals);
    }
  }

  /** `signals` are the signals over `loop`, each at the place its id says. */
  ghost predicate Wired<A>(loop: MEventLoop<A>, signals: seq<MSignal<A>>) {
    forall i :: 0 <= i < |signals| ==> signals[i].id == i && signals[i].loop == loop
  }

  /** A loop and the signals over it, as a state of the runs above. */
  ghost function StateOf<A>(loop: MEventLoop<A>, signals: seq<MSignal<A>>): State<A>
    reads loop, signals
  {
    State(seq(|signals|, i requires 0 <= i < |signals| reads signals => signals[i].slots), loop.queue)
  }

  /** The objects are where their history leads. */
  ghost predicate Traced<A>(loop: MEventLoop<A>, signals: seq<MSignal<A>>)
    reads loop, signals
  {
    Legal(|signals|, loop.ops) && StateOf(loop, signals) == Run(Start(|signals|), loop.ops)
  }

  /** The loop and the signals over it have fanned out, as below, what the signals did. */
  ghost predicate FannedOut<A>(loop: MEventLoop<A>, signals: seq<MSignal<A>>)
    reads loop, signals
  {
    var s := StateOf(loop, signals);
    Addressed(s) && SlotsServed(s, loop.ops) && EmitsInOrder(s.loop, loop.ops)
  }

  lemma TracedFansOut<A>(loop: MEventLoop<A>, signals: seq<MSignal<A>>)
    requires Traced(loop, signals)
    ensures FannedOut(loop, signals)
  {
    var s0 := Start<A>(|signals|);
    NoStrayEvents(s0, loop.ops);
    RunServesSlots(s0, loop.ops);
    RunEmitsInOrder(s0, loop.ops);
  }
}
