/** MSession::getPopFrontRecvMsg: one consumer that spins on `empty`, takes a pointer with `front`,
    pops, and only then reads through the pointer, against a producer that pushes at any moment
    in between. */
module SessionDelivery {
  import opened Prelude
  import opened AnnularQueue

  // ------------------------------------------------------------------ the interleavings

  /** Where the consumer is in getPopFrontRecvMsg.  `lost` remembers how many pushes had found the
      ring full when it called front(). */
  datatype Phase =
    | Spinning                          // about to evaluate empty()
    | Ready                             // empty() was false, about to call front()
    | Fronted(node: nat, lost: nat)     // has the pointer, about to call pop()
    | Emptied(node: nat, lost: nat)     // has popped, about to read through the pointer

  /** `pushed` and `delivered` are histories; `head` counts the messages that have left the front
      of the ring, popped or overrun, and `overruns` the latter. */
  datatype State<T> = State(
    ring: Ring<T>, phase: Phase,
    pushed: seq<T>, delivered: seq<T>, head: nat, overruns: nat)

  datatype Event<T> = Produce(msg: T) | Consume

  /** One atomic step.  None: the consumer would read through a null pointer. */
  ghost function Step<T>(s: State<T>, e: Event<T>): Option<State<T>>
    requires s.ring.Valid()
  {
    match e
    case Produce(msg) =>
      var lost := if s.ring.Full() then 1 else 0;
      Some(s.(ring := Pushed(s.ring, msg), pushed := s.pushed + [msg],
              head := s.head + lost, overruns := s.overruns + lost))
    case Consume =>
      match s.phase
      case Spinning => Some(if s.ring.begin == s.ring.end then s else s.(phase := Ready))
      case Ready =>
        if s.ring.begin == s.ring.end then None else Some(s.(phase := Fronted(s.ring.begin, s.overruns)))
      case Fronted(node, lost) =>
        Some(s.(ring := Popped(s.ring), phase := Emptied(node, lost),
                head := if s.ring.begin == s.ring.end then s.head else s.head + 1))
      case Emptied(node, _) =>
        if node >= |s.ring.data| then None
        else Some(s.(phase := Spinning, delivered := s.delivered + [s.ring.data[node]]))
  }

  // ------------------------------------------------------------------ positions and nodes

  /** The node that the i-th push of a run goes to. */
  ghost function NodeOf(c: nat, i: nat): (node: nat)
    requires c > 0
    ensures node < c
    decreases i
  {
    if i == 0 then 0 else Next(c, NodeOf(c, i - 1))
  }

  lemma {:induction false} NodeAlong(c: nat, i: nat, k: nat)
    requires c > 0 && k <= c
    ensures NodeOf(c, i + k) == Along(c, NodeOf(c, i), k)
    decreases k
  {
    if k == 0 {
    } else {
      NodeAlong(c, i, k - 1);
    }
  }

  /** Pushes less than a ring apart go to different nodes. */
  lemma NodesDistinct(c: nat, i: nat, j: nat)
    requires i < j < i + c
    ensures NodeOf(c, i) != NodeOf(c, j)
  {
    NodeAlong(c, i, j - i);
  }

  // ------------------------------------------------------------------ the invariant

  /** m_begin and m_end are where the counts of messages gone and messages pushed say. */
  ghost predicate RingCounts<T>(s: State<T>)
    requires s.ring.Valid()
  {
    && s.head <= |s.pushed|
    && |s.pushed| - s.head == Gap(|s.ring.data|, s.ring.begin, s.ring.end)
    && s.ring.begin == NodeOf(|s.ring.data|, s.head)
    && s.ring.end == NodeOf(|s.ring.data|, |s.pushed|)
  }

  /** Each node holds the last message pushed into it. */
  ghost predicate LastPushed<T>(data: seq<T>, pushed: seq<T>)
    requires |data| > 0
  {
    forall i: nat :: i < |pushed| <= i + |data| ==> data[NodeOf(|data|, i)] == pushed[i]
  }

  ghost predicate RingInv<T>(s: State<T>) {
    s.ring.Valid() && RingCounts(s) && LastPushed(s.ring.data, s.pushed)
  }

  ghost predicate PhaseInv<T>(s: State<T>)
    requires s.ring.Valid()
  {
    && s.head == |s.delivered| + s.overruns + (if s.phase.Emptied? then 1 else 0)
    && (match s.phase
        case Spinning => true
        case Ready => s.ring.begin != s.ring.end
        case Fronted(node, lost) =>
          && s.ring.begin != s.ring.end
          && node == NodeOf(|s.ring.data|, |s.delivered| + lost) && lost <= s.overruns
        case Emptied(node, lost) =>
          && node == NodeOf(|s.ring.data|, |s.delivered| + lost) && lost <= s.overruns)
  }

  /** What was delivered is a prefix of what was pushed, if no push has found the ring full. */
  ghost predicate InOrder<T>(s: State<T>) {
    s.overruns == 0 ==> |s.delivered| <= |s.pushed| && s.delivered == s.pushed[..|s.delivered|]
  }

  ghost predicate Inv<T>(s: State<T>) {
    RingInv(s) && PhaseInv(s) && InOrder(s)
  }

  lemma ProduceKeepsLastPushed<T>(data: seq<T>, pushed: seq<T>, msg: T)
    requires |data| > 0 && LastPushed(data, pushed)
    ensures LastPushed(data[NodeOf(|data|, |pushed|) := msg], pushed + [msg])
  {
    var c := |data|;
    forall i: nat | i < |pushed| + 1 <= i + c
      ensures data[NodeOf(c, |pushed|) := msg][NodeOf(c, i)] == (pushed + [msg])[i]
    {
      if i < |pushed| {
        NodesDistinct(c, i, |pushed|);
      }
    }
  }

  /** Advancing m_end, and m_begin as well if the ring is full, makes the gap one longer, or keeps
      it at its longest. */
  lemma GapAfterPush(c: nat, begin: nat, end: nat)
    requires begin < c && end < c
    ensures Next(c, end) == begin <==> Gap(c, begin, end) + 1 == c
    ensures Next(c, end) != begin ==> Gap(c, begin, Next(c, end)) == Gap(c, begin, end) + 1
    ensures Next(c, end) == begin ==> Gap(c, Next(c, begin), Next(c, end)) == Gap(c, begin, end)
  {
  }

  lemma ProduceKeepsRing<T>(s: State<T>, msg: T)
    requires RingInv(s)
    ensures RingInv(Step(s, Produce(msg)).value)
  {
    var n := Step(s, Produce(msg)).value;
    GapAfterPush(|s.ring.data|, s.ring.begin, s.ring.end);
    assert s.ring.Full() <==> Next(|s.ring.data|, s.ring.end) == s.ring.begin;
    assert n.ring.Valid() && RingCounts(n);
    ProduceKeepsLastPushed(s.ring.data, s.pushed, msg);
    assert n.ring.data == s.ring.data[NodeOf(|s.ring.data|, |s.pushed|) := msg];
  }

  lemma ProduceKeepsPhase<T>(s: State<T>, msg: T)
    requires RingInv(s) && PhaseInv(s)
    ensures Step(s, Produce(msg)).value.ring.Valid() && PhaseInv(Step(s, Produce(msg)).value)
  {
  }

  lemma ConsumeKeepsRing<T>(s: State<T>)
    requires RingInv(s) && PhaseInv(s)
    ensures Step(s, Consume).Some? && RingInv(Step(s, Consume).value)
  {
  }

  /** What the pointer yields: the message it was taken for, the one after those delivered and
      those lost by then, as long as no more than a ring's worth have been pushed since. */
  lemma ReadYields<T>(s: State<T>)
    requires RingInv(s) && PhaseInv(s) && s.phase.Emptied?
    ensures s.phase.node < |s.ring.data| && |s.delivered| + s.phase.lost < |s.pushed|
    ensures |s.pushed| <= |s.delivered| + s.phase.lost + |s.ring.data| ==>
              s.ring.data[s.phase.node] == s.pushed[|s.delivered| + s.phase.lost]
  {
  }

  lemma ConsumeKeepsPhase<T>(s: State<T>)
    requires RingInv(s) && PhaseInv(s)
    ensures Step(s, Consume).Some? && Step(s, Consume).value.ring.Valid() && PhaseInv(Step(s, Consume).value)
  {
  }

  lemma StepKeepsOrder<T>(s: State<T>, e: Event<T>)
    requires Inv(s)
    ensures Step(s, e).Some? && InOrder(Step(s, e).value)
  {
  }

  lemma StepKeepsInv<T>(s: State<T>, e: Event<T>)
    requires Inv(s)
    ensures Step(s, e).Some? && Inv(Step(s, e).value)
  {
    StepKeepsOrder(s, e);
    match e
    case Produce(msg) =>
      ProduceKeepsRing(s, msg);
      ProduceKeepsPhase(s, msg);
    case Consume =>
      ConsumeKeepsRing(s);
      ConsumeKeepsPhase(s);
  }

  // ------------------------------------------------------------------ whole runs

  ghost predicate Initial<T>(s: State<T>) {
    && s.ring.Valid() && s.ring.begin == s.ring.end == 0
    && s.phase == Spinning && s.pushed == [] && s.delivered == [] && s.head == 0 && s.overruns == 0
  }

  ghost function Run<T>(s: State<T>, run: seq<Event<T>>): Option<State<T>>
    decreases |run|
  {
    if run == [] then Some(s)
    else if !s.ring.Valid() then None
    else match Step(s, run[0])
         case None => None
         case Some(next) => Run(next, run[1..])
  }

  lemma {:induction false} RunKeepsInv<T>(s: State<T>, run: seq<Event<T>>)
    requires Inv(s)
    ensures Run(s, run).Some? && Inv(Run(s, run).value)
    decreases |run|
  {
    if run == [] {
    } else {
      StepKeepsInv(s, run[0]);
      RunKeepsInv(Step(s, run[0]).value, run[1..]);
    }
  }

  lemma InitialInv<T>(s: State<T>)
    requires Initial(s)
    ensures Inv(s)
  {
  }

  ghost function PushOf<T>(e: Event<T>): seq<T> {
    if e.Produce? then [e.msg] else []
  }

  /** What one step reads through the consumer's pointer. */
  ghost function ReadOf<T>(s: State<T>, e: Event<T>): seq<T> {
    if e.Consume? && s.phase.Emptied? && s.phase.node < |s.ring.data| then [s.ring.data[s.phase.node]] else []
  }

  /** The messages that the producer pushes in a run, in order. */
  ghost function Pushes<T>(run: seq<Event<T>>): seq<T>
    decreases |run|
  {
    if run == [] then [] else PushOf(run[0]) + Pushes(run[1..])
  }

  /** What the consumer reads in a run, in order. */
  ghost function Reads<T>(s: State<T>, run: seq<Event<T>>): seq<T>
    decreases |run|
  {
    if run == [] || !s.ring.Valid() || Step(s, run[0]).None? then []
    else ReadOf(s, run[0]) + Reads(Step(s, run[0]).value, run[1..])
  }

  /** How many pushes of a run find the ring full. */
  ghost function FullPushes<T>(s: State<T>, run: seq<Event<T>>): nat
    decreases |run|
  {
    if run == [] || !s.ring.Valid() || Step(s, run[0]).None? then 0
    else (if run[0].Produce? && s.ring.Full() then 1 else 0) + FullPushes(Step(s, run[0]).value, run[1..])
  }

  lemma Regroup<T>(a: seq<T>, b: seq<T>, c: seq<T>)
    ensures (a + b) + c == a + (b + c)
  {
  }

  lemma StepRecords<T>(s: State<T>, e: Event<T>)
    requires Inv(s)
    ensures Step(s, e).Some? && Inv(Step(s, e).value)
    ensures Step(s, e).value.pushed == s.pushed + PushOf(e)
    ensures Step(s, e).value.delivered == s.delivered + ReadOf(s, e)
  {
    StepKeepsInv(s, e);
  }

  lemma {:induction false} RunRecordsPushes<T>(s: State<T>, run: seq<Event<T>>)
    requires Inv(s)
    ensures Run(s, run).Some? && Run(s, run).value.pushed == s.pushed + Pushes(run)
    decreases |run|
  {
    if run == [] {
    } else {
      var e, rest := run[0], run[1..];
      StepRecords(s, e);
      var next := Step(s, e).value;
      assert Run(s, run) == Run(next, rest);
      RunRecordsPushes(next, rest);
      Regroup(s.pushed, PushOf(e), Pushes(rest));
    }
  }

  lemma {:induction false} RunRecordsReads<T>(s: State<T>, run: seq<Event<T>>)
    requires Inv(s)
    ensures Run(s, run).Some? && Run(s, run).value.delivered == s.delivered + Reads(s, run)
    decreases |run|
  {
    if run == [] {
    } else {
      var e, rest := run[0], run[1..];
      StepRecords(s, e);
      var next := Step(s, e).value;
      assert Run(s, run) == Run(next, rest);
      RunRecordsReads(next, rest);
      Regroup(s.delivered, ReadOf(s, e), Reads(next, rest));
    }
  }

  lemma {:induction false} RunCountsOverruns<T>(s: State<T>, run: seq<Event<T>>)
    requires Inv(s)
    ensures Run(s, run).Some? && Run(s, run).value.overruns == s.overruns + FullPushes(s, run)
    decreases |run|
  {
    if run == [] {
    } else {
      var next := Step(s, run[0]).value;
      StepKeepsInv(s, run[0]);
      RunCountsOverruns(next, run[1..]);
      assert Run(s, run) == Run(next, run[1..]);
      assert next.overruns == s.overruns + if run[0].Produce? && s.ring.Full() then 1 else 0;
    }
  }

  /** The histories record exactly the pushes of a run, its reads, and its pushes into a full ring. */
  lemma RunRecords<T>(s0: State<T>, run: seq<Event<T>>)
    requires Initial(s0)
    ensures Inv(s0) && Run(s0, run).Some? && Inv(Run(s0, run).value)
    ensures var s := Run(s0, run).value;
            s.pushed == Pushes(run) && s.delivered == Reads(s0, run) && s.overruns == FullPushes(s0, run)
  {
    InitialInv(s0);
    RunKeepsInv(s0, run);
    RunRecordsPushes(s0, run);
    RunRecordsReads(s0, run);
    RunCountsOverruns(s0, run);
  }

  /** Every interleaving of any pushes with the consumer's steps goes through: the pointer read is
      never null.  And if no push has found the ring full, what has been read is a prefix of what
      was pushed. */
  lemma DeliversPrefix<T>(s0: State<T>, run: seq<Event<T>>)
    requires Initial(s0)
    ensures Run(s0, run).Some?
    ensures FullPushes(s0, run) == 0 ==> Reads(s0, run) <= Pushes(run)
  {
    RunRecords(s0, run);
  }

  /** The bound on pushes is needed: with two nodes, two messages pushed before the consumer moves
      leave only the second to deliver. */
  lemma OverrunLosesMessage<T>(s0: State<T>, a: T, b: T)
    requires Initial(s0) && |s0.ring.data| == 2 && a != b
    ensures var run := [Produce(a), Produce(b), Consume, Consume, Consume, Consume];
            && Run(s0, run).Some? && Pushes(run) == [a, b] && Reads(s0, run) == [b]
  {
    var run := [Produce(a), Produce(b), Consume, Consume, Consume, Consume];
    var s1 := Step(s0, run[0]).value;
    assert s1.ring == Ring(s0.ring.data[0 := a], 0, 1);
    var s2 := Step(s1, run[1]).value;
    assert s2.ring == Ring([a, b], 1, 0);
    var s3 := Step(s2, Consume).value;
    var s4 := Step(s3, Consume).value;
    var s5 := Step(s4, Consume).value;
    assert s5.ring == Ring([a, b], 0, 0) && s5.phase == Emptied(1, 1);
    var s6 := Step(s5, Consume).value;
    assert Run(s6, run[1..][1..][1..][1..][1..][1..]) == Some(s6);
    assert Run(s5, run[1..][1..][1..][1..][1..]) == Some(s6);
    assert Run(s4, run[1..][1..][1..][1..]) == Some(s6);
    assert Run(s3, run[1..][1..][1..]) == Some(s6);
    assert Run(s2, run[1..][1..]) == Some(s6);
    assert Run(s1, run[1..]) == Some(s6);
    RunRecords(s0, run);
    assert s6.pushed == [a, b] && s6.delivered == [b];
  }

  ghost predicate Distinct<T(!new)>(msgs: seq<T>) {
    forall i, j :: 0 <= i < j < |msgs| ==> msgs[i] != msgs[j]
  }

  /** The last of the first n positions that falls into the same node as `pos`. */
  lemma {:induction false} LastInto(n: nat, c: nat, pos: nat) returns (last: nat)
    requires c > 0 && pos < n
    ensures pos <= last < n <= last + c && NodeOf(c, last) == NodeOf(c, pos)
    ensures n > pos + c ==> last > pos
    decreases n - pos
  {
    if n <= pos + c {
      last := pos;
    } else {
      NodeAlong(c, pos, c);
      last := LastInto(n, c, pos + c);
    }
  }

  /** The read that is about to be made: no push had found the ring full when its front() was
      called, and its node has not been written to since, which takes a full ring to push into. */
  ghost predicate CleanRead<T>(s: State<T>)
    requires s.phase.Emptied?
  {
    s.phase.lost == 0 && |s.pushed| <= |s.delivered| + |s.ring.data|
  }

  /** Exactly when the next read continues the prefix, for distinct messages.  Every read does while
      no push finds the ring full, as one node of the ring always stays free. */
  lemma NextReadIsNextMessage<T(!new)>(s: State<T>)
    requires Inv(s) && s.phase.Emptied?
    ensures |s.delivered| < |s.pushed| && s.phase.node < |s.ring.data|
    ensures CleanRead(s) ==> s.ring.data[s.phase.node] == s.pushed[|s.delivered|]
    ensures Distinct(s.pushed) && s.ring.data[s.phase.node] == s.pushed[|s.delivered|] ==> CleanRead(s)
    ensures s.overruns == 0 ==> CleanRead(s)
  {
    ReadYields(s);
    var c, pos := |s.ring.data|, |s.delivered| + s.phase.lost;
    var last := LastInto(|s.pushed|, c, pos);
    assert s.ring.data[NodeOf(c, last)] == s.pushed[last];
  }

  // ------------------------------------------------------------------ exactly when delivery is a prefix

  /** Every read of the run is clean. */
  ghost predicate CleanReads<T>(s: State<T>, run: seq<Event<T>>)
    requires Inv(s)
    decreases |run|
  {
    run == []
    || (StepKeepsInv(s, run[0]);
        && (run[0].Consume? && s.phase.Emptied? ==> CleanRead(s))
        && CleanReads(Step(s, run[0]).value, run[1..]))
  }

  /** Histories only grow. */
  lemma {:induction false} RunExtends<T>(s: State<T>, run: seq<Event<T>>)
    requires Inv(s)
    ensures Run(s, run).Some?
    ensures s.pushed <= Run(s, run).value.pushed && s.delivered <= Run(s, run).value.delivered
    decreases |run|
  {
    if run == [] {
    } else {
      var next := Step(s, run[0]).value;
      StepKeepsInv(s, run[0]);
      assert s.pushed <= next.pushed && s.delivered <= next.delivered;
      RunExtends(next, run[1..]);
    }
  }

  /** A step keeps the prefix, unless it is a read that is not clean. */
  lemma StepKeepsPrefix<T(!new)>(s: State<T>, e: Event<T>)
    requires Inv(s) && s.delivered <= s.pushed && Step(s, e).Some?
    ensures var n := Step(s, e).value;
            && (!(e.Consume? && s.phase.Emptied?) || CleanRead(s) ==> n.delivered <= n.pushed)
            && (Distinct(s.pushed) && e.Consume? && s.phase.Emptied? && !CleanRead(s) ==> !(n.delivered <= n.pushed))
  {
    if e.Consume? && s.phase.Emptied? {
      NextReadIsNextMessage(s);
    }
  }

  /** Once it is broken, it stays so. */
  lemma BrokenStaysBroken<T(!new)>(s: State<T>, run: seq<Event<T>>)
    requires Inv(s) && !(s.delivered <= s.pushed)
    ensures Run(s, run).Some? && !(Run(s, run).value.delivered <= Run(s, run).value.pushed)
  {
    RunExtends(s, run);
  }

  lemma {:induction false} PrefixOfRun<T(!new)>(s: State<T>, run: seq<Event<T>>)
    requires Inv(s) && s.delivered <= s.pushed
    ensures Run(s, run).Some?
    ensures CleanReads(s, run) ==> Run(s, run).value.delivered <= Run(s, run).value.pushed
    ensures Distinct(Run(s, run).value.pushed) && Run(s, run).value.delivered <= Run(s, run).value.pushed
            ==> CleanReads(s, run)
    decreases |run|
  {
    if run == [] {
    } else {
      StepKeepsInv(s, run[0]);
      StepKeepsPrefix(s, run[0]);
      var n := Step(s, run[0]).value;
      RunExtends(s, run);
      if n.delivered <= n.pushed {
        PrefixOfRun(n, run[1..]);
      } else {
        BrokenStaysBroken(n, run[1..]);
      }
      if Distinct(Run(s, run).value.pushed) {
        assert forall i :: 0 <= i < |s.pushed| ==> s.pushed[i] == Run(s, run).value.pushed[i];
        assert Distinct(s.pushed);
      }
    }
  }

  /** Whole runs, overruns or not: if at each read no push had found the ring full before its
      front() and no more than a ring's worth had been pushed past what was read, then what is
      read is a prefix of what is pushed; and for distinct messages only then. */
  lemma PrefixIffReadsClean<T(!new)>(s0: State<T>, run: seq<Event<T>>)
    requires Initial(s0)
    ensures Inv(s0) && Run(s0, run).Some?
    ensures CleanReads(s0, run) ==> Reads(s0, run) <= Pushes(run)
    ensures Distinct(Pushes(run)) ==> (Reads(s0, run) <= Pushes(run) <==> CleanReads(s0, run))
  {
    RunRecords(s0, run);
    PrefixOfRun(s0, run);
  }

  // ------------------------------------------------------------------ the object

  lemma {:induction false} RunConcat<T>(s: State<T>, a: seq<Event<T>>, b: seq<Event<T>>)
    requires Run(s, a).Some?
    ensures Run(s, a + b) == Run(Run(s, a).value, b)
    decreases |a|
  {
    if a == [] {
      assert a + b == b;
    } else {
      var next := Step(s, a[0]).value;
      assert a + b == [a[0]] + (a[1..] + b);
      assert (a + b)[1..] == a[1..] + b;
      assert Run(s, a + b) == Run(next, a[1..] + b);
      RunConcat(next, a[1..], b);
    }
  }

  /** States that some interleaving leads to. */
  ghost predicate Reached<T(!new)>(s: State<T>) {
    exists s0: State<T>, run: seq<Event<T>> :: Initial(s0) && Run(s0, run) == Some(s)
  }

  lemma ReachedInv<T(!new)>(s: State<T>)
    requires Reached(s)
    ensures Inv(s)
  {
    var s0: State<T>, run: seq<Event<T>> :| Initial(s0) && Run(s0, run) == Some(s);
    InitialInv(s0);
    RunKeepsInv(s0, run);
  }

  /** A reached state can always take any step, and the consumer's pointer is good. */
  lemma ReachedStep<T(!new)>(s: State<T>, e: Event<T>)
    requires Reached(s)
    ensures s.ring.Valid() && Step(s, e).Some? && Reached(Step(s, e).value)
    ensures Run(s, [e]) == Step(s, e)
    ensures s.phase.Ready? ==> s.ring.begin != s.ring.end
    ensures s.phase.Fronted? ==> s.ring.begin != s.ring.end
    ensures s.phase.Emptied? ==> s.phase.node < |s.ring.data|
  {
    ReachedInv(s);
    StepKeepsInv(s, e);
    assert [e][1..] == [];
    assert Run(Step(s, e).value, [e][1..]) == Step(s, e);
    var s0: State<T>, run: seq<Event<T>> :| Initial(s0) && Run(s0, run) == Some(s);
    RunConcat(s0, run, [e]);
    assert Run(s0, run + [e]) == Step(s, e);
  }

  /** The pushes of a burst. */
  ghost function Burst<T>(msgs: seq<T>): (run: seq<Event<T>>)
    ensures |run| == |msgs|
  {
    seq(|msgs|, i requires 0 <= i < |msgs| => Produce(msgs[i]))
  }

  /** front(), pop() and the read, each after a burst. */
  ghost function PopAndRead<T>(afterEmpty: seq<T>, afterFront: seq<T>, afterPop: seq<T>): seq<Event<T>> {
    Burst(afterEmpty) + [Consume] + (Burst(afterFront) + [Consume]) + (Burst(afterPop) + [Consume])
  }

  lemma BurstAppend<T>(pushed: seq<T>, msgs: seq<T>, i: nat)
    requires i < |msgs|
    ensures Burst(msgs[..i]) + [Produce(msgs[i])] == Burst(msgs[..i + 1])
    ensures pushed + msgs[..i] + [msgs[i]] == pushed + msgs[..i + 1]
  {
  }

  /** Evaluations of the loop's condition, each after a burst. */
  ghost function Spin<T>(bursts: seq<seq<T>>): seq<Event<T>>
    decreases |bursts|
  {
    if bursts == [] then []
    else Spin(bursts[..|bursts| - 1]) + (Burst(bursts[|bursts| - 1]) + [Consume])
  }

  /** The i-th evaluation, of as many as there are bursts, finds the ring empty. */
  ghost predicate TurnFindsNothing<T>(s: State<T>, bursts: seq<seq<T>>, i: nat) {
    && i < |bursts| && Run(s, Spin(bursts[..i + 1])).Some?
    && var after := Run(s, Spin(bursts[..i + 1])).value; after.ring.Valid() && after.ring.Held() == []
  }

  /** The consumer's next step continues a run. */
  lemma ConsumeAppend<T(!new)>(s: State<T>, run: seq<Event<T>>, now: State<T>)
    requires Run(s, run) == Some(now) && Reached(now)
    ensures now.ring.Valid() && Step(now, Consume).Some? && Reached(Step(now, Consume).value)
    ensures Run(s, run + [Consume]) == Step(now, Consume)
    ensures now.phase.Ready? || now.phase.Fronted? ==> now.ring.begin != now.ring.end
    ensures now.phase.Emptied? ==> now.phase.node < |now.ring.data|
  {
    ReachedStep(now, Consume);
    RunConcat(s, run, [Consume]);
  }

  ghost predicate TurnsFindNothing<T>(s: State<T>, bursts: seq<seq<T>>, turns: int) {
    forall i: nat :: i < turns ==> TurnFindsNothing(s, bursts, i)
  }

  lemma SpinAppend<T>(s: State<T>, bursts: seq<seq<T>>, i: nat, turn: seq<Event<T>>)
    requires i < |bursts| && Run(s, Spin(bursts[..i])).Some? && turn == Burst(bursts[i]) + [Consume]
    ensures Spin(bursts[..i + 1]) == Spin(bursts[..i]) + turn
    ensures Run(s, Spin(bursts[..i + 1])) == Run(Run(s, Spin(bursts[..i])).value, turn)
    ensures var after := Run(Run(s, Spin(bursts[..i])).value, turn);
            after.Some? && after.value.ring.Valid() && after.value.ring.Held() == [] ==> TurnFindsNothing(s, bursts, i)
  {
    assert bursts[..i + 1][..i] == bursts[..i];
    RunConcat(s, Spin(bursts[..i]), turn);
  }

  class MSession<T(0, !new)> {
    const queue: MSyncAnnularQueue<T>
    ghost var state: State<T>

    /** `state` is a reached state of the interleavings, and its ring is the queue. */
    ghost predicate Valid()
      reads this, queue, queue.data
    {
      Reached(state) && state.ring == queue.AsRing() && queue.Valid()
    }

    constructor (capacity: nat)
      requires capacity > 0
      ensures Valid() && Initial(state) && |state.ring.data| == capacity
      ensures fresh(queue) && fresh(queue.data)
    {
      queue := new MSyncAnnularQueue<T>(capacity);
      new;
      state := State(queue.AsRing(), Spinning, [], [], 0, 0);
      assert Run(state, []) == Some(state);
    }

    /** The producer pushes one message. */
    method ReceiveOne(msg: T) returns (ghost run: seq<Event<T>>)
      requires Valid()
      modifies this, queue`begin, queue`end, queue.data
      ensures Valid() && Run(old(state), run) == Some(state) && queue.data == old(queue.data)
      ensures run == [Produce(msg)]
      ensures state.phase == old(state.phase) && state.pushed == old(state.pushed) + [msg]
      ensures state.delivered == old(state.delivered)
    {
      run := [Produce(msg)];
      ReachedStep(state, Produce(msg));
      queue.Push(msg);
      state := Step(state, Produce(msg)).value;
    }

    /** The producer pushes a burst of messages. */
    method Receive(msgs: seq<T>) returns (ghost run: seq<Event<T>>)
      requires Valid()
      modifies this, queue`begin, queue`end, queue.data
      ensures Valid() && Run(old(state), run) == Some(state) && queue.data == old(queue.data)
      ensures run == Burst(msgs)
      ensures state.phase == old(state.phase) && state.pushed == old(state.pushed) + msgs
      ensures state.delivered == old(state.delivered)
    {
      run := [];
      for i := 0 to |msgs|
        invariant Valid() && Run(old(state), run) == Some(state) && queue.data == old(queue.data)
        invariant run == Burst(msgs[..i])
        invariant state.phase == old(state.phase) && state.pushed == old(state.pushed) + msgs[..i]
        invariant state.delivered == old(state.delivered)
      {
        ghost var one := ReceiveOne(msgs[i]);
        RunConcat(old(state), run, one);
        BurstAppend(old(state.pushed), msgs, i);
        run := run + one;
      }
      assert msgs[..|msgs|] == msgs;
    }

    // The consumer's steps, each with the burst the producer pushes just before it.

    /** One evaluation of the loop's condition. */
    method Look(burst: seq<T>) returns (empty: bool, ghost run: seq<Event<T>>)
      requires Valid() && state.phase == Spinning
      modifies this, queue`begin, queue`end, queue.data
      ensures Valid() && Run(old(state), run) == Some(state) && queue.data == old(queue.data)
      ensures run == Burst(burst) + [Consume] && (empty <==> state.ring.Held() == [])
      ensures state.phase == (if empty then Spinning else Ready) && state.delivered == old(state.delivered)
    {
      run := Receive(burst);
      ConsumeAppend(old(state), run, state);
      run := run + [Consume];
      empty := queue.Empty();
      state := Step(state, Consume).value;
    }

    /** front(): a pointer to the oldest node, which holds the message at the front. */
    method TakeFront(burst: seq<T>) returns (node: nat, ghost run: seq<Event<T>>)
      requires Valid() && state.phase == Ready
      modifies this, queue`begin, queue`end, queue.data
      ensures Valid() && Run(old(state), run) == Some(state) && queue.data == old(queue.data)
      ensures run == Burst(burst) + [Consume]
      ensures state.phase == Fronted(node, state.overruns) && state.delivered == old(state.delivered)
      ensures state.head == |state.delivered| + state.overruns < |state.pushed|
      ensures state.ring.Held() != [] && node < queue.data.Length
      ensures queue.data[node] == state.ring.Held()[0] == state.pushed[state.head]
    {
      run := Receive(burst);
      ReachedInv(state);
      ConsumeAppend(old(state), run, state);
      run := run + [Consume];
      var front := queue.Front();
      node := front.value;
      state := Step(state, Consume).value;
    }

    method PopFront(burst: seq<T>) returns (ghost run: seq<Event<T>>)
      requires Valid() && state.phase.Fronted?
      modifies this, queue`begin, queue`end, queue.data
      ensures Valid() && Run(old(state), run) == Some(state) && queue.data == old(queue.data)
      ensures run == Burst(burst) + [Consume]
      ensures state.phase == Emptied(old(state.phase.node), old(state.phase.lost))
      ensures state.delivered == old(state.delivered)
    {
      run := Receive(burst);
      ConsumeAppend(old(state), run, state);
      run := run + [Consume];
      queue.Pop();
      state := Step(state, Consume).value;
    }

    /** The value behind the pointer: the message it was taken for, if its node has not been
        written to since. */
    method ReadThrough(node: nat, burst: seq<T>) returns (msg: T, ghost run: seq<Event<T>>)
      requires Valid() && state.phase.Emptied? && state.phase.node == node
      modifies this, queue`begin, queue`end, queue.data
      ensures Valid() && Run(old(state), run) == Some(state) && queue.data == old(queue.data)
      ensures run == Burst(burst) + [Consume]
      ensures state.phase == Spinning && state.delivered == old(state.delivered) + [msg]
      ensures var pos := |old(state.delivered)| + old(state.phase.lost);
              pos < |state.pushed| && (|state.pushed| <= pos + queue.data.Length ==> msg == state.pushed[pos])
    {
      run := Receive(burst);
      ReachedInv(state);
      ReadYields(state);
      ConsumeAppend(old(state), run, state);
      run := run + [Consume];
      msg := queue.data[node];
      state := Step(state, Consume).value;
    }

    /** The spin: just before the i-th evaluation of the loop's condition the producer pushes
        `bursts[i]`.  It is observed for as many turns as there are bursts, and ends at the first
        of them that finds a message. */
    method Await(bursts: seq<seq<T>>) returns (found: bool, ghost turns: nat, ghost run: seq<Event<T>>)
      requires Valid() && state.phase == Spinning
      modifies this, queue`begin, queue`end, queue.data
      ensures Valid() && Run(old(state), run) == Some(state) && queue.data == old(queue.data)
      ensures turns <= |bursts| && run == Spin(bursts[..turns]) && (found || turns == |bursts|)
      ensures found ==> turns > 0 && state.ring.Held() != []
      ensures TurnsFindNothing(old(state), bursts, if found then turns - 1 else turns)
      ensures state.phase == (if found then Ready else Spinning) && state.delivered == old(state.delivered)
    {
      run := [];
      found := false;
      turns := 0;
      var i := 0;
      while i < |bursts| && !found
        invariant turns == i <= |bursts|
        invariant Valid() && Run(old(state), run) == Some(state) && queue.data == old(queue.data)
        invariant run == Spin(bursts[..i]) && (found ==> i > 0 && state.ring.Held() != [])
        invariant TurnsFindNothing(old(state), bursts, if found then i - 1 else i)
        invariant state.phase == (if found then Ready else Spinning) && state.delivered == old(state.delivered)
      {
        var empty, turn := Look(bursts[i]);
        SpinAppend(old(state), bursts, i, turn);
        run := run + turn;
        found := !empty;
        i := i + 1;
        turns := i;
      }
    }

    /** What follows the spin: front(), pop() and the read. */
    method TakeMessage(afterEmpty: seq<T>, afterFront: seq<T>, afterPop: seq<T>)
      returns (msg: T, ghost run: seq<Event<T>>)
      requires Valid() && state.phase == Ready
      modifies this, queue`begin, queue`end, queue.data
      ensures Valid() && Run(old(state), run) == Some(state) && state.phase == Spinning
      ensures run == PopAndRead(afterEmpty, afterFront, afterPop)
      ensures state.delivered == old(state.delivered) + [msg]
      ensures state.overruns == 0 ==>
                |old(state.delivered)| < |state.pushed| && msg == state.pushed[|old(state.delivered)|]
    {
      ghost var start := state;
      var retMsg, front := TakeFront(afterEmpty);
      ghost var pop := PopFront(afterFront);
      RunConcat(start, front, pop);
      var value, read := ReadThrough(retMsg, afterPop);
      RunConcat(start, front + pop, read);
      msg, run := value, front + pop + read;
      ReachedInv(state);
      assert state.delivered[|start.delivered|] == value;
    }

    /** getPopFrontRecvMsg, the producer pushing `bursts` while it spins and the other three in
        the gaps between its steps: `run` is just that.  None: it is still spinning, every turn
        having found the ring empty; else only the last turn did not.  A message returned is the
        one delivered in this run of the interleavings, and the next one pushed if no push ever
        found the ring full. */
    method GetPopFrontRecvMsg(bursts: seq<seq<T>>, afterEmpty: seq<T>, afterFront: seq<T>, afterPop: seq<T>)
      returns (msg: Option<T>, ghost turns: nat, ghost run: seq<Event<T>>)
      requires Valid() && state.phase == Spinning
      modifies this, queue`begin, queue`end, queue.data
      ensures Valid() && Run(old(state), run) == Some(state) && state.phase == Spinning
      ensures turns <= |bursts|
      ensures run == Spin(bursts[..turns])
                     + if msg.Some? then PopAndRead(afterEmpty, afterFront, afterPop) else []
      ensures TurnsFindNothing(old(state), bursts, if msg.Some? then turns - 1 else |bursts|)
      ensures state.delivered == old(state.delivered) + if msg.Some? then [msg.value] else []
      ensures msg.Some? && state.overruns == 0 ==>
                |old(state.delivered)| < |state.pushed| && msg.value == state.pushed[|old(state.delivered)|]
    {
      ghost var start := state;
      var found;
      found, turns, run := Await(bursts);
      if found {
        var value, take := TakeMessage(afterEmpty, afterFront, afterPop);
        RunConcat(start, run, take);
        msg, run := Some(value), run + take;
      } else {
        msg := None;
      }
    }
  }
}
