/** MMAVFrame and MMAVFrameRef: wrappers that own AVFrames, which view reference-counted buffers.

    The frames, their buffers and the counts belong to FFmpeg; `Alloc`, `Unref`, `Ref`, `Free` and
    `Receive` are its documented contracts.  The wrappers' operations are built from them as in
    the source, and are shown to refine a model with no frames and no counts at all, in which a
    wrapper simply views a buffer. */
module FrameOwnership {
  import opened Prelude

  type Handle = nat   // a live MMAVFrame or MMAVFrameRef object
  type Frame = nat    // an AVFrame
  type Buffer = nat   // a reference-counted data buffer

  type Pointers = map<Handle, Option<Frame>>   // each live wrapper's m_av_frame, None for null
  type Frames = map<Frame, Option<Buffer>>     // the live frames and the buffer each views

  /** `counts` are the live buffers' reference counts, `released` the history of buffers given
      back.  Frames and buffers are numbered as they are created. */
  datatype Store = Store(
    pointers: Pointers,
    frames: Frames,
    counts: map<Buffer, nat>,
    released: seq<Buffer>,
    nextFrame: Frame,
    nextBuffer: Buffer)

  // ------------------------------------------------------------------ FFmpeg's contracts
  // A frame or buffer that is not live is left alone; `RunSound` shows this never comes up.

  /** av_frame_alloc: a new frame that views nothing. */
  function Alloc(s: Store): (r: Store) {
    s.(frames := s.frames[s.nextFrame := None], nextFrame := s.nextFrame + 1)
  }

  /** Drops one reference; the last one gives the buffer back. */
  function Drop(s: Store, b: Buffer): (r: Store) {
    if b !in s.counts then s
    else if s.counts[b] <= 1 then s.(counts := s.counts - {b}, released := s.released + [b])
    else s.(counts := s.counts[b := s.counts[b] - 1])
  }

  /** av_frame_unref: the frame views nothing any more. */
  function Unref(s: Store, f: Frame): (r: Store) {
    if f !in s.frames || s.frames[f] == None then s
    else Drop(s, s.frames[f].value).(frames := s.frames[f := None])
  }

  /** av_frame_ref: a frame that views nothing comes to view what `src` views. */
  function Ref(s: Store, dst: Frame, src: Frame): (r: Store) {
    if src !in s.frames || s.frames[src] == None || s.frames[src].value !in s.counts then s
    else
      var b := s.frames[src].value;
      s.(frames := s.frames[dst := Some(b)], counts := s.counts[b := s.counts[b] + 1])
  }

  /** av_frame_free: unref, then the frame is gone. */
  function Free(s: Store, f: Frame): (r: Store) {
    var u := Unref(s, f);
    u.(frames := u.frames - {f})
  }

  /** A decoder's avcodec_receive_frame: unref, then the frame views a buffer of its own. */
  function Receive(s: Store, f: Frame): (r: Store) {
    var u := Unref(s, f);
    u.(frames := u.frames[f := Some(u.nextBuffer)], counts := u.counts[u.nextBuffer := 1],
       nextBuffer := u.nextBuffer + 1)
  }

  // ------------------------------------------------------------------ the counts

  ghost function Viewers(frames: Frames, b: Buffer): set<Frame> {
    set f | f in frames && frames[f] == Some(b)
  }

  /** Every count is the number of live frames that view the buffer, and is never zero. */
  ghost predicate CountsExact(s: Store) {
    && (forall f :: f in s.frames && s.frames[f].Some? ==> s.frames[f].value in s.counts)
    && (forall b :: b in s.counts ==> s.counts[b] == |Viewers(s.frames, b)| > 0)
  }

  /** Every buffer ever made is either counted or released, not both, and released only once. */
  ghost predicate ReleasedOnce(s: Store) {
    && (forall b :: b in s.counts ==> b < s.nextBuffer && b !in s.released)
    && (forall b :: b in s.released ==> b < s.nextBuffer)
    && (forall b: Buffer :: b < s.nextBuffer ==> b in s.counts || b in s.released)
    && (forall i, j :: 0 <= i < j < |s.released| ==> s.released[i] != s.released[j])
    && (forall f :: f in s.frames ==> f < s.nextFrame)
  }

  ghost predicate Counted(s: Store) {
    CountsExact(s) && ReleasedOnce(s)
  }

  lemma AllocCounted(s: Store)
    requires Counted(s)
    ensures Counted(Alloc(s)) && s.nextFrame !in s.frames
  {
    var n := Alloc(s);
    forall b | b in n.counts
      ensures n.counts[b] == |Viewers(n.frames, b)| > 0
    {
      assert Viewers(n.frames, b) == Viewers(s.frames, b);
    }
  }

  lemma OnlyViewer(frames: Frames, f: Frame, g: Frame, b: Buffer)
    requires f in Viewers(frames, b) && g in Viewers(frames, b) && |Viewers(frames, b)| == 1
    ensures f == g
  {
    assert |Viewers(frames, b) - {f}| == 0;
    assert g !in Viewers(frames, b) - {f};
  }

  lemma UnrefCountsExact(s: Store, f: Frame)
    requires CountsExact(s) && f in s.frames
    ensures CountsExact(Unref(s, f))
  {
    if s.frames[f].Some? {
      var b, u := s.frames[f].value, Unref(s, f);
      assert f in Viewers(s.frames, b);
      forall g | g in u.frames && u.frames[g].Some?
        ensures u.frames[g].value in u.counts
      {
        assert g != f && u.frames[g] == s.frames[g];
        if s.frames[g] == Some(b) && s.counts[b] == 1 {
          OnlyViewer(s.frames, f, g, b);
        }
      }
      forall c | c in u.counts
        ensures u.counts[c] == |Viewers(u.frames, c)| > 0
      {
        assert Viewers(u.frames, c) == if c == b then Viewers(s.frames, c) - {f} else Viewers(s.frames, c);
      }
    }
  }

  lemma UnrefReleasedOnce(s: Store, f: Frame)
    requires Counted(s) && f in s.frames
    ensures ReleasedOnce(Unref(s, f))
  {
    if s.frames[f].Some? {
      var b, u := s.frames[f].value, Unref(s, f);
      assert forall c :: c in u.released <==> c in s.released || (c == b && s.counts[b] <= 1);
    }
  }

  lemma UnrefCounted(s: Store, f: Frame)
    requires Counted(s) && f in s.frames
    ensures Counted(Unref(s, f))
    ensures Unref(s, f).frames == s.frames[f := None]
    ensures Unref(s, f).nextBuffer == s.nextBuffer && Unref(s, f).nextFrame == s.nextFrame
  {
    UnrefCountsExact(s, f);
    UnrefReleasedOnce(s, f);
    if s.frames[f].None? {
      assert s.frames[f := None] == s.frames;
    }
  }

  /** A blank frame that comes to view `b` joins the viewers of `b` and of no other buffer. */
  lemma ViewersAdd(frames: Frames, f: Frame, b: Buffer, c: Buffer)
    requires f in frames ==> frames[f] == None
    ensures f !in Viewers(frames, c)
    ensures Viewers(frames[f := Some(b)], c) == if c == b then Viewers(frames, c) + {f} else Viewers(frames, c)
  {
  }

  lemma RefCounted(s: Store, dst: Frame, src: Frame)
    requires Counted(s) && dst in s.frames && src in s.frames && s.frames[dst] == None
    ensures Counted(Ref(s, dst, src))
    ensures Ref(s, dst, src).frames == s.frames[dst := s.frames[src]]
  {
    if s.frames[src].Some? {
      var b, r := s.frames[src].value, Ref(s, dst, src);
      forall c | c in r.counts
        ensures r.counts[c] == |Viewers(r.frames, c)| > 0
      {
        ViewersAdd(s.frames, dst, b, c);
      }
    } else {
      assert s.frames[dst := None] == s.frames;
    }
  }

  lemma FreeCounted(s: Store, f: Frame)
    requires Counted(s) && f in s.frames
    ensures Counted(Free(s, f))
    ensures Free(s, f).frames == s.frames - {f}
  {
    UnrefCounted(s, f);
    var u, n := Unref(s, f), Free(s, f);
    forall b | b in n.counts
      ensures n.counts[b] == |Viewers(n.frames, b)| > 0
    {
      assert Viewers(n.frames, b) == Viewers(u.frames, b);
    }
  }

  lemma ReceiveCountsExact(u: Store, n: Store, f: Frame)
    requires Counted(u) && f in u.frames && u.frames[f] == None
    requires n.frames == u.frames[f := Some(u.nextBuffer)] && n.counts == u.counts[u.nextBuffer := 1]
    ensures CountsExact(n)
  {
    assert u.nextBuffer !in u.counts;
    forall b | b in n.counts
      ensures n.counts[b] == |Viewers(n.frames, b)| > 0
    {
      ViewersAdd(u.frames, f, u.nextBuffer, b);
    }
  }

  lemma ReceiveCounted(s: Store, f: Frame)
    requires Counted(s) && f in s.frames
    ensures Counted(Receive(s, f))
    ensures Receive(s, f).frames == s.frames[f := Some(s.nextBuffer)]
  {
    UnrefCounted(s, f);
    ReceiveCountsExact(Unref(s, f), Receive(s, f), f);
  }

  // ------------------------------------------------------------------ the wrappers' operations

  datatype Op =
    | Create(h: Handle)                   // MMAVFrame()
    | Decode(h: Handle)                   // a decoder receives into the wrapper's frame
    | GetRef(src: Handle, dst: Handle)    // dst is the result of src.getRef()
    | CopyRef(src: Handle, dst: Handle)   // MMAVFrameRef(MMAVFrameRef&)
    | Move(src: Handle, dst: Handle)      // the move constructors
    | Assign(dst: Handle, src: Handle)    // MMAVFrameRef::operator=(MMAVFrameRef&)
    | Destroy(h: Handle)                  // the destructors

  predicate Points(p: Pointers, h: Handle) {
    h in p && p[h].Some?
  }

  /** When the source allows the call: constructed objects are new, used ones are live, and a
      moved-from wrapper is not copied from, assigned from or decoded into. */
  predicate Allowed(p: Pointers, op: Op) {
    match op
    case Create(h) => h !in p
    case Decode(h) => Points(p, h)
    case GetRef(src, dst) => src in p && dst !in p
    case CopyRef(src, dst) => Points(p, src) && dst !in p
    case Move(src, dst) => src in p && dst !in p
    case Assign(dst, src) => dst in p && Points(p, src)
    case Destroy(h) => h in p
  }

  /** The default constructors, with the wrapper that is being constructed. */
  function Construct(s: Store, h: Handle): (r: Store) {
    Alloc(s).(pointers := s.pointers[h := Some(s.nextFrame)])
  }

  function Step(s: Store, op: Op): (r: Store)
    requires Allowed(s.pointers, op)
  {
    match op
    case Create(h) => Construct(s, h)
    case Decode(h) => Receive(s, s.pointers[h].value)
    case GetRef(src, dst) =>
      var a := Construct(s, dst);
      if s.pointers[src].None? then a else Ref(a, s.nextFrame, s.pointers[src].value)
    case CopyRef(src, dst) => Ref(Construct(s, dst), s.nextFrame, s.pointers[src].value)
    case Move(src, dst) => s.(pointers := s.pointers[dst := s.pointers[src]][src := None])
    case Assign(dst, src) =>
      if s.pointers[dst].None? then Ref(Construct(s, dst), s.nextFrame, s.pointers[src].value)
      else Ref(Unref(s, s.pointers[dst].value), s.pointers[dst].value, s.pointers[src].value)
    case Destroy(h) =>
      (if s.pointers[h].Some? then Free(s, s.pointers[h].value) else s).(pointers := s.pointers - {h})
  }

  // ------------------------------------------------------------------ ownership

  ghost predicate Owned(p: Pointers, f: Frame) {
    exists h :: h in p && p[h] == Some(f)
  }

  ghost predicate PointersLive(p: Pointers, frames: Frames) {
    forall h :: Points(p, h) ==> p[h].value in frames
  }

  /** Every live frame belongs to exactly one wrapper, and wrappers point to live frames only. */
  ghost predicate OwnedOnce(p: Pointers, frames: Frames) {
    && PointersLive(p, frames)
    && (forall h, k :: Points(p, h) && Points(p, k) && p[h] == p[k] ==> h == k)
    && (forall f :: f in frames ==> Owned(p, f))
  }

  ghost predicate Sound(s: Store) {
    Counted(s) && OwnedOnce(s.pointers, s.frames)
  }

  /** What one operation does to the frames, in terms of the frames before. */
  ghost function FramesAfter(s: Store, op: Op): Frames
    requires Allowed(s.pointers, op) && PointersLive(s.pointers, s.frames)
  {
    match op
    case Create(h) => s.frames[s.nextFrame := None]
    case Decode(h) => s.frames[s.pointers[h].value := Some(s.nextBuffer)]
    case GetRef(src, dst) =>
      if s.pointers[src].None? then s.frames[s.nextFrame := None] else
      assert Points(s.pointers, src);
      s.frames[s.nextFrame := s.frames[s.pointers[src].value]]
    case CopyRef(src, dst) => s.frames[s.nextFrame := s.frames[s.pointers[src].value]]
    case Move(src, dst) => s.frames
    case Assign(dst, src) =>
      if s.pointers[dst].None? then s.frames[s.nextFrame := s.frames[s.pointers[src].value]]
      else
        var emptied := s.frames[s.pointers[dst].value := None];
        emptied[s.pointers[dst].value := emptied[s.pointers[src].value]]
    case Destroy(h) => if s.pointers[h].None? then s.frames else s.frames - {s.pointers[h].value}
  }

  lemma StepCounted(s: Store, op: Op)
    requires Counted(s) && PointersLive(s.pointers, s.frames) && Allowed(s.pointers, op)
    ensures Counted(Step(s, op)) && Step(s, op).frames == FramesAfter(s, op)
    ensures s.nextFrame !in s.frames
  {
    AllocCounted(s);
    match op
    case Create(h) =>
    case Decode(h) => ReceiveCounted(s, s.pointers[h].value);
    case GetRef(src, dst) =>
      if s.pointers[src].Some? {
        assert Points(s.pointers, src);
        NewRefCounted(s, src, dst);
      }
    case CopyRef(src, dst) => NewRefCounted(s, src, dst);
    case Move(src, dst) =>
    case Assign(dst, src) =>
      if s.pointers[dst].None? {
        NewRefCounted(s, src, dst);
      } else {
        assert Points(s.pointers, dst);
        UnrefCounted(s, s.pointers[dst].value);
        RefCounted(Unref(s, s.pointers[dst].value), s.pointers[dst].value, s.pointers[src].value);
      }
    case Destroy(h) =>
      if s.pointers[h].Some? {
        assert Points(s.pointers, h);
        FreeCounted(s, s.pointers[h].value);
      }
  }

  lemma NewRefCounted(s: Store, src: Handle, dst: Handle)
    requires Counted(s) && PointersLive(s.pointers, s.frames) && Points(s.pointers, src)
    ensures var n := Ref(Construct(s, dst), s.nextFrame, s.pointers[src].value);
            Counted(n) && n.frames == s.frames[s.nextFrame := s.frames[s.pointers[src].value]]
  {
    AllocCounted(s);
    var a, g := Construct(s, dst), s.pointers[src].value;
    assert Counted(a);
    RefCounted(a, s.nextFrame, g);
    assert s.frames[s.nextFrame := None][s.nextFrame := s.frames[g]] == s.frames[s.nextFrame := s.frames[g]];
  }

  /** Giving a new frame to a wrapper that has none. */
  lemma NewFrameOwned(p: Pointers, frames: Frames, h: Handle, f: Frame, view: Option<Buffer>)
    requires OwnedOnce(p, frames) && !Points(p, h) && f !in frames
    ensures OwnedOnce(p[h := Some(f)], frames[f := view])
  {
    var q := p[h := Some(f)];
    forall g | g in frames[f := view]
      ensures Owned(q, g)
    {
      if g == f {
        assert q[h] == Some(g);
      } else {
        assert Owned(p, g);
        var k :| k in p && p[k] == Some(g);
        assert q[k] == Some(g);
      }
    }
  }

  lemma ViewChangeOwned(p: Pointers, frames: Frames, f: Frame, view: Option<Buffer>)
    requires OwnedOnce(p, frames) && f in frames
    ensures OwnedOnce(p, frames[f := view])
  {
  }

  lemma MoveOwned(p: Pointers, frames: Frames, src: Handle, dst: Handle)
    requires OwnedOnce(p, frames) && src in p && dst !in p
    ensures OwnedOnce(p[dst := p[src]][src := None], frames)
  {
    var q := p[dst := p[src]][src := None];
    forall f | f in frames
      ensures Owned(q, f)
    {
      assert Owned(p, f);
      var k :| k in p && p[k] == Some(f);
      assert q[if k == src then dst else k] == Some(f);
    }
    forall h, k | Points(q, h) && Points(q, k) && q[h] == q[k]
      ensures h == k && q[h].value in frames
    {
      var h', k' := if h == dst then src else h, if k == dst then src else k;
      assert Points(p, h') && Points(p, k') && p[h'] == p[k'];
    }
  }

  lemma DestroyOwned(p: Pointers, frames: Frames, h: Handle)
    requires OwnedOnce(p, frames) && h in p
    ensures OwnedOnce(p - {h}, if p[h].None? then frames else frames - {p[h].value})
  {
    var q := p - {h};
    forall f | f in frames && p[h] != Some(f)
      ensures Owned(q, f)
    {
      assert Owned(p, f);
      var k :| k in p && p[k] == Some(f);
      assert q[k] == Some(f);
    }
    forall k | Points(q, k)
      ensures Points(p, k) && (p[h].Some? ==> p[k] != p[h])
    {
      assert Points(p, k);
      assert p[h].Some? ==> Points(p, h);
    }
  }

  lemma StepOwned(s: Store, op: Op)
    requires OwnedOnce(s.pointers, s.frames) && Allowed(s.pointers, op) && s.nextFrame !in s.frames
    ensures OwnedOnce(Step(s, op).pointers, FramesAfter(s, op))
  {
    var p := s.pointers;
    match op
    case Create(h) => NewFrameOwned(p, s.frames, h, s.nextFrame, None);
    case Decode(h) => ViewChangeOwned(p, s.frames, p[h].value, Some(s.nextBuffer));
    case GetRef(src, dst) =>
      assert p[src].Some? ==> Points(p, src);
      NewFrameOwned(p, s.frames, dst, s.nextFrame, if p[src].None? then None else s.frames[p[src].value]);
    case CopyRef(src, dst) => NewFrameOwned(p, s.frames, dst, s.nextFrame, s.frames[p[src].value]);
    case Move(src, dst) => MoveOwned(p, s.frames, src, dst);
    case Assign(dst, src) =>
      if p[dst].None? {
        NewFrameOwned(p, s.frames, dst, s.nextFrame, s.frames[p[src].value]);
      } else {
        assert Points(p, dst);
        var f := p[dst].value;
        var emptied := s.frames[f := None];
        ViewChangeOwned(p, s.frames, f, None);
        ViewChangeOwned(p, emptied, f, emptied[p[src].value]);
      }
    case Destroy(h) => DestroyOwned(p, s.frames, h);
  }

  // ------------------------------------------------------------------ the reference model

  /** What a wrapper shows: nothing because it was moved from, nothing yet, or a buffer. */
  datatype View = Moved | Blank | Of(buffer: Buffer)

  function Show(view: Option<Buffer>): View {
    match view
    case None => Blank
    case Some(b) => Of(b)
  }

  function ViewOf(p: Pointers, frames: Frames, h: Handle): View {
    if !Points(p, h) || p[h].value !in frames then Moved else Show(frames[p[h].value])
  }

  ghost function Views(p: Pointers, frames: Frames): map<Handle, View> {
    map h | h in p :: ViewOf(p, frames, h)
  }

  /** The operations on views alone.  Assigning a reference to itself blanks it. */
  ghost function Expected(views: map<Handle, View>, nextBuffer: Buffer, op: Op): map<Handle, View> {
    match op
    case Create(h) => views[h := Blank]
    case Decode(h) => views[h := Of(nextBuffer)]
    case GetRef(src, dst) =>
      if src !in views then views else views[dst := if views[src] == Moved then Blank else views[src]]
    case CopyRef(src, dst) => if src !in views then views else views[dst := views[src]]
    case Move(src, dst) => if src !in views then views else views[dst := views[src]][src := Moved]
    case Assign(dst, src) =>
      if src !in views then views else views[dst := if dst == src then Blank else views[src]]
    case Destroy(h) => views - {h}
  }

  lemma NewFrameViews(p: Pointers, frames: Frames, h: Handle, f: Frame, view: Option<Buffer>)
    requires PointersLive(p, frames) && f !in frames
    ensures Views(p[h := Some(f)], frames[f := view]) == Views(p, frames)[h := Show(view)]
  {
  }

  lemma ViewChangeViews(p: Pointers, frames: Frames, h: Handle, view: Option<Buffer>)
    requires OwnedOnce(p, frames) && Points(p, h)
    ensures Views(p, frames[p[h].value := view]) == Views(p, frames)[h := Show(view)]
  {
  }

  lemma MoveViews(p: Pointers, frames: Frames, src: Handle, dst: Handle)
    requires src in p && dst !in p
    ensures Views(p[dst := p[src]][src := None], frames)
         == Views(p, frames)[dst := ViewOf(p, frames, src)][src := Moved]
  {
  }

  lemma DestroyViews(p: Pointers, frames: Frames, h: Handle)
    requires OwnedOnce(p, frames) && h in p
    ensures Views(p - {h}, if p[h].None? then frames else frames - {p[h].value}) == Views(p, frames) - {h}
  {
  }

  lemma StepViews(s: Store, op: Op)
    requires OwnedOnce(s.pointers, s.frames) && Allowed(s.pointers, op) && s.nextFrame !in s.frames
    ensures Views(Step(s, op).pointers, FramesAfter(s, op))
         == Expected(Views(s.pointers, s.frames), s.nextBuffer, op)
  {
    var p, frames := s.pointers, s.frames;
    match op
    case Create(h) => NewFrameViews(p, frames, h, s.nextFrame, None);
    case Decode(h) => ViewChangeViews(p, frames, h, Some(s.nextBuffer));
    case GetRef(src, dst) =>
      assert p[src].Some? ==> Points(p, src);
      NewFrameViews(p, frames, dst, s.nextFrame, if p[src].None? then None else frames[p[src].value]);
    case CopyRef(src, dst) => NewFrameViews(p, frames, dst, s.nextFrame, frames[p[src].value]);
    case Move(src, dst) => MoveViews(p, frames, src, dst);
    case Assign(dst, src) => AssignViews(s, dst, src);
    case Destroy(h) => DestroyViews(p, frames, h);
  }

  lemma AssignViews(s: Store, dst: Handle, src: Handle)
    requires OwnedOnce(s.pointers, s.frames) && Allowed(s.pointers, Assign(dst, src)) && s.nextFrame !in s.frames
    ensures Views(Step(s, Assign(dst, src)).pointers, FramesAfter(s, Assign(dst, src)))
         == Expected(Views(s.pointers, s.frames), s.nextBuffer, Assign(dst, src))
  {
    var p, frames := s.pointers, s.frames;
    if p[dst].None? {
      NewFrameViews(p, frames, dst, s.nextFrame, frames[p[src].value]);
    } else {
      InPlaceViews(p, frames, dst, src);
    }
  }

  lemma InPlaceViews(p: Pointers, frames: Frames, dst: Handle, src: Handle)
    requires OwnedOnce(p, frames) && Points(p, dst) && Points(p, src)
    ensures var emptied := frames[p[dst].value := None];
            Views(p, emptied[p[dst].value := emptied[p[src].value]])
            == Views(p, frames)[dst := if dst == src then Blank else ViewOf(p, frames, src)]
  {
  }

  /** One operation keeps the counts and the ownership exact, and does to what the wrappers show
      just what the reference model says. */
  lemma StepRefines(s: Store, op: Op)
    requires Sound(s) && Allowed(s.pointers, op)
    ensures Sound(Step(s, op))
    ensures Views(Step(s, op).pointers, Step(s, op).frames) == Expected(Views(s.pointers, s.frames), s.nextBuffer, op)
  {
    StepCounted(s, op);
    StepOwned(s, op);
    StepViews(s, op);
  }

  /** From a sound store `s`, `op` leads to a sound store `n` that shows what is expected. */
  ghost predicate Refined(s: Store, n: Store, op: Op) {
    Sound(s) ==> Sound(n) && Views(n.pointers, n.frames) == Expected(Views(s.pointers, s.frames), s.nextBuffer, op)
  }

  lemma StepRefined(s: Store, op: Op)
    requires Allowed(s.pointers, op)
    ensures Refined(s, Step(s, op), op)
  {
    if Sound(s) {
      StepRefines(s, op);
    }
  }

  /** After `dst = src`, dst shows what src showed, except when a reference that shows a buffer is
      assigned to itself: it is unref'd before it is ref'd, and ends up blank. */
  lemma AssignWorksIffNotSelf(s: Store, dst: Handle, src: Handle)
    requires Sound(s) && Allowed(s.pointers, Assign(dst, src))
    ensures var n := Step(s, Assign(dst, src));
            ViewOf(n.pointers, n.frames, dst) == ViewOf(s.pointers, s.frames, src)
            <==> dst != src || s.frames[s.pointers[src].value] == None
  {
    var n := Step(s, Assign(dst, src));
    StepRefines(s, Assign(dst, src));
    assert Views(n.pointers, n.frames)[dst] == ViewOf(n.pointers, n.frames, dst);
    assert Views(s.pointers, s.frames)[src] == ViewOf(s.pointers, s.frames, src);
  }

  // ------------------------------------------------------------------ runs

  function Empty(): Store {
    Store(map[], map[], map[], [], 0, 0)
  }

  /** The store after a sequence of operations, or None if one of them was not allowed. */
  ghost function Run(s: Store, ops: seq<Op>): Option<Store>
    decreases |ops|
  {
    if ops == [] then Some(s)
    else if !Allowed(s.pointers, ops[0]) then None
    else Run(Step(s, ops[0]), ops[1..])
  }

  lemma {:induction false} RunSoundFrom(s: Store, ops: seq<Op>)
    requires Sound(s) && Run(s, ops).Some?
    ensures Sound(Run(s, ops).value)
    decreases |ops|
  {
    if ops == [] {
    } else {
      StepRefines(s, ops[0]);
      RunSoundFrom(Step(s, ops[0]), ops[1..]);
    }
  }

  /** In every run: each buffer's count is the number of live frames viewing it, each live frame
      has exactly one owning wrapper, and no buffer is released twice or while it is viewed. */
  lemma RunSound(ops: seq<Op>)
    requires Run(Empty(), ops).Some?
    ensures Sound(Run(Empty(), ops).value)
  {
    RunSoundFrom(Empty(), ops);
  }

  /** What the wrappers show after a sequence of operations, by the reference model alone: the
      n-th decode yields buffer n. */
  ghost function Shown(views: map<Handle, View>, nextBuffer: Buffer, ops: seq<Op>): map<Handle, View>
    decreases |ops|
  {
    if ops == [] then views
    else Shown(Expected(views, nextBuffer, ops[0]), nextBuffer + (if ops[0].Decode? then 1 else 0), ops[1..])
  }

  lemma StepNumbersBuffers(s: Store, op: Op)
    requires Allowed(s.pointers, op)
    ensures Step(s, op).nextBuffer == s.nextBuffer + if op.Decode? then 1 else 0
  {
  }

  lemma {:induction false} RunRefinesFrom(s: Store, ops: seq<Op>)
    requires Sound(s) && Run(s, ops).Some?
    ensures var n := Run(s, ops).value;
            Views(n.pointers, n.frames) == Shown(Views(s.pointers, s.frames), s.nextBuffer, ops)
    decreases |ops|
  {
    if ops == [] {
    } else {
      StepRefines(s, ops[0]);
      StepNumbersBuffers(s, ops[0]);
      ShowOneMore(s, Step(s, ops[0]), ops);
      RunRefinesFrom(Step(s, ops[0]), ops[1..]);
    }
  }

  lemma ShowOneMore(s: Store, n: Store, ops: seq<Op>)
    requires ops != [] && n.nextBuffer == s.nextBuffer + if ops[0].Decode? then 1 else 0
    requires Views(n.pointers, n.frames) == Expected(Views(s.pointers, s.frames), s.nextBuffer, ops[0])
    ensures Shown(Views(s.pointers, s.frames), s.nextBuffer, ops)
         == Shown(Views(n.pointers, n.frames), n.nextBuffer, ops[1..])
  {
  }

  /** After every run the wrappers show exactly what the reference model computes from the
      operations, frames and counts forgotten. */
  lemma RunRefines(ops: seq<Op>)
    requires Run(Empty(), ops).Some?
    ensures var s := Run(Empty(), ops).value; Views(s.pointers, s.frames) == Shown(map[], 0, ops)
  {
    RunRefinesFrom(Empty(), ops);
    assert Views(map[], map[]) == map[];
  }

  ghost function Watchers(s: Store, b: Buffer): set<Handle> {
    set h | h in s.pointers && ViewOf(s.pointers, s.frames, h) == Of(b)
  }

  lemma {:induction false} SameSize(hs: set<Handle>, fs: set<Frame>, p: Pointers)
    requires forall h :: h in hs ==> Points(p, h) && p[h].value in fs
    requires forall h, k :: h in hs && k in hs && Points(p, h) && Points(p, k) && p[h] == p[k] ==> h == k
    requires forall f :: f in fs ==> exists h :: h in hs && h in p && p[h] == Some(f)
    ensures |hs| == |fs|
    decreases |hs|
  {
    if hs == {} {
      assert fs == {};
    } else {
      var h :| h in hs;
      var f := p[h].value;
      forall g | g in fs - {f}
        ensures exists k :: k in hs - {h} && k in p && p[k] == Some(g)
      {
        var k :| k in hs && k in p && p[k] == Some(g);
        assert k in hs - {h};
      }
      SameSize(hs - {h}, fs - {f}, p);
    }
  }

  /** A live buffer's count is the number of wrappers that show it. */
  lemma CountIsWatchers(s: Store, b: Buffer)
    requires Sound(s) && b in s.counts
    ensures s.counts[b] == |Watchers(s, b)|
  {
    var hs, fs := Watchers(s, b), Viewers(s.frames, b);
    forall f | f in fs
      ensures exists h :: h in hs && h in s.pointers && s.pointers[h] == Some(f)
    {
      assert Owned(s.pointers, f);
      var h :| h in s.pointers && s.pointers[h] == Some(f);
      assert h in hs;
    }
    SameSize(hs, fs, s.pointers);
  }

  /** At every moment of every run, a buffer ever decoded into has been released, once, exactly if
      no wrapper shows it: it goes when its last viewer does, and not before. */
  lemma ReleasedIffUnwatched(ops: seq<Op>, b: Buffer)
    requires Run(Empty(), ops).Some? && b < Run(Empty(), ops).value.nextBuffer
    ensures var s := Run(Empty(), ops).value;
            && (b in s.released <==> Watchers(s, b) == {})
            && (b in s.counts <==> Watchers(s, b) != {})
            && multiset(s.released)[b] == if Watchers(s, b) == {} then 1 else 0
  {
    RunSound(ops);
    var s := Run(Empty(), ops).value;
    if b in s.counts {
      CountIsWatchers(s, b);
    } else {
      forall h | h in s.pointers
        ensures ViewOf(s.pointers, s.frames, h) != Of(b)
      {
      }
      assert Watchers(s, b) == {};
    }
    OccursOnce(s.released, b);
  }

  lemma {:induction false} OccursOnce(bs: seq<Buffer>, b: Buffer)
    requires forall i, j :: 0 <= i < j < |bs| ==> bs[i] != bs[j]
    ensures multiset(bs)[b] == if b in bs then 1 else 0
    decreases |bs|
  {
    if bs == [] {
    } else {
      assert bs == [bs[0]] + bs[1..];
      assert bs[0] !in bs[1..];
      OccursOnce(bs[1..], b);
    }
  }

  /** No leaks: when every wrapper has been destroyed, no frame is left and every buffer ever
      decoded into has been given back, once. */
  lemma NothingLeaks(ops: seq<Op>)
    requires Run(Empty(), ops).Some? && Run(Empty(), ops).value.pointers == map[]
    ensures var s := Run(Empty(), ops).value;
            && s.frames == map[] && s.counts == map[]
            && forall b: Buffer :: b < s.nextBuffer ==> multiset(s.released)[b] == 1
  {
    RunSound(ops);
    var s := Run(Empty(), ops).value;
    assert forall f :: f in s.frames ==> Owned(s.pointers, f);
    assert forall f :: !Owned(s.pointers, f);
    assert s.frames == map[];
    assert forall b :: Viewers(s.frames, b) == {};
    assert s.counts == map[];
    forall b: Buffer | b < s.nextBuffer
      ensures multiset(s.released)[b] == 1
    {
      ReleasedIffUnwatched(ops, b);
    }
  }

  // ------------------------------------------------------------------ the objects

  /** The wrappers and the FFmpeg objects behind them, updated in place by the source's member
      functions.  Each is the sequence of FFmpeg calls the source makes. */
  class FrameStore {
    var pointers: Pointers
    var frames: Frames
    var counts: map<Buffer, nat>
    var released: seq<Buffer>
    var nextFrame: Frame
    var nextBuffer: Buffer

    function AsStore(): Store
      reads this
    {
      Store(pointers, frames, counts, released, nextFrame, nextBuffer)
    }

    constructor ()
      ensures AsStore() == Empty() && Sound(AsStore())
    {
      pointers, frames, counts, released, nextFrame, nextBuffer := map[], map[], map[], [], 0, 0;
    }

    method AvFrameAlloc() returns (f: Frame)
      modifies this`frames, this`nextFrame
      ensures f == old(nextFrame) && AsStore() == Alloc(old(AsStore()))
    {
      f := nextFrame;
      frames := frames[f := None];
      nextFrame := nextFrame + 1;
    }

    method AvFrameUnref(f: Frame)
      modifies this`frames, this`counts, this`released
      ensures AsStore() == Unref(old(AsStore()), f)
    {
      if f in frames && frames[f] != None {
        var b := frames[f].value;
        if b in counts {
          if counts[b] <= 1 {
            counts := counts - {b};
            released := released + [b];
          } else {
            counts := counts[b := counts[b] - 1];
          }
        }
        frames := frames[f := None];
      }
    }

    method AvFrameRef(dst: Frame, src: Frame)
      modifies this`frames, this`counts
      ensures AsStore() == Ref(old(AsStore()), dst, src)
    {
      if src in frames && frames[src] != None && frames[src].value in counts {
        var b := frames[src].value;
        frames := frames[dst := Some(b)];
        counts := counts[b := counts[b] + 1];
      }
    }

    method AvFrameFree(f: Frame)
      modifies this`frames, this`counts, this`released
      ensures AsStore() == Free(old(AsStore()), f)
    {
      AvFrameUnref(f);
      frames := frames - {f};
    }

    /** MMAVFrame(), and MMAVFrameRef() before the rest of a construction. */
    method Default(h: Handle)
      requires Allowed(pointers, Op.Create(h))
      modifies this
      ensures AsStore() == Construct(old(AsStore()), h)
      ensures pointers == old(pointers)[h := Some(old(nextFrame))] && frames == old(frames)[old(nextFrame) := None]
      ensures Refined(old(AsStore()), AsStore(), Op.Create(h))
    {
      StepRefined(AsStore(), Op.Create(h));
      var f := AvFrameAlloc();
      pointers := pointers[h := Some(f)];
    }

    /** getRef: `dst` is the reference returned. */
    method GetRef(src: Handle, dst: Handle)
      requires Allowed(pointers, Op.GetRef(src, dst))
      modifies this
      ensures AsStore() == Step(old(AsStore()), Op.GetRef(src, dst))
      ensures Refined(old(AsStore()), AsStore(), Op.GetRef(src, dst))
    {
      StepRefined(AsStore(), Op.GetRef(src, dst));
      Default(dst);
      if pointers[src] == None {
        return;
      }
      AvFrameRef(pointers[dst].value, pointers[src].value);
    }

    /** MMAVFrameRef(MMAVFrameRef&). */
    method CopyRef(src: Handle, dst: Handle)
      requires Allowed(pointers, Op.CopyRef(src, dst))
      modifies this
      ensures AsStore() == Step(old(AsStore()), Op.CopyRef(src, dst))
      ensures Refined(old(AsStore()), AsStore(), Op.CopyRef(src, dst))
    {
      StepRefined(AsStore(), Op.CopyRef(src, dst));
      Default(dst);
      AvFrameRef(pointers[dst].value, pointers[src].value);
    }

    /** The move constructors. */
    method MoveFrom(src: Handle, dst: Handle)
      requires Allowed(pointers, Op.Move(src, dst))
      modifies this
      ensures AsStore() == Step(old(AsStore()), Op.Move(src, dst))
      ensures Refined(old(AsStore()), AsStore(), Op.Move(src, dst))
      ensures pointers[dst] == old(pointers)[src] && pointers[src] == None
      ensures frames == old(frames) && counts == old(counts) && released == old(released)
    {
      StepRefined(AsStore(), Op.Move(src, dst));
      pointers := pointers[dst := pointers[src]];
      pointers := pointers[src := None];
    }

    /** MMAVFrameRef::operator=(MMAVFrameRef&). */
    method AssignRef(dst: Handle, src: Handle)
      requires Allowed(pointers, Op.Assign(dst, src))
      modifies this
      ensures AsStore() == Step(old(AsStore()), Op.Assign(dst, src))
      ensures Refined(old(AsStore()), AsStore(), Op.Assign(dst, src))
      ensures old(pointers)[dst].Some? ==> pointers == old(pointers)
    {
      StepRefined(AsStore(), Op.Assign(dst, src));
      if pointers[dst] == None {
        var f := AvFrameAlloc();
        pointers := pointers[dst := Some(f)];
      } else {
        AvFrameUnref(pointers[dst].value);
      }
      AvFrameRef(pointers[dst].value, pointers[src].value);
    }

    /** The destructors. */
    method Destroy(h: Handle)
      requires Allowed(pointers, Op.Destroy(h))
      modifies this
      ensures AsStore() == Step(old(AsStore()), Op.Destroy(h))
      ensures Refined(old(AsStore()), AsStore(), Op.Destroy(h))
    {
      StepRefined(AsStore(), Op.Destroy(h));
      if pointers[h] != None {
        AvFrameFree(pointers[h].value);
        pointers := pointers[h := None];
      }
      pointers := pointers - {h};
      assert pointers == old(pointers) - {h};
    }

    /** MMAVDecoder::recvFrame, when a frame comes out. */
    method RecvFrame(h: Handle)
      requires Allowed(pointers, Op.Decode(h))
      modifies this
      ensures AsStore() == Step(old(AsStore()), Op.Decode(h))
      ensures Refined(old(AsStore()), AsStore(), Op.Decode(h))
      ensures pointers == old(pointers)
    {
      StepRefined(AsStore(), Op.Decode(h));
      var f := pointers[h].value;
      AvFrameUnref(f);
      frames := frames[f := Some(nextBuffer)];
      counts := counts[nextBuffer := 1];
      nextBuffer := nextBuffer + 1;
    }
  }
}
