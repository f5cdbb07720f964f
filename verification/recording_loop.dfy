/**
 One tick of the recording loop: every queued frame is handed to the state
 machine once, in queue order, and the queue is then emptied.
 */
module RecordingLoop {
  import opened Frames
  import opened FrameStore
  import opened Recorder

  /** A frame handler: the recorder, the frame and the clock reading in, a step out. */
  type Handler = (Recorder, Frame, int) -> StepResult

  /** The state machine of a recorder configured by `c`, as a handler. */
  function Handle(c: Config): Handler
  {
    (rec: Recorder, f: Frame, now: int) => Step(c, rec, f, now)
  }

  /**
   Left fold of a handler over the queue: `clock[i]` is the instant at which
   `queue[i]` is handled; the traces are concatenated in queue order.
   */
  function Fold(step: Handler, r: Recorder, queue: seq<Frame>, clock: seq<int>): Transition
    requires |clock| == |queue|
    decreases |queue|
  {
    if queue == [] then Transition(r, [])
    else
      var n := |queue| - 1;
      var before := Fold(step, r, queue[..n], clock[..n]);
      var s := step(before.rec, queue[n], clock[n]);
      Transition(s.rec, before.trace + s.trace)
  }

  /** The recorder after draining `queue` through its state machine. */
  function Drain(c: Config, r: Recorder, queue: seq<Frame>, clock: seq<int>): Transition
    requires |clock| == |queue|
  {
    Fold(Handle(c), r, queue, clock)
  }

  /** Folding one more frame extends the fold by one handled frame. */
  lemma FoldExtend(step: Handler, r: Recorder, queue: seq<Frame>, clock: seq<int>, i: nat)
    requires |clock| == |queue| && i < |queue|
    ensures var before := Fold(step, r, queue[..i], clock[..i]);
      var s := step(before.rec, queue[i], clock[i]);
      Fold(step, r, queue[..i + 1], clock[..i + 1]) == Transition(s.rec, before.trace + s.trace)
  {
    assert queue[..i + 1][..i] == queue[..i] && clock[..i + 1][..i] == clock[..i];
  }

  /**
   The drain of the run loop: hands the queued frames to the state machine
   front to back (the acceptance verdict of each is discarded, as the loop
   discards it) and returns the emptied queue.
   */
  method RunTick(c: Config, r: Recorder, queue: seq<Frame>, clock: seq<int>)
    returns (rec: Recorder, trace: seq<Action>, remaining: seq<Frame>)
    requires |clock| == |queue|
    ensures remaining == []
    ensures Transition(rec, trace) == Drain(c, r, queue, clock)
  {
    rec, trace := r, [];
    var i := 0;
    while i < |queue|
      invariant 0 <= i <= |queue|
      invariant Transition(rec, trace) == Fold(Handle(c), r, queue[..i], clock[..i])
    {
      var s := Step(c, rec, queue[i], clock[i]);
      FoldExtend(Handle(c), r, queue, clock, i);
      rec, trace := s.rec, trace + s.trace;
      i := i + 1;
    }
    assert queue[..i] == queue && clock[..i] == clock;
    remaining := [];
  }

  /**
   Splitting the queue between two ticks changes nothing: folding `a` then
   `b` is folding `a + b`.
   */
  lemma {:induction false} FoldSplit(step: Handler, r: Recorder, a: seq<Frame>, ca: seq<int>,
                                     b: seq<Frame>, cb: seq<int>)
    requires |ca| == |a| && |cb| == |b|
    ensures var first := Fold(step, r, a, ca);
      var second := Fold(step, first.rec, b, cb);
      Fold(step, r, a + b, ca + cb) == Transition(second.rec, first.trace + second.trace)
    decreases |b|
  {
    var first := Fold(step, r, a, ca);
    if b == [] {
      assert a + b == a && ca + cb == ca;
    } else {
      var n := |b| - 1;
      var q, cq := a + b, ca + cb;
      assert q[..|q| - 1] == a + b[..n] && cq[..|q| - 1] == ca + cb[..n];
      assert q[|q| - 1] == b[n] && cq[|q| - 1] == cb[n];
      FoldSplit(step, r, a, ca, b[..n], cb[..n]);
      var mid := Fold(step, first.rec, b[..n], cb[..n]);
      var s := step(mid.rec, b[n], cb[n]);
      assert (first.trace + mid.trace) + s.trace == first.trace + (mid.trace + s.trace);
    }
  }

  lemma DrainSplit(c: Config, r: Recorder, a: seq<Frame>, ca: seq<int>, b: seq<Frame>, cb: seq<int>)
    requires |ca| == |a| && |cb| == |b|
    ensures var first := Drain(c, r, a, ca);
      var second := Drain(c, first.rec, b, cb);
      Drain(c, r, a + b, ca + cb) == Transition(second.rec, first.trace + second.trace)
  {
    FoldSplit(Handle(c), r, a, ca, b, cb);
  }

  /** The store after one handled frame is a suffix of the old one plus the frame if accepted. */
  ghost predicate StoreSuffixStep(step: Handler, rec: Recorder, f: Frame, now: int)
  {
    IsSuffix(step(rec, f, now).rec.store, rec.store + ClassifiedOnly([f]))
  }

  ghost predicate KeepsStoreSuffix(step: Handler)
  {
    forall rec, f, now :: StoreSuffixStep(step, rec, f, now)
  }

  lemma {:induction false} FoldStore(step: Handler, r: Recorder, queue: seq<Frame>, clock: seq<int>)
    requires |clock| == |queue|
    requires KeepsStoreSuffix(step)
    ensures IsSuffix(Fold(step, r, queue, clock).rec.store, r.store + ClassifiedOnly(queue))
    decreases |queue|
  {
    if queue == [] {
      assert r.store + ClassifiedOnly(queue) == r.store;
    } else {
      var n := |queue| - 1;
      var before := Fold(step, r, queue[..n], clock[..n]);
      var s := step(before.rec, queue[n], clock[n]);
      assert Fold(step, r, queue, clock).rec == s.rec;
      FoldStore(step, r, queue[..n], clock[..n]);
      assert StoreSuffixStep(step, before.rec, queue[n], clock[n]);
      var cq, cx := ClassifiedOnly(queue[..n]), ClassifiedOnly([queue[n]]);
      SuffixChain(s.rec.store, before.rec.store, r.store, cq, cx);
      assert queue == queue[..n] + [queue[n]];
      ClassifiedOnlyAppend(queue[..n], [queue[n]]);
      assert r.store + cq + cx == r.store + ClassifiedOnly(queue);
    }
  }

  /**
   After a drain the store holds a suffix of the old store followed by the
   accepted queued frames: frames leave it only from the head, in order, and
   an evicted frame never comes back.
   */
  lemma DrainStore(c: Config, r: Recorder, queue: seq<Frame>, clock: seq<int>)
    requires |clock| == |queue|
    ensures IsSuffix(Drain(c, r, queue, clock).rec.store, r.store + ClassifiedOnly(queue))
  {
    forall rec, f, now ensures StoreSuffixStep(Handle(c), rec, f, now) {
      StepStore(c, rec, f, now);
    }
    FoldStore(Handle(c), r, queue, clock);
  }

  /** A suffix of a sequence of classifiable frames holds only classifiable frames. */
  lemma SuffixClassified(a: seq<Frame>, b: seq<Frame>)
    requires IsSuffix(a, b) && AllClassified(b)
    ensures AllClassified(a)
  {
    forall i | 0 <= i < |a| ensures a[i].kind.Classified? {
      assert a[i] == b[|b| - |a| + i];
    }
  }

  /** A drain from a recorder that stores only accepted frames leaves one that still does. */
  lemma DrainKeepsValid(c: Config, r: Recorder, queue: seq<Frame>, clock: seq<int>)
    requires |clock| == |queue|
    requires Valid(r)
    ensures Valid(Drain(c, r, queue, clock).rec)
  {
    var q := ClassifiedOnly(queue);
    DrainStore(c, r, queue, clock);
    ClassifiedOnlySound(queue);
    assert AllClassified(r.store + q) by {
      forall i | 0 <= i < |r.store + q| ensures (r.store + q)[i].kind.Classified? {
        if i >= |r.store| {
          assert (r.store + q)[i] == q[i - |r.store|];
        }
      }
    }
    SuffixClassified(Drain(c, r, queue, clock).rec.store, r.store + q);
  }
}
