/**
 The event lifecycle the recorder promises its collaborators, as an
 automaton over its action trace: BEGIN of the next event number, the file
 named after it opened, frames encoded only while it is open, the file
 closed, END of the same event with at least the minimum duration, and
 round again.
 */
module EventLog {
  import opened Frames
  import opened Recorder
  import opened RecordingLoop

  datatype Option<T> = None | Some(value: T)

  /**
   Where the lifecycle stands: no event open, `last` being the latest event
   number used; event begun but its file not yet open; its file open; its
   file closed and END pending.
   */
  datatype Phase = Closed(last: nat) | Opening(event: nat) | Open(event: nat) | Closing(event: nat)

  /** The phase after one action, or `None` when the action is out of order. */
  function Next(c: Config, p: Phase, a: Action): Option<Phase>
  {
    match a
    case Begin(n, _) => if p.Closed? && n == p.last + 1 then Some(Opening(n)) else None
    case OpenFile(path) => if p.Opening? && path == EventPath(c, p.event) then Some(Open(p.event)) else None
    case Encode(_) => if p.Open? then Some(p) else None
    case CloseFile => if p.Open? then Some(Closing(p.event)) else None
    case End(n, _, d) =>
      if p.Closing? && n == p.event && d >= c.minTime * MicrosPerSecond then Some(Closed(n)) else None
  }

  /** The phase after a whole trace, or `None` when some action is out of order. */
  function Replay(c: Config, p: Phase, t: seq<Action>): Option<Phase>
    decreases |t|
  {
    if t == [] then Some(p)
    else match Next(c, p, t[0])
      case None => None
      case Some(q) => Replay(c, q, t[1..])
  }

  /** The lifecycle phase a recorder is in between frames. */
  function PhaseOf(r: Recorder): Phase
  {
    if r.state == Idle then Closed(r.eventCount) else Open(r.eventCount)
  }

  lemma {:induction false} ReplayAppend(c: Config, p: Phase, a: seq<Action>, b: seq<Action>)
    ensures Replay(c, p, a + b) == match Replay(c, p, a)
                                     case None => None
                                     case Some(q) => Replay(c, q, b)
    decreases |a|
  {
    if a == [] {
      assert a + b == b;
    } else {
      assert (a + b)[0] == a[0];
      assert (a + b)[1..] == a[1..] + b;
      match Next(c, p, a[0])
      case None =>
      case Some(q) => ReplayAppend(c, q, a[1..], b);
    }
  }

  /** The pre-roll flush only encodes, so it keeps an open file open. */
  lemma {:induction false} FlushKeepsOpen(c: Config, n: nat, store: seq<Frame>)
    ensures Replay(c, Open(n), Flush(store)) == Some(Open(n))
    decreases |store|
  {
    if store != [] {
      var head := if store[0].kind.Classified? then [Encode(store[0].id)] else [];
      assert Flush(store) == head + Flush(store[1..]);
      ReplayAppend(c, Open(n), head, Flush(store[1..]));
      FlushKeepsOpen(c, n, store[1..]);
    }
  }

  /** Reacting to the alarm flag follows the lifecycle. */
  lemma ReactFollowsLifecycle(c: Config, r: Recorder, f: Frame, alarmed: bool, now: int)
    ensures var t := React(c, r, f, alarmed, now);
      Replay(c, PhaseOf(r), t.trace) == Some(PhaseOf(t.rec))
  {
    if alarmed && r.state == Idle {
      var n := r.eventCount + 1;
      var opening := [Begin(n, f.id), OpenFile(EventPath(c, n))];
      assert React(c, r, f, alarmed, now).trace == opening + Flush(r.store);
      ReplayAppend(c, PhaseOf(r), opening, Flush(r.store));
      assert opening[1..] == [OpenFile(EventPath(c, n))] && opening[1..][1..] == [];
      assert Next(c, PhaseOf(r), opening[0]) == Some(Opening(n));
      assert Next(c, Opening(n), opening[1]) == Some(Open(n));
      assert Replay(c, Opening(n), opening[1..]) == Some(Open(n));
      assert Replay(c, PhaseOf(r), opening) == Some(Open(n));
      FlushKeepsOpen(c, n, r.store);
    }
  }

  /** Closing a quiet event follows the lifecycle. */
  lemma CloseFollowsLifecycle(c: Config, r: Recorder, f: Frame)
    ensures var t := CloseIfQuiet(c, r, f);
      Replay(c, PhaseOf(r), t.trace) == Some(PhaseOf(t.rec))
  {
    var t := CloseIfQuiet(c, r, f).trace;
    if t != [] {
      var n := r.eventCount;
      assert t[1..] == [t[1]] && t[1..][1..] == [];
      assert Next(c, PhaseOf(r), t[0]) == Some(Closing(n));
      assert Next(c, Closing(n), t[1]) == Some(Closed(n));
      assert Replay(c, Closing(n), t[1..]) == Some(Closed(n));
    }
  }

  /**
   Every step follows the lifecycle: its trace leads from the phase of the
   recorder before it to the phase of the recorder after it.
   */
  lemma StepFollowsLifecycle(c: Config, r: Recorder, f: Frame, now: int)
    ensures var s := Step(c, r, f, now);
      Replay(c, PhaseOf(r), s.trace) == Some(PhaseOf(s.rec))
  {
    var s := Step(c, r, f, now);
    match f.kind
    case Unclassified =>
    case Classified(alarmed) =>
      var reacted := React(c, r, f, alarmed, now);
      var closed := CloseIfQuiet(c, reacted.rec, f);
      var encoded := if closed.rec.state != Idle then [Encode(f.id)] else [];
      assert s.trace == reacted.trace + (closed.trace + encoded);
      assert PhaseOf(s.rec) == PhaseOf(closed.rec);
      ReactFollowsLifecycle(c, r, f, alarmed, now);
      CloseFollowsLifecycle(c, reacted.rec, f);
      ReplayAppend(c, PhaseOf(r), reacted.trace, closed.trace + encoded);
      ReplayAppend(c, PhaseOf(reacted.rec), closed.trace, encoded);
  }

  /** One frame handled in line with the lifecycle. */
  ghost predicate FollowsOnce(c: Config, step: Handler, rec: Recorder, f: Frame, now: int)
  {
    Replay(c, PhaseOf(rec), step(rec, f, now).trace) == Some(PhaseOf(step(rec, f, now).rec))
  }

  ghost predicate FollowsLifecycle(c: Config, step: Handler)
  {
    forall rec, f, now :: FollowsOnce(c, step, rec, f, now)
  }

  lemma {:induction false} FoldFollowsLifecycle(c: Config, step: Handler, r: Recorder,
                                                queue: seq<Frame>, clock: seq<int>)
    requires |clock| == |queue|
    requires FollowsLifecycle(c, step)
    ensures var o := Fold(step, r, queue, clock);
      Replay(c, PhaseOf(r), o.trace) == Some(PhaseOf(o.rec))
    decreases |queue|
  {
    if queue != [] {
      var n := |queue| - 1;
      var before := Fold(step, r, queue[..n], clock[..n]);
      FoldFollowsLifecycle(c, step, r, queue[..n], clock[..n]);
      assert FollowsOnce(c, step, before.rec, queue[n], clock[n]);
      ReplayAppend(c, PhaseOf(r), before.trace, step(before.rec, queue[n], clock[n]).trace);
    }
  }

  /**
   A whole drain follows the lifecycle: whatever the queue, the actions on
   the collaborators come in lifecycle order.
   */
  lemma DrainFollowsLifecycle(c: Config, r: Recorder, queue: seq<Frame>, clock: seq<int>)
    requires |clock| == |queue|
    ensures var o := Drain(c, r, queue, clock);
      Replay(c, PhaseOf(r), o.trace) == Some(PhaseOf(o.rec))
  {
    forall rec, f, now ensures FollowsOnce(c, Handle(c), rec, f, now) {
      StepFollowsLifecycle(c, rec, f, now);
    }
    FoldFollowsLifecycle(c, Handle(c), r, queue, clock);
  }

  // Consequences of following the lifecycle.

  /** The latest event number a phase has used. */
  function Latest(p: Phase): nat
  {
    match p
    case Closed(last) => last
    case Opening(n) => n
    case Open(n) => n
    case Closing(n) => n
  }

  /** The event numbers `lo + 1`, ..., `hi`, in order. */
  function NumbersAfter(lo: nat, hi: nat): (s: seq<nat>)
    requires lo <= hi
    ensures |s| == hi - lo
    ensures forall i :: 0 <= i < |s| ==> s[i] == lo + 1 + i
    decreases hi - lo
  {
    if lo == hi then [] else [lo + 1] + NumbersAfter(lo + 1, hi)
  }

  /** The event numbers of the BEGIN notifications of a trace, in order. */
  function BeginNumbers(t: seq<Action>): seq<nat>
    decreases |t|
  {
    if t == [] then []
    else (if t[0].Begin? then [t[0].event] else []) + BeginNumbers(t[1..])
  }

  /**
   Along a trace that follows the lifecycle, BEGIN notifications carry the
   consecutive event numbers after the latest one used.
   */
  lemma {:induction false} ReplayNumbersEvents(c: Config, p: Phase, t: seq<Action>, q: Phase)
    requires Replay(c, p, t) == Some(q)
    ensures Latest(p) <= Latest(q)
    ensures BeginNumbers(t) == NumbersAfter(Latest(p), Latest(q))
    decreases |t|
  {
    if t != [] {
      var p' := Next(c, p, t[0]).value;
      ReplayNumbersEvents(c, p', t[1..], q);
      if t[0].Begin? {
        assert Latest(p') == Latest(p) + 1;
      } else {
        assert Latest(p') == Latest(p);
      }
    }
  }

  /**
   Events are numbered 1, 2, 3, ...: the BEGIN notifications of a drain
   carry, in order, the numbers following the recorder's event count.
   */
  lemma DrainNumbersEvents(c: Config, r: Recorder, queue: seq<Frame>, clock: seq<int>)
    requires |clock| == |queue|
    ensures var o := Drain(c, r, queue, clock);
      r.eventCount <= o.rec.eventCount
      && BeginNumbers(o.trace) == NumbersAfter(r.eventCount, o.rec.eventCount)
  {
    DrainFollowsLifecycle(c, r, queue, clock);
    var o := Drain(c, r, queue, clock);
    ReplayNumbersEvents(c, PhaseOf(r), o.trace, PhaseOf(o.rec));
  }

  /** Whether a phase has the output file open. */
  function FileOpen(p: Phase): nat
  {
    if p.Open? then 1 else 0
  }

  function Opens(t: seq<Action>): nat
    decreases |t|
  {
    if t == [] then 0 else (if t[0].OpenFile? then 1 else 0) + Opens(t[1..])
  }

  function Closes(t: seq<Action>): nat
    decreases |t|
  {
    if t == [] then 0 else (if t[0].CloseFile? then 1 else 0) + Closes(t[1..])
  }

  /**
   Along a trace that follows the lifecycle, the files opened and closed
   account exactly for the change in whether a file is open.
   */
  lemma {:induction false} ReplayBalancesFiles(c: Config, p: Phase, t: seq<Action>, q: Phase)
    requires Replay(c, p, t) == Some(q)
    ensures FileOpen(p) + Opens(t) == FileOpen(q) + Closes(t)
    decreases |t|
  {
    if t != [] {
      var p' := Next(c, p, t[0]).value;
      assert Replay(c, p', t[1..]) == Some(q);
      ReplayBalancesFiles(c, p', t[1..], q);
      assert Opens(t) == (if t[0].OpenFile? then 1 else 0) + Opens(t[1..]);
      assert Closes(t) == (if t[0].CloseFile? then 1 else 0) + Closes(t[1..]);
      assert FileOpen(p) + (if t[0].OpenFile? then 1 else 0) == FileOpen(p') + (if t[0].CloseFile? then 1 else 0);
    }
  }

  /** Every prefix of a trace that follows the lifecycle follows it too. */
  lemma ReplayPrefix(c: Config, p: Phase, t: seq<Action>, k: nat)
    requires k <= |t|
    requires Replay(c, p, t).Some?
    ensures Replay(c, p, t[..k]).Some?
  {
    assert t == t[..k] + t[k..];
    ReplayAppend(c, p, t[..k], t[k..]);
  }

  /**
   At most one file is open at any time: at every point of a drain's trace
   the files opened minus the files closed, counting the one open before the
   drain, is zero or one.
   */
  lemma DrainOpensOneFileAtATime(c: Config, r: Recorder, queue: seq<Frame>, clock: seq<int>, k: nat)
    requires |clock| == |queue|
    requires k <= |Drain(c, r, queue, clock).trace|
    ensures var t := Drain(c, r, queue, clock).trace[..k];
      var open := FileOpen(PhaseOf(r)) + Opens(t) - Closes(t);
      open == 0 || open == 1
  {
    var t := Drain(c, r, queue, clock).trace;
    DrainFollowsLifecycle(c, r, queue, clock);
    ReplayPrefix(c, PhaseOf(r), t, k);
    ReplayBalancesFiles(c, PhaseOf(r), t[..k], Replay(c, PhaseOf(r), t[..k]).value);
  }

  /** Every ENCODE of a drain's trace goes to an open file. */
  lemma DrainEncodesOnlyIntoOpenFile(c: Config, r: Recorder, queue: seq<Frame>, clock: seq<int>, k: nat)
    requires |clock| == |queue|
    requires k < |Drain(c, r, queue, clock).trace|
    requires Drain(c, r, queue, clock).trace[k].Encode?
    ensures var before := Replay(c, PhaseOf(r), Drain(c, r, queue, clock).trace[..k]);
      before.Some? && before.value.Open?
  {
    var t := Drain(c, r, queue, clock).trace;
    DrainFollowsLifecycle(c, r, queue, clock);
    assert t == t[..k] + t[k..];
    ReplayAppend(c, PhaseOf(r), t[..k], t[k..]);
    assert t[k..][0] == t[k];
  }

  predicate IsBegin(a: Action) { a.Begin? }
  predicate IsOpenFile(a: Action) { a.OpenFile? }
  predicate IsCloseFile(a: Action) { a.CloseFile? }
  predicate IsEnd(a: Action) { a.End? }

  /** How many actions of a trace are of the given kind. */
  function Occurrences(t: seq<Action>, kind: Action -> bool): nat
    decreases |t|
  {
    if t == [] then 0 else (if kind(t[0]) then 1 else 0) + Occurrences(t[1..], kind)
  }

  lemma {:induction false} OccurrencesAppend(t: seq<Action>, u: seq<Action>, kind: Action -> bool)
    ensures Occurrences(t + u, kind) == Occurrences(t, kind) + Occurrences(u, kind)
    decreases |t|
  {
    if t == [] {
      assert t + u == u;
    } else {
      assert (t + u)[0] == t[0];
      assert (t + u)[1..] == t[1..] + u;
      OccurrencesAppend(t[1..], u, kind);
    }
  }

  lemma OccurrencesOfPair(a: Action, b: Action, kind: Action -> bool)
    ensures Occurrences([a, b], kind) == (if kind(a) then 1 else 0) + (if kind(b) then 1 else 0)
  {
    assert [a, b][1..] == [b];
    assert [b][1..] == [];
    assert Occurrences([b], kind) == (if kind(b) then 1 else 0) + Occurrences([], kind);
  }

  /** A trace of encodings holds no action of any other kind. */
  lemma {:induction false} EncodingsOnly(t: seq<Action>, kind: Action -> bool)
    requires forall i :: 0 <= i < |t| ==> t[i].Encode?
    requires forall id :: !kind(Encode(id))
    ensures Occurrences(t, kind) == 0
    decreases |t|
  {
    if t != [] {
      assert t[0] == Encode(t[0].frameId);
      EncodingsOnly(t[1..], kind);
    }
  }

  /** The trace of an event opening: one BEGIN, one file opened, nothing closed. */
  lemma OpeningCounts(opening: seq<Action>, rest: seq<Action>)
    requires |opening| == 2 && opening[0].Begin? && opening[1].OpenFile?
    requires forall i :: 0 <= i < |rest| ==> rest[i].Encode?
    ensures Occurrences(opening + rest, IsBegin) == 1
    ensures Occurrences(opening + rest, IsOpenFile) == 1
    ensures Occurrences(opening + rest, IsCloseFile) == 0
    ensures Occurrences(opening + rest, IsEnd) == 0
  {
    assert opening == [opening[0], opening[1]];
    EncodingsOnly(rest, IsBegin);
    EncodingsOnly(rest, IsOpenFile);
    EncodingsOnly(rest, IsCloseFile);
    EncodingsOnly(rest, IsEnd);
    OccurrencesOfPair(opening[0], opening[1], IsBegin);
    OccurrencesOfPair(opening[0], opening[1], IsOpenFile);
    OccurrencesOfPair(opening[0], opening[1], IsCloseFile);
    OccurrencesOfPair(opening[0], opening[1], IsEnd);
    OccurrencesAppend(opening, rest, IsBegin);
    OccurrencesAppend(opening, rest, IsOpenFile);
    OccurrencesAppend(opening, rest, IsCloseFile);
    OccurrencesAppend(opening, rest, IsEnd);
  }

  /** The trace of an event closing: the file closed and one END, nothing opened. */
  lemma ClosingCounts(t: seq<Action>)
    requires |t| == 2 && t[0].CloseFile? && t[1].End?
    ensures Occurrences(t, IsBegin) == 0
    ensures Occurrences(t, IsOpenFile) == 0
    ensures Occurrences(t, IsCloseFile) == 1
    ensures Occurrences(t, IsEnd) == 1
  {
    assert t == [t[0], t[1]];
    OccurrencesOfPair(t[0], t[1], IsBegin);
    OccurrencesOfPair(t[0], t[1], IsOpenFile);
    OccurrencesOfPair(t[0], t[1], IsCloseFile);
    OccurrencesOfPair(t[0], t[1], IsEnd);
  }

  /**
   A step emits BEGIN and opens a file exactly when it leaves IDLE, and
   closes the file and emits END exactly when it enters IDLE; each at most
   once.
   */
  lemma StepBracketsEvents(c: Config, r: Recorder, f: Frame, now: int)
    ensures var s := Step(c, r, f, now);
      var opens := if r.state == Idle && s.rec.state != Idle then 1 else 0;
      var closes := if r.state != Idle && s.rec.state == Idle then 1 else 0;
      && Occurrences(s.trace, IsBegin) == opens
      && Occurrences(s.trace, IsOpenFile) == opens
      && Occurrences(s.trace, IsCloseFile) == closes
      && Occurrences(s.trace, IsEnd) == closes
  {
    var s := Step(c, r, f, now);
    match f.kind
    case Unclassified =>
    case Classified(alarmed) =>
      if alarmed && r.state == Idle {
        var n := r.eventCount + 1;
        var opening := [Begin(n, f.id), OpenFile(EventPath(c, n))];
        var rest := Flush(r.store) + [Encode(f.id)];
        assert s.trace == opening + rest;
        FlushEncodesStore(r.store);
        OpeningCounts(opening, rest);
      } else if alarmed {
        assert s.trace == [Encode(f.id)];
      } else {
        StepUnalarmed(c, r, f, now);
        if |s.trace| == 2 {
          ClosingCounts(s.trace);
        } else if |s.trace| == 1 {
          assert s.trace[1..] == [];
        }
      }
  }

  /**
   The minimum-duration gate reads only the alarm times, which quiet frames
   do not move: an ALERT event that is too short stays open, with nothing
   closed and no END, however long the quiet lasts.
   */
  lemma {:induction false} QuietKeepsShortEventOpen(c: Config, r: Recorder, queue: seq<Frame>, clock: seq<int>)
    requires |clock| == |queue|
    requires r.state == Alert && !LongEnough(c, r)
    requires forall i :: 0 <= i < |queue| ==> queue[i].kind != Classified(true)
    ensures var o := Drain(c, r, queue, clock);
      && o.rec.state == Alert
      && o.rec.alarmTime == r.alarmTime && o.rec.lastAlarmTime == r.lastAlarmTime
      && Occurrences(o.trace, IsCloseFile) == 0 && Occurrences(o.trace, IsEnd) == 0
    decreases |queue|
  {
    if queue != [] {
      var n := |queue| - 1;
      var before := Fold(Handle(c), r, queue[..n], clock[..n]);
      QuietKeepsShortEventOpen(c, r, queue[..n], clock[..n]);
      var s := Step(c, before.rec, queue[n], clock[n]);
      assert Drain(c, r, queue, clock) == Transition(s.rec, before.trace + s.trace);
      if queue[n].kind.Classified? {
        StepUnalarmed(c, before.rec, queue[n], clock[n]);
        assert s.trace == [Encode(queue[n].id)] && s.trace[1..] == [];
      }
      OccurrencesAppend(before.trace, s.trace, IsCloseFile);
      OccurrencesAppend(before.trace, s.trace, IsEnd);
    }
  }
}
