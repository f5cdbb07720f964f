/**
 The event state machine of the video recorder. `Step` is the handling of
 one incoming frame: it classifies the frame, moves between IDLE, ALARM and
 ALERT, and produces the trace of actions the recorder performs on its
 collaborators (notifications, the output file, the encoder), then updates
 the pre-roll store.
 */
module Recorder {
  import opened Frames
  import opened Naming
  import opened FrameStore

  /**
   Recorder configuration: output location, recorder name and container
   format (which name the event files), the minimum event duration, and the
   head and tail ages bounding pre-roll and post-roll; all three times are
   whole seconds.
   */
  datatype Config = Config(
    location: string,
    name: string,
    format: string,
    minTime: nat,
    maxHeadAge: nat,
    maxTailAge: nat)

  datatype AlarmState = Idle | Alarm | Alert

  /**
   Per-instance recorder state. `alarmTime` is the onset of the current (or
   last) event and `lastAlarmTime` the most recent alarm sighting, both in
   microseconds.
   */
  datatype Recorder = Recorder(
    state: AlarmState,
    eventCount: nat,
    alarmTime: int,
    lastAlarmTime: int,
    store: seq<Frame>)

  /**
   What the recorder does on its collaborators. `Begin` and `End` are event
   notifications carrying the event number and the id of the frame that
   caused them (`End` also the event duration in microseconds); `OpenFile`
   sets up the encoder and opens the output target, `CloseFile` closes it and
   releases the encoder; `Encode` hands one frame to the encoder.
   */
  datatype Action =
    | Begin(event: nat, frameId: nat)
    | OpenFile(path: string)
    | Encode(frameId: nat)
    | CloseFile
    | End(event: nat, frameId: nat, duration: int)

  /** A recorder after one or more frames, with the actions taken on the way. */
  datatype Transition = Transition(rec: Recorder, trace: seq<Action>)

  /** Whether the frame was accepted, the state afterwards, and what was done. */
  datatype StepResult = StepResult(accepted: bool, rec: Recorder, trace: seq<Action>)

  /** A recorder before its first frame. */
  const Initial: Recorder := Recorder(Idle, 0, 0, 0, [])

  /** The recorder only ever stores frames it accepted. */
  ghost predicate Valid(r: Recorder)
  {
    AllClassified(r.store)
  }

  function EventPath(c: Config, event: nat): string
  {
    FileName(c.location, c.name, event, c.format)
  }

  /**
   Pre-roll flush: every classifiable stored frame is encoded, oldest first;
   anything else is skipped.
   */
  function Flush(store: seq<Frame>): (t: seq<Action>)
    ensures |t| <= |store|
    decreases |store|
  {
    if store == [] then []
    else (if store[0].kind.Classified? then [Encode(store[0].id)] else []) + Flush(store[1..])
  }

  /**
   The flush only encodes: one encode per classifiable stored frame, oldest
   first, skipping the others. Over a store of classifiable frames (the only
   stores `Valid` allows) that is every stored frame, with none dropped.
   */
  lemma {:induction false} FlushEncodesStore(store: seq<Frame>)
    ensures forall i :: 0 <= i < |Flush(store)| ==> Flush(store)[i].Encode?
    ensures |Flush(store)| == |ClassifiedOnly(store)|
    ensures forall i :: 0 <= i < |Flush(store)| ==> Flush(store)[i] == Encode(ClassifiedOnly(store)[i].id)
    ensures AllClassified(store) ==>
              |Flush(store)| == |store|
              && forall i :: 0 <= i < |store| ==> Flush(store)[i] == Encode(store[i].id)
    decreases |store|
  {
    if store != [] {
      var rest := store[1..];
      FlushEncodesStore(rest);
      var t := Flush(store);
      var head := if store[0].kind.Classified? then [Encode(store[0].id)] else [];
      assert t == head + Flush(rest);
      var kept := if store[0].kind.Classified? then [store[0]] else [];
      assert ClassifiedOnly(store) == kept + ClassifiedOnly(rest);
      forall i | 0 <= i < |t| ensures t[i] == Encode(ClassifiedOnly(store)[i].id) {
        if i >= |head| {
          assert t[i] == Flush(rest)[i - |head|];
          assert ClassifiedOnly(store)[i] == ClassifiedOnly(rest)[i - |head|];
        }
      }
      if AllClassified(store) {
        assert AllClassified(rest) by {
          forall i | 0 <= i < |rest| ensures rest[i].kind.Classified? {
            assert rest[i] == store[i + 1];
          }
        }
        forall i | 0 <= i < |store| ensures t[i] == Encode(store[i].id) {
          if i > 0 {
            assert t[i] == Flush(rest)[i - 1];
            assert rest[i - 1] == store[i];
          }
        }
      }
    }
  }

  /** The quiet period after the last alarm sighting has elapsed. */
  predicate TailElapsed(c: Config, r: Recorder, f: Frame)
  {
    Age(f, r.lastAlarmTime) < -(c.maxTailAge * MicrosPerSecond)
  }

  /** The event has lasted the minimum duration. */
  predicate LongEnough(c: Config, r: Recorder)
  {
    r.lastAlarmTime - r.alarmTime >= c.minTime * MicrosPerSecond
  }

  /** Reaction to the alarm flag of an accepted frame. */
  function React(c: Config, r: Recorder, f: Frame, alarmed: bool, now: int): Transition
  {
    if alarmed then
      var armed := r.(state := Alarm, lastAlarmTime := now);
      if r.state == Idle then
        var n := r.eventCount + 1;
        Transition(armed.(alarmTime := now, eventCount := n),
                   [Begin(n, f.id), OpenFile(EventPath(c, n))] + Flush(r.store))
      else
        Transition(armed, [])
    else if r.state == Alarm then
      Transition(r.(state := Alert), [])
    else
      Transition(r, [])
  }

  /** Closing of an event whose tail has elapsed and which lasted long enough. */
  function CloseIfQuiet(c: Config, r: Recorder, f: Frame): Transition
  {
    if r.state == Alert && TailElapsed(c, r, f) && LongEnough(c, r) then
      Transition(r.(state := Idle), [CloseFile, End(r.eventCount, f.id, r.lastAlarmTime - r.alarmTime)])
    else
      Transition(r, [])
  }

  /** Handling of one frame, with the clock reading `now`. */
  function Step(c: Config, r: Recorder, f: Frame, now: int): (s: StepResult)
    ensures s.accepted <==> f.kind.Classified?
    ensures !s.accepted ==> s.rec == r && s.trace == []
    ensures s.accepted ==> s.rec.store != [] && s.rec.store[|s.rec.store| - 1] == f
    ensures s.rec.eventCount == r.eventCount || s.rec.eventCount == r.eventCount + 1
  {
    match f.kind
    case Unclassified => StepResult(false, r, [])
    case Classified(alarmed) =>
      var reacted := React(c, r, f, alarmed, now);
      var closed := CloseIfQuiet(c, reacted.rec, f);
      var r2 := closed.rec;
      var encoded := if r2.state != Idle then [Encode(f.id)] else [];
      StepResult(true, r2.(store := Insert(r2.store, f, now, c.maxHeadAge)),
                 reacted.trace + closed.trace + encoded)
  }

  /** A step keeps the store free of frames the recorder does not accept. */
  lemma StepKeepsValid(c: Config, r: Recorder, f: Frame, now: int)
    requires Valid(r)
    ensures Valid(Step(c, r, f, now).rec)
  {
    var s := Step(c, r, f, now);
    if s.accepted {
      var kept := Evict(r.store, now, c.maxHeadAge);
      EvictSound(r.store, now, c.maxHeadAge);
      assert s.rec.store == kept + [f];
      forall i | 0 <= i < |kept| ensures kept[i].kind.Classified? {
        assert kept[i] == r.store[|r.store| - |kept| + i];
      }
    }
  }

  /**
   An alarmed frame always leaves the recorder in ALARM with the last alarm
   time set to `now`; coming from IDLE it opens event `eventCount + 1`:
   BEGIN, the file named after it, the pre-roll store flushed oldest first,
   then the triggering frame.
   */
  lemma StepAlarmed(c: Config, r: Recorder, f: Frame, now: int)
    requires Valid(r)
    requires f.kind == Classified(true)
    ensures var s := Step(c, r, f, now);
      && s.accepted
      && s.rec.state == Alarm
      && s.rec.lastAlarmTime == now
      && (r.state == Idle ==>
            && s.rec.eventCount == r.eventCount + 1
            && s.rec.alarmTime == now
            && |s.trace| == |r.store| + 3
            && s.trace[0] == Begin(r.eventCount + 1, f.id)
            && s.trace[1] == OpenFile(EventPath(c, r.eventCount + 1))
            && (forall i :: 0 <= i < |r.store| ==> s.trace[i + 2] == Encode(r.store[i].id))
            && s.trace[|s.trace| - 1] == Encode(f.id))
      && (r.state != Idle ==>
            && s.rec.eventCount == r.eventCount
            && s.rec.alarmTime == r.alarmTime
            && s.trace == [Encode(f.id)])
  {
    FlushEncodesStore(r.store);
  }

  /**
   An unalarmed frame moves ALARM to ALERT and keeps IDLE; an open event is
   closed exactly when the tail has elapsed since the last alarm sighting and
   the event lasted the minimum duration, reporting the duration from the
   alarm times alone. Otherwise nothing but the frame's own encoding happens.
   */
  lemma StepUnalarmed(c: Config, r: Recorder, f: Frame, now: int)
    requires f.kind == Classified(false)
    ensures var s := Step(c, r, f, now);
      var closes := r.state != Idle && TailElapsed(c, r, f) && LongEnough(c, r);
      && s.accepted
      && s.rec.eventCount == r.eventCount
      && s.rec.alarmTime == r.alarmTime
      && s.rec.lastAlarmTime == r.lastAlarmTime
      && (r.state == Idle ==> s.rec.state == Idle && s.trace == [])
      && (closes ==>
            && s.rec.state == Idle
            && s.trace == [CloseFile, End(r.eventCount, f.id, r.lastAlarmTime - r.alarmTime)])
      && (r.state != Idle && !closes ==> s.rec.state == Alert && s.trace == [Encode(f.id)])
  {
  }

  /**
   Whether an event closes, and the duration it reports, do not depend on
   the closing frame beyond the tail test, nor on the clock.
   */
  lemma CloseIgnoresClosingFrame(c: Config, r: Recorder, f: Frame, g: Frame, nowF: int, nowG: int)
    requires r.state != Idle
    requires f.kind == Classified(false) && g.kind == Classified(false)
    requires TailElapsed(c, r, f) && TailElapsed(c, r, g)
    ensures var sf, sg := Step(c, r, f, nowF), Step(c, r, g, nowG);
      && sf.rec.state == sg.rec.state
      && (sf.rec.state == Idle <==> LongEnough(c, r))
      && (sf.rec.state == Idle ==>
            sf.trace[1].duration == sg.trace[1].duration == r.lastAlarmTime - r.alarmTime)
  {
  }

  /**
   The accepted frame is encoded exactly when an event is open after the
   transition: its encoding is then the last action of the step; the frame
   that closes an event is not encoded.
   */
  lemma StepEncodesIffOpen(c: Config, r: Recorder, f: Frame, now: int)
    requires f.kind.Classified?
    ensures var s := Step(c, r, f, now);
      && (s.rec.state != Idle <==> (s.trace != [] && s.trace[|s.trace| - 1].Encode?))
      && (s.rec.state != Idle ==> s.trace[|s.trace| - 1] == Encode(f.id))
  {
  }

  /**
   The store after an accepted frame is the old store with its stale head
   dropped, followed by the frame; a rejected frame leaves it alone.
   */
  lemma StepStore(c: Config, r: Recorder, f: Frame, now: int)
    ensures var s := Step(c, r, f, now);
      var kept := Evict(r.store, now, c.maxHeadAge);
      && (s.accepted ==> s.rec.store == kept + [f] && EvictionOf(kept, r.store, now, c.maxHeadAge))
      && (!s.accepted ==> s.rec.store == r.store)
      && IsSuffix(s.rec.store, r.store + ClassifiedOnly([f]))
  {
    var s := Step(c, r, f, now);
    var kept := Evict(r.store, now, c.maxHeadAge);
    EvictSound(r.store, now, c.maxHeadAge);
    assert [f][1..] == [];
    if s.accepted {
      assert s.rec.store == kept + [f];
      assert ClassifiedOnly([f]) == [f];
      SuffixAppend(kept, r.store, [f]);
    } else {
      assert ClassifiedOnly([f]) == [];
      assert r.store + [] == r.store;
    }
  }
}
