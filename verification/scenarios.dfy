/**
 A worked event: alarm frames at 0, 1 and 2 seconds, quiet frames from 3
 seconds on, a 4-second tail and a 1-second minimum duration.
 */
module Scenarios {
  import opened Frames
  import opened Naming
  import opened Recorder

  const Cfg: Config := Config("/events", "cam", "mp4", 1, 5, 4)

  /** The frame captured `k` seconds in, handled at its capture instant. */
  function At(k: nat, alarmed: bool): Frame
  {
    Frame(k, k * MicrosPerSecond, Classified(alarmed))
  }

  lemma FirstEventPath()
    ensures EventPath(Cfg, 1) == "/events/cam-1.mp4"
  {
    assert Decimal(1) == "1";
  }

  /**
   The first alarm frame opens event 1 and its file; two more alarm frames
   keep it in ALARM and move the last alarm sighting to 2 seconds.
   */
  lemma AlarmOpensFirstEvent()
    ensures var s0 := Step(Cfg, Initial, At(0, true), 0);
      var s1 := Step(Cfg, s0.rec, At(1, true), 1 * MicrosPerSecond);
      var s2 := Step(Cfg, s1.rec, At(2, true), 2 * MicrosPerSecond);
      && s0.trace[..2] == [Begin(1, 0), OpenFile("/events/cam-1.mp4")]
      && s2.rec.state == Alarm && s2.rec.eventCount == 1
      && s2.rec.alarmTime == 0 && s2.rec.lastAlarmTime == 2 * MicrosPerSecond
  {
    var s0 := Step(Cfg, Initial, At(0, true), 0);
    StepAlarmed(Cfg, Initial, At(0, true), 0);
    FirstEventPath();
    StepKeepsValid(Cfg, Initial, At(0, true), 0);
    var s1 := Step(Cfg, s0.rec, At(1, true), 1 * MicrosPerSecond);
    StepAlarmed(Cfg, s0.rec, At(1, true), 1 * MicrosPerSecond);
    StepKeepsValid(Cfg, s0.rec, At(1, true), 1 * MicrosPerSecond);
    StepAlarmed(Cfg, s1.rec, At(2, true), 2 * MicrosPerSecond);
  }

  /**
   From there, quiet frames move the event to ALERT; it is still open on the
   frame exactly 4 seconds after the last alarm, closes on the next one, and
   reports the 2 seconds between first and last alarm.
   */
  lemma QuietClosesFirstEvent(r: Recorder)
    requires r.state == Alarm && r.eventCount == 1
    requires r.alarmTime == 0 && r.lastAlarmTime == 2 * MicrosPerSecond
    ensures var s3 := Step(Cfg, r, At(3, false), 3 * MicrosPerSecond);
      var s6 := Step(Cfg, s3.rec, At(6, false), 6 * MicrosPerSecond);
      var s7 := Step(Cfg, s6.rec, At(7, false), 7 * MicrosPerSecond);
      && s3.rec.state == Alert
      && s6.rec.state == Alert && s6.trace == [Encode(6)]
      && s7.rec.state == Idle && s7.trace == [CloseFile, End(1, 7, 2 * MicrosPerSecond)]
  {
    var s3 := Step(Cfg, r, At(3, false), 3 * MicrosPerSecond);
    StepUnalarmed(Cfg, r, At(3, false), 3 * MicrosPerSecond);
    var s6 := Step(Cfg, s3.rec, At(6, false), 6 * MicrosPerSecond);
    StepUnalarmed(Cfg, s3.rec, At(6, false), 6 * MicrosPerSecond);
    StepUnalarmed(Cfg, s6.rec, At(7, false), 7 * MicrosPerSecond);
  }
}
