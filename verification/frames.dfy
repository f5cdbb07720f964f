/**
 Frames as the recorder sees them: an identifier, a capture timestamp in
 microseconds, and whether the frame is alarm-classifiable (and if so,
 whether it carries an alarm).
 */
module Frames {

  /** Microseconds in one second; all times in this model are microseconds. */
  const MicrosPerSecond: nat := 1_000_000

  /**
   The frame kinds the recorder distinguishes: a frame that can be
   classified for alarms (an alarm frame), and any other frame.
   */
  datatype Kind = Classified(alarmed: bool) | Unclassified

  datatype Frame = Frame(id: nat, timestamp: nat, kind: Kind)

  /**
   Signed age of a frame relative to a reference instant, in microseconds;
   negative when the frame is newer than the reference.
   */
  function Age(f: Frame, reference: int): int
  {
    reference - f.timestamp
  }

  /** Every frame of `s` is one the recorder accepts. */
  ghost predicate AllClassified(s: seq<Frame>)
  {
    forall i :: 0 <= i < |s| ==> s[i].kind.Classified?
  }

  /** The classifiable frames of `s`, in order. */
  function ClassifiedOnly(s: seq<Frame>): (t: seq<Frame>)
    ensures |t| <= |s|
  {
    if s == [] then []
    else (if s[0].kind.Classified? then [s[0]] else []) + ClassifiedOnly(s[1..])
  }

  /** The filter keeps exactly the classifiable frames: all of them when all are. */
  lemma {:induction false} ClassifiedOnlySound(s: seq<Frame>)
    ensures AllClassified(ClassifiedOnly(s))
    ensures AllClassified(s) ==> ClassifiedOnly(s) == s
    decreases |s|
  {
    if s != [] {
      ClassifiedOnlySound(s[1..]);
      if AllClassified(s) {
        assert AllClassified(s[1..]) by {
          forall i | 0 <= i < |s| - 1 ensures s[1..][i].kind.Classified? {
            assert s[1..][i] == s[i + 1];
          }
        }
        assert s == [s[0]] + s[1..];
      }
    }
  }

  lemma {:induction false} ClassifiedOnlyAppend(a: seq<Frame>, b: seq<Frame>)
    ensures ClassifiedOnly(a + b) == ClassifiedOnly(a) + ClassifiedOnly(b)
    decreases |a|
  {
    if a == [] {
      assert a + b == b;
    } else {
      var head := if a[0].kind.Classified? then [a[0]] else [];
      assert (a + b)[0] == a[0];
      assert (a + b)[1..] == a[1..] + b;
      assert ClassifiedOnly(a + b) == head + ClassifiedOnly(a[1..] + b);
      ClassifiedOnlyAppend(a[1..], b);
      assert head + (ClassifiedOnly(a[1..]) + ClassifiedOnly(b))
          == (head + ClassifiedOnly(a[1..])) + ClassifiedOnly(b);
    }
  }
}
