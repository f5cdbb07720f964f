/**
 The age-bounded pre-roll store: on every accepted frame the stale frames are
 popped from the head, then the frame is appended at the tail.
 */
module FrameStore {
  import opened Frames

  /** `a` is what remains of `b` after dropping some frames from its head. */
  ghost predicate IsSuffix(a: seq<Frame>, b: seq<Frame>)
  {
    |a| <= |b| && b[|b| - |a|..] == a
  }

  /** A frame older than `maxAge` seconds at instant `now` is stale. */
  predicate TooOld(f: Frame, now: int, maxAge: nat)
  {
    Age(f, now) > maxAge * MicrosPerSecond
  }

  /**
   `kept` is what eviction must leave of `store` at `now`: a suffix of it
   whose every dropped frame was stale and whose head (if any) is not.
   */
  ghost predicate EvictionOf(kept: seq<Frame>, store: seq<Frame>, now: int, maxAge: nat)
  {
    && IsSuffix(kept, store)
    && (forall i :: 0 <= i < |store| - |kept| ==> TooOld(store[i], now, maxAge))
    && (kept != [] ==> !TooOld(kept[0], now, maxAge))
  }

  /** Pops stale frames off the head, stopping at the first one that is not stale. */
  function Evict(store: seq<Frame>, now: int, maxAge: nat): (kept: seq<Frame>)
    ensures |kept| <= |store|
    decreases |store|
  {
    if store != [] && TooOld(store[0], now, maxAge) then Evict(store[1..], now, maxAge) else store
  }

  lemma {:induction false} EvictSound(store: seq<Frame>, now: int, maxAge: nat)
    ensures EvictionOf(Evict(store, now, maxAge), store, now, maxAge)
    decreases |store|
  {
    if store != [] && TooOld(store[0], now, maxAge) {
      var rest := store[1..];
      EvictSound(rest, now, maxAge);
      var kept := Evict(rest, now, maxAge);
      assert store[|store| - |kept|..] == rest[|rest| - |kept|..];
      forall i | 0 <= i < |store| - |kept|
        ensures TooOld(store[i], now, maxAge)
      {
        if i > 0 {
          assert store[i] == rest[i - 1];
        }
      }
    }
  }

  /** The eviction required above is unique, so it is exactly what `Evict` computes. */
  lemma EvictUnique(store: seq<Frame>, now: int, maxAge: nat, kept: seq<Frame>)
    ensures EvictionOf(kept, store, now, maxAge) <==> kept == Evict(store, now, maxAge)
  {
    var e := Evict(store, now, maxAge);
    EvictSound(store, now, maxAge);
    if EvictionOf(kept, store, now, maxAge) {
      var j, k := |store| - |kept|, |store| - |e|;
      assert j < |store| ==> store[j] == kept[0];
      assert k < |store| ==> store[k] == e[0];
    }
  }

  /** Store update after a frame has been handled: evict, then append. */
  function Insert(store: seq<Frame>, f: Frame, now: int, maxAge: nat): (s: seq<Frame>)
    ensures s != [] && s[|s| - 1] == f
    ensures |s| <= |store| + 1
  {
    Evict(store, now, maxAge) + [f]
  }

  lemma SuffixTransitive(a: seq<Frame>, b: seq<Frame>, c: seq<Frame>)
    requires IsSuffix(a, b) && IsSuffix(b, c)
    ensures IsSuffix(a, c)
  {
    assert c[|c| - |a|..] == c[|c| - |b|..][|b| - |a|..];
  }

  lemma SuffixAppend(a: seq<Frame>, b: seq<Frame>, x: seq<Frame>)
    requires IsSuffix(a, b)
    ensures IsSuffix(a + x, b + x)
  {
    var bx := b + x;
    assert bx[|bx| - |a + x|..] == b[|b| - |a|..] + x;
  }

  /**
   A store that keeps a suffix of `before + more`, where `before` itself is a
   suffix of `base + prefix`, keeps a suffix of `base + prefix + more`.
   */
  lemma SuffixChain(kept: seq<Frame>, before: seq<Frame>, base: seq<Frame>,
                    prefix: seq<Frame>, more: seq<Frame>)
    requires IsSuffix(before, base + prefix)
    requires IsSuffix(kept, before + more)
    ensures IsSuffix(kept, base + prefix + more)
  {
    SuffixAppend(before, base + prefix, more);
    SuffixTransitive(kept, before + more, base + prefix + more);
  }

  /** Frames whose timestamps do not decrease from head to tail. */
  ghost predicate Chronological(s: seq<Frame>)
  {
    forall i, j :: 0 <= i < j < |s| ==> s[i].timestamp <= s[j].timestamp
  }

  /** Dropping a head and appending a frame no older than the tail keeps order. */
  lemma SuffixAppendChronological(kept: seq<Frame>, store: seq<Frame>, f: Frame)
    requires IsSuffix(kept, store) && Chronological(store)
    requires store != [] ==> store[|store| - 1].timestamp <= f.timestamp
    ensures Chronological(kept + [f])
  {
    var s := kept + [f];
    var d := |store| - |kept|;
    forall i, j | 0 <= i < j < |s|
      ensures s[i].timestamp <= s[j].timestamp
    {
      assert s[i] == store[d + i];
      if j < |kept| {
        assert s[j] == store[d + j];
      } else {
        assert store[d + i].timestamp <= store[|store| - 1].timestamp;
      }
    }
  }

  /**
   The store stays in timestamp order provided frames arrive in timestamp
   order: eviction keeps a suffix, and the new frame is not older than the
   previous tail.
   */
  lemma InsertChronological(store: seq<Frame>, f: Frame, now: int, maxAge: nat)
    requires Chronological(store)
    requires store != [] ==> store[|store| - 1].timestamp <= f.timestamp
    ensures Chronological(Insert(store, f, now, maxAge))
  {
    EvictSound(store, now, maxAge);
    SuffixAppendChronological(Evict(store, now, maxAge), store, f);
  }
}
