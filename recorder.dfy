/** Recorded key presses and the stamping of the keys fired in one frame. */
module Recorder {
  import opened KeyZones

  /** One recorded press: the key and the milliseconds since recording started. */
  datatype KeyPress = KeyPress(key: int, timestamp: int)

  /** A recording as triggerKey builds it: every press has a table key and a
      non-negative timestamp no earlier than the press before it. */
  predicate WellFormed(s: seq<KeyPress>) {
    PressesOk(s, |s|)
  }

  /** The first `n` presses of `s` are well formed. */
  predicate PressesOk(s: seq<KeyPress>, n: nat)
    requires n <= |s|
  {
    n == 0 ||
    (PressesOk(s, n - 1) && IsKey(s[n - 1].key) && 0 <= s[n - 1].timestamp &&
     (n > 1 ==> s[n - 2].timestamp <= s[n - 1].timestamp))
  }

  /** The timestamp of the latest press, 0 for an empty recording. */
  function LastTimestamp(s: seq<KeyPress>): int {
    if s == [] then 0 else s[|s| - 1].timestamp
  }

  lemma {:induction false} PressesOkMeans(s: seq<KeyPress>, n: nat)
    requires n <= |s|
    ensures PressesOk(s, n) <==>
      (forall i :: 0 <= i < n ==> IsKey(s[i].key) && s[i].timestamp >= 0) &&
      (forall i, j :: 0 <= i < j < n ==> s[i].timestamp <= s[j].timestamp)
  {
    if n > 0 {
      PressesOkMeans(s, n - 1);
    }
  }

  /** A well-formed recording is exactly one whose keys are table indices and whose
      timestamps are non-negative and non-decreasing in list order. */
  lemma WellFormedMeans(s: seq<KeyPress>)
    ensures WellFormed(s) <==>
      (forall i :: 0 <= i < |s| ==> IsKey(s[i].key) && s[i].timestamp >= 0) &&
      (forall i, j :: 0 <= i < j < |s| ==> s[i].timestamp <= s[j].timestamp)
  {
    PressesOkMeans(s, |s|);
  }

  /** Presses already recorded stay well formed whatever is appended after them. */
  lemma {:induction false} PressesOkPrefix(s: seq<KeyPress>, t: seq<KeyPress>, n: nat)
    requires n <= |s|
    ensures PressesOk(s + t, n) == PressesOk(s, n)
  {
    if n > 0 {
      PressesOkPrefix(s, t, n - 1);
      assert (s + t)[n - 1] == s[n - 1];
      if n > 1 {
        assert (s + t)[n - 2] == s[n - 2];
      }
    }
  }

  /** Appending a press no earlier than the latest keeps a recording well formed. */
  lemma AppendPress(s: seq<KeyPress>, p: KeyPress)
    requires WellFormed(s) && IsKey(p.key) && 0 <= p.timestamp && LastTimestamp(s) <= p.timestamp
    ensures WellFormed(s + [p]) && LastTimestamp(s + [p]) == p.timestamp
  {
    PressesOkPrefix(s, [p], |s|);
    assert (s + [p])[|s|] == p;
    if |s| > 0 {
      assert (s + [p])[|s| - 1] == s[|s| - 1];
    }
  }

  /** The presses appended for `keys` fired at `elapsed` milliseconds into a recording:
      each fired key becomes one press, in order. */
  function Stamp(keys: seq<int>, elapsed: int): (r: seq<KeyPress>)
    ensures |r| == |keys|
  {
    seq(|keys|, i requires 0 <= i < |keys| => KeyPress(keys[i], elapsed))
  }

  /** Appending the presses of a later moment keeps a recording well formed. */
  lemma {:induction false} StampKeepsWellFormed(s: seq<KeyPress>, keys: seq<int>, elapsed: int)
    requires WellFormed(s) && 0 <= elapsed && LastTimestamp(s) <= elapsed
    requires forall i :: 0 <= i < |keys| ==> IsKey(keys[i])
    ensures WellFormed(s + Stamp(keys, elapsed))
    ensures LastTimestamp(s + Stamp(keys, elapsed)) <= elapsed
  {
    if keys != [] {
      var init := keys[..|keys| - 1];
      StampKeepsWellFormed(s, init, elapsed);
      var r := s + Stamp(init, elapsed);
      AppendPress(r, KeyPress(keys[|keys| - 1], elapsed));
      assert s + Stamp(keys, elapsed) == r + [KeyPress(keys[|keys| - 1], elapsed)];
    } else {
      assert s + Stamp(keys, elapsed) == s;
    }
  }
}
