/** A virtual `setTimeout` queue: pending timers, the timers one loop iteration
    schedules, `clearTimeout`, and the choice of the timer that fires next. */
module Timers {
  import opened Wrappers
  import opened KeyZones
  import opened Recorder

  /** What a timer does when it fires: play one key, or run the next loop iteration
      over the recording captured when the loop was started. */
  datatype Action = PlayKey(key: int) | Iteration(snapshot: seq<KeyPress>)

  /** A pending timer: its handle, the virtual time it is due and its callback. */
  datatype Timer = Timer(id: nat, due: int, action: Action)

  /** Milliseconds between the last recorded press and the next iteration. */
  const LoopGap: int := 200

  /** Keys played by a timer are table indices; an iteration has a press to replay. */
  predicate ActionOk(a: Action) {
    match a
    case PlayKey(k) => IsKey(k)
    case Iteration(s) => |s| > 0 && WellFormed(s)
  }

  /** Pending timers are in creation order: each handle is above the handles queued
      before it and below `bound`, the next handle to hand out. */
  predicate TimersOk(p: seq<Timer>, bound: nat) {
    QueuedOk(p, |p|, bound)
  }

  /** The first `n` pending timers are in creation order below `bound`. */
  predicate QueuedOk(p: seq<Timer>, n: nat, bound: nat)
    requires n <= |p|
  {
    n == 0 ||
    (p[n - 1].id < bound && ActionOk(p[n - 1].action) && QueuedOk(p, n - 1, p[n - 1].id))
  }

  lemma {:induction false} QueuedOkWeaken(p: seq<Timer>, n: nat, bound: nat, bound': nat)
    requires n <= |p| && QueuedOk(p, n, bound) && bound <= bound'
    ensures QueuedOk(p, n, bound')
  {
  }

  /** Timers already queued keep their order whatever is queued after them. */
  lemma {:induction false} QueuedOkPrefix(p: seq<Timer>, q: seq<Timer>, n: nat, bound: nat)
    requires n <= |p|
    ensures QueuedOk(p + q, n, bound) == QueuedOk(p, n, bound)
  {
    if n > 0 {
      assert (p + q)[n - 1] == p[n - 1];
      QueuedOkPrefix(p, q, n - 1, p[n - 1].id);
    }
  }

  /** Queued timers have handles below the bound, increasing in queue order, and
      well-formed callbacks. */
  lemma {:induction false} QueuedOkMeans(p: seq<Timer>, n: nat, bound: nat)
    requires n <= |p| && QueuedOk(p, n, bound)
    ensures forall i :: 0 <= i < n ==> p[i].id < bound && ActionOk(p[i].action)
    ensures forall i, j :: 0 <= i < j < n ==> p[i].id < p[j].id
  {
    if n > 0 {
      QueuedOkMeans(p, n - 1, p[n - 1].id);
    }
  }

  /** Whether an iteration timer with handle `h` is among the first `n` pending. */
  predicate ChainIn(p: seq<Timer>, n: nat, h: nat)
    requires n <= |p|
  {
    n > 0 && ((p[n - 1].action.Iteration? && p[n - 1].id == h) || ChainIn(p, n - 1, h))
  }

  /** `h` is the handle of a live loop chain: its iteration timer is pending. */
  predicate IsChain(p: seq<Timer>, h: nat) {
    ChainIn(p, |p|, h)
  }

  /** The number of iteration timers among the first `n` pending. */
  function ChainsIn(p: seq<Timer>, n: nat): nat
    requires n <= |p|
  {
    if n == 0 then 0
    else ChainsIn(p, n - 1) + (if p[n - 1].action.Iteration? then 1 else 0)
  }

  /** The number of live loop chains, each of which keeps replaying a recording. */
  function Chains(p: seq<Timer>): nat {
    ChainsIn(p, |p|)
  }

  lemma {:induction false} ChainInMeans(p: seq<Timer>, n: nat, h: nat)
    requires n <= |p|
    ensures ChainIn(p, n, h) <==> exists i :: 0 <= i < n && p[i].action.Iteration? && p[i].id == h
  {
    if n > 0 {
      ChainInMeans(p, n - 1, h);
    }
  }

  /** A handle is a live chain's exactly when an iteration timer with it is pending. */
  lemma IsChainMeans(p: seq<Timer>, h: nat)
    ensures IsChain(p, h) <==> exists t :: t in p && t.action.Iteration? && t.id == h
  {
    ChainInMeans(p, |p|, h);
    if IsChain(p, h) {
      var i :| 0 <= i < |p| && p[i].action.Iteration? && p[i].id == h;
      assert p[i] in p;
    }
  }

  lemma {:induction false} ChainsInZero(p: seq<Timer>, n: nat)
    requires n <= |p|
    ensures ChainsIn(p, n) == 0 <==> forall i :: 0 <= i < n ==> p[i].action.PlayKey?
  {
    if n > 0 {
      ChainsInZero(p, n - 1);
    }
  }

  /** No loop chain is live exactly when every pending timer only plays a key. */
  lemma NoChainsOnlyPresses(p: seq<Timer>)
    ensures Chains(p) == 0 <==> forall t :: t in p ==> t.action.PlayKey?
  {
    ChainsInZero(p, |p|);
    if Chains(p) != 0 {
      var i :| 0 <= i < |p| && !p[i].action.PlayKey?;
      assert p[i] in p;
    }
  }

  /** No chain handle is at or above the bound. */
  lemma {:induction false} NoChainAbove(p: seq<Timer>, n: nat, bound: nat, h: nat)
    requires n <= |p| && QueuedOk(p, n, bound) && bound <= h
    ensures !ChainIn(p, n, h)
  {
    if n > 0 {
      NoChainAbove(p, n - 1, p[n - 1].id, h);
    }
  }

  lemma {:induction false} ChainsPrefix(p: seq<Timer>, q: seq<Timer>, n: nat, h: nat)
    requires n <= |p|
    ensures ChainIn(p + q, n, h) == ChainIn(p, n, h)
    ensures ChainsIn(p + q, n) == ChainsIn(p, n)
  {
    if n > 0 {
      assert (p + q)[n - 1] == p[n - 1];
      ChainsPrefix(p, q, n - 1, h);
    }
  }

  /** Queuing a timer adds a chain exactly when it is an iteration. */
  lemma ChainsSnoc(p: seq<Timer>, t: Timer, h: nat)
    ensures IsChain(p + [t], h) == (IsChain(p, h) || (t.action.Iteration? && t.id == h))
    ensures Chains(p + [t]) == Chains(p) + (if t.action.Iteration? then 1 else 0)
  {
    ChainsPrefix(p, [t], |p|, h);
    assert (p + [t])[|p|] == t;
  }

  /** Every pending timer is below the bound and has a well-formed callback. */
  lemma TimersOkMembers(p: seq<Timer>, bound: nat)
    requires TimersOk(p, bound)
    ensures forall t :: t in p ==> t.id < bound && ActionOk(t.action)
  {
    QueuedOkMeans(p, |p|, bound);
  }

  /** Handles identify pending timers. */
  lemma HandlesUnique(p: seq<Timer>, bound: nat, t: Timer, u: Timer)
    requires TimersOk(p, bound) && t in p && u in p && t.id == u.id
    ensures t == u
  {
    QueuedOkMeans(p, |p|, bound);
    var i :| 0 <= i < |p| && p[i] == t;
    var j :| 0 <= j < |p| && p[j] == u;
    assert !(i < j) && !(j < i);
  }

  /** A press timer's handle is no chain's handle. */
  lemma PressIsNoChain(p: seq<Timer>, bound: nat, t: Timer)
    requires TimersOk(p, bound) && t in p && t.action.PlayKey?
    ensures !IsChain(p, t.id)
  {
    IsChainMeans(p, t.id);
    if IsChain(p, t.id) {
      var u :| u in p && u.action.Iteration? && u.id == t.id;
      HandlesUnique(p, bound, t, u);
    }
  }

  /** A pending iteration timer is a live chain. */
  lemma IterationIsChain(p: seq<Timer>, t: Timer)
    requires t in p && t.action.Iteration?
    ensures IsChain(p, t.id)
  {
    IsChainMeans(p, t.id);
  }

  /** `setTimeout` appends a timer with a fresh, larger handle. */
  lemma AppendTimer(p: seq<Timer>, bound: nat, t: Timer, bound': nat)
    requires TimersOk(p, bound) && bound <= t.id < bound' && ActionOk(t.action)
    ensures TimersOk(p + [t], bound')
  {
    QueuedOkPrefix(p, [t], |p|, t.id);
    QueuedOkWeaken(p, |p|, bound, t.id);
    assert (p + [t])[|p|] == t;
  }

  /** The per-press timers of one iteration started at `now`, handles from `firstId`:
      timer `i` plays press `i` at its offset from `now`, with handle `firstId + i`. */
  function EventTimers(s: seq<KeyPress>, now: int, firstId: nat): (r: seq<Timer>)
    ensures |r| == |s|
  {
    seq(|s|, i requires 0 <= i < |s| => Timer(firstId + i, now + s[i].timestamp, PlayKey(s[i].key)))
  }

  /** Scheduling press `i` extends the press timers of the presses before it. */
  lemma EventTimersStep(s: seq<KeyPress>, i: nat, now: int, firstId: nat)
    requires i < |s|
    ensures EventTimers(s[..i + 1], now, firstId) ==
      EventTimers(s[..i], now, firstId) + [Timer(firstId + i, now + s[i].timestamp, PlayKey(s[i].key))]
  {
  }

  /** Everything one iteration schedules: the press timers, then the next iteration. */
  function IterationTimers(s: seq<KeyPress>, now: int, firstId: nat): seq<Timer>
    requires |s| > 0
  {
    EventTimers(s, now, firstId) +
      [Timer(firstId + |s|, now + s[|s| - 1].timestamp + LoopGap, Iteration(s))]
  }

  /** One iteration plays press `i` at offset `timestamp` of the iteration, in order, and
      starts the next iteration `LoopGap` after the last press; only that last timer
      continues the chain. */
  lemma IterationSchedule(s: seq<KeyPress>, now: int, firstId: nat)
    requires |s| > 0
    ensures |IterationTimers(s, now, firstId)| == |s| + 1
    ensures forall i :: 0 <= i < |s| ==>
      IterationTimers(s, now, firstId)[i].due == now + s[i].timestamp &&
      IterationTimers(s, now, firstId)[i].action == PlayKey(s[i].key)
    ensures IterationTimers(s, now, firstId)[|s|] ==
      Timer(firstId + |s|, now + s[|s| - 1].timestamp + LoopGap, Iteration(s))
  {
  }

  /** Each press of an iteration is queued, with its handle, behind the timers already
      pending. */
  lemma IterationPressesQueued(p: seq<Timer>, s: seq<KeyPress>, now: int, firstId: nat)
    requires |s| > 0
    ensures forall i :: 0 <= i < |s| ==>
      Timer(firstId + i, now + s[i].timestamp, PlayKey(s[i].key)) in
        p + IterationTimers(s, now, firstId)
  {
    var q := p + IterationTimers(s, now, firstId);
    forall i | 0 <= i < |s|
      ensures Timer(firstId + i, now + s[i].timestamp, PlayKey(s[i].key)) in q
    {
      IterationSchedule(s, now, firstId);
      assert q[|p| + i] == IterationTimers(s, now, firstId)[i];
    }
  }

  lemma {:induction false} PressesKeepChains(p: seq<Timer>, e: seq<Timer>, j: nat, h: nat)
    requires j <= |e| && forall i :: 0 <= i < |e| ==> e[i].action.PlayKey?
    ensures ChainIn(p + e, |p| + j, h) == IsChain(p, h)
    ensures ChainsIn(p + e, |p| + j) == Chains(p)
  {
    if j == 0 {
      ChainsPrefix(p, e, |p|, h);
    } else {
      PressesKeepChains(p, e, j - 1, h);
      assert (p + e)[|p| + j - 1] == e[j - 1];
    }
  }

  /** An iteration started on a queue with fresh handles adds exactly one chain, the
      one whose handle it returns, and keeps every other chain. */
  lemma IterationChains(p: seq<Timer>, bound: nat, s: seq<KeyPress>, now: int, firstId: nat, h: nat)
    requires TimersOk(p, bound) && bound <= firstId && |s| > 0
    ensures IsChain(p + IterationTimers(s, now, firstId), h) ==
      (IsChain(p, h) || h == firstId + |s|)
    ensures Chains(p + IterationTimers(s, now, firstId)) == Chains(p) + 1
    ensures !IsChain(p, firstId + |s|)
  {
    var e := EventTimers(s, now, firstId);
    var last := Timer(firstId + |s|, now + s[|s| - 1].timestamp + LoopGap, Iteration(s));
    PressesKeepChains(p, e, |e|, h);
    ChainsSnoc(p + e, last, h);
    assert p + IterationTimers(s, now, firstId) == (p + e) + [last];
    NoChainAbove(p, |p|, bound, firstId + |s|);
  }

  /** Presses recorded at 0, 300 and 700 ms play at those offsets and the next iteration
      starts at offset 900. */
  lemma LoopExample(a: int, b: int, c: int, now: int, firstId: nat)
    ensures var t := IterationTimers([KeyPress(a, 0), KeyPress(b, 300), KeyPress(c, 700)], now, firstId);
      |t| == 4 &&
      t[0].due == now && t[1].due == now + 300 && t[2].due == now + 700 &&
      t[0].action == PlayKey(a) && t[1].action == PlayKey(b) && t[2].action == PlayKey(c) &&
      t[3].due == now + 900 && t[3].action.Iteration?
  {
  }

  /** `clearTimeout(h)`, and the removal of a timer that has fired: the timer with
      handle `h`, if pending, leaves the queue. */
  function Cancel(p: seq<Timer>, h: nat): seq<Timer> {
    Kept(p, |p|, h)
  }

  /** The first `n` pending timers without the one with handle `h`. */
  function Kept(p: seq<Timer>, n: nat, h: nat): seq<Timer>
    requires n <= |p|
  {
    if n == 0 then []
    else Kept(p, n - 1, h) + (if p[n - 1].id == h then [] else [p[n - 1]])
  }

  /** Cancelling a handle that none of the first `n` timers has keeps them all. */
  lemma {:induction false} KeptFresh(p: seq<Timer>, n: nat, h: nat)
    requires n <= |p| && forall i :: 0 <= i < n ==> p[i].id != h
    ensures Kept(p, n, h) == p[..n]
  {
    if n > 0 {
      KeptFresh(p, n - 1, h);
      assert p[..n] == p[..n - 1] + [p[n - 1]];
    }
  }

  /** Cancelling the timer just queued under a fresh handle gives back the queue before it. */
  lemma CancelLast(q: seq<Timer>, bound: nat, t: Timer)
    requires TimersOk(q, bound) && bound <= t.id
    ensures Cancel(q + [t], t.id) == q
  {
    var p := q + [t];
    QueuedOkMeans(q, |q|, bound);
    forall i | 0 <= i < |q|
      ensures p[i].id != t.id
    {
      assert p[i] == q[i];
    }
    KeptFresh(p, |q|, t.id);
    assert p[..|q|] == q;
  }

  lemma {:induction false} KeptMembers(p: seq<Timer>, n: nat, h: nat)
    requires n <= |p|
    ensures forall t :: t in Kept(p, n, h) <==> t in p[..n] && t.id != h
  {
    if n > 0 {
      KeptMembers(p, n - 1, h);
      assert p[..n] == p[..n - 1] + [p[n - 1]];
    }
  }

  lemma {:induction false} KeptInOrder(p: seq<Timer>, n: nat, h: nat, bound: nat)
    requires n <= |p| && QueuedOk(p, n, bound)
    ensures TimersOk(Kept(p, n, h), bound)
  {
    if n > 0 {
      var last := p[n - 1];
      KeptInOrder(p, n - 1, h, last.id);
      var k := Kept(p, n - 1, h);
      if last.id == h {
        assert Kept(p, n, h) == k;
        QueuedOkWeaken(k, |k|, last.id, bound);
      } else {
        AppendTimer(k, last.id, last, bound);
      }
    }
  }

  lemma CancelMembers(p: seq<Timer>, h: nat)
    ensures forall t :: t in Cancel(p, h) <==> t in p && t.id != h
  {
    KeptMembers(p, |p|, h);
    assert p[..|p|] == p;
  }

  lemma {:induction false} KeptChains(p: seq<Timer>, n: nat, h: nat, bound: nat, g: nat)
    requires n <= |p| && QueuedOk(p, n, bound)
    ensures IsChain(Kept(p, n, h), g) == (ChainIn(p, n, g) && g != h)
    ensures Chains(Kept(p, n, h)) == ChainsIn(p, n) - (if ChainIn(p, n, h) then 1 else 0)
  {
    if n > 0 {
      var k, last := Kept(p, n - 1, h), p[n - 1];
      KeptChains(p, n - 1, h, last.id, g);
      if last.id == h {
        NoChainAbove(p, n - 1, last.id, h);
        assert Kept(p, n, h) == k;
      } else {
        ChainsSnoc(k, last, g);
        assert Kept(p, n, h) == k + [last];
      }
    }
  }

  /** Clearing a handle leaves every other pending timer in the queue and ends just
      that handle's chain, if it is one; when it is, every queued press timer stays. */
  lemma CancelEffect(p: seq<Timer>, h: nat, bound: nat)
    requires TimersOk(p, bound)
    ensures TimersOk(Cancel(p, h), bound)
    ensures forall t :: t in p && t.id != h ==> t in Cancel(p, h)
    ensures forall t :: t in Cancel(p, h) ==> t in p && t.id != h
    ensures forall g :: IsChain(Cancel(p, h), g) == (IsChain(p, g) && g != h)
    ensures Chains(Cancel(p, h)) == Chains(p) - (if IsChain(p, h) then 1 else 0)
    ensures IsChain(p, h) ==> forall t :: t in p && t.action.PlayKey? ==> t in Cancel(p, h)
  {
    CancelMembers(p, h);
    KeptInOrder(p, |p|, h, bound);
    forall g ensures IsChain(Cancel(p, h), g) == (IsChain(p, g) && g != h) {
      KeptChains(p, |p|, h, bound, g);
    }
    KeptChains(p, |p|, h, bound, h);
    if IsChain(p, h) {
      forall t | t in p && t.action.PlayKey? ensures t in Cancel(p, h) {
        PressIsNoChain(p, bound, t);
      }
    }
  }

  /** No pending timer is due at `now`. */
  predicate NoneDue(p: seq<Timer>, now: int) {
    forall j :: 0 <= j < |p| ==> p[j].due > now
  }

  /** Index `i` holds the timer to fire next at `now`: it is due, no due timer is due
      earlier, and among timers due at the same time it was queued first. */
  predicate IsNext(p: seq<Timer>, now: int, i: int) {
    0 <= i < |p| && p[i].due <= now &&
    forall j :: 0 <= j < |p| && p[j].due <= now ==>
      p[i].due < p[j].due || (p[i].due == p[j].due && i <= j)
  }

  /** There is at most one next timer. */
  lemma IsNextUnique(p: seq<Timer>, now: int, i: int, j: int)
    requires IsNext(p, now, i) && IsNext(p, now, j)
    ensures i == j
  {
  }

  /** The event loop's choice of the timer to run next, if any is due. */
  method FindNext(p: seq<Timer>, now: int) returns (next: Option<nat>)
    ensures next.None? <==> NoneDue(p, now)
    ensures next.Some? ==> IsNext(p, now, next.value)
  {
    next := None;
    for j := 0 to |p|
      invariant next.None? <==> NoneDue(p[..j], now)
      invariant next.Some? ==> IsNext(p[..j], now, next.value)
    {
      if p[j].due <= now && (next.None? || p[j].due < p[next.value].due) {
        next := Some(j);
      }
    }
    assert p[..|p|] == p;
  }
}
