/** The state of the virtual piano component and its operations: the per-frame
    collision and debounce step, the recorder, and the loop scheduler driven by a
    virtual clock and an explicit timer queue. */
module Piano {
  import opened Wrappers
  import opened KeyZones
  import opened TouchScan
  import opened Recorder
  import opened Timers

  predicate KeysOk(keys: set<int>) {
    forall k :: k in keys ==> IsKey(k)
  }

  predicate PlayedOk(played: seq<int>) {
    forall k :: k in played ==> IsKey(k)
  }

  /** The recording is well formed and, while it grows, no press lies in the future. */
  predicate RecordingOk(recording: bool, start: int, clock: int, sequence: seq<KeyPress>) {
    WellFormed(sequence) &&
    (recording ==> start <= clock && LastTimestamp(sequence) <= clock - start)
  }

  /** The stored handle, whenever there is one, is a live chain's; a looping piano has one. */
  predicate HandleOk(looping: bool, loopHandle: Option<nat>, pending: seq<Timer>) {
    (looping ==> loopHandle.Some?) &&
    (loopHandle.Some? ==> IsChain(pending, loopHandle.value))
  }

  class VirtualPiano {
    /** `touchedKeys`: keys held since they last fired. */
    var touched: set<int>
    /** `activeKeys`: the keys touched in the last frame, for highlighting. */
    var active: set<int>
    /** `isRecording` and `recordingStartRef`. */
    var recording: bool
    var start: int
    /** `recordedSequence`. */
    var sequence: seq<KeyPress>
    /** `isLooping` and `loopIntervalRef`. */
    var looping: bool
    var loopHandle: Option<nat>
    /** The pending `setTimeout` callbacks in creation order, and the next handle. */
    var pending: seq<Timer>
    var nextId: nat
    /** The virtual clock read by `Date.now()` and by the timers. */
    var clock: int
    /** Every key handed to `onKeyPlay`, in order. */
    var played: seq<int>

    /** The object invariant without the loop handle's link to the queue. */
    ghost predicate Core()
      reads this
    {
      KeysOk(touched) && KeysOk(active) && RecordingOk(recording, start, clock, sequence) &&
      TimersOk(pending, nextId) && PlayedOk(played)
    }

    ghost predicate Valid()
      reads this
    {
      Core() && HandleOk(looping, loopHandle, pending)
    }

    /** The situation the buttons keep: `playLoop` is offered only while not looping, so
        at most one loop chain is live, and exactly while the loop is on. */
    ghost predicate SingleLoop()
      reads this
    {
      (looping <==> loopHandle.Some?) && Chains(pending) == (if looping then 1 else 0)
    }

    constructor (now: int)
      ensures Valid() && SingleLoop()
      ensures touched == {} && active == {} && !recording && sequence == []
      ensures !looping && loopHandle == None && pending == [] && clock == now && played == []
    {
      touched, active := {}, {};
      recording, start, sequence := false, 0, [];
      looping, loopHandle := false, None;
      pending, nextId := [], 1;
      clock, played := now, [];
    }

    /** Virtual time passes; it never goes back. */
    method Tick(elapsed: nat)
      requires Valid()
      modifies this
      ensures Valid()
      ensures clock == old(clock) + elapsed
      ensures touched == old(touched) && active == old(active) && recording == old(recording)
      ensures start == old(start) && sequence == old(sequence) && looping == old(looping)
      ensures loopHandle == old(loopHandle) && pending == old(pending)
      ensures nextId == old(nextId) && played == old(played)
    {
      clock := clock + elapsed;
    }

    /** The recording step of `triggerKey`: while recording, a press of `keyIndex` is
        appended, stamped with the time elapsed since recording started. */
    method Record(keyIndex: int)
      requires Valid() && IsKey(keyIndex)
      modifies this
      ensures Valid()
      ensures recording ==> sequence == old(sequence) + [KeyPress(keyIndex, clock - start)]
      ensures !recording ==> sequence == old(sequence)
      ensures touched == old(touched) && active == old(active) && recording == old(recording)
      ensures start == old(start) && looping == old(looping) && loopHandle == old(loopHandle)
      ensures pending == old(pending) && nextId == old(nextId) && clock == old(clock)
      ensures played == old(played)
    {
      if recording {
        AppendPress(sequence, KeyPress(keyIndex, clock - start));
        sequence := sequence + [KeyPress(keyIndex, clock - start)];
      }
    }

    /** `triggerKey(keyIndex, isTouching)` against `held`, the `touchedKeys` of the frame:
        a touched key not held plays, becomes held and is recorded. */
    method TriggerKey(keyIndex: int, isTouching: bool, held: set<int>)
      requires Valid() && IsKey(keyIndex)
      modifies this
      ensures Valid()
      ensures isTouching && keyIndex !in held ==>
        touched == old(touched) + {keyIndex} && played == old(played) + [keyIndex]
      ensures isTouching && keyIndex !in held && recording ==>
        sequence == old(sequence) + [KeyPress(keyIndex, clock - start)]
      ensures !(isTouching && keyIndex !in held) ==>
        touched == old(touched) && played == old(played)
      ensures !(isTouching && keyIndex !in held && recording) ==> sequence == old(sequence)
      ensures active == old(active) && recording == old(recording) && start == old(start)
      ensures looping == old(looping) && loopHandle == old(loopHandle)
      ensures pending == old(pending) && nextId == old(nextId) && clock == old(clock)
    {
      if isTouching && keyIndex !in held {
        played := played + [keyIndex];
        touched := touched + {keyIndex};
        Record(keyIndex);
      }
    }

    /** The trigger pass of a frame: `triggerKey(k, true)` for every touched key in scan
        order, all against the frame's `touchedKeys`. */
    method TriggerAll(currentlyTouched: seq<int>, held: set<int>)
      requires Valid()
      requires forall i :: 0 <= i < |currentlyTouched| ==> IsKey(currentlyTouched[i])
      modifies this
      ensures Valid()
      ensures touched == old(touched) + Elements(FiredKeys(currentlyTouched, held))
      ensures played == old(played) + FiredKeys(currentlyTouched, held)
      ensures recording ==>
        sequence == old(sequence) + Stamp(FiredKeys(currentlyTouched, held), clock - start)
      ensures !recording ==> sequence == old(sequence)
      ensures active == old(active) && recording == old(recording) && start == old(start)
      ensures looping == old(looping) && loopHandle == old(loopHandle)
      ensures pending == old(pending) && nextId == old(nextId) && clock == old(clock)
    {
      ghost var recorded, elapsed := sequence, clock - start;
      ghost var fired: seq<int> := [];
      for i := 0 to |currentlyTouched|
        invariant Valid()
        invariant fired == FiredKeysTo(currentlyTouched, i, held)
        invariant touched == old(touched) + Elements(fired)
        invariant played == old(played) + fired
        invariant recording ==> sequence == recorded + Stamp(fired, elapsed)
        invariant !recording ==> sequence == recorded
        invariant active == old(active) && recording == old(recording) && start == old(start)
        invariant looping == old(looping) && loopHandle == old(loopHandle)
        invariant pending == old(pending) && nextId == old(nextId) && clock == old(clock)
      {
        var keyIndex := currentlyTouched[i];
        if keyIndex !in held {
          assert Elements(fired + [keyIndex]) == Elements(fired) + {keyIndex};
          assert (old(played) + fired) + [keyIndex] == old(played) + (fired + [keyIndex]);
          assert Stamp(fired + [keyIndex], elapsed) == Stamp(fired, elapsed) + [KeyPress(keyIndex, elapsed)];
          assert (recorded + Stamp(fired, elapsed)) + [KeyPress(keyIndex, elapsed)]
              == recorded + Stamp(fired + [keyIndex], elapsed);
          fired := fired + [keyIndex];
        }
        TriggerKey(keyIndex, true, held);
      }
    }

    /** The release pass of a frame: every held key not touched now is deleted. */
    method ReleaseUntouched(current: set<int>)
      requires Valid()
      modifies this
      ensures Valid()
      ensures touched == old(touched) * current
      ensures active == old(active) && recording == old(recording) && start == old(start)
      ensures sequence == old(sequence) && looping == old(looping)
      ensures loopHandle == old(loopHandle) && pending == old(pending)
      ensures nextId == old(nextId) && clock == old(clock) && played == old(played)
    {
      var next := touched;
      var remaining := touched;
      while exists k :: k in remaining
        invariant remaining <= touched
        invariant next == touched - ((touched - remaining) - current)
        decreases remaining
      {
        var k :| k in remaining;
        if k !in current {
          next := next - {k};
        }
        remaining := remaining - {k};
      }
      touched := next;
    }

    /** One detection frame. Without a detection result or a canvas nothing happens.
        Otherwise the touched keys are collected, every one not already held fires once
        in scan order (and is recorded while recording), and the held keys become exactly
        the touched ones, so a released key is armed again. */
    method Frame(hands: Option<seq<Hand>>, canvas: Option<Canvas>)
      requires Valid()
      requires hands.Some? && canvas.Some? ==> WellFormedHands(hands.value)
      modifies this
      ensures Valid()
      ensures hands.None? || canvas.None? ==>
        touched == old(touched) && active == old(active) &&
        played == old(played) && sequence == old(sequence)
      ensures hands.Some? && canvas.Some? ==>
        var cur := ScanOrder(hands.value, canvas.value);
        var fired := FiredKeys(cur, old(touched));
        touched == Elements(cur) && active == Elements(cur) && played == old(played) + fired
      ensures hands.Some? && canvas.Some? && recording ==>
        var fired := FiredKeys(ScanOrder(hands.value, canvas.value), old(touched));
        sequence == old(sequence) + Stamp(fired, clock - start)
      ensures hands.Some? && canvas.Some? && !recording ==> sequence == old(sequence)
      ensures recording == old(recording) && start == old(start)
      ensures looping == old(looping) && loopHandle == old(loopHandle)
      ensures pending == old(pending) && nextId == old(nextId) && clock == old(clock)
    {
      if hands.None? || canvas.None? {
        return;
      }
      ScanFrame(hands.value, canvas.value);
    }

    /** The body of a frame with a detection result and a canvas: scan, trigger, release. */
    method ScanFrame(hands: seq<Hand>, c: Canvas)
      requires Valid() && WellFormedHands(hands)
      modifies this
      ensures Valid()
      ensures touched == Elements(ScanOrder(hands, c)) && active == Elements(ScanOrder(hands, c))
      ensures played == old(played) + FiredKeys(ScanOrder(hands, c), old(touched))
      ensures recording ==>
        sequence == old(sequence) + Stamp(FiredKeys(ScanOrder(hands, c), old(touched)), clock - start)
      ensures !recording ==> sequence == old(sequence)
      ensures recording == old(recording) && start == old(start)
      ensures looping == old(looping) && loopHandle == old(loopHandle)
      ensures pending == old(pending) && nextId == old(nextId) && clock == old(clock)
    {
      var currentlyTouched := CollectTouched(hands, c);
      ScanOrderKeys(hands, c);
      var current := Elements(currentlyTouched);
      active := current;
      var held := touched;
      TriggerAll(currentlyTouched, held);
      HeldAfterFrame(currentlyTouched, held);
      ReleaseUntouched(current);
    }

    /** The effect also depends on `activeKeys`, which every frame replaces, so it runs
        again at once on the same detection result; that second pass plays and records
        nothing, and leaves the held keys as they were. */
    method FrameTwice(hands: seq<Hand>, c: Canvas)
      requires Valid() && WellFormedHands(hands)
      modifies this
      ensures Valid()
      ensures touched == Elements(ScanOrder(hands, c)) && active == Elements(ScanOrder(hands, c))
      ensures played == old(played) + FiredKeys(ScanOrder(hands, c), old(touched))
      ensures recording ==>
        sequence == old(sequence) + Stamp(FiredKeys(ScanOrder(hands, c), old(touched)), clock - start)
      ensures !recording ==> sequence == old(sequence)
      ensures recording == old(recording) && start == old(start)
      ensures looping == old(looping) && loopHandle == old(loopHandle)
      ensures pending == old(pending) && nextId == old(nextId) && clock == old(clock)
    {
      Frame(Some(hands), Some(c));
      ghost var played1, sequence1 := played, sequence;
      RepeatedScanFiresNothing(ScanOrder(hands, c));
      Frame(Some(hands), Some(c));
      assert played == played1 + [];
      assert sequence == sequence1 + Stamp([], clock - start);
    }

    /** `startRecording`: a new, empty recording starts now, replacing the old one. */
    method StartRecording()
      requires Valid()
      modifies this
      ensures Valid()
      ensures sequence == [] && recording && start == clock
      ensures touched == old(touched) && active == old(active) && looping == old(looping)
      ensures loopHandle == old(loopHandle) && pending == old(pending)
      ensures nextId == old(nextId) && clock == old(clock) && played == old(played)
    {
      sequence := [];
      start := clock;
      recording := true;
    }

    /** `stopRecording`: the recording is kept as it is. */
    method StopRecording()
      requires Valid()
      modifies this
      ensures Valid()
      ensures !recording && sequence == old(sequence)
      ensures touched == old(touched) && active == old(active) && start == old(start)
      ensures looping == old(looping) && loopHandle == old(loopHandle)
      ensures pending == old(pending) && nextId == old(nextId) && clock == old(clock)
      ensures played == old(played)
    {
      recording := false;
    }

    /** `setTimeout(action, delay)`: queues a timer due `delay` from now and returns its
        handle. */
    method SetTimeout(delay: int, action: Action) returns (handle: nat)
      requires Core() && ActionOk(action)
      modifies this
      ensures Core()
      ensures handle == old(nextId) && nextId == old(nextId) + 1
      ensures pending == old(pending) + [Timer(handle, clock + delay, action)]
      ensures touched == old(touched) && active == old(active) && recording == old(recording)
      ensures start == old(start) && sequence == old(sequence) && looping == old(looping)
      ensures loopHandle == old(loopHandle) && clock == old(clock) && played == old(played)
    {
      handle := nextId;
      AppendTimer(pending, nextId, Timer(handle, clock + delay, action), nextId + 1);
      pending := pending + [Timer(handle, clock + delay, action)];
      nextId := nextId + 1;
    }

    /** The `forEach` of `playSequence`: one press timer per recorded press, due at its
        recorded offset from now. */
    method SchedulePresses(snapshot: seq<KeyPress>)
      requires Core() && forall i :: 0 <= i < |snapshot| ==> IsKey(snapshot[i].key)
      modifies this
      ensures Core()
      ensures pending == old(pending) + EventTimers(snapshot, clock, old(nextId))
      ensures nextId == old(nextId) + |snapshot|
      ensures touched == old(touched) && active == old(active) && recording == old(recording)
      ensures start == old(start) && sequence == old(sequence) && looping == old(looping)
      ensures loopHandle == old(loopHandle) && clock == old(clock) && played == old(played)
    {
      for i := 0 to |snapshot|
        invariant Core()
        invariant pending == old(pending) + EventTimers(snapshot[..i], clock, old(nextId))
        invariant nextId == old(nextId) + i
        invariant touched == old(touched) && active == old(active)
        invariant recording == old(recording) && start == old(start)
        invariant sequence == old(sequence) && looping == old(looping)
        invariant loopHandle == old(loopHandle) && clock == old(clock) && played == old(played)
      {
        var keyPress := snapshot[i];
        var _ := SetTimeout(keyPress.timestamp, PlayKey(keyPress.key));
        EventTimersStep(snapshot, i, clock, old(nextId));
      }
      assert snapshot[..|snapshot|] == snapshot;
    }

    /** `playSequence`: one iteration over `snapshot` queues one timer per press at its
        recorded offset, then the next iteration, whose handle replaces the stored one.
        That handle is a new chain; every other chain stays. */
    method PlaySequence(snapshot: seq<KeyPress>)
      requires Core() && |snapshot| > 0 && WellFormed(snapshot)
      requires looping ==> loopHandle.Some?
      modifies this
      ensures Valid()
      ensures pending == old(pending) + IterationTimers(snapshot, clock, old(nextId))
      ensures nextId == old(nextId) + |snapshot| + 1
      ensures loopHandle == Some(old(nextId) + |snapshot|)
      ensures !IsChain(old(pending), old(nextId) + |snapshot|)
      ensures Chains(pending) == Chains(old(pending)) + 1
      ensures touched == old(touched) && active == old(active) && recording == old(recording)
      ensures start == old(start) && sequence == old(sequence) && looping == old(looping)
      ensures clock == old(clock) && played == old(played)
    {
      WellFormedMeans(snapshot);
      IterationChains(pending, nextId, snapshot, clock, nextId, nextId + |snapshot|);
      SchedulePresses(snapshot);
      var totalDuration := snapshot[|snapshot| - 1].timestamp + LoopGap;
      var handle := SetTimeout(totalDuration, Iteration(snapshot));
      loopHandle := Some(handle);
    }

    /** `playLoop`: nothing on an empty recording; otherwise the loop is marked active
        and its first iteration runs now over the current recording. A loop already
        running is not checked for: a second chain starts beside it. */
    method PlayLoop()
      requires Valid()
      modifies this
      ensures Valid()
      ensures old(sequence) == [] ==>
        looping == old(looping) && pending == old(pending) &&
        loopHandle == old(loopHandle) && nextId == old(nextId)
      ensures old(sequence) != [] ==>
        looping &&
        pending == old(pending) + IterationTimers(old(sequence), clock, old(nextId)) &&
        loopHandle == Some(old(nextId) + |old(sequence)|) &&
        nextId == old(nextId) + |old(sequence)| + 1 &&
        Chains(pending) == Chains(old(pending)) + 1
      ensures old(SingleLoop()) && !old(looping) ==> SingleLoop()
      ensures touched == old(touched) && active == old(active) && recording == old(recording)
      ensures start == old(start) && sequence == old(sequence)
      ensures clock == old(clock) && played == old(played)
    {
      if |sequence| == 0 {
        return;
      }
      // Marking the loop active and running the first iteration form one atomic step;
      // the flag is set once the handle exists so that the invariant holds throughout.
      PlaySequence(sequence);
      looping := true;
    }

    /** `stopLoop`: the loop is marked inactive and the stored iteration timer, if any,
        is cleared, which ends that one chain. Press timers already queued are not
        cleared, nor is a chain whose handle was overwritten. */
    method StopLoop()
      requires Valid()
      modifies this
      ensures Valid()
      ensures !looping && loopHandle == None
      ensures old(loopHandle).Some? ==> pending == Cancel(old(pending), old(loopHandle).value)
      ensures old(loopHandle).None? ==> pending == old(pending)
      ensures forall t :: t in old(pending) && t.action.PlayKey? ==> t in pending
      ensures Chains(pending) == Chains(old(pending)) - (if old(loopHandle).Some? then 1 else 0)
      ensures old(SingleLoop()) ==> SingleLoop() && Chains(pending) == 0
      ensures touched == old(touched) && active == old(active) && recording == old(recording)
      ensures start == old(start) && sequence == old(sequence) && nextId == old(nextId)
      ensures clock == old(clock) && played == old(played)
    {
      looping := false;
      if loopHandle.Some? {
        CancelEffect(pending, loopHandle.value, nextId);
        pending := Cancel(pending, loopHandle.value);
        loopHandle := None;
      }
    }

    /** A press timer fires: it leaves the queue and plays its key. */
    method FirePress(timer: Timer)
      requires Valid() && timer in pending && timer.action.PlayKey?
      modifies this
      ensures Valid()
      ensures pending == Cancel(old(pending), timer.id)
      ensures played == old(played) + [timer.action.key]
      ensures Chains(pending) == Chains(old(pending))
      ensures touched == old(touched) && active == old(active) && recording == old(recording)
      ensures start == old(start) && sequence == old(sequence) && looping == old(looping)
      ensures loopHandle == old(loopHandle) && nextId == old(nextId) && clock == old(clock)
    {
      CancelEffect(pending, timer.id, nextId);
      PressIsNoChain(pending, nextId, timer);
      TimersOkMembers(pending, nextId);
      pending := Cancel(pending, timer.id);
      played := played + [timer.action.key];
    }

    /** An iteration timer fires: it leaves the queue, ending its chain, and runs the
        next iteration over its snapshot, which starts a chain whose handle becomes the
        stored one. */
    method FireIteration(timer: Timer)
      requires Valid() && timer in pending && timer.action.Iteration?
      modifies this
      ensures Valid()
      ensures |timer.action.snapshot| > 0
      ensures pending == Cancel(old(pending), timer.id) +
        IterationTimers(timer.action.snapshot, clock, old(nextId))
      ensures loopHandle == Some(old(nextId) + |timer.action.snapshot|)
      ensures nextId == old(nextId) + |timer.action.snapshot| + 1
      ensures Chains(pending) == Chains(old(pending))
      ensures touched == old(touched) && active == old(active) && recording == old(recording)
      ensures start == old(start) && sequence == old(sequence) && looping == old(looping)
      ensures clock == old(clock) && played == old(played)
    {
      TimersOkMembers(pending, nextId);
      CancelEffect(pending, timer.id, nextId);
      IterationIsChain(pending, timer);
      pending := Cancel(pending, timer.id);
      PlaySequence(timer.action.snapshot);
    }

    /** The event loop runs the next due timer, if any, and drops it from the queue: a
        press timer plays its key; an iteration timer runs the next iteration at the
        current time. The number of live loop chains does not change. */
    method FireNext() returns (index: Option<nat>)
      requires Valid()
      modifies this
      ensures Valid()
      ensures index.None? <==> NoneDue(old(pending), old(clock))
      ensures index.None? ==>
        pending == old(pending) && played == old(played) &&
        loopHandle == old(loopHandle) && nextId == old(nextId)
      ensures index.Some? ==> IsNext(old(pending), old(clock), index.value)
      ensures index.Some? && old(pending)[index.value].action.PlayKey? ==>
        var fired := old(pending)[index.value];
        pending == Cancel(old(pending), fired.id) && played == old(played) + [fired.action.key] &&
        loopHandle == old(loopHandle) && nextId == old(nextId)
      ensures index.Some? && old(pending)[index.value].action.Iteration? ==>
        var fired := old(pending)[index.value];
        var s := fired.action.snapshot;
        |s| > 0 &&
        pending == Cancel(old(pending), fired.id) + IterationTimers(s, clock, old(nextId)) &&
        played == old(played) && loopHandle == Some(old(nextId) + |s|) &&
        nextId == old(nextId) + |s| + 1
      ensures Chains(pending) == Chains(old(pending))
      ensures Chains(old(pending)) == 0 ==> loopHandle == old(loopHandle) && nextId == old(nextId)
      ensures old(SingleLoop()) ==> SingleLoop()
      ensures touched == old(touched) && active == old(active) && recording == old(recording)
      ensures start == old(start) && sequence == old(sequence) && looping == old(looping)
      ensures clock == old(clock)
    {
      index := FindNext(pending, clock);
      if index.None? {
        return;
      }
      var timer := pending[index.value];
      assert timer in pending;
      NoChainsOnlyPresses(pending);
      if timer.action.PlayKey? {
        FirePress(timer);
      } else {
        FireIteration(timer);
      }
    }

    /** `playLoop` pressed twice without the button guard, then `stopLoop`: the first
        chain's handle was overwritten, so stopping clears only the second and the first
        keeps replaying although the piano reports that it is not looping. */
    method PlayLoopTwiceThenStop()
      requires Valid() && SingleLoop() && !looping && sequence != []
      modifies this
      ensures Valid() && !looping && loopHandle == None
      ensures Chains(old(pending)) == 0 && Chains(pending) == 1
      ensures !SingleLoop()
      ensures nextId == old(nextId) + 2 * (|sequence| + 1)
      ensures pending == old(pending) + IterationTimers(old(sequence), old(clock), old(nextId)) +
        EventTimers(old(sequence), old(clock), old(nextId) + |old(sequence)| + 1)
      ensures touched == old(touched) && active == old(active) && recording == old(recording)
      ensures start == old(start) && sequence == old(sequence)
      ensures clock == old(clock) && played == old(played)
    {
      PlayLoop();
      ghost var p1, s0, n1 := pending, sequence, nextId;
      PlayLoop();
      ghost var q := p1 + EventTimers(s0, clock, n1);
      ghost var last := Timer(n1 + |s0|, clock + s0[|s0| - 1].timestamp + LoopGap, Iteration(s0));
      assert pending == q + [last];
      QueuedOkPrefix(q, [last], |q|, last.id);
      CancelLast(q, last.id, last);
      StopLoop();
    }

    /** `playLoop` then `stopLoop` at once: the iteration chain ends, but every press
        timer of the first iteration is still queued and will play its key. */
    method PlayLoopThenStop()
      requires Valid() && SingleLoop() && !looping && sequence != []
      modifies this
      ensures Valid() && SingleLoop() && !looping && Chains(pending) == 0
      ensures forall i :: 0 <= i < |sequence| ==>
        Timer(old(nextId) + i, clock + sequence[i].timestamp, PlayKey(sequence[i].key)) in pending
      ensures nextId == old(nextId) + |sequence| + 1
      ensures pending == old(pending) + EventTimers(old(sequence), old(clock), old(nextId))
      ensures touched == old(touched) && active == old(active) && recording == old(recording)
      ensures start == old(start) && sequence == old(sequence)
      ensures clock == old(clock) && played == old(played)
    {
      ghost var p0, s0, n0 := pending, sequence, nextId;
      IterationPressesQueued(p0, s0, clock, n0);
      PlayLoop();
      ghost var q := p0 + EventTimers(s0, clock, n0);
      ghost var last := Timer(n0 + |s0|, clock + s0[|s0| - 1].timestamp + LoopGap, Iteration(s0));
      assert pending == q + [last];
      QueuedOkPrefix(q, [last], |q|, last.id);
      CancelLast(q, last.id, last);
      StopLoop();
    }
  }
}
