# Virtual piano key pipeline

A Dafny model of the key trigger pipeline of the `VirtualPiano` component of
virtual-stem-buddy. For each detection frame, the 8 rectangular keys on the lower
part of the camera frame are tested against the index and middle fingertips of
every detected hand. A key plays once when it is entered and again only after it
has been released. While recording, each key that plays is appended with its time
since recording started. The recording can be replayed as a loop that
reschedules itself through `setTimeout`.

The model consists of these modules:

- `KeyZones` (keys.dfy): the key table and the collision test, on reals.
- `TouchScan` (touch.dfy): the per-frame scan, with `currentlyTouched` kept in the
  insertion order of a JavaScript `Set`, and the set of keys that fire.
- `Recorder` (recorder.dfy): recorded presses and what makes a recording well formed.
- `Timers` (timers.dfy):
  - a virtual `setTimeout` queue;
  - the timers one loop iteration schedules;
  - `clearTimeout`;
  - the choice of the timer that runs next.
- `Piano` (piano.dfy): the class `VirtualPiano`.
  - It holds the component's mutable state: `touchedKeys`, `activeKeys`, the
    recording flag and start, the recorded sequence, the loop flag and handle,
    the pending timers, a virtual clock, and the log of keys handed to `onKeyPlay`.
  - The component's operations are methods on it. Each public operation keeps the
    object invariant `Valid()`, and every method states its whole new state. `PlaySequence`
    and its two queuing steps, `SetTimeout` and `SchedulePresses`, start from the part
    `Core()` of it only. Inside a firing iteration the stored handle still names the
    timer that has just left the queue. `PlaySequence` stores the new handle and so
    restores `Valid()`.
- `Wrappers` (wrappers.dfy): `Option`.

The object invariant says:

- held and highlighted keys are table keys;
- the recording is well formed, and while recording no press lies in the future;
- pending timers are in creation order with unique handles;
- the stored loop handle is always that of a live loop chain.

A *loop chain* is the succession of iteration timers that a single `playLoop` starts.
Each iteration timer, when it fires, queues the next one. `Chains` counts the
iteration timers pending, that is, the chains still alive.

## Model

| member | source | states |
|---|---|---|
| KeyZones.KeyTable | src/components/VirtualPiano.tsx:15-24 | the table covers: <br>- exactly 8 keys; <br>- key k spans 10+10k to 20+10k percent across and 60 to 90 percent down; <br>- every key lies inside 0..100; <br>- key k's label is "Key k+1"; <br>- each key's right edge is its right neighbour's left edge |
| KeyZones.InZoneBand | src/components/VirtualPiano.tsx:15-24 | a normalised point lies in key k's rectangle exactly when x is in [0.1+0.1k, 0.2+0.1k] and y is in [0.6, 0.9] |
| KeyZones.CanvasWidth | src/components/VirtualPiano.tsx:42 | the width used for key bounds is never zero: a missing canvas or a zero width falls back to 1280 |
| KeyZones.CanvasHeight | src/components/VirtualPiano.tsx:43 | the height used for key bounds is never zero: the fallback is 720 |
| KeyZones.KeyBoundsInPixels | src/components/VirtualPiano.tsx:45-50 | on a canvas with both sides non-zero, the collision test is closed-rectangle inclusion in key k's pixel rectangle |
| KeyZones.CollisionIsZoneMembership | src/components/VirtualPiano.tsx:40-51 | a landmark scaled to pixels collides with key k exactly when the landmark lies in key k's rectangle of the frame (both directions) |
| KeyZones.DefaultCanvasExample | src/components/VirtualPiano.tsx:40-51 | key 0 on 1280x720 spans [128, 256] x [432, 648]; (0.15, 0.70) maps to (192, 504) and hits key 0, and hits it as well when the canvas is missing; it misses key 1 |
| KeyZones.SharedEdge | src/components/VirtualPiano.tsx:50 | a point exactly on the boundary between keys k and k+1, at a height inside the keys, touches both |
| KeyZones.ZeroWidthCanvasTouchesNothing | src/components/VirtualPiano.tsx:42 | the frame scales landmarks by the raw canvas width but the bounds fall back to 1280, so a zero-width canvas touches no key |
| TouchScan.ScanTip | src/components/VirtualPiano.tsx:84-91 | the inner loop adds to `currentlyTouched`, in key order, every key the fingertip hits at its pixel position |
| TouchScan.ScanHand | src/components/VirtualPiano.tsx:80-92 | the index fingertip (landmark 8) is scanned, then the middle fingertip (landmark 12) |
| TouchScan.CollectTouched | src/components/VirtualPiano.tsx:76-94 | the scan yields `currentlyTouched` in Set insertion order, with no duplicates, holding exactly the keys hit by landmark 8 or 12 of some hand |
| TouchScan.KeysHitContents | src/components/VirtualPiano.tsx:87-91 | a key is among a fingertip's hits exactly when the collision test says so |
| TouchScan.TipsHitsContents | src/components/VirtualPiano.tsx:83-92 | a key is hit by a list of fingertips exactly when one of them touches it |
| TouchScan.AllHitsContents | src/components/VirtualPiano.tsx:78-94 | the hits of a frame are exactly the keys touched by the index or middle fingertip of some hand |
| TouchScan.InsertAllContents | src/components/VirtualPiano.tsx:89 | adding keys to a Set in turn: <br>- keeps it duplicate-free; <br>- keeps the old elements first and in order; <br>- adds exactly the new keys |
| TouchScan.InsertAllAppend | src/components/VirtualPiano.tsx:79-93 | adding two lists of keys in a row is adding their concatenation, the step that composes the nested loops |
| TouchScan.ScanOrderContents | src/components/VirtualPiano.tsx:76-94 | the frame's touched set is duplicate-free and equals the reference definition `Touches` |
| TouchScan.ScanOrderKeys | src/components/VirtualPiano.tsx:87-89 | every key of the scan is a table key |
| TouchScan.NoHandsNoTouch | src/components/VirtualPiano.tsx:76-78 | a frame with no hands touches no key |
| TouchScan.FiredKeysToContents | src/components/VirtualPiano.tsx:100-102 | among the first n scanned keys: <br>- a key fires exactly when it was scanned and was not held; <br>- no key fires twice when the scan is duplicate-free; <br>- at most n keys fire |
| TouchScan.FiredKeysContents | src/components/VirtualPiano.tsx:53-57 | `onKeyPlay` is called exactly for the touched keys not already held, each once per frame; their scan order comes from the definition `FiredKeys` |
| TouchScan.HeldAfterFrame | src/components/VirtualPiano.tsx:105-113 | the held keys plus the fired ones, cut down to the touched ones, are exactly the touched keys |
| TouchScan.FiredKeysToNone | src/components/VirtualPiano.tsx:53-57 | among the first n scanned keys none fires when all of them are held |
| TouchScan.RepeatedScanFiresNothing | src/components/VirtualPiano.tsx:53-57 | scanning the same keys again while exactly those keys are held fires none of them |
| TouchScan.HeldKeyNeverRefires | src/components/VirtualPiano.tsx:53-57 | a key touched in two consecutive frames does not fire in the second; one released and touched again does |
| Recorder.PressesOkMeans | src/components/VirtualPiano.tsx:59-62 | the recursive well-formedness of a prefix is its pointwise reading: table keys, non-negative timestamps, non-decreasing order |
| Recorder.WellFormedMeans | src/components/VirtualPiano.tsx:59-62 | a well-formed recording is exactly one of table keys with non-negative, non-decreasing timestamps |
| Recorder.PressesOkPrefix | src/components/VirtualPiano.tsx:61 | presses already recorded stay well formed whatever is appended |
| Recorder.AppendPress | src/components/VirtualPiano.tsx:60-61 | appending a press no earlier than the latest keeps the recording well formed and makes it the latest |
| Recorder.Stamp | src/components/VirtualPiano.tsx:60-61 | the presses appended in one frame, one per fired key, in order |
| Recorder.StampKeepsWellFormed | src/components/VirtualPiano.tsx:59-62 | the presses of a frame at a time no earlier than the latest keep the recording well formed |
| Timers.QueuedOkWeaken | src/components/VirtualPiano.tsx:189 | a queue in order below one bound is in order below any larger bound |
| Timers.QueuedOkPrefix | src/components/VirtualPiano.tsx:189 | timers already queued stay in order whatever is queued after them |
| Timers.QueuedOkMeans | src/components/VirtualPiano.tsx:189 | pending handles are below the next handle and strictly increasing in queue order |
| Timers.ChainInMeans | src/components/VirtualPiano.tsx:195 | the recursive chain test is "an iteration timer with that handle is among the first n" |
| Timers.IsChainMeans | src/components/VirtualPiano.tsx:195 | a handle is a live chain's exactly when an iteration timer with it is pending |
| Timers.ChainsInZero | src/components/VirtualPiano.tsx:195 | none of the first n timers is an iteration exactly when the count is zero |
| Timers.NoChainsOnlyPresses | src/components/VirtualPiano.tsx:189-195 | no chain is live exactly when every pending timer only plays a key |
| Timers.NoChainAbove | src/components/VirtualPiano.tsx:189 | no chain has a handle not yet handed out |
| Timers.ChainsPrefix | src/components/VirtualPiano.tsx:195 | appending timers does not change the chains among those already queued |
| Timers.ChainsSnoc | src/components/VirtualPiano.tsx:195 | queuing a timer adds a chain exactly when it is an iteration |
| Timers.TimersOkMembers | src/components/VirtualPiano.tsx:189 | every pending timer has a handle below the next one and a well-formed callback |
| Timers.HandlesUnique | src/components/VirtualPiano.tsx:189 | a handle identifies one pending timer |
| Timers.PressIsNoChain | src/components/VirtualPiano.tsx:189-191 | a press timer's handle is no chain's |
| Timers.IterationIsChain | src/components/VirtualPiano.tsx:195 | a pending iteration timer is a live chain |
| Timers.AppendTimer | src/components/VirtualPiano.tsx:189 | `setTimeout` with a fresh larger handle keeps the queue in order |
| Timers.EventTimers | src/components/VirtualPiano.tsx:188-192 | one press timer per recorded press |
| Timers.EventTimersStep | src/components/VirtualPiano.tsx:188-192 | scheduling press i extends the timers of the earlier presses by press i's timer |
| Timers.IterationSchedule | src/components/VirtualPiano.tsx:187-196 | one iteration: <br>- plays press i at its recorded offset, in order; <br>- then schedules the next iteration at the last timestamp + 200, the only timer that continues the chain |
| Timers.IterationPressesQueued | src/components/VirtualPiano.tsx:188-192 | each press of an iteration is queued with its handle, due time and key, behind the timers already pending |
| Timers.PressesKeepChains | src/components/VirtualPiano.tsx:188-192 | press timers add no chain |
| Timers.IterationChains | src/components/VirtualPiano.tsx:194-195 | an iteration adds exactly one chain, with a handle not live before, and keeps every other chain |
| Timers.LoopExample | src/components/VirtualPiano.tsx:194 | presses of keys a, b and c at 0, 300 and 700 ms play those keys at those offsets, and the next iteration starts at 900 |
| Timers.KeptFresh | src/components/VirtualPiano.tsx:204 | clearing a handle that none of the first n timers has keeps them all |
| Timers.CancelLast | src/components/VirtualPiano.tsx:203-206 | clearing the handle of the timer just queued under a fresh handle gives back the queue before it |
| Timers.KeptMembers | src/components/VirtualPiano.tsx:204 | the prefix without handle h holds exactly the prefix's other timers |
| Timers.KeptInOrder | src/components/VirtualPiano.tsx:204 | removing a timer keeps the queue in order |
| Timers.CancelMembers | src/components/VirtualPiano.tsx:204 | `clearTimeout(h)` removes exactly the timer with handle h |
| Timers.KeptChains | src/components/VirtualPiano.tsx:204 | removing handle h ends h's chain and only that one |
| Timers.CancelEffect | src/components/VirtualPiano.tsx:203-206 | clearing a handle keeps the queue in order and every other timer; it ends exactly that chain (the count drops by one when it is a chain) and keeps every press timer |
| Timers.IsNextUnique | src/components/VirtualPiano.tsx:189-195 | at most one timer is the next to run |
| Timers.FindNext | src/components/VirtualPiano.tsx:189-195 | returns `None` exactly when no timer is due; otherwise the index of the earliest due timer, ties going to the one queued first |
| Piano.VirtualPiano.constructor | src/components/VirtualPiano.tsx:30-38 | the component starts with nothing held, not recording, an empty recording, not looping, no handle and no timers |
| Piano.VirtualPiano.Tick | src/components/VirtualPiano.tsx:60 | the clock read by `Date.now()` only moves forward, and the invariant holds |
| Piano.VirtualPiano.Record | src/components/VirtualPiano.tsx:59-62 | while recording, one `{key, now - start}` is appended; otherwise nothing changes |
| Piano.VirtualPiano.TriggerKey | src/components/VirtualPiano.tsx:53-64 | a touched key that is not held: <br>- is played once; <br>- becomes held; <br>- is recorded while recording. <br>In every other case nothing changes, and no cooldown is modelled |
| Piano.VirtualPiano.TriggerAll | src/components/VirtualPiano.tsx:100-102 | `triggerKey(k, true)` for every touched key, all against the frame's `touchedKeys`: <br>- the fired keys are played and held; <br>- they are recorded with one shared timestamp while recording |
| Piano.VirtualPiano.ReleaseUntouched | src/components/VirtualPiano.tsx:105-113 | the held keys not touched now are deleted, and only those |
| Piano.VirtualPiano.Frame | src/components/VirtualPiano.tsx:66-113 | with no detection result or no canvas, nothing changes. Otherwise: <br>- held and active keys become the frame's touched set; <br>- the keys not held before play in scan order and are recorded while recording; <br>- loop state, timers and clock are untouched |
| Piano.VirtualPiano.FrameTwice | src/components/VirtualPiano.tsx:66-170 | the effect runs again on the same hands, because the `activeKeys` it sets is among its dependencies; the state after both runs is the state after the first, so the second plays and records nothing |
| Piano.VirtualPiano.ScanFrame | src/components/VirtualPiano.tsx:76-113 | the frame body: scan, trigger and release, with the resulting state as above |
| Piano.VirtualPiano.StartRecording | src/components/VirtualPiano.tsx:172-176 | the recording becomes empty, its start becomes now, and recording is on |
| Piano.VirtualPiano.StopRecording | src/components/VirtualPiano.tsx:178-180 | recording is off and the recorded sequence is kept unchanged |
| Piano.VirtualPiano.SetTimeout | src/components/VirtualPiano.tsx:189-191 | one timer is queued, due `delay` from now, under a fresh handle |
| Piano.VirtualPiano.SchedulePresses | src/components/VirtualPiano.tsx:188-192 | one press timer is queued per recorded press, at its offset from now |
| Piano.VirtualPiano.PlaySequence | src/components/VirtualPiano.tsx:187-196 | the iteration's timers are queued. The stored handle becomes the next iteration's, which is a new chain, and the chain count rises by one |
| Piano.VirtualPiano.PlayLoop | src/components/VirtualPiano.tsx:182-199 | an empty recording changes nothing. Otherwise: <br>- looping is on; <br>- the first iteration is queued; <br>- one more chain is live, with no guard against a loop already running |
| Piano.VirtualPiano.StopLoop | src/components/VirtualPiano.tsx:201-207 | looping is off and the handle is cleared: <br>- only the stored chain is cancelled, so the count drops by one; <br>- every queued press timer still fires; <br>- a second call finds no handle and changes nothing; <br>- under the button guard, no chain is left |
| Piano.VirtualPiano.FirePress | src/components/VirtualPiano.tsx:189-191 | a press timer leaves the queue and plays its key |
| Piano.VirtualPiano.FireIteration | src/components/VirtualPiano.tsx:195 | an iteration timer leaves the queue and the next iteration over its snapshot is queued; the chain count is unchanged |
| Piano.VirtualPiano.FireNext | src/components/VirtualPiano.tsx:189-195 | the next due timer runs. The chain count is unchanged, with no chain no iteration starts, and the single-loop situation is kept |
| Piano.VirtualPiano.PlayLoopTwiceThenStop | src/components/VirtualPiano.tsx:182-207 | two `playLoop`s then a `stopLoop` leave one chain alive while the piano reports it is not looping; the queue is the old one plus the first iteration and the second's press timers, two iterations' handles were used and nothing else changes |
| Piano.VirtualPiano.PlayLoopThenStop | src/components/VirtualPiano.tsx:201-207 | after `playLoop` and then `stopLoop`, each press timer of the first iteration is still queued: the queue is the old one plus those press timers, one iteration's handles were used and nothing else changes |

Some functions have no row of their own because they only compute, and the lemmas
that state what they compute are cited instead:

- `KeyZones.CheckKeyCollision` (src/components/VirtualPiano.tsx:40-51):
  `KeyBoundsInPixels` and `CollisionIsZoneMembership`.
- `TouchScan.PixelX` and `TouchScan.PixelY`, the scaling of a landmark to pixels
  (lines 84-85): `CollisionIsZoneMembership` and `ZeroWidthCanvasTouchesNothing`,
  through `TipTouches`.
- `TouchScan.Insert`, the `Set.add` at line 89: `InsertAllContents`.
- `Timers.IterationTimers`, the timers one call of `playSequence` queues (lines
  187-196): `IterationSchedule` and `IterationChains`.
- `Timers.Cancel`, `clearTimeout` (line 204): `CancelMembers` and `CancelEffect`.

Three behaviours of the code are easy to miss:

- There is no cooldown and no "roll" retrigger. A held key never plays again until it
  is released. `lastTriggerRef` (src/components/VirtualPiano.tsx:32) is declared but
  never used.
- `stopLoop` clears only the stored iteration timer. Press timers already queued by
  the current iteration still play, and so does a chain whose handle was overwritten.
  Nothing cancels those press timers.
- `playLoop` has no guard against a loop already running. Only the buttons hide it
  (src/components/VirtualPiano.tsx:253). A second call starts a second chain beside
  the first. `SingleLoop()` states what the guard keeps: at most one chain, live
  exactly while looping. `PlayLoopTwiceThenStop` shows what breaks without the guard.

## Left out

- Drawing the keys and fingertip dots (src/components/VirtualPiano.tsx:115-169) and the JSX with its buttons (lines 209-280): rendering only. The 2D drawing context is taken to exist, so the early return when `getContext('2d')` gives none (lines 70-71) is not modelled; only the drawing uses that context. The button guard at line 253 is stated as `SingleLoop()` instead.
- `activeKeys` is read by the drawing only, so the model just stores it. Every run of the frame effect stores a fresh `Set` in `activeKeys` (line 97) and in `touchedKeys` (lines 105-113), which changes `triggerKey` through its dependencies (line 64). Both are dependencies of the effect (line 170), so every run schedules another on the same hands until the next detection; `startRecording` and `stopRecording` re-run it too, through `isRecording`. `FrameTwice` shows that a run from the state a run leaves changes nothing, so every further run changes nothing, and the model treats a frame as one run.
- Hand detection (src/hooks/useHandDetection.tsx), the camera and the animation loop: external I/O. A frame's input is an optional list of hands of landmarks, plus an optional canvas.
- Landmark depth and the other 19 landmarks: the scan reads only the x and y of landmarks 8 and 12. Hands with fewer than 13 landmarks are excluded by the precondition `WellFormedHands`, because the source would read `undefined` there and fail.
- Audio playback (src/hooks/useAudioPlayer.tsx, src/components/AudioControls.tsx, src/pages/VirtualStemPlayer.tsx): `onKeyPlay` is an append to the `played` log.
- Floating point: coordinates and key bounds are exact reals.
- React scheduling: state updates are applied at once and a frame is one atomic step. `triggerKey` tests the `touchedKeys` of the frame start, as its closure does. Because the keys scanned in a frame are distinct, this gives the same result as testing the growing set.
- Real time: `Date.now()` is the virtual clock `clock`, which only `Tick` advances. A timer runs when `FireNext` is called with its due time reached, without elapsed-time drift.
- `PlayLoop` marks the loop active after the first iteration is queued rather than before. No callback can run in between, so the order cannot be observed.
- `Timers.FindNext`: runs due timers earliest due first, ties in creation order. This is the browser's timer order. The source does not state it.
