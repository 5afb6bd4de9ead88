# PausableSkinnableSound — a Dafny model

osu!'s `PausableSkinnableSound` is a skinnable sound that pauses with gameplay.
It wraps the `SkinnableSound` primitive. It remembers whether its caller wants it
to play (`RequestedPlaying`) and mirrors the gameplay "sample playback disabled"
flag. When that flag changes, it stops a looping sound, or restarts it on the
next scheduler tick. Sounds that do not loop are allowed to play out.

The model has four modules:

- `SampleLength` (`sample_length.dfy`): the derived `Length`. It is the longest
  duration among the realised sub-samples, or 0 when there are none. It is proved
  to be the unique attained upper bound, and to be independent of sub-sample order.
- `PausableSkinnableSound` (`pausable_sound.dfy`): the state machine.
  - The state is an immutable record `Sound`. `looping` and `disablerBound` are
    fixed settings. `requestedPlaying`, `disabled` and `pendingStart` change.
  - Each event is a pure function. It returns the new state and the calls it
    issues to the wrapped primitive (`BasePlay(restart)`, `BaseStop`).
  - The events are `Play`, `Stop`, a value set by the disabler source, and a
    scheduler `Tick`.
  - The scheduler is one pending slot.
  - The proofs cover:
    - the invariant kept from load onwards;
    - the promises of each operation;
    - multi-event behaviour, such as a non-looping sound ignoring pause and
      resume, or `Stop` silencing a pending start.
- `HostScheduler` (`host_scheduler.dfy`): the same component at the level of the
  host scheduler.
  - The component holds a handle to its last scheduled delegate.
  - The scheduler holds a queue of delegates that may be cancelled.
  - It is proved that at most one delegate is ever live. It is also proved that
    this level issues exactly the base calls of the one-slot machine, for every
    event sequence.
  - A concrete lemma shows what would go wrong without the cancel before each
    schedule: two live delegates, and two starts on one tick.
- `Wrappers` (`wrappers.dfy`): `Option`, which stands for the nullable disabler
  source and the nullable `scheduledStart` handle.

Boundaries of the model:

- Audio output is the sequence of emitted base calls. The base class is a sink.
- The presence of a disabler source is a parameter of `Loaded`. Without one,
  `disabled` stays `false` and disabler events are ignored.
- The disabler handler runs only when a source is bound and its value actually
  changes. This is how a bindable notifies.
- At load, the local flag takes the source's current value without running the
  handler. The binding is made before the handler is registered.
- Delegates are not nulled after they run, just as in the source, where
  `scheduledStart` keeps pointing at a finished delegate. Cancelling that
  delegate later has no effect, and the model shows the same.

The comment at line 52 and the guard at line 53 agree: a sound that does not
loop returns early from the handler, so only looping sounds are stopped on
pause and restarted on resume. One consequence is easy to miss: a non-looping
sound that is played while paused is never started by the resume. The intent
is recorded, but no base call follows (`PlayWhilePausedNonLoopingStaysSilent`).

## Model

| member | source | states |
|---|---|---|
| SampleLength.MaxLength | osu.Game/Skinning/PausableSkinnableSound.cs:17 | the maximum of non-empty durations is at least every duration and equal to one of them |
| SampleLength.Length | osu.Game/Skinning/PausableSkinnableSound.cs:17 | `Length` is 0 with no sub-samples, otherwise an upper bound of all sub-sample lengths attained by one of them |
| SampleLength.MaxIsUnique | osu.Game/Skinning/PausableSkinnableSound.cs:17 | any attained upper bound of the lengths equals `Length`, so `Length` is exactly the maximum |
| SampleLength.LengthIsOrderIndependent | osu.Game/Skinning/PausableSkinnableSound.cs:17 | rearranging the sub-samples does not change `Length` |
| PausableSkinnableSound.Loaded | osu.Game/Skinning/PausableSkinnableSound.cs:41-48 | after load nothing is requested or pending, the invariant holds, and the sound is disabled only if a bound source reports disabled |
| PausableSkinnableSound.CancelPendingStart | osu.Game/Skinning/PausableSkinnableSound.cs:90-94 | afterwards no start is pending and intent, disabled flag and settings are unchanged |
| PausableSkinnableSound.CancelIsIdempotent | osu.Game/Skinning/PausableSkinnableSound.cs:90-94 | cancelling twice is the same as cancelling once |
| PausableSkinnableSound.Play | osu.Game/Skinning/PausableSkinnableSound.cs:72-81 | intent becomes true and nothing is pending; when disabled no base call is issued, otherwise exactly one `BasePlay` with the caller's restart flag |
| PausableSkinnableSound.Stop | osu.Game/Skinning/PausableSkinnableSound.cs:83-88 | intent becomes false and nothing is pending; exactly one `BaseStop` whatever the disabled state |
| PausableSkinnableSound.OnDisabledChanged | osu.Game/Skinning/PausableSkinnableSound.cs:48-68 | the flag takes the new value and intent never changes; unrequested or non-looping sounds issue nothing and keep any pending start; a requested looping sound is stopped with the pending start cancelled on disable, and gets exactly one pending start with no immediate call on enable |
| PausableSkinnableSound.SetDisabler | osu.Game/Skinning/PausableSkinnableSound.cs:45-48 | without a bound source, or with an unchanged value, nothing happens; with a bound source the mirrored flag takes the value, and an actual change runs the change handler (same state and base calls); the invariant is kept |
| PausableSkinnableSound.Tick | osu.Game/Skinning/PausableSkinnableSound.cs:62-66 | the slot is emptied; a pending start issues `BasePlay(true)` only while playing is still requested; with nothing pending nothing is issued |
| PausableSkinnableSound.Apply | osu.Game/Skinning/PausableSkinnableSound.cs:48-94 | every event keeps the settings and the invariant, and issues at most one base call |
| PausableSkinnableSound.Run | osu.Game/Skinning/PausableSkinnableSound.cs:48-94 | any event sequence keeps the settings and the invariant, and issues at most one base call per event |
| PausableSkinnableSound.ReachableStatesKeepInv | osu.Game/Skinning/PausableSkinnableSound.cs:50-94 | every state reachable from load satisfies the invariant (a pending start implies requested, looping, enabled) |
| PausableSkinnableSound.PendingStartAlwaysPlays | osu.Game/Skinning/PausableSkinnableSound.cs:62-66 | in an invariant state a pending start always fires: the re-check of `RequestedPlaying` never suppresses it |
| PausableSkinnableSound.NonLoopingIgnoresDisabler | osu.Game/Skinning/PausableSkinnableSound.cs:52-53 | for a non-looping sound any series of disabler changes issues no base call and keeps intent and pending slot |
| PausableSkinnableSound.UnrequestedIgnoresDisabler | osu.Game/Skinning/PausableSkinnableSound.cs:50 | for a sound not requested to play any series of disabler changes issues no base call and keeps the pending slot |
| PausableSkinnableSound.StoppedStaysSilent | osu.Game/Skinning/PausableSkinnableSound.cs:62-66 | with no intent and nothing pending, disabler changes and ticks issue no `BasePlay` and keep both |
| PausableSkinnableSound.StopSilencesUntilPlay | osu.Game/Skinning/PausableSkinnableSound.cs:83-94 | after `Stop`, no disabler change or tick starts the primitive before the next `Play`; a start pending at the stop never fires |
| PausableSkinnableSound.PauseThenResume | osu.Game/Skinning/PausableSkinnableSound.cs:55-67 | pause, resume and tick on a requested looping sound issue `BaseStop` then `BasePlay(true)` and return to the same state with no start pending |
| PausableSkinnableSound.PlayWhilePausedStartsOnResume | osu.Game/Skinning/PausableSkinnableSound.cs:55-78 | a looping sound played while paused starts, with the default restart, on the tick after the resume |
| PausableSkinnableSound.PlayWhilePausedNonLoopingStaysSilent | osu.Game/Skinning/PausableSkinnableSound.cs:50-78 | a non-looping sound played while paused records the intent but is never started by the resume |
| PausableSkinnableSound.LayeredLoopScenario | osu.Game/Skinning/PausableSkinnableSound.cs:17-88 | two sub-samples of 100 and 250 give length 250; play, pause, resume and tick issue `BasePlay(true)`, `BaseStop`, `BasePlay(true)` and the pause keeps the intent |
| HostScheduler.Loaded | osu.Game/Skinning/PausableSkinnableSound.cs:39-48 | the host state after load satisfies the host invariant and looks like the one-slot state after load |
| HostScheduler.CancelDelegate | osu.Game/Skinning/PausableSkinnableSound.cs:92 | cancelling a handle marks exactly the delegates with that handle cancelled, leaving the rest as they were |
| HostScheduler.CancelPendingStart | osu.Game/Skinning/PausableSkinnableSound.cs:90-94 | the handle is cleared and, under the host invariant, no delegate stays live |
| HostScheduler.Schedule | osu.Game/Skinning/PausableSkinnableSound.cs:62-66 | the earlier delegates stay queued unchanged and one live delegate is appended, with the handle referring to it; scheduled after a cancel it is the only live one |
| HostScheduler.Play | osu.Game/Skinning/PausableSkinnableSound.cs:72-81 | keeps the host invariant and matches the one-slot `Play` in state and base calls |
| HostScheduler.Stop | osu.Game/Skinning/PausableSkinnableSound.cs:83-88 | keeps the host invariant and matches the one-slot `Stop` in state and base calls |
| HostScheduler.OnDisabledChanged | osu.Game/Skinning/PausableSkinnableSound.cs:48-68 | keeps the host invariant (cancel before schedule) and matches the one-slot handler |
| HostScheduler.SetDisabler | osu.Game/Skinning/PausableSkinnableSound.cs:45-48 | keeps the host invariant and matches the one-slot disabler event |
| HostScheduler.RunQueue | osu.Game/Skinning/PausableSkinnableSound.cs:62-66 | running the queue issues one `BasePlay(true)` per live delegate when playing is requested and nothing otherwise; so nothing without a live delegate or intent, and exactly one `BasePlay(true)` when one delegate is live and playing is requested |
| HostScheduler.Tick | osu.Game/Skinning/PausableSkinnableSound.cs:62-66 | the queue is emptied, and the state and base calls match the one-slot `Tick` |
| HostScheduler.Apply | osu.Game/Skinning/PausableSkinnableSound.cs:48-94 | every event keeps the host invariant and refines the one-slot event |
| HostScheduler.Run | osu.Game/Skinning/PausableSkinnableSound.cs:48-94 | any event sequence keeps the host invariant and issues exactly the base calls of the one-slot machine |
| HostScheduler.AtMostOneDeferredStart | osu.Game/Skinning/PausableSkinnableSound.cs:55-94 | from load, never more than one live deferred start, and the base calls equal the one-slot machine's |
| HostScheduler.ScheduleWithoutCancelDoublesStart | osu.Game/Skinning/PausableSkinnableSound.cs:55-62 | scheduling twice without a cancel leaves two live delegates whose tick starts the primitive twice |

## Left out

- Audio playback, mixing and sample loading, and the internals of `SkinnableSound`. These are foreign code. They appear only as the emitted `BasePlay` / `BaseStop` calls.
- The `Looping` flag is a fixed setting. Nothing in this component changes it.
- Bindable binding mechanics and dependency injection (lines 41-48). They appear only as the disabler events delivered to the handler, plus the optional source at load.
- Scheduler timing and scene-graph liveness. These belong to the host. A tick is an explicit event that runs every queued delegate.
- Calls to `Play` or `Stop` made before `load`. The model starts from the loaded state.
- `Length` uses real numbers rather than `double`. NaN, infinities and rounding are not modelled, and neither is how descriptors expand into sub-samples. The sub-sample durations are an input.
- The three constructors (lines 25-37). They only pass the samples to the base class.
- The read-only `SamplePlaybackDisabled` view (line 21). It is the `disabled` field of the state.
