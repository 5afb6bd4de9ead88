/**
 The pause-aware playback state machine of `PausableSkinnableSound`.

 The component wraps a host sound primitive (`SkinnableSound`). It records
 the caller's intent to play, mirrors an external "sample playback disabled"
 flag, and holds at most one deferred start. Every transition is a pure
 function returning the new state together with the calls it issues to the
 wrapped primitive, in order. The scheduler is reduced to one pending slot
 and an explicit `Tick` event; module `HostScheduler` refines that slot into
 a queue of cancellable delegates.
 */
module PausableSkinnableSound {
  import opened Wrappers
  import SampleLength

  /** A call issued to the wrapped primitive: `base.Play(restart)` or `base.Stop()`. */
  datatype BaseCall = BasePlay(restart: bool) | BaseStop

  /**
   State of one component.
   - `looping`: the primitive's `Looping` flag; no transition changes it.
   - `disablerBound`: a disabler source was present at load, so disabled-change
     events reach the handler; without one `disabled` stays `false`.
   - `requestedPlaying`: the caller's last intent (`RequestedPlaying`).
   - `disabled`: the mirrored `SamplePlaybackDisabled` value.
   - `pendingStart`: a deferred start is scheduled and not yet run or cancelled.
   */
  datatype Sound = Sound(
    looping: bool,
    disablerBound: bool,
    requestedPlaying: bool,
    disabled: bool,
    pendingStart: bool)

  /** Result of one transition: the new state and the base calls, in order. */
  datatype Step = Step(sound: Sound, calls: seq<BaseCall>)

  /** The four kinds of event the component reacts to. */
  datatype Event =
    | PlayRequested(restart: bool)
    | StopRequested
    | DisablerSet(value: bool)
    | SchedulerTick

  /** The fixed settings `looping` and `disablerBound` agree. */
  predicate SameSettings(a: Sound, b: Sound) {
    a.looping == b.looping && a.disablerBound == b.disablerBound
  }

  /** The state invariant kept by every transition: a deferred start exists
      only for a looping sound that is requested, bound to a disabler and
      currently enabled; without a disabler the sound is never disabled. */
  predicate Inv(s: Sound) {
    && (s.pendingStart ==> s.requestedPlaying && s.looping && !s.disabled && s.disablerBound)
    && (!s.disablerBound ==> !s.disabled)
  }

  /** True when no call in `calls` is a `BasePlay`. */
  predicate NoBasePlay(calls: seq<BaseCall>) {
    forall i :: 0 <= i < |calls| ==> !calls[i].BasePlay?
  }

  /** The state right after `load`: nothing requested, nothing pending. With a
      disabler source the local flag takes the source's current value (the
      binding happens before the change handler is registered, so the handler
      does not run); without one it keeps its default `false`. */
  function Loaded(looping: bool, disabler: Option<bool>): (r: Sound)
    ensures Inv(r)
    ensures r.looping == looping && r.disablerBound == disabler.Some?
    ensures !r.requestedPlaying && !r.pendingStart
    ensures r.disabled <==> disabler == Some(true)
  {
    match disabler
    case None => Sound(looping, false, false, false, false)
    case Some(v) => Sound(looping, true, false, v, false)
  }

  /** `cancelPendingStart`: cancel and forget any deferred start. */
  function CancelPendingStart(s: Sound): (r: Sound)
    ensures !r.pendingStart
    ensures SameSettings(r, s)
    ensures r.requestedPlaying == s.requestedPlaying && r.disabled == s.disabled
    ensures Inv(s) ==> Inv(r)
  {
    s.(pendingStart := false)
  }

  /** `Play(restart)`: cancel any deferred start, record the intent, and
      forward to the primitive unless playback is disabled. */
  function Play(s: Sound, restart: bool): (r: Step)
    ensures r.sound.requestedPlaying && !r.sound.pendingStart
    ensures SameSettings(r.sound, s) && r.sound.disabled == s.disabled
    ensures s.disabled ==> r.calls == []
    ensures !s.disabled ==> r.calls == [BasePlay(restart)]
    ensures Inv(s) ==> Inv(r.sound)
  {
    var c := CancelPendingStart(s).(requestedPlaying := true);
    if c.disabled then Step(c, []) else Step(c, [BasePlay(restart)])
  }

  /** `Stop()`: cancel any deferred start, drop the intent, and always
      forward the stop to the primitive. */
  function Stop(s: Sound): (r: Step)
    ensures !r.sound.requestedPlaying && !r.sound.pendingStart
    ensures SameSettings(r.sound, s) && r.sound.disabled == s.disabled
    ensures r.calls == [BaseStop]
    ensures Inv(s) ==> Inv(r.sound)
  {
    Step(CancelPendingStart(s).(requestedPlaying := false), [BaseStop])
  }

  /** The change handler registered in `load`, run after the mirrored flag
      has taken `newValue`. Only a requested, looping sound reacts: it is
      stopped on disable and gets a deferred start on enable. */
  function OnDisabledChanged(s: Sound, newValue: bool): (r: Step)
    ensures r.sound.disabled == newValue
    ensures SameSettings(r.sound, s) && r.sound.requestedPlaying == s.requestedPlaying
    ensures !s.requestedPlaying || !s.looping ==>
              r.calls == [] && r.sound.pendingStart == s.pendingStart
    ensures s.requestedPlaying && s.looping && newValue ==>
              r.calls == [BaseStop] && !r.sound.pendingStart
    ensures s.requestedPlaying && s.looping && !newValue ==>
              r.calls == [] && r.sound.pendingStart
  {
    var s1 := s.(disabled := newValue);
    if !s1.requestedPlaying then Step(s1, [])
    else if !s1.looping then Step(s1, [])
    else
      var c := CancelPendingStart(s1);
      if newValue then Step(c, [BaseStop])
      else Step(c.(pendingStart := true), [])
  }

  /** The disabler source sets its value to `v`. The handler runs only when
      a source was bound at load and the value actually changes (a bindable
      does not notify for an unchanged value). */
  function SetDisabler(s: Sound, v: bool): (r: Step)
    ensures !s.disablerBound || v == s.disabled ==> r == Step(s, [])
    ensures s.disablerBound ==> r.sound.disabled == v
    ensures s.disablerBound && v != s.disabled ==> r == OnDisabledChanged(s, v)
    ensures SameSettings(r.sound, s) && r.sound.requestedPlaying == s.requestedPlaying
    ensures Inv(s) ==> Inv(r.sound)
  {
    if !s.disablerBound || v == s.disabled then Step(s, [])
    else OnDisabledChanged(s, v)
  }

  /** The scheduler runs the deferred start, if one is pending: the slot is
      emptied and the primitive is started with the default `restart`
      (`true`) only if playing is still requested. */
  function Tick(s: Sound): (r: Step)
    ensures !r.sound.pendingStart
    ensures SameSettings(r.sound, s)
    ensures r.sound.requestedPlaying == s.requestedPlaying && r.sound.disabled == s.disabled
    ensures !s.pendingStart ==> r.calls == []
    ensures s.pendingStart && s.requestedPlaying ==> r.calls == [BasePlay(true)]
    ensures s.pendingStart && !s.requestedPlaying ==> r.calls == []
    ensures Inv(s) ==> Inv(r.sound)
  {
    if !s.pendingStart then Step(s, [])
    else
      var c := s.(pendingStart := false);
      if c.requestedPlaying then Step(c, [BasePlay(true)]) else Step(c, [])
  }

  /** One event. */
  function Apply(s: Sound, e: Event): (r: Step)
    ensures SameSettings(r.sound, s)
    ensures Inv(s) ==> Inv(r.sound)
    ensures |r.calls| <= 1
  {
    match e
    case PlayRequested(restart) => Play(s, restart)
    case StopRequested => Stop(s)
    case DisablerSet(v) => SetDisabler(s, v)
    case SchedulerTick => Tick(s)
  }

  /** A sequence of events, in order; the base calls are concatenated. */
  function Run(s: Sound, events: seq<Event>): (r: Step)
    ensures SameSettings(r.sound, s)
    ensures Inv(s) ==> Inv(r.sound)
    ensures |r.calls| <= |events|
    decreases |events|
  {
    if |events| == 0 then Step(s, [])
    else
      var first := Apply(s, events[0]);
      var rest := Run(first.sound, events[1..]);
      Step(rest.sound, first.calls + rest.calls)
  }

  /** Every state reachable from load satisfies the invariant; in particular
      there is never a deferred start unless a looping sound is requested
      and enabled. */
  lemma ReachableStatesKeepInv(looping: bool, disabler: Option<bool>, events: seq<Event>)
    ensures Inv(Run(Loaded(looping, disabler), events).sound)
    ensures Run(Loaded(looping, disabler), events).sound.looping == looping
  {
  }

  /** `cancelPendingStart` is idempotent. */
  lemma CancelIsIdempotent(s: Sound)
    ensures CancelPendingStart(CancelPendingStart(s)) == CancelPendingStart(s)
  {
  }

  /** In a reachable state a pending start always fires: the re-check of
      `RequestedPlaying` inside the deferred closure never fails, because
      every change of that flag cancels the pending start first. */
  lemma PendingStartAlwaysPlays(s: Sound)
    requires Inv(s) && s.pendingStart
    ensures Tick(s).calls == [BasePlay(true)]
  {
  }

  /** Only events of the disabler source, no play/stop/tick. */
  predicate OnlyDisablerEvents(events: seq<Event>) {
    forall i :: 0 <= i < |events| ==> events[i].DisablerSet?
  }

  /** Neither a play nor a stop request. */
  predicate NoPlayOrStop(events: seq<Event>) {
    forall i :: 0 <= i < |events| ==> !events[i].PlayRequested? && !events[i].StopRequested?
  }

  /** A non-looping sound is never stopped or restarted by pausing and
      resuming: any sequence of disabler changes issues no base call and
      leaves the intent and the pending slot as they were. */
  lemma {:induction false} NonLoopingIgnoresDisabler(s: Sound, events: seq<Event>)
    requires !s.looping && OnlyDisablerEvents(events)
    ensures Run(s, events).calls == []
    ensures Run(s, events).sound.requestedPlaying == s.requestedPlaying
    ensures Run(s, events).sound.pendingStart == s.pendingStart
    decreases |events|
  {
    if |events| > 0 {
      var first := Apply(s, events[0]);
      assert first.calls == [] && first.sound.pendingStart == s.pendingStart;
      assert OnlyDisablerEvents(events[1..]) by {
        forall i | 0 <= i < |events[1..]| ensures events[1..][i].DisablerSet? {
          assert events[1..][i] == events[i + 1];
        }
      }
      NonLoopingIgnoresDisabler(first.sound, events[1..]);
    }
  }

  /** Likewise, a sound nobody asked to play ignores the disabler: only the
      mirrored flag changes. */
  lemma {:induction false} UnrequestedIgnoresDisabler(s: Sound, events: seq<Event>)
    requires !s.requestedPlaying && OnlyDisablerEvents(events)
    ensures Run(s, events).calls == []
    ensures !Run(s, events).sound.requestedPlaying
    ensures Run(s, events).sound.pendingStart == s.pendingStart
    decreases |events|
  {
    if |events| > 0 {
      var first := Apply(s, events[0]);
      assert first.calls == [] && first.sound.pendingStart == s.pendingStart;
      assert OnlyDisablerEvents(events[1..]) by {
        forall i | 0 <= i < |events[1..]| ensures events[1..][i].DisablerSet? {
          assert events[1..][i] == events[i + 1];
        }
      }
      UnrequestedIgnoresDisabler(first.sound, events[1..]);
    }
  }

  /** After `Stop()`, nothing starts the primitive again until the next
      `Play`: disabler changes and scheduler ticks, however interleaved,
      issue no `BasePlay`, so a deferred start pending at the stop never
      fires. */
  lemma {:induction false} StopSilencesUntilPlay(s: Sound, events: seq<Event>)
    requires NoPlayOrStop(events)
    ensures NoBasePlay(Run(Stop(s).sound, events).calls)
  {
    StoppedStaysSilent(Stop(s).sound, events);
  }

  /** The step of `StopSilencesUntilPlay`: a state with no intent and no
      pending start keeps both under disabler changes and ticks. */
  lemma {:induction false} StoppedStaysSilent(s: Sound, events: seq<Event>)
    requires !s.requestedPlaying && !s.pendingStart && NoPlayOrStop(events)
    ensures NoBasePlay(Run(s, events).calls)
    ensures !Run(s, events).sound.requestedPlaying && !Run(s, events).sound.pendingStart
    decreases |events|
  {
    if |events| > 0 {
      var first := Apply(s, events[0]);
      assert first.calls == [];
      assert NoPlayOrStop(events[1..]) by {
        forall i | 0 <= i < |events[1..]|
          ensures !events[1..][i].PlayRequested? && !events[1..][i].StopRequested?
        {
          assert events[1..][i] == events[i + 1];
        }
      }
      StoppedStaysSilent(first.sound, events[1..]);
      assert Run(s, events).calls == Run(first.sound, events[1..]).calls;
    }
  }

  /** Three events in a row: the state threads through and the base calls
      are concatenated in order. */
  lemma RunOfThree(s: Sound, e0: Event, e1: Event, e2: Event)
    ensures var a := Apply(s, e0); var b := Apply(a.sound, e1); var c := Apply(b.sound, e2);
            Run(s, [e0, e1, e2]) == Step(c.sound, a.calls + b.calls + c.calls)
  {
    var a := Apply(s, e0);
    var b := Apply(a.sound, e1);
    var c := Apply(b.sound, e2);
    var e := [e0, e1, e2];
    assert e[1..][1..][1..] == [];
    assert Run(b.sound, e[1..][1..]) == Step(c.sound, c.calls + []);
    assert Run(a.sound, e[1..]) == Step(c.sound, b.calls + (c.calls + []));
    assert a.calls + (b.calls + (c.calls + [])) == a.calls + b.calls + c.calls;
  }

  /** Pausing and resuming a requested looping sound stops it at once,
      restarts it with the default `restart` on the next tick, and returns
      to the same state with no start pending. */
  lemma PauseThenResume(s: Sound)
    requires Inv(s) && s.disablerBound && s.looping && s.requestedPlaying && !s.disabled
    ensures Run(s, [DisablerSet(true), DisablerSet(false), SchedulerTick]).calls
            == [BaseStop, BasePlay(true)]
    ensures Run(s, [DisablerSet(true), DisablerSet(false), SchedulerTick]).sound
            == s.(pendingStart := false)
  {
    // Each of the three events unfolds to one case of its contract.
  }

  /** A looping sound played while paused records the intent only, and
      starts (with the default `restart`) on the tick after the resume. */
  lemma PlayWhilePausedStartsOnResume(s: Sound, restart: bool)
    requires Inv(s) && s.looping && s.disabled
    ensures Run(s, [PlayRequested(restart), DisablerSet(false), SchedulerTick]).calls
            == [BasePlay(true)]
  {
    var e := [PlayRequested(restart), DisablerSet(false), SchedulerTick];
    RunOfThree(s, e[0], e[1], e[2]);
  }

  /** A non-looping sound played while paused is not started by the resume:
      the intent is recorded but no base call is ever issued for it. */
  lemma PlayWhilePausedNonLoopingStaysSilent(s: Sound, restart: bool)
    requires Inv(s) && !s.looping && s.disabled
    ensures Run(s, [PlayRequested(restart), DisablerSet(false), SchedulerTick]).calls == []
    ensures Run(s, [PlayRequested(restart), DisablerSet(false), SchedulerTick]).sound.requestedPlaying
  {
    var e := [PlayRequested(restart), DisablerSet(false), SchedulerTick];
    RunOfThree(s, e[0], e[1], e[2]);
  }

  /** A looping sound of two layered sub-samples lasting 100 and 250: its
      length is 250; played while enabled it starts once; a pause stops it
      while the intent stays; the resume starts it again on the next tick. */
  lemma LayeredLoopScenario()
    ensures SampleLength.Length([100.0, 250.0]) == 250.0
    ensures Run(Loaded(true, Some(false)), [PlayRequested(true), DisablerSet(true)]).sound.requestedPlaying
    ensures Run(Loaded(true, Some(false)),
                [PlayRequested(true), DisablerSet(true), DisablerSet(false), SchedulerTick]).calls
            == [BasePlay(true), BaseStop, BasePlay(true)]
  {
    // Follows by unfolding the four events from the loaded state.
  }
}
