/**
 The deferred start of `PausableSkinnableSound` as the host actually runs it.

 Here the component holds the handle `scheduledStart` of the last delegate it
 scheduled, and the host scheduler holds a queue of delegates, each of which
 may have been cancelled. `cancelPendingStart` cancels the delegate the handle
 refers to and forgets the handle; the handler schedules a fresh delegate
 after cancelling. A scheduler tick runs every queued delegate that was not
 cancelled. This module proves that at most one delegate is ever live and
 that the component, observed through its base calls, behaves exactly as the
 one-slot machine of module `PausableSkinnableSound`.
 */
module HostScheduler {
  import opened Wrappers
  import P = PausableSkinnableSound

  /** A scheduled delegate: the identity of its handle, and whether it was cancelled. */
  datatype Delegate = Delegate(id: nat, cancelled: bool)

  /**
   The component together with the host's scheduler queue.
   `scheduledStart` is the component's handle field; `nextId` supplies the
   identity of the next delegate the scheduler creates.
   */
  datatype Host = Host(
    looping: bool,
    disablerBound: bool,
    requestedPlaying: bool,
    disabled: bool,
    scheduledStart: Option<nat>,
    queue: seq<Delegate>,
    nextId: nat)

  /** Result of one transition: the new host state and the base calls, in order. */
  datatype HostStep = HostStep(host: Host, calls: seq<P.BaseCall>)

  /** Some queued delegate has not been cancelled. */
  predicate HasLive(q: seq<Delegate>) {
    exists i :: 0 <= i < |q| && !q[i].cancelled
  }

  /** No two distinct queued delegates are both live. */
  predicate AtMostOneLive(q: seq<Delegate>) {
    forall i, j :: 0 <= i < |q| && 0 <= j < |q| && !q[i].cancelled && !q[j].cancelled ==> i == j
  }

  /** The number of queued delegates that have not been cancelled. */
  function CountLive(q: seq<Delegate>): nat
    decreases |q|
  {
    if |q| == 0 then 0 else (if q[0].cancelled then 0 else 1) + CountLive(q[1..])
  }

  /** At most one live delegate, and the component's handle refers to it. */
  predicate HostInv(h: Host) {
    && AtMostOneLive(h.queue)
    && (forall i :: 0 <= i < |h.queue| && !h.queue[i].cancelled ==>
          h.scheduledStart == Some(h.queue[i].id))
  }

  /** The one-slot view: a start is pending exactly when a live delegate is queued. */
  function Abs(h: Host): P.Sound {
    P.Sound(h.looping, h.disablerBound, h.requestedPlaying, h.disabled, HasLive(h.queue))
  }

  /** The state right after `load`, with an empty scheduler queue. */
  function Loaded(looping: bool, disabler: Option<bool>): (r: Host)
    ensures HostInv(r)
    ensures Abs(r) == P.Loaded(looping, disabler)
  {
    Host(looping, disabler.Some?, false, disabler == Some(true), None, [], 0)
  }

  /** `ScheduledDelegate.Cancel()` on the delegate whose handle is `id`. */
  function CancelDelegate(q: seq<Delegate>, id: nat): (r: seq<Delegate>)
    ensures |r| == |q|
    ensures forall i :: 0 <= i < |q| ==>
              r[i].id == q[i].id && (r[i].cancelled <==> q[i].cancelled || q[i].id == id)
  {
    seq(|q|, i requires 0 <= i < |q| => if q[i].id == id then q[i].(cancelled := true) else q[i])
  }

  /** `cancelPendingStart`: cancel the delegate behind the handle, if any,
      and clear the handle. Afterwards no delegate is live. */
  function CancelPendingStart(h: Host): (r: Host)
    ensures r.scheduledStart == None
    ensures HostInv(h) ==> HostInv(r) && !HasLive(r.queue)
    ensures Abs(r) == Abs(h).(pendingStart := HasLive(r.queue))
  {
    match h.scheduledStart
    case None => h
    case Some(id) => h.(queue := CancelDelegate(h.queue, id), scheduledStart := None)
  }

  /** `Schedule(...)`: queue a fresh live delegate and keep its handle. */
  function Schedule(h: Host): (r: Host)
    ensures |r.queue| == |h.queue| + 1 && r.queue[..|h.queue|] == h.queue
    ensures !r.queue[|h.queue|].cancelled && r.scheduledStart == Some(r.queue[|h.queue|].id)
    ensures HasLive(r.queue)
    ensures !HasLive(h.queue) ==> HostInv(r)
    ensures Abs(r) == Abs(h).(pendingStart := true)
  {
    var d := Delegate(h.nextId, false);
    assert (h.queue + [d])[|h.queue|] == d;
    h.(queue := h.queue + [d], scheduledStart := Some(h.nextId), nextId := h.nextId + 1)
  }

  /** `Play(restart)` on the host-level state. */
  function Play(h: Host, restart: bool): (r: HostStep)
    ensures HostInv(h) ==> HostInv(r.host)
    ensures HostInv(h) ==> Abs(r.host) == P.Play(Abs(h), restart).sound
    ensures r.calls == P.Play(Abs(h), restart).calls
  {
    var c := CancelPendingStart(h).(requestedPlaying := true);
    if c.disabled then HostStep(c, []) else HostStep(c, [P.BasePlay(restart)])
  }

  /** `Stop()` on the host-level state. */
  function Stop(h: Host): (r: HostStep)
    ensures HostInv(h) ==> HostInv(r.host)
    ensures HostInv(h) ==> Abs(r.host) == P.Stop(Abs(h)).sound
    ensures r.calls == P.Stop(Abs(h)).calls
  {
    HostStep(CancelPendingStart(h).(requestedPlaying := false), [P.BaseStop])
  }

  /** The change handler on the host-level state: the resume path cancels
      the previous delegate before scheduling a new one. */
  function OnDisabledChanged(h: Host, newValue: bool): (r: HostStep)
    ensures HostInv(h) ==> HostInv(r.host)
    ensures HostInv(h) ==> Abs(r.host) == P.OnDisabledChanged(Abs(h), newValue).sound
    ensures r.calls == P.OnDisabledChanged(Abs(h), newValue).calls
  {
    var h1 := h.(disabled := newValue);
    if !h1.requestedPlaying then HostStep(h1, [])
    else if !h1.looping then HostStep(h1, [])
    else
      var c := CancelPendingStart(h1);
      if newValue then HostStep(c, [P.BaseStop])
      else HostStep(Schedule(c), [])
  }

  /** The disabler source sets its value to `v` (the handler runs only on an
      actual change of a bound source). */
  function SetDisabler(h: Host, v: bool): (r: HostStep)
    ensures HostInv(h) ==> HostInv(r.host)
    ensures HostInv(h) ==> Abs(r.host) == P.SetDisabler(Abs(h), v).sound
    ensures r.calls == P.SetDisabler(Abs(h), v).calls
  {
    if !h.disablerBound || v == h.disabled then HostStep(h, [])
    else OnDisabledChanged(h, v)
  }

  /** The base calls of running, in order, every queued delegate that was
      not cancelled; each runs the closure that re-checks `RequestedPlaying`
      and calls `base.Play()` with its default `restart`. The closure changes
      no state, so every delegate sees the same `requestedPlaying`. */
  function RunQueue(q: seq<Delegate>, requestedPlaying: bool): (r: seq<P.BaseCall>)
    ensures |r| == (if requestedPlaying then CountLive(q) else 0)
    ensures forall i :: 0 <= i < |r| ==> r[i] == P.BasePlay(true)
    ensures !HasLive(q) || !requestedPlaying ==> r == []
    ensures AtMostOneLive(q) && HasLive(q) && requestedPlaying ==> r == [P.BasePlay(true)]
    decreases |q|
  {
    if |q| == 0 then []
    else
      var rest := RunQueue(q[1..], requestedPlaying);
      assert forall i :: 1 <= i < |q| ==> q[i] == q[1..][i - 1];
      assert AtMostOneLive(q) && !q[0].cancelled ==> !HasLive(q[1..]);
      (if !q[0].cancelled && requestedPlaying then [P.BasePlay(true)] else []) + rest
  }

  /** A scheduler tick: every queued delegate runs (cancelled ones do
      nothing) and the queue empties. The handle is left as it is, as the
      component does not clear it after the delegate ran. */
  function Tick(h: Host): (r: HostStep)
    ensures r.host.queue == []
    ensures HostInv(h) ==> HostInv(r.host)
    ensures Abs(r.host) == P.Tick(Abs(h)).sound
    ensures HostInv(h) ==> r.calls == P.Tick(Abs(h)).calls
  {
    HostStep(h.(queue := []), RunQueue(h.queue, h.requestedPlaying))
  }

  /** One event on the host-level state. */
  function Apply(h: Host, e: P.Event): (r: HostStep)
    ensures HostInv(h) ==> HostInv(r.host)
    ensures HostInv(h) ==> Abs(r.host) == P.Apply(Abs(h), e).sound
    ensures HostInv(h) ==> r.calls == P.Apply(Abs(h), e).calls
  {
    match e
    case PlayRequested(restart) => Play(h, restart)
    case StopRequested => Stop(h)
    case DisablerSet(v) => SetDisabler(h, v)
    case SchedulerTick => Tick(h)
  }

  /** A sequence of events on the host-level state: it issues exactly the
      base calls of the one-slot machine and keeps at most one live delegate. */
  function Run(h: Host, events: seq<P.Event>): (r: HostStep)
    ensures HostInv(h) ==> HostInv(r.host)
    ensures HostInv(h) ==> Abs(r.host) == P.Run(Abs(h), events).sound
    ensures HostInv(h) ==> r.calls == P.Run(Abs(h), events).calls
    decreases |events|
  {
    if |events| == 0 then HostStep(h, [])
    else
      var first := Apply(h, events[0]);
      var rest := Run(first.host, events[1..]);
      HostStep(rest.host, first.calls + rest.calls)
  }

  /** From load, whatever happens, the scheduler never holds two live
      deferred starts, and the base calls are those of the one-slot machine. */
  lemma AtMostOneDeferredStart(looping: bool, disabler: Option<bool>, events: seq<P.Event>)
    ensures AtMostOneLive(Run(Loaded(looping, disabler), events).host.queue)
    ensures Run(Loaded(looping, disabler), events).calls
            == P.Run(P.Loaded(looping, disabler), events).calls
  {
  }

  /** The cancel before scheduling matters: scheduling while a delegate is
      still live leaves two live delegates, and a tick then starts the
      primitive twice. */
  lemma ScheduleWithoutCancelDoublesStart()
    ensures var h := Schedule(Schedule(Loaded(true, Some(false)).(requestedPlaying := true)));
            !AtMostOneLive(h.queue) && Tick(h).calls == [P.BasePlay(true), P.BasePlay(true)]
  {
    // The second schedule keeps the first, still live, delegate in the queue.
  }
}
