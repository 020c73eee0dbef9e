/** The event-stream reconnect controller of data/logic.js: startEvents,
    its onopen and onerror handlers and the globals startEventsPending and
    startEventsDelay. When the stream reports CLOSED and no retry is
    pending, a retry is scheduled after `delay` seconds and the delay grows
    by one second up to ten; opening the stream resets it. The timer itself
    is an event of the trace model below. */
module Reconnect {
  import opened Base

  /** `EventSource.CLOSED`. */
  const Closed := 2
  const MaxDelay := 10

  datatype State = State(pending: bool, delay: int)

  /** The globals as the page loads them. */
  const Initial := State(false, 0)

  predicate Valid(s: State) {
    0 <= s.delay <= MaxDelay
  }

  function Min(a: int, b: int): int {
    if a < b then a else b
  }

  /** startEvents: a new stream is opened and no retry is pending any more. */
  function StartEvents(s: State): (r: State)
    ensures !r.pending && r.delay == s.delay
  {
    s.(pending := false)
  }

  /** onopen: the delay starts again from zero. */
  function OnOpen(s: State): (r: State)
    ensures r.delay == 0 && r.pending == s.pending
  {
    s.(delay := 0)
  }

  /** What onerror does: the new state, whether "Events closed" is
      logged, and the delay in milliseconds of the retry it schedules. */
  datatype Reaction = Reaction(state: State, logged: bool, retry: Option<int>)

  function OnError(s: State, readyState: int): (r: Reaction)
    ensures r.logged <==> readyState == Closed
    ensures r.retry.Some? <==> readyState == Closed && !s.pending
    ensures r.retry.None? ==> r.state == s
    ensures r.retry.Some? ==>
      && r.retry.value == s.delay * 1000
      && r.state.pending
      && r.state.delay == (if s.delay < MaxDelay then s.delay + 1 else s.delay)
  {
    if readyState != Closed then Reaction(s, false, None)
    else if s.pending then Reaction(s, true, None)
    else Reaction(State(true, if s.delay < MaxDelay then s.delay + 1 else s.delay), true, Some(s.delay * 1000))
  }

  /** The delay stays within 0..10 seconds. */
  lemma ValidPreserved(s: State, readyState: int)
    requires Valid(s)
    ensures Valid(StartEvents(s)) && Valid(OnOpen(s)) && Valid(OnError(s, readyState).state)
    ensures OnError(s, readyState).retry.Some? ==> 0 <= OnError(s, readyState).retry.value <= MaxDelay * 1000
  {
  }

  // ---------------------------------------------------------------------
  // Traces: the stream's events and the retry timer

  datatype Event = Open | Error(readyState: int) | Fire

  /** The controller's state, the retry timers still to fire, and whether
      the current stream was opened with the data, serialized and time
      listeners. */
  datatype Machine = Machine(state: State, timers: nat, dataEvents: bool)

  /** initAll's first call `startEvents(!inSetup)`. */
  function Connect(getDataEvents: bool): (m: Machine)
    ensures m.state == StartEvents(Initial) && m.timers == 0 && m.dataEvents == getDataEvents
  {
    Machine(StartEvents(Initial), 0, getDataEvents)
  }

  /** A retry timer firing as written: `setTimeout(startEvents, ...)` calls
      startEvents without an argument, so getDataEvents is undefined and the
      new stream has none of the data listeners. */
  function FireAsWritten(m: Machine): (r: Machine)
    requires m.timers > 0
    ensures !r.dataEvents && !r.state.pending && r.timers == m.timers - 1
  {
    Machine(StartEvents(m.state), m.timers - 1, false)
  }

  /** A retry timer firing, reopening the stream with the listeners it had. */
  function FireKeepingListeners(m: Machine): (r: Machine)
    requires m.timers > 0
    ensures r.dataEvents == m.dataEvents && !r.state.pending && r.timers == m.timers - 1
  {
    Machine(StartEvents(m.state), m.timers - 1, m.dataEvents)
  }

  /** After one closed error and its retry, the as-written page no longer
      listens for data: later data, acknowledgements and restart times are
      ignored. */
  lemma ReconnectDropsDataListeners()
    ensures var m := Connect(true);
            var e := Machine(OnError(m.state, Closed).state, 1, m.dataEvents);
            m.dataEvents && !FireAsWritten(e).dataEvents
  {
  }

  datatype Outcome = Outcome(machine: Machine, retries: seq<int>)

  /** One event; a Fire with no timer outstanding cannot happen and changes
      nothing. */
  function Step(m: Machine, e: Event): Outcome {
    match e
    case Open => Outcome(m.(state := OnOpen(m.state)), [])
    case Error(readyState) =>
      var r := OnError(m.state, readyState);
      if r.retry.Some? then Outcome(Machine(r.state, m.timers + 1, m.dataEvents), [r.retry.value])
      else Outcome(m.(state := r.state), [])
    case Fire => if m.timers == 0 then Outcome(m, []) else Outcome(FireKeepingListeners(m), [])
  }

  function Run(m: Machine, events: seq<Event>): Outcome {
    if events == [] then Outcome(m, [])
    else
      var before := Run(m, events[..|events| - 1]);
      var last := Step(before.machine, events[|events| - 1]);
      Outcome(last.machine, before.retries + last.retries)
  }

  lemma {:induction false} RunAppend(m: Machine, a: seq<Event>, b: seq<Event>)
    ensures Run(m, a + b).machine == Run(Run(m, a).machine, b).machine
    ensures Run(m, a + b).retries == Run(m, a).retries + Run(Run(m, a).machine, b).retries
    decreases |b|
  {
    if b == [] {
      assert a + b == a;
    } else {
      assert (a + b)[..|a + b| - 1] == a + b[..|b| - 1];
      RunAppend(m, a, b[..|b| - 1]);
    }
  }

  /** One timer is outstanding exactly while a retry is pending, so at most
      one retry is ever scheduled at a time. */
  predicate OneTimer(m: Machine) {
    m.timers == if m.state.pending then 1 else 0
  }

  lemma {:induction false} AtMostOneRetryPending(m: Machine, events: seq<Event>)
    requires OneTimer(m)
    ensures OneTimer(Run(m, events).machine)
    ensures Run(m, events).machine.timers <= 1
  {
    if events != [] {
      AtMostOneRetryPending(m, events[..|events| - 1]);
    }
  }

  /** The delay stays within 0..10 seconds along any trace, and so does
      every retry (in milliseconds). */
  lemma {:induction false} DelayStaysBounded(m: Machine, events: seq<Event>)
    requires Valid(m.state)
    ensures Valid(Run(m, events).machine.state)
    ensures forall k :: 0 <= k < |Run(m, events).retries| ==> 0 <= Run(m, events).retries[k] <= MaxDelay * 1000
  {
    if events != [] {
      var before := Run(m, events[..|events| - 1]);
      DelayStaysBounded(m, events[..|events| - 1]);
      ValidPreserved(before.machine.state, if events[|events| - 1].Error? then events[|events| - 1].readyState else Closed);
    }
  }

  /** Opening the stream resets the delay, whatever came before. */
  lemma OpenResetsDelay(m: Machine, events: seq<Event>)
    ensures Run(m, events + [Open]).machine.state.delay == 0
  {
    assert (events + [Open])[..|events|] == events;
  }

  /** `n` rounds of a closed error followed by its retry firing. */
  function Rounds(n: nat): seq<Event> {
    if n == 0 then [] else Rounds(n - 1) + [Error(Closed), Fire]
  }

  /** One round from a settled state with delay `d`. */
  lemma OneRound(d: int, listeners: bool)
    requires 0 <= d <= MaxDelay
    ensures Run(Machine(State(false, d), 0, listeners), [Error(Closed), Fire])
         == Outcome(Machine(State(false, Min(d + 1, MaxDelay)), 0, listeners), [d * 1000])
  {
    var m := Machine(State(false, d), 0, listeners);
    var pair: seq<Event> := [Error(Closed), Fire];
    assert pair[..1] == [Error(Closed)];
    assert pair[..1][..0] == [];
    var afterError := Machine(State(true, Min(d + 1, MaxDelay)), 1, listeners);
    assert Run(m, [Error(Closed)]) == Outcome(afterError, [d * 1000]);
    assert Step(afterError, Fire) == Outcome(Machine(State(false, Min(d + 1, MaxDelay)), 0, listeners), []);
  }

  /** Consecutive closed errors without an open in between retry after
      d, d+1, ... seconds, capped at 10. */
  lemma {:induction false} RetryDelaysGrow(d: int, listeners: bool, n: nat)
    requires 0 <= d <= MaxDelay
    ensures var out := Run(Machine(State(false, d), 0, listeners), Rounds(n));
            && out.machine == Machine(State(false, Min(d + n, MaxDelay)), 0, listeners)
            && |out.retries| == n
            && forall j :: 0 <= j < n ==> out.retries[j] == Min(d + j, MaxDelay) * 1000
  {
    var m := Machine(State(false, d), 0, listeners);
    if n > 0 {
      var pair: seq<Event> := [Error(Closed), Fire];
      var prev := Rounds(n - 1);
      assert Rounds(n) == prev + pair;
      RetryDelaysGrow(d, listeners, n - 1);
      var mid := Run(m, prev);
      var delay := Min(d + n - 1, MaxDelay);
      assert mid.machine == Machine(State(false, delay), 0, listeners);
      RunAppend(m, prev, pair);
      OneRound(delay, listeners);
      assert Min(delay + 1, MaxDelay) == Min(d + n, MaxDelay);
      assert Run(m, Rounds(n)).retries == mid.retries + [delay * 1000];
    } else {
      assert Rounds(0) == [];
    }
  }

  /** From the page's first connection the delays are 0, 1, ..., 10, 10, ... */
  lemma RetryDelaysFromStart(listeners: bool, n: nat)
    ensures |Run(Connect(listeners), Rounds(n)).retries| == n
    ensures forall j :: 0 <= j < n ==> Run(Connect(listeners), Rounds(n)).retries[j] == Min(j, MaxDelay) * 1000
  {
    RetryDelaysGrow(0, listeners, n);
    assert Connect(listeners) == Machine(State(false, 0), 0, listeners);
  }

  // ---------------------------------------------------------------------
  // The page as written: its retry timer drops the data listeners

  /** One event with the timer as written. */
  function StepAsWritten(m: Machine, e: Event): Outcome {
    match e
    case Fire => if m.timers == 0 then Outcome(m, []) else Outcome(FireAsWritten(m), [])
    case _ => Step(m, e)
  }

  function RunAsWritten(m: Machine, events: seq<Event>): Outcome {
    if events == [] then Outcome(m, [])
    else
      var before := RunAsWritten(m, events[..|events| - 1]);
      var last := StepAsWritten(before.machine, events[|events| - 1]);
      Outcome(last.machine, before.retries + last.retries)
  }

  /** The timer as written and the corrected one drive the controller alike:
      along any trace they reach the same globals and timers and schedule
      the same retries, so the trace lemmas hold for the page as written. */
  lemma {:induction false} AsWrittenAgrees(m: Machine, events: seq<Event>)
    ensures RunAsWritten(m, events).machine.state == Run(m, events).machine.state
    ensures RunAsWritten(m, events).machine.timers == Run(m, events).machine.timers
    ensures RunAsWritten(m, events).retries == Run(m, events).retries
  {
    if events != [] {
      AsWrittenAgrees(m, events[..|events| - 1]);
    }
  }

  /** Along any trace of the page as written, at most one retry is pending,
      the delay stays within 0..10 seconds and so does every retry. */
  lemma AsWrittenControllerBounds(m: Machine, events: seq<Event>)
    requires OneTimer(m) && Valid(m.state)
    ensures OneTimer(RunAsWritten(m, events).machine)
    ensures Valid(RunAsWritten(m, events).machine.state)
    ensures forall k :: 0 <= k < |RunAsWritten(m, events).retries| ==>
      0 <= RunAsWritten(m, events).retries[k] <= MaxDelay * 1000
  {
    AsWrittenAgrees(m, events);
    AtMostOneRetryPending(m, events);
    DelayStaysBounded(m, events);
  }

  /** From the first connection, the page as written retries after 0, 1, ...,
      10, 10, ... seconds, and after the first retry its stream has no data
      listeners. */
  lemma AsWrittenRetryDelays(listeners: bool, n: nat)
    ensures |RunAsWritten(Connect(listeners), Rounds(n)).retries| == n
    ensures forall j :: 0 <= j < n ==> RunAsWritten(Connect(listeners), Rounds(n)).retries[j] == Min(j, MaxDelay) * 1000
    ensures n > 0 ==> !RunAsWritten(Connect(listeners), Rounds(n)).machine.dataEvents
  {
    AsWrittenAgrees(Connect(listeners), Rounds(n));
    RetryDelaysFromStart(listeners, n);
    if n > 0 {
      var m := Connect(listeners);
      var prev := Rounds(n - 1);
      var events := Rounds(n);
      assert events == prev + [Error(Closed), Fire];
      assert events[..|events| - 1] == prev + [Error(Closed)];
      assert (prev + [Error(Closed)])[..|prev|] == prev;
      AsWrittenAgrees(m, prev);
      AsWrittenAgrees(m, prev + [Error(Closed)]);
      RetryDelaysGrow(0, listeners, n - 1);
      assert m == Machine(State(false, 0), 0, listeners);
    }
  }

  /** The corrected timer keeps the stream's listeners along any trace. */
  lemma {:induction false} ListenersKept(m: Machine, events: seq<Event>)
    ensures Run(m, events).machine.dataEvents == m.dataEvents
  {
    if events != [] {
      ListenersKept(m, events[..|events| - 1]);
    }
  }
}
