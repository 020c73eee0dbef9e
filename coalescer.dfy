/** The per-field change coalescer of data/logic.js (serializedChange and
    endSerialized). A hidden `<id>Serialized` cell holds a flag: "0" nothing
    is in flight, "1" a change was sent and is not yet acknowledged, "2" a
    further change was made meanwhile. An edit sends only from "0"; an
    acknowledgement re-sends the field's current value only from "2". Any
    other text in the cell is left alone by edits. */
module Coalescer {

  const Idle := "0"
  const InFlight := "1"
  const Superseded := "2"

  /** The cell's new flag and whether a change request goes out. */
  datatype Step = Step(flag: string, send: bool)

  /** serializedChange once the cell exists. */
  function OnEdit(flag: string): (r: Step)
    ensures r.send <==> flag == Idle
    ensures r.send ==> r.flag == InFlight
    ensures flag == InFlight ==> r.flag == Superseded
    ensures flag != Idle && flag != InFlight ==> r.flag == flag
  {
    if flag == Idle then Step(InFlight, true)
    else if flag == InFlight then Step(Superseded, false)
    else Step(flag, false)
  }

  /** endSerialized: "2" re-sends and goes back to "1", anything else
      becomes "0". */
  function OnAck(flag: string): (r: Step)
    ensures r.send <==> flag == Superseded
    ensures r.flag == (if flag == Superseded then InFlight else Idle)
  {
    if flag == Superseded then Step(InFlight, true) else Step(Idle, false)
  }

  predicate ValidFlag(flag: string) {
    flag == Idle || flag == InFlight || flag == Superseded
  }

  /** What happens to the field: the user edits it, or the server
      acknowledges a change. */
  datatype Event = Edit | Ack

  function Apply(flag: string, e: Event): Step {
    match e
    case Edit => OnEdit(flag)
    case Ack => OnAck(flag)
  }

  /** The flag after a run of events and the number of change requests
      sent on the way. */
  datatype Outcome = Outcome(flag: string, sends: nat)

  function Run(flag: string, events: seq<Event>): Outcome {
    if events == [] then Outcome(flag, 0)
    else
      var before := Run(flag, events[..|events| - 1]);
      var step := Apply(before.flag, events[|events| - 1]);
      Outcome(step.flag, before.sends + (if step.send then 1 else 0))
  }

  function Acks(events: seq<Event>): nat {
    if events == [] then 0
    else Acks(events[..|events| - 1]) + (if events[|events| - 1] == Ack then 1 else 0)
  }

  /** A valid flag stays valid whatever happens. */
  lemma {:induction false} FlagStaysValid(flag: string, events: seq<Event>)
    requires ValidFlag(flag)
    ensures ValidFlag(Run(flag, events).flag)
  {
    if events != [] {
      FlagStaysValid(flag, events[..|events| - 1]);
    }
  }

  /** A request goes out exactly when the flag enters "1": from "0" on an
      edit or from "2" on an acknowledgement. */
  lemma SendsExactlyOnEnteringInFlight(flag: string, events: seq<Event>, e: Event)
    ensures var before := Run(flag, events);
            var after := Run(flag, events + [e]);
            after.sends == before.sends + (if after.flag == InFlight && before.flag != InFlight then 1 else 0)
    ensures var before := Run(flag, events);
            Run(flag, events + [e]).sends > before.sends <==>
              (e == Edit && before.flag == Idle) || (e == Ack && before.flag == Superseded)
  {
    assert (events + [e])[..|events|] == events;
  }

  /** The accounting behind the bound on requests: each request beyond the
      first one in flight is paid for by an acknowledgement. */
  lemma {:induction false} SendsBoundedByAcks(flag: string, events: seq<Event>)
    ensures var out := Run(flag, events);
            out.sends + (if flag == Idle then 0 else 1) <= Acks(events) + (if out.flag == Idle then 0 else 1)
  {
    if events != [] {
      SendsBoundedByAcks(flag, events[..|events| - 1]);
    }
  }

  /** From an idle field, at most one more request than acknowledgements is
      ever sent: at most one change is unacknowledged at any time. */
  lemma AtMostOneUnacknowledged(events: seq<Event>)
    ensures Run(Idle, events).sends <= Acks(events) + 1
  {
    SendsBoundedByAcks(Idle, events);
  }

  /** Edits without acknowledgement send once, and from the second edit on
      the flag records that a newer change waits. */
  lemma {:induction false} EditsWithoutAck(n: nat)
    ensures Run(Idle, seq(n, _ => Edit)).sends == (if n == 0 then 0 else 1)
    ensures Run(Idle, seq(n, _ => Edit)).flag == (if n == 0 then Idle else if n == 1 then InFlight else Superseded)
  {
    if n > 0 {
      var edits := seq(n, _ => Edit);
      assert edits[..n - 1] == seq(n - 1, _ => Edit);
      EditsWithoutAck(n - 1);
    }
  }

  /** An acknowledgement never leaves a change waiting behind it. */
  lemma AckClearsSuperseded(flag: string, events: seq<Event>)
    ensures Run(flag, events + [Ack]).flag != Superseded
  {
    assert (events + [Ack])[..|events|] == events;
  }
}
