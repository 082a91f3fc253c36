/**
 What a streaming turn promises its caller, whichever client implements it: the events it
 delivers, and the one outcome it settles with.
 */
module TurnContract {
  /** An event routed to the turn. `Final` carries whether its payload decodes. */
  datatype Event = Note(tag: nat) | Error | Final(decodes: bool) | Stop

  predicate Terminal(ev: Event) { !ev.Note? }

  datatype Outcome = Completed | UserStopped | Rejected | Undecodable | TimedOut | Aborted(reason: nat)

  function OutcomeOf(ev: Event): Outcome
    requires Terminal(ev)
  {
    match ev
    case Error => Rejected
    case Final(decodes) => if decodes then Completed else Undecodable
    case Stop => UserStopped
  }

  predicate NoTerminal(evs: seq<Event>) { forall i | 0 <= i < |evs| :: !Terminal(evs[i]) }

  /** The outcome is the one the last event delivered stands for. */
  predicate FromLast(o: Outcome, sent: seq<Event>) {
    sent != [] && Terminal(sent[|sent| - 1]) && o == OutcomeOf(sent[|sent| - 1])
  }

  predicate External(o: Outcome) { o.TimedOut? || o.Aborted? }

  /** Which event each outcome taken from a frame stands for. */
  predicate Means(o: Outcome, ev: Event) {
    && (o == UserStopped <==> ev == Stop)
    && (o == Rejected <==> ev == Error)
    && (o == Completed <==> ev == Final(true))
    && (o == Undecodable <==> ev == Final(false))
  }

  /**
   `arrived` are the events routed for the turn's request id, `delivered` those put on its
   channel, `outcomes` every outcome it recorded.
   */
  predicate Contract(arrived: seq<Event>, delivered: seq<Event>, outcomes: seq<Outcome>) {
    // a prefix of what arrived, with no terminal event except the last
    && delivered <= arrived
    && (forall i | 0 <= i < |delivered| - 1 :: !Terminal(delivered[i]))
    // settled at most once
    && |outcomes| <= 1
    // an outcome that claims a frame has that frame as the last event delivered
    && (|outcomes| == 1 && !External(outcomes[0]) ==> delivered != [] && Means(outcomes[0], delivered[|delivered| - 1]))
  }
}
