/**
 One streaming turn of the Go client (`MessageTurn`): the dispatch goroutine that pushes
 its events, any number of goroutines that settle it (the timer, an abort, the push of a
 terminal event itself), and the consumer of its channel, interleaved step by step over the
 turn's two mutexes, its bounded event channel and its `settled` channel.

 A section under `mu` is one step; what happens under `sendMu` is spread over several,
 because the send inside it can block. Sending on a closed channel and closing one twice are
 modelled as what they are in Go, a panic.
 */
module ClientTurn {
  import opened Basics
  import opened TurnContract
  import opened Work
  import opened History

  const BUFFER := 64

  /** A goroutine inside `finish`. */
  datatype Finish =
    | Enter(outcome: Outcome)
    | Won                       // has set done
    | Detached                  // timer stopped, onClose called
    | WantLock                  // settled closed, waiting for sendMu
    | Locked
    | Sealed                    // closed set, events closed, sendMu still held
    | Over

  /** The dispatch goroutine inside `push`. */
  datatype Push =
    | Idle
    | Routed(ev: Event)
    | Waiting(ev: Event)        // read done as false, waiting for sendMu
    | Holding(ev: Event)        // about to read closed
    | Selecting(ev: Event)      // in the select over events and settled
    | Sent(ev: Event)           // about to release sendMu
    | Bailing                   // about to release sendMu without having sent
    | Finishing(thread: nat)

  /**
   Where `SendMessage` is with its client's table. The turn's timer runs from before the
   registration, so a turn can be registered `late`: after its own `finish` has looked for
   itself in the table. `Withdrawn` is a failed send, or a client that closes.
   */
  datatype Sender = Unregistered | Registered(late: bool) | Withdrawn

  datatype Holder = Free | Pusher | Finisher(thread: nat)

  /** `winner` is the goroutine that set `done`; `outcomes` every outcome ever recorded. */
  datatype State = State(arrived: seq<Event>, received: seq<Event>, buffer: seq<Event>,
                         sender: Sender, inTable: bool, winner: Option<nat>, outcomes: seq<Outcome>,
                         settled: bool, closed: bool, eventsClosed: bool, panicked: bool,
                         sendMu: Holder, push: Push, threads: seq<Finish>)

  datatype Action =
    | Register
    | Withdraw
    | Arrive(ev: Event)                // the dispatch loop routes an event with this turn's request id
    | PushStep(preferSend: bool)       // the select may take either ready case
    | Settle(outcome: Outcome)         // the timer fires, or someone aborts
    | FinishStep(thread: nat)
    | Receive                          // the consumer takes one event

  const Initial := State([], [], [], Unregistered, false, None, [], false, false, false, false, Free, Idle, [])

  function Delivered(s: State): seq<Event> { s.received + s.buffer }

  /** The select can and does take its send case. */
  predicate SendsNow(s: State, preferSend: bool) {
    s.push.Selecting? && !s.eventsClosed && |s.buffer| < BUFFER && (preferSend || !s.settled)
  }

  /** Where the push goes next. */
  function NextPush(s: State, preferSend: bool): Push {
    match s.push
    case Idle => Idle
    case Routed(ev) => if s.winner.Some? then Idle else Waiting(ev)
    case Waiting(ev) => if s.sendMu == Free then Holding(ev) else s.push
    case Holding(ev) => if s.closed then Bailing else Selecting(ev)
    case Selecting(ev) =>
      if SendsNow(s, preferSend) then Sent(ev)
      else if s.settled && !s.eventsClosed then Bailing
      else s.push
    case Sent(ev) => if Terminal(ev) then Finishing(|s.threads|) else Idle
    case Bailing => Idle
    case Finishing(thread) => if thread < |s.threads| && s.threads[thread] == Over then Idle else s.push
  }

  function ApplyPush(s: State, preferSend: bool): State {
    var p := s.push;
    s.(push := NextPush(s, preferSend),
       sendMu := if p.Waiting? && s.sendMu == Free then Pusher else if p.Sent? || p.Bailing? then Free else s.sendMu,
       buffer := if SendsNow(s, preferSend) then s.buffer + [p.ev] else s.buffer,
       threads := if p.Sent? && Terminal(p.ev) then s.threads + [Enter(OutcomeOf(p.ev))] else s.threads,
       panicked := s.panicked || (p.Selecting? && s.eventsClosed))
  }

  /** Where a finisher goes next, given whether done is set and whether sendMu is free. */
  function NextFinish(f: Finish, done: bool, free: bool): Finish {
    match f
    case Enter(_) => if done then Over else Won
    case Won => Detached
    case Detached => WantLock
    case WantLock => if free then Locked else WantLock
    case Locked => Sealed
    case Sealed => Over
    case Over => Over
  }

  function ApplyFinish(s: State, i: nat): State
    requires i < |s.threads|
  {
    var f := s.threads[i];
    var wins := f.Enter? && s.winner.None?;
    s.(threads := s.threads[i := NextFinish(f, s.winner.Some?, s.sendMu == Free)],
       winner := if wins then Some(i) else s.winner,
       outcomes := if wins then s.outcomes + [f.outcome] else s.outcomes,
       inTable := s.inTable && f != Won,
       settled := s.settled || f == Detached,
       closed := s.closed || f == Locked,
       eventsClosed := s.eventsClosed || f == Locked,
       panicked := s.panicked || (f == Detached && s.settled) || (f == Locked && s.eventsClosed),
       sendMu := if f == WantLock && s.sendMu == Free then Finisher(i) else if f == Sealed then Free else s.sendMu)
  }

  /** The winning `finish` has taken the turn out of the table, if it was there. */
  predicate Removed(s: State) {
    s.winner.Some? && s.winner.value < |s.threads| && !s.threads[s.winner.value].Enter? && s.threads[s.winner.value] != Won
  }

  function Apply(s: State, a: Action): State {
    if s.panicked then s
    else
      match a
      case Register => if s.sender != Unregistered then s else s.(sender := Registered(Removed(s)), inTable := true)
      case Withdraw => if !s.sender.Registered? then s else s.(sender := Withdrawn, inTable := false)
      case Arrive(ev) =>
        // the request id is not on the wire before the turn is registered
        if s.push != Idle || s.sender == Unregistered then s
        else
          // outside the table it is nobody's: the client hands it to its unsolicited-event hook
          s.(arrived := s.arrived + [ev], push := if s.inTable then Routed(ev) else Idle)
      case PushStep(preferSend) => ApplyPush(s, preferSend)
      case Settle(outcome) =>
        if outcome.TimedOut? || outcome.Aborted? then s.(threads := s.threads + [Enter(outcome)]) else s
      case FinishStep(i) => if i < |s.threads| then ApplyFinish(s, i) else s
      case Receive =>
        if s.buffer == [] then s else s.(received := s.received + [s.buffer[0]], buffer := s.buffer[1..])
  }

  function Run(acts: seq<Action>): State {
    if |acts| == 0 then Initial else Apply(Run(acts[..|acts| - 1]), acts[|acts| - 1])
  }

  // ---------------------------------------------------------------- the invariant

  predicate InPush(p: Push) { p.Waiting? || p.Holding? || p.Selecting? }

  predicate PusherHolds(p: Push) { p.Holding? || p.Selecting? || p.Sent? || p.Bailing? }

  predicate Active(f: Finish) { f != Over && !f.Enter? }

  /** Where the pushed events are, by where the pusher is. */
  predicate StreamOk(s: State) {
    var sent := Delivered(s);
    && sent <= s.arrived
    && |s.buffer| <= BUFFER
    && (forall i | 0 <= i < |sent| - 1 :: !Terminal(sent[i]))
    && (InPush(s.push) || (s.push.Routed? && s.winner.None?) ==> NoTerminal(sent) && s.arrived == sent + [s.push.ev])
    && (s.push.Idle? && s.winner.None? ==> NoTerminal(sent) && (s.sender.Withdrawn? || s.arrived == sent))
    && (s.push.Sent? ==> s.arrived == sent && sent != [] && sent[|sent| - 1] == s.push.ev)
    && (s.push.Bailing? ==> s.winner.Some?)
    && (s.push.Finishing? ==> s.push.thread < |s.threads|)
    && (s.push.Finishing? && s.winner.None? ==> s.arrived == sent && s.threads[s.push.thread].Enter?)
  }

  /** Who may still record an outcome taken from a frame, and what is delivered by then. */
  predicate OutcomeOk(s: State) {
    var sent := Delivered(s);
    && (forall i | 0 <= i < |s.threads| && s.threads[i].Enter? ::
          External(s.threads[i].outcome) || (s.push == Finishing(i) && FromLast(s.threads[i].outcome, sent)))
    && (s.winner.None? ==> s.outcomes == [])
    && (s.winner.Some? ==> |s.outcomes| == 1)
    && (s.winner.Some? && !External(s.outcomes[0]) ==> FromLast(s.outcomes[0], sent) && !InPush(s.push) && !s.push.Sent?)
    && (sent != [] && Terminal(sent[|sent| - 1]) && s.winner.None? ==>
          s.push == Sent(sent[|sent| - 1]) ||
          (s.push.Finishing? && s.push.thread < |s.threads| && s.threads[s.push.thread] == Enter(OutcomeOf(sent[|sent| - 1]))))
  }

  predicate LocksOk(s: State) {
    && !s.panicked
    && s.closed == s.eventsClosed
    && (s.winner.Some? ==> s.winner.value < |s.threads| && !s.threads[s.winner.value].Enter?)
    && (forall i | 0 <= i < |s.threads| && Active(s.threads[i]) :: s.winner == Some(i))
    && (forall i | 0 <= i < |s.threads| && s.threads[i] == Over :: s.winner.Some?)
    && (s.settled <==> s.winner.Some? && s.threads[s.winner.value] !in {Won, Detached})
    && (s.closed <==> s.winner.Some? && s.threads[s.winner.value] in {Sealed, Over})
    && (s.sendMu == Pusher <==> PusherHolds(s.push))
    && (s.sendMu.Finisher? <==> s.winner.Some? && s.threads[s.winner.value] in {Locked, Sealed})
    && (s.push.Selecting? ==> !s.closed)
  }

  predicate Core(s: State) { LocksOk(s) && StreamOk(s) && OutcomeOk(s) }

  predicate TableOk(s: State) {
    && (s.inTable <==> s.sender.Registered? && (s.sender.late || !Removed(s)))
    && (s.sender.Registered? && s.sender.late ==> Removed(s))
    && (s.sender.Unregistered? ==> s.arrived == [] && s.push.Idle?)
  }

  predicate Inv(s: State) { Core(s) && TableOk(s) }

  /** The select takes the send case. */
  lemma SendKeepsInv(s: State, preferSend: bool)
    requires Inv(s) && SendsNow(s, preferSend)
    ensures Core(ApplyPush(s, preferSend))
  {
    var s' := ApplyPush(s, preferSend);
    assert Delivered(s') == Delivered(s) + [s.push.ev];
    assert LocksOk(s') && StreamOk(s');
  }

  /** The push of a terminal event enters `finish`. */
  lemma EnterKeepsInv(s: State)
    requires Inv(s) && s.push.Sent? && Terminal(s.push.ev)
    ensures Core(ApplyPush(s, true))
  {
    var s' := ApplyPush(s, true);
    assert Delivered(s') == Delivered(s);
    assert FromLast(OutcomeOf(s.push.ev), Delivered(s));
    assert LocksOk(s') && StreamOk(s');
  }

  /** The push moves on without sending or entering `finish`. */
  lemma MoveKeepsInv(s: State, preferSend: bool)
    requires Inv(s) && !SendsNow(s, preferSend) && !(s.push.Sent? && Terminal(s.push.ev))
    ensures Core(ApplyPush(s, preferSend))
  {
    var s' := ApplyPush(s, preferSend);
    assert LocksOk(s');
    assert StreamOk(s');
  }

  lemma PushKeepsInv(s: State, preferSend: bool)
    requires Inv(s)
    ensures Core(ApplyPush(s, preferSend))
  {
    if SendsNow(s, preferSend) {
      SendKeepsInv(s, preferSend);
    } else if s.push.Sent? && Terminal(s.push.ev) {
      EnterKeepsInv(s);
    } else {
      MoveKeepsInv(s, preferSend);
    }
  }

  /** Someone outside the push starts to settle the turn. */
  lemma SettleKeepsInv(s: State, outcome: Outcome)
    requires Inv(s)
    ensures Core(Apply(s, Settle(outcome)))
  {
    var s' := Apply(s, Settle(outcome));
    assert Delivered(s') == Delivered(s);
    assert LocksOk(s');
    assert StreamOk(s');
  }

  lemma ArriveKeepsInv(s: State, ev: Event)
    requires Inv(s) && s.push == Idle && s.sender != Unregistered
    ensures Core(Apply(s, Arrive(ev)))
  {
    var s' := Apply(s, Arrive(ev));
    assert Delivered(s') == Delivered(s);
    assert OutcomeOk(s');
    assert StreamOk(s') by {
      if s.winner.None? && s.inTable { assert s'.arrived == Delivered(s) + [ev]; }
    }
  }

  lemma ReceiveKeepsInv(s: State)
    requires Inv(s)
    ensures Core(Apply(s, Receive))
  {
    var s' := Apply(s, Receive);
    if s.buffer != [] { assert Delivered(s') == Delivered(s); }
    assert LocksOk(s') && StreamOk(s');
  }

  lemma SenderKeepsInv(s: State, a: Action)
    requires Inv(s) && (a.Register? || a.Withdraw?)
    ensures Core(Apply(s, a))
  {
    assert Delivered(Apply(s, a)) == Delivered(s);
  }

  lemma FinishKeepsLocks(s: State, i: nat)
    requires LocksOk(s) && i < |s.threads|
    ensures LocksOk(ApplyFinish(s, i))
  {}

  lemma FinishKeepsStream(s: State, i: nat)
    requires Inv(s) && i < |s.threads|
    ensures StreamOk(ApplyFinish(s, i))
  {
    assert Delivered(ApplyFinish(s, i)) == Delivered(s);
  }

  lemma FinishKeepsOutcome(s: State, i: nat)
    requires Inv(s) && i < |s.threads|
    ensures OutcomeOk(ApplyFinish(s, i))
  {
    assert Delivered(ApplyFinish(s, i)) == Delivered(s);
  }

  lemma FinishKeepsInv(s: State, i: nat)
    requires Inv(s) && i < |s.threads|
    ensures Core(ApplyFinish(s, i))
  {
    FinishKeepsLocks(s, i);
    FinishKeepsStream(s, i);
    FinishKeepsOutcome(s, i);
  }

  lemma FinishKeepsTable(s: State, i: nat)
    requires Inv(s) && i < |s.threads|
    ensures TableOk(ApplyFinish(s, i))
  {
    var s' := ApplyFinish(s, i);
    if s.winner.Some? && s.winner.value != i { assert s'.threads[s.winner.value] == s.threads[s.winner.value]; }
  }

  lemma PushKeepsTable(s: State, preferSend: bool)
    requires Inv(s)
    ensures TableOk(ApplyPush(s, preferSend))
  {
    match s.push
    case Sent(_) =>
    case _ =>
  }

  lemma StepKeepsTable(s: State, a: Action)
    requires Inv(s)
    ensures TableOk(Apply(s, a))
  {
    match a
    case FinishStep(i) => if i < |s.threads| { FinishKeepsTable(s, i); }
    case PushStep(preferSend) => PushKeepsTable(s, preferSend);
    case _ =>
  }

  lemma StepKeepsInv(s: State, a: Action)
    requires Inv(s)
    ensures Inv(Apply(s, a))
  {
    StepKeepsTable(s, a);
    match a
    case Register => SenderKeepsInv(s, a);
    case Withdraw => SenderKeepsInv(s, a);
    case Arrive(ev) => if s.push == Idle && s.sender != Unregistered { ArriveKeepsInv(s, ev); }
    case PushStep(preferSend) => PushKeepsInv(s, preferSend);
    case Settle(outcome) => SettleKeepsInv(s, outcome);
    case FinishStep(i) => if i < |s.threads| { FinishKeepsInv(s, i); }
    case Receive => ReceiveKeepsInv(s);
  }

  lemma {:induction false} RunKeepsInv(acts: seq<Action>)
    ensures Inv(Run(acts))
  {
    if |acts| > 0 {
      RunKeepsInv(acts[..|acts| - 1]);
      StepKeepsInv(Run(acts[..|acts| - 1]), acts[|acts| - 1]);
    }
  }

  // ---------------------------------------------------------------- safety over every run

  /** Whoever settles the turn from outside has asked for just that. */
  ghost predicate Asked(acts: seq<Action>, s: State) {
    && (forall i | 0 <= i < |s.threads| && s.threads[i].Enter? && External(s.threads[i].outcome) :: Settle(s.threads[i].outcome) in acts)
    && (forall i | 0 <= i < |s.outcomes| && External(s.outcomes[i]) :: Settle(s.outcomes[i]) in acts)
  }

  lemma AskedStep(acts: seq<Action>, s: State, a: Action)
    requires Asked(acts, s)
    ensures Asked(acts + [a], Apply(s, a))
  {
    forall b | b in acts ensures b in acts + [a] {}
    match a
    case PushStep(_) => AskedPush(acts, s, a);
    case FinishStep(i) => if i < |s.threads| { AskedFinish(acts, s, i); }
    case _ =>
  }

  lemma AskedPush(acts: seq<Action>, s: State, a: Action)
    requires Asked(acts, s) && a.PushStep?
    ensures Asked(acts + [a], Apply(s, a))
  {}

  lemma AskedFinish(acts: seq<Action>, s: State, i: nat)
    requires Asked(acts, s) && i < |s.threads|
    ensures Asked(acts + [FinishStep(i)], ApplyFinish(s, i))
  {}

  lemma {:induction false} RunAsked(acts: seq<Action>)
    ensures Asked(acts, Run(acts))
  {
    if |acts| > 0 {
      var init, a := acts[..|acts| - 1], acts[|acts| - 1];
      RunAsked(init);
      AskedStep(init, Run(init), a);
      assert init + [a] == acts;
    }
  }

  /** Every interleaving keeps the contract, and no goroutine panics on a channel. */
  lemma KeepsContract(acts: seq<Action>)
    ensures var s := Run(acts);
            && Contract(s.arrived, Delivered(s), s.outcomes)
            && !s.panicked
            && (s.settled ==> |s.outcomes| == 1)
            && (s.eventsClosed ==> s.settled)
    ensures forall o | o in Run(acts).outcomes && External(o) :: Settle(o) in acts
  {
    RunKeepsInv(acts);
    RunAsked(acts);
  }

  lemma StepSettlesForGood(s: State, a: Action)
    requires LocksOk(s)
    ensures s.outcomes <= Apply(s, a).outcomes
    ensures s.eventsClosed ==> Delivered(Apply(s, a)) == Delivered(s) && Apply(s, a).eventsClosed
  {
    var s' := Apply(s, a);
    match a
    case Receive => if s.buffer != [] { assert Delivered(s') == Delivered(s); }
    case PushStep(_) => assert s.eventsClosed ==> Delivered(s') == Delivered(s);
    case FinishStep(i) => if i < |s.threads| { assert Delivered(s') == Delivered(s); }
    case _ =>
  }

  /** Once recorded, the outcome is never replaced, and once closed the channel gets nothing more. */
  lemma {:induction false} SettlesForGood(acts: seq<Action>, n: nat)
    requires n <= |acts|
    ensures Run(acts[..n]).outcomes <= Run(acts).outcomes
    ensures Run(acts[..n]).eventsClosed ==> Delivered(Run(acts)) == Delivered(Run(acts[..n]))
    ensures Run(acts[..n]).eventsClosed ==> Run(acts).eventsClosed
  {
    if n < |acts| {
      var init := acts[..|acts| - 1];
      assert init[..n] == acts[..n];
      SettlesForGood(init, n);
      RunKeepsInv(init);
      StepSettlesForGood(Run(init), acts[|acts| - 1]);
    } else {
      assert acts[..n] == acts;
    }
  }

  // ---------------------------------------------------------------- progress

  function FinishWork(f: Finish): nat {
    match f
    case Enter(_) => 6
    case Won => 5
    case Detached => 4
    case WantLock => 3
    case Locked => 2
    case Sealed => 1
    case Over => 0
  }

  function PushWork(p: Push): nat {
    match p
    case Idle => 0
    case Finishing(_) => 1
    case Bailing => 1
    case Sent(_) => 8
    case Selecting(_) => 9
    case Holding(_) => 10
    case Waiting(_) => 11
    case Routed(_) => 12
  }

  function Works(threads: seq<Finish>): seq<nat> { seq(|threads|, i requires 0 <= i < |threads| => FinishWork(threads[i])) }

  /** Steps left to the goroutines already inside the turn. */
  function WorkLeft(s: State): nat { PushWork(s.push) + Total(Works(s.threads)) }

  predicate Internal(a: Action) { a.PushStep? || a.FinishStep? }

  lemma EnterShrinks(s: State)
    requires s.push.Sent? && Terminal(s.push.ev)
    ensures WorkLeft(ApplyPush(s, true)) < WorkLeft(s)
  {
    var f := Enter(OutcomeOf(s.push.ev));
    assert Works(s.threads + [f]) == Works(s.threads) + [FinishWork(f)];
    TotalAppend(Works(s.threads), FinishWork(f));
  }

  lemma PushShrinks(s: State, preferSend: bool)
    requires !s.panicked && (s.push.Selecting? ==> !s.eventsClosed) && ApplyPush(s, preferSend) != s
    ensures WorkLeft(ApplyPush(s, preferSend)) < WorkLeft(s)
  {
    match s.push
    case Sent(ev) => if Terminal(ev) { EnterShrinks(s); }
    case _ =>
  }

  lemma FinishShrinks(s: State, i: nat)
    requires i < |s.threads| && s.threads[i] != Over && (s.threads[i] == WantLock ==> s.sendMu == Free)
    ensures WorkLeft(ApplyFinish(s, i)) < WorkLeft(s)
  {
    var f := NextFinish(s.threads[i], s.winner.Some?, s.sendMu == Free);
    assert Works(s.threads[i := f]) == Works(s.threads)[i := FinishWork(f)];
    TotalUpdate(Works(s.threads), i, FinishWork(f));
  }

  lemma FinishStuck(s: State, i: nat)
    requires i < |s.threads| && (s.threads[i] == Over || (s.threads[i] == WantLock && s.sendMu != Free))
    ensures ApplyFinish(s, i) == s
  {
    assert s.threads[i := s.threads[i]] == s.threads;
  }

  /** Every step a goroutine takes inside the turn brings the turn closer to rest. */
  lemma WorkShrinks(s: State, a: Action)
    requires Inv(s) && Internal(a) && Apply(s, a) != s
    ensures WorkLeft(Apply(s, a)) < WorkLeft(s)
  {
    match a
    case PushStep(preferSend) => PushShrinks(s, preferSend);
    case FinishStep(i) =>
      if s.threads[i] == Over || (s.threads[i] == WantLock && s.sendMu != Free) { FinishStuck(s, i); }
      else { FinishShrinks(s, i); }
  }

  /**
   No wedge: in every reachable state with a goroutine inside the turn, either one of them
   can take a step, or the turn is unsettled and its one push waits for the consumer of a
   full buffer. So a `finish` waiting for the lock of a parked push is always let in.
   */
  lemma NoWedge(acts: seq<Action>) returns (a: Action)
    requires WorkLeft(Run(acts)) > 0
    requires Run(acts).winner.Some? || |Run(acts).buffer| < 64 || !Run(acts).push.Selecting?
    ensures Internal(a) && WorkLeft(Apply(Run(acts), a)) < WorkLeft(Run(acts))
  {
    RunKeepsInv(acts);
    a := NextMover(Run(acts));
    WorkShrinks(Run(acts), a);
  }

  /** With room on the channel the send goes through, but for a settled turn the select may as well give up. */
  lemma SelectTakesEither(s: State, preferSend: bool)
    requires s.push.Selecting? && !s.eventsClosed && |s.buffer| < 64
    ensures preferSend || !s.settled ==> ApplyPush(s, preferSend).buffer == s.buffer + [s.push.ev] && ApplyPush(s, preferSend).push == Sent(s.push.ev)
    ensures !preferSend && s.settled ==> ApplyPush(s, preferSend).buffer == s.buffer && ApplyPush(s, preferSend).push == Bailing
  {}

  lemma NextMover(s: State) returns (a: Action)
    requires Inv(s) && WorkLeft(s) > 0 && (s.winner.Some? || |s.buffer| < BUFFER || !s.push.Selecting?)
    ensures Internal(a) && Apply(s, a) != s
  {
    if s.winner.Some? && s.threads[s.winner.value] in {Won, Detached, Locked, Sealed} {
      a := FinishStep(s.winner.value);
    } else if PusherHolds(s.push) {
      a := PushStep(true);
    } else if s.winner.Some? && s.threads[s.winner.value] == WantLock {
      a := FinishStep(s.winner.value);
    } else if s.push.Routed? || s.push.Waiting? || (s.push.Finishing? && s.threads[s.push.thread] == Over) {
      a := PushStep(true);
    } else if s.push.Finishing? {
      a := FinishStep(s.push.thread);
    } else {
      var i := SomePositive(Works(s.threads));
      a := FinishStep(i);
    }
  }

  /** The turn is registered after its `finish` has looked for it in the table. */
  predicate LateNow(before: seq<Action>, a: Action) {
    a == Register && Run(before).sender == Unregistered && Removed(Run(before))
  }

  ghost predicate RegisteredTooLate(acts: seq<Action>) { Ever(acts, LateNow) }

  predicate SenderAgrees(sender: Sender, tooLate: bool) {
    (sender.Unregistered? ==> !tooLate) && (sender.Registered? ==> sender.late == tooLate)
  }

  lemma {:induction false} SenderIsHistory(acts: seq<Action>)
    ensures SenderAgrees(Run(acts).sender, RegisteredTooLate(acts))
  {
    if |acts| > 0 {
      SenderIsHistory(acts[..|acts| - 1]);
      RunKeepsInv(acts[..|acts| - 1]);
      EverNext(acts, LateNow);
      SenderNext(Run(acts[..|acts| - 1]), acts[|acts| - 1]);
    }
  }

  lemma SenderNext(s: State, a: Action)
    requires !s.panicked
    ensures Apply(s, a).sender ==
            if a == Register && s.sender == Unregistered then Registered(Removed(s))
            else if a == Withdraw && s.sender.Registered? then Withdrawn
            else s.sender
  {}

  /** No goroutine is ever about to send on a closed channel, or to close one that is closed. */
  lemma NoPanicAhead(acts: seq<Action>)
    ensures var s := Run(acts);
            && (s.push.Selecting? ==> !s.eventsClosed)
            && (forall i | 0 <= i < |s.threads| && s.threads[i] == Locked :: !s.eventsClosed)
            && (forall i | 0 <= i < |s.threads| && s.threads[i] == Detached :: !s.settled)
  {
    RunKeepsInv(acts);
  }

  /** At rest a turn with no outcome has delivered all that arrived, and no terminal event was among it. */
  lemma RestHeardAll(acts: seq<Action>)
    requires WorkLeft(Run(acts)) == 0 && Run(acts).outcomes == [] && !Run(acts).sender.Withdrawn?
    ensures var s := Run(acts); Delivered(s) == s.arrived && NoTerminal(s.arrived)
  {
    RunKeepsInv(acts);
  }

  /**
   At rest, a settled turn has both channels closed and the lock free. It is still in the
   client's table exactly when it was registered after its own `finish` had looked for it
   there, and nobody has withdrawn it since.
   */
  lemma RestIsSettled(acts: seq<Action>)
    requires WorkLeft(Run(acts)) == 0 && Run(acts).winner.Some?
    ensures var s := Run(acts);
            && s.settled && s.closed && s.eventsClosed && s.sendMu == Free
            && (s.inTable <==> s.sender.Registered? && RegisteredTooLate(acts))
  {
    var s := Run(acts);
    RunKeepsInv(acts);
    AllZero(Works(s.threads), s.winner.value);
    SenderIsHistory(acts);
  }

  lemma Then(acts: seq<Action>, a: Action) returns (next: seq<Action>)
    ensures next == acts + [a] && Run(next) == Apply(Run(acts), a)
  {
    next := acts + [a];
    assert next[..|acts|] == acts;
  }

  /** What a timer leaves once its `finish` has come to `f`, in a turn that was never registered. */
  function TimedOutBy(f: Finish): State {
    Initial.(threads := [f], winner := Some(0), outcomes := [TimedOut], settled := true,
             closed := f == Over, eventsClosed := f == Over)
  }

  lemma TimerFires() returns (acts: seq<Action>)
    ensures Run(acts) == TimedOutBy(WantLock)
  {
    acts := [];
    acts := Then(acts, Settle(TimedOut));
    acts := Then(acts, FinishStep(0));
    assert Run(acts).threads == [Won];
    acts := Then(acts, FinishStep(0));
    assert Run(acts).threads == [Detached];
    acts := Then(acts, FinishStep(0));
    assert Run(acts).threads == [WantLock];
  }

  lemma TimerCloses() returns (acts: seq<Action>)
    ensures Run(acts) == TimedOutBy(Over)
  {
    acts := TimerFires();
    acts := Then(acts, FinishStep(0));
    assert Run(acts).threads == [Locked];
    acts := Then(acts, FinishStep(0));
    assert Run(acts).threads == [Sealed];
    acts := Then(acts, FinishStep(0));
    assert Run(acts).threads == [Over];
  }

  /** A timer that fires before the registration: settled, and in the table for good. */
  lemma TimerBeatsRegistration() returns (acts: seq<Action>)
    ensures Run(acts).outcomes == [TimedOut] && Run(acts).eventsClosed && WorkLeft(Run(acts)) == 0
    ensures Run(acts).inTable && RegisteredTooLate(acts)
  {
    var settled := TimerCloses();
    acts := Then(settled, Register);
    assert Works([Over]) == [0] && [0][..0] == [];
    SenderIsHistory(acts);
  }

}
