/**
 The .NET client's streaming turn: the same contract with one atomic flag and an unbounded
 channel in place of two mutexes. A goroutine of the Go model is any thread here.
 */
module DotnetTurn {
  import opened Basics
  import opened TurnContract
  import opened Work
  import opened History

  /** A thread inside Finish or FinishCancelled, carrying the outcome it settles with. */
  datatype Finish =
    | Enter(outcome: Outcome)
    | Won(outcome: Outcome)          // exchanged _done from 0 to 1
    | Flagged(outcome: Outcome)      // Cancelled set, for a user stop
    | Sealed(outcome: Outcome)       // channel completed
    | Forgotten(outcome: Outcome)    // removed from the client's table
    | Over

  /** Where the send is with the client's table; `late` is after the turn's own finish has looked for itself there. */
  datatype Sender = Unregistered | Registered(late: bool) | Withdrawn

  datatype Push = Idle | Routed(ev: Event) | Checked(ev: Event) | Written(ev: Event) | Finishing(thread: nat)

  /** `outcomes` are all attempts to set the completion source, `winner` the thread that took `_done`. */
  datatype State = State(arrived: seq<Event>, channel: seq<Event>, completed: bool, sender: Sender, inTable: bool,
                         winner: Option<nat>, cancelled: bool, outcomes: seq<Outcome>,
                         push: Push, threads: seq<Finish>)

  datatype Action = Register | Withdraw | Arrive(ev: Event) | PushStep | Settle(outcome: Outcome) | FinishStep(thread: nat)

  const Initial := State([], [], false, Unregistered, false, None, false, [], Idle, [])

  /** Where the push goes next. */
  function NextPush(s: State): Push {
    match s.push
    case Idle => Idle
    case Routed(ev) => if s.winner.Some? then Idle else Checked(ev)
    case Checked(ev) => Written(ev)
    case Written(ev) => if Terminal(ev) then Finishing(|s.threads|) else Idle
    case Finishing(i) => if i < |s.threads| && s.threads[i] == Over then Idle else s.push
  }

  function ApplyPush(s: State): State {
    var p := s.push;
    s.(push := NextPush(s),
       channel := if p.Checked? && !s.completed then s.channel + [p.ev] else s.channel,
       threads := if p.Written? && Terminal(p.ev) then s.threads + [Enter(OutcomeOf(p.ev))] else s.threads)
  }

  function NextFinish(f: Finish, done: bool): Finish {
    match f
    case Enter(o) => if done then Over else Won(o)
    case Won(o) => Flagged(o)
    case Flagged(o) => Sealed(o)
    case Sealed(o) => Forgotten(o)
    case Forgotten(_) => Over
    case Over => Over
  }

  function ApplyFinish(s: State, i: nat): State
    requires i < |s.threads|
  {
    var f := s.threads[i];
    s.(threads := s.threads[i := NextFinish(f, s.winner.Some?)],
       winner := if f.Enter? && s.winner.None? then Some(i) else s.winner,
       cancelled := s.cancelled || f == Won(UserStopped),
       completed := s.completed || f.Flagged?,
       inTable := s.inTable && !f.Sealed?,
       outcomes := if f.Forgotten? then s.outcomes + [f.outcome] else s.outcomes)
  }

  /** The winning finish has removed the turn from the table, if it was there. */
  predicate Removed(s: State) {
    s.winner.Some? && s.winner.value < |s.threads| && (s.threads[s.winner.value].Forgotten? || s.threads[s.winner.value].Over?)
  }

  function Apply(s: State, a: Action): State {
    match a
    case Register => if s.sender != Unregistered then s else s.(sender := Registered(Removed(s)), inTable := true)
    case Withdraw => if !s.sender.Registered? then s else s.(sender := Withdrawn, inTable := false)
    case Arrive(ev) =>
      // an undecodable frame is dropped before it is routed, and none comes before the registration
      if s.push != Idle || ev == Final(false) || s.sender == Unregistered then s
      else s.(arrived := s.arrived + [ev], push := if s.inTable then Routed(ev) else Idle)
    case PushStep => ApplyPush(s)
    case Settle(outcome) => if External(outcome) then s.(threads := s.threads + [Enter(outcome)]) else s
    case FinishStep(i) => if i < |s.threads| then ApplyFinish(s, i) else s
  }

  function Run(acts: seq<Action>): State {
    if |acts| == 0 then Initial else Apply(Run(acts[..|acts| - 1]), acts[|acts| - 1])
  }

  /** A registered turn is handed every event that decodes; one that does not decode is dropped on the way. */
  lemma ArriveIsTaken(s: State, ev: Event)
    requires s.push == Idle && s.sender != Unregistered
    ensures ev == Final(false) ==> Apply(s, Arrive(ev)) == s
    ensures ev != Final(false) ==> Apply(s, Arrive(ev)) == s.(arrived := s.arrived + [ev], push := if s.inTable then Routed(ev) else Idle)
  {}

  predicate Active(f: Finish) { !f.Enter? && !f.Over? }

  /** The outcome is external, or stands for the last event on the channel. */
  predicate Earned(o: Outcome, s: State) { External(o) || FromLast(o, s.channel) }

  predicate StreamOk(s: State) {
    && s.channel <= s.arrived
    && (forall i | 0 <= i < |s.channel| - 1 :: !Terminal(s.channel[i]))
    && (s.push.Checked? ==> NoTerminal(s.channel) && s.arrived == s.channel + [s.push.ev])
    && (s.push.Routed? && s.winner.None? ==> NoTerminal(s.channel) && s.arrived == s.channel + [s.push.ev])
    && (s.push.Idle? && s.winner.None? ==> NoTerminal(s.channel) && (s.sender.Withdrawn? || s.arrived == s.channel))
    && (s.push.Written? && !s.completed ==> s.arrived == s.channel && s.channel != [] && s.channel[|s.channel| - 1] == s.push.ev)
    && (s.push.Finishing? ==> s.push.thread < |s.threads|)
    && (s.push.Finishing? && s.winner.None? ==> s.arrived == s.channel && s.threads[s.push.thread].Enter?)
  }

  predicate SettleOk(s: State) {
    && (s.completed ==> s.winner.Some?)
    && (s.winner.Some? ==> s.winner.value < |s.threads| && !s.threads[s.winner.value].Enter?)
    && (forall i | 0 <= i < |s.threads| && Active(s.threads[i]) ::
          s.winner == Some(i) && s.outcomes == [] && Earned(s.threads[i].outcome, s) &&
          (s.cancelled ==> s.threads[i].outcome == UserStopped) &&
          (s.threads[i].outcome.UserStopped? ==> s.threads[i].Won? || s.cancelled) &&
          (!External(s.threads[i].outcome) ==> !s.push.Checked? && !s.push.Written?))
    && (forall i | 0 <= i < |s.threads| && s.threads[i] == Over :: s.winner.Some?)
    && (s.winner.None? ==> s.outcomes == [] && !s.cancelled)
    && (s.winner.Some? ==> (s.threads[s.winner.value] == Over <==> |s.outcomes| == 1))
    && |s.outcomes| <= 1
    && (s.outcomes != [] ==> Earned(s.outcomes[0], s) && (s.cancelled <==> s.outcomes[0].UserStopped?))
    && (s.outcomes != [] && !External(s.outcomes[0]) ==> !s.push.Checked? && !s.push.Written?)
  }

  predicate EntryOk(s: State) {
    && (forall i | 0 <= i < |s.threads| && s.threads[i].Enter? ::
          External(s.threads[i].outcome) ||
          (s.push == Finishing(i) && (s.winner.None? ==> FromLast(s.threads[i].outcome, s.channel))))
  }

  /** How far the winning finish has come. */
  predicate WinnerOk(s: State) {
    && (s.completed <==> s.winner.Some? && s.winner.value < |s.threads| &&
                         (s.threads[s.winner.value].Sealed? || s.threads[s.winner.value].Forgotten? || s.threads[s.winner.value].Over?))
    && (s.inTable <==> s.sender.Registered? && (s.sender.late || !Removed(s)))
    && (s.sender.Registered? && s.sender.late ==> Removed(s))
    && (s.sender.Unregistered? ==> s.arrived == [] && s.push.Idle?)
  }

  predicate Core(s: State) { StreamOk(s) && SettleOk(s) && EntryOk(s) }

  predicate Inv(s: State) { Core(s) && WinnerOk(s) }

  lemma WriteKeepsInv(s: State)
    requires Inv(s) && s.push.Checked?
    ensures Core(ApplyPush(s))
  {
    var s' := ApplyPush(s);
    assert StreamOk(s');
    assert SettleOk(s');
  }

  lemma EnterKeepsInv(s: State)
    requires Inv(s) && s.push.Written? && Terminal(s.push.ev)
    ensures Core(ApplyPush(s))
  {
    var s' := ApplyPush(s);
    assert StreamOk(s');
    assert SettleOk(s');
    assert EntryOk(s');
  }

  /** The push moves on without writing or entering the finish. */
  lemma MoveKeepsInv(s: State)
    requires Inv(s) && !s.push.Checked? && !(s.push.Written? && Terminal(s.push.ev))
    ensures Core(ApplyPush(s))
  {
    var s' := ApplyPush(s);
    assert StreamOk(s');
    assert SettleOk(s');
  }

  lemma PushKeepsInv(s: State)
    requires Inv(s)
    ensures Core(ApplyPush(s))
  {
    if s.push.Checked? {
      WriteKeepsInv(s);
    } else if s.push.Written? && Terminal(s.push.ev) {
      EnterKeepsInv(s);
    } else {
      MoveKeepsInv(s);
    }
  }

  lemma ArriveKeepsInv(s: State, ev: Event)
    requires Inv(s)
    ensures Core(Apply(s, Arrive(ev)))
  {
    var s' := Apply(s, Arrive(ev));
    assert StreamOk(s') && SettleOk(s');
  }

  lemma SettleKeepsInv(s: State, outcome: Outcome)
    requires Inv(s)
    ensures Core(Apply(s, Settle(outcome)))
  {
    var s' := Apply(s, Settle(outcome));
    assert StreamOk(s') && SettleOk(s');
  }

  lemma FinishKeepsInv(s: State, i: nat)
    requires Inv(s) && i < |s.threads|
    ensures Core(ApplyFinish(s, i))
  {
    var s' := ApplyFinish(s, i);
    assert StreamOk(s');
    assert EntryOk(s');
  }

  lemma SenderKeepsInv(s: State, a: Action)
    requires Inv(s) && (a.Register? || a.Withdraw?)
    ensures Core(Apply(s, a))
  {
    var s' := Apply(s, a);
    assert StreamOk(s') && SettleOk(s');
  }

  lemma FinishKeepsWinner(s: State, i: nat)
    requires Inv(s) && i < |s.threads|
    ensures WinnerOk(ApplyFinish(s, i))
  {
    var s' := ApplyFinish(s, i);
    if s.winner.Some? && s.winner.value != i { assert s'.threads[s.winner.value] == s.threads[s.winner.value]; }
  }

  lemma StepKeepsWinner(s: State, a: Action)
    requires Inv(s)
    ensures WinnerOk(Apply(s, a))
  {
    if a.FinishStep? && a.thread < |s.threads| { FinishKeepsWinner(s, a.thread); }
  }

  lemma {:induction false} RunKeepsInv(acts: seq<Action>)
    ensures Inv(Run(acts))
  {
    if |acts| > 0 {
      var s, a := Run(acts[..|acts| - 1]), acts[|acts| - 1];
      RunKeepsInv(acts[..|acts| - 1]);
      StepKeepsWinner(s, a);
      match a
      case Register => SenderKeepsInv(s, a);
      case Withdraw => SenderKeepsInv(s, a);
      case PushStep => PushKeepsInv(s);
      case FinishStep(i) => if i < |s.threads| { FinishKeepsInv(s, i); }
      case Arrive(ev) => ArriveKeepsInv(s, ev);
      case Settle(outcome) => SettleKeepsInv(s, outcome);
    }
  }

  /** Whoever settles the turn from outside has asked for just that. */
  ghost predicate Asked(acts: seq<Action>, s: State) {
    && (forall i | 0 <= i < |s.threads| && s.threads[i] != Over && External(s.threads[i].outcome) :: Settle(s.threads[i].outcome) in acts)
    && (forall i | 0 <= i < |s.outcomes| && External(s.outcomes[i]) :: Settle(s.outcomes[i]) in acts)
  }

  lemma AskedStep(acts: seq<Action>, s: State, a: Action)
    requires Asked(acts, s)
    ensures Asked(acts + [a], Apply(s, a))
  {
    forall b | b in acts ensures b in acts + [a] {}
    match a
    case PushStep => AskedPush(acts, s, a);
    case FinishStep(i) => if i < |s.threads| { AskedFinish(acts, s, i); }
    case _ =>
  }

  lemma AskedPush(acts: seq<Action>, s: State, a: Action)
    requires Asked(acts, s) && a.PushStep?
    ensures Asked(acts + [a], Apply(s, a))
  {}

  lemma AskedFinish(acts: seq<Action>, s: State, i: nat)
    requires Asked(acts, s) && i < |s.threads|
    ensures Asked(acts + [FinishStep(i)], ApplyFinish(s, i))
  {}

  lemma {:induction false} RunAsked(acts: seq<Action>)
    ensures Asked(acts, Run(acts))
  {
    if |acts| > 0 {
      var init, a := acts[..|acts| - 1], acts[|acts| - 1];
      RunAsked(init);
      AskedStep(init, Run(init), a);
      assert init + [a] == acts;
    }
  }

  /** The same contract in every interleaving, and the Cancelled flag agrees with the outcome. */
  lemma KeepsContract(acts: seq<Action>)
    ensures var s := Run(acts);
            && Contract(s.arrived, s.channel, s.outcomes)
            && (|s.outcomes| == 1 ==> (s.cancelled <==> s.outcomes[0] == UserStopped))
            && (s.completed ==> s.winner.Some?)
    ensures forall o | o in Run(acts).outcomes && External(o) :: Settle(o) in acts
  {
    RunKeepsInv(acts);
    RunAsked(acts);
  }

  // ---------------------------------------------------------------- settled for good

  lemma StepSettlesForGood(s: State, a: Action)
    ensures s.outcomes <= Apply(s, a).outcomes
    ensures s.completed ==> Apply(s, a).completed && Apply(s, a).channel == s.channel
  {}

  /** An outcome once recorded is never replaced, and a completed channel gets nothing more. */
  lemma {:induction false} SettlesForGood(acts: seq<Action>, n: nat)
    requires n <= |acts|
    ensures Run(acts[..n]).outcomes <= Run(acts).outcomes
    ensures Run(acts[..n]).completed ==> Run(acts).completed && Run(acts).channel == Run(acts[..n]).channel
  {
    if n < |acts| {
      var init := acts[..|acts| - 1];
      assert init[..n] == acts[..n];
      SettlesForGood(init, n);
      StepSettlesForGood(Run(init), acts[|acts| - 1]);
    } else {
      assert acts[..n] == acts;
    }
  }

  // ---------------------------------------------------------------- progress

  function FinishWork(f: Finish): nat {
    match f
    case Enter(_) => 5
    case Won(_) => 4
    case Flagged(_) => 3
    case Sealed(_) => 2
    case Forgotten(_) => 1
    case Over => 0
  }

  function PushWork(p: Push): nat {
    match p
    case Idle => 0
    case Finishing(_) => 1
    case Written(_) => 7
    case Checked(_) => 8
    case Routed(_) => 9
  }

  function Works(threads: seq<Finish>): seq<nat> { seq(|threads|, i requires 0 <= i < |threads| => FinishWork(threads[i])) }

  /** Steps left to the threads already inside the turn. */
  function WorkLeft(s: State): nat { PushWork(s.push) + Total(Works(s.threads)) }

  lemma FinishShrinks(s: State, i: nat)
    requires i < |s.threads| && s.threads[i] != Over
    ensures WorkLeft(ApplyFinish(s, i)) < WorkLeft(s)
  {
    var f := NextFinish(s.threads[i], s.winner.Some?);
    assert Works(s.threads[i := f]) == Works(s.threads)[i := FinishWork(f)];
    TotalUpdate(Works(s.threads), i, FinishWork(f));
  }

  lemma PushShrinks(s: State)
    requires s.push != Idle && (s.push.Finishing? ==> s.push.thread < |s.threads| && s.threads[s.push.thread] == Over)
    ensures WorkLeft(ApplyPush(s)) < WorkLeft(s)
  {
    if s.push.Written? && Terminal(s.push.ev) {
      var f := Enter(OutcomeOf(s.push.ev));
      assert Works(s.threads + [f]) == Works(s.threads) + [FinishWork(f)];
      TotalAppend(Works(s.threads), FinishWork(f));
    }
  }

  /** No wedge: without locks and with room on the channel, a thread inside the turn can always take a step that brings it closer to rest. */
  lemma NoWedge(acts: seq<Action>) returns (a: Action)
    requires WorkLeft(Run(acts)) > 0
    ensures (a.PushStep? || a.FinishStep?) && WorkLeft(Apply(Run(acts), a)) < WorkLeft(Run(acts))
  {
    var s := Run(acts);
    RunKeepsInv(acts);
    if s.push.Finishing? && s.threads[s.push.thread] != Over {
      a := FinishStep(s.push.thread);
      FinishShrinks(s, s.push.thread);
    } else if s.push != Idle {
      a := PushStep;
      PushShrinks(s);
    } else {
      var i := SomePositive(Works(s.threads));
      a := FinishStep(i);
      FinishShrinks(s, i);
    }
  }

  /** At rest a turn with no outcome has delivered all that arrived, and no terminal event was among it. */
  lemma RestHeardAll(acts: seq<Action>)
    requires WorkLeft(Run(acts)) == 0 && Run(acts).outcomes == [] && !Run(acts).sender.Withdrawn?
    ensures var s := Run(acts); s.channel == s.arrived && NoTerminal(s.arrived)
  {
    var s := Run(acts);
    RunKeepsInv(acts);
    if s.winner.Some? { AllZero(Works(s.threads), s.winner.value); }
  }

  /**
   At rest, a settled turn has its channel completed and its one outcome recorded. It is
   still in the client's table exactly when it was registered after its own finish had looked
   for it there, and nobody has withdrawn it since.
   */
  lemma RestIsSettled(acts: seq<Action>)
    requires WorkLeft(Run(acts)) == 0 && Run(acts).winner.Some?
    ensures var s := Run(acts);
            s.completed && |s.outcomes| == 1 && (s.inTable <==> s.sender.Registered? && RegisteredTooLate(acts))
  {
    var s := Run(acts);
    RunKeepsInv(acts);
    AllZero(Works(s.threads), s.winner.value);
    SenderIsHistory(acts);
  }

  /** The turn is registered after its finish has looked for it in the table. */
  predicate LateNow(before: seq<Action>, a: Action) {
    a == Register && Run(before).sender == Unregistered && Removed(Run(before))
  }

  ghost predicate RegisteredTooLate(acts: seq<Action>) { Ever(acts, LateNow) }

  predicate SenderAgrees(sender: Sender, tooLate: bool) {
    (sender.Unregistered? ==> !tooLate) && (sender.Registered? ==> sender.late == tooLate)
  }

  lemma SenderNext(s: State, a: Action)
    ensures Apply(s, a).sender ==
            if a == Register && s.sender == Unregistered then Registered(Removed(s))
            else if a == Withdraw && s.sender.Registered? then Withdrawn
            else s.sender
  {}

  lemma {:induction false} SenderIsHistory(acts: seq<Action>)
    ensures SenderAgrees(Run(acts).sender, RegisteredTooLate(acts))
  {
    if |acts| > 0 {
      SenderIsHistory(acts[..|acts| - 1]);
      EverNext(acts, LateNow);
      SenderNext(Run(acts[..|acts| - 1]), acts[|acts| - 1]);
    }
  }
}
