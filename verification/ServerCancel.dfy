/**
 When `cancelled` is the last frame of its turn: the exact condition under which the gate,
 which checks and sends in two steps, keeps a server connection's trace well formed.
 */
module ServerCancel {
  import opened Basics
  import opened ServerTurn

  /** Turn t is over for good: told to stop, silent and cancelled. */
  predicate Dead(s: State, t: TurnId) {
    t < |s.turns| && !s.turns[t].live && NothingHeld(s.turns[t]) && Cancelled in Kinds(s.wire, t)
  }

  lemma DeadTurnStaysSilent(s: State, a: Action, t: TurnId)
    requires t < |s.turns| && !s.turns[t].live && NothingHeld(s.turns[t])
    ensures t < |Apply(s, a).turns| && !Apply(s, a).turns[t].live && NothingHeld(Apply(s, a).turns[t])
  {}

  lemma DeadIsNotHeard(s: State, a: Action, t: TurnId)
    requires Inv(s) && Dead(s, t) && Output(s, a).Some?
    ensures !(Output(s, a).value.OfTurn? && Output(s, a).value.turn == t)
  {
    assert TurnOk(s, t);
    CancelledIsEnded(Kinds(s.wire, t));
  }

  lemma DeadStep(s: State, a: Action, t: TurnId)
    requires Inv(s) && Dead(s, t)
    ensures Dead(Apply(s, a), t) && Kinds(Apply(s, a).wire, t) == Kinds(s.wire, t)
  {
    DeadTurnStaysSilent(s, a, t);
    WireIs(s, a);
    if Output(s, a).Some? {
      KindsNext(s.wire, Output(s, a).value, t);
      DeadIsNotHeard(s, a, t);
    }
  }

  lemma RunNext(acts: seq<Action>, a: Action)
    ensures Run(acts + [a]) == Apply(Run(acts), a)
  {
    assert (acts + [a])[..|acts|] == acts;
  }

  lemma RunMore(acts: seq<Action>, more: seq<Action>)
    requires more != []
    ensures Run(acts + more) == Apply(Run(acts + more[..|more| - 1]), more[|more| - 1])
  {
    var init, last := more[..|more| - 1], more[|more| - 1];
    assert more == init + [last];
    assert acts + more == (acts + init) + [last];
    RunNext(acts + init, last);
  }

  lemma {:induction false} DeadForever(acts: seq<Action>, more: seq<Action>, t: TurnId)
    requires Dead(Run(acts), t)
    ensures Dead(Run(acts + more), t) && Kinds(Run(acts + more).wire, t) == Kinds(Run(acts).wire, t)
  {
    if |more| == 0 {
      assert acts + more == acts;
    } else {
      DeadForever(acts, more[..|more| - 1], t);
      RunKeepsInv(acts + more[..|more| - 1]);
      DeadStep(Run(acts + more[..|more| - 1]), more[|more| - 1], t);
      RunMore(acts, more);
    }
  }

  // ---------------------------------------------------------------- one `cancelled`

  /** The send that puts out a frame the turn holds. */
  function SendOfHeld(turn: Turn): TurnAction { if turn.engineHeld then EngineSend else Send }

  /** Whatever happens after the reader's next step, no frame of turn t follows its `cancelled`. */
  ghost predicate FinalFor(acts: seq<Action>, t: TurnId) {
    forall more: seq<Action> :: !Late(Run(acts + [ByReader(EmitCancelled)] + more).wire, t)
  }

  lemma TwoMoreKinds(wire: seq<Frame>, t: TurnId, r: string, k: Kind)
    ensures Late(wire + [OfTurn(t, r, Cancelled)] + [OfTurn(t, r, k)], t)
  {
    KindsNext(wire, OfTurn(t, r, Cancelled), t);
    LateNext(wire + [OfTurn(t, r, Cancelled)], OfTurn(t, r, k), t);
  }

  lemma HeldFollows(acts: seq<Action>, t: TurnId)
    requires Run(acts).reader == Stopped(t) && t < |Run(acts).turns| && !NothingHeld(Run(acts).turns[t])
    ensures Late(Run(acts + [ByReader(EmitCancelled)] + [ByTurn(t, SendOfHeld(Run(acts).turns[t]))]).wire, t)
  {
    var s := Run(acts);
    var a := SendOfHeld(s.turns[t]);
    RunNext(acts, ByReader(EmitCancelled));
    RunNext(acts + [ByReader(EmitCancelled)], ByTurn(t, a));
    assert Sent(s.turns[t], a).Some?;
    TwoMoreKinds(s.wire, t, s.turns[t].requestId, Sent(s.turns[t], a).value);
  }

  lemma DeadOnceTold(acts: seq<Action>, t: TurnId)
    requires Run(acts).reader == Stopped(t) && t < |Run(acts).turns| && NothingHeld(Run(acts).turns[t])
    ensures Dead(Run(acts + [ByReader(EmitCancelled)]), t) && !Late(Run(acts + [ByReader(EmitCancelled)]).wire, t)
  {
    var s := Run(acts);
    RunKeepsInv(acts);
    assert TurnOk(s, t);
    CancelledIsEnded(Kinds(s.wire, t));
    RunNext(acts, ByReader(EmitCancelled));
    ToldIsDead(s, t);
    FirstOnWire(s.wire, OfTurn(t, s.turns[t].requestId, Cancelled), t);
  }

  /**
   When the reader is about to send `cancelled`, it will be the last frame of its turn in
   every continuation, if and only if no goroutine of the turn holds a frame that has passed
   the gate's check and is not sent yet.
   */
  lemma CancelIsFinal(acts: seq<Action>, t: TurnId)
    requires Run(acts).reader == Stopped(t) && t < |Run(acts).turns|
    ensures FinalFor(acts, t) <==> NothingHeld(Run(acts).turns[t])
  {
    if NothingHeld(Run(acts).turns[t]) {
      var told := acts + [ByReader(EmitCancelled)];
      DeadOnceTold(acts, t);
      forall more: seq<Action> ensures !Late(Run(told + more).wire, t) { DeadForever(told, more, t); }
    } else {
      HeldFollows(acts, t);
    }
  }

  // ---------------------------------------------------------------- a whole run

  /** The reader sends `cancelled` while its turn holds a frame past the gate's check. */
  predicate Unclean(s: State, a: Action) {
    a == ByReader(EmitCancelled) && s.reader.Stopped? && s.reader.turn < |s.turns| && !NothingHeld(s.turns[s.reader.turn])
  }

  /** Every `cancelled` of the run was sent with nothing of its turn held. */
  ghost predicate CleanCancels(acts: seq<Action>) {
    |acts| > 0 ==> CleanCancels(acts[..|acts| - 1]) && !Unclean(Run(acts[..|acts| - 1]), acts[|acts| - 1])
  }

  ghost predicate CancelledAreDead(s: State) {
    forall t: TurnId | Cancelled in Kinds(s.wire, t) :: Dead(s, t)
  }

  lemma OnlyReaderCancels(s: State, a: Action, t: TurnId)
    requires Inv(s) && Output(s, a).Some? && Output(s, a).value.OfTurn? && Output(s, a).value.turn == t && Output(s, a).value.kind == Cancelled
    ensures a == ByReader(EmitCancelled) && s.reader == Stopped(t) && t < |s.turns| && !s.turns[t].live
  {
    if t < |s.turns| { assert TurnOk(s, t); }
  }

  lemma FirstOnWire(wire: seq<Frame>, f: Frame, t: TurnId)
    requires Cancelled !in Kinds(wire, t)
    ensures !Late(wire, t) && !Late(wire + [f], t)
    ensures Cancelled in Kinds(wire + [f], t) ==> f.OfTurn? && f.turn == t && f.kind == Cancelled
  {
    UpToKeeps(Kinds(wire, t));
    KindsNext(wire, f, t);
    LateNext(wire, f, t);
  }

  lemma ToldIsDead(s: State, t: TurnId)
    requires s.reader == Stopped(t) && t < |s.turns| && !s.turns[t].live && NothingHeld(s.turns[t])
    ensures Dead(ApplyReader(s, EmitCancelled), t)
  {
    KindsNext(s.wire, OfTurn(t, s.turns[t].requestId, Cancelled), t);
  }

  lemma FirstCancelled(s: State, a: Action, t: TurnId)
    requires Inv(s) && !Unclean(s, a) && Cancelled !in Kinds(s.wire, t)
    ensures !Late(Apply(s, a).wire, t)
    ensures Cancelled in Kinds(Apply(s, a).wire, t) ==> Dead(Apply(s, a), t)
  {
    WireIs(s, a);
    if Output(s, a).Some? {
      var f := Output(s, a).value;
      FirstOnWire(s.wire, f, t);
      if f.OfTurn? && f.turn == t && f.kind == Cancelled {
        OnlyReaderCancels(s, a, t);
        ToldIsDead(s, t);
      }
    } else {
      FirstOnWire(s.wire, Reply("", false), t);
    }
  }

  /** With clean cancels, a turn whose `cancelled` is on the wire is dead. */
  lemma CleanStep(s: State, a: Action)
    requires Inv(s) && CancelledAreDead(s) && NoneLate(s.wire) && !Unclean(s, a)
    ensures CancelledAreDead(Apply(s, a)) && NoneLate(Apply(s, a).wire)
  {
    forall t: TurnId ensures !Late(Apply(s, a).wire, t) && (Cancelled in Kinds(Apply(s, a).wire, t) ==> Dead(Apply(s, a), t)) {
      if Cancelled in Kinds(s.wire, t) {
        DeadStep(s, a, t);
        assert !Late(s.wire, t);
      } else {
        FirstCancelled(s, a, t);
      }
    }
  }

  lemma {:induction false} CleanIsTimely(acts: seq<Action>)
    requires CleanCancels(acts)
    ensures NoneLate(Run(acts).wire) && CancelledAreDead(Run(acts))
  {
    if |acts| > 0 {
      CleanIsTimely(acts[..|acts| - 1]);
      RunKeepsInv(acts[..|acts| - 1]);
      CleanStep(Run(acts[..|acts| - 1]), acts[|acts| - 1]);
    } else {
      assert forall t: TurnId :: Kinds(Run(acts).wire, t) == [];
    }
  }

  /** A frame waits behind the turn's `cancelled`, or has followed it already. */
  ghost predicate Spoilt(s: State, t: TurnId) {
    t < |s.turns| && (Late(s.wire, t) || (Cancelled in Kinds(s.wire, t) && !NothingHeld(s.turns[t])))
  }

  lemma HeldUntilSent(turn: Turn, a: TurnAction)
    requires !NothingHeld(turn)
    ensures !NothingHeld(StepTurn(turn, a)) || Sent(turn, a).Some?
  {}

  lemma OthersUntouched(s: State, a: Action, t: TurnId)
    requires t < |s.turns| && !(a.ByTurn? && a.t == t)
    ensures t < |Apply(s, a).turns| && NothingHeld(Apply(s, a).turns[t]) == NothingHeld(s.turns[t])
  {}

  lemma SpoiltStays(s: State, a: Action, t: TurnId)
    requires Spoilt(s, t)
    ensures Spoilt(Apply(s, a), t)
  {
    WireIs(s, a);
    if Output(s, a).Some? {
      LateNext(s.wire, Output(s, a).value, t);
      KindsNext(s.wire, Output(s, a).value, t);
    }
    if a.ByTurn? && a.t == t {
      if !NothingHeld(s.turns[t]) { HeldUntilSent(s.turns[t], a.a); }
    } else {
      OthersUntouched(s, a, t);
    }
  }

  lemma {:induction false} UncleanSpoils(acts: seq<Action>) returns (t: TurnId)
    requires !CleanCancels(acts)
    ensures Spoilt(Run(acts), t)
  {
    var init, a := acts[..|acts| - 1], acts[|acts| - 1];
    if CleanCancels(init) {
      t := Run(init).reader.turn;
      KindsNext(Run(init).wire, OfTurn(t, Run(init).turns[t].requestId, Cancelled), t);
    } else {
      t := UncleanSpoils(init);
      SpoiltStays(Run(init), a, t);
    }
  }

  predicate NoCancelled(acts: seq<Action>) { ByReader(EmitCancelled) !in acts }

  /** The run's trace is well formed, and stays so as long as no further `cancelled` is sent. */
  ghost predicate StaysOk(acts: seq<Action>) {
    forall more | NoCancelled(more) :: TraceOk(Run(acts + more).wire)
  }

  lemma {:induction false} CleanExtends(acts: seq<Action>, more: seq<Action>)
    requires CleanCancels(acts) && NoCancelled(more)
    ensures CleanCancels(acts + more)
  {
    if |more| == 0 {
      assert acts + more == acts;
    } else {
      CleanExtends(acts, more[..|more| - 1]);
      assert (acts + more)[..|acts + more| - 1] == acts + more[..|more| - 1];
      assert more[|more| - 1] in more;
    }
  }

  /** A run with a frame held behind the turn's `cancelled` is followed by one that sends it. */
  lemma HeldBreaks(acts: seq<Action>, t: TurnId) returns (a: Action)
    requires t < |Run(acts).turns| && Cancelled in Kinds(Run(acts).wire, t) && !NothingHeld(Run(acts).turns[t])
    ensures a.ByTurn? && Late(Run(acts + [a]).wire, t)
  {
    var s := Run(acts);
    a := ByTurn(t, SendOfHeld(s.turns[t]));
    RunNext(acts, a);
    LateNext(s.wire, OfTurn(t, s.turns[t].requestId, Sent(s.turns[t], a.a).value), t);
  }

  lemma SpoiltBreaks(acts: seq<Action>, t: TurnId)
    requires Spoilt(Run(acts), t)
    ensures !StaysOk(acts)
  {
    if Late(Run(acts).wire, t) {
      assert acts + [] == acts && NoCancelled([]);
      LateIsNoShape(Run(acts).wire, t);
    } else {
      var a := HeldBreaks(acts, t);
      LateIsNoShape(Run(acts + [a]).wire, t);
      assert NoCancelled([a]);
    }
  }

  /**
   The exact condition of the trace property, read off each state in which `cancelled` is
   about to be sent: a run's trace is and stays well formed if and only if every `cancelled`
   was sent while no goroutine of its turn held a frame past the gate's check.
   */
  lemma CleanExactly(acts: seq<Action>)
    ensures CleanCancels(acts) <==> StaysOk(acts)
  {
    if CleanCancels(acts) {
      forall more | NoCancelled(more) ensures TraceOk(Run(acts + more).wire) {
        CleanExtends(acts, more);
        CleanIsTimely(acts + more);
        TimelyTrace(acts + more);
      }
    } else {
      var t := UncleanSpoils(acts);
      SpoiltBreaks(acts, t);
    }
  }
}
