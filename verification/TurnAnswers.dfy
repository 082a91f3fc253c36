/**
 What a turn tells its client, read off the history of the connection: the answer it sends is
 the one its run came back with, and every frame of it carries the request id it was asked
 under.
 */
module TurnAnswers {
  import opened Basics
  import opened History
  import opened ServerTurn

  // ---------------------------------------------------------------- what the run came back with

  /** This step makes turn t's run return, and `ok` is whether it succeeded. */
  predicate Returns(s: State, a: Action, t: TurnId, ok: bool) {
    a == ByTurn(t, RunReturns(ok)) && t < |s.turns| && MayReturn(s.turns[t], ok)
  }

  predicate ReturnsNow(before: seq<Action>, a: Action, t: TurnId, ok: bool) { Returns(Run(before), a, t, ok) }

  ghost predicate RunSucceeded(acts: seq<Action>, t: TurnId) { Ever(acts, (h, a) => ReturnsNow(h, a, t, true)) }

  ghost predicate RunFailed(acts: seq<Action>, t: TurnId) { Ever(acts, (h, a) => ReturnsNow(h, a, t, false)) }

  /** The turn's goroutine is past its run. */
  predicate PastRun(p: Phase) { p != Installing && p != Running }

  /** Where the goroutine of an uncancelled turn may be, by what its run came back with. */
  predicate PhaseFits(p: Phase, yes: bool, no: bool) {
    && !(yes && no)
    && (PastRun(p) <==> yes || no)
    && (p.Returned? ==> p.ok == yes)
    && (p == Failing ==> no)
    && (p in {Offering, Prompted, Responding} || p.Delivered? ==> yes)
  }

  /** The answer, on the wire or held by the goroutine that is about to put it there. */
  predicate Answer(turn: Turn, kinds: seq<Kind>, k: Kind) { k in kinds || turn.held == Some(k) }

  predicate AnswerFits(turn: Turn, kinds: seq<Kind>, yes: bool, no: bool) {
    && PhaseFits(turn.phase, yes, no)
    && (Answer(turn, kinds, Response) <==> yes && (turn.phase == Unwinding || turn.phase in Finished))
    && (Answer(turn, kinds, Failed) <==> no && (turn.phase == Unwinding || turn.phase in Finished))
  }


  lemma AnswerStep(turn: Turn, kinds: seq<Kind>, yes: bool, no: bool, a: TurnAction)
    requires HeldOk(turn) && !turn.aborted && turn.phase != Installing && AnswerFits(turn, kinds, yes, no)
    ensures var kinds' := if Sent(turn, a).Some? then kinds + [Sent(turn, a).value] else kinds;
            var back := a.RunReturns? && MayReturn(turn, a.success);
            AnswerFits(StepTurn(turn, a), kinds', yes || (back && a.success), no || (back && !a.success))
  {
    match a
    case Advance =>
    case Send =>
    case EngineSend =>
    case _ =>
  }

  /** Turn t, when it is not cancelled, by what its run came back with so far. */
  ghost predicate TurnFits(s: State, t: TurnId, yes: bool, no: bool) {
    if t < |s.turns| then !s.turns[t].aborted ==> AnswerFits(s.turns[t], Kinds(s.wire, t), yes, no) else !yes && !no
  }

  /** One step of turn t: its record moves, and the frame it sends is the next of its own. */
  lemma OwnStepMoves(s: State, t: TurnId, a: TurnAction)
    requires t < |s.turns|
    ensures var s', out := ApplyTurn(s, t, a), Sent(s.turns[t], a);
            && t < |s'.turns| && s'.turns[t] == StepTurn(s.turns[t], a)
            && Kinds(s'.wire, t) == if out.Some? then Kinds(s.wire, t) + [out.value] else Kinds(s.wire, t)
  {
    if Sent(s.turns[t], a).Some? { KindsNext(s.wire, OfTurn(t, s.turns[t].requestId, Sent(s.turns[t], a).value), t); }
  }

  lemma StepKeepsAborted(turn: Turn, a: TurnAction)
    ensures StepTurn(turn, a).aborted == turn.aborted
  {}

  lemma OwnStepFits(s: State, t: TurnId, a: TurnAction, yes: bool, no: bool)
    requires Inv(s) && t < |s.turns| && TurnFits(s, t, yes, no)
    ensures TurnFits(ApplyTurn(s, t, a), t, yes || Returns(s, ByTurn(t, a), t, true), no || Returns(s, ByTurn(t, a), t, false))
  {
    assert HeldOk(s.turns[t]) by { assert TurnOk(s, t); }
    StepKeepsAborted(s.turns[t], a);
    if s.turns[t].phase == Installing {
      InstallingStays(s, t, a);
    } else if !s.turns[t].aborted {
      OwnStepMoves(s, t, a);
      AnswerStep(s.turns[t], Kinds(s.wire, t), yes, no, a);
    }
  }

  lemma OtherStepFits(s: State, u: TurnId, a: TurnAction, t: TurnId, yes: bool, no: bool)
    requires u < |s.turns| && u != t && TurnFits(s, t, yes, no)
    ensures TurnFits(ApplyTurn(s, u, a), t, yes, no)
  {
    if Sent(s.turns[u], a).Some? { KindsNext(s.wire, OfTurn(u, s.turns[u].requestId, Sent(s.turns[u], a).value), t); }
  }

  lemma ReaderSends(s: State, r: ReaderAction, t: TurnId)
    ensures var out := Output(s, ByReader(r));
            Kinds(ApplyReader(s, r).wire, t) ==
            if out.Some? && out.value.OfTurn? && out.value.turn == t then Kinds(s.wire, t) + [out.value.kind] else Kinds(s.wire, t)
  {
    WireIs(s, ByReader(r));
    if Output(s, ByReader(r)).Some? { KindsNext(s.wire, Output(s, ByReader(r)).value, t); }
  }

  /** A new turn has sent its ack, and one whose `cancelled` is about to go out is aborted. */
  lemma ReaderStepFits(s: State, r: ReaderAction, t: TurnId, yes: bool, no: bool)
    requires Inv(s) && TurnFits(s, t, yes, no)
    ensures TurnFits(ApplyReader(s, r), t, yes, no)
  {
    ReaderSends(s, r, t);
    match r
    case EmitAck => if t == |s.turns| { NoFrames(s.wire, t); }
    case Spawn =>
    case CancelContext =>
    case EmitCancelled =>
    case _ =>
  }

  lemma {:induction false} RunFits(acts: seq<Action>, t: TurnId)
    ensures TurnFits(Run(acts), t, RunSucceeded(acts, t), RunFailed(acts, t))
  {
    if |acts| > 0 {
      var init, a := acts[..|acts| - 1], acts[|acts| - 1];
      RunFits(init, t);
      RunKeepsInv(init);
      EverNext(acts, (h, b) => ReturnsNow(h, b, t, true));
      EverNext(acts, (h, b) => ReturnsNow(h, b, t, false));
      match a
      case ByReader(r) => ReaderStepFits(Run(init), r, t, RunSucceeded(init, t), RunFailed(init, t));
      case ByTurn(u, ta) =>
        if u == t && t < |Run(init).turns| {
          OwnStepFits(Run(init), t, ta, RunSucceeded(init, t), RunFailed(init, t));
        } else if u < |Run(init).turns| {
          OtherStepFits(Run(init), u, ta, t, RunSucceeded(init, t), RunFailed(init, t));
        }
    }
  }

  lemma FinishedHoldsNothing(acts: seq<Action>, t: TurnId)
    requires t < |Run(acts).turns| && Run(acts).turns[t].phase in Finished
    ensures Run(acts).turns[t].held.None?
  {
    RunKeepsInv(acts);
    assert TurnOk(Run(acts), t);
  }

  /**
   A turn that ran to its end uncancelled sent its eventual_response if and only if its run
   succeeded, and INTERNAL_ERROR if and only if its run failed; it did one of the two.
   */
  lemma AnswersWhatRunReturned(acts: seq<Action>, t: TurnId)
    requires t < |Run(acts).turns| && Run(acts).turns[t].phase in Finished && !Run(acts).turns[t].aborted
    ensures Response in Kinds(Run(acts).wire, t) <==> RunSucceeded(acts, t)
    ensures Failed in Kinds(Run(acts).wire, t) <==> RunFailed(acts, t)
    ensures RunSucceeded(acts, t) <==> !RunFailed(acts, t)
  {
    RunFits(acts, t);
    FinishedHoldsNothing(acts, t);
  }

  // ---------------------------------------------------------------- whether a code failed to go out

  /** This step is the delivery of a verification code for turn t, and it fails. */
  predicate FailsDelivery(s: State, a: Action, t: TurnId) {
    && a == ByTurn(t, SendOtp(false)) && t < |s.turns|
    && s.turns[t].phase == Prompted && s.turns[t].held.None? && s.turns[t].live
  }

  predicate FailsDeliveryNow(before: seq<Action>, a: Action, t: TurnId) { FailsDelivery(Run(before), a, t) }

  ghost predicate DeliveryFailed(acts: seq<Action>, t: TurnId) { Ever(acts, (h, a) => FailsDeliveryNow(h, a, t)) }

  predicate HasOtpFailed(s: State, t: TurnId) { t < |s.turns| && s.turns[t].otpFailed }

  lemma DeliveryStep(s: State, a: Action, t: TurnId)
    requires Inv(s)
    ensures HasOtpFailed(Apply(s, a), t) <==> HasOtpFailed(s, t) || FailsDelivery(s, a, t)
  {
    match a
    case ByReader(r) => ReaderLeavesOtp(s, r, t);
    case ByTurn(u, ta) =>
      if u == t && t < |s.turns| {
        assert HeldOk(s.turns[t]) && ScanFits(ScanOf(s, t), s.turns[t]) by { assert TurnOk(s, t); }
        OwnDelivery(s.turns[t], ScanOf(s, t), ta);
      }
  }

  /** A code is delivered once a turn at most, so nothing clears the mark. */
  lemma OwnDelivery(turn: Turn, q: Scan, a: TurnAction)
    requires HeldOk(turn) && ScanFits(q, turn)
    ensures StepTurn(turn, a).otpFailed <==>
            turn.otpFailed || (a == SendOtp(false) && turn.phase == Prompted && turn.held.None? && turn.live)
  {}

  lemma ReaderLeavesOtp(s: State, r: ReaderAction, t: TurnId)
    ensures HasOtpFailed(ApplyReader(s, r), t) <==> HasOtpFailed(s, t)
  {}

  lemma {:induction false} OtpFailedExactly(acts: seq<Action>, t: TurnId)
    ensures HasOtpFailed(Run(acts), t) <==> DeliveryFailed(acts, t)
  {
    if |acts| > 0 {
      OtpFailedExactly(acts[..|acts| - 1], t);
      RunKeepsInv(acts[..|acts| - 1]);
      EverNext(acts, (h, a) => FailsDeliveryNow(h, a, t));
      DeliveryStep(Run(acts[..|acts| - 1]), acts[|acts| - 1], t);
    }
  }

  // ---------------------------------------------------------------- the whole trace

  /** How a turn ends, by what happened in its run. */
  ghost function EndingOf(acts: seq<Action>, t: TurnId): seq<Kind> {
    if RunFailed(acts, t) then [Failed] else if DeliveryFailed(acts, t) then [OtpFailed, Response] else [Response]
  }

  /** The whole trace of a turn that ran to its end uncancelled: what it ends with is what happened to it. */
  lemma WholeTrace(acts: seq<Action>, t: TurnId) returns (n: nat)
    requires t < |Run(acts).turns| && Run(acts).turns[t].phase in Finished && !Run(acts).turns[t].aborted
    ensures Kinds(Run(acts).wire, t) == [Ack] + Streams(n) + EndingOf(acts, t)
  {
    var kinds := Kinds(Run(acts).wire, t);
    RunKeepsInv(acts);
    n := TraceRead(Run(acts), t);
    OtpFailedExactly(acts, t);
    AnswersWhatRunReturned(acts, t);
    EndsWith(kinds, Run(acts).turns[t].otpFailed, n);
  }

  lemma TraceRead(s: State, t: TurnId) returns (n: nat)
    requires Inv(s) && t < |s.turns| && s.turns[t].phase in Finished && !s.turns[t].aborted
    ensures Reads(Kinds(s.wire, t), Settled(s.turns[t].otpFailed), n)
  {
    assert TurnOk(s, t);
    n := ScanSound(Kinds(s.wire, t));
    CancelledIsEnded(Kinds(s.wire, t));
    UpToKeeps(Kinds(s.wire, t));
  }

  lemma EndsWith(kinds: seq<Kind>, warned: bool, n: nat)
    requires Reads(kinds, Settled(warned), n)
    ensures kinds == [Ack] + Streams(n) + (if warned then [OtpFailed, Response] else if Failed in kinds then [Failed] else [Response])
    ensures warned ==> Failed !in kinds
  {
    var base := [Ack] + Streams(n);
    assert forall k | k in base :: k == Ack || k == Stream;
    if !warned && kinds == base + [Failed] { assert kinds[|base|] == Failed; }
  }

  // ---------------------------------------------------------------- under which id

  predicate Decides(a: Action) { a == ByReader(EmitAck) || a == ByReader(Reject) }

  lemma {:induction false} StaysAccepted(acts: seq<Action>, mid: seq<Action>, id: string)
    requires Run(acts).reader == Accepting(id) && forall i | 0 <= i < |mid| :: !Decides(mid[i])
    ensures Run(acts + mid).reader == Accepting(id)
  {
    if |mid| == 0 {
      assert acts + mid == acts;
    } else {
      StaysAccepted(acts, mid[..|mid| - 1], id);
      assert (acts + mid)[..|acts + mid| - 1] == acts + mid[..|mid| - 1];
    }
  }

  lemma StepKeepsId(s: State, a: Action, t: TurnId)
    requires t < |s.turns|
    ensures t < |Apply(s, a).turns| && Apply(s, a).turns[t].requestId == s.turns[t].requestId
  {
    match a
    case ByReader(r) => ReaderKeepsId(s, r, t);
    case ByTurn(u, ta) => if u == t { TurnStepKeepsId(s.turns[t], ta); }
  }

  lemma TurnStepKeepsId(turn: Turn, a: TurnAction)
    ensures StepTurn(turn, a).requestId == turn.requestId
  {}

  lemma ReaderKeepsId(s: State, r: ReaderAction, t: TurnId)
    requires t < |s.turns|
    ensures t < |ApplyReader(s, r).turns| && ApplyReader(s, r).turns[t].requestId == s.turns[t].requestId
  {}

  lemma {:induction false} IdStays(acts: seq<Action>, more: seq<Action>, t: TurnId)
    requires t < |Run(acts).turns|
    ensures t < |Run(acts + more).turns| && Run(acts + more).turns[t].requestId == Run(acts).turns[t].requestId
  {
    if |more| == 0 {
      assert acts + more == acts;
    } else {
      IdStays(acts, more[..|more| - 1], t);
      assert (acts + more)[..|acts + more| - 1] == acts + more[..|more| - 1];
      StepKeepsId(Run(acts + more[..|more| - 1]), more[|more| - 1], t);
    }
  }

  /**
   A turn answers under the id it was asked under: the turn acknowledged for a send_message
   carries the frame's own request id, or the minted one if it had none, on its ack and on
   every frame it ever sends.
   */
  lemma AnswersUnderItsId(acts: seq<Action>, r: string, minted: string, mid: seq<Action>, more: seq<Action>)
    requires Run(acts).reader == Idle && Run(acts).current.None? && minted != ""
    requires forall i | 0 <= i < |mid| :: !Decides(mid[i])
    ensures var before := acts + [ByReader(RecvSend(r, minted))] + mid;
            var t, id := |Run(before).turns|, if r == "" then minted else r;
            && Run(before + [ByReader(EmitAck)]).wire == Run(before).wire + [OfTurn(t, id, Ack)]
            && forall f | f in Run(before + [ByReader(EmitAck)] + more).wire && f.OfTurn? && f.turn == t :: f.requestId == id
  {
    var asked := acts + [ByReader(RecvSend(r, minted))];
    var before := asked + mid;
    var acked := before + [ByReader(EmitAck)];
    var id := if r == "" then minted else r;
    assert asked[..|acts|] == acts;
    StaysAccepted(asked, mid, id);
    assert acked[..|before|] == before;
    IdStays(acked, more, |Run(before).turns|);
    RunKeepsInv(acked + more);
  }

  // ---------------------------------------------------------------- who is told of a stop

  /** A cancel frame takes turn t out of the slot. */
  predicate AsksToStop(s: State, a: Action, t: TurnId) { a == ByReader(RecvCancel) && s.reader == Idle && s.current == Some(t) }

  predicate AsksNow(before: seq<Action>, a: Action, t: TurnId) { AsksToStop(Run(before), a, t) }

  ghost predicate AskedToStop(acts: seq<Action>, t: TurnId) { Ever(acts, (h, a) => AsksNow(h, a, t)) }

  /** The reader is on its way to telling turn t's client. */
  predicate Telling(s: State, t: TurnId) { s.reader == Took(t, true) || s.reader == Stopped(t) }

  ghost predicate ToldFits(s: State, t: TurnId, asked: bool) {
    asked <==> Telling(s, t) || Cancelled in Kinds(s.wire, t)
  }

  /** No goroutine of a turn sends `cancelled`. */
  lemma TurnSendsNoCancelled(turn: Turn, a: TurnAction)
    requires HeldOk(turn)
    ensures Sent(turn, a) != Some(Cancelled)
  {}

  lemma TurnStepTold(s: State, u: TurnId, a: TurnAction, t: TurnId, asked: bool)
    requires Inv(s) && u < |s.turns| && ToldFits(s, t, asked)
    ensures ToldFits(ApplyTurn(s, u, a), t, asked)
  {
    assert HeldOk(s.turns[u]) by { assert TurnOk(s, u); }
    TurnSendsNoCancelled(s.turns[u], a);
    if Sent(s.turns[u], a).Some? { KindsNext(s.wire, OfTurn(u, s.turns[u].requestId, Sent(s.turns[u], a).value), t); }
  }

  lemma EmitCancelledTold(s: State, t: TurnId, asked: bool)
    requires SlotOk(s) && s.reader.Stopped? && ToldFits(s, t, asked)
    ensures ToldFits(ApplyReader(s, EmitCancelled), t, asked)
  {
    KindsNext(s.wire, OfTurn(s.reader.turn, s.turns[s.reader.turn].requestId, Cancelled), t);
  }

  /** The reader's other steps put no `cancelled` on the wire. */
  lemma OtherOutput(s: State, r: ReaderAction)
    requires r != EmitCancelled && Output(s, ByReader(r)).Some?
    ensures !(Output(s, ByReader(r)).value.OfTurn? && Output(s, ByReader(r)).value.kind == Cancelled)
  {}

  lemma TellingStep(s: State, r: ReaderAction, t: TurnId)
    requires SlotOk(s) && r != EmitCancelled
    ensures Telling(ApplyReader(s, r), t) <==> Telling(s, t) || AsksToStop(s, ByReader(r), t)
  {}

  lemma ToldStep(s: State, a: Action, t: TurnId, asked: bool)
    requires Inv(s) && ToldFits(s, t, asked)
    ensures ToldFits(Apply(s, a), t, asked || AsksToStop(s, a, t))
  {
    match a
    case ByTurn(u, ta) => if u < |s.turns| { TurnStepTold(s, u, ta, t, asked); }
    case ByReader(r) =>
      if r == EmitCancelled {
        if s.reader.Stopped? { EmitCancelledTold(s, t, asked); }
      } else {
        WireIs(s, a);
        if Output(s, a).Some? {
          KindsNext(s.wire, Output(s, a).value, t);
          OtherOutput(s, r);
        }
        TellingStep(s, r, t);
      }
  }

  lemma {:induction false} RunTold(acts: seq<Action>, t: TurnId)
    ensures ToldFits(Run(acts), t, AskedToStop(acts, t))
  {
    if |acts| > 0 {
      RunTold(acts[..|acts| - 1], t);
      RunKeepsInv(acts[..|acts| - 1]);
      EverNext(acts, (h, a) => AsksNow(h, a, t));
      ToldStep(Run(acts[..|acts| - 1]), acts[|acts| - 1], t, AskedToStop(acts[..|acts| - 1], t));
    }
  }

  /**
   Who is told of a stop: once the reader is through with it, a turn's client has been sent
   `cancelled` if and only if a cancel frame took that turn out of the slot. A disconnect
   stops the turn and tells nobody.
   */
  lemma ToldIffAsked(acts: seq<Action>, t: TurnId)
    requires Run(acts).reader == Idle || Run(acts).reader == Stopping
    ensures Cancelled in Kinds(Run(acts).wire, t) <==> AskedToStop(acts, t)
  {
    RunTold(acts, t);
  }

  // ---------------------------------------------------------------- the slot and the goroutine

  /** A turn that has ended leaves the slot free, so the next message is taken. */
  lemma EndedLeavesTheSlot(acts: seq<Action>, t: TurnId)
    requires t < |Run(acts).turns| && Run(acts).turns[t].phase in Finished
    ensures Run(acts).current != Some(t)
  {
    RunKeepsInv(acts);
  }

  /** An uncancelled turn at work stays in the slot, so a cancel finds it and another message is refused. */
  lemma WorkKeepsTheSlot(acts: seq<Action>, t: TurnId)
    requires t < |Run(acts).turns| && !Quiet(Run(acts).turns[t]) && Run(acts).turns[t].phase != Installing && Run(acts).reader == Idle
    ensures Run(acts).current == Some(t)
  {
    RunKeepsInv(acts);
    assert TurnOk(Run(acts), t);
  }

  /** Steps left to a goroutine past its run. */
  function StepsLeft(turn: Turn): nat {
    (if turn.held.Some? then 1 else 0) +
    match turn.phase
    case Returned(_) => 13
    case Offering => 12
    case Prompted => 10
    case Delivered(_) => 9
    case Responding => 7
    case Failing => 7
    case Unwinding => 5
    case Vacated => 4
    case Released => 3
    case _ => 0
  }

  /** Past its run a turn's goroutine can always take a step, and few are left: it comes to its end by itself. */
  lemma TurnRunsOut(turn: Turn) returns (a: TurnAction)
    requires PastRun(turn.phase) && turn.phase != Gone
    ensures a == Send || a == Advance || a == CheckResult(false) || a == SendOtp(true)
    ensures PastRun(StepTurn(turn, a).phase) && StepsLeft(StepTurn(turn, a)) < StepsLeft(turn)
  {
    a := if turn.held.Some? then Send
         else if turn.phase.Returned? then CheckResult(false)
         else if turn.phase == Prompted then SendOtp(true)
         else Advance;
  }
}
