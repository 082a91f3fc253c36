/**
 What a `submit_interaction` comes to over whole runs, with other steps of the connection
 between the handler's peek, its validation and its resolve.
 */
module SubmitRuns {
  import opened Basics
  import opened Interactions

  /** Why a submit is refused: the park is another one, or there are no values its validator accepts. */
  predicate Refuses(v: Validator, p: Pending, f: Frame) {
    || f.id != p.id || (f.kind != "" && f.kind != p.kind)
    || (!f.declined && (f.values.None? || !v(p.kind, p.spec, f.values.value).Accepted?))
  }

  /** The submit names a park, as the registry stands when it arrives. */
  predicate Finds(r: Registry, f: Frame) { f.sid != "" && f.visible && f.sid in r.pending }

  /** Nothing the submit asks for can be done. */
  predicate Futile(v: Validator, r: Registry, f: Frame) { Finds(r, f) ==> Refuses(v, r.pending[f.sid], f) }

  /** The outcome an acceptable submit carries. */
  function OutcomeOf(v: Validator, p: Pending, f: Frame): Outcome
    requires !Refuses(v, p, f)
  {
    if f.declined then Declined else Submitted(v(p.kind, p.spec, f.values.value).values)
  }

  // ---------------------------------------------------------------- runs from a state

  function Next(v: Validator, s: System, a: Action): System { Step(v, s, a).(clock := s.clock + 1) }

  function Go(v: Validator, s: System, acts: seq<Action>): System {
    if |acts| == 0 then s else Next(v, Go(v, s, acts[..|acts| - 1]), acts[|acts| - 1])
  }

  /** The read loop is inside the handler: it takes no other frame. */
  predicate Meanwhile(acts: seq<Action>) { forall i | 0 <= i < |acts| :: !acts[i].Submit? && !acts[i].HandlerStep? }

  lemma {:induction false} RunIsGo(v: Validator, acts: seq<Action>, more: seq<Action>)
    ensures Run(v, acts + more) == Go(v, Run(v, acts), more)
  {
    if |more| == 0 {
      assert acts + more == acts;
    } else {
      RunIsGo(v, acts, more[..|more| - 1]);
      assert (acts + more)[..|acts + more| - 1] == acts + more[..|more| - 1];
    }
  }

  lemma RunIsNext(v: Validator, acts: seq<Action>, a: Action)
    ensures Run(v, acts + [a]) == Next(v, Run(v, acts), a)
  {
    assert (acts + [a])[..|acts|] == acts;
  }

  lemma {:induction false} GoAppend(v: Validator, s: System, m1: seq<Action>, m2: seq<Action>)
    ensures Go(v, s, m1 + m2) == Go(v, Go(v, s, m1), m2)
  {
    if |m2| == 0 {
      assert m1 + m2 == m1;
    } else {
      GoAppend(v, s, m1, m2[..|m2| - 1]);
      assert (m1 + m2)[..|m1 + m2| - 1] == m1 + m2[..|m2| - 1];
    }
  }

  lemma NextRegOk(v: Validator, s: System, a: Action)
    requires RegOk(v, s)
    ensures RegOk(v, Next(v, s, a))
  {
    StepRegOk(v, s, a);
    ClockIsFree(v, Step(v, s, a), s.clock + 1);
  }

  lemma ClockIsFree(v: Validator, s: System, n: nat)
    requires RegOk(v, s)
    ensures RegOk(v, s.(clock := n))
  {}

  lemma {:induction false} GoRegOk(v: Validator, s: System, acts: seq<Action>)
    requires RegOk(v, s)
    ensures RegOk(v, Go(v, s, acts))
  {
    if |acts| > 0 {
      GoRegOk(v, s, acts[..|acts| - 1]);
      NextRegOk(v, Go(v, s, acts[..|acts| - 1]), acts[|acts| - 1]);
    }
  }

  // ---------------------------------------------------------------- what the handler does not touch

  /** The systems differ in what the handler is doing at most. */
  predicate SameWorld(s1: System, s2: System) { s1.reg == s2.reg && s1.raises == s2.raises }

  lemma HandlerWaits(v: Validator, s: System, a: Action)
    requires !a.Submit? && !a.HandlerStep?
    ensures Next(v, s, a).handler == s.handler && Next(v, s, a).reply == s.reply
  {}

  lemma NextAlike(v: Validator, s1: System, s2: System, a: Action)
    requires SameWorld(s1, s2) && !a.Submit? && !a.HandlerStep?
    ensures SameWorld(Next(v, s1, a), Next(v, s2, a))
  {}

  lemma {:induction false} GoAlike(v: Validator, s1: System, s2: System, mid: seq<Action>)
    requires SameWorld(s1, s2) && Meanwhile(mid)
    ensures SameWorld(Go(v, s1, mid), Go(v, s2, mid))
  {
    if |mid| > 0 {
      GoAlike(v, s1, s2, mid[..|mid| - 1]);
      NextAlike(v, Go(v, s1, mid[..|mid| - 1]), Go(v, s2, mid[..|mid| - 1]), mid[|mid| - 1]);
    }
  }

  lemma {:induction false} GoWaits(v: Validator, s: System, mid: seq<Action>)
    requires Meanwhile(mid)
    ensures Go(v, s, mid).handler == s.handler && Go(v, s, mid).reply == s.reply
  {
    if |mid| > 0 {
      GoWaits(v, s, mid[..|mid| - 1]);
      HandlerWaits(v, Go(v, s, mid[..|mid| - 1]), mid[|mid| - 1]);
    }
  }

  // ---------------------------------------------------------------- a refused submit

  lemma FutileSubmit(v: Validator, s: System, f: Frame)
    requires s.handler == Idle && Futile(v, s.reg, f)
    ensures var s1 := Next(v, s, Submit(f));
            && SameWorld(s1, s)
            && (if Finds(s.reg, f) then s1.handler == Peeked(s.reg.pending[f.sid], s.clock, f) else s1.handler == Idle && s1.reply != Acknowledged)
  {}

  lemma RefusedIsDone(v: Validator, s: System)
    requires if s.handler.Peeked? then Refuses(v, s.handler.p, s.handler.frame) else s.handler == Idle && s.reply != Acknowledged
    ensures var s' := Next(v, s, HandlerStep); SameWorld(s', s) && s'.handler == Idle && s'.reply != Acknowledged
  {}

  /**
   A refused submit leaves no trace: whatever else happens while it is handled, parks coming
   and going included, the registry, the channels and every raise are those of the same run
   without it. So a raise that was parked stays parked and can be answered by a later submit.
   */
  lemma InvalidLeavesPark(v: Validator, acts: seq<Action>, f: Frame, mid: seq<Action>)
    requires Run(v, acts).handler == Idle && Futile(v, Run(v, acts).reg, f) && Meanwhile(mid)
    ensures var told, quiet := Run(v, acts + [Submit(f)] + mid + [HandlerStep]), Run(v, acts + mid);
            SameWorld(told, quiet) && told.handler == Idle && told.reply != Acknowledged
  {
    var s := Run(v, acts);
    var s1 := Next(v, s, Submit(f));
    FutileSubmit(v, s, f);
    GoAlike(v, s1, s, mid);
    GoWaits(v, s1, mid);
    RefusedIsDone(v, Go(v, s1, mid));
    RunIsNext(v, acts, Submit(f));
    RunIsGo(v, acts + [Submit(f)], mid);
    RunIsGo(v, acts, mid);
    RunIsNext(v, acts + [Submit(f)] + mid, HandlerStep);
  }

  // ---------------------------------------------------------------- how long a raise stays parked

  /** The action ends the park a session has, as the raises stand. */
  predicate EndsPark(raises: seq<Raise>, a: Action, sid: SessionId) {
    (a.Park? && a.sid == sid && FreshId(raises, a.id)) || a == Clear(sid) || a == Teardown
  }

  /** No action of `mid`, from state s on, ends the session's park. */
  ghost predicate Undisturbed(v: Validator, s: System, mid: seq<Action>, sid: SessionId) {
    |mid| > 0 ==>
      Undisturbed(v, s, mid[..|mid| - 1], sid) && !EndsPark(Go(v, s, mid[..|mid| - 1]).raises, mid[|mid| - 1], sid)
  }

  predicate IsParked(s: System, i: nat) { i < |s.raises| && s.raises[i].fate == Parked }

  predicate SameRaise(s: System, s': System, i: nat) {
    i < |s.raises| && i < |s'.raises| && s'.raises[i].sid == s.raises[i].sid && s'.raises[i].id == s.raises[i].id
  }

  lemma RaiseStays(v: Validator, s: System, a: Action, i: nat)
    requires i < |s.raises| && !a.Submit? && !a.HandlerStep?
    ensures SameRaise(s, Next(v, s, a), i)
  {}

  /** While the handler does not move, a raise stays parked until its park is ended, and then it is over. */
  lemma ParkStep(v: Validator, s: System, a: Action, i: nat)
    requires RegOk(v, s) && i < |s.raises| && !a.Submit? && !a.HandlerStep?
    ensures IsParked(Next(v, s, a), i) <==> IsParked(s, i) && !EndsPark(s.raises, a, s.raises[i].sid)
  {
    assert s.raises[i].fate == Parked <==> IsPending(s, i);
    if a.Teardown? { TeardownRegOk(v, s); }
  }

  /** A raise is still parked after `mid` exactly when nothing in it ended its park. */
  lemma {:induction false} ParkedWhileUndisturbed(v: Validator, s: System, mid: seq<Action>, i: nat)
    requires RegOk(v, s) && IsParked(s, i) && Meanwhile(mid)
    ensures SameRaise(s, Go(v, s, mid), i)
    ensures IsParked(Go(v, s, mid), i) <==> Undisturbed(v, s, mid, s.raises[i].sid)
  {
    if |mid| > 0 {
      var init, a := mid[..|mid| - 1], mid[|mid| - 1];
      ParkedWhileUndisturbed(v, s, init, i);
      GoRegOk(v, s, init);
      RaiseStays(v, Go(v, s, init), a, i);
      ParkStep(v, Go(v, s, init), a, i);
    }
  }

  /** Resolving finds the raise exactly while it is parked: nobody else has its id. */
  lemma ResolvesWhileParked(v: Validator, s: System, i: nat)
    requires RegOk(v, s) && i < |s.raises|
    ensures Resolves(s.reg, s.raises[i].sid, s.raises[i].id) <==> IsParked(s, i)
    ensures IsParked(s, i) ==> s.reg.pending[s.raises[i].sid].chan == i
  {
    var sid := s.raises[i].sid;
    assert s.raises[i].fate == Parked <==> IsPending(s, i);
    if sid in s.reg.pending { assert Describes(s.reg.pending[sid], sid, s.raises); }
  }

  // ---------------------------------------------------------------- when a submit is answered

  /** What became of a submit: answered, with the raise it names; or unanswered, and without a trace. */
  ghost predicate Settled(told: System, quiet: System, answered: bool, i: nat, at: nat, o: Outcome) {
    && told.handler == Idle
    && (if answered then
          told.reply == Acknowledged && i < |told.raises| && told.raises[i].fate == Answered(at, o) &&
          i < |told.reg.chans| && told.reg.chans[i] == [o]
        else told.reply == Silent && SameWorld(told, quiet))
  }

  lemma ResolveAnswers(v: Validator, s: System, at: nat, o: Outcome, i: nat)
    requires RegOk(v, s) && IsParked(s, i)
    ensures Settled(Answer(s, s.raises[i].sid, s.raises[i].id, at, o), s, true, i, at, o)
  {
    ResolvesWhileParked(v, s, i);
    assert RaiseOk(s.raises[i], s.reg.chans[i]);
    assert s.reg.chans[i] + [o] == [o];
  }

  /** The handler's last step: the raise is answered if it is still parked, else the visitor hears nothing. */
  lemma LastStep(v: Validator, s: System, at: nat, o: Outcome, i: nat)
    requires RegOk(v, s) && i < |s.raises|
    ensures Settled(Answer(s, s.raises[i].sid, s.raises[i].id, at, o), s, IsParked(s, i), i, at, o)
  {
    if IsParked(s, i) { ResolveAnswers(v, s, at, o, i); } else { ResolvesWhileParked(v, s, i); }
  }

  lemma SubmitPeeks(v: Validator, s: System, f: Frame)
    requires s.handler == Idle && Finds(s.reg, f)
    ensures SameWorld(Next(v, s, Submit(f)), s) && Next(v, s, Submit(f)).handler == Peeked(s.reg.pending[f.sid], s.clock, f)
  {}

  lemma PeekedValidates(v: Validator, s: System)
    requires s.handler.Peeked? && !Refuses(v, s.handler.p, s.handler.frame) && !s.handler.frame.declined
    ensures var p, f, s' := s.handler.p, s.handler.frame, Next(v, s, HandlerStep);
            SameWorld(s', s) && s'.handler == Validated(p, s.handler.at, f, v(p.kind, p.spec, f.values.value).values)
  {}

  lemma ValidatedResolves(v: Validator, s: System)
    requires s.handler.Validated?
    ensures Next(v, s, HandlerStep) ==
            Answer(s, s.handler.frame.sid, s.handler.p.id, s.handler.at, Submitted(s.handler.values)).(clock := s.clock + 1)
  {}

  lemma DeclinedResolves(v: Validator, s: System)
    requires s.handler.Peeked? && !Refuses(v, s.handler.p, s.handler.frame) && s.handler.frame.declined
    ensures Next(v, s, HandlerStep) == Answer(s, s.handler.frame.sid, s.handler.p.id, s.handler.at, Declined).(clock := s.clock + 1)
  {}

  lemma PeekedIsParked(v: Validator, s: System, sid: SessionId)
    requires RegOk(v, s) && sid in s.reg.pending
    ensures var p := s.reg.pending[sid];
            IsParked(s, p.chan) && s.raises[p.chan].sid == sid && s.raises[p.chan].id == p.id
  {
    assert Describes(s.reg.pending[sid], sid, s.raises);
    assert IsPending(s, s.reg.pending[sid].chan);
  }

  /** The state in which the handler is about to resolve is, but for the handler, that of the run without the submit. */
  lemma BeforeResolve(v: Validator, s: System, f: Frame, m1: seq<Action>, m2: seq<Action>)
    requires s.handler == Idle && Finds(s.reg, f) && !Refuses(v, s.reg.pending[f.sid], f) && !f.declined && Meanwhile(m1) && Meanwhile(m2)
    ensures var p, s4 := s.reg.pending[f.sid], Go(v, Next(v, Go(v, Next(v, s, Submit(f)), m1), HandlerStep), m2);
            SameWorld(s4, Go(v, s, m1 + m2)) && s4.handler == Validated(p, s.clock, f, v(p.kind, p.spec, f.values.value).values)
  {
    var s1 := Next(v, s, Submit(f));
    SubmitPeeks(v, s, f);
    GoAlike(v, s1, s, m1);
    GoWaits(v, s1, m1);
    var s2 := Go(v, s1, m1);
    PeekedValidates(v, s2);
    var s3 := Next(v, s2, HandlerStep);
    GoAlike(v, s3, Go(v, s, m1), m2);
    GoWaits(v, s3, m2);
    GoAppend(v, s, m1, m2);
  }

  /** The invariant holds all the way there. */
  lemma RegOkOf(v: Validator, s: System, f: Frame, m1: seq<Action>, m2: seq<Action>)
    requires RegOk(v, s)
    ensures RegOk(v, Go(v, Next(v, Go(v, Next(v, s, Submit(f)), m1), HandlerStep), m2))
  {
    NextRegOk(v, s, Submit(f));
    GoRegOk(v, Next(v, s, Submit(f)), m1);
    NextRegOk(v, Go(v, Next(v, s, Submit(f)), m1), HandlerStep);
    GoRegOk(v, Next(v, Go(v, Next(v, s, Submit(f)), m1), HandlerStep), m2);
  }

  lemma ValidSubmit(v: Validator, s: System, f: Frame, m1: seq<Action>, m2: seq<Action>)
    requires RegOk(v, s) && s.handler == Idle && Finds(s.reg, f) && !Refuses(v, s.reg.pending[f.sid], f) && !f.declined
    requires Meanwhile(m1) && Meanwhile(m2)
    ensures var p, s4 := s.reg.pending[f.sid], Go(v, Next(v, Go(v, Next(v, s, Submit(f)), m1), HandlerStep), m2);
            Settled(Next(v, s4, HandlerStep), Go(v, s, m1 + m2), Undisturbed(v, s, m1 + m2, f.sid), p.chan, s.clock, OutcomeOf(v, p, f))
  {
    var p := s.reg.pending[f.sid];
    var s4 := Go(v, Next(v, Go(v, Next(v, s, Submit(f)), m1), HandlerStep), m2);
    BeforeResolve(v, s, f, m1, m2);
    PeekedIsParked(v, s, f.sid);
    ParkedWhileUndisturbed(v, s, m1 + m2, p.chan);
    RegOkOf(v, s, f, m1, m2);
    LastStep(v, s4, s.clock, OutcomeOf(v, p, f), p.chan);
    ValidatedResolves(v, s4);
  }

  /**
   When a valid submit resumes its raise: with any steps of the connection between the peek,
   the validation and the resolve, it is acknowledged, and the raise answered with the
   validated values, if and only if none of those steps ended the session's park. If one did,
   the visitor gets no reply at all, and nothing else has changed.
   */
  lemma ValidResumes(v: Validator, acts: seq<Action>, f: Frame, m1: seq<Action>, m2: seq<Action>)
    requires var s := Run(v, acts);
             s.handler == Idle && Finds(s.reg, f) && !Refuses(v, s.reg.pending[f.sid], f) && !f.declined
    requires Meanwhile(m1) && Meanwhile(m2)
    ensures var s := Run(v, acts);
            Settled(Run(v, acts + [Submit(f)] + m1 + [HandlerStep] + m2 + [HandlerStep]), Run(v, acts + (m1 + m2)),
                    Undisturbed(v, s, m1 + m2, f.sid), s.reg.pending[f.sid].chan, |acts|, OutcomeOf(v, s.reg.pending[f.sid], f))
  {
    var one, two := acts + [Submit(f)], acts + [Submit(f)] + m1 + [HandlerStep];
    RunRegOk(v, acts);
    ClockIs(v, acts);
    ValidSubmit(v, Run(v, acts), f, m1, m2);
    RunIsNext(v, acts, Submit(f));
    RunIsGo(v, one, m1);
    RunIsNext(v, one + m1, HandlerStep);
    RunIsGo(v, two, m2);
    RunIsNext(v, two + m2, HandlerStep);
    RunIsGo(v, acts, m1 + m2);
  }

  lemma DeclinedSubmit(v: Validator, s: System, f: Frame, mid: seq<Action>)
    requires RegOk(v, s) && s.handler == Idle && Finds(s.reg, f) && !Refuses(v, s.reg.pending[f.sid], f) && f.declined && Meanwhile(mid)
    ensures Settled(Next(v, Go(v, Next(v, s, Submit(f)), mid), HandlerStep), Go(v, s, mid),
                    Undisturbed(v, s, mid, f.sid), s.reg.pending[f.sid].chan, s.clock, Declined)
  {
    var p, s1 := s.reg.pending[f.sid], Next(v, s, Submit(f));
    SubmitPeeks(v, s, f);
    GoAlike(v, s1, s, mid);
    GoWaits(v, s1, mid);
    PeekedIsParked(v, s, f.sid);
    ParkedWhileUndisturbed(v, s, mid, p.chan);
    NextRegOk(v, s, Submit(f));
    GoRegOk(v, s1, mid);
    LastStep(v, Go(v, s1, mid), s.clock, Declined, p.chan);
    DeclinedResolves(v, Go(v, s1, mid));
  }

  /** A declined submit likewise; it is not validated, so the handler resolves in one step. */
  lemma DeclineResumes(v: Validator, acts: seq<Action>, f: Frame, mid: seq<Action>)
    requires var s := Run(v, acts);
             s.handler == Idle && Finds(s.reg, f) && !Refuses(v, s.reg.pending[f.sid], f) && f.declined
    requires Meanwhile(mid)
    ensures var s := Run(v, acts);
            Settled(Run(v, acts + [Submit(f)] + mid + [HandlerStep]), Run(v, acts + mid),
                    Undisturbed(v, s, mid, f.sid), s.reg.pending[f.sid].chan, |acts|, Declined)
  {
    RunRegOk(v, acts);
    ClockIs(v, acts);
    DeclinedSubmit(v, Run(v, acts), f, mid);
    RunIsNext(v, acts, Submit(f));
    RunIsGo(v, acts + [Submit(f)], mid);
    RunIsNext(v, acts + [Submit(f)] + mid, HandlerStep);
    RunIsGo(v, acts, mid);
  }

  /** A visitor who submits just as the raise gives up: the values are valid, and no reply is ever sent. */
  lemma SilentSubmit(v: Validator, values: string) returns (acts: seq<Action>, f: Frame)
    requires v("k", "spec", values).Accepted?
    ensures var s := Run(v, acts); s.handler == Idle && Finds(s.reg, f) && !Refuses(v, s.reg.pending[f.sid], f)
    ensures Run(v, acts + [Submit(f)] + [] + [HandlerStep] + [Clear("s")] + [HandlerStep]).reply == Silent
  {
    acts, f := [] + [Park("s", "i", "k", "spec")], Frame("s", "i", "k", false, Some(values), true);
    RunIsNext(v, [], Park("s", "i", "k", "spec"));
    var clear := [] + [Clear("s")];
    ValidResumes(v, acts, f, [], [Clear("s")]);
    assert !Undisturbed(v, Run(v, acts), clear, "s");
  }
}
