/** Every outcome reaches the raise it was sent to, whatever happens on the connection before the raise listens. */
module RaiseOutcomes {
  import opened Interactions
  import opened SubmitRuns

  /** Raise i still waits, and this is what its channel holds; nobody can send on it any more. */
  ghost predicate HasMail(s: System, i: nat, buffer: seq<Outcome>) {
    && i < |s.raises| && s.raises[i].result == Awaiting
    && i < |s.reg.chans| && s.reg.chans[i] == buffer
    && forall sid | sid in s.reg.pending :: s.reg.pending[sid].chan != i
  }

  /** The raise takes its outcome, or gives up. */
  predicate Listens(a: Action, i: nat) { a == Receive(i) || a == GiveUp(i) }

  lemma ParkLeavesMail(v: Validator, s: System, i: nat, buffer: seq<Outcome>, a: Action)
    requires RegOk(v, s) && HasMail(s, i, buffer) && a.Park?
    ensures HasMail(Next(v, s, a), i, buffer)
  {}

  lemma TeardownLeavesMail(v: Validator, s: System, i: nat, buffer: seq<Outcome>)
    requires RegOk(v, s) && HasMail(s, i, buffer)
    ensures HasMail(Next(v, s, Teardown), i, buffer)
  {
    assert !OneOf(s.reg, s.reg.pending.Keys, i);
  }

  lemma AnswerLeavesMail(s: System, sid: SessionId, id: string, at: nat, o: Outcome, i: nat, buffer: seq<Outcome>)
    requires Valid(s.reg) && HasMail(s, i, buffer)
    ensures HasMail(Answer(s, sid, id, at, o), i, buffer)
  {}

  lemma HandlerLeavesMail(v: Validator, s: System, i: nat, buffer: seq<Outcome>)
    requires RegOk(v, s) && HasMail(s, i, buffer)
    ensures HasMail(Next(v, s, HandlerStep), i, buffer)
  {
    match s.handler
    case Idle =>
    case Peeked(p, at, f) =>
      PeekedMoves(v, s);
      AnswerLeavesMail(s, f.sid, p.id, at, Declined, i, buffer);
    case Validated(p, at, f, values) => AnswerLeavesMail(s, f.sid, p.id, at, Submitted(values), i, buffer);
  }

  lemma StepLeavesMail(v: Validator, s: System, i: nat, buffer: seq<Outcome>, a: Action)
    requires RegOk(v, s) && HasMail(s, i, buffer) && !Listens(a, i)
    ensures HasMail(Next(v, s, a), i, buffer)
  {
    match a
    case Park(_, _, _, _) => ParkLeavesMail(v, s, i, buffer, a);
    case Teardown => TeardownLeavesMail(v, s, i, buffer);
    case HandlerStep => HandlerLeavesMail(v, s, i, buffer);
    case Submit(f) => SubmitMoves(v, s, f);
    case Clear(_) =>
    case _ =>
  }

  lemma {:induction false} MailStays(v: Validator, s: System, more: seq<Action>, i: nat, buffer: seq<Outcome>)
    requires RegOk(v, s) && HasMail(s, i, buffer) && forall k | 0 <= k < |more| :: !Listens(more[k], i)
    ensures HasMail(Go(v, s, more), i, buffer)
  {
    if |more| > 0 {
      var init := more[..|more| - 1];
      MailStays(v, s, init, i, buffer);
      GoRegOk(v, s, init);
      StepLeavesMail(v, Go(v, s, init), i, buffer, more[|more| - 1]);
    }
  }

  /** What the raise has once it listens. */
  function Heard(buffer: seq<Outcome>): Result { if buffer == [] then Awaiting else Got(buffer[0]) }

  lemma HearsItsMail(v: Validator, acts: seq<Action>, more: seq<Action>, i: nat, buffer: seq<Outcome>)
    requires HasMail(Run(v, acts), i, buffer) && forall k | 0 <= k < |more| :: !Listens(more[k], i)
    ensures var s' := Run(v, acts + more + [Receive(i)]); i < |s'.raises| && s'.raises[i].result == Heard(buffer)
  {
    RunRegOk(v, acts);
    MailStays(v, Run(v, acts), more, i, buffer);
    RunIsGo(v, acts, more);
    RunIsNext(v, acts + more, Receive(i));
  }

  lemma NoMailFor(v: Validator, s: System, i: nat)
    requires RegOk(v, s) && i < |s.raises| && s.raises[i].fate != Parked
    ensures forall sid | sid in s.reg.pending :: s.reg.pending[sid].chan != i
  {
    forall sid | sid in s.reg.pending ensures s.reg.pending[sid].chan != i {
      assert Describes(s.reg.pending[sid], sid, s.raises);
      assert s.raises[i].fate == Parked <==> IsPending(s, i);
    }
  }

  /**
   An accepted submit reaches its raise: if nothing ended the park before the handler resolved
   it and the raise has not given up by then, the raise resumes, whenever it listens, with the
   values the validator accepted.
   */
  lemma SubmitReachesItsRaise(v: Validator, acts: seq<Action>, f: Frame, m1: seq<Action>, m2: seq<Action>, more: seq<Action>)
    requires var s := Run(v, acts);
             s.handler == Idle && Finds(s.reg, f) && !Refuses(v, s.reg.pending[f.sid], f) && !f.declined
             && Undisturbed(v, s, m1 + m2, f.sid)
    requires Meanwhile(m1) && Meanwhile(m2)
    requires var done, i := Run(v, acts + [Submit(f)] + m1 + [HandlerStep] + m2 + [HandlerStep]), Run(v, acts).reg.pending[f.sid].chan;
             (i < |done.raises| ==> done.raises[i].result == Awaiting) && forall k | 0 <= k < |more| :: !Listens(more[k], i)
    ensures var p := Run(v, acts).reg.pending[f.sid];
            var s' := Run(v, acts + [Submit(f)] + m1 + [HandlerStep] + m2 + [HandlerStep] + more + [Receive(p.chan)]);
            p.chan < |s'.raises| && s'.raises[p.chan].result == Got(Submitted(v(p.kind, p.spec, f.values.value).values))
  {
    var done, p := acts + [Submit(f)] + m1 + [HandlerStep] + m2 + [HandlerStep], Run(v, acts).reg.pending[f.sid];
    ValidResumes(v, acts, f, m1, m2);
    RunRegOk(v, done);
    NoMailFor(v, Run(v, done), p.chan);
    HearsItsMail(v, done, more, p.chan, [OutcomeOf(v, p, f)]);
  }

  /** A declined one likewise. */
  lemma DeclineReachesItsRaise(v: Validator, acts: seq<Action>, f: Frame, mid: seq<Action>, more: seq<Action>)
    requires var s := Run(v, acts);
             s.handler == Idle && Finds(s.reg, f) && !Refuses(v, s.reg.pending[f.sid], f) && f.declined
             && Undisturbed(v, s, mid, f.sid)
    requires Meanwhile(mid)
    requires var done, i := Run(v, acts + [Submit(f)] + mid + [HandlerStep]), Run(v, acts).reg.pending[f.sid].chan;
             (i < |done.raises| ==> done.raises[i].result == Awaiting) && forall k | 0 <= k < |more| :: !Listens(more[k], i)
    ensures var i := Run(v, acts).reg.pending[f.sid].chan;
            var s' := Run(v, acts + [Submit(f)] + mid + [HandlerStep] + more + [Receive(i)]);
            i < |s'.raises| && s'.raises[i].result == Got(Declined)
  {
    var done, i := acts + [Submit(f)] + mid + [HandlerStep], Run(v, acts).reg.pending[f.sid].chan;
    DeclineResumes(v, acts, f, mid);
    RunRegOk(v, done);
    NoMailFor(v, Run(v, done), i);
    HearsItsMail(v, done, more, i, [Declined]);
  }

  lemma EndPosts(v: Validator, s: System, a: Action, sid: SessionId)
    requires RegOk(v, s) && sid in s.reg.pending && EndsPark(s.raises, a, sid)
    requires s.reg.pending[sid].chan < |s.raises| && s.raises[s.reg.pending[sid].chan].result == Awaiting
    ensures HasMail(Next(v, s, a), s.reg.pending[sid].chan, if a == Clear(sid) then [] else [NoResponse])
  {
    var i := s.reg.pending[sid].chan;
    assert forall other | other in s.reg.pending && other != sid :: s.reg.pending[other].chan != i;
    if a.Teardown? { assert sid in s.reg.pending.Keys && OneOf(s.reg, s.reg.pending.Keys, i); }
  }

  /** A raise displaced by a newer one of its session or by the teardown resumes with no response; one cleared hears nothing. */
  lemma EndReachesItsRaise(v: Validator, acts: seq<Action>, sid: SessionId, a: Action, more: seq<Action>)
    requires var s := Run(v, acts);
             sid in s.reg.pending && s.reg.pending[sid].chan < |s.raises| && s.raises[s.reg.pending[sid].chan].result == Awaiting
             && EndsPark(s.raises, a, sid)
    requires forall k | 0 <= k < |more| :: !Listens(more[k], Run(v, acts).reg.pending[sid].chan)
    ensures var i := Run(v, acts).reg.pending[sid].chan;
            var s' := Run(v, acts + [a] + more + [Receive(i)]);
            i < |s'.raises| && s'.raises[i].result == if a == Clear(sid) then Awaiting else Got(NoResponse)
  {
    RunRegOk(v, acts);
    EndPosts(v, Run(v, acts), a, sid);
    RunIsNext(v, acts, a);
    HearsItsMail(v, acts + [a], more, Run(v, acts).reg.pending[sid].chan, if a == Clear(sid) then [] else [NoResponse]);
  }

  /** A raise parks under its id, kind and spec, waiting; and one that gives up has given up. */
  lemma RaiseParks(v: Validator, acts: seq<Action>, sid: SessionId, id: string, kind: string, spec: string)
    requires FreshId(Run(v, acts).raises, id)
    ensures var s, s' := Run(v, acts), Run(v, acts + [Park(sid, id, kind, spec)]);
            && |s'.raises| == |s.raises| + 1 && s'.raises[|s.raises|].result == Awaiting
            && sid in s'.reg.pending && s'.reg.pending[sid] == Pending(id, kind, spec, |s.raises|)
  {
    RunRegOk(v, acts);
    RunIsNext(v, acts, Park(sid, id, kind, spec));
  }

  lemma GiveUpEnds(v: Validator, acts: seq<Action>, i: nat)
    requires i < |Run(v, acts).raises| && Run(v, acts).raises[i].result == Awaiting
    ensures var s' := Run(v, acts + [GiveUp(i)]); i < |s'.raises| && s'.raises[i].result == GaveUp
  {
    RunIsNext(v, acts, GiveUp(i));
  }
}
