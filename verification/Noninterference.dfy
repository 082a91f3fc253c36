/**
 Everyone else on the server: what others do to conversations a principal's scope hides
 leaves no trace in what the principal is told, whatever else they do in plain sight.
 */
module Noninterference {
  import opened Basics
  import opened Text
  import opened SessionStore
  import opened Visibility

  /** Something happens on the server: a request of the observed principal, or anybody else's store operation. */
  datatype Happening = Mine(r: Request) | Theirs(op: Op)

  /** The operation concerns nothing the scope can see: an existing hidden conversation or session, or a new conversation it may not see. */
  ghost predicate HiddenOp(st: Store, sc: Scope, op: Op) {
    match op
    case Resume(_, _, who, conv, m, _) =>
      Fresh(st, m) && (if Resumes(st, who, conv) then !Visible(st, sc, conv) else !sc.Allows(who.email, who.org))
    case Append(msg, _) => msg.conversation in st.messages && !Visible(st, sc, msg.conversation)
    case Declare(conv, _) => !Visible(st, sc, conv)
    case SetStep(sid, _) => Scoped(st, sc, sid).None?
    case SetAuth(sid, _) => Scoped(st, sc, sid).None?
    case Attach(sid, _, _, _) => Scoped(st, sc, sid).None?
  }

  lemma HiddenOpened(st: Store, sc: Scope, who: Scope, c: ConversationId, t: int)
    requires Inv(st) && c !in st.messages && !sc.Allows(who.email, who.org)
    ensures AgreeConversations(sc, Opened(st, who, c, t), st) && AgreeSessions(sc, Opened(st, who, c, t), st)
  {
    var st' := Opened(st, who, c, t);
    forall d ensures Visible(st', sc, d) <==> Visible(st, sc, d) {}
    forall d | Visible(st', sc, d) ensures SameConversation(st', st, d) { assert Visible(st, sc, d); }
    forall sid ensures Scoped(st', sc, sid) == Scoped(st, sc, sid) {}
  }

  lemma HiddenBound(st: Store, sc: Scope, s: Session)
    requires s.id !in st.sessions && !sc.Allows(s.ownerEmail, s.ownerOrg)
    ensures AgreeConversations(sc, Bound(st, s), st) && AgreeSessions(sc, Bound(st, s), st)
  {
    var st' := Bound(st, s);
    forall d ensures Visible(st', sc, d) <==> Visible(st, sc, d) {}
    forall d | Visible(st', sc, d) ensures SameConversation(st', st, d) { assert Visible(st, sc, d); }
    forall sid ensures Scoped(st', sc, sid) == Scoped(st, sc, sid) {}
  }

  lemma HiddenResume(st: Store, sc: Scope, op: Op)
    requires Inv(st) && op.Resume? && HiddenOp(st, sc, op)
    ensures Agree(sc, Apply(st, op), st)
  {
    ApplyKeepsInv(st, op);
    var s := NewSession(st, op.agentId, op.email, op.sc, op.conv, op.m);
    if Resumes(st, op.sc, op.conv) {
      HiddenBound(st, sc, s);
    } else {
      var open := Opened(st, op.sc, op.m.conversation, Stamp(st, op.now));
      OpenedKeepsInv(st, op.sc, op.m.conversation, op.now);
      HiddenOpened(st, sc, op.sc, op.m.conversation, Stamp(st, op.now));
      HiddenBound(open, sc, s);
      AgreeIsTransitive(sc, Apply(st, op), open, st);
    }
  }

  lemma HiddenAppend(st: Store, sc: Scope, msg: Message, now: int)
    requires Inv(st) && msg.conversation in st.messages && !Visible(st, sc, msg.conversation)
    ensures AgreeConversations(sc, Appended(st, msg, now), st) && AgreeSessions(sc, Appended(st, msg, now), st)
  {
    var st' := Appended(st, msg, now);
    forall c ensures Visible(st', sc, c) <==> Visible(st, sc, c) {}
    forall c | Visible(st', sc, c) ensures SameConversation(st', st, c) { assert Visible(st, sc, c); }
    forall sid ensures Scoped(st', sc, sid) == Scoped(st, sc, sid) {}
  }

  lemma HiddenDeclare(st: Store, sc: Scope, conv: ConversationId, caps: seq<string>)
    requires Inv(st) && conv in st.messages && !Visible(st, sc, conv)
    ensures AgreeConversations(sc, SupportsSet(st, conv, caps), st) && AgreeSessions(sc, SupportsSet(st, conv, caps), st)
  {
    SupportsSetIs(st, conv, caps);
    SupportsHidden(st, sc, conv, SupportsSet(st, conv, caps).supports);
  }

  lemma SupportsHidden(st: Store, sc: Scope, conv: ConversationId, ms: map<ConversationId, seq<string>>)
    requires Inv(st) && !Visible(st, sc, conv)
    requires forall d | d != conv :: At(ms, d, []) == Declared(st, d)
    ensures AgreeConversations(sc, st.(supports := ms), st) && AgreeSessions(sc, st.(supports := ms), st)
  {
    var st' := st.(supports := ms);
    forall c ensures Visible(st', sc, c) <==> Visible(st, sc, c) {}
    forall c | Visible(st', sc, c) ensures SameConversation(st', st, c) { assert Visible(st, sc, c); }
    forall sid ensures Scoped(st', sc, sid) == Scoped(st, sc, sid) {
      if sid in st.sessions { assert SessionOk(st, sid); }
    }
  }

  lemma HiddenUpdateSessions(st: Store, sc: Scope, sid: SessionId, f: Session -> Session)
    requires Scoped(st, sc, sid).None? && Harmless(f)
    ensures AgreeSessions(sc, Updated(st, sid, f), st)
  {
    forall k ensures Scoped(Updated(st, sid, f), sc, k) == Scoped(st, sc, k) {}
  }

  lemma HiddenUpdate(st: Store, sc: Scope, sid: SessionId, f: Session -> Session)
    requires Inv(st) && Scoped(st, sc, sid).None? && Harmless(f)
    ensures AgreeConversations(sc, Updated(st, sid, f), st) && AgreeSessions(sc, Updated(st, sid, f), st)
  {
    var st' := Updated(st, sid, f);
    HiddenUpdateSessions(st, sc, sid, f);
    forall c ensures Visible(st', sc, c) <==> Visible(st, sc, c) {}
    forall c | Visible(st', sc, c) ensures SameConversation(st', st, c) { assert Visible(st, sc, c); }
  }

  lemma HiddenOpIsInvisible(st: Store, sc: Scope, op: Op)
    requires Inv(st) && HiddenOp(st, sc, op)
    ensures Agree(sc, Apply(st, op), st)
  {
    ApplyKeepsInv(st, op);
    match op
    case SetStep(sid, step) => HiddenUpdate(st, sc, sid, StepSet(step));
    case SetAuth(sid, verified) => HiddenUpdate(st, sc, sid, AuthSet(verified));
    case Attach(sid, name, email, phone) => HiddenUpdate(st, sc, sid, ContactSet(name, email, phone));
    case Resume(_, _, _, _, _, _) => HiddenResume(st, sc, op);
    case Append(msg, now) => HiddenAppend(st, sc, msg, now);
    case Declare(conv, caps) => if conv in st.messages { HiddenDeclare(st, sc, conv, caps); }
  }

  lemma AgreeIsTransitive(sc: Scope, a: Store, b: Store, c: Store)
    requires Agree(sc, a, b) && Agree(sc, b, c)
    ensures Agree(sc, a, c)
  {
    forall k ensures Visible(a, sc, k) <==> Visible(c, sc, k) { assert Visible(a, sc, k) <==> Visible(b, sc, k); }
    forall k | Visible(a, sc, k) ensures SameConversation(a, c, k) {
      assert SameConversation(a, b, k);
      assert Visible(b, sc, k) && SameConversation(b, c, k);
    }
    forall sid ensures Scoped(a, sc, sid) == Scoped(c, sc, sid) { assert Scoped(a, sc, sid) == Scoped(b, sc, sid); }
  }

  // ---------------------------------------------------------------- erasing what is hidden

  /** What the principal is told over a whole history. */
  function Told(st: Store, sc: Scope, hs: seq<Happening>): seq<Response>
    decreases |hs|
  {
    if hs == [] then []
    else match hs[0]
      case Mine(r) => [Reply(st, sc, r)] + Told(After(st, sc, r), sc, hs[1..])
      case Theirs(op) => Told(Apply(st, op), sc, hs[1..])
  }

  /** The history without what others did to what the scope hid at the time. */
  ghost function Erased(st: Store, sc: Scope, hs: seq<Happening>): seq<Happening>
    decreases |hs|
  {
    if hs == [] then []
    else match hs[0]
      case Mine(r) => [hs[0]] + Erased(After(st, sc, r), sc, hs[1..])
      case Theirs(op) => (if HiddenOp(st, sc, op) then [] else [hs[0]]) + Erased(Apply(st, op), sc, hs[1..])
  }

  /** Fresh ids, a known conversation, and a clock that has moved on where an operation stamps what the scope sees. */
  ghost predicate Sound(st: Store, sc: Scope, op: Op) {
    match op
    case Resume(_, _, who, conv, m, now) =>
      Fresh(st, m) && (Resumes(st, who, conv) || HiddenOp(st, sc, op) || now > st.lastStamp)
    case Append(msg, now) => msg.conversation in st.messages && (HiddenOp(st, sc, op) || now > st.lastStamp)
    case _ => true
  }

  ghost predicate Proper(st: Store, sc: Scope, hs: seq<Happening>)
    decreases |hs|
  {
    hs == [] ||
    match hs[0]
    case Mine(r) => Timely(st, r) && Proper(After(st, sc, r), sc, hs[1..])
    case Theirs(op) => Sound(st, sc, op) && Proper(Apply(st, op), sc, hs[1..])
  }

  /** Hidden and seen are opposites, so what is erased is exactly what the scope does not see. */
  lemma HiddenIsNotShown(st: Store, sc: Scope, op: Op)
    requires Inv(st) && Sound(st, sc, op)
    ensures HiddenOp(st, sc, op) <==> !ShownOp(st, sc, op)
  {}

  /** What is not hidden is seen. */
  lemma HiddenOrShown(st: Store, sc: Scope, op: Op)
    requires Sound(st, sc, op)
    ensures HiddenOp(st, sc, op) || ShownOp(st, sc, op)
  {}

  // ---------------------------------------------------------------- the quieter store

  ghost predicate Fewer(quiet: Store, busy: Store) {
    && (forall c | c in quiet.messages :: c in busy.messages)
    && (forall s | s in quiet.sessions :: s in busy.sessions)
    && quiet.lastStamp <= busy.lastStamp
  }

  ghost predicate SameOwners(quiet: Store, busy: Store) {
    forall c | c in quiet.messages :: Owner(quiet, c) == Owner(busy, c) && Org(quiet, c) == Org(busy, c)
  }

  /** The quieter store holds nothing the busier one does not, and knows the same owners. */
  ghost predicate Within(quiet: Store, busy: Store) { Fewer(quiet, busy) && SameOwners(quiet, busy) }

  /** Whoever resumes in one store resumes in the other, if the scope sees the conversation, or nobody does. */
  lemma ResumesAlike(sc: Scope, quiet: Store, busy: Store, op: Op)
    requires Agree(sc, busy, quiet) && Within(quiet, busy) && op.Resume? && ShownOp(busy, sc, op)
    ensures FindsAlike(busy, quiet, op)
  {
    if Resumes(busy, op.sc, op.conv) { assert SameConversation(busy, quiet, op.conv); }
  }

  /** What is seen of the busier store is seen of the quieter one. */
  lemma ShownInBoth(sc: Scope, quiet: Store, busy: Store, op: Op)
    requires Agree(sc, busy, quiet) && Within(quiet, busy) && ShownOp(busy, sc, op)
    ensures ShownOp(quiet, sc, op) && FindsAlike(busy, quiet, op)
  {
    match op
    case Resume(_, _, _, conv, _, _) =>
      ResumesAlike(sc, quiet, busy, op);
      assert Visible(busy, sc, conv) <==> Visible(quiet, sc, conv);
    case Append(msg, _) => assert Visible(busy, sc, msg.conversation) <==> Visible(quiet, sc, msg.conversation);
    case Declare(conv, _) => assert Visible(busy, sc, conv) <==> Visible(quiet, sc, conv);
    case SetStep(sid, _) => assert Scoped(busy, sc, sid) == Scoped(quiet, sc, sid);
    case SetAuth(sid, _) => assert Scoped(busy, sc, sid) == Scoped(quiet, sc, sid);
    case Attach(sid, _, _, _) => assert Scoped(busy, sc, sid) == Scoped(quiet, sc, sid);
  }

  /** The ids an operation adds to a store. */
  ghost predicate Adds(st: Store, st': Store, cs: set<ConversationId>, ss: set<SessionId>, stamp: int) {
    && (forall c :: c in st'.messages <==> c in st.messages || c in cs)
    && (forall s :: s in st'.sessions <==> s in st.sessions || s in ss)
    && st'.lastStamp == stamp
  }

  lemma ResumeAdds(st: Store, op: Op)
    requires op.Resume? && Fresh(st, op.m)
    ensures var resumes := Resumes(st, op.sc, op.conv);
            Adds(st, Apply(st, op), if resumes then {} else {op.m.conversation}, {op.m.session}, if resumes then st.lastStamp else Stamp(st, op.now))
  {}

  lemma AppendAdds(st: Store, op: Op)
    requires op.Append?
    ensures Adds(st, Apply(st, op), {op.msg.conversation}, {}, Stamp(st, op.now))
  {}

  lemma OtherAdds(st: Store, op: Op)
    requires !op.Resume? && !op.Append?
    ensures Adds(st, Apply(st, op), {}, {}, st.lastStamp)
  {
    if op.Declare? && op.conv in st.messages { SupportsSetIs(st, op.conv, op.caps); }
  }

  lemma FewerAfter(quiet: Store, busy: Store, quiet': Store, busy': Store, cs: set<ConversationId>, ss: set<SessionId>, q: int, b: int)
    requires Fewer(quiet, busy) && Adds(quiet, quiet', cs, ss, q) && Adds(busy, busy', cs, ss, b) && q <= b
    ensures Fewer(quiet', busy')
  {}

  lemma OpStaysFewer(sc: Scope, quiet: Store, busy: Store, op: Op)
    requires Fewer(quiet, busy) && ShownOp(busy, sc, op) && ShownOp(quiet, sc, op) && FindsAlike(busy, quiet, op)
    ensures Fewer(Apply(quiet, op), Apply(busy, op))
  {
    match op
    case Resume(_, _, _, _, m, now) =>
      ResumeAdds(quiet, op);
      ResumeAdds(busy, op);
      if Resumes(busy, op.sc, op.conv) {
        FewerAfter(quiet, busy, Apply(quiet, op), Apply(busy, op), {}, {m.session}, quiet.lastStamp, busy.lastStamp);
      } else {
        FewerAfter(quiet, busy, Apply(quiet, op), Apply(busy, op), {m.conversation}, {m.session}, now, now);
      }
    case Append(msg, now) =>
      AppendAdds(quiet, op);
      AppendAdds(busy, op);
      FewerAfter(quiet, busy, Apply(quiet, op), Apply(busy, op), {msg.conversation}, {}, now, now);
    case _ =>
      OtherAdds(quiet, op);
      OtherAdds(busy, op);
      FewerAfter(quiet, busy, Apply(quiet, op), Apply(busy, op), {}, {}, quiet.lastStamp, busy.lastStamp);
  }

  /** A conversation an operation adds belongs to its opener. */
  lemma AddedOwner(st: Store, sc: Scope, op: Op, c: ConversationId)
    requires ShownOp(st, sc, op) && c !in st.messages && c in Apply(st, op).messages
    ensures op.Resume? && c == op.m.conversation && Owner(Apply(st, op), c) == op.sc.email && Org(Apply(st, op), c) == op.sc.org
  {
    if !op.Resume? && !op.Append? { OtherAdds(st, op); }
    if op.Resume? { ResumeAdds(st, op); }
  }

  /** No operation changes the owner of a conversation that exists. */
  lemma OwnerStays(st: Store, op: Op, c: ConversationId)
    requires Inv(st) && c in st.messages
    ensures Owner(Apply(st, op), c) == Owner(st, c) && Org(Apply(st, op), c) == Org(st, c) && c in Apply(st, op).messages
  {
    ApplyKeepsInv(st, op);
  }

  lemma OpStaysWithin(sc: Scope, quiet: Store, busy: Store, op: Op)
    requires Inv(quiet) && Inv(busy) && Within(quiet, busy)
    requires ShownOp(busy, sc, op) && ShownOp(quiet, sc, op) && FindsAlike(busy, quiet, op)
    ensures Within(Apply(quiet, op), Apply(busy, op))
  {
    OpStaysFewer(sc, quiet, busy, op);
    var quiet', busy' := Apply(quiet, op), Apply(busy, op);
    forall c | c in quiet'.messages ensures Owner(quiet', c) == Owner(busy', c) && Org(quiet', c) == Org(busy', c) {
      if c in quiet.messages {
        OwnerStays(quiet, op, c);
        OwnerStays(busy, op, c);
      } else {
        AddedOwner(quiet, sc, op, c);
        assert c !in busy.messages;
        AddedOwner(busy, sc, op, c);
      }
    }
  }

  /** A hidden operation only adds to the busier store. */
  lemma HiddenStaysWithin(quiet: Store, busy: Store, op: Op)
    requires Inv(busy) && Within(quiet, busy)
    ensures Within(quiet, Apply(busy, op))
  {
    ApplyKeepsInv(busy, op);
    forall c | c in quiet.messages ensures Owner(quiet, c) == Owner(Apply(busy, op), c) && Org(quiet, c) == Org(Apply(busy, op), c) {
      OwnerStays(busy, op, c);
    }
  }

  // ---------------------------------------------------------------- the principal's own requests

  lemma TimelyInBoth(quiet: Store, busy: Store, r: Request)
    requires Fewer(quiet, busy) && Timely(busy, r)
    ensures Timely(quiet, r)
  {}

  lemma StepBoth(sc: Scope, quiet: Store, busy: Store, op: Op)
    requires Agree(sc, busy, quiet) && Within(quiet, busy) && ShownOp(busy, sc, op)
    ensures Agree(sc, Apply(busy, op), Apply(quiet, op)) && Within(Apply(quiet, op), Apply(busy, op))
  {
    ShownInBoth(sc, quiet, busy, op);
    OpAgrees(sc, busy, quiet, op);
    OpStaysWithin(sc, quiet, busy, op);
  }

  lemma CreateBoth(sc: Scope, quiet: Store, busy: Store, r: Request)
    requires Agree(sc, busy, quiet) && Within(quiet, busy) && r.Create? && Trim(r.agentId) != "" && Timely(busy, r)
    ensures Agree(sc, After(busy, sc, r), After(quiet, sc, r)) && Within(After(quiet, sc, r), After(busy, sc, r))
  {
    var op := ResumeOf(sc, r);
    TimelyInBoth(quiet, busy, r);
    AfterIsRun(busy, sc, r);
    AfterIsRun(quiet, sc, r);
    ResumeIsShown(sc, busy, r);
    StepBoth(sc, quiet, busy, op);
    ResumesAlike(sc, quiet, busy, op);
    NewSessionAgrees(sc, busy, quiet, op);
    RunOne(busy, op);
    RunOne(quiet, op);
    if r.declares.Some? {
      var declare := Declare(NewSession(busy, r.agentId, r.email, sc, r.conv, r.m).conversation, r.declares.value);
      RunTwo(busy, op, declare);
      RunTwo(quiet, op, declare);
      StepBoth(sc, Apply(quiet, op), Apply(busy, op), declare);
    }
  }

  lemma AfterBoth(sc: Scope, quiet: Store, busy: Store, r: Request)
    requires Agree(sc, busy, quiet) && Within(quiet, busy) && Timely(busy, r)
    ensures Agree(sc, After(busy, sc, r), After(quiet, sc, r)) && Within(After(quiet, sc, r), After(busy, sc, r))
  {
    if r.Create? {
      if Trim(r.agentId) != "" { CreateBoth(sc, quiet, busy, r); }
    } else {
      TimelyInBoth(quiet, busy, r);
      AfterIsRun(busy, sc, r);
      AfterIsRun(quiet, sc, r);
      SameOps(sc, busy, quiet, r);
      if OpsOf(busy, sc, r) != [] {
        var op := OpsOf(busy, sc, r)[0];
        RunOne(busy, op);
        RunOne(quiet, op);
        StepBoth(sc, quiet, busy, op);
      }
    }
  }

  // ---------------------------------------------------------------- the theorem

  lemma TheirsLeavesNoTrace(sc: Scope, busy: Store, quiet: Store, op: Op)
    requires Agree(sc, busy, quiet) && Within(quiet, busy) && Sound(busy, sc, op)
    ensures var quiet' := if HiddenOp(busy, sc, op) then quiet else Apply(quiet, op);
            Agree(sc, Apply(busy, op), quiet') && Within(quiet', Apply(busy, op))
  {
    if HiddenOp(busy, sc, op) {
      HiddenOpIsInvisible(busy, sc, op);
      AgreeIsTransitive(sc, Apply(busy, op), busy, quiet);
      HiddenStaysWithin(quiet, busy, op);
    } else {
      HiddenOrShown(busy, sc, op);
      StepBoth(sc, quiet, busy, op);
    }
  }

  /**
   Others leave no trace: take any history of the principal's requests and of everyone else's
   operations, erase what others did to what the scope hid at the time, and the principal is
   told exactly the same.
   */
  lemma {:induction false} OthersLeaveNoTrace(sc: Scope, busy: Store, quiet: Store, hs: seq<Happening>)
    requires Agree(sc, busy, quiet) && Within(quiet, busy) && Proper(busy, sc, hs)
    ensures Told(busy, sc, hs) == Told(quiet, sc, Erased(busy, sc, hs))
    decreases |hs|
  {
    if hs != [] {
      match hs[0]
      case Mine(r) =>
        ReplyAgrees(sc, busy, quiet, r);
        AfterBoth(sc, quiet, busy, r);
        OthersLeaveNoTrace(sc, After(busy, sc, r), After(quiet, sc, r), hs[1..]);
        ToldMine(quiet, sc, r, Erased(After(busy, sc, r), sc, hs[1..]));
      case Theirs(op) =>
        TheirsLeavesNoTrace(sc, busy, quiet, op);
        if HiddenOp(busy, sc, op) {
          OthersLeaveNoTrace(sc, Apply(busy, op), quiet, hs[1..]);
          assert Erased(busy, sc, hs) == Erased(Apply(busy, op), sc, hs[1..]);
        } else {
          OthersLeaveNoTrace(sc, Apply(busy, op), Apply(quiet, op), hs[1..]);
          ToldTheirs(quiet, sc, op, Erased(Apply(busy, op), sc, hs[1..]));
        }
    }
  }

  lemma ToldMine(st: Store, sc: Scope, r: Request, rest: seq<Happening>)
    ensures Told(st, sc, [Mine(r)] + rest) == [Reply(st, sc, r)] + Told(After(st, sc, r), sc, rest)
  {
    assert ([Mine(r)] + rest)[1..] == rest;
  }

  lemma ToldTheirs(st: Store, sc: Scope, op: Op, rest: seq<Happening>)
    ensures Told(st, sc, [Theirs(op)] + rest) == Told(Apply(st, op), sc, rest)
  {
    assert ([Theirs(op)] + rest)[1..] == rest;
  }

  /** On one server: what is told with and without the erased traffic is the same from any state on. */
  lemma ErasingChangesNothing(sc: Scope, st: Store, hs: seq<Happening>)
    requires Inv(st) && Proper(st, sc, hs)
    ensures Told(st, sc, hs) == Told(st, sc, Erased(st, sc, hs))
  {
    assert Agree(sc, st, st);
    OthersLeaveNoTrace(sc, st, st, hs);
  }
}
