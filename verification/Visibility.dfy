/**
 What one principal can learn from the in-memory store. Every request goes through the
 dispatcher's scoped lookup, so two stores that agree on what the scope allows answer alike,
 and the traffic of others on conversations the scope hides leaves no trace.
 */
module Visibility {
  import opened Basics
  import opened Text
  import opened SessionStore

  datatype Request =
    | Create(agentId: string, email: string, conv: ConversationId, declares: Option<seq<string>>, m: Minted, now: int)
    | Get(sid: SessionId)
    | Send(sid: SessionId, id: string, inbound: bool, text: string, createdAt: int, now: int)
    | Log(sid: SessionId, limit: int)
    | ListAll
    | Verify(sid: SessionId)
    | Contact(sid: SessionId, name: string, email: string, phone: string)
    | Step(sid: SessionId, step: string)

  datatype Response =
    | Malformed
    | NotFound
    | Created(session: Session)
    | Found(session: Session)
    | Sent(msg: Message)
    | Messages(log: seq<Message>)
    | Rows(rows: map<ConversationId, Summary>)
    | Done

  /** The only way from a client's session id to a session: hidden and unknown both give None. */
  function Scoped(st: Store, sc: Scope, sid: SessionId): Option<Session> {
    if Loaded(st, sid).Some? && sc.Allows(Loaded(st, sid).value.ownerEmail, Loaded(st, sid).value.ownerOrg) then Loaded(st, sid) else None
  }

  function AfterCreate(st: Store, sc: Scope, r: Request): Store
    requires r.Create?
  {
    var st' := Resumed(st, r.agentId, r.email, sc, r.conv, r.m, r.now);
    if r.declares.Some? then SupportsSet(st', NewSession(st, r.agentId, r.email, sc, r.conv, r.m).conversation, r.declares.value) else st'
  }

  function After(st: Store, sc: Scope, r: Request): Store {
    match r
    case Create(agentId, _, _, _, _, _) => if Trim(agentId) == "" then st else AfterCreate(st, sc, r)
    case Send(sid, id, inbound, text, createdAt, now) =>
      var s := Scoped(st, sc, sid);
      if s.Some? then Appended(st, Message(id, s.value.conversation, inbound, text, createdAt), now) else st
    case Verify(sid) => if Scoped(st, sc, sid).Some? then Updated(st, sid, AuthSet(true)) else st
    case Contact(sid, name, email, phone) => if Scoped(st, sc, sid).Some? then Updated(st, sid, ContactSet(name, email, phone)) else st
    case Step(sid, step) => if Scoped(st, sc, sid).Some? then Updated(st, sid, StepSet(step)) else st
    case _ => st
  }

  function Reply(st: Store, sc: Scope, r: Request): Response {
    match r
    case Create(agentId, email, conv, _, m, _) =>
      if Trim(agentId) == "" then Malformed else Created(NewSession(st, agentId, email, sc, conv, m))
    case ListAll => Rows(Listing(st, sc))
    case Get(sid) => if Scoped(st, sc, sid).Some? then Found(Scoped(st, sc, sid).value) else NotFound
    case Send(sid, id, inbound, text, createdAt, _) =>
      var s := Scoped(st, sc, sid);
      if s.Some? then Sent(Message(id, s.value.conversation, inbound, text, createdAt)) else NotFound
    case Log(sid, limit) =>
      var s := Scoped(st, sc, sid);
      if s.Some? then Messages(Recent(At(st.messages, s.value.conversation, []), limit)) else NotFound
    case Verify(sid) => if Scoped(st, sc, sid).Some? then Done else NotFound
    case Contact(sid, _, _, _) => if Scoped(st, sc, sid).Some? then Done else NotFound
    case Step(sid, _) => if Scoped(st, sc, sid).Some? then Done else NotFound
  }

  method ScopedSession(store: InMemorySessionStore, sc: Scope, sid: SessionId) returns (session: Option<Session>)
    ensures session == Scoped(store.State(), sc, sid)
    ensures session.Some? <==> sid in store.sessions && sc.Allows(store.sessions[sid].ownerEmail, store.sessions[sid].ownerOrg)
    ensures session.Some? ==> session.value == store.sessions[sid].(supports := At(store.supports, store.sessions[sid].conversation, []))
  {
    session := store.GetSession(sid);
    if session.Some? && !sc.Allows(session.value.ownerEmail, session.value.ownerOrg) { session := None; }
  }

  method HandleCreateSession(store: InMemorySessionStore, sc: Scope, r: Request) returns (reply: Response)
    requires r.Create?
    modifies store
    ensures reply == Reply(old(store.State()), sc, r) && store.State() == After(old(store.State()), sc, r)
    ensures Trim(r.agentId) == "" ==> reply == Malformed && store.State() == old(store.State())
    ensures Trim(r.agentId) != "" ==>
              && reply.Created? && reply.session.id == r.m.session && store.sessions == old(store.sessions)[r.m.session := reply.session]
              && reply.session.conversation in store.messages
              && (r.declares.Some? ==> At(store.supports, reply.session.conversation, []) == r.declares.value)
  {
    if Trim(r.agentId) == "" { return Malformed; }
    var session, _ := store.ResumeSession(r.agentId, r.email, sc, r.conv, r.m, r.now);
    if r.declares.Some? { store.SetConversationSupports(session.conversation, r.declares.value); }
    reply := Created(session);
  }

  /** What a request does to the session it names and to that session's conversation, and what it says. */
  ghost predicate Does(st: Store, r: Request, st': Store, reply: Response)
    requires !r.Create? && !r.ListAll? && r.sid in st.sessions
  {
    var s := st.sessions[r.sid];
    var log := At(st.messages, s.conversation, []);
    match r
    case Get(_) => st' == st && reply == Found(s.(supports := At(st.supports, s.conversation, [])))
    case Send(_, id, inbound, text, createdAt, now) =>
      var msg := Message(id, s.conversation, inbound, text, createdAt);
      && reply == Sent(msg) && st'.messages == st.messages[s.conversation := log + [msg]]
      && st'.sessions == st.sessions && st'.lastStamp > st.lastStamp && At(st'.updatedAt, s.conversation, 0) == st'.lastStamp >= now
    case Log(_, limit) =>
      st' == st && reply.Messages? && |reply.log| == (if 0 < limit < |log| then limit else |log|) && reply.log == log[|log| - |reply.log|..]
    case Verify(_) => reply == Done && st' == st.(sessions := st.sessions[r.sid := s.(otpVerified := true)])
    case Step(_, step) => reply == Done && st' == st.(sessions := st.sessions[r.sid := s.(step := step)])
    case Contact(_, name, email, phone) =>
      && reply == Done && st' == st.(sessions := st'.sessions) && st'.sessions == st.sessions[r.sid := At(st'.sessions, r.sid, s)]
      && var s' := At(st'.sessions, r.sid, s);
         && (name != "" ==> s'.userName == name) && (email != "" ==> s'.contactEmail == email) && (phone != "" ==> s'.contactPhone == phone)
         && s' == s.(userName := if name == "" then s.userName else s'.userName,
                     contactEmail := if email == "" then s.contactEmail else s'.contactEmail,
                     contactPhone := if phone == "" then s.contactPhone else s'.contactPhone)
  }

  /** The requests that name a session. */
  method HandleSession(store: InMemorySessionStore, sc: Scope, r: Request) returns (reply: Response)
    requires !r.Create? && !r.ListAll?
    modifies store
    ensures reply == Reply(old(store.State()), sc, r) && store.State() == After(old(store.State()), sc, r)
    ensures !(r.sid in old(store.sessions) && sc.Allows(old(store.sessions)[r.sid].ownerEmail, old(store.sessions)[r.sid].ownerOrg)) ==>
              reply == NotFound && store.State() == old(store.State())
    ensures reply != NotFound ==> r.sid in old(store.sessions) && Does(old(store.State()), r, store.State(), reply)
  {
    var session := ScopedSession(store, sc, r.sid);
    if session.None? { return NotFound; }
    match r {
      case Get(_) => reply := Found(session.value);
      case Send(_, id, inbound, text, createdAt, now) =>
        var msg := store.AppendMessage(session.value.conversation, inbound, text, id, createdAt, now);
        reply := Sent(msg);
      case Log(_, limit) =>
        var log := store.ListMessages(session.value.conversation, limit);
        reply := Messages(log);
      case Verify(sid) => store.SetSessionAuthenticated(sid, true); reply := Done;
      case Contact(sid, name, email, phone) => store.AttachSessionContact(sid, name, email, phone); reply := Done;
      case Step(sid, step) => store.SetCurrentStep(sid, step); reply := Done;
    }
  }

  // ---------------------------------------------------------------- agreement

  ghost predicate SameConversation(a: Store, b: Store, c: ConversationId) {
    && c in a.messages && c in b.messages && a.messages[c] == b.messages[c]
    && At(a.updatedAt, c, 0) == At(b.updatedAt, c, 0)
    && Owner(a, c) == Owner(b, c) && Org(a, c) == Org(b, c) && Declared(a, c) == Declared(b, c)
  }

  /** The stores show the scope the same conversations. */
  ghost predicate AgreeConversations(sc: Scope, a: Store, b: Store) {
    && (forall c :: Visible(a, sc, c) <==> Visible(b, sc, c))
    && (forall c | Visible(a, sc, c) :: SameConversation(a, b, c))
  }

  /** ... and the same sessions. */
  ghost predicate AgreeSessions(sc: Scope, a: Store, b: Store) { forall sid :: Scoped(a, sc, sid) == Scoped(b, sc, sid) }

  ghost predicate Agree(sc: Scope, a: Store, b: Store) {
    Inv(a) && Inv(b) && AgreeConversations(sc, a, b) && AgreeSessions(sc, a, b)
  }

  /** Fresh ids, and a clock reading later than the store's last stamp. */
  predicate Timely(st: Store, r: Request) {
    (r.Create? ==> Fresh(st, r.m) && r.now > st.lastStamp) && (r.Send? ==> r.now > st.lastStamp)
  }

  /** A session within scope belongs to a conversation within scope. */
  lemma ScopedIsVisible(st: Store, sc: Scope, sid: SessionId)
    requires Inv(st) && Scoped(st, sc, sid).Some?
    ensures Visible(st, sc, Scoped(st, sc, sid).value.conversation)
  {
    assert SessionOk(st, sid);
  }

  // ---------------------------------------------------------------- a request is a few operations

  function ResumeOf(sc: Scope, r: Request): Op
    requires r.Create?
  {
    Resume(r.agentId, r.email, sc, r.conv, r.m, r.now)
  }

  predicate Acts(r: Request) { r.Send? || r.Verify? || r.Contact? || r.Step? }

  /** What a request does to the session it names. */
  function ActOf(s: Session, r: Request): Op
    requires Acts(r)
  {
    match r
    case Send(_, id, inbound, text, createdAt, now) => Append(Message(id, s.conversation, inbound, text, createdAt), now)
    case Verify(sid) => SetAuth(sid, true)
    case Contact(sid, name, email, phone) => Attach(sid, name, email, phone)
    case Step(sid, step) => SetStep(sid, step)
  }

  /** The store operations a request comes down to. */
  function OpsOf(st: Store, sc: Scope, r: Request): seq<Op> {
    if r.Create? then
      if Trim(r.agentId) == "" then []
      else if r.declares.None? then [ResumeOf(sc, r)]
      else [ResumeOf(sc, r), Declare(NewSession(st, r.agentId, r.email, sc, r.conv, r.m).conversation, r.declares.value)]
    else if Acts(r) && Scoped(st, sc, r.sid).Some? then [ActOf(Scoped(st, sc, r.sid).value, r)]
    else []
  }

  lemma RunOne(st: Store, op: Op)
    ensures Run(st, [op]) == Apply(st, op)
  {
    assert [op][..0] == [];
  }

  lemma RunTwo(st: Store, op1: Op, op2: Op)
    ensures Run(st, [op1, op2]) == Apply(Apply(st, op1), op2)
  {
    assert [op1, op2][..1] == [op1];
    RunOne(st, op1);
  }

  lemma CreateIsRun(st: Store, sc: Scope, r: Request)
    requires r.Create? && Fresh(st, r.m)
    ensures After(st, sc, r) == Run(st, OpsOf(st, sc, r))
  {
    if Trim(r.agentId) != "" {
      RunOne(st, ResumeOf(sc, r));
      if r.declares.Some? {
        RunTwo(st, ResumeOf(sc, r), Declare(NewSession(st, r.agentId, r.email, sc, r.conv, r.m).conversation, r.declares.value));
      }
    }
  }

  lemma AfterIsRun(st: Store, sc: Scope, r: Request)
    requires Timely(st, r)
    ensures After(st, sc, r) == Run(st, OpsOf(st, sc, r))
  {
    if r.Create? {
      CreateIsRun(st, sc, r);
    } else if OpsOf(st, sc, r) != [] {
      RunOne(st, OpsOf(st, sc, r)[0]);
    }
  }

  lemma ListingAgrees(sc: Scope, a: Store, b: Store)
    requires Agree(sc, a, b)
    ensures Listing(a, sc) == Listing(b, sc)
  {
    forall c ensures c in Listing(a, sc) <==> c in Listing(b, sc) {
      assert Visible(a, sc, c) <==> Visible(b, sc, c);
    }
  }

  lemma SessionReplyAgrees(sc: Scope, a: Store, b: Store, r: Request)
    requires Agree(sc, a, b) && !r.Create? && !r.ListAll?
    ensures Reply(a, sc, r) == Reply(b, sc, r)
  {
    assert Scoped(a, sc, r.sid) == Scoped(b, sc, r.sid);
    if Scoped(a, sc, r.sid).Some? { ScopedIsVisible(a, sc, r.sid); }
  }

  lemma ReplyAgrees(sc: Scope, a: Store, b: Store, r: Request)
    requires Agree(sc, a, b)
    ensures Reply(a, sc, r) == Reply(b, sc, r)
  {
    if r.Create? {
      assert Visible(a, sc, r.conv) <==> Visible(b, sc, r.conv);
    } else if r.ListAll? {
      ListingAgrees(sc, a, b);
    } else {
      SessionReplyAgrees(sc, a, b, r);
    }
  }

  // ---------------------------------------------------------------- operations the scope sees

  lemma OpenedVisible(sc: Scope, who: Scope, st: Store, c: ConversationId, t: int, d: ConversationId)
    requires sc.Allows(who.email, who.org)
    ensures Visible(Opened(st, who, c, t), sc, d) <==> Visible(st, sc, d) || d == c
  {}

  lemma OpenedSame(who: Scope, a: Store, b: Store, c: ConversationId, t: int, d: ConversationId)
    requires if d == c then Declared(a, c) == Declared(b, c) else SameConversation(a, b, d)
    ensures SameConversation(Opened(a, who, c, t), Opened(b, who, c, t), d)
  {}

  lemma OpenedAgreesConversations(sc: Scope, who: Scope, a: Store, b: Store, c: ConversationId, t: int)
    requires AgreeConversations(sc, a, b) && Declared(a, c) == Declared(b, c) && sc.Allows(who.email, who.org)
    ensures AgreeConversations(sc, Opened(a, who, c, t), Opened(b, who, c, t))
  {
    var a', b' := Opened(a, who, c, t), Opened(b, who, c, t);
    forall d ensures (Visible(a', sc, d) <==> Visible(b', sc, d)) && (Visible(a', sc, d) ==> SameConversation(a', b', d)) {
      OpenedVisible(sc, who, a, c, t, d);
      OpenedVisible(sc, who, b, c, t, d);
      if Visible(a', sc, d) { OpenedSame(who, a, b, c, t, d); }
    }
  }

  lemma OpenedAgrees(sc: Scope, who: Scope, a: Store, b: Store, c: ConversationId, t: int)
    requires AgreeSessions(sc, a, b)
    ensures AgreeSessions(sc, Opened(a, who, c, t), Opened(b, who, c, t))
  {
    var a', b' := Opened(a, who, c, t), Opened(b, who, c, t);
    forall sid ensures Scoped(a', sc, sid) == Scoped(b', sc, sid) { assert Scoped(a, sc, sid) == Scoped(b, sc, sid); }
  }

  lemma BoundAgreesSessions(sc: Scope, a: Store, b: Store, session: Session)
    requires AgreeSessions(sc, a, b) && Declared(a, session.conversation) == Declared(b, session.conversation)
    ensures AgreeSessions(sc, Bound(a, session), Bound(b, session))
  {
    var a', b' := Bound(a, session), Bound(b, session);
    forall sid ensures Scoped(a', sc, sid) == Scoped(b', sc, sid) { assert Scoped(a, sc, sid) == Scoped(b, sc, sid); }
  }

  lemma BoundAgrees(sc: Scope, a: Store, b: Store, session: Session)
    requires AgreeConversations(sc, a, b) && AgreeSessions(sc, a, b)
    requires Visible(a, sc, session.conversation)
    ensures AgreeConversations(sc, Bound(a, session), Bound(b, session))
    ensures AgreeSessions(sc, Bound(a, session), Bound(b, session))
  {
    var a', b' := Bound(a, session), Bound(b, session);
    assert SameConversation(a, b, session.conversation);
    BoundAgreesSessions(sc, a, b, session);
    forall d ensures Visible(a', sc, d) <==> Visible(b', sc, d) { assert Visible(a, sc, d) <==> Visible(b, sc, d); }
    forall d | Visible(a', sc, d) ensures SameConversation(a', b', d) { assert Visible(a, sc, d); }
  }

  /** Declaring changes one entry of the capability map and nothing else. */
  lemma SupportsSetIs(st: Store, c: ConversationId, caps: seq<string>)
    requires c in st.messages
    ensures var st' := SupportsSet(st, c, caps);
            && st' == st.(supports := st'.supports)
            && forall d :: Declared(st', d) == if d == c then caps else Declared(st, d)
  {}

  lemma SupportsAgree(sc: Scope, a: Store, b: Store, c: ConversationId, caps: seq<string>)
    requires AgreeConversations(sc, a, b) && AgreeSessions(sc, a, b) && Visible(a, sc, c)
    ensures AgreeConversations(sc, SupportsSet(a, c, caps), SupportsSet(b, c, caps))
    ensures AgreeSessions(sc, SupportsSet(a, c, caps), SupportsSet(b, c, caps))
  {
    assert SameConversation(a, b, c);
    SupportsSetIs(a, c, caps);
    SupportsSetIs(b, c, caps);
    SupportsReplaced(sc, a, b, c, SupportsSet(a, c, caps).supports, SupportsSet(b, c, caps).supports);
  }

  lemma SupportsReplaced(sc: Scope, a: Store, b: Store, c: ConversationId, ma: map<ConversationId, seq<string>>, mb: map<ConversationId, seq<string>>)
    requires AgreeConversations(sc, a, b) && AgreeSessions(sc, a, b) && At(ma, c, []) == At(mb, c, [])
    requires forall d | d != c :: At(ma, d, []) == Declared(a, d) && At(mb, d, []) == Declared(b, d)
    ensures AgreeConversations(sc, a.(supports := ma), b.(supports := mb))
    ensures AgreeSessions(sc, a.(supports := ma), b.(supports := mb))
  {
    var a', b' := a.(supports := ma), b.(supports := mb);
    SupportsReplacedSessions(sc, a, b, c, ma, mb);
    forall d ensures Visible(a', sc, d) <==> Visible(b', sc, d) { assert Visible(a, sc, d) <==> Visible(b, sc, d); }
    forall d | Visible(a', sc, d) ensures SameConversation(a', b', d) { assert Visible(a, sc, d); }
  }

  lemma SupportsReplacedSessions(sc: Scope, a: Store, b: Store, c: ConversationId, ma: map<ConversationId, seq<string>>, mb: map<ConversationId, seq<string>>)
    requires AgreeSessions(sc, a, b) && At(ma, c, []) == At(mb, c, [])
    requires forall d | d != c :: At(ma, d, []) == Declared(a, d) && At(mb, d, []) == Declared(b, d)
    ensures AgreeSessions(sc, a.(supports := ma), b.(supports := mb))
  {
    var a', b' := a.(supports := ma), b.(supports := mb);
    forall sid ensures Scoped(a', sc, sid) == Scoped(b', sc, sid) { assert Scoped(a, sc, sid) == Scoped(b, sc, sid); }
  }

  lemma AppendAgrees(sc: Scope, a: Store, b: Store, msg: Message, now: int)
    requires AgreeConversations(sc, a, b) && AgreeSessions(sc, a, b) && Visible(a, sc, msg.conversation)
    requires now > a.lastStamp && now > b.lastStamp
    ensures AgreeConversations(sc, Appended(a, msg, now), Appended(b, msg, now))
    ensures AgreeSessions(sc, Appended(a, msg, now), Appended(b, msg, now))
  {
    var a', b' := Appended(a, msg, now), Appended(b, msg, now);
    assert SameConversation(a, b, msg.conversation);
    forall d ensures Visible(a', sc, d) <==> Visible(b', sc, d) { assert Visible(a, sc, d) <==> Visible(b, sc, d); }
    forall d | Visible(a', sc, d) ensures SameConversation(a', b', d) { assert Visible(a, sc, d); }
    forall sid ensures Scoped(a', sc, sid) == Scoped(b', sc, sid) { assert Scoped(a, sc, sid) == Scoped(b, sc, sid); }
  }

  /** The update reads nothing of the session's capabilities. */
  ghost predicate Blind(f: Session -> Session) {
    forall s, caps :: f(s).(supports := caps) == f(s.(supports := caps))
  }

  lemma UpdatedElsewhere(sc: Scope, st: Store, sid: SessionId, f: Session -> Session, k: SessionId)
    requires k != sid
    ensures Scoped(Updated(st, sid, f), sc, k) == Scoped(st, sc, k)
  {}

  lemma UpdateAgreesAt(sc: Scope, a: Store, b: Store, sid: SessionId, f: Session -> Session)
    requires Scoped(a, sc, sid) == Scoped(b, sc, sid) && Scoped(a, sc, sid).Some? && Harmless(f) && Blind(f)
    ensures Scoped(Updated(a, sid, f), sc, sid) == Scoped(Updated(b, sid, f), sc, sid)
  {
    var sa, sb := a.sessions[sid], b.sessions[sid];
    var caps := Declared(a, sa.conversation);
    assert f(sa).(supports := caps) == f(sa.(supports := caps)) == f(sb.(supports := caps)) == f(sb).(supports := caps);
  }

  lemma UpdateAgreesSessions(sc: Scope, a: Store, b: Store, sid: SessionId, f: Session -> Session)
    requires AgreeSessions(sc, a, b) && Scoped(a, sc, sid).Some? && Harmless(f) && Blind(f)
    ensures AgreeSessions(sc, Updated(a, sid, f), Updated(b, sid, f))
  {
    forall k ensures Scoped(Updated(a, sid, f), sc, k) == Scoped(Updated(b, sid, f), sc, k) {
      assert Scoped(a, sc, k) == Scoped(b, sc, k);
      if k == sid {
        UpdateAgreesAt(sc, a, b, sid, f);
      } else {
        UpdatedElsewhere(sc, a, sid, f, k);
        UpdatedElsewhere(sc, b, sid, f, k);
      }
    }
  }

  lemma UpdateAgrees(sc: Scope, a: Store, b: Store, sid: SessionId, f: Session -> Session)
    requires AgreeConversations(sc, a, b) && AgreeSessions(sc, a, b) && Scoped(a, sc, sid).Some? && Harmless(f) && Blind(f)
    ensures AgreeConversations(sc, Updated(a, sid, f), Updated(b, sid, f))
    ensures AgreeSessions(sc, Updated(a, sid, f), Updated(b, sid, f))
  {
    var a', b' := Updated(a, sid, f), Updated(b, sid, f);
    UpdateAgreesSessions(sc, a, b, sid, f);
    assert Scoped(a, sc, sid) == Scoped(b, sc, sid);
    forall d ensures Visible(a', sc, d) <==> Visible(b', sc, d) { assert Visible(a, sc, d) <==> Visible(b, sc, d); }
    forall d | Visible(a', sc, d) ensures SameConversation(a', b', d) { assert Visible(a, sc, d); }
  }

  /** An operation on what the scope sees, with fresh ids and a timely clock. */
  predicate ShownOp(st: Store, sc: Scope, op: Op) {
    match op
    case Resume(_, _, who, conv, m, now) =>
      Fresh(st, m) && (if Resumes(st, who, conv) then Visible(st, sc, conv) else sc.Allows(who.email, who.org) && now > st.lastStamp)
    case Append(msg, now) => Visible(st, sc, msg.conversation) && now > st.lastStamp
    case Declare(conv, _) => Visible(st, sc, conv)
    case SetStep(sid, _) => Scoped(st, sc, sid).Some?
    case SetAuth(sid, _) => Scoped(st, sc, sid).Some?
    case Attach(sid, _, _, _) => Scoped(st, sc, sid).Some?
  }

  /** The operation finds the other store alike: its opener resumes there if it resumes here. */
  predicate FindsAlike(a: Store, b: Store, op: Op) {
    op.Resume? ==> (Resumes(a, op.sc, op.conv) <==> Resumes(b, op.sc, op.conv))
  }

  lemma NewSessionAgrees(sc: Scope, a: Store, b: Store, op: Op)
    requires AgreeConversations(sc, a, b) && op.Resume? && ShownOp(a, sc, op) && FindsAlike(a, b, op)
    ensures NewSession(a, op.agentId, op.email, op.sc, op.conv, op.m) == NewSession(b, op.agentId, op.email, op.sc, op.conv, op.m)
  {
    if Resumes(a, op.sc, op.conv) { assert SameConversation(a, b, op.conv); }
  }

  lemma ResumeAgrees(sc: Scope, a: Store, b: Store, op: Op)
    requires Agree(sc, a, b) && op.Resume? && ShownOp(a, sc, op) && ShownOp(b, sc, op) && FindsAlike(a, b, op)
    ensures AgreeConversations(sc, Apply(a, op), Apply(b, op)) && AgreeSessions(sc, Apply(a, op), Apply(b, op))
  {
    NewSessionAgrees(sc, a, b, op);
    var s := NewSession(a, op.agentId, op.email, op.sc, op.conv, op.m);
    if Resumes(a, op.sc, op.conv) {
      BoundAgrees(sc, a, b, s);
    } else {
      var c := op.m.conversation;
      OpenedVisible(sc, op.sc, a, c, op.now, c);
      OpenedAgreesConversations(sc, op.sc, a, b, c, op.now);
      OpenedAgrees(sc, op.sc, a, b, c, op.now);
      BoundAgrees(sc, Opened(a, op.sc, c, op.now), Opened(b, op.sc, c, op.now), s);
    }
  }

  lemma ConversationOpAgrees(sc: Scope, a: Store, b: Store, op: Op)
    requires Agree(sc, a, b) && (op.Append? || op.Declare?) && ShownOp(a, sc, op) && ShownOp(b, sc, op)
    ensures AgreeConversations(sc, Apply(a, op), Apply(b, op)) && AgreeSessions(sc, Apply(a, op), Apply(b, op))
  {
    if op.Append? { AppendAgrees(sc, a, b, op.msg, op.now); } else { SupportsAgree(sc, a, b, op.conv, op.caps); }
  }

  lemma SessionOpAgrees(sc: Scope, a: Store, b: Store, op: Op)
    requires Agree(sc, a, b) && (op.SetStep? || op.SetAuth? || op.Attach?) && ShownOp(a, sc, op)
    ensures AgreeConversations(sc, Apply(a, op), Apply(b, op)) && AgreeSessions(sc, Apply(a, op), Apply(b, op))
  {
    match op
    case SetStep(sid, step) => UpdateAgrees(sc, a, b, sid, StepSet(step));
    case SetAuth(sid, verified) => UpdateAgrees(sc, a, b, sid, AuthSet(verified));
    case Attach(sid, name, email, phone) => UpdateAgrees(sc, a, b, sid, ContactSet(name, email, phone));
  }

  /** An operation the scope sees keeps two stores in agreement. */
  lemma OpAgrees(sc: Scope, a: Store, b: Store, op: Op)
    requires Agree(sc, a, b) && ShownOp(a, sc, op) && ShownOp(b, sc, op) && FindsAlike(a, b, op)
    ensures Agree(sc, Apply(a, op), Apply(b, op))
  {
    if op.Resume? {
      ResumeAgrees(sc, a, b, op);
    } else if op.Append? || op.Declare? {
      ConversationOpAgrees(sc, a, b, op);
    } else {
      SessionOpAgrees(sc, a, b, op);
    }
    ApplyKeepsInv(a, op);
    ApplyKeepsInv(b, op);
  }

  // ---------------------------------------------------------------- requests

  lemma ResumeIsShown(sc: Scope, st: Store, r: Request)
    requires Inv(st) && r.Create? && Timely(st, r)
    ensures ShownOp(st, sc, ResumeOf(sc, r))
    ensures Visible(Apply(st, ResumeOf(sc, r)), sc, NewSession(st, r.agentId, r.email, sc, r.conv, r.m).conversation)
  {
    CreatorIsAllowed(st, r.agentId, r.email, sc, r.conv, r.m, r.now);
  }

  /** The operation of a creation agrees, and the conversation of the session it makes is in scope on both sides. */
  lemma CreationAgrees(sc: Scope, a: Store, b: Store, r: Request)
    requires Agree(sc, a, b) && r.Create? && Timely(a, r) && Timely(b, r)
    ensures var op := ResumeOf(sc, r);
            var c := NewSession(a, r.agentId, r.email, sc, r.conv, r.m).conversation;
            && Agree(sc, Apply(a, op), Apply(b, op)) && c == NewSession(b, r.agentId, r.email, sc, r.conv, r.m).conversation
            && Visible(Apply(a, op), sc, c) && Visible(Apply(b, op), sc, c)
  {
    var op := ResumeOf(sc, r);
    ResumeIsShown(sc, a, r);
    ResumeIsShown(sc, b, r);
    assert Visible(a, sc, r.conv) <==> Visible(b, sc, r.conv);
    NewSessionAgrees(sc, a, b, op);
    OpAgrees(sc, a, b, op);
  }

  lemma CreateAgrees(sc: Scope, a: Store, b: Store, r: Request)
    requires Agree(sc, a, b) && r.Create? && Trim(r.agentId) != "" && Timely(a, r) && Timely(b, r)
    ensures Agree(sc, Run(a, OpsOf(a, sc, r)), Run(b, OpsOf(b, sc, r)))
  {
    var op := ResumeOf(sc, r);
    CreationAgrees(sc, a, b, r);
    if r.declares.None? {
      RunOne(a, op);
      RunOne(b, op);
    } else {
      var declare := Declare(NewSession(a, r.agentId, r.email, sc, r.conv, r.m).conversation, r.declares.value);
      RunTwo(a, op, declare);
      RunTwo(b, op, declare);
      OpAgrees(sc, Apply(a, op), Apply(b, op), declare);
    }
  }

  lemma ActIsShown(st: Store, sc: Scope, r: Request)
    requires Inv(st) && Acts(r) && Scoped(st, sc, r.sid).Some? && Timely(st, r)
    ensures ShownOp(st, sc, ActOf(Scoped(st, sc, r.sid).value, r))
  {
    ScopedIsVisible(st, sc, r.sid);
  }

  /** A request other than a creation comes down to the same operation in both stores, one the scope sees. */
  lemma SameOps(sc: Scope, a: Store, b: Store, r: Request)
    requires Agree(sc, a, b) && !r.Create? && Timely(a, r)
    ensures OpsOf(a, sc, r) == OpsOf(b, sc, r) && |OpsOf(a, sc, r)| <= 1
    ensures forall op | op in OpsOf(a, sc, r) :: ShownOp(a, sc, op) && !op.Resume?
  {
    if Acts(r) {
      assert Scoped(a, sc, r.sid) == Scoped(b, sc, r.sid);
      if Scoped(a, sc, r.sid).Some? { ActIsShown(a, sc, r); }
    }
  }

  lemma AfterAgrees(sc: Scope, a: Store, b: Store, r: Request)
    requires Agree(sc, a, b) && Timely(a, r) && Timely(b, r)
    ensures Agree(sc, After(a, sc, r), After(b, sc, r))
  {
    AfterIsRun(a, sc, r);
    AfterIsRun(b, sc, r);
    if r.Create? {
      if Trim(r.agentId) != "" { CreateAgrees(sc, a, b, r); }
    } else {
      SameOps(sc, a, b, r);
      AgreeIsSymmetric(sc, a, b);
      SameOps(sc, b, a, r);
      if OpsOf(a, sc, r) != [] {
        var op := OpsOf(a, sc, r)[0];
        RunOne(a, op);
        RunOne(b, op);
        OpAgrees(sc, a, b, op);
      }
    }
  }

  lemma AgreeIsSymmetric(sc: Scope, a: Store, b: Store)
    requires Agree(sc, a, b)
    ensures Agree(sc, b, a)
  {
    forall k ensures Visible(b, sc, k) <==> Visible(a, sc, k) { assert Visible(a, sc, k) <==> Visible(b, sc, k); }
    forall k | Visible(b, sc, k) ensures SameConversation(b, a, k) {
      assert Visible(a, sc, k);
      assert SameConversation(a, b, k);
    }
    forall sid ensures Scoped(b, sc, sid) == Scoped(a, sc, sid) { assert Scoped(a, sc, sid) == Scoped(b, sc, sid); }
  }

  // ---------------------------------------------------------------- two stores, one principal

  function Final(st: Store, sc: Scope, rs: seq<Request>): Store
    decreases |rs|
  {
    if rs == [] then st else Final(After(st, sc, rs[0]), sc, rs[1..])
  }

  function Replies(st: Store, sc: Scope, rs: seq<Request>): seq<Response>
    decreases |rs|
  {
    if rs == [] then [] else [Reply(st, sc, rs[0])] + Replies(After(st, sc, rs[0]), sc, rs[1..])
  }

  ghost predicate AllTimely(st: Store, sc: Scope, rs: seq<Request>)
    decreases |rs|
  {
    rs == [] || (Timely(st, rs[0]) && AllTimely(After(st, sc, rs[0]), sc, rs[1..]))
  }

  /** A principal's answers are a function of what its scope allows, for every sequence of requests. */
  lemma {:induction false} OnlyTheVisibleMatters(sc: Scope, a: Store, b: Store, rs: seq<Request>)
    requires Agree(sc, a, b) && AllTimely(a, sc, rs) && AllTimely(b, sc, rs)
    ensures Replies(a, sc, rs) == Replies(b, sc, rs) && Agree(sc, Final(a, sc, rs), Final(b, sc, rs))
    decreases |rs|
  {
    if rs != [] {
      ReplyAgrees(sc, a, b, rs[0]);
      AfterAgrees(sc, a, b, rs[0]);
      OnlyTheVisibleMatters(sc, After(a, sc, rs[0]), After(b, sc, rs[0]), rs[1..]);
    }
  }

  /** Resuming someone else's conversation is resuming one that never existed: same answer, same store. */
  lemma HiddenIsUnknown(st: Store, agentId: string, email: string, sc: Scope, hidden: ConversationId, unknown: ConversationId,
                        declares: Option<seq<string>>, m: Minted, now: int)
    requires hidden in st.messages && !Visible(st, sc, hidden) && unknown !in st.messages
    ensures var r, r' := Create(agentId, email, hidden, declares, m, now), Create(agentId, email, unknown, declares, m, now);
            Reply(st, sc, r) == Reply(st, sc, r') && After(st, sc, r) == After(st, sc, r')
  {}

  /** A session is reached exactly by those who see its conversation. */
  lemma ReachIsSight(st: Store, sc: Scope, sid: SessionId)
    requires Inv(st) && sid in st.sessions
    ensures Scoped(st, sc, sid).Some? <==> Visible(st, sc, st.sessions[sid].conversation)
  {
    assert SessionOk(st, sid);
  }

  /** So for every session of it, whoever minted the session. */
  lemma OnlyItsOwnerReaches(before: seq<Op>, op: Op, after: seq<Op>, sc: Scope, sid: SessionId)
    requires op.Resume? && Fresh(Run(Empty, before), op.m) && !Resumes(Run(Empty, before), op.sc, op.conv)
    requires var st := Run(Apply(Run(Empty, before), op), after);
             sid in st.sessions && st.sessions[sid].conversation == op.m.conversation
    ensures Scoped(Run(Apply(Run(Empty, before), op), after), sc, sid).Some? <==>
            sc.unscoped || ((op.sc.org == "" || SameButForCase(op.sc.org, sc.org)) && (op.sc.email == "" || SameButForCase(op.sc.email, sc.email)))
  {
    RunInv(before, op, after);
    OnlyItsOwnerSees(before, op, after, sc);
    ReachIsSight(Run(Apply(Run(Empty, before), op), after), sc, sid);
  }
}
