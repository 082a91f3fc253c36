/**
 The in-memory session store. The class is the store, its maps changed in place; the
 functions on `Store` say what each method does, and the properties over histories of
 operations are about them. Freshly minted ids and clock readings are arguments.
 */
module SessionStore {
  import opened Basics
  import opened Text

  type SessionId = string
  type ConversationId = string

  /** Who is asking, from the connection's authenticated principal. */
  datatype Scope = Scope(unscoped: bool, email: string, org: string) {

    predicate Allows(ownerEmail: string, ownerOrg: string) {
      if unscoped then true
      else if ownerOrg != "" && !EqualFold(ownerOrg, org) then false
      else if ownerEmail == "" then true
      else email != "" && EqualFold(ownerEmail, email)
    }
  }

  datatype Session = Session(id: SessionId, conversation: ConversationId, agentId: string,
                             userParticipant: string, agentParticipant: string,
                             step: string, userName: string, contactEmail: string, contactPhone: string, otpVerified: bool,
                             ownerEmail: string, ownerOrg: string, supports: seq<string>)

  datatype Message = Message(id: string, conversation: ConversationId, inbound: bool, text: string, createdAt: int)

  datatype Summary = Summary(conversation: ConversationId, updatedAt: int, count: nat, firstInbound: string)

  datatype Store = Store(sessions: map<SessionId, Session>, messages: map<ConversationId, seq<Message>>,
                         updatedAt: map<ConversationId, int>, owner: map<ConversationId, string>,
                         org: map<ConversationId, string>, lastStamp: int, supports: map<ConversationId, seq<string>>)

  /** The four ids a resume mints. */
  datatype Minted = Minted(conversation: ConversationId, session: SessionId, user: string, agent: string)

  const Empty := Store(map[], map[], map[], map[], map[], 0, map[])

  /** A Go map read: the zero value for an absent key. */
  function At<V>(m: map<string, V>, k: string, zero: V): V { if k in m then m[k] else zero }

  function Owner(st: Store, c: ConversationId): string { At(st.owner, c, "") }

  function Org(st: Store, c: ConversationId): string { At(st.org, c, "") }

  function Declared(st: Store, c: ConversationId): seq<string> { At(st.supports, c, []) }

  predicate Visible(st: Store, sc: Scope, c: ConversationId) {
    c in st.messages && sc.Allows(Owner(st, c), Org(st, c))
  }

  /** A last-activity time strictly after every one issued before. */
  function Stamp(st: Store, now: int): int { if now > st.lastStamp then now else st.lastStamp + 1 }

  predicate Resumes(st: Store, sc: Scope, conv: ConversationId) { conv != "" && Visible(st, sc, conv) }

  function NewSession(st: Store, agentId: string, email: string, sc: Scope, conv: ConversationId, m: Minted): Session {
    if Resumes(st, sc, conv) then
      Session(m.session, conv, Trim(agentId), m.user, m.agent, "", "", email, "", false, Owner(st, conv), Org(st, conv), Declared(st, conv))
    else
      Session(m.session, m.conversation, Trim(agentId), m.user, m.agent, "", "", email, "", false, sc.email, sc.org, [])
  }

  /** A fresh conversation, owned by the principal that asked for it. */
  function Opened(st: Store, sc: Scope, c: ConversationId, t: int): Store {
    st.(messages := st.messages[c := []], updatedAt := st.updatedAt[c := t],
        owner := st.owner[c := sc.email], org := st.org[c := sc.org], lastStamp := t)
  }

  function Bound(st: Store, session: Session): Store { st.(sessions := st.sessions[session.id := session]) }

  function Resumed(st: Store, agentId: string, email: string, sc: Scope, conv: ConversationId, m: Minted, now: int): Store {
    var session := NewSession(st, agentId, email, sc, conv, m);
    Bound(if Resumes(st, sc, conv) then st else Opened(st, sc, m.conversation, Stamp(st, now)), session)
  }

  /** Capabilities are read through from the conversation on every load. */
  function Loaded(st: Store, sid: SessionId): Option<Session> {
    if sid in st.sessions then Some(st.sessions[sid].(supports := Declared(st, st.sessions[sid].conversation))) else None
  }

  function Appended(st: Store, msg: Message, now: int): Store {
    var c, t := msg.conversation, Stamp(st, now);
    st.(messages := st.messages[c := At(st.messages, c, []) + [msg]], updatedAt := st.updatedAt[c := t], lastStamp := t)
  }

  function FirstInbound(log: seq<Message>): string {
    if log == [] then "" else if log[0].inbound then log[0].text else FirstInbound(log[1..])
  }

  /** The text of the first inbound message, empty if there is none. */
  ghost predicate OpensWith(log: seq<Message>, text: string) {
    || (exists i :: 0 <= i < |log| && log[i].inbound && log[i].text == text && forall j | 0 <= j < i :: !log[j].inbound)
    || (text == "" && forall i | 0 <= i < |log| :: !log[i].inbound)
  }

  lemma {:induction false} FirstInboundExact(log: seq<Message>)
    ensures OpensWith(log, FirstInbound(log))
  {
    if log != [] && !log[0].inbound {
      FirstInboundExact(log[1..]);
      assert forall i | 0 < i < |log| :: log[i] == log[1..][i - 1];
      if i :| 0 <= i < |log[1..]| && log[1..][i].inbound && log[1..][i].text == FirstInbound(log[1..]) && forall j | 0 <= j < i :: !log[1..][j].inbound {
        assert log[i + 1].inbound && log[i + 1].text == FirstInbound(log);
      }
    }
  }

  function SummaryOf(st: Store, c: ConversationId): Summary
    requires c in st.messages
  {
    Summary(c, At(st.updatedAt, c, 0), |st.messages[c]|, FirstInbound(st.messages[c]))
  }

  predicate Listable(st: Store, sc: Scope, c: ConversationId) { Visible(st, sc, c) && st.messages[c] != [] }

  /** Every visible conversation with a message, by id. */
  function Listing(st: Store, sc: Scope): map<ConversationId, Summary> {
    map c | c in st.messages && Listable(st, sc, c) :: SummaryOf(st, c)
  }

  function Recent(log: seq<Message>, limit: int): seq<Message> {
    if limit > 0 && |log| > limit then log[|log| - limit..] else log
  }

  /** An unknown conversation is ignored, and an empty declaration clears the entry. */
  function DeclaredSet(st: Store, c: ConversationId, caps: seq<string>): map<ConversationId, seq<string>> {
    if c !in st.messages then st.supports else if caps == [] then st.supports - {c} else st.supports[c := caps]
  }

  function SupportsSet(st: Store, c: ConversationId, caps: seq<string>): Store { st.(supports := DeclaredSet(st, c, caps)) }

  function Updated(st: Store, sid: SessionId, f: Session -> Session): Store {
    st.(sessions := if sid in st.sessions then st.sessions[sid := f(st.sessions[sid])] else st.sessions)
  }

  function StepSet(step: string): Session -> Session { (s: Session) => s.(step := step) }

  function AuthSet(verified: bool): Session -> Session { (s: Session) => s.(otpVerified := verified) }

  function ContactSet(name: string, email: string, phone: string): Session -> Session {
    (s: Session) => s.(userName := if name != "" then name else s.userName,
                       contactEmail := if email != "" then email else s.contactEmail,
                       contactPhone := if phone != "" then phone else s.contactPhone)
  }

  /** `rows` lists exactly the entries of `m`, each once, in some order. */
  ghost predicate Lists(rows: seq<Summary>, m: map<ConversationId, Summary>) {
    && (forall i | 0 <= i < |rows| :: rows[i].conversation in m && m[rows[i].conversation] == rows[i])
    && (forall i, j | 0 <= i < j < |rows| :: rows[i].conversation != rows[j].conversation)
    && (forall c | c in m :: exists i :: 0 <= i < |rows| && rows[i].conversation == c)
  }

  lemma ListsOneMore(rows: seq<Summary>, m: map<ConversationId, Summary>, rest: set<ConversationId>, c: ConversationId)
    requires Lists(rows, m - rest) && c in rest
    ensures if c in m && m[c].conversation == c then Lists(rows + [m[c]], m - (rest - {c})) else c !in m ==> Lists(rows, m - (rest - {c}))
  {
    if c !in m {
      assert m - (rest - {c}) == m - rest;
    } else if m[c].conversation == c {
      forall d | d in m - (rest - {c}) ensures exists i :: 0 <= i < |rows| + 1 && (rows + [m[c]])[i].conversation == d {
        if d == c {
          assert (rows + [m[c]])[|rows|] == m[c];
        } else {
          assert d in m - rest;
          var i :| 0 <= i < |rows| && rows[i].conversation == d;
          assert (rows + [m[c]])[i] == rows[i];
        }
      }
    }
  }

  /** A row says how its conversation stands. */
  ghost predicate Describes(row: Summary, st: Store) {
    && row.conversation in st.messages && row.updatedAt == At(st.updatedAt, row.conversation, 0)
    && row.count == |st.messages[row.conversation]| && OpensWith(st.messages[row.conversation], row.firstInbound)
  }

  /** Which conversations the scope has listed. */
  predicate MayList(st: Store, sc: Scope, c: ConversationId) {
    c in st.messages && st.messages[c] != [] && sc.Allows(At(st.owner, c, ""), At(st.org, c, ""))
  }

  lemma ListedExactly(rows: seq<Summary>, st: Store, sc: Scope)
    requires Lists(rows, Listing(st, sc))
    ensures forall row | row in rows :: Describes(row, st) && MayList(st, sc, row.conversation)
    ensures forall c | MayList(st, sc, c) :: exists i :: 0 <= i < |rows| && rows[i].conversation == c
  {
    forall row | row in rows ensures Describes(row, st) && MayList(st, sc, row.conversation) {
      var i :| 0 <= i < |rows| && rows[i] == row;
      FirstInboundExact(st.messages[row.conversation]);
    }
    forall c | MayList(st, sc, c) ensures exists i :: 0 <= i < |rows| && rows[i].conversation == c { assert c in Listing(st, sc); }
  }

  class InMemorySessionStore {
    var sessions: map<SessionId, Session>
    var messages: map<ConversationId, seq<Message>>
    var updatedAt: map<ConversationId, int>
    var owner: map<ConversationId, string>
    var org: map<ConversationId, string>
    var lastStamp: int
    var supports: map<ConversationId, seq<string>>

    function State(): Store reads this { Store(sessions, messages, updatedAt, owner, org, lastStamp, supports) }

    constructor ()
      ensures State() == Empty
    {
      sessions, messages, updatedAt, owner, org, lastStamp, supports := map[], map[], map[], map[], map[], 0, map[];
    }

    method NextStamp(now: int) returns (t: int)
      modifies `lastStamp
      ensures t == Stamp(old(State()), now) && lastStamp == t
      ensures t > old(lastStamp) && t >= now
      ensures forall c | c in updatedAt :: old(updatedAt[c] <= lastStamp) ==> updatedAt[c] < t
    {
      t := now;
      if t <= lastStamp { t := lastStamp + 1; }
      lastStamp := t;
    }

    method ResumeSession(agentId: string, email: string, sc: Scope, conv: ConversationId, m: Minted, now: int)
      returns (session: Session, resumed: bool)
      modifies this
      ensures State() == Resumed(old(State()), agentId, email, sc, conv, m, now)
      ensures session == NewSession(old(State()), agentId, email, sc, conv, m)
      ensures resumed == (conv != "" && conv in old(messages) && sc.Allows(At(old(owner), conv, ""), At(old(org), conv, "")))
      ensures sessions == old(sessions)[m.session := session] && supports == old(supports)
      ensures session.id == m.session && session.userParticipant == m.user && session.agentParticipant == m.agent
      ensures session.agentId == Trim(agentId) && session.contactEmail == email && session.conversation == if resumed then conv else m.conversation
      ensures session.step == "" && session.userName == "" && session.contactPhone == "" && !session.otpVerified
      ensures session.ownerEmail == At(owner, session.conversation, "") && session.ownerOrg == At(org, session.conversation, "")
      ensures resumed ==> State() == old(State()).(sessions := sessions)
      ensures !resumed ==> messages == old(messages)[m.conversation := []] && owner == old(owner)[m.conversation := sc.email] && org == old(org)[m.conversation := sc.org]
    {
      resumed := false;
      var c := conv;
      if c != "" {
        resumed := c in messages && sc.Allows(At(owner, c, ""), At(org, c, ""));
      }
      if !resumed { c := m.conversation; }
      session := Session(m.session, c, Trim(agentId), m.user, m.agent, "", "", email, "", false, sc.email, sc.org, []);
      if resumed {
        session := session.(ownerEmail := At(owner, c, ""), ownerOrg := At(org, c, ""), supports := At(supports, c, []));
      }
      sessions := sessions[session.id := session];
      if !resumed {
        messages := messages[c := []];
        var t := NextStamp(now);
        updatedAt := updatedAt[c := t];
        owner := owner[c := sc.email];
        org := org[c := sc.org];
      }
    }

    method GetSession(sid: SessionId) returns (session: Option<Session>)
      ensures session == Loaded(State(), sid)
      ensures session.Some? <==> sid in sessions
      ensures session.Some? ==> session.value == sessions[sid].(supports := At(supports, sessions[sid].conversation, []))
    {
      if sid !in sessions { return None; }
      var s := sessions[sid];
      session := Some(s.(supports := At(supports, s.conversation, [])));
    }

    method AppendMessage(c: ConversationId, inbound: bool, text: string, id: string, createdAt: int, now: int)
      returns (msg: Message)
      modifies this
      ensures msg == Message(id, c, inbound, text, createdAt)
      ensures State() == Appended(old(State()), msg, now)
      ensures messages == old(messages)[c := At(old(messages), c, []) + [msg]] && updatedAt == old(updatedAt)[c := lastStamp]
      ensures lastStamp > old(lastStamp) && lastStamp >= now
    {
      msg := Message(id, c, inbound, text, createdAt);
      messages := messages[c := At(messages, c, []) + [msg]];
      var t := NextStamp(now);
      updatedAt := updatedAt[c := t];
    }

    method ListConversations(sc: Scope) returns (rows: seq<Summary>)
      ensures Lists(rows, Listing(State(), sc))
      ensures forall row | row in rows :: Describes(row, State()) && MayList(State(), sc, row.conversation)
      ensures forall c | MayList(State(), sc, c) :: exists i :: 0 <= i < |rows| && rows[i].conversation == c
    {
      rows := [];
      var rest := messages.Keys;
      ghost var all := Listing(State(), sc);
      while rest != {}
        invariant Lists(rows, all - rest)
        decreases rest
      {
        var c :| c in rest;
        ListsOneMore(rows, all, rest, c);
        rest := rest - {c};
        if messages[c] != [] && sc.Allows(At(owner, c, ""), At(org, c, "")) {
          var first := ScanFirstInbound(messages[c]);
          rows := rows + [Summary(c, At(updatedAt, c, 0), |messages[c]|, first)];
        }
      }
      assert all - {} == all;
      ListedExactly(rows, State(), sc);
    }

    method ListMessages(c: ConversationId, limit: int) returns (log: seq<Message>)
      ensures log == Recent(At(State().messages, c, []), limit)
      ensures var all := At(State().messages, c, []);
              && |log| == (if limit > 0 && limit < |all| then limit else |all|)
              && log == all[|all| - |log|..]
    {
      log := At(messages, c, []);
      if limit > 0 && |log| > limit { log := log[|log| - limit..]; }
    }

    method SetConversationSupports(c: ConversationId, caps: seq<string>)
      modifies this
      ensures State() == SupportsSet(old(State()), c, caps)
      ensures State() == old(State()).(supports := supports)
      ensures forall d :: At(supports, d, []) == if d == c && c in messages then caps else At(old(supports), d, [])
    {
      if c !in messages { return; }
      if caps == [] {
        supports := supports - {c};
      } else {
        supports := supports[c := caps];
      }
    }

    method SetCurrentStep(sid: SessionId, step: string)
      modifies this
      ensures State() == Updated(old(State()), sid, StepSet(step))
      ensures State() == old(State()).(sessions := sessions) && sessions.Keys == old(sessions).Keys
      ensures forall k | k in sessions :: sessions[k] == if k == sid then old(sessions)[k].(step := step) else old(sessions)[k]
    {
      if sid in sessions { sessions := sessions[sid := sessions[sid].(step := step)]; }
    }

    method SetSessionAuthenticated(sid: SessionId, verified: bool)
      modifies this
      ensures State() == Updated(old(State()), sid, AuthSet(verified))
      ensures State() == old(State()).(sessions := sessions) && sessions.Keys == old(sessions).Keys
      ensures forall k | k in sessions :: sessions[k] == if k == sid then old(sessions)[k].(otpVerified := verified) else old(sessions)[k]
    {
      if sid in sessions { sessions := sessions[sid := sessions[sid].(otpVerified := verified)]; }
    }

    method AttachSessionContact(sid: SessionId, name: string, email: string, phone: string)
      modifies this
      ensures State() == Updated(old(State()), sid, ContactSet(name, email, phone))
      ensures State() == old(State()).(sessions := sessions) && sessions.Keys == old(sessions).Keys
      ensures forall k | k in sessions && k != sid :: sessions[k] == old(sessions)[k]
      ensures sid in sessions ==>
                var s, s' := old(sessions)[sid], sessions[sid];
                && (name != "" ==> s'.userName == name) && (email != "" ==> s'.contactEmail == email) && (phone != "" ==> s'.contactPhone == phone)
                && s' == s.(userName := if name == "" then s.userName else s'.userName,
                            contactEmail := if email == "" then s.contactEmail else s'.contactEmail,
                            contactPhone := if phone == "" then s.contactPhone else s'.contactPhone)
    {
      if sid !in sessions { return; }
      var s := sessions[sid];
      if name != "" { s := s.(userName := name); }
      if email != "" { s := s.(contactEmail := email); }
      if phone != "" { s := s.(contactPhone := phone); }
      sessions := sessions[sid := s];
    }
  }

  method ScanFirstInbound(log: seq<Message>) returns (text: string)
    ensures text == FirstInbound(log) && OpensWith(log, text)
  {
    FirstInboundExact(log);
    text := "";
    var i := 0;
    while i < |log|
      invariant 0 <= i <= |log|
      invariant text == "" && FirstInbound(log) == FirstInbound(log[i..])
    {
      if log[i].inbound { return log[i].text; }
      assert log[i..][1..] == log[i + 1..];
      i := i + 1;
    }
  }

  // ---------------------------------------------------------------- histories

  datatype Op =
    | Resume(agentId: string, email: string, sc: Scope, conv: ConversationId, m: Minted, now: int)
    | Append(msg: Message, now: int)
    | SetStep(sid: SessionId, step: string)
    | SetAuth(sid: SessionId, verified: bool)
    | Attach(sid: SessionId, name: string, email: string, phone: string)
    | Declare(conv: ConversationId, caps: seq<string>)

  /** Minted ids are new to the store. */
  predicate Fresh(st: Store, m: Minted) { m.conversation !in st.messages && m.session !in st.sessions && m.conversation != "" }

  /** An operation whose minted ids are not fresh does not happen. */
  function Apply(st: Store, op: Op): Store {
    match op
    case Resume(agentId, email, sc, conv, m, now) =>
      if Fresh(st, m) then Resumed(st, agentId, email, sc, conv, m, now) else st
    case Append(msg, now) => Appended(st, msg, now)
    case SetStep(sid, step) => Updated(st, sid, StepSet(step))
    case SetAuth(sid, verified) => Updated(st, sid, AuthSet(verified))
    case Attach(sid, name, email, phone) => Updated(st, sid, ContactSet(name, email, phone))
    case Declare(conv, caps) => SupportsSet(st, conv, caps)
  }

  function Run(st: Store, ops: seq<Op>): Store {
    if |ops| == 0 then st else Apply(Run(st, ops[..|ops| - 1]), ops[|ops| - 1])
  }

  predicate SessionOk(st: Store, sid: SessionId)
    requires sid in st.sessions
  {
    var s := st.sessions[sid];
    s.id == sid && s.conversation in st.messages && s.ownerEmail == Owner(st, s.conversation) && s.ownerOrg == Org(st, s.conversation)
  }

  /** Stamps never repeat, and none is later than the last one issued. */
  ghost predicate Stamped(updatedAt: map<ConversationId, int>, lastStamp: int) {
    && (forall c | c in updatedAt :: updatedAt[c] <= lastStamp)
    && (forall c, d | c in updatedAt && d in updatedAt && c != d :: updatedAt[c] != updatedAt[d])
  }

  ghost predicate SessionsOk(st: Store) { forall sid | sid in st.sessions :: SessionOk(st, sid) }

  /** The maps agree on which conversations exist, every session carries its conversation's owner, and stamps never repeat. */
  ghost predicate Inv(st: Store) {
    && (forall c :: c in st.updatedAt <==> c in st.messages)
    && (forall c | c in st.owner || c in st.org || c in st.supports :: c in st.messages)
    && SessionsOk(st) && Stamped(st.updatedAt, st.lastStamp)
  }

  /** Logs only grow. */
  ghost predicate Extends(m: map<ConversationId, seq<Message>>, m': map<ConversationId, seq<Message>>) {
    forall c | c in m :: c in m' && m[c] <= m'[c]
  }

  /** What no operation may do to a conversation or a session that exists. */
  ghost predicate Keeps(st: Store, st': Store) {
    && Extends(st.messages, st'.messages)
    && (forall c | c in st.messages :: Owner(st', c) == Owner(st, c) && Org(st', c) == Org(st, c))
    && (forall sid | sid in st.sessions :: sid in st'.sessions && st'.sessions[sid].conversation == st.sessions[sid].conversation)
    && st.lastStamp <= st'.lastStamp
  }

  lemma StampKeeps(st: Store, c: ConversationId, now: int)
    requires Stamped(st.updatedAt, st.lastStamp)
    ensures Stamped(st.updatedAt[c := Stamp(st, now)], Stamp(st, now))
  {}

  lemma OpenedKeepsInv(st: Store, sc: Scope, c: ConversationId, now: int)
    requires Inv(st) && c !in st.messages
    ensures Inv(Opened(st, sc, c, Stamp(st, now)))
  {
    var st' := Opened(st, sc, c, Stamp(st, now));
    StampKeeps(st, c, now);
    forall sid | sid in st'.sessions ensures SessionOk(st', sid) { assert SessionOk(st, sid); }
  }

  lemma OpenedKeeps(st: Store, sc: Scope, c: ConversationId, now: int)
    requires Inv(st) && c !in st.messages
    ensures Keeps(st, Opened(st, sc, c, Stamp(st, now)))
  {
    OpenedKeepsOwners(st, sc, c, Stamp(st, now));
    assert Extends(st.messages, Opened(st, sc, c, Stamp(st, now)).messages);
  }

  lemma OpenedKeepsOwners(st: Store, sc: Scope, c: ConversationId, t: int)
    ensures forall d | d in st.messages && d != c :: Owner(Opened(st, sc, c, t), d) == Owner(st, d) && Org(Opened(st, sc, c, t), d) == Org(st, d)
  {}

  lemma BoundKeeps(st: Store, session: Session)
    requires Inv(st) && session.id !in st.sessions && session.conversation in st.messages
    requires session.ownerEmail == Owner(st, session.conversation) && session.ownerOrg == Org(st, session.conversation)
    ensures Inv(Bound(st, session)) && Keeps(st, Bound(st, session))
  {
    var st' := Bound(st, session);
    forall sid | sid in st'.sessions ensures SessionOk(st', sid) {
      if sid != session.id { assert SessionOk(st, sid); }
    }
  }

  lemma ResumedKeeps(st: Store, agentId: string, email: string, sc: Scope, conv: ConversationId, m: Minted, now: int)
    requires Inv(st) && Fresh(st, m)
    ensures Inv(Resumed(st, agentId, email, sc, conv, m, now)) && Keeps(st, Resumed(st, agentId, email, sc, conv, m, now))
  {
    var session := NewSession(st, agentId, email, sc, conv, m);
    if Resumes(st, sc, conv) {
      BoundKeeps(st, session);
    } else {
      OpenedKeepsInv(st, sc, m.conversation, now);
      OpenedKeeps(st, sc, m.conversation, now);
      BoundKeeps(Opened(st, sc, m.conversation, Stamp(st, now)), session);
    }
  }

  lemma AppendedKeeps(st: Store, msg: Message, now: int)
    requires Inv(st)
    ensures Inv(Appended(st, msg, now)) && Keeps(st, Appended(st, msg, now))
  {
    var st' := Appended(st, msg, now);
    StampKeeps(st, msg.conversation, now);
    forall sid | sid in st'.sessions ensures SessionOk(st', sid) { assert SessionOk(st, sid); }
  }

  lemma SupportsSetKeepsInv(st: Store, c: ConversationId, caps: seq<string>)
    requires Inv(st)
    ensures Inv(SupportsSet(st, c, caps))
  {
    var st' := SupportsSet(st, c, caps);
    forall sid | sid in st'.sessions ensures SessionOk(st', sid) { assert SessionOk(st, sid); }
  }

  lemma SupportsSetKeeps(st: Store, c: ConversationId, caps: seq<string>)
    ensures Keeps(st, SupportsSet(st, c, caps))
  {}

  /** The updates a session can get leave its id, conversation and recorded owner alone. */
  ghost predicate Harmless(f: Session -> Session) {
    forall s :: f(s).id == s.id && f(s).conversation == s.conversation && f(s).ownerEmail == s.ownerEmail && f(s).ownerOrg == s.ownerOrg
  }

  lemma UpdatedKeepsInv(st: Store, sid: SessionId, f: Session -> Session)
    requires Inv(st) && Harmless(f)
    ensures Inv(Updated(st, sid, f))
  {
    if sid in st.sessions {
      var st' := Updated(st, sid, f);
      forall k | k in st'.sessions ensures SessionOk(st', k) { assert SessionOk(st, k); }
    }
  }

  lemma UpdatedKeeps(st: Store, sid: SessionId, f: Session -> Session)
    requires Harmless(f)
    ensures Keeps(st, Updated(st, sid, f))
  {
    if sid in st.sessions { assert f(st.sessions[sid]).conversation == st.sessions[sid].conversation; }
  }

  lemma ApplyKeepsInv(st: Store, op: Op)
    requires Inv(st)
    ensures Inv(Apply(st, op)) && Keeps(st, Apply(st, op))
  {
    match op
    case Resume(agentId, email, sc, conv, m, now) => if Fresh(st, m) { ResumedKeeps(st, agentId, email, sc, conv, m, now); }
    case Append(msg, now) => AppendedKeeps(st, msg, now);
    case SetStep(sid, step) =>
      UpdatedKeepsInv(st, sid, StepSet(step));
      UpdatedKeeps(st, sid, StepSet(step));
    case SetAuth(sid, verified) =>
      UpdatedKeepsInv(st, sid, AuthSet(verified));
      UpdatedKeeps(st, sid, AuthSet(verified));
    case Attach(sid, name, email, phone) =>
      UpdatedKeepsInv(st, sid, ContactSet(name, email, phone));
      UpdatedKeeps(st, sid, ContactSet(name, email, phone));
    case Declare(conv, caps) =>
      SupportsSetKeepsInv(st, conv, caps);
      SupportsSetKeeps(st, conv, caps);
  }

  lemma {:induction false} RunKeepsInv(st: Store, ops: seq<Op>)
    requires Inv(st)
    ensures Inv(Run(st, ops)) && Keeps(st, Run(st, ops))
  {
    if |ops| > 0 {
      RunKeepsInv(st, ops[..|ops| - 1]);
      ApplyKeepsInv(Run(st, ops[..|ops| - 1]), ops[|ops| - 1]);
    }
  }

  /**
   Ownership never moves: whatever operations follow, a conversation keeps the owner and org
   it was created with, and every session bound to it records exactly those.
   */
  lemma OwnershipNeverMoves(before: seq<Op>, after: seq<Op>, c: ConversationId)
    requires c in Run(Empty, before).messages
    ensures var st, st' := Run(Empty, before), Run(Run(Empty, before), after);
            && c in st'.messages && Owner(st', c) == Owner(st, c) && Org(st', c) == Org(st, c)
            && forall sid | sid in st'.sessions && st'.sessions[sid].conversation == c ::
                 st'.sessions[sid].ownerEmail == Owner(st, c) && st'.sessions[sid].ownerOrg == Org(st, c)
  {
    RunKeepsInv(Empty, before);
    RunKeepsInv(Run(Empty, before), after);
    var st' := Run(Run(Empty, before), after);
    forall sid | sid in st'.sessions ensures SessionOk(st', sid) {}
  }

  /** Whoever creates or resumes a conversation may read it, and the session just made. */
  lemma CreatorIsAllowed(st: Store, agentId: string, email: string, sc: Scope, conv: ConversationId, m: Minted, now: int)
    requires Inv(st) && Fresh(st, m)
    ensures var st' := Resumed(st, agentId, email, sc, conv, m, now);
            var s := NewSession(st, agentId, email, sc, conv, m);
            && Visible(st', sc, s.conversation)
            && sc.Allows(s.ownerEmail, s.ownerOrg)
            && Loaded(st', m.session) == Some(s)
  {}

  /** ... and whatever happens afterwards, it stays readable to them. */
  lemma CreatorKeepsAccess(st: Store, agentId: string, email: string, sc: Scope, conv: ConversationId, m: Minted, now: int, after: seq<Op>)
    requires Inv(st) && Fresh(st, m)
    ensures Visible(Run(Resumed(st, agentId, email, sc, conv, m, now), after), sc, NewSession(st, agentId, email, sc, conv, m).conversation)
  {
    CreatorIsAllowed(st, agentId, email, sc, conv, m, now);
    ResumedKeeps(st, agentId, email, sc, conv, m, now);
    RunKeepsInv(Resumed(st, agentId, email, sc, conv, m, now), after);
  }

  /**
   Who may see a row, letter by letter: an org on record must be the scope's own, but for case,
   whoever owns the row; within it a row without an owner is everyone's, and any other only its
   owner's, but for case.
   */
  lemma AllowsExactly(sc: Scope, ownerEmail: string, ownerOrg: string)
    ensures sc.Allows(ownerEmail, ownerOrg) <==>
            sc.unscoped || ((ownerOrg == "" || SameButForCase(ownerOrg, sc.org)) && (ownerEmail == "" || SameButForCase(ownerEmail, sc.email)))
  {
    EqualFoldExact(ownerOrg, sc.org);
    EqualFoldExact(ownerEmail, sc.email);
  }

  lemma RunInv(before: seq<Op>, op: Op, after: seq<Op>)
    ensures var made := Apply(Run(Empty, before), op); Inv(made) && Inv(Run(made, after)) && Keeps(made, Run(made, after))
  {
    RunKeepsInv(Empty, before);
    ApplyKeepsInv(Run(Empty, before), op);
    RunKeepsInv(Apply(Run(Empty, before), op), after);
  }

  /**
   Over whole histories: a conversation a principal opened is visible, whatever is done to the
   store afterwards, to an unscoped server, and else only within the principal's org and, if
   the principal has an email, only under that email.
   */
  lemma OnlyItsOwnerSees(before: seq<Op>, op: Op, after: seq<Op>, sc: Scope)
    requires op.Resume? && Fresh(Run(Empty, before), op.m) && !Resumes(Run(Empty, before), op.sc, op.conv)
    ensures var st := Run(Apply(Run(Empty, before), op), after);
            Visible(st, sc, op.m.conversation) <==>
            sc.unscoped || ((op.sc.org == "" || SameButForCase(op.sc.org, sc.org)) && (op.sc.email == "" || SameButForCase(op.sc.email, sc.email)))
  {
    RunInv(before, op, after);
    assert op.m.conversation in Apply(Run(Empty, before), op).messages;
    AllowsExactly(sc, op.sc.email, op.sc.org);
  }

  /** The zero scope does not deny everything: it allows exactly the rows with neither an owner nor an org. */
  lemma ZeroScopeAllows(ownerEmail: string, ownerOrg: string)
    ensures Scope(false, "", "").Allows(ownerEmail, ownerOrg) <==> ownerEmail == "" && ownerOrg == ""
  {
    if ownerOrg != "" { assert |Lower(ownerOrg)| != |Lower("")|; }
  }

  /** The capabilities most recently declared for a conversation that existed at the time; [] clears them. */
  function LastDeclared(ops: seq<Op>, c: ConversationId): seq<string> {
    if |ops| == 0 then []
    else
      var init, op := ops[..|ops| - 1], ops[|ops| - 1];
      if op.Declare? && op.conv == c && c in Run(Empty, init).messages then op.caps else LastDeclared(init, c)
  }

  lemma ApplyDeclares(st: Store, op: Op, c: ConversationId)
    requires Inv(st)
    ensures Declared(Apply(st, op), c) == if op.Declare? && op.conv == c && c in st.messages then op.caps else Declared(st, c)
  {
    match op
    case Declare(conv, caps) =>
    case Append(msg, now) =>
    case Resume(agentId, email, sc, conv, m, now) =>
    case _ =>
  }

  lemma {:induction false} DeclaredIsLast(ops: seq<Op>, c: ConversationId)
    ensures Declared(Run(Empty, ops), c) == LastDeclared(ops, c)
  {
    if |ops| > 0 {
      DeclaredIsLast(ops[..|ops| - 1], c);
      RunKeepsInv(Empty, ops[..|ops| - 1]);
      ApplyDeclares(Run(Empty, ops[..|ops| - 1]), ops[|ops| - 1], c);
    }
  }

  /** Any load of any session of a conversation, and any resume of it, reports its last declaration. */
  lemma LoadReportsLastDeclared(ops: seq<Op>, sid: SessionId)
    requires sid in Run(Empty, ops).sessions
    ensures Loaded(Run(Empty, ops), sid).Some?
    ensures Loaded(Run(Empty, ops), sid).value.supports == LastDeclared(ops, Run(Empty, ops).sessions[sid].conversation)
  {
    DeclaredIsLast(ops, Run(Empty, ops).sessions[sid].conversation);
  }

  lemma ResumeReportsLastDeclared(ops: seq<Op>, agentId: string, email: string, sc: Scope, conv: ConversationId, m: Minted)
    requires Resumes(Run(Empty, ops), sc, conv)
    ensures NewSession(Run(Empty, ops), agentId, email, sc, conv, m).supports == LastDeclared(ops, conv)
  {
    DeclaredIsLast(ops, conv);
  }
}
