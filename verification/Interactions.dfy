/**
 Rich interactions: the registry a raise parks in, and the runs of raises against the
 `submit_interaction` handler, which peeks at the park, validates against its spec, and only
 then resolves it, with any other step of the connection in between.
 */
module Interactions {
  import opened Basics

  type SessionId = string
  type Chan = nat

  datatype Outcome = Submitted(values: string) | Declined | NoResponse

  /** A parked raise: the id a submit must echo, the kind and spec that drive validation, its channel. */
  datatype Pending = Pending(id: string, kind: string, spec: string, chan: Chan)

  datatype Registry = Registry(pending: map<SessionId, Pending>, chans: seq<seq<Outcome>>)

  ghost predicate Valid(r: Registry) {
    && (forall sid | sid in r.pending :: r.pending[sid].chan < |r.chans| && r.chans[r.pending[sid].chan] == [])
    && (forall s1, s2 | s1 in r.pending && s2 in r.pending && s1 != s2 :: r.pending[s1].chan != r.pending[s2].chan)
  }

  function Offer(chans: seq<seq<Outcome>>, ch: Chan, o: Outcome): seq<seq<Outcome>> {
    if ch < |chans| && chans[ch] == [] then chans[ch := [o]] else chans
  }

  function Registered(r: Registry, sid: SessionId, id: string, kind: string, spec: string): Registry {
    var chans := if sid in r.pending then Offer(r.chans, r.pending[sid].chan, NoResponse) else r.chans;
    Registry(r.pending[sid := Pending(id, kind, spec, |chans|)], chans + [[]])
  }

  predicate Resolves(r: Registry, sid: SessionId, id: string) {
    sid in r.pending && r.pending[sid].id == id && r.pending[sid].chan < |r.chans|
  }

  function Resolved(r: Registry, sid: SessionId, id: string, o: Outcome): Registry {
    if !Resolves(r, sid, id) then r
    else
      var ch := r.pending[sid].chan;
      Registry(r.pending - {sid}, r.chans[ch := r.chans[ch] + [o]])
  }

  function Cleared(r: Registry, sid: SessionId): Registry { r.(pending := r.pending - {sid}) }

  predicate OneOf(r: Registry, keys: set<SessionId>, ch: Chan) {
    exists sid | sid in keys :: sid in r.pending && r.pending[sid].chan == ch
  }

  /** The parks of the sessions in `keys` are over, each answered with no response. */
  function RejectedFor(r: Registry, keys: set<SessionId>): Registry {
    Registry(r.pending - keys,
             seq(|r.chans|, i requires 0 <= i < |r.chans| =>
               if OneOf(r, keys, i) && r.chans[i] == [] then [NoResponse] else r.chans[i]))
  }

  function Rejected(r: Registry): Registry { RejectedFor(r, r.pending.Keys) }

  lemma RejectNone(r: Registry)
    ensures RejectedFor(r, {}) == r
  {}

  lemma RejectedForValid(r: Registry, keys: set<SessionId>)
    requires Valid(r)
    ensures Valid(RejectedFor(r, keys))
  {
    forall s | s in r.pending && s !in keys ensures !OneOf(r, keys, r.pending[s].chan) {}
  }

  /** Rejecting every park answers each of them, and touches no other channel. */
  lemma RejectedAnswers(r: Registry)
    requires Valid(r)
    ensures forall sid | sid in r.pending :: Rejected(r).chans[r.pending[sid].chan] == [NoResponse]
    ensures forall i | 0 <= i < |r.chans| && (forall sid | sid in r.pending :: r.pending[sid].chan != i) :: Rejected(r).chans[i] == r.chans[i]
  {
    forall sid | sid in r.pending ensures OneOf(r, r.pending.Keys, r.pending[sid].chan) { assert sid in r.pending.Keys; }
  }

  lemma OneMore(r: Registry, keys: set<SessionId>, sid: SessionId, ch: Chan)
    requires sid in r.pending
    ensures OneOf(r, keys + {sid}, ch) <==> OneOf(r, keys, ch) || ch == r.pending[sid].chan
  {
    if ch == r.pending[sid].chan { assert sid in keys + {sid}; }
    if OneOf(r, keys, ch) {
      var s :| s in keys && s in r.pending && r.pending[s].chan == ch;
      assert s in keys + {sid};
    }
  }

  lemma RejectOneMore(r: Registry, keys: set<SessionId>, sid: SessionId)
    requires Valid(r) && sid in r.pending && sid !in keys
    ensures var one := RejectedFor(r, keys);
            && sid in one.pending && one.pending[sid].chan < |one.chans|
            && RejectedFor(r, keys + {sid}) == Registry(one.pending - {sid}, Offer(one.chans, one.pending[sid].chan, NoResponse))
  {
    var ch := r.pending[sid].chan;
    assert !OneOf(r, keys, ch);
    forall i: nat | i < |r.chans| ensures OneOf(r, keys + {sid}, i) <==> OneOf(r, keys, i) || i == ch { OneMore(r, keys, sid, i); }
    assert r.pending - (keys + {sid}) == (r.pending - keys) - {sid};
  }

  lemma RegisteredValid(r: Registry, sid: SessionId, id: string, kind: string, spec: string)
    requires Valid(r)
    ensures Valid(Registered(r, sid, id, kind, spec))
  {}

  lemma RegisteredDoes(r: Registry, sid: SessionId, id: string, kind: string, spec: string)
    requires Valid(r)
    ensures var r', n := Registered(r, sid, id, kind, spec), |r.chans|;
            && r'.chans == r'.chans[..n] + [[]] && r'.pending == r.pending[sid := Pending(id, kind, spec, n)]
            && (sid in r.pending ==> r'.chans[r.pending[sid].chan] == [NoResponse])
            && forall i | 0 <= i < n && !(sid in r.pending && i == r.pending[sid].chan) :: r'.chans[i] == r.chans[i]
  {}

  class InteractionRegistry {
    var pending: map<SessionId, Pending>
    var chans: seq<seq<Outcome>>

    function State(): Registry reads this { Registry(pending, chans) }

    ghost predicate Ok() reads this { Valid(State()) }

    constructor ()
      ensures State() == Registry(map[], []) && Ok()
    {
      pending, chans := map[], [];
    }

    /** A blocking send on a capacity-1 channel; callers prove that it cannot block. */
    method SendNow(ch: Chan, o: Outcome)
      requires ch < |chans| && chans[ch] == []
      modifies `chans
      ensures chans == old(chans)[ch := [o]]
    {
      assert chans[ch] + [o] == [o];
      chans := chans[ch := chans[ch] + [o]];
    }

    method TrySend(ch: Chan, o: Outcome)
      requires ch < |chans|
      modifies `chans
      ensures chans == Offer(old(chans), ch, o)
    {
      if chans[ch] == [] { SendNow(ch, o); }
    }

    method Register(sid: SessionId, id: string, kind: string, spec: string) returns (ch: Chan)
      requires Ok()
      modifies this
      ensures State() == Registered(old(State()), sid, id, kind, spec) && Ok()
      ensures ch == |old(chans)| && chans == chans[..ch] + [[]] && pending == old(pending)[sid := Pending(id, kind, spec, ch)]
      ensures sid in old(pending) ==> chans[old(pending)[sid].chan] == [NoResponse]
      ensures forall i | 0 <= i < ch && !(sid in old(pending) && i == old(pending)[sid].chan) :: chans[i] == old(chans)[i]
    {
      RegisteredValid(State(), sid, id, kind, spec);
      RegisteredDoes(State(), sid, id, kind, spec);
      ghost var was := pending;
      if sid in pending {
        TrySend(pending[sid].chan, NoResponse);
        pending := pending - {sid};
      }
      ch := |chans|;
      chans := chans + [[]];
      pending := pending[sid := Pending(id, kind, spec, ch)];
      assert pending == was[sid := Pending(id, kind, spec, ch)];
    }

    /** The park of a session, left in place. */
    method Peek(sid: SessionId) returns (found: Option<Pending>)
      ensures found == if sid in pending then Some(pending[sid]) else None
    {
      if sid in pending { return Some(pending[sid]); }
      return None;
    }

    method Resolve(sid: SessionId, id: string, o: Outcome) returns (resolved: bool)
      requires Ok()
      modifies this
      ensures State() == Resolved(old(State()), sid, id, o) && Ok()
      ensures resolved == (sid in old(pending) && old(pending)[sid].id == id) && |chans| == |old(chans)|
      ensures resolved ==> pending == old(pending) - {sid} && chans[old(pending)[sid].chan] == [o]
      ensures !resolved ==> pending == old(pending)
      ensures forall i | 0 <= i < |chans| && !(resolved && i == old(pending)[sid].chan) :: chans[i] == old(chans)[i]
    {
      if sid !in pending || pending[sid].id != id { return false; }
      var ch := pending[sid].chan;
      pending := pending - {sid};
      assert chans[ch] + [o] == [o];
      SendNow(ch, o);
      return true;
    }

    method Clear(sid: SessionId)
      requires Ok()
      modifies this
      ensures State() == Cleared(old(State()), sid) && Ok()
      ensures pending == old(pending) - {sid} && chans == old(chans)
    {
      pending := pending - {sid};
    }

    method RejectAll()
      requires Ok()
      modifies this
      ensures State() == Rejected(old(State()))
      ensures Ok() && pending == map[] && |chans| == |old(chans)|
      ensures forall sid | sid in old(pending) :: chans[old(pending)[sid].chan] == [NoResponse]
      ensures forall i | 0 <= i < |chans| && (forall sid | sid in old(pending) :: old(pending)[sid].chan != i) :: chans[i] == old(chans)[i]
    {
      ghost var was, keys := State(), {};
      RejectNone(was);
      while pending != map[]
        invariant keys <= was.pending.Keys && pending.Keys == was.pending.Keys - keys
        invariant State() == RejectedFor(was, keys)
        decreases was.pending.Keys - keys
      {
        var sid :| sid in pending;
        RejectOneMore(was, keys, sid);
        RejectOne(sid);
        keys := keys + {sid};
      }
      assert was.pending.Keys - keys == {};
      assert keys == was.pending.Keys;
      RejectedForValid(was, keys);
      RejectedAnswers(was);
    }

    method RejectOne(sid: SessionId)
      requires sid in pending && pending[sid].chan < |chans|
      modifies this
      ensures State() == Registry(old(pending) - {sid}, Offer(old(chans), old(pending[sid].chan), NoResponse))
    {
      TrySend(pending[sid].chan, NoResponse);
      pending := pending - {sid};
    }
  }

  // ---------------------------------------------------------------- runs

  /** A kind's server-side validator, as the handler sees it: any total function. */
  datatype Check = Accepted(values: string) | Refused | NotHosted
  type Validator = (string, string, string) -> Check

  /** A `submit_interaction` frame; `visible` says whether its session is readable on this connection. */
  datatype Frame = Frame(sid: SessionId, id: string, kind: string, declined: bool, values: Option<string>, visible: bool)

  datatype Fate = Parked | Answered(frame: nat, outcome: Outcome) | Displaced | Dropped

  /** What the raise tool returned with: an outcome, or its own timeout or cancelled context. */
  datatype Result = Awaiting | Got(outcome: Outcome) | GaveUp

  datatype Raise = Raise(sid: SessionId, id: string, kind: string, spec: string, fate: Fate, result: Result)

  /** The read loop inside the handler: after the peek, and after a validation that accepted. */
  datatype Handler =
    | Idle
    | Peeked(p: Pending, at: nat, frame: Frame)
    | Validated(p: Pending, at: nat, frame: Frame, values: string)

  datatype Reply = NoPending | Mismatch | Invalid | BadRequest | Acknowledged | Silent

  /** Raise `i` awaits channel `i`; `clock` counts the actions so far; `reply` is the handler's last reply. */
  datatype System = System(reg: Registry, raises: seq<Raise>, handler: Handler, reply: Reply, clock: nat)

  datatype Action =
    | Park(sid: SessionId, id: string, kind: string, spec: string)   // a raise tool registers under a fresh id
    | Receive(i: nat)
    | GiveUp(i: nat)
    | Clear(sid: SessionId)                                          // by a raise that gave up
    | Submit(frame: Frame)
    | HandlerStep
    | Teardown

  const Initial := System(Registry(map[], []), [], Idle, Silent, 0)

  predicate FreshId(raises: seq<Raise>, id: string) { forall i | 0 <= i < |raises| :: raises[i].id != id }

  function SetFate(raises: seq<Raise>, i: nat, fate: Fate): seq<Raise> {
    if i < |raises| then raises[i := raises[i].(fate := fate)] else raises
  }

  /** Resolving from the handler: the park goes, and the reply acknowledges it, or nothing happens silently. */
  function Answer(s: System, sid: SessionId, id: string, at: nat, o: Outcome): System {
    if Resolves(s.reg, sid, id) then
      s.(reg := Resolved(s.reg, sid, id, o), raises := SetFate(s.raises, s.reg.pending[sid].chan, Answered(at, o)),
         handler := Idle, reply := Acknowledged)
    else s.(handler := Idle, reply := Silent)
  }

  function Handle(v: Validator, s: System): System {
    match s.handler
    case Idle => s
    case Peeked(p, at, f) =>
      if f.id != p.id || (f.kind != "" && f.kind != p.kind) then s.(handler := Idle, reply := Mismatch)
      else if f.declined then Answer(s, f.sid, p.id, at, Declined)
      else if f.values.None? then s.(handler := Idle, reply := BadRequest)
      else
        (match v(p.kind, p.spec, f.values.value)
         case Accepted(values) => s.(handler := Validated(p, at, f, values))
         case Refused => s.(handler := Idle, reply := Invalid)
         case NotHosted => s.(handler := Idle, reply := NoPending))
    case Validated(p, at, f, values) => Answer(s, f.sid, p.id, at, Submitted(values))
  }

  function Step(v: Validator, s: System, a: Action): System {
    var r := s.reg;
    match a
    case Park(sid, id, kind, spec) =>
      if !FreshId(s.raises, id) then s
      else
        var raises := if sid in r.pending then SetFate(s.raises, r.pending[sid].chan, Displaced) else s.raises;
        s.(reg := Registered(r, sid, id, kind, spec), raises := raises + [Raise(sid, id, kind, spec, Parked, Awaiting)])
    case Receive(i) =>
      if i >= |s.raises| || i >= |r.chans| || s.raises[i].result != Awaiting || r.chans[i] == [] then s
      else s.(reg := r.(chans := r.chans[i := r.chans[i][1..]]),
              raises := s.raises[i := s.raises[i].(result := Got(r.chans[i][0]))])
    case GiveUp(i) =>
      if i >= |s.raises| || s.raises[i].result != Awaiting then s
      else s.(raises := s.raises[i := s.raises[i].(result := GaveUp)])
    case Clear(sid) =>
      s.(reg := Cleared(r, sid), raises := if sid in r.pending then SetFate(s.raises, r.pending[sid].chan, Dropped) else s.raises)
    case Submit(f) =>
      if s.handler != Idle then s
      else if f.sid == "" then s.(reply := BadRequest)
      else if !f.visible || f.sid !in r.pending then s.(reply := NoPending)
      else s.(handler := Peeked(r.pending[f.sid], s.clock, f))
    case HandlerStep => Handle(v, s)
    case Teardown =>
      s.(reg := Rejected(r), raises := seq(|s.raises|, i requires 0 <= i < |s.raises| =>
           if OneOf(r, r.pending.Keys, i) then s.raises[i].(fate := Displaced) else s.raises[i]))
  }

  /** The handler as the read loop runs it, undisturbed: peek, validate, resolve. */
  method HandleSubmit(registry: InteractionRegistry, v: Validator, f: Frame) returns (reply: Reply)
    requires registry.Ok()
    modifies registry
    ensures registry.Ok()
    ensures var s := Handle(v, Handle(v, Step(v, System(old(registry.State()), [], Idle, Silent, 0), Submit(f))));
            registry.State() == s.reg && reply == s.reply
    ensures var pending := old(registry.pending);
            if f.sid == "" then reply == BadRequest
            else if !f.visible || f.sid !in pending then reply == NoPending
            else if f.id != pending[f.sid].id || (f.kind != "" && f.kind != pending[f.sid].kind) then reply == Mismatch
            else if f.declined then reply == Acknowledged
            else if f.values.None? then reply == BadRequest
            else
              match v(pending[f.sid].kind, pending[f.sid].spec, f.values.value)
              case Accepted(_) => reply == Acknowledged
              case Refused => reply == Invalid
              case NotHosted => reply == NoPending
    ensures reply != Acknowledged ==> registry.pending == old(registry.pending) && registry.chans == old(registry.chans)
  {
    if f.sid == "" { return BadRequest; }
    if !f.visible { return NoPending; }
    var found := registry.Peek(f.sid);
    if found.None? { return NoPending; }
    var p := found.value;
    if f.id != p.id || (f.kind != "" && f.kind != p.kind) { return Mismatch; }
    var resolved := false;
    if f.declined {
      resolved := registry.Resolve(f.sid, p.id, Declined);
    } else if f.values.None? {
      return BadRequest;
    } else {
      match v(p.kind, p.spec, f.values.value) {
        case Refused => return Invalid;
        case NotHosted => return NoPending;
        case Accepted(values) => resolved := registry.Resolve(f.sid, p.id, Submitted(values));
      }
    }
    reply := if resolved then Acknowledged else Silent;
  }

  function Run(v: Validator, acts: seq<Action>): System {
    if |acts| == 0 then Initial
    else
      var s := Run(v, acts[..|acts| - 1]);
      Step(v, s, acts[|acts| - 1]).(clock := s.clock + 1)
  }

  // ---------------------------------------------------------------- the invariant

  /** Where a raise's outcome is, by what became of its channel: it is sent at most one. */
  predicate RaiseOk(raise: Raise, buffer: seq<Outcome>) {
    match raise.fate
    case Parked => buffer == [] && !raise.result.Got?
    case Dropped => buffer == [] && !raise.result.Got?
    case Displaced => (buffer == [] && raise.result == Got(NoResponse)) || (buffer == [NoResponse] && !raise.result.Got?)
    case Answered(_, o) => (buffer == [] && raise.result == Got(o)) || (buffer == [o] && !raise.result.Got?)
  }

  predicate Waits(reg: Registry, raise: Raise, i: nat) {
    raise.sid in reg.pending && reg.pending[raise.sid].chan == i
  }

  predicate IsPending(s: System, i: nat)
    requires i < |s.raises|
  {
    Waits(s.reg, s.raises[i], i)
  }

  /** The registry, the channels and the fates of the raises agree. */
  ghost predicate Parks(reg: Registry, raises: seq<Raise>) {
    && |raises| == |reg.chans|
    && Valid(reg)
    && (forall i | 0 <= i < |raises| :: RaiseOk(raises[i], reg.chans[i]))
    && (forall i | 0 <= i < |raises| :: raises[i].fate == Parked <==> Waits(reg, raises[i], i))
    && (forall sid | sid in reg.pending :: raises[reg.pending[sid].chan].sid == sid)
  }

  ghost predicate ParksOk(s: System) { Parks(s.reg, s.raises) }

  /** A pending record, or the handler's copy of one, describes the raise whose channel it holds. */
  predicate Describes(p: Pending, sid: SessionId, raises: seq<Raise>) {
    && p.chan < |raises|
    && raises[p.chan].sid == sid && raises[p.chan].id == p.id
    && raises[p.chan].kind == p.kind && raises[p.chan].spec == p.spec
  }

  predicate HandlerOk(v: Validator, handler: Handler, raises: seq<Raise>) {
    match handler
    case Idle => true
    case Peeked(p, at, f) => Describes(p, f.sid, raises)
    case Validated(p, at, f, values) =>
      && Describes(p, f.sid, raises)
      && f.id == p.id && !f.declined && f.values.Some? && v(p.kind, p.spec, f.values.value) == Accepted(values)
  }

  /** Ids are unique, and every pending record describes its raise. */
  ghost predicate Faces(pending: map<SessionId, Pending>, raises: seq<Raise>) {
    && (forall sid | sid in pending :: Describes(pending[sid], sid, raises))
    && (forall i, j | 0 <= i < j < |raises| :: raises[i].id != raises[j].id)
  }

  ghost predicate FacesOk(v: Validator, s: System) { Faces(s.reg.pending, s.raises) && HandlerOk(v, s.handler, s.raises) }

  ghost predicate RegOk(v: Validator, s: System) { ParksOk(s) && FacesOk(v, s) }

  predicate SameFace(r1: Raise, r2: Raise) {
    r1.sid == r2.sid && r1.id == r2.id && r1.kind == r2.kind && r1.spec == r2.spec
  }

  /** A step that changes no face, adds no park, and leaves the handler or idles it. */
  lemma FacesStay(v: Validator, s: System, s': System)
    requires FacesOk(v, s) && |s'.raises| == |s.raises|
    requires forall i | 0 <= i < |s.raises| :: SameFace(s.raises[i], s'.raises[i])
    requires forall sid | sid in s'.reg.pending :: sid in s.reg.pending && s'.reg.pending[sid] == s.reg.pending[sid]
    requires s'.handler == s.handler || s'.handler == Idle
    ensures FacesOk(v, s')
  {
    forall sid | sid in s'.reg.pending ensures Describes(s'.reg.pending[sid], sid, s'.raises) {
      assert Describes(s.reg.pending[sid], sid, s.raises);
    }
  }

  /** The state with the park of `sid` over: `buffer` is what its channel holds now. */
  function Ended(s: System, sid: SessionId, fate: Fate, buffer: seq<Outcome>): System
    requires sid in s.reg.pending && s.reg.pending[sid].chan < |s.reg.chans|
  {
    var i := s.reg.pending[sid].chan;
    s.(reg := Registry(s.reg.pending - {sid}, s.reg.chans[i := buffer]), raises := SetFate(s.raises, i, fate))
  }

  lemma EndedParksOk(s: System, sid: SessionId, fate: Fate, buffer: seq<Outcome>)
    requires ParksOk(s) && sid in s.reg.pending
    requires match fate
             case Parked => false
             case Dropped => buffer == []
             case Displaced => buffer == [NoResponse]
             case Answered(_, o) => buffer == [o]
    ensures ParksOk(Ended(s, sid, fate, buffer))
  {
    var i := s.reg.pending[sid].chan;
    assert RaiseOk(s.raises[i], s.reg.chans[i]);
    assert s.raises[i].fate == Parked <==> IsPending(s, i);
  }

  lemma EndedRegOk(v: Validator, s: System, sid: SessionId, fate: Fate, buffer: seq<Outcome>)
    requires RegOk(v, s) && sid in s.reg.pending
    requires match fate
             case Parked => false
             case Dropped => buffer == []
             case Displaced => buffer == [NoResponse]
             case Answered(_, o) => buffer == [o]
    ensures RegOk(v, Ended(s, sid, fate, buffer))
  {
    EndedParksOk(s, sid, fate, buffer);
    FacesStay(v, s, Ended(s, sid, fate, buffer));
  }

  function Added(s: System, sid: SessionId, id: string, kind: string, spec: string): System {
    s.(reg := Registry(s.reg.pending[sid := Pending(id, kind, spec, |s.reg.chans|)], s.reg.chans + [[]]),
       raises := s.raises + [Raise(sid, id, kind, spec, Parked, Awaiting)])
  }

  lemma AddedValid(r: Registry, sid: SessionId, p: Pending)
    requires Valid(r) && sid !in r.pending && p.chan == |r.chans|
    ensures Valid(Registry(r.pending[sid := p], r.chans + [[]]))
  {}

  lemma AddedParks(r: Registry, raises: seq<Raise>, raise: Raise, p: Pending)
    requires Parks(r, raises) && raise.sid !in r.pending && p.chan == |r.chans|
    requires raise.fate == Parked && raise.result == Awaiting
    ensures Parks(Registry(r.pending[raise.sid := p], r.chans + [[]]), raises + [raise])
  {
    AddedValid(r, raise.sid, p);
  }

  lemma AddedParksOk(s: System, sid: SessionId, id: string, kind: string, spec: string)
    requires ParksOk(s) && sid !in s.reg.pending
    ensures ParksOk(Added(s, sid, id, kind, spec))
  {
    AddedParks(s.reg, s.raises, Raise(sid, id, kind, spec, Parked, Awaiting), Pending(id, kind, spec, |s.reg.chans|));
  }

  lemma AddedRegOk(v: Validator, s: System, sid: SessionId, id: string, kind: string, spec: string)
    requires RegOk(v, s) && sid !in s.reg.pending && FreshId(s.raises, id)
    ensures RegOk(v, Added(s, sid, id, kind, spec))
  {
    var s' := Added(s, sid, id, kind, spec);
    AddedParksOk(s, sid, id, kind, spec);
    forall u | u in s'.reg.pending ensures Describes(s'.reg.pending[u], u, s'.raises) {
      if u != sid { assert Describes(s.reg.pending[u], u, s.raises); }
    }
  }

  lemma ParkDisplaces(v: Validator, s: System, sid: SessionId, id: string, kind: string, spec: string)
    requires Valid(s.reg) && sid in s.reg.pending && FreshId(s.raises, id)
    ensures Step(v, s, Park(sid, id, kind, spec)) == Added(Ended(s, sid, Displaced, [NoResponse]), sid, id, kind, spec)
  {
    var p := Pending(id, kind, spec, |s.reg.chans|);
    assert (s.reg.pending - {sid})[sid := p] == s.reg.pending[sid := p];
  }

  lemma ParkRegOk(v: Validator, s: System, sid: SessionId, id: string, kind: string, spec: string)
    requires RegOk(v, s) && FreshId(s.raises, id)
    ensures RegOk(v, Step(v, s, Park(sid, id, kind, spec)))
  {
    if sid in s.reg.pending {
      EndedRegOk(v, s, sid, Displaced, [NoResponse]);
      AddedRegOk(v, Ended(s, sid, Displaced, [NoResponse]), sid, id, kind, spec);
      ParkDisplaces(v, s, sid, id, kind, spec);
    } else {
      AddedRegOk(v, s, sid, id, kind, spec);
    }
  }

  lemma TakenParksOk(s: System, i: nat)
    requires ParksOk(s) && i < |s.raises| && s.raises[i].result == Awaiting && s.reg.chans[i] != []
    ensures ParksOk(s.(reg := s.reg.(chans := s.reg.chans[i := []]),
                       raises := s.raises[i := s.raises[i].(result := Got(s.reg.chans[i][0]))]))
  {
    assert RaiseOk(s.raises[i], s.reg.chans[i]);
  }

  lemma ReceiveRegOk(v: Validator, s: System, i: nat)
    requires RegOk(v, s)
    ensures RegOk(v, Step(v, s, Receive(i)))
  {
    var s' := Step(v, s, Receive(i));
    if i < |s.raises| && s.raises[i].result == Awaiting && s.reg.chans[i] != [] {
      assert RaiseOk(s.raises[i], s.reg.chans[i]);
      assert s.reg.chans[i][1..] == [];
      TakenParksOk(s, i);
    }
    FacesStay(v, s, s');
  }

  lemma GiveUpRegOk(v: Validator, s: System, i: nat)
    requires RegOk(v, s)
    ensures RegOk(v, Step(v, s, GiveUp(i)))
  {
    var s' := Step(v, s, GiveUp(i));
    if i < |s.raises| { assert RaiseOk(s.raises[i], s.reg.chans[i]); }
    assert ParksOk(s');
    FacesStay(v, s, s');
  }

  lemma ClearRegOk(v: Validator, s: System, sid: SessionId)
    requires RegOk(v, s)
    ensures RegOk(v, Step(v, s, Clear(sid)))
  {
    if sid in s.reg.pending {
      EndedRegOk(v, s, sid, Dropped, []);
      assert s.reg.chans[s.reg.pending[sid].chan := []] == s.reg.chans;
    } else {
      assert s.reg.pending - {sid} == s.reg.pending;
    }
  }

  lemma TeardownIsPending(s: System, i: nat)
    requires ParksOk(s) && i < |s.raises|
    ensures OneOf(s.reg, s.reg.pending.Keys, i) <==> IsPending(s, i)
    ensures OneOf(s.reg, s.reg.pending.Keys, i) <==> s.raises[i].fate == Parked
  {
    if IsPending(s, i) { assert s.raises[i].sid in s.reg.pending.Keys; }
  }

  lemma TeardownParksOk(v: Validator, s: System)
    requires ParksOk(s)
    ensures ParksOk(Step(v, s, Teardown))
  {
    forall i: nat | i < |s.raises| ensures OneOf(s.reg, s.reg.pending.Keys, i) <==> s.raises[i].fate == Parked {
      TeardownIsPending(s, i);
    }
  }

  lemma TeardownRegOk(v: Validator, s: System)
    requires RegOk(v, s)
    ensures RegOk(v, Step(v, s, Teardown))
    ensures forall i | 0 <= i < |s.raises| :: OneOf(s.reg, s.reg.pending.Keys, i) <==> s.raises[i].fate == Parked
  {
    forall i: nat | i < |s.raises| ensures OneOf(s.reg, s.reg.pending.Keys, i) <==> s.raises[i].fate == Parked {
      TeardownIsPending(s, i);
    }
    TeardownParksOk(v, s);
    FacesStay(v, s, Step(v, s, Teardown));
  }

  lemma AnswerRegOk(v: Validator, s: System, sid: SessionId, id: string, at: nat, o: Outcome)
    requires RegOk(v, s)
    ensures RegOk(v, Answer(s, sid, id, at, o))
  {
    var s' := Answer(s, sid, id, at, o);
    if Resolves(s.reg, sid, id) {
      var i := s.reg.pending[sid].chan;
      EndedRegOk(v, s, sid, Answered(at, o), [o]);
      assert s.reg.chans[i] + [o] == [o];
      IdleRegOk(v, Ended(s, sid, Answered(at, o), [o]), Acknowledged);
    } else {
      IdleRegOk(v, s, Silent);
    }
  }

  lemma IdleRegOk(v: Validator, s: System, reply: Reply)
    requires RegOk(v, s)
    ensures RegOk(v, s.(handler := Idle, reply := reply))
  {
    FacesStay(v, s, s.(handler := Idle, reply := reply));
  }

  /** A peeked handler either answers with a refusal, validates, or leaves it at a reply. */
  lemma PeekedMoves(v: Validator, s: System)
    requires s.handler.Peeked?
    ensures var p, at, f, s' := s.handler.p, s.handler.at, s.handler.frame, Handle(v, s);
            || (s' == Answer(s, f.sid, p.id, at, Declined))
            || (s' == s.(handler := Idle, reply := s'.reply))
            || (&& f.id == p.id && !f.declined && f.values.Some? && v(p.kind, p.spec, f.values.value).Accepted?
                && s' == s.(handler := Validated(p, at, f, v(p.kind, p.spec, f.values.value).values)))
  {}

  lemma HandleRegOk(v: Validator, s: System)
    requires RegOk(v, s)
    ensures RegOk(v, Handle(v, s))
  {
    match s.handler
    case Idle =>
    case Peeked(p, at, f) =>
      PeekedMoves(v, s);
      if Handle(v, s) == Answer(s, f.sid, p.id, at, Declined) {
        AnswerRegOk(v, s, f.sid, p.id, at, Declined);
      } else if Handle(v, s) == s.(handler := Idle, reply := Handle(v, s).reply) {
        IdleRegOk(v, s, Handle(v, s).reply);
      }
    case Validated(p, at, f, values) => AnswerRegOk(v, s, f.sid, p.id, at, Submitted(values));
  }

  lemma SubmitMoves(v: Validator, s: System, f: Frame)
    ensures var s' := Step(v, s, Submit(f));
            && s'.reg == s.reg && s'.raises == s.raises
            && (s'.handler == s.handler || (f.sid in s.reg.pending && s'.handler == Peeked(s.reg.pending[f.sid], s.clock, f)))
  {}

  lemma SubmitRegOk(v: Validator, s: System, f: Frame)
    requires RegOk(v, s)
    ensures RegOk(v, Step(v, s, Submit(f)))
  {
    SubmitMoves(v, s, f);
    if f.sid in s.reg.pending { assert Describes(s.reg.pending[f.sid], f.sid, s.raises); }
  }

  lemma StepRegOk(v: Validator, s: System, a: Action)
    requires RegOk(v, s)
    ensures RegOk(v, Step(v, s, a))
  {
    match a
    case Park(sid, id, kind, spec) => if FreshId(s.raises, id) { ParkRegOk(v, s, sid, id, kind, spec); }
    case Receive(i) => ReceiveRegOk(v, s, i);
    case GiveUp(i) => GiveUpRegOk(v, s, i);
    case Clear(sid) => ClearRegOk(v, s, sid);
    case Submit(f) => SubmitRegOk(v, s, f);
    case HandlerStep => HandleRegOk(v, s);
    case Teardown => TeardownRegOk(v, s);
  }

  lemma {:induction false} ClockIs(v: Validator, acts: seq<Action>)
    ensures Run(v, acts).clock == |acts|
  {
    if |acts| > 0 {
      ClockIs(v, acts[..|acts| - 1]);
      StepKeepsClock(v, Run(v, acts[..|acts| - 1]), acts[|acts| - 1]);
    }
  }

  lemma {:induction false} RunRegOk(v: Validator, acts: seq<Action>)
    ensures RegOk(v, Run(v, acts)) && Run(v, acts).clock == |acts|
  {
    if |acts| > 0 {
      var s := Run(v, acts[..|acts| - 1]);
      RunRegOk(v, acts[..|acts| - 1]);
      StepRegOk(v, s, acts[|acts| - 1]);
      StepKeepsClock(v, s, acts[|acts| - 1]);
    }
  }

  lemma StepKeepsClock(v: Validator, s: System, a: Action)
    ensures Step(v, s, a).clock == s.clock
  {}

  // ---------------------------------------------------------------- what the frames account for

  /** The frame that answered a raise names it, and its values are what the validator accepted for its own spec. */
  predicate AnsweredBy(v: Validator, raise: Raise, f: Frame, o: Outcome) {
    && f.sid == raise.sid && f.id == raise.id
    && match o
       case Submitted(values) => !f.declined && f.values.Some? && v(raise.kind, raise.spec, f.values.value) == Accepted(values)
       case Declined => f.declined
       case NoResponse => false
  }

  predicate Traced(v: Validator, acts: seq<Action>, raise: Raise) {
    raise.fate.Answered? ==>
      var at := raise.fate.frame;
      at < |acts| && acts[at].Submit? && AnsweredBy(v, raise, acts[at].frame, raise.fate.outcome)
  }

  predicate HandlerTraced(acts: seq<Action>, s: System) {
    s.handler.Idle? ||
    (&& s.handler.at < |acts| && acts[s.handler.at] == Submit(s.handler.frame)
     && forall i | 0 <= i < |s.raises| && s.raises[i].fate.Answered? :: s.raises[i].fate.frame != s.handler.at)
  }

  ghost predicate FramesOk(v: Validator, acts: seq<Action>, s: System) {
    && (forall i | 0 <= i < |s.raises| :: Traced(v, acts, s.raises[i]))
    && (forall i, j | 0 <= i < j < |s.raises| && s.raises[i].fate.Answered? && s.raises[j].fate.Answered? ::
          s.raises[i].fate.frame != s.raises[j].fate.frame)
    && HandlerTraced(acts, s)
  }

  /** What one step may do to one raise: answer it only out of the handler's frame. */
  predicate RaiseStep(v: Validator, s: System, raise: Raise, raise': Raise) {
    && raise'.sid == raise.sid && raise'.id == raise.id && raise'.kind == raise.kind && raise'.spec == raise.spec
    && (raise'.fate == raise.fate ||
        (raise.fate == Parked && (raise'.fate == Displaced || raise'.fate == Dropped)) ||
        (raise.fate == Parked && raise'.fate.Answered? && !s.handler.Idle? && raise'.fate.frame == s.handler.at &&
         AnsweredBy(v, raise, s.handler.frame, raise'.fate.outcome)))
  }

  /** The handler answers the very raise it peeked at, however the registry changed in between. */
  lemma HandleRaiseStep(v: Validator, s: System, i: nat)
    requires RegOk(v, s) && i < |s.raises|
    ensures i < |Handle(v, s).raises| && RaiseStep(v, s, s.raises[i], Handle(v, s).raises[i])
    ensures Handle(v, s).raises[i].fate != s.raises[i].fate ==>
              !s.handler.Idle? && s.handler.p.chan == i && Handle(v, s).handler == Idle
  {
    if !s.handler.Idle? {
      var p, sid := s.handler.p, s.handler.frame.sid;
      if Resolves(s.reg, sid, p.id) {
        var q := s.reg.pending[sid];
        assert Describes(q, sid, s.raises) && Describes(p, sid, s.raises);
        assert q.chan == p.chan;
        assert s.raises[q.chan].fate == Parked <==> IsPending(s, q.chan);
      }
    }
  }

  lemma ParkRaiseStep(v: Validator, s: System, a: Action, i: nat)
    requires a.Park? && i < |s.raises| && (s.raises[i].fate == Parked <==> IsPending(s, i))
    requires forall sid | sid in s.reg.pending && s.reg.pending[sid].chan == i :: s.raises[i].sid == sid
    ensures i < |Step(v, s, a).raises|
    ensures var raise' := Step(v, s, a).raises[i];
            raise' == s.raises[i] || (s.raises[i].fate == Parked && raise' == s.raises[i].(fate := Displaced))
  {}

  lemma ClearRaiseStep(v: Validator, s: System, a: Action, i: nat)
    requires a.Clear? && i < |s.raises| && (s.raises[i].fate == Parked <==> IsPending(s, i))
    requires forall sid | sid in s.reg.pending && s.reg.pending[sid].chan == i :: s.raises[i].sid == sid
    ensures i < |Step(v, s, a).raises|
    ensures var raise' := Step(v, s, a).raises[i];
            raise' == s.raises[i] || (s.raises[i].fate == Parked && raise' == s.raises[i].(fate := Dropped))
  {}

  lemma StepRaiseStep(v: Validator, s: System, a: Action, i: nat)
    requires RegOk(v, s) && i < |s.raises|
    ensures i < |Step(v, s, a).raises| && RaiseStep(v, s, s.raises[i], Step(v, s, a).raises[i])
    ensures Step(v, s, a).raises[i].fate.Answered? && !s.raises[i].fate.Answered? ==>
              a == HandlerStep && !s.handler.Idle? && s.handler.p.chan == i && Step(v, s, a).handler == Idle
  {
    assert s.raises[i].fate == Parked <==> IsPending(s, i);
    match a
    case HandlerStep => HandleRaiseStep(v, s, i);
    case Teardown => TeardownRegOk(v, s);
    case Park(_, _, _, _) => ParkRaiseStep(v, s, a, i);
    case Clear(_) => ClearRaiseStep(v, s, a, i);
    case Submit(f) => SubmitMoves(v, s, f);
    case _ =>
  }

  lemma StepFrames(v: Validator, acts: seq<Action>, s: System, a: Action)
    requires RegOk(v, s) && FramesOk(v, acts, s) && s.clock == |acts|
    ensures FramesOk(v, acts + [a], Step(v, s, a))
  {
    var s' := Step(v, s, a);
    forall i | 0 <= i < |s.raises|
      ensures i < |s'.raises| && RaiseStep(v, s, s.raises[i], s'.raises[i])
      ensures s'.raises[i].fate.Answered? && !s.raises[i].fate.Answered? ==>
                a == HandlerStep && !s.handler.Idle? && s.handler.p.chan == i && s'.handler == Idle
    {
      StepRaiseStep(v, s, a, i);
    }
    NewRaisesParked(v, s, a);
    HandlerMoves(v, s, a);
    FramesAfter(v, acts, s, a, s');
  }

  lemma NewRaisesParked(v: Validator, s: System, a: Action)
    ensures forall i | |s.raises| <= i < |Step(v, s, a).raises| :: Step(v, s, a).raises[i].fate == Parked
  {}

  lemma HandlerMoves(v: Validator, s: System, a: Action)
    ensures var h := Step(v, s, a).handler;
            h.Idle? || (!s.handler.Idle? && h.at == s.handler.at && h.frame == s.handler.frame) ||
            (a.Submit? && h.at == s.clock && h.frame == a.frame)
  {}

  lemma FramesAfter(v: Validator, acts: seq<Action>, s: System, a: Action, s': System)
    requires FramesOk(v, acts, s) && s.clock == |acts| && |s.raises| <= |s'.raises|
    requires forall i | 0 <= i < |s.raises| :: RaiseStep(v, s, s.raises[i], s'.raises[i])
    requires forall i | 0 <= i < |s.raises| && s'.raises[i].fate.Answered? && !s.raises[i].fate.Answered? ::
               !s.handler.Idle? && s.handler.p.chan == i && s'.handler == Idle
    requires forall i | |s.raises| <= i < |s'.raises| :: s'.raises[i].fate == Parked
    requires var h := s'.handler;
             h.Idle? || (!s.handler.Idle? && h.at == s.handler.at && h.frame == s.handler.frame) ||
             (a.Submit? && h.at == s.clock && h.frame == a.frame)
    ensures FramesOk(v, acts + [a], s')
  {
    forall i | 0 <= i < |s.raises| ensures Traced(v, acts, s.raises[i]) {}
    forall i | 0 <= i < |s'.raises| ensures Traced(v, acts + [a], s'.raises[i]) {
      if i < |s.raises| { assert RaiseStep(v, s, s.raises[i], s'.raises[i]); }
    }
  }

  lemma {:induction false} RunFramesOk(v: Validator, acts: seq<Action>)
    ensures FramesOk(v, acts, Run(v, acts))
  {
    if |acts| > 0 {
      var init, a := acts[..|acts| - 1], acts[|acts| - 1];
      RunRegOk(v, init);
      RunFramesOk(v, init);
      assert acts == init + [a];
      StepFrames(v, init, Run(v, init), a);
    }
  }

  // ---------------------------------------------------------------- safety over every run

  /**
   A raise that resumes as submitted received values its kind's validator accepted against
   that same raise's spec, out of a frame that named it; a raise that resumes as declined was
   declined by such a frame. No frame answers two raises.
   */
  lemma ResumesWithItsOwnAnswer(v: Validator, acts: seq<Action>) returns (frame: map<nat, nat>)
    ensures forall i: nat | i < |Run(v, acts).raises| && Run(v, acts).raises[i].result.Got? ::
              Run(v, acts).raises[i].result.outcome == NoResponse || i in frame
    ensures forall i: nat | i in frame ::
              && i < |Run(v, acts).raises| && Run(v, acts).raises[i].result.Got?
              && frame[i] < |acts| && acts[frame[i]].Submit?
              && AnsweredBy(v, Run(v, acts).raises[i], acts[frame[i]].frame, Run(v, acts).raises[i].result.outcome)
    ensures forall i, j | i in frame && j in frame && i != j :: frame[i] != frame[j]
  {
    var s := Run(v, acts);
    RunRegOk(v, acts);
    RunFramesOk(v, acts);
    forall i: nat | i < |s.raises| ensures RaiseOk(s.raises[i], s.reg.chans[i]) && Traced(v, acts, s.raises[i]) {}
    frame := map i: nat | i < |s.raises| && s.raises[i].result.Got? && s.raises[i].fate.Answered? :: s.raises[i].fate.frame;
  }

  /** Each raise is sent at most one outcome, and the channel of a parked raise is empty: no send blocks under the mutex. */
  lemma OneOutcomeEach(v: Validator, acts: seq<Action>)
    ensures Valid(Run(v, acts).reg)
    ensures forall i: nat | i < |Run(v, acts).raises| ::
              i < |Run(v, acts).reg.chans| && RaiseOk(Run(v, acts).raises[i], Run(v, acts).reg.chans[i])
  {
    RunRegOk(v, acts);
    var s := Run(v, acts);
    forall i: nat | i < |s.raises| ensures RaiseOk(s.raises[i], s.reg.chans[i]) {}
  }
}
