/**
 Write confirmations: the per-connection registry of verdict channels, and the runs of the
 gates that park on it against the handler that resolves it.

 A verdict channel is a handle into a table of capacity-1 buffers. The class is the
 registry as the code has it; the functions on `Registry` say what its methods do, and the
 properties over whole runs are about those functions.
 */
module Confirmations {
  import opened Basics

  type SessionId = string
  type Chan = nat

  /** `pending` maps a session to the channel its parked gate awaits; `chans` holds every channel's buffer. */
  datatype Registry = Registry(pending: map<SessionId, Chan>, chans: seq<seq<bool>>)

  /** Every pending channel exists, is empty, and belongs to one session. */
  ghost predicate Valid(r: Registry) {
    && (forall sid | sid in r.pending :: r.pending[sid] < |r.chans| && r.chans[r.pending[sid]] == [])
    && (forall s1, s2 | s1 in r.pending && s2 in r.pending && s1 != s2 :: r.pending[s1] != r.pending[s2])
  }

  /** A non-blocking send: dropped when the buffer is full. */
  function Offer(chans: seq<seq<bool>>, ch: Chan, v: bool): seq<seq<bool>>
    requires ch < |chans|
  {
    if chans[ch] == [] then chans[ch := [v]] else chans
  }

  function Registered(r: Registry, sid: SessionId): Registry {
    var chans := if sid in r.pending && r.pending[sid] < |r.chans| then Offer(r.chans, r.pending[sid], false) else r.chans;
    Registry(r.pending[sid := |chans|], chans + [[]])
  }

  function Resolved(r: Registry, sid: SessionId, approved: bool): Registry {
    if sid !in r.pending || r.pending[sid] >= |r.chans| then r
    else Registry(r.pending - {sid}, r.chans[r.pending[sid] := r.chans[r.pending[sid]] + [approved]])
  }

  function Cleared(r: Registry, sid: SessionId): Registry { r.(pending := r.pending - {sid}) }

  predicate OneOf(r: Registry, keys: set<SessionId>, ch: Chan) {
    exists sid | sid in keys :: sid in r.pending && r.pending[sid] == ch
  }

  /** The parks of the sessions in `keys` are over, each refused on its channel. */
  function RejectedFor(r: Registry, keys: set<SessionId>): Registry {
    Registry(r.pending - keys,
             seq(|r.chans|, i requires 0 <= i < |r.chans| =>
               if OneOf(r, keys, i) && r.chans[i] == [] then [false] else r.chans[i]))
  }

  function Rejected(r: Registry): Registry { RejectedFor(r, r.pending.Keys) }

  lemma RejectNone(r: Registry)
    ensures RejectedFor(r, {}) == r
  {}

  lemma RejectedForValid(r: Registry, keys: set<SessionId>)
    requires Valid(r)
    ensures Valid(RejectedFor(r, keys))
  {
    forall s | s in r.pending && s !in keys ensures !OneOf(r, keys, r.pending[s]) {}
  }

  /** Rejecting every park answers each of them, and touches no other channel. */
  lemma RejectedAnswers(r: Registry)
    requires Valid(r)
    ensures forall sid | sid in r.pending :: Rejected(r).chans[r.pending[sid]] == [false]
    ensures forall i | 0 <= i < |r.chans| && (forall sid | sid in r.pending :: r.pending[sid] != i) :: Rejected(r).chans[i] == r.chans[i]
  {
    forall sid | sid in r.pending ensures OneOf(r, r.pending.Keys, r.pending[sid]) { assert sid in r.pending.Keys; }
  }

  lemma OneMore(r: Registry, keys: set<SessionId>, sid: SessionId, ch: Chan)
    requires sid in r.pending
    ensures OneOf(r, keys + {sid}, ch) <==> OneOf(r, keys, ch) || ch == r.pending[sid]
  {
    if ch == r.pending[sid] { assert sid in keys + {sid}; }
    if OneOf(r, keys, ch) {
      var s :| s in keys && s in r.pending && r.pending[s] == ch;
      assert s in keys + {sid};
    }
  }

  /** Rejecting one more session is a non-blocking refusal on its channel. */
  lemma RejectOneMore(r: Registry, keys: set<SessionId>, sid: SessionId)
    requires Valid(r) && sid in r.pending && sid !in keys
    ensures var one := RejectedFor(r, keys);
            && sid in one.pending && one.pending[sid] < |one.chans|
            && RejectedFor(r, keys + {sid}) == Registry(one.pending - {sid}, Offer(one.chans, one.pending[sid], false))
  {
    var ch := r.pending[sid];
    assert !OneOf(r, keys, ch);
    forall i: nat | i < |r.chans| ensures OneOf(r, keys + {sid}, i) <==> OneOf(r, keys, i) || i == ch { OneMore(r, keys, sid, i); }
    assert r.pending - (keys + {sid}) == (r.pending - keys) - {sid};
  }

  lemma RegisteredValid(r: Registry, sid: SessionId)
    requires Valid(r)
    ensures Valid(Registered(r, sid))
  {}

  lemma RegisteredDoes(r: Registry, sid: SessionId)
    requires Valid(r)
    ensures var r', n := Registered(r, sid), |r.chans|;
            && r'.chans == r'.chans[..n] + [[]] && r'.pending == r.pending[sid := n]
            && (sid in r.pending ==> r'.chans[r.pending[sid]] == [false])
            && forall i | 0 <= i < n && !(sid in r.pending && i == r.pending[sid]) :: r'.chans[i] == r.chans[i]
  {}

  class ConfirmationRegistry {
    var pending: map<SessionId, Chan>
    var chans: seq<seq<bool>>

    function State(): Registry reads this { Registry(pending, chans) }

    ghost predicate Ok() reads this { Valid(State()) }

    constructor ()
      ensures State() == Registry(map[], []) && Ok()
    {
      pending, chans := map[], [];
    }

    /** A blocking send on a capacity-1 channel; callers prove that it cannot block. */
    method SendNow(ch: Chan, v: bool)
      requires ch < |chans| && chans[ch] == []
      modifies `chans
      ensures chans == old(chans)[ch := [v]]
    {
      assert chans[ch] + [v] == [v];
      chans := chans[ch := chans[ch] + [v]];
    }

    method TrySend(ch: Chan, v: bool)
      requires ch < |chans|
      modifies `chans
      ensures chans == Offer(old(chans), ch, v)
    {
      if chans[ch] == [] { SendNow(ch, v); }
    }

    method Register(sid: SessionId) returns (ch: Chan)
      requires Ok()
      modifies this
      ensures State() == Registered(old(State()), sid) && Ok()
      ensures ch == |old(chans)| && chans == chans[..ch] + [[]] && pending == old(pending)[sid := ch]
      ensures sid in old(pending) ==> chans[old(pending)[sid]] == [false]
      ensures forall i | 0 <= i < ch && !(sid in old(pending) && i == old(pending)[sid]) :: chans[i] == old(chans)[i]
    {
      RegisteredValid(State(), sid);
      RegisteredDoes(State(), sid);
      ghost var was := pending;
      if sid in pending {
        TrySend(pending[sid], false);
        pending := pending - {sid};
      }
      ch := |chans|;
      chans := chans + [[]];
      pending := pending[sid := ch];
      assert pending == was[sid := ch];
    }

    method Resolve(sid: SessionId, approved: bool) returns (resolved: bool)
      requires Ok()
      modifies this
      ensures State() == Resolved(old(State()), sid, approved) && Ok()
      ensures resolved == (sid in old(pending)) && pending == old(pending) - {sid} && |chans| == |old(chans)|
      ensures resolved ==> chans[old(pending)[sid]] == [approved]
      ensures forall i | 0 <= i < |chans| && !(resolved && i == old(pending)[sid]) :: chans[i] == old(chans)[i]
    {
      if sid !in pending { return false; }
      var ch := pending[sid];
      pending := pending - {sid};
      assert chans[ch] + [approved] == [approved];
      SendNow(ch, approved);
      return true;
    }

    method Clear(sid: SessionId)
      requires Ok()
      modifies this
      ensures State() == Cleared(old(State()), sid) && Ok()
      ensures pending == old(pending) - {sid} && chans == old(chans)
    {
      pending := pending - {sid};
    }

    method RejectAll()
      requires Ok()
      modifies this
      ensures State() == Rejected(old(State()))
      ensures Ok() && pending == map[] && |chans| == |old(chans)|
      ensures forall sid | sid in old(pending) :: chans[old(pending)[sid]] == [false]
      ensures forall i | 0 <= i < |chans| && (forall sid | sid in old(pending) :: old(pending)[sid] != i) :: chans[i] == old(chans)[i]
    {
      ghost var was, keys := State(), {};
      RejectNone(was);
      while pending != map[]
        invariant keys <= was.pending.Keys && pending.Keys == was.pending.Keys - keys
        invariant State() == RejectedFor(was, keys)
        decreases was.pending.Keys - keys
      {
        var sid :| sid in pending;
        RejectOneMore(was, keys, sid);
        RejectOne(sid);
        keys := keys + {sid};
      }
      assert was.pending.Keys - keys == {};
      assert keys == was.pending.Keys;
      RejectedForValid(was, keys);
      RejectedAnswers(was);
    }

    method RejectOne(sid: SessionId)
      requires sid in pending && pending[sid] < |chans|
      modifies this
      ensures State() == Registry(old(pending) - {sid}, Offer(old(chans), old(pending[sid]), false))
    {
      TrySend(pending[sid], false);
      pending := pending - {sid};
    }
  }

  // ---------------------------------------------------------------- runs

  /** What became of a gate's channel, and what the gate told the engine. */
  datatype Fate = Parked | Confirmed(frame: nat, approved: bool) | Displaced | Dropped
  datatype Verdict = Awaiting | Approve | Deny
  datatype Gate = Gate(sid: SessionId, at: nat, fate: Fate, verdict: Verdict)

  /** Gate `g` awaits channel `g`; `clock` counts the actions so far. */
  datatype System = System(reg: Registry, gates: seq<Gate>, clock: nat)

  datatype Action =
    | Park(sid: SessionId)                                  // a gated tool reaches HumanGate
    | Receive(g: nat)                                       // the gate takes its verdict
    | CtxDone(g: nat)                                       // or its context is cancelled first
    | Confirm(sid: SessionId, approved: Option<bool>)       // a confirm_tool_action frame
    | TurnEnds(sid: SessionId)                              // the runner's deferred Clear
    | Teardown                                              // RejectAll

  const Initial := System(Registry(map[], []), [], 0)

  function SetFate(gates: seq<Gate>, g: nat, fate: Fate): seq<Gate> {
    if g < |gates| then gates[g := gates[g].(fate := fate)] else gates
  }

  function Apply(s: System, a: Action): System {
    var r, n := s.reg, s.clock + 1;
    match a
    case Park(sid) =>
      var gates := if sid in r.pending then SetFate(s.gates, r.pending[sid], Displaced) else s.gates;
      System(Registered(r, sid), gates + [Gate(sid, s.clock, Parked, Awaiting)], n)
    case Receive(g) =>
      if g >= |s.gates| || g >= |r.chans| || s.gates[g].verdict != Awaiting || r.chans[g] == [] then s.(clock := n)
      else
        System(r.(chans := r.chans[g := r.chans[g][1..]]),
               s.gates[g := s.gates[g].(verdict := if r.chans[g][0] then Approve else Deny)], n)
    case CtxDone(g) =>
      if g >= |s.gates| || s.gates[g].verdict != Awaiting then s.(clock := n)
      else s.(gates := s.gates[g := s.gates[g].(verdict := Deny)], clock := n)
    case Confirm(sid, approved) =>
      if sid == "" || approved.None? || sid !in r.pending then s.(clock := n)
      else System(Resolved(r, sid, approved.value),
                  SetFate(s.gates, r.pending[sid], Confirmed(s.clock, approved.value)), n)
    case TurnEnds(sid) =>
      System(Cleared(r, sid), if sid in r.pending then SetFate(s.gates, r.pending[sid], Dropped) else s.gates, n)
    case Teardown =>
      System(Rejected(r), seq(|s.gates|, i requires 0 <= i < |s.gates| =>
               if OneOf(r, r.pending.Keys, i) then s.gates[i].(fate := Displaced) else s.gates[i]), n)
  }

  function Run(acts: seq<Action>): System {
    if |acts| == 0 then Initial else Apply(Run(acts[..|acts| - 1]), acts[|acts| - 1])
  }

  /** Actions that end the park a session has. */
  predicate EndsPark(a: Action, sid: SessionId) {
    a == Park(sid) || a == TurnEnds(sid) || a == Teardown || (a.Confirm? && a.sid == sid && sid != "" && a.approved.Some?)
  }

  /** Where a gate's verdict is, by what became of its channel. */
  predicate GateOk(gate: Gate, buffer: seq<bool>) {
    match gate.fate
    case Parked => buffer == [] && gate.verdict != Approve
    case Dropped => buffer == [] && gate.verdict != Approve
    case Displaced => gate.verdict != Approve && (buffer == [false] || (buffer == [] && gate.verdict == Deny))
    case Confirmed(_, v) =>
      if buffer == [] then gate.verdict == (if v then Approve else Deny)
      else buffer == [v] && gate.verdict != Approve
  }

  /** What the actions so far say about one gate. */
  ghost predicate Traced(acts: seq<Action>, gate: Gate) {
    && gate.at < |acts| && acts[gate.at] == Park(gate.sid)
    && (gate.fate == Parked ==> forall k | gate.at < k < |acts| :: !EndsPark(acts[k], gate.sid))
    && (gate.fate.Confirmed? ==>
          && gate.at < gate.fate.frame < |acts|
          && acts[gate.fate.frame] == Confirm(gate.sid, Some(gate.fate.approved))
          && (forall k | gate.at < k < gate.fate.frame :: !EndsPark(acts[k], gate.sid)))
  }

  predicate IsPending(s: System, g: nat)
    requires g < |s.gates|
  {
    s.gates[g].sid in s.reg.pending && s.reg.pending[s.gates[g].sid] == g
  }

  /** The registry, the channels and the gates agree; what the actions were does not matter here. */
  ghost predicate RegOk(s: System) {
    && |s.gates| == |s.reg.chans|
    && Valid(s.reg)
    && (forall g | 0 <= g < |s.gates| :: GateOk(s.gates[g], s.reg.chans[g]))
    && (forall g | 0 <= g < |s.gates| :: s.gates[g].fate == Parked <==> IsPending(s, g))
    && (forall sid | sid in s.reg.pending :: s.gates[s.reg.pending[sid]].sid == sid)
  }

  /** The state with the park of `sid` over: `buffer` is what its channel holds now. */
  function Ended(s: System, sid: SessionId, fate: Fate, buffer: seq<bool>): System
    requires sid in s.reg.pending && s.reg.pending[sid] < |s.reg.chans|
  {
    var g := s.reg.pending[sid];
    s.(reg := Registry(s.reg.pending - {sid}, s.reg.chans[g := buffer]), gates := SetFate(s.gates, g, fate))
  }

  lemma EndedRegOk(s: System, sid: SessionId, fate: Fate, buffer: seq<bool>)
    requires RegOk(s) && sid in s.reg.pending
    requires match fate
             case Parked => false
             case Dropped => buffer == []
             case Displaced => buffer == [false]
             case Confirmed(_, v) => buffer == [v]
    ensures RegOk(Ended(s, sid, fate, buffer))
  {
    var g := s.reg.pending[sid];
    assert GateOk(s.gates[g], s.reg.chans[g]);
    assert s.gates[g].fate == Parked <==> IsPending(s, g);
  }

  function Added(s: System, sid: SessionId, at: nat): System {
    System(Registry(s.reg.pending[sid := |s.reg.chans|], s.reg.chans + [[]]), s.gates + [Gate(sid, at, Parked, Awaiting)], at + 1)
  }

  lemma AddedValid(r: Registry, sid: SessionId)
    requires Valid(r) && sid !in r.pending
    ensures Valid(Registry(r.pending[sid := |r.chans|], r.chans + [[]]))
  {}

  lemma AddedRegOk(s: System, sid: SessionId, at: nat)
    requires RegOk(s) && sid !in s.reg.pending
    ensures RegOk(Added(s, sid, at))
  {
    AddedValid(s.reg, sid);
  }

  lemma ParkDisplaces(s: System, sid: SessionId)
    requires Valid(s.reg) && sid in s.reg.pending
    ensures Apply(s, Park(sid)) == Added(Ended(s, sid, Displaced, [false]), sid, s.clock)
  {
    assert (s.reg.pending - {sid})[sid := |s.reg.chans|] == s.reg.pending[sid := |s.reg.chans|];
  }

  /** The park a session already had is refused before the new one is registered. */
  lemma ParkRegOk(s: System, sid: SessionId)
    requires RegOk(s)
    ensures RegOk(Apply(s, Park(sid)))
  {
    if sid in s.reg.pending {
      EndedRegOk(s, sid, Displaced, [false]);
      AddedRegOk(Ended(s, sid, Displaced, [false]), sid, s.clock);
      ParkDisplaces(s, sid);
    } else {
      AddedRegOk(s, sid, s.clock);
    }
  }

  lemma TickRegOk(s: System, n: nat)
    requires RegOk(s)
    ensures RegOk(s.(clock := n))
  {
    forall g | 0 <= g < |s.gates| ensures IsPending(s.(clock := n), g) <==> IsPending(s, g) {}
  }

  lemma ResolveRegOk(s: System, sid: SessionId, approved: bool)
    requires RegOk(s) && sid != "" && sid in s.reg.pending
    ensures RegOk(Apply(s, Confirm(sid, Some(approved))))
  {
    var g := s.reg.pending[sid];
    var s' := Ended(s, sid, Confirmed(s.clock, approved), [approved]);
    EndedRegOk(s, sid, Confirmed(s.clock, approved), [approved]);
    TickRegOk(s', s.clock + 1);
    assert s.reg.chans[g] + [approved] == [approved];
    assert Apply(s, Confirm(sid, Some(approved))) == s'.(clock := s.clock + 1);
  }

  lemma TakenRegOk(s: System, g: nat)
    requires RegOk(s) && g < |s.gates| && s.gates[g].verdict == Awaiting && s.reg.chans[g] != []
    ensures RegOk(System(s.reg.(chans := s.reg.chans[g := []]),
                         s.gates[g := s.gates[g].(verdict := if s.reg.chans[g][0] then Approve else Deny)], s.clock))
  {
    assert GateOk(s.gates[g], s.reg.chans[g]);
  }

  lemma ReceiveRegOk(s: System, g: nat)
    requires RegOk(s) && g < |s.gates| && s.gates[g].verdict == Awaiting && s.reg.chans[g] != []
    ensures RegOk(Apply(s, Receive(g)))
  {
    assert GateOk(s.gates[g], s.reg.chans[g]);
    assert s.reg.chans[g][1..] == [];
    TakenRegOk(s, g);
    TickRegOk(System(s.reg.(chans := s.reg.chans[g := []]),
                     s.gates[g := s.gates[g].(verdict := if s.reg.chans[g][0] then Approve else Deny)], s.clock), s.clock + 1);
  }

  lemma CtxRegOk(s: System, g: nat)
    requires RegOk(s) && g < |s.gates| && s.gates[g].verdict == Awaiting
    ensures RegOk(Apply(s, CtxDone(g)))
  {
    assert GateOk(s.gates[g], s.reg.chans[g]);
  }

  lemma ClearRegOk(s: System, sid: SessionId)
    requires RegOk(s) && sid in s.reg.pending
    ensures RegOk(Apply(s, TurnEnds(sid)))
  {
    var s' := Ended(s, sid, Dropped, []);
    EndedRegOk(s, sid, Dropped, []);
    TickRegOk(s', s.clock + 1);
    assert s.reg.chans[s.reg.pending[sid] := []] == s.reg.chans;
    assert Apply(s, TurnEnds(sid)) == s'.(clock := s.clock + 1);
  }

  lemma TeardownRegOk(s: System)
    requires RegOk(s)
    ensures RegOk(Apply(s, Teardown))
    ensures forall g | 0 <= g < |s.gates| :: OneOf(s.reg, s.reg.pending.Keys, g) <==> s.gates[g].fate == Parked
  {
    forall g | 0 <= g < |s.gates| ensures OneOf(s.reg, s.reg.pending.Keys, g) <==> IsPending(s, g) {
      if IsPending(s, g) { assert s.gates[g].sid in s.reg.pending.Keys; }
    }
  }

  lemma StepRegOk(s: System, a: Action)
    requires RegOk(s)
    ensures RegOk(Apply(s, a))
  {
    if Apply(s, a) == s.(clock := s.clock + 1) {
      TickRegOk(s, s.clock + 1);
    } else {
      match a
      case Park(sid) => ParkRegOk(s, sid);
      case Confirm(sid, approved) => ResolveRegOk(s, sid, approved.value);
      case Receive(g) => ReceiveRegOk(s, g);
      case CtxDone(g) => CtxRegOk(s, g);
      case TurnEnds(sid) => ClearRegOk(s, sid);
      case Teardown => TeardownRegOk(s);
    }
  }

  lemma {:induction false} RunRegOk(acts: seq<Action>)
    ensures RegOk(Run(acts)) && Run(acts).clock == |acts|
  {
    if |acts| > 0 {
      var s, a := Run(acts[..|acts| - 1]), acts[|acts| - 1];
      RunRegOk(acts[..|acts| - 1]);
      StepRegOk(s, a);
      ClockTicks(s, a);
    }
  }

  lemma ClockTicks(s: System, a: Action)
    ensures Apply(s, a).clock == s.clock + 1
  {}

  /** Every gate is explained by the actions, and no frame confirmed two gates. */
  ghost predicate FramesOk(acts: seq<Action>, gates: seq<Gate>) {
    && (forall g | 0 <= g < |gates| :: Traced(acts, gates[g]))
    && (forall g, h | 0 <= g < h < |gates| && gates[g].fate.Confirmed? && gates[h].fate.Confirmed? ::
          gates[g].fate.frame != gates[h].fate.frame)
  }

  /** What one action may do to one gate. */
  predicate GateStep(a: Action, n: nat, gate: Gate, gate': Gate) {
    && gate'.sid == gate.sid && gate'.at == gate.at
    && (gate'.fate == gate.fate || (gate.fate == Parked && gate'.fate in {Displaced, Dropped}) ||
        (gate.fate == Parked && gate'.fate.Confirmed? && gate'.fate.frame == n && a == Confirm(gate.sid, Some(gate'.fate.approved))))
    && (gate'.fate == Parked ==> !EndsPark(a, gate.sid))
  }

  lemma TracedStep(acts: seq<Action>, a: Action, gate: Gate, gate': Gate)
    requires Traced(acts, gate) && GateStep(a, |acts|, gate, gate')
    ensures Traced(acts + [a], gate')
  {}

  /** At most one gate has its fate sealed by a confirming action, and a new gate is traced to its park. */
  lemma FramesStep(acts: seq<Action>, a: Action, gates: seq<Gate>, gates': seq<Gate>)
    requires FramesOk(acts, gates) && |gates| <= |gates'| <= |gates| + 1
    requires forall g | 0 <= g < |gates| :: GateStep(a, |acts|, gates[g], gates'[g])
    requires forall g, h | 0 <= g < h < |gates| && gates'[g].fate != gates[g].fate && gates'[h].fate != gates[h].fate :: !a.Confirm?
    requires |gates'| > |gates| ==> exists sid :: a == Park(sid) && gates'[|gates|] == Gate(sid, |acts|, Parked, Awaiting)
    ensures FramesOk(acts + [a], gates')
  {
    forall g | 0 <= g < |gates'| ensures Traced(acts + [a], gates'[g]) {
      if g < |gates| { TracedStep(acts, a, gates[g], gates'[g]); }
    }
    forall g | 0 <= g < |gates| && gates[g].fate.Confirmed? ensures gates[g].fate.frame < |acts| {
      assert Traced(acts, gates[g]);
    }
  }

  lemma ActionGateStep(s: System, a: Action, g: nat)
    requires RegOk(s) && g < |s.gates|
    ensures g < |Apply(s, a).gates| && GateStep(a, s.clock, s.gates[g], Apply(s, a).gates[g])
  {
    assert s.gates[g].fate == Parked <==> IsPending(s, g);
    match a
    case Teardown => TeardownRegOk(s);
    case Confirm(_, _) => ConfirmGateStep(s, a, g);
    case Park(_) => ParkGateStep(s, a, g);
    case TurnEnds(_) =>
    case _ =>
  }

  lemma ParkGateStep(s: System, a: Action, g: nat)
    requires RegOk(s) && g < |s.gates| && a.Park? && (s.gates[g].fate == Parked <==> IsPending(s, g))
    ensures g < |Apply(s, a).gates| && GateStep(a, s.clock, s.gates[g], Apply(s, a).gates[g])
  {}

  lemma ConfirmGateStep(s: System, a: Action, g: nat)
    requires RegOk(s) && g < |s.gates| && a.Confirm? && (s.gates[g].fate == Parked <==> IsPending(s, g))
    ensures g < |Apply(s, a).gates| && GateStep(a, s.clock, s.gates[g], Apply(s, a).gates[g])
  {}

  lemma ActionFrames(acts: seq<Action>, s: System, a: Action)
    requires RegOk(s) && s.clock == |acts| && FramesOk(acts, s.gates)
    ensures FramesOk(acts + [a], Apply(s, a).gates)
  {
    var gates' := Apply(s, a).gates;
    forall g | 0 <= g < |s.gates| ensures g < |gates'| && GateStep(a, |acts|, s.gates[g], gates'[g]) {
      ActionGateStep(s, a, g);
    }
    FramesStep(acts, a, s.gates, gates');
  }

  lemma {:induction false} RunFramesOk(acts: seq<Action>)
    ensures FramesOk(acts, Run(acts).gates)
  {
    if |acts| > 0 {
      var init, a := acts[..|acts| - 1], acts[|acts| - 1];
      RunRegOk(init);
      RunFramesOk(init);
      assert acts == init + [a];
      ActionFrames(init, Run(init), a);
    }
  }

  // ---------------------------------------------------------------- safety over every run

  /** Every pending channel is empty and belongs to one session, so the send inside Resolve never blocks under the mutex. */
  lemma PendingChannelsEmpty(acts: seq<Action>)
    ensures Valid(Run(acts).reg)
  {
    RunRegOk(acts);
  }

  /** A channel displaced by a newer park or by teardown carries only a refusal. */
  lemma DisplacedIsRefused(acts: seq<Action>, g: nat)
    requires g < |Run(acts).gates| && Run(acts).gates[g].fate == Displaced
    ensures g < |Run(acts).reg.chans|
    ensures Run(acts).gates[g].verdict != Approve && true !in Run(acts).reg.chans[g]
  {
    RunRegOk(acts);
    assert GateOk(Run(acts).gates[g], Run(acts).reg.chans[g]);
  }

  predicate Approved(s: System, g: nat) { g < |s.gates| && s.gates[g].verdict == Approve }

  /**
   Approvals map one to one into `confirm_tool_action` frames with `approved` true: each for
   the gate's own session, after the gate parked, with nothing in between that ends its park.
   */
  lemma ApprovalsAreConfirmed(acts: seq<Action>) returns (frame: map<nat, nat>)
    ensures forall g: nat :: g in frame <==> Approved(Run(acts), g)
    ensures forall g: nat | g in frame :: g < |Run(acts).gates|
    ensures forall g, h | g in frame && h in frame && g != h :: frame[g] != frame[h]
    ensures forall g: nat | g in frame ::
              var gate := Run(acts).gates[g];
              && gate.at < frame[g] < |acts|
              && acts[gate.at] == Park(gate.sid) && acts[frame[g]] == Confirm(gate.sid, Some(true))
              && (forall k | gate.at < k < frame[g] :: !EndsPark(acts[k], gate.sid))
  {
    var s := Run(acts);
    RunRegOk(acts);
    RunFramesOk(acts);
    frame := map g: nat | g < |s.gates| && s.gates[g].verdict == Approve && s.gates[g].fate.Confirmed? :: s.gates[g].fate.frame;
    forall g: nat | g < |s.gates| && s.gates[g].verdict == Approve
      ensures s.gates[g].fate.Confirmed? && s.gates[g].fate.approved && Traced(acts, s.gates[g])
    {
      assert GateOk(s.gates[g], s.reg.chans[g]);
    }
  }

  // ---------------------------------------------------------------- every verdict reaches its gate

  /** Gate g still waits, and this is what its channel holds; nobody can send on it any more. */
  ghost predicate HasMail(s: System, g: nat, buffer: seq<bool>) {
    && g < |s.gates| && s.gates[g].verdict == Awaiting
    && g < |s.reg.chans| && s.reg.chans[g] == buffer
    && forall sid | sid in s.reg.pending :: s.reg.pending[sid] != g
  }

  /** The gate takes its verdict, or gives up. */
  predicate Listens(a: Action, g: nat) { a == Receive(g) || a == CtxDone(g) }

  lemma NoMailFor(s: System, g: nat, sid: SessionId)
    requires RegOk(s) && sid in s.reg.pending && s.reg.pending[sid] == g
    ensures forall other | other in s.reg.pending && other != sid :: s.reg.pending[other] != g
  {}

  lemma ParkLeavesMail(s: System, g: nat, buffer: seq<bool>, sid: SessionId)
    requires RegOk(s) && HasMail(s, g, buffer)
    ensures HasMail(Apply(s, Park(sid)), g, buffer)
  {}

  lemma TeardownLeavesMail(s: System, g: nat, buffer: seq<bool>)
    requires RegOk(s) && HasMail(s, g, buffer)
    ensures HasMail(Apply(s, Teardown), g, buffer)
  {
    assert !OneOf(s.reg, s.reg.pending.Keys, g);
  }

  lemma StepLeavesMail(s: System, g: nat, buffer: seq<bool>, a: Action)
    requires RegOk(s) && HasMail(s, g, buffer) && !Listens(a, g)
    ensures HasMail(Apply(s, a), g, buffer)
  {
    match a
    case Park(sid) => ParkLeavesMail(s, g, buffer, sid);
    case Teardown => TeardownLeavesMail(s, g, buffer);
    case Confirm(_, _) =>
    case TurnEnds(_) =>
    case _ =>
  }

  lemma RunNext(acts: seq<Action>, a: Action)
    ensures Run(acts + [a]) == Apply(Run(acts), a)
  {
    assert (acts + [a])[..|acts|] == acts;
  }

  lemma MailStep(acts: seq<Action>, a: Action, g: nat, buffer: seq<bool>)
    requires HasMail(Run(acts), g, buffer) && !Listens(a, g)
    ensures HasMail(Run(acts + [a]), g, buffer)
  {
    RunRegOk(acts);
    StepLeavesMail(Run(acts), g, buffer, a);
    RunNext(acts, a);
  }

  lemma {:induction false} MailStays(acts: seq<Action>, more: seq<Action>, g: nat, buffer: seq<bool>)
    requires HasMail(Run(acts), g, buffer) && forall i | 0 <= i < |more| :: !Listens(more[i], g)
    ensures HasMail(Run(acts + more), g, buffer)
  {
    if |more| == 0 {
      assert acts + more == acts;
    } else {
      var init, last := more[..|more| - 1], more[|more| - 1];
      MailStays(acts, init, g, buffer);
      MailStep(acts + init, last, g, buffer);
      assert acts + more == (acts + init) + [last];
    }
  }

  /** What an action that ends a session's park puts on its channel: a verdict, a refusal, or nothing. */
  function Posted(a: Action): seq<bool> {
    match a
    case Confirm(_, approved) => if approved == Some(true) then [true] else [false]
    case TurnEnds(_) => []
    case _ => [false]
  }

  lemma ConfirmPosts(s: System, sid: SessionId, v: bool)
    requires RegOk(s) && sid in s.reg.pending && sid != "" && s.gates[s.reg.pending[sid]].verdict == Awaiting
    ensures HasMail(Apply(s, Confirm(sid, Some(v))), s.reg.pending[sid], [v])
  {
    NoMailFor(s, s.reg.pending[sid], sid);
    assert s.reg.chans[s.reg.pending[sid]] + [v] == [v];
  }

  lemma OthersPost(s: System, a: Action, sid: SessionId)
    requires RegOk(s) && sid in s.reg.pending && s.gates[s.reg.pending[sid]].verdict == Awaiting
    requires EndsPark(a, sid) && !a.Confirm?
    ensures HasMail(Apply(s, a), s.reg.pending[sid], Posted(a))
  {
    var g := s.reg.pending[sid];
    NoMailFor(s, g, sid);
    if a.Teardown? { assert sid in s.reg.pending.Keys && OneOf(s.reg, s.reg.pending.Keys, g); }
  }

  lemma VerdictIsPosted(acts: seq<Action>, sid: SessionId, a: Action)
    requires sid in Run(acts).reg.pending && EndsPark(a, sid)
    requires var s := Run(acts); s.reg.pending[sid] < |s.gates| && s.gates[s.reg.pending[sid]].verdict == Awaiting
    ensures HasMail(Run(acts + [a]), Run(acts).reg.pending[sid], Posted(a))
  {
    RunRegOk(acts);
    if a.Confirm? { ConfirmPosts(Run(acts), sid, a.approved.value); } else { OthersPost(Run(acts), a, sid); }
    RunNext(acts, a);
  }

  /**
   Every verdict reaches its gate: whatever ends the park of a gate that still waits, and
   whatever happens next, the gate, when it listens, approves if that was a confirmation with
   `approved` true, and denies if it was any other confirmation, a newer park of its session
   or the teardown. Only the end of its own turn leaves it without a verdict.
   */
  lemma VerdictReachesItsGate(acts: seq<Action>, sid: SessionId, a: Action, more: seq<Action>)
    requires var s := Run(acts);
             sid in s.reg.pending && s.reg.pending[sid] < |s.gates| && s.gates[s.reg.pending[sid]].verdict == Awaiting
    requires EndsPark(a, sid) && forall i | 0 <= i < |more| :: !Listens(more[i], Run(acts).reg.pending[sid])
    ensures var g := Run(acts).reg.pending[sid];
            var s' := Run(acts + [a] + more + [Receive(g)]);
            g < |s'.gates| && s'.gates[g].verdict == if a == Confirm(sid, Some(true)) then Approve else if a == TurnEnds(sid) then Awaiting else Deny
  {
    var g := Run(acts).reg.pending[sid];
    VerdictIsPosted(acts, sid, a);
    MailStays(acts + [a], more, g, Posted(a));
    RunNext(acts + [a] + more, Receive(g));
  }

  /** A gate parks on a channel of its own, waiting. */
  lemma GateParks(acts: seq<Action>, sid: SessionId)
    ensures var s, s' := Run(acts), Run(acts + [Park(sid)]);
            && |s'.gates| == |s.gates| + 1 && s'.gates[|s.gates|].verdict == Awaiting
            && sid in s'.reg.pending && s'.reg.pending[sid] == |s.gates|
  {
    RunRegOk(acts);
    RunNext(acts, Park(sid));
  }

  /** A gate whose context is cancelled first fails closed. */
  lemma CancelledGateDenies(acts: seq<Action>, g: nat)
    requires g < |Run(acts).gates| && Run(acts).gates[g].verdict == Awaiting
    ensures var s' := Run(acts + [CtxDone(g)]); g < |s'.gates| && s'.gates[g].verdict == Deny
  {
    RunNext(acts, CtxDone(g));
  }
}
