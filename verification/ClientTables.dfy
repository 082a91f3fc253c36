/**
 The Go client's correlation tables: `pending` requests and streaming `turns`, guarded by
 one mutex and used by callers of `request` and `SendMessage`, by the dispatch goroutine's
 `route`, and by any number of `failAll` calls. Request ids are fresh, so a request and a
 turn are identified with their ids here, and each has its own index.

 A turn's own settling is one step (module ClientTurn opens it up): it is `done` from the
 moment some `finish` has won, and only then does it leave the table.
 */
module ClientTables {
  type ReqId = nat
  type TurnId = nat

  /** A goroutine inside `request`. */
  datatype Caller =
    | Registering
    | Sending                // registered, calling transport.Send
    | Selecting              // waiting on result, err and ctx
    | Removing               // send failed or ctx done: removePending not called yet
    | Returned

  /** A goroutine inside `SendMessage`. */
  datatype Sender =
    | Creating
    | Aborting               // client closed, or removed after a failed send: abort not called yet
    | Submitting             // registered, calling transport.Send
    | SendFailed             // send failed: removeTurn not called yet
    | Left

  /** `values` counts what was sent on the request's two channels, `read` what its caller took. */
  datatype Request = Request(caller: Caller, values: nat, read: nat)

  datatype Turn = Turn(sender: Sender, done: bool)

  /** The dispatch goroutine, between the table lookup and the send it leads to. */
  datatype Router = Idle | Answering(req: ReqId)

  /** A goroutine inside `failAll`: the tables it took, and what is left of them to fail. */
  datatype Failer = Failer(requests: set<ReqId>, turns: set<TurnId>)

  datatype State = State(requests: seq<Request>, turns: seq<Turn>,
                         pending: set<ReqId>, live: set<TurnId>, closed: bool,
                         router: Router, failers: seq<Failer>, blocked: bool)

  datatype Action =
    | NewRequest
    | Register(r: ReqId)
    | Transmit(r: ReqId, ok: bool)
    | TakeValue(r: ReqId)
    | CtxDone(r: ReqId)
    | RemovePending(r: ReqId)
    | NewTurn
    | RegisterTurn(t: TurnId)
    | TransmitTurn(t: TurnId, ok: bool)
    | RemoveTurn(t: TurnId)
    | AbortTurn(t: TurnId)
    | RouteReply(r: ReqId)
    | SendReply
    | TurnSettles(t: TurnId)          // a terminal frame or the timer: finish, then onClose
    | Forget(t: TurnId)
    | FailAll
    | FailRequest(f: nat, r: ReqId)
    | FailTurn(f: nat, t: TurnId)

  const Initial := State([], [], {}, {}, false, Idle, [], false)

  function PutReq(s: State, r: ReqId, q: Request): State
    requires r < |s.requests|
  {
    s.(requests := s.requests[r := q])
  }

  function PutTurn(s: State, t: TurnId, turn: Turn): State
    requires t < |s.turns|
  {
    s.(turns := s.turns[t := turn])
  }

  /** A send on one of a request's capacity-1 channels: it blocks when an earlier value is still there. */
  function SendValue(s: State, r: ReqId): State
    requires r < |s.requests|
  {
    var q := s.requests[r];
    if q.values > q.read then s.(blocked := true) else PutReq(s, r, q.(values := q.values + 1))
  }

  function Apply(s: State, a: Action): State {
    if a.NewTurn? || a.RegisterTurn? || a.TransmitTurn? || a.RemoveTurn? || a.AbortTurn? || a.TurnSettles? || a.Forget? || a.FailTurn?
    then ApplyTurn(s, a) else ApplyRequest(s, a)
  }

  function ApplyRequest(s: State, a: Action): State {
    match a
    case NewRequest => s.(requests := s.requests + [Request(Registering, 0, 0)])
    case Register(r) =>
      if r >= |s.requests| || s.requests[r].caller != Registering then s
      else if s.closed then PutReq(s, r, s.requests[r].(caller := Returned))
      else PutReq(s, r, s.requests[r].(caller := Sending)).(pending := s.pending + {r})
    case Transmit(r, ok) =>
      if r >= |s.requests| || s.requests[r].caller != Sending then s
      else PutReq(s, r, s.requests[r].(caller := if ok then Selecting else Removing))
    case TakeValue(r) =>
      if r >= |s.requests| || s.requests[r].caller != Selecting || s.requests[r].values <= s.requests[r].read then s
      else PutReq(s, r, s.requests[r].(caller := Returned, read := s.requests[r].read + 1))
    case CtxDone(r) =>
      if r >= |s.requests| || s.requests[r].caller != Selecting then s
      else PutReq(s, r, s.requests[r].(caller := Removing))
    case RemovePending(r) =>
      if r >= |s.requests| || s.requests[r].caller != Removing then s
      else PutReq(s, r, s.requests[r].(caller := Returned)).(pending := s.pending - {r})
    case RouteReply(r) =>
      if s.router != Idle || r !in s.pending then s
      else s.(pending := s.pending - {r}, router := Answering(r))
    case SendReply =>
      if s.router.Idle? || s.router.req >= |s.requests| then s
      else SendValue(s, s.router.req).(router := Idle)
    case FailAll =>
      if s.closed then s
      else s.(closed := true, pending := {}, live := {}, failers := s.failers + [Failer(s.pending, s.live)])
    case FailRequest(f, r) =>
      if f >= |s.failers| || r !in s.failers[f].requests || r >= |s.requests| then s
      else SendValue(s, r).(failers := s.failers[f := s.failers[f].(requests := s.failers[f].requests - {r})])
    case _ => s
  }

  function ApplyTurn(s: State, a: Action): State {
    match a
    case NewTurn => s.(turns := s.turns + [Turn(Creating, false)])
    case RegisterTurn(t) =>
      if t >= |s.turns| || s.turns[t].sender != Creating then s
      else if s.closed then PutTurn(s, t, s.turns[t].(sender := Aborting))
      else PutTurn(s, t, s.turns[t].(sender := Submitting)).(live := s.live + {t})
    case TransmitTurn(t, ok) =>
      if t >= |s.turns| || s.turns[t].sender != Submitting then s
      else PutTurn(s, t, s.turns[t].(sender := if ok then Left else SendFailed))
    case RemoveTurn(t) =>
      if t >= |s.turns| || s.turns[t].sender != SendFailed then s
      else PutTurn(s, t, s.turns[t].(sender := Aborting)).(live := s.live - {t})
    case AbortTurn(t) =>
      if t >= |s.turns| || s.turns[t].sender != Aborting then s
      else PutTurn(s, t, Turn(Left, true))
    case TurnSettles(t) =>
      if t >= |s.turns| then s else PutTurn(s, t, s.turns[t].(done := true))
    case Forget(t) =>
      if t >= |s.turns| || !s.turns[t].done then s else s.(live := s.live - {t})
    case FailTurn(f, t) =>
      if f >= |s.failers| || t !in s.failers[f].turns || t >= |s.turns| then s
      else
        PutTurn(s, t, s.turns[t].(done := true))
        .(failers := s.failers[f := s.failers[f].(turns := s.failers[f].turns - {t})])
    case _ => s
  }

  function Run(acts: seq<Action>): State {
    if |acts| == 0 then Initial else Apply(Run(acts[..|acts| - 1]), acts[|acts| - 1])
  }

  // ---------------------------------------------------------------- the invariant

  predicate HeldByFailer(s: State, r: ReqId) { |s.failers| == 1 && r in s.failers[0].requests }

  predicate HeldByRouter(s: State, r: ReqId) { s.router == Answering(r) }

  /** At most one party may still send a request its value, and then none has been sent. */
  predicate RequestOk(s: State, r: ReqId)
    requires r < |s.requests|
  {
    var q := s.requests[r];
    && q.read <= q.values <= 1
    && (r in s.pending ==> q.values == 0 && !HeldByRouter(s, r) && !HeldByFailer(s, r))
    && (HeldByRouter(s, r) ==> q.values == 0 && !HeldByFailer(s, r))
    && (HeldByFailer(s, r) ==> q.values == 0)
    && (q.caller != Returned ==> q.read == 0)
    && (q.caller == Sending || q.caller == Selecting ==>
          r in s.pending || HeldByRouter(s, r) || HeldByFailer(s, r) || q.values == 1)
    && (q.caller == Registering ==> q.values == 0 && r !in s.pending && !HeldByRouter(s, r) && !HeldByFailer(s, r))
  }

  /** A turn that is not settled is in the table, in the hands of `failAll`, or of its own `SendMessage`. */
  predicate TurnOk(s: State, t: TurnId)
    requires t < |s.turns|
  {
    var turn := s.turns[t];
    turn.done || turn.sender in {Creating, Aborting, SendFailed} || t in s.live ||
    (|s.failers| == 1 && t in s.failers[0].turns)
  }

  predicate Inv(s: State) {
    && !s.blocked
    && |s.failers| == (if s.closed then 1 else 0)
    && (s.closed ==> s.pending == {} && s.live == {})
    && (forall r: ReqId | r in s.pending :: r < |s.requests|)
    && (|s.failers| == 1 ==> forall r: ReqId | r in s.failers[0].requests :: r < |s.requests|)
    && (|s.failers| == 1 ==> forall t: TurnId | t in s.failers[0].turns :: t < |s.turns|)
    && (forall t: TurnId | t in s.live :: t < |s.turns|)
    && (s.router.Answering? ==> s.router.req < |s.requests|)
    && (forall r: ReqId | r < |s.requests| :: RequestOk(s, r))
    && (forall t: TurnId | t < |s.turns| :: TurnOk(s, t))
  }

  /** A step that moves requests alone leaves every turn where it was. */
  lemma TurnsStay(s: State, s': State)
    requires Inv(s) && s'.turns == s.turns && s'.live == s.live && s'.failers == s.failers
    ensures forall t: TurnId | t < |s'.turns| :: TurnOk(s', t)
  {
    forall t: TurnId | t < |s'.turns| ensures TurnOk(s', t) { assert TurnOk(s, t); }
  }

  /** A step of a caller, or of the router's lookup: it sends nothing. */
  lemma CallerKeepsRequests(s: State, a: Action)
    requires Inv(s) && !a.SendReply? && !a.FailRequest? && !a.FailAll?
    ensures forall r: ReqId | r < |ApplyRequest(s, a).requests| :: RequestOk(ApplyRequest(s, a), r)
  {
    var s' := ApplyRequest(s, a);
    forall r: ReqId | r < |s'.requests| ensures RequestOk(s', r) {
      if r < |s.requests| { assert RequestOk(s, r); }
    }
  }

  lemma CallerKeepsInv(s: State, a: Action)
    requires Inv(s) && !a.SendReply? && !a.FailRequest? && !a.FailAll?
    ensures Inv(ApplyRequest(s, a))
  {
    CallerKeepsRequests(s, a);
    TurnsStay(s, ApplyRequest(s, a));
  }

  /** The one party that holds a request sends it its value: the channel is empty. */
  lemma ValueKeepsInv(s: State, a: Action)
    requires Inv(s) && (a.SendReply? || a.FailRequest?)
    ensures Inv(ApplyRequest(s, a))
  {
    var s' := ApplyRequest(s, a);
    if a.SendReply? && s.router.Answering? {
      assert RequestOk(s, s.router.req);
    } else if a.FailRequest? && a.f < |s.failers| && a.r in s.failers[a.f].requests {
      assert RequestOk(s, a.r);
    }
    forall r: ReqId | r < |s'.requests| ensures RequestOk(s', r) { assert RequestOk(s, r); }
    forall t: TurnId | t < |s'.turns| ensures TurnOk(s', t) { assert TurnOk(s, t); }
  }

  lemma FailAllKeepsInv(s: State)
    requires Inv(s)
    ensures Inv(ApplyRequest(s, FailAll))
  {
    var s' := ApplyRequest(s, FailAll);
    forall r: ReqId | r < |s'.requests| ensures RequestOk(s', r) { assert RequestOk(s, r); }
    forall t: TurnId | t < |s'.turns| ensures TurnOk(s', t) { assert TurnOk(s, t); }
  }

  lemma RequestKeepsInv(s: State, a: Action)
    requires Inv(s)
    ensures Inv(ApplyRequest(s, a))
  {
    if a.SendReply? || a.FailRequest? { ValueKeepsInv(s, a); }
    else if a.FailAll? { FailAllKeepsInv(s); }
    else { CallerKeepsInv(s, a); }
  }

  lemma TurnKeepsInv(s: State, a: Action)
    requires Inv(s)
    ensures Inv(ApplyTurn(s, a))
  {
    var s' := ApplyTurn(s, a);
    forall r: ReqId | r < |s'.requests| ensures RequestOk(s', r) { assert RequestOk(s, r); }
    forall t: TurnId | t < |s'.turns| ensures TurnOk(s', t) {
      if t < |s.turns| { assert TurnOk(s, t); }
    }
  }

  lemma {:induction false} RunKeepsInv(acts: seq<Action>)
    ensures Inv(Run(acts))
  {
    if |acts| > 0 {
      var s, a := Run(acts[..|acts| - 1]), acts[|acts| - 1];
      RunKeepsInv(acts[..|acts| - 1]);
      RequestKeepsInv(s, a);
      TurnKeepsInv(s, a);
    }
  }

  // ---------------------------------------------------------------- safety over every run

  /** A request is sent at most one value over its two channels, so no goroutine ever blocks on such a send. */
  lemma OneValueEach(acts: seq<Action>)
    ensures !Run(acts).blocked
    ensures forall r: ReqId | r < |Run(acts).requests| ::
              Run(acts).requests[r].read <= Run(acts).requests[r].values <= 1
  {
    RunKeepsInv(acts);
    forall r: ReqId | r < |Run(acts).requests|
      ensures Run(acts).requests[r].read <= Run(acts).requests[r].values <= 1
    {
      assert RequestOk(Run(acts), r);
    }
  }

  lemma StaysClosed(s: State, a: Action)
    requires s.closed
    ensures Apply(s, a).closed
  {
    match a
    case SendReply =>
    case FailRequest(_, _) =>
    case _ =>
  }

  lemma HeldIsEmpty(s: State, r: ReqId)
    requires Inv(s) && (HeldByRouter(s, r) || HeldByFailer(s, r))
    ensures r < |s.requests| && s.requests[r].values == 0
  {
    assert RequestOk(s, r);
  }

  /** Whoever is about to send a request its value finds the channel empty. */
  lemma NoBlockAhead(acts: seq<Action>, r: ReqId)
    requires Run(acts).router == Answering(r) || exists f :: 0 <= f < |Run(acts).failers| && r in Run(acts).failers[f].requests
    ensures r < |Run(acts).requests| && Run(acts).requests[r].values == 0
  {
    RunKeepsInv(acts);
    HeldIsEmpty(Run(acts), r);
  }

  /** Once `failAll` has closed the client it stays closed, and both tables stay empty. */
  lemma {:induction false} NothingAfterFailAll(acts: seq<Action>, n: nat)
    requires n <= |acts| && Run(acts[..n]).closed
    ensures Run(acts).closed && Run(acts).pending == {} && Run(acts).live == {}
  {
    RunKeepsInv(acts);
    if n < |acts| {
      var init := acts[..|acts| - 1];
      assert init[..n] == acts[..n];
      NothingAfterFailAll(init, n);
      StaysClosed(Run(init), acts[|acts| - 1]);
    } else {
      assert acts[..n] == acts;
    }
  }

  /** When `failAll` has worked through the tables it took and no `SendMessage` is under way, every turn ever created is settled. */
  lemma EveryTurnSettled(acts: seq<Action>, t: TurnId)
    requires var s := Run(acts);
             && s.closed && (forall i | 0 <= i < |s.failers| :: s.failers[i].turns == {})
             && t < |s.turns| && s.turns[t].sender == Left
    ensures Run(acts).turns[t].done
  {
    RunKeepsInv(acts);
    assert TurnOk(Run(acts), t);
  }

  /** And every caller of `request` that is still waiting has its value: none of them hangs. */
  lemma EveryCallerAnswered(acts: seq<Action>, r: ReqId)
    requires var s := Run(acts);
             && s.closed && (forall i | 0 <= i < |s.failers| :: s.failers[i].requests == {}) && s.router.Idle?
             && r < |s.requests| && s.requests[r].caller == Selecting
    ensures Apply(Run(acts), TakeValue(r)).requests[r].caller == Returned
  {
    RunKeepsInv(acts);
    assert RequestOk(Run(acts), r);
  }
}
