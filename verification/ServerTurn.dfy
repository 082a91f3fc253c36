/**
 The turn lifecycle of one server connection: the reader goroutine, the single
 active-turn slot, and the goroutines of the turns it spawns.

 The machine is a total function `Apply`: an action that is not enabled leaves the
 state unchanged, so a sequence of actions is an interleaving of the reader, the turn
 goroutines and the engine goroutines, and `Run` ranges over all of them.

 The gate every turn frame passes (`turnSink`) is two steps here, as in the code: the
 context is checked first and the frame is sent later.
 */
module ServerTurn {
  import opened Basics

  type TurnId = nat

  /** What a frame of a turn is to its client. `OtpFailed` is the error frame an OTP offer sends. */
  datatype Kind = Ack | Stream | OtpFailed | Failed | Response | Cancelled

  /**
   `Reply` is a frame no turn produced: a pong, a rejected send_message, the reply to a
   confirmation, a submit or a code, which carries the request id of the turn it resumes.
   `failed` says that it is an error frame.
   */
  datatype Frame = OfTurn(turn: TurnId, requestId: string, kind: Kind) | Reply(requestId: string, failed: bool)

  datatype Engine = NotStarted | Open | Closed

  /** Where a turn's goroutine is. */
  datatype Phase =
    | Installing                 // acknowledged, goroutine not spawned yet
    | Running                    // inside TurnRunner.Run
    | Returned(ok: bool)         // Run returned, context not checked yet
    | Failing                    // about to emit INTERNAL_ERROR
    | Offering                   // about to emit otp_verification_required
    | Prompted                   // about to check the context and send the code
    | Delivered(sent: bool)      // SendOtp returned
    | Responding                 // about to emit eventual_response
    | Unwinding                  // about to vacate the slot
    | Vacated
    | Released                   // its own context released
    | Gone

  /**
   `live` is the turn's context not being cancelled. `held` is a frame of the turn's
   goroutine that passed the gate's check and is not sent yet, `engineHeld` the same for
   a frame emitted from inside a tool, on the engine's goroutine. `aborted` records that
   the reader cancelled the context, `otpFailed` that a verification code was not delivered.
   */
  datatype Turn = Turn(requestId: string, live: bool, phase: Phase, engine: Engine,
                       engineHeld: bool, held: Option<Kind>, aborted: bool, otpFailed: bool)

  datatype Reader =
    | Idle
    | Accepting(requestId: string)
    | Acked(turn: TurnId)
    | Installed(turn: TurnId)
    | Took(turn: TurnId, announce: bool)     // slot taken, context not cancelled yet
    | Stopped(turn: TurnId)                  // context cancelled, `cancelled` not sent yet
    | Stopping                               // the connection is torn down

  datatype State = State(reader: Reader, current: Option<TurnId>, turns: seq<Turn>, wire: seq<Frame>)

  datatype ReaderAction =
    | RecvSend(requestId: string, minted: string)
    | Reject
    | EmitAck
    | Install
    | Spawn
    | RecvCancel
    | CancelContext
    | EmitCancelled
    | RecvOther(requestId: string, failed: bool)
    | Disconnect
    | Drain

  datatype TurnAction =
    // engine goroutine
    | EngineStart
    | EngineCheck
    | EngineSend
    | EngineClose
    // turn goroutine
    | RunnerCheck
    | Send
    | RunReturns(success: bool)
    | CheckResult(offer: bool)
    | SendOtp(delivered: bool)
    | Advance

  datatype Action = ByReader(r: ReaderAction) | ByTurn(t: TurnId, a: TurnAction)

  const Initial := State(Idle, None, [], [])

  function Emit(s: State, t: TurnId, kind: Kind): State
    requires t < |s.turns|
  {
    s.(wire := s.wire + [OfTurn(t, s.turns[t].requestId, kind)])
  }

  function ApplyReader(s: State, r: ReaderAction): State {
    match r
    case RecvSend(requestId, minted) =>
      if s.reader != Idle || minted == "" then s
      else if s.current.Some? then s.(wire := s.wire + [Reply(requestId, true)])
      else s.(reader := Accepting(if requestId == "" then minted else requestId))
    case Reject =>
      if !s.reader.Accepting? then s
      else s.(reader := Idle, wire := s.wire + [Reply(s.reader.requestId, true)])
    case EmitAck =>
      if !s.reader.Accepting? then s
      else
        var t := |s.turns|;
        var turn := Turn(s.reader.requestId, true, Installing, NotStarted, false, None, false, false);
        Emit(s.(reader := Acked(t), turns := s.turns + [turn]), t, Ack)
    case Install =>
      if !s.reader.Acked? then s
      else s.(reader := Installed(s.reader.turn), current := Some(s.reader.turn))
    case Spawn =>
      if !s.reader.Installed? || s.reader.turn >= |s.turns| then s
      else
        var t := s.reader.turn;
        s.(reader := Idle, turns := s.turns[t := s.turns[t].(phase := Running)])
    case RecvCancel =>
      if s.reader != Idle || s.current.None? then s
      else s.(reader := Took(s.current.value, true), current := None)
    case CancelContext =>
      if !s.reader.Took? || s.reader.turn >= |s.turns| then s
      else
        var t := s.reader.turn;
        s.(reader := if s.reader.announce then Stopped(t) else Stopping,
           turns := s.turns[t := s.turns[t].(live := false, aborted := true)])
    case EmitCancelled =>
      if !s.reader.Stopped? || s.reader.turn >= |s.turns| then s
      else Emit(s, s.reader.turn, Cancelled).(reader := Idle)
    case RecvOther(requestId, failed) =>
      if s.reader != Idle then s else s.(wire := s.wire + [Reply(requestId, failed)])
    case Disconnect =>
      if s.reader != Idle then s
      else if s.current.None? then s.(reader := Stopping)
      else s.(reader := Took(s.current.value, false), current := None)
    case Drain =>
      if s.reader != Idle then s else s.(reader := Stopping)
  }

  /** Emission on the turn's goroutine: the check half of the gate, moving to `next` either way. */
  function Gate(turn: Turn, kind: Kind, next: Phase): Turn {
    turn.(phase := next, held := if turn.live then Some(kind) else None)
  }

  /** TurnRunner.Run may return: before the engine started, after its stream closed, or on a cancelled context. */
  predicate MayReturn(turn: Turn, success: bool) {
    turn.phase == Running && turn.held.None? &&
    match turn.engine
    case NotStarted => !success
    case Open => !turn.live && !success
    case Closed => true
  }

  /** The next phase of a goroutine that holds no frame. */
  function AdvanceTurn(turn: Turn): Turn {
    match turn.phase
    case Failing => Gate(turn, Failed, Unwinding)
    case Offering => Gate(turn, Stream, Prompted)
    case Delivered(sent) => Gate(turn, if sent then Stream else OtpFailed, Responding)
    case Responding => Gate(turn, Response, Unwinding)
    case Unwinding => turn.(phase := Vacated)
    case Vacated => turn.(live := false, phase := Released)
    case Released => turn.(phase := Gone)
    case _ => turn
  }

  function StepTurn(turn: Turn, a: TurnAction): Turn {
    match a
    case EngineStart =>
      if turn.phase == Running && turn.engine == NotStarted then turn.(engine := Open) else turn
    case EngineCheck =>
      if turn.engine == Open && !turn.engineHeld then turn.(engineHeld := turn.live) else turn
    case EngineSend => turn.(engineHeld := false)
    case EngineClose =>
      if turn.engine == Open && !turn.engineHeld then turn.(engine := Closed) else turn
    case RunnerCheck =>
      if turn.phase == Running && turn.engine != NotStarted && turn.held.None? then Gate(turn, Stream, Running) else turn
    case Send => turn.(held := None)
    case RunReturns(success) =>
      if MayReturn(turn, success) then turn.(phase := Returned(success)) else turn
    case CheckResult(offer) =>
      if !turn.phase.Returned? then turn
      else turn.(phase := if !turn.live then Unwinding
                          else if !turn.phase.ok then Failing
                          else if offer then Offering else Responding)
    case SendOtp(delivered) =>
      if turn.phase != Prompted || turn.held.Some? then turn
      else if !turn.live then turn.(phase := Responding)
      else turn.(phase := Delivered(delivered), otpFailed := !delivered)
    case Advance => if turn.held.Some? then turn else AdvanceTurn(turn)
  }

  /** The frame an action puts on the wire: one that was held. */
  function Sent(turn: Turn, a: TurnAction): Option<Kind> {
    if a == EngineSend && turn.engineHeld then Some(Stream)
    else if a == Send then turn.held
    else None
  }

  predicate Vacates(turn: Turn, a: TurnAction) {
    a == Advance && turn.phase == Unwinding && turn.held.None?
  }

  /** The connection after one step of turn t: `out` is the frame it sent. */
  function Stepped(s: State, t: TurnId, turn': Turn, out: Option<Kind>, vacates: bool): State
    requires t < |s.turns|
  {
    State(s.reader, if vacates && s.current == Some(t) then None else s.current, s.turns[t := turn'],
          if out.Some? then s.wire + [OfTurn(t, s.turns[t].requestId, out.value)] else s.wire)
  }

  function ApplyTurn(s: State, t: TurnId, a: TurnAction): State
    requires t < |s.turns|
  {
    Stepped(s, t, StepTurn(s.turns[t], a), Sent(s.turns[t], a), Vacates(s.turns[t], a))
  }

  function Apply(s: State, a: Action): State {
    match a
    case ByReader(r) => ApplyReader(s, r)
    case ByTurn(t, ta) => if t < |s.turns| then ApplyTurn(s, t, ta) else s
  }

  function Run(acts: seq<Action>): State {
    if |acts| == 0 then Initial else Apply(Run(acts[..|acts| - 1]), acts[|acts| - 1])
  }

  // ---------------------------------------------------------------- what a trace promises

  /** The kinds of turn `t`'s own frames, in wire order. */
  function Kinds(wire: seq<Frame>, t: TurnId): seq<Kind> {
    if |wire| == 0 then []
    else
      var last := wire[|wire| - 1];
      Kinds(wire[..|wire| - 1], t) + (if last.OfTurn? && last.turn == t then [last.kind] else [])
  }

  function Streams(n: nat): seq<Kind> { seq(n, _ => Stream) }

  /** What may follow the stream frames of a turn. */
  predicate Ending(tail: seq<Kind>) {
    || tail == [] || tail == [Response] || tail == [Failed]
    || tail == [OtpFailed] || tail == [OtpFailed, Response]
    || tail == [Cancelled] || tail == [Response, Cancelled] || tail == [Failed, Cancelled]
    || tail == [OtpFailed, Cancelled] || tail == [OtpFailed, Response, Cancelled]
  }

  /** One ack, then stream frames, then an ending; or nothing yet. */
  ghost predicate TurnShape(kinds: seq<Kind>) {
    kinds == [] || exists n: nat, tail :: Ending(tail) && kinds == [Ack] + Streams(n) + tail
  }

  /** Frames of a later turn never precede frames of an earlier one: segments do not overlap. */
  ghost predicate Segmented(wire: seq<Frame>) {
    forall i, j | 0 <= i < j < |wire| && wire[i].OfTurn? && wire[j].OfTurn? :: wire[i].turn <= wire[j].turn
  }

  /** Every frame of a turn, `cancelled` included, carries the one request id of that turn. */
  ghost predicate Correlated(wire: seq<Frame>) {
    forall i, j | 0 <= i < j < |wire| && wire[i].OfTurn? && wire[j].OfTurn? && wire[i].turn == wire[j].turn ::
      wire[i].requestId == wire[j].requestId && wire[i].requestId != ""
  }

  ghost predicate TraceOk(wire: seq<Frame>) {
    Segmented(wire) && Correlated(wire) && forall t: TurnId :: TurnShape(Kinds(wire, t))
  }

  /** A turn's frames up to its first `cancelled`. */
  function UpToCancelled(kinds: seq<Kind>): (r: seq<Kind>)
    ensures |r| <= |kinds|
  {
    if |kinds| == 0 then []
    else
      var init := kinds[..|kinds| - 1];
      if Cancelled in init then UpToCancelled(init) else kinds
  }

  /** The wire without the frames that come after their turn's `cancelled`. */
  function InTime(wire: seq<Frame>): seq<Frame> {
    if |wire| == 0 then []
    else
      var init, last := wire[..|wire| - 1], wire[|wire| - 1];
      if last.OfTurn? && Cancelled in Kinds(init, last.turn) then InTime(init) else InTime(init) + [last]
  }

  lemma UpToNext(kinds: seq<Kind>, k: Kind)
    ensures UpToCancelled(kinds + [k]) == if Cancelled in kinds then UpToCancelled(kinds) else kinds + [k]
  {
    assert (kinds + [k])[..|kinds|] == kinds;
  }

  lemma {:induction false} UpToKeeps(kinds: seq<Kind>)
    ensures Cancelled in UpToCancelled(kinds) <==> Cancelled in kinds
    ensures Cancelled !in kinds ==> UpToCancelled(kinds) == kinds
  {
    if |kinds| > 0 {
      UpToKeeps(kinds[..|kinds| - 1]);
      assert kinds == kinds[..|kinds| - 1] + [kinds[|kinds| - 1]];
    }
  }

  lemma KindsNext(wire: seq<Frame>, f: Frame, t: TurnId)
    ensures Kinds(wire + [f], t) == if f.OfTurn? && f.turn == t then Kinds(wire, t) + [f.kind] else Kinds(wire, t)
  {
    assert (wire + [f])[..|wire|] == wire;
  }

  lemma InTimeNext(wire: seq<Frame>, f: Frame)
    ensures InTime(wire + [f]) == if f.OfTurn? && Cancelled in Kinds(wire, f.turn) then InTime(wire) else InTime(wire) + [f]
  {
    assert (wire + [f])[..|wire|] == wire;
  }

  /** What is in time of turn t is its frames up to its first `cancelled`. */
  predicate CutsAtCancelled(wire: seq<Frame>, t: TurnId) { Kinds(InTime(wire), t) == UpToCancelled(Kinds(wire, t)) }

  lemma CutsNext(wire: seq<Frame>, f: Frame, t: TurnId)
    requires CutsAtCancelled(wire, t)
    ensures CutsAtCancelled(wire + [f], t)
  {
    InTimeNext(wire, f);
    KindsNext(wire, f, t);
    KindsNext(InTime(wire), f, t);
    UpToKeeps(Kinds(wire, t));
    if f.OfTurn? && f.turn == t { UpToNext(Kinds(wire, t), f.kind); }
  }

  lemma {:induction false} KindsInTime(wire: seq<Frame>, t: TurnId)
    ensures CutsAtCancelled(wire, t)
  {
    if |wire| > 0 {
      var init, f := wire[..|wire| - 1], wire[|wire| - 1];
      KindsInTime(init, t);
      CutsNext(init, f, t);
      assert init + [f] == wire;
    }
  }

  lemma {:induction false} InTimeIsPart(wire: seq<Frame>)
    ensures |InTime(wire)| <= |wire| && forall f | f in InTime(wire) :: f in wire
  {
    if |wire| > 0 { InTimeIsPart(wire[..|wire| - 1]); }
  }

  // ---------------------------------------------------------------- an automaton for TurnShape

  /** `Ended` absorbs: what follows a turn's `cancelled` is judged apart, by InTime. */

  datatype Scan = Start | Streaming | Warned | Settled(warned: bool) | Ended | Bad

  function Delta(q: Scan, k: Kind): Scan {
    match (q, k)
    case (Start, Ack) => Streaming
    case (Streaming, Stream) => Streaming
    case (Streaming, OtpFailed) => Warned
    case (Streaming, Response) => Settled(false)
    case (Streaming, Failed) => Settled(false)
    case (Warned, Response) => Settled(true)
    case (Streaming, Cancelled) => Ended
    case (Warned, Cancelled) => Ended
    case (Settled(_), Cancelled) => Ended
    case (Ended, _) => Ended
    case _ => Bad
  }

  function ScanKinds(kinds: seq<Kind>): Scan {
    if |kinds| == 0 then Start else Delta(ScanKinds(kinds[..|kinds| - 1]), kinds[|kinds| - 1])
  }

  lemma {:induction false} ScanStreams(n: nat)
    ensures ScanKinds([Ack] + Streams(n)) == Streaming
  {
    if n == 0 {
      assert [Ack] + Streams(0) == [Ack];
      assert ScanKinds([Ack][..0]) == Start;
    } else {
      ScanStreams(n - 1);
      assert ([Ack] + Streams(n))[..n] == [Ack] + Streams(n - 1);
    }
  }

  lemma ScanAppend(kinds: seq<Kind>, k: Kind)
    ensures ScanKinds(kinds + [k]) == Delta(ScanKinds(kinds), k)
  {
    assert (kinds + [k])[..|kinds|] == kinds;
  }

  /** What the automaton's state says about the frames read so far. */
  ghost predicate Reads(kinds: seq<Kind>, q: Scan, n: nat) {
    var base := [Ack] + Streams(n);
    match q
    case Start => kinds == []
    case Streaming => kinds == base
    case Warned => kinds == base + [OtpFailed]
    case Settled(false) => kinds == base + [Response] || kinds == base + [Failed]
    case Settled(true) => kinds == base + [OtpFailed, Response]
    case Ended => exists tail :: Ending(tail) && kinds == base + tail
    case Bad => true
  }

  lemma ReadsOne(kinds: seq<Kind>, q: Scan, n: nat, k: Kind) returns (m: nat)
    requires Reads(kinds, q, n) && q != Ended && Delta(q, k) != Bad
    ensures Reads(kinds + [k], Delta(q, k), m)
  {
    var base := [Ack] + Streams(n);
    m := n;
    match q
    case Start => m := 0; assert [Ack] + Streams(0) == [Ack];
    case Streaming =>
      if k == Stream {
        m := n + 1;
        assert Streams(n) + [Stream] == Streams(n + 1);
      } else if k == Cancelled {
        assert Ending([Cancelled]);
      }
    case Warned => assert Ending([OtpFailed, Cancelled]) && base + [OtpFailed] + [k] == base + [OtpFailed, k];
    case Settled(warned) =>
      var last := kinds[|kinds| - 1];
      if warned {
        assert Ending([OtpFailed, Response, Cancelled]);
        assert kinds + [k] == base + [OtpFailed, Response, Cancelled];
      } else {
        assert Ending([last, Cancelled]) && kinds + [k] == base + [last, Cancelled];
      }
  }

  lemma {:induction false} CancelledIsEnded(kinds: seq<Kind>)
    requires ScanKinds(kinds) != Bad
    ensures Cancelled in kinds <==> ScanKinds(kinds) == Ended
  {
    if |kinds| > 0 {
      assert kinds == kinds[..|kinds| - 1] + [kinds[|kinds| - 1]];
      CancelledIsEnded(kinds[..|kinds| - 1]);
    }
  }

  /** Where the automaton does not reject, the frames up to the first `cancelled` are in the grammar. */
  lemma {:induction false} ScanSound(kinds: seq<Kind>) returns (n: nat)
    requires ScanKinds(kinds) != Bad
    ensures Reads(UpToCancelled(kinds), ScanKinds(kinds), n)
    ensures TurnShape(UpToCancelled(kinds))
  {
    n := 0;
    if |kinds| > 0 {
      var head, k := kinds[..|kinds| - 1], kinds[|kinds| - 1];
      assert kinds == head + [k];
      n := ScanSound(head);
      CancelledIsEnded(head);
      UpToKeeps(head);
      if ScanKinds(head) != Ended { n := ReadsOne(head, ScanKinds(head), n, k); }
    }
    ReadsShape(UpToCancelled(kinds), ScanKinds(kinds), n);
  }

  lemma ReadsShape(kinds: seq<Kind>, q: Scan, n: nat)
    requires Reads(kinds, q, n) && q != Bad
    ensures TurnShape(kinds)
  {
    var base := [Ack] + Streams(n);
    match q
    case Streaming => assert Ending([]) && kinds == base + [];
    case Warned => assert Ending([OtpFailed]);
    case Settled(warned) => assert Ending([Response]) && Ending([Failed]) && Ending([OtpFailed, Response]);
    case _ =>
  }

  lemma {:induction false} ScanUpTo(kinds: seq<Kind>)
    requires ScanKinds(UpToCancelled(kinds)) != Bad
    ensures ScanKinds(kinds) == ScanKinds(UpToCancelled(kinds))
  {
    if |kinds| > 0 {
      var init := kinds[..|kinds| - 1];
      if Cancelled in init {
        ScanUpTo(init);
        CancelledIsEnded(init);
      }
    }
  }

  /** The automaton accepts every sequence whose frames up to the first `cancelled` are in the grammar. */
  lemma ScanComplete(kinds: seq<Kind>)
    requires TurnShape(UpToCancelled(kinds))
    ensures ScanKinds(kinds) != Bad
  {
    var cut := UpToCancelled(kinds);
    if cut != [] {
      var n: nat, tail :| Ending(tail) && cut == [Ack] + Streams(n) + tail;
      ScanStreams(n);
      ScanEnding([Ack] + Streams(n), tail);
    }
    ScanUpTo(kinds);
  }

  /** The grammar itself ends with `cancelled`. */
  lemma ShapeStops(kinds: seq<Kind>)
    requires TurnShape(kinds)
    ensures UpToCancelled(kinds) == kinds
  {
    if kinds != [] {
      var n: nat, tail :| Ending(tail) && kinds == [Ack] + Streams(n) + tail;
      var init := kinds[..|kinds| - 1];
      assert Cancelled !in init by {
        if tail == [] {
          assert Cancelled !in kinds;
        } else {
          assert init == [Ack] + Streams(n) + tail[..|tail| - 1];
          assert Cancelled !in tail[..|tail| - 1];
        }
      }
    }
  }

  lemma ScanEnding(base: seq<Kind>, tail: seq<Kind>)
    requires Ending(tail) && ScanKinds(base) == Streaming
    ensures ScanKinds(base + tail) != Bad
  {
    if |tail| == 0 {
      assert base + tail == base;
    } else {
      ScanAppend(base, tail[0]);
      if |tail| == 1 {
        assert tail == [tail[0]];
      } else {
        ScanAppend(base + [tail[0]], tail[1]);
        if |tail| == 2 {
          assert base + tail == base + [tail[0]] + [tail[1]];
        } else {
          ScanAppend(base + [tail[0]] + [tail[1]], tail[2]);
          assert base + tail == base + [tail[0]] + [tail[1]] + [tail[2]];
        }
      }
    }
  }

  function ScanOf(s: State, t: TurnId): Scan { ScanKinds(Kinds(s.wire, t)) }

  lemma ScanOfAppend(wire: seq<Frame>, f: Frame, t: TurnId)
    ensures ScanKinds(Kinds(wire + [f], t))
         == if f.OfTurn? && f.turn == t then Delta(ScanKinds(Kinds(wire, t)), f.kind) else ScanKinds(Kinds(wire, t))
  {
    assert (wire + [f])[..|wire|] == wire;
    if f.OfTurn? && f.turn == t {
      ScanAppend(Kinds(wire, t), f.kind);
    } else {
      assert Kinds(wire + [f], t) == Kinds(wire, t);
    }
  }

  // ---------------------------------------------------------------- the invariant

  predicate Quiet(turn: Turn) {
    !turn.live || turn.phase in {Vacated, Released, Gone}
  }

  predicate NothingHeld(turn: Turn) { !turn.engineHeld && turn.held.None? }

  /** The scan of the turn's frames once the frames it holds are sent too. */
  function Ahead(q: Scan, turn: Turn): Scan {
    if turn.held.Some? then Delta(q, turn.held.value) else q
  }

  /** What a turn's goroutine may hold where it is. */
  predicate HeldOk(turn: Turn) {
    && (turn.engineHeld ==> turn.engine == Open)
    && (turn.engine == Open ==> turn.phase == Running || !turn.live)
    && (turn.engine == Open ==> turn.held in {None, Some(Stream)})
    && (turn.held.Some? ==> turn.phase in {Running, Prompted, Responding, Unwinding})
    && (turn.held.Some? && turn.phase in {Running, Prompted} ==> turn.held == Some(Stream))
    && (turn.held.Some? && turn.phase == Responding ==> turn.held in {Some(Stream), Some(OtpFailed)})
    && (turn.held.Some? && turn.phase == Unwinding ==> turn.held in {Some(Failed), Some(Response)})
    && (turn.phase == Installing ==> turn.live && turn.engine == NotStarted)
    && (turn.live <==> !turn.aborted && turn.phase !in {Released, Gone})
  }

  const Finished: set<Phase> := {Vacated, Released, Gone}

  /** The automaton's view of one turn. */
  predicate ScanFits(q: Scan, turn: Turn) {
    && (q == Ended || (q != Start && q != Bad && Ahead(q, turn) != Bad && Ahead(q, turn) != Ended))
    && (q == Ended ==> turn.aborted)
    && (q != Ended && (turn.engineHeld || turn.held == Some(Stream)) ==> q == Streaming)
    && (q == Warned || q == Settled(true) || turn.held == Some(OtpFailed) ==> turn.otpFailed)
    && (!turn.aborted ==>
          if turn.phase in Finished || turn.phase == Unwinding then Ahead(q, turn) == Settled(turn.otpFailed)
          else if turn.phase == Responding then Ahead(q, turn) == if turn.otpFailed then Warned else Streaming
          else q == Streaming && turn.otpFailed == (turn.phase == Delivered(false)))
  }

  predicate Taken(s: State, t: TurnId) {
    s.reader == Took(t, true) || s.reader == Took(t, false)
  }

  /** Someone on the connection still answers for turn `t`, and no newer turn exists. */
  predicate Owned(s: State, t: TurnId) {
    t == |s.turns| - 1 &&
    (s.current == Some(t) || s.reader == Acked(t) || Taken(s, t) || s.reader == Stopped(t) || s.reader == Stopping)
  }

  predicate TurnOk(s: State, t: TurnId)
    requires t < |s.turns|
  {
    var turn := s.turns[t];
    && turn.requestId != ""
    && HeldOk(turn)
    && ScanFits(ScanOf(s, t), turn)
    && (!Quiet(turn) ==> Owned(s, t))
    && (!NothingHeld(turn) ==> Owned(s, t) || ScanOf(s, t) == Ended)
    && (turn.phase == Installing ==> s.reader == Acked(t) || s.reader == Installed(t))
  }

  predicate SlotOk(s: State) {
    && (s.current.Some? ==>
          var t := s.current.value;
          t == |s.turns| - 1 && s.turns[t].live && s.turns[t].phase !in Finished &&
          (s.reader == Idle || s.reader == Stopping || s.reader == Installed(t)))
    && (s.reader.Accepting? ==> s.current.None? && s.reader.requestId != "")
    && (s.reader.Acked? ==> s.current.None?)
    && (s.reader.Installed? ==> s.current == Some(s.reader.turn))
    && (s.reader.Acked? || s.reader.Installed? ==>
          s.reader.turn == |s.turns| - 1 && s.turns[s.reader.turn].phase == Installing)
    && (s.reader.Took? || s.reader.Stopped? ==>
          s.current.None? && s.reader.turn == |s.turns| - 1 && ScanOf(s, s.reader.turn) != Ended &&
          s.turns[s.reader.turn].phase != Installing)
    && (s.reader.Stopped? ==> s.turns[s.reader.turn].aborted)
  }

  ghost predicate WireOk(s: State) {
    && (forall f | f in s.wire && f.OfTurn? :: f.turn < |s.turns| && f.requestId == s.turns[f.turn].requestId)
    && Segmented(InTime(s.wire))
  }

  ghost predicate Inv(s: State) {
    WireOk(s) && SlotOk(s) && forall t: TurnId | t < |s.turns| :: TurnOk(s, t)
  }

  // ---------------------------------------------------------------- which sends are in time

  /** No frame of a turn is sent after the turn's `cancelled` frame. */
  predicate TimelyStep(s: State, a: Action) {
    a.ByTurn? && a.t < |s.turns| && Sent(s.turns[a.t], a.a).Some? ==> Cancelled !in Kinds(s.wire, a.t)
  }

  ghost predicate Timely(acts: seq<Action>) {
    |acts| > 0 ==> Timely(acts[..|acts| - 1]) && TimelyStep(Run(acts[..|acts| - 1]), acts[|acts| - 1])
  }

  /** The gate as one step: every frame is sent while the context its check saw is still live. */
  predicate AtomicStep(s: State, a: Action) {
    a.ByTurn? && a.t < |s.turns| && Sent(s.turns[a.t], a.a).Some? ==> s.turns[a.t].live
  }

  ghost predicate AtomicGate(acts: seq<Action>) {
    |acts| > 0 ==> AtomicGate(acts[..|acts| - 1]) && AtomicStep(Run(acts[..|acts| - 1]), acts[|acts| - 1])
  }

  // ---------------------------------------------------------------- every step keeps the invariant

  function ScanAfter(q: Scan, out: Option<Kind>): Scan { if out.Some? then Delta(q, out.value) else q }

  /** What one step of a turn owes the rest of the connection. */
  predicate FrameOk(turn: Turn, turn': Turn, vacates: bool) {
    && turn'.requestId == turn.requestId && turn'.aborted == turn.aborted
    && turn.phase != Installing && turn'.phase != Installing
    && (!Quiet(turn') ==> !Quiet(turn))
    && (!NothingHeld(turn') ==> !NothingHeld(turn) || !Quiet(turn))
    && (turn'.live != turn.live ==> turn.phase in Finished && !turn'.live)
    && (turn'.phase in Finished ==> turn.phase in Finished || vacates)
    && (vacates ==> turn'.phase in Finished && (turn.live ==> NothingHeld(turn')))
  }

  /** One step of a turn, seen by itself: its record and the automaton stay in agreement. `out` is the frame it sent. */
  predicate LocalOk(q: Scan, turn: Turn, turn': Turn, out: Option<Kind>, vacates: bool) {
    && HeldOk(turn') && ScanFits(ScanAfter(q, out), turn')
    && (ScanAfter(q, out) == Ended <==> q == Ended)
    && FrameOk(turn, turn', vacates)
  }

  lemma StepFrame(turn: Turn, a: TurnAction)
    requires HeldOk(turn) && turn.phase != Installing
    ensures FrameOk(turn, StepTurn(turn, a), Vacates(turn, a))
  {
    if a == Advance { AdvanceFrame(turn); }
  }

  lemma AdvanceFrame(turn: Turn)
    requires HeldOk(turn) && turn.phase != Installing
    ensures FrameOk(turn, StepTurn(turn, Advance), Vacates(turn, Advance))
  {}

  lemma StepHolds(turn: Turn, a: TurnAction)
    requires HeldOk(turn)
    ensures HeldOk(StepTurn(turn, a))
  {
    if a == Advance && turn.held.None? { assert HeldOk(AdvanceTurn(turn)); }
  }

  lemma SendFits(q: Scan, turn: Turn, a: TurnAction)
    requires HeldOk(turn) && ScanFits(q, turn) && (a == Send || a == EngineSend)
    ensures var q' := ScanAfter(q, Sent(turn, a)); ScanFits(q', StepTurn(turn, a)) && (q' == Ended <==> q == Ended)
  {}

  lemma AdvanceFits(q: Scan, turn: Turn)
    requires HeldOk(turn) && ScanFits(q, turn) && turn.phase != Installing
    ensures ScanFits(q, StepTurn(turn, Advance))
  {}

  lemma OtherFits(q: Scan, turn: Turn, a: TurnAction)
    requires HeldOk(turn) && ScanFits(q, turn) && turn.phase != Installing && a !in {Send, EngineSend, Advance}
    ensures Sent(turn, a) == None && ScanFits(q, StepTurn(turn, a))
  {}

  lemma LocalStep(q: Scan, turn: Turn, a: TurnAction)
    requires HeldOk(turn) && ScanFits(q, turn) && turn.phase != Installing
    ensures LocalOk(q, turn, StepTurn(turn, a), Sent(turn, a), Vacates(turn, a))
  {
    StepFrame(turn, a);
    StepHolds(turn, a);
    if a == Send || a == EngineSend {
      SendFits(q, turn, a);
    } else if a == Advance {
      AdvanceFits(q, turn);
    } else {
      OtherFits(q, turn, a);
    }
  }

  /** A frame of the newest turn, or one that comes late, leaves the segments as they were. */
  lemma SegmentsAfter(s: State, f: Frame)
    requires WireOk(s)
    requires f.OfTurn? ==> Cancelled in Kinds(s.wire, f.turn) || f.turn + 1 >= |s.turns|
    ensures Segmented(InTime(s.wire + [f]))
  {
    InTimeNext(s.wire, f);
    InTimeIsPart(s.wire);
    var before := InTime(s.wire);
    forall i | 0 <= i < |before| && before[i].OfTurn? ensures before[i].turn < |s.turns| { assert before[i] in s.wire; }
  }

  lemma ScansAfter(wire: seq<Frame>, f: Frame)
    ensures forall u: TurnId ::
              ScanKinds(Kinds(wire + [f], u)) ==
              if f.OfTurn? && f.turn == u then Delta(ScanKinds(Kinds(wire, u)), f.kind) else ScanKinds(Kinds(wire, u))
  {
    forall u: TurnId
      ensures ScanKinds(Kinds(wire + [f], u))
           == if f.OfTurn? && f.turn == u then Delta(ScanKinds(Kinds(wire, u)), f.kind) else ScanKinds(Kinds(wire, u))
    {
      ScanOfAppend(wire, f, u);
    }
  }

  /** One frame more, of a new or a known turn, or of none. */
  lemma WireAfter(s: State, s': State, f: Frame)
    requires WireOk(s) && s'.wire == s.wire + [f] && |s.turns| <= |s'.turns|
    requires forall u: TurnId | u < |s.turns| :: s'.turns[u].requestId == s.turns[u].requestId
    requires f.OfTurn? ==> f.turn < |s'.turns| && f.requestId == s'.turns[f.turn].requestId
    requires f.OfTurn? ==> Cancelled in Kinds(s.wire, f.turn) || f.turn + 1 >= |s.turns|
    ensures WireOk(s')
    ensures forall u: TurnId :: ScanOf(s', u) == if f.OfTurn? && f.turn == u then Delta(ScanOf(s, u), f.kind) else ScanOf(s, u)
  {
    ScansAfter(s.wire, f);
    SegmentsAfter(s, f);
  }

  lemma StepWire(s: State, t: TurnId, turn': Turn, out: Option<Kind>, vacates: bool)
    requires Inv(s) && t < |s.turns| && turn'.requestId == s.turns[t].requestId
    requires out.Some? ==> Owned(s, t) || ScanOf(s, t) == Ended
    ensures WireOk(Stepped(s, t, turn', out, vacates))
    ensures forall u: TurnId :: ScanOf(Stepped(s, t, turn', out, vacates), u) == if u == t then ScanAfter(ScanOf(s, t), out) else ScanOf(s, u)
  {
    if out.Some? {
      var f := OfTurn(t, s.turns[t].requestId, out.value);
      assert TurnOk(s, t);
      CancelledIsEnded(Kinds(s.wire, t));
      WireAfter(s, Stepped(s, t, turn', out, vacates), f);
    }
  }

  /** One step of a turn, seen by the connection: everyone else's view of the state survives it. */
  lemma TurnFrame(s: State, t: TurnId, turn': Turn, out: Option<Kind>, vacates: bool)
    requires Inv(s) && t < |s.turns| && TurnOk(s, t)
    requires out.Some? ==> Owned(s, t) || ScanOf(s, t) == Ended
    requires LocalOk(ScanOf(s, t), s.turns[t], turn', out, vacates)
    ensures Inv(Stepped(s, t, turn', out, vacates))
  {
    var s' := Stepped(s, t, turn', out, vacates);
    StepWire(s, t, turn', out, vacates);
    forall u: TurnId | u < |s'.turns| ensures TurnOk(s', u) { assert TurnOk(s, u); }
  }

  /** Nothing moves in a turn that the reader has not spawned yet. */
  lemma InstallingStays(s: State, t: TurnId, a: TurnAction)
    requires t < |s.turns| && HeldOk(s.turns[t]) && s.turns[t].phase == Installing
    ensures ApplyTurn(s, t, a) == s
  {
    assert StepTurn(s.turns[t], a) == s.turns[t];
    assert s.turns[t := s.turns[t]] == s.turns;
  }

  lemma TurnKeepsInv(s: State, t: TurnId, a: TurnAction)
    requires Inv(s) && t < |s.turns|
    ensures Inv(ApplyTurn(s, t, a))
  {
    var turn := s.turns[t];
    assert TurnOk(s, t);
    if turn.phase == Installing {
      InstallingStays(s, t, a);
    } else {
      LocalStep(ScanOf(s, t), turn, a);
      TurnFrame(s, t, StepTurn(turn, a), Sent(turn, a), Vacates(turn, a));
    }
  }

  lemma {:induction false} NoFrames(wire: seq<Frame>, t: TurnId)
    requires forall i | 0 <= i < |wire| && wire[i].OfTurn? :: wire[i].turn != t
    ensures Kinds(wire, t) == []
  {
    if |wire| > 0 { NoFrames(wire[..|wire| - 1], t); }
  }

  /** The reader moves without touching a turn, replying at most. */
  lemma ReplyKeepsInv(s: State, s': State)
    requires Inv(s) && (s.reader == Idle || s.reader.Accepting?)
    requires s'.turns == s.turns && s'.current == s.current
    requires s'.wire == s.wire || exists r, failed :: s'.wire == s.wire + [Reply(r, failed)]
    requires s'.reader == Idle || s'.reader == Stopping ||
             (s'.reader.Accepting? && s.current.None? && s'.reader.requestId != "")
    ensures Inv(s')
  {
    if s'.wire != s.wire {
      var r, failed :| s'.wire == s.wire + [Reply(r, failed)];
      WireAfter(s, s', Reply(r, failed));
    }
    forall u: TurnId | u < |s'.turns| ensures TurnOk(s', u) { assert TurnOk(s, u); }
  }

  lemma AckWire(s: State)
    requires Inv(s) && s.reader.Accepting?
    ensures var s' := ApplyReader(s, EmitAck);
            WireOk(s') && forall u: TurnId :: ScanOf(s', u) == if u == |s.turns| then Streaming else ScanOf(s, u)
  {
    NoFrames(s.wire, |s.turns|);
    WireAfter(s, ApplyReader(s, EmitAck), OfTurn(|s.turns|, s.reader.requestId, Ack));
  }

  lemma AckKeepsInv(s: State)
    requires Inv(s) && s.reader.Accepting?
    ensures Inv(ApplyReader(s, EmitAck))
  {
    var s' := ApplyReader(s, EmitAck);
    AckWire(s);
    forall u: TurnId | u < |s.turns| ensures TurnOk(s', u) { assert TurnOk(s, u) && s'.turns[u] == s.turns[u]; }
  }

  lemma InstallKeepsInv(s: State, r: ReaderAction)
    requires Inv(s) && if r == Install then s.reader.Acked? else r == Spawn && s.reader.Installed?
    ensures Inv(ApplyReader(s, r))
  {
    assert TurnOk(s, s.reader.turn);
    forall u: TurnId | u < |s.turns| ensures TurnOk(ApplyReader(s, r), u) { assert TurnOk(s, u); }
  }

  lemma TakeKeepsInv(s: State, r: ReaderAction)
    requires Inv(s) && s.reader == Idle && s.current.Some? && (r == RecvCancel || r == Disconnect)
    ensures Inv(ApplyReader(s, r))
  {
    assert TurnOk(s, s.current.value);
    forall u: TurnId | u < |s.turns| ensures TurnOk(ApplyReader(s, r), u) { assert TurnOk(s, u); }
  }

  lemma CancelKeepsInv(s: State)
    requires Inv(s) && s.reader.Took?
    ensures Inv(ApplyReader(s, CancelContext))
  {
    assert TurnOk(s, s.reader.turn);
    forall u: TurnId | u < |s.turns| ensures TurnOk(ApplyReader(s, CancelContext), u) { assert TurnOk(s, u); }
  }

  lemma CancelledEnds(s: State)
    requires Inv(s) && s.reader.Stopped?
    ensures Delta(ScanOf(s, s.reader.turn), Cancelled) == Ended
  {
    assert TurnOk(s, s.reader.turn);
  }

  lemma CancelledWire(s: State)
    requires WireOk(s) && s.reader.Stopped? && s.reader.turn == |s.turns| - 1
    ensures var s', t := ApplyReader(s, EmitCancelled), s.reader.turn;
            WireOk(s') && forall u: TurnId :: ScanOf(s', u) == if u == t then Delta(ScanOf(s, t), Cancelled) else ScanOf(s, u)
  {
    var t := s.reader.turn;
    WireAfter(s, ApplyReader(s, EmitCancelled), OfTurn(t, s.turns[t].requestId, Cancelled));
  }

  lemma CancelledKeepsInv(s: State)
    requires Inv(s) && s.reader.Stopped?
    ensures Inv(ApplyReader(s, EmitCancelled))
  {
    CancelledEnds(s);
    CancelledWire(s);
    forall u: TurnId | u < |s.turns| ensures TurnOk(ApplyReader(s, EmitCancelled), u) { assert TurnOk(s, u); }
  }

  lemma ReaderKeepsInv(s: State, r: ReaderAction)
    requires Inv(s)
    ensures Inv(ApplyReader(s, r))
  {
    var s' := ApplyReader(s, r);
    if s' != s {
      match r
      case EmitAck => AckKeepsInv(s);
      case Install => InstallKeepsInv(s, r);
      case Spawn => InstallKeepsInv(s, r);
      case RecvCancel => TakeKeepsInv(s, r);
      case CancelContext => CancelKeepsInv(s);
      case EmitCancelled => CancelledKeepsInv(s);
      case Disconnect => if s.current.Some? { TakeKeepsInv(s, r); } else { ReplyKeepsInv(s, s'); }
      case _ => ReplyKeepsInv(s, s');
    }
  }

  lemma {:induction false} RunKeepsInv(acts: seq<Action>)
    ensures Inv(Run(acts))
  {
    if |acts| > 0 {
      var s, a := Run(acts[..|acts| - 1]), acts[|acts| - 1];
      RunKeepsInv(acts[..|acts| - 1]);
      match a
      case ByReader(r) => ReaderKeepsInv(s, r);
      case ByTurn(t, ta) => if t < |s.turns| { TurnKeepsInv(s, t, ta); }
    }
  }

  // ---------------------------------------------------------------- what every run promises

  /** The frame an action puts on the wire. */
  function Output(s: State, a: Action): Option<Frame> {
    match a
    case ByReader(RecvSend(requestId, minted)) =>
      if s.reader == Idle && minted != "" && s.current.Some? then Some(Reply(requestId, true)) else None
    case ByReader(Reject) => if s.reader.Accepting? then Some(Reply(s.reader.requestId, true)) else None
    case ByReader(EmitAck) => if s.reader.Accepting? then Some(OfTurn(|s.turns|, s.reader.requestId, Ack)) else None
    case ByReader(EmitCancelled) =>
      if s.reader.Stopped? && s.reader.turn < |s.turns| then Some(OfTurn(s.reader.turn, s.turns[s.reader.turn].requestId, Cancelled)) else None
    case ByReader(RecvOther(requestId, failed)) => if s.reader == Idle then Some(Reply(requestId, failed)) else None
    case ByTurn(t, ta) =>
      if t < |s.turns| && Sent(s.turns[t], ta).Some? then Some(OfTurn(t, s.turns[t].requestId, Sent(s.turns[t], ta).value)) else None
    case _ => None
  }

  lemma WireIs(s: State, a: Action)
    ensures Apply(s, a).wire == if Output(s, a).Some? then s.wire + [Output(s, a).value] else s.wire
  {}

  /** A frame that follows its turn's `cancelled` stays on the wire. */
  ghost predicate Late(wire: seq<Frame>, t: TurnId) { |UpToCancelled(Kinds(wire, t))| < |Kinds(wire, t)| }

  ghost predicate NoneLate(wire: seq<Frame>) { forall t: TurnId :: !Late(wire, t) }

  lemma LateStays(wire: seq<Frame>, f: Frame, t: TurnId)
    requires Late(wire, t)
    ensures Late(wire + [f], t)
  {
    KindsNext(wire, f, t);
    UpToKeeps(Kinds(wire, t));
    if f.OfTurn? && f.turn == t { UpToNext(Kinds(wire, t), f.kind); }
  }

  lemma LateNext(wire: seq<Frame>, f: Frame, t: TurnId)
    ensures Late(wire + [f], t) <==> Late(wire, t) || (f.OfTurn? && f.turn == t && Cancelled in Kinds(wire, t))
  {
    if Late(wire, t) { LateStays(wire, f, t); }
    KindsNext(wire, f, t);
    UpToKeeps(Kinds(wire, t));
    if f.OfTurn? && f.turn == t { UpToNext(Kinds(wire, t), f.kind); }
  }

  /** One step makes something late exactly when it is not timely. */
  lemma LateStep(s: State, a: Action)
    requires Inv(s)
    ensures NoneLate(Apply(s, a).wire) <==> NoneLate(s.wire) && TimelyStep(s, a)
  {
    WireIs(s, a);
    if Output(s, a).Some? {
      var f := Output(s, a).value;
      forall t: TurnId ensures Late(s.wire + [f], t) <==> Late(s.wire, t) || (f.OfTurn? && f.turn == t && Cancelled in Kinds(s.wire, t)) {
        LateNext(s.wire, f, t);
      }
      LateIsSent(s, a);
      if !TimelyStep(s, a) { assert Late(s.wire + [f], f.turn); }
    }
  }

  /** A run is timely exactly when nothing on its wire is late. */
  lemma {:induction false} TimelyIsNoneLate(acts: seq<Action>)
    ensures Timely(acts) <==> NoneLate(Run(acts).wire)
  {
    if |acts| > 0 {
      TimelyIsNoneLate(acts[..|acts| - 1]);
      RunKeepsInv(acts[..|acts| - 1]);
      LateStep(Run(acts[..|acts| - 1]), acts[|acts| - 1]);
    } else {
      forall t: TurnId ensures !Late(Run(acts).wire, t) { assert Kinds(Run(acts).wire, t) == []; }
    }
  }

  /** Only a turn's own send can come late. */
  lemma LateIsSent(s: State, a: Action)
    requires Inv(s) && Output(s, a).Some?
    ensures var f := Output(s, a).value; (f.OfTurn? && Cancelled in Kinds(s.wire, f.turn)) <==> !TimelyStep(s, a)
  {
    if a == ByReader(EmitAck) {
      NoFrames(s.wire, |s.turns|);
    } else if a == ByReader(EmitCancelled) {
      assert TurnOk(s, s.reader.turn);
      CancelledIsEnded(Kinds(s.wire, s.reader.turn));
    }
  }

  /** Whatever the gate lets out late, the rest of every run's trace is well formed. */
  lemma EveryTraceInTime(acts: seq<Action>)
    ensures TraceOk(InTime(Run(acts).wire))
  {
    var s := Run(acts);
    RunKeepsInv(acts);
    InTimeIsPart(s.wire);
    forall t: TurnId ensures TurnShape(Kinds(InTime(s.wire), t)) {
      KindsInTime(s.wire, t);
      if t < |s.turns| {
        assert TurnOk(s, t);
        var _ := ScanSound(Kinds(s.wire, t));
      } else {
        NoFrames(s.wire, t);
      }
    }
    var w := InTime(s.wire);
    forall i | 0 <= i < |w| && w[i].OfTurn?
      ensures w[i].turn < |s.turns| && w[i].requestId == s.turns[w[i].turn].requestId && w[i].requestId != ""
    {
      assert w[i] in s.wire;
      assert TurnOk(s, w[i].turn);
    }
  }

  lemma {:induction false} NoneLateIsInTime(wire: seq<Frame>)
    requires NoneLate(wire)
    ensures InTime(wire) == wire
  {
    if |wire| > 0 {
      var init, last := wire[..|wire| - 1], wire[|wire| - 1];
      assert wire == init + [last];
      forall t: TurnId ensures !Late(init, t) { if Late(init, t) { LateStays(init, last, t); } }
      NoneLateIsInTime(init);
      if last.OfTurn? {
        KindsNext(init, last, last.turn);
        UpToNext(Kinds(init, last.turn), last.kind);
        UpToKeeps(Kinds(init, last.turn));
        assert !Late(wire, last.turn);
      }
    }
  }

  /**
   The trace of a run is well formed if and only if no send of a turn comes after its
   `cancelled`: nothing else can go wrong with it. What makes a send come after is
   CancelIsFinal's business.
   */
  lemma TraceExact(acts: seq<Action>)
    ensures TraceOk(Run(acts).wire) <==> Timely(acts)
  {
    TimelyIsNoneLate(acts);
    if Timely(acts) {
      TimelyTrace(acts);
    } else {
      var t: TurnId :| Late(Run(acts).wire, t);
      LateIsNoShape(Run(acts).wire, t);
    }
  }

  lemma TimelyTrace(acts: seq<Action>)
    requires NoneLate(Run(acts).wire)
    ensures TraceOk(Run(acts).wire)
  {
    NoneLateIsInTime(Run(acts).wire);
    EveryTraceInTime(acts);
  }

  lemma LateIsNoShape(wire: seq<Frame>, t: TurnId)
    requires Late(wire, t)
    ensures !TraceOk(wire)
  {
    if TurnShape(Kinds(wire, t)) { ShapeStops(Kinds(wire, t)); }
  }

  lemma {:induction false} AtomicIsTimely(acts: seq<Action>)
    requires AtomicGate(acts)
    ensures Timely(acts)
  {
    if |acts| > 0 {
      var init, a := acts[..|acts| - 1], acts[|acts| - 1];
      AtomicIsTimely(init);
      RunKeepsInv(init);
      if a.ByTurn? && a.t < |Run(init).turns| {
        assert TurnOk(Run(init), a.t);
        CancelledIsEnded(Kinds(Run(init).wire, a.t));
      }
    }
  }

  /** With the gate passed in one step, every interleaving gives a well-formed trace. */
  lemma AtomicTrace(acts: seq<Action>)
    requires AtomicGate(acts)
    ensures TraceOk(Run(acts).wire)
  {
    AtomicIsTimely(acts);
    TraceExact(acts);
  }

  /** One slot, one turn: two turns of a connection are never both uncancelled and at work; a cancelled one may still unwind. */
  lemma OneTurnAtWork(acts: seq<Action>, t: TurnId, u: TurnId)
    requires t < |Run(acts).turns| && u < |Run(acts).turns|
    requires !Quiet(Run(acts).turns[t]) && !Quiet(Run(acts).turns[u])
    ensures t == u
  {
    RunKeepsInv(acts);
    assert TurnOk(Run(acts), t) && TurnOk(Run(acts), u);
  }

  // ---------------------------------------------------------------- how many terminal frames

  /** Frames that settle the turn at a client: eventual_response and error. */
  function Terminals(kinds: seq<Kind>): nat {
    if |kinds| == 0 then 0
    else Terminals(kinds[..|kinds| - 1]) + (if kinds[|kinds| - 1] in {Response, Failed, OtpFailed} then 1 else 0)
  }

  lemma {:induction false} ScanCountsTerminals(kinds: seq<Kind>)
    requires ScanKinds(kinds) != Bad && ScanKinds(kinds) != Ended
    ensures match ScanKinds(kinds)
            case Warned => Terminals(kinds) == 1
            case Settled(warned) => Terminals(kinds) == if warned then 2 else 1
            case _ => Terminals(kinds) == 0
  {
    if |kinds| > 0 { ScanCountsTerminals(kinds[..|kinds| - 1]); }
  }

  /**
   A turn that ran to its end without being cancelled settled exactly once, if and only if
   no verification code failed to go out for it: a failed delivery is an error frame, and
   the eventual_response still follows it.
   */
  lemma SettlesOnceUnlessOtpFails(acts: seq<Action>, t: TurnId)
    requires t < |Run(acts).turns|
    requires Run(acts).turns[t].phase in Finished && !Run(acts).turns[t].aborted
    ensures Terminals(Kinds(Run(acts).wire, t)) == (if Run(acts).turns[t].otpFailed then 2 else 1)
    ensures Cancelled !in Kinds(Run(acts).wire, t)
  {
    var s := Run(acts);
    RunKeepsInv(acts);
    assert TurnOk(s, t);
    ScanCountsTerminals(Kinds(s.wire, t));
    CancelledIsEnded(Kinds(s.wire, t));
  }

  // ---------------------------------------------------------------- two concrete runs

  lemma Extend(acts: seq<Action>, a: Action) returns (next: seq<Action>)
    ensures next == acts + [a]
    ensures Run(next) == Apply(Run(acts), a)
    ensures AtomicGate(next) <==> AtomicGate(acts) && AtomicStep(Run(acts), a)
  {
    next := acts + [a];
    assert next[..|acts|] == acts;
  }

  lemma TurnStreaming() returns (acts: seq<Action>)
    ensures AtomicGate(acts)
    ensures Run(acts) == State(Idle, Some(0), [Turn("r", true, Running, Open, false, None, false, false)], [OfTurn(0, "r", Ack)])
  {
    acts := [];
    acts := Extend(acts, ByReader(RecvSend("r", "m")));
    acts := Extend(acts, ByReader(EmitAck));
    acts := Extend(acts, ByReader(Install));
    acts := Extend(acts, ByReader(Spawn));
    acts := Extend(acts, ByTurn(0, EngineStart));
  }

  lemma TurnCancelledMidGate() returns (acts: seq<Action>)
    ensures Timely(acts)
    ensures Run(acts).wire == [OfTurn(0, "r", Ack), OfTurn(0, "r", Cancelled)]
    ensures Run(acts).turns == [Turn("r", false, Running, Open, true, None, true, false)]
  {
    acts := TurnStreaming();
    acts := Extend(acts, ByTurn(0, EngineCheck));
    acts := Extend(acts, ByReader(RecvCancel));
    acts := Extend(acts, ByReader(CancelContext));
    acts := Extend(acts, ByReader(EmitCancelled));
    AtomicIsTimely(acts);
  }

  /** The gate is two steps in the code, and a cancel that lands between them lets a frame out after `cancelled`. */
  lemma CancelBetweenCheckAndSend() returns (acts: seq<Action>)
    ensures !AtomicGate(acts)
    ensures !TraceOk(Run(acts).wire)
    ensures Run(acts).wire == [OfTurn(0, "r", Ack), OfTurn(0, "r", Cancelled), OfTurn(0, "r", Stream)]
  {
    var before := TurnCancelledMidGate();
    acts := Extend(before, ByTurn(0, EngineSend));
    var w := Run(before).wire;
    assert w[..1][..0] == [] && Kinds(w[..1], 0) == [Ack];
    assert Kinds(w, 0) == [Ack, Cancelled];
    assert before == acts[..|acts| - 1] && acts[|acts| - 1] == ByTurn(0, EngineSend);
    assert !TimelyStep(Run(before), ByTurn(0, EngineSend));
    TraceExact(acts);
  }

  lemma TurnOffering() returns (acts: seq<Action>)
    ensures AtomicGate(acts)
    ensures Run(acts) == State(Idle, Some(0), [Turn("r", true, Offering, Closed, false, None, false, false)], [OfTurn(0, "r", Ack)])
  {
    acts := TurnStreaming();
    acts := Extend(acts, ByTurn(0, EngineClose));
    acts := Extend(acts, ByTurn(0, RunReturns(true)));
    acts := Extend(acts, ByTurn(0, CheckResult(true)));
  }

  lemma TurnPrompted() returns (acts: seq<Action>)
    ensures AtomicGate(acts)
    ensures Run(acts) == State(Idle, Some(0), [Turn("r", true, Prompted, Closed, false, None, false, false)],
                               [OfTurn(0, "r", Ack), OfTurn(0, "r", Stream)])
  {
    acts := TurnOffering();
    acts := Extend(acts, ByTurn(0, Advance));
    acts := Extend(acts, ByTurn(0, Send));
  }

  lemma TurnWarned() returns (acts: seq<Action>)
    ensures AtomicGate(acts)
    ensures Run(acts) == State(Idle, Some(0), [Turn("r", true, Responding, Closed, false, None, false, true)],
                               [OfTurn(0, "r", Ack), OfTurn(0, "r", Stream), OfTurn(0, "r", OtpFailed)])
  {
    acts := TurnPrompted();
    acts := Extend(acts, ByTurn(0, SendOtp(false)));
    acts := Extend(acts, ByTurn(0, Advance));
    assert Run(acts).turns == [Turn("r", true, Responding, Closed, false, Some(OtpFailed), false, true)];
    acts := Extend(acts, ByTurn(0, Send));
  }

  lemma TurnAnswered() returns (acts: seq<Action>)
    ensures AtomicGate(acts)
    ensures Run(acts).wire == [OfTurn(0, "r", Ack), OfTurn(0, "r", Stream), OfTurn(0, "r", OtpFailed), OfTurn(0, "r", Response)]
  {
    acts := TurnWarned();
    acts := Extend(acts, ByTurn(0, Advance));
    var s := Run(acts);
    assert s.turns == [Turn("r", true, Unwinding, Closed, false, Some(Response), false, true)];
    acts := Extend(acts, ByTurn(0, Send));
    assert Run(acts).wire == s.wire + [OfTurn(0, "r", Response)];
  }

  /** A verification code that is not delivered: the client is told of an error, then answered. */
  lemma OtpFailureSettlesTwice() returns (acts: seq<Action>)
    ensures AtomicGate(acts)
    ensures Kinds(Run(acts).wire, 0) == [Ack, Stream, OtpFailed, Response]
  {
    acts := TurnAnswered();
    FrameKinds("r");
  }

  lemma FrameKinds(r: string)
    ensures Kinds([OfTurn(0, r, Ack), OfTurn(0, r, Stream), OfTurn(0, r, OtpFailed), OfTurn(0, r, Response)], 0)
         == [Ack, Stream, OtpFailed, Response]
  {
    var w0 := [OfTurn(0, r, Ack)];
    var w1 := w0 + [OfTurn(0, r, Stream)];
    var w2 := w1 + [OfTurn(0, r, OtpFailed)];
    var w3 := w2 + [OfTurn(0, r, Response)];
    assert w0[..0] == [] && w1[..1] == w0 && w2[..2] == w1 && w3[..3] == w2;
    assert Kinds(w0, 0) == [Ack];
    assert Kinds(w1, 0) == [Ack, Stream];
    assert Kinds(w2, 0) == [Ack, Stream, OtpFailed];
    assert w3 == [OfTurn(0, r, Ack), OfTurn(0, r, Stream), OfTurn(0, r, OtpFailed), OfTurn(0, r, Response)];
  }
}
