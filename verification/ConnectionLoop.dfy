/**
 The outbound side of one connection: the bounded sink channel, the one writer goroutine
 that drains it onto the socket, every goroutine that calls `send` under `sendMu`, and the
 teardown that closes it.
 */
module ConnectionLoop {
  const CAPACITY := 64

  /**
   Who calls `send`. Only turn goroutines are counted in the dispatcher's wait group; a tool
   calls it on the engine's goroutine of its turn.
   */
  datatype Origin = Reader | TurnGoroutine | EngineOf(turn: nat) | Other

  /** `encodable` says whether the event has a JSON encoding. */
  datatype Frame = Frame(origin: Origin, tag: nat, encodable: bool)

  datatype Pc =
    | Outside
    | Wanting(f: Frame)       // waiting for sendMu
    | Locked(f: Frame)        // about to read sinkClosed
    | Selecting(f: Frame)     // in the select over the sink and ioCtx
    | Leaving                 // about to release sendMu
    | Ended

  /** `cancelled`: a turn goroutine whose context was cancelled before it ended. */
  datatype Thread = Thread(origin: Origin, pc: Pc, cancelled: bool)

  datatype Holder = Free | Held(thread: nat) | ByTeardown

  datatype Teardown = Serving | AwaitingTurns | AwaitingLock | Sealing | Unlocking | AwaitingWriter | SocketClosed | Returned

  datatype Writer = Ranging | Writing(f: Frame) | Stopped

  /** `sent` is everything ever put on the sink, `consumed` what the writer took off it, `dropped` what `send` let go. */
  datatype State = State(buffer: seq<Frame>, sinkClosed: bool, channelClosed: bool, panicked: bool, ioDone: bool,
                         sendMu: Holder, threads: seq<Thread>, teardown: Teardown,
                         writer: Writer, dead: bool,
                         sent: seq<Frame>, consumed: seq<Frame>, written: seq<Frame>, dropped: seq<Frame>)

  datatype Action =
    | Spawn(origin: Origin)
    | Call(i: nat, tag: nat, encodable: bool)
    | SendStep(i: nat, preferSink: bool)
    | Cancel(i: nat)
    | End(i: nat)
    | TeardownStep
    | WriterStep(ok: bool)

  const Initial := State([], false, false, false, false, Free, [], Serving, Ranging, false, [], [], [], [])

  function SetPc(s: State, i: nat, pc: Pc): State
    requires i < |s.threads|
  {
    s.(threads := s.threads[i := s.threads[i].(pc := pc)])
  }

  predicate CanEnqueue(s: State, preferSink: bool) { |s.buffer| < CAPACITY && (preferSink || !s.ioDone) }

  /** Where a thread inside `send` goes next. */
  function NextPc(s: State, pc: Pc, preferSink: bool): Pc {
    match pc
    case Wanting(f) => if s.sendMu == Free then Locked(f) else pc
    case Locked(f) => if s.sinkClosed then Leaving else Selecting(f)
    case Selecting(_) => if !s.channelClosed && (CanEnqueue(s, preferSink) || s.ioDone) then Leaving else pc
    case Leaving => Outside
    case _ => pc
  }

  /** The select puts the thread's frame on the sink. */
  predicate Enqueues(s: State, pc: Pc, preferSink: bool) { pc.Selecting? && !s.channelClosed && CanEnqueue(s, preferSink) }

  /** `send` lets the thread's frame go. */
  predicate Drops(s: State, pc: Pc, preferSink: bool) {
    (pc.Locked? && s.sinkClosed) || (pc.Selecting? && !s.channelClosed && !CanEnqueue(s, preferSink) && s.ioDone)
  }

  function ApplySend(s: State, i: nat, preferSink: bool): State
    requires i < |s.threads|
  {
    var pc := s.threads[i].pc;
    s.(threads := s.threads[i := s.threads[i].(pc := NextPc(s, pc, preferSink))],
       sendMu := if pc.Wanting? && s.sendMu == Free then Held(i) else if pc.Leaving? then Free else s.sendMu,
       buffer := if Enqueues(s, pc, preferSink) then s.buffer + [pc.f] else s.buffer,
       sent := if Enqueues(s, pc, preferSink) then s.sent + [pc.f] else s.sent,
       dropped := if Drops(s, pc, preferSink) then s.dropped + [pc.f] else s.dropped,
       panicked := s.panicked || (pc.Selecting? && s.channelClosed))
  }

  predicate TurnsEnded(threads: seq<Thread>) {
    forall i | 0 <= i < |threads| && threads[i].origin == TurnGoroutine :: threads[i].pc == Ended
  }

  /** The engine of turn i has stopped: its stream is closed. */
  predicate EngineEnded(threads: seq<Thread>, i: nat) {
    forall j | 0 <= j < |threads| && threads[j].origin == EngineOf(i) :: threads[j].pc == Ended
  }

  /** The thread may be started now: turns by the read loop, which stops once teardown begins, an engine by its turn. */
  predicate MayStart(s: State, origin: Origin) {
    match origin
    case Other => true
    case EngineOf(i) => i < |s.threads| && s.threads[i].origin == TurnGoroutine && s.threads[i].pc != Ended
    case _ => s.teardown == Serving
  }

  /** A turn runs until its engine's stream closes, unless it is cancelled. */
  predicate MayEnd(s: State, i: nat)
    requires i < |s.threads|
  {
    s.threads[i].pc == Outside && (s.threads[i].origin == TurnGoroutine && !s.threads[i].cancelled ==> EngineEnded(s.threads, i))
  }

  function NextTeardown(s: State): Teardown {
    match s.teardown
    case Serving => AwaitingTurns
    case AwaitingTurns => if TurnsEnded(s.threads) then AwaitingLock else AwaitingTurns
    case AwaitingLock => if s.sendMu == Free then Sealing else AwaitingLock
    case Sealing => Unlocking
    case Unlocking => AwaitingWriter
    case AwaitingWriter => if s.writer == Stopped then SocketClosed else AwaitingWriter
    case SocketClosed => Returned
    case Returned => Returned
  }

  function ApplyTeardown(s: State): State {
    var at := s.teardown;
    s.(teardown := NextTeardown(s),
       sendMu := if at == AwaitingLock && s.sendMu == Free then ByTeardown else if at == Unlocking then Free else s.sendMu,
       sinkClosed := s.sinkClosed || at == Sealing,
       channelClosed := s.channelClosed || at == Sealing,
       panicked := s.panicked || (at == Sealing && s.channelClosed),
       ioDone := s.ioDone || at == SocketClosed)
  }

  function NextWriter(s: State): Writer {
    match s.writer
    case Ranging => if s.buffer != [] then if s.dead then Ranging else Writing(s.buffer[0]) else if s.channelClosed then Stopped else Ranging
    case Writing(_) => Ranging
    case Stopped => Stopped
  }

  /** `ok` is whether a write on the socket succeeds; a frame that does not encode is not written. */
  function ApplyWriter(s: State, ok: bool): State {
    var w := s.writer;
    var takes, writes := w.Ranging? && s.buffer != [], w.Writing? && w.f.encodable;
    s.(writer := NextWriter(s),
       buffer := if takes then s.buffer[1..] else s.buffer,
       consumed := if takes && s.dead then s.consumed + [s.buffer[0]] else if w.Writing? then s.consumed + [w.f] else s.consumed,
       written := if writes && ok then s.written + [w.f] else s.written,
       dead := s.dead || (writes && !ok))
  }

  /** What of a sequence of frames can be written. */
  function Encodable(fs: seq<Frame>): seq<Frame> {
    if fs == [] then []
    else Encodable(fs[..|fs| - 1]) + (if fs[|fs| - 1].encodable then [fs[|fs| - 1]] else [])
  }

  lemma EncodableNext(fs: seq<Frame>, f: Frame)
    ensures Encodable(fs + [f]) == Encodable(fs) + (if f.encodable then [f] else [])
  {
    assert (fs + [f])[..|fs|] == fs;
  }

  function Apply(s: State, a: Action): State {
    match a
    case Spawn(origin) => if MayStart(s, origin) then s.(threads := s.threads + [Thread(origin, Outside, false)]) else s
    case Call(i, tag, encodable) =>
      if i >= |s.threads| || s.threads[i].pc != Outside then s
      else SetPc(s, i, Wanting(Frame(s.threads[i].origin, tag, encodable)))
    case SendStep(i, preferSink) => if i < |s.threads| then ApplySend(s, i, preferSink) else s
    case Cancel(i) =>
      if i >= |s.threads| || s.threads[i].origin != TurnGoroutine || s.threads[i].pc == Ended then s
      else s.(threads := s.threads[i := s.threads[i].(cancelled := true)])
    case End(i) => if i >= |s.threads| || !MayEnd(s, i) then s else SetPc(s, i, Ended)
    case TeardownStep => ApplyTeardown(s)
    case WriterStep(ok) => ApplyWriter(s, ok)
  }

  function Run(acts: seq<Action>): State {
    if |acts| == 0 then Initial else Apply(Run(acts[..|acts| - 1]), acts[|acts| - 1])
  }

  // ---------------------------------------------------------------- the invariant

  predicate Holds(pc: Pc) { pc.Locked? || pc.Selecting? || pc.Leaving? }

  function InWriter(w: Writer): seq<Frame> { if w.Writing? then [w.f] else [] }

  predicate LocksOk(s: State) {
    && (forall i | 0 <= i < |s.threads| :: Holds(s.threads[i].pc) <==> s.sendMu == Held(i))
    && (s.sendMu == ByTeardown <==> s.teardown == Sealing || s.teardown == Unlocking)
    && (s.sendMu.Held? ==> s.sendMu.thread < |s.threads|)
    && (forall i | 0 <= i < |s.threads| && s.threads[i].pc.Selecting? :: !s.sinkClosed)
    && (forall i | 0 <= i < |s.threads| ::
          var pc := s.threads[i].pc;
          (pc.Wanting? || pc.Locked? || pc.Selecting?) ==> pc.f.origin == s.threads[i].origin)
  }

  predicate TeardownOk(s: State) {
    && !s.panicked
    && s.sinkClosed == s.channelClosed
    && (s.sinkClosed <==> s.teardown in {Unlocking, AwaitingWriter, SocketClosed, Returned})
    && (s.teardown !in {Serving, AwaitingTurns} ==> TurnsEnded(s.threads))
    && (s.teardown in {SocketClosed, Returned} ==> s.writer == Stopped)
    && (s.ioDone <==> s.teardown == Returned)
  }

  predicate StreamOk(s: State) {
    && |s.buffer| <= CAPACITY
    && s.sent == s.consumed + InWriter(s.writer) + s.buffer
    && (s.writer == Stopped ==> s.buffer == [] && s.channelClosed)
    && (s.writer.Writing? ==> !s.dead)
    && s.written <= Encodable(s.consumed)
    && (!s.dead ==> s.written == Encodable(s.consumed))
  }

  /** An engine belongs to a turn, and outlives it only if the turn was cancelled. */
  predicate EnginesOk(threads: seq<Thread>) {
    forall j | 0 <= j < |threads| && threads[j].origin.EngineOf? ::
      var i := threads[j].origin.turn;
      && i < |threads| && threads[i].origin == TurnGoroutine
      && (threads[i].pc == Ended && !threads[i].cancelled ==> threads[j].pc == Ended)
  }

  /** No frame of a turn goroutine was let go, and none of an engine whose turn was not cancelled. */
  predicate DroppedOk(s: State) {
    forall k | 0 <= k < |s.dropped| ::
      var o := s.dropped[k].origin;
      o != TurnGoroutine && (o.EngineOf? ==> o.turn < |s.threads| && s.threads[o.turn].cancelled)
  }

  predicate Core(s: State) { LocksOk(s) && TeardownOk(s) && StreamOk(s) }

  predicate Inv(s: State) { Core(s) && EnginesOk(s.threads) && DroppedOk(s) }

  lemma EnqueueKeepsInv(s: State, i: nat)
    requires Inv(s) && i < |s.threads| && s.threads[i].pc.Selecting? && |s.buffer| < CAPACITY
    ensures Core(ApplySend(s, i, true))
  {
    var s' := ApplySend(s, i, true);
    assert LocksOk(s');
    assert TeardownOk(s');
    assert s'.consumed + InWriter(s'.writer) + s'.buffer == (s.consumed + InWriter(s.writer) + s.buffer) + [s.threads[i].pc.f];
  }

  lemma TakeLockKeepsInv(s: State, i: nat)
    requires Inv(s) && i < |s.threads| && s.threads[i].pc.Wanting?
    ensures Core(ApplySend(s, i, true))
  {
    var s' := ApplySend(s, i, true);
    if s.sendMu == Free {
      assert LocksOk(s');
      assert TeardownOk(s');
    } else {
      assert s'.threads == s.threads;
    }
  }

  lemma ReadFlagKeepsInv(s: State, i: nat)
    requires Inv(s) && i < |s.threads| && s.threads[i].pc.Locked? && !s.sinkClosed
    ensures Core(ApplySend(s, i, true))
  {
    var s' := ApplySend(s, i, true);
    assert LocksOk(s');
    assert TeardownOk(s');
  }

  lemma UnlockKeepsInv(s: State, i: nat)
    requires Inv(s) && i < |s.threads| && s.threads[i].pc.Leaving?
    ensures Core(ApplySend(s, i, true))
  {
    var s' := ApplySend(s, i, true);
    assert LocksOk(s');
    assert TeardownOk(s');
  }

  /** `send` lets a frame go. */
  lemma DropKeepsInv(s: State, i: nat, f: Frame)
    requires Inv(s) && i < |s.threads| && s.sinkClosed
    requires s.threads[i].pc == Locked(f)
    ensures Core(SetPc(s, i, Leaving).(dropped := s.dropped + [f]))
  {
    var s' := SetPc(s, i, Leaving).(dropped := s.dropped + [f]);
    assert LocksOk(s');
    assert TeardownOk(s');
  }

  lemma SelectKeepsInv(s: State, i: nat, preferSink: bool)
    requires Inv(s) && i < |s.threads| && s.threads[i].pc.Selecting?
    ensures Core(ApplySend(s, i, preferSink))
  {
    assert !s.ioDone;
    if |s.buffer| < CAPACITY {
      EnqueueKeepsInv(s, i);
    } else {
      assert ApplySend(s, i, preferSink).threads == s.threads;
    }
  }

  lemma SendKeepsInv(s: State, i: nat, preferSink: bool)
    requires Inv(s) && i < |s.threads|
    ensures Core(ApplySend(s, i, preferSink))
  {
    match s.threads[i].pc
    case Selecting(_) => SelectKeepsInv(s, i, preferSink);
    case Locked(f) => if s.sinkClosed { DropKeepsInv(s, i, f); } else { ReadFlagKeepsInv(s, i); }
    case Wanting(_) => TakeLockKeepsInv(s, i);
    case Leaving => UnlockKeepsInv(s, i);
    case _ => assert ApplySend(s, i, preferSink).threads == s.threads;
  }

  lemma SpawnKeepsInv(s: State, origin: Origin)
    requires Inv(s)
    ensures Core(Apply(s, Spawn(origin)))
  {
    assert LocksOk(Apply(s, Spawn(origin)));
    assert TeardownOk(Apply(s, Spawn(origin)));
  }

  /** A thread outside `send` calls it, or ends. */
  lemma OutsideKeepsInv(s: State, i: nat, pc: Pc)
    requires Inv(s) && i < |s.threads| && s.threads[i].pc == Outside
    requires pc == Ended || (pc.Wanting? && pc.f.origin == s.threads[i].origin)
    ensures Core(SetPc(s, i, pc))
  {
    var s' := SetPc(s, i, pc);
    assert LocksOk(s');
    assert TeardownOk(s');
  }

  /** The writer takes a frame off the sink, or finds it closed and empty. */
  lemma TakeKeepsInv(s: State, ok: bool)
    requires Inv(s) && s.writer.Ranging?
    ensures Core(ApplyWriter(s, ok))
  {
    var s' := ApplyWriter(s, ok);
    assert LocksOk(s');
    assert TeardownOk(s');
    TakeKeepsStream(s, ok);
  }

  lemma TakeKeepsStream(s: State, ok: bool)
    requires StreamOk(s) && s.sinkClosed == s.channelClosed && s.writer.Ranging?
    ensures StreamOk(ApplyWriter(s, ok))
  {
    var s' := ApplyWriter(s, ok);
    if s.buffer != [] {
      assert s.buffer == [s.buffer[0]] + s'.buffer;
      EncodableNext(s.consumed, s.buffer[0]);
    }
  }

  /** The writer is done with a frame. */
  lemma WroteKeepsInv(s: State, ok: bool)
    requires Inv(s) && s.writer.Writing?
    ensures Core(ApplyWriter(s, ok))
  {
    var s' := ApplyWriter(s, ok);
    EncodableNext(s.consumed, s.writer.f);
    assert s'.consumed + InWriter(s'.writer) + s'.buffer == s.consumed + InWriter(s.writer) + s.buffer;
    assert LocksOk(s');
  }

  lemma WriterKeepsInv(s: State, ok: bool)
    requires Inv(s)
    ensures Core(ApplyWriter(s, ok))
  {
    match s.writer
    case Ranging => TakeKeepsInv(s, ok);
    case Writing(_) => WroteKeepsInv(s, ok);
    case Stopped =>
  }

  lemma TeardownKeepsInv(s: State)
    requires Inv(s)
    ensures Core(ApplyTeardown(s))
  {}

  lemma CancelKeepsInv(s: State, i: nat)
    requires Inv(s)
    ensures Core(Apply(s, Cancel(i)))
  {
    var s' := Apply(s, Cancel(i));
    assert LocksOk(s');
    assert TeardownOk(s');
  }

  /** What a step may do to a thread. */
  predicate ThreadStep(t: Thread, t': Thread) {
    && t'.origin == t.origin && (t.cancelled ==> t'.cancelled)
    && (t.pc == Ended ==> t' == t)
  }

  /** From s to `s'` no thread moves and nothing is sent. */
  predicate SendsNothing(s: State, s': State) {
    s'.threads == s.threads && s'.sent == s.sent && s'.channelClosed == s.channelClosed
  }

  /** What an action may do to the threads: end one that may end, start one that may start. */
  predicate ThreadsAfter(s: State, a: Action, threads': seq<Thread>) {
    && |s.threads| <= |threads'| <= |s.threads| + 1
    && (forall i | 0 <= i < |s.threads| :: ThreadStep(s.threads[i], threads'[i]))
    && (forall i | 0 <= i < |s.threads| && threads'[i].pc == Ended != s.threads[i].pc ::
          a == End(i) && MayEnd(s, i) && threads'[i] == s.threads[i].(pc := Ended))
    && (|threads'| > |s.threads| ==> a.Spawn? && MayStart(s, a.origin) && threads'[|s.threads|] == Thread(a.origin, Outside, false))
  }

  lemma OneThread(s: State, a: Action, i: nat, t': Thread)
    requires i < |s.threads| && ThreadStep(s.threads[i], t')
    requires t'.pc == Ended != s.threads[i].pc ==> a == End(i) && MayEnd(s, i) && t' == s.threads[i].(pc := Ended)
    ensures ThreadsAfter(s, a, s.threads[i := t'])
  {}

  lemma NoThread(s: State, a: Action)
    ensures ThreadsAfter(s, a, s.threads)
  {}

  lemma NewThread(s: State, origin: Origin)
    requires MayStart(s, origin)
    ensures ThreadsAfter(s, Spawn(origin), s.threads + [Thread(origin, Outside, false)])
  {}

  lemma EndThreads(s: State, i: nat)
    requires i < |s.threads|
    ensures ThreadsAfter(s, End(i), Apply(s, End(i)).threads)
  {
    if MayEnd(s, i) { OneThread(s, End(i), i, s.threads[i].(pc := Ended)); } else { NoThread(s, End(i)); }
  }

  lemma CallThreads(s: State, a: Action)
    requires a.Call? && a.i < |s.threads| && s.threads[a.i].pc == Outside
    ensures ThreadsAfter(s, a, Apply(s, a).threads)
  {
    OneThread(s, a, a.i, Apply(s, a).threads[a.i]);
  }

  lemma CancelThreads(s: State, i: nat)
    requires i < |s.threads| && s.threads[i].pc != Ended
    ensures ThreadsAfter(s, Cancel(i), Apply(s, Cancel(i)).threads)
  {
    OneThread(s, Cancel(i), i, s.threads[i].(cancelled := true));
    NoThread(s, Cancel(i));
  }

  lemma SendThreads(s: State, a: Action)
    requires a.SendStep? && a.i < |s.threads|
    ensures ThreadsAfter(s, a, ApplySend(s, a.i, a.preferSink).threads)
  {
    OneThread(s, a, a.i, s.threads[a.i].(pc := NextPc(s, s.threads[a.i].pc, a.preferSink)));
  }

  lemma StepThreads(s: State, a: Action)
    ensures ThreadsAfter(s, a, Apply(s, a).threads)
  {
    NoThread(s, a);
    match a
    case SendStep(i, _) => if i < |s.threads| { SendThreads(s, a); }
    case Spawn(origin) => if MayStart(s, origin) { NewThread(s, origin); }
    case End(i) => if i < |s.threads| { EndThreads(s, i); }
    case Call(i, _, _) => if i < |s.threads| && s.threads[i].pc == Outside { CallThreads(s, a); }
    case Cancel(i) => if i < |s.threads| && s.threads[i].pc != Ended { CancelThreads(s, i); }
    case _ =>
  }

  lemma StepKeepsEngines(s: State, a: Action)
    requires EnginesOk(s.threads)
    ensures EnginesOk(Apply(s, a).threads)
  {
    StepThreads(s, a);
    var threads' := Apply(s, a).threads;
    forall j | 0 <= j < |threads'| && threads'[j].origin.EngineOf?
      ensures var i := threads'[j].origin.turn;
              && i < |threads'| && threads'[i].origin == TurnGoroutine
              && (threads'[i].pc == Ended && !threads'[i].cancelled ==> threads'[j].pc == Ended)
    {
      var i := threads'[j].origin.turn;
      if j < |s.threads| {
        assert ThreadStep(s.threads[j], threads'[j]);
        assert ThreadStep(s.threads[i], threads'[i]);
      } else {
        assert ThreadStep(s.threads[i], threads'[i]);
      }
    }
  }

  /** What `send` lets go once the sink is closed: no turn is live then, nor the engine of an uncancelled one. */
  lemma StepDrops(s: State, a: Action)
    requires Inv(s)
    ensures Apply(s, a).dropped == s.dropped ||
            (&& a.SendStep? && a.i < |s.threads| && s.threads[a.i].pc.Locked? && s.sinkClosed
             && Apply(s, a).dropped == s.dropped + [s.threads[a.i].pc.f])
  {
    assert !s.ioDone || s.sinkClosed;
  }

  lemma StepKeepsDropped(s: State, a: Action)
    requires Inv(s)
    ensures DroppedOk(Apply(s, a))
  {
    StepThreads(s, a);
    StepDrops(s, a);
    var s' := Apply(s, a);
    forall k | 0 <= k < |s'.dropped|
      ensures var o := s'.dropped[k].origin;
              o != TurnGoroutine && (o.EngineOf? ==> o.turn < |s'.threads| && s'.threads[o.turn].cancelled)
    {
      if k < |s.dropped| {
        assert s'.dropped[k] == s.dropped[k];
      } else {
        assert s.threads[a.i].origin == s'.dropped[k].origin;
      }
    }
  }

  lemma StepKeepsInv(s: State, a: Action)
    requires Inv(s)
    ensures Inv(Apply(s, a))
  {
    StepKeepsEngines(s, a);
    StepKeepsDropped(s, a);
    match a
    case Cancel(i) => CancelKeepsInv(s, i);
    case SendStep(i, preferSink) => if i < |s.threads| { SendKeepsInv(s, i, preferSink); }
    case TeardownStep => TeardownKeepsInv(s);
    case WriterStep(ok) => WriterKeepsInv(s, ok);
    case Spawn(origin) => SpawnKeepsInv(s, origin);
    case Call(i, tag, encodable) =>
      if i < |s.threads| && s.threads[i].pc == Outside { OutsideKeepsInv(s, i, Wanting(Frame(s.threads[i].origin, tag, encodable))); }
    case End(i) => if i < |s.threads| && MayEnd(s, i) { OutsideKeepsInv(s, i, Ended); }
  }

  lemma {:induction false} RunKeepsInv(acts: seq<Action>)
    ensures Inv(Run(acts))
  {
    if |acts| > 0 {
      RunKeepsInv(acts[..|acts| - 1]);
      StepKeepsInv(Run(acts[..|acts| - 1]), acts[|acts| - 1]);
    }
  }

  // ---------------------------------------------------------------- safety over every run

  /** The sink is closed at most once, nothing is sent on it afterwards, and no turn is live when it closes. */
  lemma SinkClosedSafely(acts: seq<Action>)
    ensures !Run(acts).panicked
    ensures Run(acts).channelClosed ==> TurnsEnded(Run(acts).threads)
  {
    RunKeepsInv(acts);
  }

  /** No thread is ever about to send on the closed channel, and the teardown is never about to close it again. */
  lemma NoPanicAhead(acts: seq<Action>)
    ensures var s := Run(acts);
            && (forall i | 0 <= i < |s.threads| && s.threads[i].pc.Selecting? :: !s.channelClosed)
            && (s.teardown == Sealing ==> !s.channelClosed)
  {
    RunKeepsInv(acts);
  }

  lemma SendOnlyAppends(s: State, i: nat, preferSink: bool)
    requires i < |s.threads|
    ensures var s' := ApplySend(s, i, preferSink);
            s.sent <= s'.sent && (s.channelClosed ==> s'.sent == s.sent) && s'.channelClosed == s.channelClosed
  {}

  lemma SentOnlyGrows(s: State, a: Action)
    ensures s.sent <= Apply(s, a).sent
    ensures s.channelClosed ==> Apply(s, a).sent == s.sent && Apply(s, a).channelClosed
  {
    if a.SendStep? && a.i < |s.threads| { SendOnlyAppends(s, a.i, a.preferSink); }
  }

  /** After the close the sink's history is final. */
  lemma {:induction false} NothingSentAfterClose(acts: seq<Action>, n: nat)
    requires n <= |acts| && Run(acts[..n]).channelClosed
    ensures Run(acts).sent == Run(acts[..n]).sent && Run(acts).channelClosed
  {
    if n < |acts| {
      var init := acts[..|acts| - 1];
      assert init[..n] == acts[..n];
      NothingSentAfterClose(init, n);
      SentOnlyGrows(Run(init), acts[|acts| - 1]);
    } else {
      assert acts[..n] == acts;
    }
  }

  /**
   Before the socket closes the writer has consumed everything ever sent, in order; no frame
   a turn sent on its own goroutine was let go on the way in, nor one its tools sent on the
   engine's unless the turn was cancelled. A live socket has written all of it that has a JSON
   encoding.
   */
  lemma DrainedBeforeSocketCloses(acts: seq<Action>)
    requires Run(acts).teardown == SocketClosed || Run(acts).teardown == Returned
    ensures var s := Run(acts);
            && s.consumed == s.sent
            && (!s.dead ==> s.written == Encodable(s.sent))
            && (forall i | 0 <= i < |s.dropped| :: s.dropped[i].origin != TurnGoroutine)
            && (forall i | 0 <= i < |s.dropped| && s.dropped[i].origin.EngineOf? ::
                  s.dropped[i].origin.turn < |s.threads| && s.threads[s.dropped[i].origin.turn].cancelled)
  {
    RunKeepsInv(acts);
    var s := Run(acts);
    assert s.consumed + InWriter(s.writer) + s.buffer == s.consumed;
  }

  /** The writer makes room: with a full sink it has a step, and two of its steps are enough. */
  lemma WriterMakesRoom(s: State, ok: bool)
    requires Inv(s) && s.buffer != []
    ensures s.writer.Ranging? ==> |ApplyWriter(s, ok).buffer| < |s.buffer|
    ensures |ApplyWriter(ApplyWriter(s, ok), ok).buffer| < |s.buffer|
  {
    WriterKeepsInv(s, ok);
  }

  /**
   A sender that blocks on a full sink while it holds `sendMu` always has the writer to wait
   for, dead socket or not: at most two writer steps later its send goes through.
   */
  lemma BlockedSenderIsServed(acts: seq<Action>, i: nat, ok: bool) returns (more: seq<Action>)
    requires i < |Run(acts).threads| && Run(acts).threads[i].pc.Selecting?
    ensures |more| <= 2 && forall k | 0 <= k < |more| :: more[k] == WriterStep(ok)
    ensures Run(acts + more).threads == Run(acts).threads
    ensures ApplySend(Run(acts + more), i, true).sent == Run(acts).sent + [Run(acts).threads[i].pc.f]
    ensures ApplySend(Run(acts + more), i, true).threads[i].pc == Leaving
  {
    RunKeepsInv(acts);
    if |Run(acts).buffer| < CAPACITY {
      more := [];
      assert acts + more == acts;
    } else {
      more := MakeRoom(acts, ok);
    }
    SendGoesThrough(Run(acts + more), i);
  }

  lemma SendGoesThrough(s: State, i: nat)
    requires i < |s.threads| && s.threads[i].pc.Selecting? && !s.channelClosed && |s.buffer| < 64
    ensures ApplySend(s, i, true).sent == s.sent + [s.threads[i].pc.f] && ApplySend(s, i, true).threads[i].pc == Leaving
  {}


  lemma MakeRoom(acts: seq<Action>, ok: bool) returns (more: seq<Action>)
    requires |Run(acts).buffer| == CAPACITY
    ensures |more| <= 2 && forall k | 0 <= k < |more| :: more[k] == WriterStep(ok)
    ensures |Run(acts + more).buffer| < CAPACITY && SendsNothing(Run(acts), Run(acts + more))
  {
    var s := Run(acts);
    RunKeepsInv(acts);
    WriterMakesRoom(s, ok);
    assert SendsNothing(s, ApplyWriter(s, ok));
    more := [WriterStep(ok)];
    assert (acts + more)[..|acts|] == acts;
    if !s.writer.Ranging? {
      var one := acts + more;
      more := more + [WriterStep(ok)];
      assert (acts + more)[..|one|] == one;
    }
  }

  // ---------------------------------------------------------------- every frame is accounted for

  function CalledBy(s: State, a: Action): seq<Frame> {
    if a.Call? && a.i < |s.threads| && s.threads[a.i].pc == Outside then [Frame(s.threads[a.i].origin, a.tag, a.encodable)] else []
  }

  /** The frames `send` has been called with, in order. */
  function Called(acts: seq<Action>): seq<Frame> {
    if |acts| == 0 then []
    else Called(acts[..|acts| - 1]) + CalledBy(Run(acts[..|acts| - 1]), acts[|acts| - 1])
  }

  function Count(fs: seq<Frame>, f: Frame): nat {
    if |fs| == 0 then 0 else Count(fs[..|fs| - 1], f) + (if fs[|fs| - 1] == f then 1 else 0)
  }

  lemma CountNext(fs: seq<Frame>, g: Frame, f: Frame)
    ensures Count(fs + [g], f) == Count(fs, f) + (if g == f then 1 else 0)
  {
    assert (fs + [g])[..|fs|] == fs;
  }

  /** A thread inside `send` has this frame and has not put it anywhere yet. */
  function Carries(pc: Pc, f: Frame): nat { if (pc.Wanting? || pc.Locked? || pc.Selecting?) && pc.f == f then 1 else 0 }

  function InFlight(threads: seq<Thread>, f: Frame): nat {
    if |threads| == 0 then 0 else InFlight(threads[..|threads| - 1], f) + Carries(threads[|threads| - 1].pc, f)
  }

  lemma InFlightAppend(threads: seq<Thread>, t: Thread, f: Frame)
    ensures InFlight(threads + [t], f) == InFlight(threads, f) + Carries(t.pc, f)
  {
    assert (threads + [t])[..|threads|] == threads;
  }

  lemma {:induction false} InFlightUpdate(threads: seq<Thread>, i: nat, t: Thread, f: Frame)
    requires i < |threads|
    ensures InFlight(threads[i := t], f) == InFlight(threads, f) - Carries(threads[i].pc, f) + Carries(t.pc, f)
  {
    var n := |threads| - 1;
    if i == n {
      assert threads[i := t][..n] == threads[..n];
    } else {
      assert threads[i := t][..n] == threads[..n][i := t];
      InFlightUpdate(threads[..n], i, t, f);
    }
  }

  /** How often the frame was sent, let go, or is still in the hands of a thread. */
  function Accounted(s: State, f: Frame): nat { Count(s.sent, f) + Count(s.dropped, f) + InFlight(s.threads, f) }

  /** A step of `send` passes the thread's frame on to the sink or lets it go, and then no longer has it, or does neither and keeps it. */
  lemma SendPassesOn(s: State, i: nat, preferSink: bool)
    requires Inv(s) && i < |s.threads|
    ensures var s', pc := ApplySend(s, i, preferSink), s.threads[i].pc;
            && s'.threads == s.threads[i := s.threads[i].(pc := NextPc(s, pc, preferSink))]
            && s'.sent == (if Enqueues(s, pc, preferSink) then s.sent + [pc.f] else s.sent)
            && s'.dropped == (if Drops(s, pc, preferSink) then s.dropped + [pc.f] else s.dropped)
  {}

  lemma CarriesNext(s: State, pc: Pc, preferSink: bool, f: Frame)
    requires pc.Selecting? ==> !s.channelClosed
    ensures Carries(NextPc(s, pc, preferSink), f) + (if Enqueues(s, pc, preferSink) && pc.f == f then 1 else 0)
              + (if Drops(s, pc, preferSink) && pc.f == f then 1 else 0) == Carries(pc, f)
  {}

  lemma SendKeepsAccount(s: State, i: nat, preferSink: bool, f: Frame)
    requires Inv(s) && i < |s.threads|
    ensures Accounted(ApplySend(s, i, preferSink), f) == Accounted(s, f)
  {
    var pc := s.threads[i].pc;
    SendPassesOn(s, i, preferSink);
    CarriesNext(s, pc, preferSink, f);
    InFlightUpdate(s.threads, i, s.threads[i].(pc := NextPc(s, pc, preferSink)), f);
    if Enqueues(s, pc, preferSink) { CountNext(s.sent, pc.f, f); }
    if Drops(s, pc, preferSink) { CountNext(s.dropped, pc.f, f); }
  }

  lemma ThreadKeepsAccount(s: State, i: nat, t: Thread, f: Frame)
    requires i < |s.threads|
    ensures Accounted(s.(threads := s.threads[i := t]), f) == Accounted(s, f) - Carries(s.threads[i].pc, f) + Carries(t.pc, f)
  {
    InFlightUpdate(s.threads, i, t, f);
  }

  lemma CallCounts(s: State, a: Action, f: Frame)
    requires a.Call?
    ensures Accounted(Apply(s, a), f) == Accounted(s, f) + Count(CalledBy(s, a), f)
  {
    if a.i < |s.threads| && s.threads[a.i].pc == Outside {
      var g := Frame(s.threads[a.i].origin, a.tag, a.encodable);
      ThreadKeepsAccount(s, a.i, s.threads[a.i].(pc := Wanting(g)), f);
      CountNext([], g, f);
    }
  }

  lemma ThreadStepKeepsAccount(s: State, a: Action, f: Frame)
    requires a.Spawn? || a.End? || a.Cancel?
    ensures Accounted(Apply(s, a), f) == Accounted(s, f)
  {
    match a
    case Spawn(origin) => if MayStart(s, origin) { InFlightAppend(s.threads, Thread(origin, Outside, false), f); }
    case End(i) => if i < |s.threads| { ThreadKeepsAccount(s, i, s.threads[i].(pc := Ended), f); }
    case Cancel(i) => if i < |s.threads| { ThreadKeepsAccount(s, i, s.threads[i].(cancelled := true), f); }
  }

  lemma StepKeepsAccount(s: State, a: Action, f: Frame)
    requires Inv(s)
    ensures Accounted(Apply(s, a), f) == Accounted(s, f) + Count(CalledBy(s, a), f)
  {
    match a
    case SendStep(i, preferSink) => if i < |s.threads| { SendKeepsAccount(s, i, preferSink, f); }
    case Call(_, _, _) => CallCounts(s, a, f);
    case TeardownStep =>
    case WriterStep(_) =>
    case _ => ThreadStepKeepsAccount(s, a, f);
  }

  lemma CalledCounts(acts: seq<Action>, f: Frame)
    requires |acts| > 0
    ensures var init := acts[..|acts| - 1];
            Count(Called(acts), f) == Count(Called(init), f) + Count(CalledBy(Run(init), acts[|acts| - 1]), f)
  {
    var init := acts[..|acts| - 1];
    var more := CalledBy(Run(init), acts[|acts| - 1]);
    if more == [] {
      assert Called(init) + more == Called(init);
    } else {
      CountNext(Called(init), more[0], f);
      CountNext([], more[0], f);
      assert more == [] + [more[0]];
    }
  }

  /** Nothing is sent twice and nothing is lost unseen: every frame `send` was called with is sent, let go, or on its way, as often as it was called. */
  lemma {:induction false} FramesAccountedFor(acts: seq<Action>, f: Frame)
    ensures Count(Called(acts), f) == Accounted(Run(acts), f)
  {
    if |acts| > 0 {
      var init, a := acts[..|acts| - 1], acts[|acts| - 1];
      FramesAccountedFor(init, f);
      RunKeepsInv(init);
      StepKeepsAccount(Run(init), a, f);
      CalledCounts(acts, f);
    }
  }

  /** Turns start from the read loop until the teardown begins, engines within a turn that has not ended, anything else at any time. */
  lemma StartsExactly(s: State, origin: Origin)
    ensures |Apply(s, Spawn(origin)).threads| == |s.threads| + 1 <==>
            || origin == Other
            || ((origin == Reader || origin == TurnGoroutine) && s.teardown == Serving)
            || (origin.EngineOf? && origin.turn < |s.threads| && s.threads[origin.turn].origin == TurnGoroutine && s.threads[origin.turn].pc != Ended)
  {}

  /** A thread ends outside `send` only; a turn that is not cancelled only after every thread of its engine. */
  lemma EndsExactly(s: State, i: nat)
    requires i < |s.threads| && s.threads[i].pc != Ended
    ensures Apply(s, End(i)).threads[i].pc == Ended <==>
            && s.threads[i].pc == Outside
            && (s.threads[i].origin == TurnGoroutine && !s.threads[i].cancelled ==>
                  forall t | t in s.threads && t.origin == EngineOf(i) :: t.pc == Ended)
  {}

  /** Only a turn goroutine that has not ended can be cancelled. */
  lemma CancelsExactly(s: State, i: nat)
    requires i < |s.threads| && !s.threads[i].cancelled
    ensures Apply(s, Cancel(i)).threads[i].cancelled <==> s.threads[i].origin == TurnGoroutine && s.threads[i].pc != Ended
  {}

  /** The connection's own context ends with the teardown, and not before. */
  lemma ContextEndsWithTeardown(acts: seq<Action>)
    ensures Run(acts).ioDone <==> Run(acts).teardown == Returned
  {
    RunKeepsInv(acts);
  }
}
