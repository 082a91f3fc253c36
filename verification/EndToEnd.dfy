/**
 A turn seen from both ends: the frames a server run puts on the wire for one request id, the
 replies to confirmations and submits that resume the turn among them, fed in order to the Go
 client's turn, with no timer and no close on the client.
 */
module EndToEnd {
  import opened Basics
  import opened TurnContract
  import opened History
  import Server = ServerTurn
  import Answers = TurnAnswers
  import Client = ClientTurn

  /** How the client reads a frame of a turn: `error` frames are terminal whatever raised them. */
  function EventOf(k: Server.Kind): Event {
    match k
    case Ack => Note(0)
    case Stream => Note(1)
    case OtpFailed => Error
    case Failed => Error
    case Response => Final(true)
    case Cancelled => Stop
  }

  /** Any frame as the client reads it: a reply is an event of the turn whose request id it carries. */
  function EventOfFrame(f: Server.Frame): Event {
    if f.OfTurn? then EventOf(f.kind) else if f.failed then Error else Note(2)
  }

  /** The events routed to the turn that the client registered under `requestId`. */
  function Routed(wire: seq<Server.Frame>, requestId: string): seq<Event> {
    if |wire| == 0 then []
    else
      var last := wire[|wire| - 1];
      Routed(wire[..|wire| - 1], requestId) + (if last.requestId == requestId then [EventOfFrame(last)] else [])
  }

  /** Turn t, and no other turn, has the request id; replies may carry it too. */
  ghost predicate Owns(wire: seq<Server.Frame>, t: Server.TurnId, requestId: string) {
    forall f | f in wire && f.OfTurn? :: f.requestId == requestId <==> f.turn == t
  }

  // ---------------------------------------------------------------- the frame that settles

  /** The kinds of frame that end a turn at its client. */
  predicate EndsTurnAt(k: Server.Kind) { k in {Server.OtpFailed, Server.Failed, Server.Response, Server.Cancelled} }

  /** A frame that ends the turn of this request id: an error reply does too. */
  predicate Ends(f: Server.Frame, requestId: string) {
    f.requestId == requestId && if f.OfTurn? then EndsTurnAt(f.kind) else f.failed
  }

  predicate OwnEnds(f: Server.Frame, t: Server.TurnId) { f.OfTurn? && f.turn == t && EndsTurnAt(f.kind) }

  /** Which frame each outcome stands for. */
  predicate Stands(o: Outcome, f: Server.Frame) {
    && (o == Completed <==> f.OfTurn? && f.kind == Server.Response)
    && (o == UserStopped <==> f.OfTurn? && f.kind == Server.Cancelled)
    && (o == Rejected <==> if f.OfTurn? then f.kind in {Server.Failed, Server.OtpFailed} else f.failed)
    && (o == UserStopped || o == Completed || o == Rejected)
  }

  /** Where the first terminal frame under the request id is, or the length of the wire. */
  function FirstEnd(wire: seq<Server.Frame>, requestId: string): (k: nat)
    ensures k <= |wire| && (k < |wire| ==> Ends(wire[k], requestId)) && forall i | 0 <= i < k :: !Ends(wire[i], requestId)
  {
    if |wire| == 0 then 0
    else
      var k := FirstEnd(wire[..|wire| - 1], requestId);
      if k < |wire| - 1 then k else if Ends(wire[|wire| - 1], requestId) then |wire| - 1 else |wire|
  }

  /** Where the turn's own first terminal frame is, or the length of the wire. */
  function FirstOwnEnd(wire: seq<Server.Frame>, t: Server.TurnId): (k: nat)
    ensures k <= |wire| && (k < |wire| ==> OwnEnds(wire[k], t)) && forall i | 0 <= i < k :: !OwnEnds(wire[i], t)
  {
    if |wire| == 0 then 0
    else
      var k := FirstOwnEnd(wire[..|wire| - 1], t);
      if k < |wire| - 1 then k else if OwnEnds(wire[|wire| - 1], t) then |wire| - 1 else |wire|
  }

  lemma RoutedNext(wire: seq<Server.Frame>, k: nat, requestId: string)
    requires k < |wire|
    ensures Routed(wire[..k + 1], requestId) ==
            if wire[k].requestId == requestId then Routed(wire[..k], requestId) + [EventOfFrame(wire[k])] else Routed(wire[..k], requestId)
  {
    assert wire[..k + 1][..k] == wire[..k];
  }

  lemma {:induction false} RoutedPrefix(wire: seq<Server.Frame>, k: nat, requestId: string)
    requires k <= |wire|
    ensures Routed(wire[..k], requestId) <= Routed(wire, requestId)
    decreases |wire| - k
  {
    if k < |wire| {
      RoutedNext(wire, k, requestId);
      RoutedPrefix(wire, k + 1, requestId);
    } else {
      assert wire[..k] == wire;
    }
  }

  lemma {:induction false} NothingEnds(wire: seq<Server.Frame>, k: nat, requestId: string)
    requires k <= |wire| && forall i | 0 <= i < k :: !Ends(wire[i], requestId)
    ensures NoTerminal(Routed(wire[..k], requestId))
  {
    if k > 0 {
      NothingEnds(wire, k - 1, requestId);
      RoutedNext(wire, k - 1, requestId);
      EndsIsTerminal(wire[k - 1], requestId);
    }
  }

  /** The client reads as terminal exactly the frames that end the turn. */
  lemma EndsIsTerminal(f: Server.Frame, requestId: string)
    ensures f.requestId == requestId ==> (Terminal(EventOfFrame(f)) <==> Ends(f, requestId))
    ensures f.OfTurn? ==> (Terminal(EventOf(f.kind)) <==> EndsTurnAt(f.kind))
  {}

  /** The first terminal event routed is that of the first terminal frame under the id. */
  lemma FirstEventIs(wire: seq<Server.Frame>, requestId: string) returns (n: nat)
    ensures var events, k := Routed(wire, requestId), FirstEnd(wire, requestId);
            && n <= |events| && events[..n] == Routed(wire[..k], requestId) && NoTerminal(events[..n])
            && (k < |wire| ==> n < |events| && events[n] == EventOfFrame(wire[k]) && events[..n + 1] == Routed(wire[..k + 1], requestId))
            && (k == |wire| ==> n == |events|)
  {
    var k := FirstEnd(wire, requestId);
    n := |Routed(wire[..k], requestId)|;
    NothingEnds(wire, k, requestId);
    RoutedPrefix(wire, k, requestId);
    if k < |wire| { FirstEndRouted(wire, k, requestId); } else { assert wire[..k] == wire; }
  }

  lemma FirstEndRouted(wire: seq<Server.Frame>, k: nat, requestId: string)
    requires k < |wire| && wire[k].requestId == requestId
    ensures var events, n := Routed(wire, requestId), |Routed(wire[..k], requestId)|;
            n < |events| && events[n] == EventOfFrame(wire[k]) && events[..n + 1] == Routed(wire[..k + 1], requestId)
  {
    RoutedNext(wire, k, requestId);
    RoutedPrefix(wire, k + 1, requestId);
  }

  /** No timer, no abort, no withdrawal. */
  predicate NoSettle(acts: seq<Client.Action>) { forall i | 0 <= i < |acts| :: !acts[i].Settle? && !acts[i].Withdraw? }

  predicate FramesOnly(s: Client.State) {
    && (forall i | 0 <= i < |s.threads| && s.threads[i].Enter? :: !External(s.threads[i].outcome))
    && (forall i | 0 <= i < |s.outcomes| :: !External(s.outcomes[i]))
    && !s.sender.Withdrawn?
  }

  lemma FinishFramesOnly(s: Client.State, i: nat)
    requires FramesOnly(s) && i < |s.threads|
    ensures FramesOnly(Client.ApplyFinish(s, i))
  {}

  lemma PushFramesOnly(s: Client.State, preferSend: bool)
    requires FramesOnly(s)
    ensures FramesOnly(Client.ApplyPush(s, preferSend))
  {}

  lemma StepFramesOnly(s: Client.State, a: Client.Action)
    requires FramesOnly(s) && !a.Settle? && !a.Withdraw?
    ensures FramesOnly(Client.Apply(s, a))
  {
    match a
    case FinishStep(i) => if i < |s.threads| { FinishFramesOnly(s, i); }
    case PushStep(preferSend) => PushFramesOnly(s, preferSend);
    case _ =>
  }

  /** Without a timer or an abort, every outcome in the turn stands for a frame. */
  lemma {:induction false} OnlyFramesSettle(acts: seq<Client.Action>)
    requires NoSettle(acts)
    ensures FramesOnly(Client.Run(acts))
  {
    if |acts| > 0 {
      var init := acts[..|acts| - 1];
      assert forall i | 0 <= i < |init| :: init[i] == acts[i];
      OnlyFramesSettle(init);
      StepFramesOnly(Client.Run(init), acts[|acts| - 1]);
    }
  }

  /** There is only one place where a stream of events can have its first terminal event. */
  lemma FirstIsUnique(arrived: seq<Event>, sent: seq<Event>, n: nat)
    requires sent <= arrived && n <= |arrived| && NoTerminal(arrived[..n])
    requires n < |arrived| ==> Terminal(arrived[n])
    requires forall i | 0 <= i < |sent| - 1 :: !Terminal(sent[i])
    ensures sent != [] && Terminal(sent[|sent| - 1]) ==> n == |sent| - 1 && sent == arrived[..n + 1]
    ensures NoTerminal(sent) && sent == arrived ==> n == |arrived|
  {
    if sent != [] {
      var last := |sent| - 1;
      assert sent[last] == arrived[last];
      if last < n { assert arrived[..n][last] == arrived[last]; }
    }
  }

  /** A turn at rest that only frames can settle: unsettled with everything delivered, or settled by the last delivery. */
  lemma AtRest(s: Client.State)
    requires Client.Inv(s) && FramesOnly(s) && s.push == Client.Idle
    ensures var sent := Client.Delivered(s);
            && sent <= s.arrived && (forall i | 0 <= i < |sent| - 1 :: !Terminal(sent[i]))
            && (if s.outcomes == [] then NoTerminal(sent) && sent == s.arrived else |s.outcomes| == 1 && FromLast(s.outcomes[0], sent))
  {}

  lemma RestOf(acts: seq<Client.Action>)
    requires NoSettle(acts) && Client.Run(acts).push == Client.Idle
    ensures var s, sent := Client.Run(acts), Client.Delivered(Client.Run(acts));
            && sent <= s.arrived && (forall i | 0 <= i < |sent| - 1 :: !Terminal(sent[i]))
            && (if s.outcomes == [] then NoTerminal(sent) && sent == s.arrived else |s.outcomes| == 1 && FromLast(s.outcomes[0], sent))
  {
    Client.RunKeepsInv(acts);
    OnlyFramesSettle(acts);
    AtRest(Client.Run(acts));
  }

  /** The turn at rest: what it delivered and how it settled are read off the events that arrived. */
  lemma SettlesWithFirstTerminal(acts: seq<Client.Action>, n: nat)
    requires NoSettle(acts) && Client.Run(acts).push == Client.Idle
    requires n <= |Client.Run(acts).arrived| && NoTerminal(Client.Run(acts).arrived[..n])
    requires n < |Client.Run(acts).arrived| ==> Terminal(Client.Run(acts).arrived[n])
    ensures var s := Client.Run(acts);
            if n == |s.arrived| then s.outcomes == [] && Client.Delivered(s) == s.arrived
            else |s.outcomes| == 1 && Means(s.outcomes[0], s.arrived[n]) && !External(s.outcomes[0]) && Client.Delivered(s) == s.arrived[..n + 1]
  {
    RestOf(acts);
    FirstIsUnique(Client.Run(acts).arrived, Client.Delivered(Client.Run(acts)), n);
  }

  // ---------------------------------------------------------------- what the turn's own frames look like

  lemma {:induction false} ScanPrefix(wire: seq<Server.Frame>, k: nat, t: Server.TurnId)
    requires k <= |wire| && Server.ScanKinds(Server.Kinds(wire, t)) != Server.Bad
    ensures Server.ScanKinds(Server.Kinds(wire[..k], t)) != Server.Bad
    decreases |wire|
  {
    if k < |wire| {
      var init, last := wire[..|wire| - 1], wire[|wire| - 1];
      assert wire == init + [last] && init[..k] == wire[..k];
      Server.ScanOfAppend(init, last, t);
      ScanPrefix(init, k, t);
    } else {
      assert wire[..k] == wire;
    }
  }

  lemma {:induction false} NoneCancelled(wire: seq<Server.Frame>, k: nat, t: Server.TurnId)
    requires k <= |wire| && forall i | 0 <= i < k :: !OwnEnds(wire[i], t)
    ensures Server.Cancelled !in Server.Kinds(wire[..k], t)
  {
    if k > 0 {
      NoneCancelled(wire, k - 1, t);
      assert wire[..k] == wire[..k - 1] + [wire[k - 1]];
      Server.KindsNext(wire[..k - 1], wire[k - 1], t);
    }
  }

  lemma ScanOfRun(server: seq<Server.Action>, t: Server.TurnId)
    ensures Server.ScanKinds(Server.Kinds(Server.Run(server).wire, t)) != Server.Bad
  {
    Server.RunKeepsInv(server);
    if t < |Server.Run(server).turns| {
      assert Server.TurnOk(Server.Run(server), t);
    } else {
      Server.NoFrames(Server.Run(server).wire, t);
    }
  }

  lemma NoneLateUpTo(wire: seq<Server.Frame>, k: nat, t: Server.TurnId)
    requires k <= |wire| && forall i | 0 <= i && i + 1 < k :: !OwnEnds(wire[i], t)
    ensures Server.UpToCancelled(Server.Kinds(wire[..k], t)) == Server.Kinds(wire[..k], t)
  {
    if k > 0 {
      NoneCancelled(wire, k - 1, t);
      assert wire[..k] == wire[..k - 1] + [wire[k - 1]];
      Server.KindsNext(wire[..k - 1], wire[k - 1], t);
      Server.UpToKeeps(Server.Kinds(wire[..k - 1], t));
      if wire[k - 1].OfTurn? && wire[k - 1].turn == t { Server.UpToNext(Server.Kinds(wire[..k - 1], t), wire[k - 1].kind); }
    }
  }

  /** In any run, the turn's frames up to a point with no terminal one before it are in the grammar. */
  lemma ShapeUpTo(server: seq<Server.Action>, t: Server.TurnId, k: nat)
    requires var wire := Server.Run(server).wire; k <= |wire| && forall i | 0 <= i && i + 1 < k :: !OwnEnds(wire[i], t)
    ensures Server.TurnShape(Server.Kinds(Server.Run(server).wire[..k], t))
  {
    var wire := Server.Run(server).wire;
    ScanOfRun(server, t);
    ScanPrefix(wire, k, t);
    var _ := Server.ScanSound(Server.Kinds(wire[..k], t));
    NoneLateUpTo(wire, k, t);
  }

  // ---------------------------------------------------------------- end to end

  /** How far the client listens: up to the first terminal frame under the id. */
  function Heard(wire: seq<Server.Frame>, requestId: string): (h: nat)
    ensures h <= |wire|
  {
    var k := FirstEnd(wire, requestId);
    if k < |wire| then k + 1 else k
  }

  /** The client's turn is at rest, and what was routed to it is the wire's frames under its id. */
  ghost predicate Fed(client: seq<Client.Action>, wire: seq<Server.Frame>, requestId: string) {
    NoSettle(client) && Client.Run(client).push == Client.Idle && Client.Run(client).arrived == Routed(wire, requestId)
  }

  /**
   End to end, for every interleaving of the server and of the client: a turn whose frames
   have all been routed has settled with the first terminal frame under its request id,
   delivered what came before it and it, and nothing after. Of its own frames it has
   delivered a well-shaped sequence, whatever the gate let out late.
   */
  lemma TurnEndToEnd(server: seq<Server.Action>, t: Server.TurnId, requestId: string, client: seq<Client.Action>)
    requires Owns(Server.Run(server).wire, t, requestId) && Fed(client, Server.Run(server).wire, requestId)
    ensures var wire, s := Server.Run(server).wire, Client.Run(client);
            var k, h := FirstEnd(wire, requestId), Heard(wire, requestId);
            && (if k < |wire| then |s.outcomes| == 1 && Stands(s.outcomes[0], wire[k]) else s.outcomes == [])
            && Client.Delivered(s) == Routed(wire[..h], requestId)
            && Server.TurnShape(Server.Kinds(wire[..h], t))
  {
    var wire := Server.Run(server).wire;
    HowItSettles(wire, requestId, client);
    assert wire[..|wire|] == wire;
    forall i | 0 <= i && i + 1 < Heard(wire, requestId) ensures !OwnEnds(wire[i], t) { assert wire[i] in wire && !Ends(wire[i], requestId); }
    ShapeUpTo(server, t, Heard(wire, requestId));
  }

  /** The client's half: any wire settles it with the first frame that ends the turn. */
  lemma HowItSettles(wire: seq<Server.Frame>, requestId: string, client: seq<Client.Action>)
    requires Fed(client, wire, requestId)
    ensures var s, k := Client.Run(client), FirstEnd(wire, requestId);
            && (if k < |wire| then |s.outcomes| == 1 && Stands(s.outcomes[0], wire[k]) else s.outcomes == [])
            && Client.Delivered(s) == Routed(wire[..Heard(wire, requestId)], requestId)
  {
    var n := FirstEventIs(wire, requestId);
    if FirstEnd(wire, requestId) < |wire| { EndsIsTerminal(wire[FirstEnd(wire, requestId)], requestId); }
    SettlesWithFirstTerminal(client, n);
    assert wire[..|wire|] == wire;
  }

  /** The server answers a frame under the id with an error: a refused request, a busy connection, a rejected message. */
  predicate Refuses(s: Server.State, a: Server.Action, requestId: string) {
    match a
    case ByReader(RecvOther(r, failed)) => s.reader == Server.Idle && failed && r == requestId
    case ByReader(RecvSend(r, minted)) => s.reader == Server.Idle && minted != "" && s.current.Some? && r == requestId
    case ByReader(Reject) => s.reader.Accepting? && s.reader.requestId == requestId
    case _ => false
  }

  /** The turn's own terminal frame goes out. */
  predicate EndsTurn(s: Server.State, a: Server.Action, t: Server.TurnId) {
    match a
    case ByReader(EmitCancelled) => s.reader == Server.Stopped(t) && t < |s.turns|
    case ByTurn(u, ta) => u == t && t < |s.turns| && Server.Sent(s.turns[t], ta).Some? && Terminal(EventOf(Server.Sent(s.turns[t], ta).value))
    case _ => false
  }

  predicate EndsNow(before: seq<Server.Action>, a: Server.Action, t: Server.TurnId) { EndsTurn(Server.Run(before), a, t) }

  /** The turn has sent a terminal frame of its own. */
  ghost predicate Ended(server: seq<Server.Action>, t: Server.TurnId) { Ever(server, (h, a) => EndsNow(h, a, t)) }

  /** The server answers a frame under the id with an error before the turn has sent a terminal frame of its own. */
  ghost predicate RefusedFirst(server: seq<Server.Action>, t: Server.TurnId, requestId: string) {
    Ever(server, (h, a) => Refuses(Server.Run(h), a, requestId) && !Ended(h, t))
  }

  lemma OutputRefuses(s: Server.State, a: Server.Action, requestId: string)
    ensures Refuses(s, a, requestId) <==> Server.Output(s, a) == Some(Server.Reply(requestId, true))
  {}

  lemma OutputEnds(s: Server.State, a: Server.Action, t: Server.TurnId)
    ensures EndsTurn(s, a, t) <==> Server.Output(s, a).Some? && OwnEnds(Server.Output(s, a).value, t)
  {}

  lemma FirstEndNext(wire: seq<Server.Frame>, f: Server.Frame, requestId: string)
    ensures FirstEnd(wire + [f], requestId) ==
            if FirstEnd(wire, requestId) < |wire| then FirstEnd(wire, requestId) else if Ends(f, requestId) then |wire| else |wire| + 1
  {
    assert (wire + [f])[..|wire|] == wire;
  }

  lemma FirstOwnEndNext(wire: seq<Server.Frame>, f: Server.Frame, t: Server.TurnId)
    ensures FirstOwnEnd(wire + [f], t) ==
            if FirstOwnEnd(wire, t) < |wire| then FirstOwnEnd(wire, t) else if OwnEnds(f, t) then |wire| else |wire| + 1
  {
    assert (wire + [f])[..|wire|] == wire;
  }

  lemma {:induction false} EndedIsOnWire(server: seq<Server.Action>, t: Server.TurnId)
    ensures var wire := Server.Run(server).wire; Ended(server, t) <==> FirstOwnEnd(wire, t) < |wire|
  {
    if |server| > 0 {
      var init, a := server[..|server| - 1], server[|server| - 1];
      var s := Server.Run(init);
      EndedIsOnWire(init, t);
      EverNext(server, (h, b) => EndsNow(h, b, t));
      OutputEnds(s, a, t);
      Server.WireIs(s, a);
      if Server.Output(s, a).Some? { FirstOwnEndNext(s.wire, Server.Output(s, a).value, t); }
    }
  }

  /** A terminal frame under the id is the turn's own, or an error reply. */
  lemma EndsIsOwnOrRefusal(wire: seq<Server.Frame>, t: Server.TurnId, requestId: string, f: Server.Frame)
    requires Owns(wire, t, requestId) && f in wire
    ensures Ends(f, requestId) <==> OwnEnds(f, t) || f == Server.Reply(requestId, true)
  {}

  lemma OwnsBefore(wire: seq<Server.Frame>, f: Server.Frame, t: Server.TurnId, requestId: string)
    requires Owns(wire + [f], t, requestId)
    ensures Owns(wire, t, requestId) && (Ends(f, requestId) <==> OwnEnds(f, t) || f == Server.Reply(requestId, true))
  {
    EndsIsOwnOrRefusal(wire + [f], t, requestId, f);
    assert forall g | g in wire :: g in wire + [f];
  }

  /** One more frame on the wire, and which of the two came first. */
  lemma SettlesNext(wire: seq<Server.Frame>, f: Server.Frame, t: Server.TurnId, requestId: string)
    requires Owns(wire + [f], t, requestId) && FirstEnd(wire, requestId) <= FirstOwnEnd(wire, t)
    ensures FirstEnd(wire + [f], requestId) <= FirstOwnEnd(wire + [f], t)
    ensures FirstEnd(wire + [f], requestId) == FirstOwnEnd(wire + [f], t) <==>
            && FirstEnd(wire, requestId) == FirstOwnEnd(wire, t)
            && !(f == Server.Reply(requestId, true) && FirstOwnEnd(wire, t) == |wire|)
  {
    OwnsBefore(wire, f, t, requestId);
    FirstEndNext(wire, f, requestId);
    FirstOwnEndNext(wire, f, t);
  }

  lemma RefusedFirstNext(server: seq<Server.Action>, t: Server.TurnId, requestId: string)
    requires |server| > 0
    ensures var init, a := server[..|server| - 1], server[|server| - 1];
            RefusedFirst(server, t, requestId) <==>
            RefusedFirst(init, t, requestId) || (Refuses(Server.Run(init), a, requestId) && !Ended(init, t))
  {
    EverNext(server, (h, a) => Refuses(Server.Run(h), a, requestId) && !Ended(h, t));
  }

  /**
   The frame that settles a client is its turn's own first terminal frame exactly when the
   server never answered a frame under the request id with an error before that one went out.
   */
  lemma {:induction false} OwnFrameSettles(server: seq<Server.Action>, t: Server.TurnId, requestId: string)
    requires Owns(Server.Run(server).wire, t, requestId)
    ensures var wire := Server.Run(server).wire;
            && FirstEnd(wire, requestId) <= FirstOwnEnd(wire, t)
            && (FirstEnd(wire, requestId) == FirstOwnEnd(wire, t) <==> !RefusedFirst(server, t, requestId))
  {
    if |server| > 0 {
      var init, a := server[..|server| - 1], server[|server| - 1];
      var s := Server.Run(init);
      Server.WireIs(s, a);
      if Server.Output(s, a).Some? { OwnsBefore(s.wire, Server.Output(s, a).value, t, requestId); }
      OwnFrameSettles(init, t, requestId);
      EndedIsOnWire(init, t);
      OutputRefuses(s, a, requestId);
      RefusedFirstNext(server, t, requestId);
      if Server.Output(s, a).Some? { SettlesNext(s.wire, Server.Output(s, a).value, t, requestId); }
    }
  }

  /** The first frame that ends the turn in a sequence of kinds. */
  function FirstTerminalKind(kinds: seq<Server.Kind>): Option<Server.Kind> {
    if |kinds| == 0 then None
    else
      var before, last := FirstTerminalKind(kinds[..|kinds| - 1]), kinds[|kinds| - 1];
      if before.Some? then before else if EndsTurnAt(last) then Some(last) else None
  }

  lemma FirstTerminalNext(kinds: seq<Server.Kind>, k: Server.Kind)
    ensures FirstTerminalKind(kinds + [k]) ==
            if FirstTerminalKind(kinds).Some? then FirstTerminalKind(kinds) else if EndsTurnAt(k) then Some(k) else None
  {
    assert (kinds + [k])[..|kinds|] == kinds;
  }

  predicate SameFirst(wire: seq<Server.Frame>, t: Server.TurnId) {
    var k := FirstOwnEnd(wire, t);
    FirstTerminalKind(Server.Kinds(wire, t)) == if k < |wire| then Some(wire[k].kind) else None
  }

  lemma SameFirstNext(wire: seq<Server.Frame>, f: Server.Frame, t: Server.TurnId)
    requires SameFirst(wire, t)
    ensures SameFirst(wire + [f], t)
  {
    Server.KindsNext(wire, f, t);
    FirstOwnEndNext(wire, f, t);
    if f.OfTurn? && f.turn == t { FirstTerminalNext(Server.Kinds(wire, t), f.kind); }
  }

  lemma {:induction false} FirstOwnKind(wire: seq<Server.Frame>, t: Server.TurnId)
    ensures SameFirst(wire, t)
  {
    if |wire| > 0 {
      var init, last := wire[..|wire| - 1], wire[|wire| - 1];
      FirstOwnKind(init, t);
      SameFirstNext(init, last, t);
      assert init + [last] == wire;
    }
  }

  lemma {:induction false} NoTerminalKind(kinds: seq<Server.Kind>)
    requires forall i | 0 <= i < |kinds| :: kinds[i] == Server.Ack || kinds[i] == Server.Stream
    ensures FirstTerminalKind(kinds) == None
  {
    if |kinds| > 0 { NoTerminalKind(kinds[..|kinds| - 1]); }
  }

  /** After the ack and the stream frames, the first frame of the ending ends the turn. */
  lemma FirstOfTrace(n: nat, ending: seq<Server.Kind>)
    requires ending == [Server.Failed] || ending == [Server.Response] || ending == [Server.OtpFailed, Server.Response]
    ensures FirstTerminalKind([Server.Ack] + Server.Streams(n) + ending) == Some(ending[0])
  {
    var base := [Server.Ack] + Server.Streams(n);
    NoTerminalKind(base);
    FirstOfEnding(base, ending);
  }

  lemma {:induction false} FirstOfEnding(base: seq<Server.Kind>, ending: seq<Server.Kind>)
    requires FirstTerminalKind(base) == None && |ending| > 0 && EndsTurnAt(ending[0])
    ensures FirstTerminalKind(base + ending) == Some(ending[0])
  {
    var init, last := ending[..|ending| - 1], ending[|ending| - 1];
    if |init| == 0 { assert base + init == base; } else { FirstOfEnding(base, init); }
    FirstTerminalNext(base + init, last);
    assert base + ending == (base + init) + [last];
  }

  /** The first frame of its own that ends an uncancelled turn that ran to its end. */
  lemma FinishedTurn(server: seq<Server.Action>, t: Server.TurnId)
    requires t < |Server.Run(server).turns|
    requires Server.Run(server).turns[t].phase in Server.Finished && !Server.Run(server).turns[t].aborted
    ensures var wire := Server.Run(server).wire;
            FirstOwnEnd(wire, t) < |wire| && wire[FirstOwnEnd(wire, t)].kind == Answers.EndingOf(server, t)[0]
  {
    var n := Answers.WholeTrace(server, t);
    FirstOfTrace(n, Answers.EndingOf(server, t));
    FirstOwnKind(Server.Run(server).wire, t);
  }

  /**
   A turn that ran to its end uncancelled settles its client once: as completed exactly when
   its run succeeded, no verification code failed to go out for it, and the server refused
   nothing under its id first; else as rejected.
   */
  lemma CompletedEndToEnd(server: seq<Server.Action>, t: Server.TurnId, requestId: string, client: seq<Client.Action>)
    requires t < |Server.Run(server).turns|
    requires Server.Run(server).turns[t].phase in Server.Finished && !Server.Run(server).turns[t].aborted
    requires Owns(Server.Run(server).wire, t, requestId) && Fed(client, Server.Run(server).wire, requestId)
    ensures var succeeded := Answers.RunSucceeded(server, t) && !Answers.DeliveryFailed(server, t) && !RefusedFirst(server, t, requestId);
            Client.Run(client).outcomes == [if succeeded then Completed else Rejected]
  {
    var wire := Server.Run(server).wire;
    TurnEndToEnd(server, t, requestId, client);
    OwnFrameSettles(server, t, requestId);
    FinishedTurn(server, t);
    Answers.AnswersWhatRunReturned(server, t);
    if FirstEnd(wire, requestId) < FirstOwnEnd(wire, t) { EarlierIsRefusal(wire, t, requestId); }
  }

  /** The turn's `cancelled` is on the wire, and nothing before it ends the turn. */
  ghost predicate StoppedFirst(wire: seq<Server.Frame>, t: Server.TurnId, requestId: string) {
    exists k :: 0 <= k < |wire| && wire[k] == Server.OfTurn(t, requestId, Server.Cancelled) && forall i | 0 <= i < k :: !Ends(wire[i], requestId)
  }

  lemma StoppedIsFirst(wire: seq<Server.Frame>, t: Server.TurnId, requestId: string)
    requires Owns(wire, t, requestId)
    ensures var k := FirstEnd(wire, requestId);
            StoppedFirst(wire, t, requestId) <==> k < |wire| && wire[k].OfTurn? && wire[k].kind == Server.Cancelled
  {
    var k := FirstEnd(wire, requestId);
    if k < |wire| { assert wire[k] in wire; }
    if StoppedFirst(wire, t, requestId) {
      var i :| 0 <= i < |wire| && wire[i] == Server.OfTurn(t, requestId, Server.Cancelled) && forall j | 0 <= j < i :: !Ends(wire[j], requestId);
      assert Ends(wire[i], requestId) && k == i;
    }
  }

  /** A client is told of a user stop exactly when its turn's `cancelled` came before anything else that ends it. */
  lemma StoppedEndToEnd(server: seq<Server.Action>, t: Server.TurnId, requestId: string, client: seq<Client.Action>)
    requires Owns(Server.Run(server).wire, t, requestId) && Fed(client, Server.Run(server).wire, requestId)
    ensures Client.Run(client).outcomes == [UserStopped] <==> StoppedFirst(Server.Run(server).wire, t, requestId)
  {
    TurnEndToEnd(server, t, requestId, client);
    StoppedIsFirst(Server.Run(server).wire, t, requestId);
  }

  /** What settles a turn before its own first terminal frame is an error reply. */
  lemma EarlierIsRefusal(wire: seq<Server.Frame>, t: Server.TurnId, requestId: string)
    requires Owns(wire, t, requestId) && FirstEnd(wire, requestId) < FirstOwnEnd(wire, t)
    ensures wire[FirstEnd(wire, requestId)] == Server.Reply(requestId, true)
  {
    var k := FirstEnd(wire, requestId);
    assert wire[k] in wire && Ends(wire[k], requestId);
  }

  // ---------------------------------------------------------------- such client runs exist

  predicate Open(s: Client.State) {
    && s.push == Client.Idle && !s.panicked && s.buffer == [] && s.sendMu == Client.Free && s.threads == []
    && s.sender == Client.Registered(false) && s.inTable && s.winner.None? && !s.settled && !s.closed && !s.eventsClosed
  }

  predicate Shut(s: Client.State) {
    s.push == Client.Idle && !s.panicked && s.sender == Client.Registered(false) && !s.inTable
  }

  lemma Extend(acts: seq<Client.Action>, a: Client.Action) returns (next: seq<Client.Action>)
    requires NoSettle(acts) && !a.Settle? && !a.Withdraw?
    ensures NoSettle(next) && Client.Run(next) == Client.Apply(Client.Run(acts), a)
  {
    next := Client.Then(acts, a);
  }

  /** An event goes all the way onto the channel. */
  lemma Deliver(acts: seq<Client.Action>, ev: Event) returns (next: seq<Client.Action>)
    requires NoSettle(acts) && Open(Client.Run(acts))
    ensures NoSettle(next)
    ensures var s := Client.Run(acts);
            Client.Run(next) == s.(arrived := s.arrived + [ev], buffer := [ev], sendMu := Client.Pusher, push := Client.Sent(ev))
  {
    next := Extend(acts, Client.Arrive(ev));
    next := Extend(next, Client.PushStep(true));
    next := Extend(next, Client.PushStep(true));
    var locked := Client.Run(next);
    assert locked.push == Client.Holding(ev);
    next := Extend(next, Client.PushStep(true));
    next := Extend(next, Client.PushStep(true));
    HoldingToSent(locked, ev);
  }

  lemma HoldingToSent(s: Client.State, ev: Event)
    requires s.push == Client.Holding(ev) && s.buffer == [] && !s.panicked && !s.closed && !s.eventsClosed
    ensures Client.Apply(Client.Apply(s, Client.PushStep(true)), Client.PushStep(true)) == s.(push := Client.Sent(ev), buffer := [ev])
  {}

  lemma FeedNote(acts: seq<Client.Action>, ev: Event) returns (next: seq<Client.Action>)
    requires NoSettle(acts) && Open(Client.Run(acts)) && !Terminal(ev)
    ensures NoSettle(next) && Open(Client.Run(next)) && Client.Run(next).arrived == Client.Run(acts).arrived + [ev]
  {
    next := Deliver(acts, ev);
    next := Extend(next, Client.PushStep(true));
    next := Extend(next, Client.Receive);
  }

  /** The push of a terminal event finishes the turn and goes. */
  lemma FinishUp(acts: seq<Client.Action>, outcome: Outcome) returns (next: seq<Client.Action>)
    requires NoSettle(acts)
    requires var s := Client.Run(acts);
             && !s.panicked && s.sendMu == Client.Free && s.threads == [Client.Enter(outcome)] && s.push == Client.Finishing(0)
             && s.sender == Client.Registered(false) && s.winner.None? && !s.settled && !s.closed && !s.eventsClosed
    ensures NoSettle(next) && Shut(Client.Run(next)) && Client.Run(next).arrived == Client.Run(acts).arrived
  {
    next := WonIt(acts, outcome);
    next := Extend(next, Client.FinishStep(0));
    next := Extend(next, Client.FinishStep(0));
    next := Extend(next, Client.FinishStep(0));
    assert Client.Run(next).threads == [Client.Over];
    next := Extend(next, Client.PushStep(true));
  }

  lemma WonIt(acts: seq<Client.Action>, outcome: Outcome) returns (next: seq<Client.Action>)
    requires NoSettle(acts)
    requires var s := Client.Run(acts);
             && !s.panicked && s.sendMu == Client.Free && s.threads == [Client.Enter(outcome)] && s.winner.None? && !s.settled
    ensures NoSettle(next)
    ensures var s := Client.Run(acts);
            Client.Run(next) == s.(winner := Some(0), outcomes := s.outcomes + [outcome], inTable := false, settled := true, threads := [Client.WantLock])
  {
    next := Extend(acts, Client.FinishStep(0));
    var won := Client.Run(next);
    assert won.threads == [Client.Won];
    next := Extend(next, Client.FinishStep(0));
    next := Extend(next, Client.FinishStep(0));
    WonToWaiting(won);
  }

  lemma WonToWaiting(s: Client.State)
    requires !s.panicked && s.threads == [Client.Won] && s.winner.Some? && !s.settled
    ensures Client.Apply(Client.Apply(s, Client.FinishStep(0)), Client.FinishStep(0)) ==
            s.(inTable := false, settled := true, threads := [Client.WantLock])
  {
    assert Client.Apply(s, Client.FinishStep(0)).threads == [Client.Detached];
  }

  lemma FeedTerminal(acts: seq<Client.Action>, ev: Event) returns (next: seq<Client.Action>)
    requires NoSettle(acts) && Open(Client.Run(acts)) && Terminal(ev)
    ensures NoSettle(next) && Shut(Client.Run(next)) && Client.Run(next).arrived == Client.Run(acts).arrived + [ev]
  {
    next := Deliver(acts, ev);
    next := Extend(next, Client.PushStep(true));
    assert Client.Run(next).threads == [Client.Enter(OutcomeOf(ev))];
    next := FinishUp(next, OutcomeOf(ev));
  }

  /** The client has taken in the events and waits for more. */
  ghost predicate TookIn(acts: seq<Client.Action>, events: seq<Event>) {
    NoSettle(acts) && Client.Run(acts).arrived == events && (Open(Client.Run(acts)) || Shut(Client.Run(acts)))
  }

  lemma FeedAny(acts: seq<Client.Action>, events: seq<Event>, ev: Event) returns (next: seq<Client.Action>)
    requires TookIn(acts, events)
    ensures TookIn(next, events + [ev])
  {
    if Shut(Client.Run(acts)) {
      next := Extend(acts, Client.Arrive(ev));
    } else if Terminal(ev) {
      next := FeedTerminal(acts, ev);
    } else {
      next := FeedNote(acts, ev);
    }
  }

  lemma FeedNothing() returns (client: seq<Client.Action>)
    ensures TookIn(client, [])
  {
    client := Extend([], Client.Register);
  }

  /** Whatever is routed, some run of the client takes it in. */
  lemma {:induction false} ClientFollows(events: seq<Event>) returns (client: seq<Client.Action>)
    ensures TookIn(client, events)
  {
    if events == [] {
      client := FeedNothing();
    } else {
      var init, last := events[..|events| - 1], events[|events| - 1];
      client := ClientFollows(init);
      client := FeedAny(client, init, last);
      assert events == init + [last];
    }
  }

  /**
   A reply that refuses a second confirmation, say, carries the turn's own request id: the
   client gives the turn up as rejected while the server is still running it.
   */
  lemma ErrorReplySettles() returns (server: seq<Server.Action>, client: seq<Client.Action>)
    ensures Server.Run(server).current == Some(0) && |Server.Run(server).turns| == 1 && Server.Run(server).turns[0].phase == Server.Running
    ensures Server.Run(server).wire == [Server.OfTurn(0, "r", Server.Ack), Server.Reply("r", true)]
    ensures Fed(client, Server.Run(server).wire, "r") && Client.Run(client).outcomes == [Rejected]
  {
    var streaming := Server.TurnStreaming();
    server := Server.Extend(streaming, Server.ByReader(Server.RecvOther("r", true)));
    var wire := Server.Run(server).wire;
    assert wire == [Server.OfTurn(0, "r", Server.Ack), Server.Reply("r", true)];
    client := ClientFollows(Routed(wire, "r"));
    TurnEndToEnd(server, 0, "r", client);
    assert Ends(wire[1], "r") && !Ends(wire[0], "r");
  }
}
