# Verified model of the smooth-operator protocol core

This project models the parts of smooth-operator that hold its state machines: a server
connection that streams one cancellable turn at a time, the client turn at the other end, the
registries in which a turn parks while a person decides, the in-memory session store with its
visibility rules, the two kinds of paging, and a few smaller cores with loops of their own
(the backplane, the workflow step machine, the interaction validators, the Python schema
merger). `dafny verify dfyconfig.toml` checks all of it.

How it is laid out:

- **Turns.** `ServerTurn` is one connection's reader, slot, gate and turn goroutines, as a
  total step function run over arbitrary action sequences, so a theorem about a run is about
  every interleaving. `TurnAnswers` reads a turn's whole trace off what happened in the run;
  `ServerCancel` says when `cancelled` is the last frame. `ClientTurn` and
  `DotnetTurn` are the two client turns, proved against the one `TurnContract`; `EndToEnd`
  feeds server traces to the Go client; `ClientTables` is the client's correlation tables and
  `ConnectionLoop` the outbound sink with its writer and teardown.
- **Parks.** `Confirmations` and `Interactions` each hold a registry class, proved against
  functions on its state, and the runs of gates and raises against the read loop. `SubmitRuns`
  follows one submit through such a run, with anything else in between its steps;
  `RaiseOutcomes` says what each raise hears in the end.
- **Store.** `SessionStore` is the in-memory store as a class and as functions, with the
  properties of every history of operations. `Visibility` puts the dispatcher's scoped lookup
  on top and compares stores that look alike; `Noninterference` compares a history with the
  same one without what others did out of sight. `ConversationPaging` and `MessagePaging` are the two list handlers
  and what a client sees that pages while others write. `Base64Url`, `Rfc3339` and
  `CursorCodec` are the cursor's wire form (section 5 of RFC 4648, section 5.6 of RFC 3339).
- **Smaller cores.** `Backplane`, `Workflow` (over `Orbits`), `Choices`, `IdentityIntake`
  (section 6 of ITU-T E.164) and `SchemaMerge`.
- `Basics`, `Text`, `History` (what ever happened in a run) and `Work` (steps left to a pool of
  threads) hold what they share.

Conventions. Freshly minted ids, clock readings, the engine's events, the judge's reply and a
kind's validator are arguments. A Go channel is a bounded buffer; a send that could block is a
step that is not enabled, or a precondition its callers discharge; sending on a closed channel
is modelled as the panic it is. Goroutines interleave at lock and channel operations.

## Where the code differs from what is said about it

- The trace of a turn. `turnSink` (go/server/dispatcher.go:945-950) checks the context and
  then sends, in two steps. A cancel that lands between them lets a frame out after
  `cancelled`: `ServerTurn.CancelBetweenCheckAndSend` is such a run. The exact condition, in
  the state in which `cancelled` is about to be sent, is that no goroutine of the turn holds a
  frame past the gate's check: `ServerCancel.CancelIsFinal` for one `cancelled`,
  `ServerCancel.CleanExactly` for a whole run. Passing the gate in one step is enough
  (`ServerTurn.AtomicTrace`), everything that is not late is well formed in every run
  (`ServerTurn.EveryTraceInTime`), and a client never notices (`EndToEnd.TurnEndToEnd`).
- One terminal frame. When a verification code cannot be delivered, `offerOtp` sends an error
  frame and the eventual_response still follows (go/server/dispatcher.go:1223-1226, 1047).
  `ServerTurn.OtpFailureSettlesTwice` is that run, `ServerTurn.SettlesOnceUnlessOtpFails` and
  `TurnAnswers.WholeTrace` the exact condition; the client keeps the error (`EndToEnd.CompletedEndToEnd`).
- Replies under a turn's request id. A confirmation or a submit must carry the request id of
  the turn it resumes, and its reply carries it back, so the client reads it as an event of
  that turn. An error reply, such as the one to a second click
  (go/server/dispatcher.go:1072-1075), settles the client's turn as rejected while the server
  runs on: `EndToEnd.ErrorReplySettles`. `EndToEnd.OwnFrameSettles` is the exact condition.
- A valid submit is not always answered. The handler peeks at the park, validates, and only
  then resolves; the two resolves (go/server/dispatcher.go:1158, 1192) have no else branch. If
  a newer raise, a `Clear` or the teardown ends the session's park in between, the visitor gets
  no reply at all: `SubmitRuns.SilentSubmit` is such a run, and `SubmitRuns.ValidResumes` says
  that nothing else can silence it.
- The client's table. The turn's timer is armed before `SendMessage` registers the turn
  (go/protocol/turn.go:102-104, go/protocol/client.go:236-249). If it fires in between, the
  settled turn stays in the table until its send fails or the client closes: `ClientTurn.TimerBeatsRegistration`,
  with the exact condition in `ClientTurn.RestIsSettled`; the .NET client has the same order
  (`DotnetTurn.RestIsSettled`).
- The zero scope. The comment at go/server/session_store.go:81-83 says the zero value denies
  everything. It allows exactly the rows with neither an owner nor an organization
  (`SessionStore.ZeroScopeAllows`).
- Cursors. A conversation key whose id is empty, or whose year is not in 0000-9999, does not
  survive its own encoding (`CursorCodec.RoundTrip`).
- Workflows. A `next` link that points backwards can keep a conversation from ever reaching a
  terminal step (`Workflow.BackwardLinkNeverEnds`); a workflow that can end at all ends within
  n - 1 yes verdicts (`Workflow.EndsSoonOrNever`).

## Model

| member | source | states |
|---|---|---|
| ServerTurn.EveryTraceInTime | go/server/dispatcher.go:764-1049 | in every interleaving, once the frames that follow their own turn's `cancelled` are set aside, each turn's frames are one ack, stream frames, an ending, then at most one `cancelled`, under one request id, and turns do not overlap |
| ServerTurn.TraceExact | go/server/dispatcher.go:764-1049 | a late frame is the only way a trace can break: the whole wire is well formed if and only if no frame of a turn is sent after its `cancelled` |
| ServerCancel.CancelIsFinal | go/server/dispatcher.go:185-196 | when `cancelled` is about to be sent, it will be its turn's last frame in every continuation if and only if no goroutine of the turn holds a frame past the gate's check |
| ServerCancel.CleanExactly | go/server/dispatcher.go:937-950 | a run's trace is, and with no further `cancelled` stays, well formed if and only if each `cancelled` was sent while its turn held no frame past the gate's check |
| ServerTurn.AtomicTrace | go/server/dispatcher.go:937-950 | with the gate passed in one step, every interleaving gives such a trace |
| ServerTurn.OneTurnAtWork | go/server/dispatcher.go:159-167 | in every interleaving, two uncancelled turns of one connection are never both at work; a cancelled turn may still be unwinding while the next one runs |
| ServerTurn.SettlesOnceUnlessOtpFails | go/server/dispatcher.go:1002-1048 | in every interleaving, a turn that ran to its end uncancelled sent one terminal frame, two if a verification code was not delivered, and no `cancelled` |
| ServerTurn.CancelBetweenCheckAndSend | go/server/dispatcher.go:945-950 | a run in which a stream frame follows `cancelled` |
| ServerTurn.OtpFailureSettlesTwice | go/server/dispatcher.go:1222-1226 | a run in which an error frame is followed by an eventual_response |
| ServerTurn.ScanSound | go/server/dispatcher.go:764-1049 | what the automaton used in the proofs accepts is, up to the first `cancelled`, in the turn grammar |
| ServerTurn.ScanComplete | go/server/dispatcher.go:764-1049 | the automaton accepts whatever is in the turn grammar up to its first `cancelled` |
| TurnAnswers.AnswersWhatRunReturned | go/server/dispatcher.go:1003-1048 | in every interleaving, a turn that ran to its end uncancelled sent eventual_response if and only if its Run returned without an error, and INTERNAL_ERROR if and only if Run failed |
| TurnAnswers.OtpFailedExactly | go/server/dispatcher.go:1209-1229 | a turn counts as having failed to deliver a code if and only if a delivery of its own failed in that run |
| TurnAnswers.WholeTrace | go/server/dispatcher.go:764-1049 | the whole trace of such a turn: one ack, stream frames, then what happened to it, which is INTERNAL_ERROR, eventual_response, or the error of an undelivered code and eventual_response |
| TurnAnswers.AnswersUnderItsId | go/server/dispatcher.go:764-783 | the turn acknowledged for a send_message carries the frame's own request id, or the minted one if it had none, on its ack and on every frame it ever sends |
| TurnAnswers.ToldIffAsked | go/server/dispatcher.go:170-196 | once the reader is through, a turn's client has been sent `cancelled` if and only if a cancel frame took the turn out of the slot; a disconnect tells nobody |
| TurnAnswers.EndedLeavesTheSlot | go/server/dispatcher.go:159-167 | in every run a turn that has ended is not in the slot, so the next message is taken |
| TurnAnswers.WorkKeepsTheSlot | go/server/dispatcher.go:771-778 | an uncancelled turn at work is in the slot whenever the reader takes a frame, so a cancel finds it and another message is refused |
| TurnAnswers.TurnRunsOut | go/server/dispatcher.go:1003-1049 | past Run a turn's goroutine always has a step, and each brings it closer to its end |
| ClientTurn.KeepsContract | go/protocol/turn.go:172-264 | in every interleaving of push, timer, abort and consumer: a prefix of the events is delivered, at most one terminal and last; one outcome at most, which is completed, rejected, undecodable or user-stopped exactly by what the last delivered event is, or else what the timer or an abort asked for; no send on a closed channel, no double close |
| ClientTurn.SettlesForGood | go/protocol/turn.go:235-264 | a recorded outcome is never replaced and a closed channel gets nothing more |
| ClientTurn.NoPanicAhead | go/protocol/turn.go:182-264 | nobody is ever about to send on the closed channel, or to close a channel a second time |
| ClientTurn.RestHeardAll | go/protocol/turn.go:182-227 | at rest a turn without an outcome has delivered all that arrived, none of it terminal |
| ClientTurn.SelectTakesEither | go/protocol/turn.go:199-207 | with room on the channel an event is sent, but for a settled turn the select may as well give up |
| ClientTurn.NoWedge | go/protocol/turn.go:182-264 | a goroutine inside the turn can always step, unless an unsettled push waits for the consumer of a full buffer |
| ClientTurn.WorkShrinks | go/protocol/turn.go:182-264 | every step inside the turn brings it closer to rest |
| ClientTurn.RestIsSettled | go/protocol/client.go:234-258 | at rest a settled turn has both channels closed, and is still in the client's table exactly when it was registered after its own finish had looked for it there, and not withdrawn since |
| ClientTurn.TimerBeatsRegistration | go/protocol/turn.go:92-105 | a run in which the timer settles the turn before it is registered, and the entry stays |
| DotnetTurn.KeepsContract | dotnet/src/SmoothAgentClient.cs:163-235 | the .NET turn keeps the same contract, every outcome tied to the last event delivered or to the timer or abort that asked for it, and its Cancelled flag is set exactly for a user stop |
| DotnetTurn.SettlesForGood | dotnet/src/SmoothAgentClient.cs:206-233 | a recorded outcome is never replaced and a completed channel gets nothing more |
| DotnetTurn.RestHeardAll | dotnet/src/SmoothAgentClient.cs:163-235 | at rest a turn without an outcome has delivered all that arrived, none of it terminal |
| DotnetTurn.ArriveIsTaken | dotnet/src/SmoothAgentClient.cs:533-554 | a registered turn is handed every event that decodes, and no other |
| DotnetTurn.NoWedge | dotnet/src/SmoothAgentClient.cs:163-233 | a thread inside the turn can always take a step that brings it closer to rest |
| DotnetTurn.RestIsSettled | dotnet/src/SmoothAgentClient.cs:370-403 | at rest a settled turn has one outcome and a completed channel, and is still in the table exactly when it was registered too late, and not withdrawn since |
| EndToEnd.TurnEndToEnd | go/protocol/client.go:432-462 | any server run, late frames included, fed to the client: it settles with the first frame under the request id that ends the turn, replies counted, as completed for eventual_response, user-stopped for `cancelled`, rejected for an error; it delivers that and what came before, nothing after, and of the turn's own frames a well-shaped sequence |
| EndToEnd.OwnFrameSettles | go/server/dispatcher.go:1061-1085 | in every server run, the frame that settles is the turn's own first terminal frame if and only if the server refused nothing under its request id, by a refused message, a busy connection or any other error reply, before that frame went out |
| EndToEnd.ErrorReplySettles | go/server/dispatcher.go:1072-1075 | a run in which a refused confirmation makes the client give up a turn the server is still running |
| EndToEnd.ClientFollows | go/protocol/turn.go:182-264 | whatever is routed, a run of the client takes it in without timer or abort |
| EndToEnd.CompletedEndToEnd | go/protocol/turn.go:209-227 | in every server run, a turn that ended uncancelled settles its client once: as completed if and only if its Run succeeded, no code delivery failed and the server refused nothing under its id first, else as rejected |
| EndToEnd.StoppedEndToEnd | go/protocol/turn.go:219-224 | in every server run, a client is told of a user stop if and only if its turn's `cancelled` came before anything else that ends the turn |
| EndToEnd.SettlesWithFirstTerminal | go/protocol/turn.go:182-227 | without timer or abort, deliveries stop at the first terminal event that arrived, and the outcome is the one that event stands for |
| ClientTables.OneValueEach | go/protocol/client.go:380-497 | a request is sent at most one value over its two channels, so no such send blocks |
| ClientTables.NoBlockAhead | go/protocol/client.go:432-497 | whoever is about to send a request its value finds the channel empty |
| ClientTables.NothingAfterFailAll | go/protocol/client.go:476-497 | after failAll the client stays closed and both tables stay empty |
| ClientTables.EveryTurnSettled | go/protocol/client.go:234-258 | when failAll and SendMessage are through, every turn ever created is settled |
| ClientTables.EveryCallerAnswered | go/protocol/client.go:380-411 | after failAll and the router are through, a caller still waiting has its value |
| ConnectionLoop.SinkClosedSafely | go/server/server.go:403-417 | the sink is closed at most once, never sent to afterwards, and only when no turn goroutine is live |
| ConnectionLoop.NothingSentAfterClose | go/server/server.go:349-356 | the sink's history is final once it is closed |
| ConnectionLoop.NoPanicAhead | go/server/server.go:345-417 | nobody is ever about to send on the closed sink, and the teardown never about to close it again |
| ConnectionLoop.FramesAccountedFor | go/server/server.go:345-356 | every frame `send` was called with is sent, let go or on its way, exactly as often as it was called |
| ConnectionLoop.StartsExactly | go/server/server.go:427-473 | turns start from the read loop until teardown begins, engines within a turn that has not ended |
| ConnectionLoop.EndsExactly | go/server/dispatcher.go:937-1003 | a turn goroutine ends only outside `send`, and if not cancelled only after all of its engine |
| ConnectionLoop.CancelsExactly | go/server/dispatcher.go:167-178 | only a turn goroutine that has not ended can be cancelled |
| ConnectionLoop.ContextEndsWithTeardown | go/server/server.go:403-417 | the connection's own context ends exactly when the teardown has returned |
| ConnectionLoop.DrainedBeforeSocketCloses | go/server/server.go:320-344 | before the socket closes the writer has consumed everything sent, in order; no frame from a turn goroutine was let go, nor one from the engine of an uncancelled turn; a live socket has written all that can be encoded |
| ConnectionLoop.BlockedSenderIsServed | go/server/server.go:320-356 | a sender blocked with the lock held gets through after at most two writer steps, dead socket or not |
| Confirmations.ConfirmationRegistry.Register | go/server/confirmation.go:41-57 | a fresh empty channel is parked; a displaced one is sent a refusal; no other channel changes |
| Confirmations.ConfirmationRegistry.Resolve | go/server/confirmation.go:62-72 | takes the session's park out and puts the verdict on its channel, which never blocks; reports whether there was one; no other channel changes |
| Confirmations.ConfirmationRegistry.RejectAll | go/server/confirmation.go:87-97 | every pending channel holds a refusal, no other channel changes, nothing is pending |
| Confirmations.ConfirmationRegistry.Clear | go/server/confirmation.go:77-82 | the session's park is dropped unanswered |
| Confirmations.PendingChannelsEmpty | go/server/confirmation.go:41-97 | over every run each pending channel is empty and belongs to one session |
| Confirmations.DisplacedIsRefused | go/server/confirmation.go:41-57 | a displaced channel carries only a refusal and its gate never approves |
| Confirmations.ApprovalsAreConfirmed | go/server/turn_runner.go:293-317 | approvals map one to one into confirm_tool_action frames with approved true, for the gate's session, with nothing in between that ends its park |
| Confirmations.VerdictReachesItsGate | go/server/turn_runner.go:307-317 | whatever ends the park of a waiting gate, and whatever happens next, the gate when it listens approves if that was a confirmation with approved true, and denies if it was any other confirmation, a newer park or the teardown |
| Confirmations.GateParks | go/server/turn_runner.go:297-303 | a gate parks as its session's pending one, waiting on a channel of its own |
| Confirmations.CancelledGateDenies | go/server/turn_runner.go:313-316 | a gate whose context is cancelled first denies |
| Interactions.InteractionRegistry.Register | go/server/interaction.go:205-219 | a fresh empty channel is parked with its id, kind and spec; a displaced one is sent no response; no other channel changes |
| Interactions.InteractionRegistry.Peek | go/server/interaction.go:223-228 | the session's park, left in place |
| Interactions.InteractionRegistry.Resolve | go/server/interaction.go:234-246 | takes out the session's park if it has that id and puts the outcome on its channel, which never blocks; else nothing changes |
| Interactions.InteractionRegistry.RejectAll | go/server/interaction.go:258-268 | every pending channel holds no response, no other channel changes, nothing is pending |
| Interactions.ResumesWithItsOwnAnswer | go/server/dispatcher.go:1116-1202 | a raise that resumes as submitted received what its validator accepted against its own spec, from a frame naming it; no frame answers two raises, whatever registers between peek and resolve |
| Interactions.OneOutcomeEach | go/server/turn_runner.go:837-866 | each raise is sent at most one outcome, and a parked raise's channel is empty |
| Interactions.HandleSubmit | go/server/dispatcher.go:1116-1202 | peek, validate and resolve on the registry itself do, undisturbed, what the handler's steps do in the runs; which frame gets which reply; and a submit that is not acknowledged changes nothing |
| SubmitRuns.InvalidLeavesPark | go/server/dispatcher.go:1116-1202 | a refused submit leaves no trace: whatever else happens while it is handled, the registry, its channels and every raise are those of the same run without it |
| SubmitRuns.ValidResumes | go/server/dispatcher.go:1116-1202 | whatever happens between peek, validation and resolve, an acceptable submit is acknowledged and its raise answered with the validated values if and only if nothing in between ended the session's park; else there is no reply, and all is as without the submit |
| SubmitRuns.DeclineResumes | go/server/dispatcher.go:1157-1166 | the same for a decline: acknowledged and the raise answered as declined if and only if its park was not ended in between |
| SubmitRuns.SilentSubmit | go/server/dispatcher.go:1192-1202 | a run in which a valid submit gets no reply |
| RaiseOutcomes.SubmitReachesItsRaise | go/server/turn_runner.go:837-866 | an accepted submit whose park stands until the resolve makes its raise, whenever it listens, resume with the validated values |
| RaiseOutcomes.DeclineReachesItsRaise | go/server/turn_runner.go:837-866 | a declined one makes it resume as declined |
| RaiseOutcomes.EndReachesItsRaise | go/server/interaction.go:205-268 | a raise displaced by a newer one or by the teardown resumes with no response; one cleared hears nothing |
| RaiseOutcomes.RaiseParks | go/server/turn_runner.go:837-866 | a raise parks as its session's pending one under its id, kind and spec, waiting |
| RaiseOutcomes.GiveUpEnds | go/server/turn_runner.go:837-866 | a raise that gives up has given up |
| SessionStore.InMemorySessionStore.ResumeSession | go/server/session_store.go:283-336 | resumes a known and visible conversation, else opens a fresh one owned by the caller; the whole new state and each field of the session made |
| SessionStore.InMemorySessionStore.GetSession | go/server/session_store.go:339-350 | the session with its conversation's capabilities read through |
| SessionStore.InMemorySessionStore.AppendMessage | go/server/session_store.go:353-366 | the log grows by one message and its stamp is new |
| SessionStore.InMemorySessionStore.NextStamp | go/server/session_store.go:374-381 | strictly later than the last stamp and every stamp up to it, and not before the clock |
| SessionStore.InMemorySessionStore.ListConversations | go/server/session_store.go:387-416 | one summary per visible conversation that has a message, each once, with its stamp, its message count and the text of its first inbound message |
| SessionStore.InMemorySessionStore.ListMessages | go/server/session_store.go:419-430 | the end of the log, as long as the limit allows, oldest first |
| SessionStore.InMemorySessionStore.SetConversationSupports | go/server/session_store.go:458-472 | replaces the capabilities, clears them on an empty list, ignores an unknown conversation |
| SessionStore.InMemorySessionStore.AttachSessionContact | go/server/session_store.go:475-493 | sets the fields given that are not blank and leaves every other field and session alone |
| SessionStore.InMemorySessionStore.SetSessionAuthenticated | go/server/session_store.go:443-452 | sets the flag of that session and nothing else |
| SessionStore.InMemorySessionStore.SetCurrentStep | go/server/session_store.go:432-441 | sets the step of that session and nothing else |
| SessionStore.FirstInboundExact | go/server/session_store.go:387-416 | the text shown is that of the inbound message with no inbound one before it, empty if there is none |
| SessionStore.OwnershipNeverMoves | go/server/session_store.go:283-336 | after any operations a conversation has the owner and org it was created with, and so does every session of it |
| SessionStore.CreatorIsAllowed | go/server/session_store.go:116-137 | whoever creates or resumes a conversation may read it and the session made |
| SessionStore.CreatorKeepsAccess | go/server/session_store.go:116-137 | and still may after any further operations |
| SessionStore.ZeroScopeAllows | go/server/session_store.go:116-137 | the zero scope allows exactly rows without owner and org |
| SessionStore.AllowsExactly | go/server/session_store.go:116-137 | a scope that is not unscoped allows a row exactly when a recorded org is letter for letter, but for case, its own, and the row has no owner or the owner is letter for letter, but for case, its email |
| SessionStore.OnlyItsOwnerSees | go/server/session_store.go:116-137 | from the empty store, after any operations, a conversation a principal opened is visible to another scope only if that is unscoped, or within the org and, if the principal has an email, under that email |
| SessionStore.LoadReportsLastDeclared | go/server/session_store.go:339-350 | any load reports the last declaration for the session's conversation, an empty list included |
| SessionStore.ResumeReportsLastDeclared | go/server/session_store.go:320-327 | and so does a resume |
| SessionStore.ApplyKeepsInv | go/server/session_store.go:283-493 | no operation rewrites an owner, an org, a session's conversation or a past message; stamps stay distinct |
| Visibility.ScopedSession | go/server/dispatcher.go:318-328 | a session exactly if the id is known and the scope allows its owner; a hidden and an unknown id give the same nothing |
| Visibility.HandleCreateSession | go/server/dispatcher.go:344-398 | refuses a blank agent id; else resumes or creates, and stores the capabilities a frame declares |
| Visibility.HandleSession | go/server/dispatcher.go:401-420 | a hidden or unknown session gets not found and changes nothing; otherwise what each request answers and changes, field by field |
| Visibility.OnlyTheVisibleMatters | go/server/session_store.go:116-137 | two stores that agree on what a scope allows answer every sequence of its requests alike and still agree |
| Visibility.OnlyItsOwnerReaches | go/server/dispatcher.go:318-328 | so it is for every session of such a conversation, by the scoped lookup |
| Visibility.HiddenIsUnknown | go/server/session_store.go:294-308 | resuming a hidden conversation and an unknown one give the same answer and the same store |
| Noninterference.OthersLeaveNoTrace | go/server/dispatcher.go:306-328 | in any history, what others do to shared conversations included, erasing what they did to whatever the scope hid at the time changes nothing the principal is told, from a store with less in it too |
| Noninterference.HiddenIsNotShown | go/server/session_store.go:116-137 | what is erased is exactly what others do to conversations and sessions the scope does not see |
| Noninterference.ErasingChangesNothing | go/server/session_store.go:116-137 | the same on one server, from any state on |
| ConversationPaging.HandleListConversations | go/server/dispatcher.go:541-614 | refuses exactly undecodable cursors; else every row is a visible non-empty conversation after the cursor in whose first inbound text the trimmed query stands, case aside, newest first, and every such conversation is on the page or after its last row; a cursor made from that row exactly when more remain |
| ConversationPaging.SearchExactly | go/server/dispatcher.go:437-507 | a query finds a row when it stands, case aside, in a name that is neither blank nor the placeholder, or in the first inbound text |
| ConversationPaging.SortNewestFirst | go/server/dispatcher.go:512-520 | exactly the given rows, newest first, ties by id descending byte by byte |
| ConversationPaging.Scan | go/server/dispatcher.go:576-594 | the keyset scan that stops one row past the page finds the page and whether more remain |
| ConversationPaging.BeforeIsAnOrder | go/server/dispatcher.go:463-465 | the row order is irreflexive, transitive and total up to equal keys |
| ConversationPaging.CursorNamesItsRow | go/server/dispatcher.go:463-490 | the cursor on the wire reads back as the position of its row |
| ConversationPaging.WireIsMemory | go/server/dispatcher.go:546-554 | paging with the cursor strings of earlier replies is paging with the positions they name |
| ConversationPaging.NeverTwice | go/server/dispatcher.go:541-614 | whatever happens between pages, no conversation is returned twice |
| ConversationPaging.UntouchedExactlyOnce | go/server/dispatcher.go:541-614 | a visible matching conversation left alone is returned exactly once, as it was, by the last page |
| ConversationPaging.PagingTerminates | go/server/dispatcher.go:541-614 | the rows beyond the cursor bound the rows and pages still to come, however much is written |
| ConversationPaging.BeyondNeverGrows | go/server/session_store.go:374-381 | no operation puts a row beyond a cursor |
| ConversationPaging.WholePagingTerminates | go/server/dispatcher.go:541-614 | from the first page: at most one page more than there were conversations |
| ConversationPaging.QuietPagesConcatenate | go/server/dispatcher.go:576-594 | with no writes the pages are the sorted filtered list |
| ConversationPaging.LimitsDoNotMatter | go/server/dispatcher.go:541-545 | with no writes, runs with different limits return the same sequence |
| Base64Url.DecodeEncoded | go/server/dispatcher.go:468-479 | unpadded base64url decodes to what was encoded |
| Base64Url.LineBreaksSkipped | go/server/dispatcher.go:477-480 | line breaks anywhere in a cursor make no difference to what it decodes to |
| Base64Url.GroupOfThree | go/server/dispatcher.go:468-471 | three bytes and their four sextets are one 24-bit number |
| Base64Url.LastGroup | go/server/dispatcher.go:468-471 | one or two bytes at the end become two or three sextets with zero bits |
| Base64Url.AlphabetInOrder | go/server/dispatcher.go:468-471 | the URL-safe alphabet by character code |
| Rfc3339.ParseFormat | go/server/dispatcher.go:468-487 | a timestamp reads back from its text exactly in the years 0000-9999, dropped trailing zeros included |
| Rfc3339.YearStartExact | go/server/dispatcher.go:468-471 | the days before a year by the Gregorian count |
| Rfc3339.ParseWithOffset | go/server/dispatcher.go:473-490 | a timestamp with an offset reads back as its own reading less the offset |
| Rfc3339.TrimZeros | go/server/dispatcher.go:468-471 | the fraction written has no trailing zero and only zeros are dropped from its end |
| Rfc3339.FractionRoundTrip | go/server/dispatcher.go:468-487 | a trimmed fraction reads back as the nanoseconds it was written from |
| CursorCodec.RoundTrip | go/server/dispatcher.go:468-490 | a key survives the wire if and only if its id is not empty and its year has four digits, whatever bytes the id holds |
| CursorCodec.EncodeIsInjective | go/server/dispatcher.go:468-471 | no two such keys share a cursor |
| MessagePaging.HandleGetConversationMessages | go/server/dispatcher.go:638-707 | the page of the full log newest first, whether it fetched limit + 1 rows or everything; unknown cursor and session errors |
| MessagePaging.FirstFetch | go/server/dispatcher.go:661-668 | one row past the page decides the same page and the same hasMore as the full log |
| MessagePaging.PagesAreTheLog | go/server/dispatcher.go:653-707 | while messages arrive, the pages are exactly the reverse of the log at the first page |
| MessagePaging.CursorKeepsItsPlace | go/server/dispatcher.go:681-696 | a cursor marks the same older messages however the log grows |
| MessagePaging.ForeignCursor | go/server/dispatcher.go:681-696 | a cursor is refused exactly when no message has that id |
| Backplane.InMemoryBackplane.Attach | go/server/backplane.go:72-77 | the sink is registered and reachable under the connection's own id |
| Backplane.InMemoryBackplane.Associate | go/server/backplane.go:80-84 | one pair is added and the indexes stay inverses |
| Backplane.InMemoryBackplane.Publish | go/server/backplane.go:87-103 | calls the sink of each attached connection of the target once and counts them |
| Backplane.InMemoryBackplane.Detach | go/server/backplane.go:106-118 | the sink and every pair of the connection are gone, and the indexes stay inverses without empty entries |
| Backplane.InMemoryBackplane.IsAttached | go/server/backplane.go:134-139 | whether the connection has a sink now |
| Backplane.AttachedIsReachable | go/server/backplane.go:72-77 | an attached connection is reached under its own id, after any operations |
| Backplane.ReachedIsHistory | go/server/backplane.go:72-130 | a publish reaches exactly the connections attached and associated since they last detached |
| Backplane.DetachErases | go/server/backplane.go:106-118 | after a detach the registry is that of a history without the connection |
| Workflow.ValidWorkflow | go/server/workflow.go:277-308 | accepts exactly the workflows within the bounds and with distinct step ids |
| Workflow.WellFormedExactly | go/server/workflow.go:277-308 | the bounds in numbers of bytes and steps |
| Workflow.TurnMoves | go/server/workflow.go:462-473 | only a yes moves the conversation, to the successor; a terminal step stays |
| Workflow.StoredIsReal | go/server/dispatcher.go:1023-1025 | the stored step is empty or names a real step |
| Workflow.PositionIsIterate | go/server/workflow.go:313-352 | after k yes verdicts the position is the k-th iterate of the successor |
| Workflow.ForwardReachesTheEnd | go/server/workflow.go:330-352 | with forward links, n - 1 yes verdicts reach the terminal last step |
| Workflow.EndsSoonOrNever | go/server/workflow.go:330-352 | with any links, a workflow that can end does so within n - 1 yes verdicts |
| Workflow.BackwardLinkNeverEnds | go/server/workflow.go:330-352 | a well-formed workflow that never ends |
| Workflow.VerdictIsSaid | go/server/workflow_judge.go:123-145 | a reply is read as yes, no or maybe exactly when its verdict field says so, or has none of the three and the first standalone verdict word says so |
| Workflow.StandsExactly | go/server/workflow_judge.go:123-145 | a word stands alone exactly when neither neighbour is a digit, a letter or an underscore |
| Workflow.JudgeExactly | go/server/workflow_judge.go:75-117 | a verdict is given exactly when there is a client, a step, a reply to judge and a judge's reply that says it |
| Workflow.SilentJudgeStays | go/server/workflow_judge.go:75-117 | a judge that cannot run, fails or says nothing moves nothing |
| Choices.ValidateChoices | go/server/choices.go:99-168 | accepts exactly when every question has a legal answer, returning one per question in order; else reports every problem of every question and nothing else |
| Choices.AnsweredIsNothingWrong | go/server/choices.go:136-162 | an answer is legal exactly when none of the reported problems applies |
| Choices.AcceptedAnswersEachQuestion | go/server/choices.go:133-167 | the result holds a legal answer to each question, in the order asked |
| Choices.AcceptedExactly | go/server/choices.go:99-168 | in terms of what was submitted: accepted exactly when the first answer under each question's header picks something, only what is offered or an own text, and one thing unless several are allowed; that answer, trimmed and without blank labels, comes out |
| Choices.AcceptedIsCanonical | go/server/choices.go:99-168 | an accepted result is accepted again unchanged |
| IdentityIntake.ValidateIntake | go/server/identity_intake.go:74-120 | accepts exactly when required fields are there and email and phone are well formed; else reports every problem and nothing else |
| IdentityIntake.RequiredExactly | go/server/identity_intake.go:90-97 | a required field is there when the value it names is not blank, and no value goes by any other name |
| Text.TrimExact | go/server/identity_intake.go:90-108 | trimming drops the white space at both ends and nothing else |
| IdentityIntake.EmailExact | go/server/identity_intake.go:126-146 | accepts exactly the local@dotted.domain shape; keeps the local part, lowers the domain |
| IdentityIntake.NormalizePhone | go/server/identity_intake.go:151-180 | accepts exactly the texts that write an E.164 number, in full or as a North American number, and returns that number |
| IdentityIntake.AcceptedPhone | go/server/identity_intake.go:151-180 | an accepted phone is a plus sign and 8 to 15 digits, the first not zero |
| IdentityIntake.StripExact | go/server/identity_intake.go:151-180 | spaces, hyphens, dots and parentheses are dropped, every other character kept in place |
| IdentityIntake.E164Exactly | go/server/identity_intake.go:151-180 | the numbers that pass, by character codes |
| IdentityIntake.AcceptedIsCanonical | go/server/identity_intake.go:74-120 | an accepted result is accepted again unchanged |
| SchemaMerge.BuildMergedSchema | python/scripts/generate.py:85-139 | fails exactly when some file cannot be read as a schema; otherwise the first definition of each title, over all files in order, is the one emitted |
| SchemaMerge.ReadExactly | python/scripts/generate.py:88-132 | what is read off a file: its title, the members of its definitions in order with their titles, whether its top object is written, and that object without "$defs", "$schema" and "$id" |
| SchemaMerge.FalsyExactly | python/scripts/generate.py:91-93 | what counts as no title and no definitions: null, false, an empty text, list or object, and a number with nothing but zeros before its exponent |
| SchemaMerge.CandidatesOf | python/scripts/generate.py:96-132 | a file offers its definitions in order, each without definitions of its own, then its top object if that is written |
| SchemaMerge.CandidatesInOrder | python/scripts/generate.py:85-139 | files are gone through in order |
| SchemaMerge.FirstWins | python/scripts/generate.py:96-132 | each title is there exactly when a definition has it, as the first one wrote it |
| SchemaMerge.MergedIsClosed | python/scripts/generate.py:58-139 | when every file refers to its own definitions, every reference of the merged document names a key whose definition has that title |
| SchemaMerge.MergeIsFaithful | python/scripts/generate.py:58-139 | unfolding any merged definition to any depth matches its source up to the title, if and only if same-titled definitions unfold equally in their own files |

## Left out

- The engine, model calls, embeddings, telemetry and tools: the engine is an arbitrary event source that emits nothing after its stream closes; the judge's reply is an argument.
- The fast-model preamble, the extension host and panicking turns: off by default or outside the gate, and they change the trace of a turn.
- The Postgres and knowledge stores, token verification, admin routes, settings, connectors, generated types and frame builders, the console and deployment files.
- Termination of teardown, and that every park is eventually answered: an overlapping turn's Clear, or a park made after RejectAll, breaks them.
- ServerTurn.TraceExact: frames outside turns are kept only as replies with a request id that are errors or not; validation order inside handleSendMessage is one rejecting step.
- ClientTables.EveryTurnSettled: a turn's own settling is one step here and is opened up in ClientTurn; request ids are assumed fresh.
- EndToEnd.TurnEndToEnd: the client's timer, its close and a failed send are not part of the composed runs; ClientTurn has them.
- DotnetTurn.KeepsContract: a frame the .NET client cannot decode is dropped before it reaches a turn; the consumer's enumerator is not part of this model.
- Confirmations.ApprovalsAreConfirmed: Go channels are buffers behind handles; the registry's methods are one step each, as under the mutex.
- Noninterference.OthersLeaveNoTrace: minted ids are fresh, others' clock readings on a resume or an append are later than the store's last stamp, and appends are to known conversations; requests of the others are their store operations.
- Interactions.ResumesWithItsOwnAnswer: specs and values are opaque text and a kind's validator is any total function; raise ids are assumed fresh; values that are not JSON count as refused by the validator; the host effect of a submit is not modelled.
- SessionStore.ZeroScopeAllows: emails and organizations are compared, and the judge's words read, with ASCII case folding; Go folds Unicode.
- SessionStore.InMemorySessionStore.ResumeSession: the constant agent name is not stored.
- Visibility.OnlyTheVisibleMatters: turns are represented by their appends and session updates; the backplane association made by the scoped lookup is left to Backplane.
- ConversationPaging.HandleListConversations: titles and previews are not built, and the in-memory store has no conversation names; lower-casing is an argument, and the paging theorems hold of any search; ids are byte strings, one char a byte; Go's sort is an insertion sort here.
- CursorCodec.RoundTrip: decoding reads the strict RFC 3339 forms, offsets included; the further spellings that Go's general time parser lets through are rejected here.
- Rfc3339.ParseFormat: instants are integers counting nanoseconds from the start of year 0 and are unbounded.
- MessagePaging.PagesAreTheLog: message ids are assumed minted, not empty and not repeated.
- Backplane.InMemoryBackplane.Publish: sinks are identities and the calls a sequence; that they run outside the lock is not modelled.
- Workflow.ValidWorkflow: decoding the workflow's JSON is not modelled.
- Choices.ValidateChoices: error messages are kinds of problem; parsing the raised questions is left out as per-branch checks.
- IdentityIntake.EmailExact: lower-casing is any character function that is idempotent and moves no dot, '@' or white space; that Go's is one is taken for granted.
- SchemaMerge.BuildMergedSchema: file reading and code generation are left out; Python's text form of a title that is not text is an argument.
