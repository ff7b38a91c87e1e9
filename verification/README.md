# A verified model of the two-phase commit of checks

An endpoint tells its pollers which checks to run by preparing and then committing them. This project models the
processes taking part in that exchange, the connections it runs over, and the arithmetic of two measurements, and
proves what they guarantee together. `dafny verify dfyconfig.toml` checks everything.

## What is modelled

**The two-phase commit.** Five pieces, each first on its own and then joined:

- `ChecksPreparations`: the preparation a poller accumulates from a manifest and blocks of definitions.
- `Sessions`: the poller's session with its one active preparation, the message that started it, the
  prepare-to-end timer, supersession, abort and commit. `SessionTraffic` runs it against arbitrary requests;
  `SessionHistory` tells what it holds, and what it has to answer, from the requests and replies alone.
- `Agents`: the endpoint's agent, which allocates versions and message ids, transmits a preparation in blocks, and
  commits on `prepared`. It is run against an arbitrary stream of responses; `AgentHistory` tells what it waits for and
  believes from the messages sent and seen alone.
- `Schedulers`: a zone's scheduler, which reconciles a preparation into its live checks, with every check ever
  scheduled, every cancellation and the gauge of scheduled checks (`Gauges`) on its books. `SchedulerRuns` follows
  it over whole runs of reconciles and resets.
- `Transmissions`: what one transmission carries and what a poller makes of it.

`TwoPhaseCommit` joins an agent, two FIFO channels, a session and the schedulers of any number of zones. A run is any
interleaving of: the agent transmits, the agent reads, the session reads, the timer fires, its tick is read, a
scheduler reconciles. The verdict of the schedulers' validation is arbitrary at every prepare. One goroutine of the
agent writes to the poller, so appending a whole transmission in one step loses no behaviour; the poller may read it
frame by frame. Likewise the reply to a commit and the hand-over to the schedulers' queues are one step, although the
session first stages the reply (poller/session.go:443-444): the frame handling goroutine does nothing between them,
and a session between the two still has something under way. Bundles are those an agent can form: checks it has built
itself, so that a poller can build them too. `Outcomes` and `Resolution` build on the same runs. In `Reloads` everything transmitted
comes from reading the endpoint's check files, and the verdict of the validation is the schedulers' own.

**Around it.** `Correlation`: how a session matches incoming responses to the requests it sent.
`ConnectionStreams`: the table of registered connections, host loops and coordinator as a concurrent protocol, and
the choice of a connection for metrics. `Timestamps`: clock offset and latency. `PingChecks` and `Pingers`:
collecting and summing up ping responses, and the payload they are recognised by. `Integers`: Go's division, which
truncates toward zero.

Objects whose methods change their fields are classes here too, and each method is proved against a function or
relation of the state before it: `Sessions.HandleFrame`, `Agents.PrepareChecks`, `Agents.Receive`,
`Schedulers.Reconciled`, `Correlation.Step`, and so on. The theorems are about these. What the session keeps as one
object is split by concern into `EleSession` (preparations), `RequestTracker` (requests and completions) and
`HeartbeatMeasurement`.

A place where the Go code would dereference nil or wait for ever is not excluded by a precondition but is an outcome of
its own: `Fault` in the session, `None` from `Agents.Classify`, `Crashes` for a preparation being reconciled,
`ReadingCrashes` for check files; what stays out is listed at the end.

## What came out

Proved: the two sides agree whenever nothing is under way; everything committed had been found valid and answered
`prepared` in exactly that state, although a commit never looks at the `prepared` flag; versions are committed in
increasing order; no message or timer that is missing is ever used; nothing stays half done; the last transmission
wins unless something timed out or was rejected. What each side holds and answers is told by what passed between them.

Where the code and its documentation or evident intention differ, the model follows the code:

- No check read from changed files ever runs (`Reloads.LaterChecksNeverRun`). Every reading of the files gives every
  check a new id (endpoint/agent.go:210-211), ids that are not committed yet are put on the restart list
  (endpoint/agent.go:296-302), and a restart of a check that does not exist is rejected (poller/scheduler.go:196-200).
  What is accepted after the first reading is exactly one that yields no check (`Reloads.ReloadAcceptedIffEmpty`), and
  that removes every check. `Transmissions.ReloadAcceptedIffNothingNew` says when a reload is accepted for arbitrary
  ids, and `Transmissions.ExchangedReloadAccepted` that exchanging the lists would repair it. A reload before the
  first commit crashes on the missing set of committed ids.
- A definition without details passes validation and then crashes the poller: building a check of a known type, and
  logging the refusal of an unknown one, both dereference them. `Schedulers.ReceivedCrashesIff` says exactly which
  manifests and definitions lead there, `TwoPhaseCommit.SchedulersNeverCrash` that an agent never sends any. The endpoint
  itself crashes on such a check file, and on one that holds the JSON null (`Reloads.CheckLoader.LoadChecks`).
- `newestCommittedVersion` is compared but never assigned (poller/session.go:324). Alone, a session asked to does
  commit version 3 after version 5 (`SessionTraffic.OrderCanRegress`). It keeps the order exactly if every prepare it
  begins is newer than all it handed over before (`SessionTraffic.OrderKeptIff`), as an agent's are; with the
  assignment it always would (`SessionTraffic.RepairedOrder`, a labelled repair).
- A commit is not held against validation either: alone, a session hands over an incomplete preparation exactly if the
  commit comes while the prepare-to-end timer is still there and definitions are missing or undeclared
  (`SessionTraffic.InvalidHandOverIff`); the `prepared` flag may be left over from the preparation before (`SessionTraffic.FlagOutlivesItsPreparation`).
- A prepare of the version already active replaces it without any answer to the first
  (`SessionTraffic.DroppedSilentlyIff`). Agents never send one.
- Arbitrary traffic can make a session use a missing message or timer or wait on a spent timer
  (`SessionTraffic.EveryFaultHappens`); `SessionTraffic.FaultsExactly` says exactly which frames do.
- A check to be replaced by one that cannot be built is cancelled and yet stays in the table
  (`SchedulerRuns.ReconcileBalance`).
- The gauge of scheduled checks does not always show the entries. `SchedulerRuns.ReconcileDrift` gives, per check type
  and in all, by how much each reconcile shifts it: a new check that cannot be built, a restart of a check that is not
  there, a start or restart that changes the type (`SchedulerRuns.GaugePerTypeCanDrift`). A reset shifts it by every
  check it takes away. `SchedulerRuns.RunDrift` adds these up over any run.
- docs/two-phase-commits-of-checks.md leaves room for routing subsets of a preparation to zones; the code gives
  every scheduler all of it.
- Responses of the poller are noted as if they awaited completion (poller/session.go:606-611, 622-623), so one
  bearing the id of an outstanding request hides it (`Correlation.ReplyHidesRequest`).
- A deregistration is not compared with the connection in the table. It takes out only its own exactly if the
  addresses are distinct (`ConnectionStreams.DeregistersItselfIff`); with any address listed twice it can throw out a
  live connection and reset the schedulers (`ConnectionStreams.DuplicateAddressBreaks`).
- `ChooseBest` is documented to return nothing only when there is no connection (poller/connection_stream.go:432);
  it also does when none has been measured, and the metrics are then lost without being reported as dropped
  (`ConnectionStreams.SendMetrics`).
- The latency is the round-trip delay of section 8 of RFC 5905 only if the server's two time stamps are equal, as
  the session always makes them; the sign of their difference is wrong (`Timestamps.LatencyIsDelayIff`).
- A ping's identifier is read back but, against the comment at check/pinger.go:354, not checked
  (`Pingers.IdentifierIsNotChecked`).

## Model

| member | source | states |
|---|---|---|
| ChecksPreparations.DeclareAllAt | poller/checks_preparation.go:84-104 | After any manifest, an id has an entry iff some line names it, and the last such line alone decides its action and whether it counts as populated. |
| ChecksPreparations.DeclaredAsLastSaid | poller/checks_preparation.go:90-103 | Until it is defined, an entry carries the type, entity and zone of the last line for its id, and no details. |
| ChecksPreparations.DefineAllAt | poller/checks_preparation.go:158-181 | After any definitions, actions are as declared, a declared id is populated by its last definition, and an undeclared one stays of unknown action however often it is sent. |
| ChecksPreparations.ReceivedIsFlat | poller/checks_preparation.go:158-181 | How definitions were cut into blocks leaves no trace in the preparation. |
| ChecksPreparations.ValidationIsExact | poller/checks_preparation.go:183-201 | For every manifest with known actions and all blocks: validation for a version succeeds iff it is the declared version, only declared ids were defined, and every id whose last action is start or restart was. |
| ChecksPreparations.UndeclaredPoisons | poller/checks_preparation.go:159-169 | One undeclared definition makes validation fail for good, whatever follows. |
| ChecksPreparations.VerdictIgnoresOrder | poller/checks_preparation.go:158-201 | The verdict depends only on which ids were defined, not on order, repetition or block boundaries. |
| ChecksPreparations.ChecksPreparation.NewChecksPreparation | poller/checks_preparation.go:77-110 | Null exactly for a manifest with an unknown action, otherwise a fresh object with the declared entries. |
| ChecksPreparations.ChecksPreparation.AddDefinitionBlock | poller/checks_preparation.go:158-181 | The loop adds precisely the block's definitions to what was there. |
| ChecksPreparations.ChecksPreparation.Validate | poller/checks_preparation.go:183-201 | Reports an error iff the preparation is not valid for the version, and each of the three errors only for a fault of that kind that is really there. |
| ChecksPreparations.ChecksPreparation.GetActionableChecks | poller/checks_preparation.go:138-144 | Yields every entry once, in an order left open. |
| Sessions.FrameHandsOrHolds | poller/session.go:320-445 | For any frame in any state: only a commit of the active version hands anything over, it hands over the active preparation, and what is active afterwards was so before or comes from an accepted prepare. |
| Sessions.EleSession.constructor | poller/session.go:105-126 | A session starts with no preparation, message or timer and with newest committed version 0. |
| Sessions.EleSession.HandlePollerPrepare | poller/session.go:320-364 | Ignoring, superseding, failing and accepting a prepare, with all replies, the timer, and what is left when the superseding one fails. |
| Sessions.EleSession.HandlePollerPrepareBlock | poller/session.go:366-383 | Blocks of other versions change nothing; others are added and restart the timer, with a fault if it is missing or was read or stopped. |
| Sessions.EleSession.HandlePollerPrepareNullBlock | poller/checks_preparation.go:158-160 | A block with a JSON null stops the session there, if its version is the active one; otherwise it is ignored unread. |
| Sessions.EleSession.HandlePollerPrepareEnd | poller/session.go:385-433 | Abort, unknown directive, nothing active, invalid and valid end, each with its reply, to the message that started the preparation where the code answers that one. |
| Sessions.EleSession.HandlePollerCommit | poller/session.go:435-445 | Hands the active object itself to the reconciler and clears if the version is its own, else answers `ignored`; objects handed over earlier are untouched. |
| Sessions.EleSession.HandlePrepareTimeout | poller/session.go:264-268 | Fails the active preparation towards its source and clears. |
| Sessions.EleSession.HandleRequest | poller/session.go:273-304 | The dispatch over the preparation messages computes the session's step function. |
| Sessions.EleSession.ClearDetails | poller/session.go:675-683 | Everything about the preparation is forgotten and the timer is gone. |
| Sessions.EleSession.RespondToSource | poller/session.go:511-527 | Answers under the id of the message that started the preparation; without one it faults. |
| SessionTraffic.RunShaped | poller/session.go:320-445 | In every run until a fault, message and preparation come together, a timer or the `prepared` flag only with them, and the message is the prepare of the active version. |
| SessionTraffic.FaultsExactly | poller/session.go:366-433 | In every run, exactly the frames listed by `Stops` make the session use a nil message, timer or definition or block, and reading the timer never does. |
| SessionTraffic.EveryFaultHappens | poller/session.go:366-433 | Each kind of fault can be provoked by some traffic. |
| SessionTraffic.OrderCanRegress | poller/session.go:324-328 | Since the newest committed version is never assigned, some traffic makes the session commit an older version after a newer one. |
| SessionTraffic.NextBreaksIff | poller/session.go:435-445 | In every run in order so far, some next frame breaks the order iff a preparation is active that is not newer than everything handed over. |
| SessionTraffic.OrderKeptIff | poller/session.go:324-363 | For all traffic: commits are in order and cannot be brought out of order by a next frame, at any moment, iff every prepare begun was newer than everything handed over when it was read. |
| SessionTraffic.RepairedOrder | poller/session.go:685-688 | Repair: were the version noted on commit, committed versions would increase under every traffic. |
| SessionTraffic.HandedWasAccepted | poller/session.go:353-363 | In every run, whatever is handed over or active had a prepare with known actions that the reconciler's validation accepted. |
| SessionTraffic.HandedIsWellFormed | poller/checks_preparation.go:158-181 | In every run, whatever is handed over, valid or not, has its entries under their own ids or is undeclared: all that reconciling relies on. |
| SessionTraffic.SettledIsValid | poller/session.go:409-417 | In every run, a preparation whose timer is gone passed validation and has not changed since. |
| SessionTraffic.InvalidHandOverIff | poller/session.go:435-445 | In every run, a frame hands over a preparation that does not validate iff it commits the active version while its timer is there and the definitions are incomplete. |
| SessionTraffic.FlagOutlivesItsPreparation | poller/session.go:336-363 | Such a hand-over can happen with the `prepared` flag set, left from the preparation that was replaced. |
| SessionTraffic.SupersededIsAnswered | poller/session.go:330-345 | In every run, a newer prepare first answers `ignored` to the source of the one it supersedes; an older one changes nothing. |
| SessionTraffic.DroppedSilentlyIff | poller/session.go:336-363 | In every run, the starting message is given up without answer or commit iff another prepare of the same version takes its place. |
| SessionHistory.SessionFollowsLog | poller/session.go:320-445 | In every run without a fault, the session holds exactly the preparation that requests and replies say is under way: its message, all blocks since, and a timer until its end is answered. |
| SessionHistory.PreparedIff | poller/session.go:403-432 | In every run, `prepared` is answered iff a `prepare` end comes for the version under way, all that arrived validates and it was not answered before; as the sole reply, under the source's id. |
| SessionHistory.PrepareIsAnswered | poller/session.go:324-363 | In every run, a prepare is ignored if older, and leaves everything; becomes active with a running timer if accepted; and else gets `failed` as its last reply while what was under way stays. |
| SessionHistory.AnswerToPrepare | poller/session.go:330-363 | All replies to a prepare in their order, the superseded source first, and the whole state afterwards, the stopped timer included. |
| SessionHistory.AnswerToBlock | poller/session.go:366-383 | A block is never answered; one for the version under way is added and starts the timer anew, any other changes nothing. |
| SessionHistory.AbortLeavesNothing | poller/session.go:388-395 | In every run, after an abort the session is as new, with `aborted` as the one reply, under the source's id. |
| SessionHistory.FailedEndChangesNothing | poller/session.go:397-413 | In every run, an end with an unknown directive, or one that fails, is answered `failed` and changes neither preparation nor timer. |
| SessionHistory.TimeoutIsAnswered | poller/session.go:264-268 | In every run, a tick read fails the version under way, towards its source, and leaves the session as new. |
| SessionHistory.CommitIsAnswered | poller/session.go:435-445 | In every run, a commit of the version under way is answered `committed`, hands over all that arrived and leaves the session as new; any other is ignored. |
| SessionHistory.NothingWithoutPrepare | poller/session.go:675-683 | In every run, when nothing is under way, as after an abort, time-out or commit, nothing is handed over before another prepare is accepted. |
| Agents.BlocksAreACutting | endpoint/agent.go:362-383 | For all checks and block sizes, blocks concatenate to the checks in order, none is empty or too long, and only the last may be short. |
| Agents.CuttingIsUnique | endpoint/agent.go:362-383 | Only one way of cutting has these properties, so they determine what is sent. |
| Agents.AgentRobust | endpoint/agent.go:130-176 | Against any responses: ids and versions stay within their counters, no version is prepared or committed twice, a commit follows a `prepared` reply to its own prepare, and there is one pending entry per version, for something really sent. |
| AgentHistory.PendingIsExact | endpoint/agent.go:130-176 | Whatever responses arrive, exactly those messages are pending whose answer is awaited, and the committed ids are those sent under the version whose commit was last answered. |
| AgentHistory.CommitSentIff | endpoint/agent.go:400-416 | In every run, a commit is sent iff `prepared` comes for an awaited prepare, with its version and the next id. |
| AgentHistory.RepeatChangesNothing | endpoint/agent.go:136-144 | In every run, a response just read changes and sends nothing when it comes again. |
| AgentHistory.SettledForGood | endpoint/agent.go:429-441 | In every run, once a response has settled an entry no response under its id ever has an effect again, whatever happens in between; any other response leaves the agent as it was. |
| AgentHistory.ManifestBearsIds | endpoint/agent.go:317-345 | Each line of the manifest names its check with its own type, entity and zone, starts first. |
| Agents.ClassifyPartitions | endpoint/agent.go:291-306 | Classification crashes iff there is something to classify and nothing was ever committed; otherwise it loses and invents nothing, with committed ids on the start list and others on the restart list. |
| Agents.EndpointAgent.AllocateMsgId | endpoint/agent.go:456-458 | Ids count up from 1. |
| Agents.EndpointAgent.BuildManifest | endpoint/agent.go:329-345 | The manifest lists starts then restarts, and the ids are those of all checks in that order. |
| Agents.EndpointAgent.SendBlocks | endpoint/agent.go:362-383 | The loop sends exactly the blocks of the cutting, under consecutive ids. |
| Agents.EndpointAgent.PrepareAndSend | endpoint/agent.go:327-389 | New version, pending entry under the prepare's id, then prepare, blocks and end, all as `PrepareChecks` says. |
| Agents.EndpointAgent.HandleResponse | endpoint/agent.go:130-176 | Every response, unknown ids and undecodable results included, has the effect given by `Receive` (endpoint/agent.go:400-442). |
| Agents.EndpointAgent.HandleUnclassified | endpoint/agent.go:290-308 | A reload either crashes, exactly when classification does, or prepares the two lists it yields. |
| Transmissions.RoundTrip | endpoint/agent.go:327-389 | For all lists and block sizes, what is sent is accepted as a manifest, reassembles to the complete preparation, and validates. |
| Transmissions.FinalEntry | poller/checks_preparation.go:158-181 | Every entry of the complete preparation is to be initiated and holds the last definition sent for its id. |
| Transmissions.ReconcileFinal | poller/scheduler.go:212-289 | Reconciling a complete, buildable preparation yields exactly the definitions sent, whatever ran before. |
| Transmissions.FinalCrashesIff | check/unmarshal.go:42-64 | Reconciling a complete preparation crashes iff a definition that counts has no details. |
| Transmissions.ReloadAcceptedIffNothingNew | endpoint/agent.go:295-303 | With schedulers running what is committed, a classified reload is accepted iff it brings no new id. |
| Transmissions.ExchangedReloadAccepted | endpoint/agent.go:296-302 | Repair: with the two lists exchanged every reload would be accepted. |
| Reloads.CheckIdsDiffer | endpoint/agent.go:210-211 | The formatted check id determines its number, beyond eight digits too. |
| Reloads.IdShape | endpoint/agent.go:211 | "ch" and eight digits up to 2^32 - 1, more without a leading zero beyond. |
| Reloads.LoadKeepsContent | endpoint/agent.go:196-214 | What is read is what the files hold, in their order, but for the ids. |
| Reloads.LoadedAreNew | endpoint/agent.go:178-218 | Every check read gets an id never given out before, however the same files were read before. |
| Reloads.CheckLoader.LoadChecks | endpoint/agent.go:192-217 | Crashes iff a file holds the JSON null or a check of a known type without details; otherwise passes over what cannot be built and numbers the rest consecutively. |
| Reloads.ReloadAcceptedIffEmpty | poller/scheduler.go:191-210 | In every run, the schedulers accept a prepare iff it is of the first version or brings no check at all. |
| Reloads.LaterChecksNeverRun | endpoint/agent.go:234-308 | In every run, a zone runs the checks read first or none, and nothing else but an empty preparation is ever committed after them. |
| TwoPhaseCommit.TransmissionStream | endpoint/agent.go:356-389 | A whole transmission keeps the channel well formed for the session that reads it frame by frame. |
| TwoPhaseCommit.SessionReadsFrame | poller/session.go:320-445 | Against such a channel every frame keeps message, timer and preparation consistent, the preparation being or becoming exactly what was sent. |
| TwoPhaseCommit.SessionHandsOver | poller/session.go:435-445 | Against such a channel a preparation is handed over, complete, exactly when a commit of the active version is read, and only then `committed` is answered. |
| TwoPhaseCommit.RunInv | poller/session.go:245-271 | Every interleaving of agent, session, timer and schedulers keeps the invariant of the joined system. |
| TwoPhaseCommit.Agreement | endpoint/agent.go:429-442 | In every run, whenever channels and queues are empty, the agent's committed ids are those of the last preparation committed and every scheduler runs exactly the definitions sent under its version. |
| TwoPhaseCommit.TwoPhaseSafety | poller/session.go:685-688 | In every run, whatever is handed to the schedulers validates, was answered `prepared` in exactly this state, and is what was sent. |
| TwoPhaseCommit.CommittedVersionsIncrease | endpoint/agent.go:347-354 | In every run the committed versions increase strictly; none is committed twice. |
| TwoPhaseCommit.SessionNeverFaults | poller/session.go:366-433 | In every run with an agent no nil message or timer is used and nothing blocks; message and preparation come together; a preparation awaiting its end has a timer. |
| TwoPhaseCommit.SchedulersNeverCrash | poller/scheduler.go:291-300 | In every run, no preparation waiting for a scheduler lacks details it would be asked for. |
| Outcomes.PreparedIsVouched | poller/session.go:419-432 | In every run, each `prepared` on its way bears the id and version of one prepare sent, whose preparation was complete. |
| Outcomes.AwaitedWereNotHanded | endpoint/agent.go:429-435 | In every run, once the channels are empty, a commit still awaited is of a version never handed over. |
| Resolution.NothingHalfDone | endpoint/agent.go:400-442 | In every run, once the channels are empty the session has no active preparation and no timer, and the agent awaits at most commits of versions that were not handed over. |
| Resolution.LastTransmissionWins | poller/session.go:336-345 | In every run without time-outs and rejections, however transmissions overlap, once nothing is under way every scheduler runs exactly what was sent last and the agent knows it. |
| Schedulers.ReceivedCrashesIff | poller/scheduler.go:242-256 | For all manifests and blocks: reconciling crashes iff an id whose last action is start or restart has no definition, or a last one without details. |
| Schedulers.ValidatedMentions | poller/scheduler.go:222-223 | The ids kept from removal are those of the preparation, if it validates. |
| Schedulers.ReconciledDefs | poller/scheduler.go:212-289 | The definitions run afterwards are a function of those run before and the preparation: neither the order of entries nor object identity matters. |
| SchedulerRuns.ReconcileBalance | poller/scheduler.go:226-265 | After a reconcile that does not crash the live checks are the scheduled ones never cancelled, the rest cancelled once, iff no live check had a replacement that cannot be built. |
| SchedulerRuns.RunStaysBalanced | poller/scheduler.go:138-148 | In every run of reconciles and resets with buildable definitions: live checks are exactly those scheduled and not cancelled, each other one was cancelled once, ids are not shared. |
| SchedulerRuns.ReconcileDrift | poller/scheduler.go:226-281 | For every reconcile that does not crash, per check type and in all: the gauge moves away from the number of entries by unbuildable new starts and checks replaced by another type, less restarts of unknown ids and checks that replace another type. |
| SchedulerRuns.RunDrift | poller/scheduler.go:138-148 | In every run, resets included, the gauge is off by the sum of these shifts and of the checks each reset took away. |
| SchedulerRuns.GaugeRightIff | poller/scheduler.go:226-281 | In every run, per type and in all, the gauge shows the number of entries throughout iff no event shifts it. |
| SchedulerRuns.RunKeepsGauge | poller/scheduler.go:226-281 | In every run without resets, with existing targets, buildable definitions and, per type, unchanged types, the gauge shows the number of entries. |
| SchedulerRuns.GaugePerTypeCanDrift | poller/scheduler.go:226-257 | From right books, a start as well as a restart that changes a type leaves the gauge at 1 for the old type without a check and at 0 for the new one with one. |
| SchedulerRuns.AcceptedIffAllRun | poller/scheduler.go:191-210 | A complete, buildable preparation is accepted iff afterwards precisely its checks run and the gauge has not moved away from them. |
| SchedulerRuns.AllRunIff | poller/scheduler.go:201-205 | Precisely its checks run iff every check to be continued was there. |
| SchedulerRuns.AcceptedRuns | poller/scheduler.go:222-265 | Of an accepted one, continued checks keep their own definitions and the others run what was sent. |
| Schedulers.EleScheduler.ValidateChecks | poller/scheduler.go:191-210 | Accepts iff every check to be restarted or continued exists. |
| Schedulers.EleScheduler.InitiateCheck | poller/scheduler.go:291-300 | A new object under its id and scheduled iff the type is one of the four known (check/unmarshal.go:52-64) and the details decode; a crash if the type is known and details are missing; otherwise refused without effect. |
| Schedulers.EleScheduler.StartCheck | poller/scheduler.go:226-245 | Crashes iff there are no details; otherwise cancels what exists, counts what is new, initiates. |
| Schedulers.EleScheduler.RestartCheck | poller/scheduler.go:247-257 | Crashes iff there are no details; otherwise cancels what exists and initiates, without counting. |
| Schedulers.EleScheduler.RemoveAbsent | poller/scheduler.go:267-281 | Every check not mentioned is taken out, cancelled once and uncounted; no other is touched. |
| Schedulers.EleScheduler.ActOnAll | poller/scheduler.go:215-265 | Crashes iff some entry does; otherwise every entry has its effect once, in any order, and what remains is what no entry named. |
| Schedulers.EleScheduler.Reconcile | poller/scheduler.go:212-289 | For every preparation that can arise, validated or not: crashes iff an entry to be initiated has no details; otherwise continued checks are the identical objects, started and restarted ones fresh, stopped ones cancelled once more, the gauge moved per type by starts and removals. |
| Schedulers.EleScheduler.Reset | poller/scheduler.go:138-148 | Every live check is taken out and cancelled once; the gauge stays. |
| Schedulers.EleScheduler.ReconcileNext | poller/scheduler.go:154-163 | Preparations are reconciled in the order they were queued, each turning the definitions into those it asks for. |
| Schedulers.EleScheduler.ResetNext | poller/scheduler.go:165-166 | A queued reset is carried out without touching queued preparations. |
| Correlation.Correlated | poller/session.go:161-205 | In every run, the first response under a request's id is dispatched to that request's method iff the session sent no response of its own under the id in between. |
| Correlation.CompletedAtMostOnce | poller/session.go:161-171 | In every run no two responses complete the same request. |
| Correlation.AuthenticatedAtMostOnce | poller/session.go:176-192 | In every run the connection is marked authenticated at most once. |
| Correlation.AuthenticatedByAcceptance | poller/session.go:176-192 | In every run, the connection is marked authenticated exactly by the answers without an error that match the handshake. |
| Correlation.RefusedIsNeverAuthenticated | poller/session.go:182-188 | In every run in which the handshake is refused, it never is. |
| Correlation.FramesInOrder | poller/session.go:614-623 | In every run, frames leave in the order staged, each once, under its own id. |
| Correlation.ReplyHidesRequest | poller/session.go:606-623 | A heartbeat's answer can be lost to a response sent meanwhile under its id. |
| Correlation.RequestTracker.constructor | poller/session.go:105-118 | Ids start at zero, so that the handshake gets 1. |
| Correlation.RequestTracker.Auth | poller/session.go:130-140 | Stages the handshake under id 1 and starts the timer if configured. |
| Correlation.RequestTracker.SetId | protocol/frame.go:169-171 | The next id of the shared counter. |
| Correlation.RequestTracker.Send | poller/session.go:144-151 | A request without an id gets the next one; then it is staged. |
| Correlation.RequestTracker.SendResponse | poller/session.go:155-159 | A response is staged under the id of the request it answers (protocol/frame.go:81-87). |
| Correlation.RequestTracker.SendFrame | poller/session.go:622-623 | Frames leave in order, each noted as a completion whatever its kind. |
| Correlation.RequestTracker.GetCompletionRequest | poller/session.go:161-171 | Yields and removes the entry of an id, if any. |
| Correlation.RequestTracker.HandleResponse | poller/session.go:173-205 | Dispatch by the noted method; a handshake answer stops the timer, and without an error starts heartbeats and authenticates. |
| ConnectionStreams.RunCoherent | poller/connection_stream.go:308-414 | In every interleaving with distinct addresses, table and queued registrations together lead to the registered live connection of each address. |
| ConnectionStreams.DeregistersItselfIff | poller/connection_stream.go:159-193 | In every run a deregistration takes out its own connection or nothing, iff the addresses are distinct. |
| ConnectionStreams.UnannouncedLossIsSilent | poller/connection_stream.go:187-192 | In every run with distinct addresses the loss of a connection never registered changes nothing and resets nothing. |
| ConnectionStreams.TableIsExact | poller/connection_stream.go:128-157 | Once the queue is empty the table holds exactly the authenticated live connections. |
| ConnectionStreams.NewConnectionIsNew | poller/connection_stream.go:331 | In every run, a new connection is none that is there or was registered, and bears the GUID replaced as often as all connections were lost. |
| ConnectionStreams.ResetsExactlyWhenEmptied | poller/connection_stream.go:167-186 | Resets, notices of total loss and new GUIDs are as many as the moments at which the table became empty. |
| ConnectionStreams.DuplicateAddressBreaks | poller/connection_stream.go:159-161 | For every list with an address listed twice, some run ends with the loss of one connection throwing out the other, live one and resetting the schedulers. |
| ConnectionStreams.ChooseBest | poller/connection_stream.go:433-448 | The least measured latency below the 64-bit maximum, or nothing iff there is none. |
| ConnectionStreams.SendMetrics | poller/connection_stream.go:227-244 | Dropped iff there is no connection; silently lost iff there are some but none measured; else sent by a best one. |
| ConnectionStreams.EleConnectionStream.RegisterConnection | poller/connection_stream.go:150-157 | The address's entry becomes the connection. |
| ConnectionStreams.EleConnectionStream.DeregisterConnection | poller/connection_stream.go:159-193 | Removes the entry; with the last one every scheduler is asked to reset once, total loss is emitted and the GUID changes. |
| ConnectionStreams.EleConnectionStream.ReconcileChecks | poller/connection_stream.go:196-200 | Every scheduler gets the preparation once, at the end of its queue. |
| ConnectionStreams.EleConnectionStream.ValidateChecks | poller/connection_stream.go:202-217 | Accepts iff every scheduler does. |
| Timestamps.LatencyIsDelayIff | utils/timestamp.go:62-77 | Latency is the delay of section 8 of RFC 5905 iff the server's time stamps are equal; else it is off by twice their difference. |
| Timestamps.UnsetIff | utils/timestamp.go:63-65 | Nothing is computed iff some time stamp is unset. |
| Timestamps.SkewBound | utils/timestamp.go:62-77 | However long the server holds the heartbeat, the offset is off by at most half of the delay of section 8 of RFC 5905, rounding included, for either sign; the latency exceeds that delay by twice the time held. |
| Timestamps.SymmetricIsExact | utils/timestamp.go:73-74 | With equal delays the offset is exact. |
| Timestamps.HeartbeatMeasurement.Prepare | poller/session.go:557-560 | What is expected is the heartbeat sent last, with its own send time. |
| Timestamps.HeartbeatMeasurement.Update | poller/session.go:562-592 | Only an answer to the heartbeat sent last is measured, against that heartbeat's send time. |
| PingChecks.Collect | check/check_ping.go:104-160 | Slot k ends with the first error-free response numbered k+1, and the last error other than a time-out is latched. |
| PingChecks.SlotExactly | check/check_ping.go:125-155 | From the responses alone: a slot holds the first without an error that bears its number, and is empty iff there is none. |
| PingChecks.LastErrorExactly | check/check_ping.go:125-131 | The error kept is that of the last response that failed other than by a time-out; time-outs leave it as it was. |
| PingChecks.Summarize | check/check_ping.go:162-195 | Number received, attained extremes and truncated mean of the slots. |
| PingChecks.ReceivedCounts | check/check_ping.go:170-173 | The number received is the number of slots filled. |
| PingChecks.SummaryIsUnique | check/check_ping.go:162-195 | The slots determine these figures. |
| PingChecks.SummaryBounds | check/check_ping.go:162-195 | No more received than sent; the truncated average lies between the extremes, for negative times too. |
| PingChecks.OrderDoesNotMatter | check/check_ping.go:100-160 | Reordering responses whose usable ones with one number agree changes no figure. |
| PingChecks.FirstComesFirst | check/check_ping.go:142-155 | Of two different responses with one number the first to arrive stays. |
| PingChecks.Run | check/check_ping.go:83-228 | Figures and availability of a whole check, with the default count. |
| Pingers.EncodePayload | check/pinger.go:167-180 | Identifier, zero, length, time, padded with 1, 2, ... up to 56 bytes. |
| Pingers.PayloadPadded | check/pinger.go:175-180 | The packet is filled up to 56 bytes with 1, 2, 3 and so on, never a zero, and never cut short. |
| Pingers.DecodePayload | check/pinger.go:347-392 | Decodes as `Decode` does, from at most 64 bytes. |
| Pingers.PayloadRoundTrip | check/pinger.go:167-180 | For identifiers without a zero and times of up to 255 bytes: nothing comes back iff identifier, delimiter and length exceed the limit, otherwise the identifier and the part of the time that fits. |
| Pingers.RoundTripExactly | check/pinger.go:347-392 | For all identifiers and times: both come back iff the identifier has no zero in it and all fits into 64 bytes. |
| Pingers.Receive | check/pinger.go:247-433 | Packets of others are passed over, and the first read that is none decides: reply, time-out or failure. |
| Pingers.AcceptableIff | check/pinger.go:284-401 | A reply is taken iff it is an echo reply from the address pinged, with the pinger's id, that carries a time that can be read. |
| Pingers.ForeignNeverTaken | check/pinger.go:286-346 | A reply from another peer or with another id is passed over whatever it carries. |
| Pingers.OwnReplyAccepted | check/pinger.go:284-401 | The echo of one's own payload, if it fits, is recognised and yields the time sent. |
| Pingers.IdentifierIsNotChecked | check/pinger.go:354-367 | A reply that carries any other identifier is recognised all the same, and an accepted reply bears the pinger's own iff its data starts with that and a zero, early enough. |
| Integers.QuotientBetween | check/check_ping.go:194 | A truncated mean stays between the bounds of what was averaged. |
| Integers.QuotientTruncates | utils/timestamp.go:73 | What a division leaves is smaller than the divisor and has the sign of the dividend; changing that sign changes the sign of the quotient. |

## Left out

- Schedulers.EleScheduler.Reconcile: says nothing of the books after a crash, which takes the whole poller with it.
- TwoPhaseCommit.Agreement: covers one session per poller without resets and without lost connections; several sessions sharing the schedulers, and resets racing with queued preparations, are not modelled.
- ConnectionStreams.RunCoherent: leaves out cancellation of the whole stream, after which loops and coordinator stop at any point.
- Reloads.LaterChecksNeverRun: takes reading the files and classifying what was read as one step; classification looks at nothing that reading changes.
- Widths of integers: ids, versions and check numbers do not wrap around at 64 bits, and durations and time stamps do not overflow; at a million ids a second wrapping takes half a million years.
- JSON encoding and decoding: frames are delivered as sent; a result that cannot be decoded is an explicit case.
- Network, TLS, SRV lookup, proxies, sockets, file watching: replaced by arbitrary events.
- Wall-clock time, backoff and sleeps: the prepare-to-end timer may fire at any moment while it runs.
- Buffer sizes of channels: queues are unbounded, so a sender waiting for room is not modelled.
- Explanatory texts in responses, logging, registration of metrics, events other than those named.
- The empty zone id in an agent's frames is kept; zones do not otherwise enter the protocol.
- Host information and check tests requested over a session, which answer without touching the state modelled.
- Running checks of other kinds (TCP, HTTP, plugin), result sets, configuration, hosts' statistics.
- The endpoint's server and its table of agents: thin maps from sources to agents.
