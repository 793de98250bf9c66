# Verified models of `rtp_mux`

`rtp_mux` carries many logical streams over two RTP lanes per session, moves streams from one
session to the next without losing them, and keeps a few tools beside the transport. This project
models the parts of it that decide something and proves what they promise.

Protocols that run on several threads are state machines. One step is one critical section or one
access to something shared, so a run is any interleaving. Each such model has an invariant that
every step keeps, and theorems about `Reachable` states or about whole runs. Beside it, methods and
classes in the source's own imperative form are proved to take those steps, or to compute the
specification functions the machine uses.

- **Session generations** (`Generations`, `GenerationsProof`, `GenerationsMethods`,
  `GenerationsRedial`): redial, drain,
  successor and rebind, against client threads that open, track and close streams. A session's strong
  count is the predicate `Held`.
- **Rebind slot** (`RebindSlot`): how a background writer is told about a new session.
- **Write half** (`WriteHalf`, `WriteHalfProof`, `WriteHalfReports`, `WriteHalfMethods`): the bounded command queue, the
  background writer and the poll functions. A poll is not atomic: background steps may come before
  each of its accesses.
- **Lane admission** (`Admission`, `AdmissionProof`, `AdmissionTheorems`, `AdmissionGroups`,
  `AdmissionMethods`): permits, reservations, waiters, pairing, reinsertion and the expiry worker.
- **Connector loop** (`Connector`, `ConnectorProof`, `ConnectorAnswers`, `ConnectorMethods`): dials in flight, waiting
  requests, groups, explorers, redials and keys.
- **Groups** (`Group`): membership, the newest opener and the amortised purge of writers.
- **JSON codec** (`Utf8`, `Json`, `JsonProof`, `JsonTheorems`, `JsonPrefixes`, `JsonNumbers`,
  `JsonLenient`, `JsonLayout`, `JsonObjects`, `JsonMethods`): parser and printers over bytes. The library's display and parse of a finite float are parameters; what is
  asked of them is `Faithful`, and `FaithfulExists` shows that it can be met.
- **Migration margins** (`PathScore`, `TupleStats`), **calendar and run names** (`Calendar`, `Stamp`,
  `ArchiveRuns`), **statistical band** (`Band`, `BandRows`), **payload pattern** (`Payload`).

Floats outside the JSON codec are exact reals. A standard deviation is the non-negative real whose
square is the variance, or is avoided (`Exceeds`).

## Where the code does not do what its documentation or a reader expects

- A second `poll_shutdown` after a failed first one reports success (`SecondShutdownHidesFailure`).
  A report is true exactly when the first completed shutdown reported success (`LaterShutdowns`).
- A lane can be handed a lane that announced another group, on both paths; whether the pairing that
  follows then refuses it is decided outside the registry. On the wait path the
  reservation waited for is cancelled and another lane reserves the slot before the waiter looks;
  `pair_wait_step` does not compare groups (`WaiterCanMeetAnotherGroup`). On the direct path a lane
  whose reservation expired confirms the reservation a lane of another group has made since;
  `confirm_reservation` does not compare groups either (`TakerCanMeetAnotherGroup`, `ConfirmExactly`).
  Which sets of announcements exclude this is proved exactly (`WaitPathExactly`, `DirectPathExactly`).
- A path with a round trip of zero beats itself (`NoCycle`: a cycle exists exactly then).
- JSON values with a non-finite float print documents that the parser refuses (`RoundTrip`).
- The parser accepts texts that RFC 8259 does not: a form feed as white space (`FormFeedAccepted`; that
  is the only addition, `WhitespaceExactly`), leading zeros, also after a minus sign (`IntDocument`,
  `NegativeDocument`), raw control characters in strings (`ControlCharacterAccepted`) and a plus sign
  for the first digit of an escape (`UnicodeEscapeExactly`). `1.` and numbers that begin with `-.` are
  passed on to the float library (`BarePointIsPassedOn`, `NoWholePartIsPassedOn`).
- A surrogate escape is refused, although a comment says it is replaced (`EscapeDocument`).
- A comment says that a truncated document is never read as a complete one. A number can be cut short
  (`NumbersTruncate`): a prefix of an integer is accepted exactly when it holds a digit
  (`IntPrefixesExactly`, `IntTruncationsExactly`). White space at the end can be cut off; for a
  document that is not itself a number that is the only exception (`TruncationsExactly`).
- Four standard deviations cover every archived reading only up to seventeen readings (`CoversExactly`,
  `ArchivedOutlierIsWorse`, `ArchivedDipIsWorse`), and with fewer than eight the archive decides
  nothing (`FewReadingsDecideNothing`).
- Run stamps sort by time exactly up to the end of the year 9999 (`StampsSortExactly`,
  `YearTenThousandSortsFirst`).
- A repeated payload that is not a whole number of periods breaks the pattern as soon as it wraps
  (`StreamMatches`).

## Model

| member | source | states |
|---|---|---|
| GenerationsProof.StepInv | src/connector/cross_session.rs:41-205 | every step of every thread and of the loop keeps the invariant: who holds which session, where each stream is placed, one-link successor chains, exact gauges |
| GenerationsProof.SuccessorIsLast | src/connector/mod.rs:772-802 | in every interleaving, a session that anything still holds and that has a successor has one whose own successor is empty |
| GenerationsProof.OneHop | src/connector/cross_session.rs:132-146 | a thread walking the successors never takes a second hop, so the bound of eight never cuts a walk short |
| GenerationsProof.RecordOverwritesNothingLive | src/connector/mod.rs:715-719 | when a drained generation is recorded, whatever the record replaces is already held by nobody |
| GenerationsProof.SuccessorSetOnce | src/connector/cross_session.rs:183-192 | no session is ever drained twice: its successor is empty when the drain publishes one |
| GenerationsProof.DeadWeakStaysDead | src/connector/mod.rs:773-774 | a weak session reference that fails to upgrade fails for ever after, along every run, which is what the redial gate relies on |
| GenerationsProof.NoStreamStranded | src/connector/cross_session.rs:113-129 | once tracking and any drain are over, a stream with a live writer is bound to, counted on and listed in one session that has no successor, or a dead one, even if it registered during the drain |
| GenerationsProof.GaugeCountsGuards | src/connector/cross_session.rs:55-58 | in every reachable state a session's stream gauge is the number of guards on it, and no decrement can underflow |
| GenerationsProof.CountedOnce | src/connector/cross_session.rs:174-181 | outside a move, every stream is counted by exactly one session |
| GenerationsMethods.LatestGeneration | src/connector/cross_session.rs:132-146 | the cursor loop returns the newest live generation within its hop bound |
| GenerationsMethods.BoundNeverTruncates | src/connector/cross_session.rs:132-147 | from a held session, in every reachable state, the walk has the same result under every bound of at least one hop: the live successor, or the session itself |
| GenerationsMethods.Walk | src/connector/cross_session.rs:132-146 | the walk taken one access at a time is a run of the protocol and chooses the same session as the loop |
| GenerationsMethods.MoveOne | src/connector/cross_session.rs:174-181 | one turn of the drain lands the stream on the new session if its handle and writer live, and otherwise leaves it as it was; other streams and lists are untouched |
| GenerationsMethods.DrainLoop | src/connector/cross_session.rs:193-204 | after the loop every drained stream is landed or was not movable, and the count is the number of movable ones |
| GenerationsMethods.RebindStreams | src/connector/cross_session.rs:183-205 | a dead new session changes nothing; otherwise it becomes the successor, nothing else of the chain changes, the old list is empty, every movable stream is bound, counted and listed on it, and the returned count is exact |
| GenerationsMethods.Track | src/connector/cross_session.rs:113-129 | registering a stream without interruption puts it on the newest live generation of its session |
| GenerationsRedial.RedialMigrates | src/connector/mod.rs:698-740 | in every interleaving, when a redial's dial has succeeded and the loop is back at rest, the address maps to the new session, the old one is recorded as draining and leads to it unless it has died, and then no registered stream with a live writer is on the old one |
| GenerationsRedial.InstallArm | src/connector/mod.rs:698-740 | the arm of a completed dial, uninterrupted: a redial moves every movable stream of the old session, empties its list, links and records it; the new session counts exactly the moved streams; a first dial moves nothing |
| GenerationsRedial.RedialPending | src/connector/mod.rs:772-802 | a run that ends with a redial in flight of a session that serves a registered stream |
| GenerationsRedial.OpenStream | src/connector/cross_session.rs:41-58 | a stream opened on the fast path is counted on, and bound to, the address's session |
| GenerationsRedial.CloseStream | src/connector/cross_session.rs:95-99 | a closed stream ends, holds no session, and its session counts one less |
| GenerationsRedial.ReapForgets | src/connector/mod.rs:682-697 | a session whose watcher ended is mapped nowhere, and no other mapping changes |
| GenerationsRedial.ResetArm | src/connector/mod.rs:741-771 | a reset leaves nothing mapped, draining, dialled or redialled |
| RebindSlot.StepInv | src/migrating_write_half.rs:65-79 | every access by a caller or the writer keeps: an opener in the slot is the last one offered and will be noticed |
| RebindSlot.LastOfferWins | src/migrating_write_half.rs:164-180 | no offer is lost to the bell's capacity of one: when all is quiet the writer has been rebound to the opener offered last |
| WriteHalfProof.StepInv | src/migrating_write_half.rs:161-466 | every access of a poll and every background step keeps the accounts of bytes, replies, flushes and the shutdown |
| WriteHalfProof.DeliveredIsPrefix | src/migrating_write_half.rs:161-229 | in every run the writer was handed a prefix of the accepted bytes, and until it gives up accepted = delivered, then in hand, then queued, in order |
| WriteHalfProof.FlushCoversAccepted | src/migrating_write_half.rs:342-384 | a flush that reports success covers every byte accepted before it returned, even when an earlier flush poll was abandoned |
| WriteHalfReports.StepHonest | src/migrating_write_half.rs:161-466 | every step keeps: an open reply is owed by exactly one command, queued or running; no given reply changes; the writer stops only after an error or a shutdown |
| WriteHalfReports.ReplyIsFinal | src/migrating_write_half.rs:246-281 | along every run a reply that was given or lost stays as it is |
| WriteHalfReports.AnsweredFlushReports | src/migrating_write_half.rs:289-384 | once a flush is answered with success, the next flush poll reports it and the next write goes past it, whatever the writer does meanwhile |
| WriteHalfReports.ReportIsTrue | src/migrating_write_half.rs:289-384 | in every reachable state a write or a flush fails only after a background error or a begun shutdown, and waits only while a control is open or eight commands are queued |
| WriteHalfReports.ShutdownWaits | src/migrating_write_half.rs:385-466 | a shutdown waits only for room in the queue, for its answer, or for the writer to end |
| WriteHalfProof.QueueBudget | src/migrating_write_half.rs:11-12 | at most eight commands and at most eight times 64 KiB wait in the queue |
| WriteHalfProof.ShutdownHasResult | src/migrating_write_half.rs:451-466 | the epilog always finds a stored result, and completion is reported only after the writer task was joined |
| WriteHalfProof.NothingAfterShutdown | src/migrating_write_half.rs:385-431 | at most one shutdown command is ever sent, and no run accepts a byte after it |
| WriteHalfProof.FirstShutdownIsHonest | src/migrating_write_half.rs:432-466 | the first shutdown to complete reports success exactly when the stream was finalized, and then everything accepted was delivered |
| WriteHalfProof.LaterShutdowns | src/migrating_write_half.rs:385-388 | every later shutdown poll reports success, and that is true exactly when the first one reported it |
| WriteHalfProof.SecondShutdownHidesFailure | src/migrating_write_half.rs:385-388 | a run in which a byte is lost, the first shutdown fails and the second reports success |
| WriteHalfMethods.Gather | src/migrating_write_half.rs:317-331 | the gathering loop yields the first 64 KiB of the slices' concatenation |
| WriteHalfMethods.MigratingWriteHalf.Background | src/migrating_write_half.rs:161-229 | any background activity keeps the object in a reachable state, accepts no bytes and changes no reply that was given |
| WriteHalfMethods.MigratingWriteHalf.PollPendingControl | src/migrating_write_half.rs:246-281 | takes a resolved control and keeps a shutdown's result, exactly as the machine's step |
| WriteHalfMethods.MigratingWriteHalf.PollWriteVectored | src/migrating_write_half.rs:289-341 | a write accepts the first chunk whole or nothing, under any background activity between its accesses; it fails only after an error or a shutdown, waits only for an open control or a full queue, and goes past a flush that was answered with success |
| WriteHalfMethods.MigratingWriteHalf.PollFlush | src/migrating_write_half.rs:342-384 | success means everything accepted so far is delivered and flushed; a flush answered with success is reported so; a failure follows an error or a shutdown, and a wait an open control or a full queue |
| WriteHalfMethods.MigratingWriteHalf.Epilog | src/migrating_write_half.rs:451-466 | the result is returned only after the join, truthfully, and is always there |
| WriteHalfMethods.MigratingWriteHalf.PollShutdown | src/migrating_write_half.rs:385-445 | the first success means finalized with everything delivered; a failure means not finalized; a completed half answers success and changes nothing; a wait is for room, for the answer or for the writer to end |
| AdmissionProof.StepInv | src/admission.rs:41-433 | every critical section, notification and task step keeps permits, lanes, deadlines and wake-ups consistent |
| AdmissionTheorems.PermitsConserved | src/admission.rs:148-166 | in every run the counters equal the outstanding permits, in total and per address, stay within 1024 and 32, and an address is listed exactly while it has permits |
| AdmissionTheorems.DropNeverSaturates | src/admission.rs:41-55 | neither saturating subtraction in a permit's destructor ever saturates |
| AdmissionTheorems.PermitsAreLinear | src/admission.rs:74-91 | no two owners share a permit: entries, takers and tasks each own their own, and a lane has one taker at a time |
| AdmissionTheorems.AllGone | src/server.rs:678-957 | when all lane tasks, entries and drops are over, both counters are zero and empty |
| AdmissionTheorems.PairingIsSafe | src/admission.rs:167-231 | in every run, a lane handed out, the task whose permit it carries and the task that built its transport all have the taker's nonce and IP and the opposite class; the reservation announced the taker's group on the direct path, and on the wait path the reservation waited for did |
| AdmissionTheorems.RegisterExactly | src/admission.rs:167-231 | in every reachable state, what a registering lane is told by what the lane in its slot announced: an empty slot is reserved for ten seconds, a partner of its group is awaited or taken, anyone else is turned away |
| AdmissionTheorems.PollWaitExactly | src/admission.rs:314-348 | the same for a waiter that looks: it takes a ready partner, waits on for one still building until its deadline, and ends otherwise |
| AdmissionTheorems.ReinsertExactly | src/admission.rs:349-366 | a lane whose pairing failed goes back ready under its deadline exactly when its slot is free, and is dropped otherwise |
| AdmissionTheorems.ExpireExactly | src/admission.rs:394-433 | in every reachable state expiry removes exactly the entries, building or ready, whose deadline has come, drops their permits, wakes their waiters, leaves all other permits alone, and leaves only later deadlines |
| AdmissionGroups.WaitPathExactly | src/admission.rs:314-348 | over any set of announcements, every run pairs waiters only with lanes reserved and built in their own group exactly when the set holds no reservation, waiter and later lane of one nonce and IP, classes crossed, where only the later lane's group differs |
| AdmissionGroups.WaiterCanMeetAnotherGroup | src/admission.rs:314-348 | a run in which a waiter is paired with a lane of another group |
| AdmissionGroups.AwaitedReservationIsTaken | src/admission.rs:285-348 | along every run from registration to the poll that pairs, if the slot was never free in between, the lane taken is the reservation waited for and the groups agree |
| AdmissionGroups.DirectPathExactly | src/admission.rs:167-284 | over any set of announcements, every run hands a direct taker only transports of its own group exactly when the set holds no reservation with a taker of its group, and third lane of the reservation's address, class and nonce but of another group |
| AdmissionGroups.TakerCanMeetAnotherGroup | src/admission.rs:232-284 | a run in which a lane whose reservation expired confirms another lane's, and its transport goes to a taker of another group |
| AdmissionGroups.ConfirmExactly | src/admission.rs:232-284 | in every reachable state a confirmed lane carries the confirming task's own permit exactly when its reservation still stands, and reservation and transport announced one group exactly when the entry's group is the confirming lane's |
| AdmissionTheorems.DeadlineFixed | src/admission.rs:232-284 | no run changes a lane's pairing deadline once it has one |
| AdmissionTheorems.DeadlineCarried | src/admission.rs:349-366 | whoever carries a lane, an entry, a pairing attempt or a waiter, carries it under that deadline, through confirm, attempt and reinsertion |
| AdmissionTheorems.WorkerNeverOversleeps | src/server.rs:1114-1149 | the expiry worker never sleeps past the earliest deadline without a notification stored or about to be sent |
| AdmissionTheorems.WaiterNeverForgotten | src/admission.rs:285-313 | a waiter's reservation is still building, or its wake-up has come or is about to |
| AdmissionMethods.PendingLaneRegistry.TryAdmit | src/admission.rs:148-166 | admits exactly below both limits and issues the caller a permit for that address; a refusal changes nothing; both counters stay the number of permits outstanding, in total and per address |
| AdmissionMethods.PendingLaneRegistry.Insert | src/admission.rs:212-230 | an entry is made only in a free slot and from a permit in hand, which then lives in that entry |
| AdmissionMethods.PendingLaneRegistry.Remove | src/admission.rs:197-210 | an entry taken out leaves its permit in hand, and no other permit moves |
| AdmissionMethods.PendingLaneRegistry.DropPermit | src/admission.rs:41-55 | ends a permit that is in no entry and takes it off the counters, in total and for the address it carries; it takes the lock, so no caller may hold it, and neither subtraction saturates |
| AdmissionMethods.PendingLaneRegistry.RegisterAdmitted | src/admission.rs:167-231 | answers as decided by the entry under the nonce; the permit leaves the caller exactly when a reservation is made, and a paired lane brings its own out of the registry |
| AdmissionMethods.PendingLaneRegistry.ConfirmReservation | src/admission.rs:232-284 | succeeds exactly for a reservation of the lane's address and class and keeps its permit, group and deadline; a failure puts the entry back, and no permit moves either way |
| AdmissionMethods.PendingLaneRegistry.CancelReservation | src/admission.rs:367-389 | removes exactly a matching reservation and drops its permit, and only that one, off its own address, after releasing the lock |
| AdmissionMethods.PendingLaneRegistry.PairWaitStep | src/admission.rs:314-348 | removes the entry exactly when it hands the lane and its permit to the caller |
| AdmissionMethods.PendingLaneRegistry.ReinsertReadyLane | src/admission.rs:349-366 | the lane and its permit go back into a free slot under the old deadline, or back to the caller |
| AdmissionMethods.PendingLaneRegistry.NextExpiry | src/admission.rs:390-393 | the least deadline of all entries, or none when there are none |
| AdmissionMethods.PendingLaneRegistry.Expire | src/admission.rs:394-433 | removes exactly the entries whose deadline has come, building or ready, and hands out exactly those, permits included, after releasing the lock; the next deadline is then later |
| ConnectorProof.StepInv | src/connector/mod.rs:682-838 | every arm of the loop, and sessions dying and callers leaving, keep the loop's bookkeeping |
| ConnectorProof.LoopInvariant | src/connector/mod.rs:611-651 | in every run the in-flight set is exactly the distinct addresses of at most 32 pending dials; addresses with waiters are in flight, at most 256 each; in-flight addresses have groups, and explorers only grouped addresses |
| ConnectorProof.InstallNeverPanics | src/connector/mod.rs:512-531 | a session is never installed for an address without a group |
| ConnectorProof.KeyIsRecorded | src/connector/mod.rs:795-838 | the mapped session of an address, while alive, was dialled with the key recorded for the address |
| ConnectorProof.RequestIsQueued | src/connector/mod.rs:814-838 | a waiting request is queued once, behind a dial in flight; one passed over had been closed by its caller |
| ConnectorProof.AnsweredOnce | src/connector/mod.rs:720-738 | an answer is final along every run: no request is answered twice |
| ConnectorProof.StaysOnRecord | src/connector/mod.rs:682-838 | along every run a request stays on record, and while it waits it waits for the same address |
| ConnectorProof.AnsweredUnlessClosed | src/connector/mod.rs:720-838 | along every run a request is never lost: it waits, queued once behind a dial in flight for its address, or has its one answer, or was passed over after its caller closed it; the last two are final |
| ConnectorProof.DialAnswersAll | src/connector/mod.rs:720-765 | a dial that ends, or a reset, answers every request that waits for it, except that success passes over closed ones |
| ConnectorAnswers.ConnectExactly | src/connector/mod.rs:807-838 | in every reachable state a request is answered with a stream exactly when the address has a live session, refused exactly when 256 listening waiters, or 32 dials and none for the address, leave no room, and otherwise waits behind a dial with its key |
| ConnectorAnswers.ListeningCount | src/connector/mod.rs:860-871 | the waiters left after dropping closed ones are as many as the requests that wait for the address and whose callers listen |
| ConnectorAnswers.RedialExactly | src/connector/mod.rs:772-802 | a wanted redial dials exactly when nothing drains, nothing is in flight, there is room and a session to replace, with the key that session was dialled with |
| ConnectorAnswers.DialOkExactly | src/connector/mod.rs:698-740 | a successful dial maps its session, records a replaced one as draining, and frees the address |
| ConnectorAnswers.ConnectAfterDial | src/connector/mod.rs:698-838 | whoever connects after a successful dial gets a stream at once |
| ConnectorAnswers.DialErrExactly | src/connector/mod.rs:698-740 | a failed dial maps nothing, frees the address and keeps exactly the groups still in use |
| ConnectorAnswers.ConnectAfterFailure | src/connector/mod.rs:698-838 | whoever connects after a failed dial dials anew, unless a live session is left |
| ConnectorAnswers.SessionEndsExactly | src/connector/mod.rs:682-697 | a session that ends is unmapped where it is current, and the groups and explorers kept are exactly those still in use |
| ConnectorAnswers.ResetExactly | src/connector/mod.rs:741-771 | a reset clears everything and refuses exactly the requests that waited |
| ConnectorMethods.LiveDialWaiters | src/connector/mod.rs:860-871 | keeps exactly the waiters that still listen, in order |
| ConnectorMethods.AnswerWaiters | src/connector/mod.rs:720-737 | the loop gives each waiter its one answer and nobody else any |
| ConnectorMethods.RetainGroups | src/connector/cross_session.rs:162-172 | keeps exactly the groups with a dial in flight or a session left |
| ConnectorMethods.ConnectArm | src/connector/mod.rs:807-838 | takes the machine's step: answered with a stream exactly for a live session, refused exactly at a limit, otherwise queued behind a dial with its key |
| ConnectorMethods.DialArm | src/connector/mod.rs:698-740 | a completed dial is settled as the machine's step, success and failure |
| ConnectorMethods.RunConnector | src/connector/mod.rs:601-843 | the loop over any sequence of events stays in reachable states and keeps the invariant |
| Group.GroupBookkeeping | src/group.rs:164-289 | in every run members equals outstanding members, at most two; the newest number is the largest issued; the list never outgrows the next purge; purges look at no more than two handles per registration |
| Group.WritersFollowNewest | src/group.rs:224-289 | in every run a registered writer that lives is with the newest session, or that session is dead |
| Group.LiveWriterIsListed | src/group.rs:224-289 | in every run a writer that was registered and lives is listed, so the next session to join is handed it |
| Group.ListIsBounded | src/group.rs:265-289 | the list never holds more than twice as many handles as writers were ever alive at once, or sixty-four |
| Group.SessionPair.Enter | src/group.rs:224-258 | admits exactly while fewer than two members are in, and hands every live writer to a live joiner |
| Group.SessionPair.RegisterWriter | src/group.rs:265-289 | registers the writer, rebinding it when its member is stale, and purges at the watermark |
| Group.SessionPair.Retain | src/group.rs:232-234 | keeps exactly the live handles, in order |
| JsonTheorems.RoundTrip | src/tools/json.rs:97-110 | for every well-formed value, at any depth and in both layouts, parsing what is printed gives exactly that value if every float is finite, and is refused otherwise |
| JsonTheorems.LayoutsAgree | src/tools/json.rs:147-186 | the pretty and the compact text of a value parse to the same result |
| JsonTheorems.AcceptsWholeDocuments | src/tools/json.rs:212-221 | a text is accepted exactly when a value starts it and only white space follows |
| JsonTheorems.ValueStable | src/tools/json.rs:253-454 | what the parser reads before the end of the text does not depend on what follows |
| JsonPrefixes.PrefixesExactly | src/tools/json.rs:210-221 | of an accepted document that holds anything but a number, a prefix is accepted exactly when it reaches the end of the value, and then means the same |
| JsonPrefixes.TruncationsExactly | src/tools/json.rs:210-221 | some proper prefix of such a document is accepted exactly when its last byte is white space |
| JsonPrefixes.NoPrefixParses | src/tools/json.rs:210-221 | no proper prefix parses of such a document that does not end in white space: a truncated document is never read as a shorter one |
| JsonPrefixes.ValueCut | src/tools/json.rs:253-454 | the other way: a value that ends within a prefix, or before the end of it for a number, is read the same from the prefix alone |
| JsonPrefixes.NumbersTruncate | src/tools/json.rs:417-454 | the document 12 cut after one byte is read as 1 |
| JsonNumbers.IntPrefixesExactly | src/tools/json.rs:417-454 | of an accepted document that holds an integer, a prefix is accepted exactly when it holds a digit of it |
| JsonNumbers.IntTruncationsExactly | src/tools/json.rs:210-221 | some proper prefix of such a document is accepted exactly when it ends in white space or its number has at least two digits |
| JsonNumbers.NegativeDocument | src/tools/json.rs:417-454 | a minus sign and any number of zeros before any magnitude up to that of the least 64-bit integer is read as its negative |
| JsonNumbers.NoWholePartIsPassedOn | src/tools/json.rs:417-454 | a minus sign, a point and any digits, or none, are whatever number the float library reads them as |
| JsonNumbers.FloatDocument | src/tools/json.rs:417-454 | for every optional minus, digits, optional point and digits, optional exponent of either letter, sign and digits, with a point or an exponent: the document is what the float library makes of the whole text, or is refused |
| JsonNumbers.OverflowRefused | src/tools/json.rs:417-454 | an integer outside 64 bits is refused, whatever zeros it begins with |
| JsonPrefixes.IntDocument | src/tools/json.rs:417-454 | any number of zeros before any non-negative 64-bit integer is read as that integer |
| JsonLenient.UnicodeEscapeExactly | src/tools/json.rs:402-415 | a Unicode escape is accepted exactly when four hexadecimal digits, or a plus and three, spell a code that is no surrogate, and then stands for that code |
| JsonLenient.EscapeDocument | src/tools/json.rs:352-416 | the document of one such escape is its character, or is refused for a surrogate |
| JsonLenient.HexExactly | src/tools/json.rs:402-415 | a hexadecimal digit is one of twenty-two bytes, in either case |
| JsonLenient.ShortEscapeDocument | src/tools/json.rs:352-396 | eight short escapes stand for their characters, and every other is refused |
| JsonLenient.FormFeedAccepted | src/tools/json.rs:229-233 | a document may begin with a form feed |
| JsonLenient.WhitespaceExactly | src/tools/json.rs:229-233 | white space is space, tab, line feed, carriage return and form feed, and nothing else |
| JsonLenient.ControlCharacterAccepted | src/tools/json.rs:352-396 | every control character may stand in a string as it is |
| JsonLenient.BarePointIsPassedOn | src/tools/json.rs:417-454 | the text 1. is whatever number the float library reads it as |
| JsonTheorems.FaithfulExists | src/tools/json.rs:97-110 | the assumption on the float library can be met |
| JsonObjects.LastOccurrenceWins | src/tools/json.rs:289-322 | the member found under a key is the last one with that key in the document |
| JsonObjects.ParsedWellFormed | src/tools/json.rs:253-454 | whatever the parser returns has sorted, distinct keys at every depth |
| JsonObjects.Reprint | src/tools/json.rs:470-543 | for any accepted text without non-finite floats, printing what was parsed and parsing again gives the same value |
| JsonObjects.PrintedPrefix | src/tools/json.rs:210-221 | no proper prefix of a printed array or object parses |
| JsonProof.StringRoundTrip | src/tools/json.rs:352-416 | reading a written string gives the text back, every escape undone |
| JsonProof.IntRoundTrip | src/tools/json.rs:417-454 | every 64-bit integer is read back from its text |
| Utf8.CharRoundTrip | src/tools/json.rs:456-468 | decoding an encoded character of any width gives it back |
| Utf8.DecodeExactly | src/tools/json.rs:352-400 | bytes decode to a text exactly when they are its encoding |
| JsonMethods.Parser.String | src/tools/json.rs:352-416 | the byte loop with its escapes reads what the string grammar reads |
| JsonMethods.Parser.Number | src/tools/json.rs:417-454 | the scanner stops where the number grammar ends and keeps integers and floats apart |
| JsonMethods.Parser.Value | src/tools/json.rs:253-278 | the recursive descent terminates, moves only forward within the text, and agrees with the grammar |
| JsonMethods.Parser.Array | src/tools/json.rs:324-350 | the item loop collects the grammar's items in order |
| JsonMethods.Parser.Object | src/tools/json.rs:289-322 | the member loop builds the grammar's sorted map, later duplicates replacing earlier ones |
| JsonMethods.Parse | src/tools/json.rs:212-221 | the imperative parser computes the grammar's result on every input |
| JsonMethods.WriteString | src/tools/json.rs:525-543 | appends the escaped text |
| JsonMethods.WriteCompact | src/tools/json.rs:153-186 | appends exactly the compact text of the value |
| JsonMethods.WriteValue | src/tools/json.rs:476-523 | appends exactly the indented text of the value |
| JsonLayout.PrettyArray | src/tools/json.rs:476-523 | in the indented form every item has its own line two columns further in, all but the last with a comma, and the closing bracket its own line |
| JsonLayout.PrettyObject | src/tools/json.rs:476-523 | the same for members: key, colon, space, value |
| JsonLayout.CompactItems | src/tools/json.rs:153-186 | the compact form joins items with a comma and a space |
| JsonLayout.CompactMembers | src/tools/json.rs:153-186 | the same for members |
| JsonLayout.PrintedClean | src/tools/json.rs:470-543 | a printed document holds no raw control character but the line breaks of the indented form: the compact form is one line |
| JsonLayout.EscapesExactly | src/tools/json.rs:525-543 | a character is written as it is exactly when it is no quote, no backslash and no control character |
| JsonLayout.NoLeadingZeros | src/tools/json.rs:470-523 | integers are printed without leading zeros |
| PathScore.NoCycle | src/explorer/path_score.rs:17-28 | a path lies on a cycle of migrations, of any length, exactly when its round trip is zero |
| PathScore.ChainEnds | src/explorer/path_score.rs:17-28 | after p migrations for speed and q for loss, the round trip has shrunk by 0.75 to the p times 1.25 to the q, and loss risen by at most 0.02 p - 0.10 q |
| PathScore.ChainIsBounded | src/explorer/path_score.rs:3-28 | between round trips lo and hi and with loss rates, a chain of migrations has at most 6 k + 9 paths, for the computed k |
| PathScore.Units | src/explorer/path_score.rs:3-5 | the least number k of factors 0.3 that bring ten times hi below lo |
| PathScore.BeatsExactly | src/explorer/path_score.rs:17-28 | a path replaces the active one exactly when its round trip is at most five quarters of the active one's with a tenth less loss, or three quarters with at most two hundredths more |
| PathScore.BetterWinsToo | src/explorer/path_score.rs:17-28 | what is no slower and no lossier than a winner wins too |
| TupleStats.LossIsRate | src/explorer/tuple_stats.rs:50-56 | the smoothed loss of any probe history is between 0 and 1 |
| TupleStats.RttIsWithin | src/explorer/tuple_stats.rs:57-64 | the smoothed round trip lies within the range of the measured ones, and exists once one was measured |
| TupleStats.LossFades | src/explorer/tuple_stats.rs:50-56 | the first sample is taken whole, and n equal samples leave seven tenths to the n of the distance |
| TupleStats.RttFades | src/explorer/tuple_stats.rs:57-64 | the same for round trips; losses leave them alone |
| TupleStats.TupleStats.Record | src/explorer/tuple_stats.rs:50-67 | after any sample the fields are the functions of the whole history |
| TupleStats.TupleStats.Score | src/explorer/tuple_stats.rs:38-49 | a path has a score exactly after three probes, one answer, and not three losses in a row; its loss is a rate and its round trip among those measured |
| TupleStats.TupleStats.Tick | src/explorer/tuple_stats.rs:68-106 | each probe is recorded once, by its echo or after 1.5 seconds as a loss, a failed send counts as a loss, and at most one probe is outstanding |
| Calendar.CivilIsGregorian | src/bin/perf-history.rs:257-268 | the closed formula equals the calendar counted day by day from 1 January 1970, forwards and backwards, for every integer |
| Calendar.CivilAdvances | src/bin/perf-history.rs:257-268 | one day later the formula gives the next valid date |
| Calendar.YearFound | src/bin/perf-history.rs:261-264 | the year formula finds the year of every day of a 400-year era, leap days included |
| Stamp.StampOrder | src/bin/perf-history.rs:238-254 | before the year 10000, stamps order as texts the way their seconds order in time |
| Stamp.StampLength | src/bin/perf-history.rs:248-253 | before the year 10000 every stamp has sixteen characters |
| Stamp.StampReads | src/bin/perf-history.rs:238-254 | a stamp before the year 10000 spells its date and its time of day, which add up to the second |
| Stamp.StampsSortExactly | src/bin/perf-history.rs:238-254 | all stamps up to a second sort as their times do exactly when that second lies before the year 10000 |
| Stamp.YearTenThousandSortsFirst | src/bin/perf-history.rs:238-254 | the first second of the year 10000 sorts before the last of 9999 |
| Stamp.NameOrder | src/bin/perf-history.rs:322-334 | names of runs archived in different seconds order as the runs do, whatever their suffixes |
| ArchiveRuns.Listed | src/bin/perf-history.rs:385-397 | the listed runs are sorted by name and are exactly the entries |
| ArchiveRuns.PreviousRun | src/bin/perf-history.rs:400-410 | returns the last name other than the candidate's, which for runs of distinct seconds is the latest other run; none exactly when there is no other |
| Band.Samuelson | src/bin/perf-history.rs:612-619 | n times a reading's squared distance from the mean is at most n - 1 times the sum of all of them |
| Band.CoversExactly | src/bin/perf-history.rs:192-207 | four standard deviations above the mean, and likewise below it, cover every reading of every archive of n readings exactly when n is at most seventeen |
| Band.ExceedsIsFourSigma | src/bin/perf-history.rs:448-452 | the test without a root is the test against mean plus four standard deviations |
| BandRows.MeasuredSpread | src/bin/perf-history.rs:592-628 | mean, deviation, range and revisions of exactly the selected readings, when there are at least eight |
| BandRows.ArchivedValueIsNotWorse | src/bin/perf-history.rs:833-853 | with eight to seventeen readings, a candidate as good as one of them, no larger or for delivery no smaller, is never marked worse |
| BandRows.ArchivedOutlierIsWorse | src/bin/perf-history.rs:833-853 | for every n from eighteen there is an archive whose own reading is marked worse when it recurs |
| BandRows.ArchivedDipIsWorse | src/bin/perf-history.rs:833-853 | and one whose own delivery is |
| BandRows.FewReadingsDecideNothing | src/bin/perf-history.rs:592-628 | with fewer than eight readings the verdict is the one without an archive, so a value seen before can be marked worse |
| BandRows.SettledExactly | src/bin/perf-history.rs:153-184 | without an archive a value is worse exactly above the larger of the settled percentage, by metric and kind of arm, and five milliseconds for a latency; a delivery exactly below nine tenths |
| BandRows.ContainsExactly | src/bin/perf-history.rs:153-154 | an arm is impaired exactly when one of the two words occurs in its name |
| BandRows.MeasuredOnlyWidens | src/bin/perf-history.rs:493-499 | for any archive, a row worse with the measured half is worse without it |
| BandRows.ArmRowsExactly | src/bin/perf-history.rs:810-868 | the rows of an arm come in the report's order, each metric at most once, one for each metric a run has; missing exactly when one run lacks the metric, worse exactly when missing or across the band |
| BandRows.RowsExactly | src/bin/perf-history.rs:786-871 | a row is in the report exactly when it is that of some baseline arm, by both runs' values, or says that the candidate lacks the arm |
| BandRows.RowsConcat | src/bin/perf-history.rs:786-871 | the report over two lists of arms is the two reports one after the other |
| BandRows.ReportKeepsArchivedValues | src/bin/perf-history.rs:786-871 | no row of the report that has a candidate as good as one of eight to seventeen archived readings is worse |
| BandRows.ArchiveOnlyWidens | src/bin/perf-history.rs:786-871 | row by row, the report over any archive differs from the report without one only in verdicts, and rejects no more |
| BandRows.RowsOfArm | src/bin/perf-history.rs:810-868 | the metric loop yields rows in the report's order, one exactly for each metric either run has |
| BandRows.MetricRows | src/bin/perf-history.rs:786-871 | the arm loop yields exactly the rows that baseline and candidate call for, and rejects no more than without an archive |
| Payload.MakeWindow | src/testkit/mux_over_rtp.rs:46-54 | the precomputed window holds the pattern from offset zero |
| Payload.PayloadPatternVerifier.Verify | src/testkit/mux_over_rtp.rs:64-79 | accepts exactly the bytes that continue the pattern, never reads past the window, and advances only on success |
| Payload.ChunkingIsIrrelevant | src/testkit/mux_over_rtp.rs:56-80 | chunks are all accepted exactly when their concatenation matches |
| Payload.ByteSinkPayload | src/testkit/payload.rs:34-39 | the payload is a whole number of periods, as long as fits, and matches the pattern |
| Payload.Saturate | src/testkit/payload.rs:45-54 | whatever short writes happen, the stream is the payload repeated, and nothing for an empty payload |
| Payload.StreamMatches | src/testkit/payload.rs:41-54 | a repeated payload matches exactly when it is a whole number of periods long or never wraps |
| Payload.SaturationIsAccepted | src/testkit/payload.rs:41-54 | a saturating writer's stream is accepted under any read chunking |

## Left out

- Everything inside `mux`, `rtp` and tokio: openers are identities with an aliveness bit that only falls, channels are bounded queues, tasks and timers are nondeterministic steps.
- Panics inside tasks, poisoned locks, and the abort of the background writer when a write half is dropped.
- Error messages and kinds: an error is a failure, or a small datatype where the branch matters.
- Dialling, binding and socket I/O, `src/bidirectional.rs`, `src/session.rs`, `src/stream.rs`, the explorer's probing and candidate rotation, and the testkit servers: plumbing around foreign calls.
- `src/accept_error.rs`, `src/lane_rejection.rs`, `src/byte_count.rs`, `src/task_scope.rs`: would only add easy members.
- Randomness and clocks: nonces, intervals and instants are inputs of the steps.
- `f64` rounding in the margins, the smoothing and the band; the JSON codec's float text is a parameter instead.
- perf-history's archiving, Markdown rendering and text scanning, and `check_delivery_granularity`.
- Liveness: that a dial, a flush or a waiting lane eventually ends. What is proved is that no wake-up or answer is lost.
- GenerationsMethods.RebindStreams: runs without interruption; what other threads may do in between is covered by the steps of `Generations`.
- GenerationsMethods.Track: runs without interruption, as above.
- GenerationsRedial.InstallArm: runs without interruption and with nobody waiting for the dial; `RedialMigrates` covers every interleaving, with waiters served in between.
- Group.SessionPair.Enter: the registry's map from tokens to groups and the reservation of a driver slot are not modelled, only the group that a join finds or creates.
- ConnectorMethods.RunConnector: reset, redial and session-end arms are taken as the machine's steps without separate loops.
- WriteHalfMethods.MigratingWriteHalf.Background: the background writer's own loop is a set of steps, not a separate method.
- BandRows.MeasuredSpread: the square root is an argument with its defining property, not computed.
- Admission: the loops of `wait_for_pair` and of the expiry worker are the steps `PollWait`, `Wake`, `Fetch`, `Notified` and `Expire`, which other threads may interleave, not methods.
- Generations: sessions and streams are entries of maps, not heap objects; aliasing is by identity, and a strong count is the predicate `Held`.
