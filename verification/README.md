# Verified models of the interview platform

A Dafny project that models the parts of the platform whose correctness depends on
interleavings, on invariants over whole runs, or on exact arithmetic, and proves what they
promise. It verifies with `dafny verify dfyconfig.toml` (Dafny 4.11).

| module | models |
|---|---|
| `TokenStore`, `TokenProtocol`, `TokenLogout` | refresh-token families in Redis: the store, the clients interleaved over it, and logging out everywhere |
| `VoiceSessions` | live voice sessions: reconnect, supersede, and the timer that abandons a dropped call |
| `Observer` | the pipeline observer that turns frames into transcript turns |
| `InterviewLifecycle` | the interview's status under session events, terminations and the reaper |
| `QuestionPlan`, `PlanGeneration`, `Rubric` | the versioned plan, the generation lock around the model call, the weight arithmetic |
| `Transcript` | the live upsert, the offline correction pass, and the evidence behind scores |
| `Aggregator` | criterion scores to an overall and a recommendation |
| `Chunker`, `Proctoring`, `RateLimits`, `Sampling` | resume chunks, event severities and verdicts, the two rate limiters, frame sampling |
| `Text` | the few string operations they share |

Code that changes state is modelled by classes and by methods with loops, each proved equal to
a specification function; the properties are then proved about those functions, over single
calls and over whole runs. Protocols are state machines whose steps are the stretches of code
no other client can interrupt: a Redis script or transaction, a database transaction, the code
between two awaits.

## What the models assume

- One clock stands for Redis and the application. It counts whole seconds and does not run backwards; any
  number of them can pass between two steps, also between the JWT check of a presentation and its script.
- A presented token is genuine: its claims are those it was minted with. Settings have their
  default values (refresh tokens live 14 days, the leeway is 10 seconds).
- A database transaction is one atomic step. The code takes no row locks, so isolation at least
  as strong as that is assumed.
- Two calls of `start` for one interview do not overlap.
- One proctoring socket is open at a time per interview, and its thresholds do not change.
- Weights, means and shares are exact reals; scores, coverage and stored weights are whole
  hundredths or ten-thousandths, as they are after rounding.
- Whitespace and case folding, the tokeniser, the split of a resume section into entries, the
  model's reply and the decoded word list are parameters.
- SQLAlchemy emits an UPDATE for a row only when a column has a new value, so `updated_at`
  moves only then.

## What the code turns out not to give

Each of these is a lemma with the concrete run or the exact condition.

- Records and tombstones outlast a JWT by 50 seconds, and two delays share them: the script runs some time
  after the JWT check, and a rotation mints some time after it consumed. A tombstone covers every script run
  at most a given lag after a passing check exactly when the mint, delayed by that lag, comes at most 50
  seconds after the kill. Once the two delays exceed 50 seconds together, however they divide them, a
  family logged out during the rotation is accepted again, unless its token was minted in the very second of
  the logout (`TokenProtocol.TombstoneCovers`,
  `TokenProtocol.SlowRotationSurvivesLogout`). A lag of more than 50 seconds alone makes a genuine token
  unknown and kills its family (`TokenProtocol.RecordOutlivesCheck`, `TokenProtocol.LateScriptIsUnknown`).
- A logout deletes the records its read of the family found. A rotation that registers between that read and
  the MULTI leaves its record behind, under the tombstone (`TokenProtocol.LogoutLeavesNothing`).
- Logging out everywhere deletes the user's index after killing the families it read. A login that
  registers in between drops out of the index, and a second logout everywhere does not see it. The index
  keeps every family that matters exactly when each delete finds whatever registered since its read
  already dead (`TokenLogout.LostLogin`, `TokenLogout.IndexKeptExactly`).
- An interview has one running session throughout exactly when no start registers over a session that
  is still registered; a `stop` that gives up waiting makes that possible, and then the first of the two
  sessions to end unregisters the other (`VoiceSessions.OneSessionPerInterview`,
  `VoiceSessions.TimedOutWaitLosesRegistry`).
- One generation is live and holds the lock throughout exactly when every failure report and every
  answer that can be installed comes while no other generation is live, and every task that begins
  changes a column (`PlanGeneration.OneGenerationAtATime`). Restarting a stale generation with the same
  resume and job description changes none (`PlanGeneration.BeginTakesLock`,
  `PlanGeneration.RestartsDoNotExclude`), and a late failure report frees a successor's lock
  (`PlanGeneration.LateReportDoesNotExclude`).
- The plan's row stops naming the resume a running generation reads exactly when a click on Generate
  meanwhile attaches another one (`PlanGeneration.RowNamesWhatWasRead`).
- A criteria edit leaves a blank competency in place although the column is meant to be null or to
  name a criterion; a validated generation can have one (`QuestionPlan.CriteriaEditStrictness`,
  `QuestionPlan.StrictThroughout`, `QuestionPlan.BlankTagSurvives`). Saving such a plan's questions unchanged
  clears the tag (`QuestionPlan.ResendingQuestions`).
- A completion that reaches the handler before the session's start raises and is dropped, and the
  start then leaves the interview live (`InterviewLifecycle.BusOrderMatters`,
  `InterviewLifecycle.FinishRaises`). A plan with questions but no rubric, which a recruiter can make
  before a generation has landed, blocks the start
  (`InterviewLifecycle.QuestionsWithoutRubricBlockStart`).
- An interview that a recruiter, proctoring or the reaper ends never gets the post-interview chain
  (`InterviewLifecycle.OtherEndsGetNoChain`).
- Trimming an over-long rubric leaves more than six criteria when an entry below the cut repeats one
  above it (`Rubric.TrimLeavesSix`).
- A citation is safe from everything a live session can still send exactly if the cited turn is final
  (`Transcript.EvidenceSafeIffFinal`).
- The per-socket limiter lets twice its limit through in two microseconds (`RateLimits.SocketBoundIsMet`).
  The Redis limiter is called a fixed-window counter in its documentation, but it renews the expiry on
  every attempt: an attempt is let through exactly when the attempts since the last pause of a whole
  window are within the limit (`RateLimits.LetInSincePause`).
- With automatic termination on, a critical event reported over a socket that outlived the end of its
  interview is not kept: the second termination raises, and the event's row is rolled back with it
  (`Proctoring.WhenReportsEnd`).
- An overall is withheld below 49.5% coverage, not 50%, because the coverage is rounded first
  (`Aggregator.WhenNoOverall`).

## Model

| member | source | states |
|---|---|---|
| `TokenStore.RefreshTokenStore.Register` | app/modules/auth/tokens.py:132-152 | one transaction writes an active record, adds it to the family and the family to the user's index, and renews all three expiries |
| `TokenStore.RefreshTokenStore.Consume` | app/modules/auth/tokens.py:85-118 | the script's decision and its whole effect: dead, unknown, mismatch, replay (which deletes every member record), or used |
| `TokenStore.ConsumeSpendsOrKills` | app/modules/auth/tokens.py:85-118 | over every store and every presented claim: the store an acceptance leaves never accepts the token again, anything else leaves the family dead for a record's lifetime, and a replay deletes its member records |
| `TokenStore.WhenAccepted` | app/modules/auth/tokens.py:85-118 | each of the five answers exactly: accepted if and only if the family is not dead and the token's own record is there, unused, and says what the token claims |
| `TokenStore.RegisteredForItsLifetime` | app/modules/auth/tokens.py:132-152 | what a registration writes, in all three key spaces, can be seen for a record's lifetime and no longer |
| `TokenStore.RefreshTokenStore.RevokeFamily` | app/modules/auth/tokens.py:196-204 | the family is tombstoned, its members' records and its member set are gone, nothing else moves |
| `TokenStore.RefreshTokenStore.RevokeAllForUser` | app/modules/auth/tokens.py:206-213 | run without interruption, the loop over families amounts to one simultaneous revocation of all of them, whatever the order, and the deletion of the index; returns how many |
| `TokenProtocol.RunsKeepInv` | app/modules/auth/tokens.py:85-213 | in every interleaving of login, split presentation, split rotation, replay, split logout and split logout everywhere: every issued token has a record or a tombstone that lasts a record's lifetime past its mint, identifiers stay fresh, sets name their own family, one holder per family |
| `TokenProtocol.OneHolderAlways` | app/modules/auth/service.py:172-202 | active records plus rotations in flight never exceed one in any family |
| `TokenProtocol.AcceptedAtMostOnce` | app/modules/auth/tokens.py:85-118 | no token is accepted twice, whatever the interleaving and the delays |
| `TokenProtocol.NoFalseAlarm` | app/modules/auth/tokens.py:39-44 | a genuine token whose script runs within 50 seconds of its JWT check is never answered unknown or mismatch: its used record outlives it |
| `TokenProtocol.RecordOutlivesCheck` | app/modules/auth/tokens.py:39-44 | a record outlives every script run a given lag after a passing JWT check exactly if the lag is at most 50 seconds |
| `TokenProtocol.LateScriptIsUnknown` | app/modules/auth/service.py:179-183 | for every lag beyond that, the concrete run in which a token nobody has touched is answered unknown |
| `TokenProtocol.TombstoneCovers` | app/core/security.py:119-133 | a tombstone covers every script run at most a given lag after a passing JWT check of a token exactly when the token's mint plus that lag comes at most 50 seconds after the kill |
| `TokenProtocol.DeathCoversTokens` | app/modules/auth/tokens.py:85-118 | after a family dies every token of it whose mint plus the lag of its presentation comes at most 50 seconds after the kill is answered dead |
| `TokenProtocol.DeathCoversIssued` | app/modules/auth/tokens.py:85-118 | a token that was out when its family died is never accepted again, whatever the lag between its JWT check and the script |
| `TokenProtocol.ReplyRefines` | app/modules/auth/tokens.py:85-118 | the store's reply is the reply of a three-state machine (alive with one token, rotating, dead) that knows no clock and no keys, if the delay of the token's mint after the consume before it and the lag of its script after the JWT check are 50 seconds together at most |
| `TokenProtocol.StepRefines` | app/modules/auth/service.py:152-202 | under the same bound, every step of the store, JWT check and script apart, is a step of that machine for every family at once |
| `TokenProtocol.RunRefines` | app/modules/auth/service.py:152-218 | every run whose presentations keep that bound is a run of the machine, reply by reply |
| `TokenProtocol.DeadForGood` | app/modules/auth/tokens.py:85-118 | over those runs a dead family stays dead, even when a rotation in flight registers afterwards |
| `TokenProtocol.KilledFamilyStaysShut` | app/modules/auth/service.py:172-218 | after a replay of a used token or a logout, every token of the family is answered dead, if the two delays of the family's own presentations are 50 seconds together at most; other families' may be as slow as they like |
| `TokenProtocol.KilledTokensStayOut` | app/modules/auth/service.py:172-218 | and a token that was out at the kill is never accepted again, with no bound on any delay |
| `TokenProtocol.RunsKeepListed` | app/modules/auth/tokens.py:132-152 | over every run a family's member set names every unexpired record of the family, as long as no revocation of it has missed one |
| `TokenProtocol.NeverKilledIsListed` | app/modules/auth/tokens.py:132-152 | so it does in particular for every family that was never killed |
| `TokenProtocol.ReplayLeavesNothing` | app/modules/auth/tokens.py:105-112 | a replay leaves no unexpired record of its family, the replayed one included, and no member set |
| `TokenProtocol.LogoutLeavesNothing` | app/modules/auth/tokens.py:196-204 | a revocation leaves no unexpired record of the family exactly if none registered between its read of the members and its MULTI |
| `TokenProtocol.SlowRotationSurvivesLogout` | app/modules/auth/service.py:172-202 | for every stall (at least a second) and lag (less than a record's lifetime) beyond 50 seconds together, the concrete run in which a rotation in flight at the logout brings the family back |
| `TokenLogout.IndexKeptExactly` | app/modules/auth/tokens.py:206-213 | over every run, the index names the family of every token that can still be accepted in time and is not dead anyway, exactly when each delete finds whatever registered for its user since the read dead |
| `TokenLogout.SafeWhenDead` | app/modules/auth/tokens.py:206-213 | over runs whose presentations keep the 50 seconds that is a question of whether those families are tombstoned |
| `TokenLogout.LostLogin` | app/modules/auth/tokens.py:206-213 | the concrete run in which a login between the read and the delete is lost to a second logout everywhere and its token accepted after it |
| `TokenLogout.LogoutEverywhere` | app/modules/auth/tokens.py:206-213 | in every continuation after a logout everywhere, a token of a family it read is answered dead if its mint plus the lag of its presentation comes at most 50 seconds after the read, and is never accepted, whatever the lag, if it was out at the read |
| `TokenLogout.LogoutCoversEveryToken` | app/modules/auth/service.py:221-223 | in every continuation, each of the tokens the user had at the read is answered dead when presented within the 50 seconds, if no earlier delete had thrown a family away |
| `TokenLogout.LogoutCatchesRotations` | app/modules/auth/service.py:172-223 | a rotation in flight at the logout does not escape it, whenever it mints and registers, if the family's presentations keep the 50 seconds |
| `TokenLogout.NobodyElseIsLoggedOut` | app/modules/auth/tokens.py:206-213 | no step of one user's logout changes what any other user's token is answered |
| `TokenLogout.RunsKeepOwners` | app/modules/auth/service.py:152-202 | in every run a family's tokens all belong to one user of one organisation, and only that user's index and logouts name the family |
| `TokenLogout.EachRevocationGetsCloser` | app/modules/auth/tokens.py:206-213 | each revocation made for a logout everywhere leaves it exactly one family fewer to kill |
| `VoiceSessions.SessionManager.BeginStart` | app/modules/voice/session_manager.py:163-168 | a start first cancels the pending timer, then marks the old session superseded |
| `VoiceSessions.SessionManager.RegisterSession` | app/modules/voice/session_manager.py:226-231 | the new session takes the registry entry |
| `VoiceSessions.SessionManager.OnDrop` | app/modules/voice/session_manager.py:267-283 | a drop schedules one timer, only for a running session nobody has stopped |
| `VoiceSessions.SessionManager.AbandonAfterGrace` | app/modules/voice/session_manager.py:103-119 | the timer leaves the pending map and stops the registered session as abandoned |
| `VoiceSessions.SessionManager.LeaveRegistry` | app/modules/voice/session_manager.py:438-451 | a finished session leaves the registry and its pending timer is called off |
| `VoiceSessions.SessionManager.Announce` | app/modules/voice/session_manager.py:453-489 | the end is announced unless the session was superseded |
| `VoiceSessions.RunsKeepBooks` | app/modules/voice/session_manager.py:95-138 | in every run whatever, registered sessions are running ones, timers tick exactly when pending, and ends are announced once |
| `VoiceSessions.RunsKeepRegistry` | app/modules/voice/session_manager.py:149-245 | as long as no start registers over a registered session, the registry holds exactly the running sessions and timers wait only for those |
| `VoiceSessions.OneSessionPerInterview` | app/modules/voice/session_manager.py:149-245 | over every run, each interview has at most one running session throughout exactly when no start registers over a session that is still registered |
| `VoiceSessions.PatientRunsNeverTakeOver` | app/modules/voice/session_manager.py:574-596 | it is enough that no stop gives up waiting on a session that is still running |
| `VoiceSessions.AnnouncedAtMostOnce` | app/modules/voice/session_manager.py:438-490 | a session's end is announced at most once and never as superseded |
| `VoiceSessions.AnnouncedExactly` | app/modules/voice/session_manager.py:453-489 | over every run the ends announced are exactly those of the sessions that came to announce themselves and had not been superseded, each with the reason it had then |
| `VoiceSessions.EndsOnlyGrow` | app/modules/voice/session_manager.py:453-489 | in the order in which they came |
| `VoiceSessions.LastWordStands` | app/modules/voice/session_manager.py:574-596 | over every run a session's reason is the last one anybody gave it: its start completed, a reconnect superseded, the grace timer or a crash abandoned, a stop its own |
| `VoiceSessions.OneChance` | app/modules/voice/session_manager.py:438-490 | a session announces its end or fails to once, and never after either |
| `VoiceSessions.DropEndsInAbandonment` | app/modules/voice/session_manager.py:103-138 | after a drop the timer can go off until somebody starts the interview again or a session of it ends, and when it does the registered session is stopped as abandoned |
| `VoiceSessions.StartGetsThrough` | app/modules/voice/session_manager.py:149-245 | a start gets a running, registered session once the one it replaces has stopped running; one that fails makes room for the next |
| `VoiceSessions.LeavesForGood` | app/modules/voice/session_manager.py:438-490 | in every run whatever, the reason a session leaves the registry with is final and the only one ever announced, so one that leaves superseded is never announced |
| `VoiceSessions.PendingMeansRunning` | app/modules/voice/session_manager.py:122-138 | without such a takeover a pending abandon timer implies a running registered session |
| `VoiceSessions.CancelledTimerNeverFires` | app/modules/voice/session_manager.py:133-138 | a timer called off by a reconnect never reaches its stop |
| `VoiceSessions.RejoinKeepsInterview` | app/modules/voice/session_manager.py:574-596 | without such a takeover, no drop, timer or teardown after a rejoin, and no stop of the new session, ends the interview on the old session's behalf |
| `VoiceSessions.TimedOutWaitLosesRegistry` | app/modules/voice/session_manager.py:574-596 | the concrete run in which a wait gives up on a running session and the registry loses the new one |
| `Observer.TranscriptObserver.OnPushFrame` | app/modules/voice/observers.py:148-171 | one hop of one frame, with its de-duplication, is the specified step |
| `Observer.TranscriptObserver.FlushBotTurn` | app/modules/voice/observers.py:208-222 | the pending fragments become one interviewer turn or, if blank, none |
| `Observer.WatermarkIsSeenSet` | app/modules/voice/observers.py:120-146 | remembering the highest id equals remembering all ids if and only if frames are first pushed in id order |
| `Observer.SessionTranscript` | app/modules/voice/observers.py:148-222 | a session with its final flush publishes exactly the transcript of the accepted frames, offsets included: an utterance at its frame, a reply from its first fragment to its stop; and nothing is left pending |
| `Observer.RepushesChangeNothing` | app/modules/voice/observers.py:120-146 | any pattern of repeated pushes leaves the same observer and the same turns, ordinals and offsets included |
| `Observer.BotSpeechConserved` | app/modules/voice/observers.py:148-222 | every bot fragment is in exactly one interviewer turn, in order, up to trimming |
| `Observer.TurnsConsecutiveAndTimed` | app/modules/voice/observers.py:102-118 | ordinals run on from the start ordinal without a gap and offsets are ordered |
| `InterviewLifecycle.InterviewTable.Move` | app/modules/interview/state_machine.py:88-118 | a status change is a legal edge or an error, stamps its column once, and reports a re-entry as no change |
| `InterviewLifecycle.InterviewTable.OnSessionStarted` | app/modules/interview/service.py:132-158 | going live and freezing the plan are one transaction: both or neither |
| `InterviewLifecycle.InterviewTable.OnSessionEnded` | app/modules/interview/service.py:240-257 | finishing and keeping the recording are one transaction, which also decides whether a chain is due; what it raises, if it raises |
| `InterviewLifecycle.InterviewTable.Enqueue` | app/modules/interview/service.py:259-271 | the chain is enqueued after the commit, and is lost if that fails |
| `InterviewLifecycle.InterviewTable.TerminateInterview` | app/modules/interview/service.py:187-202 | an interview that is over cannot be terminated, and the error says so |
| `InterviewLifecycle.InterviewTable.ExpireStale` | app/modules/interview/service.py:205-229 | the bulk UPDATE: no stale row is left, only rows created before the cutoff that had not ended change, and the count is the number of rows whose status changed |
| `InterviewLifecycle.RunsKeepInv` | app/modules/interview/service.py:132-271 | in every order of events: completed_at is set exactly on ended interviews, started_at only on ones that went live, and chains are distinct and belong to ended interviews |
| `InterviewLifecycle.StepAdvancesRows` | app/modules/interview/state_machine.py:36-62 | a step moves a status along a legal edge or not at all, never rewrites a timestamp, and stamps only its own time |
| `InterviewLifecycle.TerminalAbsorbs` | app/modules/interview/state_machine.py:36-62 | an ended interview keeps its status and the moment it ended for good |
| `InterviewLifecycle.HowItEnded` | app/modules/interview/service.py:161-229 | over every run an interview is over, with a given status, exactly if a session's end, a termination or the reaper ended it so while it could: by the session's reason, once invited, or before it was joined; and it ended when that step said |
| `InterviewLifecycle.RecordingIsTheLast` | app/modules/interview/service.py:240-257 | over every run the recording kept is that of the last session's end that had one and did not raise |
| `InterviewLifecycle.EveryRowWasCreated` | app/modules/interview/service.py:102-130 | every row was created in the run, invited or not, with nothing stamped, at the time it says |
| `InterviewLifecycle.ChainOnce` | app/modules/interview/service.py:240-271 | the post-interview chain is enqueued at most once per interview, and only for one that is over |
| `InterviewLifecycle.ChainsAreForSessionEnds` | app/modules/interview/service.py:240-271 | a chain is due, lost or enqueued for exactly the interviews that a session's end has ended |
| `InterviewLifecycle.ChainedExactly` | app/modules/interview/service.py:259-271 | and enqueued for exactly those whose handler got to enqueue it while it was due |
| `InterviewLifecycle.OtherEndsGetNoChain` | app/modules/interview/service.py:187-229 | an interview ended by a termination or by the reaper never gets one |
| `InterviewLifecycle.SupersededMovesNothing` | app/modules/interview/service.py:161-184 | a superseded session changes no status and enqueues nothing |
| `InterviewLifecycle.BulkExpiryIsTheLoop` | app/modules/interview/service.py:205-229 | expiring each stale row by a legal transition, in any order, gives the bulk UPDATE's result |
| `InterviewLifecycle.FinishRaises` | app/modules/interview/service.py:161-184 | exactly when finishing raises |
| `InterviewLifecycle.WhatIsRaised` | app/modules/interview/service.py:132-202 | which error each handler raises and when, and that a handler that raises leaves no trace |
| `InterviewLifecycle.BusOrderMatters` | app/modules/interview/service.py:235-271 | for every row, reason and plan, swapping a session's two events leaves the same status exactly unless the session completed in an invited interview whose plan lets it start |
| `InterviewLifecycle.StartTakesEffect` | app/modules/interview/service.py:132-158 | exactly when a start takes effect; if it does, the interview is live and its plan, contents untouched, frozen unless it has no questions, and if not, nothing has changed |
| `InterviewLifecycle.QuestionsWithoutRubricBlockStart` | app/modules/interview/service.py:132-158 | a plan a recruiter can make that makes every start fail |
| `QuestionPlan.PlanRow.ApplyGeneration` | app/modules/question_plan/service.py:175-240 | a generation replaces questions and criteria whole, or fails and changes nothing |
| `QuestionPlan.PlanRow.EditQuestions` | app/modules/question_plan/service.py:278-321 | freeze, version and tag checks, then all questions replaced and one version step, or nothing |
| `QuestionPlan.PlanRow.ClearOrphans` | app/modules/question_plan/service.py:324-386 | tags whose criterion is gone are cleared, every other question is untouched |
| `QuestionPlan.PlanRow.EditCriteria` | app/modules/question_plan/service.py:324-386 | the checks in order, then criteria replaced and orphaned tags cleared together, or nothing |
| `QuestionPlan.PlanRow.SignOff` | app/modules/question_plan/service.py:389-407 | only a generated, non-empty plan can be approved |
| `QuestionPlan.PlanRow.FreezePlan` | app/modules/question_plan/service.py:410-425 | freezing is idempotent and refuses an empty plan |
| `QuestionPlan.CheckedIsWellGenerated` | app/modules/question_plan/generator.py:124-162 | what validation accepts, also after ungrounded questions are dropped, has distinct names, weights summing to one, and no tag without a criterion |
| `QuestionPlan.ValidationKeepsOrder` | app/modules/question_plan/generator.py:124-162 | exactly when validation accepts; it then keeps every question and criterion in place, drops only tags that name no criterion, and normalises the weights |
| `QuestionPlan.KeptInOrder` | app/modules/question_plan/generator.py:412-414 | dropping the ungrounded questions keeps exactly the others, in order |
| `QuestionPlan.WhenGenerationsLand` | app/modules/question_plan/service.py:175-240 | exactly when a generation is installed |
| `QuestionPlan.GenerationStoresWhatWasGiven` | app/modules/question_plan/service.py:175-240 | the k-th stored question and criterion are the k-th given ones, trimmed; the plan is a ready draft with no error, one version on |
| `QuestionPlan.EditStoresWhatWasSent` | app/modules/question_plan/service.py:278-321 | the k-th stored question is the k-th one sent, its text trimmed, its tag trimmed or dropped if blank; nothing else but the version changes |
| `QuestionPlan.WhenQuestionEditsFail` | app/modules/question_plan/service.py:278-321 | exactly when a question edit is accepted, and which of its refusals comes first |
| `QuestionPlan.ResendingQuestions` | app/modules/question_plan/service.py:278-321 | in every reachable unfrozen plan, sending back its own questions against its own version is accepted, and changes only the version exactly if no tag is blank |
| `QuestionPlan.CriteriaEditStoresWhatWasSent` | app/modules/question_plan/service.py:324-386 | the k-th stored criterion is the k-th one sent, its name trimmed, its weight to four places; questions keep their text and order, and a tag stays exactly if it is blank or names a criterion that is left |
| `QuestionPlan.WhenCriteriaEditsFail` | app/modules/question_plan/service.py:324-386 | exactly when a criteria edit is accepted, and which of its refusals comes first |
| `QuestionPlan.ResendingCriteria` | app/modules/question_plan/service.py:324-386 | in every reachable unfrozen plan, sending back its own rubric is accepted exactly if it has one, and changes only the version |
| `QuestionPlan.WhenSignOffsFail` | app/modules/question_plan/service.py:389-425 | which refusal of a sign-off comes first, that there is no other, and the one refusal of a freeze |
| `QuestionPlan.ApprovedMeansSignedOff` | app/modules/question_plan/service.py:175-425 | over every run a plan is approved as of a moment exactly if a generated plan with questions and a rubric was signed off then and no generation has replaced it and nothing frozen it since |
| `QuestionPlan.GenerationIsLastReport` | app/modules/question_plan/service.py:175-261 | over every run the generation column says what the last generation to begin, land or fail said |
| `QuestionPlan.PlanAlwaysConsistent` | app/modules/question_plan/service.py:175-425 | in every run a non-empty rubric weighs exactly one in four places with distinct names, and every tag is blank or names a current criterion |
| `QuestionPlan.VersionNeverDecreases` | app/modules/question_plan/service.py:264-425 | the version never decreases |
| `QuestionPlan.OneEditPerVersion` | app/modules/question_plan/service.py:264-275 | of all edits made against one version, at most one succeeds |
| `QuestionPlan.SameVersionSameContents` | app/modules/question_plan/service.py:175-425 | a version identifies the questions and the rubric |
| `QuestionPlan.FrozenForGood` | app/modules/question_plan/service.py:410-425 | after the freeze status, version, questions and criteria never change |
| `QuestionPlan.CriteriaEditStrictness` | app/modules/question_plan/service.py:324-386 | exactly when a criteria edit leaves every tag null or naming a criterion |
| `QuestionPlan.StrictThroughout` | app/modules/question_plan/service.py:175-425 | over every run each tag is null or names a criterion throughout exactly when no criteria edit that goes through leaves a blank tag without a blank criterion |
| `QuestionPlan.OtherWritesAreStrict` | app/modules/question_plan/service.py:175-321 | every other write leaves every tag null or naming a criterion |
| `QuestionPlan.BlankTagSurvives` | app/modules/question_plan/service.py:324-386 | the concrete run, from a generation the validator accepts, after which a question keeps a blank tag that names nothing |
| `PlanGeneration.PlanTask.Begin` | app/workers/tasks/plan_tasks.py:99-150 | the task's first transaction, branch by branch |
| `PlanGeneration.PlanTask.Install` | app/workers/tasks/plan_tasks.py:152-197 | the answer the model gave this task is applied, or refused, in a transaction of its own |
| `PlanGeneration.PlanTask.Fail` | app/modules/question_plan/service.py:255-261 | a failure moves the generation's own columns, frozen or not, leaves the rest of the plan alone, and frees the lock for the next task |
| `PlanGeneration.WhenTasksBegin` | app/workers/tasks/plan_tasks.py:99-150 | exactly when a task begins, is put off, or is dropped |
| `PlanGeneration.UnforcedLeavesReadyAlone` | app/workers/tasks/plan_tasks.py:108-109 | an unforced task changes nothing about a ready plan |
| `PlanGeneration.ReadyPlanIsTheRecruiters` | app/workers/tasks/plan_tasks.py:99-197 | over every run, a plan that is ready with no generation under way stays so, and its questions and rubric change by a recruiter's edit alone, until somebody forces a generation |
| `PlanGeneration.BeginTakesLock` | app/modules/question_plan/service.py:61-76 | a task that begins holds the lock exactly when its transaction changed a column |
| `PlanGeneration.StepKeepsExclusive` | app/workers/tasks/plan_tasks.py:99-197 | a step keeps exclusion exactly when it is safe: a report or an applicable answer while no other generation is live, or a begin that changes a column |
| `PlanGeneration.OneGenerationAtATime` | app/workers/tasks/plan_tasks.py:99-197 | over all runs of duplicate, forced, retried, restarted and late tasks, at most one generation is live and holds the lock throughout exactly when every step is safe |
| `PlanGeneration.RestartsDoNotExclude` | app/workers/tasks/plan_tasks.py:99-150 | the concrete run in which two restarts of a stale generation run side by side |
| `PlanGeneration.LateReportDoesNotExclude` | app/workers/tasks/plan_tasks.py:152-197 | the concrete run in which a stale task's failure report frees its successor's lock |
| `PlanGeneration.ContentsAreWhole` | app/modules/question_plan/service.py:175-240 | in every reachable state questions and rubric are both empty, or last touched by a recruiter's edit, or both, whole, the answer one model call gave one task that had begun in the run, with no write since |
| `PlanGeneration.RowNamesWhatWasRead` | app/modules/question_plan/service.py:152-172 | over safe runs the row names the resume and job description every live generation read, exactly when no click attaches another resume meanwhile |
| `Rubric.NormaliseWeights` | app/modules/question_plan/generator.py:164-219 | the in-place loops compute the specified rounding and drift, or refuse and change nothing |
| `Rubric.NormalisedSumsToOne` | app/modules/question_plan/generator.py:164-219 | the weights sum to exactly one whatever the rounding left over |
| `Rubric.NormalisedIsClose` | app/modules/question_plan/generator.py:164-219 | every weight but the heaviest is within half a quantum of its share, the heaviest within (n - 1) / 2 |
| `Rubric.NormalisedInRange` | app/modules/question_plan/generator.py:164-219 | for up to 141 criteria (n (n - 1) below 20,000) every weight lies in [0, 1], and a share above half a quantum stays positive; `SixInRange` is the instance for the validated rubric |
| `Rubric.NormalisedTwice` | app/modules/question_plan/generator.py:164-219 | normalising a normalised rubric changes nothing |
| `Rubric.RoundHalfEvenIsFair` | app/modules/question_plan/generator.py:164-219 | ties go to the even neighbour, so rounding a negative is the negative of rounding |
| `Rubric.TrimOfFew` | app/modules/question_plan/generator.py:79-122 | six entries or fewer are left alone |
| `Rubric.TrimKeepsHeaviest` | app/modules/question_plan/generator.py:79-122 | nothing dropped outweighs anything kept, and among pairwise different entries ties keep the earlier one |
| `Rubric.TrimLeavesSix` | app/modules/question_plan/generator.py:79-122 | exactly six remain unless an entry below the cut equals one above it |
| `Rubric.TrimOfDistinct` | app/modules/question_plan/generator.py:79-122 | pairwise different entries: six of them, in the original order |
| `Transcript.TranscriptTable.RecordTurn` | app/modules/interview/transcript.py:45-86 | the upsert never touches a final turn, and one that would end before it starts changes nothing |
| `Transcript.TranscriptTable.MatchWords` | app/modules/scoring/transcript_pass.py:165-173 | exactly the words at least half inside the window, in order |
| `Transcript.TranscriptTable.Reconcile` | app/modules/scoring/transcript_pass.py:180-211 | a correction for exactly the turns that get one |
| `Transcript.TranscriptTable.Apply` | app/modules/scoring/transcript_pass.py:214-268 | the whole pass, with its early returns |
| `Transcript.PassKeeps` | app/modules/scoring/transcript_pass.py:236-260 | interviewer text, final turns and all timings survive the pass |
| `Transcript.PassWrites` | app/modules/scoring/transcript_pass.py:180-268 | what a pass makes of each turn: nothing without a recording or words; otherwise a candidate turn becomes final, and reads as the words of its window if they are not blank and at least half as many as it had |
| `Transcript.WordsInOrder` | app/modules/scoring/transcript_pass.py:165-173 | the words of a window are exactly those at least half inside, in spoken order |
| `Transcript.JoinedTogether` | app/modules/scoring/transcript_pass.py:197-202 | they are joined with one space |
| `Transcript.NoWordIsLost` | app/modules/scoring/transcript_pass.py:165-173 | of two windows that meet, one at least gets each word spoken within both, exactly if the word takes any time |
| `Transcript.PassIsIdempotent` | app/modules/scoring/transcript_pass.py:236-260 | after a completed pass another one, over any words, changes nothing |
| `Transcript.WordGoesToTwoTurnsAtMost` | app/modules/scoring/transcript_pass.py:165-173 | over disjoint turns a word is attributed to two at most, and to two only in exact halves |
| `Transcript.FinalIsFixed` | app/modules/interview/transcript.py:62-86 | no sequence of replays and passes changes a final turn |
| `Transcript.RowsAreTheReplayed` | app/modules/interview/transcript.py:62-86 | after any replays and passes from the empty table there is a row for exactly the turns replayed, with the speaker and start of its first replay |
| `Transcript.LiveRowIsItsLastReplay` | app/modules/interview/transcript.py:62-86 | and a row that is not final reads, text, question and end, as the last of its replays that would not end it before it starts |
| `Transcript.VerifyEvidence` | app/modules/scoring/rubric_scorer.py:125-158 | exactly the findable citations are kept, in order, each where it is first found |
| `Transcript.QuotesAreCutOut` | app/modules/scoring/rubric_scorer.py:117-158 | a quote can be found exactly in a candidate turn whose folded text is the folded quote with something before and after |
| `Transcript.ScoreCriterion` | app/modules/scoring/rubric_scorer.py:170-215 | a score is discarded exactly when no citation can be found, and all evidence kept is true of the rows |
| `Transcript.EvidenceStaysTrue` | app/modules/scoring/rubric_scorer.py:125-158 | scored after a completed pass, a citation stays true through every later write |
| `Transcript.EvidenceSafeIffFinal` | app/modules/interview/transcript.py:62-86 | before that it is safe from everything a live session can send, and from every pass, exactly if the cited turn is final |
| `Aggregator.WhenNoOverall` | app/modules/scoring/aggregator.py:100-132 | exactly when no overall is given, and that sound input is never divided by zero |
| `Aggregator.NothingGraded` | app/modules/scoring/aggregator.py:100-115 | with nothing graded, a candidate who took part gets the lowest score and no hire, anybody else no number |
| `Aggregator.RecommendationFromMean` | app/modules/scoring/aggregator.py:66-71 | the recommendation by the exact mean: strong hire from 4.495, hire from 3.495, borderline from 2.495 |
| `Aggregator.OutcomeCounts` | app/modules/scoring/aggregator.py:117-148 | the counts are those of the criteria and of the graded ones, the coverage is the graded share of the weight to the nearest hundredth |
| `Aggregator.WhenItDividesByZero` | app/modules/scoring/aggregator.py:117-140 | exactly when the division raises on an unsound rubric |
| `Aggregator.OverallIsOnTheScale` | app/modules/scoring/aggregator.py:134-140 | whatever the weights and scores, a number that is given lies between 1 and 5 |
| `Aggregator.TallyOfParts` | app/modules/scoring/aggregator.py:117-132 | a rubric counts as its parts do together, however it is divided |
| `Aggregator.TallyOfOne` | app/modules/scoring/aggregator.py:117-132 | and one criterion with its weight and, if graded, weight times score |
| `Aggregator.OverallIsBetween` | app/modules/scoring/aggregator.py:134-140 | the overall lies between the least and greatest graded score, so the clamp never acts, and within half a hundredth of the exact mean |
| `Aggregator.EqualScoresStand` | app/modules/scoring/aggregator.py:1-22 | criteria never reached do not drag the number down |
| `Aggregator.OrderDoesNotMatter` | app/modules/scoring/aggregator.py:73-148 | permuting the criteria changes nothing |
| `Aggregator.OnlyProportionsMatter` | app/modules/scoring/aggregator.py:73-148 | scaling all weights changes nothing |
| `Aggregator.UngradedDoNotCount` | app/modules/scoring/aggregator.py:117-140 | for a participant, ungraded criteria lower the coverage and change nothing else |
| `Aggregator.HigherScoresNeverHurt` | app/modules/scoring/aggregator.py:66-148 | raising scores never lowers the overall or the recommendation |
| `Chunker.Split` | app/modules/resume/chunker.py:48-70 | the line loop computes the greedy grouping |
| `Chunker.SplitRoundTrip` | app/modules/resume/chunker.py:48-70 | joining the parts gives the text back; a part is shorter than the limit or one whole line, and a text within the limit is not split |
| `Chunker.SplitIsGreedy` | app/modules/resume/chunker.py:48-70 | no part could have taken the first line of the next |
| `Chunker.Merge` | app/modules/resume/chunker.py:73-81 | the folding loop computes the greedy grouping |
| `Chunker.MergeKeepsSpans` | app/modules/resume/chunker.py:73-81 | all spans survive in order, no merged span exceeds the limit, only undersized ones are merged into their predecessor, and one stays undersized only where it did not fit |
| `Chunker.SpansFit` | app/modules/resume/chunker.py:100-105 | after both, a span over the limit is a single line of the resume |
| `Chunker.SectionTextSurvives` | app/modules/resume/chunker.py:93-106 | the spans of a section ungroup into parts and the parts rejoin into its entries, in order; a blank section has none |
| `Chunker.EverySpanHasItsChunk` | app/modules/resume/chunker.py:93-112 | every span of every section has its chunk, in order, with its section's name and its whole text |
| `Chunker.EveryChunkHasItsSpan` | app/modules/resume/chunker.py:93-112 | and there are no other chunks |
| `Chunker.CapKeepsTheFirst` | app/modules/resume/chunker.py:107-112 | the cap keeps the first chunks, as many as it allows |
| `Chunker.OrdinalsAreConsecutive` | app/modules/resume/chunker.py:93-112 | ordinals are 0, 1, 2, ... |
| `Chunker.ChunkSections` | app/modules/resume/chunker.py:84-112 | the capped run is exactly the first chunks of the uncapped one |
| `Proctoring.SessionCounters.Prime` | app/modules/proctoring/collector.py:112-125 | the counts start as the stored ones |
| `Proctoring.SessionCounters.Record` | app/modules/proctoring/collector.py:169-225 | the row's severity is that of its place among the stored rows, and the counts stay in step unless the write failed |
| `Proctoring.RunsKeepInv` | app/api/v1/proctoring.py:222-300 | over all runs of connections and failures the open socket's counts are the stored ones, and every reported row has the severity an unbroken run would give it |
| `Proctoring.ReconnectsDoNotReset` | app/modules/proctoring/collector.py:112-125 | two runs that stored the same reports gave them the same severities, wherever they were cut |
| `Proctoring.UnbrokenRun` | app/api/v1/proctoring.py:222-300 | with termination off, a candidate who connects and reports has exactly those reports stored, in order, each graded by its place |
| `Proctoring.DerivedAreStored` | app/modules/proctoring/collector.py:169-225 | what the server derives is stored whatever the socket does, in order, and nothing else passes for it |
| `Proctoring.ServerTypesAreNotReported` | app/modules/proctoring/collector.py:144-152 | a client cannot report what only the server can know |
| `Proctoring.WhenReportsEnd` | app/api/v1/proctoring.py:265-300 | in every run a report that does not fail ends the interview and closes the socket exactly when termination is on and its severity is critical; it is stored unless it is such a report on an interview that has ended already |
| `Proctoring.NoReportsAfterTermination` | app/api/v1/proctoring.py:222-300 | once it has, no later connection stores another report |
| `Proctoring.NoReportsAfterEnd` | app/api/v1/proctoring.py:222-231 | however an interview ends, no report is stored once its socket is closed |
| `Proctoring.Compute` | app/modules/proctoring/verdict.py:127-144 | kind, counts per type and frame count from the grouped counts are those the rows imply, whatever the order of the groups |
| `Proctoring.OneCriticalFlags` | app/modules/proctoring/verdict.py:40-46 | one critical event, a second voice or a second face among them, flags the interview |
| `Proctoring.WhatAnEventIsWorth` | app/modules/proctoring/rules.py:60-120 | an absent face is a warning, the fourth of which flags; silence and context never make the verdict worse than clean |
| `Proctoring.MoreEventsNeverHelp` | app/modules/proctoring/verdict.py:75-124 | a further event never makes the verdict milder |
| `Proctoring.VerdictFromCounts` | app/modules/proctoring/rules.py:90-120 | the verdict on a list of reports depends only on how often each type occurred, by an explicit formula |
| `Proctoring.BlurVerdict` | app/modules/proctoring/rules.py:104-109 | n blurs with limit L: flagged exactly past min(2L, L + 3), otherwise suspicious exactly past L |
| `Proctoring.RunVerdict` | app/modules/proctoring/verdict.py:75-144 | after every run of connections, failures and derived rows the verdict is a formula in how often each type was reported and what was derived, and no data exactly if nothing was |
| `Proctoring.BlurRunVerdict` | app/modules/proctoring/verdict.py:75-144 | the blur thresholds for every run that stored only blurs, however reconnects cut it |
| `RateLimits.RateLimiter.Allow` | app/modules/proctoring/collector.py:83-92 | one event against the fixed window |
| `RateLimits.RateLimiter.Drive` | app/modules/proctoring/collector.py:69-92 | a whole run of events passes exactly those the specification passes |
| `RateLimits.SocketBound` | app/modules/proctoring/collector.py:69-92 | at most twice the limit passes in any half-open minute |
| `RateLimits.SocketBoundIsMet` | app/modules/proctoring/collector.py:69-92 | and twice the limit does pass, for every limit |
| `RateLimits.RedisCounter.RateLimit` | app/core/dependencies.py:231-250 | one attempt: count, renew the expiry, refuse over the limit |
| `RateLimits.RedisBound` | app/core/dependencies.py:231-250 | at most the limit is allowed in any half-open interval of the window's length |
| `RateLimits.LetInSincePause` | app/core/dependencies.py:231-250 | an attempt is let through exactly when the attempts since the last pause of a whole window, itself included, are within the limit |
| `RateLimits.SteadyAttemptsAreShutOut` | app/core/dependencies.py:231-250 | so without such a pause exactly the first attempts up to the limit are ever allowed |
| `Sampling.Sample` | app/workers/tasks/proctoring_tasks.py:58-68 | the comprehension, or the rows unchanged when they are few enough |
| `Sampling.SampleIsSpread` | app/workers/tasks/proctoring_tasks.py:58-68 | all rows if they are no more than the limit; otherwise exactly as many as the limit, in order, none twice, the first among them, and at most one gap left at the end |
| `Sampling.GapsAreEven` | app/workers/tasks/proctoring_tasks.py:58-68 | neighbouring samples are the whole part of n / limit apart or its ceiling |

## Left out

- TokenStore.RefreshTokenStore.RevokeAllForUser: the method runs without interruption; `TokenProtocol` splits it into the steps other clients get in between.
- VoiceSessions.OneSessionPerInterview: two overlapping starts of one interview are not modelled.
- Sampling.GapsAreEven: the quotient is exact here; the source divides floats, whose rounding can move an index by one.
- Aggregator.OverallIsBetween: Decimal's 28 significant digits are taken as exact arithmetic.
- Chunker.ChunkSections: how a section falls into entries is a parameter; the entry pattern is not modelled, and the default sizes (1400, 80, 120) are arguments.
- Proctoring.Compute: the wording and order of the reasons are not modelled.
- InterviewLifecycle.InterviewTable.OnSessionEnded: a key that fails to upload, notifications and what the chain does are not modelled.
- Observer.TranscriptObserver.OnPushFrame: the voice signals it also publishes and the speaker names are not modelled; the clock is the time of the hop.
- QuestionPlan.PlanRow.ApplyGeneration: descriptions, band descriptors, follow-up hints and time budgets are carried by the source and not modelled.
- QuestionPlan.CheckedIsWellGenerated: which questions are ungrounded is a parameter; the word overlap is not modelled.
- Token signing, key derivation and password hashing; tenant isolation and row-level security; routes, mail, storage and task wiring.
- The ordinal a reconnected session resumes from: the polled checkpoint does not guarantee it.
- Whether a deactivated user's rotation is refused: it revokes the family like a logout.
- The bound on the keys and lengths of proctoring payloads; the stored verdict row, which is overwritten each time.
