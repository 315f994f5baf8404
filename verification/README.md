# Verified models of the gezel eval harness

A Dafny 4.11 model of nine self-contained algorithms and state machines of the gezel repository, with proofs of
what each is for. `dafny verify dfyconfig.toml` checks everything.

| file | models |
|---|---|
| `DeviceLock.dfy` | the cross-process device lock: processes, one shared file system, crashes between any two steps |
| `Escalation.dfy` | the repair-escalation ladders and the poller that posts, deduplicates and ends them |
| `FrozenTargets.dfy` | which frozen virtual targets those ladders end, amid which other polls |
| `LogSink.dfy` | the bounded daemon log: startup prefix, marker, recent whole lines |
| `Utf8Stream.dfy` | incremental UTF-8 repair, against section 4 of RFC 3629 |
| `EditDistance.dfy` | the two-row edit distance and the unique nearest identifier |
| `Canonical.dfy` | canonical JSON text of tool-call arguments, strings quoted as in section 7 of RFC 8259 |
| `Triage.dfy` | failure clusters, the online streak, batch and matrix verdicts |
| `Statistics.dfy` | exact McNemar test, binomial coefficients, Holm adjustment |
| `ProcessTree.dfy` | memory and CPU summed over a process subtree |
| `Common.dfy` | options, bytes, minimum and maximum |

The pattern is the same throughout. A specification function or relation says what the code is meant to compute
(a shortest edit chain, a grammar, a reachable set, a byte-at-a-time log, a sequential test procedure). Code that
updates state in place is a class or a method with loops proved equal to that specification, and the properties
are lemmas about the specification or over all runs of it. The lock is a state machine over its file-system
steps: a run is any sequence of steps of any number of processes.

## What the environment is assumed to do

- `mkdir`, `rename`, `unlink` and `rmdir` are atomic. Every lock access goes by path, so a step acts on whatever
  directory is there. `rename` onto a missing or empty directory succeeds and onto a non-empty one fails.
- `owner.json` is written and removed in one step; a half-written one counts as missing.
- Owner ids are fresh at each `mkdir`, and a dead pid never comes back.
- Session snapshots, deliveries, turns in flight, trial outcomes and the abort signal are arbitrary inputs; the
  abort signal stays raised once raised.
- A file write may take any positive part of what it is given.
- Hashes and fingerprints are tokens, equal exactly when the hashed inputs are.

## Where the code and its comments disagree

The code is followed in each case. Where it does less than promised, a lemma gives the input that shows it and
another the exact condition under which the promise is kept.

- The lock's header (evals/src/eval-device-lock.ts:12-16) says a delayed reclaimer cannot take a replacement lock.
  The owner is read and its liveness tested in two steps (lines 217-218). `DeviceLock.SplitInspectionFails` is a
  run in which an ordinary release and exit in between leads to two holders. A separate test of a dead owner is
  careful if, at its moment, the inspected record is still at the lock path, or its tombstone is already there and
  holds a record, or the path holds a directory without record or owner, which every contender refuses, and no
  process is about to rename that directory without such grounds. Every run of careful tests keeps mutual exclusion
  (`DeviceLock.CarefulRunsExclude`), and after any such run a test is careful exactly when every continuation that
  reads and tests in one step keeps it (`DeviceLock.SeparateTestIsSafeIff`). `DeviceLock.SecondTestFails` is a run in
  which a first test on an abandoned directory is safe and a second one is not.
- Exactly one rename is meant to move a dead owner's directory (evals/src/eval-device-lock.ts:222-229). In every
  interleaving, split inspection included, a recorded directory stays at the path or is moved exactly once, unchanged,
  if and only if no process can still write it (`DeviceLock.MovedExactlyOnceIff`).
- The permanent tombstone protects only a generation that was moved to its own. In any continuation of any state a
  reclaimer's rename moves nothing exactly when its victim's own tombstone holds a record
  (`DeviceLock.ReclaimerIsHarmlessIffSealed`); with the victim's directory still at the path,
  `DeviceLock.ReplacementIsTakenIff` says exactly when the rename can come to take another one.
  `DeviceLock.ForeignBurialDefeatsTheTombstone` is a run in which an owner that died holding is buried under another
  owner's name, after which its own delayed reclaimer takes the directory of a live holder.
- A nudge is meant to be sent once per stage (evals/src/sniff-feedback.ts:18-20). When the coordinator copy fails
  after the primary message landed, nothing is recorded, and `Escalation.FailingCopyRepeatsTheNudge` delivers the
  same nudge on every poll while no attempt is counted. Over every run, the copies of one stage that landed are one
  if it is on record plus those with a failed follow-up (`Escalation.LandedOncePerRecordedStage`); a nudge lands
  again exactly when the follow-up of an earlier copy failed (`Escalation.LandsAgainIff`), and at most three copies
  of a failure land beyond those (`Escalation.LandedBeyondThreeWereUnrecorded`).
- A genuinely frozen workflow is meant to exhaust its ladder (evals/src/sniff-feedback.ts:468-471). Whether a frozen
  virtual target with a positive score does depends on the ladder it shares with everything of that score. Count in
  rounds, each opened by a nudge and closed by the first poll that finds its turn done. Over every run in which none
  of its nudges is refused for good, whenever it is polled, held, in flight or answers, and whatever the other polls
  are, it is exhausted exactly when one of its polls that can report the end finds that ladder at 6 attempts or more,
  or finds it at 4 or more after three rounds, no poll that could send having found more than 2 before the first
  answer or more than 3 before the second (`FrozenTargets.TargetExhaustedIff`). Two ways lead past that.
  - Failing files polled at its score raise the ladder. If the target first finds it at 3 or 4, two of its stages fall
    together under one dedupe key and the ladder stops at 5, however long the target is polled and whatever it answers
    (`FrozenTargets.SettledTargetExhaustedIff`, `LoneTargetExhaustedIff`). `FrozenTargets.FilesThenTarget` gives the
    outcome for any number of files and `FrozenTargets.FourFilesShutOut` the input.
  - Another token at its score starts the ladder over. If the other polls there carry other tokens, the target is
    exhausted exactly when it completes three rounds before another target is polled at that score
    (`FrozenTargets.FrozenTargetExhaustedIff`); `FrozenTargets.InterruptedTargetIsNeverExhausted` is the input.
- An attempt is meant to be a delivered and completed one (evals/src/sniff-feedback.ts:100, 131-149). For an unmoved
  token an attempt is counted exactly when a nudge is awaited and the turn has ended that was asked for by the last
  nudge on that ladder that left a turn to wait for (`Escalation.CountedTurnHadEnded`). Where the last nudge of all bore
  a token, that is its own turn. On the plateau ladder it need not be: `Escalation.StaleTurnCounts` is the input.
- The hash of tool-call arguments is meant to tell arguments apart up to key order
  (evals/src/progress-fingerprint.ts:807-812). JSON text such as `1e400` parses to an infinite number, which is printed
  as `null`: `Canonical.InfinityReadsAsNull`. `Canonical.CanonicalTextIsFaithful` is the exact statement.
- The comment on the matrix verdict asks for at least one passing trial (evals/src/batch.ts:552-557). Here the code
  asks for more: it, and `Triage.RunMatrix`, require every recorded trial to pass.

## Model

| member | source | states |
|---|---|---|
| DeviceLock.StepKeepsInv | evals/src/eval-device-lock.ts:149-169 | one step of any process, a crash included, keeps the owner's record at the path, every reclaim decision pointing at a dead owner still in place or already buried, and every tombstone sealed |
| DeviceLock.SoundRunsExclude | evals/src/eval-device-lock.ts:211-250 | over every run whose liveness tests are grounded at most one process owns the lock, and the directory at the path is its own |
| DeviceLock.OneStepInspectionExcludes | evals/src/eval-device-lock.ts:211-250 | mutual exclusion in every interleaving with crashes when reading the owner and testing its liveness are one step |
| DeviceLock.LiveOwnerRefuses | evals/src/eval-device-lock.ts:211-219 | from every state whose lock records a live process, a contender's mkdir and inspection leave it idle and everything else as it was |
| DeviceLock.LiveOwnerRefusesLater | evals/src/eval-device-lock.ts:211-219 | the same with reading and testing split, whatever others do in between, if the owner that was read lives on |
| DeviceLock.UnreadableOwnerRefuses | evals/src/eval-device-lock.ts:217-219 | a lock without a readable owner refuses as well |
| DeviceLock.NobodyWaitsForTheOwner | evals/src/eval-device-lock.ts:172-174 | while a live owner stands still, a process that sets out to acquire is idle again, or dead, after at most four of its own steps, having changed nothing |
| DeviceLock.RetryBudget | evals/src/eval-device-lock.ts:204-242 | in every interleaving, a process in the loop has made at most 8 failed renames, which are what it counts, and at most four steps to each rename, since it set out |
| DeviceLock.NinthFailureGivesUp | evals/src/eval-device-lock.ts:238-245 | over every run a failed rename sends a process back to try again up to the eighth and away at the ninth, and a successful one is not counted |
| DeviceLock.LeaseBegins | evals/src/eval-device-lock.ts:211-214 | from a free path, mkdir and the owner write of a contender make it the holder, its record at the path |
| DeviceLock.LeaseEnds | evals/src/eval-device-lock.ts:149-169 | a holder whose record is at the path frees it by its release |
| DeviceLock.LostLeaseIsDropped | evals/src/eval-device-lock.ts:149-169 | a release by one whose record is not there leaves everything else alone |
| DeviceLock.FailedWriteCleansUp | evals/src/eval-device-lock.ts:252-278 | after an owner file could not be written, the directory at the path, if any, has no record |
| DeviceLock.SoundRunsBuryUnderOwnName | evals/src/eval-device-lock.ts:222-229 | over every grounded run a generation was renamed away exactly when its own tombstone exists, then exactly once, and it lies there with its record, its owner dead |
| DeviceLock.UngroundedTestBreaksExclusion | evals/src/eval-device-lock.ts:217-228 | one ungrounded liveness test followed by ordinary steps, a crash included, yields two holders, unless the path holds a directory without record or owner |
| DeviceLock.CarefulStepKeepsOrder | evals/src/eval-device-lock.ts:211-250 | a step whose liveness test is careful keeps all in order, one process at most being about to rename an abandoned directory without grounds |
| DeviceLock.CarefulRunsExclude | evals/src/eval-device-lock.ts:211-250 | mutual exclusion in every run whose separate tests of dead owners are careful: grounded, or the first ungrounded one on an abandoned directory |
| DeviceLock.StrandedRunExcludes | evals/src/eval-device-lock.ts:214-228 | while a directory without record or owner blocks the path, even an ungrounded rename of it keeps mutual exclusion in every one-step continuation |
| DeviceLock.UncarefulTestBreaksExclusion | evals/src/eval-device-lock.ts:217-228 | after any careful run, an uncareful test followed by ordinary steps yields two holders |
| DeviceLock.SeparateTestIsSafeIff | evals/src/eval-device-lock.ts:217-228 | wherever all is in order, and so after any careful run, a separate test keeps exclusion in all one-step continuations if and only if it is careful |
| DeviceLock.SecondTestFails | evals/src/eval-device-lock.ts:214-228 | a run in which two processes have read a dead owner and the path holds an abandoned directory: the first test is safe, and after it the second leads to two holders |
| DeviceLock.SplitInspectionFails | evals/src/eval-device-lock.ts:217-218 | the run: 1 reads the record of 0, 0 releases and exits, 1 tests; one-step behaviour then ends with two holders |
| DeviceLock.SealedForever | evals/src/eval-device-lock.ts:224-228 | a tombstone that holds a record is never changed again, in any interleaving |
| DeviceLock.DelayedReclaimerIsHarmless | evals/src/eval-device-lock.ts:224-242 | once a generation lies in its own tombstone, its reclaimers move nothing however late they run |
| DeviceLock.ReclaimerIsHarmlessIffSealed | evals/src/eval-device-lock.ts:12-16 | in any state, split inspection included, no continuation lets the rename of a process that has condemned v move anything if and only if the tombstone of v is sealed; from a free path, no continuation lets it take a live holder's directory under the same condition |
| DeviceLock.ReplacementIsTakenIff | evals/src/eval-device-lock.ts:12-16 | with the directory of v still at the path and the process standing still, its rename can come to take another directory if and only if the tombstone of v is not sealed and some process can still write or remove the directory, another holds an unsealed reading or decision about another owner (or any, while there is no record), or its record names another owner, not the process itself and not sealed |
| DeviceLock.MovedAtMostOnce | evals/src/eval-device-lock.ts:228 | over any run, split inspection included, at most one rename moves a given generation |
| DeviceLock.MovedExactlyOnceIff | evals/src/eval-device-lock.ts:222-229 | in every interleaving, split inspection included, a recorded directory stays at the path unmoved or lies unchanged in some tombstone after exactly one move, if and only if no process is about to write or empty it or holds the lease its record names |
| DeviceLock.PathIsUsed | evals/src/eval-device-lock.ts:211-216 | over every run the directory at the path has a generation handed out before |
| DeviceLock.DeadHolderIsMovedOnce | evals/src/eval-device-lock.ts:217-229 | after any grounded run the directory of a holder that died is still at the path and unmoved, or it lies unchanged in its own tombstone and exactly one rename moved it |
| DeviceLock.ForeignBurialDefeatsTheTombstone | evals/src/eval-device-lock.ts:12-16 | the run in which a stale reclaimer of another owner buries a generation, so that the delayed reclaimer of that generation renames the directory of a live holder away and a second process acquires |
| Escalation.SniffFeedback.Post | evals/src/sniff-feedback.ts:605-978 | one poll, statement by statement, leaves exactly the ladders, dedupe keys, refusals and outcome of the transition function |
| Escalation.SniffFeedback.AdvanceLadder | evals/src/sniff-feedback.ts:225-334 | creating and advancing one ladder: reset on progress, count after a delivered and answered nudge or a new revision |
| Escalation.SniffFeedback.ArmLadder | evals/src/sniff-feedback.ts:915-955 | what a delivered nudge records on a ladder: armed, checkpoint, awaited turn |
| Escalation.StepCovered | evals/src/sniff-feedback.ts:251-334 | one poll keeps attempts, plus a nudge still awaited, within one more than the deliveries since the last reset |
| Escalation.AttemptsAreDelivered | evals/src/sniff-feedback.ts:113-118 | over every run of polls, a ladder's attempts never exceed 1 plus the nudges delivered on it since its last reset |
| Escalation.TerminalFailureIsEarned | evals/src/sniff-feedback.ts:693-721 | a terminal failure needs 3 deliveries on its signature ladder or 5 on its plateau ladder, and at a positive score also 3 at that score |
| Escalation.CountedTurnHadEnded | evals/src/sniff-feedback.ts:281-291 | over every run, for an unmoved token an attempt is counted if and only if a nudge is awaited and the session has committed the turn that the last nudge on that ladder with a turn asked for: one more than it had, two if it was in the middle of one |
| Escalation.StaleTurnCounts | evals/src/sniff-feedback.ts:915-955 | a run in which the plateau ladder counts an unanswered nudge of a token-less file, because the turn of an earlier nudge is still on it |
| Escalation.RevisedFileCounts | evals/src/sniff-feedback.ts:314-332 | over every run, a poll without a token raises a ladder's attempts by one if and only if a nudge is awaited on it and either the file's revision is not that of its last poll there, or the nudged session has committed a mutation beyond the count taken at the nudge |
| Escalation.RewrittenFileIsExhausted | evals/src/sniff-feedback.ts:693-797 | a file rewritten after each of three delivered nudges and still failing in the same way gets stages 0, 1, 2 and is ended at attempt 4, with or without a score |
| Escalation.UnchangedPollCountsNothing | evals/src/sniff-feedback.ts:314-332 | for a real file, a poll that shows no ladder a new revision or a finished repair leaves all attempts unchanged |
| Escalation.FrozenFilesNeverInflate | evals/src/sniff-feedback.ts:102-112 | in every interleaving of unchanged files a ladder gains at most one attempt per file it sees for the first time |
| Escalation.FrozenSignaturesStayAtOne | evals/src/sniff-feedback.ts:102-112 | unchanged files never raise a signature ladder above one attempt |
| Escalation.SentAtMostThreeTimes | evals/src/sniff-feedback.ts:725-737 | between progress resets one exact failure is sent at most three times, once per recorded stage |
| Escalation.LandedBeyondThreeWereUnrecorded | evals/src/sniff-feedback.ts:866-976 | over every run, the copies of one exact failure that landed since its last reset are its sent nudges plus those whose follow-up send failed, so at most three plus those |
| Escalation.LandedOncePerRecordedStage | evals/src/sniff-feedback.ts:725-737 | the same stage by stage: landed copies are one if the stage is on record, plus those whose follow-up send failed |
| Escalation.LandsAgainIff | evals/src/sniff-feedback.ts:725-737 | a nudge that lands has landed before, since the last reset, if and only if an earlier copy's follow-up send failed, and then every earlier copy's did |
| Escalation.LadderIffCounted | evals/src/sniff-feedback.ts:639-680 | over every run a ladder exists exactly if some poll was counted on it; there is none at score 0 |
| Escalation.RunRecords | evals/src/sniff-feedback.ts:735-810 | over every run the dedupe keys are the nudges sent since the last reset, and the refusals are the sends that failed for good, by nudge and target |
| Escalation.Answers | evals/src/sniff-feedback.ts:610-978 | over every run a poll sends exactly if its nudge is neither on record nor refused for good by this target, and it is neither held nor mid-turn nor unroutable; it ends the trial exactly at stage 3 unless held or mid-turn under 15 minutes; and exactly when it answers each of the rest |
| Escalation.WhichLadderSpeaks | evals/src/sniff-feedback.ts:693-723 | the stage and the attempts reported, from the heights of both ladders |
| Escalation.FailingCopyRepeatsTheNudge | evals/src/sniff-feedback.ts:887-976 | with a coordinator copy that keeps failing, n polls deliver the stage 0 nudge n times, record nothing and count no attempt |
| Escalation.FrozenTargetIsExhausted | evals/src/sniff-feedback.ts:693-797 | a lone frozen virtual target that answers every nudge gets stages 0, 1, 2 and is then ended at attempt 4, with or without a score |
| Escalation.RotatingTargetsAreNeverExhausted | evals/src/sniff-feedback.ts:260-280 | polls with progress tokens at one positive score, each token different from the one before, are never ended, whether one task advances or several targets alternate, and whatever is delivered |
| FrozenTargets.SharedStanding | evals/src/sniff-feedback.ts:260-291 | after any run whose other polls at the target's score carry other tokens, the shared ladder has counted the target's answers if none came between, and otherwise stands no higher than the rounds opened |
| FrozenTargets.FrozenTargetExhaustedIff | evals/src/sniff-feedback.ts:468-471 | if the other polls at its positive score carry other tokens, a frozen target is exhausted if and only if it completes three rounds of nudge and answer, and is polled where the end can be reported, before any of them comes between |
| FrozenTargets.SteadyIsInLockStep | evals/src/sniff-feedback.ts:281-291 | every order of polling frozen files, at any scores, occurs with each nudge answered before the target's next poll |
| FrozenTargets.InterruptedTargetIsNeverExhausted | evals/src/sniff-feedback.ts:468-471 | a frozen target interrupted after three polls by another of its score, every nudge being answered at once, is never exhausted, however often it is polled afterwards |
| FrozenTargets.OwnStateAfter | evals/src/sniff-feedback.ts:251-334 | over every run, other polls being arbitrary, the attempts, arming and posted stages of a frozen virtual target follow from what its own polls find: the height of the shared ladder, whether its awaited turn is done, whether a nudge can go out |
| FrozenTargets.TargetOutcome | evals/src/sniff-feedback.ts:693-737 | so does whether each of its polls sends a nudge or reports the end |
| FrozenTargets.TargetExhaustedIff | evals/src/sniff-feedback.ts:468-471 | over every run in which none of its nudges is refused for good, a frozen virtual target is exhausted if and only if a poll that can report the end finds its score's ladder at 6 or more, or at 4 or more after three rounds of nudge and answer with no poll that could send above 2 before the first answer or above 3 before the second; without a positive score, after three rounds |
| FrozenTargets.AnsweredTargetExhaustedIff | evals/src/sniff-feedback.ts:468-471 | if each of its polls finds the last nudge answered: if and only if a poll finds 6 or more, or the first finds at most 2, the second at most 3 and the fourth or a later one at least 4 |
| FrozenTargets.OnlyTokenExhaustedIff | evals/src/sniff-feedback.ts:468-471 | if other polls at its score carry no token, the third round always brings the ladder to 4: if and only if some poll that can report the end finds 6 or more, or comes after three such rounds |
| FrozenTargets.SettledTargetExhaustedIff | evals/src/sniff-feedback.ts:468-471 | if those polls also show the ladder nothing new after its first poll: after three rounds from height 1 or 2, after one from 5, at once from 6, and never from 3 or 4 |
| FrozenTargets.LoneTargetExhaustedIff | evals/src/sniff-feedback.ts:468-471 | the same for a target polled alone, at any times, from any state that has nothing on record about it, with the height that state has |
| FrozenTargets.FilesThenTarget | evals/src/sniff-feedback.ts:319-332 | after k failing files polled and nudged once each at its score, with height the larger of 1 and k, at most 6: never for k 3 or 4 |
| FrozenTargets.FourFilesShutOut | evals/src/sniff-feedback.ts:699-737 | a concrete target that answers every nudge before its next poll is never exhausted after four files of its score |
| LogSink.BoundedDaemonLogSink.constructor | evals/src/spawn.ts:113-132 | opening a path leaves the specified log: the existing content, compacted at once when over the limit |
| LogSink.BoundedDaemonLogSink.Open | evals/src/spawn.ts:97-114 | opening is refused exactly when head, tail and marker do not fit below the limit |
| LogSink.MarkerIsALine | evals/src/spawn.ts:101-104 | the marker starts on a new line, ends with one, and names the limit |
| LogSink.DecimalReadsBack | evals/src/spawn.ts:102 | the digits of the limit read back to it, without a leading zero |
| LogSink.BoundedDaemonLogSink.CompactFile | evals/src/spawn.ts:186-216 | compaction always leaves room and replaces the file by head, marker and the whole lines of its tail |
| LogSink.BoundedDaemonLogSink.WriteSlice | evals/src/spawn.ts:169-181 | writes that each take only part of the rest append exactly the slice |
| LogSink.BoundedDaemonLogSink.Append | evals/src/spawn.ts:154-184 | slicing, partial writes and compaction in between give the log of feeding the bytes one at a time, and neither capacity error is reached |
| LogSink.FileShape | evals/src/spawn.ts:186-216 | after any appends the file is within the limit and is the whole stream, or its first headBytes, one marker and the suffix that begins after the first newline of the window before some compaction point or, that window having held none, at the point |
| LogSink.WindowIsStreamEnd | evals/src/spawn.ts:190-199 | the tail window is the end of the stream: it never reaches back into an earlier marker |
| LogSink.CompactionsAreBounded | evals/src/spawn.ts:105-112 | every compaction frees at least limit minus head, tail and marker, so compactions are at most appended bytes over that, plus one |
| LogSink.FeedInChunks | evals/src/spawn.ts:154-184 | the resulting log does not depend on how the data was cut into chunks |
| Utf8Stream.Stream.Append | native/mobile/utf8_stream.h:13-47 | the loop over the carried and the new bytes emits and carries exactly what the recursive repair does |
| Utf8Stream.Stream.ScanFront | native/mobile/utf8_stream.h:26-32 | the inner loop accepts exactly the fronts none of whose arrived bytes is bad |
| Utf8Stream.Stream.Valid | native/mobile/utf8_stream.h:49-52 | true exactly when the bytes match UTF8-octets |
| Utf8Stream.MaskReadsTheTopBits | native/mobile/utf8_stream.h:29 | the bit mask of the continuation test is the range test the model uses, on every byte |
| Utf8Stream.CopyIsChar | native/mobile/utf8_stream.h:19-31 | the byte tests of the loop accept a complete front exactly when it is a UTF8-char of RFC 3629 |
| Utf8Stream.PartialIsProperPrefix | native/mobile/utf8_stream.h:38-41 | the loop holds back exactly the proper prefixes of a UTF8-char |
| Utf8Stream.RepairByGrammar | native/mobile/utf8_stream.h:13-47 | a UTF8-char at the front passes, the front of an unfinished one waits or becomes U+FFFD at the end, and of anything else one byte becomes U+FFFD |
| Utf8Stream.CodePointIsUnique | native/mobile/utf8_stream.h:19-31 | two UTF8-chars that stand for the same scalar are the same |
| Utf8Stream.RepairIsWellFormed | native/mobile/utf8_stream.h:8-9 | whatever comes in, only well-formed text goes out |
| Utf8Stream.WellFormedUnchanged | native/mobile/utf8_stream.h:42-43 | well-formed text passes unchanged and leaves nothing carried |
| Utf8Stream.RepairIsIdempotent | native/mobile/utf8_stream.h:8-9 | repairing repaired text changes nothing |
| Utf8Stream.ValidIffWellFormed | native/mobile/utf8_stream.h:49-52 | finishing repair is the identity exactly on well-formed input |
| Utf8Stream.CarriedIsProperPrefix | native/mobile/utf8_stream.h:38-45 | carried bytes are the end of the input and a proper prefix of a scalar, at most three; finishing carries none |
| Utf8Stream.SplitAnywhere | native/mobile/utf8_stream.h:13-47 | two appends emit and carry what one append of both chunks does, at every cut |
| Utf8Stream.ChunkIndependence | native/mobile/utf8_stream.h:13-47 | any chunking, finished on the last chunk only, emits what one finishing append of the whole emits |
| Utf8Stream.DamageStaysLocal | native/mobile/utf8_stream.h:23-37 | text that is well-formed from some point on comes out intact from there on, whatever precedes it |
| EditDistance.Distance | evals/src/runtime-feedback.ts:391-403 | the two rows updated in place end at the recursive minimum |
| EditDistance.LevIsShortest | evals/src/runtime-feedback.ts:391-403 | that minimum is the length of a shortest chain of insertions, deletions and substitutions at any positions |
| EditDistance.LevOneEdit | evals/src/runtime-feedback.ts:397-399 | changing at most one character moves the distance to any word by at most one |
| EditDistance.DiagonalOnMatch | evals/src/runtime-feedback.ts:398-399 | on equal last characters the diagonal alone is optimal |
| EditDistance.LevAtLeastLengthGap | evals/src/runtime-feedback.ts:371 | the distance is at least the length difference, so the prefilter loses nothing |
| EditDistance.Candidates | evals/src/runtime-feedback.ts:368-374 | the candidate set is the other words of nearby length, each once |
| EditDistance.FindLikelyIdentifierVariant | evals/src/runtime-feedback.ts:366-389 | returns a name exactly when it is the one strictly nearest other identifier, within distance 2, of a query of at least 4 characters |
| Canonical.BodyUndoesEscape | evals/src/progress-fingerprint.ts:818 | reading a quoted string gives back its code units, lone surrogates and control characters included |
| Canonical.EscapeIsBody | evals/src/progress-fingerprint.ts:818 | what stands between the quotation marks is a sequence of characters of the string grammar of RFC 8259: unescaped scalars, listed two-character escapes, and u-escapes of four hex digits |
| Canonical.EscapeIsShortest | evals/src/progress-fingerprint.ts:818 | of all bodies of that grammar that stand for a string, the quoted one is a shortest, and the only one as short that writes its hex digits in lower case |
| Canonical.EscapeIsShortestBody | evals/src/progress-fingerprint.ts:818 | the same length bound told by what the parser reads |
| Canonical.PlainTextIsKept | evals/src/progress-fingerprint.ts:818 | text without control units, quotation marks, backslashes and lone surrogates is written as it is |
| Canonical.EscapesSpelledOut | evals/src/progress-fingerprint.ts:818 | the letter escapes, and the digits of a control and of a lone surrogate, character by character |
| Canonical.ParseUndoesShow | evals/src/progress-fingerprint.ts:817-823 | a parser recovers every printed value and stops where it ends |
| Canonical.CanonicalTextParses | evals/src/progress-fingerprint.ts:817-823 | the canonical text parses to the value with its keys sorted at every level and null for infinite numbers, and nothing is left over |
| Canonical.TextReadsAscending | evals/src/progress-fingerprint.ts:821 | the text reads as a value whose keys ascend in the order of code units at every level |
| Canonical.TwoUnits | evals/src/progress-fingerprint.ts:818 | a surrogate pair stays as it is, and any other two units are written one after the other |
| Canonical.NumberCharacters | evals/src/progress-fingerprint.ts:818 | which characters a number is written with |
| Canonical.ItemsSpelledOut | evals/src/progress-fingerprint.ts:819 | arrays: brackets, and commas in between |
| Canonical.FieldsSpelledOut | evals/src/progress-fingerprint.ts:822 | fields: the quoted key, a colon, the value, and commas in between |
| Canonical.ObjectsSpelledOut | evals/src/progress-fingerprint.ts:820-823 | objects: braces around the fields |
| Canonical.WordsSpelledOut | evals/src/progress-fingerprint.ts:818-822 | null, true, false and the marks of strings, arrays and objects, character by character |
| Canonical.NormIffSame | evals/src/progress-fingerprint.ts:821 | sorting keys at every level identifies exactly the values equal up to key order |
| Canonical.CanonicalTextIsFaithful | evals/src/progress-fingerprint.ts:807-823 | two parsed argument values have the same canonical text if and only if they are equal up to object key order once null is put for every infinite number; without infinite numbers, if and only if they are equal up to key order |
| Canonical.InfinityReadsAsNull | evals/src/progress-fingerprint.ts:818 | an array of an infinite number and an array of null are different parsed values with the same text |
| Triage.SignatureReadsBack | evals/src/trial-signature.ts:62-73 | exactly passes, class operator and interrupts have no signature; any other reads back to class, rule and, under the catch-all rule, sniff key and blinded reason |
| Triage.SignatureIffIdentity | evals/src/trial-signature.ts:62-73 | two failures whose class, rule and key hold no separator share a signature if and only if they agree in those fields |
| Triage.MaximalRunIffOneFailure | evals/src/trial-signature.ts:76-83 | a maximal run of equal signatures is a stretch of trials that are one failure, with neighbours that are not |
| Triage.DetectTriageCluster | evals/src/trial-signature.ts:84-123 | finds and describes the first maximal run of at least k equal signatures, that is, of one and the same failure, and reports none exactly when none exists |
| Triage.OnlineAgreesWithOffline | evals/src/trial-signature.ts:76-83 | if the threshold was not reached earlier, the streak reaches it exactly when the scan finds a run, and then at exactly k |
| Triage.ClusterIsTheEnd | evals/src/batch.ts:316-319 | that run is the last k recorded trials |
| Triage.RunTrials | evals/src/batch.ts:204-312 | the trial loop: recorded trials, streak, abort checks and early stop, for every parallelism and every pattern of rejections |
| Triage.RunBatch | evals/src/batch.ts:204-375 | online and offline triage agree; a batch is triaged exactly if k trials in a row were one failure, and stopped early only by the last k being it; the status formula; a batch is green exactly when nothing was aborted and every requested trial ran and passed |
| Triage.PlannedTrials | evals/src/batch.ts:416-417 | a cell is asked for the count, or for its suggestion where that is lower and the count is not strict |
| Triage.CoveredIffSettles | evals/src/batch.ts:517-529 | without an abort a cell counts as covered exactly when every trial asked of it records a result or k in a row are one failure first |
| Triage.EqualTotals | evals/src/batch.ts:500-501 | totals are equal only if every cell's are |
| Triage.RunMatrix | evals/src/batch.ts:401-564 | every cell's numbers and cluster are those of the trials its batch recorded; a matrix is complete exactly when nothing was aborted, every cell came to its end and something was recorded; it is green exactly when nothing was aborted and every requested scenario ran and passed all its requested trials, at least one being requested |
| Statistics.Binomial | evals/src/ab-stats.ts:89-93 | the running product is the integer C(n, k) for every n and k |
| Statistics.Absorption | evals/src/ab-stats.ts:91 | every division in the loop is exact |
| Statistics.McnemarExact | evals/src/ab-stats.ts:80-87 | the result is the probability, under n fair flips, of a split at least as uneven, clamp and empty sample included |
| Statistics.PValueIsBothTails | evals/src/ab-stats.ts:83-86 | for b != c that is the sum of both tails, twice the lower one, and the clamp is idle |
| Statistics.PValueInUnitInterval | evals/src/ab-stats.ts:76-87 | p-values lie in (0, 1] and are symmetric in the arms |
| Statistics.PValueAntitone | evals/src/ab-stats.ts:76-87 | for the same number of pairs a more uneven split has no larger p-value |
| Statistics.Holm | evals/src/ab-stats.ts:157-166 | the adjusted values are the running maxima at each hypothesis's rank, the same for every sorted order |
| Statistics.SortByP | evals/src/ab-stats.ts:158 | the library sort as a permutation of the indices by ascending p-value |
| Statistics.AdjustedDecidesStepDown | evals/src/ab-stats.ts:156-166 | for every level in [0, 1) an adjusted value is at most the level exactly when Holm's sequential procedure rejects that hypothesis |
| Statistics.NegativeLevelRejectsNothing | evals/src/ab-stats.ts:160 | below level 0 neither rejects anything, given non-negative p-values |
| Statistics.AdjustedKeepsOrder | evals/src/ab-stats.ts:161-163 | adjusting preserves the order of p-values, gives ties equal results, never lowers one and stays in [0, 1] |
| Statistics.AdjustingCommutes | evals/src/ab-stats.ts:156-166 | adjusting commutes with permuting the input |
| ProcessTree.ReadListing | evals/src/perf-collector.ts:762-777 | the tables hold the last numbers of every listed pid and all parent links, unusable lines skipped |
| ProcessTree.ListedIffChild | evals/src/perf-collector.ts:766-778 | a pid is listed exactly if some line gives it a parent |
| ProcessTree.LastLineDecides | evals/src/perf-collector.ts:769-770 | the numbers of a pid are those of the last usable line about it |
| ProcessTree.SumOfAnyOrder | evals/src/perf-collector.ts:784-786 | a sum along a duplicate-free list depends only on which pids it holds |
| ProcessTree.SumOfOnes | evals/src/perf-collector.ts:779-787 | summing ones counts the pids |
| ProcessTree.SumProcessTree | evals/src/perf-collector.ts:758-794 | none exactly when the root is not listed; otherwise the sums along every list of exactly the pids reachable from it, each once, for every parent relation, cycles included |
| ProcessTree.LoneRoot | evals/src/perf-collector.ts:778-788 | a root without children gives its own numbers and one process |

## Left out

- DeviceLock.Step: the lock is modelled on values, as steps over a shared state, so the map of active locks updated
  in place is not; the reference count, the sleep guard, the bypass variable and error texts are left out too.
- Pid reuse, other hosts, and Windows error codes beyond a rename that fails.
- Escalation.Step: log lines, message wording, target picking and the terminal request itself.
- LogSink.BoundedDaemonLogSink.CompactFile: short reads, write errors and the fallback after a failed rename.
- LogSink.BoundedDaemonLogSink.Append: closing, and the ordering that the stream machinery gives to appends.
- Triage.Signature: the reason arrives already digit-blinded, and the remaining fields of a trial are not kept.
- Triage.RunBatch: preflight, spawn retries, report files and event emission.
- EditDistance.Candidates: the words come in as the list of regular-expression matches.
- Canonical.Canonicalize: a number is its shortest decimal text, so that 0 and -0 are one; `undefined` and NaN, which
  parsing JSON never yields, are excluded, and the SHA-1 digest of the text is not modelled.
- FrozenTargets.TargetExhaustedIff: a target one of whose nudges is refused for good is not covered; the results about
  the shared ladder take both ladders to see the session alike within one poll.
- Statistics.McnemarExact: arithmetic is exact, so floating-point rounding is not modelled.
- ProcessTree.SumProcessTree: splitting the listing into fields; sums are over the reals.
- The bootstrap, quantiles and paired effects of `ab-stats.ts`, and the parsers and samplers of `perf-collector.ts`
  other than the process tree: straight-line formulas and formats with no invariant of their own.
