# A verified model of the Yolomatic control plane

Yolomatic turns GitHub events into exclusive worker runs on git worktrees. This
project models the parts of it where several activities meet, and proves what
they keep.

- **Admission** (`TaskControl`, `Admission`): five kinds of handler register an
  issue key, await many times and unregister. A handler is a process with a
  program counter; the code between two awaits is one step; an answer says how
  an await ends. The theorems are about every interleaving with cancel, steer,
  draining and late unregisters.
- **Worktrees** (`Worktree`, `Eviction`, `History`): working trees, one stash
  for all of them, quarantine, the listing and the limit. The environment
  decides within what git allows how each command ends.
- **Push** (`Push`): committing and pushing while others push between any two
  steps.
- **Text** (`Text`, `Words`, `Numbers`, `SkillFile`, `SkillRoundTrip`,
  `SkillFolding`, `CommitMessage`, `CommitSubject`, `CommitLayout`, `PercentEncoding`,
  `Routes`): the SKILL.md
  printer and parser, the commit message wrapper and subject, and the admin
  routes with their percent-encoding.
- **Bounded retries** (`ConflictRework`, `ReworkTrace`, `PrRecovery`, `RecoveryTrace`): two pairs of loops that
  the program has twice, compared on all traces of answers.
- **Events** (`Polling`, `PollSchedule`, `HeadTracker`, `Sorting`): ticks, deduplication, the
  schedule of subjects, and the default-branch head tracker.
- **State** (`SessionStore`, `SessionLog`, `Metrics`, `Migrations`): a cache
  and its rows, capped logs and their rows, daily buckets, and the migrations
  that move rows.
- **Worker socket** (`WorkerRpc`): buffered delivery and single-use tokens.

Where the source updates an object, a class holds its fields; each of its
methods is proved equal to a function on values, and the theorems are lemmas
about that function. The answers of GitHub, git, SQLite, workers, clocks and
sockets are parameters.

Some properties one would expect do not hold, and the model says exactly when:

- A description of a skill needs no trimming at its start; a trimmed one-line
  name with U+2028 in it is lost (`RoundTripExactly`).
- A sync can pop another tree's stash entry (`SyncRestoresTheStash`), and a
  forced removal can delete work that cannot be stashed (`RemovalKeepsWork`).
- A summary can make the message generator throw (`MessageIsProducedExactly`).
- A push without an expected head can overwrite a foreign commit
  (`SafeExactlyWithAnExpectedHead`).
- A review and a refinement can keep their key forever
  (`LeaksExactlyOnTheseThrows`, `LeakIsForever`).
- With an empty base, `discover` trusts a snapshot that carries no base
  (`SearchesAgreeExactlyWithABase`).
- A push whose handler fails is tried again only after the branch has shown
  another head and come back (`PushIsNotRetried`, `FailedPushIsLost`); once one
  was handled, no later move to the same head is (`RevisitedHeadIsIgnored`,
  `PushIsHandledExactly`).
- A worker whose handshake fails leaves its waiter unsettled
  (`FailedHandshakeStrandsTheWaiter`); a listener that throws while the buffer
  is flushed loses messages (`ActKeepsOrder`).
- Two repositories can share the keys of their sessions (`KeysMeetExactly`).
- An archive time of "" is archived for `getAll` and not for `get`
  (`ListedWhenFound`).
- A failing append or clear lets memory and rows of a session log drift apart
  (`FailedAppendDiverges`, `FailedClearComesBack`).

## Model

| member | source | states |
|---|---|---|
| TaskControl.TaskController.Register | src/task-controller.ts:10-17 | a taken key is refused and nothing changes; a free key gets a symbol no one had before |
| TaskControl.TaskController.Unregister | src/task-controller.ts:19-24 | removes the key only for the token it was registered with, or without a token; frees nothing else |
| TaskControl.TaskController.Cancel | src/task-controller.ts:26-39 | aborts the registered controller and only that one, reports whether the key was taken, and keeps the key |
| TaskControl.TaskController.Steer | src/task-controller.ts:45-56 | reports success exactly when the key has a steer callback and it does not reject |
| TaskControl.TokenFreesOnlyItsOwnRegistration | src/task-controller.ts:19-24 | a token removes exactly the key it currently holds; a stale one removes nothing and changes no entry |
| TaskControl.RegisterThenUnregisterRestores | src/task-controller.ts:10-24 | registering and unregistering gives the registry back, whatever stale tokens come in between |
| Admission.RunFits | src/app/commands/execute-session.ts:85-259 | every resumption of an implementation run enters the section only by registering, leaves it only by unregistering, and never leaks |
| Admission.ReviewFits | src/app/commands/handle-pr-review.ts:221-305 | the same for a PR review, which leaks exactly when the head lookup outside its try block throws |
| Admission.RefineFits | src/app/commands/handle-issue-refinement.ts:279-456 | the same for a refinement, which leaks exactly when the cleanup in its finally block throws |
| Admission.FixFits | src/app/commands/handle-fix-merge-conflicts.ts:143-169 | the same for the manual conflict fix, which never leaks |
| Admission.AutoFits | src/app/commands/handle-auto-rebase-on-push.ts:173-194 | the same for one candidate of the automatic rebase, which never leaks |
| Admission.StepKeepsInv | src/task-controller.ts:10-39 | the registry and the handlers agree after every step: a holder's key is taken in its name with its token, and every taken key has a holder |
| Admission.RunKeepsInv | src/task-controller.ts:10-39 | that agreement holds in every state of every interleaving of the five handlers with cancel, steer, draining and late unregisters |
| Admission.MutualExclusion | src/app/commands/execute-session.ts:85-103 | in every interleaving at most one activation per key is between its register and its unregister, at most one worker runs per key, and a key is taken exactly while somebody holds it |
| Admission.LateTokenFreesNothing | src/task-controller.ts:19-24 | an unregister with a token nobody holds any more changes nothing |
| Admission.OnlyTheOwnerFrees | src/task-controller.ts:19-39 | the entry of a taken key changes exactly when its owner leaves the section |
| Admission.KeyStaysTaken | src/task-controller.ts:26-39 | over any run a taken key, cancelled or not, keeps its registration until its owner leaves |
| Admission.OverHoldsExactlyWhenLeaked | src/app/commands/handle-pr-review.ts:244-305 | a handler that is over still holds its key exactly when it ended in one of the two unguarded awaits |
| Admission.LeaksExactlyOnTheseThrows | src/app/commands/handle-issue-refinement.ts:441-456 | a handler leaks its key exactly when the head lookup of a review or the cleanup of a refinement throws |
| Admission.LeakIsForever | src/task-controller.ts:10-24 | a leaked key is taken in every later state of the run |
| Admission.LookingFirstIsNeverRefused | src/app/commands/handle-fix-merge-conflicts.ts:143-155 | the handlers that test and register in one stretch are never refused at the register call |
| Admission.SteerReachesAWorkerExactly | src/task-controller.ts:45-56 | a reported steer reaches a worker exactly when a run or a review holds the key; refinements, fixes and rebases accept and drop it |
| Admission.CancelAbortsTheOwner | src/task-controller.ts:26-39 | a cancel sets the abort flag of exactly the holder of the key, if that handler listens to it, and leaves the registry alone |
| Admission.WindsDownByTheSignal | src/app/commands/execute-session.ts:163-204 | a run or review starts to deal with a rejection only by its own step; as a cancelled task exactly when its signal is aborted, else a run reports itself exactly when the rejection is fatal, that of the await or of the executor before it |
| Admission.WindsDownAsCancelledExactly | src/app/commands/execute-session.ts:163-170 | in every interleaving a handler winds down as cancelled exactly when somebody cancelled its key while it held it |
| Admission.RejectedRunWindsDown | src/app/commands/execute-session.ts:138-217 | in every state after the executor rejected, the run stamps the session, winds down or is over; it never delivers or reports a result |
| Admission.CompletedRunGoesOn | src/app/commands/execute-session.ts:138-259 | after the executor completed, and unless the status update after it rejects, the run never winds down as cancelled or failed |
| Admission.ResultsComeFromTheExecutor | src/app/commands/execute-session.ts:219-256 | a run that rereads, delivers, reworks or reports had an executor that completed earlier in the run |
| Admission.RefusedReviewDropsTheMark | src/app/commands/handle-pr-review.ts:221-242 | a run in which a refused review removes the in-flight mark of the admitted one: the mark excludes nobody by itself |
| Admission.NoMarkOutlivesItsActivation | src/app/commands/handle-issue-refinement.ts:279-290 | in every run each in-flight mark belongs to a review past its test or to a refinement that holds the key |
| Admission.EntersExactlyWhenFree | src/task-controller.ts:10-17 | a handler outside the section enters it exactly when it has passed its tests and the key is free; then the key and the in-flight mark are its own |
| Admission.LeavesExactlyWhenDone | src/app/commands/execute-session.ts:105-259 | a handler inside the section leaves it, and its key is free again, exactly when its last block is over |
| Admission.WorkersStartExactly | src/app/commands/execute-session.ts:138-153 | the awaits after which each handler has a worker running |
| Admission.RunGoesOn | src/app/commands/execute-session.ts:103-256 | the blocks a run goes through while it holds its key, by the answer of each |
| Admission.ReviewGoesOn | src/app/commands/handle-pr-review.ts:221-305 | the same for a review, from its tests on |
| Admission.RefinementGoesOn | src/app/commands/handle-issue-refinement.ts:279-456 | the same for a refinement; every end after the opening of its session is followed by cleanup and the removal of the label |
| Admission.FixGoesOn | src/app/commands/handle-fix-merge-conflicts.ts:143-169 | the same for the manual conflict fix |
| Admission.RebaseGoesOn | src/app/commands/handle-auto-rebase-on-push.ts:173-194 | the same for one candidate of the automatic rebase |
| Admission.NextCandidateIsTakenUp | src/app/commands/handle-auto-rebase-on-push.ts:150-194 | a rebase visits its candidates in order, each once |
| Admission.OwnStepMarks | src/app/commands/handle-pr-review.ts:221-305 | when the in-flight marks of reviews and refinements come and go |
| Admission.DrainingKeepsOut | src/app/commands/handle-fix-merge-conflicts.ts:85-110 | over every run, while the service drains no review gets in and a manual fix that comes in is declined |
| SkillFile.GetCommonIndent | src/skills/repo-skill-service.ts:33-42 | the result is the least indent of the non-empty lines, attained by one of them, and zero when all are empty |
| SkillFile.ParseBlockScalar | src/skills/repo-skill-service.ts:49-77 | the loop over paragraphs yields the value the block scalar grammar gives, for all six indicators |
| SkillFile.CollectBlockLines | src/skills/repo-skill-service.ts:96-116 | takes exactly the maximal stretch of blank and indented lines without a key |
| SkillFile.ParseSkillFile | src/skills/repo-skill-service.ts:79-143 | the nested scan ends, since the index grows in every branch, and reads the fields the recursive reading of the header gives |
| SkillFolding.FoldingJoinsParagraphs | src/skills/repo-skill-service.ts:49-70 | a folded block, for every layout of paragraphs and empty lines, reads as the paragraphs, the lines of each joined by single blanks, with exactly one empty line between two |
| SkillFolding.EveryTextIsWritten | src/skills/repo-skill-service.ts:49-70 | every text is such a layout, so that this says what folding does to any block |
| SkillFolding.ChompingEndsTheText | src/skills/repo-skill-service.ts:67-76 | `+` adds one line feed, `-` takes just the white space at the end away, no mark changes nothing, and a literal block keeps its text |
| SkillFolding.BlockFileReads | src/skills/repo-skill-service.ts:79-143 | a whole file with a block description in any of the six styles reads as the name, the folded or literal text with its ending, and the body |
| SkillFolding.WithoutFrontMatter | src/skills/repo-skill-service.ts:79-90 | a file that does not start with dashes, or has none after them, is all body |
| SkillFile.KeyLinesAre | src/skills/repo-skill-service.ts:99-120 | a line has a key exactly when a colon follows one or more key characters |
| SkillRoundTrip.RoundTripExactly | src/skills/repo-skill-service.ts:79-154 | writing a skill and reading it back returns the same name, description and body exactly when they are storable: the checkable conditions on dashes, trimming, line breaks, indicators and indentation |
| SkillRoundTrip.HeaderExact | src/skills/repo-skill-service.ts:118-154 | the header alone reads back exactly under its part of those conditions |
| SkillRoundTrip.ParsedFieldsNoDashes | src/skills/repo-skill-service.ts:79-90 | no field the parser returns contains three dashes in a row, whatever the file |
| SkillRoundTrip.ParsedBuilt | src/skills/repo-skill-service.ts:79-90 | without dashes in the fields the header ends where the printer ended it, and the body loses only leading white space |
| SkillRoundTrip.ReadValueExact | src/skills/repo-skill-service.ts:118-139 | a value on a line of its own reads back exactly when it is one line for the pattern, trimmed, and no bare indicator |
| SkillRoundTrip.BlockExact | src/skills/repo-skill-service.ts:33-47 | the printed block of a multi-line description strips back to it exactly when its end is trimmed and some line starts in column one |
| SkillRoundTrip.ManyLineNameIsLost | src/skills/repo-skill-service.ts:145-154 | a name with a line feed never reads back as itself |
| SkillRoundTrip.LineSeparatorLosesTheName | src/skills/repo-skill-service.ts:120 | a trimmed one-line name with U+2028 in it is lost, since the dot of the key pattern does not match it |
| CommitMessage.GreedyIsLegal | src/workspace/commit-message.ts:240-255 | every line of a wrapped paragraph fits or is one word, and the lines hold all words in order |
| CommitMessage.GreedyIsShortest | src/workspace/commit-message.ts:240-255 | no legal split of the words has fewer lines than the wrapper's |
| CommitMessage.ParagraphIsShortest | src/workspace/commit-message.ts:240-255 | both facts for the text a paragraph is flushed to, compared with any other legal split |
| CommitMessage.FlushParagraph | src/workspace/commit-message.ts:240-255 | the loop that fills `current` pushes exactly the greedy lines of the paragraph's words |
| CommitMessage.WrapBullet | src/workspace/commit-message.ts:261-284 | the loop over a bullet's words pushes its marker line and the indented continuation lines |
| CommitMessage.WrapText | src/workspace/commit-message.ts:235-293 | the loop over the lines joins flushed paragraphs, bullets and blank lines in order |
| CommitMessage.WrapKeepsWords | src/workspace/commit-message.ts:235-293 | for every text and width the wrapped text has the same words in the same order |
| CommitMessage.WrappedLinesFit | src/workspace/commit-message.ts:235-293 | every line of a wrapped text fits the width or is a single word after its marker or indent |
| CommitSubject.GenerateCommitMessage | src/workspace/commit-message.ts:295-349 | returns the message the lemmas below describe, or throws; the cut to 72 never fires |
| CommitSubject.MessageIsProducedExactly | src/workspace/commit-message.ts:214-233 | a message is produced unless the first word of the summary is a name every object inherits, in a letter case that does not start small, such as Constructor: then the verb lookup finds no string and keeping its case throws |
| CommitSubject.ConstructorIsPrinted | src/workspace/commit-message.ts:214-233 | a subject that starts with the word constructor starts with the printed function instead |
| CommitSubject.FindPrefix | src/workspace/commit-message.ts:300-309 | the first table entry one of the labels names gives the prefix |
| CommitSubject.PrefixIsTheFirstEntrys | src/workspace/commit-message.ts:300-309 | the prefix is the commit type of the first table entry a label names, or the fallback |
| CommitSubject.FirstLineFits | src/workspace/commit-message.ts:309-341 | the first line of every message is prefix, blank and a beginning of the subject, and at most 50 long |
| CommitSubject.CutAtAWord | src/workspace/commit-message.ts:323-331 | a subject that fits is kept; a cut one has only whole words whenever a blank lies in the second half of the room |
| CommitSubject.SubjectIsCut | src/workspace/commit-message.ts:323-331 | a subject too long for the room is cut at the last blank in its second half, or else at its end, and trimmed |
| CommitSubject.ImperativeChangesOneWord | src/workspace/commit-message.ts:225-233 | only the first word of the subject is replaced, and only on a hit; its place takes the words of what was found |
| CommitSubject.BodyKeepsWords | src/workspace/commit-message.ts:337-349 | after the first line come all words of the other summary lines, in order |
| CommitLayout.MessageIsLaidOut | src/workspace/commit-message.ts:235-349 | every message is its first line alone, or goes on with one empty line and the remaining summary lines in groups: each blank line stays an empty line, each item starts a line of its own with its marker and continues indented by it, only lines of one paragraph are joined, and every line fits 72 or holds one word |
| CommitLayout.WrappingLaysOut | src/workspace/commit-message.ts:235-293 | the same for the wrapper alone and every width |
| CommitLayout.BodyIsLines | src/workspace/commit-message.ts:337-341 | what is wrapped are the remaining summary lines, the blank ones in front dropped and the first one's indentation with them; a carriage return at the end of a line is lost |
| CommitLayout.MarkersAre | src/workspace/commit-message.ts:261 | a dash, star or plus, or any number with a full stop, followed by white space, is a marker |
| Worktree.SyncKeepsWork | src/workspace/worktree.ts:118-182 | at every exit of a sync, normal or thrown, all uncommitted work is in a tree, on the stash or in quarantine |
| Worktree.SyncMovesForward | src/workspace/worktree.ts:137-145 | whatever the answers, every old head is an ancestor of the new one and no other tree changes |
| Worktree.SyncCatchesUp | src/workspace/worktree.ts:137-145 | after a successful sync origin's branch is in the tree's history |
| Worktree.SyncReturnsExactly | src/workspace/worktree.ts:118-157 | a sync returns exactly when the tree is listed, fetching works, the tree is clean or can be stashed and unstashed, origin lacks the branch or its head and the tree's are comparable, and the address can be set |
| Worktree.SyncTakesTheLaterHead | src/workspace/worktree.ts:137-147 | the head after a successful sync is the later of the tree's and origin's, or the old one when origin lacks the branch; at any other exit it is one of the two |
| Worktree.SyncRestoresTheStash | src/workspace/worktree.ts:135-182 | a successful sync leaves the stash and the tree's work as they were exactly when it did not pop a foreign entry, which happens exactly when the tree is reported dirty, nothing of it is saved, and the stash is not empty |
| Worktree.ForeignWorkIsPopped | src/workspace/worktree.ts:159-174 | runs in which that happens, by a failing `git status` on a clean tree or by a changed submodule: another tree's stashed work ends up in this tree |
| Worktree.NothingSavedFailsTheSync | src/workspace/worktree.ts:159-182 | with an empty stash such a tree cannot be synced at all |
| Worktree.OwnWorkIsAtHand | src/workspace/worktree.ts:135-182 | after any exit the tree's stashable work is in the tree again or is the top stash entry, and the rest never left it |
| Worktree.RemovalKeepsWork | src/workspace/worktree.ts:205-239 | a removal loses uncommitted work exactly when it forces away a tree with work that could not be stashed and is nowhere else, and then just that work; it loses nothing on any of its throws |
| Worktree.ForcedRemovalDeletesASubmodule | src/workspace/worktree.ts:210-228 | a run that deletes a change inside a submodule |
| Worktree.RemovalTakesOneTree | src/workspace/worktree.ts:205-239 | a successful removal takes away only its own tree, whose work is then the top stash entry; a failed one leaves every tree unless it was quarantined and pruning failed |
| Worktree.RemovalReturnsExactly | src/workspace/worktree.ts:205-239 | a removal returns exactly when the tree is clean or can be stashed and one of plain removal, forced removal and quarantine goes through; what it reports says which and whether it stashed |
| Worktree.RemoveWorktreeReturnsExactly | src/workspace/worktree.ts:184-203 | removing by issue returns exactly when nothing is listed or that removal works, and then the tree is neither listed nor on disk |
| Worktree.RemoveWorktreeKeepsWork | src/workspace/worktree.ts:184-203 | removing a worktree by issue loses work exactly when the worktree is listed and its removal does |
| Worktree.WorktreeManager.SyncWorktree | src/workspace/worktree.ts:118-157 | the commands run on the manager's fields in the source's order and end in the state the sync lemmas speak about |
| Worktree.WorktreeManager.PerformSafeRemoval | src/workspace/worktree.ts:205-239 | stash, plain removal, forced removal and recovery in this order, ending in the state the removal lemmas speak about |
| Worktree.WorktreeManager.RecoverBlockedRemoval | src/workspace/worktree.ts:379-400 | only permission errors are recovered, by moving the directory to quarantine and pruning |
| Worktree.WorktreeManager.FastForward | src/workspace/worktree.ts:137-145 | moves the branch only to a descendant, and only when origin has it |
| Eviction.ParseWorktreeList | src/workspace/worktree.ts:246-264 | the loop with `current` returns the blocks in order, each with its own branch |
| Eviction.ListRoundTrip | src/workspace/worktree.ts:241-268 | every porcelain listing of worktrees reads back as their paths and branches |
| Eviction.VictimsAreOldestFirst | src/workspace/worktree.ts:327-358 | the victims are the candidates in nondecreasing time, unknown times last, ties in list order |
| Eviction.VictimsGoByStats | src/workspace/worktree.ts:327-358 | of two victims the first was used no later under lru, or created no later under fifo with the status change standing in for a missing time; without stats a directory comes last |
| Eviction.EvictsTheFirst | src/workspace/worktree.ts:304-324 | the evicted worktree is the first whose removal does not fail, no later one is touched, and no other directory is gone except quarantined ones whose pruning failed |
| Eviction.CreationRespectsTheLimit | src/workspace/worktree.ts:33-101 | given that the listing succeeds, at every exit of creation there are at most max(limit, count before) registered worktrees |
| Eviction.CreationEvictsAtMostOne | src/workspace/worktree.ts:33-101 | at every exit of creation at most one directory is gone, besides those quarantined by a removal that failed at pruning, and it is that of the first victim in order whose removal did not fail |
| Eviction.UnreadListExceedsTheLimit | src/workspace/worktree.ts:265-302 | when the listing fails, nothing is evicted and creation adds one beyond any count |
| Eviction.EvictKeepsWork | src/workspace/worktree.ts:304-324 | the loop over the victims loses uncommitted work exactly when the removal that succeeds does; failed ones lose nothing |
| Eviction.CreateKeepsWork | src/workspace/worktree.ts:33-101 | creating or finding a worktree loses uncommitted work exactly when it gets as far as the limit and the eviction loses some |
| Eviction.CreatedIsThere | src/workspace/worktree.ts:40-100 | a returned worktree is registered, and on disk with a clean tree at the base unless it was found registered |
| Eviction.CreationReturnsExactly | src/workspace/worktree.ts:33-101 | creation returns exactly for a listed worktree, or when after pruning there is room and git can add the directory, which must not be there |
| Eviction.EnforcesExactly | src/workspace/worktree.ts:296-325 | below the limit nothing happens; at it the call returns exactly when some listed worktree can be removed |
| Eviction.EvictsExactly | src/workspace/worktree.ts:304-324 | the first victim whose removal works is evicted, and the loop throws exactly when there is none |
| Eviction.EnforceWorktreeLimit | src/workspace/worktree.ts:296-325 | the loop over the victims stops at the first removal that succeeds and throws when none does |
| Eviction.CreateOrGetWorktree | src/workspace/worktree.ts:33-101 | reuse, prune, limit and addition in this order, ending in the state the creation lemmas speak about |
| History.AncestorTransitive | src/workspace/manager.ts:110-140 | the ancestor relation of commits is transitive |
| Push.PushState.CommitAndPushPath | src/workspace/manager.ts:89-141 | commit, plain push and leased push run in this order against a remote that may move between any two steps; true means the remote now is the local head |
| Push.ReplacesOnlyWhatItMay | src/workspace/manager.ts:110-140 | a remote head is replaced exactly when the call returns true, and only if it is in local history or is the leased head at that instant |
| Push.CommitsWhatIsStaged | src/workspace/manager.ts:96-104 | the local head becomes a new commit whose only parent is the old head exactly when changes are staged and identity, add and commit succeed; otherwise it stays |
| Push.ReportsAPushExactly | src/workspace/manager.ts:96-141 | true is returned exactly when there is something to push and GitHub accepts the plain push or the lease is where the branch stands, false exactly when there is nothing; what was replaced is the head of that push |
| Push.ExpectedHeadProtects | src/workspace/manager.ts:123-138 | with a head captured beforehand no commit that landed later is ever taken off the branch, for any finite set of commits with distinct names |
| Push.LossNeedsALease | src/workspace/manager.ts:123-164 | without one, the exact answers under which a commit is lost |
| Push.ObjectNamesAreHex | src/workspace/manager.ts:124 | the lease is checked to be 40 to 64 hexadecimal digits in either case |
| Push.SafeExactlyWithAnExpectedHead | src/workspace/manager.ts:110-140 | a foreign commit is safe on all runs among the commits at hand exactly when the caller passes the head it saw |
| Push.CommitsCanBeNamed | src/workspace/manager.ts:124 | any forty commits have distinct well-formed names, so that these statements speak of every run |
| Push.MalformedExpectationNeverForces | src/workspace/manager.ts:124-129 | an expected head that is no object name, the empty one included, never overwrites anything |
| ConflictRework.ReworkService.PollMergeability | src/app/commands/merge-conflict-rework.ts:56-68 | polls until mergeability is known, the pull request is gone or the cap is reached |
| ConflictRework.ReworkService.RunConflictRework | src/app/commands/merge-conflict-rework.ts:87-122 | captures the head, runs one worker, and pushes unless it failed or was cancelled |
| ConflictRework.ReworkService.ResolveConflicts | src/app/commands/merge-conflict-rework.ts:131-165 | the retry loop makes the calls, in the order, and returns the outcome the lemmas below speak about |
| ConflictRework.ReworkService.RunMergeabilityGate | src/app/commands/execute-session-delivery.ts:328-388 | the gate's loop does the same with its own reports |
| ConflictRework.GateAgrees | src/app/commands/execute-session-delivery.ts:328-388 | on every trace of answers gate and resolveConflicts make the same calls in the same order, succeed on the same traces, and differ only in the gate's final report |
| ConflictRework.BothAreBounded | src/app/commands/merge-conflict-rework.ts:56-165 | at most maxAttempts workers and (maxAttempts+1)*P + maxAttempts fetches in both; the reported attempts are the workers run |
| ConflictRework.ReadyOnlyWhenClean | src/app/commands/merge-conflict-rework.ts:46-50 | both mark a pull request ready only directly after a snapshot that is a draft, known and conflict-free |
| ConflictRework.CleanMeansMergeable | src/app/commands/merge-conflict-rework.ts:143-161 | success means that the last snapshot fetched was mergeable |
| ReworkTrace.ResolveKeepsToTheScript | src/app/commands/merge-conflict-rework.ts:56-165 | on every trace: a worker starts only after a fetch that answered, its branch is pushed exactly when it completed, a push that went through is followed by another look and anything else by the list of conflicted files, no round follows a mergeable snapshot, nothing follows a rejection, and the outcome is the one the last call says |
| ReworkTrace.GateKeepsToTheScript | src/app/commands/execute-session-delivery.ts:328-388 | the gate makes the same calls and, when not clean, one report more, which alone may then reject |
| ReworkTrace.PollLooksUntilKnown | src/app/commands/merge-conflict-rework.ts:56-68 | polling looks again exactly while a pull request shows nothing about mergeability, up to the cap, and at least once |
| PercentEncoding.DecodeEncode | src/admin/app/routes.ts:31-125 | decoding an encoded segment returns it, for all Unicode text |
| PercentEncoding.Utf8RoundTrip | src/admin/app/routes.ts:31-125 | the octets of a character are valid UTF-8 for it: right length, not overlong, no surrogate |
| PercentEncoding.EncodeIsEncoded | src/admin/app/routes.ts:91-125 | an encoded segment has only unreserved characters and percent signs, and is empty only for the empty text |
| Routes.RoundTrip | src/admin/app/routes.ts:31-125 | every route's link opens its normalized route exactly when a repository route has a non-empty owner and repository |
| Routes.SegmentsOfHash | src/admin/app/routes.ts:32 | splitting a hash gives back the non-empty segments it was joined from |
| Routes.ParsedReposAreNamed | src/admin/app/routes.ts:49-80 | a parsed repository route never has an empty owner or repository |
| Routes.ParsedRoutesCanBeLinked | src/admin/app/routes.ts:31-125 | every route the parser yields, from any hash, has a link that opens it normalized, and linking that again leads to the same place |
| Routes.ThrowsExactly | src/admin/app/routes.ts:31-90 | a hash throws exactly when the owner or repository segment of one of the three pages that read them is no percent-encoding |
| Routes.ShortWorkingLinks | src/admin/app/routes.ts:66-72 | a link to the working page that breaks off opens it with what is there |
| Numbers.ParseIntText | src/admin/app/routes.ts:62-71 | a printed issue number parses back to itself |
| Migrations.ConsolidationIsAllOrNothing | src/migrations/refinement-consolidation.ts:70-146 | the merge succeeds exactly when the tables agree on shared ids and keys (and SQL does not fail); then both are unions and the marker counts the new rows; else nothing changed |
| Migrations.ConsolidationIsIdempotent | src/migrations/refinement-consolidation.ts:42 | a second run changes nothing, after success and after rollback |
| Migrations.RekeyingKeepsSessions | src/migrations/index.ts:195-233 | a successful re-keying keeps every session under the key its columns and kind ask for, no two meet, malformed ones stay; a failed one changes nothing |
| Migrations.RekeyedRowsAreFound | src/migrations/index.ts:195-233 | after a successful re-keying the session store finds every state that parses under the key it uses, unchanged but for the kind, a missing or unknown one written as implementation |
| Migrations.LogsMoveWithTheirSession | src/migrations/index.ts:223-226 | every log line of a session ends under the session's new key, in its place |
| Migrations.NineIsAFixedPoint | src/migrations/index.ts:195-233 | after migration 9, running it again or running 14 changes nothing, in any row order |
| Migrations.FourteenIsAFixedPoint | src/migrations/index.ts:288-320 | migration 14 succeeds exactly when no state is a primitive, writes every kind, and changes nothing when repeated |
| Migrations.StartingAgainChangesNothing | src/migrations/index.ts:409-433 | after a start whose data migrations went through, the next start leaves rows, logs, marker and bookkeeping as they are |
| Migrations.WhatAStartDoes | src/migrations/index.ts:409-433 | a start goes through exactly when re-keying and merge do; then it has done both, and otherwise what came before the failing one |
| Migrations.SchemaMigrationsOnlyNote | src/migrations/index.ts:422-432 | the other migrations run at every start and are noted without changing rows |
| Migrations.Database.MakeKeysKindAware | src/migrations/index.ts:198-233 | the transaction's loop ends in the specified rows or restores the old ones |
| Migrations.Database.NormalizeKinds | src/migrations/index.ts:291-319 | the same for the kinds |
| Migrations.Database.MigrateRefinementStore | src/migrations/refinement-consolidation.ts:21-150 | insert, conflict checks and marker in one transaction that commits or rolls back |
| Migrations.Database.RunMigrations | src/migrations/index.ts:422-432 | every migration runs again, the first that throws stops the loop |
| SessionStore.StepRefines | src/session/store.ts:153-249 | one call on a coherent cache answers as without cache and keeps it coherent, also when the database call fails |
| SessionStore.CacheIsInvisible | src/session/store.ts:153-249 | over every sequence of calls the cached store gives the answers and rows of the uncached one, and every cache entry has a row and agrees with it |
| SessionStore.SetThenGet | src/session/store.ts:153-187 | what was stored is found with its kind, or absent when archived, after any calls that do not write its key |
| SessionStore.DeleteThenGet | src/session/store.ts:153-208 | what was deleted is absent after any calls that do not write its key |
| SessionStore.ReadsAreCached | src/session/store.ts:153-169 | what was found once is answered from the cache, whatever the rows say by then |
| SessionStore.KeysMeetExactly | src/session/store.ts:11-13 | two sessions share a key exactly when issue, kind, and owner and repository joined by a dash agree |
| SessionStore.RepositoriesMayShareKeys | src/session/store.ts:11-13 | two repositories whose sessions share keys |
| SessionStore.ListedWhenFound | src/session/store.ts:153-220 | `get` and `getAll` agree on a key exactly when its row's archive time is not the empty string |
| SessionStore.EmptyArchiveTimeIsUnlisted | src/session/store.ts:171-220 | a session that is found and not listed |
| SessionStore.Sessions.GetSession | src/session/store.ts:153-169 | a live cache entry is returned, an archived, missing or malformed row is null, and a first read is cached |
| SessionStore.Sessions.SetSession | src/session/store.ts:171-187 | row first, cache after it, both with the normalized state |
| SessionStore.Sessions.DeleteSession | src/session/store.ts:199-208 | the cache entry goes even when deleting the row fails |
| Polling.TickDispatchesInOrder | src/github-events/polling.ts:329-339 | a tick dispatches a permutation of what it collected, in nondecreasing order, ties in collection order |
| Polling.CollectsWhatIsListed | src/github-events/polling.ts:277-330 | a tick collects every event listed for a repository or fetched for a due subject, and besides them only pushes that report another head |
| Polling.FirstTickOnlyStarts | src/github-events/polling.ts:277-300 | the first tick notes its time and looks at nothing, and no tick takes that back |
| Polling.HandledRenewsItsSubject | src/github-events/dispatcher.ts:20-66 | a handled event marks its id and renews exactly its own subject: the pull request it is about, or an issue assigned to us unless the comment is on a pull request |
| Polling.EveryIdCompletesOnce | src/github-events/dispatcher.ts:20-66 | over all ticks and deliveries, one at a time, every id completes at most once and is seen exactly when it completed |
| Polling.ThrowsAreContained | src/github-events/polling.ts:332-339 | an event that throws stays unseen unless its id completes otherwise, and does not stop the others |
| Polling.EventStore.DispatchEvent | src/github-events/dispatcher.ts:20-66 | duplicates are ignored, failures leave no trace, completion marks the id and upserts the subject |
| Polling.EventStore.TickGitHubPolling | src/github-events/polling.ts:277-341 | the loops collect, sort and dispatch to the state and the completions the lemmas below speak about |
| Polling.EventStore.CollectDueSubjectEvents | src/github-events/polling.ts:373-427 | exactly the due subjects are fetched and marked checked, fetch failures included |
| Polling.EventStore.CollectDefaultBranchPush | src/github-events/polling.ts:343-371 | records the head, and reports a push only for a change from a recorded one |
| PollSchedule.RecheckedWithinAnHour | src/github-events/polling.ts:57-72 | while repositories can be listed, with ticks at most T apart and a base of at most an hour, a subject is checked again within an hour and T, whatever else fails or arrives |
| PollSchedule.NeverCheckedEarly | src/github-events/polling.ts:57-72 | of two consecutive checks in a run, with no event about the subject newly handled in between, the second comes only after the base interval, 15 minutes or an hour by idle time |
| PollSchedule.RecordStays | src/github-events/store.ts:93-124 | between them the record of the subject is what the first check left |
| PollSchedule.StepTouches | src/github-events/store.ts:93-124 | in a step a handled event about a subject takes its check time away; without one a check writes it, and no other step touches the record |
| PollSchedule.ActivityMakesDue | src/github-events/dispatcher.ts:60-65 | a newly handled event about a subject makes it due at once |
| HeadTracker.PushesAreTheChanges | src/github-events/polling.ts:343-371 | the pushes reported for a repository are exactly the changes of its head, a chain without gaps |
| HeadTracker.TickReports | src/github-events/polling.ts:343-371 | a tick dispatches a push to a head exactly when the repository shows that head while another one is recorded, and records the head shown |
| HeadTracker.PushIdNames | src/github-events/polling.ts:254 | a push id determines its repository, ref and new head |
| HeadTracker.PushIsHandledExactly | src/github-events/polling.ts:329-370 | over every run a push to a head has been handled exactly when, at some tick, that head was shown while another was recorded and the handler completed at that very tick |
| HeadTracker.PushIsNotRetried | src/github-events/polling.ts:362-370 | over every run, once a head is recorded a push to it is reported again exactly when the repository shows another head and then this one once more |
| HeadTracker.FailedPushIsLost | src/github-events/polling.ts:363-370 | over every run an unseen push to the recorded head stays unseen for as long as no other head is shown |
| HeadTracker.LostAndRegained | src/github-events/polling.ts:362-370 | a run that loses a push whose handler failed once, and one that goes elsewhere and back and has it handled |
| HeadTracker.RevisitedHeadIsIgnored | src/github-events/dispatcher.ts:20-24 | over every run, once a push to a head was handled no later step handles one to the same head |
| HeadTracker.BackAndForth | src/github-events/polling.ts:240-268 | heads A, B, A, B report three pushes, the first and last with one id |
| PollSchedule.OneTickAtATime | src/github-events/polling.ts:429-444 | however the timer fires no two ticks overlap, and an idle poller starts one |
| Sorting.SortIsStable | src/github-events/polling.ts:330 | the sort permutes, orders, and keeps ties in order |
| WorkerRpc.ActKeepsOrder | src/worker/rpc-server.ts:46-86 | with one listener at a time a step keeps received ++ buffer == stream exactly when no new listener throws before the last buffered message |
| WorkerRpc.DeliveryIsInOrder | src/worker/rpc-server.ts:46-86 | over every order of frames, attachments and detachments, one listener at a time, received and buffer make up the stream exactly when every attachment was handed its whole buffer |
| WorkerRpc.StreamIsWhatArrived | src/worker/rpc-server.ts:46-56 | over every order of actions the stream is the messages of the frames that decoded, in order |
| WorkerRpc.HandedUpToTheFirstThrow | src/worker/rpc-server.ts:53-55 | a message is handed to the listeners in their order, up to and including the first that throws |
| WorkerRpc.EmitsAnErrorExactly | src/worker/rpc-server.ts:46-59 | an error is emitted exactly for a frame that does not decode and for a throw as a message arrives |
| WorkerRpc.ListensExactly | src/worker/rpc-server.ts:78-86 | a listener is called exactly from its attachment to its removal |
| WorkerRpc.ThrowingListenerLosesTheRest | src/worker/rpc-server.ts:78-82 | a listener that throws on the first of two buffered messages loses the second |
| WorkerRpc.Connection.Receive | src/worker/rpc-server.ts:46-59 | buffers without listeners, else hands on until the first throw, which becomes an error |
| WorkerRpc.Connection.OnMessage | src/worker/rpc-server.ts:78-86 | attaches and flushes in order; a throw escapes and drops the rest |
| WorkerRpc.TokensAreSingleUse | src/worker/rpc-server.ts:141-211 | over every order of events a token makes at most one connection and its promise is settled at most once, resolved exactly with the connection |
| WorkerRpc.ConnectsWhenAsked | src/worker/rpc-server.ts:141-188 | a token presented with its session key and shaken hands on becomes an active connection that resolves its promise |
| WorkerRpc.ActiveExactly | src/worker/rpc-server.ts:151-211 | a connection is active from its handshake until its socket or the server closes |
| WorkerRpc.FailedHandshakeStrandsTheWaiter | src/worker/rpc-server.ts:151-198 | after an accepted upgrade whose handshake fails the promise is never settled, disposal and closing included |
| WorkerRpc.WaitingTokenEnds | src/worker/rpc-server.ts:151-211 | disposal and closing reject a waiting token at once; only an upgrade with the right session key takes it |
| WorkerRpc.RpcServer.OnUpgrade | src/worker/rpc-server.ts:147-157 | accepts exactly a waiting token with its session key, and consumes it |
| WorkerRpc.RpcServer.DisposePending | src/worker/rpc-server.ts:190-198 | rejects only a token that still waits |
| WorkerRpc.RpcServer.Close | src/worker/rpc-server.ts:202-211 | rejects every waiting token and drops all connections |
| PrRecovery.ValidationMeansMatching | src/app/commands/pr-recovery.ts:67-91 | validation passes exactly for the issue's branch, the base, open, unmerged, and the associated number if there is one |
| PrRecovery.SearchesAgreeExactlyWithABase | src/app/commands/execute-session-delivery.ts:265-291 | `discover` and `findExistingPR` make the same calls and find the same pull request on all traces exactly when the base is not empty |
| PrRecovery.DiscoveryNeverGuesses | src/app/commands/pr-recovery.ts:157-177 | a pull request is found exactly when it is the only listed candidate that validates, and none is reported exactly when none does |
| PrRecovery.RecoveryIsSound | src/app/commands/pr-recovery.ts:106-149 | recovery succeeds only for a snapshot fetched during the call with the exact head and base, open and unmerged; the association ends as that pull request, or empty on refusal |
| RecoveryTrace.RecoversExactly | src/app/commands/pr-recovery.ts:106-177 | a recovery that does not throw comes back with the associated pull request exactly when it still matches, and else with the only listed one that does |
| RecoveryTrace.RecoveryStopsAtARejection | src/app/commands/pr-recovery.ts:106-177 | recovery throws exactly when its last call was rejected, and calls nothing after that |
| PrRecovery.CreationIsReconciled | src/app/commands/execute-session-delivery.ts:213-258 | delivery creates once, stores what it reports, and reports an existing pull request only for a fetched snapshot with the exact head and base, open and unmerged |
| RecoveryTrace.CreatesExactly | src/app/commands/execute-session-delivery.ts:213-291 | when creation reports a new, an existing or no pull request and when it throws, for every answer of GitHub and of the session store |
| PrRecovery.PrService.DiscoverPr | src/app/commands/pr-recovery.ts:157-177 | the loop fetches every candidate in order and fills `valid` with those that validate |
| PrRecovery.PrService.FindExistingPr | src/app/commands/execute-session-delivery.ts:265-291 | the sibling loop fetches the same candidates and keeps those with the exact head and base, open and unmerged |
| PrRecovery.PrService.RecoverPr | src/app/commands/pr-recovery.ts:106-149 | a trusted association is kept, any other is cleared before the discovery, whose find is stored |
| PrRecovery.PrService.CreatePullRequest | src/app/commands/execute-session-delivery.ts:213-258 | one creation, and on any error the search for an existing pull request |
| Metrics.TimeSeries | src/metrics/store.ts:110-125 | each bucket holds the totals of the stored rows of its day, filled through a map that shares the bucket objects |
| Metrics.BuildEmptyBuckets | src/metrics/store.ts:127-138 | one empty, separate bucket for each of the last days, oldest first |
| Metrics.Bucket.Accumulate | src/metrics/store.ts:156-171 | one row is added to one bucket |
| Metrics.QueryTotals | src/metrics/store.ts:78-113 | filtering and ordering the rows changes no day inside the window |
| Metrics.TotalIsRowCount | src/metrics/store.ts:156-158 | a bucket's total is the number of rows of its day |
| Metrics.RowsAreConserved | src/metrics/store.ts:110-125 | the bucket totals sum to the rows inside the window |
| Metrics.OutcomesWithinTotal | src/metrics/store.ts:157-160 | outcome counts and rows with other statuses sum to the total |
| Metrics.BucketsHoldSums | src/metrics/store.ts:156-171 | a bucket holds how many of its day's rows ended how, the sum of their run times, and the sums of the usage of those that report one |
| Metrics.DaysAreWhole | src/metrics/store.ts:127-138 | a day is 86 400 000 milliseconds from its midnight |
| Metrics.TokensOnlyFromUsage | src/metrics/store.ts:164-170 | token sums are those of the rows with usage alone, and the flag says whether there is one |
| SessionLog.MemoryIsTheTail | src/logging/session-log-store.ts:62-89 | over every sequence of recording, clearing and restarting, memory holds the last 5000 (or fewer) durable entries of every session and nothing else |
| SessionLog.MemoryIsTheHistory | src/logging/session-log-store.ts:50-89 | starting empty, a log in memory is what its session recorded since it was last cleared, cut to the latest 5000, over every sequence with restarts |
| SessionLog.RestartRebuildsTheSame | src/logging/session-log-store.ts:50-60 | a restart rebuilds exactly the map that was there |
| SessionLog.OthersAreUntouched | src/logging/session-log-store.ts:62-89 | recording or clearing one session leaves all others alone |
| SessionLog.FailedAppendDiverges | src/logging/session-log-store.ts:71-77 | a failing append leaves memory and rows in step exactly when the log was full of copies of that entry; a restart forgets the entry in any case |
| SessionLog.FailedClearComesBack | src/logging/session-log-store.ts:86-89 | a clear whose statement fails is undone by the next restart |
| SessionLog.SessionLogs.RecordSessionLog | src/logging/session-log-store.ts:62-78 | the entry is pushed, the oldest dropped beyond 5000, and then it is appended; a failing append leaves the push |
| SessionLog.SessionLogs.LoadAll | src/logging/session-log-store.ts:130-165 | the loop groups the rows by session in id order |
| SessionLog.SessionLogs.LoadPersistedSessionLogs | src/logging/session-log-store.ts:50-60 | memory becomes the capped groups |

## Left out

- Text modules count a character as one code unit; lone surrogates, and the two code units of a character outside the basic plane, are not represented.
- Routes: JavaScript prints numbers from 1e21 on in exponent form and has a negative zero; issue numbers here are mathematical integers.
- CommitSubject.GenerateCommitMessage: `stripMarkdown` has been applied to its summary, and the verbs of the table, with the letter case of the word they replace, are a parameter.
- SkillFile: the Git and GitHub calls of the skill service around the parser and the printer.
- Admission.MutualExclusion: a restart of the process; the registry lives in memory and starts empty.
- Admission: the five-second race inside a steer callback, and what a handler writes to GitHub and to sessions between registering and leaving; only its control flow is kept.
- Worktree: git commands either happen or do not, so a removal that fails halfway (and has already dropped the registration) is not represented; each sync and each removal is one step for its repository, since the stash is shared.
- Worktree: `ensureBareRepo` may delete and clone again a broken bare repository, stash included; creation here starts from a usable one.
- Eviction: branch refs without a working tree, so unpushed commits of a branch that is reset when its missing worktree is created again are not tracked; refinement worktrees, which the limit does not cover.
- Eviction.EvictsTheFirst: the modification time that reuse of a worktree sets is an answer of `stat` here.
- Push: how commits are hashed; the names of the commits at hand are distinct and have 40 to 64 hexadecimal digits.
- ConflictRework: the lists of conflicted files are answers; comments and session updates of the two reports are one call.
- PrRecovery.RecoveryIsSound: the session passed in mirrors what is stored when the call starts; updates by others during it are not represented.
- Polling: concurrent dispatch of a webhook and a tick, where an await sits between the test and the mark; only one dispatch at a time is covered, as in one process without overlapping deliveries.
- Polling: dates that do not parse, the six listing calls and their normalization into events, and the overlap window they are asked for.
- HeadTracker: repository names and refs contain no colon, no repository is answered for twice in one tick, its default branch keeps its name, and no other event carries the id of a polled push.
- SessionStore: objects returned by `get` are the cached ones, so a caller that changes one changes the cache; the order of `getAll`; file transcripts.
- SessionStore.CacheIsInvisible: other processes writing the same rows.
- Migrations: the schema-only migrations, the layout of printed JSON, and NULL ids in the legacy table.
- WorkerRpc: listeners that attach or detach others while they are called, several listeners at once beyond the step function, and the close and error events.
- Metrics: timestamps that are no ISO dates; sums of costs are over reals, not floating point.
- SessionLog: log details that JSON does not carry, and listeners of the log event.
- Screens, hooks, prompts, settings tables, password hashing, cookies, signature checks, Docker and HTTP.
