# vcli in Dafny

vcli runs small declarative programs against a screen: each program has a trigger, watches
(predicate plus steps) and a body of steps. A tick-driven scheduler steps all programs,
announces every change as an event, and a pump folds those events into a store. This project
models the logic of that machine and proves what it promises over whole runs.

| module | what it covers |
|---|---|
| `Program`, `Scheduler` | one tick of one program as functions; the scheduler object whose loops compute exactly that for every program |
| `Conduct` | the laws of one tick, told by the inputs, events and records that come out of it |
| `Lives`, `Bodies`, `Completion`, `Trajectories` | a program's whole life: watch discipline, body refinement, completion; and that scheduler runs consist of such lives |
| `Arbiter` | who may dispatch in a tick |
| `Store`, `WriteBehind`, `Recovery`, `Resumption` | program rows, restart recovery, resume; the daemon as a transition system with its queues; how long a recovered program stays resumable, and where a resumed one goes on |
| `Hint`, `Predicates` | the validator: shape checks, one-edit hints, cycle search |
| `Perception`, `Evaluation`, `ElapsedRuns` | the memoising evaluator against a cache-free meaning; what validation buys it; the elapsed timer |
| `Decimal`, `Canonical`, `CanonicalForm`, `CanonicalWriter`, `JsonReader` | canonical JSON bytes, and a reader that takes them back |
| `Assets`, `AssetStore` | content-addressed assets, submission, garbage collection |
| `Calendar`, `Timestamps` | civil dates and RFC 3339 text |
| `Frame` | length-prefixed frames |

`dafny verify dfyconfig.toml` checks everything.

Clock readings, captured frames, predicate truth, target resolution, the input sink's answers,
files on disk, the order in which hash maps and queries yield their keys, and the way a stream is
cut into reads are parameters: every theorem holds for all of them.

## What turned out not to hold

Where the code falls short of what its comments or its design promise, the model keeps the code
and the exact boundary is proved:

- Two programs that share a cache key get one answer between them: the key hashes operand names,
  not what they stand for (`Perception.SharingWrongWitness`). `Perception.SharedKeySharesAnswer`
  gives the exact condition, `Perception.SharedDefinitionsSuffice` one that can be checked.
- A map the validator accepts can still be reported as cyclic: an uncached chain of 33 dependencies
  is (`Evaluation.DepthGuardStrikes`); without such a stretch, nothing is (`Evaluation.ValidatedEvaluationIsSafe`).
- A rising edge lost to arbitration is consumed, although the comment at
  crates/vcli-runtime/src/watches.rs:19-23 says otherwise (`Lives.LoserForfeitsEdge`, with a run in
  `Trajectories.LoserStaysSilent`).
- A program started by command can complete with a live persistent watch
  (`Completion.StartedProgramMayCompleteWithLiveWatch`); `Completion.CompletedLeavesOnlyUnrecorded`
  says exactly which observations prevent it.
- The failure event that startup queues for a recovered program overwrites the mark that makes it
  resumable: `Recovery.ResumableExactlyUntilPumped` gives the exact window.
- Storing the bytes of a `.tmp` image again under another extension destroys its blob
  (`Assets.TemporaryExtensionLosesAsset`); `Assets.IntegrityIsExact` says exactly when integrity holds.
- The date reader accepts 31 February and counts on into March (`Calendar.DateRoundTrip`,
  `Calendar.DaysCountOn`), and printed years below 0 are refused (`Timestamps.PrintedTimestampReads`).
- A stream cut right behind the header of a four-byte payload looks like a clean end
  (`Frame.CleanEndIsAmbiguous`).

## Model

| member | source | states |
|---|---|---|
| Scheduler.Scheduler.TickOnce | crates/vcli-runtime/src/scheduler.rs:188-527 | the phased loops over all programs leave every program, and emit for every program, exactly what its own tick function gives under the arbitration winner; nothing is emitted for anyone else |
| Scheduler.Scheduler.DrainCommands | crates/vcli-runtime/src/scheduler.rs:111-186 | commands act in order on any state, terminal ones included, each at its own clock reading, up to the first shutdown; each announces its transition |
| Scheduler.Scheduler.FireTriggers | crates/vcli-runtime/src/scheduler.rs:200-251 | every waiting program goes through its trigger once, others are untouched, events match |
| Scheduler.Scheduler.LookAtWatches | crates/vcli-runtime/src/scheduler.rs:267-355 | the inner loop records exactly the seen watches with their truth, exactly the retirements, and finds the first firing watch |
| Scheduler.Scheduler.RunWatches | crates/vcli-runtime/src/scheduler.rs:253-436 | the winner is the (priority, id) maximum of the contenders; dispatch, deferral and failure come out per program as specified |
| Scheduler.Scheduler.ApplyEval | crates/vcli-runtime/src/scheduler.rs:438-450 | truthy edges then retirements amount to observing every watch, arbiter losers included |
| Scheduler.Scheduler.StepBody | crates/vcli-runtime/src/scheduler.rs:458-526 | one body step: cursor, deferral, state and events |
| Scheduler.OneDispatcherPerTick | crates/vcli-runtime/src/scheduler.rs:343-436 | any watch input or dispatch event of a tick belongs to the one winner, and every other contender reports being deferred to it |
| Scheduler.TickComposes | crates/vcli-runtime/src/scheduler.rs:200-526 | the four phases one after another equal the per-program tick, although the phases interleave programs |
| Conduct.WatchDispatchIsExact | crates/vcli-runtime/src/scheduler.rs:375-423 | a winning watch sends exactly the inputs its steps ask for, in order, once each, up to the first step that cannot be performed; it announces those and the one it broke off at, fires if and only if none was blocked, and else the program fails with that step's reason |
| Conduct.NothingElseDispatches | crates/vcli-runtime/src/scheduler.rs:367-436 | without such a watch a tick sends no watch input and announces no dispatch |
| Conduct.DeferralIsAnnounced | crates/vcli-runtime/src/scheduler.rs:424-434 | a due watch that loses its tick announces its deferral, naming its steps and the winner, sends nothing and does not fire |
| Conduct.FireIsAnnounced | crates/vcli-runtime/src/scheduler.rs:369-423 | a watch fires if and only if its firing is announced, whether it has steps or none |
| Conduct.AssertIsExact | crates/vcli-runtime/src/body.rs:140-161 | an assert is passed if and only if its predicate is true or its falsehood is tolerated; it fails the program with the assertion reason exactly on an untolerated falsehood and with the perception reason exactly without a result |
| Conduct.DeferralBegins | crates/vcli-runtime/src/body.rs:122-139 | a sleep or wait that is reached begins with its wake time or deadline and passes in no earlier tick than the next |
| Conduct.SleepIsExact | crates/vcli-runtime/src/body.rs:75-82 | a pending sleep passes exactly when its time has come |
| Conduct.WaitIsExact | crates/vcli-runtime/src/body.rs:82-114 | a pending wait passes exactly on truth or a tolerated deadline, fails exactly on an untolerated one or without a result, and else goes on waiting |
| Conduct.ActionIsExact | crates/vcli-runtime/src/body.rs:162-217 | an action is passed exactly when nothing blocks it, with its one right input sent; else the program fails with the reason and sends nothing |
| Conduct.FailureStaysAtStep | crates/vcli-runtime/src/scheduler.rs:469-514 | whatever step fails, the program stays at it and sends nothing |
| Conduct.TriggerIsExact | crates/vcli-runtime/src/scheduler.rs:208-251 | when a waiting program starts, stays or fails for each kind of trigger, what it starts with and what it announces |
| Conduct.ManualWaits | crates/vcli-runtime/src/scheduler.rs:208-251 | over a life, a manual program leaves waiting only by command |
| Conduct.RecordIsExact | crates/vcli-runtime/src/scheduler.rs:438-456 | what a running tick leaves in each watch's record: truth, firing time and retirement, as observation and firing demand |
| Conduct.CompletionIsExact | crates/vcli-runtime/src/scheduler.rs:469-514 | a running tick completes and announces the program if and only if it ends with the body done and every recorded watch retired |
| Trajectories.TrajectoryIsLife | crates/vcli-runtime/src/scheduler.rs:100-186 | in every run of commands and ticks, a program's path from the command that installs it is a life, move by move, so the theorems about lives hold of the scheduler |
| Trajectories.CommandsLead | crates/vcli-runtime/src/scheduler.rs:113-184 | where each command leads: a submission waits from its beginning, a resume runs from the given step with nothing seen or deferred, start and cancel change a held program's state and start clock alone, nothing else changes |
| Trajectories.DrainStopsAtShutdown | crates/vcli-runtime/src/scheduler.rs:111-115 | a drain executes exactly the commands ahead of the first shutdown |
| Trajectories.DrainIsRun | crates/vcli-runtime/src/scheduler.rs:111-186 | a drain is a run of its commands, one after another, each at its own clock reading |
| Trajectories.PairTicks | crates/vcli-runtime/src/scheduler.rs:188-527 | any two programs can tick under the winner arbitration gives them |
| Trajectories.LoserStaysSilent | crates/vcli-runtime/src/scheduler.rs:440-445 | a run of two programs in which the loser's predicate stays true, nobody contends any more, and it still does not fire |
| Arbiter.MaxBy | crates/vcli-runtime/src/arbiter.rs:44-52 | a member that no candidate exceeds in (priority, id) |
| Arbiter.ResolveRules | crates/vcli-runtime/src/arbiter.rs:35-68 | one ruling per candidate in order, payload intact; exactly one dispatches, the maximum, and every loser names it |
| Arbiter.WinnerIgnoresOrder | crates/vcli-runtime/src/arbiter.rs:35-68 | permuting the candidates does not change the winner |
| Program.FirstFire | crates/vcli-runtime/src/scheduler.rs:273-342 | the least index whose decision is to fire, or none exists |
| Lives.LifeIsWatchRun | crates/vcli-runtime/src/watches.rs:25-57 | every life drives each watch through the edge, throttle and retirement automaton |
| Lives.WatchDiscipline | crates/vcli-runtime/src/watches.rs:25-57 | over a whole life: a retired watch never fires, a one-shot fires at most once, a falsy observation separates two fires, and k fires span (k-1) throttle windows |
| Lives.TimeoutWatchFallsSilent | crates/vcli-runtime/src/watches.rs:35-39 | once its window has elapsed a timeout watch never fires again, unless a start command reopens the window |
| Lives.FiresExactlyWhenDue | crates/vcli-runtime/src/watches.rs:25-50 | a watch fires in a tick if and only if it is the program's first unsuppressed rising edge and its steps, if any, won and all dispatched |
| Lives.LoserForfeitsEdge | crates/vcli-runtime/src/scheduler.rs:440-445 | a watch that lost arbitration fires again only after its predicate was seen falsy |
| Lives.LifeKeeps | crates/vcli-runtime/src/program.rs:10-60 | the invariant of every life: deferral matches the cursor's step, records are of real watches, persistent watches never retire |
| Bodies.BodyRefinement | crates/vcli-runtime/src/body.rs:61-217 | in every run the successful body inputs are the action steps of body[start..cursor], in order, once each, each with the call its step and its resolved target ask for; the cursor moves by at most one per tick and a pending deferral matches its step |
| Bodies.DeferralsNeverEndEarly | crates/vcli-runtime/src/body.rs:73-138 | the cursor passes a sleep only after its time and a wait only on truth or after a deadline that does not fail it |
| Bodies.TickMovesBody | crates/vcli-runtime/src/scheduler.rs:458-526 | whatever triggers and watches do in a tick, the body is either left alone or stepped once |
| Completion.TerminalIsFinal | crates/vcli-runtime/src/scheduler.rs:200-266 | a tick neither changes nor reports anything for a terminal program |
| Completion.CompletedMeansDone | crates/vcli-runtime/src/scheduler.rs:469-514 | a trigger-started program completes only past its body with every watch retired, hence never with a persistent watch |
| Completion.CompletedLeavesOnlyUnrecorded | crates/vcli-runtime/src/scheduler.rs:438-514 | however started, on completion a watch is retired if and only if its program was started by its trigger or some tick it ran in observed or tripped that watch |
| Completion.RecordsComeFrom | crates/vcli-runtime/src/scheduler.rs:226-232 | over a whole life a watch has a record exactly when one of those happenings gave it one |
| Completion.PersistentCompletesOnlyUnseen | crates/vcli-runtime/src/scheduler.rs:469-514 | a program with a persistent watch completes only if its trigger never started it and that watch gave no result in any tick it ran |
| Completion.StartedProgramMayCompleteWithLiveWatch | crates/vcli-runtime/src/scheduler.rs:146-157 | a two-step run that completes with a live persistent watch |
| Completion.BoundedCompletion | crates/vcli-runtime/src/body.rs:61-138 | a watch-free running program ends within max(1, cost of the remaining steps) ticks when the clock advances at least d per tick; a pending sleep or wait counts with what is left of it |
| Completion.TicksIsCeiling | crates/vcli-runtime/src/body.rs:73-80 | the tick cost of a duration is its ceiling in steps of d |
| Store.Db.InsertProgram | crates/vcli-store/src/store.rs:89-104 | a fresh pending row, or an error and no change for a known id |
| Store.Db.UpdateState | crates/vcli-store/src/store.rs:154-172 | state set, started_at only on the first running, finished_at on terminal states; unknown id is an error |
| Store.Db.SetBodyCursor | crates/vcli-store/src/store.rs:178-190 | the cursor alone changes; unknown id is an error |
| Store.Db.SetLastError | crates/vcli-store/src/store.rs:193-203 | code and message overwritten, unknown ids ignored |
| Store.Db.RecoverRunning | crates/vcli-store/src/store.rs:291-325 | reports exactly the rows that were running, each once with its cursor, and marks exactly those |
| Store.Db.ResumeProgram | crates/vcli-store/src/resume.rs:27-81 | succeeds exactly on rows that recovery marked, at their cursor or 0, and rewrites the row |
| Store.RecoveryIsExact | crates/vcli-store/src/store.rs:291-325 | recovery leaves nothing running, keeps cursors and start times, makes resumable exactly what ran, and is idempotent |
| Store.ResumedAtMostOnce | crates/vcli-store/src/resume.rs:27-81 | between recoveries a row is resumed at most once, and only if marked at the start |
| Store.StartedAtIsStable | crates/vcli-store/src/store.rs:154-172 | once set, started_at never changes over any run of store operations |
| WriteBehind.PumpOne | crates/vcli-daemon/src/persist.rs:41-85 | what each event makes of each row, field by field, and that this is one fold step |
| WriteBehind.TickFolds | crates/vcli-runtime/src/scheduler.rs:188-527 | folding a tick's events onto the state before gives the state after |
| WriteBehind.DrainAnnounces | crates/vcli-runtime/src/scheduler.rs:113-184 | what each executed command adds to the queue, in order: submissions and resumes always, starts and cancellations of held programs with the state they had |
| WriteBehind.WriteBehindAgreement | crates/vcli-daemon/src/persist.rs:24-85 | in every interleaving of handlers, drains, ticks, pump steps, collections and restarts, the queued events folded onto the stored state give the in-memory state of every settled program |
| WriteBehind.SettledStoreMatches | crates/vcli-daemon/src/persist.rs:24-85 | with nothing queued about it, a settled program's row and memory have the same state |
| Recovery.PumpClosesResume | crates/vcli-daemon/src/persist.rs:57-73 | exactly which events leave a resumable row resumable when persisted |
| Recovery.ResumableOnlyUntilPumped | crates/vcli-daemon/src/startup.rs:17-43 | in every daemon run, until the next restart a recovered program can be resumed only while startup's failure event about it is queued |
| Recovery.RecoveredRowCannotBeResumedAfterPump | crates/vcli-daemon/src/persist.rs:57-73 | once the pump has taken that event, the program cannot be resumed before the next restart, whatever else happens |
| Recovery.ResumableExactlyUntilPumped | crates/vcli-daemon/src/persist.rs:24-85 | while its row is neither resumed nor collected, it can be resumed if and only if that event is still queued |
| Resumption.ResumeContinuesAtCursor | crates/vcli-runtime/src/scheduler.rs:158-181 | in every daemon run, the program an accepted resume leads to when its command is drained runs the reloaded document from the stored cursor, or from 0 if asked, with no watch seen and nothing deferred |
| Resumption.ResumeArrives | crates/vcli-daemon/src/handler.rs:228-258 | until it is drained, that command is on its way, with that step and document |
| Resumption.ResumedProgramGoesOn | crates/vcli-runtime/src/body.rs:61-217 | from there until it is replaced the program lives one life: the action steps it sends are at or above that cursor, ascending, none twice |
| Resumption.NoEarlierStep | crates/vcli-runtime/src/body.rs:61-217 | any life sends steps from its first cursor on only, each at most once |
| Hint.IsInsertion | crates/vcli-dsl/src/hint.rs:45-65 | true exactly when the longer word is one letter longer and within Levenshtein distance 1 |
| Hint.DistanceAtMost1 | crates/vcli-dsl/src/hint.rs:24-43 | the greedy test is Levenshtein distance at most 1 |
| Hint.DidYouMean | crates/vcli-dsl/src/hint.rs:7-22 | the first candidate within one edit is the hint, unless it is the name itself; none within reach gives none |
| Predicates.CheckReferences | crates/vcli-dsl/src/predicates.rs:33-85 | reports nothing exactly when every reference resolves, and any complaint is justified and carries exactly the hint its name deserves |
| Predicates.HintIsDefined | crates/vcli-dsl/src/predicates.rs:87-99 | an undefined name gets a hint exactly when some defined name is within one edit, and the hint is such a name |
| Predicates.EdgesAreOccurrences | crates/vcli-dsl/src/predicates.rs:197-213 | the edges are exactly the names that occur in a definition: those whose renaming changes it |
| Predicates.ValidateShape | crates/vcli-dsl/src/predicates.rs:22-31 | the same over the whole map |
| Predicates.FollowEdge | crates/vcli-dsl/src/predicates.rs:157-184 | one edge: push a white node, report the genuine cycle through a gray one, skip the rest; the search state stays sound and shrinks |
| Predicates.SearchFrom | crates/vcli-dsl/src/predicates.rs:150-192 | terminates; a genuine cycle, or everything reachable ends up black with a rank below its dependents |
| Predicates.ValidateGraph | crates/vcli-dsl/src/predicates.rs:135-195 | accepts exactly the well-shaped acyclic maps, an accepted map has a topological rank, a reported cycle is one |
| Predicates.RankForbidsCycles | crates/vcli-dsl/src/predicates.rs:135-195 | a rank that falls along edges excludes cycles |
| Perception.PutTimer | crates/vcli-perception/src/state.rs:70-84 | one timer set or cleared, the others untouched |
| Perception.AllOfLaw | crates/vcli-perception/src/logical.rs:71-88 | all_of means true exactly when every operand does; otherwise the first operand that does not decides, by its error or with false |
| Perception.AnyOfLaw | crates/vcli-perception/src/logical.rs:90-106 | any_of means false exactly when every operand does; otherwise the first that does not decides |
| Perception.NotLaw | crates/vcli-perception/src/logical.rs:108-115 | not is the negation, errors apart |
| Perception.ElapsedLaw | crates/vcli-perception/src/elapsed.rs:40-67 | elapsed means true exactly when its child does and has since a reading at least the bound ago |
| Perception.EvalNamedMeans | crates/vcli-perception/src/perception.rs:73-100 | one call through a coherent cache answers the uncached, depth-free meaning unless the depth guard intervenes, and keeps the cache and timers coherent |
| Perception.CacheIsTransparent | crates/vcli-perception/src/cache.rs:27-53 | in a tick, any sequence of calls by any programs that may share answers what each name means without a cache |
| Perception.SharedDefinitionsSuffice | crates/vcli-perception/src/logical.rs:65-69 | programs may share when equal keys are equal definitions all the way down and elapsed is shared only inside one program |
| Perception.SharedKeySharesAnswer | crates/vcli-perception/src/logical.rs:43-62 | a second program with the same key gets the first one's answer, right exactly when both mean the same |
| Perception.SharingCanGoWrong | crates/vcli-perception/src/logical.rs:65-69 | two programs with all_of over one differently defined name: the second is answered wrongly |
| Perception.SharingWrongWitness | crates/vcli-perception/src/logical.rs:65-69 | such programs exist for every hash that separates three definitions |
| Evaluation.ValidatedRank | crates/vcli-dsl/src/predicates.rs:197-213 | the validator's rank orders evaluation, through elapsed too |
| Evaluation.MeaningIsKnown | crates/vcli-perception/src/logical.rs:27-63 | on a well-shaped map nothing means an unknown predicate |
| Evaluation.ValidatedEvaluationIsSafe | crates/vcli-perception/src/logical.rs:16-63 | on a validated map evaluation never reports an unknown predicate, and answers the exact meaning when no stretch of dependencies exceeds 32 edges, from the root or an elapsed predicate to the next elapsed one |
| Evaluation.DepthGuardStrikes | crates/vcli-perception/src/logical.rs:16-35 | the bound is sharp: an uncached chain of 33 edges is reported as a cycle at its last name |
| Evaluation.TruthIsAFunction | crates/vcli-perception/src/perception.rs:73-100 | on such maps all calls for a name in one context and tick agree, wherever in the tick they come |
| Evaluation.Perceiver.EvaluateNamed | crates/vcli-perception/src/perception.rs:73-100 | the cached call as a state change equals the evaluation function |
| Evaluation.Perceiver.EvaluateWithDepth | crates/vcli-perception/src/logical.rs:27-63 | the same for the recursive call, depth guard included |
| Evaluation.Perceiver.DispatchKind | crates/vcli-perception/src/perception.rs:120-146 | the same for one definition |
| Evaluation.Perceiver.EvaluateElapsed | crates/vcli-perception/src/elapsed.rs:23-68 | the same for elapsed, whose child restarts the depth count |
| Evaluation.Perceiver.Observe | crates/vcli-perception/src/elapsed.rs:40-67 | the timer starts on first truth, is kept while true, cleared on false, and compared with the clock |
| Evaluation.Perceiver.EvaluateAllOf | crates/vcli-perception/src/logical.rs:71-88 | the loop equals the short-circuiting conjunction |
| Evaluation.Perceiver.EvaluateAnyOf | crates/vcli-perception/src/logical.rs:90-106 | the loop equals the short-circuiting disjunction |
| Evaluation.Perceiver.Clear | crates/vcli-perception/src/perception.rs:64-66 | results are dropped, timers kept |
| Evaluation.Perceiver.Tick | crates/vcli-perception/src/perception.rs:64-100 | a tick's calls on the object: every answer is what its name meant when the tick began |
| ElapsedRuns.ElapsedPredicateIsExact | crates/vcli-perception/src/elapsed.rs:23-68 | in every run of questions by any programs over any number of ticks, in the order of the clock, a freshly evaluated elapsed predicate is true exactly when its child was truthy at every look its program took since one at least ms earlier |
| ElapsedRuns.TimerIsFold | crates/vcli-perception/src/state.rs:70-84 | in every such run a timer is the fold of the looks taken at its child: nothing else moves it |
| ElapsedRuns.DispatchFolds | crates/vcli-perception/src/elapsed.rs:40-67 | evaluating any definition moves a timer by exactly the looks it takes |
| ElapsedRuns.TickIsActs | crates/vcli-perception/src/perception.rs:64-100 | a tick of calls is a cache clear followed by those questions |
| ElapsedRuns.EvaluationLooks | crates/vcli-perception/src/elapsed.rs:40-67 | evaluating an elapsed predicate looks at its child exactly once, since nothing below the child can look at it again |
| ElapsedRuns.ElapsedIsExact | crates/vcli-perception/src/elapsed.rs:40-67 | the same law of the timer alone |
| ElapsedRuns.LookingTwiceIsOnce | crates/vcli-perception/src/state.rs:70-84 | a second look in the same instant changes nothing |
| ElapsedRuns.AskingAgainChangesNothing | crates/vcli-perception/src/cache.rs:27-53 | once answered, the same question later in the tick, whatever was asked in between, gets the same answer and moves neither cache nor timers |
| ElapsedRuns.OperandsAreRemembered | crates/vcli-perception/src/logical.rs:34-63 | what a combined predicate was answered from stays on record for the tick: its one operand, or every operand up to the one that decided |
| Canonical.EscapeReads | crates/vcli-core/src/canonical.rs:85-107 | every escape or UTF-8 sequence reads back as its character, whatever follows (string escapes of section 7 of RFC 8259) |
| Canonical.EscapeIsStandard | crates/vcli-core/src/canonical.rs:85-107 | which characters get a short escape, a lower-case hexadecimal one or none (section 3.2.2.2 of RFC 8785) |
| Canonical.Utf8IsStandard | crates/vcli-core/src/canonical.rs:101-104 | encoded characters have the byte ranges of section 4 of RFC 3629 |
| Canonical.SortKeysSorts | crates/vcli-core/src/canonical.rs:121-123 | sorting gives exactly the keys in ascending UTF-8 byte order |
| Canonical.BytesBeforeIsLexicographic | crates/vcli-core/src/canonical.rs:121-123 | the order is the lexicographic one on bytes |
| Canonical.AscendingIsUnique | crates/vcli-core/src/canonical.rs:121-123 | there is only one such order, so the sort used does not matter |
| Canonical.PrintIsUnique | crates/vcli-core/src/canonical.rs:44-134 | printed values are a prefix code: equal text before any delimiter means equal values and equal remainders |
| CanonicalForm.CanonIsExact | crates/vcli-core/src/canonical.rs:38-134 | canonical bytes are equal if and only if the values are equal with objects read as maps |
| JsonReader.CanonicalBytesRead | crates/vcli-core/src/canonical.rs:38-134 | canonical bytes are a JSON text: an independent reader of the grammar of RFC 8259 takes all of them and gives the same value back |
| JsonReader.PrintReads | crates/vcli-core/src/canonical.rs:44-134 | every printed value reads back, whatever follows it but a digit |
| JsonReader.NormalIsSame | crates/vcli-core/src/canonical.rs:121-134 | the canonical form of a value is the same value |
| CanonicalForm.NormalFieldAt | crates/vcli-core/src/canonical.rs:121-134 | a canonical object lists its sorted keys, each with its canonical value |
| CanonicalWriter.Writer.WriteString | crates/vcli-core/src/canonical.rs:85-107 | appends the quoted, escaped text |
| CanonicalWriter.Writer.WriteNumber | crates/vcli-core/src/canonical.rs:56-65 | appends the decimal integer |
| CanonicalWriter.Writer.WriteArray | crates/vcli-core/src/canonical.rs:110-119 | appends the canonical array |
| CanonicalWriter.Writer.WriteObject | crates/vcli-core/src/canonical.rs:121-134 | appends the canonical object, looking each sorted key up |
| CanonicalWriter.Writer.WriteValue | crates/vcli-core/src/canonical.rs:44-54 | appends the canonical bytes of any value |
| CanonicalWriter.Canonicalize | crates/vcli-core/src/canonical.rs:38-42 | returns the canonical bytes |
| Assets.PutKeepsBlobs | crates/vcli-store/src/assets.rs:74-108 | storing keeps every row loadable if and only if it does not clobber: overwrite the temporary name a row is filed under |
| Assets.TemporaryExtensionLosesAsset | crates/vcli-store/src/assets.rs:169-187 | two submissions after which a linked asset cannot be loaded |
| Assets.AllCollects | crates/vcli-daemon/src/assets.rs:30-34 | on success exactly the references of the rewritten images were collected, once each, each with bytes that hash to it; they are stored, and programs and links are untouched |
| Assets.AllKeeps | crates/vcli-daemon/src/assets.rs:92-165 | materialising, even when it fails half-way, keeps integrity at every point if and only if no image clobbers when its turn comes |
| Assets.SubmitKeeps | crates/vcli-daemon/src/handler.rs:67-98 | the same for a submission, whether it succeeds, fails or duplicates an id |
| Assets.SubmitAnswers | crates/vcli-daemon/src/handler.rs:67-98 | an accepted submission stores and links exactly one reference per image and answers with exactly those references and their bytes; absent hash collisions these are what was read from the file or is stored under the reference |
| Assets.SubmitRefuses | crates/vcli-daemon/src/assets.rs:124-165 | a refused submission adds no program, and its error names an image that is unusable in just that way, or the id that is taken |
| Assets.AllRewrites | crates/vcli-daemon/src/assets.rs:146-164 | on success each file has become the hash of its contents and each reference stays |
| Assets.RematerializeSucceeds | crates/vcli-daemon/src/assets.rs:124-143 | a stored program's references all load, without writing or rewriting anything: the answer names exactly them and carries exactly the stored bytes |
| Assets.GcAllIsExact | crates/vcli-store/src/gc.rs:36-141 | a sweep deletes exactly the completed, failed or cancelled programs finished before the cutoff, keeps exactly the rows still linked and the blobs with a row |
| Assets.GcAllKeeps | crates/vcli-store/src/gc.rs:131-141 | a sweep keeps integrity |
| Assets.GcAllIsIdempotent | crates/vcli-store/src/gc.rs:131-141 | sweeping twice is sweeping once |
| Assets.AssetIntegrity | crates/vcli-store/src/gc.rs:36-141 | over every run of submissions, row updates and sweeps in which no submission clobbers, every reference stays linked, with a row and a blob that hashes to it |
| Assets.IntegrityIsExact | crates/vcli-store/src/assets.rs:74-187 | integrity holds at every point of a run, inside submissions too, if and only if no submission clobbers in the state it finds |
| Assets.PlainRunsNeverClobber | crates/vcli-store/src/assets.rs:169-187 | runs without image files of extension tmp never clobber |
| Assets.StoredProgramsReload | crates/vcli-daemon/src/assets.rs:92-165 | after any such run every stored program materialises again, with exactly its references and their stored bytes |
| AssetStore.Depot.PutAsset | crates/vcli-store/src/assets.rs:74-108 | blob written through the temporary name if absent, row inserted if absent, and whether the file is new |
| AssetStore.Depot.GetBytes | crates/vcli-store/src/assets.rs:114-137 | the blob under the row's extension, or none |
| AssetStore.Depot.LinkProgramAsset | crates/vcli-store/src/assets.rs:143-154 | idempotent; refused for an unknown program |
| AssetStore.Depot.MaterializeImage | crates/vcli-daemon/src/assets.rs:124-165 | one image with its three failure cases |
| AssetStore.Depot.MaterializeImages | crates/vcli-daemon/src/assets.rs:92-109 | images rewritten in place in order, stopping at the first failure |
| AssetStore.Depot.SubmitProgram | crates/vcli-daemon/src/handler.rs:67-98 | materialise, insert, link |
| AssetStore.Depot.CollectPrograms | crates/vcli-store/src/gc.rs:36-45 | expired programs and their links go, and are counted |
| AssetStore.Depot.CollectAssets | crates/vcli-store/src/gc.rs:53-93 | unreferenced rows and their blobs go; both are counted, equally many when every row had a blob |
| AssetStore.Depot.CollectOrphans | crates/vcli-store/src/gc.rs:101-125 | blobs without a row go, and are counted |
| AssetStore.Depot.CollectAll | crates/vcli-store/src/gc.rs:131-141 | the three stages in order, and all four counts of the report |
| Calendar.DaysFollowCalendar | crates/vcli-cli/src/util.rs:78-90 | day 0 is 1970-01-01 and every next day number is the next date of the Gregorian calendar |
| Calendar.DayRoundTrip | crates/vcli-cli/src/util.rs:78-90 | every day number has a valid date that leads back to it |
| Calendar.DateRoundTrip | crates/vcli-cli/src/commands/logs.rs:112-122 | which dates are accepted, and that an accepted date comes back if and only if its month has that day |
| Calendar.DaysCountOn | crates/vcli-cli/src/commands/logs.rs:112-122 | days past the end of a month count on |
| Calendar.YearOfEraInRange | crates/vcli-cli/src/util.rs:78-84 | the closed formula finds the year whose interval holds the day of the era |
| Timestamps.NothingUnderflows | crates/vcli-cli/src/util.rs:78-90 | no unsigned subtraction goes below zero, for any day |
| Timestamps.CastsLoseNothing | crates/vcli-cli/src/util.rs:78-90 | for every 64-bit reading the narrowing casts and the shift lose nothing |
| Timestamps.YearIsNatural | crates/vcli-cli/src/util.rs:57-70 | the year is at least 0 exactly from day -719528 on |
| Timestamps.PrintedTimestampReads | crates/vcli-cli/src/commands/logs.rs:82-109 | for every 64-bit reading, parsing the printed text (date-time of section 5.6 of RFC 3339) gives it back from the year 0 on, and nothing before |
| Timestamps.FormatHasShape | crates/vcli-cli/src/util.rs:57-70 | in years of four digits the printed text has the 24 places of that date-time, showing the civil date, the time of day and the milliseconds |
| Timestamps.ShapeParses | crates/vcli-cli/src/commands/logs.rs:82-109 | what a date and a time the reader can read stand for: the day is checked, the time of day is not |
| Timestamps.ShapeParsesWhole | crates/vcli-cli/src/commands/logs.rs:92-95 | a time without a fraction stands for its whole second |
| Timestamps.ZoneIsRequired | crates/vcli-cli/src/commands/logs.rs:82-85 | a text that does not end in the UTC mark is refused |
| Timestamps.JoinedTimeParses | crates/vcli-cli/src/commands/logs.rs:98-101 | three numbers between colons read as seconds of the day |
| Timestamps.JoinedDateParses | crates/vcli-cli/src/commands/logs.rs:88-91 | three numbers between dashes read as a date |
| Timestamps.NumberParses | crates/vcli-cli/src/commands/logs.rs:89-102 | any digits read as their decimal value |
| Frame.Sink.WriteFrame | crates/vcli-ipc/src/frame.rs:22-42 | header and payload appended, or an oversized payload refused with nothing written |
| Frame.EncodeAnnounces | crates/vcli-ipc/src/frame.rs:31-41 | a frame is its payload behind four bytes that are its length, high byte first |
| Frame.DecodeIsExact | crates/vcli-ipc/src/frame.rs:53-91 | the result of one read for every stream: cut header, announced length above 4 MiB, cut payload, or exactly the announced bytes |
| Frame.Reader.Fill | crates/vcli-ipc/src/frame.rs:58-69 | whatever the pieces, the buffer gets the next bytes of the stream, or all that came before its end |
| Frame.Reader.ReadFrame | crates/vcli-ipc/src/frame.rs:53-91 | the result and what is left depend only on the joined stream, with all three error cases |
| Frame.ReadAll | crates/vcli-ipc/src/frame.rs:53-91 | reading to the first error gives the decoded list |
| Frame.StreamRoundTrip | crates/vcli-ipc/src/frame.rs:22-91 | every list of sendable payloads comes back, then 0 of 4 |
| Frame.TruncatedStream | crates/vcli-ipc/src/frame.rs:53-91 | a stream cut anywhere yields exactly the complete payloads before the cut, then an unexpected end with the exact counts |
| Frame.CleanEndIsAmbiguous | crates/vcli-ipc/src/frame.rs:45-48 | 0 of 4 is reported exactly at frame boundaries and behind the header of a four-byte payload |

## Left out

- Operating-system backends, permission probes, the kill switch, sockets, async plumbing, command-line parsing and table output.
- Image decoding and matching: template and colour predicates are oracles that depend on the definition and the tick only. `pixel_diff` is not part of cache transparency, since its snapshot makes evaluation order matter.
- Floating-point numbers in JSON, Unicode normalisation and serde: numbers are integers of any size, strings are already normalised, payloads are bytes.
- SHA-256: a hash function that is any function; cache transparency assumes it separates the definitions in use, asset integrity needs no such assumption.
- SQLite: tables are maps and each statement or transaction is one step; no input/output failure and no crash inside an operation.
- Evaluation.Perceiver.EvaluateNamed: asks for a level map, that is, that no cycle passes through an elapsed predicate; on such a cycle the code recurses without bound, and validation excludes it.
- Store.ResumedAtMostOnce: covers runs in which no other caller writes the restart code as an error code, which no caller does.
- Timestamps.PrintedTimestampReads: arithmetic in the reader is unbounded; texts with years beyond 64-bit milliseconds, which the printer never produces, would overflow in the code.
- Frame.ReadAll: the repeated call is the connection loop's, reduced to reading until the first error.
- A `sha256:` reference shorter than four characters, on which the blob path function panics; hashes are numbers here.
- WriteBehind.PumpOne: the stored error message is the reason; the step text, which the source prefers when there is one, is not modelled.
- Predicate truth in a scheduler tick is one function of program and name. `Evaluation.TruthIsAFunction` proves that for programs with no stretch of more than 32 dependencies, elapsed predicates starting a new one; a deeper program can see a cycle error first and a result later in the same tick, which the scheduler model does not show.
- Event timestamps, the event log table, traces, migrations, the message texts of errors and the JSON paths in them.
- Program timeouts, `max_inflight` and retry on timeout: the code enforces none of them (retry behaves as continue, and is modelled so).
- Inline watches when a user predicate is named like one of their generated names.
- In-place update of program records inside the scheduler's map is modelled by replacing the map entry; nothing aliases it.
