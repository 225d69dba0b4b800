# Verified models of the scribe core

This project models the parts of scribe that keep state across steps, or turn one representation into another, and
proves what they promise. Nothing was executed: every statement below is a theorem about the model, and the table
says which lines of the repository each one stands for.

`dafny verify dfyconfig.toml` checks the whole project.

## What is modelled

**The cron fleet** (`CronSchedule`, `CronSlotLock`, `CronState`, `CronInvariants`, `CronFleet`, `CronTimed`,
`CronRunner`). Any number of replicas, each with its jobs, its run tokens, its gates and any number of live loops, over
one store of expiring markers with its own clock. `CronFleet` is the transition system: registering, starting,
stopping, waking, passing a gate, claiming, finishing, ending, crashing and restarting, in any order, with a bounded
skew between the clocks. `CronTimed` is one of those replicas in time: its loops sleep for what their jobs stand at and
time never passes the end of a sleep, which is what says when an occurrence is taken. `CronRunner` is the runner as the
objects it is written as, each method proved to be a step of those systems.

**The audience membership cache and the paged listing** (`AudienceKey`, `AudienceCache`, `AudienceFleet`,
`AudienceTruth`, `AudienceProcess`, `AudienceScan`). Membership rows behind a cache whose keys carry a generation, with
the three lifetimes of the source (ten minutes, a day, two seconds; written entries spread over a further tenth).
`AudienceFleet` runs any number of processes over one table and two shared caches; `AudienceProcess` is one process
as objects; `AudienceScan` is the listing, loop and closed form.

**The one-time-code challenge** (`AuthChallenge`, `AuthSafety`, `AuthTheorems`, `AuthProcess`, `AuthReset`,
`AuthDoor`). Every interleaving of `verify`, `resend` and `complete`, one step per await: the store may refuse, answer
late or lose an answer at each of them, any call may throw, records may vanish, and callers may present any string.
`AuthProcess` and `AuthReset` are the same calls as objects, each await proved to be a step of that machine, and
`AuthDoor` is the first half of a sign-in with its `finally`. Five tries per token hold for every challenge the code
builds, since each is for a sign-in and lasts as long as its counter; `AuthTheorems.FiveChecksIff` says which purposes
would break that, and of those declared only the four-hour one, for which no challenge is built, would.

**Dynamic links** (`LinkEscape`, `LinkPattern`, `LinkRender`, `LinkReadBack`, `LinkBatch`, `LinkBatchSafety`,
`LinkBatchAnswers`, `LinkCreate`, `LinkResolve`). The template parser and renderer, what a rendered link says of its
values, bulk creation with chunks and collisions over a table others write to, what each of its answers means, and the
batch resolver against the single one.

**Read selections** (`ReadSelection`). The printer of nested selections, and the parser that recovers them.

`Results` and `Text` hold the result types and the facts about numerals, joining and ordering the others share.

## What the source promises and does not keep

Each of these is a theorem with the exact condition, or a run that shows it.

- One execution per occurrence across the fleet holds exactly while clock skew and the delay of the claims together stay
  below the lease: `CronFleet.OneBodyIff` for every schedule, `CronFleet.OneBodyIffOnTheGrid` for an interval, whose
  lease is the longer of its period and its timeout. Beyond it, `CronFleet.AStallPastTheLeaseRunsTwice` is a run in which
  a stalled replica runs an occurrence again.
- `audience/lib/src/core/declaration.ts:191-193` says two features may declare one name because their cache entries are
  kept apart. The entry carries the key and not the feature, so they are not: `AudienceTruth.TruthNeedsDistinctKeys`.
- A bulk add that is refused after its first chunk leaves rows written and the cache as it was:
  `AudienceTruth.HalfWrittenMisleads`.
- `audience/lib/src/db/members.ts:95` says a null cursor means nothing more follows. It loses members when the quota
  fills inside a short last raw page: `AudienceScan.NullCursorLosesMembersIff`. A short page is the end of the audience
  only when it is not truncated: `AudienceScan.PageKeepsItsBounds`.
- `verify` and `resend` open and count a trimmed token but look up the untrimmed one, so a token with white space
  around it spends attempts and is never found: `AuthTheorems.PaddedIsNeverFound`, `AuthTheorems.PaddedUsesUpTheFive`.
- When the table does not answer, a batch lets down even the slugs its cache holds, which asked for alone would
  answer: `LinkResolve.BatchAgreesWithSingleIff`.
- A template with two placeholders side by side, or with only unreserved characters between them, renders two sets of
  values to one link: `LinkReadBack.PlainSeparatorIsAmbiguous`.

## Model

| member | source | states |
|---|---|---|
| CronSchedule.WholeMinutes | foundation/lib/src/cron/whole_minutes.ts:52-60 | an interval is accepted exactly when it is a positive whole number of minutes, fractions included |
| CronSchedule.NextRunIsTheNextGridPoint | foundation/lib/src/cron/next_run.ts:103-105 | an interval next fires at the one multiple of the interval within one interval after the instant asked about, and at no other instant |
| CronSchedule.NextRunIsAhead | foundation/lib/src/cron/next_run.ts:49-74 | whatever the shape of the schedule, a next run is an occurrence of it strictly after the instant asked about |
| CronSchedule.NextRunIsLeast | foundation/lib/src/cron/next_run.ts:49-74 | when the schedule has any occurrence after that instant there is a next run, and it is the least of them |
| CronSchedule.RegistrationMomentsAgree | foundation/lib/src/cron/next_run.ts:43-52 | two replicas name one instant exactly when they register within one cell of the grid |
| CronSchedule.NextRunAfterSlot | foundation/lib/src/cron/next_run.ts:84-95 | the catch-up loop terminates and answers the closed form |
| CronSchedule.AfterSlotIsLeast | foundation/lib/src/cron/next_run.ts:79-94 | the occurrence it stops at is past slot and clock, whole intervals away, and the least such one |
| CronSchedule.CatchUpMeetsRegistration | foundation/lib/src/cron/next_run.ts:84-105 | from a grid slot that is not ahead of the clock, catching up ends where a fresh registration would start |
| CronSchedule.AfterSlotStaysOnGrid | foundation/lib/src/cron/next_run.ts:91-94 | taking a grid slot, however late, leaves the job on the grid and at least one interval further |
| CronSchedule.AfterSlotIsTheNextOccurrence | foundation/lib/src/cron/next_run.ts:84-89 | a cron or daily schedule goes on, whatever slot was taken, with its least occurrence after the clock, and stops exactly when it has none |
| CronSlotLock.KeyIsInjective | foundation/lib/src/cron/slot_lock.ts:63-69 | two claims share a key exactly when they name one job and one floored instant, even when job names hold colons |
| CronSlotLock.OneKeyPerCell | foundation/lib/src/cron/slot_lock.ts:63-69 | for an interval, one key stands for one cell of the grid, in both directions |
| CronSlotLock.FlooringIsTheIdentity | foundation/lib/src/cron/slot_lock.ts:125-127 | flooring changes nothing about a slot the schedule can name |
| CronSlotLock.LeaseCoversTheOccurrence | foundation/lib/src/cron/slot_lock.ts:118-121 | a lease is positive, at least the timeout, lasts to the next occurrence, and is missing exactly when there is none |
| CronSlotLock.LeaseIsGapOrTimeout | foundation/lib/src/cron/slot_lock.ts:118-121 | the lease of a cron or daily slot is the gap to the very next occurrence, or the timeout when that is longer |
| CronSlotLock.ClaimOf | foundation/lib/src/cron/slot_lock.ts:77-103 | a claim is won exactly when it is delivered, there is a lease and no marker is held, and a refused or failed one writes nothing |
| CronSlotLock.SlotLock.Claim | foundation/lib/src/cron/slot_lock.ts:77-103 | the method changes the markers as the conditional write does and answers whether it won |
| CronInvariants.TakeKeepsTheChain | foundation/lib/src/cron/scheduled_job.ts:103-107 | taking a slot extends the history of a job by an occurrence that follows from the one before |
| CronInvariants.WalkKeeps | foundation/lib/src/cron/cron_runner.ts:135-146 | a walk over the jobs keeps every runner invariant and queues only due, nameable slots of jobs that were not running |
| CronInvariants.TurnFiresWhatIsDue | foundation/lib/src/cron/cron_runner.ts:138-145 | a turn that goes on gives each idle job whose occurrence is due, however late, one new run of that very occurrence behind the current gate, gives no other job one, and touches no run there was |
| CronInvariants.TurnGoesOnIff | foundation/lib/src/cron/cron_runner.ts:135-150 | a turn of a runner that is up takes it down exactly when some job needs an occurrence after the clock and its schedule has none |
| CronInvariants.EnterKeeps | foundation/lib/src/cron/cron_runner.ts:181-182 | entering the gate keeps every runner invariant |
| CronInvariants.EntersWhileThereIsRoom | foundation/lib/src/cron/cron_runner.ts:181-182 | a queued run is let in exactly while fewer runs of its gate are inside than the gate was started with |
| CronInvariants.LeaveKeeps | foundation/lib/src/cron/cron_runner.ts:181-195 | leaving the gate keeps every runner invariant |
| CronInvariants.EndKeeps | foundation/lib/src/cron/cron_runner.ts:168-173 | the late finish of a run keeps every runner invariant |
| CronInvariants.StartKeeps | foundation/lib/src/cron/cron_runner.ts:109-122 | starting, with a new gate beside the runs of the old one, keeps every runner invariant |
| CronInvariants.StartOpensAGate | foundation/lib/src/cron/cron_runner.ts:109-113 | starting a runner that is down opens an empty gate of the width asked for, which later runs queue behind, and a running one is left alone |
| CronInvariants.StopLeavesRunsToFinish | foundation/lib/src/cron/cron_runner.ts:125-127 | stopping ends no run; the next turn of the loop takes and fires nothing and is its last |
| CronInvariants.RegisterKeeps | foundation/lib/src/cron/cron_runner.ts:85-94 | registering keeps every runner invariant, names being distinct among them |
| CronInvariants.RegisterArms | foundation/lib/src/cron/cron_runner.ts:85-94 | a job is armed exactly when its name is new and its schedule has a first occurrence, at the least occurrence after the clock when there is a clock, beside the jobs there were |
| CronInvariants.EveryFinishOwnsItsToken | foundation/lib/src/cron/scheduled_job.ts:114-117 | in every state of a runner, a run that finishes still owns its token, frees its own job and no other |
| CronInvariants.OneRunPerJob | foundation/lib/src/cron/scheduled_job.ts:88-112 | a job has at most one run in flight, and its token is nonzero exactly while it has one |
| CronInvariants.SlotsStrictlyIncrease | foundation/lib/src/cron/scheduled_job.ts:97-107 | taken slots strictly increase, for every schedule |
| CronInvariants.EveryGridPointIsTakenOrPast | foundation/lib/src/cron/next_run.ts:76-95 | each grid point up to the pending one was taken exactly once or skipped as already past, never both and never neither |
| CronInvariants.NoOccurrenceIsPassedOver | foundation/lib/src/cron/next_run.ts:76-95 | for every schedule, the occurrence after one taken is the least after the clock that took it |
| CronInvariants.EveryOccurrenceIsTakenOrPast | foundation/lib/src/cron/next_run.ts:76-95 | for every schedule whose calendars skip none of their own instants, each instant up to the pending one was taken exactly once or skipped as already past |
| CronFleet.StepKeeps | foundation/lib/src/cron/cron_runner.ts:109-195 | each step of any replica, of the store or of the clocks keeps the fleet invariant |
| CronFleet.RunKeeps | foundation/lib/src/cron/cron_runner.ts:135-195 | so does every run, restarts, stalls and several live loops of one replica included |
| CronFleet.OneRunPerJobEverywhere | foundation/lib/src/cron/cron_runner.ts:64-75 | in every reachable fleet, each job of each replica has at most one run, exactly when its token says so, and no finish frees a token it did not set |
| CronFleet.GatesHoldEverywhere | foundation/lib/src/cron/cron_runner.ts:80-113 | no gate ever lets more runs through at once than it was started with |
| CronFleet.ClaimsAreALeaseApart | foundation/lib/src/cron/slot_lock.ts:77-121 | two claims that marked one occurrence are at least its lease apart on the store clock, unconditionally |
| CronFleet.OneBodyPerOccurrence | foundation/lib/src/cron/slot_lock.ts:105-121 | with skew and delay together under the lease, an occurrence starts its body at most once in the whole fleet |
| CronFleet.RefusedOnlyByItsOwnMarker | foundation/lib/src/cron/slot_lock.ts:77-103 | a claim is refused exactly when an earlier marker of that very occurrence is younger than its lease |
| CronFleet.ClaimDecidesTheRun | foundation/lib/src/cron/cron_runner.ts:181-190 | after its claim a run has its body running exactly when the claim was delivered and met no live marker, and has left its gate otherwise |
| CronFleet.OneClaimPerRun | foundation/lib/src/cron/cron_runner.ts:168-190 | a run asks the store once: no later state of its process enables that claim again |
| CronFleet.MarkedOnceExactly | foundation/lib/src/cron/slot_lock.ts:43-49 | an occurrence is marked once and no more, markers of lost answers counted, if and only if every claim of it lands within the lease of the first |
| CronFleet.EveryOccurrenceIsAccountedFor | foundation/lib/src/cron/scheduled_job.ts:83-107 | in every run of the fleet, every instant of every job's schedule, grid or calendar, is taken exactly once by its replica or skipped as past |
| CronFleet.AStallPastTheLeaseRunsTwice | foundation/lib/src/cron/cron_runner.ts:135-148 | for every schedule, every instant it names and every skew allowed, a run in which two replicas start the body of that occurrence, the second one lease after the first |
| CronFleet.OneBodyIff | foundation/lib/src/cron/slot_lock.ts:43-121 | for every schedule and every instant it names with another to follow, claims that land within a delay of it start the body at most once in every run of the fleet if and only if skew and delay together are below the lease |
| CronFleet.OneBodyIffOnTheGrid | foundation/lib/src/cron/slot_lock.ts:105-121 | for every grid point of an interval job, that is skew and delay below the longer of period and timeout |
| CronTimed.TurnTakesWhatIsDue | foundation/lib/src/cron/cron_runner.ts:136-146 | a turn that goes on takes every armed occurrence that is due and no other, each job then standing past the clock; one that crashes loses none |
| CronTimed.StepKeeps | foundation/lib/src/cron/cron_runner.ts:109-165 | each step of a process in time keeps the runner in order and every sleep in bounds and in time for what was armed before it |
| CronTimed.SleepMeetsKnown | foundation/lib/src/cron/cron_runner.ts:152-165 | at every moment a running runner has a loop, and each loop wakes within its tick and by what every job armed before its sleep stands at, or by 50 ms if that is later |
| CronTimed.ArmedOccurrenceIsNeverLost | foundation/lib/src/cron/scheduled_job.ts:97-107 | through stops, crashes, restarts and registrations an armed occurrence stays pending until a turn at or after it takes it as the very next one |
| CronTimed.KnownSlotIsMetInTime | foundation/lib/src/cron/cron_runner.ts:135-165 | with exact timers and the runner up, an armed occurrence is taken by the first turn at or after it: by the later of itself and 50 ms after the last turn, and less than 50 ms late, when armed before the sleep; within one tick of the last turn in any case |
| CronTimed.IntervalsStayUp | foundation/lib/src/cron/cron_runner.ts:109-122 | a runner whose jobs all run on intervals stays up for as long as nobody stops it |
| CronTimed.TurnsAreSpacedOut | foundation/lib/src/cron/cron_runner.ts:58-59 | over any run, the turns of a loop are each a shortest sleep at least and a tick at most apart |
| CronRunner.ScheduledJob.AskNextRun | foundation/lib/src/cron/scheduled_job.ts:83-85 | the pending occurrence is computed once and then remembered |
| CronRunner.ScheduledJob.TakeSlot | foundation/lib/src/cron/scheduled_job.ts:103-107 | the pending slot is handed out and the job moved on, or nothing moves when there is no next one |
| CronRunner.ScheduledJob.EndRun | foundation/lib/src/cron/scheduled_job.ts:115-117 | a finish frees only its own token |
| CronRunner.CronRunner.Register | foundation/lib/src/cron/cron_runner.ts:85-94 | registering is the step of the machine, duplicate names refused |
| CronRunner.CronRunner.Start | foundation/lib/src/cron/cron_runner.ts:109-122 | starting is the step of the machine, a running runner left alone |
| CronRunner.CronRunner.Fire | foundation/lib/src/cron/cron_runner.ts:168-173 | firing takes a fresh token and queues the run behind the current gate |
| CronRunner.CronRunner.WalkJobs | foundation/lib/src/cron/cron_runner.ts:136-146 | the loop over the jobs computes the walk, a crash where it stands included |
| CronRunner.CronRunner.Wake | foundation/lib/src/cron/cron_runner.ts:135-150 | one turn of a loop is the step of the machine |
| CronRunner.CronRunner.SleepFor | foundation/lib/src/cron/cron_runner.ts:153-165 | every job is asked when it next runs and nothing else of it changes; the sleep stays within its bounds, wakes by every occurrence known, and is cut short only for one |
| CronRunner.CronRunner.TakeTurn | foundation/lib/src/cron/cron_runner.ts:135-150 | one turn and its sleep are the waking step in time, and the loop sleeps on exactly when it was not stopped and no schedule crashed it |
| CronRunner.CronRunner.Claim | foundation/lib/src/cron/cron_runner.ts:181-190 | an admitted run begins its body exactly when its claim is won |
| AudienceKey.AudienceKey | audience/lib/src/core/key.ts:114-116 | a key is built exactly when every segment is acceptable |
| AudienceKey.KeyIsSpelledOut | audience/lib/src/core/key.ts:114-116 | a global audience answers to its name, and each further scope is appended after a colon |
| AudienceKey.AcceptedKeyHoldsNoBar | audience/lib/src/core/key.ts:87-93 | no accepted key holds the separator of the cache |
| AudienceKey.AudienceKeyInjective | audience/lib/src/core/key.ts:114-116 | two audiences share a key only by being one name under one list of scopes |
| AudienceKey.EntryInjective | audience/lib/src/runtime/valkery.ts:137-139 | two memberships share a cache entry exactly when audience, generation and member are the same |
| AudienceKey.AcceptedTuplesNeverMeet | audience/lib/src/core/key.ts:87-116 | from declaration to entry, accepted names, scopes, generations and members never meet |
| AudienceCache.PutAllWritesEachMember | audience/lib/src/db/members.ts:135-150 | a bulk upsert writes the row of every named member and leaves every other row as it was |
| AudienceCache.AddWritesItsRow | audience/lib/src/core/declaration.ts:269-283 | adding writes the row of that member and no other, unless refused |
| AudienceCache.AddManyWritesItsRows | audience/lib/src/core/declaration.ts:290-306 | a bulk add writes the rows of the members before the refused chunk of a thousand, or of all, and no other |
| AudienceCache.RemoveDropsItsRow | audience/lib/src/core/declaration.ts:309-318 | removing leaves no row of that member and every other row, unless refused |
| AudienceCache.RetimeMovesLiveRows | audience/lib/src/db/members.ts:161-175 | a new lapse reaches only a row that has not lapsed, and puts nobody in |
| AudienceCache.ClearDropsEveryRow | audience/lib/src/db/members.ts:187-191 | a clear that was not refused leaves no row of the audience and every row of any other |
| AudienceCache.ReapDropsLapsedRows | audience/lib/src/core/declaration.ts:364-366 | a reap drops the lapsed rows of the audience, those and no others, and answers how many went |
| AudienceFleet.StepKeeps | audience/lib/src/core/declaration.ts:255-366 | each call of any process keeps the generations in order, and the cache true when the call is one the guards allow |
| AudienceFleet.AskingFillsTheEntry | audience/lib/src/runtime/valkery.ts:148-165 | asking leaves the membership as the table has it, cached for ten minutes and its jitter, when it was not held or was refreshed ahead |
| AudienceFleet.OrderlyRunKeeps | audience/lib/src/runtime/valkery.ts:194-198 | over every run in which a clear sees the generation in force, generations stay in order |
| AudienceFleet.TruthfulRunKeeps | audience/lib/src/runtime/valkery.ts:148-165 | over every run whose writes see the generation in force, every reachable entry agrees with the table |
| AudienceTruth.HasTellsTheTruth | audience/lib/src/core/declaration.ts:374-383 | over runs of any number of processes, a process with a current view answers exactly what the table holds |
| AudienceTruth.SettledTellsTheTruth | audience/lib/src/runtime/valkery.ts:59-68 | over runs of any number of processes whose single writes, and whose read, come no sooner than two seconds after a clear of the audience or a lapse of its record, with one clear of it a millisecond and no bulk write that stops half way, `has` answers exactly what the table holds |
| AudienceTruth.OneProcessTellsTheTruth | audience/lib/src/core/declaration.ts:255-383 | one process, any sequence of calls, clock advances and restarts: `has` through the cache equals an unexpired row in the table |
| AudienceTruth.BulkCallIsRead | audience/lib/src/core/declaration.ts:290-361 | over orderly runs of any number of processes, one that cleared an audience is then answered that nobody belongs, and one that put many in that each does |
| AudienceTruth.WriteIsRead | audience/lib/src/core/declaration.ts:269-318 | over truthful runs, a process that added or removed a member is then answered so |
| AudienceTruth.ViewsSettle | audience/lib/src/runtime/valkery.ts:59-68 | two seconds after its generation last moved every process sees it, and two seconds after the record lapsed every process reads zero |
| AudienceTruth.RetiredIsNeverReadAgain | audience/lib/src/runtime/valkery.ts:48-129 | two seconds after a clear no process reads an entry that was there at that moment: it reads under a generation that then held none, or, once the record lapsed and reads as zero, one loaded strictly later |
| AudienceTruth.SharedKeyMisleads | audience/lib/src/core/declaration.ts:189-193 | two features that declare one key read each other, whatever the key |
| AudienceTruth.TruthNeedsDistinctKeys | audience/lib/src/core/declaration.ts:189-193 | the cache always tells the truth if and only if no key is declared by two features |
| AudienceTruth.HalfWrittenMisleads | audience/lib/src/core/declaration.ts:291-306 | every bulk write refused after a first chunk has a run in which `has` then contradicts the table |
| AudienceProcess.LocalGenerationValkery.Get | audience/lib/src/runtime/valkery.ts:105-111 | a local generation is answered exactly while it is under two seconds old |
| AudienceProcess.Audience.AskGeneration | audience/lib/src/runtime/valkery.ts:122-129 | the generation in force is the fresh local one, the record, or zero, and is remembered |
| AudienceProcess.Audience.CachedMembership | audience/lib/src/runtime/valkery.ts:148-159 | the row comes from a live entry, an absence included, or from the table, which then fills the entry |
| AudienceProcess.Audience.ForgetMembership | audience/lib/src/runtime/valkery.ts:162-165 | exactly the entry of that member under the generation in force is dropped |
| AudienceProcess.Audience.ForgetAudience | audience/lib/src/runtime/valkery.ts:194-198 | the generation moves to the clock, and always past the one in force |
| AudienceProcess.Audience.Has | audience/lib/src/core/declaration.ts:255-264 | the call leaves the state and gives the answer of its operation |
| AudienceProcess.Audience.Add | audience/lib/src/core/declaration.ts:270-284 | the row is written, then the entry evicted, even when the write was refused |
| AudienceProcess.Audience.WriteMemberships | audience/lib/src/db/members.ts:135-150 | the loop over chunks writes exactly the members before the first chunk refused |
| AudienceProcess.Audience.AddMany | audience/lib/src/core/declaration.ts:291-306 | every member is checked first, and the audience retired only when every chunk went through |
| AudienceProcess.Audience.Remove | audience/lib/src/core/declaration.ts:309-318 | the row is dropped unless the delete was refused, the entry is evicted either way, and the answer says whether a row went |
| AudienceProcess.Audience.Retime | audience/lib/src/core/declaration.ts:324-338 | only a live membership is moved, a refused update reads as no membership, and the entry is evicted either way |
| AudienceProcess.Audience.Clear | audience/lib/src/core/declaration.ts:354-361 | the rows are dropped and the audience retired, even when the wipe was refused |
| AudienceProcess.Audience.Reap | audience/lib/src/db/members.ts:296-306 | exactly the expired rows of that audience go, and are counted |
| AudienceScan.MembersOf | audience/lib/src/db/members.ts:210-238 | the scan makes at most ten raw reads and answers the page defined over all the rows at once |
| AudienceScan.ReadPage | audience/lib/src/db/members.ts:223-230 | one raw page is gone through up to the row that fills the quota, the cursor with it |
| AudienceScan.GoesOnAfter | audience/lib/src/db/members.ts:241-256 | a read from the cursor of a row goes on right after that row |
| AudienceScan.PageKeepsItsBounds | audience/lib/src/db/members.ts:200-209 | at most `limit` members in strictly ascending order, and a short page is without a cursor exactly when it is not truncated |
| AudienceScan.TruncatedIff | audience/lib/src/db/members.ts:214-238 | a page is truncated exactly when there were ten raw pages and the first nine did not fill the quota; a limit of none reads nothing |
| AudienceScan.PageUpToItsCursor | audience/lib/src/db/members.ts:226-237 | with a cursor, the members are exactly the live ones past `after` up to it, and the cursor moved on |
| AudienceScan.ShortPageIsTheRest | audience/lib/src/db/members.ts:204-208 | without a cursor and short of the limit, the page is every live member past `after` |
| AudienceScan.NullCursorLosesMembersIff | audience/lib/src/db/members.ts:229-233 | a page without a cursor leaves a live member out if and only if the rows end inside the scan, their full raw pages hold fewer live members than the limit, and all of them together hold more |
| AudienceScan.APageLosesItsLastMember | audience/lib/src/db/members.ts:95-96 | five rows, three asked for: a live member is not answered and no cursor says so |
| AudienceScan.WalkIsTheLiveMembers | audience/lib/src/db/members.ts:200-238 | a walk over the pages terminates, repeats nobody, skips nobody before its end, and is complete unless its last page loses members |
| AudienceScan.EveryAudienceIsListed | audience/lib/src/db/members.ts:241-256 | every audience of every table has its rows in order |
| AudienceScan.WalkAgreesWithHas | audience/lib/src/db/members.ts:308-311 | a walk answers only those who belong, and all of them when it loses nobody |
| AuthSafety.StepKeeps | auth/lib/src/sign_in/otp.ts:222-396 | each answer to each concurrent call keeps the invariant of tokens, counters and sessions |
| AuthSafety.RunKeeps | auth/lib/src/sign_in/otp.ts:123-149 | so does every interleaving of calls, issues and time |
| AuthTheorems.FiveLooksPerToken | auth/lib/src/sign_in/otp.ts:139-149 | at most five calls of one exchange ever find the record of a token that lasts no longer than its counter |
| AuthTheorems.FiveChecksPerToken | auth/lib/src/sign_in/otp.ts:262-293 | the provider checks at most five codes for such a token, however calls interleave |
| AuthTheorems.FiveChecksIff | auth/lib/src/pending_token.ts:49-53 | five checks bound every token of a purpose if and only if that purpose lasts no longer than the ten minutes of the counter, which the purpose of every challenge built does |
| AuthTheorems.SixthTry | auth/lib/src/sign_in/otp.ts:129-132 | a run with six checks of one token, for any purpose that would outlast the counter |
| AuthTheorems.OneRedemptionPerToken | auth/lib/src/pending_token.ts:216-223 | no two calls, of sign-in or reset, return or write for one token |
| AuthTheorems.RedeemedForItsPurpose | auth/lib/src/pending_token.ts:161-202 | what redeems was issued for that role and that purpose, and its record is gone |
| AuthTheorems.MintedIsReturnedOrRevoked | auth/lib/src/sign_in/otp.ts:285-331 | a session minted for a call that answered is returned or revoked, exactly one of the two; for a call that threw, neither |
| AuthTheorems.ReturnedWasMintedAndPaidFor | auth/lib/src/sign_in/otp.ts:300-330 | a returned session was minted, by a check, for a call that found and took its token |
| AuthTheorems.PaddedIsNeverFound | auth/lib/src/sign_in/otp.ts:281-283 | a token presented with white space around it is numbered by the counter of the token without it before it is looked up, but never found by `verify` or `resend` |
| AuthTheorems.PaddedUsesUpTheFive | auth/lib/src/sign_in/otp.ts:123-149 | while a short token lasts, its looks and its padded calls within the five together are five at most |
| AuthTheorems.SpentIsOver | auth/lib/src/sign_in/otp.ts:388-396 | a challenge spent for want of attempts is never live again |
| AuthProcess.FollowedIsARun | auth/lib/src/sign_in/otp.ts:262-331 | a call taken alone is one of the runs the theorems are about |
| AuthProcess.AloneIsReachable | auth/lib/src/sign_in/otp.ts:262-331 | so where it leads is reachable |
| AuthProcess.Stores.Incr | auth/lib/src/sign_in/otp.ts:129-130 | a counter counts up, a lapsed one starting again without a lapse |
| AuthProcess.PendingToken.Issue | auth/lib/src/pending_token.ts:108-122 | a token is recorded to lapse after the ttl of its purpose, or not handed out |
| AuthChallenge.TrimTakesTheEndsOff | auth/lib/src/sign_in/otp.ts:342-345 | trimming takes the white space off both ends and nothing else |
| AuthProcess.PendingToken.Payload | auth/lib/src/pending_token.ts:161-202 | claims are answered exactly for a token that verifies, is not past its expiry and is for this purpose |
| AuthProcess.PendingToken.Exists | auth/lib/src/pending_token.ts:205-213 | a record exists while it is there and strictly unexpired |
| AuthProcess.PendingToken.Consume | auth/lib/src/pending_token.ts:216-223 | a record is deleted at most once, and the answer says whether it was |
| AuthProcess.OtpChallenge.Open | auth/lib/src/sign_in/otp.ts:333-361 | a challenge opens exactly for a trimmed token signed for its role and purpose, unexpired, on its own device |
| AuthProcess.OtpChallenge.AttemptsOf | auth/lib/src/sign_in/otp.ts:123-137 | the attempt gets the next number of its counter, unless the counter or the lapse of a first attempt could not be reached |
| AuthProcess.OtpChallenge.Budget | auth/lib/src/sign_in/otp.ts:363-386 | an exchange goes on exactly when its number is within five and its limits pass, and is otherwise refused as the source refuses it |
| AuthProcess.OtpChallenge.Spend | auth/lib/src/sign_in/otp.ts:388-396 | the record of the trimmed token is gone when the table was reached, and no other record is touched |
| AuthProcess.OtpChallenge.Redeem | auth/lib/src/sign_in/otp.ts:307-330 | the session is returned only when token and device both went through, and revoked otherwise |
| AuthProcess.OtpChallenge.Verify | auth/lib/src/sign_in/otp.ts:262-331 | the whole call is a trace of steps; a session is returned exactly for a right code shape, its own live token, one of five attempts within the limits, a usable session of the challenge's own role, and both last writes done; a usable session of another role, or one left over, is revoked; past five the challenge is spent |
| AuthProcess.LetInIff | auth/lib/src/sign_in/otp.ts:333-386 | an exchange is let in exactly with its own unexpired token on its own device, an attempt of the first five, limits passed and its record live; it is throttled exactly for its counter or its limits |
| AuthProcess.VerifySays | auth/lib/src/sign_in/otp.ts:262-331 | which refusal `verify` answers for each way the provider or the last writes can go |
| AuthProcess.ResendSays | auth/lib/src/sign_in/otp.ts:222-259 | which refusal `resend` answers for each way it can fail once let in |
| AuthProcess.OtpChallenge.Resend | auth/lib/src/sign_in/otp.ts:222-259 | the whole call is a trace of steps; it answers a new token exactly when it was let in, the role was found, the code went out and the token was recorded, the new record then live and the replaced one gone when the delete was reached |
| AuthReset.ResetPassword.Complete | auth/lib/src/reset_password.ts:270-303 | the password is written exactly for a token of its own, unexpired, live and taken, matching passwords and an account found; the call answers well exactly when that write did, and says when the passwords differ or the write was refused |
| AuthDoor.SignInDoor.Hold | auth/lib/src/sign_in/runner.ts:166-202 | a session is kept exactly when every answer on the way to it was good |
| AuthDoor.SignInDoor.Run | auth/lib/src/sign_in/runner.ts:139-206 | a minted session is returned, or revoked exactly once, on every path, exceptions included; a session, a challenge, a charge and each refusal come exactly when the guards say so |
| LinkEscape.FirstCharacterIsRead | dynamic_links/lib/src/core/template.ts:154-156 | no character escapes to the start of another's escape |
| LinkEscape.EncodeInjective | dynamic_links/lib/src/core/template.ts:154-156 | two texts that escape alike are the same text |
| LinkEscape.DecodeUndoesEncode | dynamic_links/lib/src/core/template.ts:154-156 | percent-decoding an escaped text, UTF-8 bytes included, gives the text back |
| LinkPattern.PrintUndoesParse | dynamic_links/lib/src/core/template.ts:98-130 | printing the segments of a pattern gives the pattern back |
| LinkPattern.ParseUndoesPrint | dynamic_links/lib/src/core/template.ts:98-130 | parsing what well-formed segments print gives the same segments back |
| LinkPattern.ParseIsWellFormed | dynamic_links/lib/src/core/template.ts:105-125 | literals are not empty, not side by side and hold no placeholder, and names are names |
| LinkRender.TakeApart | dynamic_links/lib/src/core/template.ts:105-125 | the loop over the matches takes the pattern apart up to a name written twice |
| LinkRender.Declare | dynamic_links/lib/src/core/template.ts:98-130 | a template is declared exactly when its pattern is not empty and its names are distinct |
| LinkRender.LinkTemplate.Write | dynamic_links/lib/src/core/template.ts:145-160 | the loop over the segments renders them, or answers nothing at the first one without a value |
| LinkRender.AcceptsWhatItRenders | dynamic_links/lib/src/core/template.ts:163-172 | a template accepts exactly the data it can render |
| LinkRender.LinkIsThePatternFilledIn | dynamic_links/lib/src/core/template.ts:145-160 | a link is its pattern with each placeholder spelled as the escaped value of its field, and nothing else changed |
| LinkRender.ValuesAreWrittenAsTheyAre | dynamic_links/lib/src/core/template.ts:168-172 | texts and numbers are written as they are and flags by name; what is missing or empty is written as nothing |
| LinkReadBack.FencedReadsBack | dynamic_links/lib/src/core/template.ts:145-160 | when every two placeholders are kept apart by a character no escape emits, equal links mean equal texts for every named field |
| LinkReadBack.FencedValuesReadBack | dynamic_links/lib/src/core/template.ts:145-160 | and, for fields of one kind, equal links mean equal values |
| LinkReadBack.PlainSeparatorIsAmbiguous | dynamic_links/lib/src/core/template.ts:145-160 | two placeholders with nothing but unreserved characters between them, or nothing at all, render two data alike |
| LinkReadBack.ReadsBackIff | dynamic_links/lib/src/core/template.ts:145-160 | with no percent sign in its literals, a template can be read back if and only if its placeholders are so kept apart |
| LinkBatchSafety.StepKeeps | dynamic_links/lib/src/core/declaration.ts:466-504 | each step of each chunk, and each insert of others, keeps the invariant of answers and rows |
| LinkBatchSafety.RunKeeps | dynamic_links/lib/src/core/declaration.ts:350-355 | so does every interleaving of the pooled chunks |
| LinkBatchSafety.EveryItemIsAnsweredOnce | dynamic_links/lib/src/core/declaration.ts:307-343 | once over, every index is filled exactly once, with Params exactly for what the declaration refuses |
| LinkBatchSafety.NoAnswerIsOverwritten | dynamic_links/lib/src/core/declaration.ts:485-503 | at no moment of any run is an answer written a second time |
| LinkBatchSafety.MadeNamesItsRow | dynamic_links/lib/src/core/declaration.ts:474-490 | a link answered as made is a new row holding the data of its own item |
| LinkBatchSafety.MadeSlugsDiffer | dynamic_links/lib/src/core/declaration.ts:473-490 | no two items are answered with one slug |
| LinkBatchSafety.AsManyRowsAsLinks | dynamic_links/lib/src/core/declaration.ts:432-454 | the rows added are exactly those of the links answered, beside what others wrote |
| LinkBatchAnswers.AcceptedIff | dynamic_links/lib/src/core/declaration.ts:457-464 | an item is accepted exactly when its template can be written with it and each declared field is there with a value of its kind, numbers finite |
| LinkBatchAnswers.WhyAnItemIsNotMade | dynamic_links/lib/src/core/declaration.ts:432-504 | over any run an item is answered as out of slugs exactly when five drawn for it alone were taken, and never as backend while the table answers |
| LinkBatchAnswers.AnsweredTableMakesAll | dynamic_links/lib/src/core/declaration.ts:422-504 | with every write answered, each accepted item is made in the end unless five slugs of its were taken |
| LinkCreate.CheckAll | dynamic_links/lib/src/core/declaration.ts:337-343 | refused items are answered Params, the others kept pending in order |
| LinkCreate.ChunksOf | dynamic_links/lib/src/core/declaration.ts:345-348 | pending indexes are cut into consecutive chunks of five hundred |
| LinkCreate.ChunksArePlanned | dynamic_links/lib/src/core/declaration.ts:345-348 | the chunks hold each accepted index exactly once |
| LinkCreate.LinkTable.Insert | dynamic_links/lib/src/db/links.ts:85-103 | an insert writes every row or none, and goes through only when every slug is free and distinct |
| LinkCreate.BulkCreate.CreateOne | dynamic_links/lib/src/core/declaration.ts:422-454 | one item is tried on up to five slugs and answered once |
| LinkCreate.BulkCreate.CreateChunk | dynamic_links/lib/src/core/declaration.ts:466-504 | a chunk is written at once, read back, failed whole or taken one at a time, each of which is a step of the machine |
| LinkCreate.CreateMany | dynamic_links/lib/src/core/declaration.ts:327-356 | the whole call taken alone is one of the runs of the machine, and ends with every chunk through |
| LinkResolve.BatchAgreesWithSingleIff | dynamic_links/lib/src/runtime/resolve.ts:160-182 | a batch answers a slug as asking alone would, if and only if the table answers, or holds all of them in cache, or this slug is not in the cache |
| LinkResolve.RememberingChangesNoAnswer | dynamic_links/lib/src/runtime/valkery.ts:58-64 | remembering a slug the cache did not hold changes no answer |
| LinkResolve.BatchIsOneByOne | dynamic_links/lib/src/runtime/valkery.ts:75-102 | a batch is its slugs resolved one after the other: same keys, same answers, same cache |
| LinkResolve.SlugSaysItsRow | dynamic_links/lib/src/runtime/resolve.ts:181-194 | what each row, or its absence, resolves to, one reason for each way not to answer |
| LinkResolve.BatchSaysItsRows | dynamic_links/lib/src/runtime/resolve.ts:160-194 | the same for each slug of a batch |
| LinkResolve.RememberedForTenMinutes | dynamic_links/lib/src/runtime/valkery.ts:58-64 | what was remembered, absences too, is read for ten minutes and its jitter and not a moment longer |
| LinkResolve.Resolver.CachedLink | dynamic_links/lib/src/runtime/valkery.ts:58-64 | the row of one slug, absences remembered, and what the cache holds after |
| LinkResolve.Resolver.CachedLinks | dynamic_links/lib/src/runtime/valkery.ts:75-102 | the rows of many slugs, the missing loaded at once, and what the cache holds after |
| LinkResolve.Resolver.ResolveLink | dynamic_links/lib/src/runtime/resolve.ts:143-148 | one slug says what the row behind it says, cached or in the table: not found, expired, unknown, or that very row; backend exactly when it is not held and the table does not answer |
| LinkResolve.Resolver.ResolveMany | dynamic_links/lib/src/runtime/resolve.ts:160-194 | the keys are exactly the slugs asked, each saying what its row says, or all backend when one is not held and the table does not answer; what was loaded is held for ten minutes |
| ReadSelection.FieldsReadBack | auth/lib/src/declaration/columns.ts:195-201 | a recursive parser reads every printed list of entries back, at any depth |
| ReadSelection.CompiledShapeReadsBack | auth/lib/src/declaration/columns.ts:195-201 | a compiled shape parses back to that shape |
| ReadSelection.SelectionReadsBack | auth/lib/src/declaration/account.ts:260-261 | appended to the identity selection, a shape still parses back |
| ReadSelection.SelectionIsUnambiguous | auth/lib/src/declaration/account.ts:80-89 | two roles that compile or select alike declared the same shape |

## Left out

- Redis, PostgREST, the identity provider and NATS: each is a map with the atomic conditional set, insert on a unique
  key, delete of one row and expiry the source relies on; a marker or an entry is gone once its expiry is reached.
- The internals of the cache wrapper, the key index, the semaphore, the deadline, the pool and the rate limiter: a
  refresh of a cache entry ahead of its lapse happens together with the read that asked for it, a deadline ends the
  run as the runner accounts for it and not the handler's own body, and a pool is any interleaving of its items.
- Calendar arithmetic and time zones: a calendar schedule is an oracle whose answer is strictly after what it is asked;
  that it skips none of its own instants is asked for only where every one of them is accounted for.
- One reading of the clock per turn of the cron loop: the model does not read it a second time when the loop computes
  a first occurrence, or how long to sleep, in the same turn. Timers are exact in `CronTimed`, and a crashed loop may be
  started again at any moment, five seconds later among them.
- A replica that leaves the fleet for good is one that takes no further step.
- Signatures and hashing: what a signature vouches for is part of a call, agrees with what was signed for every token
  that was, and is arbitrary for every other string. A newly signed token is one nobody presented before.
- The length limit of a token counts characters here and UTF-16 units in the source, which differ for no token that
  was ever signed. Text is a sequence of Unicode scalar values, so the lone surrogates for which `encodeURIComponent`
  throws do not occur.
- Values a link inherits rather than holds: a placeholder named like a member every object has reads as missing here.
- LinkReadBack.ReadsBackIff: its first half, that fenced templates read back, is `FencedReadsBack` and asks nothing;
  its second half leaves out literals made of nothing but unreserved characters and percent signs, where whether two
  values can meet depends on the digits after the sign.
- AuthDoor.SignInDoor.Run: the admission rule, the device registry and the limits are answers the door gets, not modelled.
- AudienceTruth.OneProcessTellsTheTruth: a cache fill that races with a write, and views of other processes inside the
  two-second window, are outside it; `HasTellsTheTruth` says which views are current, and `SettledTellsTheTruth` how
  far from a clear or a lapse they are.
- LinkCreate.CreateMany: reads answer and nobody revokes a link meanwhile; the write that remembers a fresh link in the
  cache in the background is left out.
- `audiencesOfMember` and `forgetMember`: the flag they answer needs two conditions at once and promises no completeness.
- Sign-up and its rollback, bans, sessions, devices, registries, error mapping, wire formats and entry points: thin, or
  easy members.
