# Proofs about the analyzers, the session pool and the background jobs

A Dafny project that models the parts of the repository where a mistake would be hard to see, and
proves what they are for. `dafny verify dfyconfig.toml` checks all of it.

| files | part of the system |
|---|---|
| `PermissionBypass.dfy` | the guard-flow walk of the `permissionbypass` analyzer, against an execution model of the statements it walks |
| `LateMutation.dfy` | the `latemutation` analyzer, against an execution model in which its reports are dead stores |
| `SessionPool.dfy`, `PoolProtocol.dfy` | the session pool's critical sections, and every interleaving of its callers |
| `CronParse.dfy`, `CronNext.dfy`, `CronText.dfy` | cron expressions, the search for the next run, the daily and weekly calculations, and all of them on printed expressions |
| `Interval.dfy` | session timeouts, execution limits and their ISO 8601 text |
| `Plist.dfy`, `PlistCoder.dfy` | the launch agent property list: its token streams, and the code that writes and reads them |
| `StartupCommand.dfy` | command-line quoting for the Windows task scheduler and for systemd |
| `JobStore.dfy`, `StoreProtocol.dfy` | the job store, and every interleaving of its users under two locks |
| `Reconcile.dfy` | driving the system's schedules towards the store |
| `RunHistory.dfy` | run history files |
| `Phase1.dfy` | the chunked first analysis phase, in sequence and in parallel |
| `Suggest.dfy` | edit distance and the suggestions built on it |
| `LogTail.dfy` | the circular array behind `--tail` |
| `Strings.dfy`, `Decimal.dfy`, `Durations.dfy`, `Modular.dfy`, `Orders.dfy`, `Options.dfy` | what several of them share |

Code that changes state is a class whose methods are proved against a function of the old state, or
a method with loops; what the code promises is then proved about those functions. Concurrent parts
are state machines over their critical sections, with one lemma per kind of step and theorems over
all runs.

The code does not always do what its comments say. These are the places the proofs turned up, each
with the condition under which the promise holds; all of these conditions are exact except that for
`latemutation`, which is sufficient only:

- A cron step whose sum with the lower limit leaves 64 bits makes the step loop wrap around
  (`CronText.WrappedField` gives the text); a field is exact if and only if the step fits (`CronParse.FieldIsExact`).
- 366 dates are said to cover a full leap year; they miss a yearly run that is exactly 366 days away
  (`CronText.YearlyRunIsMissed`). The search fails exactly when no date in reach matches
  (`CronNext.NextCronRun`).
- `latemutation` says that nothing reads a reported write; a write in a post statement can be read by
  the loop condition (`LateMutation.PostWriteIsRead`), and any write by a call that was handed the address of
  a field (`LateMutation.SharedFieldIsRead`). Where neither occurs, and
  within the fragment described under "Left out" -- no pointer-receiver calls, goto or fields promoted
  through an embedded pointer, among others -- the write is dead (`LateMutation.ReportedWritesAreDead`);
  it may be dead elsewhere too.
- `permissionbypass` does not look into init and post statements, range targets, type-switch, select
  and labelled statements, composite literals, and targets other than the plain selector
  (`PermissionBypass.HiddenWritesEscape`). It is sound for a body exactly when it reports every write
  that a structural computation finds (`PermissionBypass.SoundExactlyWhen`), hence for every body without
  those positions and forms.
- Malformed history lines are skipped so that a crash is harmless, but the run appended after a torn
  line is lost with it, and one line longer than the scanner's limit ends all listing and pruning
  (`RunHistory.AppendedIsListed`, `RunHistory.OversizedRecordBlocks`). A crash in an append costs at most
  two runs (`RunHistory.CrashCostsTwo`); one in the rewriting of a pruning costs all runs not yet written
  back, whatever was to be kept (`RunHistory.CrashInPrune`).
- Property lists lose all-blank texts and the calendar list beside an interval; the round trip holds
  if and only if neither occurs, no weekday is below -1 and the interval is not negative
  (`Plist.RoundTrip`).
- The program name of a Windows command line is split by a rule of its own, under which the quoting is
  right if and only if the path holds no quote and does not end in a backslash
  (`StartupCommand.CommandLineRoundTrip`).
- The two modes of the first phase treat a missing summary differently and agree if and only if
  none is missing (`Phase1.ModesAgree`).

## Model

| member | source | states |
|---|---|---|
| PermissionBypass.SoundExactlyWhen | internal/astcheck/permissionbypass.go:40-171 | Every posture write of every execution without a sandbox is reported if and only if the reports contain every write of a structural computation on the body; whatever they miss is in a position or form that the walk does not look at |
| PermissionBypass.MayWriteExactly | internal/astcheck/permissionbypass.go:40-47 | That computation is exact: some execution performs a posture write if and only if it lists it -- conditions on the sandbox are resolved through negation, conjunction and disjunction, every other choice is taken both ways, and what cannot be reached is left out |
| PermissionBypass.MayEndExactly | internal/astcheck/permissionbypass.go:77-129 | Likewise for the ways in which a body can end: normally, by break, continue, return or fallthrough, or by stopping midway |
| PermissionBypass.SilenceMeansGuarded | internal/astcheck/permissionbypass.go:40-73 | When nothing is reported, no execution without a sandbox writes the posture if and only if the computation finds no write, as it does for every body that hides nothing from the walk |
| PermissionBypass.UnavailableWritesAreReported | internal/astcheck/permissionbypass.go:75-171 | Every posture write of an execution without a sandbox is reported or hidden from the walk |
| PermissionBypass.ReturnNeverFallsOff | internal/astcheck/permissionbypass.go:161-171 | No execution of a block with a top-level return completes it normally, which justifies handing on "guarded" after an early-return guard and not walking its else |
| PermissionBypass.SoundAll | internal/astcheck/permissionbypass.go:77-81 | The induction over a statement list: what it may write without a sandbox is reported or hidden, and a list that hands on "guarded" cannot complete normally without one |
| PermissionBypass.SoundOne | internal/astcheck/permissionbypass.go:84-129 | The same for one statement, through blocks, loops with break and continue, and switches with fallthrough |
| PermissionBypass.SoundElse | internal/astcheck/permissionbypass.go:132-142 | The same for else branches, of which the walk visits blocks and chained ifs |
| PermissionBypass.GuardedWalkIsSilent | internal/astcheck/permissionbypass.go:101-109 | Code walked under a guard is never reported and stays guarded |
| PermissionBypass.ReportsAreExact | internal/astcheck/permissionbypass.go:77-200 | The reports of a walk are exactly the assignments to the two posture fields, in order, in the statements without what a guard covers: the body of an if on a call of sandbox.Available, and whatever follows an if on its negation with a top-level return, or is its else |
| PermissionBypass.CoveredIsUnreachable | internal/astcheck/permissionbypass.go:88-110 | Taking that code away changes neither what the statements may write without a sandbox nor how they may end |
| PermissionBypass.GuardsAreRecognised | internal/astcheck/permissionbypass.go:144-171 | The two guards spelled out, in any context: nothing under a check is reported, and nothing after an early return |
| PermissionBypass.HiddenWritesEscape | internal/astcheck/permissionbypass.go:88-128 | Each unvisited position and form holds a write that is not reported and does happen without a sandbox: init statements of if, for and switch, post statements, range targets, type-switch, select and labelled statements, targets in parentheses, indexed or through the address of the field, and composite literals |
| PermissionBypass.CheckFuncBody | internal/astcheck/permissionbypass.go:68-73 | The pass ends with exactly the reports of the walk appended, which are the plain posture writes of the body without the code that a guard covers, in order |
| PermissionBypass.WalkStatements | internal/astcheck/permissionbypass.go:77-81 | The loop that updates the flag refines the walk of the list, reports and final flag alike |
| PermissionBypass.WalkStmt | internal/astcheck/permissionbypass.go:84-129 | The case analysis refines the walk of one statement, reports and handed-on flag alike |
| PermissionBypass.WalkElse | internal/astcheck/permissionbypass.go:132-142 | Else branches append exactly their own reports |
| LateMutation.ReportedWritesAreDead | internal/astcheck/latemutation.go:71-184 | For any set of writes reported for given objects, any input and any behaviour of the callees: evaluating only their right-hand sides leaves unchanged the calls, their arguments and all the memory they can reach, the return value, whether the body finishes, and every other variable -- provided that no such write is in a post statement whose loop reads the variable and that no field of the variable has its address taken |
| LateMutation.LostWriteIsReported | internal/astcheck/latemutation.go:140-198 | In `var x = 0; f(x); x.done = 1` the write is reported if and only if x is a variable of struct type declared in the body, and nothing else is: no parameter, no field, no pointer |
| LateMutation.LostWritesAreReported | internal/astcheck/latemutation.go:71-198 | In any body, a write at the top level is reported whenever some call anywhere before it has the variable as an argument, nothing behind it mentions the variable, its address is taken nowhere, and it is a struct variable declared in the body -- all told from the syntax |
| LateMutation.BlockTells | internal/astcheck/latemutation.go:76-138 | The occurrences are what the syntax says: a by-value pass exactly where a call has the variable as an argument, none where the variable is not mentioned, and an address taken exactly where there is one |
| LateMutation.PostWriteIsRead | internal/astcheck/latemutation.go:144-166 | A concrete loop whose post statement is reported although dropping it changes what the loop condition is called with |
| LateMutation.SharedFieldIsRead | internal/astcheck/latemutation.go:96-103 | A concrete body in which the address of a field is passed on: a later write to that field is reported although the next call can read it |
| LateMutation.CalleesReachAddresses | internal/astcheck/latemutation.go:89-103 | In the execution model a callee sees and changes a variable whose address it is given |
| LateMutation.CalleesGetCopies | internal/astcheck/latemutation.go:42-46 | and gets a copy, and no more, of one that is passed by value |
| LateMutation.FieldsHold | internal/astcheck/latemutation.go:47-48 | Fields hold what was last written to them |
| LateMutation.SwitchTakesFirst | internal/astcheck/latemutation.go:29-31 | A switch runs the first clause whose guard equals its tag, only that one, or none |
| LateMutation.RangeSetsKey | internal/astcheck/latemutation.go:208-209 | A range loop over n runs its body for every key from 0 to n - 1 |
| LateMutation.ClearWithoutPosts | internal/astcheck/latemutation.go:206-207 | The hypothesis of ReportedWritesAreDead on post statements is met by every body without them |
| LateMutation.CheckLatemutationFunc | internal/astcheck/latemutation.go:71-198 | For every source-order list of occurrences the analyzer reports exactly the writes that come after a by-value pass and before writes only, outside loop bodies, to variables whose address is not taken, that are no fields, are of struct type, and are declared between the braces of the body |
| LateMutation.CollectStreams | internal/astcheck/latemutation.go:108-138 | One stream of events for every candidate that occurs, in source order, tagged by the region test |
| LateMutation.ScanStream | internal/astcheck/latemutation.go:144-167 | The scan with its two early-exit loops finds exactly the lost writes of one variable |
| LateMutation.StreamVerdict | internal/astcheck/latemutation.go:148-162 | Being before and after in the stream is being before and after in the source |
| LateMutation.RegionTestIsLexical | internal/astcheck/latemutation.go:203-226 | The interval test on positions says of every occurrence exactly whether a loop body lexically encloses it |
| LateMutation.StreamIsExact | internal/astcheck/latemutation.go:110-138 | The stream of a variable holds all of its occurrences and nothing else |
| LateMutation.SimStmt | internal/astcheck/latemutation.go:140-168 | The simulation for one statement: same outcome, and states that differ only in written-off variables no call can reach |
| LateMutation.SimFor | internal/astcheck/latemutation.go:206-209 | The simulation through the rounds of a for statement, in which nothing of the body is dropped |
| PoolProtocol.PoolIsSafe | internal/analyzer/sessionpool.go:33-161 | In every reachable state of any interleaving, while the pool is open: live = free + in use + being created and is within the capacity asked for, or one if that is not positive; the list of all sessions is the disjoint union of free and in use; no session is ever held twice or held while free, and while the pool is open none in use or free has been closed |
| PoolProtocol.AcquireGetsWhatThereIs | internal/analyzer/sessionpool.go:48-66 | In every reachable state an Acquire on an open pool with a live context gets the session freed last if there is one, a slot exactly when fewer sessions than were asked for are in use or being created, and waits otherwise |
| PoolProtocol.ReleaseIsExact | internal/analyzer/sessionpool.go:113-128 | A good session on an open pool is free again and unharmed; any other is closed, forgotten and gives up its slot; the other sessions stay |
| PoolProtocol.NothingHandedOutAfterClose | internal/analyzer/sessionpool.go:48-92 | After Close no step gives any goroutine a session, and the pool stays closed |
| PoolProtocol.EverySessionIsClosed | internal/analyzer/sessionpool.go:79-152 | When the pool is closed and every factory call, Release and Close has finished, every session ever created has been closed |
| PoolProtocol.NoLostWakeup | internal/analyzer/sessionpool.go:48-109 | A sleeping goroutine that has not been signalled implies that the pool is open with nothing free, and that exactly as many sessions as were asked for are in use or being created |
| PoolProtocol.WaiterCanProceed | internal/analyzer/orchestrator_chunked.go:286-294 | From every state that keeps the invariant, and whatever the factory and the sessions' calls return in each state, what was begun can go on -- without a new call, a close or a cancellation -- so that a given waiter leaves with a session or a slot |
| PoolProtocol.AcquireCanSucceed | internal/analyzer/sessionpool.go:43-110 | From every state that keeps the invariant and has an open pool, an Acquire can be begun and go through to a session, whatever the others' factory calls and sessions' calls return, if the factory does not fail this one |
| PoolProtocol.CancelledWaiterReturns | internal/analyzer/sessionpool.go:48-109 | A waiter whose context is done, or whose pool was closed, can return by its own steps and those of its watchdog |
| PoolProtocol.StepKeeps | internal/analyzer/sessionpool.go:43-161 | Every step of every goroutine keeps the invariant behind these results |
| SessionPool.SessionPool.constructor | internal/analyzer/sessionpool.go:33-40 | The capacity is the one asked for, or one if that is not positive; nothing is live, listed or closed |
| SessionPool.SessionPool.AcquireOnce | internal/analyzer/sessionpool.go:48-66 | One pass through the wait loop under the lock: closed and cancelled first, then the newest free session, then a slot, else a wait; nothing else changes |
| SessionPool.SessionPool.GiveBackSlot | internal/analyzer/sessionpool.go:72-78 | A failed factory call gives its slot back and changes nothing else |
| SessionPool.SessionPool.Enlist | internal/analyzer/sessionpool.go:79-92 | A session that the factory returns joins the pool, or gives its slot back and is to be closed if the pool was closed meanwhile |
| SessionPool.SessionPool.Release | internal/analyzer/sessionpool.go:113-128 | A session goes back to the free list, or leaves the pool and gives up its slot when it failed or the pool is closed |
| SessionPool.SessionPool.RemoveFromAll | internal/analyzer/sessionpool.go:154-161 | The first occurrence is removed in place and nothing else |
| SessionPool.SessionPool.Close | internal/analyzer/sessionpool.go:131-152 | The first Close empties the lists and hands back every session there was; later ones do nothing |
| Suggest.BestScript | cmd/suggest.go:19-49 | The distance is the cost of some insert, delete and substitute script from one byte string to the other |
| Suggest.NoCheaperScript | cmd/suggest.go:19-49 | No script is cheaper |
| Suggest.Triangle | cmd/suggest.go:19-49 | The triangle inequality, by fusing two scripts into one |
| Suggest.Fuse | cmd/suggest.go:19-49 | Two scripts run one after the other can be replaced by one that costs no more |
| Suggest.Symmetric | cmd/suggest.go:27-30 | Swapping the operands, as the row buffer does, does not change the distance |
| Suggest.ZeroOnlyIfEqual | cmd/suggest.go:19-49 | The distance is zero exactly for equal strings |
| Suggest.Levenshtein | cmd/suggest.go:19-49 | The two-row computation with swapped operands returns that distance |
| Suggest.SuggestCommand | cmd/suggest.go:53-86 | A visible exact match suggests nothing; otherwise the first of the visible names and aliases nearest to the typed word, provided it is closer than the empty word and at most two edits or a third of the word away, and no suggestion only if no name is that close |
| Suggest.SuggestFlag | cmd/suggest.go:90-115 | The same over the flags that are neither hidden nor deprecated |
| CronParse.FieldIsExact | internal/backgroundjobs/schedule.go:174-267 | A field that parses yields the values its grammar denotes, strictly increasing, non-empty and within the limits -- if and only if its step fits: lo + step within 64 bits |
| CronParse.StepWraps | internal/backgroundjobs/schedule.go:194-204 | The one step for which the loop counter wraps around, and the three values it then yields |
| CronText.WrappedField | internal/backgroundjobs/schedule.go:194-204 | The text of such a field, accepted with those three values: the step 9223372036854775807 over a range from 1 |
| CronParse.MembersAreDenoted | internal/backgroundjobs/schedule.go:174-267 | Within the limits, membership is right even then |
| CronParse.WildcardIsWholeRange | internal/backgroundjobs/schedule.go:341-343 | The three comparisons hold exactly when the field lists its whole range, however it is spelled |
| CronParse.ParsedIsSearchable | internal/backgroundjobs/schedule.go:142-170 | Hours and minutes always parse to non-empty ascending lists within their limits |
| CronParse.ParseCronStep | internal/backgroundjobs/schedule.go:194-204 | The loop with 64-bit addition returns the values of the step, or the error |
| CronParse.ParseCronPart | internal/backgroundjobs/schedule.go:231-267 | A value, or a range with both ends in order and within the limits; otherwise the first error |
| CronParse.ParseCronParts | internal/backgroundjobs/schedule.go:207-228 | Duplicates removed and sorted: the denoted values in ascending order, or the error of the first bad part |
| CronParse.ParseCronField | internal/backgroundjobs/schedule.go:174-182 | The three forms of a field |
| CronParse.ParseCron | internal/backgroundjobs/schedule.go:142-170 | Five fields with their limits, or the first error |
| CronNext.NextCronRun | internal/backgroundjobs/schedule.go:283-338 | A returned instant is after now, matches the expression text under the either-day rule (INPUT FILES section of crontab in POSIX.1-2017), and no matching whole minute lies between; it fails exactly when no minute after now matches on the 366 dates from the date of the next minute on; a bad expression is reported as such |
| CronNext.FirstSlot | internal/backgroundjobs/schedule.go:321-335 | The nested loops return the earliest listed hour and minute of a date after now, or establish that there is none |
| CronNext.MatchesOnFields | internal/backgroundjobs/schedule.go:296-320 | The test on parsed fields is the meaning of the expression text |
| CronNext.NothingBeforeFirstDate | internal/backgroundjobs/schedule.go:291-295 | Starting from the date of the next minute boundary skips nothing, whatever the offset of the zone |
| CronNext.WeekdaysAreAnchored | internal/backgroundjobs/schedule.go:311-318 | Weekdays are those of known dates, and follow one another |
| CronNext.KnownDates | internal/backgroundjobs/schedule.go:298-318 | The Gregorian calendar of the model has the months, days and weekdays of ten known dates, around leap days and the ends of years and Februaries |
| CronNext.EightDatesSuffice | internal/backgroundjobs/schedule.go:281-295 | Without a restriction on date and month the search succeeds, within eight dates |
| CronText.YearlyRunIsMissed | internal/backgroundjobs/schedule.go:278-295 | In the Gregorian calendar, once the run of 1 March 2023 has passed, the search for the text `0 0 1 3 *` returns no match, although the next run is 366 days away |
| CronText.WeeklyThreeWays | internal/backgroundjobs/scheduler_darwin.go:765-789 | The modular form, the day-stepping form and the search for the text `m h * * d` are called and return one instant |
| CronText.EitherDayMatches | internal/backgroundjobs/schedule.go:304-324 | The printed text `m h d * w` parses and matches exactly at that time on that day of the month or on that weekday |
| CronText.MonthlyMatches | internal/backgroundjobs/schedule.go:304-324 | The printed text `m h d * *` parses and matches exactly at that time on that day of the month |
| CronText.DailyThreeWays | internal/backgroundjobs/schedule.go:92-101 | The daily form, the daily form of the launchd scheduler and the search for the text `m h * * *` are called and return one instant |
| CronText.WeeklyTextParses | internal/backgroundjobs/schedule.go:142-170 | The printed text `m h * * d` parses, and its fields denote just that minute, hour and weekday and any date |
| CronText.DailyTextParses | internal/backgroundjobs/schedule.go:142-170 | The printed text `m h * * *` parses, and its fields denote just that minute and hour and any day |
| CronText.NumberField | internal/backgroundjobs/schedule.go:231-276 | A number within the limits parses as a field and denotes itself alone |
| CronText.IntegersAreRead | internal/backgroundjobs/schedule.go:270-276 | Every 64-bit integer is read from its decimal text, signed or not, and nothing beyond 64 bits or without digits is |
| CronText.StepField | internal/backgroundjobs/schedule.go:194-204 | The text `*/n` is accepted exactly when n is positive, and denotes every n-th value from the lower limit on |
| CronText.RangeField | internal/backgroundjobs/schedule.go:248-267 | The text `a-b` denotes the values from a to b when both are in order within the limits, and is out of bounds otherwise |
| CronText.ListField | internal/backgroundjobs/schedule.go:207-229 | A list `f,g` is accepted exactly when both sides are, and denotes what either of them does |
| CronNext.NextDailyRun | internal/backgroundjobs/schedule.go:92-101 | The next time the clock shows the given time, within one day |
| CronNext.NextWeeklyRun | internal/backgroundjobs/schedule.go:102-114 | The modular form gives the next such time on the given weekday, within seven days |
| CronNext.ComputeNextCalendarRun | internal/backgroundjobs/scheduler_darwin.go:765-789 | The day-stepping form ends after at most seven steps with that same instant; its daily and hourly forms |
| CronNext.NextWeeklyIsUnique | internal/backgroundjobs/schedule.go:102-114 | There is only one such instant |
| Interval.LimitsAreNested | internal/backgroundjobs/schedule.go:348-412 | For every interval: session timeout <= execution limit <= interval, the limit strictly below exactly when the interval exceeds five minutes, and the product within 64 bits |
| Interval.IntervalInUse | internal/backgroundjobs/schedule.go:456-495 | The interval that counts, in nanoseconds: the one set if it lies between a minute and 23 hours, else an hour |
| Interval.TimeoutInUse | internal/backgroundjobs/schedule.go:348-372 | The session timeout in nanoseconds: four fifths between intervals of 75 seconds and 75 minutes, a minute below, an hour above; half an hour for other schedules |
| Interval.LimitInUse | internal/backgroundjobs/schedule.go:383-412 | The execution limit in nanoseconds: the interval up to five minutes, five minutes up to 375 seconds, four fifths above; two hours for daily, weekly and cron schedules, one for others |
| Interval.DefaultTimeoutFor | internal/backgroundjobs/schedule.go:348-372 | Four fifths of the interval between one minute and one hour; thirty minutes otherwise |
| Interval.ExecutionTimeLimit | internal/backgroundjobs/schedule.go:383-402 | The text, read as an ISO 8601 duration, is the limit in whole seconds |
| Interval.DurationToISO8601 | internal/backgroundjobs/schedule.go:501-526 | Reading the text back (section 4.4.3.2 of ISO 8601:2004) gives the whole seconds of every duration, zero for one that is not positive |
| Interval.TextDenotes | internal/backgroundjobs/schedule.go:510-525 | With any components left out the text denotes the same hours, minutes and seconds |
| Interval.NotDurations | internal/backgroundjobs/schedule.go:501-526 | The reader that the text is held against rejects texts without prefix, component or number, and with something left over |
| Decimal.ScanFormatted | internal/backgroundjobs/scheduler_darwin.go:500-503 | Scanning a formatted 64-bit integer gives it back |
| Plist.RoundTrip | internal/backgroundjobs/scheduler_darwin.go:281-710 | For every property list and any blank text between elements: reading what was written gives the same fields if and only if every text is empty or not all blank, no weekday is below -1, the interval is not negative, and there is no calendar list beside a positive interval |
| Plist.CalendarDocument | internal/backgroundjobs/scheduler_darwin.go:281-395 | The document of an enabled calendar job, spelled out: every key name with its value, in order |
| Plist.IntervalDocument | internal/backgroundjobs/scheduler_darwin.go:307-354 | The document of a disabled interval job, spelled out, without its calendar |
| Plist.CalendarsDocument | internal/backgroundjobs/scheduler_darwin.go:356-395 | Several calendar entries are an array of dictionaries |
| Plist.MissingAndUnknownKeys | internal/backgroundjobs/scheduler_darwin.go:425-665 | A calendar entry without keys reads as midnight on every day, and an unknown key is passed over with all that is nested in its value |
| Plist.ReadingGivesNormalForm | internal/backgroundjobs/scheduler_darwin.go:398-710 | What is read back from any property list, faithful or not, is its normal form |
| Plist.AtLeaf | internal/backgroundjobs/scheduler_darwin.go:517-537 | A text element reads back as its text, or as empty if it is all blank, and leaves the decoder behind the element |
| Plist.AtLeaves | internal/backgroundjobs/scheduler_darwin.go:550-574 | An array of texts reads back element by element |
| Plist.AtCalendarDict | internal/backgroundjobs/scheduler_darwin.go:614-664 | A calendar dictionary reads back with the weekday sentinel restored when the weekday was left out |
| Plist.AtCalendarValue | internal/backgroundjobs/scheduler_darwin.go:578-611 | One calendar interval is a bare dictionary, several an array, and both read back |
| Plist.AtEntry | internal/backgroundjobs/scheduler_darwin.go:425-492 | The dictionary loop, at a key, reads its value and goes on behind it |
| Plist.GapContent | internal/backgroundjobs/scheduler_darwin.go:293-304 | Blank text between elements is passed over |
| PlistCoder.Decoder.NextContentToken | internal/backgroundjobs/scheduler_darwin.go:293-304 | Advances to the next token that is not blank text, or to the end of input |
| PlistCoder.Decoder.ReadPlistInt | internal/backgroundjobs/scheduler_darwin.go:495-514 | Reads one integer element and stops behind it |
| PlistCoder.Decoder.ReadPlistString | internal/backgroundjobs/scheduler_darwin.go:517-537 | Reads one text element and stops behind it |
| PlistCoder.Decoder.ReadPlistBool | internal/backgroundjobs/scheduler_darwin.go:540-547 | The element name decides, and the element is skipped with all its content |
| PlistCoder.Decoder.ReadPlistStringArray | internal/backgroundjobs/scheduler_darwin.go:550-574 | Collects the texts of an array, skipping other elements |
| PlistCoder.Decoder.ReadPlistCalendarArray | internal/backgroundjobs/scheduler_darwin.go:578-611 | An array of dictionaries, or a bare one |
| PlistCoder.Decoder.ReadPlistCalendarDict | internal/backgroundjobs/scheduler_darwin.go:614-664 | Fills hour, minute and weekday from a dictionary; panics on a key that is not text |
| PlistCoder.LaunchAgentPlist.UnmarshalDict | internal/backgroundjobs/scheduler_darwin.go:425-492 | The loop fills the fields as the specification of the dictionary says |
| PlistCoder.LaunchAgentPlist.UnmarshalXML | internal/backgroundjobs/scheduler_darwin.go:398-422 | Finds the dictionary, fills the fields and consumes the rest of the property list |
| PlistCoder.LaunchAgentPlist.MarshalXML | internal/backgroundjobs/scheduler_darwin.go:667-710 | Appends exactly the tokens of the property list, the interval taking precedence over the calendar list |
| PlistCoder.Encoder.WritePlistStringArray | internal/backgroundjobs/scheduler_darwin.go:338-352 | Appends the key and the array element by element |
| PlistCoder.Encoder.WritePlistCalendarArray | internal/backgroundjobs/scheduler_darwin.go:356-375 | Appends a bare dictionary for one interval and an array otherwise |
| PlistCoder.Encoder.WritePlistCalendarDict | internal/backgroundjobs/scheduler_darwin.go:378-395 | Leaves the weekday out when it is negative |
| PlistCoder.FlatIsSpread | internal/backgroundjobs/scheduler_darwin.go:667-710 | The stream that is written without indentation is one of those read back |
| StartupCommand.CommandRoundTrip | cmd/startup.go:131-139 | Splitting the whole command by the argument rules gives exactly the executable, "daemon", "--config" and the configuration path, for all byte strings and every convention on doubled quotes |
| StartupCommand.QuotedTexts | cmd/startup.go:146-169 | Two quoted arguments written out, with a blank, a quote and a final backslash |
| StartupCommand.SplitAtBlanks | cmd/startup.go:146-169 | The rules the quoting is held against separate arguments at blanks and tabs |
| StartupCommand.ReadDoubledQuotes | cmd/startup.go:146-169 | and take two quotes in a row inside a quoted part in the three ways that implementations do |
| StartupCommand.ArgumentRoundTrip | cmd/startup.go:141-169 | Every quoted argument reads back as the original, including trailing backslashes, quotes and the empty string |
| StartupCommand.ReadQuoted | cmd/startup.go:146-169 | The same from the middle of an argument, with backslashes pending |
| StartupCommand.CommandLineRoundTrip | cmd/startup.go:131-139 | Under the separate rule for the program name the command splits into the four arguments if and only if the executable path holds no quote and does not end in a backslash |
| StartupCommand.QuoteWindowsCommandArgument | cmd/startup.go:146-169 | The loop with its backslash counter writes the quoted form |
| StartupCommand.BuildStartupTaskCommand | cmd/startup.go:131-139 | The four parts joined by spaces |
| StartupCommand.SystemdRoundTrip | cmd/startup.go:266-272 | Undoing the escapes of a double-quoted word gives the value back, for every value |
| StoreProtocol.Serializable | internal/backgroundjobs/store.go:62-148 | For any threads in any processes and any failures: the jobs file is what the committed mutations make of the initial file in the order in which the lock file was held, and at most one thread is inside |
| StoreProtocol.OutcomesAreHonest | internal/backgroundjobs/store.go:62-100 | A finished call has a commit if and only if it reported success, and then the commit is its own mutation; every Load returned the state after some prefix of the commits that includes all made before it began |
| StoreProtocol.EveryCommitIsReported | internal/backgroundjobs/store.go:65-93 | Every commit belongs to exactly one outcome that reports success, finished or still on its way out |
| StoreProtocol.CallsSucceed | internal/backgroundjobs/store.go:65-123 | A call begun while its process is quiet and the lock file is free can run through: an update reports success exactly when its mutation commits and leaves the file it makes, a load returns what is there |
| StoreProtocol.NoDeadlock | internal/backgroundjobs/store.go:65-99 | In every reachable state in which a call is under way, a thread of its process can go on |
| StoreProtocol.HeldLockFails | internal/backgroundjobs/store.go:76-80 | An update that finds the lock file held fails at once and leaves no trace |
| StoreProtocol.OneAdditionWins | internal/backgroundjobs/helpers.go:34-57 | In every run, two committed additions of one job have a removal of it between them |
| StoreProtocol.StepKeeps | internal/backgroundjobs/store.go:65-148 | Every step keeps the invariant: the state that the holder of the lock file has loaded is still the one in the file |
| StoreProtocol.SaveKeeps | internal/backgroundjobs/store.go:125-148 | The atomic write commits the holder's mutation |
| JobStore.AddedOnceBetweenDeletions | internal/backgroundjobs/helpers.go:34-57 | In every sequence of commits, an addition of a job that was added before follows a commit that took it away and was not an addition |
| JobStore.CommitChangesOneJob | internal/backgroundjobs/helpers.go:34-57 | An addition commits exactly when the job is not there yet and leaves it as given; a deletion commits exactly when it is there and leaves it absent; every other job stays as it was |
| JobStore.CommitOfEdit | internal/backgroundjobs/store.go:65-93 | Any other mutation commits exactly when it accepts the jobs, and leaves what it makes of them |
| JobStore.LastMutationDecides | internal/backgroundjobs/store.go:65-93 | After any commits a job is as its last addition, deletion or edit left it, whatever happened to other jobs since |
| JobStore.UntouchedJob | internal/backgroundjobs/store.go:65-93 | A job that no commit is about stays as it was in the file |
| JobStore.Store.Update | internal/backgroundjobs/store.go:65-93 | Success means that the mutation was applied to the loaded state and written; any problem leaves the file as it was; the lock file is always released; exactly when it succeeds |
| JobStore.Store.Load | internal/backgroundjobs/store.go:96-123 | The state of a missing, legacy or current file, and an error for any other version |
| JobStore.Store.Save | internal/backgroundjobs/store.go:125-148 | Writes the state under the current version, or leaves the file |
| Reconcile.Confluent | internal/backgroundjobs/reconcile.go:72-247 | When every call succeeds, every iteration order gives the same store and the same schedules -- those before and those installed, less disabled jobs that had a schedule and valid orphans -- and the counts of the dry run |
| Reconcile.Converges | internal/backgroundjobs/reconcile.go:72-161 | After that, nothing needs installing, no valid orphan is left, the same disabled removals are wanted again, and carrying them out changes nothing |
| Reconcile.SecondRun | internal/backgroundjobs/reconcile.go:72-132 | Whatever its iteration orders, a second run issues nothing but removals for disabled jobs that the first run had issued |
| Reconcile.EveryJobIsSettled | internal/backgroundjobs/reconcile.go:72-247 | What a successful run makes of each job, field by field: an enabled job without a schedule ID or an install ID, or with a hash known to differ, is installed and records the ID the scheduler gave, the install ID and the hashes; any other enabled job is untouched; a disabled one loses its schedule; valid orphans go |
| Reconcile.CountsAreExact | internal/backgroundjobs/reconcile.go:180-216 | The numbers reported by a successful run are those of the jobs and schedules that called for each kind of action |
| Reconcile.OneAction | internal/backgroundjobs/reconcile.go:219-247 | What one action does under any failure: when it succeeds, what a success and a failure leave behind, and that nothing else is touched |
| Reconcile.OneMoreCounted | internal/backgroundjobs/reconcile.go:187-213 | Each action is counted under its kind if it succeeds and recorded among the errors if not |
| Reconcile.Reconciler.ReconcileSchedules | internal/backgroundjobs/reconcile.go:52-68 | A whole run in which every call succeeds settles every job and returns the exact numbers; a dry run returns the same numbers and changes nothing |
| Reconcile.DriftIsDetected | internal/backgroundjobs/reconcile.go:136-161 | After an install, a job is installed again exactly when the configuration hash or the hash of its schedule is known to have changed |
| Reconcile.EveryActionIsCounted | internal/backgroundjobs/reconcile.go:164-216 | For any failures, the counts and the errors add up to the number of actions, no count exceeds that of the dry run, and without errors they are equal |
| Reconcile.ActionsAreWanted | internal/backgroundjobs/reconcile.go:72-132 | The computed actions are exactly the needed installs, the disabled removals and the valid orphans |
| Reconcile.ApplyAllExact | internal/backgroundjobs/reconcile.go:180-216 | Conflict-free actions that succeed have an effect that does not depend on their order |
| Reconcile.ComputeReconcileActions | internal/backgroundjobs/reconcile.go:72-161 | Actions in the order of the iterations: an install for each enabled job never installed or outdated, a removal for each disabled job with a schedule ID, and one for each valid schedule without a job; a failing listing costs the last kind only |
| Reconcile.Reconciler.ApplyReconcileActions | internal/backgroundjobs/reconcile.go:180-216 | The actions are carried out in order up to a cancellation, with failures recorded and passed over |
| Reconcile.Reconciler.DryRunResult | internal/backgroundjobs/reconcile.go:164-177 | Counts by kind |
| Reconcile.Reconciler.InstallJob | internal/backgroundjobs/reconcile.go:219-247 | A schedule is installed and then recorded, and what remains when either half fails |
| Reconcile.Reconciler.SelfRepair | internal/backgroundjobs/reconcile.go:252-295 | Touches no other job; does nothing for a job that is disabled or in order; otherwise succeeds exactly when nothing fails, and then the job is installed and its record is the fresh one |
| RunHistory.NewestAreKept | internal/backgroundjobs/runs.go:53-182 | After any sequence of appends, appends cut off by a crash, and prunings that keep at least n: the history can be listed exactly when no line has become too long; then the list is strictly newest first and headed by the n newest of the runs that survived the crashes, which are told from the operations alone |
| RunHistory.NoCrashNoLoss | internal/backgroundjobs/runs.go:53-85 | Without a crash every run survives, and the file can be read exactly when every record fits |
| RunHistory.CrashCostsTwo | internal/backgroundjobs/runs.go:217-252 | Over a whole history, each crash in an append costs at most two runs |
| RunHistory.SafeForever | internal/backgroundjobs/runs.go:217-252 | A run whose line was finished is never lost to a later crash in an append |
| RunHistory.CrashInPrune | internal/backgroundjobs/runs.go:141-160 | A crash while pruning rewrites the file leaves exactly the newest runs that were already written, and loses others that were to be kept |
| RunHistory.PruneKeepsNewest | internal/backgroundjobs/runs.go:122-182 | Pruning keeps exactly the newest and returns exactly the number of records dropped |
| RunHistory.AppendedIsListed | internal/backgroundjobs/runs.go:53-85 | An appended run is listed if and only if its record is within the scanner's line length and the file did not end in a torn line |
| RunHistory.CrashLosesNextRun | internal/backgroundjobs/runs.go:217-252 | After a write cut off by a crash the next run that is appended is not listed |
| RunHistory.OversizedRecordBlocks | internal/backgroundjobs/runs.go:229-244 | One line beyond the scanner's length makes every later listing and pruning fail |
| RunHistory.NewestIsSorted | internal/backgroundjobs/runs.go:246-249 | The listing is strictly newest first and holds each record once |
| RunHistory.OnlyOneOrder | internal/backgroundjobs/runs.go:246-249 | There is only one such order |
| RunHistory.CountCoversList | internal/backgroundjobs/runs.go:186-208 | The line count is at least the number of runs listed, with equality exactly when no line is malformed |
| RunHistory.RunStore.Append | internal/backgroundjobs/runs.go:53-85 | Adds a record behind the last line, or into a torn one; a held lock file leaves everything as it was |
| RunHistory.RunStore.ReadRuns | internal/backgroundjobs/runs.go:217-252 | Skips empty and malformed lines and fails on a line that is too long |
| RunHistory.RunStore.Latest | internal/backgroundjobs/runs.go:97-109 | The head of the list |
| RunHistory.RunStore.Prune | internal/backgroundjobs/runs.go:122-182 | Rewrites the file with the newest runs, or leaves it; other jobs are untouched; a negative count panics |
| RunHistory.RunStore.Count | internal/backgroundjobs/runs.go:112-117 | Counts the lines that are not empty |
| Phase1.ModesAgree | internal/analyzer/orchestrator_chunked.go:144-238 | When replies depend on the chunk alone and no call fails, the two modes give the same mistakes and count without an error if and only if every parsed reply but the last has a summary |
| Phase1.UnionIsExact | internal/analyzer/orchestrator_chunked.go:212-234 | Each category holds the mistakes of the parsed replies in the order of the chunks, and the count is full exactly when every chunk ran and parsed |
| Phase1.NothingLost | internal/analyzer/orchestrator_chunked.go:50-53 | The final list holds exactly the mistakes of the parsed replies, each as often as reported |
| Phase1.ParallelComplete | internal/analyzer/orchestrator_chunked.go:52-53 | In parallel, Phase1Complete holds if and only if every chunk ran and parsed |
| Phase1.SequentialComplete | internal/analyzer/orchestrator_chunked.go:144-182 | In sequence, if and only if every chunk ran and parsed and all but the last had a summary to hand on |
| Phase1.SequentialExactly | internal/analyzer/orchestrator_chunked.go:144-182 | The first chunk that fails or has no summary to hand on decides the error and the last warnings of the sequential mode; mistakes, count and all other warnings are those of the chunks before it |
| Phase1.RunPhase1Sequential | internal/analyzer/orchestrator_chunked.go:144-182 | The loop with its three early returns |
| Phase1.RunPhase1Parallel | internal/analyzer/orchestrator_chunked.go:184-238 | For every finishing order, and whatever replies come after a rate limit cancels the group, the slots written by the goroutines are collected in the order of the chunks; without a rate limit the result is the same for every finishing order |
| Phase1.RepliesByFinish | internal/analyzer/orchestrator_chunked.go:188-213 | Every goroutine finds its own reply, unless one that finished before it met a rate limit |
| Phase1.SchedulesArePermutations | internal/analyzer/orchestrator_chunked.go:188-213 | The finishing orders considered are exactly the permutations of the chunks |
| Phase1.WarningsAreExact | internal/analyzer/orchestrator_chunked.go:215-238 | In parallel there is one warning for each chunk that failed, could not be parsed or had a blank summary, besides those of the parsed replies |
| Phase1.MergeMistakes | internal/analyzer/orchestrator_chunked.go:304-308 | Appends per category, independently of the iteration order |
| Phase1.ParsePhase1Response | internal/analyzer/promptbuilder.go:207-237 | Keeps those mistakes and warns exactly once about each reported category whose last pack is missing or disabled, independently of the iteration order |
| Phase1.KeptExactly | internal/analyzer/promptbuilder.go:189-234 | Under a category whose last pack is enabled, the reported mistakes that have a summary and reach that pack's threshold are kept one by one, in order, with their texts trimmed and under their own category if they have one |
| Phase1.KeptOnlyIfEnabled | internal/analyzer/promptbuilder.go:217-234 | Under any other category nothing is kept, and no category is kept empty |
| Phase1.OrderedByCategory | internal/analyzer/promptbuilder.go:303-314 | The categories one after another |
| Phase1.OrderedExactly | internal/analyzer/promptbuilder.go:303-314 | The mistakes of each category stand between those of the categories before and after it |
| Phase1.OrderedMerge | internal/analyzer/promptbuilder.go:303-314 | Ordering a union gives all the mistakes of both parts |
| LogTail.PrintLogFile | cmd/jobs_logs.go:128-166 | The circular array prints exactly the last min(tail, n) lines in order; everything for a tail that is not positive; nothing when a tailed scan fails |
| LogTail.FillRing | cmd/jobs_logs.go:141-151 | Each slot ends up with the latest line that belongs there |
| LogTail.ReadOut | cmd/jobs_logs.go:156-165 | The modular read-out visits the kept lines in order |

## Left out

- PermissionBypass: goto, jumps to labels and function literals are not in the statement language, nor are writes through pointers kept in variables; conditions other than `sandbox.Available()` and its combinations, comparisons with a switch tag, the number of rounds of a range loop and panics may go either way; the literals of a statement are given as the posture fields they set, and those inside conditions are left out. The package filter and the report texts are not modelled.
- LateMutation: the fragment has no closures, goto, labelled jumps, pointer-receiver calls, promoted fields behind an embedded pointer or panics, every field is one level deep, every switch has guards evaluated in order and no default, and shadowed names are taken to be renamed apart.
- LateMutation.ReportedWritesAreDead: requires that no variable written in a post statement is read by that loop's condition or post statement, and that no field of a written variable has its address taken or is sliced, because the code's claim is false there (LateMutation.PostWriteIsRead, LateMutation.SharedFieldIsRead); the condition is sufficient and not necessary, since whether a value that is read makes a difference depends on the values.
- SessionPool: every session that the factory returns is taken to be new; the results of closing sessions are ignored; contexts are a flag that a step sets.
- PoolProtocol.WaiterCanProceed: gives a schedule that serves the waiter for all answers of the factory and of the sessions' calls, not fairness of the scheduler; the factory and the calls are taken to return.
- CronNext: zones are fixed offsets, of any size; daylight saving, and the conversion of results to UTC, are not modelled.
- CronText: numbers are printed without leading zeros, although the parser accepts other spellings.
- CronNext.ComputeNextCalendarRun: requires a weekday of at most 6, because the loop would not end for any other, and a time of day as the program writes it.
- Interval: 0.8 is taken as exactly four fifths and the seconds of a duration as exact, where the code uses floating point; for durations of at most 23 hours the whole seconds are the same. The duration parser of `--every` is the library's.
- Plist: XML lexing, escaping and attribute handling are the library's; the fields that no code reads back are not modelled; the writer's errors are those of the encoder and are left out. A nil list and an empty one are the same.
- StartupCommand.SystemdRoundTrip: undoes quoting only; the later expansion of `%` and `$` in ExecStart is not part of this model.
- JobStore: JSON, backups of older files and the inside of the lock file are not modelled; a lock attempt may fail for any reason, and writing the file is one atomic step.
- StoreProtocol: a crashed process, and the clean-up of the lock file it leaves, are not modelled.
- Reconcile: timestamps, schedule names and the texts of reasons and errors are left out; the hash of a schedule is any function that may fail; the two configuration hashes are taken to agree for the second run.
- Reconcile.Confluent: is about the case in which the system's schedules could be listed; otherwise there are no orphan actions, and the remaining ones are covered by Reconcile.ApplyAllExact.
- Reconcile.Reconciler.ReconcileSchedules: states the run in which every call succeeds and the schedules could be listed; what failures do is stated action by action (Reconcile.OneAction, Reconcile.OneMoreCounted).
- RunHistory: start times are taken to differ, since the order of equal ones is unspecified; a crash in the rewriting by Prune is stated by itself (RunHistory.CrashInPrune) and is not an operation of the histories, which may begin with what it leaves; the log files of pruned runs are not modelled.
- Phase1: prompts, captures, session handling, phase two and the code-fence and JSON decoding of replies are left out; confidences are real numbers, which JSON makes of them, so the NaN branch cannot be taken; clamping of summaries is part of the reply.
- LogTail: a line beyond the scanner's limit is a failure of the scan.
- Suggest: the listing of commands and flags by the command library is an input.
- Everything else in the repository -- user interface, providers, web, updates, permissions on disk, health reports -- is outside the project.
