# llama_proxy: models and proofs

Dafny models of the parts of llama_proxy where something can go wrong between steps: the process
scheduler's switch protocol, failover over the weighted balancer, the connection-string printer
and parser, response streaming and its metadata, the event hub, the cached pool membership, the
request filter's SQL, and the JSON highlighter. `dafny verify dfyconfig.toml` checks everything.

| file | models | main results |
|---|---|---|
| Scheduler, SchedulerProtocol, SchedulerMachine | scheduler.go: the mutex's critical sections as a class, and all interleavings of them | over any run the object driven by its goroutines goes through exactly the protocol's states |
| SchedulerSafety, SchedulerReady, SchedulerUsable, SchedulerRuns, SchedulerStuck | what every run keeps | close at most once, exclusive switches, when a ready scheduler strands its waiters, when a closed channel disappoints them, what alone ends a coding mode that lost its process |
| SchedulerRecovery | reconcile, lease tick, readiness of the background | what each brings about from any reached state, in either mode |
| SchedulerResources | processes and log files | each in exactly one place, none overwritten, none closed twice |
| Strategy, Interleaving, Balancer | balancer.go over a contract for the strategy library, with draws of other requests in between | two reference strategies keep the contract; nothing found exactly when all are excluded, and how many draws of others that bears |
| Failover | proxy.go: selectBackend, the retry loop | 200 exactly when some member gives 200 (`HandleCyclicPool`); under any updates and draws of others nothing twice |
| PoolSync | pool.go | the flag-guarded sync refines always rebuilding |
| Dsn | database.go | parsing undoes printing, exactly when |
| Copy, Meta | proxy.go's copy loops, meta.go | prefixes, bounded capture, chunk counts that do not depend on slicing; the metadata fold |
| Hub | events.go | no panic, in-order delivery |
| TimeText, CalendarText, SqlText, SqlMeaning, FilterSql | store.go's filter | placeholders aligned; the text added, read back, means the filter; exactly when that is what the user typed |
| Highlight | utils.js | nothing is lost, every line numbered once |
| Common, Text | shared notions, Go's string functions | |

A class stands where the program updates fields; each of its methods states its effect on the
fields and is proved equal to a function on the state, and the theorems are about those functions.
A function that a method and its specification share has a lemma beside it that says what it is in
other terms: by the characters, bytes and literals themselves, or by all texts of a given form
(the lemmas named `...Exactly` and `...Is`). `Machine` drives the scheduler's
sections through runs of the protocol, and has `ensureTarget`, `EnsureCoding` and `reconcileReady`
as the program's own sequences of sections with other goroutines acting in between. One critical section of the
scheduler's `mu` is one atomic step, and so is one step outside the lock; any number of requests,
reconciles, lease ticks, reapers, shutdowns and touches run in any order. The program runs its
ticks one after the other, so its runs are among the modelled ones; the runs given as
counterexamples need one reconcile and no lease tick.

Seven promises turned out to hold under a condition only, and the condition is proved exact:

* "A ready scheduler never strands its waiters" (scheduler.go:329-333). `reconcileReady` commits
  what it learned before it released the lock. When a switch has published in between, ready can
  be set while the current channel is open and nobody will close it. `StrandingRun` shows such a
  run from the start, `StrandedExactly` that an exit of the process or a switch to the other mode
  and nothing else ends it, `ReadyNeverStrandsExactly` that no other kind of step does it.
* "A closed channel means the coding process is usable" (scheduler.go:124-125). Five kinds of step
  end it and no other (`ClosedMeansReadyExactly`, `AlwaysUsableExactly`): a close while readiness is
  gone, after a failed start, by a switch or by a reconcile, and a failed wait or an exit of the
  process behind a closed channel. `DisappointingRun` is a run without a failed start: a reconcile
  finds the process ready and closes the channel, then the switch gives up waiting.
* "The time window selects the rows in it." SQLite keeps RFC 3339 texts without trailing zeros of
  the fraction and compares them as texts. `TextOrderExactly`: right exactly when the two times do
  not lie in one second with one fraction a proper beginning of the other. A window that starts on
  a whole second loses the rows of that second with a fraction (`WholeSecondStartLosesRow`); every
  bound misplaces some row of its own second (`EveryBoundMisplacesARow`).
* "A text filter selects the rows containing the text." `PatternExactly`: exactly when the text
  holds no `%`, `_` or, on Postgres, `\`.
* "Parsing a printed connection string gives the same map." `RoundTripExactly`: for trimmed keys
  without `=`, quotes and spaces, exactly when each value either holds a space, quote or backslash
  (then it is quoted) or has no white space at its ends.
* "One cycle of draws covers every node" (balancer.go:247-249). The read lock lets other requests
  draw from the same pool within a call. `NothingLeftExactly`: against f such draws
  `selectExcluding` is right exactly when every member comes more than f times in the next
  limit + f draws. For round-robin over n members that is (limit + f) / n > f
  (`RoundRobinFindsExactly`), so with two or more backends of the default weight 1 it is f = 0
  (`DefaultWeightsFindExactly`): `OneForeignDrawLosesMember` has one draw of another request hide
  the one backend left. Under smooth weighted round-robin a backend bears fewer draws of others
  than its weight (`SmoothSurvives`, `SmoothIsRobust`). Selections of others between two calls do no harm.
* "The final total of `parseSSEResponseMeta` changes nothing." `FallbackMattersExactly`: it changes
  the result exactly when no event has a positive total and some event has a positive count. With
  non-negative counts that never happens (`FallbackChangesNothing`); with a negative one it can.

One consequence of `EnsureCoding` (scheduler.go:135-139) stands beside these: in coding mode with a
channel no request asks for a switch. When the coding process has exited or was given up on and no
switch waits its turn, only a probe that succeeds, a lease tick after the lease has run out, or Start ends that state
(`AbandonedRunsExactly`); when it failed to start, only the lease tick or Start
(`DeadExactly`, `DeadIsReached`), and every request renews the lease (proxy.go:386).

## Model

| member | source | states |
|---|---|---|
| SchedulerSections.Scheduler.EnsureCodingLook | internal/scheduler/scheduler.go:128-141 | in coding mode, ready or with a channel, the caller gets the current channel; otherwise a switch is needed |
| SchedulerSections.Scheduler.StopTake | internal/scheduler/scheduler.go:421-426 | takes command and log file, leaves both empty and the rest alone |
| SchedulerSections.Scheduler.ShutdownTake | internal/scheduler/scheduler.go:101-105 | takes the log file, keeps the command |
| SchedulerSections.Scheduler.Publish | internal/scheduler/scheduler.go:281-287 | mode, readiness, channel and closed flag change together |
| SchedulerSections.Scheduler.WaitFailed | internal/scheduler/scheduler.go:309-316 | only readiness changes; the channel stays open |
| SchedulerSections.Scheduler.SetReady | internal/scheduler/scheduler.go:318-323 | ready, and the lease renewed for coding only |
| SchedulerSections.Scheduler.MarkReadyClosed | internal/scheduler/scheduler.go:334-348 | closes exactly the current channel, exactly if not closed yet |
| SchedulerSections.Scheduler.ReconcileCommit | internal/scheduler/scheduler.go:379-386 | sets ready whatever mode and channel are by then |
| SchedulerSections.Scheduler.Reap | internal/scheduler/scheduler.go:448-455 | an exit counts only for the current command |
| SchedulerMachine.Machine.Act | internal/scheduler/scheduler.go:100-455 | any goroutine's next step, carried out by the object's own critical sections, takes the whole state to the protocol's next state |
| SchedulerMachine.Machine.Perform | internal/scheduler/scheduler.go:100-455 | so for whole runs: the object is in the state the protocol reaches, whatever the interleaving |
| SchedulerMachine.Machine.EnsureTarget | internal/scheduler/scheduler.go:248-327 | the whole method, others acting before each section: together a run of the protocol; it ends as start and readiness of the process decide; a switch that became ready, or whose start failed, returns a channel it made itself, closed |
| SchedulerMachine.Machine.StopProcess | internal/scheduler/scheduler.go:420-444 | takes process and log file in one section, kills and closes outside it: a run whatever others do in between |
| SchedulerMachine.Machine.EnsureCoding | internal/scheduler/scheduler.go:128-145 | the caller gets the current channel at once, or a switch's; a channel from a switch that became ready is closed |
| SchedulerMachine.Machine.ReconcileReady | internal/scheduler/scheduler.go:353-387 | look, probe, commit and close, with others acting in between: a run of the protocol; undisturbed, in either mode: with a process and not ready a successful probe makes ready and closes the current channel, otherwise nothing changes |
| SchedulerSafety.ClosesOnlyCurrent | internal/scheduler/scheduler.go:329-348 | a step closes nothing, or the current channel, open until then: a stale close does nothing |
| SchedulerSafety.ChannelsKept | internal/scheduler/scheduler.go:281-287 | every step keeps: no channel closed twice, the flag is true exactly when the current channel is closed |
| SchedulerSafety.ExclusiveKept | internal/scheduler/scheduler.go:248-251 | every step keeps: the one goroutine inside a switch holds switchMu |
| SchedulerSafety.BusyKept | internal/scheduler/scheduler.go:280-326 | every step keeps: from publication to return a switch's channel is the current one |
| SchedulerSafety.EndingsKept | internal/scheduler/scheduler.go:289-326 | every step keeps: a switch that became ready, or whose start failed, returns a closed channel |
| SchedulerSafety.ProtocolKept | internal/scheduler/scheduler.go:248-387 | the safety invariants together, over every step of every goroutine |
| SchedulerSafety.AnswersKept | internal/scheduler/scheduler.go:280-326 | whoever answers for a channel goes on answering until it is closed |
| SchedulerSafety.OpenAnsweredKept | internal/scheduler/scheduler.go:280-326 | every step keeps: an open channel has a switch working on it or one that gave up on it |
| SchedulerReady.AfterPublicationKept | internal/scheduler/scheduler.go:353-360 | every step keeps: readiness, processes and probes exist only after a publication |
| SchedulerReady.NoStrandExactly | internal/scheduler/scheduler.go:353-387 | a step breaks "ready means closed or about to be closed" if and only if it commits an overtaken probe against an open channel nobody is closing |
| SchedulerReady.RunsKeepInvariant | internal/scheduler/scheduler.go:248-455 | every run from the start, of any length and interleaving, keeps the invariants |
| SchedulerReady.ReadyNeverStrandsExactly | internal/scheduler/scheduler.go:329-387 | a whole run never strands if and only if it has no such commit |
| SchedulerReady.UnovertakenRunsNeverStrand | internal/scheduler/scheduler.go:353-387 | without a publication between a probe's look and its commit, ready never strands |
| SchedulerUsable.ClosedMeansReadyExactly | internal/scheduler/scheduler.go:124-125 | a step breaks "the current channel is closed only while ready" if and only if it is one of five kinds: a close without readiness after a failed start, a switch or a reconcile, or a failed wait or an exit behind a closed channel |
| SchedulerUsable.AlwaysUsableExactly | internal/scheduler/scheduler.go:124-125 | a whole run keeps it if and only if it has no such step |
| SchedulerUsable.DisappointingRun | internal/scheduler/scheduler.go:309-316 | a run from the start with the coding channel closed, the process there and the scheduler not ready |
| SchedulerRuns.SwitchesInAnyRun | internal/scheduler/scheduler.go:245-327 | in any run: at most one switch at a time; ready switches return closed channels; a superseded open channel belongs to a switch that gave up |
| SchedulerRuns.CloseOnceInAnyRun | internal/scheduler/scheduler.go:329-348 | in any run no channel is closed twice and the flag is true exactly when the current one is closed |
| SchedulerRuns.SupersededIsFinal | internal/scheduler/scheduler.go:334-348 | from any state on, a superseded channel stays as it is for ever |
| SchedulerRuns.StrandedStays | internal/scheduler/scheduler.go:128-141 | a stranded scheduler stays stranded under every step but two, and its waiters can only give up |
| SchedulerRuns.StrandedExactly | internal/scheduler/scheduler.go:353-360 | a step ends the stranded state if and only if it is an exit of the process or a switch to the other mode |
| SchedulerRuns.SwitchTimesOut | internal/scheduler/scheduler.go:306-316 | from any reached state with switchMu free, a switch waiting its turn to a mode that is not there can run to the timeout, leaving its channel open |
| SchedulerRuns.SwitchSucceeds | internal/scheduler/scheduler.go:318-326 | from the same states it can run to readiness, to either mode, closing its channel |
| SchedulerRuns.OvertakenCommitStrands | internal/scheduler/scheduler.go:378-386 | from any reached state with an overtaken probe and an idle open channel the commit strands |
| SchedulerRuns.StrandingRun | internal/scheduler/scheduler.go:353-387 | a run from the start that strands the coding mode: the unconditional promise is false |
| SchedulerStuck.AbandonedExactly | internal/scheduler/scheduler.go:128-141 | in coding mode, not ready, no switch pending: a step ends that if and only if a probe succeeds, a lease tick finds the lease run out, or Start asks for the background |
| SchedulerStuck.AbandonedRunsExactly | internal/scheduler/scheduler.go:128-141 | over whole runs from there: it lasts if and only if no such step comes, and meanwhile nothing is published or started |
| SchedulerStuck.AbandonedStep | internal/scheduler/scheduler.go:135-139 | a request then gets the old channel and asks for no switch |
| SchedulerStuck.DeadExactly | internal/scheduler/scheduler.go:353-358 | without a process or probe: only the lease tick or Start ends it |
| SchedulerStuck.DeadIsReached | internal/scheduler/scheduler.go:295-299 | a run from the start reaches it: a coding command that does not start |
| SchedulerResources.NothingOverwrittenKept | internal/scheduler/scheduler.go:268-305 | every step keeps: a command or log file is stored only where none is |
| SchedulerResources.ProcMoves | internal/scheduler/scheduler.go:295-305 | what a step may do to processes: start one, store it, take it, hand it over, each one place to one place |
| SchedulerResources.ProcsConservedKept | internal/scheduler/scheduler.go:420-438 | every step keeps: each started process is in exactly one of the current command, the switch, the stopped ones |
| SchedulerResources.FileMoves | internal/scheduler/scheduler.go:100-112 | what a step may do to log files: open, store, take, close, each one place to one place |
| SchedulerResources.FilesApartKept | internal/scheduler/scheduler.go:439-441 | every step keeps: no file in two hands, none closed twice |
| SchedulerResources.FilesFoundKept | internal/scheduler/scheduler.go:271-279 | every step keeps: no opened file is lost |
| SchedulerResources.ResourcesInAnyRun | internal/scheduler/scheduler.go:248-455 | all of this at every moment of every run |
| SchedulerRecovery.ReconcileRecovers | internal/scheduler/scheduler.go:353-387 | from any reached state, in either mode, with a process and not ready: look, successful probe and close make ready, close the current channel and change nothing else |
| SchedulerRecovery.TickExactly | internal/scheduler/scheduler.go:235-242 | a tick asks for a switch to the background if and only if the mode is coding and the last request is at least a lease old, and changes no field |
| SchedulerRecovery.RequestKeepsLease | internal/scheduler/scheduler.go:148-152 | a tick after a request asks for the background only when a lease has passed since that request |
| SchedulerRecovery.SwitchWithoutCommand | internal/scheduler/scheduler.go:289-326 | from any reached state with switchMu free, a switch to a mode that is not there and has no command can run to readiness without starting anything, its channel closed |
| SchedulerRecovery.SwitchFindsItThere | internal/scheduler/scheduler.go:253-260 | a switch to a mode that is ready changes nothing and hands out the current channel |
| SchedulerRecovery.ModeInAnyRun | internal/scheduler/scheduler.go:280-326 | in any run a switch between publication and return finds its own mode set, so readiness is of that mode |
| SchedulerRecovery.BackgroundReadyExactly | internal/scheduler/scheduler.go:197-204 | a step makes the background ready if and only if a switch sets it ready or a probe of it succeeds, in background mode |
| Strategy.TotalWithin | internal/balancer/balancer.go:254-259 | a sub-pool weighs no more than the full pool, so the limit bounds every tag's cycle |
| Strategy.SortedNames | internal/balancer/balancer.go:148-155 | all names, each once, in strictly ascending order |
| Strategy.SortedUnique | internal/balancer/balancer.go:147-155 | that order does not depend on the map's iteration |
| Strategy.RoundRobinCovers | internal/balancer/balancer.go:138-139 | round-robin over n names draws each in any n consecutive draws |
| Strategy.FullCycle | internal/balancer/balancer.go:134-135 | smooth weighted round-robin: after W picks each node was taken its weight of times and the values are back at zero |
| Strategy.SmoothIsExact | internal/balancer/balancer.go:247-249 | the same in every window of W consecutive picks, wherever it starts |
| Strategy.RoundRobinLawful | internal/balancer/balancer.go:247-249 | round-robin keeps the contract: one cycle of the weights' sum covers every node |
| Strategy.SmoothLawful | internal/balancer/balancer.go:247-249 | smooth weighted round-robin keeps the contract |
| Strategy.TotalOf | internal/balancer/balancer.go:254-259 | the total is the sum of the positive weights: each node adds its own, one of 0 or less nothing |
| Interleaving.SurvivesExactly | internal/balancer/balancer.go:263-264 | m own draws meet a name whatever others do with at most f draws in between, if and only if it comes more than f times in the next m + f draws |
| Interleaving.RoundRobinSurvivesExactly | internal/balancer/balancer.go:247-249 | for round-robin over n names: every name is met from every position if and only if (m + f) / n > f |
| Interleaving.OneRoundSurvivesExactly | internal/balancer/balancer.go:247-249 | with as many own draws as names, two or more: if and only if nobody draws in between |
| Interleaving.SmoothSurvives | internal/balancer/balancer.go:247-249 | under smooth weighted round-robin a node is met in spite of fewer draws of others than its weight |
| Balancing.ReferencesAreLawful | internal/balancer/balancer.go:132-145 | a library of these strategies keeps the whole contract, so it can be kept |
| Balancing.TagsExactly | internal/config/config.go:173-184 | a backend belongs to a tag if and only if the tag is tool_call and its flag is set, or the tag is not empty and one of its tags without white space around |
| Balancing.Balancer.constructor | internal/balancer/balancer.go:28-35 | a new balancer holds what a rebuild from its list gives, every pool under the strategy the configuration names |
| Balancing.Balancer.NewStrategyBalancer | internal/balancer/balancer.go:132-145 | the strategy named, any unknown name the weighted round-robin; names sorted where the library takes names |
| Balancing.Balancer.Update | internal/balancer/balancer.go:37-61 | replaces backends, full pool and all tag pools by those of the list: with distinct names a name is in the pool for a tag if and only if a backend of that name has the tag by its flag or its list; of one name the last entry counts, at its weight |
| Balancing.ByTagAt | internal/balancer/balancer.go:45-55 | with distinct names a backend is in a tag's pool exactly when it carries the tag, at its own weight |
| Balancing.PoolForTagExactly | internal/balancer/balancer.go:45-55 | on the configuration: with distinct names a name is in the pool for a tag if and only if some backend of that name has the flag and the tag is tool_call, or lists the tag |
| Balancing.LastCounts | internal/balancer/balancer.go:40-48 | of several entries of one name the last counts |
| Balancing.TagPoolsHaveNodes | internal/balancer/balancer.go:49-61 | no tag pool is empty |
| Balancing.PoolOfMembers | internal/balancer/balancer.go:57-61 | a pool's nodes are the tagged members, it exists exactly when there are some, and its cycle is within the try limit |
| Balancing.Balancer.SelectFrom | internal/balancer/balancer.go:158-184 | the backend the strategy names next; that strategy moves on by one, nothing else changes |
| Balancing.DrawnIsMember | internal/balancer/balancer.go:158-184 | a plain selection is a member of the pool, and none exactly when there is none |
| Balancing.DrawnIsTagged | internal/balancer/balancer.go:158-184 | with distinct names it is a backend of the list that has the tag |
| Balancing.Balancer.MaxTries | internal/balancer/balancer.go:254-262 | the sum of the positive weights, or the number of backends |
| Balancing.Balancer.FindFit | internal/balancer/balancer.go:250-275 | the first fitting own draw within the limit, whatever others draw in between, and how far the strategy moved |
| Balancing.NothingLeftExactly | internal/balancer/balancer.go:247-275 | against f draws of others within a call: none is found only when every member is excluded, if and only if every member comes more than f times in the next limit + f draws |
| Balancing.NothingLeft | internal/balancer/balancer.go:250-275 | for one call: when every member comes more than f times in the next limit + f draws and others draw at most f times in between, none is found if and only if every member is excluded |
| Balancing.CyclicIsRobust | internal/balancer/balancer.go:247-249 | a cyclic strategy has that property from every position when nobody draws in between |
| Balancing.RoundRobinIsRobustExactly | internal/balancer/balancer.go:247-249 | round-robin has it from every position against f draws of others if and only if (limit + f) / members > f |
| Balancing.SmoothIsRobust | internal/balancer/balancer.go:247-249 | smooth weighted round-robin has it against fewer draws of others than any member weighs |
| Balancing.RoundRobinFindsExactly | internal/balancer/balancer.go:250-275 | so selectExcluding under round-robin is right against f draws of others if and only if (limit + f) / members > f |
| Balancing.DefaultWeightsFindExactly | internal/balancer/balancer.go:250-275 | with two or more backends, all of weight 1: if and only if f is 0 |
| Balancing.OneForeignDrawLosesMember | internal/balancer/balancer.go:263-274 | two backends of weight 1, the first excluded: one draw of another request between the two draws and nothing is found |
| Balancing.Balancer.SelectExcluding | internal/balancer/balancer.go:226-275 | with any draws of others in between: never an excluded or untagged backend, under any strategy; none exactly when all members are excluded, whenever the strategy bears that many draws of others |
| Failover.SelectBackend | proxy.go:404-455 | the first candidate is the backend drawn, at its address without slashes at the end; it is refused as invalid if and only if that has neither scheme in front (a fixed target only where its address is checked), and for want of a backend exactly when there is no member |
| Failover.ValidURLExactly | internal/config/config.go:341-349 | an address is valid if and only if it begins with http:// or https:// |
| Failover.NextBackend | proxy.go:412-441 | after any updates and selections: a member of the current pool not tried yet, and none exactly when all were tried if the strategy bears the draws of others within the call |
| Failover.HandleProxy | proxy.go:79-174 | under any pool updates, selections and draws of others: ends, tries no name twice, reports every failure in order, stays within the rule's tag and the names ever in a pool; without updates, and with as many draws of others as the strategy bears, tries members only, at their addresses, and gives up only after all |
| Failover.ThoroughAnswersExactly | proxy.go:75-174 | a thorough story in which every member can be sent to: 200 if and only if some member answers 200; if all fail, a report with every member exactly once |
| Failover.HandleFixedPool | proxy.go:75-174 | without updates, and with as many draws of others as the strategy bears: the client gets a 200 if and only if some member answers 200; if all fail, a report with every member exactly once |
| Failover.HandleCyclicPool | proxy.go:75-174 | the same under every cyclic strategy, whatever other requests select between this one's selections |
| Failover.DistinctKeysFit | proxy.go:81-157 | no more attempts than names |
| PoolSync.Server.SyncLocalBackendNode | pool.go:55-81 | the flag is whether the scheduler's mode is the background and ready; the pool is that of the static backends, with the local node behind them exactly then and if it has an address; unchanged when the flag does not change |
| PoolSync.Server.Serve | pool.go:55-95 | whatever the scheduler's goroutines do between syncs and selections, all pools are those a rebuild from scratch at the last sync would give, some selections later |
| PoolSync.SyncFollowsMode | pool.go:55-81 | after a sync the local node is a member if and only if the mode is the background and it is ready |
| PoolSync.LocalNodeJoins | pool.go:55-81 | a run of Start brings the background up, and a sync then puts the node in |
| PoolSync.LocalNodeStaysOut | pool.go:55-95 | from where the background is not ready, a coding switch's publication say, every sync leaves the node out until a background switch becomes ready or a probe of it succeeds |
| PoolSync.LocalNodeMembership | pool.go:64-79 | the local node is a member exactly when ready, with an address and the tag; the static members stay |
| Dsn.SplitDSNFields | internal/db/database.go:265-287 | splits at spaces outside quotes |
| Dsn.FieldsExactly | internal/db/database.go:265-287 | a field is what stands behind a run of spaces up to a space where its quotes are closed, or up to the end |
| Dsn.ParsePostgresKV | internal/db/database.go:238-262 | the parsed map of a key=value string, or, for a text with ://, of the URL's map printed and read again; no map for a field without = |
| Dsn.ParseFieldExactly | internal/db/database.go:248-259 | key and value at the first =, white space around both dropped, a quoted value without its quotes and with doubled quotes halved |
| Dsn.ParseFieldsExactly | internal/db/database.go:246-262 | no map if and only if a field has no =; otherwise the map's keys are the fields' |
| Dsn.LaterWins | internal/db/database.go:260 | of several fields with one key the last one counts |
| Dsn.HasSchemeExactly | internal/db/database.go:239 | a URL is a text with :// anywhere in it |
| Dsn.PrintKV | internal/db/database.go:226-233 | the fields of the map, each once, in some order |
| Dsn.PrintFieldExactly | internal/db/database.go:228-231 | a value is quoted, its quotes doubled, if and only if it holds a space, a quote or a backslash |
| Dsn.UndoubleExactly | internal/db/database.go:258 | of a run of quotes every pair becomes one, an odd last one stays; nothing else changes |
| Dsn.UndoubleDouble | internal/db/database.go:229 | halving doubled quotes gives the text back |
| Dsn.DoubledCollected | internal/db/database.go:265-287 | a doubled text inside quotes never ends the field, whatever follows |
| Dsn.SplitJoined | internal/db/database.go:186-193 | splitting the joined fields gives the fields back |
| Dsn.PrintedReads | internal/db/database.go:186-262 | what reading a printed map gives, in any printing order |
| Dsn.RoundTripExactly | internal/db/database.go:186-287 | the same map if and only if every value is quoted by the printer or trimmed |
| Dsn.PgAdminDSN | internal/db/database.go:177-194 | prints the parsed options with the database replaced by postgres |
| Dsn.PgDatabaseName | internal/db/database.go:164-173 | dbname if set and not empty, otherwise database, otherwise nothing |
| Dsn.ParsedKeys | internal/db/database.go:246-262 | a parsed key prints well exactly when it holds no quote |
| Dsn.AdminReadBack | internal/db/database.go:177-194 | the maintenance DSN is no URL and names postgres; the other options survive if and only if each value is quoted or trimmed |
| Dsn.AdminOfText | internal/db/database.go:162-194 | the same starting from the text of a connection string |
| Copy.LimitedBuffer.Write | internal/meta/meta.go:25-39 | accepts everything; the buffer is the first max bytes ever offered, everything for max of 0 or less |
| Copy.StreamCopy | proxy.go:558-589 | for any slicing and any failing write: a prefix arrives, copied is its length, the capture its bounded beginning; success only at the end of the body, a read error only where the connection broke; without failing writes success if and only if the body ended, and all of it arrived |
| Copy.LineReader.ReadLine | proxy.go:597 | the next line, whatever the slicing; what was read so far when a hundred reads in a row were empty |
| Copy.StreamCopySSE | proxy.go:592-628 | the same line by line, and the chunk count depends on the bytes only; only a hundred empty reads in a row stop it early |
| Copy.ChunkExactly | proxy.go:604-608 | a line with data: in front counts if and only if what follows, white space aside, is neither empty nor [DONE] |
| Copy.DataChunksExactly | proxy.go:597-609 | the count is that of the lines, each up to and with its newline |
| Meta.FoldIsLastSet | internal/meta/meta.go:150-172 | each field of the fold is the last value set among the events |
| Meta.MergeAssociative | internal/meta/meta.go:150-172 | merging is associative, for all metadata |
| Meta.FoldConcat | internal/meta/meta.go:150-172 | folding a concatenation is merging the folds |
| Meta.TotalMissesNothing | internal/meta/meta.go:138-140 | without negative counts the total is zero only when nothing was counted |
| Meta.FallbackMattersExactly | internal/meta/meta.go:188-190 | the final total changes the result if and only if no event has a positive total and some event has a positive count |
| Meta.FallbackChangesNothing | internal/meta/meta.go:188-190 | without negative counts the final total changes nothing |
| Meta.NegativeCountNeedsFallback | internal/meta/meta.go:188-190 | an event with a negative count where it does |
| Meta.ParseSSEResponseMeta | internal/meta/meta.go:174-191 | the fold over the data lines' documents, a total of zero replaced by prompt plus completion |
| Meta.ScanExactly | internal/meta/meta.go:175-176 | the lines read are what stands before a newline or at the end; one over 65535 bytes ends the reading |
| Meta.PayloadExactly | internal/meta/meta.go:177-184 | a line counts when, white space aside, it is data: and a text that is neither empty nor [DONE] |
| Meta.StreamInParts | internal/meta/meta.go:174-191 | a stream cut behind a line: its metadata is the merge of the parts' |
| Hub.SoundKept | internal/events/events.go:18-50 | no step sends on or closes a closed channel, and every queue stays within 64 |
| Hub.NoRunPanics | internal/events/events.go:18-50 | the same for every run |
| Hub.DeliveryInOrder | internal/events/events.go:35-50 | received then queued is an in-order selection of what was broadcast since subscribing, all of it if the queue was never full |
| Hub.EventHub.Subscribe | internal/events/events.go:18-24 | a new channel joins, the others stay |
| Hub.EventHub.Unsubscribe | internal/events/events.go:26-33 | closes a registered channel once, ignores others |
| Hub.EventHub.Broadcast | internal/events/events.go:35-50 | every registered queue with room gets the message, in whatever order the clients are visited |
| TimeText.FractionOrder | internal/store/store.go:621-626 | of two fractions the proper beginning is the smaller number and the larger text; otherwise texts and numbers agree |
| TimeText.TextOrderExactly | internal/store/store.go:621-626 | for any ordered texts of the seconds: comparing the texts agrees with comparing the instants if and only if the fractions do not clash |
| CalendarText.YearOfIs | internal/store/store.go:621-626 | the year named is the year of the day: the years before it and the days left add up |
| CalendarText.MonthOfIs | internal/store/store.go:621-626 | the same for the month |
| CalendarText.DaysBeforeYear | internal/store/store.go:621-626 | before year z lie 365 z days, one more for each multiple of 4 that is none of 100, or is one of 400 |
| CalendarText.DaysBeforeMonth | internal/store/store.go:621-626 | the days before each month of the year |
| CalendarText.RFC3339Reads | internal/store/store.go:621-626 | the text has the form year-month-dayThour:minute:second, and reading its numbers gives the second back |
| CalendarText.RFC3339IsCalendar | internal/store/store.go:621-626 | the RFC 3339 texts of whole seconds in years 0 to 9999 have 19 characters and are ordered like the seconds |
| CalendarText.StoredOrderExactly | internal/store/store.go:621-626 | so for the texts the store writes: the comparison is right if and only if the fractions do not clash |
| TimeText.WholeSecondStartLosesRow | internal/store/store.go:676-679 | a row half a second after a whole-second start is lost |
| SqlText.ReadConcat | internal/store/store.go:643-702 | conditions written one after the other are read one after the other |
| SqlText.ReadOne | internal/store/store.go:648-651 | a comparison behind AND reads as that comparison |
| SqlText.ReadEither | internal/store/store.go:688-700 | comparisons joined by OR in parentheses read as that disjunction, whatever white space is inside |
| SqlMeaning.SelectsConcat | internal/store/store.go:643-702 | two conjunctions with their arguments one after the other select the rows both select: the arguments stay aligned |
| FilterSql.SaysBoth | internal/store/store.go:644-647 | texts that say m and n, one after the other, say both, with as many placeholders as arguments |
| FilterSql.AppendRequestFilterSQL | internal/store/store.go:643-702 | onto any query: the text added reads as conditions which, their placeholders filled in order with the arguments added, select exactly the rows the set fields mean; it holds one placeholder for each argument |
| FilterSql.PlainInside | internal/store/store.go:648-651 | for a text without special characters the pattern finds exactly the texts containing it |
| FilterSql.PatternExactly | internal/store/store.go:694-700 | and for no other text |
| FilterSql.TimesCompared | internal/store/store.go:676-683 | the engine's comparison of times is that of instants, when they do not clash |
| FilterSql.MeansDescribed | internal/store/store.go:643-702 | with plain texts and no clash the conditions select exactly the rows the user described, for any ordered texts of the seconds |
| FilterSql.MeansDescribedStored | internal/store/store.go:643-702 | the same for the RFC 3339 texts SQLite holds, years 0 to 9999, without that hypothesis |
| FilterSql.EveryBoundMisplacesARow | internal/store/store.go:676-683 | on SQLite every bound, lower or upper, puts some row of its own second on the wrong side |
| Highlight.EscapeStep | frontend/src/utils.js:185-187 | the chain of replacements escapes character by character: no replacement touches an earlier one's entity |
| Highlight.EscapeExactly | frontend/src/utils.js:185-187 | the four characters become their entities wherever they stand, all others stay |
| Highlight.UnmarkRender | frontend/src/utils.js:206-224 | dropping tags and decoding entities gives the tokens' texts back |
| Highlight.ScanString | frontend/src/utils.js:197-205 | the closing quote, escapes skipped, or the end; a key exactly when a colon follows behind white space |
| Highlight.ClosingExactly | frontend/src/utils.js:198-202 | a string literal ends at the first quote no backslash takes with it, or not at all |
| Highlight.Markup | frontend/src/utils.js:189-227 | for every text, unterminated ones too, the scan ends, the markup is that of the text's tokens, and reading it back gives the text |
| Highlight.NothingLost | frontend/src/utils.js:189-227 | the markup of any tokens that tile a text reads back as the text |
| Highlight.LinesKept | frontend/src/utils.js:228-231 | the markup has as many line breaks as the text |
| Highlight.NumberedLines | frontend/src/utils.js:228-231 | numbering adds no line and taking the numbers away gives the markup back |
| Highlight.LineTagExactly | frontend/src/utils.js:230 | a line's tag holds its number in decimal, blanks before it up to three characters |
| Highlight.HighlightJSON | frontend/src/utils.js:189-232 | every line of the text is numbered once, in order; without the numbers the markup is that of the text's tokens and reads back as the text |

## Left out

- Balancing.DrawnIsMember: completeness of the weighted-random and random strategies is what the library contract gives for a single draw; for failover over them only soundness is stated, as a nil result may be spurious.
- Failover.HandleProxy: with a backend name twice in the list only soundness of the failover selections is stated, as a tag pool may then hold a node that no longer carries the tag.
- SchedulerMachine.Machine.Perform: time is a number handed in; drain, kill and startup timeouts are steps that may happen at any moment.
- Dsn.ParsePostgresKV: url.Parse is a given map; texts are sequences of characters, so invalid UTF-8 is not modelled.
- Meta.ParseSSEResponseMeta: JSON decoding is a given function, token sums do not wrap at 64 bits, and times are reals.
- FilterSql.AppendRequestFilterSQL: SQL is read as far as these conditions go, words, AND, OR and parentheses, with no quoted text but the empty one; Postgres keeps times to microseconds, the model exactly.
- Matching of routing rules, header and path rewriting, record-path whitelists: simple predicates.
- Start's once-only flag, the snapshot and activity queries of the scheduler, its address and key getters.
- Waiting of a coding request, and which address and key it then reads in two further critical sections: the code does not fix them across a concurrent switch.
- First-byte timing, flushing, raw capture files, retention clean-up, metrics scraping, statistics SQL, schema migration.
- The HTTP server and client, real processes and signals, the database engines, YAML configuration, and the rest of the Vue frontend.
