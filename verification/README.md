# Verification of Topo's discovery core

This project models the parts of Topo whose correctness rests on more than one function, and
proves what they are for. Each part is a small group of modules.

**Target planning** (`Prefixes`, `Planner`, `PlanTargets`). A target scope names CIDRs and
exclusions; the planner turns it into numbered partitions no wider than a target length, within
a limit. Prefixes are aligned blocks of addresses (section 3.1 of RFC 4632, section 2.3 of
RFC 4291). A plan covers every selected address exactly once and no other; the two recursions
succeed under exact conditions; the plan does not depend on the order or repetition of entries.

**Task leases** (`ControlPlane`, `ControlEffects`, `LeaseInvariant`, `LeaseHistory`,
`LeaseSystem`, `LeaseProgress`, `LeaseGrants`, `LeaseServer`, `WorkerLease`). The control plane
hands tasks to workers under leases. `ControlPlane` says what each handler does to the server's
state; `ControlEffects` says when each answer is given and what it changes, field by field, with
the limits written out; `LeaseServer` does it in place, handler by handler; `LeaseSystem` runs the server with any number of workers, one clock, and a network that loses,
delays, repeats and reorders replies, and proves safety over every run.

**The MID claim protocol** (`MidJournal`, `MidQueue`, `MidProcess`). One process moves queue
records from ready through processing to processed and answers each. `MidJournal` relates the
bytes of the append-only journal to what it means after torn writes; `MidQueue` is the protocol
as a state machine in which any call may fail before or after its effect, the process may die
between any two steps, and records are added and edited meanwhile; `MidProcess` is the process,
its journal's bytes and the simulated queue in place, and goes the machine's way.

**Observations** (`Observations`, `MemoryStore`, `SqliteStore`, `Resolution`). Stores fold
observations that arrive in any order and more than once into one claim per asset and source;
both backends are proved against one specification; a resolver turns claims into assets.

**The audit chain** (`Audit`), **certificates** (`Certificates`), **the relay** (`RelayDelivery`,
`RelayProcess`), **the organization walk** (`OrganizationWalk`), **package inventories**
(`PackageInventory`, `InventoryReading`) and **the start limiter** (`StartLimiter`) each have one whole-run or
round-trip law, stated in its module.

`Sorting` holds sorting by a comparison and the byte order of strings; `Wrappers` holds `Option`
and `Result`.

Where the source changes state, a class has the same fields and its methods are proved equal to a
function of the old state; the theorems are about that function. Concurrency is a sequence of
atomic steps in any order.

Where the source's words and its code differ, the model follows the code:

- `VerifyChain` is said to prove that a log was not edited (internal/audit/audit.go:76-81). Its
  encoding separates fields by NUL and does not end the details, so an accepted log has another
  with the same final hash unless its events are bare: `Audit.ForgeryExactly`. Between logs of
  clean strings the final hash does bind: `Audit.FinalHashBinds`.
- An append onto a torn line of the MID journal succeeds, but makes the journal unreadable
  (internal/mid/state.go:157-167), and a torn append that lacks only its newline is loaded as a
  whole entry. `MidJournal.AppendLoadsExactly` says when an append can be loaded back,
  `MidQueue.StandstillExactly` when the process stops for good, and `MidQueue.RecordLeftBehind`
  gives a run in which it does.
- A completion after an accepted result is refused if one of the worker's renewals was granted in
  between (internal/worker/controlsim/server.go:667, 742-745), and only then:
  `LeaseProgress.CompletableExactly`.
- A package whose entry names hold `;`, a newline or a leading `#` is rewritten without complaint
  but then not accepted (internal/servicenowpackage/package.go:170-185, 248-303);
  `PackageInventory.RewriteAccepted` says exactly which names survive.

## Model

| member | source | states |
|---|---|---|
| Prefixes.SplitPrefixHalves | internal/worker/partition.go:212-228 | splitting fails exactly on a host prefix, and otherwise gives two aligned halves that meet in the middle of the block |
| Prefixes.OverlapsIffShared | internal/worker/partition.go:139-163 | two prefixes overlap exactly if some address is in both |
| Prefixes.NestedOrDisjoint | internal/worker/partition.go:165-188 | two blocks are nested or apart, never partly overlapping |
| Planner.SubtractBudget | internal/worker/partition.go:165-188 | subtracting a nested exclusion gives deny.Bits - base.Bits parts and succeeds under an exact budget condition, overshooting its budget by one at most |
| Planner.SubtractOutside | internal/worker/partition.go:165-188 | the budget decides whether subtraction succeeds, never what it gives |
| Planner.SubtractCover | internal/worker/partition.go:165-188 | the parts hold each address of the block that is not excluded exactly once, and no other |
| Planner.SplitBudget | internal/worker/partition.go:190-210 | splitting succeeds exactly if 2^(target - bits) parts fit the budget, and gives that many; the only failure is the limit |
| Planner.SplitNarrow | internal/worker/partition.go:190-210 | no part is wider than the target length, and parts stay inside the block's family |
| Planner.SplitCover | internal/worker/partition.go:190-210 | the parts hold each address of the block exactly once |
| PlanTargets.RemoveCoveredCorrect | internal/worker/partition.go:139-163 | what remains is pairwise disjoint, comes from the input, and covers the same addresses |
| PlanTargets.RemoveCoveredCanonical | internal/worker/partition.go:139-163 | what remains depends on the set of prefixes only |
| PlanTargets.ExactCover | internal/worker/partition.go:36-125 | an address lies in exactly one partition if some CIDR holds it and no exclusion does, and in none otherwise |
| PlanTargets.PlanShape | internal/worker/partition.go:76-125 | partitions are numbered 0..n-1 with n within the limit, strictly sorted and disjoint, with distinct keys; `PlanWidths` states their widths |
| PlanTargets.PlanWidths | internal/worker/partition.go:46-125 | told by the scope's fields: an IPv4 partition has the scope's IPv4 prefix length, by default 24, and an IPv6 one its IPv6 length, by default 64, or is a narrower block that the exclusions left; each such block is a partition; there are at most as many as the scope allows, by default 100000 |
| PlanTargets.PlanIdentity | internal/worker/partition.go:111-123 | IPv4 partitions come before IPv6 ones; a partition's key is made of the scope, its revision and its own block |
| PlanTargets.ScopeRejectedExactly | internal/worker/partition.go:37-64 | a scope is refused for its fields exactly if its ID is malformed or its revision, number of entries, prefix lengths or maximum are out of the ranges of the source |
| PlanTargets.PlanCanonical | internal/worker/partition.go:36-125 | permuting or repeating CIDRs and exclusions within the entry limits changes nothing |
| PlanTargets.PlanErrors | internal/worker/partition.go:36-74 | an invalid scope and a malformed CIDR are the only failures besides the limit; splitting a host prefix is never one |
| PlanTargets.PlanSucceedsExactly | internal/worker/partition.go:76-110 | a well-formed scope is planned exactly if the blocks fit the limit while each exclusion is applied, and the parts of what remains fit it together |
| PlanTargets.PlanSucceedsWithoutExclusions | internal/worker/partition.go:76-110 | without exclusions a plan succeeds exactly if the total number of parts is within the limit |
| PlanTargets.RemoveCoveredLoop | internal/worker/partition.go:139-163 | the loop over sorted prefixes computes the pruned list that the lemmas speak of |
| PlanTargets.SubtractLoop | internal/worker/partition.go:76-92 | one exclusion taken from every remaining block under the remaining limit |
| PlanTargets.SplitLoop | internal/worker/partition.go:94-110 | every remaining block split under the remaining limit |
| PlanTargets.PlanTargetPartitions | internal/worker/partition.go:36-125 | the whole planner in loops, equal to the plan that the theorems describe |
| LeaseSystem.MutualExclusion | internal/worker/controlsim/server.go:511-593 | no two workers, boots or attempts ever hold unexpired views of one task, whatever replies are lost, delayed or repeated |
| LeaseSystem.ViewBoundedByServer | internal/worker/controlsim/server.go:643-669 | an unexpired view is of the current attempt, never outlives the server's lease or the deadline, and its worker is still the holder while the task is unfinished |
| LeaseSystem.OneAcceptedLease | internal/worker/controlsim/server.go:815-822 | an accepted lease is of the task's current attempt, and a success is never refused for want of its stored result; that one holder is accepted at a time is how the check is written |
| LeaseGrants.AcceptedExactly | internal/worker/controlsim/server.go:815-822 | a worker, boot, attempt and token are accepted exactly if they were once granted, the attempt is current, and the lease was neither taken back nor ran out |
| ControlEffects.ClaimExactly | internal/worker/controlsim/server.go:511-593 | an admitted worker gets nothing exactly if it or its pool is at its limit of unlapsed leases or no task is grantable; else the grantable task with the least number, ready or left by a lapsed lease without cancel request, of its pool and of an operation it can do, as a new attempt up to the lease duration or the deadline; every lapsed lease is taken back |
| ControlEffects.RenewExactly | internal/worker/controlsim/server.go:643-669 | which of the four answers a renewal gets, and that a granted one extends the lease from the second clock reading, up to the deadline |
| ControlEffects.SubmitExactly | internal/worker/controlsim/server.go:671-710 | which answer a chunk gets; one well-formed chunk is stored per attempt, the same again is a duplicate and another in its place a conflict |
| ControlEffects.FailureExactly | internal/worker/controlsim/server.go:712-741 | a reported failure is refused, or ends the task as cancelled or failed with its code, and the run is counted anew |
| ControlEffects.SuccessExactly | internal/worker/controlsim/server.go:742-813 | which answer a completion gets; one taken up delivers the stored observation: mapped items insert what is new, an empty observation is excused exactly for a remote task that reports its own failure, and anything else fails the task and names that in the run |
| ControlEffects.OpsExactly | internal/worker/controlsim/server.go:762-800 | a delivery marks INSERT exactly the first occurrence of each key that was not stored |
| ControlEffects.RefreshCounts | internal/worker/controlsim/server.go:844-878 | the state of a run told by the states of its tasks |
| ControlEffects.CancelExactly | internal/worker/controlsim/server.go:243-268 | when a run can be cancelled, and what that does to each of its tasks and to its state |
| ControlEffects.RegisterExactly | internal/worker/controlsim/server.go:465-483 | which registrations are taken, with the lists of operations written out, and the worker recorded |
| ControlEffects.CreateExactly | internal/worker/controlsim/server.go:408-440 | a run of 1 to 100000 partitions, the numbers of its tasks, and each task as it begins |
| ControlEffects.CleanupExactly | internal/worker/controlsim/server.go:299-325 | a result is deleted exactly if it was chosen and was processed longer ago than the lifetime of its kind of outcome |
| LeaseSystem.OutcomesFinal | internal/worker/controlsim/server.go:712-813 | complete, failed and cancelled tasks never change; attempts never go back; within an attempt the lease end never decreases |
| LeaseSystem.AccountsAlwaysBalance | internal/worker/controlsim/server.go:712-813 | each task has at most one delivery and a complete one exactly one; INSERTs of all deliveries number the stored items and relations; run attempts are the sum of task attempts; a run is final exactly if its tasks are; results received means an unprocessed undeleted chunk of the current attempt |
| LeaseSystem.LimitsAlwaysHold | internal/worker/controlsim/server.go:824-842 | no worker and no pool ever exceeds its lease limit |
| LeaseSystem.CancellationIsFinal | internal/worker/controlsim/server.go:243-268 | once CancelRun returned true the run gains no delivery and no completed task, its unfinished tasks are leased with cancel requested, and it ends cancelled or failed |
| LeaseProgress.ResultThenComplete | internal/worker/controlsim/server.go:747-813 | however much is sent between an accepted result and its completion, a completion that is taken up delivers that result: the task completes unless the result can neither be mapped nor excused, and every mapped item is stored |
| LeaseProgress.RenewalStallsAttempt | internal/worker/controlsim/server.go:655-669 | a renewal granted at any moment after an accepted result keeps that attempt from ever completing |
| LeaseInvariant.ResultNeverMissing | internal/worker/controlsim/server.go:730-760 | completing a task whose results were received always finds the result |
| LeaseProgress.CompletableExactly | internal/worker/controlsim/server.go:742-749 | in every run a completion under the lease of an accepted result is taken up exactly if none of the worker's renewals was granted in between |
| LeaseServer.Server.CreateRun | internal/worker/controlsim/server.go:408-440 | a run and its numbered tasks created in place |
| LeaseServer.Server.Claim | internal/worker/controlsim/server.go:511-593 | reap, limits, choice and grant in place, keeping what the theorems rest on |
| LeaseServer.Server.ReapLapsed | internal/worker/controlsim/server.go:524-545 | tasks visited in any order come out as all lapsed tasks reaped and their runs refreshed |
| LeaseServer.Server.Renew | internal/worker/controlsim/server.go:643-669 | renewal in place, with the clock read twice as the source does |
| LeaseServer.Server.SubmitResult | internal/worker/controlsim/server.go:671-710 | acceptance and repetition of a result chunk in place |
| LeaseServer.Server.CompleteTask | internal/worker/controlsim/server.go:712-813 | completion in place: failure, cancellation, no data, failed mapping and delivery |
| LeaseServer.Server.CancelRun | internal/worker/controlsim/server.go:243-268 | cancellation in place |
| LeaseServer.Server.Refreshed | internal/worker/controlsim/server.go:844-878 | counting a run's tasks gives the state that the run's invariant demands |
| LeaseServer.Server.CleanupBatch | internal/worker/controlsim/server.go:299-325 | deletes only results processed longer ago than the success or failure lifetime that their outcome calls for, at most the limit, and all of them if fewer |
| WorkerLease.RenewBeforeExpiry | internal/worker/run.go:405-430 | a renewal is sent before the lease ends and after a real wait |
| WorkerLease.RenewDelayExactly | internal/worker/run.go:418-427 | the wait is half of what remains, between 10 milliseconds and 30 seconds as long as that ends before the lease |
| WorkerLease.ExpiryWasGranted | internal/worker/run.go:405-465 | a worker's expiry is the claim's or one the server granted, and never past the deadline |
| WorkerLease.GivenUpExactly | internal/worker/run.go:405-465 | the lease is given up as lost exactly if a round that the loop reaches begins at or after the end held then; while it is held every round began before |
| WorkerLease.GivenUpOnce | internal/worker/run.go:405-465 | no round is reached after one that began at or after the end held then |
| WorkerLease.EndsExactly | internal/worker/run.go:405-465 | the loop ends as lost, stopped, cancelled or with an invalid expiry exactly if a round that it reaches calls for that, and the lease is held exactly if no round ended it |
| WorkerLease.HeldIsLatest | internal/worker/run.go:405-465 | while the lease is held its end is the one granted last, or the claim's |
| WorkerLease.MaintainLease | internal/worker/run.go:405-465 | the renewal loop over any clock readings and replies |
| MidJournal.AppendMeaning | internal/mid/state.go:146-172 | the bytes of whole and torn appends mean what those appends mean |
| MidJournal.Recovery | internal/mid/state.go:92-144 | after whole appends and a torn one, loading returns the torn entry if only its newline is missing, else the last whole entry, else an error |
| MidJournal.AppendExactly | internal/mid/state.go:157-167 | a whole append can be loaded back exactly if the file is missing or has no torn end and no broken line |
| MidJournal.AppendLoadsExactly | internal/mid/state.go:92-172 | of any bytes that appends can leave, a whole append is loaded back exactly if the file is within its bound and was missing, or empty, or could be loaded and ended in a newline; otherwise nothing can be loaded |
| MidJournal.BracketCodecWorks | internal/mid/state.go:116-119 | the assumptions on line encodings can be met, by a decoder that skips leading blanks |
| MidJournal.State.Load | internal/mid/state.go:92-144 | the line loop returns what the bytes mean, and refuses an oversized file |
| MidJournal.State.Save | internal/mid/state.go:146-172 | an append that may be cut at any byte, and is refused if the entry is invalid or oversized |
| MidQueue.ExactlyOnce | internal/mid/run.go:74-182 | after any run with crashes and lost replies every output record has at most one response, and a processed one exactly one |
| MidQueue.SingleClaim | internal/mid/run.go:90-128 | at most one record is processing, and any claim that can be loaded is of that record |
| MidQueue.WriteAhead | internal/mid/run.go:128-160 | every response is the result journaled first for its record, which never changes; over every run a success is of a polled heartbeat equal to the journaled digest, an unsupported answer of a polled record with another topic, and a conflict of a content different from the digest journaled |
| MidQueue.QuietCycle | internal/mid/run.go:111-182 | a cycle without failures from a readable journal ends with that record processed, answered exactly once, and the journal gone |
| MidQueue.QuietPoll | internal/mid/run.go:89-109 | a cycle without failures that finds no journal finishes every record it polls, answers a heartbeat with success and its version and any other topic as unsupported, each exactly once, and leaves no journal |
| MidQueue.StandstillExactly | internal/mid/run.go:74-88 | the process at rest does nothing from then on exactly if its journal cannot be read |
| MidQueue.RecordLeftBehind | internal/mid/run.go:74-88 | a run with one torn save and one crash after which a record stays claimed and unanswered for ever |
| MidProcess.Ecc.FindResponses | internal/mid/eccsim/server.go:155-202 | the first two responses in order of creation, no more and no fewer |
| MidProcess.Process.TryClaim | internal/mid/client.go:115-144 | the transition and the check that the record is unchanged, step for step |
| MidProcess.Process.SaveEntry | internal/mid/state.go:146-172 | a save torn at any byte is the machine's append, and an entry that does not fit is refused |
| MidProcess.Process.ResumeClaim | internal/mid/run.go:111-182 | the process goes the machine's way through a claim, wherever calls fail or it dies, and the journal's bytes keep meaning the machine's journal |
| MidProcess.Process.RunCycle | internal/mid/run.go:74-109 | a cycle goes the machine's way |
| MidProcess.Process.Run | internal/mid/run.go:36-72 | whole runs over the journal's bytes are runs of the machine, so each record has at most one response and a processed one exactly one |
| Observations.ClaimMeaning | internal/store/store.go:189-214 | a claim joins the earliest report (first arrival on ties) with the latest one (last arrival on ties), and exists exactly if the source reported the asset |
| Observations.ClaimsConverge | internal/store/store.go:179-225 | the same observations in any order, any number of times, give the same claims, if a source's observations of one time are identical |
| Observations.TieExactly | internal/store/store.go:196-213 | two observations one source made of an asset at one time give the same claim in both orders exactly if they agree on ID and asset |
| Observations.ConvergesExactly | internal/store/store.go:189-214 | every rearrangement of some deliveries gives one claim exactly if the reports at the least time agree on their ID and those at the greatest on their ID and the asset; then repeats do not matter either |
| Observations.RetainedMeaning | internal/store/store.go:182-188 | each delivered ID is retained once, with the content delivered last |
| Observations.RebuiltClaims | internal/store/sqlite/sqlite.go:297-339 | claims rebuilt from the retained envelopes are those of the deliveries |
| Observations.SaveIdempotent | internal/store/store.go:175-178 | delivering an observation again changes nothing |
| MemoryStore.Memory.SaveObservation | internal/store/store.go:179-225 | the in-memory backend does what the specification says |
| MemoryStore.Memory.ListAssetClaims | internal/store/store.go:239-256 | all claims, each once, in order of asset and source |
| MemoryStore.ListingUnique | internal/store/store.go:239-256 | such a listing is unique |
| SqliteStore.SaveAssetClaim | internal/store/sqlite/sqlite.go:341-393 | reading a row and inserting or updating it folds the claim |
| SqliteStore.Store.SaveObservation | internal/store/sqlite/sqlite.go:395-461 | one transaction: what the specification says, or nothing |
| SqliteStore.BackfillAssetClaims | internal/store/sqlite/sqlite.go:301-339 | the claims of a fresh store that saved the retained envelopes in row order |
| SqliteStore.Store.Migrate | internal/store/sqlite/sqlite.go:253-295 | succeeds exactly if no pending migration fails and the version is known; a failure leaves version and content |
| SqliteStore.SaveInBoth | internal/store/store.go:17-26 | both backends hold the same observations, claims and relationships after any saves |
| SqliteStore.ListsAgree | internal/store/store.go:17-26 | both backends list the same claims |
| SqliteStore.MigrationRebuilds | internal/store/sqlite/sqlite.go:297-300 | an upgrade gives the claims that the deliveries would have given |
| Resolution.EachAssetOnce | internal/store/resolution.go:69-77 | every claimed asset is listed once, in order, and no other |
| Resolution.ResolvedMeaning | internal/store/resolution.go:78-103 | the winner is the first of all claims in their order; the sources are those of all claims; first and last times are the extremes, with their observations |
| Resolution.WinnerFirst | internal/store/resolution.go:106-119 | every listed source carries its plugin's last place in the configured precedence, or the length of that if it is not in it, and is explicit exactly if it is; of two sources the one with the smaller rank comes first, then the later report, then the smaller source key; the winner is the first, and its claim is the asset |
| Resolution.ExtremesShown | internal/store/resolution.go:90-100 | the first and last times are the least and the greatest of the sources, with the observation of the first source in the list that has them |
| Resolution.RankExactly | internal/store/resolution.go:52-64 | the rank is the last place of a plugin in the precedence, repeated names included |
| Resolution.FieldsRead | internal/store/resolution.go:173-184 | what is compared under the name and under each identifier and attribute |
| Resolution.ConflictsExact | internal/store/resolution.go:126-162 | a field is reported exactly if two claims differ in presence or value, with what each claim says |
| Resolution.Canonical | internal/store/resolution.go:48-104 | with one claim per source the result does not depend on the order of claims |
| Resolution.StoresResolveAlike | internal/store/resolution.go:48-104 | stores that received the same observations resolve to the same assets |
| Resolution.ResolveAssetClaims | internal/store/resolution.go:52-104 | the resolver's loops compute what the theorems describe |
| Resolution.AssetConflicts | internal/store/resolution.go:126-171 | collecting and comparing fields finds exactly the conflicts |
| Audit.EncodingInjective | internal/audit/audit.go:61-74 | entries without NUL, and without '=' in keys, are told apart by what is hashed |
| Audit.FinalHashBinds | internal/audit/audit.go:76-98 | two accepted nonempty logs of clean events with equal final hashes are equal, or two texts hashed for them in the same place collide |
| Audit.TwinsExactly | internal/audit/audit.go:61-74 | an entry is hashed from the same text as another exactly if it has details or a NUL in action or actor |
| Audit.ForgeryExactly | internal/audit/audit.go:76-98 | for an accepted log there is another accepted one with the same final hash and no collision exactly if some event has details or a NUL in action or actor |
| Audit.LinkedExactly | internal/audit/audit.go:82-98 | an accepted log is numbered from 1, begins with an empty previous hash, and each entry names the hash of the one before and hashes its own text |
| Audit.AppendKeeps | internal/audit/audit.go:42-59 | appending keeps the log accepted |
| Audit.Log.AppendAuditEvent | internal/store/store.go:268-281 | the append in place |
| Audit.Encode | internal/audit/audit.go:61-74 | the loop that builds what is hashed |
| Audit.VerifyChain | internal/audit/audit.go:82-98 | accepts exactly the accepted logs, and otherwise names the first bad entry and its defect |
| Certificates.NothingAfterRevocation | internal/controller/server.go:202-255 | in every interleaving nothing rotates, admits or revokes a serial after its revocation entry |
| Certificates.RevocationsLogged | internal/controller/server.go:226-234 | but for calls that failed after taking effect, refused entries and crashes, the log revokes exactly the revoked serials |
| Certificates.RevocationsImmutable | internal/store/store.go:321-329 | the first revocation of a serial is never changed |
| Certificates.LockExcludes | internal/controller/server.go:77-81 | a revocation holds the lock alone |
| Certificates.RevokesExactly | internal/controller/server.go:221-234 | a revocation that finds the lock free is recorded exactly if it is new and the store's call had its effect, and logged exactly if also that call returned and the log's had its effect |
| Certificates.ReadsExactly | internal/controller/server.go:497-545 | a rotation or admission is let through and logged exactly if the serial is not revoked and no call before the log failed, and changes nothing else |
| Certificates.Controller.AdvanceReader | internal/controller/server.go:477-550 | a rotation or admission step in place |
| Certificates.Controller.AdvanceWriter | internal/controller/server.go:221-234 | a revocation step in place |
| RelayDelivery.OneDelivery | internal/relay/run.go:72-124 | the spool never holds two deliveries, and no job is polled or run while it holds one |
| RelayDelivery.NothingLost | internal/relay/run.go:157-168 | a spooled delivery stays until a report of it was acknowledged |
| RelayDelivery.ReportsAgree | internal/relay/run.go:126-206 | all reports of one execution are equal, and report success only after a publish returned without error |
| RelayDelivery.ReportsSay | internal/relay/run.go:178-206 | in every run a report carries the job, relay, profile, times and observation of its execution; a failure names the discovery's error, or that of a publish that was final, or that the unspooled result could not be retained |
| RelayDelivery.QuietDrain | internal/relay/run.go:126-171 | from any reachable state a drain without failures empties the spool and has a report of the delivery acknowledged: success without error text, unless discovery or publication failed, whose error it then names in that order |
| RelayDelivery.DrainExactly | internal/relay/run.go:123-171 | publishing a delivery that fails is tried again twice if the failure may pass, the spool keeping it with one more attempt and nothing reported; in all other cases the report, told field by field, is acknowledged and the spool is empty |
| RelayDelivery.JobExactly | internal/relay/run.go:96-121 | a polled job is executed and its outcome spooled, unpublished and without attempts, or, if that fails, reported as not retained |
| RelayDelivery.PollExactly | internal/relay/client.go:73-90 | a poll's jobs are run exactly if it succeeds with at most one |
| RelayProcess.Relay.Deliver | internal/relay/run.go:132-168 | one delivery published, persisted, reported and removed, step for step |
| RelayProcess.Relay.Drain | internal/relay/run.go:123-171 | the drain goes the machine's way |
| RelayProcess.Relay.RunJob | internal/relay/run.go:96-121 | a job's run goes the machine's way |
| RelayProcess.Relay.Cycle | internal/relay/run.go:72-94 | a cycle goes the machine's way |
| RelayProcess.Relay.Run | internal/relay/run.go:41-70 | whole runs end where the machine ends |
| RelayProcess.Spool.Pending | internal/relay/spool.go:137-150 | the entries in order of name |
| OrganizationWalk.ListAll | pkg/discovery/aws/plugin.go:304-359 | a paged listing succeeds exactly if no call fails and it stays within the bound, and is then the pages joined |
| OrganizationWalk.Inventory.Walk | pkg/discovery/aws/plugin.go:252-302 | the walk collects exactly the preorder below its parent to the depth bound, cut where the bound is reached, and reports no error exactly if nothing within the depth bound is missing |
| OrganizationWalk.Inventory.Discover | pkg/discovery/aws/plugin.go:204-250 | the same root by root; the counter is the number of objects collected and never passes the bound |
| OrganizationWalk.FoundExactly | pkg/discovery/aws/plugin.go:252-302 | the walk below a parent finds exactly the units and accounts that are listed for the ends of paths of listed units within the depth bound |
| OrganizationWalk.ListedExactly | pkg/discovery/aws/plugin.go:252-302 | nothing is missing exactly if for the end of every such path the accounts and, above the deepest level, the units are listed whole |
| OrganizationWalk.EndpointsCollected | pkg/discovery/aws/parser.go:61-142 | both ends of every membership are emitted assets |
| OrganizationWalk.MembersExactly | pkg/discovery/aws/parser.go:61-142 | the memberships are, counted with repetition, one for each emitted object: of a root in the organization, of any other object in its parent |
| OrganizationWalk.Assets | pkg/discovery/aws/parser.go:61-142 | one asset per object and one membership per asset but the organization |
| OrganizationWalk.Collect | pkg/discovery/aws/plugin.go:204-250 | collection and assets together; the memberships are exactly those of the emitted objects |
| OrganizationWalk.BoundHidesExactly | pkg/discovery/aws/plugin.go:35-43 | a greater depth bound collects the same exactly if no unit lies deeper than the bound; deeper units are left out without an error |
| PackageInventory.RewriteAccepted | internal/servicenowpackage/package.go:170-185 | a rewritten package is accepted exactly if every name is listable, and then reads back as every name with its digest |
| PackageInventory.AcceptedMeaning | internal/servicenowpackage/package.go:248-303 | an accepted inventory lists every other entry with its digest, and nothing else |
| InventoryReading.SafeNameExactly | internal/servicenowpackage/package.go:237-246 | a name is taken, but for one leading slash, exactly if it is one or two dots or components joined by single slashes that are not empty, not dots, and without backslash or NUL |
| InventoryReading.AcceptedExactly | internal/servicenowpackage/package.go:248-303 | an inventory is accepted exactly if every line is short enough and gives a value to a key without one or lists, with its digest in either case of letters, another entry not listed before; the four keys have their values; and every other entry is listed |
| PackageInventory.InventoryBinds | internal/servicenowpackage/package.go:248-303 | if one inventory is accepted in two packages they are equal, or hold different bodies of one name and one digest |
| PackageInventory.Package.RewriteInventory | internal/servicenowpackage/package.go:170-185 | the printer in place |
| PackageInventory.Package.ValidateInventory | internal/servicenowpackage/package.go:248-303 | the checker's line loop |
| StartLimiter.TokenConserved | internal/worker/start_limit.go:18-27 | the token is in the channel exactly if nobody holds it, one waiter at most holds it, and giving it back never blocks |
| StartLimiter.StartsSpaced | internal/worker/start_limit.go:28-37 | any two starts are at least the interval apart |
| StartLimiter.StartRate | internal/worker/start_limit.go:28-37 | a window of length L holds at most L / interval + 1 starts |
| StartLimiter.StartGranted | internal/worker/start_limit.go:18-38 | a waiter that takes the token starts exactly if the time of the next start is reached and nothing cancelled it, which puts the next start an interval later; started or cancelled, it leaves and the token is back |
| StartLimiter.QueuedExactly | internal/worker/start_limit.go:18-22 | a waiter cancelled in the queue leaves and changes nothing else; one that finds no token waits |
| StartLimiter.Limiter.AdvanceWaiter | internal/worker/start_limit.go:18-38 | one step of a waiter in place |

## Left out

Assumptions about what the source builds on:

- The version in a heartbeat's answer is taken as it is; the source has shortened it before.
- Times are whole numbers of nanoseconds of one clock that never runs backwards; durable text forms of times and of JSON values are read back as written.
- SHA-256 is any function to hexadecimal digits: a theorem that rests on it says that its claim holds or that two inputs it names collide. Source keys tell apart the sources of the observations in question. Lease tokens are arbitrary; encryption is the identity.
- JSON lines of the journal: no proper beginning of an encoding can be decoded, nor two or more beginnings one after the other. JSON objects that open with a brace and a quote are so, and leading blanks may be skipped.
- Numbers are unbounded; the sources' counters and sequence numbers stay far below 64 bits.
- A handler runs under its mutex as one step and reads the clock once, but for a renewal, which reads it twice; sequences of tasks and results that the source keeps in maps are visited in any order.
- Sorting is by any correct algorithm; where elements can be told apart the outcome is shown not to depend on it.

What the models do not have:

- The HTTP, SOAP, JSON and XML codecs, TLS, authentication headers, file permissions, tickers and logging.
- The lease server's heartbeats, schedules, credentials and snapshots, and the worker's `activeTasks` map and executors; workers may adopt any lease reply ever sent, which includes all that real ones do.
- Task identifiers are numbers; the source pads them so that their text order is the order of creation.
- Progress of a task from result to completion in every run: a renewal moves `results_received` back to `running` (internal/worker/controlsim/server.go:667); `LeaseProgress.CompletableExactly` says when it comes.
- The MID's digest and topic tables beyond heartbeats: a digest is the record's content, and every other topic is answered as unsupported. Queue records are never deleted. A cycle's time limit is a failing call.
- Readability of the MID journal after appending onto a torn line, which the code does not give; the protocol theorems hold all the same. Repairing a journal by hand.
- The SQLite `assets` table, which is written but never read, and SQL itself; a transaction is an assignment of all tables.
- Order independence of relationships and of the observation list, which the code does not give.
- `ListAssets` and the validation of precedence names, which only pass values on.
- Detection of a truncated audit tail, which a chain cannot give.
- Certificate signing, request decoding and serial normalization; signing may fail, and a fresh serial is whatever it returns.
- The relay's byte bound and encryption: any write may fail. A crash between writing a temporary file and renaming it, after which the leftover is listed as an entry (internal/relay/spool.go:137-150), is not modelled.
- The walk's listings are fixed while it runs; a listing that never ends is not modelled, as the operation's timeout makes it fail. Attributes of assets other than identifiers are copied and left out.
- Archive reading, the bill of materials and the package contract (internal/servicenowpackage/package.go:137-160, 187-235, 305-353); file names are text of bytes, and `path.Clean` is modelled on relative names by its components.
- Discovery plugins other than the AWS walk, the lab servers, the command line, enrollment tokens, job store, schedules, agent spool and retry delays.
