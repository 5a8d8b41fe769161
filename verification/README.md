# Verification model of the remote development platform

This project models the stateful core of the platform in Dafny and proves what it keeps: the job
scheduler and its quota ledger, the worker and runner, the broker between them, the cgroup layer
below, the offline bootstrap of an instance, the login throttle and the comment stripper. The
proofs are about the model; nothing of the Python program is executed. `dafny verify
dfyconfig.toml` checks all of it.

## How the model is built

**Scheduler and ledger** (`Ledger`, `Runs`, `Lifecycle`, `Quotas`, `Fairness`, `Rules`, `Cancellation`, `Attained`,
`DeadGrants`, `Database`). Tables are sequences of rows, and the id of a row is its place plus one. `Runs` is a state
machine at the granularity of single statements: a claim, a report and a grant are one transaction
each, while `create_job` and the two cancel functions are several steps with anything in between, so an
unfinished call is part of the state. All safety results hold for every run of that machine.
`Database` is the class whose methods update the tables in place; each method is tied to the
function that the run-level theorems are about, and answers as `Rules` says, which speaks of rows and
grants alone. `IsoTime` justifies comparing timestamps as integers.

**Runner and worker** (`Results`, `Runner`, `Worker`). A case run is the trace of what the polling
loop observes; the clock, the cancellation answers and the processes are parameters. `Worker` runs
one turn of a slot on the in-process adapter.

**Broker** (`Wire`, `Framing`, `Loads`, `Sizes`, `Broker`, `RemoteWorker`). `Wire` is the exact-schema
codec on JSON values, `Framing` the encoder and the receive loop on bytes, `Loads` the way back from
bytes to values, `Sizes` the message limit, `Broker` the request handler, and `RemoteWorker` the turn
of a production worker whose every call goes through all of them, byte for byte.

**Two layers** (`Cgroups`, `TwoLayer`, `Histories`, `StaleCancel`, `Overcommit`). The in-memory cgroup
tree, and one state machine of ledger, slots and tree for ADR-003, "reservation plus hard limit". The
last three build histories from boot that break the plain reading, for any site, user and number of slots.

**Bootstrap** (`Bootstrap`, `Convergence`, `BootstrapRules`, `BootstrapProgram`). The credential
directory is its durable entries plus a list of pending operations; a crash keeps any prefix of the list
and any prefix of an unsynced file. `Bootstrap` is the protocol with its invariant, `Convergence` says
when a retry succeeds, `BootstrapRules` what a call answers and leaves behind, and `BootstrapProgram` is
`bootstrap_instance` as a program over mutable fields, following the protocol operation by operation.
Assumed: one bootstrap at a time, ordered directory persistence, a durable
database commit, an insert that raises only when nothing was committed, and tokens without surrounding
whitespace.

**Smaller cores** (`Throttle`, `Comments`).

## Where the code falls short of a plain reading

Each of these is a theorem with a concrete input or history, and the exact condition under which the
plain reading does hold.

* A block set by the throttle lifts at `blocked_until` but blocks again during the second after it,
  because truncation and the floored remainder disagree below zero (`Throttle.BlockSpan`). A client
  that waits exactly `Retry-After` seconds is admitted if and only if a whole number of seconds was
  left (`Throttle.WaitingAsTold`).
* ADR-003 speaks of the effective quota, but the runner always passes 256 MiB to `run_group`. A job
  above that is admitted, charged and then refused a group for every case
  (`Overcommit.LargeJobReachesSlot`, `TwoLayer.LargeJobCannotRun`).
* For the same reason the reservation and the parent limit part for some users with a memory grant. A job
  that `run_group` accepts needs a grant only when it asks for more than 60 s, so it is the grants both
  above 256 MiB and above 60 s that matter: under any of them two jobs of at most 256 MiB run at once with
  every sum of limits the grant has room for, 400 MiB under one of 400 MiB or 257 MiB under one of 257 MiB,
  below a parent of 256 MiB and with every cancellation atomic (`Overcommit.GrantOvercommits`). The
  condition is exact: a user's live limits fit the parent in every run without a stale write if and only
  if no such grant is issued to that user, given two slots and an id to run under
  (`Overcommit.HarmlessIff`).
* A cancellation that reads `queued` and writes after a claim releases the reservation under a running
  worker; for every user, two live groups then hold 512 MiB without any grant
  (`StaleCancel.StaleCancelOverbooks`). A step keeps every held job active if and only if it is not such
  a write to a job a slot holds (`TwoLayer.HoldsActiveIff`); in every interleaved run without one, live
  limits stay within the user's reservation (`TwoLayer.TwoLayerAgreement`).
* A queued job whose grant dies is meant to be cancelled when it is claimed, but without its grant it is
  selected only if it fits into 256 MiB: claims can take it out of the queue if and only if it has at
  most 256 MiB (`DeadGrants.DeadGrantLeavesIff`), and a larger one does get stranded
  (`DeadGrants.StrandedJobIsReachable`).
* A compiler ended by a signal has a negative exit code, which the wire rejects, so its report never
  passes (`Broker.ReportPassesIff`); the job then ends as a system error.
* A job a worker claimed is left active, its memory reserved and the slot gone, if and only if the encoded
  answer to the claim is above 32 MiB, its owner's id is no canonical UUID, or the runner raises a text
  above 16,384 characters (`RemoteWorker.LeftActiveIff`): the claim is made outside the `try`, and a long
  text is refused by the broker instead of being cut by the database. Of the three only the size is a
  shortfall with an input in production: twenty inputs of a million newlines are admitted, and their answer
  is above the limit (`RemoteWorker.OversizedSubmissionIsLost`). Every stored id is canonical
  (database.py:217-222), and the sandboxed runner names its file `source.cpp` (runner.py:416); a text that
  long comes from the local runner alone, which uses the submitted name, when the name is too long for the
  file system.
* Racing submissions do break the in-flight limit L: for every limit and every number K of them a run ends
  with L - 1 + K unfinished jobs, which is the most there can be (`Quotas.InflightBound`,
  `Attained.InflightBoundIsTight`), so the limit is kept exactly when no two of a user's submissions overlap.
* A retry of the bootstrap succeeds if and only if a row exists, or neither a credential nor an empty
  staging file is left (`Convergence.RetrySucceedsIff`). Power lost between creating and syncing the
  staging file can leave it empty (`Convergence.EmptyStagingIsReachable`); a failed unlink followed by a
  successful compensation leaves the credential without its row
  (`Convergence.LeftoverCredentialIsReachable`).

## Model

| member | source | states |
|---|---|---|
| IsoTime.IsoOrderIsTimeOrder | src/remote_dev/database.py:158-159 | for all UTC times of years 1 to 9999, the stored texts compare exactly as the instants do |
| IsoTime.FractionOrder | src/remote_dev/database.py:158-159 | a dropped fraction of zero microseconds still sorts first |
| IsoTime.IsoIsInjective | src/remote_dev/database.py:158-159 | equal texts come from equal times |
| Runs.SoundRun | src/remote_dev/database.py:410-625 | over every run of interleaved statements: a job's grant is its owner's, a started row is not queued, an active row was started, `running` is never written, and remaining uses are never negative |
| Runs.SoundKept | src/remote_dev/database.py:410-625 | the same for one statement |
| Runs.ClaimSelects | src/remote_dev/database.py:456-482 | the selected row is eligible and first in its owner's queue |
| Lifecycle.JobLifecycle | src/remote_dev/database.py:506-569 | over every run: no job re-enters the queue, terminal states are closed, what was submitted is never edited, and a job is started at most once, exactly when `started_at` is written |
| Lifecycle.JobsAfter | src/remote_dev/database.py:437-625 | one statement rewrites at most one existing row in an allowed way, or appends one queued row; only a claim makes a row active |
| Lifecycle.ClaimShrinksQueue | src/remote_dev/database.py:483-512 | each claim that selects a row shrinks the queue by exactly one, and that row never returns to it |
| Lifecycle.QueueGrowsOnlyByInsert | src/remote_dev/database.py:437-443 | no other statement lengthens the queue |
| Quotas.MemoryReservation | src/remote_dev/database.py:466-476 | in every reachable state, statements interleaved, the memory of a user's active jobs is at most the larger of 256 MiB and that user's largest memory grant ever |
| Quotas.ReservedKept | src/remote_dev/database.py:466-512 | the reservation is kept by each statement |
| Quotas.LargeJobNeedsItsGrant | src/remote_dev/database.py:466-493 | a job above 256 MiB starts only under its own grant, valid at selection and at the charge, covering it together with all the user runs |
| Quotas.GrantConservation | src/remote_dev/database.py:486-512 | over every run the uses spent equal the jobs started under the grant, and remaining uses stay non-negative |
| Quotas.IssuedGrantConservation | src/remote_dev/database.py:703-720 | from issue on, issued uses minus remaining uses is the number of jobs bound to the grant that were ever started |
| Quotas.DeadGrantChargesNothing | src/remote_dev/database.py:494-505 | a claim that finds the grant dead cancels the job and its cases and charges no grant |
| Quotas.InflightBound | src/remote_dev/database.py:410-443 | with at most K submissions of a user between count and insert, unfinished jobs never exceed L - 1 + K, L being the largest in-flight limit ever granted, at least five |
| Attained.InflightBoundIsTight | src/remote_dev/database.py:410-443 | for every in-flight limit L from five and every K from one, a run with at most K submissions in progress ends with L - 1 + K unfinished jobs |
| Quotas.BudgetKept | src/remote_dev/database.py:410-419 | the counting argument behind it, statement by statement |
| Fairness.ClaimQueryIsLexicographic | src/remote_dev/database.py:457-480 | the windowed query returns the lexicographic minimum over user key, then creation time and id |
| Fairness.HeadOfQueue | src/remote_dev/database.py:462-464 | row number one means no eligible row of the same user is older |
| Fairness.NoOvertaking | src/remote_dev/database.py:457-480 | among one user's uncancelled jobs without grants, a later job needing at least as much memory is never taken before an earlier queued one |
| Fairness.OneStartEach | src/remote_dev/database.py:457-480 | while a user with an eligible job is passed over and stamps increase, every other user starts at most one job |
| Fairness.BoundedBypass | src/remote_dev/database.py:452-512 | with N users the wait is at most N - 1 starts |
| Attained.BypassIsTight | src/remote_dev/database.py:452-512 | for every N, a reachable state with N users and a run from it in which a ready user waits for N - 1 starts |
| Fairness.EligibilityIsLocal | src/remote_dev/database.py:466-476 | no statement for another user changes whether a job is eligible |
| DeadGrants.BereftEligibleIff | src/remote_dev/database.py:466-476 | a queued job with a dead grant is eligible if and only if it fits into 256 MiB beside what its owner runs |
| DeadGrants.BereftSelectedIsCancelled | src/remote_dev/database.py:486-505 | once selected it is cancelled and never started, and it had at most 256 MiB |
| DeadGrants.StrandedJob | src/remote_dev/database.py:471-476 | above 256 MiB it is never started, and claims alone never change its row |
| DeadGrants.ClaimsReachIt | src/remote_dev/database.py:457-505 | up to 256 MiB some run of claims and of reports on other jobs cancels it |
| DeadGrants.DeadGrantLeavesIff | src/remote_dev/database.py:457-505 | claims can take it out of the queue if and only if it has at most 256 MiB |
| DeadGrants.StrandedJobIsReachable | src/remote_dev/database.py:420-450 | a submission under a grant that expires before any claim is stranded |
| Rules.PickedGrantIsBest | src/remote_dev/database.py:421-436 | the grant taken is an own usable one that covers the request, soonest to expire, an open-ended one last, then by id; none is taken only if none qualifies |
| DatabaseStore.SerialCreate | src/remote_dev/database.py:410-450 | a submission nobody interrupts is the admission decision followed by one insert |
| DatabaseStore.Database.constructor | src/remote_dev/database.py:410-625 | the empty tables satisfy every invariant |
| DatabaseStore.IssuedGrantLasts | src/remote_dev/database.py:703-706 | a new grant is good for exactly the seconds asked for, and without a limit when none are |
| DatabaseStore.Database.CreateGrant | src/remote_dev/database.py:703-720 | appends exactly the grant asked for, with its expiry computed from the seconds, and keeps all invariants |
| DatabaseStore.Database.CreateJob | src/remote_dev/database.py:410-450 | refused for the limit if and only if the user has n unfinished jobs, at least five, and every own grant for more than n is inactive, expired or used up; refused without a grant only where none qualifies; else one queued row with what was submitted is appended; a refusal changes nothing |
| DatabaseStore.FiveWithoutGrant | src/remote_dev/database.py:410-450 | over runs: an undisturbed submission of a user without a usable in-flight grant above five changes nothing or leaves at most five of that user's jobs unfinished |
| DatabaseStore.FirstGrantAdmits | src/remote_dev/database.py:410-450 | a user's first grant, as `create_grant` writes it, admits a submission above the defaults if and only if it is within the limits the grant was issued with and before its seconds are over |
| Rules.LimitReached | src/remote_dev/database.py:410-419 | the limit is reached at n unfinished jobs if and only if n is at least five and no own usable grant allows more |
| DatabaseStore.Database.ClaimNextJob | src/remote_dev/database.py:452-522 | nothing is claimed and nothing changes if and only if no queued, uncancelled row fits its limit: its own usable grant's memory, else 256 MiB; otherwise the one such row that goes first is started with its grant charged by one, or, if its grant has died, cancelled with its cases, and nothing else changes |
| Rules.ClaimChooses | src/remote_dev/database.py:457-480 | the windowed query returns none if and only if no row fits, and else the row that goes before every other that fits: least recently served owner, then oldest |
| Rules.ChosenIsUnique | src/remote_dev/database.py:462-480 | there is only one such row |
| Rules.ClaimMeetsRules | src/remote_dev/database.py:452-522 | every claim of every sound state leaves what these rules say |
| DatabaseStore.Database.StoreReport | src/remote_dev/database.py:525-557 | the loop over the cases stores the report the function describes |
| DatabaseStore.Database.FinishJob | src/remote_dev/database.py:524-557 | raises, changing nothing, exactly when a number has more than 64 bits; an unknown id changes nothing; else that one row gets the verdict and compile columns, each case the last result of its position or, if still queued, the reason it was not run |
| Rules.StoredIsLast | src/remote_dev/database.py:535-547 | of several results with one position the last is stored, and a case without a result is left alone |
| DatabaseStore.Database.MarkJobSystemError | src/remote_dev/database.py:559-569 | that one row becomes a system error with the first 16,384 characters of the message and its queued cases are cancelled, whatever its state was; stored results stay; an id of more than 64 bits raises |
| DatabaseStore.Database.CancelJob | src/remote_dev/database.py:582-625 | found only for an existing job of the requester; a queued job and all its cases end as cancelled, an active one is only marked, a finished one and all other rows stay as they are; an id of more than 64 bits raises |
| DatabaseStore.Database.IsCancelRequested | src/remote_dev/database.py:599-604 | requested, or already cancelled; false for an unknown id; an id of more than 64 bits raises |
| Cancellation.FlagIff | src/remote_dev/database.py:582-625 | a statement sets the flag of a job if and only if it writes a cancellation of that job that was seen unfinished; no statement clears it |
| Cancellation.StopHasACause | src/remote_dev/database.py:599-604 | over every run: a runner is told to stop only if the owner or the administrator had asked for it, a report had said cancelled, or a claim had found the grant dead; the flag itself has the first cause alone |
| Cancellation.StopIsKept | src/remote_dev/database.py:599-604 | from the moment a cancellation is written the answer stays yes, over every run |
| Runner.Watch | src/remote_dev/runner.py:268-293 | the polling loop ends at the first poll that stops the case, with that poll's verdict and the peak of the samples taken |
| Runner.RunCase | src/remote_dev/runner.py:529-633 | the verdict is the one the observations call for, condition by condition; exit code or signal, times, texts, truncation and peak memory are those of the run |
| Runner.VerdictIff | src/remote_dev/runner.py:575-608 | one condition for each verdict, in terms of what was observed: completed if and only if no poll cancels or exceeds a limit, nothing was killed for memory, both outputs fit and the exit code is zero, and likewise for the other five |
| Runner.PeakIff | src/remote_dev/runner.py:581-596 | the peak is the largest sample of the polls made and the last one, or zero without any |
| Runner.CompileIff | src/remote_dev/runner.py:486-527 | a compile error if and only if the compiler ended on its own with a code other than zero |
| Runner.LimitGiven | src/remote_dev/runner.py:162-166 | a case is run with its own limit, or with the whole milliseconds left of the submission when those are fewer, and never with more |
| Runner.Execute | src/remote_dev/runner.py:128-179 | refused, not compiled, or told case by case: up to the first case that is not run to its end each result is that of its run, and every later one says whether the request or the clock ended the loop |
| Runner.ExecutionIff | src/remote_dev/runner.py:128-179 | the specified execution is the one so told, and is cancelled if and only if a request ended the loop |
| Runner.ResultsComplete | src/remote_dev/runner.py:148-179 | a completed compile yields terminal results at positions exactly 1 to n in order; anything else yields none |
| Runner.RunCasesComeFirst | src/remote_dev/runner.py:152-179 | the cases run are a prefix with their own verdicts; every later result says why it was not run |
| Runner.DeadlineWithOneOverrun | src/remote_dev/runner.py:150-179 | if each case overruns its effective limit by at most d, every executed case ends by the submission deadline plus d, despite truncation to milliseconds |
| Worker.StoreInOrder | src/remote_dev/database.py:535-547 | results numbered 1 to m land in the first m rows and leave the rest and all inputs alone |
| Worker.ReportCompletesJob | src/remote_dev/database.py:524-557 | after the report is stored the row has its verdict and compile columns, nothing submitted is edited, and no case is queued; row i holds result i, or after a failed compile every queued row is cancelled |
| Worker.JobWorker.ProcessOne | src/remote_dev/worker.py:17-39 | a claimed job ends terminal with no case queued and nothing submitted edited: with the execution's verdict, or as a system error when the runner raises or a number does not fit the database; no other row changes |
| Wire.StatusRoundTrip | src/remote_dev/broker.py:124-128 | state names and states correspond one to one |
| Wire.ExecutionRoundTrip | src/remote_dev/broker.py:137-176 | decoding an encoded execution gives it back exactly when the schema admits it, and fails otherwise |
| Wire.ExecutionSchemaIsExact | src/remote_dev/broker.py:141-176 | whatever decodes is the encoding of what it decodes to |
| Wire.DecodeExecution | src/remote_dev/broker.py:141-176 | the appending loop computes the decoder the round trip is about |
| Wire.JobRoundTrip | src/remote_dev/broker.py:179-215 | the worker receives exactly the runner-visible projection of the job |
| Wire.OnlyTheProjectionIsSent | src/remote_dev/broker.py:179-191 | two jobs give the same message exactly when their projections agree |
| Wire.RequestRoundTrip | src/remote_dev/broker.py:218-239 | a request comes back unchanged exactly when its id, execution and message are admitted |
| Wire.RequestSchemaIsExact | src/remote_dev/broker.py:218-239 | no other object is accepted as a request |
| Wire.RequestAcceptedIff | src/remote_dev/broker.py:85-239 | an object is read as a request if and only if it is what the client writes for it and the conditions of the schema hold: ids from one, terminal states, numbers not negative, messages of at most 16,384 characters |
| Broker.CaseOutcomeAdmitted | src/remote_dev/runner.py:623-633 | every result of a case run satisfies the case schema |
| Broker.ReportPassesIff | src/remote_dev/broker.py:141-176 | an execution passes the wire unchanged exactly when the compiler was not ended by a signal or was never started |
| Broker.KilledCompileIsRefused | src/remote_dev/runner.py:490-527 | a compile killed at its wall limit is a system error whose report is refused |
| Broker.LongErrorIsRefused | src/remote_dev/broker.py:235-238 | an error report is refused exactly when the database would have had to cut its message |
| Broker.ClaimedJobIsDelivered | src/remote_dev/broker.py:179-215 | in the codec, a job started by a claim decodes to the projection from which the worker builds the same cases |
| Broker.SubmittedIsDelivered | src/remote_dev/broker.py:179-215 | in the codec, whatever runs between the insert and the claim, the message decodes to exactly the submitted file, source, compiler, limits and inputs, under the id of the insert |
| Broker.HandledIff | src/remote_dev/broker.py:218-252 | a request as the client writes it is dispatched exactly when the schema admits it, and otherwise refused without effect; one with a number of more than 64 bits has no effect and is answered `internal_error` |
| Broker.RequestHandler.ServeClaim | src/remote_dev/broker.py:244-245 | the answer to a claim is the started job or null |
| Broker.RequestHandler.Serve | src/remote_dev/broker.py:218-296 | each admitted request has the database effect and answer of its operation, or neither and `internal_error` when a number does not fit; anything else is refused and changes nothing |
| RemoteWorker.LeftActiveIff | src/remote_dev/worker.py:17-39 | at the default limit, over the whole turn: a started job is left active, row untouched and slot gone, if and only if the encoder refuses the answer to the claim, its owner's id is not canonical, or the runner raises a text above 16,384 characters; otherwise it ends with no case queued |
| RemoteWorker.OversizedSubmissionIsLost | src/remote_dev/broker.py:296-303 | twenty admitted inputs of a million newlines: claimed, never delivered, active for good |
| RemoteWorker.SubmittedArrivesIff | src/remote_dev/broker.py:409-412 | over the socket the worker receives exactly what was submitted if the answer arrives, and nothing else otherwise |
| RemoteWorker.ClaimedJobEndsIff | src/remote_dev/worker.py:22-39 | after delivery, over any link, a job ends exactly when its report or the system error in its place arrives; otherwise its row is untouched and the slot is lost; with the report accepted it has the verdict of the execution |
| RemoteWorker.DeliveredEndsIff | src/remote_dev/worker.py:36-38 | at the default limit a delivered job ends unless the runner raises a text above the limit of the broker |
| RemoteWorker.TakenByClaim | src/remote_dev/broker.py:409-412 | a claim over the socket takes the job the scheduler started, as its projection, if the encoder accepts the answer; else nothing |
| RemoteWorker.BrokeredWorker.Call | src/remote_dev/broker.py:376-407 | encoded, received, decoded and read at both ends: a request the encoder refuses changes nothing; an answer it refuses is lost after its effect |
| RemoteWorker.BrokeredWorker.ClaimNextJob | src/remote_dev/broker.py:409-412 | the client's claim, with what is lost when the answer does not arrive |
| RemoteWorker.CancelCheckIsAnswered | src/remote_dev/broker.py:246-247 | at the default limit a cancel check over the socket is answered by the row it asks about, and changes nothing |
| RemoteWorker.BrokeredWorker.IsCancelRequested | src/remote_dev/broker.py:414-417 | the client's check returns what the row says or raises, and at the default limit never raises for an id the database can hold |
| RemoteWorker.BrokeredWorker.RunAndReport | src/remote_dev/worker.py:22-38 | run, report, and report an error when the report raises |
| RemoteWorker.BrokeredWorker.ProcessOne | src/remote_dev/worker.py:17-39 | the program makes exactly the turn the theorems are about |
| Framing.DumpsIsOneLine | src/remote_dev/broker.py:256-256 | a dumped message has no raw newline, whatever the order of members (section 7 of RFC 8259) |
| Framing.Utf8KeepsNewlines | src/remote_dev/broker.py:256-256 | UTF-8 text has a newline byte exactly when it has a newline |
| Framing.EncodedIsOneLine | src/remote_dev/broker.py:255-259 | the encoder refuses exactly what is above the limit, and lets the rest through as one terminated line |
| Framing.Receive | src/remote_dev/broker.py:274-290 | for every cut of the stream: which answer, at most limit + 1 bytes taken, no request for zero bytes, and the length check after the loop cannot fire |
| Framing.Deliver | src/remote_dev/broker.py:382-396 | every message the encoder accepts is received as exactly the line sent |
| Loads.Utf8RoundTrip | src/remote_dev/broker.py:398-398 | decoding UTF-8 gives back every text that was encoded |
| Loads.LoadsRoundTrip | src/remote_dev/broker.py:291-291 | reading dumped JSON gives back the value, whatever the order of members (RFC 8259) |
| Loads.ListingExists | src/remote_dev/broker.py:256-256 | an order of members as the round trips assume it does exist |
| Loads.LineRoundTrip | src/remote_dev/broker.py:291-291 | a received line is read as exactly the value that was sent |
| Loads.Transmit | src/remote_dev/broker.py:376-400 | from value to value over the socket: the same value, or nothing when the encoder refuses it |
| Sizes.ErrorReportFits | src/remote_dev/broker.py:255-259 | every error report the broker admits is within the limit of 32 MiB |
| Sizes.OversizedAnswer | src/remote_dev/broker.py:255-259 | an answer carrying twenty inputs of a million newlines is above it |
| Cgroups.CaseNameInjective | src/remote_dev/cgroup_v2.py:220-220 | the name of a case group determines job and case |
| Cgroups.JoinInjective | src/remote_dev/cgroup_v2.py:214-220 | paths of slash-free components are equal exactly when their texts are |
| Cgroups.CaseTextInjective | src/remote_dev/cgroup_v2.py:214-220 | as text, the paths of two canonical (owner, job, case) triples are equal exactly when the triples are |
| Cgroups.CasePathInjective | src/remote_dev/cgroup_v2.py:214-220 | as components, different triples never share a path |
| Cgroups.RunGroupLimits | src/remote_dev/cgroup_v2.py:203-220 | `run_group` sets the case's and the parent's `memory.max` and no other |
| Cgroups.RunGroupDirectories | src/remote_dev/cgroup_v2.py:203-220 | of the groups at case level it creates exactly one |
| Cgroups.RunGroupTree | src/remote_dev/cgroup_v2.py:190-220 | every control and every directory after `run_group`: no swap for case and user, 8 and 32 processes, both memory limits, two delegations, and all else as before |
| Cgroups.MemoryCgroupFilesystem.Mkdir | src/remote_dev/cgroup_v2.py:66-71 | adds the path and all its ancestors |
| Cgroups.MemoryCgroupFilesystem.Write | src/remote_dev/cgroup_v2.py:73-75 | sets the control and extends its log |
| Cgroups.MemoryCgroupFilesystem.Kill | src/remote_dev/cgroup_v2.py:88-89 | records the signal |
| Cgroups.MemoryCgroupFilesystem.Rmdir | src/remote_dev/cgroup_v2.py:91-92 | removes the one directory |
| Cgroups.CgroupManager.Group | src/remote_dev/cgroup_v2.py:190-197 | refused exactly on a size that is not positive, before anything is written; else one group with its three controls |
| Cgroups.CgroupManager.RunGroup | src/remote_dev/cgroup_v2.py:203-220 | refused exactly on bad arguments, before anything is written; otherwise the case's directory and those above it appear, and the eight controls of case, user and users are written, swap among them |
| Cgroups.CgroupManager.Close | src/remote_dev/cgroup_v2.py:133-143 | kills through `cgroup.kill` or every member, then removes the group |
| TwoLayer.InvKept | src/remote_dev/runner.py:385-394 | every step of ledger, slot or tree keeps the joint invariant, whatever grants exist: distinct jobs in the slots, a live case has its group with its memory, no stray group |
| TwoLayer.HoldsActiveIff | src/remote_dev/database.py:606-624 | a step keeps every held job active if and only if it is not the write of a cancellation that saw `queued` to a job a slot holds |
| TwoLayer.AtomicIsNotStale | src/remote_dev/database.py:606-624 | a cancellation read and written in one step is never stale |
| TwoLayer.TwoLayerAgreement | docs/architecture.md:14-16 | in every interleaved run without a stale write: one user's live limits sum to at most that user's reservation, and to at most 256 MiB unless an own grant is both above 256 MiB and above 60 s; the parent carries 256 MiB; `run_group` accepts the next case exactly of jobs of at most 256 MiB |
| TwoLayer.OvercommitNeedsRaisingGrant | src/remote_dev/database.py:420-476 | a claim that takes runnable memory above the parent starts a job above 60 s under its owner's own valid grant, which is above 256 MiB and above 60 s |
| TwoLayer.ReservationsAreHeld | docs/architecture.md:14-16 | in every run each active job is held by a slot, so with all slots idle nothing is reserved; without stale writes each held job is active |
| Overcommit.GrantOvercommits | src/remote_dev/database.py:466-476 | for every valid grant above 256 MiB and above 60 s and every two case limits it has room for: a history with atomic cancellations to both of them live, under a parent of 256 MiB |
| Overcommit.HarmlessIff | docs/architecture.md:14-16 | a user's live limits fit 256 MiB in every run without a stale write if and only if no grant issued to the user is above 256 MiB and above 60 s, or there is one slot, or the user has no id |
| TwoLayer.StatementLevelAgreement | src/remote_dev/database.py:582-625 | in every run the sum exceeds the reservation by at most the memory released under running workers |
| TwoLayer.LargeJobCannotRun | src/remote_dev/runner.py:385-394 | `run_group` accepts a case exactly when the job has at most 256 MiB |
| Overcommit.LargeJobReachesSlot | src/remote_dev/runner.py:385-394 | for every valid grant above 256 MiB: a history in which a larger job is admitted, charged and claimed, and refused its group |
| StaleCancel.StaleCancelOverbooks | src/remote_dev/database.py:606-624 | for every user and any two slots or more: a history without grants in which a stale cancellation lets the user's live limits reach 512 MiB |
| Throttle.BlockSpan | src/remote_dev/database.py:330-332 | a blocked login is admitted exactly at `blocked_until` or one second and more after it |
| Throttle.HeaderRoundsUp | src/remote_dev/app.py:134-141 | during the block `Retry-After` is the remaining time rounded up (section 10.2.3 of RFC 9110) |
| Throttle.WaitingAsTold | src/remote_dev/app.py:134-141 | waiting exactly that long is enough if and only if a whole number of seconds was left |
| Throttle.StoredCountBounded | src/remote_dev/database.py:334-358 | the stored count is always between one and five |
| Throttle.ThrottleBound | src/remote_dev/database.py:334-358 | any half-open fifteen minutes hold at most eight evaluated failures |
| Throttle.ThrottleBoundIsTight | src/remote_dev/database.py:334-358 | eight is attained across a window boundary |
| Throttle.LoginFailures.LoginRetryAfter | src/remote_dev/database.py:322-332 | the waiting time of the login's row |
| Throttle.LoginFailures.RecordLoginFailure | src/remote_dev/database.py:334-358 | one row is updated: counted in its window or in a new one |
| Throttle.LoginFailures.ClearLoginFailures | src/remote_dev/database.py:360-365 | the one row is removed |
| Throttle.LoginFailures.HandleLogin | src/remote_dev/app.py:143-160 | limit, password, then record or clear; a failing request is one step of the history the bound is about |
| Comments.StripComments | src/remote_dev/headers.py:14-38 | the scanner loop computes the stripped text that the laws below determine |
| Comments.LawfulIff | src/remote_dev/headers.py:14-38 | stripping keeps a text without a comment, and blanks the first comment, newlines kept, before stripping what follows it; no other function does that on all texts |
| Comments.StripKeepsLines | src/remote_dev/headers.py:14-38 | same length, newlines exactly where they were |
| Comments.StripIsIdempotent | src/remote_dev/headers.py:14-38 | no comment opener is left, and stripping twice is stripping once |
| Comments.FoldCountsLines | src/remote_dev/headers.py:42-42 | folding continuations loses exactly one newline each |
| Comments.FoldLaws | src/remote_dev/headers.py:42-42 | a text without continuations is kept, and each continuation becomes one blank, whatever stands around it |
| Comments.OriginIsSource | src/remote_dev/headers.py:42-47 | each character of the folded text is the one at its origin, or the blank for the continuation there |
| Comments.ReportedLineIsShort | src/remote_dev/headers.py:42-47 | the reported line plus the continuations folded before it is the physical line |
| Bootstrap.InvKept | src/remote_dev/cli.py:97-184 | every operation, failing call and crash keeps the invariant: in every possible aftermath a committed row is backed by its token and there is at most one staging file |
| Bootstrap.BootstrapSafety | src/remote_dev/cli.py:110-184 | over any sequence of runs, failures, crashes and retries a committed row has a token on disk that hashes to the stored value, now and after any crash |
| Bootstrap.CredentialNotOverwritten | src/remote_dev/cli.py:139-170 | no operation replaces or changes an existing credential |
| Convergence.RetryDecision | src/remote_dev/cli.py:110-151 | a retry is refused exactly when there is no row, and a credential or an empty staging file is in the way |
| Convergence.RetrySucceedsIff | src/remote_dev/cli.py:97-184 | from every state that runs of one request, failing calls and crashes lead to, one undisturbed retry succeeds if and only if it is not so blocked; it changes no committed hash, success passes the per-instance checks, refusal changes nothing |
| Convergence.RetryConverges | src/remote_dev/cli.py:97-184 | after crashes alone the one obstacle is an empty staging file |
| Convergence.SuccessIsVerified | src/remote_dev/verify_bootstrap.py:85-107 | a successful end satisfies the credential and workspace checks |
| Convergence.EmptyStagingIsReachable | src/remote_dev/cli.py:92-93 | a crash at the wrong moment does leave an empty staging file |
| Convergence.LeftoverCredentialIsReachable | src/remote_dev/cli.py:168-184 | a failed unlink and a successful compensation do leave a credential without its row |
| BootstrapProgram.Instance.BootstrapInstance | src/remote_dev/cli.py:97-184 | a request not accepted, in conflict with the users, or with a foreign file in its way is refused and changes nothing; success means the row asked for and the credential of this owner in place; no other row is touched; without a failing call it succeeds if and only if it is not refused; the invariant is kept, and the calls made are the protocol's |
| BootstrapRules.RefusedIff | src/remote_dev/cli.py:102-151 | the first reads refuse if and only if the request is not accepted, conflicts with the users, or meets a file that is not its own, a credential without a row or an empty staging file |
| BootstrapRules.ProgressKept | src/remote_dev/cli.py:97-184 | at every operation of a run: which rows have changed since its start, whose file is staged or published, and what it holds |
| BootstrapProgram.FollowAnswers | src/remote_dev/cli.py:97-184 | what any number of operations under any failing calls answers and leaves, told from the users and the directory found |
| BootstrapProgram.Instance.RunFromDecision | src/remote_dev/cli.py:102-157 | the branches taken on the first reads are those whose refusals and effects `BootstrapInstance` states |
| BootstrapProgram.Instance.Recover | src/remote_dev/cli.py:113-142 | the recovery branch follows the protocol |
| BootstrapProgram.Instance.StageToken | src/remote_dev/cli.py:153-157 | exclusive creation of the staging file |
| BootstrapProgram.Instance.FillAndCommit | src/remote_dev/cli.py:159-167 | token and name made durable before the row is committed |
| BootstrapProgram.Instance.Publish | src/remote_dev/cli.py:168-184 | link without replacing, unlink, sync, with compensation |
| BootstrapProgram.Instance.CompensateRow | src/remote_dev/cli.py:171-179 | the row is deleted, or the staging file is preserved |
| BootstrapProgram.Instance.RemoveTemporary | src/remote_dev/cli.py:182-184 | the `finally` clause |

## Left out

- Tables: rows are kept in sequences, so gaps in AUTOINCREMENT ids and deletion of rows are not modelled; SQLite itself is reduced to atomic steps.
- Clocks: every reading is a parameter; timestamps are integers of microseconds, which IsoTime justifies.
- effective_limits: only the in-flight limit is used by the modelled functions; its memory and time values are not modelled.
- Runs: a report with a number of more than 64 bits is still a step there, so the results on runs cover more runs than there are.
- create_grant: who created the grant is not modelled.
- get_job: the rows returned by `create_job` and the cancel functions are not modelled, only whether there is one.
- JSON: the reader takes the compact text both ends write; whitespace between tokens, fractions, exponents, escaped surrogate pairs and Python's limit of 4,300 digits on an integer are not modelled.
- UTF-8: unpaired surrogates, which make encoding raise, are outside Dafny's characters.
- RequestHandler: peer credentials and threads are not modelled; of the exceptions answered as `internal_error` only the one for integers outside SQLite's 64 bits is, not those of a locked or broken database.
- BrokeredWorker: one turn is a sequence of calls with nothing in between (what other operations can do to a row meanwhile is `Lifecycle.JobLifecycle`); both ends have one message limit; the answers to cancellation checks made while a case runs enter through the observations of the case (one check is `IsCancelRequested`); a lost connection appears only as an answer above the limit.
- Processes: subprocess, bubblewrap, seccomp, rlimits and `/proc` are replaced by what the code observes; whitespace stripping of the compiler's stderr is not modelled.
- Cgroups: `compile_group`, `activate`, `discover` and the reading of `memory.events` are not modelled; the real backend is not, only the in-memory one.
- TwoLayer: slots are values in one state machine rather than threads; the stop event is not modelled, and no exception inside a case is assumed, since it would leave a group behind.
- Bootstrap: whether an entry is a symbolic link or a regular file, other instances' entries, and the environment, port and Caddy checks are not modelled; the token hash is an uninterpreted function; `accepted` sums up the roster, password and workspace checks.
- Comments: the directive pattern and the classification of headers are not modelled.
- Throttle: the audit entry and the session issued on success are not modelled.
- Not modelled at all: users and sessions, header policy, extensions, audit log, gateway configuration, deployment scripts and the editor extension, which would add only one-branch members.
