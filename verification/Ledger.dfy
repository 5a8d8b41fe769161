/**
 The tables behind the scheduler (database.py) and what one statement or one transaction does to
 them. Rows of `jobs` and `quota_grants` are never deleted and their ids are handed out by
 AUTOINCREMENT, so a table is the sequence of its rows: id n is the row at index n - 1.
 The rows of `job_cases` for one job have positions 1..n and are kept inside the job row.
 */
module Ledger {
  import opened Common
  import opened Results

  type UserId = nat

  const MAX_USER_INFLIGHT := 5
  const MAX_USER_RUNNING_MEMORY_MIB := 256

  datatype CaseRow = CaseRow(
    input: string, status: Status, stdout: string, stderr: string,
    wallMs: Option<int>, peakKib: Option<int>, exitCode: Option<int>, termSignal: Option<int>,
    truncated: bool)

  datatype Job = Job(
    user: UserId, filename: string, source: string, compiler: string, timeLimit: nat, memory: nat,
    status: Status, createdAt: Instant, startedAt: Option<Instant>, finishedAt: Option<Instant>,
    cancelRequested: bool, compile: Option<CompileResult>, grant: Option<nat>, cases: seq<CaseRow>)

  datatype Grant = Grant(
    user: UserId, memory: Option<nat>, time: Option<nat>, maxInflight: Option<nat>,
    remaining: Option<int>, expiresAt: Option<Instant>, active: bool)

  datatype Tables = Tables(jobs: seq<Job>, grants: seq<Grant>)

  /** What a submission asks for. */
  datatype Payload = Payload(
    filename: string, source: string, compiler: string, timeLimit: nat, memory: nat, inputs: seq<string>)

  /** The request contract checked before the database is reached (schemas.py, JobCreate). */
  predicate ValidPayload(p: Payload) {
    100 <= p.timeLimit <= 600_000 && 16 <= p.memory <= 4096 && 1 <= |p.inputs| <= 20
  }

  /** What an administrator grants; a duration in seconds. */
  datatype GrantPayload = GrantPayload(
    memory: Option<nat>, time: Option<nat>, maxInflight: Option<nat>, uses: Option<int>, expiresIn: Option<nat>)

  /** schemas.py, GrantCreate. */
  predicate ValidGrantPayload(p: GrantPayload) {
    && (p.memory.Some? ==> 16 <= p.memory.value <= 4096) && (p.time.Some? ==> 100 <= p.time.value <= 600_000)
    && (p.maxInflight.Some? ==> 1 <= p.maxInflight.value <= 20) && (p.uses.Some? ==> 1 <= p.uses.value <= 10_000)
    && (p.expiresIn.Some? ==> 60 <= p.expiresIn.value <= 31_536_000)
  }

  function IssuedGrant(u: UserId, p: GrantPayload, now: Instant): Grant {
    Grant(u, p.memory, p.time, p.maxInflight, p.uses,
          if p.expiresIn.None? then None else Some(now + p.expiresIn.value * 1_000_000), true)
  }

  // ----- weights summed by the SQL aggregates -----

  function MemoryOf(u: UserId): Job -> int {
    (j: Job) => if j.user == u && Active(j.status) then j.memory else 0
  }

  function UnfinishedOf(u: UserId): Job -> int {
    (j: Job) => if j.user == u && !Terminal(j.status) then 1 else 0
  }

  function StartedUnder(g: nat): Job -> int {
    (j: Job) => if j.grant == Some(g) && j.startedAt.Some? then 1 else 0
  }

  function QueuedOne(): Job -> int {
    (j: Job) => if j.status.Queued? then 1 else 0
  }

  /** SUM(memory_limit_mib) over the user's active jobs. */
  function ActiveMemory(jobs: seq<Job>, u: UserId): int {
    Sum(jobs, MemoryOf(u))
  }

  /** COUNT(*) of the user's queued, compiling and running jobs. */
  function Inflight(jobs: seq<Job>, u: UserId): int {
    Sum(jobs, UnfinishedOf(u))
  }

  function QueueLength(jobs: seq<Job>): int {
    Sum(jobs, QueuedOne())
  }

  // ----- grants -----

  predicate GrantValid(g: Grant, now: Instant) {
    g.active && (g.expiresAt.None? || now < g.expiresAt.value) && (g.remaining.None? || 0 < g.remaining.value)
  }

  predicate Covers(g: Grant, p: Payload) {
    && (p.memory <= 256 || (g.memory.Some? && p.memory <= g.memory.value))
    && (p.timeLimit <= 60_000 || (g.time.Some? && p.timeLimit <= g.time.value))
  }

  predicate NeedsGrant(p: Payload) {
    256 < p.memory || 60_000 < p.timeLimit
  }

  /** `max([5] + [r["max_inflight"] for valid grants r of the user])`. */
  function EffectiveInflight(grants: seq<Grant>, u: UserId, now: Instant): nat {
    if grants == [] then MAX_USER_INFLIGHT
    else
      var g := grants[|grants| - 1];
      var rest := EffectiveInflight(grants[..|grants| - 1], u, now);
      if g.user == u && GrantValid(g, now) && g.maxInflight.Some? then Max(rest, g.maxInflight.value) else rest
  }

  /** The largest in-flight allowance the user was ever given. */
  function InflightCap(grants: seq<Grant>, u: UserId): nat {
    if grants == [] then MAX_USER_INFLIGHT
    else
      var g := grants[|grants| - 1];
      var rest := InflightCap(grants[..|grants| - 1], u);
      if g.user == u && g.maxInflight.Some? then Max(rest, g.maxInflight.value) else rest
  }

  /** The largest memory limit the user was ever given, at least the default reservation. */
  function MemoryCap(grants: seq<Grant>, u: UserId): nat {
    if grants == [] then MAX_USER_RUNNING_MEMORY_MIB
    else
      var g := grants[|grants| - 1];
      var rest := MemoryCap(grants[..|grants| - 1], u);
      if g.user == u && g.memory.Some? then Max(rest, g.memory.value) else rest
  }

  // ----- ORDER BY ... LIMIT 1 -----

  /** A row's sort key: up to five integer columns, compared left to right. */
  datatype Key = Key(a: int, b: int, c: int, d: int, e: int)

  predicate KeyLess(x: Key, y: Key) {
    if x.a != y.a then x.a < y.a
    else if x.b != y.b then x.b < y.b
    else if x.c != y.c then x.c < y.c
    else if x.d != y.d then x.d < y.d
    else x.e < y.e
  }

  /** SELECT ... WHERE ok ORDER BY key LIMIT 1 over the row indices below n. */
  function Best(n: nat, ok: nat -> bool, key: nat -> Key): Option<nat> {
    if n == 0 then None
    else
      var rest := Best(n - 1, ok, key);
      if ok(n - 1) && (rest.None? || KeyLess(key(n - 1), key(rest.value))) then Some(n - 1) else rest
  }

  lemma {:induction false} BestIsLeast(n: nat, ok: nat -> bool, key: nat -> Key)
    ensures Best(n, ok, key).None? ==> forall i: nat :: i < n ==> !ok(i)
    ensures var r := Best(n, ok, key);
            r.Some? ==> r.value < n && ok(r.value) && forall i: nat :: i < n && ok(i) ==> !KeyLess(key(i), key(r.value))
  {
    if n > 0 {
      BestIsLeast(n - 1, ok, key);
    }
  }

  function GrantFits(t: Tables, u: UserId, p: Payload, now: Instant): nat -> bool {
    (i: nat) => i < |t.grants| && t.grants[i].user == u && GrantValid(t.grants[i], now) && Covers(t.grants[i], p)
  }

  /** ORDER BY (expires_at IS NULL), expires_at, id. */
  function GrantKey(t: Tables): nat -> Key {
    (i: nat) =>
      if i < |t.grants| then
        (match t.grants[i].expiresAt
         case None => Key(1, 0, i, 0, 0)
         case Some(x) => Key(0, x, i, 0, 0))
      else Key(2, 0, 0, 0, 0)
  }

  function PickGrant(t: Tables, u: UserId, p: Payload, now: Instant): Option<nat> {
    Best(|t.grants|, GrantFits(t, u, p, now), GrantKey(t))
  }

  // ----- the claim query -----

  /** COALESCE(memory of the job's own valid grant, 256). */
  function Allowance(t: Tables, j: Job, now: Instant): nat {
    match j.grant
    case None => MAX_USER_RUNNING_MEMORY_MIB
    case Some(g) =>
      if g < |t.grants| && GrantValid(t.grants[g], now) && t.grants[g].memory.Some?
      then t.grants[g].memory.value
      else MAX_USER_RUNNING_MEMORY_MIB
  }

  /** The WHERE clause of the `eligible` rows. */
  predicate Eligible(t: Tables, i: nat, now: Instant) {
    && i < |t.jobs|
    && t.jobs[i].status.Queued? && !t.jobs[i].cancelRequested
    && ActiveMemory(t.jobs, t.jobs[i].user) + t.jobs[i].memory <= Allowance(t, t.jobs[i], now)
  }

  /** MAX(started_at) over the user's jobs. */
  function LastClaimed(jobs: seq<Job>, u: UserId): Option<Instant> {
    if jobs == [] then None
    else
      var j := jobs[|jobs| - 1];
      var rest := LastClaimed(jobs[..|jobs| - 1], u);
      if j.user == u && j.startedAt.Some? && (rest.None? || rest.value < j.startedAt.value) then j.startedAt else rest
  }

  predicate QueuedBefore(t: Tables, k: nat, i: nat)
    requires k < |t.jobs| && i < |t.jobs|
  {
    t.jobs[k].createdAt < t.jobs[i].createdAt || (t.jobs[k].createdAt == t.jobs[i].createdAt && k < i)
  }

  /** Eligible rows of the same user that sort before row i, among the rows below n. */
  function RowsBefore(t: Tables, i: nat, now: Instant, n: nat): nat
    requires i < |t.jobs| && n <= |t.jobs|
  {
    if n == 0 then 0
    else
      RowsBefore(t, i, now, n - 1) +
      (if Eligible(t, n - 1, now) && t.jobs[n - 1].user == t.jobs[i].user && QueuedBefore(t, n - 1, i) then 1 else 0)
  }

  /** ROW_NUMBER() OVER (PARTITION BY user_id ORDER BY created_at, id). */
  function QueuePosition(t: Tables, i: nat, now: Instant): nat
    requires i < |t.jobs|
  {
    1 + RowsBefore(t, i, now, |t.jobs|)
  }

  function HeadRow(t: Tables, now: Instant): nat -> bool {
    (i: nat) => Eligible(t, i, now) && QueuePosition(t, i, now) == 1
  }

  /** (last_claimed_at IS NOT NULL), last_claimed_at, user_id. */
  function UserKey(jobs: seq<Job>, u: UserId): Key {
    match LastClaimed(jobs, u)
    case None => Key(0, 0, u, 0, 0)
    case Some(x) => Key(1, x, u, 0, 0)
  }

  function HeadKey(t: Tables): nat -> Key {
    (i: nat) => if i < |t.jobs| then UserKey(t.jobs, t.jobs[i].user) else Key(2, 0, 0, 0, 0)
  }

  /** The claim query as written: number the eligible rows per user, keep the heads, sort the users. */
  function ClaimQuery(t: Tables, now: Instant): Option<nat> {
    Best(|t.jobs|, HeadRow(t, now), HeadKey(t))
  }

  // ----- claim -----

  datatype Claim = Nothing | DeadGrant(job: nat) | Started(job: nat)

  /** Every case row of the job set to cancelled; the reason replaces stderr when there is one. */
  function CancelAll(cases: seq<CaseRow>, reason: Option<string>): seq<CaseRow> {
    seq(|cases|, i requires 0 <= i < |cases| =>
      cases[i].(status := Cancelled, stderr := if reason.Some? then reason.value else cases[i].stderr))
  }

  /** UPDATE job_cases SET status='cancelled', stderr=? WHERE status='queued'. */
  function CancelQueued(cases: seq<CaseRow>, reason: string): seq<CaseRow> {
    seq(|cases|, i requires 0 <= i < |cases| =>
      if cases[i].status.Queued? then cases[i].(status := Cancelled, stderr := reason) else cases[i])
  }

  function Charge(g: Grant): Grant {
    g.(remaining := if g.remaining.None? then None else Some(g.remaining.value - 1))
  }

  /** The outcome of the claim transaction; the three clock readings are separate `iso()` calls. */
  function ClaimOutcome(t: Tables, select: Instant, charge: Instant): Claim {
    match ClaimQuery(t, select)
    case None => Nothing
    case Some(i) =>
      if i < |t.jobs| && t.jobs[i].grant.Some?
         && !(t.jobs[i].grant.value < |t.grants| && GrantValid(t.grants[t.jobs[i].grant.value], charge))
      then DeadGrant(i)
      else Started(i)
  }

  function ClaimJob(t: Tables, select: Instant, charge: Instant, start: Instant): Tables {
    match ClaimOutcome(t, select, charge)
    case Nothing => t
    case DeadGrant(i) =>
      if i < |t.jobs| then
        var cancelled := CancelAll(t.jobs[i].cases, Some("temporary grant expired before execution"));
        t.(jobs := t.jobs[i := t.jobs[i].(status := Cancelled, finishedAt := Some(start), cases := cancelled)])
      else t
    case Started(i) =>
      if i < |t.jobs| then
        Tables(t.jobs[i := t.jobs[i].(status := Compiling, startedAt := Some(start))],
               if t.jobs[i].grant.Some? && t.jobs[i].grant.value < |t.grants|
               then t.grants[t.jobs[i].grant.value := Charge(t.grants[t.jobs[i].grant.value])]
               else t.grants)
      else t
  }

  // ----- what SQLite can hold -----

  /** Integers have 64 bits; binding any other raises OverflowError, and the transaction is rolled back. */
  const INTEGER_END := 0x8000_0000_0000_0000

  predicate Binds(n: int) {
    -INTEGER_END <= n < INTEGER_END
  }

  predicate NullableBinds(n: Option<int>) {
    n.Some? ==> Binds(n.value)
  }

  predicate CaseBinds(r: CaseResult) {
    && Binds(r.position) && NullableBinds(r.wallMs) && NullableBinds(r.peakKib)
    && NullableBinds(r.exitCode) && NullableBinds(r.termSignal)
  }

  /** Every number of the report can be stored. */
  predicate ReportBinds(e: ExecutionResult) {
    && NullableBinds(e.compile.exitCode) && NullableBinds(e.compile.wallMs)
    && forall k :: 0 <= k < |e.cases| ==> CaseBinds(e.cases[k])
  }

  // ----- the other statements -----

  function NewCases(inputs: seq<string>): seq<CaseRow> {
    seq(|inputs|, i requires 0 <= i < |inputs| => CaseRow(inputs[i], Queued, "", "", None, None, None, None, false))
  }

  /** The row a submission inserts. */
  function NewJob(u: UserId, p: Payload, grant: Option<nat>, now: Instant): Job {
    Job(u, p.filename, p.source, p.compiler, p.timeLimit, p.memory, Queued, now, None, None, false, None, grant,
        NewCases(p.inputs))
  }

  function InsertJob(t: Tables, u: UserId, p: Payload, grant: Option<nat>, now: Instant): Tables {
    t.(jobs := t.jobs + [NewJob(u, p, grant, now)])
  }

  /** UPDATE job_cases ... WHERE position = ?: a position without a row changes nothing. */
  function StoreResult(cases: seq<CaseRow>, r: CaseResult): seq<CaseRow> {
    if 1 <= r.position <= |cases| then
      cases[r.position - 1 := CaseRow(cases[r.position - 1].input, r.status, r.stdout, r.stderr,
                                      r.wallMs, r.peakKib, r.exitCode, r.termSignal, r.truncated)]
    else cases
  }

  function StoreResults(cases: seq<CaseRow>, results: seq<CaseResult>): seq<CaseRow> {
    if results == [] then cases
    else StoreResult(StoreResults(cases, results[..|results| - 1]), results[|results| - 1])
  }

  function UnrunReason(e: ExecutionResult): string {
    if !e.compile.status.Completed? then "not run because compilation did not complete"
    else "submission ended before this case started"
  }

  /** The row keeps every compile column the table has; `output_truncated` is not one of them. */
  function FinishedRow(j: Job, e: ExecutionResult, now: Instant): Job {
    var stored := CancelQueued(StoreResults(j.cases, e.cases), UnrunReason(e));
    j.(status := e.status, finishedAt := Some(now), compile := Some(e.compile.(truncated := false)), cases := stored)
  }

  /** `finish_job`: no status guard, and an unknown id changes nothing. */
  function FinishJob(t: Tables, i: nat, e: ExecutionResult, now: Instant): Tables {
    if i < |t.jobs| then t.(jobs := t.jobs[i := FinishedRow(t.jobs[i], e, now)]) else t
  }

  function Truncate(s: string, n: nat): string {
    if |s| <= n then s else s[..n]
  }

  function ErrorRow(j: Job, message: string, now: Instant): Job {
    var c := if j.compile.Some? then j.compile.value else CompileResult(SystemError, "", "", None, None, false);
    var compile := c.(status := SystemError, stderr := Truncate(message, 16_384));
    var ended := CancelQueued(j.cases, "runner internal error");
    j.(status := SystemError, finishedAt := Some(now), compile := Some(compile), cases := ended)
  }

  /** `mark_job_system_error`: no status guard either. */
  function MarkSystemError(t: Tables, i: nat, message: string, now: Instant): Tables {
    if i < |t.jobs| then t.(jobs := t.jobs[i := ErrorRow(t.jobs[i], message, now)]) else t
  }

  /** The write half of both cancel functions, driven by the status read earlier. */
  function CancelRow(j: Job, seen: Status, byUser: bool, now: Instant): Job {
    if seen.Queued? then
      var cancelled := CancelAll(j.cases, if byUser then Some("cancelled by user") else None);
      j.(status := Cancelled, cancelRequested := true, finishedAt := Some(now), cases := cancelled)
    else if Active(seen) then j.(cancelRequested := true)
    else j
  }

  function WriteCancel(t: Tables, i: nat, seen: Status, byUser: bool, now: Instant): Tables {
    if i < |t.jobs| then t.(jobs := t.jobs[i := CancelRow(t.jobs[i], seen, byUser, now)]) else t
  }

  function AddGrant(t: Tables, g: Grant): Tables {
    t.(grants := t.grants + [g])
  }

  /** `is_cancel_requested`; a missing row reads as false. */
  predicate CancelRequested(t: Tables, i: nat) {
    i < |t.jobs| && (t.jobs[i].cancelRequested || t.jobs[i].status.Cancelled?)
  }
}
