/**
 What the statements of the scheduler answer, told from the rows themselves: which grants count, which
 queued rows fit, which of them goes first, and how many unfinished jobs a user may have.
 */
module Rules {
  import opened Common
  import opened Results
  import opened Ledger
  import opened Runs
  import opened Lifecycle
  import opened Fairness

  /** Active, not expired, not used up. */
  predicate Usable(g: Grant, now: Instant) {
    && g.active
    && (g.expiresAt.Some? ==> now < g.expiresAt.value)
    && (g.remaining.Some? ==> 0 < g.remaining.value)
  }

  // ----- which rows fit -----

  /** The row's own grant is usable and has a memory limit. */
  predicate OwnLimit(t: Tables, j: Job, now: Instant) {
    && j.grant.Some? && j.grant.value < |t.grants|
    && Usable(t.grants[j.grant.value], now) && t.grants[j.grant.value].memory.Some?
  }

  /** Queued, not asked to be cancelled, and within its limit together with all its owner runs. */
  predicate Fits(t: Tables, i: nat, now: Instant) {
    && i < |t.jobs| && t.jobs[i].status.Queued? && !t.jobs[i].cancelRequested
    && ActiveMemory(t.jobs, t.jobs[i].user) + t.jobs[i].memory
       <= if OwnLimit(t, t.jobs[i], now) then t.grants[t.jobs[i].grant.value].memory.value else 256
  }

  lemma EligibleIffFits(t: Tables, i: nat, now: Instant)
    ensures Eligible(t, i, now) <==> Fits(t, i, now)
  {
  }

  // ----- which of them goes first -----

  ghost predicate NeverStarted(jobs: seq<Job>, u: UserId) {
    forall i :: 0 <= i < |jobs| && jobs[i].user == u ==> jobs[i].startedAt.None?
  }

  /** The user's most recent start. */
  ghost predicate LastStart(jobs: seq<Job>, u: UserId, x: Instant) {
    && (exists i :: 0 <= i < |jobs| && jobs[i].user == u && jobs[i].startedAt == Some(x))
    && forall i :: 0 <= i < |jobs| && jobs[i].user == u && jobs[i].startedAt.Some? ==> jobs[i].startedAt.value <= x
  }

  lemma {:induction false} LastClaimedIs(jobs: seq<Job>, u: UserId)
    ensures LastClaimed(jobs, u).None? <==> NeverStarted(jobs, u)
    ensures LastClaimed(jobs, u).Some? ==> LastStart(jobs, u, LastClaimed(jobs, u).value)
  {
    if jobs != [] {
      var n := |jobs| - 1;
      LastClaimedIs(jobs[..n], u);
      assert forall i :: 0 <= i < n ==> jobs[..n][i] == jobs[i];
    }
  }

  lemma LastStartIsUnique(jobs: seq<Job>, u: UserId, x: Instant, y: Instant)
    requires LastStart(jobs, u, x) && LastStart(jobs, u, y)
    ensures x == y
  {
  }

  /** User u is served before user v: never served yet, or longer ago; on a tie the smaller id. */
  ghost predicate ServedBefore(jobs: seq<Job>, u: UserId, v: UserId) {
    || (NeverStarted(jobs, u) && !NeverStarted(jobs, v))
    || (NeverStarted(jobs, u) && NeverStarted(jobs, v) && u < v)
    || exists x, y :: LastStart(jobs, u, x) && LastStart(jobs, v, y) && (x < y || (x == y && u < v))
  }

  /** Users in turn, and each user's jobs by creation, then id. */
  ghost predicate GoesFirst(t: Tables, i: nat, k: nat)
    requires i < |t.jobs| && k < |t.jobs|
  {
    var a, b := t.jobs[i], t.jobs[k];
    if a.user == b.user then a.createdAt < b.createdAt || (a.createdAt == b.createdAt && i < k)
    else ServedBefore(t.jobs, a.user, b.user)
  }

  /** The row a claim has to take. */
  ghost predicate Chosen(t: Tables, i: nat, now: Instant) {
    Fits(t, i, now) && forall k: nat :: Fits(t, k, now) && k != i ==> GoesFirst(t, i, k)
  }

  /** There is at most one. */
  lemma ChosenIsUnique(t: Tables, i: nat, k: nat, now: Instant)
    requires Chosen(t, i, now) && Chosen(t, k, now)
    ensures i == k
  {
    if i != k {
      assert GoesFirst(t, i, k) && GoesFirst(t, k, i);
      var u, v := t.jobs[i].user, t.jobs[k].user;
      if u != v {
        forall x, y | LastStart(t.jobs, u, x) && LastStart(t.jobs, u, y)
          ensures x == y
        {
          LastStartIsUnique(t.jobs, u, x, y);
        }
        forall x, y | LastStart(t.jobs, v, x) && LastStart(t.jobs, v, y)
          ensures x == y
        {
          LastStartIsUnique(t.jobs, v, x, y);
        }
      }
    }
  }

  lemma KeyGoesFirst(t: Tables, i: nat, k: nat)
    requires i < |t.jobs| && k < |t.jobs| && i != k && !KeyLess(FullKey(t)(k), FullKey(t)(i))
    ensures GoesFirst(t, i, k)
  {
    LastClaimedIs(t.jobs, t.jobs[i].user);
    LastClaimedIs(t.jobs, t.jobs[k].user);
  }

  /** A claim selects nothing exactly when no row fits, and otherwise the row that goes first. */
  lemma ClaimChooses(t: Tables, now: Instant)
    ensures ClaimQuery(t, now).None? <==> forall i: nat :: !Fits(t, i, now)
    ensures ClaimQuery(t, now).Some? ==> Chosen(t, ClaimQuery(t, now).value, now)
  {
    var r := ClaimQuery(t, now);
    forall i: nat | Fits(t, i, now)
      ensures r.Some? && Fits(t, r.value, now) && (i != r.value ==> GoesFirst(t, r.value, i))
    {
      EligibleIffFits(t, i, now);
      SelectedIsLeast(t, now, i);
      EligibleIffFits(t, r.value, now);
      if i != r.value {
        KeyGoesFirst(t, r.value, i);
      }
    }
    if r.Some? {
      ClaimSelects(t, now);
      EligibleIffFits(t, r.value, now);
    }
  }

  // ----- how a taken row is left -----

  /** Every case is cancelled; the reason replaces stderr when there is one. */
  ghost predicate AllCancelled(before: seq<CaseRow>, after: seq<CaseRow>, reason: Option<string>) {
    |after| == |before|
    && forall k :: 0 <= k < |before| ==>
                     after[k] == before[k].(status := Cancelled,
                     stderr := if reason.Some? then reason.value else before[k].stderr)
  }

  /** One use of the grant is spent, if its uses are counted. */
  predicate Spent(g: Grant, g': Grant) {
    g' == g.(remaining := g'.remaining)
    && (if g.remaining.None? then g'.remaining.None? else g'.remaining == Some(g.remaining.value - 1))
  }

  ghost predicate OneSpent(grants: seq<Grant>, grants': seq<Grant>, g: nat) {
    && g < |grants| == |grants'| && Spent(grants[g], grants'[g])
    && forall h :: 0 <= h < |grants| && h != g ==> grants'[h] == grants[h]
  }

  /** Only row i differs. */
  ghost predicate OnlyRow(jobs: seq<Job>, jobs': seq<Job>, i: nat) {
    i < |jobs| == |jobs'| && forall k :: 0 <= k < |jobs| && k != i ==> jobs'[k] == jobs[k]
  }

  /** The row's grant died before the charge: the job is cancelled with all its cases, and nobody is charged. */
  ghost predicate TurnedAway(t: Tables, t': Tables, i: nat, at: Instant) {
    && OnlyRow(t.jobs, t'.jobs, i) && t'.grants == t.grants
    && t'.jobs[i] == t.jobs[i].(status := Cancelled, finishedAt := Some(at), cases := t'.jobs[i].cases)
    && AllCancelled(t.jobs[i].cases, t'.jobs[i].cases, Some("temporary grant expired before execution"))
  }

  /** The job is started, and its grant charged. */
  ghost predicate TakenOn(t: Tables, t': Tables, i: nat, at: Instant) {
    && OnlyRow(t.jobs, t'.jobs, i)
    && t'.jobs[i] == t.jobs[i].(status := Compiling, startedAt := Some(at))
    && if t.jobs[i].grant.None? then t'.grants == t.grants else OneSpent(t.grants, t'.grants, t.jobs[i].grant.value)
  }

  predicate GrantHolds(t: Tables, j: Job, now: Instant) {
    j.grant.Some? ==> j.grant.value < |t.grants| && Usable(t.grants[j.grant.value], now)
  }

  /** What becomes of the chosen row, and the id returned. */
  ghost predicate Settled(t: Tables, t': Tables, i: nat, claimed: Option<nat>, charge: Instant, start: Instant)
    requires i < |t.jobs|
  {
    if GrantHolds(t, t.jobs[i], charge) then claimed == Some(i + 1) && TakenOn(t, t', i, start)
    else claimed.None? && TurnedAway(t, t', i, start)
  }

  /** What a claim does to the tables, and the id it returns. */
  ghost predicate ClaimAnswer(t: Tables, t': Tables, claimed: Option<nat>,
                              select: Instant, charge: Instant, start: Instant) {
    if forall i: nat :: !Fits(t, i, select) then claimed.None? && t' == t
    else exists i: nat :: Chosen(t, i, select) && Settled(t, t', i, claimed, charge, start)
  }

  lemma AnswerOf(t: Tables, t': Tables, claimed: Option<nat>, select: Instant, charge: Instant, start: Instant, i: nat)
    requires Chosen(t, i, select) && Settled(t, t', i, claimed, charge, start)
    ensures ClaimAnswer(t, t', claimed, select, charge, start)
  {
    assert Fits(t, i, select);
  }

  /** The id a claim returns. */
  function Returned(o: Ledger.Claim): Option<nat> {
    if o.Started? then Some(o.job + 1) else None
  }

  /** The three outcomes of a claim, told apart by what was selected. */
  lemma ClaimOfNone(t: Tables, select: Instant, charge: Instant, start: Instant)
    requires ClaimQuery(t, select).None?
    ensures ClaimOutcome(t, select, charge) == Nothing && ClaimJob(t, select, charge, start) == t
  {
  }

  lemma ClaimOfDead(t: Tables, select: Instant, charge: Instant, start: Instant, i: nat)
    requires ClaimQuery(t, select) == Some(i) && i < |t.jobs| && t.jobs[i].grant.Some?
    requires t.jobs[i].grant.value < |t.grants| && !GrantValid(t.grants[t.jobs[i].grant.value], charge)
    ensures ClaimOutcome(t, select, charge) == DeadGrant(i)
    ensures var cancelled := CancelAll(t.jobs[i].cases, Some("temporary grant expired before execution"));
            var j := t.jobs[i].(status := Cancelled, finishedAt := Some(start), cases := cancelled);
            ClaimJob(t, select, charge, start) == t.(jobs := t.jobs[i := j])
  {
  }

  lemma ClaimOfLive(t: Tables, select: Instant, charge: Instant, start: Instant, i: nat)
    requires ClaimQuery(t, select) == Some(i) && i < |t.jobs|
    requires var g := t.jobs[i].grant; g.Some? ==> g.value < |t.grants| && GrantValid(t.grants[g.value], charge)
    ensures ClaimOutcome(t, select, charge) == Started(i)
    ensures var g := t.jobs[i].grant;
            ClaimJob(t, select, charge, start)
            == Tables(t.jobs[i := t.jobs[i].(status := Compiling, startedAt := Some(start))],
                      if g.Some? then t.grants[g.value := Charge(t.grants[g.value])] else t.grants)
  {
  }

  lemma DeadMeetsRules(t: Tables, select: Instant, charge: Instant, start: Instant, i: nat)
    requires ClaimQuery(t, select) == Some(i) && i < |t.jobs| && !GrantHolds(t, t.jobs[i], charge)
    ensures ClaimOutcome(t, select, charge) == DeadGrant(i)
    ensures TurnedAway(t, ClaimJob(t, select, charge, start), i, start)
  {
  }

  lemma LiveMeetsRules(t: Tables, select: Instant, charge: Instant, start: Instant, i: nat)
    requires ClaimQuery(t, select) == Some(i) && i < |t.jobs| && GrantHolds(t, t.jobs[i], charge)
    ensures ClaimOutcome(t, select, charge) == Started(i)
    ensures TakenOn(t, ClaimJob(t, select, charge, start), i, start)
  {
    ClaimOfLive(t, select, charge, start, i);
  }

  lemma ClaimSettles(t: Tables, select: Instant, charge: Instant, start: Instant, i: nat)
    requires ClaimQuery(t, select) == Some(i) && i < |t.jobs|
    ensures Settled(t, ClaimJob(t, select, charge, start), i, Returned(ClaimOutcome(t, select, charge)), charge, start)
  {
    if GrantHolds(t, t.jobs[i], charge) {
      LiveMeetsRules(t, select, charge, start, i);
    } else {
      DeadMeetsRules(t, select, charge, start, i);
    }
  }

  /** Every claim answers so. */
  lemma ClaimMeetsRules(t: Tables, t': Tables, claimed: Option<nat>, select: Instant, charge: Instant, start: Instant)
    requires t' == ClaimJob(t, select, charge, start) && claimed == Returned(ClaimOutcome(t, select, charge))
    ensures ClaimAnswer(t, t', claimed, select, charge, start)
  {
    ClaimChooses(t, select);
    var r := ClaimQuery(t, select);
    if r.None? {
      ClaimOfNone(t, select, charge, start);
    } else {
      ClaimSettles(t, select, charge, start, r.value);
      AnswerOf(t, t', claimed, select, charge, start, r.value);
    }
  }

  // ----- how many jobs a user may have -----

  /** The user's queued, compiling and running jobs. */
  ghost function Unfinished(jobs: seq<Job>, u: UserId): set<nat> {
    set i: nat | i < |jobs| && jobs[i].user == u
                 && (jobs[i].status.Queued? || jobs[i].status.Compiling? || jobs[i].status.Running?)
  }

  lemma {:induction false} InflightCounts(jobs: seq<Job>, u: UserId)
    ensures Inflight(jobs, u) == |Unfinished(jobs, u)|
  {
    if jobs != [] {
      var n := |jobs| - 1;
      InflightCounts(jobs[..n], u);
      if n in Unfinished(jobs, u) {
        assert Unfinished(jobs, u) == Unfinished(jobs[..n], u) + {n};
      } else {
        assert Unfinished(jobs, u) == Unfinished(jobs[..n], u);
      }
    }
  }

  /** n unfinished jobs are as many as the user may have: five, or what a usable grant allows. */
  ghost predicate AtLimit(grants: seq<Grant>, u: UserId, n: int, now: Instant) {
    5 <= n
    && forall g :: 0 <= g < |grants| && grants[g].user == u && Usable(grants[g], now) && grants[g].maxInflight.Some? ==>
                     grants[g].maxInflight.value <= n
  }

  lemma {:induction false} LimitReached(grants: seq<Grant>, u: UserId, n: int, now: Instant)
    ensures EffectiveInflight(grants, u, now) <= n <==> AtLimit(grants, u, n, now)
  {
    if grants != [] {
      var m := |grants| - 1;
      LimitReached(grants[..m], u, n, now);
      assert forall g :: 0 <= g < m ==> grants[..m][g] == grants[g];
    }
  }

  // ----- which grant a submission takes -----

  /** Above 256 MiB or above 60 s. */
  predicate Ordinary(p: Payload) {
    p.memory <= 256 && p.timeLimit <= 60_000
  }

  /** The grant allows whatever the submission asks for beyond the ordinary. */
  predicate Allows(g: Grant, p: Payload) {
    && (256 < p.memory ==> g.memory.Some? && p.memory <= g.memory.value)
    && (60_000 < p.timeLimit ==> g.time.Some? && p.timeLimit <= g.time.value)
  }

  predicate Offers(t: Tables, g: nat, u: UserId, p: Payload, now: Instant) {
    g < |t.grants| && t.grants[g].user == u && Usable(t.grants[g], now) && Allows(t.grants[g], p)
  }

  /** Grant g expires before grant h, an open-ended one last; on a tie it is the older one. */
  predicate Sooner(t: Tables, g: nat, h: nat)
    requires g < |t.grants| && h < |t.grants|
  {
    var x, y := t.grants[g].expiresAt, t.grants[h].expiresAt;
    (x.Some? && (y.None? || x.value < y.value)) || (x == y && g < h)
  }

  ghost predicate Soonest(t: Tables, g: nat, u: UserId, p: Payload, now: Instant) {
    Offers(t, g, u, p, now) && forall h: nat :: Offers(t, h, u, p, now) && h != g ==> Sooner(t, g, h)
  }

  /** No grant is taken exactly when none offers itself, and otherwise the one that expires soonest. */
  lemma PickedGrantIsBest(t: Tables, u: UserId, p: Payload, now: Instant)
    ensures PickGrant(t, u, p, now).None? <==> forall g: nat :: !Offers(t, g, u, p, now)
    ensures PickGrant(t, u, p, now).Some? ==> Soonest(t, PickGrant(t, u, p, now).value, u, p, now)
  {
    BestIsLeast(|t.grants|, GrantFits(t, u, p, now), GrantKey(t));
    assert forall g: nat :: GrantFits(t, u, p, now)(g) <==> Offers(t, g, u, p, now);
  }

  // ----- the inserted row -----

  ghost predicate FreshCases(cases: seq<CaseRow>, inputs: seq<string>) {
    |cases| == |inputs|
    && forall k :: 0 <= k < |inputs| ==> cases[k] == CaseRow(inputs[k], Queued, "", "", None, None, None, None, false)
  }

  /** One row is appended: queued, as submitted, bound to the grant, not started. */
  ghost predicate Inserted(t: Tables, t': Tables, u: UserId, p: Payload, grant: Option<nat>, now: Instant) {
    var n := |t.jobs|;
    && t'.grants == t.grants && |t'.jobs| == n + 1 && (forall i :: 0 <= i < n ==> t'.jobs[i] == t.jobs[i])
    && t'.jobs[n] == Job(u, p.filename, p.source, p.compiler, p.timeLimit, p.memory, Queued, now, None, None, false,
                         None, grant, t'.jobs[n].cases)
    && FreshCases(t'.jobs[n].cases, p.inputs)
  }

  lemma InsertMeetsRules(t: Tables, u: UserId, p: Payload, grant: Option<nat>, now: Instant)
    ensures Inserted(t, InsertJob(t, u, p, grant, now), u, p, grant, now)
  {
  }

  // ----- cancelling -----

  /** A queued job is cancelled with its cases, an active one is only asked to stop, an ended one is left alone. */
  ghost predicate CancelAnswer(j: Job, k: Job, byUser: bool, now: Instant) {
    if j.status.Queued? then
      && k == j.(status := Cancelled, cancelRequested := true, finishedAt := Some(now), cases := k.cases)
      && AllCancelled(j.cases, k.cases, if byUser then Some("cancelled by user") else None)
    else if j.status.Compiling? || j.status.Running? then k == j.(cancelRequested := true)
    else k == j
  }

  lemma CancelMeetsRules(j: Job, byUser: bool, now: Instant)
    ensures CancelAnswer(j, CancelRow(j, j.status, byUser, now), byUser, now)
  {
  }

  // ----- reports -----

  /** No result is for case k. */
  predicate NoResult(results: seq<CaseResult>, k: nat) {
    forall r :: 0 <= r < |results| ==> results[r].position != k + 1
  }

  /** The result for case k is number r: a later one for the same case replaces an earlier one. */
  predicate LastResult(results: seq<CaseResult>, k: nat, r: nat) {
    r < |results| && results[r].position == k + 1
    && forall q :: r < q < |results| ==> results[q].position != k + 1
  }

  function RowOf(input: string, r: CaseResult): CaseRow {
    CaseRow(input, r.status, r.stdout, r.stderr, r.wallMs, r.peakKib, r.exitCode, r.termSignal, r.truncated)
  }

  /** A case still queued is cancelled for the given reason; any other is left as it is. */
  predicate Swept(before: CaseRow, after: CaseRow, reason: string) {
    after == if before.status.Queued? then before.(status := Cancelled, stderr := reason) else before
  }

  ghost predicate CaseStored(before: CaseRow, after: CaseRow, results: seq<CaseResult>, k: nat) {
    if NoResult(results, k) then after == before
    else exists r: nat :: LastResult(results, k, r) && after == RowOf(before.input, results[r])
  }

  lemma OneMoreResult(before: CaseRow, stored: CaseRow, results: seq<CaseResult>, last: CaseResult, k: nat)
    requires CaseStored(before, stored, results, k)
    ensures CaseStored(before, if last.position == k + 1 then RowOf(before.input, last) else stored,
                       results + [last], k)
  {
    var all := results + [last];
    if last.position == k + 1 {
      assert LastResult(all, k, |results|) && !NoResult(all, k);
    } else if !NoResult(results, k) {
      var r: nat :| LastResult(results, k, r) && stored == RowOf(before.input, results[r]);
      assert all[r] == results[r] && LastResult(all, k, r) && !NoResult(all, k);
    }
  }

  lemma {:induction false} StoredIsLast(cases: seq<CaseRow>, results: seq<CaseResult>, k: nat)
    requires k < |cases|
    ensures |StoreResults(cases, results)| == |cases|
    ensures StoreResults(cases, results)[k].input == cases[k].input
    ensures CaseStored(cases[k], StoreResults(cases, results)[k], results, k)
  {
    if results != [] {
      var n := |results| - 1;
      StoredIsLast(cases, results[..n], k);
      OneMoreResult(cases[k], StoreResults(cases, results[..n])[k], results[..n], results[n], k);
      assert results == results[..n] + [results[n]];
    }
  }

  /** The verdict, the compile columns, every result in the row of its case, and nothing left queued. */
  ghost predicate ReportAnswer(j: Job, k: Job, e: ExecutionResult, now: Instant) {
    && k == j.(status := e.status, finishedAt := Some(now), compile := Some(e.compile.(truncated := false)),
            cases := k.cases)
    && |k.cases| == |j.cases|
    && forall i :: 0 <= i < |j.cases| ==> CaseReported(j.cases[i], k.cases[i], e, i)
  }

  function ReasonLeft(e: ExecutionResult): string {
    if e.compile.status.Completed? then "submission ended before this case started"
    else "not run because compilation did not complete"
  }

  ghost predicate CaseReported(before: CaseRow, after: CaseRow, e: ExecutionResult, i: nat) {
    exists stored :: CaseStored(before, stored, e.cases, i) && Swept(stored, after, ReasonLeft(e))
  }

  lemma ReportMeetsRules(j: Job, e: ExecutionResult, now: Instant)
    ensures ReportAnswer(j, FinishedRow(j, e, now), e, now)
  {
    var k, stored := FinishedRow(j, e, now), StoreResults(j.cases, e.cases);
    StoreKeepsLength(j.cases, e.cases);
    forall i | 0 <= i < |j.cases|
      ensures CaseReported(j.cases[i], k.cases[i], e, i)
    {
      StoredIsLast(j.cases, e.cases, i);
      assert CaseStored(j.cases[i], stored[i], e.cases, i);
    }
  }

  function CompiledBefore(j: Job): CompileResult {
    if j.compile.Some? then j.compile.value else CompileResult(SystemError, "", "", None, None, false)
  }

  /** A system error: the message, cut, in the compile columns, and nothing left queued; what was stored stays. */
  ghost predicate ErrorAnswer(j: Job, k: Job, message: string, now: Instant) {
    && k == j.(status := SystemError, finishedAt := Some(now), compile := k.compile, cases := k.cases)
    && k.compile.Some?
    && k.compile.value == CompiledBefore(j).(status := SystemError, stderr := k.compile.value.stderr)
    && k.compile.value.stderr == (if |message| <= 16_384 then message else message[..16_384])
    && |k.cases| == |j.cases|
    && forall i :: 0 <= i < |j.cases| ==> Swept(j.cases[i], k.cases[i], "runner internal error")
  }

  lemma ErrorMeetsRules(jobs: seq<Job>, i: nat, message: string, now: Instant)
    requires i < |jobs|
    ensures OnlyRow(jobs, jobs[i := ErrorRow(jobs[i], message, now)], i)
    ensures ErrorAnswer(jobs[i], ErrorRow(jobs[i], message, now), message, now)
  {
  }
}
