/** The `Database` operations as they mutate the tables, one call at a time. */
module DatabaseStore {
  import opened Common
  import opened Results
  import opened Ledger
  import opened Runs
  import opened Quotas
  import opened Rules

  datatype Refusal = InflightLimit | QuotaExceeded

  /** The decision `create_job` reaches when no other call runs between its statements. */
  function Admission(t: Tables, u: UserId, p: Payload, limitsAt: Instant, grantAt: Instant)
    : Result<Option<nat>, Refusal>
  {
    if Inflight(t.jobs, u) >= EffectiveInflight(t.grants, u, limitsAt) then Err(InflightLimit)
    else if NeedsGrant(p) then
      var g := PickGrant(t, u, p, grantAt);
      if g.None? then Err(QuotaExceeded) else Ok(g)
    else Ok(None)
  }

  /** What an undisturbed `create_job` answers, told from the rows. */
  ghost predicate CreateAnswer(t: Tables, t': Tables, r: Result<nat, Refusal>, u: UserId, p: Payload,
                               limitsAt: Instant, grantAt: Instant, now: Instant) {
    if AtLimit(t.grants, u, |Unfinished(t.jobs, u)|, limitsAt) then r == Err(InflightLimit) && t' == t
    else if Ordinary(p) then r == Ok(|t.jobs| + 1) && Inserted(t, t', u, p, None, now)
    else if forall g: nat :: !Offers(t, g, u, p, grantAt) then r == Err(QuotaExceeded) && t' == t
    else
      exists g: nat :: Soonest(t, g, u, p, grantAt) && r == Ok(|t.jobs| + 1) && Inserted(t, t', u, p, Some(g), now)
  }

  lemma CreateMeetsRules(t: Tables, t': Tables, r: Result<nat, Refusal>, u: UserId, p: Payload,
                         limitsAt: Instant, grantAt: Instant, now: Instant)
    requires match Admission(t, u, p, limitsAt, grantAt)
             case Ok(g) => r == Ok(|t.jobs| + 1) && t' == InsertJob(t, u, p, g, now)
             case Err(e) => r == Err(e) && t' == t
    ensures CreateAnswer(t, t', r, u, p, limitsAt, grantAt, now)
  {
    InflightCounts(t.jobs, u);
    LimitReached(t.grants, u, |Unfinished(t.jobs, u)|, limitsAt);
    PickedGrantIsBest(t, u, p, grantAt);
    var a := Admission(t, u, p, limitsAt, grantAt);
    if a.Ok? {
      InsertMeetsRules(t, u, p, a.value, now);
    }
  }

  /** The four statements of `create_job`, run back to back. */
  function CreateEvents(w: World, u: UserId, p: Payload, limitsAt: Instant, grantAt: Instant, now: Instant)
    : seq<Event>
  {
    [CountInflight(u, p), ReadLimits(|w.calls|, limitsAt), ReadGrant(|w.calls|, grantAt), Insert(|w.calls|, now)]
  }

  lemma RunFour(w: World, a: Event, b: Event, c: Event, d: Event)
    ensures Run(w, [a, b, c, d]) == Apply(Apply(Apply(Apply(w, a), b), c), d)
  {
    assert [a, b, c, d][1..] == [b, c, d] && [b, c, d][1..] == [c, d] && [c, d][1..] == [d] && [d][1..] == [];
    assert Run(Apply(w, a), [b, c, d]) == Run(Apply(Apply(w, a), b), [c, d]);
    assert Run(Apply(Apply(w, a), b), [c, d]) == Run(Apply(Apply(Apply(w, a), b), c), [d]);
  }

  lemma LimitsStep(w: World, c: nat, u: UserId, p: Payload, n: int, now: Instant)
    requires c < |w.calls| && w.calls[c] == Counted(u, p, n)
    ensures Apply(w, ReadLimits(c, now))
         == SetCall(w, c, if n >= EffectiveInflight(w.t.grants, u, now) then Done else Checked(u, p, n))
  {
  }

  lemma PickStep(w: World, c: nat, u: UserId, p: Payload, n: int, now: Instant)
    requires c < |w.calls| && w.calls[c] == Checked(u, p, n)
    ensures Apply(w, ReadGrant(c, now))
         == SetCall(w, c, if NeedsGrant(p) && PickGrant(w.t, u, p, now).None? then Done
                    else Picked(u, p, n, if NeedsGrant(p) then PickGrant(w.t, u, p, now) else None))
  {
  }

  lemma InsertStep(w: World, c: nat, u: UserId, p: Payload, n: int, grant: Option<nat>, now: Instant)
    requires c < |w.calls| && w.calls[c] == Picked(u, p, n, grant)
    ensures Apply(w, Insert(c, now)) == World(InsertJob(w.t, u, p, grant, now), w.calls[c := Done])
  {
  }

  /** A refused call has nothing more to do. */
  lemma RefusedStep(w: World, c: nat, e: Event)
    requires c < |w.calls| && w.calls[c].Done? && ((e.ReadGrant? && e.call == c) || (e.Insert? && e.call == c))
    ensures Apply(w, e) == w
  {
  }

  /** From its count on, the call reaches the decision and inserts or not. */
  lemma CountedGoesOn(w: World, c: nat, u: UserId, p: Payload, n: int,
                      limitsAt: Instant, grantAt: Instant, now: Instant)
    requires c < |w.calls| && w.calls[c] == Counted(u, p, n) && n == Inflight(w.t.jobs, u)
    ensures var a := Admission(w.t, u, p, limitsAt, grantAt);
            Apply(Apply(Apply(w, ReadLimits(c, limitsAt)), ReadGrant(c, grantAt)), Insert(c, now))
            == World(if a.Ok? then InsertJob(w.t, u, p, a.value, now) else w.t, w.calls[c := Done])
  {
    LimitsStep(w, c, u, p, n, limitsAt);
    var w1 := Apply(w, ReadLimits(c, limitsAt));
    if w1.calls[c].Done? {
      RefusedStep(w1, c, ReadGrant(c, grantAt));
      RefusedStep(w1, c, Insert(c, now));
    } else {
      PickStep(w1, c, u, p, n, grantAt);
      var w2 := Apply(w1, ReadGrant(c, grantAt));
      if w2.calls[c].Done? {
        RefusedStep(w2, c, Insert(c, now));
      } else {
        InsertStep(w2, c, u, p, n, w2.calls[c].grant, now);
      }
    }
  }

  /** An undisturbed `create_job` is the serial decision followed by one insert. */
  lemma SerialCreate(w: World, u: UserId, p: Payload, limitsAt: Instant, grantAt: Instant, now: Instant)
    requires ValidPayload(p)
    ensures var a := Admission(w.t, u, p, limitsAt, grantAt);
            Run(w, CreateEvents(w, u, p, limitsAt, grantAt, now))
            == World(if a.Ok? then InsertJob(w.t, u, p, a.value, now) else w.t, w.calls + [Done])
  {
    var c, n := |w.calls|, Inflight(w.t.jobs, u);
    RunFour(w, CountInflight(u, p), ReadLimits(c, limitsAt), ReadGrant(c, grantAt), Insert(c, now));
    var w1 := Apply(w, CountInflight(u, p));
    assert w1 == w.(calls := w.calls + [Counted(u, p, n)]);
    CountedGoesOn(w1, c, u, p, n, limitsAt, grantAt, now);
    assert w1.calls[c := Done] == w.calls + [Done];
  }

  /** No usable grant allows the user more than five unfinished jobs. */
  ghost predicate FiveAllowed(grants: seq<Grant>, u: UserId, now: Instant) {
    forall g :: 0 <= g < |grants| && grants[g].user == u && Usable(grants[g], now) ==>
                  grants[g].maxInflight.None? || grants[g].maxInflight.value <= 5
  }

  /** Then an undisturbed submission that goes through leaves at most five. */
  lemma FiveWithoutGrant(w: World, u: UserId, p: Payload, limitsAt: Instant, grantAt: Instant, now: Instant)
    requires ValidPayload(p) && FiveAllowed(w.t.grants, u, limitsAt)
    ensures var w' := Run(w, CreateEvents(w, u, p, limitsAt, grantAt, now));
            w'.t == w.t || |Unfinished(w'.t.jobs, u)| <= 5
  {
    SerialCreate(w, u, p, limitsAt, grantAt, now);
    var a, n := Admission(w.t, u, p, limitsAt, grantAt), |Unfinished(w.t.jobs, u)|;
    InflightCounts(w.t.jobs, u);
    LimitReached(w.t.grants, u, n, limitsAt);
    if a.Ok? {
      SumAppend(w.t.jobs, NewJob(u, p, a.value, now), UnfinishedOf(u));
      InflightCounts(InsertJob(w.t, u, p, a.value, now).jobs, u);
    }
  }

  predicate Unexpired(issued: GrantPayload, at: Instant, now: Instant) {
    issued.expiresIn.Some? ==> now < at + issued.expiresIn.value * 1_000_000
  }

  /** Within the limits of a grant that is the user's only one, and not beyond, until it expires. */
  predicate Within(issued: GrantPayload, p: Payload, at: Instant, now: Instant) {
    && Unexpired(issued, at, now)
    && (256 < p.memory ==> issued.memory.Some? && p.memory <= issued.memory.value)
    && (60_000 < p.timeLimit ==> issued.time.Some? && p.timeLimit <= issued.time.value)
  }

  /** From `create_grant` to `create_job`: what a user's first grant admits is what it was issued for. */
  lemma FirstGrantAdmits(t: Tables, u: UserId, issued: GrantPayload, p: Payload, at: Instant, limitsAt: Instant,
                         grantAt: Instant)
    requires ValidGrantPayload(issued) && forall g :: 0 <= g < |t.grants| ==> t.grants[g].user != u
    ensures var n := |Unfinished(t.jobs, u)|;
            Admission(AddGrant(t, IssuedGrant(u, issued, at)), u, p, limitsAt, grantAt)
            == if 5 <= n
                  && !(issued.maxInflight.Some? && n < issued.maxInflight.value && Unexpired(issued, at, limitsAt)) then
              Err(InflightLimit)
            else if Ordinary(p) then Ok(None)
            else if Within(issued, p, at, grantAt) then Ok(Some(|t.grants|))
            else Err(QuotaExceeded)
  {
    var t', n := AddGrant(t, IssuedGrant(u, issued, at)), |Unfinished(t.jobs, u)|;
    InflightCounts(t.jobs, u);
    LimitReached(t'.grants, u, n, limitsAt);
    PickedGrantIsBest(t', u, p, grantAt);
    assert forall g :: 0 <= g < |t'.grants| && t'.grants[g].user == u ==> g == |t.grants|;
    assert t'.grants[|t.grants|].user == u;
    assert forall g: nat :: Offers(t', g, u, p, grantAt) ==> g == |t.grants|;
    assert Offers(t', |t.grants|, u, p, grantAt) <==> Within(issued, p, at, grantAt);
  }

  /** A new grant is good for exactly the seconds asked for, and without a limit when none are. */
  lemma IssuedGrantLasts(u: UserId, p: GrantPayload, now: Instant, at: Instant)
    requires ValidGrantPayload(p)
    ensures GrantValid(IssuedGrant(u, p, now), at) <==> p.expiresIn.None? || at < now + p.expiresIn.value * 1_000_000
  {
  }

  lemma StoreOneMore(cases: seq<CaseRow>, results: seq<CaseResult>, k: nat)
    requires k < |results|
    ensures StoreResults(cases, results[..k + 1]) == StoreResult(StoreResults(cases, results[..k]), results[k])
  {
    assert results[..k + 1][..k] == results[..k];
  }

  lemma StepKeepsValid(w: World, e: Event)
    requires Sound(w) && Reserved(w)
    ensures Sound(Apply(w, e)) && Reserved(Apply(w, e))
  {
    SoundKept(w, e);
    ReservedKept(w, e);
  }

  /** What the claim query returns. */
  lemma SelectedRow(w: World, now: Instant)
    requires Sound(w)
    ensures var r := ClaimQuery(w.t, now);
            r.Some? ==>
              && r.value < |w.t.jobs| && w.t.jobs[r.value].status.Queued?
              && (w.t.jobs[r.value].grant.Some? ==> w.t.jobs[r.value].grant.value < |w.t.grants|)
  {
    ClaimSelects(w.t, now);
    var r := ClaimQuery(w.t, now);
    if r.Some? {
      assert RowSound(w.t, w.t.jobs[r.value]);
    }
  }

  /** Sound tables stay sound without the calls. */
  lemma SoundAlone(w: World)
    requires Sound(w) && Reserved(w)
    ensures Sound(World(w.t, [])) && Reserved(World(w.t, []))
  {
  }

  /** A cancellation read and written with nothing in between. */
  lemma CancelKeepsValid(w: World, i: nat, requester: Option<UserId>, now: Instant)
    requires Sound(w) && Reserved(w) && w.calls == []
    requires i < |w.t.jobs| && (requester.None? || w.t.jobs[i].user == requester.value)
    ensures var t := WriteCancel(w.t, i, w.t.jobs[i].status, requester.Some?, now);
            Sound(World(t, [])) && Reserved(World(t, []))
  {
    var w1 := Apply(w, ReadForCancel(i, requester));
    assert w1 == World(w.t, [CancelSeen(i, w.t.jobs[i].status, requester.Some?)]);
    SoundKept(w, ReadForCancel(i, requester));
    SoundKept(w1, WriteCancelled(0, now));
    ReservedKept(w1, WriteCancelled(0, now));
    SoundAlone(Apply(w1, WriteCancelled(0, now)));
  }

  lemma CreateKeepsValid(w: World, u: UserId, p: Payload, limitsAt: Instant, grantAt: Instant, now: Instant)
    requires Sound(w) && Reserved(w) && w.calls == [] && ValidPayload(p)
    requires Admission(w.t, u, p, limitsAt, grantAt).Ok?
    ensures var t := InsertJob(w.t, u, p, Admission(w.t, u, p, limitsAt, grantAt).value, now);
            Sound(World(t, [])) && Reserved(World(t, []))
  {
    var es := CreateEvents(w, u, p, limitsAt, grantAt, now);
    SerialCreate(w, u, p, limitsAt, grantAt, now);
    SoundRun(w, es);
    MemoryReservation(w, es);
    SoundAlone(Run(w, es));
  }

  lemma ReportKeepsValid(w: World, i: nat, x: ExecutionResult, now: Instant)
    requires Sound(w) && Reserved(w)
    ensures Terminal(x.status) ==>
              var t := Ledger.FinishJob(w.t, i, x, now);
              Sound(World(t, w.calls)) && Reserved(World(t, w.calls))
  {
    StepKeepsValid(w, Finish(i, x, now));
  }

  class Database {
    var jobs: seq<Job>
    var grants: seq<Grant>

    ghost function View(): Tables
      reads this
    {
      Tables(jobs, grants)
    }

    ghost function Now(): World
      reads this
    {
      World(View(), [])
    }

    /** What every operation keeps: sound rows and every user's memory within the reservation. */
    ghost predicate Valid()
      reads this
    {
      Sound(Now()) && Reserved(Now())
    }

    constructor ()
      ensures Valid() && View() == Tables([], [])
    {
      jobs, grants := [], [];
      new;
      EmptyIsReserved();
      assert Now() == EMPTY;
    }

    method CreateGrant(user: UserId, payload: GrantPayload, now: Instant) returns (id: nat)
      requires Valid() && ValidGrantPayload(payload)
      modifies this
      ensures Valid() && View() == AddGrant(old(View()), IssuedGrant(user, payload, now)) && id == |grants|
    {
      ghost var w := Now();
      var expiresAt: Option<Instant> := None;
      if payload.expiresIn.Some? {
        expiresAt := Some(now + payload.expiresIn.value * 1_000_000);
      }
      var grant := Grant(user, payload.memory, payload.time, payload.maxInflight, payload.uses, expiresAt, true);
      grants := grants + [grant];
      id := |grants|;
      StepKeepsValid(w, NewGrant(grant));
    }

    /** The statements of `create_job`. */
    method CountAndInsert(user: UserId, payload: Payload, limitsAt: Instant, grantAt: Instant, now: Instant)
      returns (r: Result<nat, Refusal>)
      requires Valid() && ValidPayload(payload)
      modifies this`jobs
      ensures Valid()
      ensures var a := Admission(old(View()), user, payload, limitsAt, grantAt);
              match a
              case Ok(g) => r == Ok(|jobs|) && View() == InsertJob(old(View()), user, payload, g, now)
              case Err(e) => r == Err(e) && View() == old(View())
    {
      ghost var w := Now();
      var inflight := Inflight(jobs, user);
      var limit := EffectiveInflight(grants, user, limitsAt);
      if inflight >= limit {
        return Err(InflightLimit);
      }
      var grant: Option<nat> := None;
      if NeedsGrant(payload) {
        grant := PickGrant(Tables(jobs, grants), user, payload, grantAt);
        if grant.None? {
          return Err(QuotaExceeded);
        }
      }
      var row := NewJob(user, payload, grant, now);
      jobs := jobs + [row];
      r := Ok(|jobs|);
      CreateKeepsValid(w, user, payload, limitsAt, grantAt, now);
    }

    /** `create_job` when no other call runs between its statements. */
    method CreateJob(user: UserId, payload: Payload, limitsAt: Instant, grantAt: Instant, now: Instant)
      returns (r: Result<nat, Refusal>)
      requires Valid() && ValidPayload(payload)
      modifies this`jobs
      ensures Valid()
      ensures var a := Admission(old(View()), user, payload, limitsAt, grantAt);
              match a
              case Ok(g) => r == Ok(|jobs|) && View() == InsertJob(old(View()), user, payload, g, now)
              case Err(e) => r == Err(e) && View() == old(View())
      ensures CreateAnswer(old(View()), View(), r, user, payload, limitsAt, grantAt, now)
    {
      ghost var t := View();
      r := CountAndInsert(user, payload, limitsAt, grantAt, now);
      CreateMeetsRules(t, View(), r, user, payload, limitsAt, grantAt, now);
    }

    /** The statements of the transaction: select, charge the grant, start the job. */
    method SelectAndStart(selectAt: Instant, chargeAt: Instant, startAt: Instant) returns (claimed: Option<nat>)
      requires Valid()
      modifies this
      ensures Valid() && View() == ClaimJob(old(View()), selectAt, chargeAt, startAt)
      ensures claimed.Some? <==> ClaimOutcome(old(View()), selectAt, chargeAt).Started?
      ensures claimed.Some? ==>
                && 1 <= claimed.value <= |jobs| == |old(jobs)|
                && ClaimOutcome(old(View()), selectAt, chargeAt).job == claimed.value - 1
                && old(jobs)[claimed.value - 1].status.Queued?
                && var j := old(jobs)[claimed.value - 1];
                jobs[claimed.value - 1] == j.(status := Compiling, startedAt := Some(startAt))
    {
      ghost var w := Now();
      StepKeepsValid(w, Claim(selectAt, chargeAt, startAt));
      SelectedRow(w, selectAt);
      var row := ClaimQuery(Tables(jobs, grants), selectAt);
      if row.None? {
        ClaimOfNone(w.t, selectAt, chargeAt, startAt);
        return None;
      }
      var i := row.value;
      var grant := jobs[i].grant;
      if grant.Some? {
        var g := grant.value;
        if !GrantValid(grants[g], chargeAt) {
          ClaimOfDead(w.t, selectAt, chargeAt, startAt, i);
          var cancelled := CancelAll(jobs[i].cases, Some("temporary grant expired before execution"));
          jobs := jobs[i := jobs[i].(status := Cancelled, finishedAt := Some(startAt), cases := cancelled)];
          return None;
        }
        grants := grants[g := Charge(grants[g])];
      }
      ClaimOfLive(w.t, selectAt, chargeAt, startAt, i);
      // the UPDATE's own guard status='queued' always matches: the row was selected as queued
      assert jobs[i].status.Queued?;
      jobs := jobs[i := jobs[i].(status := Compiling, startedAt := Some(startAt))];
      claimed := Some(i + 1);
    }

    /** One `BEGIN IMMEDIATE` transaction. */
    method ClaimNextJob(selectAt: Instant, chargeAt: Instant, startAt: Instant) returns (claimed: Option<nat>)
      requires Valid()
      modifies this
      ensures Valid() && View() == ClaimJob(old(View()), selectAt, chargeAt, startAt)
      ensures ClaimAnswer(old(View()), View(), claimed, selectAt, chargeAt, startAt)
      ensures claimed.Some? <==> ClaimOutcome(old(View()), selectAt, chargeAt).Started?
      ensures claimed.Some? ==>
                && 1 <= claimed.value <= |jobs| == |old(jobs)|
                && ClaimOutcome(old(View()), selectAt, chargeAt).job == claimed.value - 1
                && old(jobs)[claimed.value - 1].status.Queued?
                && var j := old(jobs)[claimed.value - 1];
                jobs[claimed.value - 1] == j.(status := Compiling, startedAt := Some(startAt))
    {
      ghost var t := View();
      claimed := SelectAndStart(selectAt, chargeAt, startAt);
      ClaimMeetsRules(t, View(), claimed, selectAt, chargeAt, startAt);
    }

    /** The statements of `finish_job`: the job's outcome, then each case's, then what is still queued is cancelled. */
    method StoreReport(i: nat, execution: ExecutionResult, now: Instant)
      requires i < |jobs|
      modifies this`jobs
      ensures View() == Ledger.FinishJob(old(View()), i, execution, now)
    {
      ghost var before := jobs;
      var compile := Some(execution.compile.(truncated := false));
      jobs := jobs[i := jobs[i].(status := execution.status, finishedAt := Some(now), compile := compile)];
      ghost var row := jobs[i];
      var k := 0;
      while k < |execution.cases|
        invariant 0 <= k <= |execution.cases|
        invariant |jobs| == |before| && jobs == before[i := jobs[i]]
        invariant jobs[i] == row.(cases := StoreResults(row.cases, execution.cases[..k]))
      {
        var stored := StoreResult(jobs[i].cases, execution.cases[k]);
        StoreOneMore(row.cases, execution.cases, k);
        jobs := jobs[i := jobs[i].(cases := stored)];
        k := k + 1;
      }
      assert execution.cases[..k] == execution.cases;
      var reason := "submission ended before this case started";
      if !execution.compile.status.Completed? {
        reason := "not run because compilation did not complete";
      }
      jobs := jobs[i := jobs[i].(cases := CancelQueued(jobs[i].cases, reason))];
    }

    /** False when it raises. */
    method FinishJob(id: int, execution: ExecutionResult, now: Instant) returns (stored: bool)
      requires Valid()
      modifies this`jobs
      ensures stored <==> Binds(id) && ReportBinds(execution)
      ensures View() == if stored && 1 <= id then Ledger.FinishJob(old(View()), id - 1, execution, now) else old(View())
      ensures stored && 1 <= id <= |old(jobs)| ==>
                OnlyRow(old(jobs), jobs, id - 1) && ReportAnswer(old(jobs)[id - 1], jobs[id - 1], execution, now)
      ensures Terminal(execution.status) ==> Valid()
    {
      stored := Binds(id) && ReportBinds(execution);
      if stored && 1 <= id <= |jobs| {
        ReportMeetsRules(jobs[id - 1], execution, now);
        ReportKeepsValid(Now(), id - 1, execution, now);
        StoreReport(id - 1, execution, now);
      }
    }

    /** The two statements of `mark_job_system_error`. */
    method StoreError(i: nat, message: string, now: Instant)
      requires Valid() && i < |jobs|
      modifies this`jobs
      ensures Valid() && View() == MarkSystemError(old(View()), i, message, now)
    {
      StepKeepsValid(Now(), Fail(i, message, now));
      jobs := jobs[i := ErrorRow(jobs[i], message, now)];
    }

    /** False when it raises. */
    method MarkJobSystemError(id: int, message: string, now: Instant) returns (stored: bool)
      requires Valid()
      modifies this`jobs
      ensures Valid()
      ensures stored <==> Binds(id)
      ensures View() == if stored && 1 <= id then MarkSystemError(old(View()), id - 1, message, now) else old(View())
      ensures stored && 1 <= id <= |old(jobs)| ==>
                OnlyRow(old(jobs), jobs, id - 1) && ErrorAnswer(old(jobs)[id - 1], jobs[id - 1], message, now)
    {
      stored := Binds(id);
      if stored && 1 <= id <= |jobs| {
        ErrorMeetsRules(jobs, id - 1, message, now);
        StoreError(id - 1, message, now);
      }
    }

    /** `cancel_job` with its requester, `cancel_job_admin` without one; None when it raises. */
    method CancelJob(id: int, requester: Option<UserId>, now: Instant) returns (found: Option<bool>)
      requires Valid()
      modifies this`jobs
      ensures Valid()
      ensures found.Some? <==> Binds(id)
      ensures found == Some(true) <==>
              Binds(id) && 1 <= id <= |old(jobs)| && (requester.None? || old(jobs)[id - 1].user == requester.value)
      ensures found != Some(true) ==> View() == old(View())
      ensures found == Some(true) ==>
                && View() == WriteCancel(old(View()), id - 1, old(jobs)[id - 1].status, requester.Some?, now)
                && OnlyRow(old(jobs), jobs, id - 1)
                && CancelAnswer(old(jobs)[id - 1], jobs[id - 1], requester.Some?, now)
    {
      if !Binds(id) {
        return None;
      }
      if !(1 <= id <= |jobs|) || (requester.Some? && jobs[id - 1].user != requester.value) {
        return Some(false);
      }
      CancelKeepsValid(Now(), id - 1, requester, now);
      CancelMeetsRules(jobs[id - 1], requester.Some?, now);
      found := Some(true);
      var seen := jobs[id - 1].status;
      jobs := jobs[id - 1 := CancelRow(jobs[id - 1], seen, requester.Some?, now)];
    }

    /** None when it raises. */
    method IsCancelRequested(id: int) returns (requested: Option<bool>)
      ensures requested.Some? <==> Binds(id)
      ensures requested.Some? ==>
                (requested.value <==>
                 1 <= id <= |jobs| && (jobs[id - 1].cancelRequested || jobs[id - 1].status.Cancelled?))
    {
      if !Binds(id) {
        return None;
      }
      requested := Some(1 <= id <= |jobs| && (jobs[id - 1].cancelRequested || jobs[id - 1].status.Cancelled?));
    }
  }
}
