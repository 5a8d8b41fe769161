/** The three ledgers kept by the scheduler: reserved memory, grant uses and unfinished jobs. */
module Quotas {
  import opened Common
  import opened Results
  import opened Ledger
  import opened Runs
  import opened Lifecycle

  // ----- memory reservation -----

  lemma {:induction false} CapCovers(grants: seq<Grant>, u: UserId, g: nat)
    requires g < |grants| && grants[g].user == u && grants[g].memory.Some?
    ensures grants[g].memory.value <= MemoryCap(grants, u)
  {
    if g < |grants| - 1 {
      CapCovers(grants[..|grants| - 1], u, g);
    }
  }

  lemma {:induction false} CapAtLeastDefault(grants: seq<Grant>, u: UserId)
    ensures 256 <= MemoryCap(grants, u)
  {
    if grants != [] {
      CapAtLeastDefault(grants[..|grants| - 1], u);
    }
  }

  /** Charging a grant changes no limit. */
  lemma {:induction false} ChargeKeepsCaps(grants: seq<Grant>, g: nat, u: UserId)
    requires g < |grants|
    ensures MemoryCap(grants[g := Charge(grants[g])], u) == MemoryCap(grants, u)
    ensures InflightCap(grants[g := Charge(grants[g])], u) == InflightCap(grants, u)
  {
    var n := |grants| - 1;
    var grants' := grants[g := Charge(grants[g])];
    if g < n {
      ChargeKeepsCaps(grants[..n], g, u);
      assert grants'[..n] == grants[..n][g := Charge(grants[g])];
    } else {
      assert grants'[..n] == grants[..n];
    }
  }

  /** Grants are only added or charged, so caps never fall. */
  lemma CapsGrow(w: World, e: Event, u: UserId)
    ensures MemoryCap(w.t.grants, u) <= MemoryCap(Apply(w, e).t.grants, u)
    ensures InflightCap(w.t.grants, u) <= InflightCap(Apply(w, e).t.grants, u)
  {
    match e
    case Claim(select, charge, start) =>
      var o := ClaimOutcome(w.t, select, charge);
      if o.Started? && o.job < |w.t.jobs| && w.t.jobs[o.job].grant.Some? && w.t.jobs[o.job].grant.value < |w.t.grants| {
        ChargeKeepsCaps(w.t.grants, w.t.jobs[o.job].grant.value, u);
      }
    case NewGrant(g) =>
      assert (w.t.grants + [g])[..|w.t.grants|] == w.t.grants;
    case _ =>
  }

  ghost predicate Reserved(w: World) {
    forall u: UserId :: ActiveMemory(w.t.jobs, u) <= MemoryCap(w.t.grants, u)
  }

  lemma ReservedKept(w: World, e: Event)
    requires Sound(w) && Reserved(w)
    ensures Reserved(Apply(w, e))
  {
    JobsAfter(w, e);
    var jobs, jobs' := w.t.jobs, Apply(w, e).t.jobs;
    forall u: UserId
      ensures ActiveMemory(jobs', u) <= MemoryCap(Apply(w, e).t.grants, u)
    {
      CapsGrow(w, e, u);
      if Touched(w, e).Some? {
        var i := Touched(w, e).value;
        SumUpdate(jobs, i, jobs'[i], MemoryOf(u));
        if StartedBy(w, e).Some? && jobs[i].user == u {
          ClaimSelects(w.t, e.select);
          assert RowSound(w.t, jobs[i]);
          CapAtLeastDefault(w.t.grants, u);
          if jobs[i].grant.Some? && w.t.grants[jobs[i].grant.value].memory.Some? {
            CapCovers(w.t.grants, u, jobs[i].grant.value);
          }
        }
      } else if Inserts(w, e) {
        SumAppend(jobs, jobs'[|jobs|], MemoryOf(u));
      }
    }
  }

  /**
   In every reachable state, whatever statements were interleaved, the memory of a user's active
   jobs stays within 256 MiB or the largest memory grant that user ever had.
   */
  lemma {:induction false} MemoryReservation(w: World, es: seq<Event>)
    requires Sound(w) && Reserved(w)
    ensures Reserved(Run(w, es))
    decreases |es|
  {
    if es != [] {
      SoundKept(w, es[0]);
      ReservedKept(w, es[0]);
      MemoryReservation(Apply(w, es[0]), es[1..]);
    }
  }

  lemma EmptyIsReserved()
    ensures Sound(EMPTY) && Reserved(EMPTY)
  {
    forall u: UserId
      ensures ActiveMemory(EMPTY.t.jobs, u) <= MemoryCap(EMPTY.t.grants, u)
    {
      assert EMPTY.t.jobs == [] && EMPTY.t.grants == [];
    }
  }

  /** A job above 256 MiB is selected only while its own grant is valid and covers it and all the user runs. */
  lemma LargeJobNeedsItsGrant(w: World, e: Event, i: nat)
    requires Sound(w) && i < |w.t.jobs| && StartedBy(w, e) == Some(i) && w.t.jobs[i].memory > 256
    ensures var j := w.t.jobs[i];
            && j.grant.Some? && j.grant.value < |w.t.grants|
            && w.t.grants[j.grant.value].user == j.user
            && GrantValid(w.t.grants[j.grant.value], e.select) && GrantValid(w.t.grants[j.grant.value], e.charge)
            && w.t.grants[j.grant.value].memory.Some?
            && ActiveMemory(w.t.jobs, j.user) + j.memory <= w.t.grants[j.grant.value].memory.value
  {
    ClaimSelects(w.t, e.select);
    assert RowSound(w.t, w.t.jobs[i]);
    ActiveMemoryNonNegative(w.t.jobs, w.t.jobs[i].user);
  }

  lemma ActiveMemoryNonNegative(jobs: seq<Job>, u: UserId)
    ensures 0 <= ActiveMemory(jobs, u)
  {
    SumNonNegative(jobs, MemoryOf(u));
  }

  lemma {:induction false} NothingActive(jobs: seq<Job>, u: UserId)
    requires forall i :: 0 <= i < |jobs| && jobs[i].user == u ==> !Active(jobs[i].status)
    ensures ActiveMemory(jobs, u) == 0
  {
    if jobs != [] {
      NothingActive(jobs[..|jobs| - 1], u);
    }
  }

  // ----- grant uses -----

  function GrantStarts(jobs: seq<Job>, g: nat): int {
    Sum(jobs, StartedUnder(g))
  }

  predicate Finite(t: Tables, g: nat) {
    g < |t.grants| && t.grants[g].remaining.Some?
  }

  /** What an event does to the uses of one grant: a start charges the grant of its job. */
  lemma UsesAfter(w: World, e: Event, g: nat)
    requires Sound(w) && Finite(w.t, g)
    ensures var i := StartedBy(w, e);
            && Finite(Apply(w, e).t, g)
            && Apply(w, e).t.grants[g].remaining.value
               == w.t.grants[g].remaining.value
                  - (if i.Some? && i.value < |w.t.jobs| && w.t.jobs[i.value].grant == Some(g) then 1 else 0)
  {
    if e.Claim? {
      ClaimSelects(w.t, e.select);
    }
  }

  lemma GrantStep(w: World, e: Event, g: nat)
    requires Sound(w) && Finite(w.t, g)
    ensures var t' := Apply(w, e).t;
            && Finite(t', g)
            && w.t.grants[g].remaining.value - t'.grants[g].remaining.value
               == GrantStarts(t'.jobs, g) - GrantStarts(w.t.jobs, g)
  {
    UsesAfter(w, e, g);
    JobsAfter(w, e);
    var jobs, jobs' := w.t.jobs, Apply(w, e).t.jobs;
    if Touched(w, e).Some? {
      var i := Touched(w, e).value;
      SumUpdate(jobs, i, jobs'[i], StartedUnder(g));
      assert RowSound(w.t, jobs[i]);
    } else if Inserts(w, e) {
      SumAppend(jobs, jobs'[|jobs|], StartedUnder(g));
    }
  }

  /** Uses spent over a run are exactly the jobs the run started under the grant; uses never go below zero. */
  lemma {:induction false} GrantConservation(w: World, es: seq<Event>, g: nat)
    requires Sound(w) && Finite(w.t, g)
    ensures var t' := Run(w, es).t;
            && Finite(t', g) && 0 <= t'.grants[g].remaining.value
            && w.t.grants[g].remaining.value - t'.grants[g].remaining.value
               == GrantStarts(t'.jobs, g) - GrantStarts(w.t.jobs, g)
    decreases |es|
  {
    if es != [] {
      GrantStep(w, es[0], g);
      SoundKept(w, es[0]);
      GrantConservation(Apply(w, es[0]), es[1..], g);
    }
  }

  lemma {:induction false} UnboundGrantHasNoStarts(jobs: seq<Job>, g: nat)
    requires forall i :: 0 <= i < |jobs| ==> jobs[i].grant != Some(g)
    ensures GrantStarts(jobs, g) == 0
  {
    if jobs != [] {
      UnboundGrantHasNoStarts(jobs[..|jobs| - 1], g);
    }
  }

  /** From the moment a grant is issued: issued uses minus remaining uses is the number of jobs it ever started. */
  lemma IssuedGrantConservation(w: World, issued: Grant, es: seq<Event>)
    requires Sound(w) && ValidGrant(issued) && issued.remaining.Some?
    ensures var g, t' := |w.t.grants|, Run(Apply(w, NewGrant(issued)), es).t;
            && Finite(t', g) && 0 <= t'.grants[g].remaining.value
            && issued.remaining.value - t'.grants[g].remaining.value == GrantStarts(t'.jobs, g)
  {
    var g := |w.t.grants|;
    forall i | 0 <= i < |w.t.jobs|
      ensures w.t.jobs[i].grant != Some(g)
    {
      assert RowSound(w.t, w.t.jobs[i]);
    }
    UnboundGrantHasNoStarts(w.t.jobs, g);
    SoundKept(w, NewGrant(issued));
    GrantConservation(Apply(w, NewGrant(issued)), es, g);
  }

  /** A claim that finds its grant dead cancels the job and charges nobody. */
  lemma DeadGrantChargesNothing(w: World, e: Event)
    requires Sound(w) && e.Claim? && ClaimOutcome(w.t, e.select, e.charge).DeadGrant?
    ensures var i := ClaimOutcome(w.t, e.select, e.charge).job;
            && Apply(w, e).t.grants == w.t.grants
            && i < |w.t.jobs| && Apply(w, e).t.jobs[i].status.Cancelled? && Apply(w, e).t.jobs[i].startedAt.None?
            && forall k :: 0 <= k < |w.t.jobs[i].cases| ==> Apply(w, e).t.jobs[i].cases[k].status.Cancelled?
  {
    ClaimSelects(w.t, e.select);
    var i := ClaimOutcome(w.t, e.select, e.charge).job;
    assert RowSound(w.t, w.t.jobs[i]);
  }

  // ----- what a job is bound to its grant for -----

  /** A job has a grant only if it needs one, and the grant covers it. */
  predicate Earned(t: Tables, memory: nat, time: nat, grant: Option<nat>) {
    grant.Some? ==>
      && grant.value < |t.grants|
      && (256 < memory || 60_000 < time)
      && (256 < memory ==> t.grants[grant.value].memory.Some? && memory <= t.grants[grant.value].memory.value)
      && (60_000 < time ==> t.grants[grant.value].time.Some? && time <= t.grants[grant.value].time.value)
  }

  predicate JobEarned(t: Tables, j: Job) {
    Earned(t, j.memory, j.timeLimit, j.grant)
  }

  predicate CallEarned(t: Tables, c: Call) {
    c.Picked? ==> Earned(t, c.payload.memory, c.payload.timeLimit, c.grant)
  }

  ghost predicate AllEarned(w: World) {
    && (forall i :: 0 <= i < |w.t.jobs| ==> JobEarned(w.t, w.t.jobs[i]))
    && (forall c :: 0 <= c < |w.calls| ==> CallEarned(w.t, w.calls[c]))
  }

  predicate SameLimit(g: Grant, g': Grant) {
    g'.user == g.user && g'.memory == g.memory && g'.time == g.time
  }

  /** Grants are never removed, and their owner and limits never change. */
  ghost predicate SameLimits(grants: seq<Grant>, grants': seq<Grant>) {
    |grants| <= |grants'|
    && forall g :: 0 <= g < |grants| ==> SameLimit(grants[g], grants'[g])
  }

  lemma LimitsKept(w: World, e: Event)
    ensures SameLimits(w.t.grants, Apply(w, e).t.grants)
  {
  }

  lemma EarnedJobsKept(w: World, e: Event)
    requires Sound(w) && AllEarned(w)
    ensures var w' := Apply(w, e);
            forall i :: 0 <= i < |w'.t.jobs| ==> JobEarned(w'.t, w'.t.jobs[i])
  {
    JobsAfter(w, e);
    LimitsKept(w, e);
    var w' := Apply(w, e);
    forall i | 0 <= i < |w'.t.jobs|
      ensures JobEarned(w'.t, w'.t.jobs[i])
    {
      if i < |w.t.jobs| {
        RowStep(w, e, i);
        assert JobEarned(w.t, w.t.jobs[i]);
      } else {
        assert CallEarned(w.t, w.calls[e.call]);
      }
    }
  }

  lemma EarnedCallsKept(w: World, e: Event)
    requires AllEarned(w)
    ensures forall c :: 0 <= c < |Apply(w, e).calls| ==> CallEarned(Apply(w, e).t, Apply(w, e).calls[c])
  {
    LimitsKept(w, e);
    var w' := Apply(w, e);
    if e.ReadGrant? && e.call < |w.calls| && w.calls[e.call].Checked? && NeedsGrant(w.calls[e.call].payload) {
      var k := w.calls[e.call];
      BestIsLeast(|w.t.grants|, GrantFits(w.t, k.user, k.payload, e.now), GrantKey(w.t));
    }
    forall c | 0 <= c < |w'.calls|
      ensures CallEarned(w'.t, w'.calls[c])
    {
      if c < |w.calls| {
        assert CallEarned(w.t, w.calls[c]);
      }
    }
  }

  lemma EarnedKept(w: World, e: Event)
    requires Sound(w) && AllEarned(w)
    ensures AllEarned(Apply(w, e))
  {
    EarnedJobsKept(w, e);
    EarnedCallsKept(w, e);
  }

  // ----- unfinished jobs under racing submissions -----

  predicate Creating(c: Call, u: UserId) {
    (c.Counted? || c.Checked? || c.Picked?) && c.user == u
  }

  function CreatingOf(u: UserId): Call -> int {
    (c: Call) => if Creating(c, u) then 1 else 0
  }

  function CreatingBelow(u: UserId, n: int): Call -> int {
    (c: Call) => if Creating(c, u) && c.count <= n then 1 else 0
  }

  /** How many `create_job` calls of the user are between their count and their insert. */
  function PendingCreates(w: World, u: UserId): int {
    Sum(w.calls, CreatingOf(u))
  }

  lemma {:induction false} EffectiveWithinCap(grants: seq<Grant>, u: UserId, now: Instant)
    ensures EffectiveInflight(grants, u, now) <= InflightCap(grants, u)
  {
    if grants != [] {
      EffectiveWithinCap(grants[..|grants| - 1], u, now);
    }
  }

  /** A call that passed its check counted fewer jobs than the cap. */
  ghost predicate PassedBelowCap(w: World, u: UserId) {
    forall c :: 0 <= c < |w.calls| ==>
                  (w.calls[c].Checked? || w.calls[c].Picked?) && w.calls[c].user == u ==>
                    w.calls[c].count < InflightCap(w.t.grants, u)
  }

  /** Every call that counted n or fewer could still insert; together with the jobs there they fit n + K. */
  ghost predicate InflightBudget(w: World, u: UserId, k: int) {
    forall n: int :: InflightCap(w.t.grants, u) - 1 <= n ==>
                       Inflight(w.t.jobs, u) + Sum(w.calls, CreatingBelow(u, n)) <= n + k
  }

  lemma PassedKept(w: World, e: Event, u: UserId)
    requires PassedBelowCap(w, u)
    ensures PassedBelowCap(Apply(w, e), u)
  {
    CapsGrow(w, e, u);
    if e.ReadLimits? {
      EffectiveWithinCap(w.t.grants, u, e.now);
    }
  }

  lemma InflightAfter(w: World, e: Event, u: UserId)
    requires Sound(w)
    ensures Inflight(Apply(w, e).t.jobs, u)
         <= Inflight(w.t.jobs, u) + (if Inserts(w, e) && w.calls[e.call].user == u then 1 else 0)
  {
    JobsAfter(w, e);
    var jobs, jobs' := w.t.jobs, Apply(w, e).t.jobs;
    if Touched(w, e).Some? {
      SumUpdate(jobs, Touched(w, e).value, jobs'[Touched(w, e).value], UnfinishedOf(u));
    } else if Inserts(w, e) {
      SumAppend(jobs, jobs'[|jobs|], UnfinishedOf(u));
    }
  }

  /** Apart from a fresh count, no step adds a call that could insert, and an insert uses one up. */
  lemma CallsAfter(w: World, e: Event, u: UserId, n: int)
    requires PassedBelowCap(w, u) && InflightCap(w.t.grants, u) - 1 <= n && !e.CountInflight?
    ensures Sum(Apply(w, e).calls, CreatingBelow(u, n))
         <= Sum(w.calls, CreatingBelow(u, n)) - (if Inserts(w, e) && w.calls[e.call].user == u then 1 else 0)
  {
    var calls, calls' := w.calls, Apply(w, e).calls;
    if e.ReadForCancel? {
      if calls' != calls {
        SumAppend(calls, calls'[|calls|], CreatingBelow(u, n));
      }
    } else if (e.ReadLimits? || e.ReadGrant? || e.Insert? || e.WriteCancelled?) && e.call < |calls| {
      SumUpdate(calls, e.call, calls'[e.call], CreatingBelow(u, n));
      assert calls' == calls[e.call := calls'[e.call]];
    }
  }

  lemma CountKeepsBudget(w: World, e: Event, u: UserId, k: int, n: int)
    requires e.CountInflight? && PendingCreates(Apply(w, e), u) <= k
    requires Inflight(w.t.jobs, u) + Sum(w.calls, CreatingBelow(u, n)) <= n + k
    ensures Inflight(w.t.jobs, u) + Sum(Apply(w, e).calls, CreatingBelow(u, n)) <= n + k
  {
    var calls, calls' := w.calls, Apply(w, e).calls;
    if calls' != calls {
      SumAppend(calls, calls'[|calls|], CreatingBelow(u, n));
      if e.user == u && Inflight(w.t.jobs, u) <= n {
        SumMonotone(calls', CreatingBelow(u, n), CreatingOf(u));
      }
    }
  }

  lemma BudgetKept(w: World, e: Event, u: UserId, k: int)
    requires Sound(w) && PassedBelowCap(w, u) && InflightBudget(w, u, k)
    requires PendingCreates(Apply(w, e), u) <= k
    ensures InflightBudget(Apply(w, e), u, k)
  {
    CapsGrow(w, e, u);
    InflightAfter(w, e, u);
    var w' := Apply(w, e);
    forall n: int | InflightCap(w'.t.grants, u) - 1 <= n
      ensures Inflight(w'.t.jobs, u) + Sum(w'.calls, CreatingBelow(u, n)) <= n + k
    {
      assert Inflight(w.t.jobs, u) + Sum(w.calls, CreatingBelow(u, n)) <= n + k;
      if e.CountInflight? {
        CountKeepsBudget(w, e, u, k, n);
      } else {
        CallsAfter(w, e, u, n);
      }
    }
  }

  /** The hypothesis of the race bound: at every moment of the run at most k submissions are in progress. */
  ghost predicate AtMostPending(w: World, es: seq<Event>, u: UserId, k: int)
    decreases |es|
  {
    PendingCreates(w, u) <= k && (es != [] ==> AtMostPending(Apply(w, es[0]), es[1..], u, k))
  }

  lemma {:induction false} BudgetRun(w: World, es: seq<Event>, u: UserId, k: int)
    requires Sound(w) && PassedBelowCap(w, u) && InflightBudget(w, u, k) && AtMostPending(w, es, u, k)
    ensures var w' := Run(w, es); InflightBudget(w', u, k)
    decreases |es|
  {
    if es != [] {
      SoundKept(w, es[0]);
      PassedKept(w, es[0], u);
      assert PendingCreates(Apply(w, es[0]), u) <= k by {
        assert AtMostPending(Apply(w, es[0]), es[1..], u, k);
      }
      BudgetKept(w, es[0], u, k);
      BudgetRun(Apply(w, es[0]), es[1..], u, k);
    }
  }

  /** With K racing submissions a user exceeds the in-flight limit L by at most K - 1 jobs. */
  lemma InflightBound(es: seq<Event>, u: UserId, k: nat)
    requires AtMostPending(EMPTY, es, u, k)
    ensures var w' := Run(EMPTY, es);
            Inflight(w'.t.jobs, u) <= InflightCap(w'.t.grants, u) - 1 + k
  {
    EmptyIsReserved();
    assert EMPTY.t.jobs == [] && EMPTY.calls == [] && EMPTY.t.grants == [];
    BudgetRun(EMPTY, es, u, k);
    var w' := Run(EMPTY, es);
    var n := InflightCap(w'.t.grants, u) - 1;
    SumNonNegative(w'.calls, CreatingBelow(u, n));
  }
}
