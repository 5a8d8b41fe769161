/**
 What becomes of a queued job whose grant has died. The claim transaction has a branch that cancels
 it (database.py), but the row must first be selected, and without its grant the job's allowance is
 256 MiB: the branch is in reach exactly for jobs of at most that size.
 */
module DeadGrants {
  import opened Common
  import opened Results
  import opened Ledger
  import opened Runs
  import opened Lifecycle
  import opened Quotas
  import opened Fairness
  import opened Rules
  import opened DatabaseStore

  /** A grant that can never become valid again from time `since` on. */
  predicate GrantGone(t: Tables, g: nat, since: Instant) {
    g < |t.grants|
    && (!t.grants[g].active || (t.grants[g].expiresAt.Some? && t.grants[g].expiresAt.value <= since)
        || (t.grants[g].remaining.Some? && t.grants[g].remaining.value <= 0))
  }

  /** A queued job, not asked to be cancelled, whose grant is gone. */
  predicate Bereft(t: Tables, i: nat, since: Instant) {
    && i < |t.jobs| && t.jobs[i].status.Queued? && !t.jobs[i].cancelRequested
    && t.jobs[i].grant.Some? && GrantGone(t, t.jobs[i].grant.value, since)
  }

  predicate ClaimsFrom(es: seq<Event>, since: Instant) {
    forall k :: 0 <= k < |es| ==> es[k].Claim? ==> since <= es[k].select && since <= es[k].charge
  }

  function ClaimOrElsewhere(i: nat): (World, Event) -> bool {
    (w: World, e: Event) => e.Claim? || Touched(w, e) != Some(i)
  }

  /** Nothing but claims gets at row i during the run. */
  ghost predicate OnlyClaims(w: World, es: seq<Event>, i: nat) {
    Always(w, es, ClaimOrElsewhere(i))
  }

  lemma GoneStays(w: World, e: Event, g: nat, since: Instant)
    requires Sound(w) && GrantGone(w.t, g, since)
    ensures GrantGone(Apply(w, e).t, g, since)
  {
    JobsAfter(w, e);
  }

  // ----- one claim -----

  /** The guard of the query: eligible if and only if the job fits into 256 MiB beside what its owner runs. */
  lemma BereftEligibleIff(t: Tables, i: nat, since: Instant, now: Instant)
    requires Bereft(t, i, since) && since <= now
    ensures Eligible(t, i, now) <==>
            ActiveMemory(t.jobs, t.jobs[i].user) + t.jobs[i].memory <= MAX_USER_RUNNING_MEMORY_MIB
  {
  }

  /** Once selected it is cancelled, never started, and it had at most 256 MiB. */
  lemma BereftSelectedIsCancelled(w: World, e: Event, i: nat, since: Instant)
    requires Sound(w) && Bereft(w.t, i, since) && e.Claim? && since <= e.select && since <= e.charge
    requires Touched(w, e) == Some(i)
    ensures ClaimOutcome(w.t, e.select, e.charge) == DeadGrant(i) && w.t.jobs[i].memory <= MAX_USER_RUNNING_MEMORY_MIB
    ensures i < |Apply(w, e).t.jobs| && Apply(w, e).t.jobs[i].status.Cancelled? && Apply(w, e).t.jobs[i].startedAt.None?
  {
    ClaimSelects(w.t, e.select);
    assert RowSound(w.t, w.t.jobs[i]);
    SumNonNegative(w.t.jobs, MemoryOf(w.t.jobs[i].user));
  }

  /** An event that does not touch the row leaves it bereft. */
  lemma BereftStays(w: World, e: Event, i: nat, since: Instant)
    requires Sound(w) && Bereft(w.t, i, since) && Touched(w, e) != Some(i)
    ensures Bereft(Apply(w, e).t, i, since) && Apply(w, e).t.jobs[i] == w.t.jobs[i]
  {
    JobsAfter(w, e);
    GoneStays(w, e, w.t.jobs[i].grant.value, since);
  }

  // ----- above 256 MiB: no run of claims ends it -----

  /** A large job whose grant is gone, in a queue or not. */
  predicate Stranded(w: World, i: nat, since: Instant) {
    i < |w.t.jobs| && w.t.jobs[i].memory > MAX_USER_RUNNING_MEMORY_MIB
    && w.t.jobs[i].grant.Some? && GrantGone(w.t, w.t.jobs[i].grant.value, since)
  }

  lemma StrandedNotSelected(w: World, e: Event, i: nat, since: Instant)
    requires Sound(w) && Stranded(w, i, since) && e.Claim? && since <= e.select
    ensures Touched(w, e) != Some(i)
  {
    ClaimSelects(w.t, e.select);
    SumNonNegative(w.t.jobs, MemoryOf(w.t.jobs[i].user));
    assert !Eligible(w.t, i, e.select);
  }

  lemma StrandedStep(w: World, e: Event, i: nat, since: Instant)
    requires Sound(w) && Stranded(w, i, since) && (e.Claim? ==> since <= e.select)
    ensures Stranded(Apply(w, e), i, since) && StartedBy(w, e) != Some(i)
    ensures e.Claim? || Touched(w, e) != Some(i) ==> Apply(w, e).t.jobs[i] == w.t.jobs[i]
  {
    if e.Claim? {
      StrandedNotSelected(w, e, i, since);
    }
    JobsAfter(w, e);
    RowStep(w, e, i);
    GoneStays(w, e, w.t.jobs[i].grant.value, since);
  }

  /**
   A job above 256 MiB whose grant has expired or is used up is never started. No claim cancels it
   either, so it stays queued, and counted against its owner, until a report or a cancellation names it.
   */
  lemma {:induction false} StrandedJob(w: World, es: seq<Event>, i: nat, since: Instant)
    requires Sound(w) && Stranded(w, i, since) && ClaimsFrom(es, since)
    ensures Starts(w, es, i) == 0
    ensures OnlyClaims(w, es, i) ==> i < |Run(w, es).t.jobs| && Run(w, es).t.jobs[i] == w.t.jobs[i]
    decreases |es|
  {
    if es != [] {
      StrandedStep(w, es[0], i, since);
      SoundKept(w, es[0]);
      StrandedJob(Apply(w, es[0]), es[1..], i, since);
    }
  }

  // ----- up to 256 MiB: claims get it out of the queue -----

  /** A run that leaves row i to claims and brings the world from w to w'. */
  ghost predicate Brings(w: World, es: seq<Event>, w': World, i: nat, since: Instant) {
    Run(w, es) == w' && OnlyClaims(w, es, i) && ClaimsFrom(es, since)
  }

  lemma BringsOn(w: World, a: seq<Event>, w1: World, b: seq<Event>, w2: World, i: nat, since: Instant)
    requires Brings(w, a, w1, i, since) && Brings(w1, b, w2, i, since)
    ensures Brings(w, a + b, w2, i, since)
  {
    RunConcat(w, a, b);
    AlwaysConcat(w, a, b, ClaimOrElsewhere(i));
  }

  lemma BringsOne(w: World, e: Event, i: nat, since: Instant)
    requires e.Claim? || Touched(w, e) != Some(i)
    requires e.Claim? ==> since <= e.select && since <= e.charge
    ensures Brings(w, [e], Apply(w, e), i, since)
  {
    assert [e][1..] == [];
  }

  /** Failing an active job changes no other row, no grant and not the queue. */
  lemma FailActive(w: World, k: nat)
    requires Sound(w) && k < |w.t.jobs| && Active(w.t.jobs[k].status)
    ensures var w' := Apply(w, Fail(k, "", 0));
            && |w'.t.jobs| == |w.t.jobs| && w'.t.grants == w.t.grants
            && (forall m :: 0 <= m < |w.t.jobs| && m != k ==> w'.t.jobs[m] == w.t.jobs[m])
            && !Active(w'.t.jobs[k].status) && QueueLength(w'.t.jobs) == QueueLength(w.t.jobs)
  {
    SumUpdate(w.t.jobs, k, ErrorRow(w.t.jobs[k], "", 0), QueuedOne());
  }

  /** The run leaves row i and the queue as they were, and the first n rows inactive. */
  ghost predicate Quiets(w: World, es: seq<Event>, w': World, i: nat, n: nat, since: Instant) {
    && Brings(w, es, w', i, since) && Sound(w') && Bereft(w'.t, i, since)
    && n <= |w'.t.jobs| == |w.t.jobs| && i < |w.t.jobs| && w'.t.jobs[i] == w.t.jobs[i]
    && QueueLength(w'.t.jobs) == QueueLength(w.t.jobs)
    && forall k :: 0 <= k < n ==> !Active(w'.t.jobs[k].status)
  }

  lemma QuietOneMore(w: World, first: seq<Event>, w1: World, i: nat, n: nat, since: Instant) returns (es: seq<Event>)
    requires Quiets(w, first, w1, i, n, since) && n < |w1.t.jobs|
    ensures Quiets(w, es, Run(w, es), i, n + 1, since)
  {
    es := first;
    if Active(w1.t.jobs[n].status) {
      var e := Fail(n, "", 0);
      FailActive(w1, n);
      SoundKept(w1, e);
      BereftStays(w1, e, i, since);
      BringsOne(w1, e, i, since);
      BringsOn(w, first, w1, [e], Apply(w1, e), i, since);
      es := first + [e];
    }
  }

  /** Reports can end every active job among the first n without touching row i. */
  lemma {:induction false} Quieten(w: World, i: nat, n: nat, since: Instant) returns (es: seq<Event>)
    requires Sound(w) && Bereft(w.t, i, since) && n <= |w.t.jobs|
    ensures Quiets(w, es, Run(w, es), i, n, since)
    decreases n
  {
    if n == 0 {
      es := [];
    } else {
      es := Quieten(w, i, n - 1, since);
      es := QuietOneMore(w, es, Run(w, es), i, n - 1, since);
    }
  }

  /** With nothing active, a claim takes the job itself or shortens the queue in front of it. */
  lemma QuietClaim(w: World, i: nat, since: Instant)
    requires Sound(w) && Bereft(w.t, i, since) && w.t.jobs[i].memory <= MAX_USER_RUNNING_MEMORY_MIB
    requires forall k :: 0 <= k < |w.t.jobs| ==> !Active(w.t.jobs[k].status)
    ensures var e := Claim(since, since, since);
            Touched(w, e).Some? && QueueLength(Apply(w, e).t.jobs) == QueueLength(w.t.jobs) - 1
  {
    var e := Claim(since, since, since);
    NothingActive(w.t.jobs, w.t.jobs[i].user);
    BereftEligibleIff(w.t, i, since, since);
    SelectedIsLeast(w.t, since, i);
    ClaimShrinksQueue(w, e, []);
  }

  /** A run of reports on other jobs and of claims that takes a small bereft job out of the queue. */
  lemma {:induction false} ClaimsReachIt(w: World, i: nat, since: Instant) returns (es: seq<Event>)
    requires Sound(w) && Bereft(w.t, i, since) && w.t.jobs[i].memory <= MAX_USER_RUNNING_MEMORY_MIB
    ensures Brings(w, es, Run(w, es), i, since)
    ensures i < |Run(w, es).t.jobs| && Run(w, es).t.jobs[i].status.Cancelled?
    decreases QueueLength(w.t.jobs)
  {
    es := Quieten(w, i, |w.t.jobs|, since);
    var w1 := Run(w, es);
    var e := Claim(since, since, since);
    QuietClaim(w1, i, since);
    var w2 := Apply(w1, e);
    BringsOne(w1, e, i, since);
    BringsOn(w, es, w1, [e], w2, i, since);
    es := es + [e];
    SoundKept(w1, e);
    if Touched(w1, e) == Some(i) {
      BereftSelectedIsCancelled(w1, e, i, since);
    } else {
      BereftStays(w1, e, i, since);
      SumNonNegative(w.t.jobs, QueuedOne());
      var more := ClaimsReachIt(w2, i, since);
      BringsOn(w, es, w2, more, Run(w2, more), i, since);
      es := es + more;
    }
  }

  /** Some run that leaves the row to claims takes the job out of the queue. */
  ghost predicate CanLeave(w: World, i: nat, since: Instant) {
    exists es :: Brings(w, es, Run(w, es), i, since)
                 && i < |Run(w, es).t.jobs| && !Run(w, es).t.jobs[i].status.Queued?
  }

  /** The exact condition: claims can take a job with a dead grant out of the queue iff it has at most 256 MiB. */
  lemma DeadGrantLeavesIff(w: World, i: nat, since: Instant)
    requires Sound(w) && Bereft(w.t, i, since)
    ensures CanLeave(w, i, since) <==> w.t.jobs[i].memory <= MAX_USER_RUNNING_MEMORY_MIB
  {
    if w.t.jobs[i].memory <= MAX_USER_RUNNING_MEMORY_MIB {
      var es := ClaimsReachIt(w, i, since);
      assert Brings(w, es, Run(w, es), i, since);
    } else {
      forall es | Brings(w, es, Run(w, es), i, since)
        ensures i < |Run(w, es).t.jobs| && Run(w, es).t.jobs[i].status.Queued?
      {
        StrandedJob(w, es, i, since);
      }
    }
  }

  // ----- a stranded job is reachable -----

  const EXPIRING := Grant(0, Some(1024), None, None, None, Some(10), true)
  const LARGE := Payload("main.cpp", "", "gcc-14-gnu++17", 1000, 512, [""])

  /** Submit under a grant that expires before any claim. */
  lemma StrandedJobIsReachable() returns (es: seq<Event>)
    ensures var w := Run(EMPTY, es);
            Sound(w) && Bereft(w.t, 0, 10) && w.t.jobs[0].memory == 512 && !CanLeave(w, 0, 10)
  {
    var w1 := Apply(EMPTY, NewGrant(EXPIRING));
    assert [] + [EXPIRING] == [EXPIRING];
    assert w1 == World(Tables([], [EXPIRING]), []);
    assert [EXPIRING][..0] == [];
    PickedGrantIsBest(w1.t, 0, LARGE, 0);
    assert GrantValid(w1.t.grants[0], 0) && Covers(w1.t.grants[0], LARGE);
    var create := CreateEvents(w1, 0, LARGE, 0, 0, 0);
    SerialCreate(w1, 0, LARGE, 0, 0, 0);
    es := [NewGrant(EXPIRING)] + create;
    assert [NewGrant(EXPIRING)][1..] == [];
    RunConcat(EMPTY, [NewGrant(EXPIRING)], create);
    SoundRun(EMPTY, es);
    DeadGrantLeavesIff(Run(EMPTY, es), 0, 10);
  }
}
