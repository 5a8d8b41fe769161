/** Which job a claim takes, and how long a user with an eligible job can be passed over. */
module Fairness {
  import opened Common
  import opened Ledger
  import opened Runs
  import opened Lifecycle

  // ----- the query is one lexicographic minimum -----

  function EligibleRow(t: Tables, now: Instant): nat -> bool {
    (i: nat) => Eligible(t, i, now)
  }

  /** The user's key, then the job's place in that user's queue. */
  function FullKey(t: Tables): nat -> Key {
    (i: nat) =>
      if i < |t.jobs|
      then UserKey(t.jobs, t.jobs[i].user).(d := t.jobs[i].createdAt, e := i)
      else Key(2, 0, 0, 0, 0)
  }

  function LexicographicClaim(t: Tables, now: Instant): Option<nat> {
    Best(|t.jobs|, EligibleRow(t, now), FullKey(t))
  }

  lemma {:induction false} NoneBefore(t: Tables, i: nat, now: Instant, n: nat)
    requires i < |t.jobs| && n <= |t.jobs|
    ensures RowsBefore(t, i, now, n) == 0 <==>
            forall k: nat :: k < n && Eligible(t, k, now) && t.jobs[k].user == t.jobs[i].user ==> !QueuedBefore(t, k, i)
  {
    if n > 0 {
      NoneBefore(t, i, now, n - 1);
    }
  }

  /** Row number one means: no eligible job of the same user is older. */
  lemma HeadOfQueue(t: Tables, i: nat, now: Instant)
    requires i < |t.jobs|
    ensures QueuePosition(t, i, now) == 1 <==>
            forall k: nat :: k < |t.jobs| && Eligible(t, k, now) && t.jobs[k].user == t.jobs[i].user
                             ==> !QueuedBefore(t, k, i)
  {
    NoneBefore(t, i, now, |t.jobs|);
  }

  /** The windowed two-stage query returns the lexicographic minimum over user key, then (created_at, id). */
  lemma ClaimQueryIsLexicographic(t: Tables, now: Instant)
    ensures ClaimQuery(t, now) == LexicographicClaim(t, now)
  {
    var n := |t.jobs|;
    BestIsLeast(n, HeadRow(t, now), HeadKey(t));
    BestIsLeast(n, EligibleRow(t, now), FullKey(t));
    var r, x := ClaimQuery(t, now), LexicographicClaim(t, now);
    if x.Some? {
      HeadOfQueue(t, x.value, now);
      forall k: nat | k < n && Eligible(t, k, now) && t.jobs[k].user == t.jobs[x.value].user
        ensures !QueuedBefore(t, k, x.value)
      {
        assert EligibleRow(t, now)(k);
        assert !KeyLess(FullKey(t)(k), FullKey(t)(x.value));
      }
      assert HeadRow(t, now)(x.value);
      assert r.Some? && !KeyLess(HeadKey(t)(x.value), HeadKey(t)(r.value));
      assert EligibleRow(t, now)(r.value);
      assert !KeyLess(FullKey(t)(r.value), FullKey(t)(x.value));
      assert t.jobs[r.value].user == t.jobs[x.value].user;
      HeadOfQueue(t, r.value, now);
    }
  }

  /** The selected row beats every eligible row. */
  lemma SelectedIsLeast(t: Tables, now: Instant, i: nat)
    requires Eligible(t, i, now)
    ensures ClaimQuery(t, now).Some?
    ensures var r := ClaimQuery(t, now).value;
            r < |t.jobs| && Eligible(t, r, now) && !KeyLess(FullKey(t)(i), FullKey(t)(r))
  {
    ClaimQueryIsLexicographic(t, now);
    BestIsLeast(|t.jobs|, EligibleRow(t, now), FullKey(t));
    assert EligibleRow(t, now)(i);
  }

  /**
   Within one user, among uncancelled jobs without grants, a claim never takes a later job that
   needs at least as much memory as one queued before it.
   */
  lemma NoOvertaking(t: Tables, now: Instant, earlier: nat, later: nat)
    requires earlier < |t.jobs| && later < |t.jobs| && t.jobs[earlier].user == t.jobs[later].user
    requires t.jobs[earlier].status.Queued? && !t.jobs[earlier].cancelRequested
    requires t.jobs[earlier].grant.None? && t.jobs[later].grant.None?
    requires QueuedBefore(t, earlier, later) && t.jobs[earlier].memory <= t.jobs[later].memory
    ensures ClaimQuery(t, now) != Some(later)
  {
    if ClaimQuery(t, now) == Some(later) {
      ClaimSelects(t, now);
      assert Eligible(t, earlier, now);
      SelectedIsLeast(t, now, earlier);
    }
  }

  // ----- last claim of a user -----

  lemma {:induction false} LastClaimedSame(jobs: seq<Job>, i: nat, k: Job, u: UserId)
    requires i < |jobs| && k.user == jobs[i].user && (k.startedAt == jobs[i].startedAt || k.user != u)
    ensures LastClaimed(jobs[i := k], u) == LastClaimed(jobs, u)
  {
    var n := |jobs| - 1;
    if i < n {
      LastClaimedSame(jobs[..n], i, k, u);
      assert jobs[i := k][..n] == jobs[..n][i := k];
    } else {
      assert jobs[i := k][..n] == jobs[..n];
    }
  }

  ghost predicate StartsUpTo(jobs: seq<Job>, floor: Instant) {
    forall i :: 0 <= i < |jobs| && jobs[i].startedAt.Some? ==> jobs[i].startedAt.value <= floor
  }

  lemma {:induction false} LastClaimedBelow(jobs: seq<Job>, u: UserId, floor: Instant)
    requires StartsUpTo(jobs, floor)
    ensures LastClaimed(jobs, u).Some? ==> LastClaimed(jobs, u).value <= floor
  {
    if jobs != [] {
      LastClaimedBelow(jobs[..|jobs| - 1], u, floor);
    }
  }

  lemma {:induction false} LastClaimedFresh(jobs: seq<Job>, i: nat, k: Job, floor: Instant)
    requires i < |jobs| && StartsUpTo(jobs, floor) && k.user == jobs[i].user
    requires k.startedAt.Some? && floor < k.startedAt.value
    ensures LastClaimed(jobs[i := k], k.user) == k.startedAt
  {
    var n := |jobs| - 1;
    if i < n {
      LastClaimedFresh(jobs[..n], i, k, floor);
      assert jobs[i := k][..n] == jobs[..n][i := k];
    } else {
      assert jobs[i := k][..n] == jobs[..n];
      LastClaimedBelow(jobs[..n], k.user, floor);
    }
  }

  // ----- bounded bypass -----

  /** The user whose job a claim selects, whether it is started or cancelled for a dead grant. */
  function SelectedUser(w: World, e: Event): Option<UserId> {
    if e.Claim? && Touched(w, e).Some? && Touched(w, e).value < |w.t.jobs|
    then Some(w.t.jobs[Touched(w, e).value].user)
    else None
  }

  function StartedUser(w: World, e: Event): Option<UserId> {
    if StartedBy(w, e).Some? then SelectedUser(w, e) else None
  }

  ghost predicate Ready(t: Tables, a: UserId, now: Instant) {
    exists i: nat :: Eligible(t, i, now) && t.jobs[i].user == a
  }

  /** At every claim of the run user a has an eligible job and is not the one selected. */
  ghost predicate PassedOver(w: World, es: seq<Event>, a: UserId)
    decreases |es|
  {
    es != [] ==>
      && (es[0].Claim? ==> Ready(w.t, a, es[0].select) && SelectedUser(w, es[0]) != Some(a))
      && PassedOver(Apply(w, es[0]), es[1..], a)
  }

  /** The start stamps of the run's claims strictly increase from `floor`. */
  predicate ClaimTimesRise(es: seq<Event>, floor: Instant)
    decreases |es|
  {
    es == [] ||
    if es[0].Claim? then floor < es[0].start && ClaimTimesRise(es[1..], es[0].start)
    else ClaimTimesRise(es[1..], floor)
  }

  /** The owners of the jobs started by a run, in order. */
  function StartedUsers(w: World, es: seq<Event>): seq<UserId>
    decreases |es|
  {
    if es == [] then []
    else
      var rest := StartedUsers(Apply(w, es[0]), es[1..]);
      if StartedUser(w, es[0]).Some? then [StartedUser(w, es[0]).value] + rest else rest
  }

  lemma LastClaimedStep(w: World, e: Event, u: UserId)
    requires Sound(w) && StartedUser(w, e) != Some(u)
    ensures LastClaimed(Apply(w, e).t.jobs, u) == LastClaimed(w.t.jobs, u)
  {
    JobsAfter(w, e);
    var jobs, jobs' := w.t.jobs, Apply(w, e).t.jobs;
    if Touched(w, e).Some? {
      LastClaimedSame(jobs, Touched(w, e).value, jobs'[Touched(w, e).value], u);
    } else if Inserts(w, e) {
      assert jobs'[..|jobs|] == jobs;
    }
  }

  /** A user whose last claim is later than a's cannot be selected while a is ready. */
  lemma NotAhead(t: Tables, select: Instant, a: UserId, b: UserId)
    requires Ready(t, a, select) && KeyLess(UserKey(t.jobs, a), UserKey(t.jobs, b))
    ensures var r := ClaimQuery(t, select); r.Some? && r.value < |t.jobs| && t.jobs[r.value].user != b
  {
    var i: nat :| Eligible(t, i, select) && t.jobs[i].user == a;
    SelectedIsLeast(t, select, i);
  }

  lemma {:induction false} StaysBehind(w: World, es: seq<Event>, a: UserId, b: UserId)
    requires Sound(w) && PassedOver(w, es, a) && KeyLess(UserKey(w.t.jobs, a), UserKey(w.t.jobs, b))
    ensures b !in StartedUsers(w, es)
    decreases |es|
  {
    if es != [] {
      var e, w' := es[0], Apply(w, es[0]);
      if e.Claim? {
        NotAhead(w.t, e.select, a, b);
      }
      JobsAfter(w, e);
      LastClaimedStep(w, e, a);
      LastClaimedStep(w, e, b);
      SoundKept(w, e);
      StaysBehind(w', es[1..], a, b);
    }
  }

  lemma FloorStep(w: World, e: Event, floor: Instant)
    requires Sound(w) && StartsUpTo(w.t.jobs, floor) && (e.Claim? ==> floor < e.start)
    ensures StartsUpTo(Apply(w, e).t.jobs, if e.Claim? then e.start else floor)
  {
    JobsAfter(w, e);
  }

  ghost predicate Distinct(s: seq<UserId>) {
    forall i, j :: 0 <= i < j < |s| ==> s[i] != s[j]
  }

  /** While a is ready and passed over, every other user starts at most one job. */
  lemma {:induction false} OneStartEach(w: World, es: seq<Event>, a: UserId, floor: Instant)
    requires Sound(w) && StartsUpTo(w.t.jobs, floor) && ClaimTimesRise(es, floor) && PassedOver(w, es, a)
    ensures a !in StartedUsers(w, es) && Distinct(StartedUsers(w, es))
    decreases |es|
  {
    if es != [] {
      var e, w' := es[0], Apply(w, es[0]);
      SoundKept(w, e);
      FloorStep(w, e, floor);
      OneStartEach(w', es[1..], a, if e.Claim? then e.start else floor);
      if StartedUser(w, e).Some? {
        JobsAfter(w, e);
        var i := Touched(w, e).value;
        var b := w.t.jobs[i].user;
        LastClaimedFresh(w.t.jobs, i, w'.t.jobs[i], floor);
        LastClaimedStep(w, e, a);
        LastClaimedBelow(w.t.jobs, a, floor);
        StaysBehind(w', es[1..], a, b);
      }
    }
  }

  lemma {:induction false} StartersOwnJobs(w: World, es: seq<Event>, users: set<UserId>)
    requires Sound(w)
    requires forall i :: 0 <= i < |Run(w, es).t.jobs| ==> Run(w, es).t.jobs[i].user in users
    ensures forall u :: u in StartedUsers(w, es) ==> u in users
    decreases |es|
  {
    if es != [] {
      SoundKept(w, es[0]);
      assert Run(w, es) == Run(Apply(w, es[0]), es[1..]);
      StartersOwnJobs(Apply(w, es[0]), es[1..], users);
      JobsAfter(w, es[0]);
      if StartedUser(w, es[0]).Some? {
        var i := Touched(w, es[0]).value;
        JobLifecycle(w, es, i);
        assert Run(w, es).t.jobs[i].user == w.t.jobs[i].user;
      }
    }
  }

  lemma {:induction false} DistinctFits(s: seq<UserId>, users: set<UserId>)
    requires Distinct(s) && forall u :: u in s ==> u in users
    ensures |s| <= |users|
  {
    if s != [] {
      var n := |s| - 1;
      forall u | u in s[..n] ensures u in users - {s[n]} {}
      DistinctFits(s[..n], users - {s[n]});
      assert s[n] in s;
    }
  }

  /**
   Bounded bypass: with N users who ever have jobs, user a is selected after at most N - 1 starts by
   others, provided a has an eligible job at every claim and the claims' stamps increase.
   */
  lemma BoundedBypass(w: World, es: seq<Event>, a: UserId, users: set<UserId>, floor: Instant)
    requires Sound(w) && StartsUpTo(w.t.jobs, floor) && ClaimTimesRise(es, floor) && PassedOver(w, es, a)
    requires a in users && forall i :: 0 <= i < |Run(w, es).t.jobs| ==> Run(w, es).t.jobs[i].user in users
    ensures |StartedUsers(w, es)| <= |users| - 1
  {
    OneStartEach(w, es, a, floor);
    StartersOwnJobs(w, es, users);
    DistinctFits(StartedUsers(w, es), users - {a});
  }

  // ----- eligibility is local to a user -----

  /** The user whose rows an event can change. */
  function ActsFor(w: World, e: Event): Option<UserId> {
    if Touched(w, e).Some? && Touched(w, e).value < |w.t.jobs| then Some(w.t.jobs[Touched(w, e).value].user)
    else if Inserts(w, e) then Some(w.calls[e.call].user)
    else None
  }

  lemma OtherGrantsKept(w: World, e: Event, g: nat)
    requires Sound(w) && g < |w.t.grants| && ActsFor(w, e) != Some(w.t.grants[g].user)
    ensures g < |Apply(w, e).t.grants| && Apply(w, e).t.grants[g] == w.t.grants[g]
  {
    JobsAfter(w, e);
    if Touched(w, e).Some? {
      assert RowSound(w.t, w.t.jobs[Touched(w, e).value]);
    }
  }

  lemma OtherMemoryKept(w: World, e: Event, a: UserId)
    requires Sound(w) && ActsFor(w, e) != Some(a)
    ensures ActiveMemory(Apply(w, e).t.jobs, a) == ActiveMemory(w.t.jobs, a)
  {
    JobsAfter(w, e);
    var jobs, jobs' := w.t.jobs, Apply(w, e).t.jobs;
    if Touched(w, e).Some? {
      SumUpdate(jobs, Touched(w, e).value, jobs'[Touched(w, e).value], MemoryOf(a));
    } else if Inserts(w, e) {
      SumAppend(jobs, jobs'[|jobs|], MemoryOf(a));
    }
  }

  /** No step of another user makes one of a's jobs eligible or ineligible. */
  lemma EligibilityIsLocal(w: World, e: Event, i: nat, now: Instant)
    requires Sound(w) && i < |w.t.jobs| && ActsFor(w, e) != Some(w.t.jobs[i].user)
    ensures Eligible(Apply(w, e).t, i, now) <==> Eligible(w.t, i, now)
  {
    JobsAfter(w, e);
    var j := w.t.jobs[i];
    assert RowSound(w.t, j);
    OtherMemoryKept(w, e, j.user);
    assert Apply(w, e).t.jobs[i] == j;
    if j.grant.Some? {
      OtherGrantsKept(w, e, j.grant.value);
    }
  }
}
