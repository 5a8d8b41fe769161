/**
 Where the reservation and the parent limit part although every database step is atomic: a memory
 grant raises what the scheduler reserves for its owner, while `run_group` keeps the parent at 256 MiB
 (runner.py). A job small enough for `run_group` is bound to a grant only if it asks for more than 60 s,
 so the grants that do this are exactly those above 256 MiB and above 60 s.
 */
module Overcommit {
  import opened Common
  import opened Results
  import opened Ledger
  import opened Runs
  import opened Rules
  import opened DatabaseStore
  import opened Cgroups
  import opened TwoLayer
  import opened Histories

  /** Within the default time, and just above it. */
  function Short(m: nat): Payload {
    Payload("main.cpp", "", "gcc-14-gnu++17", 1000, m, [""])
  }

  function Long(n: nat): Payload {
    Payload("main.cpp", "", "gcc-14-gnu++17", 60_001, n, [""])
  }

  /** A moment from which the grant is valid for a while. */
  function Base(g: Grant): Instant {
    if g.expiresAt.Some? then g.expiresAt.value - 10 else 0
  }

  lemma ValidFromBase(g: Grant, k: nat)
    requires ValidGrant(g) && k < 10
    ensures GrantValid(g, Base(g) + k)
  {
  }

  function Started(u: UserId, p: Payload, grant: Option<nat>, created: Instant, start: Instant): Job {
    NewJob(u, p, grant, created).(status := Compiling, startedAt := Some(start))
  }

  lemma Granted(h: Setting, g: Grant) returns (ms: seq<Move>)
    requires Fair(h) && h.issues(g) && ValidGrant(g)
    ensures Leads(h, ms, At(h, Tables([], [g]), [], Idle, Idle, NO_GROUPS))
  {
    ms := Start(h);
    assert [] + [g] == [g];
    ms := Then(h, ms, At(h, Tables([], []), [], Idle, Idle, NO_GROUPS), Control(NewGrant(g)),
               At(h, Tables([], [g]), [], Idle, Idle, NO_GROUPS));
  }

  /** The one grant is taken for whatever needs and fits it. */
  lemma TakesTheGrant(jobs: seq<Job>, g: Grant, p: Payload, now: Instant)
    requires GrantValid(g, now) && NeedsGrant(p) && Covers(g, p) && Inflight(jobs, g.user) < MAX_USER_INFLIGHT
    ensures Admission(Tables(jobs, [g]), g.user, p, now, now) == Ok(Some(0))
  {
    LimitAtLeastDefault([g], g.user, now);
    PickedGrantIsBest(Tables(jobs, [g]), g.user, p, now);
    assert GrantValid([g][0], now) && Covers([g][0], p);
  }

  /** What a history needs to overcommit by m and n MiB. */
  ghost predicate Ready(h: Setting, g: Grant, m: nat, n: nat) {
    && Fair(h) && h.issues(g) && ValidGrant(g) && g.user == h.u && Raises(g)
    && 16 <= m <= AGGREGATE_MIB && 16 <= n <= AGGREGATE_MIB && m + n <= g.memory.value
  }

  function Waiting(h: Setting, g: Grant, n: nat): Job {
    NewJob(h.u, Long(n), Some(0), Base(g) + 1)
  }

  function First(h: Setting, g: Grant, m: nat): Job {
    Started(h.u, Short(m), None, Base(g), Base(g) + 2)
  }

  function Second(h: Setting, g: Grant, n: nat): Job {
    Started(h.u, Long(n), Some(0), Base(g) + 1, Base(g) + 3)
  }

  lemma BothSubmitted(h: Setting, g: Grant, m: nat, n: nat) returns (ms: seq<Move>)
    requires Ready(h, g, m, n)
    ensures Leads(h, ms, At(h, Tables([NewJob(h.u, Short(m), None, Base(g)), Waiting(h, g, n)], [g]), [Done, Done],
                            Idle, Idle, NO_GROUPS))
  {
    ms := Granted(h, g);
    var a, b := NewJob(h.u, Short(m), None, Base(g)), Waiting(h, g, n);
    var y1 := At(h, Tables([], [g]), [], Idle, Idle, NO_GROUPS);
    var y2 := At(h, Tables([a], [g]), [Done], Idle, Idle, NO_GROUPS);
    LimitAtLeastDefault([g], h.u, Base(g));
    assert [] + [a] == [a] && [] + [Done] == [Done];
    ms := ThenSubmit(h, ms, y1, Short(m), None, Base(g), y2);
    SumOne(a, UnfinishedOf(h.u));
    ValidFromBase(g, 1);
    TakesTheGrant([a], g, Long(n), Base(g) + 1);
    assert [a] + [b] == [a, b] && [Done] + [Done] == [Done, Done];
    ms := ThenSubmit(h, ms, y2, Long(n), Some(0), Base(g) + 1,
                     At(h, Tables([a, b], [g]), [Done, Done], Idle, Idle, NO_GROUPS));
  }

  /** The scheduler takes the older job first. */
  lemma OlderFirst(h: Setting, g: Grant, m: nat, n: nat, first: seq<Move>) returns (ms: seq<Move>)
    requires Ready(h, g, m, n)
    requires Leads(h, first, At(h, Tables([NewJob(h.u, Short(m), None, Base(g)), Waiting(h, g, n)], [g]), [Done, Done],
                                Idle, Idle, NO_GROUPS))
    ensures Leads(h, ms, At(h, Tables([First(h, g, m), Waiting(h, g, n)], [g]), [Done, Done],
                            Busy(0, 1, true), Idle, GroupFor(h, NO_GROUPS, 0, m)))
  {
    var a, b, calls, now := NewJob(h.u, Short(m), None, Base(g)), Waiting(h, g, n), [Done, Done], Base(g) + 2;
    var y := At(h, Tables([a, b], [g]), calls, Idle, Idle, NO_GROUPS);
    SumTwo(a, b, MemoryOf(h.u));
    assert Eligible(y.w.t, 0, now);
    Selected(y.w.t, 0, now);
    SlotTakes(h, y, 0, 0, now);
    SlotsUpdated(h, Idle, Idle, Busy(0, 0, false));
    assert [a, b][0 := First(h, g, m)] == [First(h, g, m), b];
    var z := At(h, Tables([First(h, g, m), b], [g]), calls, Busy(0, 0, false), Idle, NO_GROUPS);
    ms := Then(h, first, y, SlotClaim(0, now, now, now), z);
    FirstCase(h, z, 0);
    SlotsUpdated(h, Busy(0, 0, false), Idle, Busy(0, 1, true));
    ms := Then(h, ms, z, CaseStart(0), At(h, z.w.t, calls, Busy(0, 1, true), Idle, GroupFor(h, NO_GROUPS, 0, m)));
  }

  lemma OtherSelected(h: Setting, g: Grant, m: nat, n: nat)
    requires Ready(h, g, m, n)
    ensures ClaimQuery(Tables([First(h, g, m), Waiting(h, g, n)], [g]), Base(g) + 3) == Some(1)
  {
    var t := Tables([First(h, g, m), Waiting(h, g, n)], [g]);
    SumTwo(First(h, g, m), Waiting(h, g, n), MemoryOf(h.u));
    ValidFromBase(g, 3);
    assert Eligible(t, 1, Base(g) + 3);
    Selected(t, 1, Base(g) + 3);
  }

  /** The reservation of the grant has room for the second. */
  lemma ThenTheOther(h: Setting, g: Grant, m: nat, n: nat, fs: Fs, first: seq<Move>) returns (ms: seq<Move>)
    requires Ready(h, g, m, n)
    requires Leads(h, first, At(h, Tables([First(h, g, m), Waiting(h, g, n)], [g]), [Done, Done],
                                Busy(0, 1, true), Idle, fs))
    ensures Leads(h, ms, At(h, Tables([First(h, g, m), Second(h, g, n)], [Charge(g)]), [Done, Done],
                            Busy(0, 1, true), Busy(1, 1, true), GroupFor(h, fs, 1, n)))
  {
    var a, b, calls, now := First(h, g, m), Waiting(h, g, n), [Done, Done], Base(g) + 3;
    var y := At(h, Tables([a, b], [g]), calls, Busy(0, 1, true), Idle, fs);
    OtherSelected(h, g, m, n);
    ValidFromBase(g, 3);
    SlotTakes(h, y, 1, 1, now);
    SlotsUpdated(h, Busy(0, 1, true), Idle, Busy(1, 0, false));
    assert [a, b][1 := Second(h, g, n)] == [a, Second(h, g, n)] && [g][0 := Charge(g)] == [Charge(g)];
    var z := At(h, Tables([a, Second(h, g, n)], [Charge(g)]), calls, Busy(0, 1, true), Busy(1, 0, false), fs);
    ms := Then(h, first, y, SlotClaim(1, now, now, now), z);
    FirstCase(h, z, 1);
    SlotsUpdated(h, Busy(0, 1, true), Busy(1, 0, false), Busy(1, 1, true));
    ms := Then(h, ms, z, CaseStart(1), At(h, z.w.t, calls, Busy(0, 1, true), Busy(1, 1, true), GroupFor(h, fs, 1, n)));
  }

  /**
   Under any one valid grant above 256 MiB and above 60 s, whatever its uses and expiry, its owner's live
   limits reach every sum of two case limits the grant has room for, below a parent of 256 MiB.
   */
  lemma GrantOvercommits(h: Setting, g: Grant, m: nat, n: nat) returns (ms: seq<Move>)
    requires Ready(h, g, m, n)
    ensures AllPermitted(h, ms)
    ensures var y := Steps(h.site, Boot(h.slots), ms);
            && LiveBytes(h.site, y, h.u) == (m + n) * MIB
            && MaxBytes(y.fs, UserPath(h.site.root, Owner(h))) == 256 * MIB
  {
    ms := BothSubmitted(h, g, m, n);
    ms := OlderFirst(h, g, m, n, ms);
    ms := ThenTheOther(h, g, m, n, GroupFor(h, NO_GROUPS, 0, m), ms);
    TwoLive(h, Tables([First(h, g, m), Second(h, g, n)], [Charge(g)]), [Done, Done], m, n);
    TwoGroupLimits(h, m, n);
  }

  // ----- which grants are harmless -----

  /** Only grants of the given kind are issued. */
  ghost predicate OnlyIssues(ms: seq<Move>, ok: Grant -> bool) {
    forall k :: 0 <= k < |ms| && ms[k].Control? && ms[k].event.NewGrant? ==> ok(ms[k].event.grant)
  }

  /** In every run without a stale cancellation that issues only such grants, the user's live limits fit the parent. */
  ghost predicate Harmless(site: Site, slots: nat, u: UserId, ok: Grant -> bool) {
    forall ms :: OnlyIssues(ms, ok) && NoStale(site, Boot(slots), ms) ==>
                   LiveBytes(site, Steps(site, Boot(slots), ms), u) <= AGGREGATE_MIB * MIB
  }

  lemma StepIssuesNone(site: Site, y: System, m: Move, u: UserId)
    requires NoneRaises(y.w.t.grants, u)
    requires m.Control? && m.event.NewGrant? ==>
               ValidGrant(m.event.grant) && m.event.grant.user == u ==> !Raises(m.event.grant)
    ensures NoneRaises(Step(site, y, m).w.t.grants, u)
  {
    StepLimits(site, y, m);
  }

  lemma {:induction false} RunIssuesNone(site: Site, y: System, ms: seq<Move>, u: UserId, ok: Grant -> bool)
    requires NoneRaises(y.w.t.grants, u) && OnlyIssues(ms, ok)
    requires forall g :: ok(g) && ValidGrant(g) && g.user == u ==> !Raises(g)
    ensures NoneRaises(Steps(site, y, ms).w.t.grants, u)
    decreases |ms|
  {
    if ms != [] {
      StepIssuesNone(site, y, ms[0], u);
      assert forall k :: 0 <= k < |ms[1..]| ==> ms[1..][k] == ms[k + 1];
      RunIssuesNone(site, Step(site, y, ms[0]), ms[1..], u, ok);
    }
  }

  lemma HarmlessRun(site: Site, slots: nat, ms: seq<Move>, u: UserId, ok: Grant -> bool)
    requires Identities(site) && OnlyIssues(ms, ok) && NoStale(site, Boot(slots), ms)
    requires forall g :: ok(g) && ValidGrant(g) && g.user == u ==> !Raises(g)
    ensures LiveBytes(site, Steps(site, Boot(slots), ms), u) <= AGGREGATE_MIB * MIB
  {
    RunIssuesNone(site, Boot(slots), ms, u, ok);
    TwoLayerAgreement(site, slots, ms, u);
  }

  lemma RaisingGrantHarms(site: Site, slots: nat, g: Grant, ok: Grant -> bool)
    requires Identities(site) && g.user in site.ids && 2 <= slots && ok(g) && ValidGrant(g) && Raises(g)
    ensures !Harmless(site, slots, g.user, ok)
  {
    var h := Setting(site, g.user, slots, ok, false);
    var ms := GrantOvercommits(h, g, 241, 16);
    assert forall k :: 0 <= k < |ms| ==> Permits(h, ms[k]);
    assert OnlyIssues(ms, ok) && AtomicCancels(ms);
    AtomicIsNotStale(site, Boot(slots), ms);
    assert LiveBytes(site, Steps(site, Boot(slots), ms), g.user) == 257 * MIB;
  }

  lemma OneLiveCase(site: Site, y: System, s: nat, u: UserId)
    requires s < |y.slots| && SlotInv(site, y, s)
    ensures LiveLimit(site, y.w.t.jobs, y.fs, u)(y.slots[s]) <= AGGREGATE_MIB * MIB
  {
  }

  lemma SumOfFew(slots: seq<Slot>, weight: Slot -> int, most: nat)
    requires |slots| <= 1 && forall s :: 0 <= s < |slots| ==> weight(slots[s]) <= most
    ensures Sum(slots, weight) <= most
  {
    if |slots| == 1 {
      SumOne(slots[0], weight);
      assert slots == [slots[0]];
    }
  }

  /** One case at most is live with one slot, and none of a user without an id. */
  lemma OneCaseFits(site: Site, y: System, u: UserId)
    requires Inv(site, y) && (|y.slots| <= 1 || u !in site.ids)
    ensures LiveBytes(site, y, u) <= AGGREGATE_MIB * MIB
  {
    var weight := LiveLimit(site, y.w.t.jobs, y.fs, u);
    if u !in site.ids {
      NothingLive(y.slots, weight);
    } else {
      forall s: nat | s < |y.slots|
        ensures weight(y.slots[s]) <= AGGREGATE_MIB * MIB
      {
        OneLiveCase(site, y, s, u);
      }
      SumOfFew(y.slots, weight, AGGREGATE_MIB * MIB);
    }
  }

  lemma {:induction false} NothingLive(slots: seq<Slot>, weight: Slot -> int)
    requires forall b: Slot :: weight(b) == 0
    ensures Sum(slots, weight) == 0
  {
    if slots != [] {
      NothingLive(slots[..|slots| - 1], weight);
    }
  }

  lemma {:induction false} SlotsStay(site: Site, y: System, ms: seq<Move>)
    ensures |Steps(site, y, ms).slots| == |y.slots|
    decreases |ms|
  {
    if ms != [] {
      SlotsStay(site, Step(site, y, ms[0]), ms[1..]);
    }
  }

  lemma FewCasesAreHarmless(site: Site, slots: nat, u: UserId, ok: Grant -> bool)
    requires Identities(site) && (slots < 2 || u !in site.ids)
    ensures Harmless(site, slots, u, ok)
  {
    forall ms | OnlyIssues(ms, ok) && NoStale(site, Boot(slots), ms)
      ensures LiveBytes(site, Steps(site, Boot(slots), ms), u) <= AGGREGATE_MIB * MIB
    {
      BootInv(site, slots);
      InvRun(site, Boot(slots), ms);
      SlotsStay(site, Boot(slots), ms);
      OneCaseFits(site, Steps(site, Boot(slots), ms), u);
    }
  }

  /**
   The exact condition, on the grants as they are issued: a user's live limits fit the parent in every
   run if and only if no grant issued to that user is both above 256 MiB and above 60 s, or there is
   just one slot, or the user has no id to run under.
   */
  lemma HarmlessIff(site: Site, slots: nat, u: UserId, ok: Grant -> bool)
    requires Identities(site)
    ensures Harmless(site, slots, u, ok)
       <==> slots < 2 || u !in site.ids || forall g :: ok(g) && ValidGrant(g) && g.user == u ==> !Raises(g)
  {
    if slots < 2 || u !in site.ids {
      FewCasesAreHarmless(site, slots, u, ok);
    } else if forall g :: ok(g) && ValidGrant(g) && g.user == u ==> !Raises(g) {
      forall ms | OnlyIssues(ms, ok) && NoStale(site, Boot(slots), ms)
        ensures LiveBytes(site, Steps(site, Boot(slots), ms), u) <= AGGREGATE_MIB * MIB
      {
        HarmlessRun(site, slots, ms, u, ok);
      }
    } else {
      var g :| ok(g) && ValidGrant(g) && g.user == u && Raises(g);
      RaisingGrantHarms(site, slots, g, ok);
    }
  }

  // ----- a job no group is made for -----

  ghost predicate Large(h: Setting, g: Grant) {
    && Fair(h) && h.issues(g) && ValidGrant(g) && g.user == h.u
    && g.memory.Some? && g.memory.value > AGGREGATE_MIB
  }

  function LargeRow(h: Setting, g: Grant): Job {
    NewJob(h.u, Short(257), Some(0), Base(g))
  }

  lemma LargeSubmitted(h: Setting, g: Grant) returns (ms: seq<Move>)
    requires Large(h, g)
    ensures Leads(h, ms, At(h, Tables([LargeRow(h, g)], [g]), [Done], Idle, Idle, NO_GROUPS))
  {
    ms := Granted(h, g);
    ValidFromBase(g, 0);
    TakesTheGrant([], g, Short(257), Base(g));
    assert [] + [LargeRow(h, g)] == [LargeRow(h, g)] && [] + [Done] == [Done];
    ms := ThenSubmit(h, ms, At(h, Tables([], [g]), [], Idle, Idle, NO_GROUPS), Short(257), Some(0), Base(g),
                     At(h, Tables([LargeRow(h, g)], [g]), [Done], Idle, Idle, NO_GROUPS));
  }

  lemma LargeSelected(h: Setting, g: Grant)
    requires Large(h, g)
    ensures ClaimQuery(Tables([LargeRow(h, g)], [g]), Base(g) + 1) == Some(0)
  {
    var t := Tables([LargeRow(h, g)], [g]);
    ValidFromBase(g, 1);
    SumOne(LargeRow(h, g), MemoryOf(h.u));
    assert Eligible(t, 0, Base(g) + 1);
    Selected(t, 0, Base(g) + 1);
  }

  /** Under any valid grant above 256 MiB a larger job is admitted, charged, reaches a slot and is refused its group. */
  lemma LargeJobReachesSlot(h: Setting, g: Grant) returns (ms: seq<Move>)
    requires Large(h, g)
    ensures AllPermitted(h, ms)
    ensures var y := Steps(h.site, Boot(h.slots), ms);
            && BusyAt(y, 0) && JobAt(y, 0).memory > AGGREGATE_MIB && JobAt(y, 0).status.Compiling?
            && !StartAccepted(h.site, y, 0) && Step(h.site, y, CaseStart(0)) == y
  {
    var now := Base(g) + 1;
    var c, d := LargeRow(h, g), Started(h.u, Short(257), Some(0), Base(g), now);
    var y := At(h, Tables([c], [g]), [Done], Idle, Idle, NO_GROUPS);
    var z := At(h, Tables([d], [Charge(g)]), [Done], Busy(0, 0, false), Idle, NO_GROUPS);
    ms := LargeSubmitted(h, g);
    LargeSelected(h, g);
    ValidFromBase(g, 1);
    SlotTakes(h, y, 0, 0, now);
    SlotsUpdated(h, Idle, Idle, Busy(0, 0, false));
    assert [c][0 := d] == [d] && [g][0 := Charge(g)] == [Charge(g)];
    ms := Then(h, ms, y, SlotClaim(0, now, now, now), z);
    LargeJobCannotRun(h.site, z, 0);
  }
}
