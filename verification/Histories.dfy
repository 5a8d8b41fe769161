/** Building histories of the two-layer system, one operation at a time, from boot, for any site and user. */
module Histories {
  import opened Common
  import opened Results
  import opened Ledger
  import opened Runs
  import opened Fairness
  import opened DatabaseStore
  import opened Wire
  import opened Cgroups
  import opened TwoLayer

  /** Whose history it is, how many slots there are, which grants it may issue, whether cancellations may be split. */
  datatype Setting = Setting(site: Site, u: UserId, slots: nat, issues: Grant -> bool, splits: bool)

  ghost predicate Fair(h: Setting) {
    Identities(h.site) && h.u in h.site.ids && 2 <= h.slots
  }

  function Owner(h: Setting): string {
    if h.u in h.site.ids then h.site.ids[h.u] else ""
  }

  predicate Permits(h: Setting, m: Move) {
    m.Control? ==>
      && (m.event.NewGrant? ==> h.issues(m.event.grant))
      && (m.event.ReadForCancel? || m.event.WriteCancelled? ==> h.splits)
  }

  ghost predicate AllPermitted(h: Setting, ms: seq<Move>) {
    forall k :: 0 <= k < |ms| ==> Permits(h, ms[k])
  }

  /** Two slots in a given state, the others idle. */
  function Slots(h: Setting, a: Slot, b: Slot): seq<Slot> {
    [a, b] + seq(if h.slots < 2 then 0 else h.slots - 2, _ => Idle)
  }

  function At(h: Setting, t: Tables, calls: seq<Call>, a: Slot, b: Slot, fs: Fs): System {
    System(World(t, calls), Slots(h, a, b), fs)
  }

  const NO_GROUPS := Fs({}, map[])

  // ----- moves in a row -----

  lemma {:induction false} StepsThen(site: Site, y: System, ms: seq<Move>, more: seq<Move>)
    ensures Steps(site, y, ms + more) == Steps(site, Steps(site, y, ms), more)
    decreases |ms|
  {
    if ms == [] {
      assert ms + more == more;
    } else {
      assert (ms + more)[1..] == ms[1..] + more;
      StepsThen(site, Step(site, y, ms[0]), ms[1..], more);
    }
  }

  /** A permitted history that leads from boot to a state. */
  ghost predicate Leads(h: Setting, ms: seq<Move>, y: System) {
    Steps(h.site, Boot(h.slots), ms) == y && AllPermitted(h, ms)
  }

  lemma Start(h: Setting) returns (ms: seq<Move>)
    requires Fair(h)
    ensures Leads(h, ms, At(h, Tables([], []), [], Idle, Idle, NO_GROUPS))
  {
    ms := [];
    assert Boot(h.slots).slots == Slots(h, Idle, Idle);
  }

  lemma ThenAll(h: Setting, ms: seq<Move>, y: System, more: seq<Move>, z: System) returns (all: seq<Move>)
    requires Leads(h, ms, y) && Steps(h.site, y, more) == z && AllPermitted(h, more)
    ensures Leads(h, all, z)
  {
    StepsThen(h.site, Boot(h.slots), ms, more);
    all := ms + more;
  }

  lemma Then(h: Setting, ms: seq<Move>, y: System, m: Move, z: System) returns (all: seq<Move>)
    requires Leads(h, ms, y) && Step(h.site, y, m) == z && Permits(h, m)
    ensures Leads(h, all, z)
  {
    assert [m][1..] == [];
    all := ThenAll(h, ms, y, [m], z);
  }

  // ----- submissions -----

  function Controls(es: seq<Event>): seq<Move> {
    seq(|es|, k requires 0 <= k < |es| => Control(es[k]))
  }

  lemma {:induction false} ControlsRun(site: Site, y: System, es: seq<Event>)
    requires forall k :: 0 <= k < |es| ==> ControlEvent(site, es[k])
    ensures Steps(site, y, Controls(es)) == y.(w := Run(y.w, es))
    decreases |es|
  {
    if es != [] {
      assert Controls(es)[1..] == Controls(es[1..]);
      ControlsRun(site, Step(site, y, Control(es[0])), es[1..]);
    }
  }

  lemma ThenSubmit(h: Setting, ms: seq<Move>, y: System, p: Payload, grant: Option<nat>, now: Instant, z: System)
    returns (all: seq<Move>)
    requires Fair(h) && Leads(h, ms, y) && ValidPayload(p) && Admission(y.w.t, h.u, p, now, now) == Ok(grant)
    requires z == y.(w := World(y.w.t.(jobs := y.w.t.jobs + [NewJob(h.u, p, grant, now)]), y.w.calls + [Done]))
    ensures Leads(h, all, z)
  {
    var es := CreateEvents(y.w, h.u, p, now, now, now);
    SerialCreate(y.w, h.u, p, now, now, now);
    ControlsRun(h.site, y, es);
    all := ThenAll(h, ms, y, Controls(es), z);
  }

  // ----- claims -----

  /** An eligible job is selected when every other eligible one is a younger job of the same user. */
  lemma Selected(t: Tables, i: nat, now: Instant)
    requires Eligible(t, i, now)
    requires forall k: nat :: Eligible(t, k, now) && k != i ==>
                                t.jobs[k].user == t.jobs[i].user && QueuedBefore(t, i, k)
    ensures ClaimQuery(t, now) == Some(i)
  {
    SelectedIsLeast(t, now, i);
  }

  /** The tables after the selected job is started, its grant charged. */
  function StartedIn(t: Tables, i: nat, now: Instant): Tables
    requires i < |t.jobs| && (t.jobs[i].grant.Some? ==> t.jobs[i].grant.value < |t.grants|)
  {
    Tables(t.jobs[i := t.jobs[i].(status := Compiling, startedAt := Some(now))],
           if t.jobs[i].grant.Some?
           then t.grants[t.jobs[i].grant.value := Charge(t.grants[t.jobs[i].grant.value])]
           else t.grants)
  }

  /** A free slot takes the selected job. */
  lemma SlotTakes(h: Setting, y: System, s: nat, i: nat, now: Instant)
    requires s < |y.slots| && y.slots[s].Idle? && ClaimQuery(y.w.t, now) == Some(i) && i < |y.w.t.jobs|
    requires y.w.t.jobs[i].grant.Some? ==>
               && y.w.t.jobs[i].grant.value < |y.w.t.grants|
               && GrantValid(y.w.t.grants[y.w.t.jobs[i].grant.value], now)
    ensures Step(h.site, y, SlotClaim(s, now, now, now))
         == System(World(StartedIn(y.w.t, i, now), y.w.calls), y.slots[s := Busy(i, 0, false)], y.fs)
  {
  }

  /** The tree after the first case of a job is started. */
  function GroupFor(h: Setting, fs: Fs, job: nat, memory: nat): Fs {
    RunGroupFs(fs, h.site.root, Owner(h), job + 1, 1, memory, AGGREGATE_MIB)
  }

  /** The slot starts its first case. */
  lemma FirstCase(h: Setting, y: System, s: nat)
    requires Fair(h) && BusyAt(y, s) && y.slots[s].position == 0 && !y.slots[s].live
    requires JobAt(y, s).user == h.u && 0 < JobAt(y, s).memory <= AGGREGATE_MIB && JobAt(y, s).cases != []
    ensures Step(h.site, y, CaseStart(s))
         == System(y.w, y.slots[s := Busy(y.slots[s].job, 1, true)],
                   GroupFor(h, y.fs, y.slots[s].job, JobAt(y, s).memory))
  {
    assert CanonicalUuid(h.site.ids[h.u]);
  }

  lemma SlotsUpdated(h: Setting, a: Slot, b: Slot, c: Slot)
    ensures Slots(h, a, b)[0 := c] == Slots(h, c, b) && Slots(h, a, b)[1 := c] == Slots(h, a, c)
  {
  }

  // ----- sums over a few rows -----

  lemma SumOne<T>(a: T, weight: T -> int)
    ensures Sum([a], weight) == weight(a)
  {
    assert [a][..0] == [];
  }

  lemma SumTwo<T>(a: T, b: T, weight: T -> int)
    ensures Sum([a, b], weight) == weight(a) + weight(b)
  {
    assert [a, b][..1] == [a];
    SumOne(a, weight);
  }

  lemma {:induction false} IdlesWeighNothing(a: Slot, b: Slot, n: nat, weight: Slot -> int)
    requires weight(Idle) == 0
    ensures Sum([a, b] + seq(n, _ => Idle), weight) == weight(a) + weight(b)
  {
    var s := [a, b] + seq(n, _ => Idle);
    if n == 0 {
      assert s == [a, b];
      SumTwo(a, b, weight);
    } else {
      IdlesWeighNothing(a, b, n - 1, weight);
      assert s[..|s| - 1] == [a, b] + seq(n - 1, _ => Idle);
    }
  }

  lemma LimitAtLeastDefault(grants: seq<Grant>, u: UserId, now: Instant)
    ensures MAX_USER_INFLIGHT <= EffectiveInflight(grants, u, now)
  {
  }

  /** The tree after the first cases of jobs one and two are started. */
  function TwoGroups(h: Setting, m: nat, n: nat): Fs {
    GroupFor(h, GroupFor(h, NO_GROUPS, 0, m), 1, n)
  }

  lemma TwoGroupLimits(h: Setting, m: nat, n: nat)
    ensures MaxBytes(TwoGroups(h, m, n), CasePath(h.site.root, Owner(h), 1, 1)) == m * MIB
    ensures MaxBytes(TwoGroups(h, m, n), CasePath(h.site.root, Owner(h), 2, 1)) == n * MIB
    ensures MaxBytes(TwoGroups(h, m, n), UserPath(h.site.root, Owner(h))) == AGGREGATE_MIB * MIB
  {
    var root, owner := h.site.root, Owner(h);
    var f1 := GroupFor(h, NO_GROUPS, 0, m);
    var p, q, parent := CasePath(root, owner, 1, 1), CasePath(root, owner, 2, 1), UserPath(root, owner);
    RunGroupLimits(NO_GROUPS, root, owner, 1, 1, m, AGGREGATE_MIB, p);
    RunGroupLimits(f1, root, owner, 2, 1, n, AGGREGATE_MIB, p);
    RunGroupLimits(f1, root, owner, 2, 1, n, AGGREGATE_MIB, q);
    RunGroupLimits(f1, root, owner, 2, 1, n, AGGREGATE_MIB, parent);
    assert p != q by {
      if p == q {
        CasePathInjective(root, owner, 1, 1, owner, 2, 1);
      }
    }
    assert |p| == |q| == |root| + 3 && |parent| == |root| + 2;
  }

  lemma LiveCase(h: Setting, t: Tables, fs: Fs, job: nat)
    requires Fair(h) && job < |t.jobs| && t.jobs[job].user == h.u
    ensures LiveLimit(h.site, t.jobs, fs, h.u)(Busy(job, 1, true))
         == MaxBytes(fs, CasePath(h.site.root, Owner(h), job + 1, 1))
  {
  }

  /** Two live first cases count their two limits. */
  lemma LiveSum(h: Setting, t: Tables, calls: seq<Call>, fs: Fs)
    requires Fair(h) && |t.jobs| == 2 && t.jobs[0].user == h.u && t.jobs[1].user == h.u
    ensures LiveBytes(h.site, At(h, t, calls, Busy(0, 1, true), Busy(1, 1, true), fs), h.u)
         == MaxBytes(fs, CasePath(h.site.root, Owner(h), 1, 1)) + MaxBytes(fs, CasePath(h.site.root, Owner(h), 2, 1))
  {
    LiveCase(h, t, fs, 0);
    LiveCase(h, t, fs, 1);
    IdlesWeighNothing(Busy(0, 1, true), Busy(1, 1, true), h.slots - 2, LiveLimit(h.site, t.jobs, fs, h.u));
  }

  /** Both cases are live, each with its own limit. */
  lemma TwoLive(h: Setting, t: Tables, calls: seq<Call>, m: nat, n: nat)
    requires Fair(h) && |t.jobs| == 2 && t.jobs[0].user == h.u && t.jobs[1].user == h.u
    ensures LiveBytes(h.site, At(h, t, calls, Busy(0, 1, true), Busy(1, 1, true), TwoGroups(h, m, n)), h.u)
         == (m + n) * MIB
  {
    TwoGroupLimits(h, m, n);
    LiveSum(h, t, calls, TwoGroups(h, m, n));
  }
}
