/**
 Reservation plus hard limit (ADR-003): the scheduler's ledger, the worker slots and the cgroup tree
 run together. A slot is honest: it reports only the job it claimed, once, between cases. The users'
 public ids are distinct canonical UUIDs.
 */
module TwoLayer {
  import opened Common
  import opened Results
  import opened Ledger
  import opened Runs
  import opened Lifecycle
  import opened Quotas
  import opened Wire
  import opened Cgroups

  /** A busy slot has finished or started `position` cases of its job; `live` while one is running. */
  datatype Slot = Idle | Busy(job: nat, position: nat, live: bool)

  datatype System = System(w: World, slots: seq<Slot>, fs: Fs)

  /** The fixed surroundings: the delegated cgroup root and the users' public ids. */
  datatype Site = Site(root: Path, ids: map<UserId, string>)

  ghost predicate Identities(site: Site) {
    && (forall u :: u in site.ids ==> CanonicalUuid(site.ids[u]))
    && (forall u, v :: u in site.ids && v in site.ids && site.ids[u] == site.ids[v] ==> u == v)
  }

  datatype Move =
    | Control(event: Event)
    | CancelNow(target: nat, requester: Option<UserId>, now: Instant)
    | SlotClaim(slot: nat, select: Instant, charge: Instant, start: Instant)
    | CaseStart(slot: nat)
    | CaseEnd(slot: nat)
    | SlotFinish(slot: nat, execution: ExecutionResult, now: Instant)
    | SlotFail(slot: nat, message: string, now: Instant)

  /** Statements of the control plane; claims and reports belong to the slots. */
  predicate ControlEvent(site: Site, e: Event) {
    !e.Claim? && !e.Finish? && !e.Fail? && (e.CountInflight? ==> e.user in site.ids)
  }

  /** A cancellation whose read and write have nothing between them. */
  function Cancelled(w: World, i: nat, requester: Option<UserId>, now: Instant): World {
    var w1 := Apply(w, ReadForCancel(i, requester));
    if w1 == w then w else Apply(w1, WriteCancelled(|w.calls|, now))
  }

  predicate BusyAt(y: System, s: nat) {
    s < |y.slots| && y.slots[s].Busy? && y.slots[s].job < |y.w.t.jobs|
  }

  function JobAt(y: System, s: nat): Job
    requires BusyAt(y, s)
  {
    y.w.t.jobs[y.slots[s].job]
  }

  function OwnerAt(site: Site, y: System, s: nat): string
    requires BusyAt(y, s)
  {
    if JobAt(y, s).user in site.ids then site.ids[JobAt(y, s).user] else ""
  }

  /** The group of the slot's case at a position. */
  function PathAt(site: Site, y: System, s: nat, position: nat): Path
    requires BusyAt(y, s)
  {
    CasePath(site.root, OwnerAt(site, y, s), y.slots[s].job + 1, position)
  }

  predicate StartAccepted(site: Site, y: System, s: nat)
    requires BusyAt(y, s)
  {
    RunGroupAccepts(OwnerAt(site, y, s), y.slots[s].job + 1, y.slots[s].position + 1, JobAt(y, s).memory, AGGREGATE_MIB)
  }

  /** The slot's next case is in line and `run_group` accepts it. */
  predicate CanStart(site: Site, y: System, s: nat) {
    BusyAt(y, s) && !y.slots[s].live && y.slots[s].position < |JobAt(y, s).cases| && StartAccepted(site, y, s)
  }

  function StartCase(site: Site, y: System, s: nat): System
    requires BusyAt(y, s)
  {
    var b := y.slots[s];
    System(y.w, y.slots[s := Busy(b.job, b.position + 1, true)],
           RunGroupFs(y.fs, site.root, OwnerAt(site, y, s), b.job + 1, b.position + 1, JobAt(y, s).memory,
                      AGGREGATE_MIB))
  }

  function Step(site: Site, y: System, m: Move): System {
    match m
    case Control(e) => if ControlEvent(site, e) then y.(w := Apply(y.w, e)) else y
    case CancelNow(i, requester, now) => y.(w := Cancelled(y.w, i, requester, now))
    case SlotClaim(s, select, charge, start) =>
      if s < |y.slots| && y.slots[s].Idle? then
        var e := Claim(select, charge, start);
        var i := StartedBy(y.w, e);
        System(Apply(y.w, e), if i.Some? then y.slots[s := Busy(i.value, 0, false)] else y.slots, y.fs)
      else y
    case CaseStart(s) => if CanStart(site, y, s) then StartCase(site, y, s) else y
    case CaseEnd(s) =>
      if BusyAt(y, s) && y.slots[s].live then
        System(y.w, y.slots[s := y.slots[s].(live := false)], RmdirFs(y.fs, PathAt(site, y, s, y.slots[s].position)))
      else y
    case SlotFinish(s, x, now) =>
      if BusyAt(y, s) && !y.slots[s].live && ReportAccepted(x) then
        System(Apply(y.w, Finish(y.slots[s].job, x, now)), y.slots[s := Idle], y.fs)
      else y
    case SlotFail(s, message, now) =>
      if BusyAt(y, s) && !y.slots[s].live then
        System(Apply(y.w, Fail(y.slots[s].job, message, now)), y.slots[s := Idle], y.fs)
      else y
  }

  function Steps(site: Site, y: System, ms: seq<Move>): System
    decreases |ms|
  {
    if ms == [] then y else Steps(site, Step(site, y, ms[0]), ms[1..])
  }

  function Boot(slots: nat): System {
    System(EMPTY, seq(slots, _ => Idle), Fs({}, map[]))
  }

  // ----- the invariant -----

  predicate KnownCall(site: Site, c: Call) {
    (c.Counted? || c.Checked? || c.Picked?) ==> c.user in site.ids
  }

  ghost predicate KnownOwners(site: Site, w: World) {
    forall i :: 0 <= i < |w.t.jobs| ==> w.t.jobs[i].user in site.ids
  }

  ghost predicate KnownCalls(site: Site, w: World) {
    forall c :: 0 <= c < |w.calls| ==> KnownCall(site, w.calls[c])
  }

  ghost predicate WorldInv(site: Site, w: World) {
    Sound(w) && Reserved(w) && AllEarned(w) && KnownOwners(site, w) && KnownCalls(site, w)
  }

  predicate SlotInv(site: Site, y: System, s: nat)
    requires s < |y.slots|
  {
    y.slots[s].Busy? ==>
      && BusyAt(y, s) && JobAt(y, s).startedAt.Some?
      && (y.slots[s].live ==>
            var path := PathAt(site, y, s, y.slots[s].position);
            && path in y.fs.directories
            && JobAt(y, s).memory <= AGGREGATE_MIB
            && MaxBytes(y.fs, path) == JobAt(y, s).memory * MIB
            && MaxBytes(y.fs, UserPath(site.root, OwnerAt(site, y, s))) == AGGREGATE_MIB * MIB)
  }

  /** No two slots hold the same job. */
  ghost predicate DistinctJobs(slots: seq<Slot>) {
    forall r, s :: 0 <= r < s < |slots| && slots[r].Busy? && slots[s].Busy? ==> slots[r].job != slots[s].job
  }

  /** Every case group in the tree belongs to a running case. */
  ghost predicate NoStrayGroups(site: Site, y: System) {
    forall p :: p in y.fs.directories && CaseLevel(site.root, p) ==>
                  exists s: nat :: BusyAt(y, s) && y.slots[s].live && p == PathAt(site, y, s, y.slots[s].position)
  }

  ghost predicate Inv(site: Site, y: System) {
    && Identities(site) && WorldInv(site, y.w)
    && (forall s: nat :: s < |y.slots| ==> SlotInv(site, y, s))
    && DistinctJobs(y.slots) && NoStrayGroups(site, y)
  }

  lemma KnownCallsKept(site: Site, w: World, e: Event)
    requires KnownCalls(site, w) && (e.CountInflight? ==> e.user in site.ids)
    ensures KnownCalls(site, Apply(w, e))
  {
  }

  lemma KnownOwnersKept(site: Site, w: World, e: Event)
    requires Sound(w) && KnownOwners(site, w) && KnownCalls(site, w)
    ensures KnownOwners(site, Apply(w, e))
  {
    JobsAfter(w, e);
    if Inserts(w, e) {
      assert KnownCall(site, w.calls[e.call]);
    }
  }

  lemma WorldInvKept(site: Site, w: World, e: Event)
    requires WorldInv(site, w)
    requires e.CountInflight? ==> e.user in site.ids
    ensures WorldInv(site, Apply(w, e))
  {
    SoundKept(w, e);
    ReservedKept(w, e);
    EarnedKept(w, e);
    KnownOwnersKept(site, w, e);
    KnownCallsKept(site, w, e);
  }

  lemma CancelledInv(site: Site, w: World, i: nat, requester: Option<UserId>, now: Instant)
    requires WorldInv(site, w)
    ensures WorldInv(site, Cancelled(w, i, requester, now))
    ensures |Cancelled(w, i, requester, now).t.jobs| == |w.t.jobs|
    ensures forall k :: 0 <= k < |w.t.jobs| ==>
                          var j, j' := w.t.jobs[k], Cancelled(w, i, requester, now).t.jobs[k];
                          Moves(j, j') && j'.startedAt == j.startedAt && (j.status.Compiling? ==> j'.status.Compiling?)
  {
    var w1 := Apply(w, ReadForCancel(i, requester));
    WorldInvKept(site, w, ReadForCancel(i, requester));
    if w1 != w {
      WorldInvKept(site, w1, WriteCancelled(|w.calls|, now));
      JobsAfter(w1, WriteCancelled(|w.calls|, now));
    }
  }

  /** Rows the slots rely on: same owner, size and cases, and never un-started. */
  ghost predicate RowsKept(jobs: seq<Job>, jobs': seq<Job>) {
    |jobs| <= |jobs'| && forall k :: 0 <= k < |jobs| ==> Moves(jobs[k], jobs'[k])
  }

  lemma RowsAfter(w: World, e: Event)
    requires Sound(w)
    ensures RowsKept(w.t.jobs, Apply(w, e).t.jobs)
  {
    JobsAfter(w, e);
  }

  /** A step of the ledger alone leaves every slot's obligations intact. */
  lemma LedgerStepKeepsSlots(site: Site, y: System, w': World)
    requires Inv(site, y) && WorldInv(site, w') && RowsKept(y.w.t.jobs, w'.t.jobs)
    ensures Inv(site, y.(w := w'))
  {
    var y' := y.(w := w');
    forall s: nat | s < |y.slots|
      ensures SlotInv(site, y', s)
    {
      assert SlotInv(site, y, s);
    }
    forall p | p in y'.fs.directories && CaseLevel(site.root, p)
      ensures exists s: nat :: BusyAt(y', s) && y'.slots[s].live && p == PathAt(site, y', s, y'.slots[s].position)
    {
      var s: nat :| BusyAt(y, s) && y.slots[s].live && p == PathAt(site, y, s, y.slots[s].position);
      assert BusyAt(y', s) && p == PathAt(site, y', s, y'.slots[s].position);
    }
  }

  lemma RefillKeepsGroups(site: Site, y: System, s: nat, b: Slot)
    requires NoStrayGroups(site, y) && s < |y.slots| && (y.slots[s].Busy? ==> !y.slots[s].live)
    ensures NoStrayGroups(site, y.(slots := y.slots[s := b]))
  {
    var y' := y.(slots := y.slots[s := b]);
    forall p | p in y'.fs.directories && CaseLevel(site.root, p)
      ensures exists r: nat :: BusyAt(y', r) && y'.slots[r].live && p == PathAt(site, y', r, y'.slots[r].position)
    {
      var r: nat :| BusyAt(y, r) && y.slots[r].live && p == PathAt(site, y, r, y.slots[r].position);
      assert BusyAt(y', r) && p == PathAt(site, y', r, y'.slots[r].position);
    }
  }

  /** A slot that holds no running case can be handed another job, or none. */
  lemma RefillKeepsInv(site: Site, y: System, s: nat, b: Slot)
    requires Inv(site, y) && s < |y.slots| && (y.slots[s].Busy? ==> !y.slots[s].live)
    requires b.Busy? ==> b.job < |y.w.t.jobs| && y.w.t.jobs[b.job].startedAt.Some? && !b.live
    requires b.Busy? ==> forall r :: 0 <= r < |y.slots| && y.slots[r].Busy? ==> y.slots[r].job != b.job
    ensures Inv(site, y.(slots := y.slots[s := b]))
  {
    var y' := y.(slots := y.slots[s := b]);
    forall r: nat | r < |y'.slots|
      ensures SlotInv(site, y', r)
    {
      assert SlotInv(site, y, r);
    }
    RefillKeepsGroups(site, y, s, b);
  }

  lemma ClaimKeepsInv(site: Site, y: System, s: nat, select: Instant, charge: Instant, start: Instant)
    requires Inv(site, y)
    ensures Inv(site, Step(site, y, SlotClaim(s, select, charge, start)))
  {
    var e := Claim(select, charge, start);
    if s < |y.slots| && y.slots[s].Idle? {
      WorldInvKept(site, y.w, e);
      RowsAfter(y.w, e);
      LedgerStepKeepsSlots(site, y, Apply(y.w, e));
      var i := StartedBy(y.w, e);
      if i.Some? {
        JobsAfter(y.w, e);
        forall r | 0 <= r < |y.slots| && y.slots[r].Busy?
          ensures y.slots[r].job != i.value
        {
          assert SlotInv(site, y, r);
          assert RowSound(y.w.t, JobAt(y, r));
        }
        RefillKeepsInv(site, y.(w := Apply(y.w, e)), s, Busy(i.value, 0, false));
      }
    }
  }

  lemma ReportKeepsInv(site: Site, y: System, s: nat, e: Event)
    requires Inv(site, y) && BusyAt(y, s) && !y.slots[s].live && (e.Finish? || e.Fail?)
    ensures Inv(site, System(Apply(y.w, e), y.slots[s := Idle], y.fs))
  {
    WorldInvKept(site, y.w, e);
    RowsAfter(y.w, e);
    LedgerStepKeepsSlots(site, y, Apply(y.w, e));
    RefillKeepsInv(site, y.(w := Apply(y.w, e)), s, Idle);
  }

  /** Two busy slots never have the same case path, whatever their positions. */
  lemma PathsApart(site: Site, y: System, r: nat, s: nat, p: nat, q: nat)
    requires DistinctJobs(y.slots) && BusyAt(y, r) && BusyAt(y, s) && r != s
    ensures PathAt(site, y, r, p) != PathAt(site, y, s, q)
  {
    if PathAt(site, y, r, p) == PathAt(site, y, s, q) {
      CasePathInjective(site.root, OwnerAt(site, y, r), y.slots[r].job + 1, p, OwnerAt(site, y, s), y.slots[s].job + 1,
                        q);
    }
  }

  /** The limits in the tree after slot s starts its next case. */
  lemma LimitAfterStart(site: Site, y: System, s: nat, p: Path)
    requires BusyAt(y, s)
    ensures MaxBytes(StartCase(site, y, s).fs, p) ==
            if p == PathAt(site, y, s, y.slots[s].position + 1) then JobAt(y, s).memory * MIB
            else if p == UserPath(site.root, OwnerAt(site, y, s)) then AGGREGATE_MIB * MIB
            else MaxBytes(y.fs, p)
  {
    var b := y.slots[s];
    RunGroupLimits(y.fs, site.root, OwnerAt(site, y, s), b.job + 1, b.position + 1, JobAt(y, s).memory, AGGREGATE_MIB,
                   p);
  }

  lemma PathDepths(site: Site, y: System, s: nat, r: nat, p: nat)
    requires BusyAt(y, s) && BusyAt(y, r)
    ensures PathAt(site, y, s, p) != UserPath(site.root, OwnerAt(site, y, r))
  {
    assert |PathAt(site, y, s, p)| == |site.root| + 3;
    assert |UserPath(site.root, OwnerAt(site, y, r))| == |site.root| + 2;
  }

  /** A new case group changes no limit of another running case, nor of its parent. */
  lemma OtherLimitsKept(site: Site, y: System, s: nat, r: nat)
    requires DistinctJobs(y.slots) && BusyAt(y, s) && BusyAt(y, r) && r != s
    ensures var fs' := StartCase(site, y, s).fs;
            var path, parent := PathAt(site, y, r, y.slots[r].position), UserPath(site.root, OwnerAt(site, y, r));
            && MaxBytes(fs', path) == MaxBytes(y.fs, path)
            && (MaxBytes(y.fs, parent) == AGGREGATE_MIB * MIB ==> MaxBytes(fs', parent) == AGGREGATE_MIB * MIB)
  {
    var p, q := y.slots[r].position, y.slots[s].position + 1;
    LimitAfterStart(site, y, s, PathAt(site, y, r, p));
    LimitAfterStart(site, y, s, UserPath(site.root, OwnerAt(site, y, r)));
    PathDepths(site, y, r, s, p);
    PathDepths(site, y, s, r, q);
    PathsApart(site, y, r, s, p, q);
  }

  lemma StartDirectories(site: Site, y: System, s: nat, p: Path)
    requires BusyAt(y, s)
    ensures var path, after := PathAt(site, y, s, y.slots[s].position + 1), StartCase(site, y, s).fs.directories;
            && path in after && (p in y.fs.directories ==> p in after)
            && (p in after && CaseLevel(site.root, p) ==> p == path || p in y.fs.directories)
  {
    var b := y.slots[s];
    RunGroupDirectories(y.fs, site.root, OwnerAt(site, y, s), b.job + 1, b.position + 1, JobAt(y, s).memory,
                        AGGREGATE_MIB);
  }

  /** A new case group leaves every other running case with its own group and limits. */
  lemma StartKeepsSlot(site: Site, y: System, s: nat, r: nat)
    requires DistinctJobs(y.slots) && CanStart(site, y, s) && r < |y.slots| && r != s && SlotInv(site, y, r)
    ensures SlotInv(site, StartCase(site, y, s), r)
  {
    if y.slots[r].Busy? && y.slots[r].live {
      StartDirectories(site, y, s, PathAt(site, y, r, y.slots[r].position));
      OtherLimitsKept(site, y, s, r);
    }
  }

  lemma StartedCase(site: Site, y: System, s: nat)
    requires BusyAt(y, s)
    ensures var y' := StartCase(site, y, s);
            && BusyAt(y', s) && JobAt(y', s) == JobAt(y, s) && OwnerAt(site, y', s) == OwnerAt(site, y, s)
            && PathAt(site, y', s, y'.slots[s].position) == PathAt(site, y, s, y.slots[s].position + 1)
  {
  }

  lemma StartedSlot(site: Site, y: System, s: nat)
    requires Inv(site, y) && CanStart(site, y, s)
    ensures SlotInv(site, StartCase(site, y, s), s)
  {
    var path := PathAt(site, y, s, y.slots[s].position + 1);
    assert SlotInv(site, y, s);
    StartedCase(site, y, s);
    StartDirectories(site, y, s, path);
    LimitAfterStart(site, y, s, path);
    LimitAfterStart(site, y, s, UserPath(site.root, OwnerAt(site, y, s)));
    PathDepths(site, y, s, s, y.slots[s].position + 1);
  }

  lemma StillAtPath(site: Site, y: System, s: nat, p: Path)
    requires CanStart(site, y, s)
    requires exists r: nat :: BusyAt(y, r) && y.slots[r].live && p == PathAt(site, y, r, y.slots[r].position)
    ensures var y' := StartCase(site, y, s);
            exists r: nat :: BusyAt(y', r) && y'.slots[r].live && p == PathAt(site, y', r, y'.slots[r].position)
  {
    var y' := StartCase(site, y, s);
    var r: nat :| BusyAt(y, r) && y.slots[r].live && p == PathAt(site, y, r, y.slots[r].position);
    assert BusyAt(y', r) && p == PathAt(site, y', r, y'.slots[r].position);
  }

  lemma StartKeepsGroups(site: Site, y: System, s: nat)
    requires Inv(site, y) && CanStart(site, y, s)
    ensures NoStrayGroups(site, StartCase(site, y, s))
  {
    var y' := StartCase(site, y, s);
    forall p | p in y'.fs.directories && CaseLevel(site.root, p)
      ensures exists r: nat :: BusyAt(y', r) && y'.slots[r].live && p == PathAt(site, y', r, y'.slots[r].position)
    {
      StartDirectories(site, y, s, p);
      if p == PathAt(site, y, s, y.slots[s].position + 1) {
        StartedCase(site, y, s);
      } else {
        StillAtPath(site, y, s, p);
      }
    }
  }

  lemma StartKeepsInv(site: Site, y: System, s: nat)
    requires Inv(site, y)
    ensures Inv(site, Step(site, y, CaseStart(s)))
  {
    if CanStart(site, y, s) {
      var y' := StartCase(site, y, s);
      forall r: nat | r < |y'.slots|
        ensures SlotInv(site, y', r)
      {
        if r == s {
          StartedSlot(site, y, s);
        } else {
          assert SlotInv(site, y, r);
          StartKeepsSlot(site, y, s, r);
        }
      }
      StartKeepsGroups(site, y, s);
    }
  }

  lemma EndKeepsSlots(site: Site, y: System, s: nat)
    requires Inv(site, y) && Step(site, y, CaseEnd(s)) != y
    ensures forall r: nat :: r < |y.slots| ==> SlotInv(site, Step(site, y, CaseEnd(s)), r)
  {
    var y' := Step(site, y, CaseEnd(s));
    forall r: nat | r < |y.slots|
      ensures SlotInv(site, y', r)
    {
      assert SlotInv(site, y, r);
      if r != s && y.slots[r].Busy? {
        PathsApart(site, y, r, s, y.slots[r].position, y.slots[s].position);
      }
    }
  }

  lemma EndKeepsGroups(site: Site, y: System, s: nat)
    requires Inv(site, y) && Step(site, y, CaseEnd(s)) != y
    ensures NoStrayGroups(site, Step(site, y, CaseEnd(s)))
  {
    var y' := Step(site, y, CaseEnd(s));
    forall p | p in y'.fs.directories && CaseLevel(site.root, p)
      ensures exists r: nat :: BusyAt(y', r) && y'.slots[r].live && p == PathAt(site, y', r, y'.slots[r].position)
    {
      var r: nat :| BusyAt(y, r) && y.slots[r].live && p == PathAt(site, y, r, y.slots[r].position);
      assert r != s;
      assert BusyAt(y', r) && p == PathAt(site, y', r, y'.slots[r].position);
    }
  }

  lemma EndKeepsInv(site: Site, y: System, s: nat)
    requires Inv(site, y)
    ensures Inv(site, Step(site, y, CaseEnd(s)))
  {
    if Step(site, y, CaseEnd(s)) != y {
      EndKeepsSlots(site, y, s);
      EndKeepsGroups(site, y, s);
    }
  }

  lemma InvKept(site: Site, y: System, m: Move)
    requires Inv(site, y)
    ensures Inv(site, Step(site, y, m))
  {
    match m
    case Control(e) =>
      if ControlEvent(site, e) {
        WorldInvKept(site, y.w, e);
        RowsAfter(y.w, e);
        LedgerStepKeepsSlots(site, y, Apply(y.w, e));
      }
    case CancelNow(i, requester, now) =>
      CancelledInv(site, y.w, i, requester, now);
      LedgerStepKeepsSlots(site, y, Cancelled(y.w, i, requester, now));
    case SlotClaim(s, select, charge, start) => ClaimKeepsInv(site, y, s, select, charge, start);
    case CaseStart(s) => StartKeepsInv(site, y, s);
    case CaseEnd(s) => EndKeepsInv(site, y, s);
    case SlotFinish(s, x, now) =>
      if BusyAt(y, s) && !y.slots[s].live && ReportAccepted(x) {
        ReportKeepsInv(site, y, s, Finish(y.slots[s].job, x, now));
      }
    case SlotFail(s, message, now) =>
      if BusyAt(y, s) && !y.slots[s].live {
        ReportKeepsInv(site, y, s, Fail(y.slots[s].job, message, now));
      }
  }

  lemma {:induction false} InvRun(site: Site, y: System, ms: seq<Move>)
    requires Inv(site, y)
    ensures Inv(site, Steps(site, y, ms))
    decreases |ms|
  {
    if ms != [] {
      InvKept(site, y, ms[0]);
      InvRun(site, Step(site, y, ms[0]), ms[1..]);
    }
  }

  lemma BootInv(site: Site, slots: nat)
    requires Identities(site)
    ensures Inv(site, Boot(slots))
  {
    EmptyIsReserved();
  }

  // ----- the sums -----

  /** `memory.max` of the slot's running case, when it belongs to user u. */
  function LiveLimit(site: Site, jobs: seq<Job>, fs: Fs, u: UserId): Slot -> int {
    (b: Slot) =>
      if b.Busy? && b.live && b.job < |jobs| && jobs[b.job].user == u && u in site.ids
      then MaxBytes(fs, CasePath(site.root, site.ids[u], b.job + 1, b.position)) else 0
  }

  /** Reserved memory of a user's active jobs that `run_group` accepts at all. */
  function RunnableOf(u: UserId): Job -> int {
    (j: Job) => if j.user == u && Active(j.status) && j.memory <= AGGREGATE_MIB then j.memory else 0
  }

  function RunnableMemory(jobs: seq<Job>, u: UserId): int {
    Sum(jobs, RunnableOf(u))
  }

  /** Memory of a slot's job that the ledger counts with a given weight. */
  function StillCounted(jobs: seq<Job>, weight: Job -> int): Slot -> int {
    (b: Slot) => if b.Busy? && b.job < |jobs| then weight(jobs[b.job]) else 0
  }

  /** Memory of a slot's job that the ledger no longer counts: released under a running worker. */
  function Released(jobs: seq<Job>, u: UserId): Slot -> int {
    (b: Slot) =>
      if b.Busy? && b.job < |jobs| && jobs[b.job].user == u && !Active(jobs[b.job].status) then jobs[b.job].memory
      else 0
  }

  /** Sum of `memory.max` over the live case groups of user u. */
  function LiveBytes(site: Site, y: System, u: UserId): int {
    Sum(y.slots, LiveLimit(site, y.w.t.jobs, y.fs, u))
  }

  function ReleasedMemory(y: System, u: UserId): int {
    Sum(y.slots, Released(y.w.t.jobs, u))
  }

  /** The weight of the jobs below n that are in a set. */
  function Held(jobs: seq<Job>, n: nat, held: set<nat>, weight: Job -> int): int
    requires n <= |jobs|
  {
    if n == 0 then 0
    else Held(jobs, n - 1, held, weight) + (if n - 1 in held then weight(jobs[n - 1]) else 0)
  }

  lemma {:induction false} HoldOneMore(jobs: seq<Job>, n: nat, held: set<nat>, j: nat, weight: Job -> int)
    requires n <= |jobs| && j !in held
    ensures Held(jobs, n, held + {j}, weight)
         == Held(jobs, n, held, weight) + (if j < n then weight(jobs[j]) else 0)
  {
    if n > 0 {
      HoldOneMore(jobs, n - 1, held, j, weight);
    }
  }

  lemma {:induction false} HeldWithinSum(jobs: seq<Job>, n: nat, held: set<nat>, weight: Job -> int)
    requires n <= |jobs| && forall i :: 0 <= i < |jobs| ==> 0 <= weight(jobs[i])
    ensures Held(jobs, n, held, weight) <= Sum(jobs[..n], weight)
  {
    if n > 0 {
      HeldWithinSum(jobs, n - 1, held, weight);
      assert jobs[..n][..n - 1] == jobs[..n - 1];
    } else {
      assert jobs[..n] == [];
    }
  }

  function HeldJobs(slots: seq<Slot>): set<nat> {
    set s | 0 <= s < |slots| && slots[s].Busy? :: slots[s].job
  }

  /** Slots with distinct jobs count each reservation at most once. */
  lemma {:induction false} CountedIsHeld(jobs: seq<Job>, slots: seq<Slot>, weight: Job -> int)
    requires DistinctJobs(slots)
    ensures Sum(slots, StillCounted(jobs, weight)) == Held(jobs, |jobs|, HeldJobs(slots), weight)
  {
    if slots == [] {
      NothingHeld(jobs, |jobs|, weight);
      assert HeldJobs(slots) == {};
    } else {
      var n := |slots| - 1;
      var rest, b := slots[..n], slots[n];
      CountedIsHeld(jobs, rest, weight);
      if b.Busy? {
        assert HeldJobs(slots) == HeldJobs(rest) + {b.job} by {
          assert slots[n] == b;
          assert forall s :: 0 <= s < n ==> slots[s] == rest[s];
        }
        HoldOneMore(jobs, |jobs|, HeldJobs(rest), b.job, weight);
      } else {
        assert HeldJobs(slots) == HeldJobs(rest) by {
          assert forall s :: 0 <= s < n ==> slots[s] == rest[s];
        }
      }
    }
  }

  lemma {:induction false} NothingHeld(jobs: seq<Job>, n: nat, weight: Job -> int)
    requires n <= |jobs|
    ensures Held(jobs, n, {}, weight) == 0
  {
    if n > 0 {
      NothingHeld(jobs, n - 1, weight);
    }
  }

  lemma {:induction false} LiveSplits(slots: seq<Slot>, live: Slot -> int, counted: Slot -> int, released: Slot -> int)
    requires forall s :: 0 <= s < |slots| ==> live(slots[s]) <= MIB * (counted(slots[s]) + released(slots[s]))
    ensures Sum(slots, live) <= MIB * (Sum(slots, counted) + Sum(slots, released))
  {
    if slots != [] {
      LiveSplits(slots[..|slots| - 1], live, counted, released);
    }
  }

  /** One slot's live limit is its job's memory, counted or released. */
  lemma SlotLimit(site: Site, y: System, s: nat, u: UserId)
    requires Inv(site, y) && s < |y.slots|
    ensures LiveLimit(site, y.w.t.jobs, y.fs, u)(y.slots[s])
         <= MIB * (StillCounted(y.w.t.jobs, RunnableOf(u))(y.slots[s]) + Released(y.w.t.jobs, u)(y.slots[s]))
  {
    assert SlotInv(site, y, s);
    var counted, released := StillCounted(y.w.t.jobs, RunnableOf(u))(y.slots[s]), Released(y.w.t.jobs, u)(y.slots[s]);
    assert 0 <= counted + released;
    if y.slots[s].Busy? && y.slots[s].live && JobAt(y, s).user == u && u in site.ids {
      var m := JobAt(y, s).memory;
      assert counted + released == m;
      assert LiveLimit(site, y.w.t.jobs, y.fs, u)(y.slots[s]) == m * MIB;
    }
  }

  /** What slots with distinct jobs count is at most what the whole table counts. */
  lemma CountedWithin(jobs: seq<Job>, slots: seq<Slot>, u: UserId)
    requires DistinctJobs(slots)
    ensures Sum(slots, StillCounted(jobs, RunnableOf(u))) <= RunnableMemory(jobs, u)
  {
    CountedIsHeld(jobs, slots, RunnableOf(u));
    HeldWithinSum(jobs, |jobs|, HeldJobs(slots), RunnableOf(u));
    assert jobs[..|jobs|] == jobs;
  }

  /** The live limits of a user are covered by the reservations of the jobs that can run, and by what was released. */
  lemma LiveWithinRunnable(site: Site, y: System, u: UserId)
    requires Inv(site, y)
    ensures LiveBytes(site, y, u) <= MIB * (RunnableMemory(y.w.t.jobs, u) + ReleasedMemory(y, u))
  {
    var jobs := y.w.t.jobs;
    forall s | 0 <= s < |y.slots|
      ensures LiveLimit(site, jobs, y.fs, u)(y.slots[s])
           <= MIB * (StillCounted(jobs, RunnableOf(u))(y.slots[s]) + Released(jobs, u)(y.slots[s]))
    {
      SlotLimit(site, y, s, u);
    }
    LiveSplits(y.slots, LiveLimit(site, jobs, y.fs, u), StillCounted(jobs, RunnableOf(u)), Released(jobs, u));
    CountedWithin(jobs, y.slots, u);
  }

  lemma RunnableIsActive(jobs: seq<Job>, u: UserId)
    ensures RunnableMemory(jobs, u) <= ActiveMemory(jobs, u)
  {
    SumMonotone(jobs, RunnableOf(u), MemoryOf(u));
  }

  /** A user none of whose own grants exceeds the aggregate has the default reservation. */
  lemma {:induction false} SmallGrantsCap(grants: seq<Grant>, u: UserId)
    ensures MemoryCap(grants, u) <= AGGREGATE_MIB <==>
            forall g :: 0 <= g < |grants| && grants[g].user == u && grants[g].memory.Some? ==>
                          grants[g].memory.value <= AGGREGATE_MIB
    ensures AGGREGATE_MIB <= MemoryCap(grants, u)
  {
    if grants != [] {
      SmallGrantsCap(grants[..|grants| - 1], u);
    }
  }

  lemma LiveWithinReservation(site: Site, y: System, u: UserId)
    requires Inv(site, y)
    ensures LiveBytes(site, y, u) <= MIB * (MemoryCap(y.w.t.grants, u) + ReleasedMemory(y, u))
  {
    LiveWithinRunnable(site, y, u);
    RunnableIsActive(y.w.t.jobs, u);
    assert ActiveMemory(y.w.t.jobs, u) <= MemoryCap(y.w.t.grants, u);
  }

  /**
   At statement granularity, over every run: the live limits of one user exceed that user's
   reservation by no more than what stale cancellations released under running workers.
   */
  lemma StatementLevelAgreement(site: Site, slots: nat, ms: seq<Move>, u: UserId)
    requires Identities(site)
    ensures var y := Steps(site, Boot(slots), ms);
            LiveBytes(site, y, u) <= MIB * (MemoryCap(y.w.t.grants, u) + ReleasedMemory(y, u))
  {
    BootInv(site, slots);
    InvRun(site, Boot(slots), ms);
    LiveWithinReservation(site, Steps(site, Boot(slots), ms), u);
  }

  // ----- the ledger follows the workers: stale cancellations -----

  /** Every job a slot holds is still active. */
  ghost predicate HoldsActive(y: System) {
    forall s: nat :: BusyAt(y, s) ==> JobAt(y, s).status.Compiling?
  }

  /** The write of a cancellation that saw `queued`, while a slot already holds the job. */
  ghost predicate Stale(y: System, m: Move) {
    && m.Control? && m.event.WriteCancelled? && m.event.call < |y.w.calls|
    && y.w.calls[m.event.call].CancelSeen? && y.w.calls[m.event.call].seen.Queued?
    && exists s: nat :: BusyAt(y, s) && y.slots[s].job == y.w.calls[m.event.call].job
  }

  lemma ReportHoldsActive(y: System, s: nat, e: Event)
    requires Sound(y.w) && DistinctJobs(y.slots) && HoldsActive(y) && BusyAt(y, s)
    requires (e.Finish? || e.Fail?) && e.job == y.slots[s].job
    ensures HoldsActive(System(Apply(y.w, e), y.slots[s := Idle], y.fs))
  {
    var y' := System(Apply(y.w, e), y.slots[s := Idle], y.fs);
    JobsAfter(y.w, e);
    forall r: nat | BusyAt(y', r)
      ensures JobAt(y', r).status.Compiling?
    {
      assert BusyAt(y, r) && r != s && y.slots[r].job != y.slots[s].job;
      assert JobAt(y', r) == JobAt(y, r);
    }
  }

  /** A statement other than a stale write leaves every held row as active as it was. */
  lemma ControlHoldsActive(site: Site, y: System, e: Event)
    requires Inv(site, y) && HoldsActive(y) && !Stale(y, Control(e)) && ControlEvent(site, e)
    ensures HoldsActive(y.(w := Apply(y.w, e)))
  {
    var y' := y.(w := Apply(y.w, e));
    JobsAfter(y.w, e);
    forall r: nat | BusyAt(y', r)
      ensures JobAt(y', r).status.Compiling?
    {
      assert SlotInv(site, y, r) && JobAt(y, r).status.Compiling?;
    }
  }

  lemma CancelHoldsActive(site: Site, y: System, i: nat, requester: Option<UserId>, now: Instant)
    requires Inv(site, y) && HoldsActive(y)
    ensures HoldsActive(y.(w := Cancelled(y.w, i, requester, now)))
  {
    var y' := y.(w := Cancelled(y.w, i, requester, now));
    CancelledInv(site, y.w, i, requester, now);
    forall r: nat | BusyAt(y', r)
      ensures JobAt(y', r).status.Compiling?
    {
      assert SlotInv(site, y, r) && JobAt(y, r).status.Compiling?;
    }
  }

  /** A claim touches no held row: they are not queued. */
  lemma ClaimLeavesHeld(site: Site, y: System, e: Event)
    requires Inv(site, y) && HoldsActive(y) && e.Claim?
    ensures HoldsActive(y.(w := Apply(y.w, e)))
  {
    var y' := y.(w := Apply(y.w, e));
    JobsAfter(y.w, e);
    forall r: nat | BusyAt(y', r)
      ensures JobAt(y', r).status.Compiling?
    {
      assert SlotInv(site, y, r) && JobAt(y, r).status.Compiling?;
    }
  }

  lemma ClaimHoldsActive(site: Site, y: System, s: nat, e: Event)
    requires Inv(site, y) && HoldsActive(y) && e.Claim? && s < |y.slots| && StartedBy(y.w, e).Some?
    ensures HoldsActive(System(Apply(y.w, e), y.slots[s := Busy(StartedBy(y.w, e).value, 0, false)], y.fs))
  {
    var z := y.(w := Apply(y.w, e));
    var y' := z.(slots := y.slots[s := Busy(StartedBy(y.w, e).value, 0, false)]);
    ClaimLeavesHeld(site, y, e);
    JobsAfter(y.w, e);
    forall r: nat | BusyAt(y', r) && r != s
      ensures JobAt(y', r).status.Compiling?
    {
      assert BusyAt(z, r) && JobAt(y', r) == JobAt(z, r);
    }
  }

  /** Starting and ending a case touches no row. */
  lemma CasesHoldActive(site: Site, y: System, m: Move)
    requires HoldsActive(y) && (m.CaseStart? || m.CaseEnd?)
    ensures HoldsActive(Step(site, y, m))
  {
    var y' := Step(site, y, m);
    forall r: nat | BusyAt(y', r)
      ensures JobAt(y', r).status.Compiling?
    {
      assert BusyAt(y, r) && JobAt(y', r) == JobAt(y, r);
    }
  }

  lemma StaleDeactivates(site: Site, y: System, m: Move)
    requires Inv(site, y) && Stale(y, m)
    ensures !HoldsActive(Step(site, y, m))
  {
    var s: nat :| BusyAt(y, s) && y.slots[s].job == y.w.calls[m.event.call].job;
    var y' := Step(site, y, m);
    assert BusyAt(y', s) && JobAt(y', s).status.Cancelled?;
  }

  /** The exact condition: a step keeps every held job active if and only if it is not a stale cancellation. */
  lemma HoldsActiveIff(site: Site, y: System, m: Move)
    requires Inv(site, y) && HoldsActive(y)
    ensures HoldsActive(Step(site, y, m)) <==> !Stale(y, m)
  {
    if Stale(y, m) {
      StaleDeactivates(site, y, m);
    } else if m.SlotFinish? && Step(site, y, m) != y {
      ReportHoldsActive(y, m.slot, Finish(y.slots[m.slot].job, m.execution, m.now));
    } else if m.SlotFail? && Step(site, y, m) != y {
      ReportHoldsActive(y, m.slot, Fail(y.slots[m.slot].job, m.message, m.now));
    } else if m.Control? && ControlEvent(site, m.event) {
      ControlHoldsActive(site, y, m.event);
    } else if m.CancelNow? {
      CancelHoldsActive(site, y, m.target, m.requester, m.now);
    } else if m.SlotClaim? && m.slot < |y.slots| && y.slots[m.slot].Idle? {
      var e := Claim(m.select, m.charge, m.start);
      ClaimLeavesHeld(site, y, e);
      if StartedBy(y.w, e).Some? {
        ClaimHoldsActive(site, y, m.slot, e);
      }
    } else if m.CaseStart? || m.CaseEnd? {
      CasesHoldActive(site, y, m);
    }
  }

  /** No move of the run is a stale cancellation. */
  ghost predicate NoStale(site: Site, y: System, ms: seq<Move>)
    decreases |ms|
  {
    ms != [] ==> !Stale(y, ms[0]) && NoStale(site, Step(site, y, ms[0]), ms[1..])
  }

  lemma {:induction false} HoldsActiveRun(site: Site, y: System, ms: seq<Move>)
    requires Inv(site, y) && HoldsActive(y) && NoStale(site, y, ms)
    ensures HoldsActive(Steps(site, y, ms))
    decreases |ms|
  {
    if ms != [] {
      InvKept(site, y, ms[0]);
      HoldsActiveIff(site, y, ms[0]);
      HoldsActiveRun(site, Step(site, y, ms[0]), ms[1..]);
    }
  }

  predicate AtomicCancels(ms: seq<Move>) {
    forall k :: 0 <= k < |ms| ==> !(ms[k].Control? && (ms[k].event.ReadForCancel? || ms[k].event.WriteCancelled?))
  }

  /** Cancellations whose read and write are one step are never stale. */
  lemma {:induction false} AtomicIsNotStale(site: Site, y: System, ms: seq<Move>)
    requires AtomicCancels(ms)
    ensures NoStale(site, y, ms)
    decreases |ms|
  {
    if ms != [] {
      assert forall k :: 0 <= k < |ms[1..]| ==> ms[1..][k] == ms[k + 1];
      AtomicIsNotStale(site, Step(site, y, ms[0]), ms[1..]);
    }
  }

  lemma {:induction false} NothingReleased(slots: seq<Slot>, jobs: seq<Job>, u: UserId)
    requires forall s :: 0 <= s < |slots| ==> Released(jobs, u)(slots[s]) == 0
    ensures Sum(slots, Released(jobs, u)) == 0
  {
    if slots != [] {
      NothingReleased(slots[..|slots| - 1], jobs, u);
    }
  }

  lemma NothingReleasedIn(site: Site, y: System, u: UserId)
    requires Inv(site, y) && HoldsActive(y)
    ensures ReleasedMemory(y, u) == 0
  {
    forall s | 0 <= s < |y.slots|
      ensures Released(y.w.t.jobs, u)(y.slots[s]) == 0
    {
      assert SlotInv(site, y, s);
    }
    NothingReleased(y.slots, y.w.t.jobs, u);
  }

  // ----- the ledger admits more than the parent holds: overcommitting claims -----

  /** A claim that starts a job `run_group` accepts, on top of runnable jobs that leave no room for it. */
  predicate Overcommits(y: System, m: Move, u: UserId) {
    && m.SlotClaim? && m.slot < |y.slots| && y.slots[m.slot].Idle?
    && var i := StartedBy(y.w, Claim(m.select, m.charge, m.start));
    && i.Some? && i.value < |y.w.t.jobs| && y.w.t.jobs[i.value].user == u
    && y.w.t.jobs[i.value].memory <= AGGREGATE_MIB
    && RunnableMemory(y.w.t.jobs, u) + y.w.t.jobs[i.value].memory > AGGREGATE_MIB
  }

  /** A grant that lets a job `run_group` accepts be bound to more than the parent holds. */
  predicate Raises(g: Grant) {
    g.memory.Some? && g.memory.value > AGGREGATE_MIB && g.time.Some? && g.time.value > 60_000
  }

  ghost predicate NoneRaises(grants: seq<Grant>, u: UserId) {
    forall g :: 0 <= g < |grants| && grants[g].user == u ==> !Raises(grants[g])
  }

  /** An overcommitting claim starts a job bound to its owner's own valid grant above 256 MiB and above 60 s. */
  lemma OvercommitNeedsRaisingGrant(y: System, m: Move, u: UserId)
    requires Sound(y.w) && AllEarned(y.w) && Overcommits(y, m, u)
    ensures var i := StartedBy(y.w, Claim(m.select, m.charge, m.start)).value;
            && y.w.t.jobs[i].timeLimit > 60_000
            && y.w.t.jobs[i].grant.Some? && y.w.t.jobs[i].grant.value < |y.w.t.grants|
            && var g := y.w.t.grants[y.w.t.jobs[i].grant.value];
            g.user == u && GrantValid(g, m.select) && Raises(g)
  {
    ClaimSelects(y.w.t, m.select);
    var i := StartedBy(y.w, Claim(m.select, m.charge, m.start)).value;
    var j := y.w.t.jobs[i];
    assert RowSound(y.w.t, j) && JobEarned(y.w.t, j);
    RunnableIsActive(y.w.t.jobs, u);
  }

  /** Whether an event changes the runnable memory of a user, and by how much at most. */
  lemma RunnableAfter(w: World, e: Event, u: UserId)
    requires Sound(w)
    ensures var i := StartedBy(w, e);
            if i.Some? then
              && i.value < |w.t.jobs|
              && (var j := w.t.jobs[i.value];
                  var more := if j.user == u && j.memory <= AGGREGATE_MIB then j.memory else 0;
                  RunnableMemory(Apply(w, e).t.jobs, u) == RunnableMemory(w.t.jobs, u) + more)
            else RunnableMemory(Apply(w, e).t.jobs, u) <= RunnableMemory(w.t.jobs, u)
  {
    JobsAfter(w, e);
    var jobs, jobs' := w.t.jobs, Apply(w, e).t.jobs;
    if Touched(w, e).Some? {
      SumUpdate(jobs, Touched(w, e).value, jobs'[Touched(w, e).value], RunnableOf(u));
    } else if Inserts(w, e) {
      SumAppend(jobs, jobs'[|jobs|], RunnableOf(u));
    }
  }

  /** Nothing but a claim adds to a user's runnable memory. */
  lemma RunnableShrinks(site: Site, y: System, m: Move, u: UserId)
    requires Inv(site, y) && !m.SlotClaim?
    ensures RunnableMemory(Step(site, y, m).w.t.jobs, u) <= RunnableMemory(y.w.t.jobs, u)
  {
    if m.Control? {
      RunnableAfter(y.w, m.event, u);
    } else if m.CancelNow? {
      var w1 := Apply(y.w, ReadForCancel(m.target, m.requester));
      WorldInvKept(site, y.w, ReadForCancel(m.target, m.requester));
      RunnableAfter(w1, WriteCancelled(|y.w.calls|, m.now), u);
    } else if m.SlotFinish? && BusyAt(y, m.slot) {
      RunnableAfter(y.w, Finish(y.slots[m.slot].job, m.execution, m.now), u);
    } else if m.SlotFail? && BusyAt(y, m.slot) {
      RunnableAfter(y.w, Fail(y.slots[m.slot].job, m.message, m.now), u);
    }
  }

  /** Only an overcommitting claim takes a user's runnable memory above the parent. */
  lemma FitsIff(site: Site, y: System, m: Move, u: UserId)
    requires Inv(site, y) && RunnableMemory(y.w.t.jobs, u) <= AGGREGATE_MIB
    ensures RunnableMemory(Step(site, y, m).w.t.jobs, u) <= AGGREGATE_MIB <==> !Overcommits(y, m, u)
  {
    if m.SlotClaim? {
      RunnableAfter(y.w, Claim(m.select, m.charge, m.start), u);
    } else {
      RunnableShrinks(site, y, m, u);
    }
  }

  ghost predicate NoOvercommit(site: Site, y: System, ms: seq<Move>, u: UserId)
    decreases |ms|
  {
    ms != [] ==> !Overcommits(y, ms[0], u) && NoOvercommit(site, Step(site, y, ms[0]), ms[1..], u)
  }

  lemma {:induction false} FitsRun(site: Site, y: System, ms: seq<Move>, u: UserId)
    requires Inv(site, y) && RunnableMemory(y.w.t.jobs, u) <= AGGREGATE_MIB && NoOvercommit(site, y, ms, u)
    ensures RunnableMemory(Steps(site, y, ms).w.t.jobs, u) <= AGGREGATE_MIB
    decreases |ms|
  {
    if ms != [] {
      InvKept(site, y, ms[0]);
      FitsIff(site, y, ms[0], u);
      FitsRun(site, Step(site, y, ms[0]), ms[1..], u);
    }
  }

  lemma FittingIsEnough(site: Site, y: System, u: UserId)
    requires Inv(site, y) && HoldsActive(y) && RunnableMemory(y.w.t.jobs, u) <= AGGREGATE_MIB
    ensures LiveBytes(site, y, u) <= AGGREGATE_MIB * MIB
  {
    LiveWithinRunnable(site, y, u);
    NothingReleasedIn(site, y, u);
  }

  /**
   The hard limit and the reservation agree: whatever grants exist, in every run without a stale
   cancellation and without an overcommitting claim for the user, the live limits fit the parent.
   */
  lemma ParentSuffices(site: Site, slots: nat, ms: seq<Move>, u: UserId)
    requires Identities(site) && NoStale(site, Boot(slots), ms) && NoOvercommit(site, Boot(slots), ms, u)
    ensures LiveBytes(site, Steps(site, Boot(slots), ms), u) <= AGGREGATE_MIB * MIB
  {
    BootInv(site, slots);
    InvRun(site, Boot(slots), ms);
    HoldsActiveRun(site, Boot(slots), ms);
    assert Boot(slots).w.t.jobs == [];
    FitsRun(site, Boot(slots), ms, u);
    FittingIsEnough(site, Steps(site, Boot(slots), ms), u);
  }

  lemma StepLimits(site: Site, y: System, m: Move)
    ensures SameLimits(y.w.t.grants, Step(site, y, m).w.t.grants)
  {
    match m
    case Control(e) => LimitsKept(y.w, e);
    case CancelNow(i, requester, now) =>
      LimitsKept(y.w, ReadForCancel(i, requester));
      LimitsKept(Apply(y.w, ReadForCancel(i, requester)), WriteCancelled(|y.w.calls|, now));
    case SlotClaim(s, select, charge, start) => LimitsKept(y.w, Claim(select, charge, start));
    case CaseStart(s) =>
    case CaseEnd(s) =>
    case SlotFinish(s, x, now) =>
    case SlotFail(s, message, now) =>
  }

  lemma {:induction false} StepsLimits(site: Site, y: System, ms: seq<Move>)
    ensures SameLimits(y.w.t.grants, Steps(site, y, ms).w.t.grants)
    decreases |ms|
  {
    if ms != [] {
      StepLimits(site, y, ms[0]);
      StepsLimits(site, Step(site, y, ms[0]), ms[1..]);
    }
  }

  /** A run that ends without a raising grant of the user never had one, so it never overcommitted. */
  lemma {:induction false} NoneRaisesRun(site: Site, y: System, ms: seq<Move>, u: UserId)
    requires Inv(site, y) && NoneRaises(Steps(site, y, ms).w.t.grants, u)
    ensures NoOvercommit(site, y, ms, u)
    decreases |ms|
  {
    if ms != [] {
      StepsLimits(site, y, ms);
      assert NoneRaises(y.w.t.grants, u);
      if Overcommits(y, ms[0], u) {
        OvercommitNeedsRaisingGrant(y, ms[0], u);
      }
      InvKept(site, y, ms[0]);
      NoneRaisesRun(site, Step(site, y, ms[0]), ms[1..], u);
    }
  }

  /**
   Two-layer agreement, over every interleaved run without a stale cancellation: the live case limits
   of a user sum to at most that user's reservation, and to at most the parent's 256 MiB unless one
   of the user's own grants is both above 256 MiB and above 60 s; wherever a case runs the parent
   carries 256 MiB; and `run_group` accepts the next case of a held job exactly when the job has at
   most 256 MiB.
   */
  lemma TwoLayerAgreement(site: Site, slots: nat, ms: seq<Move>, u: UserId)
    requires Identities(site) && NoStale(site, Boot(slots), ms)
    ensures var y := Steps(site, Boot(slots), ms);
            && LiveBytes(site, y, u) <= MIB * MemoryCap(y.w.t.grants, u)
            && (NoneRaises(y.w.t.grants, u) ==> LiveBytes(site, y, u) <= AGGREGATE_MIB * MIB)
            && (forall s: nat :: BusyAt(y, s) && y.slots[s].live ==>
                                   MaxBytes(y.fs, UserPath(site.root, OwnerAt(site, y, s))) == AGGREGATE_MIB * MIB)
            && (forall s: nat :: BusyAt(y, s) ==> (StartAccepted(site, y, s) <==> JobAt(y, s).memory <= AGGREGATE_MIB))
  {
    BootInv(site, slots);
    var y := Steps(site, Boot(slots), ms);
    InvRun(site, Boot(slots), ms);
    HoldsActiveRun(site, Boot(slots), ms);
    StatementLevelAgreement(site, slots, ms, u);
    NothingReleasedIn(site, y, u);
    if NoneRaises(y.w.t.grants, u) {
      NoneRaisesRun(site, Boot(slots), ms, u);
      ParentSuffices(site, slots, ms, u);
    }
    SlotsAccepted(site, y);
  }

  lemma SlotsAccepted(site: Site, y: System)
    requires Inv(site, y)
    ensures forall s: nat :: BusyAt(y, s) ==> (StartAccepted(site, y, s) <==> JobAt(y, s).memory <= AGGREGATE_MIB)
    ensures forall s: nat :: BusyAt(y, s) && y.slots[s].live ==>
                               MaxBytes(y.fs, UserPath(site.root, OwnerAt(site, y, s))) == AGGREGATE_MIB * MIB
  {
    forall s: nat | BusyAt(y, s)
      ensures StartAccepted(site, y, s) <==> JobAt(y, s).memory <= AGGREGATE_MIB
      ensures y.slots[s].live ==> MaxBytes(y.fs, UserPath(site.root, OwnerAt(site, y, s))) == AGGREGATE_MIB * MIB
    {
      assert RowSound(y.w.t, JobAt(y, s)) && SlotInv(site, y, s);
    }
  }

  // ----- the workers follow the ledger -----

  /** Every active job is held by a slot. */
  ghost predicate ActiveIsHeld(y: System) {
    forall i :: 0 <= i < |y.w.t.jobs| && Active(y.w.t.jobs[i].status) ==>
                  exists s: nat :: BusyAt(y, s) && y.slots[s].job == i
  }

  /** A ledger step that activates nothing keeps every active job in its slot. */
  lemma LedgerKeepsHeld(y: System, w': World)
    requires ActiveIsHeld(y) && |y.w.t.jobs| <= |w'.t.jobs|
    requires forall i :: 0 <= i < |w'.t.jobs| && Active(w'.t.jobs[i].status) ==>
                           i < |y.w.t.jobs| && Active(y.w.t.jobs[i].status)
    ensures ActiveIsHeld(y.(w := w'))
  {
    var y' := y.(w := w');
    forall i | 0 <= i < |w'.t.jobs| && Active(w'.t.jobs[i].status)
      ensures exists s: nat :: BusyAt(y', s) && y'.slots[s].job == i
    {
      var s: nat :| BusyAt(y, s) && y.slots[s].job == i;
      assert BusyAt(y', s) && y'.slots[s].job == i;
    }
  }

  lemma EventActivatesNothing(w: World, e: Event)
    requires Sound(w) && !e.Claim?
    ensures |w.t.jobs| <= |Apply(w, e).t.jobs|
    ensures forall i :: 0 <= i < |Apply(w, e).t.jobs| && Active(Apply(w, e).t.jobs[i].status) ==>
                          i < |w.t.jobs| && Active(w.t.jobs[i].status)
  {
    JobsAfter(w, e);
  }

  lemma ClaimKeepsHeld(site: Site, y: System, m: Move)
    requires Inv(site, y) && ActiveIsHeld(y) && m.SlotClaim?
    ensures ActiveIsHeld(Step(site, y, m))
  {
    var y', e := Step(site, y, m), Claim(m.select, m.charge, m.start);
    if m.slot < |y.slots| && y.slots[m.slot].Idle? {
      JobsAfter(y.w, e);
      forall i | 0 <= i < |y'.w.t.jobs| && Active(y'.w.t.jobs[i].status)
        ensures exists s: nat :: BusyAt(y', s) && y'.slots[s].job == i
      {
        if StartedBy(y.w, e) == Some(i) {
          assert BusyAt(y', m.slot) && y'.slots[m.slot].job == i;
        } else {
          assert Active(y.w.t.jobs[i].status);
          var s: nat :| BusyAt(y, s) && y.slots[s].job == i;
          assert BusyAt(y', s) && y'.slots[s].job == i;
        }
      }
    }
  }

  /** A report ends the job of the slot it frees. */
  lemma ReportKeepsHeld(y: System, s: nat, e: Event)
    requires Sound(y.w) && ActiveIsHeld(y) && BusyAt(y, s) && (e.Finish? || e.Fail?)
    requires e.job == y.slots[s].job && (e.Finish? ==> ReportAccepted(e.execution))
    ensures ActiveIsHeld(System(Apply(y.w, e), y.slots[s := Idle], y.fs))
  {
    var y' := System(Apply(y.w, e), y.slots[s := Idle], y.fs);
    EventActivatesNothing(y.w, e);
    forall i | 0 <= i < |y'.w.t.jobs| && Active(y'.w.t.jobs[i].status)
      ensures exists r: nat :: BusyAt(y', r) && y'.slots[r].job == i
    {
      assert i != e.job;
      var r: nat :| BusyAt(y, r) && y.slots[r].job == i;
      assert BusyAt(y', r) && y'.slots[r].job == i;
    }
  }

  lemma RefitKeepsHeld(y: System, s: nat, b: Slot, fs: Fs)
    requires ActiveIsHeld(y) && BusyAt(y, s) && b.Busy? && b.job == y.slots[s].job
    ensures ActiveIsHeld(System(y.w, y.slots[s := b], fs))
  {
    var y' := System(y.w, y.slots[s := b], fs);
    forall i | 0 <= i < |y'.w.t.jobs| && Active(y'.w.t.jobs[i].status)
      ensures exists r: nat :: BusyAt(y', r) && y'.slots[r].job == i
    {
      var r: nat :| BusyAt(y, r) && y.slots[r].job == i;
      assert BusyAt(y', r) && y'.slots[r].job == i;
    }
  }

  lemma ActiveIsHeldKept(site: Site, y: System, m: Move)
    requires Inv(site, y) && ActiveIsHeld(y)
    ensures ActiveIsHeld(Step(site, y, m))
  {
    match m
    case Control(e) =>
      if ControlEvent(site, e) {
        EventActivatesNothing(y.w, e);
        LedgerKeepsHeld(y, Apply(y.w, e));
      }
    case CancelNow(i, requester, now) =>
      var w1 := Apply(y.w, ReadForCancel(i, requester));
      WorldInvKept(site, y.w, ReadForCancel(i, requester));
      EventActivatesNothing(w1, WriteCancelled(|y.w.calls|, now));
      LedgerKeepsHeld(y, Cancelled(y.w, i, requester, now));
    case SlotClaim(s, select, charge, start) => ClaimKeepsHeld(site, y, m);
    case CaseStart(s) =>
      var y' := Step(site, y, m);
      if y' != y {
        RefitKeepsHeld(y, s, y'.slots[s], y'.fs);
      }
    case CaseEnd(s) =>
      var y' := Step(site, y, m);
      if y' != y {
        RefitKeepsHeld(y, s, y'.slots[s], y'.fs);
      }
    case SlotFinish(s, x, now) =>
      if Step(site, y, m) != y {
        ReportKeepsHeld(y, s, Finish(y.slots[s].job, x, now));
      }
    case SlotFail(s, message, now) =>
      if Step(site, y, m) != y {
        ReportKeepsHeld(y, s, Fail(y.slots[s].job, message, now));
      }
  }

  lemma {:induction false} ActiveIsHeldRun(site: Site, y: System, ms: seq<Move>)
    requires Inv(site, y) && ActiveIsHeld(y)
    ensures ActiveIsHeld(Steps(site, y, ms))
    decreases |ms|
  {
    if ms != [] {
      InvKept(site, y, ms[0]);
      ActiveIsHeldKept(site, y, ms[0]);
      ActiveIsHeldRun(site, Step(site, y, ms[0]), ms[1..]);
    }
  }

  /**
   No reservation leaks: in every run each active job is held by a slot - by exactly the slots' jobs when
   no cancellation was stale - and once all slots are idle nothing is reserved for anybody.
   */
  lemma ReservationsAreHeld(site: Site, slots: nat, ms: seq<Move>, u: UserId)
    requires Identities(site)
    ensures var y := Steps(site, Boot(slots), ms);
            && ActiveIsHeld(y)
            && (NoStale(site, Boot(slots), ms) ==> HoldsActive(y))
            && ((forall s :: 0 <= s < |y.slots| ==> y.slots[s].Idle?) ==> ActiveMemory(y.w.t.jobs, u) == 0)
  {
    BootInv(site, slots);
    ActiveIsHeldRun(site, Boot(slots), ms);
    if NoStale(site, Boot(slots), ms) {
      HoldsActiveRun(site, Boot(slots), ms);
    }
    var y := Steps(site, Boot(slots), ms);
    if forall s :: 0 <= s < |y.slots| ==> y.slots[s].Idle? {
      NothingActive(y.w.t.jobs, u);
    }
  }

  // ----- jobs above the parent limit -----

  /** A job above 256 MiB, admitted and charged under a memory grant, is refused a group for every case. */
  lemma LargeJobCannotRun(site: Site, y: System, s: nat)
    requires BusyAt(y, s) && JobAt(y, s).user in site.ids && CanonicalUuid(site.ids[JobAt(y, s).user])
             && 0 < JobAt(y, s).memory
    ensures StartAccepted(site, y, s) <==> JobAt(y, s).memory <= 256
    ensures JobAt(y, s).memory > 256 ==> Step(site, y, CaseStart(s)) == y
  {
  }
}
