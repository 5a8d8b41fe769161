/**
 Runs of the control plane at statement granularity. A claim, a report and a grant are one
 transaction each. `create_job` reads a count, then the limits, then a grant, and only then
 inserts; the cancel functions read a status and later write. Between those statements any
 other operation may run, so each unfinished call is part of the state.
 */
module Runs {
  import opened Common
  import opened Results
  import opened Ledger

  datatype Call =
    | Counted(user: UserId, payload: Payload, count: int)
    | Checked(user: UserId, payload: Payload, count: int)
    | Picked(user: UserId, payload: Payload, count: int, grant: Option<nat>)
    | CancelSeen(job: nat, seen: Status, byUser: bool)
    | Done

  datatype World = World(t: Tables, calls: seq<Call>)

  datatype Event =
    | CountInflight(user: UserId, payload: Payload)
    | ReadLimits(call: nat, now: Instant)
    | ReadGrant(call: nat, now: Instant)
    | Insert(call: nat, now: Instant)
    | Claim(select: Instant, charge: Instant, start: Instant)
    | Finish(job: nat, execution: ExecutionResult, now: Instant)
    | Fail(job: nat, message: string, now: Instant)
    | ReadForCancel(job: nat, requester: Option<UserId>)
    | WriteCancelled(call: nat, now: Instant)
    | NewGrant(grant: Grant)

  const EMPTY := World(Tables([], []), [])

  /** A grant as `create_grant` writes it: active, with the uses the schema admits. */
  predicate ValidGrant(g: Grant) {
    g.active && (g.remaining.Some? ==> 1 <= g.remaining.value <= 10_000)
  }

  /** A report passes the broker only with a terminal status. */
  predicate ReportAccepted(e: ExecutionResult) {
    Terminal(e.status)
  }

  function SetCall(w: World, c: nat, call: Call): World
    requires c < |w.calls|
  {
    w.(calls := w.calls[c := call])
  }

  /** One statement (or one transaction) of one operation; a disabled step changes nothing. */
  function Apply(w: World, e: Event): World {
    match e
    case CountInflight(u, p) =>
      if ValidPayload(p) then w.(calls := w.calls + [Counted(u, p, Inflight(w.t.jobs, u))]) else w
    case ReadLimits(c, now) =>
      if c < |w.calls| && w.calls[c].Counted? then
        var k := w.calls[c];
        SetCall(w, c, if k.count >= EffectiveInflight(w.t.grants, k.user, now) then Done
                else Checked(k.user, k.payload, k.count))
      else w
    case ReadGrant(c, now) =>
      if c < |w.calls| && w.calls[c].Checked? then
        var k := w.calls[c];
        if NeedsGrant(k.payload) then
          var g := PickGrant(w.t, k.user, k.payload, now);
          SetCall(w, c, if g.None? then Done else Picked(k.user, k.payload, k.count, g))
        else SetCall(w, c, Picked(k.user, k.payload, k.count, None))
      else w
    case Insert(c, now) =>
      if c < |w.calls| && w.calls[c].Picked? then
        var k := w.calls[c];
        SetCall(w.(t := InsertJob(w.t, k.user, k.payload, k.grant, now)), c, Done)
      else w
    case Claim(select, charge, start) => w.(t := ClaimJob(w.t, select, charge, start))
    case Finish(i, x, now) => if ReportAccepted(x) then w.(t := FinishJob(w.t, i, x, now)) else w
    case Fail(i, m, now) => w.(t := MarkSystemError(w.t, i, m, now))
    case ReadForCancel(i, u) =>
      if i < |w.t.jobs| && (u.None? || w.t.jobs[i].user == u.value)
      then w.(calls := w.calls + [CancelSeen(i, w.t.jobs[i].status, u.Some?)])
      else w
    case WriteCancelled(c, now) =>
      if c < |w.calls| && w.calls[c].CancelSeen? then
        var k := w.calls[c];
        SetCall(w.(t := WriteCancel(w.t, k.job, k.seen, k.byUser, now)), c, Done)
      else w
    case NewGrant(g) => if ValidGrant(g) then w.(t := AddGrant(w.t, g)) else w
  }

  function Run(w: World, es: seq<Event>): World
    decreases |es|
  {
    if es == [] then w else Run(Apply(w, es[0]), es[1..])
  }

  lemma {:induction false} RunConcat(w: World, a: seq<Event>, b: seq<Event>)
    ensures Run(w, a + b) == Run(Run(w, a), b)
    decreases |a|
  {
    if a == [] {
      assert a + b == b;
    } else {
      assert (a + b)[1..] == a[1..] + b;
      RunConcat(Apply(w, a[0]), a[1..], b);
    }
  }

  /** Every step of a run is of the given kind. */
  ghost predicate Always(w: World, es: seq<Event>, ok: (World, Event) -> bool)
    decreases |es|
  {
    es != [] ==> ok(w, es[0]) && Always(Apply(w, es[0]), es[1..], ok)
  }

  lemma {:induction false} AlwaysConcat(w: World, a: seq<Event>, b: seq<Event>, ok: (World, Event) -> bool)
    requires Always(w, a, ok) && Always(Run(w, a), b, ok)
    ensures Always(w, a + b, ok)
    decreases |a|
  {
    if a == [] {
      assert a + b == b;
    } else {
      assert (a + b)[0] == a[0] && (a + b)[1..] == a[1..] + b;
      AlwaysConcat(Apply(w, a[0]), a[1..], b, ok);
    }
  }

  // ----- what the selected row is -----

  lemma ClaimSelects(t: Tables, select: Instant)
    ensures var r := ClaimQuery(t, select);
            r.Some? ==> r.value < |t.jobs| && Eligible(t, r.value, select) && QueuePosition(t, r.value, select) == 1
  {
    BestIsLeast(|t.jobs|, HeadRow(t, select), HeadKey(t));
  }

  // ----- the reachable states -----

  predicate GrantOwned(t: Tables, u: UserId, g: Option<nat>) {
    g.Some? ==> g.value < |t.grants| && t.grants[g.value].user == u
  }

  predicate RowSound(t: Tables, j: Job) {
    && GrantOwned(t, j.user, j.grant)
    && (j.startedAt.Some? ==> !j.status.Queued?)
    && (j.status.Compiling? ==> j.startedAt.Some?)
    && !j.status.Running?
    && 16 <= j.memory && 100 <= j.timeLimit
  }

  predicate CallSound(t: Tables, c: Call) {
    && (c.Counted? || c.Checked? || c.Picked? ==> ValidPayload(c.payload))
    && (c.Picked? ==> GrantOwned(t, c.user, c.grant) && (256 < c.payload.memory ==> MemoryCovered(t, c)))
  }

  predicate MemoryCovered(t: Tables, c: Call)
    requires c.Picked?
  {
    c.grant.Some? && c.grant.value < |t.grants| && t.grants[c.grant.value].memory.Some?
    && c.payload.memory <= t.grants[c.grant.value].memory.value
  }

  ghost predicate Sound(w: World) {
    && (forall i :: 0 <= i < |w.t.jobs| ==> RowSound(w.t, w.t.jobs[i]))
    && (forall c :: 0 <= c < |w.calls| ==> CallSound(w.t, w.calls[c]))
    && (forall g :: 0 <= g < |w.t.grants| ==> w.t.grants[g].remaining.Some? ==> 0 <= w.t.grants[g].remaining.value)
  }

  /** Rewriting one row soundly keeps the tables sound. */
  lemma SoundRewrite(w: World, i: nat, k: Job)
    requires Sound(w) && i < |w.t.jobs| && RowSound(w.t, k)
    ensures Sound(w.(t := w.t.(jobs := w.t.jobs[i := k])))
  {
  }

  /** Charging a valid grant leaves it with no fewer than zero uses. */
  lemma SoundCharge(w: World, g: nat, now: Instant)
    requires Sound(w) && g < |w.t.grants| && GrantValid(w.t.grants[g], now)
    ensures Sound(w.(t := w.t.(grants := w.t.grants[g := Charge(w.t.grants[g])])))
  {
    var w' := w.(t := w.t.(grants := w.t.grants[g := Charge(w.t.grants[g])]));
    forall i | 0 <= i < |w'.t.jobs|
      ensures RowSound(w'.t, w'.t.jobs[i])
    {
      assert RowSound(w.t, w.t.jobs[i]);
    }
    forall c | 0 <= c < |w'.calls|
      ensures CallSound(w'.t, w'.calls[c])
    {
      assert CallSound(w.t, w.calls[c]);
    }
  }

  lemma SoundStart(w: World, i: nat, charge: Instant, start: Instant)
    requires Sound(w) && i < |w.t.jobs| && w.t.jobs[i].status.Queued?
    requires var g := w.t.jobs[i].grant;
             g.Some? ==> g.value < |w.t.grants| && GrantValid(w.t.grants[g.value], charge)
    ensures var j, k := w.t.jobs[i], w.t.jobs[i].(status := Compiling, startedAt := Some(start));
            Sound(w.(t := Tables(w.t.jobs[i := k], if j.grant.None? then w.t.grants
                                 else w.t.grants[j.grant.value := Charge(w.t.grants[j.grant.value])])))
  {
    var k := w.t.jobs[i].(status := Compiling, startedAt := Some(start));
    assert RowSound(w.t, w.t.jobs[i]);
    SoundRewrite(w, i, k);
    if k.grant.Some? {
      SoundCharge(w.(t := w.t.(jobs := w.t.jobs[i := k])), k.grant.value, charge);
    }
  }

  lemma SoundClaim(w: World, select: Instant, charge: Instant, start: Instant)
    requires Sound(w)
    ensures Sound(Apply(w, Claim(select, charge, start)))
  {
    ClaimSelects(w.t, select);
    var o := ClaimOutcome(w.t, select, charge);
    if !o.Nothing? {
      assert RowSound(w.t, w.t.jobs[o.job]);
      if o.DeadGrant? {
        SoundRewrite(w, o.job, ClaimJob(w.t, select, charge, start).jobs[o.job]);
      } else {
        SoundStart(w, o.job, charge, start);
      }
    }
  }

  lemma SoundReadGrant(w: World, c: nat, now: Instant)
    requires Sound(w)
    ensures Sound(Apply(w, ReadGrant(c, now)))
  {
    if c < |w.calls| && w.calls[c].Checked? && NeedsGrant(w.calls[c].payload) {
      var k := w.calls[c];
      assert CallSound(w.t, k);
      BestIsLeast(|w.t.grants|, GrantFits(w.t, k.user, k.payload, now), GrantKey(w.t));
    }
  }

  lemma SoundReport(w: World, e: Event)
    requires Sound(w) && (e.Finish? || e.Fail?)
    ensures Sound(Apply(w, e))
  {
    if e.job < |w.t.jobs| && Apply(w, e) != w {
      var k := Apply(w, e).t.jobs[e.job];
      assert RowSound(w.t, w.t.jobs[e.job]);
      SoundRewrite(w, e.job, k);
    }
  }

  lemma SoundCall(w: World, c: nat, call: Call)
    requires Sound(w) && c < |w.calls| && CallSound(w.t, call)
    ensures Sound(SetCall(w, c, call))
  {
  }

  lemma SoundWriteCancelled(w: World, c: nat, now: Instant)
    requires Sound(w)
    ensures Sound(Apply(w, WriteCancelled(c, now)))
  {
    if c < |w.calls| && w.calls[c].CancelSeen? {
      var k := w.calls[c];
      var w1 := w.(t := WriteCancel(w.t, k.job, k.seen, k.byUser, now));
      if k.job < |w.t.jobs| {
        assert RowSound(w.t, w.t.jobs[k.job]);
        SoundRewrite(w, k.job, w1.t.jobs[k.job]);
      }
      SoundCall(w1, c, Done);
    }
  }

  lemma SoundInsert(w: World, c: nat, now: Instant)
    requires Sound(w)
    ensures Sound(Apply(w, Insert(c, now)))
  {
    if c < |w.calls| && w.calls[c].Picked? {
      var k := w.calls[c];
      assert CallSound(w.t, k);
      var w1 := w.(t := InsertJob(w.t, k.user, k.payload, k.grant, now));
      assert RowSound(w1.t, w1.t.jobs[|w.t.jobs|]);
      SoundCall(w1, c, Done);
    }
  }

  lemma SoundNewGrant(w: World, g: Grant)
    requires Sound(w)
    ensures Sound(Apply(w, NewGrant(g)))
  {
  }

  lemma SoundKept(w: World, e: Event)
    requires Sound(w)
    ensures Sound(Apply(w, e))
  {
    match e
    case Claim(select, charge, start) => SoundClaim(w, select, charge, start);
    case ReadGrant(c, now) => SoundReadGrant(w, c, now);
    case Insert(c, now) => SoundInsert(w, c, now);
    case Finish(i, x, now) => SoundReport(w, e);
    case Fail(i, m, now) => SoundReport(w, e);
    case WriteCancelled(c, now) => SoundWriteCancelled(w, c, now);
    case NewGrant(g) => SoundNewGrant(w, g);
    case ReadLimits(c, now) =>
      if c < |w.calls| && w.calls[c].Counted? {
        assert CallSound(w.t, w.calls[c]);
        SoundCall(w, c, Apply(w, e).calls[c]);
      }
    case ReadForCancel(i, u) =>
    case CountInflight(u, p) =>
  }

  /** Claims hold in every reachable state: start from the empty tables and run any events. */
  lemma {:induction false} SoundRun(w: World, es: seq<Event>)
    requires Sound(w)
    ensures Sound(Run(w, es))
    decreases |es|
  {
    if es != [] {
      SoundKept(w, es[0]);
      SoundRun(Apply(w, es[0]), es[1..]);
    }
  }
}
