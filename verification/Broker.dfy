/** The broker between worker and database: which reports pass, and what a request does (broker.py). */
module Broker {
  import opened Common
  import opened Results
  import opened Ledger
  import opened Runs
  import opened Lifecycle
  import opened Runner
  import opened Wire
  import opened DatabaseStore
  import opened Worker

  /** Every verdict on a run case is admitted by the schema. */
  lemma CaseOutcomeAdmitted(limits: Limits, spec: CaseSpec, position: nat, o: Observation)
    requires 0 < position
    ensures CaseAdmitted(CaseOutcome(limits, spec, position, o))
  {
    var n := StopIndex(limits, spec, o.polls);
    if n < |o.polls| {
      assert Trigger(limits, spec, o.polls[n]).Some?;
    }
  }

  lemma {:induction false} CasesAdmitted(env: Env, cases: seq<CaseSpec>, i: nat)
    requires 1 <= i <= |cases| + 1
    ensures AllAdmitted(CasesFrom(env, cases, i).1)
    decreases |cases| + 1 - i
  {
    if i <= |cases| {
      CasesAdmitted(env, cases, i + 1);
      CaseOutcomeAdmitted(env.limits, EffectiveSpec(env, cases[i - 1], i), i,
                          env.observe(i, EffectiveSpec(env, cases[i - 1], i)));
    }
  }

  /**
   An execution of the runner survives the wire unchanged exactly when the compiler was not ended by
   a signal, or never started because its id is not approved; otherwise the broker refuses the report.
   */
  lemma ReportPassesIff(env: Env, approved: bool, compiler: CompileRun, cases: seq<CaseSpec>)
    ensures var e := Execution(env, approved, CompileOutcome(compiler), cases);
            ExecutionFromWire(ExecutionToWire(e)) == if !approved || 0 <= compiler.returnCode then Some(e) else None
    ensures Admitted(Execution(env, approved, CompileOutcome(compiler), cases))
       <==> !approved || 0 <= compiler.returnCode
  {
    var e := Execution(env, approved, CompileOutcome(compiler), cases);
    ExecutionRoundTrip(e);
    CasesAdmitted(env, cases, 1);
    ResultsInOrder(env, cases, 1);
  }

  /** A compilation killed at its wall limit ends by SIGKILL, so its report never passes. */
  lemma KilledCompileIsRefused(env: Env, elapsedMs: nat, stdout: string, stderr: string, cut: bool,
                               cases: seq<CaseSpec>)
    ensures var e := Execution(env, true, CompileOutcome(CompileRun(-9, true, false, elapsedMs, stdout, stderr, cut)),
                               cases);
            e.status.SystemError? && ParseRequest(RequestToWire(Complete(1, e))).None?
  {
    var c := CompileRun(-9, true, false, elapsedMs, stdout, stderr, cut);
    var e := Execution(env, true, CompileOutcome(c), cases);
    ReportPassesIff(env, true, c, cases);
    ExecutionRoundTrip(e);
    RequestRoundTrip(Complete(1, e));
  }

  /** The database keeps the first 16,384 characters of a message, but a longer one never gets there. */
  lemma LongErrorIsRefused(id: int, message: string)
    requires 0 < id
    ensures ParseRequest(RequestToWire(SystemErrorReport(id, message))).None? <==> Truncate(message, 16_384) != message
  {
    RequestRoundTrip(SystemErrorReport(id, message));
  }

  lemma {:induction false} InputsMatchSpecs(cases: seq<CaseRow>)
    ensures |Inputs(cases)| == |cases| && forall k :: 0 <= k < |cases| ==> Inputs(cases)[k] == cases[k].input
  {
    if cases != [] {
      InputsMatchSpecs(cases[..|cases| - 1]);
    }
  }

  /** A job started by a sound claim reaches the worker as exactly what the runner needs of it. */
  lemma ClaimedJobIsDelivered(w: World, e: Event, i: nat, owner: string)
    requires Sound(w) && StartedBy(w, e) == Some(i) && CanonicalUuid(owner)
    ensures i < |Apply(w, e).t.jobs|
    ensures var j := Apply(w, e).t.jobs[i];
            var p := Projection(i + 1, owner, j);
            && JobFromWire(JobToWire(i + 1, owner, j)) == Some(Some(p))
            && |p.inputs| == |j.cases|
            && forall k :: 0 <= k < |j.cases| ==> Specs(j)[k] == CaseSpec(p.inputs[k], p.timeLimit, p.memory)
  {
    JobsAfter(w, e);
    SoundKept(w, e);
    var j := Apply(w, e).t.jobs[i];
    assert RowSound(Apply(w, e).t, j);
    JobRoundTrip(i + 1, owner, j);
    InputsMatchSpecs(j.cases);
  }

  lemma CarriedInputs(j: Job, p: Payload)
    requires Carries(j, p)
    ensures Inputs(j.cases) == p.inputs
  {
    InputsMatchSpecs(j.cases);
  }

  /**
   From submission to worker: whatever happens between the insert and the claim that starts the job,
   the worker receives exactly what was submitted, under the id the insert returned.
   */
  lemma SubmittedIsDelivered(w: World, insert: Event, es: seq<Event>, claim: Event, owner: string)
    requires Sound(w) && Inserts(w, insert) && CanonicalUuid(owner)
    requires StartedBy(Run(Apply(w, insert), es), claim) == Some(|w.t.jobs|)
    ensures var i, p := |w.t.jobs|, w.calls[insert.call].payload;
            var t' := Apply(Run(Apply(w, insert), es), claim).t;
            && i < |t'.jobs|
            && JobFromWire(JobToWire(i + 1, owner, t'.jobs[i]))
               == Some(Some(RunnerJob(i + 1, owner, p.filename, p.source, p.compiler, p.timeLimit, p.memory, p.inputs)))
  {
    var i, p := |w.t.jobs|, w.calls[insert.call].payload;
    JobsAfter(w, insert);
    SoundKept(w, insert);
    var w1 := Apply(w, insert);
    assert Carries(w1.t.jobs[i], p);
    SoundRun(w1, es);
    JobLifecycle(w1, es, i);
    var w2 := Run(w1, es);
    JobsAfter(w2, claim);
    CarriedInputs(Apply(w2, claim).t.jobs[i], p);
    ClaimedJobIsDelivered(w2, claim, i, owner);
  }

  function Accepted(): Json {
    Obj(map[OkKey := Bool(true)])
  }

  function Refused(): Json {
    Obj(map[OkKey := Bool(false), ErrorKey := Str("invalid_request")])
  }

  /** Any other exception. */
  function Internal(): Json {
    Obj(map[OkKey := Bool(false), ErrorKey := Str("internal_error")])
  }

  function ClaimReply(job: Json): Json {
    Obj(map[OkKey := Bool(true), JobKey := job])
  }

  function CancelReply(requested: bool): Json {
    Obj(map[OkKey := Bool(true), CancelRequestedKey := Bool(requested)])
  }

  lemma ErrorsDiffer()
    ensures Accepted() != Refused() && Accepted() != Internal() && Refused() != Internal()
  {
    assert ErrorKey in Refused().fields && ErrorKey in Internal().fields && ErrorKey !in Accepted().fields;
    assert Refused().fields[ErrorKey] == Str("invalid_request") && Internal().fields[ErrorKey] == Str("internal_error");
    assert "invalid_request"[2] != "internal_error"[2];
  }

  /** An answer without an error is neither of the two. */
  lemma AnswerIsNoError(v: Json)
    requires v.Obj? && ErrorKey !in v.fields
    ensures v != Refused() && v != Internal()
  {
    assert ErrorKey in Refused().fields && ErrorKey in Internal().fields;
  }

  /** The clock readings an operation may make. */
  datatype Clock = Clock(first: Instant, second: Instant, third: Instant)

  /** `_job_to_wire` of what a claim with a given outcome started. */
  function ClaimedJob(publicId: UserId -> string, t': Tables, o: Ledger.Claim): Json {
    if o.Started? && o.job < |t'.jobs|
    then JobToWire(o.job + 1, publicId(t'.jobs[o.job].user), t'.jobs[o.job])
    else Null
  }

  function ClaimAnswer(publicId: UserId -> string, t': Tables, o: Ledger.Claim): Json {
    ClaimReply(ClaimedJob(publicId, t', o))
  }

  /** The database can bind every number of the request. */
  predicate Storable(r: Request) {
    match r
    case ClaimRequest => true
    case CancelCheck(id) => Binds(id)
    case Complete(id, e) => Binds(id) && ReportBinds(e)
    case SystemErrorReport(id, m) => Binds(id)
  }

  /** `_dispatch`: what a request does to the tables, and its answer. */
  function Dispatched(t: Tables, publicId: UserId -> string, r: Request, clock: Clock): (Tables, Json) {
    if !Storable(r) then (t, Internal()) else
    match r
    case ClaimRequest =>
      var t' := ClaimJob(t, clock.first, clock.second, clock.third);
      (t', ClaimAnswer(publicId, t', ClaimOutcome(t, clock.first, clock.second)))
    case CancelCheck(id) =>
      (t, CancelReply(1 <= id && CancelRequested(t, id - 1)))
    case Complete(id, e) => (if 1 <= id then Ledger.FinishJob(t, id - 1, e, clock.first) else t, Accepted())
    case SystemErrorReport(id, m) =>
      (if 1 <= id then MarkSystemError(t, id - 1, m, clock.first) else t, Accepted())
  }

  /** What a message does to the tables, and its answer; an object outside the schema is refused and does nothing. */
  function Handled(t: Tables, publicId: UserId -> string, v: Json, clock: Clock): (Tables, Json) {
    match ParseRequest(v)
    case None => (t, Refused())
    case Some(r) => Dispatched(t, publicId, r, clock)
  }

  /**
   A request as the client writes it is dispatched exactly when the schema admits it, and refused otherwise.
   One with a number the database cannot hold changes nothing either, and is answered differently.
   */
  lemma HandledIff(t: Tables, publicId: UserId -> string, r: Request, clock: Clock)
    ensures Handled(t, publicId, RequestToWire(r), clock)
         == if RequestAdmitted(r) then Dispatched(t, publicId, r, clock) else (t, Refused())
    ensures Handled(t, publicId, RequestToWire(r), clock).1 == Refused() <==> !RequestAdmitted(r)
    ensures Handled(t, publicId, RequestToWire(r), clock).1 == Internal() <==> RequestAdmitted(r) && !Storable(r)
  {
    RequestRoundTrip(r);
    ErrorsDiffer();
    if RequestAdmitted(r) && Storable(r) {
      AnswerIsNoError(Dispatched(t, publicId, r, clock).1);
    }
  }

  /** The schema lets only terminal reports through. */
  lemma ReportsAreTerminal(v: Json)
    requires ParseRequest(v).Some? && ParseRequest(v).value.Complete?
    ensures Terminal(ParseRequest(v).value.execution.status)
  {
    RequestSchemaIsExact(v);
  }

  /** The answer to a claim, from the id it returned. */
  function ClaimedReply(publicId: UserId -> string, t': Tables, claimed: Option<nat>): Json {
    if claimed.Some? && 1 <= claimed.value <= |t'.jobs| then
      var job := t'.jobs[claimed.value - 1];
      ClaimReply(JobToWire(claimed.value, publicId(job.user), job))
    else ClaimReply(Null)
  }

  lemma ClaimIsDispatched(t: Tables, publicId: UserId -> string, clock: Clock, t': Tables, claimed: Option<nat>)
    requires t' == ClaimJob(t, clock.first, clock.second, clock.third)
    requires var o := ClaimOutcome(t, clock.first, clock.second);
             && (claimed.Some? <==> o.Started?) && (claimed.Some? ==> claimed.value == o.job + 1 <= |t'.jobs|)
    ensures Dispatched(t, publicId, ClaimRequest, clock) == (t', ClaimedReply(publicId, t', claimed))
  {
  }

  class RequestHandler {
    const db: Database
    const publicId: UserId -> string

    constructor (db: Database, publicId: UserId -> string)
      ensures this.db == db && this.publicId == publicId
    {
      this.db := db;
      this.publicId := publicId;
    }

    method ServeClaim(clock: Clock) returns (reply: Json)
      requires db.Valid()
      modifies db
      ensures db.Valid()
      ensures (db.View(), reply) == Dispatched(old(db.View()), publicId, ClaimRequest, clock)
    {
      ghost var t := db.View();
      var id := db.ClaimNextJob(clock.first, clock.second, clock.third);
      ClaimIsDispatched(t, publicId, clock, db.View(), id);
      if id.None? {
        return ClaimReply(Null);
      }
      var job := db.jobs[id.value - 1];
      reply := ClaimReply(JobToWire(id.value, publicId(job.user), job));
    }

    method ServeReport(id: int, e: ExecutionResult, clock: Clock) returns (reply: Json)
      requires db.Valid() && Terminal(e.status)
      modifies db
      ensures db.Valid()
      ensures (db.View(), reply) == Dispatched(old(db.View()), publicId, Complete(id, e), clock)
    {
      var stored := db.FinishJob(id, e, clock.first);
      reply := if stored then Accepted() else Internal();
    }

    method ServeError(id: int, message: string, clock: Clock) returns (reply: Json)
      requires db.Valid()
      modifies db
      ensures db.Valid()
      ensures (db.View(), reply) == Dispatched(old(db.View()), publicId, SystemErrorReport(id, message), clock)
    {
      var stored := db.MarkJobSystemError(id, message, clock.first);
      reply := if stored then Accepted() else Internal();
    }

    /** `_parse_request` then `_dispatch`. */
    method Serve(v: Json, clock: Clock) returns (reply: Json)
      requires db.Valid()
      modifies db
      ensures db.Valid()
      ensures (db.View(), reply) == Handled(old(db.View()), publicId, v, clock)
    {
      var request := ParseRequest(v);
      if request.None? {
        return Refused();
      }
      if request.value.Complete? {
        ReportsAreTerminal(v);
      }
      match request.value {
        case ClaimRequest =>
          reply := ServeClaim(clock);
        case CancelCheck(id) =>
          var requested := db.IsCancelRequested(id);
          reply := if requested.None? then Internal() else CancelReply(requested.value);
        case Complete(id, e) =>
          reply := ServeReport(id, e, clock);
        case SystemErrorReport(id, m) =>
          reply := ServeError(id, m, clock);
      }
    }
  }
}
