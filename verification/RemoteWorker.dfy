/**
 One turn of a production worker: the same `process_one`, but every call goes through the broker
 (broker.py, UnixJobBrokerClient). A call raises when its message exceeds the limit, when the answer
 does, or when the broker refuses it; `process_one` then reports a system error, and an exception
 from that second report ends the slot.
 */
module RemoteWorker {
  import opened Common
  import opened Results
  import opened Ledger
  import opened Runs
  import opened Lifecycle
  import opened Runner
  import opened Wire
  import opened Framing
  import opened Loads
  import opened Sizes
  import opened Fairness
  import opened DatabaseStore
  import opened Worker
  import opened Broker

  const TOO_LARGE := "BrokerProtocolError: message exceeds configured limit"
  const CLOSED := "BrokerProtocolError: broker closed before a response"
  const REFUSED := "BrokerProtocolError: broker rejected request: invalid_request"
  const FAILED := "BrokerProtocolError: broker rejected request: internal_error"

  /** The two ends and the line between them: who a user is, and which messages get through. */
  datatype Link = Link(publicId: UserId -> string, fits: Json -> bool)

  /** A socket gets through what the encoder accepts. */
  function SocketLink(publicId: UserId -> string, order: Order, maximum: nat): Link {
    Link(publicId, (v: Json) => Fits(v, order, maximum))
  }

  /** What running the claimed job shows; `raised` is the text of an exception out of `execute`. */
  datatype Trial = Trial(env: Env, approved: bool, compiler: CompileRun, raised: Option<string>)

  /** The tables after a call, and the answer if one arrives. */
  function Called(link: Link, t: Tables, v: Json, clock: Clock): (Tables, Option<Json>) {
    if !link.fits(v) then (t, None)
    else
      var (t', reply) := Handled(t, link.publicId, v, clock);
      (t', if link.fits(reply) then Some(reply) else None)
  }

  /** What the client raises on an answer that is not a plain acceptance, or on none. */
  function AnswerProblem(reply: Option<Json>): Option<string> {
    if reply.None? then Some(CLOSED)
    else if reply.value == Accepted() then None
    else if reply.value == Internal() then Some(FAILED)
    else Some(REFUSED)
  }

  /** What the client raises when a report is sent. */
  function Problem(link: Link, v: Json, reply: Option<Json>): Option<string> {
    if !link.fits(v) then Some(TOO_LARGE) else AnswerProblem(reply)
  }

  /** The case specifications built from the received job. */
  function SpecsOf(p: RunnerJob): (r: seq<CaseSpec>)
    requires 0 <= p.timeLimit && 0 <= p.memory
    ensures |r| == |p.inputs|
    ensures forall k :: 0 <= k < |r| ==> r[k] == CaseSpec(p.inputs[k], p.timeLimit, p.memory)
  {
    seq(|p.inputs|, k requires 0 <= k < |p.inputs| => CaseSpec(p.inputs[k], p.timeLimit, p.memory))
  }

  function Report(j: Job, trial: Trial): ExecutionResult {
    Execution(trial.env, trial.approved, CompileOutcome(trial.compiler), Specs(j))
  }

  /** The tables after a started job i has been run and reported, and whether the slot survives. */
  function Reported(link: Link, t: Tables, i: nat, trial: Trial, reportAt: Clock, errorAt: Clock): (Tables, bool)
    requires i < |t.jobs|
  {
    var v := RequestToWire(Complete(i + 1, Report(t.jobs[i], trial)));
    var (t', reply) := if trial.raised.None? then Called(link, t, v, reportAt) else (t, None);
    var problem := if trial.raised.None? then Problem(link, v, reply) else trial.raised;
    if problem.None? then (t', true)
    else
      var (t'', answer) := Called(link, t', RequestToWire(SystemErrorReport(i + 1, problem.value)), errorAt);
      (t'', answer == Some(Accepted()))
  }

  // ----- when the job ends -----

  /** The compiler was not ended by a signal, or never started. */
  predicate CompileAdmitted(trial: Trial) {
    !trial.approved || 0 <= trial.compiler.returnCode
  }

  /** The execution reaches the database, which can hold it. */
  predicate ReportArrives(link: Link, j: Job, i: nat, trial: Trial) {
    && trial.raised.None? && CompileAdmitted(trial) && Binds(i + 1) && ReportBinds(Report(j, trial))
    && link.fits(RequestToWire(Complete(i + 1, Report(j, trial))))
  }

  /** A system error with this text reaches the database. */
  predicate ErrorArrives(link: Link, i: nat, message: string) {
    && |message| <= MAX_ERROR_MESSAGE_CHARS && Binds(i + 1)
    && link.fits(RequestToWire(SystemErrorReport(i + 1, message)))
  }

  /** The text sent when the report did not arrive. */
  function Excuse(link: Link, j: Job, i: nat, trial: Trial): string {
    if trial.raised.Some? then trial.raised.value
    else if !link.fits(RequestToWire(Complete(i + 1, Report(j, trial)))) then TOO_LARGE
    else if !CompileAdmitted(trial) then if link.fits(Refused()) then REFUSED else CLOSED
    else if link.fits(Internal()) then FAILED
    else CLOSED
  }

  /** Row i ends: its report arrives, or the system error sent in its place. */
  predicate Ends(link: Link, j: Job, i: nat, trial: Trial) {
    ReportArrives(link, j, i, trial) || ErrorArrives(link, i, Excuse(link, j, i, trial))
  }

  /** What becomes of a request that is sent. */
  lemma RequestCall(link: Link, t: Tables, r: Request, clock: Clock)
    ensures var v := RequestToWire(r);
            var (t', answer) := if RequestAdmitted(r) then Dispatched(t, link.publicId, r, clock) else (t, Refused());
            Called(link, t, v, clock)
            == if !link.fits(v) then (t, None) else (t', if link.fits(answer) then Some(answer) else None)
  {
    HandledIff(t, link.publicId, r, clock);
  }

  lemma CompleteCall(link: Link, t: Tables, i: nat, trial: Trial, clock: Clock)
    requires i < |t.jobs|
    ensures var e := Report(t.jobs[i], trial);
            var v := RequestToWire(Complete(i + 1, e));
            Called(link, t, v, clock) ==
            if !link.fits(v) then (t, None)
            else if !CompileAdmitted(trial) then (t, if link.fits(Refused()) then Some(Refused()) else None)
            else if !Binds(i + 1) || !ReportBinds(e) then (t, if link.fits(Internal()) then Some(Internal()) else None)
            else (Ledger.FinishJob(t, i, e, clock.first), if link.fits(Accepted()) then Some(Accepted()) else None)
  {
    ReportPassesIff(trial.env, trial.approved, trial.compiler, Specs(t.jobs[i]));
    RequestCall(link, t, Complete(i + 1, Report(t.jobs[i], trial)), clock);
  }

  lemma ErrorCall(link: Link, t: Tables, i: nat, message: string, clock: Clock)
    ensures var v := RequestToWire(SystemErrorReport(i + 1, message));
            Called(link, t, v, clock) ==
            if !link.fits(v) then (t, None)
            else if MAX_ERROR_MESSAGE_CHARS < |message| then (t, if link.fits(Refused()) then Some(Refused()) else None)
            else if !Binds(i + 1) then (t, if link.fits(Internal()) then Some(Internal()) else None)
            else (MarkSystemError(t, i, message, clock.first), if link.fits(Accepted()) then Some(Accepted()) else None)
  {
    RequestCall(link, t, SystemErrorReport(i + 1, message), clock);
  }

  ghost predicate NothingQueued(j: Job) {
    forall k :: 0 <= k < |j.cases| ==> !j.cases[k].status.Queued?
  }

  /** An error report leaves a terminal row with no case queued. */
  lemma ErrorEnds(j: Job, message: string, now: Instant)
    ensures var k := ErrorRow(j, message, now);
            k.status.SystemError? && NothingQueued(k) && |k.cases| == |j.cases|
  {
  }

  lemma CompileTerminal(c: CompileRun)
    ensures Terminal(CompileOutcome(c).status) && !CompileOutcome(c).status.Queued?
  {
  }

  lemma ReportEnds(j: Job, trial: Trial, now: Instant)
    ensures var k := FinishedRow(j, Report(j, trial), now);
            Terminal(k.status) && k.status == Report(j, trial).status && NothingQueued(k)
  {
    CompileTerminal(trial.compiler);
    ExecutionStatusTerminal(trial.env, trial.approved, CompileOutcome(trial.compiler), Specs(j));
    ReportCompletesJob(j, trial.env, trial.approved, CompileOutcome(trial.compiler), now);
  }

  /** How a run of row i may end: nothing else changes, and the row is either ended or left alone. */
  ghost predicate EndsOnly(t: Tables, i: nat, t': Tables, ends: bool) {
    && i < |t.jobs| == |t'.jobs| && t'.grants == t.grants
    && (forall m :: 0 <= m < |t.jobs| && m != i ==> t'.jobs[m] == t.jobs[m])
    && (if ends then Terminal(t'.jobs[i].status) && NothingQueued(t'.jobs[i]) else t'.jobs[i] == t.jobs[i])
  }

  /** Sending the system error. */
  lemma ErrorStep(link: Link, t: Tables, i: nat, message: string, clock: Clock)
    requires i < |t.jobs|
    ensures var (t', answer) := Called(link, t, RequestToWire(SystemErrorReport(i + 1, message)), clock);
            && (ErrorArrives(link, i, message) ==> EndsOnly(t, i, t', true))
            && (!ErrorArrives(link, i, message) ==> t' == t && answer != Some(Accepted()))
  {
    ErrorCall(link, t, i, message, clock);
    ErrorEnds(t.jobs[i], message, clock.first);
    ErrorsDiffer();
  }

  /** The report arrives: its verdict stands unless the acceptance is lost and an error is reported on top. */
  lemma ReportStep(link: Link, t: Tables, i: nat, trial: Trial, reportAt: Clock, errorAt: Clock)
    requires i < |t.jobs| && ReportArrives(link, t.jobs[i], i, trial)
    ensures var (t', survives) := Reported(link, t, i, trial, reportAt, errorAt);
            && EndsOnly(t, i, t', true)
            && (link.fits(Accepted()) ==>
                  survives && t'.jobs[i] == FinishedRow(t.jobs[i], Report(t.jobs[i], trial), reportAt.first))
  {
    CompleteCall(link, t, i, trial, reportAt);
    ReportEnds(t.jobs[i], trial, reportAt.first);
    var t1 := Ledger.FinishJob(t, i, Report(t.jobs[i], trial), reportAt.first);
    assert EndsOnly(t, i, t1, true);
    if !link.fits(Accepted()) {
      ErrorStep(link, t1, i, CLOSED, errorAt);
    }
  }

  /** The report does not arrive: everything depends on the system error. */
  lemma ExcuseStep(link: Link, t: Tables, i: nat, trial: Trial, reportAt: Clock, errorAt: Clock)
    requires i < |t.jobs| && !ReportArrives(link, t.jobs[i], i, trial)
    ensures Reported(link, t, i, trial, reportAt, errorAt) ==
            var message := Excuse(link, t.jobs[i], i, trial);
            var (t', answer) := Called(link, t, RequestToWire(SystemErrorReport(i + 1, message)), errorAt);
            (t', answer == Some(Accepted()))
  {
    CompleteCall(link, t, i, trial, reportAt);
    ErrorsDiffer();
  }

  /**
   A claimed job that is run ends exactly when its report or a system error about it arrives;
   otherwise its row is left as the claim made it - active, its memory reserved - and the slot is lost.
   With the report and its answer delivered the job has the execution's verdict.
   */
  lemma ClaimedJobEndsIff(link: Link, t: Tables, i: nat, trial: Trial, reportAt: Clock, errorAt: Clock)
    requires i < |t.jobs| && Active(t.jobs[i].status)
    ensures var j := t.jobs[i];
            var (t', survives) := Reported(link, t, i, trial, reportAt, errorAt);
            var ends := Ends(link, j, i, trial);
            && EndsOnly(t, i, t', ends)
            && (ends <==> Terminal(t'.jobs[i].status))
            && (!ends ==> !survives)
            && (ReportArrives(link, j, i, trial) && link.fits(Accepted()) ==>
                  survives && t'.jobs[i] == FinishedRow(j, Report(j, trial), reportAt.first))
  {
    if ReportArrives(link, t.jobs[i], i, trial) {
      ReportStep(link, t, i, trial, reportAt, errorAt);
    } else {
      ExcuseStep(link, t, i, trial, reportAt, errorAt);
      ErrorStep(link, t, i, Excuse(link, t.jobs[i], i, trial), errorAt);
    }
  }

  lemma ShortTexts()
    ensures |TOO_LARGE| <= 100 && |CLOSED| <= 100 && |REFUSED| <= 100 && |FAILED| <= 100
  {
  }

  /** Where the client's own texts get through, the one that can be too long is the runner's. */
  lemma EndsUnlessLongText(link: Link, j: Job, i: nat, trial: Trial)
    requires ErrorArrives(link, i, TOO_LARGE) && ErrorArrives(link, i, CLOSED)
    requires ErrorArrives(link, i, REFUSED) && ErrorArrives(link, i, FAILED)
    requires trial.raised.Some? ==> (ErrorArrives(link, i, trial.raised.value)
                                     <==> |trial.raised.value| <= MAX_ERROR_MESSAGE_CHARS)
    ensures Ends(link, j, i, trial) <==> !(trial.raised.Some? && |trial.raised.value| > MAX_ERROR_MESSAGE_CHARS)
  {
    var excuse := Excuse(link, j, i, trial);
    assert trial.raised.None? ==> excuse == TOO_LARGE || excuse == CLOSED || excuse == REFUSED || excuse == FAILED;
  }

  /** At the default limit every error text the broker accepts gets through. */
  lemma ErrorArrivesIff(publicId: UserId -> string, order: Order, i: nat, message: string)
    requires Listing(order) && Binds(i + 1)
    ensures ErrorArrives(SocketLink(publicId, order, DEFAULT_MAX_MESSAGE_BYTES), i, message)
       <==> |message| <= MAX_ERROR_MESSAGE_CHARS
  {
    if |message| <= MAX_ERROR_MESSAGE_CHARS {
      ErrorReportFits(i + 1, message, order);
    }
  }

  /** At the default limit a delivered job ends unless the runner raises a long text. */
  lemma DeliveredEndsIff(publicId: UserId -> string, order: Order, j: Job, i: nat, trial: Trial)
    requires Listing(order) && Binds(i + 1)
    ensures Ends(SocketLink(publicId, order, DEFAULT_MAX_MESSAGE_BYTES), j, i, trial)
       <==> !(trial.raised.Some? && |trial.raised.value| > MAX_ERROR_MESSAGE_CHARS)
  {
    ShortTexts();
    ErrorArrivesIff(publicId, order, i, TOO_LARGE);
    ErrorArrivesIff(publicId, order, i, CLOSED);
    ErrorArrivesIff(publicId, order, i, REFUSED);
    ErrorArrivesIff(publicId, order, i, FAILED);
    if trial.raised.Some? {
      ErrorArrivesIff(publicId, order, i, trial.raised.value);
    }
    EndsUnlessLongText(SocketLink(publicId, order, DEFAULT_MAX_MESSAGE_BYTES), j, i, trial);
  }

  /** The answer carrying started job i is within the limit and passes the worker's own schema. */
  predicate ClaimArrives(link: Link, t: Tables, i: nat)
    requires i < |t.jobs|
  {
    CanonicalUuid(link.publicId(t.jobs[i].user))
    && link.fits(ClaimReply(JobToWire(i + 1, link.publicId(t.jobs[i].user), t.jobs[i])))
  }

  /** The received projection gives the runner the same cases as the row. */
  lemma SameSpecs(id: int, owner: string, j: Job)
    ensures var p := Projection(id, owner, j); SpecsOf(p) == Specs(j)
  {
    InputsMatchSpecs(j.cases);
  }

  /** What the client's claim returns when tables t' hold the outcome: None when it raises. */
  function ReceivedBy(link: Link, t': Tables, o: Ledger.Claim): Option<Option<RunnerJob>> {
    if !o.Started? || o.job >= |t'.jobs| then if link.fits(ClaimReply(Null)) then Some(None) else None
    else if ClaimArrives(link, t', o.job) then
      Some(Some(Projection(o.job + 1, link.publicId(t'.jobs[o.job].user), t'.jobs[o.job])))
    else None
  }

  /** The tables after a claim over the link, and what the client's claim returns. */
  function Taken(link: Link, t: Tables, claimAt: Clock): (Tables, Option<Option<RunnerJob>>) {
    if !link.fits(RequestToWire(ClaimRequest)) then (t, None)
    else
      var t' := ClaimJob(t, claimAt.first, claimAt.second, claimAt.third);
      (t', ReceivedBy(link, t', ClaimOutcome(t, claimAt.first, claimAt.second)))
  }

  lemma ReplyCarries(job: Json)
    ensures ClaimReply(job).Obj? && JobKey in ClaimReply(job).fields && ClaimReply(job).fields[JobKey] == job
  {
  }

  /** A started row crosses the line as its projection, if its owner has a canonical id. */
  lemma StartedCrosses(w: World, e: Event, i: nat, owner: string)
    requires Sound(w) && StartedBy(w, e) == Some(i)
    ensures i < |Apply(w, e).t.jobs| && Apply(w, e).t.jobs[i].status.Compiling?
    ensures var j := Apply(w, e).t.jobs[i];
            JobFromWire(JobToWire(i + 1, owner, j))
            == if CanonicalUuid(owner) then Some(Some(Projection(i + 1, owner, j))) else None
  {
    JobsAfter(w, e);
    SoundKept(w, e);
    assert RowSound(Apply(w, e).t, Apply(w, e).t.jobs[i]);
    JobRoundTrip(i + 1, owner, Apply(w, e).t.jobs[i]);
  }

  lemma ClaimCall(link: Link, t: Tables, claimAt: Clock)
    ensures var t' := ClaimJob(t, claimAt.first, claimAt.second, claimAt.third);
            var answer := ClaimAnswer(link.publicId, t', ClaimOutcome(t, claimAt.first, claimAt.second));
            Called(link, t, RequestToWire(ClaimRequest), claimAt)
            == if !link.fits(RequestToWire(ClaimRequest)) then (t, None)
            else (t', if link.fits(answer) then Some(answer) else None)
  {
    RequestCall(link, t, ClaimRequest, claimAt);
  }

  /** What the client makes of the answer for row i, when the row crosses the line as its projection. */
  lemma RowAnswer(link: Link, t': Tables, i: nat, owner: string)
    requires i < |t'.jobs| && owner == link.publicId(t'.jobs[i].user)
    requires JobFromWire(JobToWire(i + 1, owner, t'.jobs[i]))
          == if CanonicalUuid(owner) then Some(Some(Projection(i + 1, owner, t'.jobs[i]))) else None
    ensures var answer := ClaimAnswer(link.publicId, t', Started(i));
            && answer.Obj? && JobKey in answer.fields
            && ReceivedBy(link, t', Started(i)) == if link.fits(answer) then JobFromWire(answer.fields[JobKey])
                                                   else None
  {
    ReplyCarries(JobToWire(i + 1, owner, t'.jobs[i]));
  }

  lemma StartedAnswer(link: Link, w: World, e: Event, i: nat)
    requires Sound(w) && StartedBy(w, e) == Some(i)
    ensures var t' := Apply(w, e).t;
            && i < |t'.jobs|
            && var answer := ClaimAnswer(link.publicId, t', Started(i));
            && answer.Obj? && JobKey in answer.fields
            && ReceivedBy(link, t', Started(i)) == if link.fits(answer) then JobFromWire(answer.fields[JobKey])
                                                   else None
  {
    JobsAfter(w, e);
    var t' := Apply(w, e).t;
    var owner := link.publicId(t'.jobs[i].user);
    StartedCrosses(w, e, i, owner);
    RowAnswer(link, t', i, owner);
  }

  lemma EmptyAnswer(link: Link, t': Tables, o: Ledger.Claim)
    requires !o.Started?
    ensures var answer := ClaimAnswer(link.publicId, t', o);
            && answer.Obj? && JobKey in answer.fields
            && ReceivedBy(link, t', o) == if link.fits(answer) then JobFromWire(answer.fields[JobKey]) else None
  {
    ReplyCarries(Null);
  }

  /** A claim over the link takes the job the scheduler started, as the worker may see it. */
  lemma TakenByClaim(link: Link, w: World, claimAt: Clock)
    requires Sound(w)
    ensures var (t', reply) := Called(link, w.t, RequestToWire(ClaimRequest), claimAt);
            && (reply.Some? ==> reply.value.Obj? && JobKey in reply.value.fields)
            && Taken(link, w.t, claimAt) == (t', if reply.None? then None else JobFromWire(reply.value.fields[JobKey]))
  {
    ClaimCall(link, w.t, claimAt);
    var o := ClaimOutcome(w.t, claimAt.first, claimAt.second);
    if o.Started? {
      StartedAnswer(link, w, Claim(claimAt.first, claimAt.second, claimAt.third), o.job);
    } else {
      EmptyAnswer(link, ClaimJob(w.t, claimAt.first, claimAt.second, claimAt.third), o);
    }
  }

  /** A received job is the projection of a row of the tables. */
  lemma ReceivedIsRow(link: Link, t: Tables, claimAt: Clock)
    ensures var (t', received) := Taken(link, t, claimAt);
            received.Some? && received.value.Some? ==>
              var p := received.value.value;
              && 1 <= p.id <= |t'.jobs|
              && p == Projection(p.id, link.publicId(t'.jobs[p.id - 1].user), t'.jobs[p.id - 1])
  {
  }

  /** What the client receives of job i, which its claim started. */
  lemma ReceivedOfStarted(link: Link, w: World, i: nat, claimAt: Clock)
    requires Sound(w) && link.fits(RequestToWire(ClaimRequest))
    requires StartedBy(w, Claim(claimAt.first, claimAt.second, claimAt.third)) == Some(i)
    ensures var t' := ClaimJob(w.t, claimAt.first, claimAt.second, claimAt.third);
            && i < |t'.jobs| && t'.jobs[i].status.Compiling?
            && Taken(link, w.t, claimAt)
               == (t', if ClaimArrives(link, t', i)
                   then Some(Some(Projection(i + 1, link.publicId(t'.jobs[i].user), t'.jobs[i])))
                   else None)
  {
    StartedCrosses(w, Claim(claimAt.first, claimAt.second, claimAt.third), i, "");
  }

  // ----- the whole turn -----

  /** `process_one` as a function: the tables, whether the slot goes on, and the id it returns. */
  function Turn(link: Link, t: Tables, claimAt: Clock, trial: Trial, reportAt: Clock, errorAt: Clock)
    : (Tables, bool, Option<nat>)
  {
    var (t', received) := Taken(link, t, claimAt);
    match received
    case None => (t', false, None)
    case Some(None) => (t', true, None)
    case Some(Some(p)) =>
      var (t'', survives) := Reported(link, t', p.id - 1, trial, reportAt, errorAt);
      (t'', survives, Some(p.id))
  }

  /** The turn of a slot whose claim started job i. */
  lemma TurnOfStarted(link: Link, w: World, i: nat, claimAt: Clock, trial: Trial, reportAt: Clock, errorAt: Clock)
    requires Sound(w) && link.fits(RequestToWire(ClaimRequest))
    requires StartedBy(w, Claim(claimAt.first, claimAt.second, claimAt.third)) == Some(i)
    ensures var started := ClaimJob(w.t, claimAt.first, claimAt.second, claimAt.third);
            && i < |started.jobs| && started.jobs[i].status.Compiling?
            && Turn(link, w.t, claimAt, trial, reportAt, errorAt)
               == if ClaimArrives(link, started, i) then
                    (Reported(link, started, i, trial, reportAt, errorAt).0,
                     Reported(link, started, i, trial, reportAt, errorAt).1, Some(i + 1))
                  else (started, false, None)
  {
    ReceivedOfStarted(link, w, i, claimAt);
  }

  /**
   The exact condition, for the whole turn at the default limit: a job the claim started is left
   active - its row untouched, its memory reserved, the slot gone - if and only if the answer to the
   claim does not arrive or the runner raises a text above 16,384 characters.
   */
  lemma LeftActiveIff(publicId: UserId -> string, order: Order, w: World, i: nat,
                      claimAt: Clock, trial: Trial, reportAt: Clock, errorAt: Clock)
    requires Sound(w) && Listing(order) && Binds(i + 1)
    requires StartedBy(w, Claim(claimAt.first, claimAt.second, claimAt.third)) == Some(i)
    ensures var link := SocketLink(publicId, order, DEFAULT_MAX_MESSAGE_BYTES);
            var started := ClaimJob(w.t, claimAt.first, claimAt.second, claimAt.third);
            var (t', survives, _) := Turn(link, w.t, claimAt, trial, reportAt, errorAt);
            && i < |started.jobs| == |t'.jobs|
            && (Active(t'.jobs[i].status) <==>
                !ClaimArrives(link, started, i)
                || (trial.raised.Some? && |trial.raised.value| > MAX_ERROR_MESSAGE_CHARS))
            && (Active(t'.jobs[i].status) ==> t'.jobs[i] == started.jobs[i] && !survives)
            && (!Active(t'.jobs[i].status) ==> Terminal(t'.jobs[i].status) && NothingQueued(t'.jobs[i]))
  {
    var link := SocketLink(publicId, order, DEFAULT_MAX_MESSAGE_BYTES);
    ClaimRequestFits(order);
    TurnOfStarted(link, w, i, claimAt, trial, reportAt, errorAt);
    var started := ClaimJob(w.t, claimAt.first, claimAt.second, claimAt.third);
    if ClaimArrives(link, started, i) {
      DeliveredEndsIff(publicId, order, started.jobs[i], i, trial);
      ClaimedJobEndsIff(link, started, i, trial, reportAt, errorAt);
    }
  }

  /**
   From submission to worker over the socket: whatever runs between the insert and the claim that
   starts the job, the worker receives exactly what was submitted if the answer arrives, else nothing.
   */
  lemma SubmittedArrivesIff(link: Link, w: World, insert: Event, es: seq<Event>, claimAt: Clock,
                            t': Tables, received: Option<Option<RunnerJob>>)
    requires Sound(w) && Inserts(w, insert) && link.fits(RequestToWire(ClaimRequest))
    requires var w2 := Run(Apply(w, insert), es);
             && StartedBy(w2, Claim(claimAt.first, claimAt.second, claimAt.third)) == Some(|w.t.jobs|)
             && Taken(link, w2.t, claimAt) == (t', received)
    ensures var i, p := |w.t.jobs|, w.calls[insert.call].payload;
            && i < |t'.jobs|
            && var owner := link.publicId(t'.jobs[i].user);
            received == if ClaimArrives(link, t', i)
            then Some(Some(RunnerJob(i + 1, owner, p.filename, p.source, p.compiler, p.timeLimit,
                                     p.memory, p.inputs)))
            else None
  {
    var w2 := Run(Apply(w, insert), es);
    var claim := Claim(claimAt.first, claimAt.second, claimAt.third);
    var i := |w.t.jobs|;
    SoundKept(w, insert);
    SoundRun(Apply(w, insert), es);
    ReceivedOfStarted(link, w2, i, claimAt);
    if ClaimArrives(link, t', i) {
      var owner := link.publicId(t'.jobs[i].user);
      SubmittedIsDelivered(w, insert, es, claim, owner);
      StartedCrosses(w2, claim, i, owner);
    }
  }

  // ----- an admitted submission that is lost -----

  function Huge(): Payload {
    Payload("main.cpp", "", "gcc-14-gnu++17", 1000, 256, seq(20, _ => Newlines(MAX_INPUT_BYTES)))
  }

  function HugeJob(): Job {
    NewJob(0, Huge(), None, 0)
  }

  lemma HugeIsSubmitted()
    ensures ValidPayload(Huge())
    ensures Run(EMPTY, CreateEvents(EMPTY, 0, Huge(), 0, 0, 0)) == World(Tables([HugeJob()], []), [Done])
  {
    SerialCreate(EMPTY, 0, Huge(), 0, 0, 0);
    assert [] + [HugeJob()] == [HugeJob()];
    assert EMPTY.calls + [Done] == [Done];
  }

  lemma HugeIsClaimed()
    ensures ClaimOutcome(Tables([HugeJob()], []), 1, 1) == Started(0)
  {
    var t := Tables([HugeJob()], []);
    assert [HugeJob()][..0] == [];
    assert Eligible(t, 0, 1);
    SelectedIsLeast(t, 1, 0);
  }

  function HugeStarted(): Job {
    HugeJob().(status := Compiling, startedAt := Some(1))
  }

  /** The job is started, and its answer does not arrive. */
  lemma HugeIsTaken(publicId: UserId -> string, order: Order)
    requires Listing(order)
    ensures Taken(SocketLink(publicId, order, DEFAULT_MAX_MESSAGE_BYTES), Tables([HugeJob()], []), Clock(1, 1, 1))
         == (Tables([HugeStarted()], []), None)
  {
    var owner, j := publicId(0), HugeStarted();
    HugeIsClaimed();
    ClaimRequestFits(order);
    assert [HugeJob()][0 := j] == [j];
    OversizedAnswer(1, owner, j, ClaimReply(JobToWire(1, owner, j)), order);
  }

  /**
   Twenty inputs of a million newlines are admitted and claimed, but the answer is above the limit:
   whatever the worker would have seen, the turn ends with the job active and the slot gone.
   */
  lemma OversizedSubmissionIsLost(publicId: UserId -> string, order: Order, trial: Trial, reportAt: Clock,
                                  errorAt: Clock)
    requires Listing(order)
    ensures ValidPayload(Huge())
    ensures var w := Run(EMPTY, CreateEvents(EMPTY, 0, Huge(), 0, 0, 0));
            var (t', survives, id) := Turn(SocketLink(publicId, order, DEFAULT_MAX_MESSAGE_BYTES), w.t, Clock(1, 1, 1),
                                           trial, reportAt, errorAt);
            && |t'.jobs| == 1 && Active(t'.jobs[0].status) && ActiveMemory(t'.jobs, 0) == 256
            && !survives && id.None?
  {
    HugeIsSubmitted();
    HugeIsTaken(publicId, order);
    assert [HugeStarted()][..0] == [];
  }

  // ----- the cancel check -----

  /** The client's reading of an answer to `cancel-check`: None when it raises. */
  function CancelFromWire(v: Json): Option<bool> {
    var d :- ExactObject(v, {OkKey, CancelRequestedKey});
    if d[OkKey] == Bool(true) && d[CancelRequestedKey].Bool? then Some(d[CancelRequestedKey].flag) else None
  }

  predicate StopWanted(t: Tables, id: int) {
    1 <= id <= |t.jobs| && (t.jobs[id - 1].cancelRequested || t.jobs[id - 1].status.Cancelled?)
  }

  /** What the client's cancel check returns, when its messages get through. */
  lemma CancelCheckCall(link: Link, t: Tables, id: int, clock: Clock)
    ensures var (t', reply) := Called(link, t, RequestToWire(CancelCheck(id)), clock);
            && t' == t
            && (reply.Some? ==>
                  CancelFromWire(reply.value) == if 1 <= id && Binds(id) then Some(StopWanted(t, id)) else None)
            && (reply.Some? <==>
                link.fits(RequestToWire(CancelCheck(id)))
                && link.fits(if id < 1 then Refused() else if !Binds(id) then Internal()
                             else CancelReply(StopWanted(t, id))))
  {
    RequestCall(link, t, CancelCheck(id), clock);
    assert CancelReply(StopWanted(t, id)).fields.Keys == {OkKey, CancelRequestedKey};
    assert ErrorKey in Refused().fields && ErrorKey in Internal().fields;
  }

  /** At the default limit the check and its answer get through, so the runner is told what the row says. */
  lemma CancelCheckIsAnswered(publicId: UserId -> string, order: Order, t: Tables, id: int, clock: Clock)
    requires Listing(order) && 1 <= id && Binds(id)
    ensures var link := SocketLink(publicId, order, DEFAULT_MAX_MESSAGE_BYTES);
            var (t', reply) := Called(link, t, RequestToWire(CancelCheck(id)), clock);
            t' == t && reply.Some? && CancelFromWire(reply.value) == Some(StopWanted(t, id))
  {
    CancelCheckFits(id, order);
    FlagsFit(true, StopWanted(t, id), order);
    CancelCheckCall(SocketLink(publicId, order, DEFAULT_MAX_MESSAGE_BYTES), t, id, clock);
  }

  // ----- the messages are canonical -----

  lemma {:induction false} CasesCanonical(cases: seq<CaseResult>)
    ensures forall k :: 0 <= k < |CasesToWire(cases)| ==> Canonical(CasesToWire(cases)[k])
  {
    if cases != [] {
      CasesCanonical(cases[..|cases| - 1]);
    }
  }

  lemma RequestCanonical(r: Request)
    ensures Canonical(RequestToWire(r))
  {
    if r.Complete? {
      CasesCanonical(r.execution.cases);
      assert Canonical(Arr(CasesToWire(r.execution.cases)));
      assert Canonical(CompileToWire(r.execution.compile));
      assert Canonical(ExecutionToWire(r.execution));
    }
  }

  lemma JobCanonical(id: int, owner: string, j: Job)
    ensures Canonical(JobToWire(id, owner, j))
  {
    InputItems(j.cases);
    forall k | 0 <= k < |j.cases|
      ensures Canonical(InputsToWire(j.cases)[k])
    {
    }
    assert Canonical(Arr(InputsToWire(j.cases)));
  }

  lemma ReplyCanonical(job: Json)
    requires Canonical(job)
    ensures Canonical(ClaimReply(job))
  {
  }

  lemma ShortAnswersCanonical()
    ensures Canonical(Accepted()) && Canonical(Refused()) && Canonical(Internal())
    ensures forall b :: Canonical(CancelReply(b))
  {
  }

  lemma ClaimAnswerCanonical(publicId: UserId -> string, t': Tables, o: Ledger.Claim)
    ensures Canonical(ClaimAnswer(publicId, t', o))
  {
    var job := ClaimedJob(publicId, t', o);
    assert Canonical(job) by {
      if o.Started? && o.job < |t'.jobs| {
        JobCanonical(o.job + 1, publicId(t'.jobs[o.job].user), t'.jobs[o.job]);
      }
    }
    ReplyCanonical(job);
  }

  lemma DispatchedCanonical(t: Tables, publicId: UserId -> string, r: Request, clock: Clock)
    ensures Canonical(Dispatched(t, publicId, r, clock).1)
  {
    ShortAnswersCanonical();
    if r.ClaimRequest? {
      var t' := ClaimJob(t, clock.first, clock.second, clock.third);
      ClaimAnswerCanonical(publicId, t', ClaimOutcome(t, clock.first, clock.second));
    }
  }

  lemma AnswerCanonical(t: Tables, publicId: UserId -> string, v: Json, clock: Clock)
    ensures Canonical(Handled(t, publicId, v, clock).1)
  {
    ShortAnswersCanonical();
    if ParseRequest(v).Some? {
      DispatchedCanonical(t, publicId, ParseRequest(v).value, clock);
    }
  }

  class BrokeredWorker {
    const handler: RequestHandler
    const order: Order
    const maximum: nat
    ghost const link: Link

    constructor (handler: RequestHandler, order: Order, maximum: nat)
      ensures this.handler == handler && this.order == order && this.maximum == maximum
      ensures Connected() && link == SocketLink(handler.publicId, order, maximum)
    {
      this.handler, this.order, this.maximum := handler, order, maximum;
      this.link := SocketLink(handler.publicId, order, maximum);
    }

    /** The link between the two ends is the socket. */
    ghost predicate Connected() {
      && link.publicId == handler.publicId
      && forall v {:trigger Fits(v, order, maximum)} :: link.fits(v) <==> Fits(v, order, maximum)
    }

    /** One request over the socket, byte for byte there and back. */
    method Call(v: Json, clock: Clock) returns (reply: Option<Json>)
      requires Connected() && handler.db.Valid() && Canonical(v) && Listing(order)
      modifies handler.db
      ensures handler.db.Valid()
      ensures (handler.db.View(), reply) == Called(link, old(handler.db.View()), v, clock)
    {
      assert link.fits(v) <==> Fits(v, order, maximum);
      var request := Transmit(v, order, maximum);
      if request.None? {
        return None;
      }
      AnswerCanonical(handler.db.View(), handler.publicId, v, clock);
      var answer := handler.Serve(request.value, clock);
      assert link.fits(answer) <==> Fits(answer, order, maximum);
      reply := Transmit(answer, order, maximum);
    }

    /** From a received job to the last answer about it. */
    method RunAndReport(id: nat, p: RunnerJob, trial: Trial, reportAt: Clock, errorAt: Clock) returns (survives: bool)
      requires Connected() && handler.db.Valid() && Listing(order)
      requires 1 <= id <= |handler.db.jobs|
               && p == Projection(id, link.publicId(handler.db.jobs[id - 1].user), handler.db.jobs[id - 1])
      modifies handler.db
      ensures handler.db.Valid()
      ensures (handler.db.View(), survives)
           == Reported(link, old(handler.db.View()), id - 1, trial, reportAt, errorAt)
    {
      SameSpecs(id, p.owner, handler.db.jobs[id - 1]);
      var problem := trial.raised;
      if trial.raised.None? {
        var execution := Execute(trial.env, trial.approved, CompileOutcome(trial.compiler), SpecsOf(p));
        var v := RequestToWire(Complete(p.id, execution));
        RequestCanonical(Complete(p.id, execution));
        var reply := Call(v, reportAt);
        problem := Raised(v, reply);
        if problem.None? {
          return true;
        }
      }
      RequestCanonical(SystemErrorReport(p.id, problem.value));
      var answer := Call(RequestToWire(SystemErrorReport(p.id, problem.value)), errorAt);
      survives := answer == Some(Accepted());
    }

    /** What the client raises, read off the encoder and the answer. */
    method Raised(v: Json, reply: Option<Json>) returns (problem: Option<string>)
      requires Connected()
      ensures problem == Problem(link, v, reply)
    {
      assert link.fits(v) <==> Fits(v, order, maximum);
      problem := if !Fits(v, order, maximum) then Some(TOO_LARGE) else AnswerProblem(reply);
    }

    /** The client's `claim_next_job`: None when it raises, Some(None) when nothing was started. */
    method ClaimNextJob(claimAt: Clock) returns (received: Option<Option<RunnerJob>>)
      requires Connected() && handler.db.Valid() && Listing(order)
      modifies handler.db
      ensures handler.db.Valid()
      ensures (handler.db.View(), received) == Taken(link, old(handler.db.View()), claimAt)
    {
      TakenByClaim(link, handler.db.Now(), claimAt);
      RequestCanonical(ClaimRequest);
      var reply := Call(RequestToWire(ClaimRequest), claimAt);
      received := if reply.None? then None else JobFromWire(reply.value.fields[JobKey]);
    }

    /** The client's `is_cancel_requested`: None when it raises. */
    method IsCancelRequested(id: int, clock: Clock) returns (requested: Option<bool>)
      requires Connected() && handler.db.Valid() && Listing(order)
      modifies handler.db
      ensures handler.db.Valid() && handler.db.View() == old(handler.db.View())
      ensures requested.Some? ==> 1 <= id && Binds(id) && requested.value == StopWanted(handler.db.View(), id)
      ensures maximum == DEFAULT_MAX_MESSAGE_BYTES && 1 <= id && Binds(id) ==> requested.Some?
    {
      ghost var t := handler.db.View();
      CancelCheckCall(link, t, id, clock);
      RequestCanonical(CancelCheck(id));
      if maximum == DEFAULT_MAX_MESSAGE_BYTES && 1 <= id && Binds(id) {
        CancelCheckFits(id, order);
        FlagsFit(true, StopWanted(t, id), order);
        assert link.fits(RequestToWire(CancelCheck(id))) <==> Fits(RequestToWire(CancelCheck(id)), order, maximum);
        assert link.fits(CancelReply(StopWanted(t, id))) <==> Fits(CancelReply(StopWanted(t, id)), order, maximum);
      }
      var reply := Call(RequestToWire(CancelCheck(id)), clock);
      requested := if reply.None? then None else CancelFromWire(reply.value);
    }

    /** `process_one` over the broker: whether the slot goes on, and which job it took. */
    method ProcessOne(claimAt: Clock, trial: Trial, reportAt: Clock, errorAt: Clock)
      returns (survives: bool, id: Option<nat>)
      requires Connected() && handler.db.Valid() && Listing(order)
      modifies handler.db
      ensures handler.db.Valid()
      ensures (handler.db.View(), survives, id)
           == Turn(link, old(handler.db.View()), claimAt, trial, reportAt, errorAt)
    {
      ReceivedIsRow(link, handler.db.View(), claimAt);
      id := None;
      var received := ClaimNextJob(claimAt);
      if received.None? {
        survives := false;
      } else if received.value.None? {
        survives := true;
      } else {
        id := Some(received.value.value.id);
        survives := RunAndReport(id.value, received.value.value, trial, reportAt, errorAt);
      }
    }
  }
}
