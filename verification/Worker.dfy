/** One turn of a worker slot (worker.py): claim, run, report. */
module Worker {
  import opened Common
  import opened Results
  import opened Ledger
  import opened Lifecycle
  import opened Runner
  import opened DatabaseStore

  /** The case specifications built from the claimed job's rows. */
  function Specs(j: Job): (r: seq<CaseSpec>)
    ensures |r| == |j.cases|
    ensures forall k :: 0 <= k < |r| ==> r[k] == CaseSpec(j.cases[k].input, j.timeLimit, j.memory)
  {
    seq(|j.cases|, k requires 0 <= k < |j.cases| => CaseSpec(j.cases[k].input, j.timeLimit, j.memory))
  }

  predicate Holds(row: CaseRow, r: CaseResult) {
    && row.status == r.status && row.stdout == r.stdout && row.stderr == r.stderr
    && row.wallMs == r.wallMs && row.peakKib == r.peakKib && row.exitCode == r.exitCode
    && row.termSignal == r.termSignal && row.truncated == r.truncated
  }

  /** A case without a result: cancelled if it was queued, else left alone. */
  predicate Skipped(row: CaseRow, row': CaseRow) {
    if row.status.Queued? then row'.status.Cancelled? else row' == row
  }

  /** Results numbered 1..m land in the first m rows and leave the others alone. */
  lemma {:induction false} StoreInOrder(cases: seq<CaseRow>, results: seq<CaseResult>)
    requires PositionsFrom(results, 1) && |results| <= |cases|
    ensures var stored := StoreResults(cases, results);
            && |stored| == |cases|
            && (forall k :: 0 <= k < |results| ==> Holds(stored[k], results[k]) && stored[k].input == cases[k].input)
            && (forall k :: |results| <= k < |cases| ==> stored[k] == cases[k])
  {
    if results != [] {
      StoreInOrder(cases, results[..|results| - 1]);
    }
  }

  /**
   Result completeness. Storing the report of a job's own execution leaves no case queued. After a
   completed compile row i holds result i; after a failed one every queued row is cancelled and the
   rest are untouched.
   */
  lemma ReportCompletesJob(j: Job, env: Env, approved: bool, compile: CompileResult, now: Instant)
    requires !compile.status.Queued?
    ensures var e := Execution(env, approved, compile, Specs(j));
            var k := FinishedRow(j, e, now);
            && k.status == e.status && k.compile == Some(e.compile.(truncated := false))
            && SameSubmission(j, k) && k.startedAt == j.startedAt
            && (forall i :: 0 <= i < |k.cases| ==> !k.cases[i].status.Queued?)
            && (if approved && compile.status.Completed? then
                  |e.cases| == |j.cases| && forall i :: 0 <= i < |k.cases| ==> Holds(k.cases[i], e.cases[i])
                else
                  && e.cases == []
                  && forall i :: 0 <= i < |k.cases| ==> Skipped(j.cases[i], k.cases[i]))
  {
    var e := Execution(env, approved, compile, Specs(j));
    ResultsComplete(env, approved, compile, Specs(j));
    StoreInOrder(j.cases, e.cases);
  }

  lemma ExecutionStatusTerminal(env: Env, approved: bool, compile: CompileResult, cases: seq<CaseSpec>)
    requires Terminal(compile.status)
    ensures Terminal(Execution(env, approved, compile, cases).status)
  {
    ResultsInOrder(env, cases, 1);
  }

  /** The exception of a value SQLite cannot hold. */
  const OVERFLOW := "OverflowError: Python int too large to convert to SQLite INTEGER"

  /** The row has ended in the given state, no case of it is queued, and what was submitted is not edited. */
  ghost predicate EndsWith(j: Job, k: Job, verdict: Status) {
    && k.status == verdict && Terminal(verdict) && SameSubmission(j, k) && k.startedAt == j.startedAt
    && forall i :: 0 <= i < |k.cases| ==> !k.cases[i].status.Queued?
  }

  /** The execution's verdict, unless the runner raised or the database cannot hold the execution. */
  function VerdictOf(env: Env, approved: bool, compile: CompileResult, j: Job, raised: Option<string>): Status {
    var e := Execution(env, approved, compile, Specs(j));
    if raised.None? && ReportBinds(e) then e.status else SystemError
  }

  lemma ReportEndsWith(j: Job, env: Env, approved: bool, compile: CompileResult, now: Instant)
    requires Terminal(compile.status)
    ensures var e := Execution(env, approved, compile, Specs(j));
            Terminal(e.status) && EndsWith(j, FinishedRow(j, e, now), e.status)
  {
    ExecutionStatusTerminal(env, approved, compile, Specs(j));
    ReportCompletesJob(j, env, approved, compile, now);
  }

  lemma ErrorEndsWith(j: Job, message: string, now: Instant)
    ensures EndsWith(j, ErrorRow(j, message, now), SystemError)
  {
  }

  class JobWorker {
    const db: Database

    constructor (db: Database)
      ensures this.db == db
    {
      this.db := db;
    }

    /** `finish_job`, and what follows when it raises. */
    method Report(i: nat, execution: ExecutionResult, now: Instant)
      requires db.Valid() && i < |db.jobs| && Binds(|db.jobs|)
      requires EndsWith(db.jobs[i], FinishedRow(db.jobs[i], execution, now), execution.status)
      modifies db
      ensures db.Valid() && |db.jobs| == |old(db.jobs)|
      ensures EndsWith(old(db.jobs)[i], db.jobs[i], if ReportBinds(execution) then execution.status else SystemError)
      ensures forall m :: 0 <= m < |db.jobs| && m != i ==> db.jobs[m] == old(db.jobs)[m]
    {
      var stored := db.FinishJob(i + 1, execution, now);
      if !stored {
        ReportError(i, OVERFLOW, now);
      }
    }

    method ReportError(i: nat, message: string, now: Instant)
      requires db.Valid() && i < |db.jobs| && Binds(|db.jobs|)
      modifies db
      ensures db.Valid() && |db.jobs| == |old(db.jobs)|
      ensures EndsWith(old(db.jobs)[i], db.jobs[i], SystemError)
      ensures forall m :: 0 <= m < |db.jobs| && m != i ==> db.jobs[m] == old(db.jobs)[m]
    {
      ErrorEndsWith(db.jobs[i], message, now);
      var stored := db.MarkJobSystemError(i + 1, message, now);
    }

    /** Run the claimed job and report its execution, or the exception in its place. */
    method RunAndReport(i: nat, reportAt: Instant, env: Env, approved: bool, compile: CompileResult,
                        raised: Option<string>)
      requires db.Valid() && Terminal(compile.status) && i < |db.jobs| && Binds(|db.jobs|)
      modifies db
      ensures db.Valid() && |db.jobs| == |old(db.jobs)|
      ensures EndsWith(old(db.jobs)[i], db.jobs[i], VerdictOf(env, approved, compile, old(db.jobs)[i], raised))
      ensures forall m :: 0 <= m < |db.jobs| && m != i ==> db.jobs[m] == old(db.jobs)[m]
    {
      if raised.Some? {
        ReportError(i, raised.value, reportAt);
      } else {
        ReportEndsWith(db.jobs[i], env, approved, compile, reportAt);
        var execution := Execute(env, approved, compile, Specs(db.jobs[i]));
        Report(i, execution, reportAt);
      }
    }

    /**
     `process_one`. A claimed job always ends in a terminal state with no case left queued: with the
     execution's results, or as a system error when the runner raises or the database cannot store them.
     */
    method ProcessOne(selectAt: Instant, chargeAt: Instant, startAt: Instant, reportAt: Instant,
                      env: Env, approved: bool, compile: CompileResult, raised: Option<string>)
      returns (id: Option<nat>)
      requires db.Valid() && Terminal(compile.status) && Binds(|db.jobs|)
      modifies db
      ensures db.Valid()
      ensures id.Some? <==> ClaimOutcome(old(db.View()), selectAt, chargeAt).Started?
      ensures id.None? ==> db.View() == ClaimJob(old(db.View()), selectAt, chargeAt, startAt)
      ensures id.Some? ==>
                var i := ClaimOutcome(old(db.View()), selectAt, chargeAt).job;
                && 1 <= id.value <= |db.jobs| == |old(db.jobs)| && i == id.value - 1
                && old(db.jobs)[i].status.Queued? && db.jobs[i].startedAt == Some(startAt)
                && EndsWith(old(db.jobs)[i].(status := Compiling, startedAt := Some(startAt)), db.jobs[i],
                            VerdictOf(env, approved, compile, old(db.jobs)[i], raised))
                && (forall m :: 0 <= m < |db.jobs| && m != i ==> db.jobs[m] == old(db.jobs)[m])
    {
      id := db.ClaimNextJob(selectAt, chargeAt, startAt);
      if id.Some? {
        RunAndReport(id.value - 1, reportAt, env, approved, compile, raised);
      }
    }
  }
}
