/** What a run can do to one job row, and how often a job can be started. */
module Lifecycle {
  import opened Common
  import opened Results
  import opened Ledger
  import opened Runs

  /** The row an event rewrites, if any. */
  function Touched(w: World, e: Event): Option<nat> {
    match e
    case Claim(select, charge, start) =>
      var o := ClaimOutcome(w.t, select, charge);
      if o.Nothing? then None else Some(o.job)
    case Finish(i, x, now) => if ReportAccepted(x) && i < |w.t.jobs| then Some(i) else None
    case Fail(i, m, now) => if i < |w.t.jobs| then Some(i) else None
    case WriteCancelled(c, now) =>
      if c < |w.calls| && w.calls[c].CancelSeen? && w.calls[c].job < |w.t.jobs| then Some(w.calls[c].job) else None
    case _ => None
  }

  predicate Inserts(w: World, e: Event) {
    e.Insert? && e.call < |w.calls| && w.calls[e.call].Picked?
  }

  /** The job that this event starts, if it is a successful claim. */
  function StartedBy(w: World, e: Event): Option<nat> {
    if e.Claim? && ClaimOutcome(w.t, e.select, e.charge).Started?
    then Some(ClaimOutcome(w.t, e.select, e.charge).job)
    else None
  }

  predicate SameInputs(a: seq<CaseRow>, b: seq<CaseRow>) {
    |a| == |b| && forall i :: 0 <= i < |a| ==> b[i].input == a[i].input
  }

  /** What was submitted is never edited. */
  predicate SameSubmission(j: Job, k: Job) {
    && k.user == j.user && k.filename == j.filename && k.source == j.source && k.compiler == j.compiler
    && k.timeLimit == j.timeLimit && k.memory == j.memory && k.grant == j.grant && k.createdAt == j.createdAt
    && SameInputs(j.cases, k.cases)
  }

  /** Everything any statement may do to a row that exists. */
  predicate Moves(j: Job, k: Job) {
    && SameSubmission(j, k)
    && (k.status.Queued? ==> j.status.Queued?)
    && (Terminal(j.status) ==> Terminal(k.status))
    && (j.startedAt.Some? ==> k.startedAt == j.startedAt)
    && (j.cancelRequested ==> k.cancelRequested)
  }

  lemma {:induction false} StoreKeepsLength(cases: seq<CaseRow>, results: seq<CaseResult>)
    ensures |StoreResults(cases, results)| == |cases|
    ensures forall i :: 0 <= i < |cases| ==> StoreResults(cases, results)[i].input == cases[i].input
  {
    if results != [] {
      StoreKeepsLength(cases, results[..|results| - 1]);
    }
  }

  /** The row carries the submission, case by case. */
  predicate Carries(j: Job, p: Payload) {
    && j.filename == p.filename && j.source == p.source && j.compiler == p.compiler
    && j.timeLimit == p.timeLimit && j.memory == p.memory
    && |j.cases| == |p.inputs| && forall i :: 0 <= i < |p.inputs| ==> j.cases[i].input == p.inputs[i]
  }

  predicate Rewrites(jobs: seq<Job>, jobs': seq<Job>, i: nat) {
    i < |jobs| == |jobs'| && jobs' == jobs[i := jobs'[i]] && Moves(jobs[i], jobs'[i])
  }

  predicate Appends(jobs: seq<Job>, jobs': seq<Job>, c: Call) {
    c.Picked? && |jobs'| == |jobs| + 1 && jobs' == jobs + [jobs'[|jobs|]]
    && jobs'[|jobs|].status.Queued? && jobs'[|jobs|].startedAt.None?
    && jobs'[|jobs|].user == c.user && jobs'[|jobs|].grant == c.grant && Carries(jobs'[|jobs|], c.payload)
  }

  /** A claim turns a queued row active, or cancels it; nothing else activates a row. */
  predicate RowChange(w: World, e: Event, j: Job, k: Job) {
    if StartedBy(w, e).Some? && e.Claim? then
      j.status.Queued? && !j.cancelRequested && k == j.(status := Compiling, startedAt := Some(e.start))
    else
      k.startedAt == j.startedAt && (Active(k.status) ==> Active(j.status))
      && (e.Claim? ==> j.status.Queued? && k.status.Cancelled?)
  }

  lemma ClaimRewrites(w: World, e: Event)
    requires Sound(w) && e.Claim? && Touched(w, e).Some?
    ensures Rewrites(w.t.jobs, Apply(w, e).t.jobs, Touched(w, e).value)
    ensures RowChange(w, e, w.t.jobs[Touched(w, e).value], Apply(w, e).t.jobs[Touched(w, e).value])
  {
    ClaimSelects(w.t, e.select);
    assert RowSound(w.t, w.t.jobs[Touched(w, e).value]);
  }

  lemma OtherRewrites(w: World, e: Event)
    requires Sound(w) && !e.Claim? && Touched(w, e).Some?
    ensures Rewrites(w.t.jobs, Apply(w, e).t.jobs, Touched(w, e).value)
    ensures RowChange(w, e, w.t.jobs[Touched(w, e).value], Apply(w, e).t.jobs[Touched(w, e).value])
  {
    if e.Finish? {
      StoreKeepsLength(w.t.jobs[e.job].cases, e.execution.cases);
    }
  }

  lemma InsertAppends(w: World, e: Event)
    requires Inserts(w, e)
    ensures Appends(w.t.jobs, Apply(w, e).t.jobs, w.calls[e.call])
  {
  }

  /** At most one existing row changes, and rows are only ever appended. */
  lemma JobsAfter(w: World, e: Event)
    requires Sound(w)
    ensures Touched(w, e).Some? ==> Rewrites(w.t.jobs, Apply(w, e).t.jobs, Touched(w, e).value)
    ensures Touched(w, e).Some? ==>
              RowChange(w, e, w.t.jobs[Touched(w, e).value], Apply(w, e).t.jobs[Touched(w, e).value])
    ensures Touched(w, e).None? && !Inserts(w, e) ==> Apply(w, e).t.jobs == w.t.jobs
    ensures Inserts(w, e) ==> Touched(w, e).None? && Appends(w.t.jobs, Apply(w, e).t.jobs, w.calls[e.call])
    ensures StartedBy(w, e).Some? ==> Touched(w, e) == StartedBy(w, e)
  {
    if Touched(w, e).Some? {
      if e.Claim? {
        ClaimRewrites(w, e);
      } else {
        OtherRewrites(w, e);
      }
    } else if Inserts(w, e) {
      InsertAppends(w, e);
    }
  }

  lemma RowStep(w: World, e: Event, i: nat)
    requires Sound(w) && i < |w.t.jobs|
    ensures i < |Apply(w, e).t.jobs|
    ensures Moves(w.t.jobs[i], Apply(w, e).t.jobs[i])
    ensures StartedBy(w, e) == Some(i) ==> w.t.jobs[i].status.Queued? && Apply(w, e).t.jobs[i].startedAt.Some?
    ensures StartedBy(w, e) != Some(i) ==> Apply(w, e).t.jobs[i].startedAt == w.t.jobs[i].startedAt
  {
    JobsAfter(w, e);
  }

  /** How many claims of a run started job i. */
  function Starts(w: World, es: seq<Event>, i: nat): nat
    decreases |es|
  {
    if es == [] then 0
    else
      (if StartedBy(w, es[0]) == Some(i) then 1 else 0) + Starts(Apply(w, es[0]), es[1..], i)
  }

  /**
   Over any run: a job never re-enters the queue, terminal states are closed, what was submitted is
   never edited, and it is started at most once - exactly when `started_at` is written.
   */
  lemma {:induction false} JobLifecycle(w: World, es: seq<Event>, i: nat)
    requires Sound(w) && i < |w.t.jobs|
    ensures i < |Run(w, es).t.jobs|
    ensures Moves(w.t.jobs[i], Run(w, es).t.jobs[i])
    ensures Starts(w, es, i) <= 1
    ensures Starts(w, es, i) == 1 <==> w.t.jobs[i].startedAt.None? && Run(w, es).t.jobs[i].startedAt.Some?
    decreases |es|
  {
    if es != [] {
      var w1 := Apply(w, es[0]);
      RowStep(w, es[0], i);
      SoundKept(w, es[0]);
      assert RowSound(w.t, w.t.jobs[i]);
      JobLifecycle(w1, es[1..], i);
    }
  }

  /** The queue shrinks by exactly one at every claim that selects a row, started or not, and for good. */
  lemma ClaimShrinksQueue(w: World, e: Event, later: seq<Event>)
    requires Sound(w) && e.Claim? && Touched(w, e).Some?
    ensures QueueLength(Apply(w, e).t.jobs) == QueueLength(w.t.jobs) - 1
    ensures var i := Touched(w, e).value;
            i < |Run(Apply(w, e), later).t.jobs| && !Run(Apply(w, e), later).t.jobs[i].status.Queued?
  {
    JobsAfter(w, e);
    SoundKept(w, e);
    var i := Touched(w, e).value;
    SumUpdate(w.t.jobs, i, Apply(w, e).t.jobs[i], QueuedOne());
    JobLifecycle(Apply(w, e), later, i);
  }

  /** Only an insert lengthens the queue. */
  lemma QueueGrowsOnlyByInsert(w: World, e: Event)
    requires Sound(w)
    ensures QueueLength(Apply(w, e).t.jobs) <= QueueLength(w.t.jobs) + (if Inserts(w, e) then 1 else 0)
  {
    JobsAfter(w, e);
    var jobs := Apply(w, e).t.jobs;
    if Touched(w, e).Some? {
      SumUpdate(w.t.jobs, Touched(w, e).value, jobs[Touched(w, e).value], QueuedOne());
    } else if Inserts(w, e) {
      SumAppend(w.t.jobs, jobs[|w.t.jobs|], QueuedOne());
    }
  }
}
