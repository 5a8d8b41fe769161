/** Why a job is asked to stop: nobody's runner is told so without a cause. */
module Cancellation {
  import opened Results
  import opened Ledger
  import opened Runs
  import opened Lifecycle
  import opened Rules

  /** A cancel function read job i and now writes; it had seen the job unfinished. */
  predicate WritesCancel(w: World, e: Event, i: nat) {
    && e.WriteCancelled? && e.call < |w.calls| && w.calls[e.call].CancelSeen? && w.calls[e.call].job == i
    && (w.calls[e.call].seen.Queued? || w.calls[e.call].seen.Compiling? || w.calls[e.call].seen.Running?)
  }

  /** A report for job i that the broker lets through. */
  predicate Reports(e: Event, i: nat, status: Status) {
    e.Finish? && e.job == i && ReportAccepted(e.execution) && e.execution.status == status
  }

  /** A claim found job i queued under a grant that can no longer be used. */
  predicate FindsDeadGrant(w: World, e: Event, i: nat) {
    && e.Claim? && i < |w.t.jobs| && w.t.jobs[i].status.Queued? && w.t.jobs[i].grant.Some?
    && !(w.t.jobs[i].grant.value < |w.t.grants| && Usable(w.t.grants[w.t.jobs[i].grant.value], e.charge))
  }

  /** The flag is set by a cancellation written for this job, and never taken back. */
  lemma FlagIff(w: World, e: Event, i: nat)
    requires Sound(w) && i < |w.t.jobs|
    ensures i < |Apply(w, e).t.jobs|
    ensures Apply(w, e).t.jobs[i].cancelRequested <==> w.t.jobs[i].cancelRequested || WritesCancel(w, e, i)
  {
    ClaimFacts(w, e);
  }

  /** Only these three turn a job's status into cancelled. */
  lemma CancelledBecause(w: World, e: Event, i: nat)
    requires Sound(w) && i < |w.t.jobs|
    ensures i < |Apply(w, e).t.jobs|
    ensures Apply(w, e).t.jobs[i].status.Cancelled? && !w.t.jobs[i].status.Cancelled? ==>
              WritesCancel(w, e, i) || Reports(e, i, Cancelled) || FindsDeadGrant(w, e, i)
  {
    ClaimFacts(w, e);
  }

  lemma ClaimFacts(w: World, e: Event)
    requires Sound(w)
    ensures e.Claim? && Touched(w, e).Some? ==>
              var i := Touched(w, e).value; i < |w.t.jobs| && w.t.jobs[i].status.Queued?
  {
    if e.Claim? {
      ClaimSelects(w.t, e.select);
    }
  }

  // ----- over runs -----

  /** Event k is the owner of job i, or the administrator, asking for its cancellation. */
  predicate AskedAt(es: seq<Event>, k: nat, i: nat, owner: UserId) {
    && k < |es| && es[k].ReadForCancel? && es[k].job == i
    && (es[k].requester.None? || es[k].requester.value == owner)
  }

  predicate ReportedAt(es: seq<Event>, k: nat, i: nat) {
    k < |es| && Reports(es[k], i, Cancelled)
  }

  ghost predicate DeadGrantAt(es: seq<Event>, k: nat, i: nat) {
    k < |es| && FindsDeadGrant(Run(EMPTY, es[..k]), es[k], i)
  }

  ghost predicate Asked(es: seq<Event>, i: nat, owner: UserId) {
    exists k: nat :: AskedAt(es, k, i, owner)
  }

  ghost predicate Caused(es: seq<Event>, i: nat, owner: UserId) {
    Asked(es, i, owner) || exists k: nat :: ReportedAt(es, k, i) || DeadGrantAt(es, k, i)
  }

  /** Every flag, every pending cancellation and every cancelled status goes back to its cause. */
  ghost predicate Traced(es: seq<Event>, w: World) {
    && (forall c :: 0 <= c < |w.calls| && w.calls[c].CancelSeen? ==>
                      w.calls[c].job < |w.t.jobs| && Asked(es, w.calls[c].job, w.t.jobs[w.calls[c].job].user))
    && (forall i :: 0 <= i < |w.t.jobs| && w.t.jobs[i].cancelRequested ==> Asked(es, i, w.t.jobs[i].user))
    && (forall i :: 0 <= i < |w.t.jobs| && w.t.jobs[i].status.Cancelled? ==> Caused(es, i, w.t.jobs[i].user))
  }

  lemma StillAsked(es: seq<Event>, e: Event, i: nat, owner: UserId)
    ensures Asked(es, i, owner) ==> Asked(es + [e], i, owner)
    ensures Caused(es, i, owner) ==> Caused(es + [e], i, owner)
  {
    var all := es + [e];
    if k: nat :| AskedAt(es, k, i, owner) {
      assert AskedAt(all, k, i, owner);
    } else if k: nat :| ReportedAt(es, k, i) || DeadGrantAt(es, k, i) {
      assert all[..k] == es[..k];
      assert ReportedAt(all, k, i) || DeadGrantAt(all, k, i);
    }
  }

  lemma CallsAfter(w: World, e: Event, c: nat)
    requires c < |Apply(w, e).calls| && Apply(w, e).calls[c].CancelSeen?
    ensures (c < |w.calls| && Apply(w, e).calls[c] == w.calls[c])
            || (e.ReadForCancel? && e.job < |w.t.jobs| && Apply(w, e).calls[c].job == e.job
                && (e.requester.None? || e.requester.value == w.t.jobs[e.job].user))
  {
  }

  lemma TracedStep(es: seq<Event>, w: World, e: Event)
    requires Sound(w) && w == Run(EMPTY, es) && Traced(es, w)
    ensures Traced(es + [e], Apply(w, e))
  {
    var all, w' := es + [e], Apply(w, e);
    JobsAfter(w, e);
    forall c | 0 <= c < |w'.calls| && w'.calls[c].CancelSeen?
      ensures w'.calls[c].job < |w'.t.jobs| && Asked(all, w'.calls[c].job, w'.t.jobs[w'.calls[c].job].user)
    {
      CallsAfter(w, e, c);
      var i := w'.calls[c].job;
      RowStep(w, e, i);
      StillAsked(es, e, i, w.t.jobs[i].user);
      var owner := w.t.jobs[i].user;
      assert e.ReadForCancel? && e.job == i ==> AskedAt(all, |es|, i, owner) || Asked(es, i, owner);
    }
    forall i | 0 <= i < |w'.t.jobs|
      ensures w'.t.jobs[i].cancelRequested ==> Asked(all, i, w'.t.jobs[i].user)
      ensures w'.t.jobs[i].status.Cancelled? ==> Caused(all, i, w'.t.jobs[i].user)
    {
      if i < |w.t.jobs| {
        RowTraced(es, w, e, i);
      } else {
        assert !w'.t.jobs[i].cancelRequested;
      }
    }
  }

  lemma RowTraced(es: seq<Event>, w: World, e: Event, i: nat)
    requires Sound(w) && w == Run(EMPTY, es) && Traced(es, w) && i < |w.t.jobs|
    ensures i < |Apply(w, e).t.jobs|
    ensures Apply(w, e).t.jobs[i].cancelRequested ==> Asked(es + [e], i, Apply(w, e).t.jobs[i].user)
    ensures Apply(w, e).t.jobs[i].status.Cancelled? ==> Caused(es + [e], i, Apply(w, e).t.jobs[i].user)
  {
    var all, owner := es + [e], w.t.jobs[i].user;
    RowStep(w, e, i);
    FlagIff(w, e, i);
    CancelledBecause(w, e, i);
    StillAsked(es, e, i, owner);
    assert WritesCancel(w, e, i) ==> Asked(es, i, owner);
    assert all[..|es|] == es;
    if Reports(e, i, Cancelled) {
      assert ReportedAt(all, |es|, i);
    } else if FindsDeadGrant(w, e, i) {
      assert DeadGrantAt(all, |es|, i);
    }
  }

  lemma {:induction false} TracedRun(es: seq<Event>)
    ensures Sound(Run(EMPTY, es)) && Traced(es, Run(EMPTY, es))
    decreases |es|
  {
    SoundRun(EMPTY, es);
    if es != [] {
      var n := |es| - 1;
      TracedRun(es[..n]);
      assert es == es[..n] + [es[n]];
      RunConcat(EMPTY, es[..n], [es[n]]);
      TracedStep(es[..n], Run(EMPTY, es[..n]), es[n]);
    }
  }

  /**
   The runner of a job is told to stop only when the owner or the administrator asked for it, a
   runner reported the job cancelled, or a claim found its grant dead; and from the moment a
   cancellation is written it is told so for good.
   */
  lemma StopHasACause(es: seq<Event>, i: nat)
    ensures var t := Run(EMPTY, es).t;
            && (CancelRequested(t, i) ==> i < |t.jobs| && Caused(es, i, t.jobs[i].user))
            && (i < |t.jobs| && t.jobs[i].cancelRequested ==> Asked(es, i, t.jobs[i].user))
  {
    TracedRun(es);
  }

  lemma {:induction false} StopIsKept(w: World, es: seq<Event>, i: nat)
    requires Sound(w) && i < |w.t.jobs| && w.t.jobs[i].cancelRequested
    ensures CancelRequested(Run(w, es).t, i)
    decreases |es|
  {
    if es != [] {
      FlagIff(w, es[0], i);
      SoundKept(w, es[0]);
      StopIsKept(Apply(w, es[0]), es[1..], i);
    }
  }
}
