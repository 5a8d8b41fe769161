/**
 What a stale cancellation does to the two-layer agreement. `cancel_job` reads the status before its
 transaction and then writes without a guard (database.py): a claim in between is undone in the
 ledger while the worker keeps running, and the user's next job is admitted on top of it.
 */
module StaleCancel {
  import opened Common
  import opened Results
  import opened Ledger
  import opened Runs
  import opened Cgroups
  import opened TwoLayer
  import opened Histories

  const PAYLOAD := Payload("main.cpp", "", "gcc-14-gnu++17", 1000, 256, [""])

  /** No grants, and cancellations whose read and write are apart. */
  function Splitting(site: Site, u: UserId, slots: nat): Setting {
    Setting(site, u, slots, (g: Grant) => false, true)
  }

  function Submitted(u: UserId): Job {
    NewJob(u, PAYLOAD, None, 0)
  }

  function Started(u: UserId, start: Instant): Job {
    Submitted(u).(status := Compiling, startedAt := Some(start))
  }

  function Revoked(u: UserId): Job {
    CancelRow(Started(u, 1), Status.Queued, true, 2)
  }

  function Seen(): seq<Call> {
    [Done, CancelSeen(0, Status.Queued, true)]
  }

  /** Submit, and read `queued` for a cancellation. */
  lemma CancelRead(h: Setting) returns (ms: seq<Move>)
    requires Fair(h) && h.splits
    ensures Leads(h, ms, At(h, Tables([Submitted(h.u)], []), Seen(), Idle, Idle, NO_GROUPS))
  {
    ms := Start(h);
    var y0 := At(h, Tables([], []), [], Idle, Idle, NO_GROUPS);
    var y1 := At(h, Tables([Submitted(h.u)], []), [Done], Idle, Idle, NO_GROUPS);
    assert [] + [Submitted(h.u)] == [Submitted(h.u)] && [] + [Done] == [Done];
    ms := ThenSubmit(h, ms, y0, PAYLOAD, None, 0, y1);
    assert [Done] + [CancelSeen(0, Status.Queued, true)] == Seen();
    ms := Then(h, ms, y1, Control(ReadForCancel(0, Some(h.u))),
               At(h, Tables([Submitted(h.u)], []), Seen(), Idle, Idle, NO_GROUPS));
  }

  /** A slot claims the job and starts its case. */
  lemma ClaimUnderCancel(h: Setting, first: seq<Move>) returns (ms: seq<Move>)
    requires Fair(h) && Leads(h, first, At(h, Tables([Submitted(h.u)], []), Seen(), Idle, Idle, NO_GROUPS))
    ensures Leads(h, ms, At(h, Tables([Started(h.u, 1)], []), Seen(), Busy(0, 1, true), Idle,
                            GroupFor(h, NO_GROUPS, 0, 256)))
  {
    var y2 := At(h, Tables([Submitted(h.u)], []), Seen(), Idle, Idle, NO_GROUPS);
    SumOne(Submitted(h.u), MemoryOf(h.u));
    assert Eligible(y2.w.t, 0, 1);
    Selected(y2.w.t, 0, 1);
    SlotTakes(h, y2, 0, 0, 1);
    SlotsUpdated(h, Idle, Idle, Busy(0, 0, false));
    assert y2.w.t.jobs[0 := Started(h.u, 1)] == [Started(h.u, 1)];
    var y3 := At(h, Tables([Started(h.u, 1)], []), Seen(), Busy(0, 0, false), Idle, NO_GROUPS);
    ms := Then(h, first, y2, SlotClaim(0, 1, 1, 1), y3);
    FirstCase(h, y3, 0);
    SlotsUpdated(h, Busy(0, 0, false), Idle, Busy(0, 1, true));
    ms := Then(h, ms, y3, CaseStart(0),
               At(h, Tables([Started(h.u, 1)], []), Seen(), Busy(0, 1, true), Idle, GroupFor(h, NO_GROUPS, 0, 256)));
  }

  /** The stale write releases the reservation, and the next job is admitted. */
  lemma AdmitOnTop(h: Setting, fs: Fs, first: seq<Move>) returns (ms: seq<Move>)
    requires Fair(h) && h.splits
    requires Leads(h, first, At(h, Tables([Started(h.u, 1)], []), Seen(), Busy(0, 1, true), Idle, fs))
    ensures Leads(h, ms, At(h, Tables([Revoked(h.u), Submitted(h.u)], []), [Done, Done, Done],
                            Busy(0, 1, true), Idle, fs))
  {
    var y4 := At(h, Tables([Started(h.u, 1)], []), Seen(), Busy(0, 1, true), Idle, fs);
    var y5 := At(h, Tables([Revoked(h.u)], []), [Done, Done], Busy(0, 1, true), Idle, fs);
    assert [Started(h.u, 1)][0 := Revoked(h.u)] == [Revoked(h.u)] && Seen()[1 := Done] == [Done, Done];
    ms := Then(h, first, y4, Control(WriteCancelled(1, 2)), y5);
    SumOne(Revoked(h.u), UnfinishedOf(h.u));
    assert [Revoked(h.u)] + [Submitted(h.u)] == [Revoked(h.u), Submitted(h.u)];
    assert [Done, Done] + [Done] == [Done, Done, Done];
    ms := ThenSubmit(h, ms, y5, PAYLOAD, None, 0,
                     At(h, Tables([Revoked(h.u), Submitted(h.u)], []), [Done, Done, Done], Busy(0, 1, true), Idle, fs));
  }

  /** The other slot claims it and starts its case. */
  lemma RunOnTop(h: Setting, fs: Fs, first: seq<Move>) returns (ms: seq<Move>)
    requires Fair(h)
    requires Leads(h, first,
                   At(h, Tables([Revoked(h.u), Submitted(h.u)], []), [Done, Done, Done], Busy(0, 1, true), Idle, fs))
    ensures Leads(h, ms, At(h, Tables([Revoked(h.u), Started(h.u, 3)], []), [Done, Done, Done], Busy(0, 1, true),
                            Busy(1, 1, true), GroupFor(h, fs, 1, 256)))
  {
    var calls := [Done, Done, Done];
    var y6 := At(h, Tables([Revoked(h.u), Submitted(h.u)], []), calls, Busy(0, 1, true), Idle, fs);
    SumTwo(Revoked(h.u), Submitted(h.u), MemoryOf(h.u));
    assert Eligible(y6.w.t, 1, 3);
    Selected(y6.w.t, 1, 3);
    SlotTakes(h, y6, 1, 1, 3);
    SlotsUpdated(h, Busy(0, 1, true), Idle, Busy(1, 0, false));
    var y7 := At(h, Tables([Revoked(h.u), Started(h.u, 3)], []), calls, Busy(0, 1, true), Busy(1, 0, false), fs);
    assert y6.w.t.jobs[1 := Started(h.u, 3)] == y7.w.t.jobs;
    ms := Then(h, first, y6, SlotClaim(1, 3, 3, 3), y7);
    FirstCase(h, y7, 1);
    SlotsUpdated(h, Busy(0, 1, true), Busy(1, 0, false), Busy(1, 1, true));
    ms := Then(h, ms, y7, CaseStart(1),
               At(h, y7.w.t, calls, Busy(0, 1, true), Busy(1, 1, true), GroupFor(h, fs, 1, 256)));
  }

  /** For every site and user: without any grant, one stale cancellation lets the user's live limits reach 512 MiB. */
  lemma StaleCancelOverbooks(site: Site, u: UserId, slots: nat) returns (ms: seq<Move>)
    requires Identities(site) && u in site.ids && 2 <= slots
    ensures var y := Steps(site, Boot(slots), ms);
            y.w.t.grants == [] && LiveBytes(site, y, u) == 512 * MIB
  {
    var h := Splitting(site, u, slots);
    ms := CancelRead(h);
    ms := ClaimUnderCancel(h, ms);
    ms := AdmitOnTop(h, GroupFor(h, NO_GROUPS, 0, 256), ms);
    ms := RunOnTop(h, GroupFor(h, NO_GROUPS, 0, 256), ms);
    TwoLive(h, Tables([Revoked(u), Started(u, 3)], []), [Done, Done, Done], 256, 256);
  }
}
