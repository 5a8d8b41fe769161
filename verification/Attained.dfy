/** The two counting bounds are attained: racing submissions do exceed the limit, and a ready user does wait. */
module Attained {
  import opened Common
  import opened Results
  import opened Ledger
  import opened Runs
  import opened Quotas
  import opened Fairness
  import opened Rules
  import opened DatabaseStore

  function Plain(): Payload {
    Payload("main.cpp", "", "gcc-14-gnu++17", 1000, 16, [""])
  }

  function Waiting(u: UserId): Job {
    NewJob(u, Plain(), None, 0)
  }

  // ----- racing submissions -----

  /** The grants of a user whose in-flight limit is the given one. */
  function Allowing(u: UserId, limit: nat): seq<Grant> {
    if limit <= MAX_USER_INFLIGHT then [] else [Grant(u, None, None, Some(limit), None, None, true)]
  }

  lemma AllowingLimit(u: UserId, limit: nat, now: Instant)
    requires MAX_USER_INFLIGHT <= limit
    ensures InflightCap(Allowing(u, limit), u) == limit == EffectiveInflight(Allowing(u, limit), u, now)
  {
    if MAX_USER_INFLIGHT < limit {
      assert Allowing(u, limit)[..0] == [];
    }
  }

  lemma {:induction false} PendingConcat(w: World, a: seq<Event>, b: seq<Event>, u: UserId, k: int)
    requires AtMostPending(w, a, u, k) && AtMostPending(Run(w, a), b, u, k)
    ensures AtMostPending(w, a + b, u, k)
    decreases |a|
  {
    if a == [] {
      assert a + b == b;
    } else {
      assert (a + b)[1..] == a[1..] + b;
      PendingConcat(Apply(w, a[0]), a[1..], b, u, k);
    }
  }

  /** What a counted submission still has to do. */
  function Through(c: nat): seq<Event> {
    [ReadLimits(c, 0), ReadGrant(c, 0), Insert(c, 0)]
  }

  lemma RunThrough(w: World, c: nat)
    ensures Run(w, Through(c)) == Apply(Apply(Apply(w, ReadLimits(c, 0)), ReadGrant(c, 0)), Insert(c, 0))
    ensures forall u, k :: AtMostPending(w, Through(c), u, k) <==>
                           && PendingCreates(w, u) <= k
                           && PendingCreates(Apply(w, ReadLimits(c, 0)), u) <= k
                           && PendingCreates(Apply(Apply(w, ReadLimits(c, 0)), ReadGrant(c, 0)), u) <= k
                           && PendingCreates(Run(w, Through(c)), u) <= k
  {
    var es := Through(c);
    var w1 := Apply(w, es[0]);
    var w2 := Apply(w1, es[1]);
    assert es[1..] == [es[1], es[2]] && es[1..][1..] == [es[2]] && es[1..][1..][1..] == [];
    assert Run(w1, es[1..]) == Run(w2, [es[2]]) == Apply(w2, es[2]);
    forall u, k
      ensures AtMostPending(w1, es[1..], u, k) <==>
              PendingCreates(w1, u) <= k && PendingCreates(w2, u) <= k && PendingCreates(Apply(w2, es[2]), u) <= k
    {
      assert AtMostPending(w2, [es[2]], u, k) <==>
             PendingCreates(w2, u) <= k && PendingCreates(Apply(w2, es[2]), u) <= k;
    }
  }

  /** A submission that counted fewer jobs than the limit is inserted. */
  lemma GoesThrough(w: World, c: nat, u: UserId, limit: nat, n: int, k: int)
    requires MAX_USER_INFLIGHT <= limit && w.t.grants == Allowing(u, limit)
    requires c < |w.calls| && w.calls[c] == Counted(u, Plain(), n) && n < limit && PendingCreates(w, u) <= k
    ensures AtMostPending(w, Through(c), u, k)
    ensures Run(w, Through(c)) == World(w.t.(jobs := w.t.jobs + [Waiting(u)]), w.calls[c := Done])
    ensures PendingCreates(Run(w, Through(c)), u) == PendingCreates(w, u) - 1
    ensures Inflight(Run(w, Through(c)).t.jobs, u) == Inflight(w.t.jobs, u) + 1
  {
    AllowingLimit(u, limit, 0);
    RunThrough(w, c);
    var w1 := Apply(w, ReadLimits(c, 0));
    var w2 := Apply(w1, ReadGrant(c, 0));
    assert w1.calls == w.calls[c := Checked(u, Plain(), n)];
    assert w2.calls == w.calls[c := Picked(u, Plain(), n, None)];
    assert Run(w, Through(c)).calls == w.calls[c := Done];
    SumUpdate(w.calls, c, Checked(u, Plain(), n), CreatingOf(u));
    SumUpdate(w.calls, c, Picked(u, Plain(), n, None), CreatingOf(u));
    SumUpdate(w.calls, c, Done, CreatingOf(u));
    SumAppend(w.t.jobs, Waiting(u), UnfinishedOf(u));
  }

  /** The user has n unfinished jobs and no submission under way. */
  ghost predicate Filled(w: World, u: UserId, limit: nat, n: int) {
    w.t.grants == Allowing(u, limit) && Inflight(w.t.jobs, u) == n && PendingCreates(w, u) == 0
  }

  lemma CountOne(w: World, u: UserId)
    ensures var w' := Apply(w, CountInflight(u, Plain()));
            && w' == w.(calls := w.calls + [Counted(u, Plain(), Inflight(w.t.jobs, u))])
            && PendingCreates(w', u) == PendingCreates(w, u) + 1
  {
    SumAppend(w.calls, Counted(u, Plain(), Inflight(w.t.jobs, u)), CreatingOf(u));
  }

  lemma OneMore(w: World, u: UserId, limit: nat, n: nat, k: nat) returns (es: seq<Event>)
    requires Filled(w, u, limit, n) && MAX_USER_INFLIGHT <= limit && n < limit && 1 <= k
    ensures AtMostPending(w, es, u, k) && Filled(Run(w, es), u, limit, n + 1)
  {
    var count := CountInflight(u, Plain());
    var w1 := Apply(w, count);
    CountOne(w, u);
    GoesThrough(w1, |w.calls|, u, limit, n, k);
    es := [count] + Through(|w.calls|);
    assert es[1..] == Through(|w.calls|);
    assert Run(w, es) == Run(w1, Through(|w.calls|));
  }

  lemma {:induction false} Fill(u: UserId, limit: nat, n: nat, k: nat) returns (es: seq<Event>)
    requires MAX_USER_INFLIGHT <= limit && n < limit && 1 <= k
    ensures AtMostPending(EMPTY, es, u, k) && Filled(Run(EMPTY, es), u, limit, n)
    decreases n
  {
    if n == 0 {
      es := if limit == MAX_USER_INFLIGHT then [] else [NewGrant(Allowing(u, limit)[0])];
      assert EMPTY.t.grants + Allowing(u, limit) == Allowing(u, limit);
    } else {
      var first := Fill(u, limit, n - 1, k);
      var more := OneMore(Run(EMPTY, first), u, limit, n - 1, k);
      RunConcat(EMPTY, first, more);
      PendingConcat(EMPTY, first, more, u, k);
      es := first + more;
    }
  }

  /** m submissions have read the same count since. */
  ghost predicate AllCounted(w: World, w': World, u: UserId, m: nat) {
    && w'.t == w.t && |w'.calls| == |w.calls| + m
    && forall i :: |w.calls| <= i < |w'.calls| ==> w'.calls[i] == Counted(u, Plain(), Inflight(w.t.jobs, u))
  }

  lemma {:induction false} CountMany(w: World, u: UserId, m: nat, k: nat) returns (es: seq<Event>)
    requires PendingCreates(w, u) + m <= k
    ensures AtMostPending(w, es, u, k) && AllCounted(w, Run(w, es), u, m)
    ensures PendingCreates(Run(w, es), u) == PendingCreates(w, u) + m
    decreases m
  {
    if m == 0 {
      es := [];
    } else {
      var rest := CountMany(w, u, m - 1, k);
      var w1 := Run(w, rest);
      var count := CountInflight(u, Plain());
      CountOne(w1, u);
      RunConcat(w, rest, [count]);
      assert [count][1..] == [];
      assert Run(w1, [count]) == Apply(w1, count);
      PendingConcat(w, rest, [count], u, k);
      es := rest + [count];
    }
  }

  /** The submissions from call c on all counted n jobs, and all are inserted. */
  lemma {:induction false} InsertMany(w: World, u: UserId, limit: nat, n: int, c: nat, k: nat) returns (es: seq<Event>)
    requires MAX_USER_INFLIGHT <= limit && w.t.grants == Allowing(u, limit) && n < limit && PendingCreates(w, u) <= k
    requires c <= |w.calls| && forall i :: c <= i < |w.calls| ==> w.calls[i] == Counted(u, Plain(), n)
    ensures AtMostPending(w, es, u, k) && Run(w, es).t.grants == w.t.grants
    ensures Inflight(Run(w, es).t.jobs, u) == Inflight(w.t.jobs, u) + |w.calls| - c
    decreases |w.calls| - c
  {
    if c == |w.calls| {
      es := [];
    } else {
      GoesThrough(w, c, u, limit, n, k);
      var w1 := Run(w, Through(c));
      var rest := InsertMany(w1, u, limit, n, c + 1, k);
      RunConcat(w, Through(c), rest);
      PendingConcat(w, Through(c), rest, u, k);
      es := Through(c) + rest;
    }
  }

  /** For every limit and every number K of racing submissions, a run from the empty tables attains the bound. */
  lemma InflightBoundIsTight(u: UserId, limit: nat, k: nat) returns (es: seq<Event>)
    requires MAX_USER_INFLIGHT <= limit && 1 <= k
    ensures AtMostPending(EMPTY, es, u, k)
    ensures var w' := Run(EMPTY, es);
            InflightCap(w'.t.grants, u) == limit && Inflight(w'.t.jobs, u) == limit - 1 + k
  {
    var fill := Fill(u, limit, limit - 1, k);
    var w := Run(EMPTY, fill);
    var counts := CountMany(w, u, k, k);
    var w1 := Run(w, counts);
    var inserts := InsertMany(w1, u, limit, limit - 1, |w.calls|, k);
    RunConcat(w, counts, inserts);
    PendingConcat(w, counts, inserts, u, k);
    RunConcat(EMPTY, fill, counts + inserts);
    PendingConcat(EMPTY, fill, counts + inserts, u, k);
    es := fill + (counts + inserts);
    AllowingLimit(u, limit, 0);
  }

  // ----- a ready user waits for all the others -----

  /** The row of user u once it is started, at time u + 1. */
  function Begun(u: UserId): Job {
    Waiting(u).(status := Compiling, startedAt := Some(u + 1))
  }

  function ServedRows(n: nat, s: nat): seq<Job> {
    seq(n, u requires 0 <= u < n => if u < s then Begun(u) else Waiting(u))
  }

  /** Users 0 to n - 1 have a job each, and the first s of them are started. */
  function Served(n: nat, s: nat): World {
    World(Tables(ServedRows(n, s), []), seq(n, _ => Done))
  }

  lemma {:induction false} AllSubmit(n: nat) returns (es: seq<Event>)
    ensures Run(EMPTY, es) == Served(n, 0)
  {
    if n == 0 {
      es := [];
    } else {
      var first := AllSubmit(n - 1);
      var w := Run(EMPTY, first);
      NoUnfinished(w.t.jobs, n - 1);
      SerialCreate(w, n - 1, Plain(), 0, 0, 0);
      RunConcat(EMPTY, first, CreateEvents(w, n - 1, Plain(), 0, 0, 0));
      es := first + CreateEvents(w, n - 1, Plain(), 0, 0, 0);
      assert ServedRows(n, 0) == ServedRows(n - 1, 0) + [Waiting(n - 1)];
    }
  }

  lemma {:induction false} NoUnfinished(jobs: seq<Job>, u: UserId)
    requires forall i :: 0 <= i < |jobs| ==> jobs[i].user != u
    ensures Inflight(jobs, u) == 0
  {
    if jobs != [] {
      NoUnfinished(jobs[..|jobs| - 1], u);
    }
  }

  lemma {:induction false} NeverClaimed(jobs: seq<Job>, u: UserId)
    requires forall i :: 0 <= i < |jobs| && jobs[i].user == u ==> jobs[i].startedAt.None?
    ensures LastClaimed(jobs, u).None?
  {
    if jobs != [] {
      NeverClaimed(jobs[..|jobs| - 1], u);
    }
  }

  lemma ServedEligible(n: nat, s: nat, u: nat, now: Instant)
    ensures Eligible(Served(n, s).t, u, now) <==> s <= u < n
  {
    if s <= u < n {
      NothingActive(ServedRows(n, s), u);
    }
  }

  lemma ServedKey(n: nat, s: nat, u: nat)
    requires s <= u < n
    ensures FullKey(Served(n, s).t)(u) == Key(0, 0, u, 0, u)
  {
    NeverClaimed(ServedRows(n, s), u);
  }

  /** Of the users not yet served the one with the smallest id comes first. */
  lemma NextServed(n: nat, s: nat)
    requires s < n
    ensures ClaimQuery(Served(n, s).t, s + 1) == Some(s)
  {
    var t := Served(n, s).t;
    ServedEligible(n, s, s, s + 1);
    SelectedIsLeast(t, s + 1, s);
    var r := ClaimQuery(t, s + 1).value;
    ServedEligible(n, s, r, s + 1);
    ServedKey(n, s, s);
    ServedKey(n, s, r);
  }

  lemma RowsBegin(n: nat, s: nat)
    requires s < n
    ensures ServedRows(n, s)[s := Begun(s)] == ServedRows(n, s + 1) && ServedRows(n, s)[s] == Waiting(s)
  {
  }

  lemma NextBegins(n: nat, s: nat)
    requires s < n && ClaimQuery(Served(n, s).t, s + 1) == Some(s)
    ensures ClaimOutcome(Served(n, s).t, s + 1, s + 1) == Started(s)
    ensures Apply(Served(n, s), Claim(s + 1, s + 1, s + 1)) == Served(n, s + 1)
  {
    RowsBegin(n, s);
    ClaimOfLive(Served(n, s).t, s + 1, s + 1, s + 1, s);
  }

  lemma StillReady(n: nat, s: nat)
    requires s < n - 1
    ensures Ready(Served(n, s).t, n - 1, s + 1)
  {
    ServedEligible(n, s, n - 1, s + 1);
  }

  lemma OneTurn(n: nat, s: nat)
    requires s < n - 1
    ensures var w, e := Served(n, s), Claim(s + 1, s + 1, s + 1);
            && Ready(w.t, n - 1, e.select) && SelectedUser(w, e) == StartedUser(w, e) == Some(s)
            && Apply(w, e) == Served(n, s + 1)
  {
    StillReady(n, s);
    NextServed(n, s);
    NextBegins(n, s);
  }

  /** A run that passes user a over while k others are started, from one state to another. */
  ghost predicate Waits(w: World, es: seq<Event>, w': World, a: UserId, k: nat, floor: Instant) {
    PassedOver(w, es, a) && ClaimTimesRise(es, floor) && Run(w, es) == w' && |StartedUsers(w, es)| == k
  }

  lemma WaitsLonger(w: World, e: Event, w1: World, rest: seq<Event>, w': World, a: UserId, b: UserId, k: nat)
    requires e.Claim? && Ready(w.t, a, e.select) && SelectedUser(w, e) == StartedUser(w, e) == Some(b) && a != b
    requires Apply(w, e) == w1 && Waits(w1, rest, w', a, k, e.start)
    ensures Waits(w, [e] + rest, w', a, k + 1, e.start - 1)
  {
    assert ([e] + rest)[1..] == rest;
  }

  lemma OneTurnMore(n: nat, s: nat, rest: seq<Event>, w': World, k: nat) returns (es: seq<Event>)
    requires s < n - 1 && Waits(Served(n, s + 1), rest, w', n - 1, k, s + 1)
    ensures Waits(Served(n, s), es, w', n - 1, k + 1, s)
  {
    var e := Claim(s + 1, s + 1, s + 1);
    OneTurn(n, s);
    WaitsLonger(Served(n, s), e, Served(n, s + 1), rest, w', n - 1, s, k);
    es := [e] + rest;
  }

  lemma WaitsNone(w: World, a: UserId, floor: Instant)
    ensures Waits(w, [], w, a, 0, floor)
  {
  }

  lemma {:induction false} ServedInTurn(n: nat, s: nat) returns (es: seq<Event>)
    requires s < n
    ensures Waits(Served(n, s), es, Served(n, n - 1), n - 1, n - 1 - s, s)
    decreases n - s
  {
    if s == n - 1 {
      WaitsNone(Served(n, s), n - 1, s);
      es := [];
    } else {
      var rest := ServedInTurn(n, s + 1);
      es := OneTurnMore(n, s, rest, Served(n, n - 1), n - 2 - s);
    }
  }

  function FirstUsers(n: nat): (users: set<UserId>)
    ensures |users| == n && forall u: UserId :: u in users <==> u < n
  {
    if n == 0 then {} else FirstUsers(n - 1) + {n - 1}
  }

  lemma ServedOwners(n: nat, s: nat)
    ensures forall i :: 0 <= i < |Served(n, s).t.jobs| ==> Served(n, s).t.jobs[i].user in FirstUsers(n)
  {
  }

  lemma NoneBegun(n: nat)
    ensures StartsUpTo(Served(n, 0).t.jobs, 0)
  {
  }

  /** For every number n of users, a reachable state and a run from it in which one of them waits for n - 1 starts. */
  lemma BypassIsTight(n: nat) returns (before: seq<Event>, es: seq<Event>)
    requires 1 <= n
    ensures var w := Run(EMPTY, before);
            && StartsUpTo(w.t.jobs, 0) && ClaimTimesRise(es, 0) && PassedOver(w, es, n - 1)
            && (forall i :: 0 <= i < |Run(w, es).t.jobs| ==> Run(w, es).t.jobs[i].user in FirstUsers(n))
            && |StartedUsers(w, es)| == |FirstUsers(n)| - 1
  {
    before := AllSubmit(n);
    es := ServedInTurn(n, 0);
    ServedOwners(n, n - 1);
    NoneBegun(n);
  }
}
