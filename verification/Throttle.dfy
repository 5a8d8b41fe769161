/** The login throttle (database.py, app.py): five failures in a window block a login for fifteen minutes. */
module Throttle {
  import opened Common

  const SECOND := 1_000_000
  const WINDOW := 900 * SECOND
  const MAX_FAILURES := 5

  datatype Row = Row(failures: nat, first: Instant, blockedUntil: Option<Instant>)

  // ----- one row -----

  /** Python's `int()` of a number of seconds: truncation toward zero. */
  function WholeSeconds(micros: int): int {
    if 0 <= micros then micros / SECOND else -((-micros) / SECOND)
  }

  /** `max(0, int(remaining) + (1 if remaining % 1 else 0))`; Python's `%` is never negative here. */
  function RetryAfter(row: Option<Row>, now: Instant): int {
    if row.None? || row.value.blockedUntil.None? then 0
    else
      var remaining := row.value.blockedUntil.value - now;
      Max(0, WholeSeconds(remaining) + (if remaining % SECOND != 0 then 1 else 0))
  }

  function Record(row: Option<Row>, now: Instant): Row {
    var opens := row.None? || WINDOW <= now - row.value.first;
    var failures := if opens then 1 else row.value.failures + 1;
    Row(failures, if opens then now else row.value.first,
        if MAX_FAILURES <= failures then Some(now + WINDOW) else None)
  }

  lemma NegatedRemainder(r: int)
    ensures r % SECOND == 0 <==> (-r) % SECOND == 0
  {
    var a, b := r / SECOND, r % SECOND;
    var c, d := (-r) / SECOND, (-r) % SECOND;
    assert r == a * SECOND + b && -r == c * SECOND + d;
    assert b + d == (-a - c) * SECOND;
  }

  /** A block never ends early; it lifts at its end, and the second that follows blocks again. */
  lemma BlockSpan(row: Row, now: Instant)
    requires row.blockedUntil.Some?
    ensures RetryAfter(Some(row), now) == 0 <==>
            now == row.blockedUntil.value || row.blockedUntil.value + SECOND <= now
    ensures 0 <= RetryAfter(Some(row), now)
  {
    var remaining := row.blockedUntil.value - now;
    NegatedRemainder(remaining);
    if remaining < 0 {
      var q := (-remaining) / SECOND;
      assert -remaining == q * SECOND + (-remaining) % SECOND;
      assert WholeSeconds(remaining) == -q;
    }
  }

  /** During the block the header is the remaining time in seconds, rounded up. */
  lemma HeaderRoundsUp(row: Row, now: Instant)
    requires row.blockedUntil.Some? && now < row.blockedUntil.value
    ensures var left, header := row.blockedUntil.value - now, RetryAfter(Some(row), now);
            (header - 1) * SECOND < left <= header * SECOND
  {
  }

  /** A client that waits exactly as told is admitted if and only if a whole number of seconds was left. */
  lemma WaitingAsTold(row: Row, now: Instant)
    requires row.blockedUntil.Some? && now < row.blockedUntil.value
    ensures RetryAfter(Some(row), now + RetryAfter(Some(row), now) * SECOND) == 0
       <==> (row.blockedUntil.value - now) % SECOND == 0
  {
    HeaderRoundsUp(row, now);
    BlockSpan(row, now + RetryAfter(Some(row), now) * SECOND);
  }

  // ----- a run of failing logins for one (scope, username, source) -----

  /** One request with a wrong password: the clock when the limit is checked and when the failure is recorded. */
  datatype Attempt = Attempt(check: Instant, record: Instant)

  /** `times` are the evaluated failures so far, `counts` the stored count after each of them. */
  datatype History = History(row: Option<Row>, times: seq<Instant>, counts: seq<nat>)

  function Handle(h: History, a: Attempt): History {
    if RetryAfter(h.row, a.check) != 0 then h
    else
      var row := Record(h.row, a.record);
      History(Some(row), h.times + [a.record], h.counts + [row.failures])
  }

  function Replay(attempts: seq<Attempt>): History {
    if attempts == [] then History(None, [], [])
    else Handle(Replay(attempts[..|attempts| - 1]), attempts[|attempts| - 1])
  }

  /** Requests are handled one at a time on a clock that never runs backwards. */
  predicate Serial(attempts: seq<Attempt>) {
    && (forall i :: 0 <= i < |attempts| ==> attempts[i].check <= attempts[i].record)
    && (forall i :: 0 < i < |attempts| ==> attempts[i - 1].record <= attempts[i].check)
  }

  /** Failure i + 1 either joins the window of failure i or opens a new one, late enough. */
  predicate Follows(times: seq<Instant>, counts: seq<nat>, i: nat)
    requires |times| == |counts| && i + 1 < |times| && 1 <= counts[i] <= i + 1
  {
    && times[i] <= times[i + 1]
    && (if counts[i + 1] == 1 then
          && WINDOW <= times[i + 1] - times[i + 1 - counts[i]]
          && (counts[i] == MAX_FAILURES ==> WINDOW <= times[i + 1] - times[i])
        else
          counts[i + 1] == counts[i] + 1 && counts[i] < MAX_FAILURES)
  }

  ghost predicate Trace(times: seq<Instant>, counts: seq<nat>) {
    && |times| == |counts|
    && (times != [] ==> counts[0] == 1)
    && (forall i :: 0 <= i < |counts| ==> 1 <= counts[i] <= MAX_FAILURES && counts[i] <= i + 1)
    && (forall i :: 0 <= i < |counts| - 1 ==> Follows(times, counts, i))
  }

  ghost predicate Consistent(h: History, clock: Instant) {
    && Trace(h.times, h.counts)
    && (h.row.None? <==> h.times == [])
    && (h.times != [] ==>
          var n := |h.times|;
          && h.times[n - 1] <= clock
          && h.row.value == Row(h.counts[n - 1], h.times[n - h.counts[n - 1]],
                                if h.counts[n - 1] == MAX_FAILURES then Some(h.times[n - 1] + WINDOW) else None))
  }

  lemma {:induction false} Ordered(times: seq<Instant>, counts: seq<nat>, i: nat, j: nat)
    requires Trace(times, counts) && i <= j < |times|
    ensures times[i] <= times[j]
    decreases j - i
  {
    if i < j {
      assert Follows(times, counts, i);
      Ordered(times, counts, i + 1, j);
    }
  }

  lemma HandleConsistent(h: History, a: Attempt, clock: Instant)
    requires Consistent(h, clock) && clock <= a.check <= a.record
    ensures Consistent(Handle(h, a), a.record)
  {
    if h.row.Some? && h.row.value.blockedUntil.Some? {
      BlockSpan(h.row.value, a.check);
    }
    var n := |h.times|;
    if n > 0 {
      Ordered(h.times, h.counts, n - h.counts[n - 1], n - 1);
    }
    var h' := Handle(h, a);
    if h' != h {
      forall i | 0 <= i < |h'.counts| - 1
        ensures Follows(h'.times, h'.counts, i)
      {
        if i < |h.counts| - 1 {
          assert Follows(h.times, h.counts, i);
        }
      }
    }
  }

  lemma {:induction false} ReplayConsistent(attempts: seq<Attempt>)
    requires Serial(attempts)
    ensures Consistent(Replay(attempts), if attempts == [] then 0 else attempts[|attempts| - 1].record)
  {
    if attempts != [] {
      var n := |attempts| - 1;
      ReplayConsistent(attempts[..n]);
      var clock := if n == 0 then attempts[0].check else attempts[n - 1].record;
      assert Consistent(Replay(attempts[..n]), clock);
      HandleConsistent(Replay(attempts[..n]), attempts[n], clock);
    }
  }

  /** The stored count is always between one and five. */
  lemma StoredCountBounded(attempts: seq<Attempt>)
    requires Serial(attempts)
    ensures Replay(attempts).row.Some? ==> 1 <= Replay(attempts).row.value.failures <= MAX_FAILURES
  {
    ReplayConsistent(attempts);
  }

  // ----- the bound on any fifteen minutes -----

  /** From failure i the window fills for at most 5 - counts[i] more failures before a new one opens. */
  lemma {:induction false} NextWindow(times: seq<Instant>, counts: seq<nat>, i: nat) returns (r: nat)
    requires Trace(times, counts) && i < |times| && i + MAX_FAILURES + 1 - counts[i] < |times|
    ensures i < r <= i + MAX_FAILURES + 1 - counts[i] && counts[r] == 1
    ensures times[r] >= times[i + 1 - counts[i]] + WINDOW
    ensures r == i + MAX_FAILURES + 1 - counts[i] ==> times[r] >= times[i] + WINDOW
    decreases MAX_FAILURES - counts[i]
  {
    assert Follows(times, counts, i);
    if counts[i + 1] == 1 {
      r := i + 1;
    } else {
      r := NextWindow(times, counts, i + 1);
    }
  }

  /** The ninth failure after any failure comes at least fifteen minutes later. */
  lemma EightApart(times: seq<Instant>, counts: seq<nat>, i: nat)
    requires Trace(times, counts) && i + 8 < |times|
    ensures times[i] + WINDOW <= times[i + 8]
  {
    var r := NextWindow(times, counts, i);
    if counts[i] == 1 || r == i + MAX_FAILURES + 1 - counts[i] {
      Ordered(times, counts, r, i + 8);
    } else {
      var s := NextWindow(times, counts, r);
      Ordered(times, counts, i, r);
      Ordered(times, counts, s, i + 8);
    }
  }

  /** Evaluated failures in the half-open interval [from, from + 15 min). */
  function FailuresIn(times: seq<Instant>, from: Instant): nat {
    if times == [] then 0
    else
      FailuresIn(times[..|times| - 1], from) + (if from <= times[|times| - 1] < from + WINDOW then 1 else 0)
  }

  lemma {:induction false} AtMostAllRecent(times: seq<Instant>, from: Instant, m: nat)
    requires m <= |times|
    requires forall i :: 0 <= i < m ==> times[i] < from
    ensures FailuresIn(times, from) <= |times| - m
  {
    if times != [] {
      AtMostAllRecent(times[..|times| - 1], from, if m < |times| then m else m - 1);
    }
  }

  lemma {:induction false} AtMostEight(times: seq<Instant>, counts: seq<nat>, from: Instant)
    requires Trace(times, counts)
    ensures FailuresIn(times, from) <= 8
  {
    if times != [] {
      var n := |times| - 1;
      if from <= times[n] < from + WINDOW {
        var m := if 8 <= n then n - 7 else 0;
        forall i | 0 <= i < m
          ensures times[i] < from
        {
          EightApart(times, counts, n - 8);
          Ordered(times, counts, i, n - 8);
        }
        AtMostAllRecent(times, from, m);
      } else {
        forall i | 0 <= i < n - 1
          ensures Follows(times[..n], counts[..n], i)
        {
          assert Follows(times, counts, i);
        }
        AtMostEight(times[..n], counts[..n], from);
      }
    }
  }

  /** Whatever requests arrive, any fifteen minutes see at most eight evaluated wrong passwords. */
  lemma ThrottleBound(attempts: seq<Attempt>, from: Instant)
    requires Serial(attempts)
    ensures FailuresIn(Replay(attempts).times, from) <= 8
  {
    ReplayConsistent(attempts);
    AtMostEight(Replay(attempts).times, Replay(attempts).counts, from);
  }

  function At(t: Instant): Attempt {
    Attempt(t, t)
  }

  /** Three failures at the end of one window and five at the start of the next. */
  function WorstCase(): seq<Attempt> {
    [At(0), At(WINDOW - 1), At(WINDOW - 1), At(WINDOW - 1), At(WINDOW), At(WINDOW), At(WINDOW), At(WINDOW), At(WINDOW)]
  }

  lemma WorstCaseOpening()
    ensures Replay(WorstCase()[..2]) == History(Some(Row(2, 0, None)), [0, WINDOW - 1], [1, 2])
  {
    var s := WorstCase();
    PrefixStep(s, 0);
    assert Replay(s[..1]) == History(Some(Row(1, 0, None)), [0], [1]);
    PrefixStep(s, 1);
  }

  lemma WorstCaseFirstWindow()
    ensures var W := WINDOW;
            Replay(WorstCase()[..5]) == History(Some(Row(1, W, None)), [0, W - 1, W - 1, W - 1, W], [1, 2, 3, 4, 1])
  {
    var s, W := WorstCase(), WINDOW;
    WorstCaseOpening();
    PrefixStep(s, 2);
    assert Replay(s[..3]) == History(Some(Row(3, 0, None)), [0, W - 1, W - 1], [1, 2, 3]);
    PrefixStep(s, 3);
    assert Replay(s[..4]) == History(Some(Row(4, 0, None)), [0, W - 1, W - 1, W - 1], [1, 2, 3, 4]);
    PrefixStep(s, 4);
  }

  lemma WorstCaseTimes()
    ensures var W := WINDOW; Replay(WorstCase()).times == [0, W - 1, W - 1, W - 1, W, W, W, W, W]
  {
    var s, W := WorstCase(), WINDOW;
    WorstCaseFirstWindow();
    PrefixStep(s, 5);
    assert Replay(s[..6]).row == Some(Row(2, W, None));
    PrefixStep(s, 6);
    assert Replay(s[..7]).row == Some(Row(3, W, None));
    PrefixStep(s, 7);
    assert Replay(s[..8]).row == Some(Row(4, W, None));
    PrefixStep(s, 8);
    assert s[..9] == s;
  }

  lemma {:induction false} AllRecent(times: seq<Instant>, from: Instant, m: nat)
    requires m <= |times|
    requires forall i :: 0 <= i < m ==> times[i] < from
    requires forall i :: m <= i < |times| ==> from <= times[i] < from + WINDOW
    ensures FailuresIn(times, from) == |times| - m
  {
    if times != [] {
      AllRecent(times[..|times| - 1], from, if m < |times| then m else m - 1);
    }
  }

  /** The bound is attained. */
  lemma ThrottleBoundIsTight()
    ensures Serial(WorstCase()) && FailuresIn(Replay(WorstCase()).times, WINDOW - 1) == 8
  {
    WorstCaseTimes();
    AllRecent(Replay(WorstCase()).times, WINDOW - 1, 1);
  }

  lemma PrefixStep(s: seq<Attempt>, k: nat)
    requires k < |s|
    ensures Replay(s[..k + 1]) == Handle(Replay(s[..k]), s[k])
  {
    assert s[..k + 1][..k] == s[..k];
  }

  // ----- the table and the login handlers -----

  datatype Login = Login(scope: string, username: string, source: string)

  datatype Response = TooManyAttempts(retryAfter: int) | InvalidCredentials | LoggedIn

  class LoginFailures {
    var rows: map<Login, Row>

    ghost function RowOf(login: Login): Option<Row>
      reads this
    {
      if login in rows then Some(rows[login]) else None
    }

    constructor ()
      ensures rows == map[]
    {
      rows := map[];
    }

    method LoginRetryAfter(login: Login, now: Instant) returns (seconds: int)
      ensures seconds == RetryAfter(RowOf(login), now)
    {
      if login !in rows {
        return 0;
      }
      seconds := RetryAfter(Some(rows[login]), now);
    }

    method RecordLoginFailure(login: Login, now: Instant)
      modifies this
      ensures rows == old(rows)[login := Record(old(RowOf(login)), now)]
    {
      var failures, first := 1, now;
      if login in rows && now - rows[login].first < WINDOW {
        failures := rows[login].failures + 1;
        first := rows[login].first;
      }
      rows := rows[login := Row(failures, first, if failures >= MAX_FAILURES then Some(now + WINDOW) else None)];
    }

    method ClearLoginFailures(login: Login)
      modifies this
      ensures rows == old(rows) - {login}
    {
      rows := rows - {login};
    }

    /** The order of checks in both login handlers: limit, password, then record or clear. */
    method HandleLogin(login: Login, passwordOk: bool, check: Instant, record: Instant) returns (r: Response)
      modifies this
      ensures r.TooManyAttempts? <==> RetryAfter(old(RowOf(login)), check) != 0
      ensures r.TooManyAttempts? ==> 1 <= r.retryAfter && rows == old(rows)
      ensures r.InvalidCredentials? ==> !passwordOk && rows == old(rows)[login := Record(old(RowOf(login)), record)]
      ensures r.LoggedIn? ==> passwordOk && rows == old(rows) - {login}
      ensures !passwordOk ==> forall times, counts ::
                  RowOf(login) == Handle(History(old(RowOf(login)), times, counts), Attempt(check, record)).row
    {
      var wait := LoginRetryAfter(login, check);
      if wait != 0 {
        if login in rows && rows[login].blockedUntil.Some? {
          BlockSpan(rows[login], check);
        }
        return TooManyAttempts(wait);
      }
      if !passwordOk {
        RecordLoginFailure(login, record);
        return InvalidCredentials;
      }
      ClearLoginFailures(login);
      r := LoggedIn;
    }
  }
}
