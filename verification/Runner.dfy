/**
 The runner (runner.py). Processes, files and clocks are replaced by what the code observes of them:
 the polls of a running case, its exit, and the clock and cancellation answers between cases.
 */
module Runner {
  import opened Common
  import opened Results

  const SIGXFSZ := 25

  datatype Limits = Limits(stdoutLimit: nat, stderrLimit: nat)

  datatype CaseSpec = CaseSpec(input: string, timeLimit: nat, memory: nat)

  /** One turn of the polling loop, while the process is alive. */
  datatype Poll = Poll(elapsedMs: nat, rssKib: Option<nat>, cancel: bool, stdoutSize: nat, stderrSize: nat)

  /**
   After the process is gone. The local runner may see one last RSS sample and never reports an
   out-of-memory kill; the sandboxed one asks its cgroup and takes no last sample.
   */
  datatype Exit = Exit(
    returnCode: int, elapsedMs: nat, lateRssKib: Option<nat>, oomKilled: bool,
    stdoutSize: nat, stderrSize: nat, stdout: string, stderr: string, memoryMessage: bool)

  datatype Observation = Observation(polls: seq<Poll>, exit: Exit)

  // ----- the verdict on one case -----

  /** The checks of one poll, in the order they are made. */
  function Trigger(limits: Limits, spec: CaseSpec, p: Poll): Option<Status> {
    if p.cancel then Some(Cancelled)
    else if p.stdoutSize > limits.stdoutLimit || p.stderrSize > limits.stderrLimit then Some(OutputLimit)
    else if p.rssKib.Some? && p.rssKib.value > spec.memory * 1024 then Some(MemoryLimit)
    else if p.elapsedMs >= spec.timeLimit then Some(TimeLimit)
    else None
  }

  /** The first poll that stops the case; |polls| when none does. */
  function StopIndex(limits: Limits, spec: CaseSpec, polls: seq<Poll>): (n: nat)
    ensures n <= |polls|
    ensures forall i :: 0 <= i < n ==> Trigger(limits, spec, polls[i]).None?
    ensures n < |polls| ==> Trigger(limits, spec, polls[n]).Some?
  {
    if polls == [] || Trigger(limits, spec, polls[0]).Some? then 0
    else 1 + StopIndex(limits, spec, polls[1..])
  }

  function Cut(limits: Limits, e: Exit): bool {
    e.stdoutSize > limits.stdoutLimit || e.stderrSize > limits.stderrLimit
  }

  /** The verdict on a process that ended on its own. */
  function ExitVerdict(limits: Limits, e: Exit): Status {
    if e.oomKilled then MemoryLimit
    else if Cut(limits, e) || e.returnCode == -SIGXFSZ then OutputLimit
    else if e.returnCode == 0 then Completed
    else if e.memoryMessage then MemoryLimit
    else RuntimeError
  }

  function Verdict(limits: Limits, spec: CaseSpec, o: Observation): Status {
    var n := StopIndex(limits, spec, o.polls);
    if n < |o.polls| then Trigger(limits, spec, o.polls[n]).value else ExitVerdict(limits, o.exit)
  }

  function Raise(peak: nat, sample: Option<nat>): nat {
    if sample.Some? then Max(peak, sample.value) else peak
  }

  function Peak(polls: seq<Poll>): nat {
    if polls == [] then 0 else Raise(Peak(polls[..|polls| - 1]), polls[|polls| - 1].rssKib)
  }

  /** The largest RSS sample among the polls made, the stopping one included, and the last one. */
  function PeakSeen(limits: Limits, spec: CaseSpec, o: Observation): nat {
    var n := StopIndex(limits, spec, o.polls);
    Raise(Peak(o.polls[..if n < |o.polls| then n + 1 else n]), o.exit.lateRssKib)
  }

  function CaseOutcome(limits: Limits, spec: CaseSpec, position: nat, o: Observation): CaseResult {
    var status := Verdict(limits, spec, o);
    var code := o.exit.returnCode;
    CaseResult(position, status, o.exit.stdout, o.exit.stderr,
               if code >= 0 then Some(code) else None, if code < 0 then Some(-code) else None,
               Some(o.exit.elapsedMs), Some(PeakSeen(limits, spec, o)),
               Cut(limits, o.exit) || status.OutputLimit?)
  }

  lemma StopsAt(limits: Limits, spec: CaseSpec, polls: seq<Poll>, n: nat)
    requires n <= |polls| && (forall i :: 0 <= i < n ==> Trigger(limits, spec, polls[i]).None?)
    requires n < |polls| ==> Trigger(limits, spec, polls[n]).Some?
    ensures StopIndex(limits, spec, polls) == n
  {
  }

  /** The polling loop both runners share: it ends at the first poll that stops the case, or with the process. */
  method Watch(limits: Limits, spec: CaseSpec, polls: seq<Poll>) returns (status: Status, peak: nat)
    ensures var n := StopIndex(limits, spec, polls);
            && status == (if n < |polls| then Trigger(limits, spec, polls[n]).value else Running)
            && peak == Peak(polls[..if n < |polls| then n + 1 else n])
  {
    peak := 0;
    status := Running;
    var k := 0;
    while k < |polls| && status.Running?
      invariant 0 <= k <= |polls|
      invariant status.Running? ==> forall i :: 0 <= i < k ==> Trigger(limits, spec, polls[i]).None?
      invariant !status.Running? ==>
                  && 0 < k && StopIndex(limits, spec, polls) == k - 1
                  && Trigger(limits, spec, polls[k - 1]) == Some(status)
      invariant peak == Peak(polls[..k])
      decreases |polls| - k, if status.Running? then 1 else 0
    {
      var p := polls[k];
      assert polls[..k + 1][..k] == polls[..k];
      if p.rssKib.Some? {
        peak := Max(peak, p.rssKib.value);
      }
      if p.cancel {
        status := Cancelled;
      } else if p.stdoutSize > limits.stdoutLimit {
        status := OutputLimit;
      } else if p.stderrSize > limits.stderrLimit {
        status := OutputLimit;
      } else if p.rssKib.Some? && p.rssKib.value > spec.memory * 1024 {
        status := MemoryLimit;
      } else if p.elapsedMs >= spec.timeLimit {
        status := TimeLimit;
      }
      if !status.Running? {
        StopsAt(limits, spec, polls, k);
      }
      k := k + 1;
    }
    if status.Running? {
      StopsAt(limits, spec, polls, |polls|);
    }
  }

  // ----- the verdicts, told from what was observed -----

  predicate TooMuchOutput(limits: Limits, stdoutSize: nat, stderrSize: nat) {
    limits.stdoutLimit < stdoutSize || limits.stderrLimit < stderrSize
  }

  predicate TooMuchMemory(spec: CaseSpec, p: Poll) {
    p.rssKib.Some? && 1024 * spec.memory < p.rssKib.value
  }

  /** A poll that ends the case. */
  predicate Stops(limits: Limits, spec: CaseSpec, p: Poll) {
    || p.cancel || TooMuchOutput(limits, p.stdoutSize, p.stderrSize) || TooMuchMemory(spec, p)
    || spec.timeLimit <= p.elapsedMs
  }

  ghost predicate Undisturbed(limits: Limits, spec: CaseSpec, polls: seq<Poll>) {
    forall i :: 0 <= i < |polls| ==> !Stops(limits, spec, polls[i])
  }

  /** Poll n is the first that ends the case. */
  ghost predicate StoppedAt(limits: Limits, spec: CaseSpec, polls: seq<Poll>, n: nat) {
    n < |polls| && Stops(limits, spec, polls[n]) && Undisturbed(limits, spec, polls[..n])
  }

  /** The process ended on its own, was not killed for memory, and wrote no more than it may. */
  ghost predicate EndedInside(limits: Limits, spec: CaseSpec, o: Observation) {
    && Undisturbed(limits, spec, o.polls) && !o.exit.oomKilled
    && !TooMuchOutput(limits, o.exit.stdoutSize, o.exit.stderrSize) && o.exit.returnCode != -25
  }

  ghost predicate CancelledBy(limits: Limits, spec: CaseSpec, o: Observation) {
    exists n: nat :: StoppedAt(limits, spec, o.polls, n) && o.polls[n].cancel
  }

  ghost predicate OutputStopped(limits: Limits, spec: CaseSpec, o: Observation) {
    || (exists n: nat :: StoppedAt(limits, spec, o.polls, n) && !o.polls[n].cancel
                         && TooMuchOutput(limits, o.polls[n].stdoutSize, o.polls[n].stderrSize))
    || (Undisturbed(limits, spec, o.polls) && !o.exit.oomKilled
        && (TooMuchOutput(limits, o.exit.stdoutSize, o.exit.stderrSize) || o.exit.returnCode == -25))
  }

  ghost predicate MemoryStopped(limits: Limits, spec: CaseSpec, o: Observation) {
    || (exists n: nat :: StoppedAt(limits, spec, o.polls, n) && !o.polls[n].cancel && TooMuchMemory(spec, o.polls[n])
                         && !TooMuchOutput(limits, o.polls[n].stdoutSize, o.polls[n].stderrSize))
    || (Undisturbed(limits, spec, o.polls) && o.exit.oomKilled)
    || (EndedInside(limits, spec, o) && o.exit.returnCode != 0 && o.exit.memoryMessage)
  }

  ghost predicate TimeStopped(limits: Limits, spec: CaseSpec, o: Observation) {
    exists n: nat :: StoppedAt(limits, spec, o.polls, n) && !o.polls[n].cancel && !TooMuchMemory(spec, o.polls[n])
                     && !TooMuchOutput(limits, o.polls[n].stdoutSize, o.polls[n].stderrSize)
  }

  /** One condition for each verdict. */
  ghost predicate Judged(limits: Limits, spec: CaseSpec, o: Observation, status: Status) {
    && (status.Cancelled? <==> CancelledBy(limits, spec, o))
    && (status.OutputLimit? <==> OutputStopped(limits, spec, o))
    && (status.MemoryLimit? <==> MemoryStopped(limits, spec, o))
    && (status.TimeLimit? <==> TimeStopped(limits, spec, o))
    && (status.Completed? <==> EndedInside(limits, spec, o) && o.exit.returnCode == 0)
    && (status.RuntimeError? <==> EndedInside(limits, spec, o) && o.exit.returnCode != 0 && !o.exit.memoryMessage)
  }

  lemma TriggerIffStops(limits: Limits, spec: CaseSpec, p: Poll)
    ensures Trigger(limits, spec, p).Some? <==> Stops(limits, spec, p)
  {
  }

  /** The first poll that stops the case is the only one that is first. */
  lemma OneStop(limits: Limits, spec: CaseSpec, polls: seq<Poll>)
    ensures var n := StopIndex(limits, spec, polls);
            && (n == |polls| <==> Undisturbed(limits, spec, polls))
            && (n < |polls| ==> StoppedAt(limits, spec, polls, n))
            && forall m: nat :: StoppedAt(limits, spec, polls, m) ==> m == n
  {
    var n := StopIndex(limits, spec, polls);
    forall i | 0 <= i < |polls|
      ensures Trigger(limits, spec, polls[i]).Some? <==> Stops(limits, spec, polls[i])
    {
      TriggerIffStops(limits, spec, polls[i]);
    }
    forall m: nat | StoppedAt(limits, spec, polls, m)
      ensures m == n
    {
      assert forall i :: 0 <= i < m ==> !Stops(limits, spec, polls[..m][i]);
      StopsAt(limits, spec, polls, m);
    }
  }

  lemma StoppedVerdict(limits: Limits, spec: CaseSpec, o: Observation)
    requires StopIndex(limits, spec, o.polls) < |o.polls|
    ensures Judged(limits, spec, o, Verdict(limits, spec, o))
  {
    OneStop(limits, spec, o.polls);
    assert StoppedAt(limits, spec, o.polls, StopIndex(limits, spec, o.polls));
  }

  lemma EndedVerdict(limits: Limits, spec: CaseSpec, o: Observation)
    requires StopIndex(limits, spec, o.polls) == |o.polls|
    ensures Judged(limits, spec, o, Verdict(limits, spec, o))
  {
    OneStop(limits, spec, o.polls);
  }

  /** Each verdict is given exactly when its condition holds. */
  lemma VerdictIff(limits: Limits, spec: CaseSpec, position: nat, o: Observation)
    ensures Judged(limits, spec, o, CaseOutcome(limits, spec, position, o).status)
  {
    if StopIndex(limits, spec, o.polls) < |o.polls| {
      StoppedVerdict(limits, spec, o);
    } else {
      EndedVerdict(limits, spec, o);
    }
  }

  /** A sample that was taken: at a poll up to the stopping one, or after the process was gone. */
  ghost predicate Sampled(limits: Limits, spec: CaseSpec, o: Observation, kib: nat) {
    || o.exit.lateRssKib == Some(kib)
    || exists i: nat :: i < |o.polls| && o.polls[i].rssKib == Some(kib) && Undisturbed(limits, spec, o.polls[..i])
  }

  lemma {:induction false} PeakIsLargest(polls: seq<Poll>)
    ensures forall i :: 0 <= i < |polls| && polls[i].rssKib.Some? ==> polls[i].rssKib.value <= Peak(polls)
    ensures Peak(polls) == 0 || exists i :: 0 <= i < |polls| && polls[i].rssKib == Some(Peak(polls))
  {
    if polls != [] {
      var n := |polls| - 1;
      PeakIsLargest(polls[..n]);
      assert forall i :: 0 <= i < n ==> polls[..n][i] == polls[i];
    }
  }

  /** The polls made are those before the first that stops the case, and that one. */
  lemma PollsMade(limits: Limits, spec: CaseSpec, polls: seq<Poll>, i: nat)
    requires i < |polls|
    ensures var n := StopIndex(limits, spec, polls);
            Undisturbed(limits, spec, polls[..i]) <==> i <= n
  {
    var n := StopIndex(limits, spec, polls);
    OneStop(limits, spec, polls);
    if i <= n {
      forall k | 0 <= k < i
        ensures !Stops(limits, spec, polls[..i][k])
      {
        TriggerIffStops(limits, spec, polls[k]);
      }
    } else {
      assert polls[..i][n] == polls[n];
    }
  }

  /** The reported peak is the largest sample taken, zero when there was none. */
  lemma PeakIff(limits: Limits, spec: CaseSpec, o: Observation)
    ensures forall kib: nat :: Sampled(limits, spec, o, kib) ==> kib <= PeakSeen(limits, spec, o)
    ensures PeakSeen(limits, spec, o) == 0 || Sampled(limits, spec, o, PeakSeen(limits, spec, o))
  {
    var n := StopIndex(limits, spec, o.polls);
    var made := o.polls[..if n < |o.polls| then n + 1 else n];
    PeakIsLargest(made);
    forall i: nat | i < |o.polls|
      ensures Undisturbed(limits, spec, o.polls[..i]) <==> i < |made|
    {
      PollsMade(limits, spec, o.polls, i);
    }
    assert forall i :: 0 <= i < |made| ==> made[i] == o.polls[i];
  }

  /** Watch the process, then judge how it ended. */
  method WatchAndJudge(limits: Limits, spec: CaseSpec, position: nat, o: Observation) returns (r: CaseResult)
    ensures r == CaseOutcome(limits, spec, position, o)
  {
    var status, peak := Watch(limits, spec, o.polls);
    if o.exit.lateRssKib.Some? {
      peak := Max(peak, o.exit.lateRssKib.value);
    }
    var stdoutCut := o.exit.stdoutSize > limits.stdoutLimit;
    var stderrCut := o.exit.stderrSize > limits.stderrLimit;
    if status.Running? {
      if o.exit.oomKilled {
        status := MemoryLimit;
      } else if stdoutCut || stderrCut || o.exit.returnCode == -SIGXFSZ {
        status := OutputLimit;
      } else if o.exit.returnCode == 0 {
        status := Completed;
      } else if o.exit.memoryMessage {
        status := MemoryLimit;
      } else {
        status := RuntimeError;
      }
    }
    r := CaseResult(position, status, o.exit.stdout, o.exit.stderr,
                    if o.exit.returnCode >= 0 then Some(o.exit.returnCode) else None,
                    if o.exit.returnCode < 0 then Some(-o.exit.returnCode) else None,
                    Some(o.exit.elapsedMs), Some(peak), stdoutCut || stderrCut || status.OutputLimit?);
  }

  /** `_run_case`: one case, from start to result. */
  method RunCase(limits: Limits, spec: CaseSpec, position: nat, o: Observation) returns (r: CaseResult)
    ensures r == CaseOutcome(limits, spec, position, o)
    ensures Judged(limits, spec, o, r.status)
    ensures Terminal(r.status) && !r.status.CompileError? && !r.status.SystemError?
    ensures r.position == position && r.stdout == o.exit.stdout && r.stderr == o.exit.stderr
    ensures 0 <= o.exit.returnCode ==> r.exitCode == Some(o.exit.returnCode) && r.termSignal.None?
    ensures o.exit.returnCode < 0 ==> r.termSignal == Some(-o.exit.returnCode) && r.exitCode.None?
    ensures r.truncated <==> r.status.OutputLimit? || TooMuchOutput(limits, o.exit.stdoutSize, o.exit.stderrSize)
    ensures r.wallMs == Some(o.exit.elapsedMs) && r.peakKib.Some? && 0 <= r.peakKib.value
    ensures forall kib: nat :: Sampled(limits, spec, o, kib) ==> kib <= r.peakKib.value
    ensures r.peakKib.value == 0 || Sampled(limits, spec, o, r.peakKib.value)
  {
    VerdictIff(limits, spec, position, o);
    PeakIff(limits, spec, o);
    r := WatchAndJudge(limits, spec, position, o);
  }

  // ----- the verdict on the compilation -----

  /** A finished compiler process; the local runner has no out-of-memory signal. */
  datatype CompileRun = CompileRun(
    returnCode: int, timedOut: bool, oomKilled: bool, elapsedMs: nat, stdout: string, stderr: string, cut: bool)

  /** `_compile`: the return code is passed on as it is, negative when a signal ended the compiler. */
  function CompileOutcome(c: CompileRun): CompileResult {
    var status := if c.timedOut || c.oomKilled then SystemError else if c.returnCode != 0 then CompileError
                  else Completed;
    CompileResult(status, c.stdout, c.stderr, Some(c.returnCode), Some(c.elapsedMs), c.cut)
  }

  /** A compilation fails for its own reasons exactly when it ends on its own with a code other than zero. */
  lemma CompileIff(c: CompileRun)
    ensures var r := CompileOutcome(c);
            && (r.status.SystemError? <==> c.timedOut || c.oomKilled)
            && (r.status.CompileError? <==> !c.timedOut && !c.oomKilled && c.returnCode != 0)
            && (r.status.Completed? <==> !c.timedOut && !c.oomKilled && c.returnCode == 0)
            && r.exitCode == Some(c.returnCode) && r.wallMs == Some(c.elapsedMs)
            && r.stdout == c.stdout && r.stderr == c.stderr && r.truncated == c.cut
  {
  }

  // ----- one submission -----

  /**
   What a submission meets: the answers to `cancel_check`, the clock at each remaining-time check,
   what each case would show when run with a given limit, and when that run would end (seconds).
   */
  datatype Env = Env(
    limits: Limits, deadline: real,
    cancelled: nat -> bool, clock: nat -> real,
    observe: (nat, CaseSpec) -> Observation, ends: (nat, CaseSpec) -> real)

  const CANCELLED := "cancelled by user or administrator"
  const WALL_LIMIT := "submission wall limit reached"

  /** `int(max(0, deadline - now) * 1000)`. */
  function RemainingMs(env: Env, i: nat): nat {
    var left := env.deadline - env.clock(i);
    if left <= 0.0 then 0 else (left * 1000.0).Floor
  }

  function EffectiveSpec(env: Env, spec: CaseSpec, i: nat): CaseSpec {
    spec.(timeLimit := Min(spec.timeLimit, RemainingMs(env, i)))
  }

  function OutcomeAt(env: Env, spec: CaseSpec, i: nat): CaseResult {
    CaseOutcome(env.limits, EffectiveSpec(env, spec, i), i, env.observe(i, EffectiveSpec(env, spec, i)))
  }

  /** Cases first..last, not run. */
  function Skipped(first: nat, last: nat, reason: string): (r: seq<CaseResult>)
    requires first <= last + 1
    ensures |r| == last + 1 - first
    ensures forall k :: 0 <= k < |r| ==> r[k] == NotRun(first + k, reason)
  {
    seq(last + 1 - first, k requires 0 <= k => NotRun(first + k, reason))
  }

  /** What the loop of `execute` yields from case i on: the final status and the results. */
  function CasesFrom(env: Env, cases: seq<CaseSpec>, i: nat): (Status, seq<CaseResult>)
    requires 1 <= i <= |cases| + 1
    decreases |cases| + 1 - i
  {
    if i == |cases| + 1 then (Completed, [])
    else if env.cancelled(i) then (Cancelled, Skipped(i, |cases|, CANCELLED))
    else if RemainingMs(env, i) <= 0 then (Completed, Skipped(i, |cases|, WALL_LIMIT))
    else
      var r := OutcomeAt(env, cases[i - 1], i);
      if r.status.Cancelled? then (Cancelled, [r] + Skipped(i + 1, |cases|, CANCELLED))
      else
        var (status, rest) := CasesFrom(env, cases, i + 1);
        (status, [r] + rest)
  }

  /** The cases that are really run, from case i on. */
  function RunFrom(env: Env, cases: seq<CaseSpec>, i: nat): seq<nat>
    requires 1 <= i <= |cases| + 1
    decreases |cases| + 1 - i
  {
    if i == |cases| + 1 || env.cancelled(i) || RemainingMs(env, i) <= 0 then []
    else if OutcomeAt(env, cases[i - 1], i).status.Cancelled? then [i]
    else [i] + RunFrom(env, cases, i + 1)
  }

  function Execution(env: Env, approved: bool, compile: CompileResult, cases: seq<CaseSpec>): ExecutionResult {
    if !approved then
      ExecutionResult(SystemError, CompileResult(SystemError, "", "compiler ID is not approved", None, Some(0), false),
                      [])
    else if !compile.status.Completed? then ExecutionResult(compile.status, compile, [])
    else
      var (status, results) := CasesFrom(env, cases, 1);
      ExecutionResult(status, compile, results)
  }

  // ----- the execution, told case by case -----

  function Left(env: Env, k: nat): real {
    env.deadline - env.clock(k)
  }

  /** Nobody asked to stop, and a millisecond or more is left. */
  predicate Open(env: Env, k: nat) {
    !env.cancelled(k) && 0.001 <= Left(env, k)
  }

  lemma OpenIff(env: Env, k: nat)
    ensures 0 < RemainingMs(env, k) <==> 0.001 <= Left(env, k)
  {
    var left := Left(env, k);
    assert 0.001 <= left <==> 1.0 <= left * 1000.0;
  }

  /** A case gets its own limit, or the whole milliseconds left when those are fewer, and is judged by what it gets. */
  lemma LimitGiven(env: Env, spec: CaseSpec, i: nat)
    ensures var given := EffectiveSpec(env, spec, i);
            && given == spec.(timeLimit := given.timeLimit) && given.timeLimit <= spec.timeLimit
            && (0.0 <= Left(env, i) ==>
                  && given.timeLimit as real <= Left(env, i) * 1000.0
                  && (given.timeLimit == spec.timeLimit || Left(env, i) * 1000.0 < given.timeLimit as real + 1.0))
            && OutcomeAt(env, spec, i).position == i
            && Judged(env.limits, given, env.observe(i, given), OutcomeAt(env, spec, i).status)
  {
    var given := EffectiveSpec(env, spec, i);
    VerdictIff(env.limits, given, i, env.observe(i, given));
  }

  /** The case is run, and not cancelled while it runs. */
  predicate Passed(env: Env, cases: seq<CaseSpec>, k: nat)
    requires 1 <= k <= |cases|
  {
    Open(env, k) && !OutcomeAt(env, cases[k - 1], k).status.Cancelled?
  }

  /** Of the cases from i on, n is the first that does not pass; one past the last when all do. */
  ghost predicate EndsAt(env: Env, cases: seq<CaseSpec>, i: nat, n: nat)
    requires 1 <= i
  {
    && i <= n <= |cases| + 1
    && (forall k :: i <= k < n ==> Passed(env, cases, k))
    && (n <= |cases| ==> !Passed(env, cases, n))
  }

  /** The loop is stopped at case n by a request: seen before the case, or while it ran. */
  predicate StopSeen(env: Env, cases: seq<CaseSpec>, n: nat) {
    n <= |cases| && (env.cancelled(n) || Open(env, n))
  }

  /** The record of a case that was never run. */
  predicate LeftOut(r: CaseResult, k: nat, why: string) {
    r == CaseResult(k, Cancelled, "", why, None, None, Some(0), None, false)
  }

  /** Case k was run when it came before n, or when n itself was started; else it says what ended the loop. */
  predicate ResultOf(env: Env, cases: seq<CaseSpec>, n: nat, k: nat, r: CaseResult)
    requires 1 <= k <= |cases|
  {
    if k < n || (k == n && Open(env, n)) then r == OutcomeAt(env, cases[k - 1], k)
    else LeftOut(r, k, if StopSeen(env, cases, n) then "cancelled by user or administrator"
                 else "submission wall limit reached")
  }

  ghost predicate ToldTo(env: Env, cases: seq<CaseSpec>, i: nat, n: nat, status: Status, results: seq<CaseResult>)
    requires 1 <= i <= |cases| + 1
  {
    && status == (if StopSeen(env, cases, n) then Cancelled else Completed)
    && |results| == |cases| + 1 - i
    && forall m :: 0 <= m < |results| ==> ResultOf(env, cases, n, i + m, results[m])
  }

  ghost predicate Executed(env: Env, cases: seq<CaseSpec>, i: nat, status: Status, results: seq<CaseResult>)
    requires 1 <= i <= |cases| + 1
  {
    exists n :: EndsAt(env, cases, i, n) && ToldTo(env, cases, i, n, status, results)
  }

  /** A case that passes comes before what the others yield. */
  lemma RunThenRest(env: Env, cases: seq<CaseSpec>, i: nat, n: nat, status: Status, rest: seq<CaseResult>)
    requires 1 <= i <= |cases| && Passed(env, cases, i)
    requires EndsAt(env, cases, i + 1, n) && ToldTo(env, cases, i + 1, n, status, rest)
    ensures EndsAt(env, cases, i, n) && ToldTo(env, cases, i, n, status, [OutcomeAt(env, cases[i - 1], i)] + rest)
  {
    var results := [OutcomeAt(env, cases[i - 1], i)] + rest;
    forall m | 0 <= m < |results|
      ensures ResultOf(env, cases, n, i + m, results[m])
    {
      assert m == 0 || ResultOf(env, cases, n, i + 1 + (m - 1), rest[m - 1]);
    }
  }

  lemma {:induction false} CasesExecuted(env: Env, cases: seq<CaseSpec>, i: nat)
    requires 1 <= i <= |cases| + 1
    ensures Executed(env, cases, i, CasesFrom(env, cases, i).0, CasesFrom(env, cases, i).1)
    decreases |cases| + 1 - i
  {
    var (ended, all) := CasesFrom(env, cases, i);
    if i == |cases| + 1 {
      assert EndsAt(env, cases, i, i);
    } else {
      OpenIff(env, i);
      if Passed(env, cases, i) {
        CasesExecuted(env, cases, i + 1);
        var (status, rest) := CasesFrom(env, cases, i + 1);
        var n :| EndsAt(env, cases, i + 1, n) && ToldTo(env, cases, i + 1, n, status, rest);
        RunThenRest(env, cases, i, n, status, rest);
      } else {
        assert EndsAt(env, cases, i, i) && ToldTo(env, cases, i, i, ended, all);
      }
    }
  }

  /** The whole execution: refused, not compiled, or told case by case. */
  ghost predicate ExecutionAnswer(env: Env, approved: bool, compile: CompileResult, cases: seq<CaseSpec>,
                                  e: ExecutionResult) {
    if !approved then
      e.status.SystemError? && e.cases == [] && e.compile.status.SystemError?
      && e.compile.stderr == "compiler ID is not approved" && e.compile.exitCode.None?
    else if !compile.status.Completed? then e == ExecutionResult(compile.status, compile, [])
    else e.compile == compile && Executed(env, cases, 1, e.status, e.cases)
  }

  lemma ExecutionIff(env: Env, approved: bool, compile: CompileResult, cases: seq<CaseSpec>)
    ensures ExecutionAnswer(env, approved, compile, cases, Execution(env, approved, compile, cases))
  {
    CasesExecuted(env, cases, 1);
  }

  lemma Shift(done: seq<CaseResult>, r: CaseResult, rest: seq<CaseResult>)
    ensures done + ([r] + rest) == (done + [r]) + rest
  {
  }

  lemma CaseRuns(env: Env, cases: seq<CaseSpec>, i: nat, r: CaseResult)
    requires 1 <= i <= |cases| && !env.cancelled(i) && RemainingMs(env, i) > 0 && r == OutcomeAt(env, cases[i - 1], i)
    ensures CasesFrom(env, cases, i) ==
            if r.status.Cancelled? then (Cancelled, [r] + Skipped(i + 1, |cases|, CANCELLED))
            else (CasesFrom(env, cases, i + 1).0, [r] + CasesFrom(env, cases, i + 1).1)
  {
  }

  lemma OneMoreCase(env: Env, cases: seq<CaseSpec>, i: nat, done: seq<CaseResult>, r: CaseResult)
    requires 1 <= i <= |cases| && !env.cancelled(i) && RemainingMs(env, i) > 0 && r == OutcomeAt(env, cases[i - 1], i)
    ensures r.status.Cancelled? ==>
              CasesFrom(env, cases, i).0 == Cancelled
              && done + CasesFrom(env, cases, i).1 == (done + [r]) + Skipped(i + 1, |cases|, CANCELLED)
    ensures !r.status.Cancelled? ==>
              CasesFrom(env, cases, i).0 == CasesFrom(env, cases, i + 1).0
              && done + CasesFrom(env, cases, i).1 == (done + [r]) + CasesFrom(env, cases, i + 1).1
  {
    CaseRuns(env, cases, i, r);
    Shift(done, r, if r.status.Cancelled? then Skipped(i + 1, |cases|, CANCELLED) else CasesFrom(env, cases, i + 1).1);
  }

  /** `execute`: grow the results one case at a time until the list, the caller or the clock ends it. */
  method Execute(env: Env, approved: bool, compile: CompileResult, cases: seq<CaseSpec>) returns (e: ExecutionResult)
    ensures e == Execution(env, approved, compile, cases)
    ensures ExecutionAnswer(env, approved, compile, cases, e)
  {
    ExecutionIff(env, approved, compile, cases);
    if !approved {
      return ExecutionResult(SystemError,
                             CompileResult(SystemError, "", "compiler ID is not approved", None, Some(0), false), []);
    }
    if !compile.status.Completed? {
      return ExecutionResult(compile.status, compile, []);
    }
    var results: seq<CaseResult> := [];
    ghost var all := CasesFrom(env, cases, 1);
    var index := 1;
    while index <= |cases|
      invariant 1 <= index <= |cases| + 1
      invariant all.0 == CasesFrom(env, cases, index).0
      invariant all.1 == results + CasesFrom(env, cases, index).1
    {
      if env.cancelled(index) {
        return ExecutionResult(Cancelled, compile, results + Skipped(index, |cases|, CANCELLED));
      }
      if RemainingMs(env, index) <= 0 {
        return ExecutionResult(Completed, compile, results + Skipped(index, |cases|, WALL_LIMIT));
      }
      var effective := EffectiveSpec(env, cases[index - 1], index);
      var result := RunCase(env.limits, effective, index, env.observe(index, effective));
      OneMoreCase(env, cases, index, results, result);
      results := results + [result];
      if result.status.Cancelled? {
        return ExecutionResult(Cancelled, compile, results + Skipped(index + 1, |cases|, CANCELLED));
      }
      index := index + 1;
    }
    e := ExecutionResult(Completed, compile, results);
  }

  lemma {:induction false} ResultsInOrder(env: Env, cases: seq<CaseSpec>, i: nat)
    requires 1 <= i <= |cases| + 1
    ensures var (status, results) := CasesFrom(env, cases, i);
            && |results| == |cases| + 1 - i && PositionsFrom(results, i)
            && (status.Completed? || status.Cancelled?)
            && forall k :: 0 <= k < |results| ==> Terminal(results[k].status)
    decreases |cases| + 1 - i
  {
    if i <= |cases| {
      ResultsInOrder(env, cases, i + 1);
    }
  }

  /** A completed compile yields exactly one result per case, at positions 1..n in order; a failed one yields none. */
  lemma ResultsComplete(env: Env, approved: bool, compile: CompileResult, cases: seq<CaseSpec>)
    ensures var e := Execution(env, approved, compile, cases);
            if approved && compile.status.Completed? then
              && |e.cases| == |cases| && PositionsFrom(e.cases, 1)
              && forall k :: 0 <= k < |e.cases| ==> Terminal(e.cases[k].status)
            else e.cases == [] && e.status == e.compile.status
  {
    ResultsInOrder(env, cases, 1);
  }

  /** Every case that is run returns within its effective limit plus `overrun` of its remaining-time check. */
  ghost predicate Punctual(env: Env, cases: seq<CaseSpec>, overrun: real) {
    forall i: nat :: 1 <= i <= |cases| && RemainingMs(env, i) > 0 ==>
                       var effective := EffectiveSpec(env, cases[i - 1], i);
                       env.ends(i, effective) <= env.clock(i) + effective.timeLimit as real / 1000.0 + overrun
  }

  /** However many cases run, each of them, the last included, ends by the deadline plus one overrun. */
  lemma {:induction false} DeadlineWithOneOverrun(env: Env, cases: seq<CaseSpec>, i: nat, overrun: real)
    requires 1 <= i <= |cases| + 1 && Punctual(env, cases, overrun)
    ensures forall c :: c in RunFrom(env, cases, i) ==> 1 <= c <= |cases|
    ensures forall c :: c in RunFrom(env, cases, i) ==>
                          env.ends(c, EffectiveSpec(env, cases[c - 1], c)) <= env.deadline + overrun
    decreases |cases| + 1 - i
  {
    if i <= |cases| {
      DeadlineWithOneOverrun(env, cases, i + 1, overrun);
      var left := env.deadline - env.clock(i);
      var effective := EffectiveSpec(env, cases[i - 1], i);
      if left > 0.0 {
        assert effective.timeLimit <= (left * 1000.0).Floor;
        assert effective.timeLimit as real <= left * 1000.0;
      }
    }
  }

  /** The cases run are a prefix holding their own verdicts; every later result says why it was not run. */
  ghost predicate RanFirst(env: Env, cases: seq<CaseSpec>, i: nat, ran: seq<nat>, results: seq<CaseResult>) {
    && |ran| <= |results| && 1 <= i && i - 1 + |results| == |cases|
    && (forall k :: 0 <= k < |ran| ==> ran[k] == i + k && results[k] == OutcomeAt(env, cases[i + k - 1], i + k))
    && (forall k :: |ran| <= k < |results| ==>
                      results[k] == NotRun(i + k, CANCELLED) || results[k] == NotRun(i + k, WALL_LIMIT))
  }

  lemma RanOneMore(env: Env, cases: seq<CaseSpec>, i: nat, ran: seq<nat>, results: seq<CaseResult>)
    requires 1 <= i <= |cases| && RanFirst(env, cases, i + 1, ran, results)
    ensures RanFirst(env, cases, i, [i] + ran, [OutcomeAt(env, cases[i - 1], i)] + results)
  {
    var ran', results' := [i] + ran, [OutcomeAt(env, cases[i - 1], i)] + results;
    forall k | 0 <= k < |ran'|
      ensures ran'[k] == i + k && results'[k] == OutcomeAt(env, cases[i + k - 1], i + k)
    {
      if k > 0 {
        assert ran[k - 1] == i + 1 + (k - 1)
               && results[k - 1] == OutcomeAt(env, cases[i + 1 + (k - 1) - 1], i + 1 + (k - 1));
      }
    }
    forall k | |ran'| <= k < |results'|
      ensures results'[k] == NotRun(i + k, CANCELLED) || results'[k] == NotRun(i + k, WALL_LIMIT)
    {
      assert results[k - 1] == NotRun(i + 1 + (k - 1), CANCELLED)
             || results[k - 1] == NotRun(i + 1 + (k - 1), WALL_LIMIT);
    }
  }

  lemma {:induction false} RunCasesComeFirst(env: Env, cases: seq<CaseSpec>, i: nat)
    requires 1 <= i <= |cases| + 1
    ensures RanFirst(env, cases, i, RunFrom(env, cases, i), CasesFrom(env, cases, i).1)
    decreases |cases| + 1 - i
  {
    if i <= |cases| && !env.cancelled(i) && RemainingMs(env, i) > 0 {
      var r := OutcomeAt(env, cases[i - 1], i);
      OneMoreCase(env, cases, i, [], r);
      if r.status.Cancelled? {
        RanOneMore(env, cases, i, [], Skipped(i + 1, |cases|, CANCELLED));
        assert RunFrom(env, cases, i) == [i] + [];
      } else {
        RunCasesComeFirst(env, cases, i + 1);
        RanOneMore(env, cases, i, RunFrom(env, cases, i + 1), CasesFrom(env, cases, i + 1).1);
      }
    }
  }
}
