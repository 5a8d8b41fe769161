/** Job and case states (constants.py) and the runner's result records (runner.py). */
module Results {
  import opened Common

  datatype Status =
    | Queued | Compiling | Running
    | Completed | CompileError | RuntimeError | TimeLimit
    | MemoryLimit | OutputLimit | Cancelled | SystemError

  /** TERMINAL_STATES. */
  predicate Terminal(s: Status) {
    !s.Queued? && !s.Compiling? && !s.Running?
  }

  /** States that hold a memory reservation. */
  predicate Active(s: Status) {
    s.Compiling? || s.Running?
  }

  datatype CompileResult = CompileResult(
    status: Status,
    stdout: string,
    stderr: string,
    exitCode: Option<int>,
    wallMs: Option<int>,
    truncated: bool)

  datatype CaseResult = CaseResult(
    position: int,
    status: Status,
    stdout: string,
    stderr: string,
    exitCode: Option<int>,
    termSignal: Option<int>,
    wallMs: Option<int>,
    peakKib: Option<int>,
    truncated: bool)

  datatype ExecutionResult = ExecutionResult(status: Status, compile: CompileResult, cases: seq<CaseResult>)

  /** A case that never ran: `CaseResult(position, "cancelled", stderr=reason)`. */
  function NotRun(position: int, reason: string): CaseResult {
    CaseResult(position, Cancelled, "", reason, None, None, Some(0), None, false)
  }

  /** Results at positions exactly first, first + 1, ... in order. */
  predicate PositionsFrom(results: seq<CaseResult>, first: int) {
    forall i :: 0 <= i < |results| ==> results[i].position == first + i
  }
}
