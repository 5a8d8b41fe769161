/** The exact-schema codec of the control/worker broker (broker.py). `None` stands for ValueError. */
module Wire {
  import opened Common
  import opened Results
  import opened Ledger

  /** Member names the protocol uses, and any other. */
  datatype Name =
    | OpKey | JobIdKey | ExecutionKey | MessageKey
    | StatusKey | CompileKey | CasesKey
    | StdoutKey | StderrKey | ExitCodeKey | WallTimeMsKey | OutputTruncatedKey
    | PositionKey | TermSignalKey | PeakMemoryKibKey
    | IdKey | OwnerPublicIdKey | FilenameKey | SourceKey | CompilerKey
    | TimeLimitMsKey | MemoryLimitMibKey | InputTextKey
    | OkKey | ErrorKey | JobKey | CancelRequestedKey
    | Other(text: string)

  datatype Json =
    | Null
    | Bool(flag: bool)
    | Num(number: int)
    | Str(text: string)
    | Arr(items: seq<Json>)
    | Obj(fields: map<Name, Json>)

  // ----- states as text -----

  function StatusText(s: Status): string {
    match s
    case Queued => "queued"
    case Compiling => "compiling"
    case Running => "running"
    case Completed => "completed"
    case CompileError => "compile_error"
    case RuntimeError => "runtime_error"
    case TimeLimit => "time_limit"
    case MemoryLimit => "memory_limit"
    case OutputLimit => "output_limit"
    case Cancelled => "cancelled"
    case SystemError => "system_error"
  }

  const ALL_STATES := [Queued, Compiling, Running, Completed, CompileError, RuntimeError, TimeLimit, MemoryLimit,
                       OutputLimit, Cancelled, SystemError]

  function FindStatus(states: seq<Status>, text: string): Option<Status> {
    if states == [] then None
    else if StatusText(states[0]) == text then Some(states[0])
    else FindStatus(states[1..], text)
  }

  function StatusOf(text: string): Option<Status> {
    FindStatus(ALL_STATES, text)
  }

  lemma StatusTextInjective(s: Status, r: Status)
    requires StatusText(s) == StatusText(r)
    ensures s == r
  {
    var t := StatusText(s);
    var u := StatusText(r);
    assert |t| == |u| && t[0] == u[0] && t[1] == u[1] && t[3] == u[3];
  }

  lemma {:induction false} FindsStatus(states: seq<Status>, text: string)
    ensures var r := FindStatus(states, text);
            && (r.Some? ==> StatusText(r.value) == text)
            && (r.None? ==> forall s :: s in states ==> StatusText(s) != text)
  {
    if states != [] {
      FindsStatus(states[1..], text);
    }
  }

  lemma StatusRoundTrip(s: Status, text: string)
    ensures StatusOf(text) == Some(s) <==> text == StatusText(s)
  {
    FindsStatus(ALL_STATES, text);
    assert s in ALL_STATES by {
      assert ALL_STATES[0] == Queued && ALL_STATES[1] == Compiling && ALL_STATES[2] == Running;
      assert ALL_STATES[3] == Completed && ALL_STATES[4] == CompileError && ALL_STATES[5] == RuntimeError;
      assert ALL_STATES[6] == TimeLimit && ALL_STATES[7] == MemoryLimit && ALL_STATES[8] == OutputLimit;
      assert ALL_STATES[9] == Cancelled && ALL_STATES[10] == SystemError;
    }
    if StatusOf(text).Some? && text == StatusText(s) {
      StatusTextInjective(StatusOf(text).value, s);
    }
  }

  // ----- validators -----

  function ExactObject(v: Json, names: set<Name>): Option<map<Name, Json>> {
    if v.Obj? && v.fields.Keys == names then Some(v.fields) else None
  }

  function PositiveId(v: Json): Option<int> {
    if v.Num? && 0 < v.number then Some(v.number) else None
  }

  function NullableInt(v: Json): Option<Option<int>> {
    if v.Null? then Some(None)
    else if v.Num? && 0 <= v.number then Some(Some(v.number))
    else None
  }

  function Text(v: Json): Option<string> {
    if v.Str? then Some(v.text) else None
  }

  function Boolean(v: Json): Option<bool> {
    if v.Bool? then Some(v.flag) else None
  }

  function OneOf(v: Json, allowed: Status -> bool): Option<Status> {
    var text :- Text(v);
    var s :- StatusOf(text);
    if allowed(s) then Some(s) else None
  }

  predicate HexDigit(c: char) {
    '0' <= c <= '9' || 'a' <= c <= 'f'
  }

  /** The one spelling `str(uuid.UUID(value))` produces: 8-4-4-4-12 lower-case hexadecimal digits. */
  predicate CanonicalUuid(s: string) {
    |s| == 36 && forall k :: 0 <= k < 36 ==>
                               if k == 8 || k == 13 || k == 18 || k == 23 then s[k] == '-' else HexDigit(s[k])
  }

  function Uuid(v: Json): Option<string> {
    var text :- Text(v);
    if CanonicalUuid(text) then Some(text) else None
  }

  function IntToWire(n: Option<int>): Json {
    if n.None? then Null else Num(n.value)
  }

  // ----- executions -----

  function CompileToWire(c: CompileResult): Json {
    Obj(map[StatusKey := Str(StatusText(c.status)), StdoutKey := Str(c.stdout), StderrKey := Str(c.stderr),
            ExitCodeKey := IntToWire(c.exitCode), WallTimeMsKey := IntToWire(c.wallMs),
            OutputTruncatedKey := Bool(c.truncated)])
  }

  function CaseToWire(c: CaseResult): Json {
    Obj(map[PositionKey := Num(c.position), StatusKey := Str(StatusText(c.status)), StdoutKey := Str(c.stdout),
            StderrKey := Str(c.stderr), ExitCodeKey := IntToWire(c.exitCode), TermSignalKey := IntToWire(c.termSignal),
            WallTimeMsKey := IntToWire(c.wallMs), PeakMemoryKibKey := IntToWire(c.peakKib),
            OutputTruncatedKey := Bool(c.truncated)])
  }

  function CasesToWire(cases: seq<CaseResult>): seq<Json> {
    if cases == [] then [] else CasesToWire(cases[..|cases| - 1]) + [CaseToWire(cases[|cases| - 1])]
  }

  /** `ExecutionResult.to_dict`. */
  function ExecutionToWire(e: ExecutionResult): Json {
    Obj(map[StatusKey := Str(StatusText(e.status)), CompileKey := CompileToWire(e.compile),
            CasesKey := Arr(CasesToWire(e.cases))])
  }

  predicate CompileStatus(s: Status) {
    s.Completed? || s.CompileError? || s.SystemError?
  }

  function CompileFromWire(v: Json): Option<CompileResult> {
    var d :- ExactObject(v, {StatusKey, StdoutKey, StderrKey, ExitCodeKey, WallTimeMsKey, OutputTruncatedKey});
    var status :- OneOf(d[StatusKey], CompileStatus);
    var stdout :- Text(d[StdoutKey]);
    var stderr :- Text(d[StderrKey]);
    var exitCode :- NullableInt(d[ExitCodeKey]);
    var wallMs :- NullableInt(d[WallTimeMsKey]);
    var truncated :- Boolean(d[OutputTruncatedKey]);
    Some(CompileResult(status, stdout, stderr, exitCode, wallMs, truncated))
  }

  function CaseFromWire(v: Json): Option<CaseResult> {
    var d :- ExactObject(v, {PositionKey, StatusKey, StdoutKey, StderrKey, ExitCodeKey, TermSignalKey, WallTimeMsKey,
                             PeakMemoryKibKey, OutputTruncatedKey});
    var position :- PositiveId(d[PositionKey]);
    var status :- OneOf(d[StatusKey], Terminal);
    var stdout :- Text(d[StdoutKey]);
    var stderr :- Text(d[StderrKey]);
    var exitCode :- NullableInt(d[ExitCodeKey]);
    var termSignal :- NullableInt(d[TermSignalKey]);
    var wallMs :- NullableInt(d[WallTimeMsKey]);
    var peakKib :- NullableInt(d[PeakMemoryKibKey]);
    var truncated :- Boolean(d[OutputTruncatedKey]);
    Some(CaseResult(position, status, stdout, stderr, exitCode, termSignal, wallMs, peakKib, truncated))
  }

  function CasesFromWire(items: seq<Json>): Option<seq<CaseResult>> {
    if items == [] then Some([])
    else
      var rest :- CasesFromWire(items[..|items| - 1]);
      var last :- CaseFromWire(items[|items| - 1]);
      Some(rest + [last])
  }

  function ExecutionFromWire(v: Json): Option<ExecutionResult> {
    var d :- ExactObject(v, {StatusKey, CompileKey, CasesKey});
    var status :- OneOf(d[StatusKey], Terminal);
    var compile :- CompileFromWire(d[CompileKey]);
    if !d[CasesKey].Arr? then None
    else
      var cases :- CasesFromWire(d[CasesKey].items);
      Some(ExecutionResult(status, compile, cases))
  }

  lemma {:induction false} BadItemFailsAll(items: seq<Json>, k: nat)
    requires k < |items| && CaseFromWire(items[k]).None?
    ensures CasesFromWire(items).None?
  {
    if k < |items| - 1 {
      BadItemFailsAll(items[..|items| - 1], k);
    }
  }

  /** `_execution_from_wire` as written: validate the head, then append case after case. */
  method DecodeExecution(v: Json) returns (r: Option<ExecutionResult>)
    ensures r == ExecutionFromWire(v)
  {
    var data := ExactObject(v, {StatusKey, CompileKey, CasesKey});
    if data.None? {
      return None;
    }
    var status := OneOf(data.value[StatusKey], Terminal);
    if status.None? {
      return None;
    }
    var compile := CompileFromWire(data.value[CompileKey]);
    if compile.None? || !data.value[CasesKey].Arr? {
      return None;
    }
    var items := data.value[CasesKey].items;
    var cases: seq<CaseResult> := [];
    var k := 0;
    while k < |items|
      invariant 0 <= k <= |items|
      invariant CasesFromWire(items[..k]) == Some(cases)
    {
      var c := CaseFromWire(items[k]);
      if c.None? {
        BadItemFailsAll(items, k);
        return None;
      }
      assert items[..k + 1][..k] == items[..k];
      cases := cases + [c.value];
      k := k + 1;
    }
    assert items[..k] == items;
    r := Some(ExecutionResult(status.value, compile.value, cases));
  }

  // ----- what the schema admits -----

  predicate NonNegative(n: Option<int>) {
    n.Some? ==> 0 <= n.value
  }

  predicate CompileAdmitted(c: CompileResult) {
    CompileStatus(c.status) && NonNegative(c.exitCode) && NonNegative(c.wallMs)
  }

  predicate CaseAdmitted(c: CaseResult) {
    0 < c.position && Terminal(c.status)
    && NonNegative(c.exitCode) && NonNegative(c.termSignal) && NonNegative(c.wallMs) && NonNegative(c.peakKib)
  }

  predicate AllAdmitted(cases: seq<CaseResult>) {
    forall k :: 0 <= k < |cases| ==> CaseAdmitted(cases[k])
  }

  predicate Admitted(e: ExecutionResult) {
    Terminal(e.status) && CompileAdmitted(e.compile) && AllAdmitted(e.cases)
  }

  lemma StatusOnWire(s: Status, allowed: Status -> bool)
    ensures OneOf(Str(StatusText(s)), allowed) == if allowed(s) then Some(s) else None
  {
    StatusRoundTrip(s, StatusText(s));
  }

  lemma StatusOffWire(v: Json, allowed: Status -> bool)
    requires OneOf(v, allowed).Some?
    ensures v == Str(StatusText(OneOf(v, allowed).value)) && allowed(OneOf(v, allowed).value)
  {
    StatusRoundTrip(OneOf(v, allowed).value, v.text);
  }

  lemma CompileRoundTrip(c: CompileResult)
    ensures CompileFromWire(CompileToWire(c)) == if CompileAdmitted(c) then Some(c) else None
  {
    StatusOnWire(c.status, CompileStatus);
    assert CompileToWire(c).fields.Keys
        == {StatusKey, StdoutKey, StderrKey, ExitCodeKey, WallTimeMsKey, OutputTruncatedKey};
  }

  lemma CaseKeys(c: CaseResult)
    ensures CaseToWire(c).fields.Keys
         == {PositionKey, StatusKey, StdoutKey, StderrKey, ExitCodeKey, TermSignalKey, WallTimeMsKey, PeakMemoryKibKey,
             OutputTruncatedKey}
  {
  }

  lemma CaseRoundTrip(c: CaseResult)
    ensures CaseFromWire(CaseToWire(c)) == if CaseAdmitted(c) then Some(c) else None
  {
    StatusOnWire(c.status, Terminal);
    CaseKeys(c);
  }

  lemma DecodeOneMore(items: seq<Json>, item: Json)
    ensures CasesFromWire(items + [item]) ==
            var rest, last := CasesFromWire(items), CaseFromWire(item);
            if rest.None? || last.None? then None else Some(rest.value + [last.value])
  {
    assert (items + [item])[..|items|] == items;
  }

  ghost predicate DecodesTo(items: seq<Json>, cases: seq<CaseResult>) {
    CasesFromWire(items) == if AllAdmitted(cases) then Some(cases) else None
  }

  lemma DecodesOneMore(items: seq<Json>, cases: seq<CaseResult>, item: Json, last: CaseResult)
    requires DecodesTo(items, cases) && CaseFromWire(item) == (if CaseAdmitted(last) then Some(last) else None)
    ensures DecodesTo(items + [item], cases + [last])
  {
    DecodeOneMore(items, item);
    var all := cases + [last];
    assert all[|cases|] == last && forall k :: 0 <= k < |cases| ==> all[k] == cases[k];
    assert AllAdmitted(all) <==> AllAdmitted(cases) && CaseAdmitted(last);
  }

  lemma {:induction false} CasesRoundTrip(cases: seq<CaseResult>)
    ensures DecodesTo(CasesToWire(cases), cases)
  {
    if cases != [] {
      var n := |cases| - 1;
      CasesRoundTrip(cases[..n]);
      CaseRoundTrip(cases[n]);
      DecodesOneMore(CasesToWire(cases[..n]), cases[..n], CaseToWire(cases[n]), cases[n]);
      assert cases == cases[..n] + [cases[n]];
    }
  }

  /** Decoding an encoded execution gives it back exactly when the schema admits it, and is refused otherwise. */
  lemma ExecutionRoundTrip(e: ExecutionResult)
    ensures ExecutionFromWire(ExecutionToWire(e)) == if Admitted(e) then Some(e) else None
  {
    StatusOnWire(e.status, Terminal);
    CompileRoundTrip(e.compile);
    CasesRoundTrip(e.cases);
    assert ExecutionToWire(e).fields.Keys == {StatusKey, CompileKey, CasesKey};
  }

  lemma CompileIsExact(v: Json)
    requires CompileFromWire(v).Some?
    ensures CompileAdmitted(CompileFromWire(v).value) && CompileToWire(CompileFromWire(v).value) == v
  {
    StatusOffWire(v.fields[StatusKey], CompileStatus);
    assert CompileToWire(CompileFromWire(v).value).fields == v.fields;
  }

  /** What the members of a case that passes the schema are. */
  lemma CaseMembers(v: Json)
    requires CaseFromWire(v).Some?
    ensures var c, d := CaseFromWire(v).value, v.fields;
            && CaseAdmitted(c)
            && d.Keys == {PositionKey, StatusKey, StdoutKey, StderrKey, ExitCodeKey, TermSignalKey, WallTimeMsKey,
                          PeakMemoryKibKey, OutputTruncatedKey}
            && d[PositionKey] == Num(c.position) && d[StatusKey] == Str(StatusText(c.status))
            && d[StdoutKey] == Str(c.stdout) && d[StderrKey] == Str(c.stderr)
            && d[ExitCodeKey] == IntToWire(c.exitCode) && d[TermSignalKey] == IntToWire(c.termSignal)
            && d[WallTimeMsKey] == IntToWire(c.wallMs) && d[PeakMemoryKibKey] == IntToWire(c.peakKib)
            && d[OutputTruncatedKey] == Bool(c.truncated)
  {
    StatusOffWire(v.fields[StatusKey], Terminal);
  }

  lemma CaseIsExact(v: Json)
    requires CaseFromWire(v).Some?
    ensures CaseAdmitted(CaseFromWire(v).value) && CaseToWire(CaseFromWire(v).value) == v
  {
    CaseMembers(v);
    CaseKeys(CaseFromWire(v).value);
    assert CaseToWire(CaseFromWire(v).value).fields == v.fields;
  }

  ghost predicate Encodes(items: seq<Json>, cases: seq<CaseResult>) {
    CasesToWire(cases) == items && AllAdmitted(cases)
  }

  lemma EncodesOneMore(items: seq<Json>, cases: seq<CaseResult>, c: CaseResult)
    requires Encodes(items, cases) && CaseAdmitted(c)
    ensures Encodes(items + [CaseToWire(c)], cases + [c])
  {
    assert (cases + [c])[..|cases|] == cases;
  }

  lemma {:induction false} CasesAreExact(items: seq<Json>)
    requires CasesFromWire(items).Some?
    ensures Encodes(items, CasesFromWire(items).value)
  {
    if items != [] {
      var init, item := items[..|items| - 1], items[|items| - 1];
      assert items == init + [item];
      DecodeOneMore(init, item);
      CasesAreExact(init);
      CaseIsExact(item);
      EncodesOneMore(init, CasesFromWire(init).value, CaseFromWire(item).value);
    }
  }

  /** The schema is exact: only encodings of admitted executions are accepted. */
  lemma ExecutionSchemaIsExact(v: Json)
    requires ExecutionFromWire(v).Some?
    ensures Admitted(ExecutionFromWire(v).value) && ExecutionToWire(ExecutionFromWire(v).value) == v
  {
    StatusOffWire(v.fields[StatusKey], Terminal);
    CompileIsExact(v.fields[CompileKey]);
    CasesAreExact(v.fields[CasesKey].items);
    assert ExecutionToWire(ExecutionFromWire(v).value).fields == v.fields;
  }

  // ----- claimed jobs -----

  /** What the worker is allowed to see of a job. */
  datatype RunnerJob = RunnerJob(
    id: int, owner: string, filename: string, source: string, compiler: string,
    timeLimit: int, memory: int, inputs: seq<string>)

  function Inputs(cases: seq<CaseRow>): seq<string> {
    if cases == [] then [] else Inputs(cases[..|cases| - 1]) + [cases[|cases| - 1].input]
  }

  function Projection(id: int, owner: string, j: Job): RunnerJob {
    RunnerJob(id, owner, j.filename, j.source, j.compiler, j.timeLimit, j.memory, Inputs(j.cases))
  }

  function InputsToWire(cases: seq<CaseRow>): seq<Json> {
    if cases == [] then []
    else InputsToWire(cases[..|cases| - 1]) + [Obj(map[InputTextKey := Str(cases[|cases| - 1].input)])]
  }

  /** `_job_to_wire` on the claimed row with its id and its owner's public id. */
  function JobToWire(id: int, owner: string, j: Job): Json {
    Obj(map[IdKey := Num(id), OwnerPublicIdKey := Str(owner), FilenameKey := Str(j.filename),
            SourceKey := Str(j.source),
            CompilerKey := Str(j.compiler), TimeLimitMsKey := Num(j.timeLimit), MemoryLimitMibKey := Num(j.memory),
            CasesKey := Arr(InputsToWire(j.cases))])
  }

  function InputsFromWire(items: seq<Json>): Option<seq<string>> {
    if items == [] then Some([])
    else
      var rest :- InputsFromWire(items[..|items| - 1]);
      var d :- ExactObject(items[|items| - 1], {InputTextKey});
      var text :- Text(d[InputTextKey]);
      Some(rest + [text])
  }

  function JobFromWire(v: Json): Option<Option<RunnerJob>> {
    if v.Null? then Some(None)
    else
      var d :- ExactObject(v, {IdKey, OwnerPublicIdKey, FilenameKey, SourceKey, CompilerKey, TimeLimitMsKey,
                               MemoryLimitMibKey, CasesKey});
      var id :- PositiveId(d[IdKey]);
      var owner :- Uuid(d[OwnerPublicIdKey]);
      var filename :- Text(d[FilenameKey]);
      var source :- Text(d[SourceKey]);
      var compiler :- Text(d[CompilerKey]);
      var timeLimit :- PositiveId(d[TimeLimitMsKey]);
      var memory :- PositiveId(d[MemoryLimitMibKey]);
      if !d[CasesKey].Arr? then None
      else
        var inputs :- InputsFromWire(d[CasesKey].items);
        Some(Some(RunnerJob(id, owner, filename, source, compiler, timeLimit, memory, inputs)))
  }

  predicate JobAdmitted(r: RunnerJob) {
    0 < r.id && CanonicalUuid(r.owner) && 0 < r.timeLimit && 0 < r.memory
  }

  lemma {:induction false} InputsRoundTrip(cases: seq<CaseRow>)
    ensures InputsFromWire(InputsToWire(cases)) == Some(Inputs(cases))
  {
    if cases != [] {
      InputsRoundTrip(cases[..|cases| - 1]);
      var w := InputsToWire(cases);
      assert w[..|w| - 1] == InputsToWire(cases[..|cases| - 1]);
      assert w[|w| - 1].fields.Keys == {InputTextKey};
    }
  }

  /** The worker receives the runner-visible projection of the claimed job, or nothing. */
  lemma JobRoundTrip(id: int, owner: string, j: Job)
    ensures var p := Projection(id, owner, j);
            JobFromWire(JobToWire(id, owner, j)) == if JobAdmitted(p) then Some(Some(p)) else None
  {
    InputsRoundTrip(j.cases);
    assert JobToWire(id, owner, j).fields.Keys
        == {IdKey, OwnerPublicIdKey, FilenameKey, SourceKey, CompilerKey, TimeLimitMsKey, MemoryLimitMibKey, CasesKey};
  }

  lemma InputsDecideWire(a: seq<CaseRow>, b: seq<CaseRow>)
    ensures InputsToWire(a) == InputsToWire(b) <==> Inputs(a) == Inputs(b)
  {
    InputsRoundTrip(a);
    InputsRoundTrip(b);
    SameInputsSameWire(a, b);
  }

  lemma {:induction false} SameInputsSameWire(a: seq<CaseRow>, b: seq<CaseRow>)
    ensures Inputs(a) == Inputs(b) ==> InputsToWire(a) == InputsToWire(b)
    ensures |Inputs(a)| == |a|
    decreases |a| + |b|
  {
    if a != [] && b != [] {
      var m, n := |a| - 1, |b| - 1;
      SameInputsSameWire(a[..m], b[..n]);
      if Inputs(a) == Inputs(b) {
        assert Inputs(a)[..|Inputs(a)| - 1] == Inputs(a[..m]);
        assert Inputs(b)[..|Inputs(b)| - 1] == Inputs(b[..n]);
        assert Inputs(a)[|Inputs(a)| - 1] == Inputs(b)[|Inputs(b)| - 1];
      }
    } else if a != [] {
      SameInputsSameWire(a[..|a| - 1], b);
    }
  }

  /** Nothing else about a job reaches the wire: equal messages exactly for equal projections. */
  lemma OnlyTheProjectionIsSent(id: int, owner: string, j: Job, id': int, owner': string, k: Job)
    ensures JobToWire(id, owner, j) == JobToWire(id', owner', k)
       <==> Projection(id, owner, j) == Projection(id', owner', k)
  {
    InputsDecideWire(j.cases, k.cases);
    var a, b := JobToWire(id, owner, j), JobToWire(id', owner', k);
    if a == b {
      assert a.fields[IdKey] == b.fields[IdKey] && a.fields[OwnerPublicIdKey] == b.fields[OwnerPublicIdKey];
      assert a.fields[FilenameKey] == b.fields[FilenameKey] && a.fields[SourceKey] == b.fields[SourceKey];
      assert a.fields[CompilerKey] == b.fields[CompilerKey] && a.fields[TimeLimitMsKey] == b.fields[TimeLimitMsKey];
      assert a.fields[MemoryLimitMibKey] == b.fields[MemoryLimitMibKey] && a.fields[CasesKey] == b.fields[CasesKey];
    }
  }

  // ----- requests -----

  const MAX_ERROR_MESSAGE_CHARS := 16_384

  datatype Request =
    | ClaimRequest
    | CancelCheck(job: int)
    | Complete(job: int, execution: ExecutionResult)
    | SystemErrorReport(job: int, message: string)

  /** What the client sends. */
  function RequestToWire(r: Request): Json {
    match r
    case ClaimRequest => Obj(map[OpKey := Str("claim")])
    case CancelCheck(j) => Obj(map[OpKey := Str("cancel-check"), JobIdKey := Num(j)])
    case Complete(j, e) => Obj(map[OpKey := Str("complete"), JobIdKey := Num(j), ExecutionKey := ExecutionToWire(e)])
    case SystemErrorReport(j, m) => Obj(map[OpKey := Str("system-error"), JobIdKey := Num(j), MessageKey := Str(m)])
  }

  /** `_parse_request` followed by the decoding `_dispatch` does again. */
  function ParseRequest(v: Json): Option<Request> {
    if !v.Obj? || OpKey !in v.fields || !v.fields[OpKey].Str? then None
    else
      var op := v.fields[OpKey].text;
      if op == "claim" then
        var d :- ExactObject(v, {OpKey});
        Some(ClaimRequest)
      else if op == "cancel-check" then
        var d :- ExactObject(v, {OpKey, JobIdKey});
        var job :- PositiveId(d[JobIdKey]);
        Some(CancelCheck(job))
      else if op == "complete" then
        var d :- ExactObject(v, {OpKey, JobIdKey, ExecutionKey});
        var job :- PositiveId(d[JobIdKey]);
        var execution :- ExecutionFromWire(d[ExecutionKey]);
        Some(Complete(job, execution))
      else if op == "system-error" then
        var d :- ExactObject(v, {OpKey, JobIdKey, MessageKey});
        var job :- PositiveId(d[JobIdKey]);
        var message :- Text(d[MessageKey]);
        if |message| > MAX_ERROR_MESSAGE_CHARS then None else Some(SystemErrorReport(job, message))
      else None
  }

  predicate RequestAdmitted(r: Request) {
    match r
    case ClaimRequest => true
    case CancelCheck(j) => 0 < j
    case Complete(j, e) => 0 < j && Admitted(e)
    case SystemErrorReport(j, m) => 0 < j && |m| <= MAX_ERROR_MESSAGE_CHARS
  }

  lemma OperationsDiffer()
    ensures "claim" != "cancel-check" && "claim" != "complete" && "claim" != "system-error"
    ensures "cancel-check" != "complete" && "cancel-check" != "system-error" && "complete" != "system-error"
  {
    assert |"claim"| == 5 && |"cancel-check"| == 12 && |"complete"| == 8 && |"system-error"| == 12;
    assert "cancel-check"[0] == 'c' && "system-error"[0] == 's';
  }

  /** A request comes back unchanged exactly when its ids, execution and message are admitted. */
  lemma RequestRoundTrip(r: Request)
    ensures ParseRequest(RequestToWire(r)) == if RequestAdmitted(r) then Some(r) else None
  {
    OperationsDiffer();
    var v := RequestToWire(r);
    match r
    case ClaimRequest => assert v.fields.Keys == {OpKey};
    case CancelCheck(j) => assert v.fields.Keys == {OpKey, JobIdKey};
    case Complete(j, e) =>
      ExecutionRoundTrip(e);
      assert v.fields.Keys == {OpKey, JobIdKey, ExecutionKey};
    case SystemErrorReport(j, m) => assert v.fields.Keys == {OpKey, JobIdKey, MessageKey};
  }

  /** No other object is accepted as a request. */
  lemma RequestSchemaIsExact(v: Json)
    requires ParseRequest(v).Some?
    ensures RequestAdmitted(ParseRequest(v).value) && RequestToWire(ParseRequest(v).value) == v
  {
    OperationsDiffer();
    var r := ParseRequest(v).value;
    if r.Complete? {
      ExecutionSchemaIsExact(v.fields[ExecutionKey]);
    }
    assert RequestToWire(r).fields == v.fields;
  }

  predicate NoneNegative(numbers: seq<Option<int>>) {
    forall k :: 0 <= k < |numbers| && numbers[k].Some? ==> 0 <= numbers[k].value
  }

  predicate CaseAllowed(c: CaseResult) {
    1 <= c.position && c.status !in {Queued, Compiling, Running}
    && NoneNegative([c.exitCode, c.termSignal, c.wallMs, c.peakKib])
  }

  /** The conditions of the schema, one by one. */
  predicate Allowed(r: Request) {
    match r
    case ClaimRequest => true
    case CancelCheck(j) => 1 <= j
    case SystemErrorReport(j, m) => 1 <= j && |m| <= 16_384
    case Complete(j, e) =>
      && 1 <= j && e.status !in {Queued, Compiling, Running}
      && e.compile.status in {Completed, CompileError, SystemError}
      && NoneNegative([e.compile.exitCode, e.compile.wallMs])
      && forall k :: 0 <= k < |e.cases| ==> CaseAllowed(e.cases[k])
  }

  lemma NoneNegativeIff(a: Option<int>, b: Option<int>, c: Option<int>, d: Option<int>)
    ensures NoneNegative([a, b, c, d]) <==> NonNegative(a) && NonNegative(b) && NonNegative(c) && NonNegative(d)
    ensures NoneNegative([a, b]) <==> NonNegative(a) && NonNegative(b)
  {
    var s, t := [a, b], [a, b, c, d];
    assert s[0] == a && s[1] == b && t[0] == a && t[1] == b && t[2] == c && t[3] == d;
  }

  lemma AllowedIff(r: Request)
    ensures Allowed(r) <==> RequestAdmitted(r)
  {
    if r.Complete? {
      var e := r.execution;
      NoneNegativeIff(e.compile.exitCode, e.compile.wallMs, None, None);
      forall k | 0 <= k < |e.cases|
        ensures CaseAllowed(e.cases[k]) <==> CaseAdmitted(e.cases[k])
      {
        var c := e.cases[k];
        NoneNegativeIff(c.exitCode, c.termSignal, c.wallMs, c.peakKib);
      }
    }
  }

  lemma RequestAcceptedIff(v: Json, r: Request)
    ensures ParseRequest(v) == Some(r) <==> v == RequestToWire(r) && Allowed(r)
  {
    RequestRoundTrip(r);
    AllowedIff(r);
    if ParseRequest(v).Some? {
      RequestSchemaIsExact(v);
    }
  }
}
