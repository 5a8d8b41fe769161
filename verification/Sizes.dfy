/**
 How long messages are, against the limit of 32 MiB (broker.py, DEFAULT_MAX_MESSAGE_BYTES): short
 answers and error reports always fit, and some admitted submissions do not.
 */
module Sizes {
  import opened Common
  import opened Ledger
  import opened Wire
  import opened Framing
  import opened Loads

  const DEFAULT_MAX_MESSAGE_BYTES := 32 * 1024 * 1024

  /** The encoder lets the message through. */
  predicate Fits(v: Json, order: Order, maximum: nat) {
    Encode(v, order, maximum).Some?
  }

  // ----- bytes and characters -----

  lemma {:induction false} Utf8Length(s: string)
    ensures |s| <= |Utf8All(s)| <= 4 * |s|
  {
    if s != "" {
      Utf8Length(s[1..]);
    }
  }

  lemma {:induction false} EscapeLength(s: string)
    ensures |s| <= |EscapeAll(s)| <= 6 * |s|
  {
    if s != "" {
      EscapeLength(s[1..]);
    }
  }

  lemma {:induction false} DigitsLength(n: nat, k: nat)
    requires 1 <= k && n < Pow10(k)
    ensures |Digits(n)| <= k
  {
    if k > 1 && n >= 10 {
      DigitsLength(n / 10, k - 1);
    }
  }

  lemma RowIdDigits(id: nat)
    requires id < INTEGER_END
    ensures |Digits(id)| <= 20
  {
    assert Pow10(2) == 100;
    assert Pow10(4) == 10_000;
    assert Pow10(6) == 1_000_000;
    assert Pow10(8) == 100_000_000;
    assert Pow10(10) == 10_000_000_000;
    assert Pow10(12) == 1_000_000_000_000;
    assert Pow10(14) == 100_000_000_000_000;
    assert Pow10(16) == 10_000_000_000_000_000;
    assert Pow10(18) == 1_000_000_000_000_000_000;
    assert Pow10(20) == 100_000_000_000_000_000_000;
    DigitsLength(id, 20);
  }

  // ----- short messages fit -----

  /** Protocol names have at most 16 characters. */
  lemma NameLength(n: Name)
    requires !n.Other?
    ensures |NameText(n)| <= 16
  {
  }

  /** The listed members of v are short and of known names. */
  ghost predicate ShortMembers(v: Json, names: seq<Name>, order: Order)
    requires v.Obj?
  {
    forall n :: n in names ==> n in v.fields && !n.Other? && |Dumps(v.fields[n], order)| <= 100_000
  }

  lemma MemberText(v: Json, name: Name, order: Order)
    requires v.Obj? && name in v.fields && !name.Other? && |Dumps(v.fields[name], order)| <= 100_000
    ensures |Quote(NameText(name)) + ":" + Dumps(v.fields[name], order)| <= 100_099
  {
    NameLength(name);
    EscapeLength(NameText(name));
  }

  lemma {:induction false} MembersAtMost(v: Json, names: seq<Name>, order: Order)
    requires v.Obj? && ShortMembers(v, names, order)
    ensures |DumpMembers(v, names, order)| <= 100_100 * |names|
    decreases |names|
  {
    if names != [] {
      assert names[0] in names;
      MemberText(v, names[0], order);
      MembersAtMost(v, names[1..], order);
    }
  }

  lemma ObjectLength(v: Json, order: Order)
    requires v.Obj?
    ensures |Dumps(v, order)| == |DumpMembers(v, order(v.fields.Keys), order)| + 2
  {
  }

  lemma SmallObjectLength(v: Json, order: Order)
    requires v.Obj? && Listing(order) && |v.fields.Keys| <= 3
    requires forall n :: n in v.fields ==> !n.Other? && |Dumps(v.fields[n], order)| <= 100_000
    ensures |Dumps(v, order)| <= 300_302
  {
    var names := order(v.fields.Keys);
    assert |names| == |v.fields.Keys| && forall n :: n in names ==> n in v.fields.Keys;
    MembersAtMost(v, names, order);
    ObjectLength(v, order);
  }

  /** A flat object of at most three members of at most 100,000 characters fits. */
  lemma SmallObjectFits(v: Json, order: Order)
    requires v.Obj? && Listing(order) && |v.fields.Keys| <= 3
    requires forall n :: n in v.fields ==> !n.Other? && |Dumps(v.fields[n], order)| <= 100_000
    ensures Fits(v, order, DEFAULT_MAX_MESSAGE_BYTES)
  {
    SmallObjectLength(v, order);
    Utf8Length(Dumps(v, order));
  }

  lemma TextAtMost(t: string, order: Order)
    ensures |Dumps(Str(t), order)| <= 2 + 6 * |t|
  {
    EscapeLength(t);
  }

  lemma ThreeMembersFit(op: string, id: nat, message: string, order: Order)
    requires Listing(order) && |op| <= 100 && id < INTEGER_END && |message| <= MAX_ERROR_MESSAGE_CHARS
    ensures Fits(Obj(map[OpKey := Str(op), JobIdKey := Num(id), MessageKey := Str(message)]), order,
                 DEFAULT_MAX_MESSAGE_BYTES)
  {
    var v := Obj(map[OpKey := Str(op), JobIdKey := Num(id), MessageKey := Str(message)]);
    TextAtMost(op, order);
    TextAtMost(message, order);
    RowIdDigits(id);
    assert Dumps(Num(id), order) == Digits(id);
    assert v.fields.Keys == {OpKey, JobIdKey, MessageKey};
    SmallObjectFits(v, order);
  }

  lemma ErrorReportFits(id: nat, message: string, order: Order)
    requires Listing(order) && id < INTEGER_END && |message| <= MAX_ERROR_MESSAGE_CHARS
    ensures Fits(RequestToWire(SystemErrorReport(id, message)), order, DEFAULT_MAX_MESSAGE_BYTES)
  {
    ThreeMembersFit("system-error", id, message, order);
  }

  lemma ClaimRequestFits(order: Order)
    requires Listing(order)
    ensures Fits(RequestToWire(ClaimRequest), order, DEFAULT_MAX_MESSAGE_BYTES)
  {
    var v := RequestToWire(ClaimRequest);
    EscapeLength("claim");
    assert v.fields.Keys == {OpKey};
    SmallObjectFits(v, order);
  }

  lemma TwoMembersFit(op: string, id: nat, order: Order)
    requires Listing(order) && |op| <= 100 && id < INTEGER_END
    ensures Fits(Obj(map[OpKey := Str(op), JobIdKey := Num(id)]), order, DEFAULT_MAX_MESSAGE_BYTES)
  {
    var v := Obj(map[OpKey := Str(op), JobIdKey := Num(id)]);
    TextAtMost(op, order);
    RowIdDigits(id);
    assert Dumps(Num(id), order) == Digits(id);
    assert v.fields.Keys == {OpKey, JobIdKey};
    SmallObjectFits(v, order);
  }

  lemma CancelCheckFits(id: nat, order: Order)
    requires Listing(order) && id < INTEGER_END
    ensures Fits(RequestToWire(CancelCheck(id)), order, DEFAULT_MAX_MESSAGE_BYTES)
  {
    TwoMembersFit("cancel-check", id, order);
  }

  lemma FlagsFit(first: bool, second: bool, order: Order)
    requires Listing(order)
    ensures Fits(Obj(map[OkKey := Bool(first), CancelRequestedKey := Bool(second)]), order, DEFAULT_MAX_MESSAGE_BYTES)
  {
    var v := Obj(map[OkKey := Bool(first), CancelRequestedKey := Bool(second)]);
    assert v.fields.Keys == {OkKey, CancelRequestedKey};
    SmallObjectFits(v, order);
  }

  // ----- some messages do not -----

  lemma {:induction false} MemberAtLeast(v: Json, names: seq<Name>, order: Order, n: Name)
    requires v.Obj? && n in names && n in v.fields
    ensures |Dumps(v.fields[n], order)| <= |DumpMembers(v, names, order)|
    decreases |names|
  {
    if names[0] != n {
      MemberAtLeast(v, names[1..], order, n);
    }
  }

  lemma ObjectAtLeast(v: Json, order: Order, n: Name)
    requires v.Obj? && Listing(order) && n in v.fields
    ensures |Dumps(v.fields[n], order)| <= |Dumps(v, order)|
  {
    assert n in order(v.fields.Keys);
    MemberAtLeast(v, order(v.fields.Keys), order, n);
  }

  lemma {:induction false} ItemsAtLeast(v: Json, i: nat, order: Order, each: nat)
    requires v.Arr? && i <= |v.items| && forall k :: 0 <= k < |v.items| ==> each <= |Dumps(v.items[k], order)|
    ensures (|v.items| - i) * each <= |DumpItems(v, i, order)|
    decreases |v.items| - i
  {
    if i < |v.items| {
      ItemsAtLeast(v, i + 1, order, each);
      assert (|v.items| - i) * each == (|v.items| - (i + 1)) * each + each;
    }
  }

  function Newlines(n: nat): string {
    seq(n, _ => '\n')
  }

  lemma {:induction false} NewlinesEscape(n: nat)
    ensures |EscapeAll(Newlines(n))| == 2 * n
  {
    if n > 0 {
      assert Newlines(n)[1..] == Newlines(n - 1);
      NewlinesEscape(n - 1);
    }
  }

  const MAX_INPUT_BYTES := 1024 * 1024

  /** The largest input the schema admits, twenty times: every character is escaped to two. */
  predicate FullOfNewlines(cases: seq<CaseRow>) {
    |cases| == 20 && forall k :: 0 <= k < |cases| ==> cases[k].input == Newlines(MAX_INPUT_BYTES)
  }

  lemma {:induction false} InputItems(cases: seq<CaseRow>)
    ensures |InputsToWire(cases)| == |cases|
    ensures forall k :: 0 <= k < |cases| ==> InputsToWire(cases)[k] == Obj(map[InputTextKey := Str(cases[k].input)])
  {
    if cases != [] {
      InputItems(cases[..|cases| - 1]);
    }
  }

  /** Each of these inputs takes more than two megabytes on the wire. */
  lemma InputItemLength(order: Order)
    requires Listing(order)
    ensures 2 * MAX_INPUT_BYTES <= |Dumps(Obj(map[InputTextKey := Str(Newlines(MAX_INPUT_BYTES))]), order)|
  {
    var v := Obj(map[InputTextKey := Str(Newlines(MAX_INPUT_BYTES))]);
    NewlinesEscape(MAX_INPUT_BYTES);
    ObjectAtLeast(v, order, InputTextKey);
  }

  lemma CasesLength(cases: seq<CaseRow>, order: Order)
    requires Listing(order) && FullOfNewlines(cases)
    ensures 20 * (2 * MAX_INPUT_BYTES) <= |Dumps(Arr(InputsToWire(cases)), order)|
  {
    InputItems(cases);
    InputItemLength(order);
    ItemsAtLeast(Arr(InputsToWire(cases)), 0, order, 2 * MAX_INPUT_BYTES);
  }

  lemma JobLength(id: int, owner: string, j: Job, order: Order)
    requires Listing(order) && FullOfNewlines(j.cases)
    ensures 20 * (2 * MAX_INPUT_BYTES) <= |Dumps(JobToWire(id, owner, j), order)|
  {
    var job := JobToWire(id, owner, j);
    assert CasesKey in job.fields && job.fields[CasesKey] == Arr(InputsToWire(j.cases));
    ObjectAtLeast(job, order, CasesKey);
    CasesLength(j.cases, order);
  }

  /** Any answer that carries such a job is above the limit. */
  lemma OversizedAnswer(id: int, owner: string, j: Job, answer: Json, order: Order)
    requires Listing(order) && answer.Obj? && JobKey in answer.fields
             && answer.fields[JobKey] == JobToWire(id, owner, j)
    requires FullOfNewlines(j.cases)
    ensures !Fits(answer, order, DEFAULT_MAX_MESSAGE_BYTES)
  {
    JobLength(id, owner, j, order);
    ObjectAtLeast(answer, order, JobKey);
    Utf8Length(Dumps(answer, order));
  }
}
