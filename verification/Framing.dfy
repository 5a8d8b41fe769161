/**
 One message is one JSON line (broker.py). The receive loop sees the stream in pieces of any size;
 here a socket hands out whatever piece it likes. That the line ends where the message ends rests
 on JSON escaping (section 7 of RFC 8259) and UTF-8 leaving no newline inside the message.
 */
module Framing {
  import opened Common
  import opened Wire

  newtype byte = i: int | 0 <= i < 256

  const NEWLINE: byte := 10

  // ----- the message text -----

  function HexChar(n: nat): char
    requires n < 16
  {
    if n < 10 then '0' + n as char else 'a' + (n - 10) as char
  }

  /** The json module's escapes with `ensure_ascii=False`: quotes, backslash and control characters only. */
  function Escape(c: char): string {
    if c == '\\' then "\\\\"
    else if c == '\"' then "\\\""
    else if c == '\n' then "\\n"
    else if c == '\r' then "\\r"
    else if c == '\t' then "\\t"
    else if c == 8 as char then "\\b"
    else if c == 12 as char then "\\f"
    else if c < ' ' then "\\u00" + [HexChar(c as int / 16), HexChar(c as int % 16)]
    else [c]
  }

  function EscapeAll(s: string): string {
    if s == "" then "" else Escape(s[0]) + EscapeAll(s[1..])
  }

  function Quote(s: string): string {
    "\"" + EscapeAll(s) + "\""
  }

  function Number(n: int): string {
    if n < 0 then "-" + Digits(-n) else Digits(n)
  }

  function NameText(n: Name): string {
    match n
    case OpKey => "op"
    case JobIdKey => "job_id"
    case ExecutionKey => "execution"
    case MessageKey => "message"
    case StatusKey => "status"
    case CompileKey => "compile"
    case CasesKey => "cases"
    case StdoutKey => "stdout"
    case StderrKey => "stderr"
    case ExitCodeKey => "exit_code"
    case WallTimeMsKey => "wall_time_ms"
    case OutputTruncatedKey => "output_truncated"
    case PositionKey => "position"
    case TermSignalKey => "term_signal"
    case PeakMemoryKibKey => "peak_memory_kib"
    case IdKey => "id"
    case OwnerPublicIdKey => "owner_public_id"
    case FilenameKey => "filename"
    case SourceKey => "source"
    case CompilerKey => "compiler"
    case TimeLimitMsKey => "time_limit_ms"
    case MemoryLimitMibKey => "memory_limit_mib"
    case InputTextKey => "input_text"
    case OkKey => "ok"
    case ErrorKey => "error"
    case JobKey => "job"
    case CancelRequestedKey => "cancel_requested"
    case Other(text) => text
  }

  /** The insertion order of a dictionary's members; any order at all. */
  type Order = set<Name> -> seq<Name>

  /** `json.dumps(value, separators=(",", ":"), ensure_ascii=False)`. */
  function Dumps(v: Json, order: Order): string
    decreases v, 1, 0
  {
    match v
    case Null => "null"
    case Bool(b) => if b then "true" else "false"
    case Num(n) => Number(n)
    case Str(s) => Quote(s)
    case Arr(items) => "[" + DumpItems(v, 0, order) + "]"
    case Obj(fields) => "{" + DumpMembers(v, order(fields.Keys), order) + "}"
  }

  function DumpItems(v: Json, i: nat, order: Order): string
    requires v.Arr? && i <= |v.items|
    decreases v, 0, |v.items| - i
  {
    if i == |v.items| then ""
    else (if i == 0 then "" else ",") + Dumps(v.items[i], order) + DumpItems(v, i + 1, order)
  }

  function DumpMembers(v: Json, names: seq<Name>, order: Order): string
    requires v.Obj?
    decreases v, 0, |names|
  {
    if names == [] then ""
    else
      (if names[0] in v.fields then Quote(NameText(names[0])) + ":" + Dumps(v.fields[names[0]], order) else "")
      + (if |names| == 1 then "" else ",") + DumpMembers(v, names[1..], order)
  }

  ghost predicate OneLine(s: string) {
    '\n' !in s
  }

  lemma {:induction false} EscapedIsOneLine(s: string)
    ensures OneLine(EscapeAll(s))
  {
    if s != "" {
      EscapedIsOneLine(s[1..]);
      var e := Escape(s[0]);
      assert '\n' !in e;
    }
  }

  lemma QuoteIsOneLine(s: string)
    ensures OneLine(Quote(s))
  {
    EscapedIsOneLine(s);
  }

  /** However members are ordered, a dumped message never contains a raw newline. */
  lemma {:induction false} DumpsIsOneLine(v: Json, order: Order)
    ensures OneLine(Dumps(v, order))
    decreases v, 1, 0
  {
    match v
    case Null =>
    case Bool(b) =>
    case Num(n) => DigitsRoundTrip(if n < 0 then -n else n);
    case Str(s) => QuoteIsOneLine(s);
    case Arr(items) => ItemsAreOneLine(v, 0, order);
    case Obj(fields) => MembersAreOneLine(v, order(fields.Keys), order);
  }

  lemma {:induction false} ItemsAreOneLine(v: Json, i: nat, order: Order)
    requires v.Arr? && i <= |v.items|
    ensures OneLine(DumpItems(v, i, order))
    decreases v, 0, |v.items| - i
  {
    if i < |v.items| {
      DumpsIsOneLine(v.items[i], order);
      ItemsAreOneLine(v, i + 1, order);
    }
  }

  lemma {:induction false} MembersAreOneLine(v: Json, names: seq<Name>, order: Order)
    requires v.Obj?
    ensures OneLine(DumpMembers(v, names, order))
    decreases v, 0, |names|
  {
    if names != [] {
      QuoteIsOneLine(NameText(names[0]));
      if names[0] in v.fields {
        DumpsIsOneLine(v.fields[names[0]], order);
      }
      MembersAreOneLine(v, names[1..], order);
    }
  }

  // ----- UTF-8 -----

  function Utf8(c: char): seq<byte> {
    var n := c as int;
    if n < 0x80 then [n as byte]
    else if n < 0x800 then [(0xC0 + n / 64) as byte, (0x80 + n % 64) as byte]
    else if n < 0x10000 then [(0xE0 + n / 4096) as byte, (0x80 + n / 64 % 64) as byte, (0x80 + n % 64) as byte]
    else [(0xF0 + n / 262144 % 8) as byte, (0x80 + n / 4096 % 64) as byte, (0x80 + n / 64 % 64) as byte,
          (0x80 + n % 64) as byte]
  }

  function Utf8All(s: string): seq<byte> {
    if s == "" then [] else Utf8(s[0]) + Utf8All(s[1..])
  }

  lemma {:induction false} Utf8KeepsNewlines(s: string)
    ensures NEWLINE in Utf8All(s) <==> '\n' in s
  {
    if s != "" {
      Utf8KeepsNewlines(s[1..]);
      assert NEWLINE in Utf8(s[0]) <==> s[0] == '\n';
      assert s == [s[0]] + s[1..];
    }
  }

  /** `_encode_message`: None when the message exceeds the limit. */
  function Encode(v: Json, order: Order, maximum: nat): Option<seq<byte>> {
    var body := Utf8All(Dumps(v, order));
    if |body| > maximum then None else Some(body + [NEWLINE])
  }

  /** The encoder lets through what is within the limit, as one newline-terminated line. */
  lemma EncodedIsOneLine(v: Json, order: Order, maximum: nat)
    ensures var body := Utf8All(Dumps(v, order));
            && NEWLINE !in body
            && (Encode(v, order, maximum).Some? <==> |body| <= maximum)
            && (Encode(v, order, maximum).Some? ==> Encode(v, order, maximum).value == body + [NEWLINE])
  {
    DumpsIsOneLine(v, order);
    Utf8KeepsNewlines(Dumps(v, order));
  }

  // ----- the receive loop -----

  const CHUNK := 65_536

  /** The receiving end of a stream: a receive returns some non-empty piece, or nothing at the end. */
  class Socket {
    var incoming: seq<byte>

    constructor (incoming: seq<byte>)
      ensures this.incoming == incoming
    {
      this.incoming := incoming;
    }

    method Recv(size: nat) returns (chunk: seq<byte>)
      requires 0 < size
      modifies this
      ensures |chunk| <= size && old(incoming) == chunk + incoming
      ensures chunk == [] <==> old(incoming) == []
    {
      if incoming == [] {
        return [];
      }
      var n: nat :| 1 <= n <= size && n <= |incoming|;
      chunk := incoming[..n];
      incoming := incoming[n..];
    }
  }

  datatype Received = Closed | TooLarge | NotOneLine | Line(line: seq<byte>)

  /** Where `partition` splits: the first newline, or the length when there is none. */
  function Find(s: seq<byte>): (k: nat)
    ensures k <= |s| && (k < |s| ==> s[k] == NEWLINE)
    ensures forall j :: 0 <= j < k ==> s[j] != NEWLINE
  {
    if s == [] || s[0] == NEWLINE then 0
    else
      assert forall j :: 1 <= j < |s| ==> s[j] == s[1..][j - 1];
      1 + Find(s[1..])
  }

  lemma FindIs(s: seq<byte>, k: nat)
    requires k <= |s| && (k < |s| ==> s[k] == NEWLINE) && forall j :: 0 <= j < k ==> s[j] != NEWLINE
    ensures Find(s) == k
  {
  }

  lemma FindInPrefix(a: seq<byte>, b: seq<byte>)
    ensures Find(a) < |a| ==> Find(a + b) == Find(a)
    ensures Find(a) == |a| ==> |a| <= Find(a + b)
  {
    var k := Find(a + b);
    assert forall j :: 0 <= j < |a| ==> (a + b)[j] == a[j];
    if Find(a) < |a| {
      FindIs(a + b, Find(a));
    }
  }

  /** What a receive may answer on stream s when it leaves `rest` unread. */
  ghost predicate Answers(s: seq<byte>, rest: seq<byte>, maximum: nat, r: Received) {
    && |s| - |rest| <= maximum + 1
    && (r.Closed? <==> Find(s) == |s| <= maximum)
    && (r.TooLarge? <==> maximum < |s| && maximum < Find(s))
    && (r.Line? ==> s == r.line + [NEWLINE] + rest && Find(s) == |r.line| <= maximum)
    && (r.NotOneLine? ==> Find(s) + 1 < |s|)
  }

  /** `partition` on a buffer holding a newline. */
  function Partition(raw: seq<byte>): Received
    requires Find(raw) < |raw|
  {
    if Find(raw) + 1 < |raw| then NotOneLine else Line(raw[..Find(raw)])
  }

  lemma PartitionAnswers(s: seq<byte>, raw: seq<byte>, rest: seq<byte>, maximum: nat)
    requires s == raw + rest && |raw| <= maximum + 1 && Find(raw) < |raw| && Find(s) == Find(raw)
    ensures Answers(s, rest, maximum, Partition(raw))
  {
    var k := Find(raw);
    if k + 1 == |raw| {
      assert raw == raw[..k] + [NEWLINE];
    }
  }

  /**
   The loop of both ends, with the limit of either. Never more than `maximum` + 1 bytes are taken, no
   receive asks for zero bytes, and the length check after the loop cannot fire. The answer depends
   on how the stream was cut only when bytes follow the first newline.
   */
  method Receive(socket: Socket, maximum: nat) returns (r: Received)
    modifies socket
    ensures Answers(old(socket.incoming), socket.incoming, maximum, r)
  {
    ghost var s := socket.incoming;
    var raw: seq<byte> := [];
    while true
      invariant s == raw + socket.incoming
      invariant |raw| <= maximum && Find(raw) == |raw|
      decreases |socket.incoming|
    {
      var chunk := socket.Recv(Min(CHUNK, maximum + 1 - |raw|));
      if chunk == [] {
        assert s == raw;
        return Closed;
      }
      raw := Extend(raw, chunk, s, socket.incoming);
      if Find(chunk) < |chunk| {
        break;
      }
      if |raw| > maximum {
        return TooLarge;
      }
    }
    // the separator was found within maximum + 1 bytes, so `len(line) > maximum` never holds here
    assert Find(raw) <= maximum;
    PartitionAnswers(s, raw, socket.incoming, maximum);
    r := Partition(raw);
  }

  /** `raw.extend(chunk)`, when nothing received so far holds a newline. */
  method Extend(raw: seq<byte>, chunk: seq<byte>, ghost s: seq<byte>, ghost rest: seq<byte>) returns (all: seq<byte>)
    requires Find(raw) == |raw| && s == raw + (chunk + rest)
    ensures all == raw + chunk && s == all + rest
    ensures Find(all) == |raw| + Find(chunk)
    ensures Find(chunk) < |chunk| ==> Find(s) == Find(all)
    ensures Find(chunk) == |chunk| ==> |all| <= Find(s)
  {
    all := raw + chunk;
    assert s == all + rest;
    FindIs(all, |raw| + Find(chunk));
    FindInPrefix(all, rest);
  }

  /** Every message the encoder accepts arrives as exactly the line sent, however the stream is cut. */
  method Deliver(v: Json, order: Order, maximum: nat) returns (sent: Option<seq<byte>>, r: Received)
    ensures sent == Encode(v, order, maximum)
    ensures sent.Some? ==> r == Line(Utf8All(Dumps(v, order)))
  {
    sent := Encode(v, order, maximum);
    r := Closed;
    if sent.Some? {
      EncodedIsOneLine(v, order, maximum);
      ghost var body := Utf8All(Dumps(v, order));
      assert forall j :: 0 <= j < |body| ==> sent.value[j] == body[j] && body[j] in body;
      FindIs(sent.value, |body|);
      var socket := new Socket(sent.value);
      r := Receive(socket, maximum);
      assert r.Line? && |r.line| == |body|;
      assert r.line == sent.value[..|body|] == body;
    }
  }
}
