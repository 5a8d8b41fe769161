/**
 Reading a message back: UTF-8 decoding and a JSON reader for the compact text both ends write
 (broker.py, `json.loads(line.decode("utf-8"))`). The main result is that what `json.dumps` wrote is
 read back unchanged, so the codec on JSON values is the codec on bytes.
 */
module Loads {
  import opened Common
  import opened Wire
  import opened Framing

  // ----- member names -----

  /** The one protocol name a text could be: length and one letter decide. */
  function Candidate(t: string): Name {
    if |t| < 2 then Other(t)
    else
      var c := if |t| > 3 then t[3] else t[1];
      match |t|
      case 2 => if c == 'p' then OpKey else if c == 'd' then IdKey else OkKey
      case 3 => JobKey
      case 5 => if c == 'e' then CasesKey else ErrorKey
      case 6 =>
        if c == '_' then JobIdKey else if c == 't' then StatusKey else if c == 'o' then StdoutKey
        else if c == 'e' then StderrKey else SourceKey
      case 7 => if c == 's' then MessageKey else CompileKey
      case 8 => if c == 'i' then PositionKey else if c == 'e' then FilenameKey else CompilerKey
      case 9 => if c == 'c' then ExecutionKey else ExitCodeKey
      case 10 => InputTextKey
      case 11 => TermSignalKey
      case 12 => WallTimeMsKey
      case 13 => TimeLimitMsKey
      case 15 => if c == 'k' then PeakMemoryKibKey else OwnerPublicIdKey
      case 16 => if c == 'p' then OutputTruncatedKey else if c == 'o' then MemoryLimitMibKey else CancelRequestedKey
      case _ => Other(t)
  }

  function NameOf(t: string): Name {
    if NameText(Candidate(t)) == t then Candidate(t) else Other(t)
  }

  /** `Other` is for texts that are no protocol name. */
  predicate Proper(n: Name) {
    n.Other? ==> NameOf(n.text) == n
  }

  lemma NameRoundTrip(n: Name)
    requires Proper(n)
    ensures NameOf(NameText(n)) == n
  {
    var t := NameText(n);
    match n
    case Other(_) =>
    case OkKey => assert t[1] == 'k';
    case IdKey => assert t[1] == 'd';
    case OpKey => assert t[1] == 'p';
    case _ => assert |t| > 3 ==> Candidate(t) == n;
  }

  /** Every member name of the value is spelled one way. */
  ghost predicate Canonical(v: Json) {
    match v
    case Arr(items) => forall i :: 0 <= i < |items| ==> Canonical(items[i])
    case Obj(fields) => forall n :: n in fields ==> Proper(n) && Canonical(fields[n])
    case _ => true
  }

  // ----- strings -----

  function HexValue(c: char): Option<nat> {
    if '0' <= c <= '9' then Some(c as int - '0' as int)
    else if 'a' <= c <= 'f' then Some(c as int - 'a' as int + 10)
    else if 'A' <= c <= 'F' then Some(c as int - 'A' as int + 10)
    else None
  }

  /** A `\u` escape outside the surrogate range. */
  function UnicodeEscape(a: char, b: char, c: char, d: char): Option<char> {
    var w :- HexValue(a);
    var x :- HexValue(b);
    var y :- HexValue(c);
    var z :- HexValue(d);
    var n := ((w * 16 + x) * 16 + y) * 16 + z;
    if n < 0xD800 || 0xE000 <= n < 0x10000 then Some(n as char) else None
  }

  function SimpleEscape(c: char): Option<char> {
    if c == '\"' || c == '\\' || c == '/' then Some(c)
    else if c == 'n' then Some('\n')
    else if c == 'r' then Some('\r')
    else if c == 't' then Some('\t')
    else if c == 'b' then Some(8 as char)
    else if c == 'f' then Some(12 as char)
    else None
  }

  /** One character of a string and what follows it. */
  function ReadChar(s: string): (r: Option<(char, string)>)
    requires s != ""
    ensures r.Some? ==> |r.value.1| < |s|
  {
    if s[0] == '\\' then
      if |s| < 2 then None
      else if s[1] == 'u' then
        if |s| < 6 then None
        else
          var c :- UnicodeEscape(s[2], s[3], s[4], s[5]);
          Some((c, s[6..]))
      else
        var c :- SimpleEscape(s[1]);
        Some((c, s[2..]))
    else if s[0] < ' ' then None
    else Some((s[0], s[1..]))
  }

  /** The rest of a string after its opening quote, and what follows the closing one. */
  function ReadString(s: string): (r: Option<(string, string)>)
    ensures r.Some? ==> |r.value.1| < |s|
    decreases |s|
  {
    if s == "" then None
    else if s[0] == '\"' then Some(("", s[1..]))
    else
      var c :- ReadChar(s);
      var more :- ReadString(c.1);
      Some(([c.0] + more.0, more.1))
  }

  lemma HexRoundTrip(n: nat)
    requires n < 16
    ensures HexValue(HexChar(n)) == Some(n)
  {
  }

  lemma EscapedCharReads(c: char, rest: string)
    ensures Escape(c) != "" && Escape(c)[0] != '\"'
    ensures ReadChar(Escape(c) + rest) == Some((c, rest))
  {
    var e := Escape(c);
    var s := e + rest;
    assert s[|e|..] == rest;
    if |e| == 6 {
      HexRoundTrip(c as int / 16);
      HexRoundTrip(c as int % 16);
      assert s[0] == '\\' && s[1] == 'u' && s[2] == '0' && s[3] == '0';
      assert s[4] == HexChar(c as int / 16) && s[5] == HexChar(c as int % 16);
    } else if |e| == 2 {
      assert s[0] == '\\' && s[1] == e[1];
    } else {
      assert s[0] == c;
    }
  }

  lemma Assoc(a: string, b: string, c: string)
    ensures (a + b) + c == a + (b + c)
  {
  }

  lemma OneCharMore(s: string, c: char, tail: string, t: string, rest: string)
    requires s != "" && s[0] != '\"' && ReadChar(s) == Some((c, tail)) && ReadString(tail) == Some((t, rest))
    ensures ReadString(s) == Some(([c] + t, rest))
  {
  }

  lemma {:induction false} EscapedReads(t: string, rest: string)
    ensures ReadString(EscapeAll(t) + ("\"" + rest)) == Some((t, rest))
  {
    if t == "" {
      var s := "\"" + rest;
      assert EscapeAll(t) + s == s && s[1..] == rest;
    } else {
      var tail := EscapeAll(t[1..]) + ("\"" + rest);
      EscapedReads(t[1..], rest);
      EscapedCharReads(t[0], tail);
      OneCharMore(Escape(t[0]) + tail, t[0], tail, t[1..], rest);
      Assoc(Escape(t[0]), EscapeAll(t[1..]), "\"" + rest);
      assert [t[0]] + t[1..] == t;
    }
  }

  // ----- numbers -----

  /** The length of the leading run of digits. */
  function DigitRun(s: string): (n: nat)
    ensures n <= |s|
  {
    if s == "" || !IsDigit(s[0]) then 0 else 1 + DigitRun(s[1..])
  }

  function ReadDigits(s: string): (r: Option<(nat, string)>)
    ensures r.Some? ==> |r.value.1| < |s|
  {
    var n := DigitRun(s);
    if n == 0 || (n > 1 && s[0] == '0') then None else Some((Value(s[..n]), s[n..]))
  }

  predicate EndsNumber(rest: string) {
    rest == "" || !IsDigit(rest[0])
  }

  lemma {:induction false} RunOfDigits(t: string, rest: string)
    requires EndsNumber(rest) && forall k :: 0 <= k < |t| ==> IsDigit(t[k])
    ensures DigitRun(t + rest) == |t|
  {
    if t == "" {
      assert t + rest == rest;
    } else {
      assert (t + rest)[1..] == t[1..] + rest;
      RunOfDigits(t[1..], rest);
    }
  }

  lemma {:induction false} NoLeadingZero(n: nat)
    ensures Digits(n) != "" && (Digits(n)[0] == '0' ==> |Digits(n)| == 1)
    ensures n > 0 ==> Digits(n)[0] != '0'
  {
    if n >= 10 {
      NoLeadingZero(n / 10);
    }
  }

  lemma DigitsRead(n: nat, rest: string)
    requires EndsNumber(rest)
    ensures ReadDigits(Digits(n) + rest) == Some((n, rest))
  {
    var s := Digits(n) + rest;
    DigitsRoundTrip(n);
    NoLeadingZero(n);
    RunOfDigits(Digits(n), rest);
    assert s[..|Digits(n)|] == Digits(n) && s[|Digits(n)|..] == rest && s[0] == Digits(n)[0];
  }

  // ----- values -----

  predicate StartsWith(s: string, p: string) {
    |p| <= |s| && forall k :: 0 <= k < |p| ==> s[k] == p[k]
  }

  /** A value at the start of the text, and what follows it. */
  function ReadValue(s: string): (r: Option<(Json, string)>)
    ensures r.Some? ==> |r.value.1| < |s|
    decreases |s|, 0
  {
    if s == "" then None
    else if s[0] == '\"' then
      var t :- ReadString(s[1..]);
      Some((Str(t.0), t.1))
    else if s[0] == '[' then
      if StartsWith(s[1..], "]") then Some((Arr([]), s[2..]))
      else
        var items :- ReadItems(s[1..]);
        Some((Arr(items.0), items.1))
    else if s[0] == '{' then
      if StartsWith(s[1..], "}") then Some((Obj(map[]), s[2..]))
      else
        var fields :- ReadMembers(s[1..]);
        Some((Obj(fields.0), fields.1))
    else if StartsWith(s, "null") then Some((Null, s[4..]))
    else if StartsWith(s, "true") then Some((Bool(true), s[4..]))
    else if StartsWith(s, "false") then Some((Bool(false), s[5..]))
    else if s[0] == '-' then
      var n :- ReadDigits(s[1..]);
      var m: int := n.0;
      Some((Num(-m), n.1))
    else
      var n :- ReadDigits(s);
      Some((Num(n.0), n.1))
  }

  /** One item or more, up to the closing bracket. */
  function ReadItems(s: string): (r: Option<(seq<Json>, string)>)
    ensures r.Some? ==> |r.value.1| < |s|
    decreases |s|, 1
  {
    var v :- ReadValue(s);
    if StartsWith(v.1, "]") then Some(([v.0], v.1[1..]))
    else if StartsWith(v.1, ",") then
      var more :- ReadItems(v.1[1..]);
      Some(([v.0] + more.0, more.1))
    else None
  }

  /** A quoted name and its colon. */
  function ReadName(s: string): (r: Option<(Name, string)>)
    ensures r.Some? ==> |r.value.1| < |s|
  {
    if !StartsWith(s, "\"") then None
    else
      var t :- ReadString(s[1..]);
      if StartsWith(t.1, ":") then Some((NameOf(t.0), t.1[1..])) else None
  }

  datatype Member = Member(name: Name, value: Json)

  /** One member. */
  function ReadMember(s: string): (r: Option<(Member, string)>)
    ensures r.Some? ==> |r.value.1| < |s|
    decreases |s|, 1
  {
    var name :- ReadName(s);
    var v :- ReadValue(name.1);
    Some((Member(name.0, v.0), v.1))
  }

  /** One member or more, up to the closing brace; a later member replaces an earlier one of its name. */
  function ReadMembers(s: string): (r: Option<(map<Name, Json>, string)>)
    ensures r.Some? ==> |r.value.1| < |s|
    decreases |s|, 2
  {
    var m :- ReadMember(s);
    if StartsWith(m.1, "}") then Some((map[m.0.name := m.0.value], m.1[1..]))
    else if StartsWith(m.1, ",") then
      var more :- ReadMembers(m.1[1..]);
      Some((map[m.0.name := m.0.value] + more.0, more.1))
    else None
  }

  /** `json.loads` on compact text. */
  function Loads(s: string): Option<Json> {
    var v :- ReadValue(s);
    if v.1 == "" then Some(v.0) else None
  }

  // ----- what was dumped is read back -----

  /** Members are written in some order, each once. */
  ghost predicate Listing(order: Order) {
    forall names :: |order(names)| == |names| && forall n :: n in order(names) <==> n in names
  }

  ghost function Enumerate(names: set<Name>): (r: seq<Name>)
    ensures |r| == |names| && forall n :: n in r <==> n in names
  {
    if names == {} then []
    else
      var n :| n in names;
      [n] + Enumerate(names - {n})
  }

  lemma ListingExists()
    ensures exists order: Order :: Listing(order)
  {
    assert Listing((names: set<Name>) => Enumerate(names));
  }

  lemma StringReads(t: string, rest: string)
    ensures ReadValue(Quote(t) + rest) == Some((Str(t), rest))
  {
    var s := Quote(t) + rest;
    assert s[1..] == EscapeAll(t) + ("\"" + rest);
    EscapedReads(t, rest);
  }

  /** A text that starts like a number is read as one. */
  lemma NumberAhead(s: string)
    requires s != "" && (s[0] == '-' || IsDigit(s[0]))
    ensures !StartsWith(s, "null") && !StartsWith(s, "true") && !StartsWith(s, "false")
  {
  }

  lemma NaturalReads(n: nat, rest: string)
    requires EndsNumber(rest)
    ensures ReadValue(Digits(n) + rest) == Some((Num(n), rest))
  {
    DigitsRead(n, rest);
    DigitsRoundTrip(n);
    var s := Digits(n) + rest;
    assert s[0] == Digits(n)[0];
    NumberAhead(s);
  }

  lemma MinusAhead(tail: string)
    ensures ReadValue("-" + tail) ==
            if ReadDigits(tail).None? then None
            else Some((Num(0 - ReadDigits(tail).value.0), ReadDigits(tail).value.1))
  {
    var s := "-" + tail;
    assert s[0] == '-' && s[1..] == tail;
    NumberAhead(s);
  }

  lemma NegativeReads(n: nat, rest: string)
    requires EndsNumber(rest)
    ensures ReadValue("-" + Digits(n) + rest) == Some((Num(0 - n), rest))
  {
    var tail := Digits(n) + rest;
    assert "-" + Digits(n) + rest == "-" + tail;
    assert ReadDigits(tail) == Some((n, rest)) by {
      DigitsRead(n, rest);
    }
    MinusAhead(tail);
  }

  lemma WordReads(word: string, v: Json, rest: string)
    requires (word == "null" && v == Null) || (word == "true" && v == Bool(true))
             || (word == "false" && v == Bool(false))
    ensures ReadValue(word + rest) == Some((v, rest))
  {
    var s := word + rest;
    assert s[..|word|] == word && s[|word|..] == rest && s[0] == word[0];
  }

  /** The main result on text: a dumped value is read back, whatever follows it. */
  lemma {:induction false} DumpedReads(v: Json, order: Order, rest: string)
    requires Canonical(v) && Listing(order) && EndsNumber(rest)
    ensures ReadValue(Dumps(v, order) + rest) == Some((v, rest))
    decreases v, 1, 0
  {
    match v
    case Null => WordReads("null", v, rest);
    case Bool(b) => WordReads(if b then "true" else "false", v, rest);
    case Num(n) => if n < 0 { NegativeReads(-n, rest); } else { NaturalReads(n, rest); }
    case Str(t) => StringReads(t, rest);
    case Arr(items) => ArrayReads(v, order, rest);
    case Obj(fields) => ObjectReads(v, order, rest);
  }

  /** No dumped value starts with a closing bracket or brace, a comma or a digit-ending surprise. */
  lemma FirstChar(v: Json, order: Order)
    ensures Dumps(v, order) != "" && Dumps(v, order)[0] != ']' && Dumps(v, order)[0] != '}'
  {
    if v.Num? {
      DigitsRoundTrip(if v.number < 0 then -v.number else v.number);
    }
  }

  lemma BracketAhead(tail: string)
    ensures ReadValue("[" + tail) ==
            if StartsWith(tail, "]") then Some((Arr([]), tail[1..]))
            else if ReadItems(tail).None? then None
            else Some((Arr(ReadItems(tail).value.0), ReadItems(tail).value.1))
  {
    var s := "[" + tail;
    assert s[0] == '[' && s[1..] == tail;
    if StartsWith(tail, "]") {
      assert s[2..] == tail[1..];
    }
  }

  lemma BraceAhead(tail: string)
    ensures ReadValue("{" + tail) ==
            if StartsWith(tail, "}") then Some((Obj(map[]), tail[1..]))
            else if ReadMembers(tail).None? then None
            else Some((Obj(ReadMembers(tail).value.0), ReadMembers(tail).value.1))
  {
    var s := "{" + tail;
    assert s[0] == '{' && s[1..] == tail;
    if StartsWith(tail, "}") {
      assert s[2..] == tail[1..];
    }
  }

  lemma EmptyArrayReads(order: Order, rest: string)
    ensures ReadValue(Dumps(Arr([]), order) + rest) == Some((Arr([]), rest))
  {
    var tail := "]" + rest;
    BracketAhead(tail);
    assert Dumps(Arr([]), order) == "[]";
    assert "[]" + rest == "[" + tail && tail[1..] == rest;
  }

  lemma ArrayOpens(v: Json, order: Order, rest: string)
    requires v.Arr?
    ensures Dumps(v, order) + rest == "[" + (DumpItems(v, 0, order) + ("]" + rest))
  {
  }

  lemma BracketReads(tail: string, items: seq<Json>, rest: string)
    requires !StartsWith(tail, "]") && ReadItems(tail) == Some((items, rest))
    ensures ReadValue("[" + tail) == Some((Arr(items), rest))
  {
    BracketAhead(tail);
  }

  lemma {:induction false} ArrayReads(v: Json, order: Order, rest: string)
    requires v.Arr? && Canonical(v) && Listing(order) && EndsNumber(rest)
    ensures ReadValue(Dumps(v, order) + rest) == Some((v, rest))
    decreases v, 0, |v.items| + 1
  {
    if v.items == [] {
      EmptyArrayReads(order, rest);
    } else {
      ArrayText(v, order, rest);
      ItemsRead(v, 0, order, rest);
      assert v.items[0..] == v.items;
      BracketReads(DumpItems(v, 0, order) + ("]" + rest), v.items, rest);
      ArrayOpens(v, order, rest);
    }
  }

  lemma ArrayText(v: Json, order: Order, rest: string)
    requires v.Arr? && v.items != []
    ensures DumpItems(v, 0, order) + ("]" + rest) == Dumps(v.items[0], order) + (DumpItems(v, 1, order) + ("]" + rest))
    ensures !StartsWith(DumpItems(v, 0, order) + ("]" + rest), "]")
  {
    FirstChar(v.items[0], order);
    assert (DumpItems(v, 0, order) + ("]" + rest))[0] == Dumps(v.items[0], order)[0];
  }

  lemma LastItem(s: string, w: Json, rest: string)
    requires ReadValue(s) == Some((w, "]" + rest))
    ensures ReadItems(s) == Some(([w], rest))
  {
    assert ("]" + rest)[1..] == rest;
  }

  lemma MoreItems(s: string, w: Json, next: string, more: seq<Json>, rest: string)
    requires ReadValue(s) == Some((w, "," + next)) && ReadItems(next) == Some((more, rest))
    ensures ReadItems(s) == Some(([w] + more, rest))
  {
    var after := "," + next;
    assert after[0] == ',' && after[1..] == next;
    assert !StartsWith(after, "]") && StartsWith(after, ",");
    var r := ReadItems(after[1..]);
    assert ReadItems(s) == Some(([w] + r.value.0, r.value.1));
  }

  lemma {:induction false} ItemsRead(v: Json, i: nat, order: Order, rest: string)
    requires v.Arr? && i < |v.items| && Canonical(v) && Listing(order)
    ensures ReadItems(Dumps(v.items[i], order) + (DumpItems(v, i + 1, order) + ("]" + rest)))
         == Some((v.items[i..], rest))
    decreases v, 0, |v.items| - i
  {
    var w := v.items[i];
    var follow := DumpItems(v, i + 1, order) + ("]" + rest);
    if i + 1 == |v.items| {
      assert follow == "]" + rest;
      DumpedReads(w, order, follow);
      LastItem(Dumps(w, order) + follow, w, rest);
      assert v.items[i..] == [w];
    } else {
      var next := Dumps(v.items[i + 1], order) + (DumpItems(v, i + 2, order) + ("]" + rest));
      RegroupItems(Dumps(v.items[i + 1], order), DumpItems(v, i + 2, order), "]" + rest);
      assert follow == "," + next;
      DumpedReads(w, order, follow);
      ItemsRead(v, i + 1, order, rest);
      MoreItems(Dumps(w, order) + follow, w, next, v.items[i + 1..], rest);
      assert v.items[i..] == [w] + v.items[i + 1..];
    }
  }

  lemma RegroupItems(value: string, more: string, end: string)
    ensures ("," + value + more) + end == "," + (value + (more + end))
  {
  }

  /** The members of some names. */
  function Restrict(fields: map<Name, Json>, names: seq<Name>): map<Name, Json> {
    map n | n in names && n in fields :: fields[n]
  }

  lemma EmptyObjectReads(v: Json, order: Order, rest: string)
    requires v.Obj? && Listing(order) && order(v.fields.Keys) == []
    ensures ReadValue(Dumps(v, order) + rest) == Some((v, rest))
  {
    var tail := "}" + rest;
    BraceAhead(tail);
    NothingListed(v.fields, order(v.fields.Keys));
    assert Dumps(v, order) == "{}";
    assert "{}" + rest == "{" + tail && tail[1..] == rest;
  }

  lemma ObjectOpens(v: Json, order: Order, rest: string)
    requires v.Obj?
    ensures Dumps(v, order) + rest == "{" + (DumpMembers(v, order(v.fields.Keys), order) + ("}" + rest))
  {
  }

  lemma BraceReads(tail: string, fields: map<Name, Json>, rest: string)
    requires !StartsWith(tail, "}") && ReadMembers(tail) == Some((fields, rest))
    ensures ReadValue("{" + tail) == Some((Obj(fields), rest))
  {
    BraceAhead(tail);
  }

  lemma {:induction false} ObjectReads(v: Json, order: Order, rest: string)
    requires v.Obj? && Canonical(v) && Listing(order) && EndsNumber(rest)
    ensures ReadValue(Dumps(v, order) + rest) == Some((v, rest))
    decreases v, 0, |order(v.fields.Keys)| + 1
  {
    var names := order(v.fields.Keys);
    if names == [] {
      EmptyObjectReads(v, order, rest);
    } else {
      var tail := DumpMembers(v, names, order) + ("}" + rest);
      assert names[0] in names;
      MembersRead(v, names, order, rest);
      DumpedMembersStart(v, names, order);
      assert tail[0] == '\"';
      AllListed(v.fields, names);
      BraceReads(tail, v.fields, rest);
      ObjectOpens(v, order, rest);
    }
  }

  lemma NothingListed(fields: map<Name, Json>, names: seq<Name>)
    requires names == [] && forall n :: n in names <==> n in fields.Keys
    ensures fields == map[]
  {
    assert forall n :: n in fields ==> n in fields.Keys;
  }

  lemma AllListed(fields: map<Name, Json>, names: seq<Name>)
    requires forall n :: n in names <==> n in fields.Keys
    ensures Restrict(fields, names) == fields
  {
    assert forall n :: n in fields ==> n in fields.Keys;
  }

  lemma DumpedMembersStart(v: Json, names: seq<Name>, order: Order)
    requires v.Obj? && names != [] && names[0] in v.fields
    ensures DumpMembers(v, names, order) != "" && DumpMembers(v, names, order)[0] == '\"'
  {
  }

  lemma Unquoted(t: string, rest: string)
    ensures (Quote(t) + rest)[0] == '\"' && (Quote(t) + rest)[1..] == EscapeAll(t) + ("\"" + rest)
  {
  }

  lemma NameReads(name: Name, value: string)
    requires Proper(name)
    ensures ReadName(Quote(NameText(name)) + (":" + value)) == Some((name, value))
  {
    var s := Quote(NameText(name)) + (":" + value);
    Unquoted(NameText(name), ":" + value);
    EscapedReads(NameText(name), ":" + value);
    assert (":" + value)[1..] == value;
    NameRoundTrip(name);
  }

  lemma MemberReads(name: Name, w: Json, order: Order, rest: string)
    requires Proper(name) && EndsNumber(rest) && ReadValue(Dumps(w, order) + rest) == Some((w, rest))
    ensures ReadMember(Quote(NameText(name)) + (":" + (Dumps(w, order) + rest))) == Some((Member(name, w), rest))
  {
    NameReads(name, Dumps(w, order) + rest);
  }

  lemma LastMember(s: string, m: Member, rest: string)
    requires ReadMember(s) == Some((m, "}" + rest))
    ensures ReadMembers(s) == Some((map[m.name := m.value], rest))
  {
    assert ("}" + rest)[1..] == rest;
  }

  lemma MoreMembers(s: string, m: Member, next: string, more: map<Name, Json>, rest: string)
    requires ReadMember(s) == Some((m, "," + next)) && ReadMembers(next) == Some((more, rest))
    ensures ReadMembers(s) == Some((map[m.name := m.value] + more, rest))
  {
    var after := "," + next;
    assert after[0] == ',' && after[1..] == next;
    assert !StartsWith(after, "}") && StartsWith(after, ",");
    var r := ReadMembers(after[1..]);
    assert ReadMembers(s) == Some((map[m.name := m.value] + r.value.0, r.value.1));
  }

  lemma RestrictStep(fields: map<Name, Json>, names: seq<Name>)
    requires names != [] && names[0] in fields
    ensures Restrict(fields, names) == map[names[0] := fields[names[0]]] + Restrict(fields, names[1..])
  {
    assert names == [names[0]] + names[1..];
  }

  lemma RegroupLast(name: string, value: string, end: string)
    ensures ((name + ":" + value) + "" + "") + end == name + (":" + (value + end))
  {
  }

  lemma Regroup(name: string, value: string, more: string, end: string)
    ensures ((name + ":" + value) + "," + more) + end == name + (":" + (value + ("," + (more + end))))
  {
  }

  lemma LastMemberText(v: Json, names: seq<Name>, order: Order, rest: string)
    requires v.Obj? && |names| == 1 && names[0] in v.fields
    ensures DumpMembers(v, names, order) + ("}" + rest)
         == Quote(NameText(names[0])) + (":" + (Dumps(v.fields[names[0]], order) + ("}" + rest)))
    ensures Restrict(v.fields, names) == map[names[0] := v.fields[names[0]]]
  {
    RestrictStep(v.fields, names);
    RegroupLast(Quote(NameText(names[0])), Dumps(v.fields[names[0]], order), "}" + rest);
  }

  lemma MoreMembersText(v: Json, names: seq<Name>, order: Order, rest: string)
    requires v.Obj? && |names| > 1 && names[0] in v.fields
    ensures DumpMembers(v, names, order) + ("}" + rest)
         == Quote(NameText(names[0]))
            + (":" + (Dumps(v.fields[names[0]], order) + ("," + (DumpMembers(v, names[1..], order) + ("}" + rest)))))
  {
    Regroup(Quote(NameText(names[0])), Dumps(v.fields[names[0]], order), DumpMembers(v, names[1..], order), "}" + rest);
  }

  lemma LastMemberRead(v: Json, names: seq<Name>, order: Order, rest: string)
    requires v.Obj? && |names| == 1 && names[0] in v.fields && Proper(names[0])
    requires ReadValue(Dumps(v.fields[names[0]], order) + ("}" + rest)) == Some((v.fields[names[0]], "}" + rest))
    ensures ReadMembers(DumpMembers(v, names, order) + ("}" + rest)) == Some((Restrict(v.fields, names), rest))
  {
    var name, w := names[0], v.fields[names[0]];
    var s := Quote(NameText(name)) + (":" + (Dumps(w, order) + ("}" + rest)));
    MemberReads(name, w, order, "}" + rest);
    LastMember(s, Member(name, w), rest);
    LastMemberText(v, names, order, rest);
  }

  lemma MoreMembersRead(v: Json, names: seq<Name>, order: Order, next: string, rest: string)
    requires v.Obj? && |names| > 1 && names[0] in v.fields && Proper(names[0])
    requires next == DumpMembers(v, names[1..], order) + ("}" + rest)
    requires ReadValue(Dumps(v.fields[names[0]], order) + ("," + next)) == Some((v.fields[names[0]], "," + next))
    requires ReadMembers(next) == Some((Restrict(v.fields, names[1..]), rest))
    ensures ReadMembers(DumpMembers(v, names, order) + ("}" + rest)) == Some((Restrict(v.fields, names), rest))
  {
    var name, w := names[0], v.fields[names[0]];
    var s := Quote(NameText(name)) + (":" + (Dumps(w, order) + ("," + next)));
    MemberReads(name, w, order, "," + next);
    MoreMembers(s, Member(name, w), next, Restrict(v.fields, names[1..]), rest);
    MoreMembersText(v, names, order, rest);
    RestrictStep(v.fields, names);
  }

  lemma {:induction false} MembersRead(v: Json, names: seq<Name>, order: Order, rest: string)
    requires v.Obj? && Canonical(v) && Listing(order) && names != [] && forall n :: n in names ==> n in v.fields
    ensures ReadMembers(DumpMembers(v, names, order) + ("}" + rest)) == Some((Restrict(v.fields, names), rest))
    decreases v, 0, |names|
  {
    var name := names[0];
    assert name in v.fields && Proper(name) && Canonical(v.fields[name]);
    if |names| == 1 {
      DumpedReads(v.fields[name], order, "}" + rest);
      LastMemberRead(v, names, order, rest);
    } else {
      var next := DumpMembers(v, names[1..], order) + ("}" + rest);
      DumpedReads(v.fields[name], order, "," + next);
      MembersRead(v, names[1..], order, rest);
      MoreMembersRead(v, names, order, next, rest);
    }
  }

  /** `json.loads(json.dumps(v)) == v`. */
  lemma LoadsRoundTrip(v: Json, order: Order)
    requires Canonical(v) && Listing(order)
    ensures Loads(Dumps(v, order)) == Some(v)
  {
    DumpedReads(v, order, "");
    assert Dumps(v, order) + "" == Dumps(v, order);
  }

  // ----- bytes -----

  predicate Continues(b: byte) {
    0x80 <= b < 0xC0
  }

  function Low(b: byte): int {
    b as int - 0x80
  }

  /** The code point of a well-formed sequence at the front, and its length. */
  function CodePoint(b: seq<byte>): Option<(int, nat)>
    requires b != []
  {
    if b[0] < 0x80 then Some((b[0] as int, 1))
    else if 0xC2 <= b[0] < 0xE0 && |b| >= 2 && Continues(b[1]) then
      Some(((b[0] as int - 0xC0) * 64 + Low(b[1]), 2))
    else if 0xE0 <= b[0] < 0xF0 && |b| >= 3 && Continues(b[1]) && Continues(b[2]) then
      Some((((b[0] as int - 0xE0) * 64 + Low(b[1])) * 64 + Low(b[2]), 3))
    else if 0xF0 <= b[0] < 0xF5 && |b| >= 4 && Continues(b[1]) && Continues(b[2]) && Continues(b[3]) then
      Some(((((b[0] as int - 0xF0) * 64 + Low(b[1])) * 64 + Low(b[2])) * 64 + Low(b[3]), 4))
    else None
  }

  /** Neither overlong nor a surrogate nor beyond the last code point. */
  predicate WellFormed(n: int, length: nat) {
    || (length == 1 && 0 <= n < 0x80)
    || (length == 2 && 0x80 <= n < 0x800)
    || (length == 3 && (0x800 <= n < 0xD800 || 0xE000 <= n < 0x10000))
    || (length == 4 && 0x10000 <= n < 0x11_0000)
  }

  /** `bytes.decode("utf-8")`. */
  function DecodeUtf8(b: seq<byte>): Option<string>
    decreases |b|
  {
    if b == [] then Some("")
    else
      var p :- CodePoint(b);
      if !WellFormed(p.0, p.1) || |b| < p.1 then None
      else
        var more :- DecodeUtf8(b[p.1..]);
        Some([p.0 as char] + more)
  }

  lemma OneByteDecodes(c: char, rest: seq<byte>)
    requires c as int < 0x80
    ensures CodePoint(Utf8(c) + rest) == Some((c as int, 1)) && |Utf8(c)| == 1
  {
  }

  lemma TwoBytesDecode(c: char, rest: seq<byte>)
    requires 0x80 <= c as int < 0x800
    ensures CodePoint(Utf8(c) + rest) == Some((c as int, 2)) && |Utf8(c)| == 2
  {
    var n := c as int;
    assert n == n / 64 * 64 + n % 64;
  }

  lemma ThreeBytesDecode(c: char, rest: seq<byte>)
    requires 0x800 <= c as int < 0x10000
    ensures CodePoint(Utf8(c) + rest) == Some((c as int, 3)) && |Utf8(c)| == 3
  {
    var n := c as int;
    assert n / 64 == n / 4096 * 64 + n / 64 % 64;
    assert n == n / 64 * 64 + n % 64;
  }

  lemma FourBytesDecode(c: char, rest: seq<byte>)
    requires 0x10000 <= c as int
    ensures CodePoint(Utf8(c) + rest) == Some((c as int, 4)) && |Utf8(c)| == 4
  {
    var n := c as int;
    assert n / 262144 % 8 == n / 262144;
    assert n / 4096 == n / 262144 * 64 + n / 4096 % 64;
    assert n / 64 == n / 4096 * 64 + n / 64 % 64;
    assert n == n / 64 * 64 + n % 64;
  }

  lemma CharDecodes(c: char, rest: seq<byte>)
    ensures CodePoint(Utf8(c) + rest) == Some((c as int, |Utf8(c)|)) && WellFormed(c as int, |Utf8(c)|)
  {
    if c as int < 0x80 {
      OneByteDecodes(c, rest);
    } else if c as int < 0x800 {
      TwoBytesDecode(c, rest);
    } else if c as int < 0x10000 {
      ThreeBytesDecode(c, rest);
    } else {
      FourBytesDecode(c, rest);
    }
  }

  lemma {:induction false} Utf8RoundTrip(s: string)
    ensures DecodeUtf8(Utf8All(s)) == Some(s)
  {
    if s != "" {
      var rest := Utf8All(s[1..]);
      Utf8RoundTrip(s[1..]);
      CharDecodes(s[0], rest);
      assert (Utf8(s[0]) + rest)[|Utf8(s[0])|..] == rest;
      assert [s[0]] + s[1..] == s;
    }
  }

  /** A received line as a value: `json.loads(line.decode("utf-8"))`. */
  function ReadLine(line: seq<byte>): Option<Json> {
    var text :- DecodeUtf8(line);
    Loads(text)
  }

  /** Every canonical value is read back from the line it was sent as. */
  lemma LineRoundTrip(v: Json, order: Order)
    requires Canonical(v) && Listing(order)
    ensures ReadLine(Utf8All(Dumps(v, order))) == Some(v)
  {
    Utf8RoundTrip(Dumps(v, order));
    LoadsRoundTrip(v, order);
  }

  /** From value to value over the socket: encode, send in any pieces, receive, decode, read. */
  method Transmit(v: Json, order: Order, maximum: nat) returns (received: Option<Json>)
    requires Canonical(v) && Listing(order)
    ensures received == if Encode(v, order, maximum).Some? then Some(v) else None
  {
    var sent, r := Deliver(v, order, maximum);
    if sent.None? {
      return None;
    }
    LineRoundTrip(v, order);
    received := ReadLine(r.line);
  }
}
