/** The comment stripper and the line numbers of include errors (headers.py). */
module Comments {

  datatype Mode = Code | Line | Block

  predicate Opens(s: string, i: nat, second: char) {
    i + 1 < |s| && s[i] == '/' && s[i + 1] == second
  }

  predicate Closes(s: string, i: nat) {
    i + 1 < |s| && s[i] == '*' && s[i + 1] == '/'
  }

  function Blank(c: char): char {
    if c == '\n' then '\n' else ' '
  }

  /** The reference scanner: what the stripped text is from position i on, in a given mode. */
  function StripFrom(s: string, i: nat, mode: Mode): string
    requires i <= |s|
    decreases |s| - i
  {
    if i == |s| then ""
    else
      match mode
      case Block => if Closes(s, i) then "  " + StripFrom(s, i + 2, Code)
      else [Blank(s[i])] + StripFrom(s, i + 1, Block)
      case Line => [Blank(s[i])] + StripFrom(s, i + 1, if s[i] == '\n' then Code else Line)
      case Code =>
        if Opens(s, i, '*') then "  " + StripFrom(s, i + 2, Block)
        else if Opens(s, i, '/') then "  " + StripFrom(s, i + 2, Line)
        else [s[i]] + StripFrom(s, i + 1, Code)
  }

  function Strip(s: string): string {
    StripFrom(s, 0, Code)
  }

  /** `_strip_comments`, loop for loop. */
  method StripComments(source: string) returns (out: string)
    ensures out == Strip(source)
  {
    out := "";
    var index := 0;
    var inBlock := false;
    while index < |source|
      invariant 0 <= index <= |source|
      invariant out + StripFrom(source, index, if inBlock then Block else Code) == Strip(source)
    {
      if inBlock {
        if Closes(source, index) {
          Regroup(out, "  ", StripFrom(source, index + 2, Code));
          out := out + "  ";
          index := index + 2;
          inBlock := false;
        } else {
          Regroup(out, [Blank(source[index])], StripFrom(source, index + 1, Block));
          out := out + [if source[index] == '\n' then '\n' else ' '];
          index := index + 1;
        }
      } else if Opens(source, index, '*') {
        Regroup(out, "  ", StripFrom(source, index + 2, Block));
        out := out + "  ";
        index := index + 2;
        inBlock := true;
      } else if Opens(source, index, '/') {
        LineFromOpener(source, index);
        while index < |source| && source[index] != '\n'
          invariant 0 <= index <= |source|
          invariant out + StripFrom(source, index, Line) == Strip(source)
        {
          Regroup(out, " ", StripFrom(source, index + 1, Line));
          out := out + " ";
          index := index + 1;
        }
      } else {
        Regroup(out, [source[index]], StripFrom(source, index + 1, Code));
        out := out + [source[index]];
        index := index + 1;
      }
    }
    assert out + "" == out;
  }

  lemma Regroup(a: string, b: string, c: string)
    ensures a + (b + c) == (a + b) + c
  {
  }

  /** Blanking an opener two at a time or one at a time is the same. */
  lemma LineFromOpener(s: string, i: nat)
    requires i <= |s| && Opens(s, i, '/')
    ensures StripFrom(s, i, Code) == StripFrom(s, i, Line)
  {
    var rest := StripFrom(s, i + 2, Line);
    assert StripFrom(s, i + 1, Line) == " " + rest;
    assert " " + (" " + rest) == "  " + rest;
  }

  // ----- what stripping keeps -----

  /** Every character keeps its place: it is copied, or blanked if it is not a newline. */
  ghost predicate SameShape(r: string, t: string) {
    |r| == |t| && forall k :: 0 <= k < |r| ==> r[k] == t[k] || (r[k] == ' ' && t[k] != '\n')
  }

  lemma ShapeConcat(a: string, b: string, r: string, t: string)
    requires SameShape(a, b) && SameShape(r, t)
    ensures SameShape(a + r, b + t)
  {
  }

  lemma {:induction false} StripKeepsShape(s: string, i: nat, mode: Mode)
    requires i <= |s|
    ensures SameShape(StripFrom(s, i, mode), s[i..])
    decreases |s| - i
  {
    if i < |s| {
      if (mode.Block? && Closes(s, i)) || (mode.Code? && (Opens(s, i, '*') || Opens(s, i, '/'))) {
        var next := if mode.Block? then Code else if Opens(s, i, '*') then Block else Line;
        StripKeepsShape(s, i + 2, next);
        ShapeConcat("  ", s[i..i + 2], StripFrom(s, i + 2, next), s[i + 2..]);
        assert s[i..] == s[i..i + 2] + s[i + 2..];
      } else {
        var next := if mode.Line? && s[i] == '\n' then Code else mode;
        var c := if mode.Code? then s[i] else Blank(s[i]);
        StripKeepsShape(s, i + 1, next);
        ShapeConcat([c], [s[i]], StripFrom(s, i + 1, next), s[i + 1..]);
        assert s[i..] == [s[i]] + s[i + 1..];
      }
    }
  }

  /** Same length, and newlines exactly where they were. */
  lemma StripKeepsLines(s: string)
    ensures |Strip(s)| == |s|
    ensures forall k :: 0 <= k < |s| ==> (Strip(s)[k] == '\n' <==> s[k] == '\n')
  {
    StripKeepsShape(s, 0, Code);
    assert s[0..] == s;
  }

  ghost predicate NoOpener(s: string) {
    forall k: nat :: !Opens(s, k, '/') && !Opens(s, k, '*')
  }

  lemma PrefixNoOpener(c: char, r: string)
    requires NoOpener(r) && (c == '/' && r != [] ==> r[0] != '/' && r[0] != '*')
    ensures NoOpener([c] + r)
  {
    forall k: nat
      ensures !Opens([c] + r, k, '/') && !Opens([c] + r, k, '*')
    {
      if k > 0 {
        assert Opens([c] + r, k, '/') ==> Opens(r, k - 1, '/');
        assert Opens([c] + r, k, '*') ==> Opens(r, k - 1, '*');
      }
    }
  }

  lemma {:induction false} StripRemovesOpeners(s: string, i: nat, mode: Mode)
    requires i <= |s|
    ensures NoOpener(StripFrom(s, i, mode))
    decreases |s| - i
  {
    if i < |s| {
      if (mode.Block? && Closes(s, i)) || (mode.Code? && (Opens(s, i, '*') || Opens(s, i, '/'))) {
        var next := if mode.Block? then Code else if Opens(s, i, '*') then Block else Line;
        var r := StripFrom(s, i + 2, next);
        StripRemovesOpeners(s, i + 2, next);
        PrefixNoOpener(' ', r);
        PrefixNoOpener(' ', [' '] + r);
        assert [' '] + ([' '] + r) == "  " + r;
      } else {
        var next := if mode.Line? && s[i] == '\n' then Code else mode;
        StripRemovesOpeners(s, i + 1, next);
        StripKeepsShape(s, i + 1, next);
        PrefixNoOpener(if mode.Code? then s[i] else Blank(s[i]), StripFrom(s, i + 1, next));
      }
    }
  }

  lemma {:induction false} NothingToStrip(s: string, i: nat)
    requires i <= |s| && NoOpener(s)
    ensures StripFrom(s, i, Code) == s[i..]
    decreases |s| - i
  {
    if i < |s| {
      assert !Opens(s, i, '/') && !Opens(s, i, '*');
      NothingToStrip(s, i + 1);
    }
  }

  /** Stripped text has no comment opener, and stripping it again changes nothing. */
  lemma StripIsIdempotent(s: string)
    ensures NoOpener(Strip(s))
    ensures Strip(Strip(s)) == Strip(s)
  {
    StripRemovesOpeners(s, 0, Code);
    NothingToStrip(Strip(s), 0);
  }

  // ----- what stripping is, without its modes -----

  function Blanked(s: string): string {
    seq(|s|, i requires 0 <= i < |s| => Blank(s[i]))
  }

  /** The first end of a comment in b and the two characters after it is those two characters. */
  ghost predicate EndsFirst(b: string) {
    forall k: nat :: k < |b| ==> !Closes(b + "*/", k)
  }

  ghost predicate NoEnd(b: string) {
    forall k: nat :: !Closes(b, k)
  }

  /** A comment of the form b opens the text after a, where none opens before, and leaves c. */
  ghost predicate StartsBlock(s: string, a: string, b: string, c: string) {
    NoOpener(a + "/") && EndsFirst(b) && s == a + "/*" + b + "*/" + c
  }

  ghost predicate EndsInBlock(s: string, a: string, b: string) {
    NoOpener(a + "/") && NoEnd(b) && s == a + "/*" + b
  }

  ghost predicate StartsLine(s: string, a: string, b: string, c: string) {
    NoOpener(a + "/") && '\n' !in b && s == a + "//" + b + "\n" + c
  }

  ghost predicate EndsInLine(s: string, a: string, b: string) {
    NoOpener(a + "/") && '\n' !in b && s == a + "//" + b
  }

  /** Text without a comment is kept; the first comment is blanked, newlines kept, and what follows it is stripped. */
  ghost predicate Lawful(f: string -> string) {
    && (forall s :: NoOpener(s) ==> f(s) == s)
    && (forall s, a, b, c :: StartsBlock(s, a, b, c) ==> f(s) == a + Blanked("/*" + b + "*/") + f(c))
    && (forall s, a, b :: EndsInBlock(s, a, b) ==> f(s) == a + Blanked("/*" + b))
    && (forall s, a, b, c :: StartsLine(s, a, b, c) ==> f(s) == a + Blanked("//" + b + "\n") + f(c))
    && (forall s, a, b :: EndsInLine(s, a, b) ==> f(s) == a + Blanked("//" + b))
  }

  /** What the scanner tests at a position, and what it goes on with, is in the rest of the text. */
  lemma SameTests(t: string, k: nat, s: string, i: nat)
    requires k <= |t| && i < |s| && t[k..] == s[i..]
    ensures k < |t| && t[k] == s[i] && Closes(t, k) == Closes(s, i)
    ensures Opens(t, k, '*') == Opens(s, i, '*') && Opens(t, k, '/') == Opens(s, i, '/')
    ensures t[k + 1..] == s[i + 1..] && (i + 2 <= |s| ==> k + 2 <= |t| && t[k + 2..] == s[i + 2..])
  {
    assert |t[k..]| == |t| - k && |s[i..]| == |s| - i;
    assert t[k..][0] == s[i..][0];
    assert i + 1 < |s| ==> t[k..][1] == s[i..][1];
    assert t[k + 1..] == t[k..][1..] && s[i + 1..] == s[i..][1..];
    if i + 2 <= |s| {
      assert t[k + 2..] == t[k..][2..] && s[i + 2..] == s[i..][2..];
    }
  }

  lemma {:induction false} RestDecides(t: string, k: nat, s: string, i: nat, mode: Mode)
    requires k <= |t| && i <= |s| && t[k..] == s[i..]
    ensures StripFrom(t, k, mode) == StripFrom(s, i, mode)
    decreases |s| - i
  {
    if i == |s| {
      assert |t[k..]| == 0;
    } else {
      SameTests(t, k, s, i);
      match mode
      case Block =>
        if Closes(s, i) {
          RestDecides(t, k + 2, s, i + 2, Code);
        } else {
          RestDecides(t, k + 1, s, i + 1, Block);
        }
      case Line => RestDecides(t, k + 1, s, i + 1, if s[i] == '\n' then Code else Line);
      case Code =>
        if Opens(s, i, '*') {
          RestDecides(t, k + 2, s, i + 2, Block);
        } else if Opens(s, i, '/') {
          RestDecides(t, k + 2, s, i + 2, Line);
        } else {
          RestDecides(t, k + 1, s, i + 1, Code);
        }
    }
  }

  lemma PrefixIrrelevant(a: string, s: string, mode: Mode)
    ensures StripFrom(a + s, |a|, mode) == StripFrom(s, 0, mode)
  {
    assert (a + s)[|a|..] == s[0..];
    RestDecides(a + s, |a|, s, 0, mode);
  }

  lemma OneCharacter(c: char, t: string)
    requires !Opens([c] + t, 0, '*') && !Opens([c] + t, 0, '/')
    ensures Strip([c] + t) == [c] + Strip(t)
  {
    PrefixIrrelevant([c], t, Code);
  }

  lemma {:induction false} CodeRun(a: string, r: string)
    requires forall k: nat :: k < |a| ==> !Opens(a + r, k, '*') && !Opens(a + r, k, '/')
    ensures Strip(a + r) == a + Strip(r)
  {
    if a == "" {
      assert a + r == r;
    } else {
      var t := a[1..] + r;
      assert a + r == [a[0]] + t;
      forall k: nat | k < |a[1..]|
        ensures !Opens(t, k, '*') && !Opens(t, k, '/')
      {
        assert !Opens(a + r, k + 1, '*') && !Opens(a + r, k + 1, '/');
      }
      assert !Opens(a + r, 0, '*') && !Opens(a + r, 0, '/');
      OneCharacter(a[0], t);
      CodeRun(a[1..], r);
    }
  }

  lemma {:induction false} BlockRun(b: string, r: string)
    requires forall k: nat :: k < |b| ==> !Closes(b + r, k)
    ensures StripFrom(b + r, 0, Block) == Blanked(b) + StripFrom(r, 0, Block)
  {
    if b == "" {
      assert b + r == r;
    } else {
      var t := b[1..] + r;
      assert b + r == [b[0]] + t;
      forall k: nat | k < |b[1..]|
        ensures !Closes(t, k)
      {
        assert !Closes(b + r, k + 1);
      }
      BlockRun(b[1..], r);
      PrefixIrrelevant([b[0]], t, Block);
      assert Blanked(b) == [Blank(b[0])] + Blanked(b[1..]);
    }
  }

  lemma {:induction false} LineRun(b: string, r: string)
    requires '\n' !in b
    ensures StripFrom(b + r, 0, Line) == Blanked(b) + StripFrom(r, 0, Line)
  {
    if b == "" {
      assert b + r == r;
    } else {
      assert b + r == [b[0]] + (b[1..] + r);
      LineRun(b[1..], r);
      PrefixIrrelevant([b[0]], b[1..] + r, Line);
      assert Blanked(b) == [Blank(b[0])] + Blanked(b[1..]);
    }
  }

  /** Up to the first opener the text is kept; from there on the opener's mode decides. */
  lemma UpToOpener(a: string, second: char, r: string)
    requires NoOpener(a + "/") && (second == '*' || second == '/')
    ensures Strip(a + ['/', second] + r) == a + "  " + StripFrom(r, 0, if second == '*' then Block else Line)
  {
    var t := ['/', second] + r;
    assert a + ['/', second] + r == a + t;
    forall k: nat | k < |a|
      ensures !Opens(a + t, k, '*') && !Opens(a + t, k, '/')
    {
      assert !Opens(a + "/", k, '*') && !Opens(a + "/", k, '/');
    }
    CodeRun(a, t);
    PrefixIrrelevant(['/', second], r, if second == '*' then Block else Line);
  }

  lemma BlockEnds(b: string, c: string)
    requires EndsFirst(b)
    ensures StripFrom(b + ("*/" + c), 0, Block) == Blanked(b) + ("  " + Strip(c))
  {
    var t := "*/" + c;
    forall k: nat | k < |b|
      ensures !Closes(b + t, k)
    {
      assert !Closes(b + "*/", k);
    }
    BlockRun(b, t);
    PrefixIrrelevant("*/", c, Code);
  }

  lemma BlockIsBlanked(a: string, b: string, c: string)
    requires NoOpener(a + "/") && EndsFirst(b)
    ensures Strip(a + "/*" + b + "*/" + c) == a + Blanked("/*" + b + "*/") + Strip(c)
  {
    var t := b + ("*/" + c);
    assert a + "/*" + b + "*/" + c == a + "/*" + t;
    UpToOpener(a, '*', t);
    BlockEnds(b, c);
    assert Blanked("/*" + b + "*/") == "  " + Blanked(b) + "  ";
  }

  lemma OpenBlockIsBlanked(a: string, b: string)
    requires NoOpener(a + "/") && NoEnd(b)
    ensures Strip(a + "/*" + b) == a + Blanked("/*" + b)
  {
    assert b + "" == b;
    UpToOpener(a, '*', b);
    BlockRun(b, "");
    assert Blanked("/*" + b) == "  " + Blanked(b);
  }

  lemma LineEnds(b: string, c: string)
    requires '\n' !in b
    ensures StripFrom(b + ("\n" + c), 0, Line) == Blanked(b) + ("\n" + Strip(c))
  {
    LineRun(b, "\n" + c);
    PrefixIrrelevant("\n", c, Code);
  }

  lemma LineIsBlanked(a: string, b: string, c: string)
    requires NoOpener(a + "/") && '\n' !in b
    ensures Strip(a + "//" + b + "\n" + c) == a + Blanked("//" + b + "\n") + Strip(c)
  {
    var t := b + ("\n" + c);
    assert a + "//" + b + "\n" + c == a + "//" + t;
    UpToOpener(a, '/', t);
    LineEnds(b, c);
    assert Blanked("//" + b + "\n") == "  " + Blanked(b) + "\n";
  }

  lemma LastLineIsBlanked(a: string, b: string)
    requires NoOpener(a + "/") && '\n' !in b
    ensures Strip(a + "//" + b) == a + Blanked("//" + b)
  {
    assert b + "" == b;
    UpToOpener(a, '/', b);
    LineRun(b, "");
    assert Blanked("//" + b) == "  " + Blanked(b);
  }

  lemma First(p: nat -> bool, n: nat) returns (k: nat)
    requires p(n)
    ensures k <= n && p(k) && forall i: nat :: i < k ==> !p(i)
  {
    k := 0;
    while !p(k)
      invariant k <= n && forall i: nat :: i < k ==> !p(i)
      decreases n - k
    {
      k := k + 1;
    }
  }

  /** What a text without a comment, with one to come, or ending in one looks like. */
  ghost predicate Shaped(s: string) {
    || NoOpener(s)
    || (exists a, b, c :: StartsBlock(s, a, b, c))
    || (exists a, b :: EndsInBlock(s, a, b))
    || (exists a, b, c :: StartsLine(s, a, b, c))
    || (exists a, b :: EndsInLine(s, a, b))
  }

  lemma OpenedShape(s: string, a: string, second: char, r: string)
    requires NoOpener(a + "/") && (second == '*' || second == '/') && s == a + ['/', second] + r
    ensures Shaped(s)
  {
    if second == '/' && '\n' in r {
      var n :| 0 <= n < |r| && r[n] == '\n';
      var isNewline := (i: nat) => i < |r| && r[i] == '\n';
      var k := First(isNewline, n);
      forall i | 0 <= i < k
        ensures r[i] != '\n'
      {
        assert !isNewline(i);
      }
      assert s == a + "//" + r[..k] + "\n" + r[k + 1..];
      assert StartsLine(s, a, r[..k], r[k + 1..]);
    } else if second == '/' {
      assert EndsInLine(s, a, r);
    } else if NoEnd(r) {
      assert EndsInBlock(s, a, r);
    } else {
      var n: nat :| Closes(r, n);
      var closes := (i: nat) => Closes(r, i);
      var k := First(closes, n);
      assert s == a + "/*" + r[..k] + "*/" + r[k + 2..];
      forall i: nat | i < k
        ensures !Closes(r[..k] + "*/", i)
      {
        assert !closes(i);
      }
      assert StartsBlock(s, a, r[..k], r[k + 2..]);
    }
  }

  lemma EveryTextIsShaped(s: string)
    ensures Shaped(s)
  {
    if !NoOpener(s) {
      var n: nat :| Opens(s, n, '/') || Opens(s, n, '*');
      var opens := (i: nat) => Opens(s, i, '/') || Opens(s, i, '*');
      var k := First(opens, n);
      forall i: nat
        ensures !Opens(s[..k] + "/", i, '/') && !Opens(s[..k] + "/", i, '*')
      {
        assert i < k ==> !opens(i);
      }
      assert s == s[..k] + ['/', s[k + 1]] + s[k + 2..];
      OpenedShape(s, s[..k], s[k + 1], s[k + 2..]);
    }
  }

  lemma StripIsLawful()
    ensures Lawful(Strip)
  {
    forall s | NoOpener(s)
      ensures Strip(s) == s
    {
      NothingToStrip(s, 0);
    }
    forall s, a, b, c | StartsBlock(s, a, b, c)
      ensures Strip(s) == a + Blanked("/*" + b + "*/") + Strip(c)
    {
      BlockIsBlanked(a, b, c);
    }
    forall s, a, b | EndsInBlock(s, a, b)
      ensures Strip(s) == a + Blanked("/*" + b)
    {
      OpenBlockIsBlanked(a, b);
    }
    forall s, a, b, c | StartsLine(s, a, b, c)
      ensures Strip(s) == a + Blanked("//" + b + "\n") + Strip(c)
    {
      LineIsBlanked(a, b, c);
    }
    forall s, a, b | EndsInLine(s, a, b)
      ensures Strip(s) == a + Blanked("//" + b)
    {
      LastLineIsBlanked(a, b);
    }
  }

  lemma {:induction false} LawsDetermine(f: string -> string, g: string -> string, s: string)
    requires Lawful(f) && Lawful(g)
    ensures f(s) == g(s)
    decreases |s|
  {
    EveryTextIsShaped(s);
    if NoOpener(s) {
    } else if a, b, c :| StartsBlock(s, a, b, c) {
      LawsDetermine(f, g, c);
    } else if a, b :| EndsInBlock(s, a, b) {
    } else if a, b, c :| StartsLine(s, a, b, c) {
      LawsDetermine(f, g, c);
    } else {
      var a, b :| EndsInLine(s, a, b);
    }
  }

  /** The laws hold of stripping and of nothing else. */
  lemma LawfulIff(f: string -> string)
    ensures Lawful(f) <==> forall s :: f(s) == Strip(s)
  {
    StripIsLawful();
    if Lawful(f) {
      forall s
        ensures f(s) == Strip(s)
      {
        LawsDetermine(f, Strip, s);
      }
    }
  }

  // ----- continuation folding and reported lines -----

  predicate Continued(s: string) {
    |s| >= 2 && s[0] == '\\' && s[1] == '\n'
  }

  /** `replace("\\\n", " ")`. */
  function Fold(s: string): string {
    if s == "" then ""
    else if Continued(s) then " " + Fold(s[2..])
    else [s[0]] + Fold(s[1..])
  }

  ghost predicate NoContinuation(s: string) {
    forall k: nat :: k < |s| ==> !Continued(s[k..])
  }

  lemma {:induction false} FoldKeeps(a: string)
    requires NoContinuation(a)
    ensures Fold(a) == a
  {
    if a != "" {
      assert a[0..] == a;
      forall k: nat | k < |a[1..]|
        ensures !Continued(a[1..][k..])
      {
        assert a[1..][k..] == a[k + 1..];
      }
      FoldKeeps(a[1..]);
    }
  }

  lemma {:induction false} FoldJoins(a: string, b: string)
    ensures Fold(a + "\\\n" + b) == Fold(a) + " " + Fold(b)
  {
    var t := a + "\\\n" + b;
    if a == "" {
      assert t[2..] == b;
    } else {
      var n := if Continued(a) then 2 else 1;
      assert Continued(t) <==> Continued(a);
      assert t[n..] == a[n..] + "\\\n" + b;
      FoldJoins(a[n..], b);
    }
  }

  /** A text without continuations is kept; each continuation is one blank, whatever stands around it. */
  lemma FoldLaws(a: string, b: string)
    ensures NoContinuation(a) ==> Fold(a) == a
    ensures Fold(a + "\\\n" + b) == Fold(a) + " " + Fold(b)
  {
    if NoContinuation(a) {
      FoldKeeps(a);
    }
    FoldJoins(a, b);
  }

  /** Where position p of the folded text comes from. */
  function Origin(s: string, p: nat): nat {
    if s == "" || p == 0 then 0
    else if Continued(s) then 2 + Origin(s[2..], p - 1)
    else 1 + Origin(s[1..], p - 1)
  }

  /** How many continuations were folded before position p. */
  function FoldsBefore(s: string, p: nat): nat {
    if s == "" || p == 0 then 0
    else if Continued(s) then 1 + FoldsBefore(s[2..], p - 1)
    else FoldsBefore(s[1..], p - 1)
  }

  function Newlines(s: string): nat {
    if s == "" then 0 else (if s[0] == '\n' then 1 else 0) + Newlines(s[1..])
  }

  lemma {:induction false} NewlinesConcat(a: string, b: string)
    ensures Newlines(a + b) == Newlines(a) + Newlines(b)
  {
    if a == "" {
      assert a + b == b;
    } else {
      assert (a + b)[1..] == a[1..] + b;
      NewlinesConcat(a[1..], b);
    }
  }

  lemma {:induction false} NewlinesByPosition(a: string, b: string)
    requires |a| == |b| && forall k :: 0 <= k < |a| ==> (a[k] == '\n' <==> b[k] == '\n')
    ensures Newlines(a) == Newlines(b)
  {
    if a != "" {
      NewlinesByPosition(a[1..], b[1..]);
    }
  }

  lemma {:induction false} FoldCountsLines(s: string, p: nat)
    requires p <= |Fold(s)|
    ensures Origin(s, p) <= |s|
    ensures Newlines(Fold(s)[..p]) + FoldsBefore(s, p) == Newlines(s[..Origin(s, p)])
  {
    if s != "" && p > 0 {
      var n := if Continued(s) then 2 else 1;
      var f := Fold(s[n..]);
      FoldCountsLines(s[n..], p - 1);
      var q := Origin(s[n..], p - 1);
      assert Fold(s)[..p] == [Fold(s)[0]] + f[..p - 1];
      assert s[..n + q] == s[..n] + s[n..][..q];
      NewlinesConcat([Fold(s)[0]], f[..p - 1]);
      NewlinesConcat(s[..n], s[n..][..q]);
      assert n == 2 ==> s[..2] == ['\\', '\n'];
      assert n == 1 ==> s[..1] == [s[0]];
    }
  }

  /** Each character of the folded text stands for itself, or for the continuation it came from. */
  lemma {:induction false} OriginIsSource(s: string, p: nat)
    requires p < |Fold(s)|
    ensures var q := Origin(s, p);
            q < |s| && Fold(s)[p] == (if Continued(s[q..]) then ' ' else s[q])
  {
    if p == 0 {
      assert s[0..] == s;
    } else {
      var n := if Continued(s) then 2 else 1;
      OriginIsSource(s[n..], p - 1);
      var q := Origin(s[n..], p - 1);
      assert s[n..][q..] == s[n + q..];
    }
  }

  /** The line number reported for a match starting at position p of the cleaned text. */
  function ReportedLine(source: string, p: nat): nat
    requires p <= |Fold(Strip(source))|
  {
    Newlines(Fold(Strip(source))[..p]) + 1
  }

  function PhysicalLine(source: string, q: nat): nat
    requires q <= |source|
  {
    Newlines(source[..q]) + 1
  }

  /** A reported line falls short of the physical one by exactly the continuations folded before it. */
  lemma ReportedLineIsShort(source: string, p: nat)
    requires p <= |Fold(Strip(source))|
    ensures Origin(Strip(source), p) <= |source|
    ensures ReportedLine(source, p) + FoldsBefore(Strip(source), p) == PhysicalLine(source, Origin(Strip(source), p))
  {
    var t := Strip(source);
    StripKeepsLines(source);
    FoldCountsLines(t, p);
    NewlinesByPosition(t[..Origin(t, p)], source[..Origin(t, p)]);
  }
}
