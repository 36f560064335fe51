/** Text by lines: what a line is to a multi-line regular expression, the non-blank
    lines of a text, and the newline clean-ups that leave those lines alone. */
module Lines {
  import opened Text

  predicate IsLineEnd(c: char) {
    c == '\n' || c == '\r' || c == '\U{2028}' || c == '\U{2029}'
  }

  predicate OneLine(s: string) {
    forall i :: 0 <= i < |s| ==> !IsLineEnd(s[i])
  }

  function LineLength(s: string): (n: nat)
    ensures n <= |s|
  {
    if s == "" || IsLineEnd(s[0]) then 0 else 1 + LineLength(s[1..])
  }

  /** The text behind the first line and its line end. */
  function RestLines(s: string): (result: string)
    ensures |result| <= |s| && (s != "" ==> |result| < |s|)
  {
    if LineLength(s) == |s| then "" else s[LineLength(s) + 1..]
  }

  function FirstLine(s: string): string {
    s[..LineLength(s)]
  }

  function KeepIfText(line: string): seq<string> {
    if Blank(line) then [] else [line]
  }

  /** The lines that hold more than whitespace, in order. */
  function NonBlankLines(s: string): seq<string>
    decreases |s|
  {
    if s == "" then [] else KeepIfText(FirstLine(s)) + NonBlankLines(RestLines(s))
  }

  lemma {:induction false} FirstLineSpec(s: string)
    ensures OneLine(FirstLine(s))
    ensures LineLength(s) < |s| ==> IsLineEnd(s[LineLength(s)])
  {
    if s != "" && !IsLineEnd(s[0]) {
      FirstLineSpec(s[1..]);
      assert FirstLine(s) == [s[0]] + FirstLine(s[1..]);
    }
  }

  lemma {:induction false} LineLengthIs(a: string, b: string)
    requires OneLine(a) && (b == "" || IsLineEnd(b[0]))
    ensures LineLength(a + b) == |a|
    ensures FirstLine(a + b) == a
  {
    if a == "" {
      assert a + b == b;
    } else {
      LineLengthIs(a[1..], b);
      assert (a + b)[1..] == a[1..] + b;
    }
  }

  lemma LinesUnfold(s: string)
    ensures NonBlankLines(s)
         == if s == "" then [] else KeepIfText(FirstLine(s)) + NonBlankLines(RestLines(s))
  {
  }

  lemma FirstOfBlank()
    ensures KeepIfText("") == [] && NonBlankLines("") == []
  {
  }

  lemma LinesWhere(line: string, e: char, rest: string)
    requires OneLine(line) && IsLineEnd(e)
    ensures FirstLine(line + [e] + rest) == line && RestLines(line + [e] + rest) == rest
  {
    LineLengthIs(line, [e] + rest);
    assert line + ([e] + rest) == line + [e] + rest;
  }

  /** A line end separates: the non-blank lines of both sides, one after the other. */
  lemma {:induction false} LinesJoin(a: string, t: char, b: string)
    requires IsLineEnd(t)
    ensures NonBlankLines(a + [t] + b) == NonBlankLines(a) + NonBlankLines(b)
    decreases |a|
  {
    hide NonBlankLines, KeepIfText, RestLines, FirstLine, Blank;
    var line, rest := FirstLine(a), RestLines(a);
    var whole := a + [t] + b;
    SplitFirst(a);
    LinesUnfold(a);
    LinesUnfold(whole);
    FirstOfBlank();
    if line == a {
      LinesWhere(a, t, b);
      NoLines();
      assert NonBlankLines(a) == KeepIfText(a);
    } else {
      var e := a[|line|];
      LinesWhere(line, e, rest + [t] + b);
      JoinFive(line, e, rest, t, b);
      LinesJoin(rest, t, b);
      JoinLists(KeepIfText(line), NonBlankLines(rest), NonBlankLines(b));
    }
  }

  lemma JoinFive(line: string, e: char, rest: string, t: char, b: string)
    ensures line + [e] + (rest + [t] + b) == line + [e] + rest + [t] + b
  {
  }

  lemma JoinLists<T>(a: seq<T>, b: seq<T>, c: seq<T>)
    ensures a + (b + c) == a + b + c
  {
  }

  lemma SplitFirst(a: string)
    ensures OneLine(FirstLine(a)) && |FirstLine(a)| <= |a|
    ensures FirstLine(a) == a ==> RestLines(a) == ""
    ensures FirstLine(a) != a ==> |FirstLine(a)| < |a|
    ensures FirstLine(a) != a ==> IsLineEnd(a[|FirstLine(a)|])
    ensures FirstLine(a) != a ==> a == FirstLine(a) + [a[|FirstLine(a)|]] + RestLines(a)
  {
    FirstLineSpec(a);
  }

  lemma LinesOfOneLine(line: string)
    requires OneLine(line)
    ensures NonBlankLines(line) == KeepIfText(line)
  {
    LineLengthIs(line, "");
    assert line + "" == line;
    assert NonBlankLines("") == [];
  }

  lemma LinesJoinAs(a: string, t: char, b: string, whole: string)
    requires IsLineEnd(t) && whole == a + [t] + b
    ensures NonBlankLines(whole) == NonBlankLines(a) + NonBlankLines(b)
  {
    LinesJoin(a, t, b);
  }

  lemma LinesOfLineEnd(t: char, b: string)
    requires IsLineEnd(t)
    ensures NonBlankLines([t] + b) == NonBlankLines(b)
  {
    LinesJoinAs("", t, b, [t] + b);
    assert NonBlankLines("") == [];
  }

  lemma LinesOfTrailing(x: string, t: char, whole: string)
    requires IsLineEnd(t) && whole == x + [t]
    ensures NonBlankLines(whole) == NonBlankLines(x)
  {
    LinesJoinAs(x, t, "", whole);
    assert NonBlankLines("") == [];
  }

  /** Text ending in a line end, or empty. */
  predicate EndsLine(s: string) {
    s == "" || IsLineEnd(s[|s| - 1])
  }

  /** Text starting with a line end, or empty. */
  predicate StartsLine(s: string) {
    s == "" || IsLineEnd(s[0])
  }

  lemma LinesConcat(a: string, b: string)
    requires EndsLine(a) || StartsLine(b)
    ensures NonBlankLines(a + b) == NonBlankLines(a) + NonBlankLines(b)
  {
    hide NonBlankLines;
    NoLines();
    if a == "" {
      assert a + b == b;
    } else if b == "" {
      assert a + b == a;
    } else if IsLineEnd(b[0]) {
      LinesJoinAs(a, b[0], b[1..], a + b);
      LinesJoinAs("", b[0], b[1..], b);
    } else {
      var n := |a| - 1;
      LinesJoinAs(a[..n], a[n], b, a + b);
      LinesOfTrailing(a[..n], a[n], a);
    }
  }

  lemma NoLines()
    ensures NonBlankLines("") == []
  {
  }

  lemma {:induction false} BlankHasNoLines(s: string)
    ensures Blank(s) <==> NonBlankLines(s) == []
    decreases |s|
  {
    hide NonBlankLines, FirstLine, RestLines, Blank;
    LinesUnfold(s);
    SplitFirst(s);
    FirstOfBlank();
    NothingIsBlank();
    if s != "" {
      BlankHasNoLines(RestLines(s));
      if FirstLine(s) != s {
        var e := s[|FirstLine(s)|];
        EndIsSpace(e);
        BlankParts(FirstLine(s), e, RestLines(s));
      }
    }
  }

  lemma NothingIsBlank()
    ensures Blank("")
  {
  }

  lemma EndIsSpace(c: char)
    ensures IsLineEnd(c) ==> IsSpace(c)
  {
  }

  lemma BlankParts(a: string, c: char, b: string)
    requires IsSpace(c)
    ensures Blank(a + [c] + b) <==> Blank(a) && Blank(b)
  {
    var s := a + [c] + b;
    if Blank(s) {
      forall i | 0 <= i < |a|
        ensures IsSpace(a[i])
      {
        assert s[i] == a[i];
      }
      forall i | 0 <= i < |b|
        ensures IsSpace(b[i])
      {
        assert s[|a| + 1 + i] == b[i];
      }
    }
  }

  /** Every non-blank line is a single line that holds text. */
  lemma {:induction false} LinesAreText(s: string, i: nat)
    requires i < |NonBlankLines(s)|
    ensures OneLine(NonBlankLines(s)[i]) && !Blank(NonBlankLines(s)[i])
    decreases |s|
  {
    FirstLineSpec(s);
    var kept := KeepIfText(FirstLine(s));
    if i >= |kept| {
      LinesAreText(RestLines(s), i - |kept|);
    }
  }

  /** A pattern without a line end stands in joined text exactly when it stands in a part. */
  lemma ContainsAcross(a: string, e: char, b: string, p: string)
    requires p != "" && e !in p
    ensures Contains(a + [e] + b, p) <==> Contains(a, p) || Contains(b, p)
  {
    hide Find;
    var s := a + [e] + b;
    assert s == a + ([e] + b) == (a + [e]) + b;
    if Contains(a, p) {
      FindOccurs(a, p);
      OccursInPrefix(a, [e] + b, p, Find(a, p).value);
      FindFirst(s, p, Find(a, p).value);
    }
    if Contains(b, p) {
      FindOccurs(b, p);
      OccursBehind(a + [e], b, p, Find(b, p).value);
      FindFirst(s, p, |a| + 1 + Find(b, p).value);
    }
    if Contains(s, p) {
      FindOccurs(s, p);
      OneSide(a, e, b, p, Find(s, p).value);
    }
  }

  lemma OneSide(a: string, e: char, b: string, p: string, j: nat)
    requires p != "" && e !in p && OccursAt(a + [e] + b, p, j)
    ensures Contains(a, p) || Contains(b, p)
  {
    hide Find;
    var s := a + [e] + b;
    assert s == a + ([e] + b) == (a + [e]) + b;
    if j + |p| <= |a| {
      OccursInPrefix(a, [e] + b, p, j);
      FindFirst(a, p, j);
    } else if j > |a| {
      OccursBehind(a + [e], b, p, j - |a| - 1);
      FindFirst(b, p, j - |a| - 1);
    } else {
      EndInside(s, e, p, j, |a|);
    }
  }

  lemma EndInside(s: string, e: char, p: string, j: nat, k: nat)
    requires OccursAt(s, p, j) && j <= k < j + |p| && s[k] == e
    ensures e in p
  {
    assert s[j..j + |p|][k - j] == s[k];
  }

  lemma BlankLacks(s: string, p: string)
    requires Blank(s) && p != "" && !IsSpace(p[0])
    ensures !Contains(s, p)
  {
    hide Find, IsSpace;
    if Contains(s, p) {
      FindOccurs(s, p);
      BlankStart(s, p, Find(s, p).value);
    }
  }

  lemma BlankStart(s: string, p: string, j: nat)
    requires Blank(s) && p != "" && OccursAt(s, p, j)
    ensures IsSpace(p[0])
  {
    assert p[0] == s[j..j + |p|][0] == s[j];
  }

  lemma EndNotInLine(p: string, e: char)
    requires OneLine(p) && IsLineEnd(e)
    ensures e !in p
  {
  }

  /** A one-line pattern that starts with text stands in a text exactly when it stands in
      one of its non-blank lines. */
  lemma {:induction false} ContainsByLines(s: string, p: string)
    requires OneLine(p) && p != "" && !IsSpace(p[0])
    ensures Contains(s, p) <==> exists i :: 0 <= i < |NonBlankLines(s)| && Contains(NonBlankLines(s)[i], p)
    decreases |s|
  {
    hide NonBlankLines, Contains, Blank, KeepIfText, IsSpace;
    LinesUnfold(s);
    NoLines();
    SplitFirst(s);
    var line, rest := FirstLine(s), RestLines(s);
    if line == s {
      LinesOfOneLine(s);
      KeptContains(s, p);
    } else {
      var e := s[|line|];
      EndNotInLine(p, e);
      ContainsAcross(line, e, rest, p);
      ContainsByLines(rest, p);
      KeptContains(line, p);
      AmongBoth(KeepIfText(line), NonBlankLines(rest), p);
    }
  }

  lemma KeptContains(line: string, p: string)
    requires p != "" && !IsSpace(p[0])
    ensures Contains(line, p) <==> exists i :: 0 <= i < |KeepIfText(line)| && Contains(KeepIfText(line)[i], p)
  {
    hide Contains, Blank, IsSpace;
    if Blank(line) {
      BlankLacks(line, p);
    } else {
      assert KeepIfText(line)[0] == line;
    }
  }

  lemma AmongBoth(a: seq<string>, b: seq<string>, p: string)
    ensures (exists i :: 0 <= i < |a + b| && Contains((a + b)[i], p))
       <==> (exists i :: 0 <= i < |a| && Contains(a[i], p)) || (exists i :: 0 <= i < |b| && Contains(b[i], p))
  {
    hide Contains;
    assert forall i :: 0 <= i < |a| ==> (a + b)[i] == a[i];
    assert forall i :: 0 <= i < |b| ==> (a + b)[|a| + i] == b[i];
    if i :| 0 <= i < |b| && Contains(b[i], p) {
      assert Contains((a + b)[|a| + i], p);
    }
    if i :| 0 <= i < |a + b| && Contains((a + b)[i], p) {
      assert i >= |a| ==> (a + b)[i] == b[i - |a|];
    }
  }

  // ----- newline clean-ups

  /** `replace(/^\n+/, "")`. */
  function SkipNewlines(s: string): (result: string)
    ensures |result| <= |s| && (result == "" || result[0] != '\n')
  {
    if s != "" && s[0] == '\n' then SkipNewlines(s[1..]) else s
  }

  /** `replace(/^\n+/, "\n")`. */
  function SqueezeLeading(s: string): string {
    if s != "" && s[0] == '\n' then "\n" + SkipNewlines(s) else s
  }

  function DropTrailingNewlines(s: string): (result: string)
    ensures |result| <= |s| && (result == "" || result[|result| - 1] != '\n')
  {
    if s != "" && s[|s| - 1] == '\n' then DropTrailingNewlines(s[..|s| - 1]) else s
  }

  /** `replace(/\n+$/, "\n")`. */
  function SqueezeTrailing(s: string): string {
    if s != "" && s[|s| - 1] == '\n' then DropTrailingNewlines(s) + "\n" else s
  }

  predicate LongRun(s: string) {
    |s| >= 3 && s[0] == '\n' && s[1] == '\n' && s[2] == '\n'
  }

  /** `replace(/\n{3,}/g, "\n\n")`. */
  function CollapseNewlines(s: string): string
    decreases |s|
  {
    if s == "" then ""
    else if LongRun(s) then
      assert |SkipNewlines(s)| <= |s[1..]|;
      "\n\n" + CollapseNewlines(SkipNewlines(s))
    else [s[0]] + CollapseNewlines(s[1..])
  }

  lemma {:induction false} SkipKeepsLines(s: string)
    ensures NonBlankLines(SkipNewlines(s)) == NonBlankLines(s)
  {
    if s != "" && s[0] == '\n' {
      SkipKeepsLines(s[1..]);
      LinesOfLineEnd('\n', s[1..]);
      assert ['\n'] + s[1..] == s;
    }
  }

  lemma SqueezeLeadingKeepsLines(s: string)
    ensures NonBlankLines(SqueezeLeading(s)) == NonBlankLines(s)
  {
    SkipKeepsLines(s);
    LinesOfLineEnd('\n', SkipNewlines(s));
  }

  lemma {:induction false} DropKeepsLines(s: string)
    ensures NonBlankLines(DropTrailingNewlines(s)) == NonBlankLines(s)
  {
    hide NonBlankLines;
    if s != "" && s[|s| - 1] == '\n' {
      var n := |s| - 1;
      DropKeepsLines(s[..n]);
      LinesOfTrailing(s[..n], '\n', s);
    }
  }

  lemma SqueezeTrailingKeepsLines(s: string)
    ensures NonBlankLines(SqueezeTrailing(s)) == NonBlankLines(s)
  {
    DropKeepsLines(s);
    if s != "" && s[|s| - 1] == '\n' {
      LinesOfTrailing(DropTrailingNewlines(s), '\n', SqueezeTrailing(s));
    }
  }

  lemma CollapseUnfold(s: string)
    requires s != ""
    ensures CollapseNewlines(s)
         == if LongRun(s) then "\n\n" + CollapseNewlines(SkipNewlines(s)) else [s[0]] + CollapseNewlines(s[1..])
    ensures LongRun(s) ==> |SkipNewlines(s)| < |s|
  {
    if LongRun(s) {
      assert |SkipNewlines(s)| <= |s[1..]|;
    }
  }

  /** Collapsing runs of newlines keeps every non-blank line, whatever stands before. */
  lemma {:induction false} CollapseKeepsLinesBehind(a: string, s: string)
    ensures NonBlankLines(a + CollapseNewlines(s)) == NonBlankLines(a + s)
    decreases |s|
  {
    hide NonBlankLines, CollapseNewlines, SkipNewlines;
    if s == "" {
      CollapseNothing();
    } else {
      CollapseUnfold(s);
      if LongRun(s) {
        var r := SkipNewlines(s);
        CollapseKeepsLinesBehind("", r);
        assert "" + CollapseNewlines(r) == CollapseNewlines(r) && "" + r == r;
        SkipKeepsLines(s);
        LinesConcat(a, s);
        LinesBehindTwo(a, CollapseNewlines(r), a + CollapseNewlines(s));
      } else {
        CollapseKeepsLinesBehind(a + [s[0]], s[1..]);
        assert a + [s[0]] + s[1..] == a + s;
        assert a + [s[0]] + CollapseNewlines(s[1..]) == a + CollapseNewlines(s);
      }
    }
  }

  lemma CollapseNothing()
    ensures CollapseNewlines("") == ""
  {
  }

  lemma LinesBehindTwo(a: string, c: string, whole: string)
    requires whole == a + ("\n\n" + c)
    ensures NonBlankLines(whole) == NonBlankLines(a) + NonBlankLines(c)
  {
    hide NonBlankLines;
    LinesJoinAs(a, '\n', "\n" + c, whole);
    LinesJoinAs("", '\n', c, "\n" + c);
    NoLines();
  }

  lemma CollapseKeepsLines(s: string)
    ensures NonBlankLines(CollapseNewlines(s)) == NonBlankLines(s)
  {
    CollapseKeepsLinesBehind("", s);
    assert "" + CollapseNewlines(s) == CollapseNewlines(s) && "" + s == s;
  }

  // ----- collapsing, character by character

  lemma {:induction false} CollapseEnds(s: string)
    ensures |CollapseNewlines(s)| <= |s|
    ensures s == "" <==> CollapseNewlines(s) == ""
    ensures s != "" ==> CollapseNewlines(s)[0] == s[0]
    decreases |s|
  {
    hide CollapseNewlines;
    CollapseNothing();
    if s != "" {
      CollapseUnfold(s);
      if LongRun(s) {
        SkipNewlinesShrinks(s);
        CollapseEnds(SkipNewlines(s));
      } else {
        CollapseEnds(s[1..]);
      }
    }
  }

  lemma SkipNewlinesShrinks(s: string)
    requires LongRun(s)
    ensures |SkipNewlines(s)| <= |s| - 3
  {
    assert SkipNewlines(s) == SkipNewlines(s[1..]) == SkipNewlines(s[1..][1..]) == SkipNewlines(s[1..][1..][1..]);
  }

  lemma {:induction false} CollapseLast(s: string)
    requires s != ""
    ensures CollapseNewlines(s) != "" && CollapseNewlines(s)[|CollapseNewlines(s)| - 1] == s[|s| - 1]
    decreases |s|
  {
    hide CollapseNewlines;
    CollapseNothing();
    CollapseUnfold(s);
    CollapseEnds(s);
    if LongRun(s) {
      var r := SkipNewlines(s);
      SkipIsSuffix(s);
      if r != "" {
        CollapseLast(r);
      }
    } else if |s| > 1 {
      CollapseLast(s[1..]);
    } else {
      assert s[1..] == "";
    }
  }

  /** Skipping newlines leaves the text behind them. */
  lemma {:induction false} SkipIsSuffix(s: string)
    ensures |SkipNewlines(s)| <= |s| && SkipNewlines(s) == s[|s| - |SkipNewlines(s)|..]
    ensures SkipNewlines(s) == "" && s != "" ==> s[|s| - 1] == '\n'
  {
    if s != "" && s[0] == '\n' {
      SkipIsSuffix(s[1..]);
    }
  }

  /** Where no run of newlines crosses the border, collapsing works on both sides alone. */
  predicate NoRunAcross(x: string, y: string) {
    x == "" || y == "" || x[|x| - 1] != '\n' || y[0] != '\n'
  }

  lemma {:induction false} SkipConcat(x: string, y: string)
    requires NoRunAcross(x, y) && x != ""
    ensures SkipNewlines(x + y) == SkipNewlines(x) + y
  {
    assert (x + y)[1..] == x[1..] + y;
    if x[0] == '\n' {
      if |x| == 1 {
        assert x[1..] + y == y;
      } else {
        SkipConcat(x[1..], y);
      }
    }
  }

  lemma LongRunConcat(x: string, y: string)
    requires NoRunAcross(x, y) && x != ""
    ensures LongRun(x + y) <==> LongRun(x)
  {
    assert forall i :: 0 <= i < |x| ==> (x + y)[i] == x[i];
    if |x| < 3 && y != "" {
      assert (x + y)[|x|] == y[0] && (x + y)[|x| - 1] == x[|x| - 1];
    }
  }

  lemma {:induction false} CollapseConcat(x: string, y: string)
    requires NoRunAcross(x, y)
    ensures CollapseNewlines(x + y) == CollapseNewlines(x) + CollapseNewlines(y)
    decreases |x|
  {
    hide CollapseNewlines, LongRun, SkipNewlines, NoRunAcross;
    CollapseNothing();
    if x == "" {
      assert x + y == y;
    } else {
      CollapseUnfold(x);
      CollapseUnfold(x + y);
      LongRunConcat(x, y);
      NoRunBehind(x, y);
      if LongRun(x) {
        SkipConcat(x, y);
        CollapseConcat(SkipNewlines(x), y);
        JoinLists("\n\n", CollapseNewlines(SkipNewlines(x)), CollapseNewlines(y));
      } else {
        assert (x + y)[1..] == x[1..] + y && (x + y)[0] == x[0];
        CollapseConcat(x[1..], y);
        JoinLists([x[0]], CollapseNewlines(x[1..]), CollapseNewlines(y));
      }
    }
  }

  lemma NoRunBehind(x: string, y: string)
    requires NoRunAcross(x, y) && x != ""
    ensures NoRunAcross(x[1..], y) && NoRunAcross(SkipNewlines(x), y)
  {
    hide SkipNewlines;
    SkipIsSuffix(x);
  }

  lemma CollapseSmall()
    ensures CollapseNewlines("\n\n") == "\n\n" && CollapseNewlines("\n\n\n") == "\n\n"
  {
    assert "\n\n"[1..] == "\n" && "\n"[1..] == "";
    assert CollapseNewlines("\n") == "\n" + CollapseNewlines("");
    var r := "\n\n\n";
    assert r[1..] == "\n\n" && r[1..][1..] == "\n" && r[1..][1..][1..] == "";
    assert SkipNewlines(r) == SkipNewlines(r[1..]) == SkipNewlines(r[1..][1..]) == "";
  }

  lemma {:induction false} CollapseIdempotent(s: string)
    ensures CollapseNewlines(CollapseNewlines(s)) == CollapseNewlines(s)
    decreases |s|
  {
    hide CollapseNewlines, SkipNewlines;
    CollapseNothing();
    if s != "" {
      CollapseUnfold(s);
      if LongRun(s) {
        var r := SkipNewlines(s);
        CollapseEnds(r);
        CollapseIdempotent(r);
        CollapseSmall();
        CollapseConcat("\n\n", CollapseNewlines(r));
      } else {
        CollapseIdempotent(s[1..]);
        NoRunAfterCollapse(s);
        CollapseUnfold(CollapseNewlines(s));
        assert CollapseNewlines(s)[1..] == CollapseNewlines(s[1..]);
      }
    }
  }

  lemma NoRunAfterCollapse(s: string)
    requires s != "" && !LongRun(s)
    ensures !LongRun(CollapseNewlines(s)) && CollapseNewlines(s) == [s[0]] + CollapseNewlines(s[1..])
  {
    hide CollapseNewlines;
    CollapseUnfold(s);
    var t := s[1..];
    CollapseEnds(t);
    if t != "" && !LongRun(t) {
      CollapseUnfold(t);
      CollapseEnds(t[1..]);
      assert |t| > 1 ==> t[1..][0] == s[2];
    }
  }

  /** Collapsing keeps the first line. */
  lemma {:induction false} CollapseFirstLine(s: string)
    ensures FirstLine(CollapseNewlines(s)) == FirstLine(s)
    decreases |s|
  {
    hide CollapseNewlines;
    CollapseNothing();
    if s != "" {
      CollapseEnds(s);
      CollapseUnfold(s);
      if !IsLineEnd(s[0]) {
        CollapseFirstLine(s[1..]);
        var c := CollapseNewlines(s);
        assert c[1..] == CollapseNewlines(s[1..]);
        assert FirstLine(s) == [s[0]] + FirstLine(s[1..]);
        assert FirstLine(c) == [c[0]] + FirstLine(c[1..]);
      }
    }
  }

  /** Text without a newline is not changed. */
  lemma {:induction false} OneLineCollapses(s: string)
    requires '\n' !in s
    ensures CollapseNewlines(s) == s
  {
    hide CollapseNewlines;
    CollapseNothing();
    if s != "" {
      CollapseUnfold(s);
      OneLineCollapses(s[1..]);
    }
  }

  // ----- cutting at a line start is determined by the lines

  lemma CutIsUniqueLeft(p: string, q: string, p': string, q': string)
    requires p + q == p' + q' && EndsLine(p) && EndsLine(p') && |p| <= |p'|
    requires NonBlankLines(q) == NonBlankLines(q')
    requires q == "" || !IsSpace(q[0])
    ensures p == p' && q == q'
  {
    hide NonBlankLines;
    var d := p'[|p|..];
    assert p == (p + q)[..|p|] == (p' + q')[..|p|] == p'[..|p|];
    assert p' == p + d;
    assert q == (p + q)[|p|..] == (p' + q')[|p|..] == d + q';
    assert d != "" ==> d[|d| - 1] == p'[|p'| - 1] && q[0] == d[0];
    LinesConcat(d, q');
    assert |NonBlankLines(d)| == 0;
    BlankHasNoLines(d);
  }

  /** Two cuts at line starts with the same lines behind them are the same cut. */
  lemma CutIsUnique(p: string, q: string, p': string, q': string)
    requires p + q == p' + q' && EndsLine(p) && EndsLine(p')
    requires NonBlankLines(q) == NonBlankLines(q')
    requires q == "" || !IsSpace(q[0])
    requires q' == "" || !IsSpace(q'[0])
    ensures p == p' && q == q'
  {
    hide NonBlankLines;
    if |p| <= |p'| {
      CutIsUniqueLeft(p, q, p', q');
    } else {
      CutIsUniqueLeft(p', q', p, q);
    }
  }
}
