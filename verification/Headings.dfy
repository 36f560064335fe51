/** Release headings.  The matchers follow the multi-line regular expressions character
    by character, and are proved to agree with a plain reading by non-blank lines. */
module Headings {
  import opened Prelude
  import opened Text
  import opened Lines

  /** `## text`, `## [version]` with an optional date, or any bracketed heading with an optional date. */
  datatype Heading =
    | Exact(text: string)
    | Version(version: string)
    | AnySection

  /** ` - dddd-dd-dd` at the start. */
  predicate DateSuffix(s: string) {
    && |s| >= 13 && s[0] == ' ' && s[1] == '-' && s[2] == ' '
    && IsDigit(s[3]) && IsDigit(s[4]) && IsDigit(s[5]) && IsDigit(s[6]) && s[7] == '-'
    && IsDigit(s[8]) && IsDigit(s[9]) && s[10] == '-' && IsDigit(s[11]) && IsDigit(s[12])
  }

  /** `\s*$`: as much whitespace as leaves the end of a line, which may run over blank lines. */
  function TailLength(t: string): (result: Option<nat>)
    ensures result.Some? ==> result.value <= |t|
  {
    if t == "" then Some(0)
    else if !IsSpace(t[0]) then None
    else match TailLength(t[1..])
      case Some(n) => Some(n + 1)
      case None => if IsLineEnd(t[0]) then Some(0) else None
  }

  function Shift(n: nat, r: Option<nat>): Option<nat> {
    match r
    case Some(k) => Some(n + k)
    case None => None
  }

  /** `(?: - \d{4}-\d{2}-\d{2})?\s*$`, trying the date first. */
  function DatedTail(s: string): (result: Option<nat>)
    ensures result.Some? ==> result.value <= |s|
  {
    if DateSuffix(s) && TailLength(s[13..]).Some? then Shift(13, TailLength(s[13..]))
    else TailLength(s)
  }

  /** `.*?\](date)?\s*$`: the first closing bracket that the rest of the line lets stand. */
  function BracketTail(s: string): (result: Option<nat>)
    ensures result.Some? ==> result.value <= |s|
  {
    if s == "" then None
    else if s[0] == ']' && DatedTail(s[1..]).Some? then Shift(1, DatedTail(s[1..]))
    else if IsLineEnd(s[0]) then None
    else Shift(1, BracketTail(s[1..]))
  }

  function Literal(h: Heading): string {
    match h
    case Exact(text) => "## " + text
    case Version(v) => "## [" + v + "]"
    case AnySection => "## ["
  }

  function AfterLiteral(h: Heading, s: string): (result: Option<nat>)
    ensures result.Some? ==> result.value <= |s|
  {
    match h
    case Exact(_) => TailLength(s)
    case Version(_) => DatedTail(s)
    case AnySection => if s == "" || IsLineEnd(s[0]) then None else Shift(1, BracketTail(s[1..]))
  }

  /** The length of the match at the start of `s`, `s` standing at the start of a line. */
  function MatchLength(s: string, h: Heading): (result: Option<nat>)
    ensures result.Some? ==> result.value <= |s|
  {
    var p := Literal(h);
    if p <= s then Shift(|p|, AfterLiteral(h, s[|p|..])) else None
  }

  datatype Match = Match(before: string, text: string, rest: string)

  /** The first match: only starts of lines are candidates. */
  function FindHeading(s: string, h: Heading): Option<Match>
    decreases |s|
  {
    match MatchLength(s, h)
    case Some(n) => Some(Match("", s[..n], s[n..]))
    case None =>
      var n := LineLength(s);
      if n == |s| then None
      else match FindHeading(s[n + 1..], h)
        case None => None
        case Some(m) => Some(m.(before := s[..n + 1] + m.before))
  }

  // ----- a heading is a matter of its own line

  /** A heading pattern that fits on one line. */
  predicate Plain(h: Heading) {
    OneLine(Literal(h))
  }

  predicate IsHeadingLine(line: string, h: Heading) {
    MatchLength(line, h).Some?
  }

  lemma {:induction false} TailIsBlankLine(t: string)
    ensures TailLength(t).Some? <==> Blank(FirstLine(t))
  {
    if t != "" && IsSpace(t[0]) && !IsLineEnd(t[0]) {
      TailIsBlankLine(t[1..]);
      assert FirstLine(t) == [t[0]] + FirstLine(t[1..]);
    } else if t != "" && IsSpace(t[0]) {
      assert FirstLine(t) == "";
    } else if t != "" {
      assert FirstLine(t)[0] == t[0];
    }
  }

  /** Everything a matcher may look at stands on the first line. */
  lemma SameFirstLine(s: string)
    ensures FirstLine(FirstLine(s)) == FirstLine(s)
  {
    FirstLineSpec(s);
    LineLengthIs(FirstLine(s), "");
    assert FirstLine(s) + "" == FirstLine(s);
  }

  lemma TailByLine(t: string)
    ensures TailLength(t).Some? <==> TailLength(FirstLine(t)).Some?
  {
    TailIsBlankLine(t);
    TailIsBlankLine(FirstLine(t));
    SameFirstLine(t);
  }

  lemma {:induction false} FirstLineBehind(p: string, s: string)
    requires OneLine(p)
    ensures FirstLine(p + s) == p + FirstLine(s)
  {
    if p == "" {
      assert p + s == s;
    } else {
      FirstLineBehind(p[1..], s);
      assert (p + s)[1..] == p[1..] + s;
      assert FirstLine(p + s) == [p[0]] + FirstLine((p + s)[1..]);
    }
  }

  /** A one-line prefix is a prefix of the text iff it is one of the first line. */
  lemma {:induction false} PrefixByLine(p: string, s: string)
    requires OneLine(p)
    ensures p <= s <==> p <= FirstLine(s)
    ensures p <= s ==> FirstLine(s)[|p|..] == FirstLine(s[|p|..])
  {
    if p <= s {
      FirstLineBehind(p, s[|p|..]);
      assert p + s[|p|..] == s;
    }
  }

  lemma DateIsOneLine(s: string)
    requires DateSuffix(s)
    ensures OneLine(s[..13])
  {
  }

  lemma DateByLine(s: string)
    ensures DateSuffix(s) <==> DateSuffix(FirstLine(s))
    ensures DateSuffix(s) ==> FirstLine(s)[13..] == FirstLine(s[13..])
  {
    if DateSuffix(s) {
      DateIsOneLine(s);
      FirstLineBehind(s[..13], s[13..]);
      assert s[..13] + s[13..] == s;
    }
  }

  lemma DatedByLine(s: string)
    ensures DatedTail(s).Some? <==> DatedTail(FirstLine(s)).Some?
  {
    DateByLine(s);
    TailByLine(s);
    if DateSuffix(s) {
      TailByLine(s[13..]);
    }
  }

  lemma {:induction false} BracketByLine(s: string)
    ensures BracketTail(s).Some? <==> BracketTail(FirstLine(s)).Some?
  {
    if s != "" && !IsLineEnd(s[0]) {
      BracketByLine(s[1..]);
      DatedByLine(s[1..]);
      assert FirstLine(s) == [s[0]] + FirstLine(s[1..]);
      assert FirstLine(s)[1..] == FirstLine(s[1..]);
    }
  }

  lemma MatchByLine(s: string, h: Heading)
    requires Plain(h)
    ensures MatchLength(s, h).Some? <==> IsHeadingLine(FirstLine(s), h)
  {
    var p := Literal(h);
    PrefixByLine(p, s);
    if p <= s {
      var r := s[|p|..];
      match h {
        case Exact(_) => TailByLine(r);
        case Version(_) => DatedByLine(r);
        case AnySection =>
          if r != "" && !IsLineEnd(r[0]) {
            BracketByLine(r[1..]);
            assert FirstLine(r) == [r[0]] + FirstLine(r[1..]);
            assert FirstLine(r)[1..] == FirstLine(r[1..]);
          }
      }
    }
  }

  // ----- what a match leaves behind

  /** Behind a match the text goes on with a line end or stops, and no line with text is eaten. */
  predicate LeavesRest(s: string, n: nat) {
    n <= |s| && StartsLine(s[n..]) && NonBlankLines(s[n..]) == NonBlankLines(RestLines(s))
  }

  lemma {:induction false} TailLeavesRest(t: string)
    requires TailLength(t).Some?
    ensures LeavesRest(t, TailLength(t).value)
  {
    hide NonBlankLines, KeepIfText, FirstLine;
    if t == "" {
      NoLines();
    } else {
      var u := t[1..];
      if TailLength(u).Some? {
        var m := TailLength(u).value;
        TailLeavesRest(u);
        assert t[m + 1..] == u[m..];
        BlankFirstLine(u);
      } else {
        LinesOfLineEnd(t[0], u);
        assert [t[0]] + u == t;
      }
    }
  }

  lemma BlankFirstLine(u: string)
    requires TailLength(u).Some?
    ensures NonBlankLines(u) == NonBlankLines(RestLines(u))
  {
    TailIsBlankLine(u);
    LinesUnfold(u);
  }

  lemma RestBehind(p: string, s: string, n: nat)
    requires OneLine(p) && LeavesRest(s, n)
    ensures LeavesRest(p + s, |p| + n)
  {
    FirstLineBehind(p, s);
    assert (p + s)[|p| + n..] == s[n..];
    assert RestLines(p + s) == RestLines(s);
  }

  lemma DatedLeavesRest(s: string)
    requires DatedTail(s).Some?
    ensures LeavesRest(s, DatedTail(s).value)
  {
    hide LeavesRest;
    if DateSuffix(s) && TailLength(s[13..]).Some? {
      DateIsOneLine(s);
      TailLeavesRest(s[13..]);
      RestBehind(s[..13], s[13..], TailLength(s[13..]).value);
      assert s[..13] + s[13..] == s;
    } else {
      TailLeavesRest(s);
    }
  }

  lemma {:induction false} BracketLeavesRest(s: string)
    requires BracketTail(s).Some?
    ensures LeavesRest(s, BracketTail(s).value)
  {
    hide LeavesRest;
    assert s == s[..1] + s[1..];
    if s[0] == ']' && DatedTail(s[1..]).Some? {
      DatedLeavesRest(s[1..]);
      RestBehind(s[..1], s[1..], DatedTail(s[1..]).value);
    } else {
      BracketLeavesRest(s[1..]);
      RestBehind(s[..1], s[1..], BracketTail(s[1..]).value);
    }
  }

  lemma AfterLiteralLeavesRest(h: Heading, s: string)
    requires AfterLiteral(h, s).Some?
    ensures LeavesRest(s, AfterLiteral(h, s).value)
  {
    hide LeavesRest;
    match h {
      case Exact(_) => TailLeavesRest(s);
      case Version(_) => DatedLeavesRest(s);
      case AnySection =>
        BracketLeavesRest(s[1..]);
        RestBehind(s[..1], s[1..], BracketTail(s[1..]).value);
        assert s == s[..1] + s[1..];
    }
  }

  lemma MatchLeavesRest(s: string, h: Heading)
    requires Plain(h) && MatchLength(s, h).Some?
    ensures LeavesRest(s, MatchLength(s, h).value)
  {
    hide LeavesRest, AfterLiteral, Literal;
    var p := Literal(h);
    AfterLiteralLeavesRest(h, s[|p|..]);
    RestBehind(p, s[|p|..], AfterLiteral(h, s[|p|..]).value);
    assert p + s[|p|..] == s;
  }

  // ----- the first match, by lines

  predicate NoHeadingIn(lines: seq<string>, h: Heading) {
    forall i :: 0 <= i < |lines| ==> !IsHeadingLine(lines[i], h)
  }

  /** The match cuts the text at the first heading line. */
  predicate CutsAtHeading(s: string, h: Heading, m: Match) {
    var line := FirstLine(m.text + m.rest);
    && s == m.before + m.text + m.rest
    && EndsLine(m.before) && StartsLine(m.rest)
    && MatchLength(m.text + m.rest, h) == Some(|m.text|)
    && IsHeadingLine(line, h)
    && NoHeadingIn(NonBlankLines(m.before), h)
    && NonBlankLines(s) == NonBlankLines(m.before) + [line] + NonBlankLines(m.rest)
  }

  lemma HeadingHasText(line: string, h: Heading)
    ensures IsHeadingLine(line, h) ==> KeepIfText(line) == [line]
  {
    assert Literal(h)[0] == '#';
    if IsHeadingLine(line, h) {
      assert line[0] == '#' && !IsSpace(line[0]);
    }
  }

  lemma FirstLineKept(s: string, h: Heading)
    requires Plain(h) && MatchLength(s, h).Some?
    ensures NonBlankLines(s) == [FirstLine(s)] + NonBlankLines(RestLines(s))
    ensures IsHeadingLine(FirstLine(s), h)
  {
    hide MatchLength, Literal;
    MatchByLine(s, h);
    HeadingHasText(FirstLine(s), h);
    MatchNonEmpty(s, h);
    LinesUnfold(s);
  }

  lemma MatchNonEmpty(s: string, h: Heading)
    requires MatchLength(s, h).Some?
    ensures s != "" && MatchLength(s, h).value > 0
  {
    assert |Literal(h)| > 0;
  }

  lemma MatchAtStart(s: string, h: Heading)
    requires Plain(h) && MatchLength(s, h).Some?
    ensures CutsAtHeading(s, h, Match("", s[..MatchLength(s, h).value], s[MatchLength(s, h).value..]))
  {
    hide MatchLength, NonBlankLines, Literal, FirstLine;
    var n := MatchLength(s, h).value;
    MatchLeavesRest(s, h);
    FirstLineKept(s, h);
    NoLines();
    assert s[..n] + s[n..] == s && "" + s[..n] + s[n..] == s;
    assert [] + [FirstLine(s)] + NonBlankLines(s[n..]) == NonBlankLines(s);
  }

  lemma MatchBehindLine(line: string, e: char, rest: string, h: Heading, m: Match)
    requires Plain(h) && OneLine(line) && IsLineEnd(e)
    requires !IsHeadingLine(line, h)
    requires CutsAtHeading(rest, h, m)
    ensures CutsAtHeading(line + [e] + rest, h, m.(before := line + [e] + m.before))
  {
    hide MatchLength, NonBlankLines, Literal, FirstLine;
    LinesJoin(line, e, rest);
    LinesJoin(line, e, m.before);
    LinesOfOneLine(line);
    var found := FirstLine(m.text + m.rest);
    assert line + [e] + m.before + m.text + m.rest == line + [e] + rest;
    assert KeepIfText(line) + (NonBlankLines(m.before) + [found] + NonBlankLines(m.rest))
        == KeepIfText(line) + NonBlankLines(m.before) + [found] + NonBlankLines(m.rest);
  }

  /** The first match and the first heading line are the same thing. */
  lemma {:induction false} FindHeadingByLines(s: string, h: Heading)
    requires Plain(h)
    ensures FindHeading(s, h).None? ==> NoHeadingIn(NonBlankLines(s), h)
    ensures FindHeading(s, h).Some? ==> CutsAtHeading(s, h, FindHeading(s, h).value)
    decreases |s|
  {
    hide MatchLength, NonBlankLines, CutsAtHeading, Literal;
    MatchByLine(s, h);
    if MatchLength(s, h).Some? {
      MatchAtStart(s, h);
    } else {
      var n := LineLength(s);
      FirstLineSpec(s);
      if n == |s| {
        assert FirstLine(s) == s;
        LinesOfOneLine(s);
      } else {
        var line, e, rest := FirstLine(s), s[n], s[n + 1..];
        assert s == line + [e] + rest && s[..n + 1] == line + [e];
        FindHeadingByLines(rest, h);
        LinesJoin(line, e, rest);
        LinesOfOneLine(line);
        if FindHeading(rest, h).Some? {
          MatchBehindLine(line, e, rest, h, FindHeading(rest, h).value);
        }
      }
    }
  }

  // ----- heading lines, written out

  /** ` - dddd-dd-dd`. */
  predicate DateWritten(d: string) {
    && |d| == 13 && d[..3] == " - " && d[7] == '-' && d[10] == '-'
    && forall i :: 3 <= i < 13 && i != 7 && i != 10 ==> '0' <= d[i] <= '9'
  }

  /** What stands behind the bracket: a date or nothing, and white space. */
  predicate DatedEnd(s: string, d: string, b: string) {
    s == d + b && (d == "" || DateWritten(d)) && Blank(b)
  }

  ghost predicate EndWritten(s: string) {
    exists d, b :: DatedEnd(s, d, b)
  }

  predicate Bracketed(line: string, v: string, end: string) {
    line == "## [" + v + "]" + end
  }

  /** A heading line of each kind. */
  ghost predicate HeadingWritten(line: string, h: Heading) {
    match h
    case Exact(text) => exists b :: Blank(b) && line == "## " + text + b
    case Version(v) => exists end :: Bracketed(line, v, end) && EndWritten(end)
    case AnySection => exists v, end :: v != "" && Bracketed(line, v, end) && EndWritten(end)
  }

  lemma DateIs(s: string)
    ensures DateSuffix(s) <==> |s| >= 13 && DateWritten(s[..13])
  {
    if |s| >= 13 {
      var d := s[..13];
      assert d[0] == s[0] && d[1] == s[1] && d[2] == s[2];
      assert d[..3] == [d[0], d[1], d[2]];
      assert forall i :: 0 <= i < 13 ==> d[i] == s[i];
    }
  }

  lemma TailIsBlank(t: string)
    requires OneLine(t)
    ensures TailLength(t).Some? <==> Blank(t)
  {
    hide Blank;
    TailIsBlankLine(t);
    LineLengthIs(t, "");
    assert t + "" == t;
  }

  lemma DatedTailIff(s: string)
    requires OneLine(s)
    ensures DatedTail(s).Some? <==> EndWritten(s)
  {
    hide TailLength, DateSuffix, DateWritten, Blank;
    DateIs(s);
    TailIsBlank(s);
    if DatedTail(s).Some? {
      if DateSuffix(s) && TailLength(s[13..]).Some? {
        TailIsBlank(s[13..]);
        assert DatedEnd(s, s[..13], s[13..]);
      } else {
        assert DatedEnd(s, "", s) by { assert "" + s == s; }
      }
    }
    if EndWritten(s) {
      var d, b :| DatedEnd(s, d, b);
      if d == "" {
        assert d + b == b;
      } else {
        DateLong(d);
        assert s[..13] == d && s[13..] == b;
        TailIsBlank(b);
      }
    }
  }

  lemma DateLong(d: string)
    requires DateWritten(d)
    ensures |d| == 13
  {
  }

  lemma {:induction false} BracketTailIff(s: string)
    requires OneLine(s)
    ensures BracketTail(s).Some? <==> exists v, end :: s == v + "]" + end && EndWritten(end)
    decreases |s|
  {
    hide DatedTail, EndWritten;
    if s != "" {
      var rest := s[1..];
      DatedTailIff(rest);
      BracketTailIff(rest);
      if BracketTail(s).Some? {
        BracketStarts(s);
      }
      if exists v, end :: s == v + "]" + end && EndWritten(end) {
        var v, end :| s == v + "]" + end && EndWritten(end);
        BracketEnds(s, v, end);
      }
    }
  }

  lemma BracketStarts(s: string)
    requires s != "" && OneLine(s) && BracketTail(s).Some?
    requires DatedTail(s[1..]).Some? <==> EndWritten(s[1..])
    requires BracketTail(s[1..]).Some? <==> exists v, end :: s[1..] == v + "]" + end && EndWritten(end)
    ensures exists v, end :: s == v + "]" + end && EndWritten(end)
  {
    hide DatedTail, EndWritten;
    if s[0] == ']' && DatedTail(s[1..]).Some? {
      assert s == "" + "]" + s[1..];
    } else {
      var v, end :| s[1..] == v + "]" + end && EndWritten(end);
      assert s == [s[0]] + v + "]" + end;
    }
  }

  lemma BracketEnds(s: string, v: string, end: string)
    requires s == v + "]" + end && OneLine(s) && EndWritten(end)
    requires DatedTail(s[1..]).Some? <==> EndWritten(s[1..])
    requires BracketTail(s[1..]).Some? <==> exists v, end :: s[1..] == v + "]" + end && EndWritten(end)
    ensures BracketTail(s).Some?
  {
    hide DatedTail, EndWritten;
    if v == "" {
      assert s[1..] == end;
    } else {
      assert s[1..] == v[1..] + "]" + end;
    }
  }

  /** The matcher takes a line for a heading exactly if it is written as one. */
  lemma HeadingIff(line: string, h: Heading)
    requires OneLine(line)
    ensures IsHeadingLine(line, h) <==> HeadingWritten(line, h)
  {
    hide TailLength, DatedTail, BracketTail, EndWritten, Blank;
    match h {
      case Exact(text) => ExactIff(line, text);
      case Version(v) => VersionIff(line, v);
      case AnySection => SectionIff(line);
    }
  }

  lemma ExactIff(line: string, text: string)
    requires OneLine(line)
    ensures IsHeadingLine(line, Exact(text)) <==> HeadingWritten(line, Exact(text))
  {
    hide TailLength, Blank;
    var p := "## " + text;
    if p <= line {
      TailIsBlank(line[|p|..]);
      assert line == p + line[|p|..];
    }
    if HeadingWritten(line, Exact(text)) {
      var b :| Blank(b) && line == "## " + text + b;
      assert line[|p|..] == b;
    }
  }

  lemma VersionIff(line: string, v: string)
    requires OneLine(line)
    ensures IsHeadingLine(line, Version(v)) <==> HeadingWritten(line, Version(v))
  {
    hide DatedTail, EndWritten;
    var p := "## [" + v + "]";
    if p <= line {
      DatedTailIff(line[|p|..]);
      assert Bracketed(line, v, line[|p|..]);
    }
    if HeadingWritten(line, Version(v)) {
      var end :| Bracketed(line, v, end) && EndWritten(end);
      assert line[|p|..] == end;
    }
  }

  lemma SectionIff(line: string)
    requires OneLine(line)
    ensures IsHeadingLine(line, AnySection) <==> HeadingWritten(line, AnySection)
  {
    hide BracketTail, EndWritten;
    if "## [" <= line && |line| > 4 {
      BracketTailIff(line[5..]);
    }
    if IsHeadingLine(line, AnySection) {
      SectionStarts(line);
    }
    if HeadingWritten(line, AnySection) {
      var v, end :| v != "" && Bracketed(line, v, end) && EndWritten(end);
      assert line[5..] == v[1..] + "]" + end && line[4..][1..] == line[5..];
    }
  }

  lemma SectionStarts(line: string)
    requires OneLine(line) && IsHeadingLine(line, AnySection)
    requires "## [" <= line && |line| > 4 ==>
      (BracketTail(line[5..]).Some? <==> exists v, end :: line[5..] == v + "]" + end && EndWritten(end))
    ensures HeadingWritten(line, AnySection)
  {
    hide BracketTail, EndWritten;
    assert line[4..][1..] == line[5..];
    var v, end :| line[5..] == v + "]" + end && EndWritten(end);
    var w := [line[4]] + v;
    assert line == "## [" + [line[4]] + line[5..];
    assert Bracketed(line, w, end);
  }
}
