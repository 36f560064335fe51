/** Promoting the Unreleased section to a version, and validating a release changelog. */
module Changelog {
  import opened Prelude
  import opened Text
  import opened Lines
  import opened Headings
  import opened Sections
  import opened ReleaseNotes

  const UNRELEASED := Exact("[Unreleased]")

  datatype Metadata = Metadata(version: string, releaseDate: string)

  datatype ChangelogError = MissingHeading | EmptyNotes | MissingVersion

  /** Versions are one line of text; dates are what an ISO date string starts with. */
  predicate ValidMetadata(m: Metadata) {
    && m.version != "" && OneLine(m.version)
    && DateSuffix(" - " + m.releaseDate) && |m.releaseDate| == 10
  }

  function VersionLine(m: Metadata): string {
    "## [" + m.version + "] - " + m.releaseDate
  }

  // ----- promotion and validation

  function PromotedText(s: Section, m: Metadata): string {
    CollapseNewlines(
      s.head + "\n\n" + VersionLine(m) + SqueezeTrailing(SqueezeLeading(s.body)) + "\n" + SqueezeLeading(s.tail))
  }

  function PromoteUnreleased(content: string, m: Metadata): Result<string, ChangelogError> {
    match ExtractSection(content, UNRELEASED)
    case None => Err(MissingHeading)
    case Some(s) =>
      if !HasMeaningfulReleaseNotes(s.body) then Err(EmptyNotes)
      else if FindHeading(content, Version(m.version)).Some? then Ok(content)
      else Ok(PromotedText(s, m))
  }

  function ValidateReleaseChangelog(content: string, m: Metadata): Result<(), ChangelogError> {
    if ExtractSection(content, UNRELEASED).None? then Err(MissingHeading)
    else match FindHeading(content, Version(m.version))
      case None => Err(MissingVersion)
      case Some(found) =>
        match ExtractSection(content, Exact(if "## " <= found.text then found.text[3..] else found.text))
        case None => Err(MissingHeading)
        case Some(s) => if HasMeaningfulReleaseNotes(s.body) then Ok(()) else Err(EmptyNotes)
  }

  // ----- heading lines

  lemma UnreleasedPlain()
    ensures Plain(UNRELEASED)
  {
    assert Literal(UNRELEASED) == "## [Unreleased]";
  }

  lemma VersionPlain(v: string)
    requires OneLine(v)
    ensures Plain(Version(v))
  {
    var p := Literal(Version(v));
    forall i | 0 <= i < |p|
      ensures !IsLineEnd(p[i])
    {
      if 4 <= i < 4 + |v| {
        assert p[i] == v[i - 4];
      }
    }
  }

  /** What may follow the bracket of a version heading that is alone on its line. */
  predicate AfterBracket(y: string) {
    DatedTail(y).Some?
  }

  lemma {:induction false} BracketFinds(x: string, y: string)
    requires OneLine(x) && AfterBracket(y)
    ensures BracketTail(x + "]" + y).Some?
  {
    var s := x + "]" + y;
    if x == "" {
      assert s[1..] == y;
    } else {
      assert s[1..] == x[1..] + "]" + y;
      BracketFinds(x[1..], y);
    }
  }

  /** Every version heading is a bracketed heading. */
  lemma BracketedIsSection(v: string, y: string)
    requires v != "" && OneLine(v) && AfterBracket(y)
    ensures IsHeadingLine("## [" + v + "]" + y, AnySection)
  {
    var line := "## [" + v + "]" + y;
    BracketFinds(v[1..], y);
    assert line[4..] == [v[0]] + (v[1..] + "]" + y);
    assert line[4..][1..] == v[1..] + "]" + y;
  }

  lemma VersionIsSection(line: string, v: string)
    requires v != "" && OneLine(v)
    ensures IsHeadingLine(line, Version(v)) ==> IsHeadingLine(line, AnySection)
  {
    var p := Literal(Version(v));
    if p <= line {
      var y := line[|p|..];
      assert line == "## [" + v + "]" + y;
      if AfterBracket(y) {
        BracketedIsSection(v, y);
      }
    }
  }

  lemma DateIsNoTail(y: string)
    requires DateSuffix(y)
    ensures TailLength(y).None?
  {
    assert !IsSpace(y[1..][0]);
    assert TailLength(y[1..]).None?;
  }

  lemma UnreleasedIsSection(line: string)
    ensures IsHeadingLine(line, UNRELEASED) ==> IsHeadingLine(line, AnySection)
  {
    var v := "Unreleased";
    var p := Literal(UNRELEASED);
    assert p == "## [" + v + "]";
    if p <= line {
      var y := line[|p|..];
      assert line == "## [" + v + "]" + y;
      if TailLength(y).Some? {
        DateLeavesNoTail(y);
        BracketedIsSection(v, y);
      }
    }
  }

  lemma DateLeavesNoTail(y: string)
    requires TailLength(y).Some?
    ensures AfterBracket(y)
  {
    if DateSuffix(y) {
      DateIsNoTail(y);
    }
  }

  lemma DatePart(m: Metadata)
    requires ValidMetadata(m)
    ensures VersionLine(m) == "## [" + m.version + "]" + (" - " + m.releaseDate)
    ensures AfterBracket(" - " + m.releaseDate) && OneLine(" - " + m.releaseDate)
  {
    var y := " - " + m.releaseDate;
    assert y[13..] == "";
    DateIsOneLine(y);
    assert y[..13] == y;
  }

  /** The heading written by a promotion is a heading of its version. */
  lemma VersionLineIsHeading(m: Metadata)
    requires ValidMetadata(m)
    ensures OneLine(VersionLine(m)) && KeepIfText(VersionLine(m)) == [VersionLine(m)]
    ensures IsHeadingLine(VersionLine(m), Version(m.version)) && IsHeadingLine(VersionLine(m), AnySection)
  {
    var y := " - " + m.releaseDate;
    DatePart(m);
    var p := Literal(Version(m.version));
    assert VersionLine(m) == p + y && (p + y)[|p|..] == y;
    VersionPlain(m.version);
    forall i | 0 <= i < |p + y|
      ensures !IsLineEnd((p + y)[i])
    {
      assert (p + y)[i] == if i < |p| then p[i] else y[i - |p|];
    }
    VersionIsSection(VersionLine(m), m.version);
    HeadingHasText(VersionLine(m), AnySection);
  }

  /** ... and of no other version. */
  lemma VersionLineIsUnique(m: Metadata, v: string)
    requires ValidMetadata(m) && IsHeadingLine(VersionLine(m), Version(v))
    ensures v == m.version
  {
    var line, p := VersionLine(m), Literal(Version(v));
    DatePart(m);
    var y := line[|p|..];
    assert IsDigit((" - " + m.releaseDate)[12]);
    assert IsDigit(line[|line| - 1]);
    EndsWithDate(p, y);
    assert line == p + y;
    assert |y| == 13;
    assert "## [" + m.version + "]" == line[..|line| - 13] == p == "## [" + v + "]";
    assert ("## [" + v + "]")[4..4 + |v|] == v;
    assert ("## [" + m.version + "]")[4..4 + |m.version|] == m.version;
  }

  lemma EndsWithDate(p: string, y: string)
    requires DatedTail(y).Some? && p != "" && p[|p| - 1] == ']'
    requires OneLine(y) && IsDigit((p + y)[|p + y| - 1])
    ensures |y| == 13
  {
    assert y != "" ==> (p + y)[|p + y| - 1] == y[|y| - 1];
    assert y == "" ==> p + y == p;
    if DateSuffix(y) && TailLength(y[13..]).Some? {
      TailIsBlank(y[13..]);
    } else {
      TailIsBlank(y);
    }
  }

  lemma TailIsBlank(y: string)
    requires TailLength(y).Some? && OneLine(y)
    ensures Blank(y)
  {
    TailIsBlankLine(y);
    LineLengthIs(y, "");
    assert y + "" == y;
  }

  // ----- promotion, by lines

  lemma {:induction false} DropIsPrefix(s: string)
    ensures DropTrailingNewlines(s) <= s
  {
    if s != "" && s[|s| - 1] == '\n' {
      DropIsPrefix(s[..|s| - 1]);
    }
  }

  lemma SqueezedBody(body: string)
    requires StartsLine(body)
    ensures var b := SqueezeTrailing(SqueezeLeading(body));
      StartsLine(b) && NonBlankLines(b) == NonBlankLines(body)
  {
    hide NonBlankLines;
    SqueezeLeadingKeepsLines(body);
    SqueezeTrailingKeepsLines(SqueezeLeading(body));
    DropIsPrefix(SqueezeLeading(body));
  }

  lemma PromotedLines(s: Section, m: Metadata)
    requires ValidMetadata(m) && StartsLine(s.body)
    ensures NonBlankLines(PromotedText(s, m))
         == NonBlankLines(s.head) + [VersionLine(m)] + NonBlankLines(s.body) + NonBlankLines(s.tail)
  {
    hide NonBlankLines, CollapseNewlines, VersionLine, SqueezeTrailing, SqueezeLeading, ValidMetadata;
    var v, b, t := VersionLine(m), SqueezeTrailing(SqueezeLeading(s.body)), SqueezeLeading(s.tail);
    CollapseKeepsLines(s.head + "\n\n" + v + b + "\n" + t);
    SqueezedBody(s.body);
    SqueezeLeadingKeepsLines(s.tail);
    VersionLineIsHeading(m);
    JoinedLines(s.head, v, b, t);
  }

  lemma JoinedLines(head: string, v: string, b: string, t: string)
    requires OneLine(v) && KeepIfText(v) == [v] && StartsLine(b)
    ensures NonBlankLines(head + "\n\n" + v + b + "\n" + t)
         == NonBlankLines(head) + [v] + NonBlankLines(b) + NonBlankLines(t)
  {
    hide NonBlankLines, KeepIfText;
    LinesConcat(v, b);
    LinesOfOneLine(v);
    LinesJoin(v + b, '\n', t);
    var x := v + b + ['\n'] + t;
    var text := head + "\n\n" + v + b + "\n" + t;
    assert text == head + ("\n\n" + x);
    LinesBehindTwo(head, x, text);
    var h, y, z := NonBlankLines(head), NonBlankLines(b), NonBlankLines(t);
    assert h + (([v] + y) + z) == h + [v] + y + z;
  }

  /** The version is not listed yet. */
  predicate VersionAbsent(content: string, m: Metadata) {
    NoHeadingIn(NonBlankLines(content), Version(m.version))
  }

  predicate Promotable(content: string, m: Metadata) {
    && ValidMetadata(m) && VersionAbsent(content, m)
    && OutlineOf(NonBlankLines(content), UNRELEASED).Some?
    && PromoteUnreleased(content, m).Ok?
  }

  lemma HeadingFound(content: string, h: Heading)
    requires Plain(h)
    ensures FindHeading(content, h).None? <==> NoHeadingIn(NonBlankLines(content), h)
  {
    hide NonBlankLines, IsHeadingLine, MatchLength, FirstLine;
    FindHeadingByLines(content, h);
    if FindHeading(content, h).Some? {
      var m := FindHeading(content, h).value;
      FoundLine(NonBlankLines(m.before), FirstLine(m.text + m.rest), NonBlankLines(m.rest));
    }
  }

  lemma FoundLine(a: seq<string>, line: string, b: seq<string>)
    ensures (a + [line] + b)[|a|] == line
  {
  }

  lemma VersionFound(content: string, v: string)
    requires OneLine(v)
    ensures FindHeading(content, Version(v)).None? <==> NoHeadingIn(NonBlankLines(content), Version(v))
  {
    hide NonBlankLines, IsHeadingLine, FindHeading;
    VersionPlain(v);
    HeadingFound(content, Version(v));
  }

  /** Promotion conserves the notes: one line, the version heading, is inserted right
      behind the Unreleased heading, and all other lines with text stay in order. */
  lemma PromotionInsertsHeading(content: string, m: Metadata)
    requires Promotable(content, m)
    ensures var o := OutlineOf(NonBlankLines(content), UNRELEASED).value;
      && NonBlankLines(content) == o.head + o.body + o.tail
      && NonBlankLines(PromoteUnreleased(content, m).value) == o.head + [VersionLine(m)] + o.body + o.tail
      && IsHeadingLine(o.head[|o.head| - 1], UNRELEASED)
  {
    hide NonBlankLines, IsHeadingLine, ExtractSection, PromotedText, VersionLine, HasMeaningfulReleaseNotes,
         MatchLength,
         FindHeading, OutlineOf;
    UnreleasedPlain();
    SectionByLines(content, UNRELEASED);
    VersionFound(content, m.version);
    var s := ExtractSection(content, UNRELEASED).value;
    PromotedLines(s, m);
    OutlineHead(NonBlankLines(content), UNRELEASED);
  }

  /** An outline and its heading line, spelled out. */
  predicate OutlineShape(lines: seq<string>, h: Heading, o: Outline) {
    && lines == o.head + o.body + o.tail
    && o.head != [] && IsHeadingLine(o.head[|o.head| - 1], h)
    && NoHeadingIn(o.head[..|o.head| - 1], h)
    && NoHeadingIn(o.body, AnySection) && StartsSection(o.tail)
  }

  lemma {:induction false} OutlineHead(lines: seq<string>, h: Heading)
    requires OutlineOf(lines, h).Some?
    ensures OutlineShape(lines, h, OutlineOf(lines, h).value)
  {
    hide IsHeadingLine, OutlineShape;
    if IsHeadingLine(lines[0], h) {
      BodyHasNoHeading(lines[1..]);
      ShapeAtHeading(lines, h);
    } else {
      OutlineHead(lines[1..], h);
      ShapeBehindLine(lines[0], lines[1..], h, OutlineOf(lines[1..], h).value);
      assert lines == [lines[0]] + lines[1..];
    }
  }

  lemma ShapeAtHeading(lines: seq<string>, h: Heading)
    requires lines != [] && IsHeadingLine(lines[0], h)
    ensures OutlineShape(lines, h, OutlineAt([lines[0]], lines[1..]))
  {
    hide IsHeadingLine;
    BodyHasNoHeading(lines[1..]);
  }

  lemma ShapeBehindLine(line: string, rest: seq<string>, h: Heading, o: Outline)
    requires OutlineShape(rest, h, o) && !IsHeadingLine(line, h)
    ensures OutlineShape([line] + rest, h, o.(head := [line] + o.head))
  {
    hide IsHeadingLine, NoHeadingIn, StartsSection;
    var head, front := [line] + o.head, o.head[..|o.head| - 1];
    assert head[..|head| - 1] == [line] + front;
    assert head[|head| - 1] == o.head[|o.head| - 1];
    AbsentBehindLine(line, front, h);
    assert head + o.body + o.tail == [line] + (o.head + o.body + o.tail);
  }

  lemma AbsentBehindLine(line: string, front: seq<string>, h: Heading)
    requires NoHeadingIn(front, h) && !IsHeadingLine(line, h)
    ensures NoHeadingIn([line] + front, h)
  {
    hide IsHeadingLine;
    assert forall i :: 0 < i < |[line] + front| ==> ([line] + front)[i] == front[i - 1];
  }

  lemma {:induction false} BodyHasNoHeading(lines: seq<string>)
    ensures NoHeadingIn(lines[..BodyLength(lines)], AnySection) && StartsSection(lines[BodyLength(lines)..])
  {
    hide IsHeadingLine;
    if lines != [] && !IsHeadingLine(lines[0], AnySection) {
      BodyHasNoHeading(lines[1..]);
      var n := BodyLength(lines);
      assert lines[..n] == [lines[0]] + lines[1..][..n - 1];
      assert lines[n..] == lines[1..][n - 1..];
    }
  }

  /** The new section owns the old notes, and Unreleased is left blank. */
  lemma PromotionMovesNotes(content: string, m: Metadata)
    requires Promotable(content, m)
    ensures var before := OutlineOf(NonBlankLines(content), UNRELEASED).value;
      var after := NonBlankLines(PromoteUnreleased(content, m).value);
      && OutlineOf(after, UNRELEASED) == Some(Outline(before.head, [], [VersionLine(m)] + before.body + before.tail))
      && OutlineOf(after, Version(m.version))
           == Some(Outline(before.head + [VersionLine(m)], before.body, before.tail))
  {
    hide NonBlankLines, IsHeadingLine, OutlineOf, VersionLine, PromoteUnreleased, NoHeadingIn;
    PromotionInsertsHeading(content, m);
    var lines := NonBlankLines(content);
    var o := OutlineOf(lines, UNRELEASED).value;
    OutlineHead(lines, UNRELEASED);
    VersionLineIsHeading(m);
    PromotedOutlines(o.head[..|o.head| - 1], o.head[|o.head| - 1], VersionLine(m), o.body, o.tail, UNRELEASED,
                     Version(m.version));
    assert o.head[..|o.head| - 1] + [o.head[|o.head| - 1]] == o.head;
    AbsentPart(o.head, o.body + o.tail, Version(m.version));
    assert o.head + (o.body + o.tail) == lines;
  }

  lemma AbsentPart(a: seq<string>, b: seq<string>, h: Heading)
    ensures NoHeadingIn(a + b, h) <==> NoHeadingIn(a, h) && NoHeadingIn(b, h)
  {
    hide IsHeadingLine;
    if NoHeadingIn(a + b, h) {
      assert forall i :: 0 <= i < |a| ==> a[i] == (a + b)[i];
      assert forall i :: 0 <= i < |b| ==> b[i] == (a + b)[|a| + i];
    }
  }

  lemma PromotedOutlines(front: seq<string>, u: string, v: string, body: seq<string>, tail: seq<string>,
                         uh: Heading, vh: Heading)
    requires NoHeadingIn(front, uh) && IsHeadingLine(u, uh)
    requires IsHeadingLine(v, vh) && IsHeadingLine(v, AnySection)
    requires NoHeadingIn(body, AnySection) && StartsSection(tail)
    ensures OutlineOf(front + [u] + [v] + body + tail, uh)
         == Some(Outline(front + [u], [], [v] + body + tail))
    ensures NoHeadingIn(front + [u], vh) ==>
      OutlineOf(front + [u] + [v] + body + tail, vh) == Some(Outline(front + [u] + [v], body, tail))
  {
    hide IsHeadingLine, OutlineOf;
    OutlineIs(front, u, [], [v] + body + tail, uh);
    assert front + [u] + [] + ([v] + body + tail) == front + [u] + [v] + body + tail;
    if NoHeadingIn(front + [u], vh) {
      OutlineIs(front + [u], v, body, tail, vh);
    }
  }

  /** Every other release section keeps its lines. */
  lemma PromotionKeepsOthers(content: string, m: Metadata, other: string)
    requires Promotable(content, m) && other != "" && OneLine(other)
    requires other != m.version && other != "Unreleased"
    ensures SectionLines(NonBlankLines(PromoteUnreleased(content, m).value), Version(other))
         == SectionLines(NonBlankLines(content), Version(other))
  {
    hide NonBlankLines, IsHeadingLine, OutlineOf, VersionLine, PromoteUnreleased, NoHeadingIn, SectionLines;
    PromotionInsertsHeading(content, m);
    var lines, h := NonBlankLines(content), Version(other);
    var o := OutlineOf(lines, UNRELEASED).value;
    OutlineHead(lines, UNRELEASED);
    VersionLineIsHeading(m);
    var front, u := o.head[..|o.head| - 1], o.head[|o.head| - 1];
    assert front + [u] == o.head;
    if IsHeadingLine(VersionLine(m), h) {
      VersionLineIsUnique(m, other);
    }
    LineIsText(content, |front|);
    assert lines[|front|] == u;
    if IsHeadingLine(u, h) {
      UnreleasedIsNoVersion(u, other);
    }
    UnreleasedIsSection(u);
    NoVersionInBody(o.body, other);
    InsertedHeadingKeepsOthers(front, u, VersionLine(m), o.body, o.tail, h);
  }

  lemma UnreleasedIsNoVersion(line: string, v: string)
    requires IsHeadingLine(line, UNRELEASED) && IsHeadingLine(line, Version(v)) && OneLine(line)
    ensures v == "Unreleased"
  {
    var y := UnreleasedTail(line);
    var z := VersionTail(line, v);
    BracketsAgree(line, "Unreleased", v, y, z);
  }

  lemma UnreleasedTail(line: string) returns (y: string)
    requires IsHeadingLine(line, UNRELEASED)
    ensures line == "## [" + "Unreleased" + "]" + y && DatedTail(y).Some?
  {
    assert Literal(UNRELEASED) == "## [Unreleased]";
    y := line[|"## [Unreleased]"|..];
    DateLeavesNoTail(y);
  }

  lemma VersionTail(line: string, v: string) returns (z: string)
    requires IsHeadingLine(line, Version(v))
    ensures line == "## [" + v + "]" + z && DatedTail(z).Some?
  {
    z := line[|Literal(Version(v))|..];
  }

  /** What follows the bracket holds no bracket, so the bracket is the last one of the line. */
  lemma BracketAt(line: string, v: string, y: string)
    requires line == "## [" + v + "]" + y && OneLine(line) && DatedTail(y).Some?
    ensures LastBracket(line) == |v| + 5 && v == line[4..4 + |v|]
  {
    hide DatedTail, LastBracket;
    var p := "## [" + v;
    OneLineSuffix(p + "]", y);
    NoBracketInTail(y);
    LastBracketIs(p, y);
  }

  lemma OneLineSuffix(a: string, b: string)
    requires OneLine(a + b)
    ensures OneLine(b)
  {
    assert forall k :: 0 <= k < |b| ==> b[k] == (a + b)[|a| + k];
  }

  lemma BracketsAgree(line: string, v: string, w: string, y: string, z: string)
    requires line == "## [" + v + "]" + y && line == "## [" + w + "]" + z && OneLine(line)
    requires DatedTail(y).Some? && DatedTail(z).Some?
    ensures v == w
  {
    hide *;
    BracketAt(line, v, y);
    BracketAt(line, w, z);
  }

  function LastBracket(line: string): (n: nat)
    ensures n <= |line|
  {
    if line == "" || line[|line| - 1] == ']' then |line| else LastBracket(line[..|line| - 1])
  }

  lemma {:induction false} LastBracketIs(p: string, y: string)
    requires ']' !in y
    ensures LastBracket(p + "]" + y) == |p| + 1
  {
    var line := p + "]" + y;
    if y == "" {
      assert line[|line| - 1] == ']';
    } else {
      assert line[|line| - 1] == y[|y| - 1] && y[|y| - 1] in y;
      LastBracketIs(p, y[..|y| - 1]);
      assert line[..|line| - 1] == p + "]" + y[..|y| - 1];
    }
  }

  lemma NoBracketInTail(y: string)
    requires DatedTail(y).Some? && OneLine(y)
    ensures ']' !in y
  {
    if DateSuffix(y) && TailLength(y[13..]).Some? {
      TailIsBlank(y[13..]);
      assert y == y[..13] + y[13..];
      assert ']' !in y[..13];
    } else {
      TailIsBlank(y);
    }
  }

  lemma LineIsText(content: string, i: nat)
    ensures i < |NonBlankLines(content)| ==> OneLine(NonBlankLines(content)[i])
  {
    if i < |NonBlankLines(content)| {
      LinesAreText(content, i);
    }
  }

  lemma NoVersionInBody(body: seq<string>, v: string)
    requires NoHeadingIn(body, AnySection) && v != "" && OneLine(v)
    ensures NoHeadingIn(body, Version(v))
  {
    hide IsHeadingLine;
    forall i | 0 <= i < |body|
      ensures !IsHeadingLine(body[i], Version(v))
    {
      VersionIsSection(body[i], v);
    }
  }

  lemma InsertedHeadingKeepsOthers(front: seq<string>, u: string, v: string, body: seq<string>, tail: seq<string>,
                                   h: Heading)
    requires IsHeadingLine(u, AnySection) && IsHeadingLine(v, AnySection) && StartsSection(tail)
    requires !IsHeadingLine(u, h) && !IsHeadingLine(v, h) && NoHeadingIn(body, h)
    ensures SectionLines(front + [u] + [v] + body + tail, h) == SectionLines(front + [u] + body + tail, h)
  {
    hide IsHeadingLine, SectionLines;
    var new_, old_ := [u] + [v] + body, [u] + body;
    SectionLinesAppend(front, new_ + tail, h);
    SectionLinesAppend(front, old_ + tail, h);
    SectionLinesSkip(new_, tail, h);
    SectionLinesSkip(old_, tail, h);
    assert front + (new_ + tail) == front + [u] + [v] + body + tail;
    assert front + (old_ + tail) == front + [u] + body + tail;
  }

  // ----- a second promotion

  /** With nothing left under Unreleased, any further promotion is refused. */
  lemma SecondPromotionRefused(content: string, m: Metadata, next: Metadata)
    requires Promotable(content, m)
    ensures PromoteUnreleased(PromoteUnreleased(content, m).value, next) == Err(EmptyNotes)
  {
    hide NonBlankLines, IsHeadingLine, OutlineOf, VersionLine, PromotedText, MatchLength, FindHeading, ExtractSection,
         HasMeaningfulReleaseNotes, NoHeadingIn;
    PromotionMovesNotes(content, m);
    var after := PromoteUnreleased(content, m).value;
    UnreleasedPlain();
    SectionByLines(after, UNRELEASED);
    var s := ExtractSection(after, UNRELEASED).value;
    assert NonBlankLines(s.body) == [];
    BlankHasNoLines(s.body);
    BlankHasNoNotes(s.body);
  }

  // ----- validation looks at the section that the version heading opens

  lemma BlankGrows(t: string, n: nat)
    requires 0 < n <= |t| && IsSpace(t[0]) && Blank(t[1..][..n - 1])
    ensures Blank(t[..n]) && t[n..] == t[1..][n - 1..]
  {
    hide IsSpace;
    assert t[..n] == [t[0]] + t[1..][..n - 1];
  }

  lemma {:induction false} TailEatsBlank(t: string)
    requires TailLength(t).Some?
    ensures Blank(t[..TailLength(t).value]) && TailLength(t[TailLength(t).value..]) == Some(0)
  {
    hide IsSpace, IsLineEnd;
    if t != "" && TailLength(t[1..]).Some? {
      TailEatsBlank(t[1..]);
      BlankGrows(t, TailLength(t).value);
    } else {
      assert t[0..] == t;
    }
  }

  lemma {:induction false} BlankThenTail(w: string, y: string)
    requires Blank(w) && TailLength(y).Some?
    ensures TailLength(w + y).Some?
  {
    if w == "" {
      assert w + y == y;
    } else {
      assert (w + y)[1..] == w[1..] + y && IsSpace(w[0]);
      BlankThenTail(w[1..], y);
    }
  }

  lemma DateIsLong(s: string)
    ensures DateSuffix(s) ==> |s| >= 13
  {
  }

  lemma DateOfPrefix(s: string, n: nat, y: string)
    requires DateSuffix(s) && 13 <= n <= |s|
    ensures DateSuffix(s[..n] + y)
  {
  }

  lemma DatedEatsTail(s: string, y: string)
    requires DatedTail(s).Some? && TailLength(y).Some?
    ensures DatedTail(s[..DatedTail(s).value] + y).Some?
    ensures TailLength(s[DatedTail(s).value..]) == Some(0)
  {
    hide DateSuffix, TailLength, Blank;
    var n := DatedTail(s).value;
    DateIsLong(s);
    if DateSuffix(s) && TailLength(s[13..]).Some? {
      TailEatsBlank(s[13..]);
      var w := s[13..][..n - 13];
      BlankThenTail(w, y);
      DateOfPrefix(s, n, y);
      assert (s[..n] + y)[13..] == w + y;
      assert s[n..] == s[13..][n - 13..];
    } else {
      TailEatsBlank(s);
      BlankThenTail(s[..n], y);
      DateLeavesNoTail(s[..n] + y);
    }
  }

  /** The pattern that validation builds from the text of a version heading. */
  function FoundHeading(text: string): Heading {
    Exact(if "## " <= text then text[3..] else text)
  }

  lemma VersionMatchText(s: string, v: string, n: nat)
    requires MatchLength(s, Version(v)) == Some(n)
    ensures Literal(FoundHeading(s[..n])) == s[..n]
    ensures s[..n] == Literal(Version(v)) + s[|Literal(Version(v))|..][..n - |Literal(Version(v))|]
    ensures DatedTail(s[|Literal(Version(v))|..]) == Some(n - |Literal(Version(v))|)
  {
    var p := Literal(Version(v));
    assert "## " <= p <= s[..n];
    assert s[..n] == "## " + s[..n][3..];
  }

  /** It matches where the version heading was found ... */
  lemma FoundHeadingMatches(s: string, v: string, n: nat)
    requires MatchLength(s, Version(v)) == Some(n)
    ensures MatchLength(s, FoundHeading(s[..n])) == Some(n)
  {
    hide DatedTail, DateSuffix;
    var p := Literal(Version(v));
    VersionMatchText(s, v, n);
    DatedEatsTail(s[|p|..], "");
    assert s[|p|..][n - |p|..] == s[n..];
  }

  /** ... and nowhere else than where the version heading matches. */
  lemma FoundHeadingIsVersion(s: string, v: string, n: nat, other: string)
    requires MatchLength(s, Version(v)) == Some(n)
    requires MatchLength(other, FoundHeading(s[..n])).Some?
    ensures MatchLength(other, Version(v)).Some?
  {
    hide DatedTail, DateSuffix, TailLength;
    var p := Literal(Version(v));
    VersionMatchText(s, v, n);
    var x, y := s[|p|..][..n - |p|], other[n..];
    DatedEatsTail(s[|p|..], y);
    assert other == p + x + y && other[|p|..] == x + y;
  }

  lemma {:induction false} FoundHeadingRefinds(content: string, v: string, m: Match)
    requires FindHeading(content, Version(v)) == Some(m)
    ensures FindHeading(content, FoundHeading(m.text)) == Some(m)
    decreases |content|
  {
    hide MatchLength, FoundHeading;
    if MatchLength(content, Version(v)).Some? {
      FoundHeadingMatches(content, v, MatchLength(content, Version(v)).value);
    } else {
      var rest := content[LineLength(content) + 1..];
      var inner := FindHeading(rest, Version(v)).value;
      FoundHeadingRefinds(rest, v, inner);
      FoundWhere(rest, v, inner);
      if MatchLength(content, FoundHeading(m.text)).Some? {
        FoundHeadingIsVersion(inner.text + inner.rest, v, |inner.text|, content);
      }
    }
  }

  lemma {:induction false} FoundWhere(content: string, v: string, m: Match)
    requires FindHeading(content, Version(v)) == Some(m)
    ensures MatchLength(m.text + m.rest, Version(v)) == Some(|m.text|)
    ensures (m.text + m.rest)[..|m.text|] == m.text
    decreases |content|
  {
    hide MatchLength;
    if MatchLength(content, Version(v)).Some? {
      assert m.text + m.rest == content;
    } else {
      var rest := content[LineLength(content) + 1..];
      FoundWhere(rest, v, FindHeading(rest, Version(v)).value);
    }
  }

  /** Validation accepts exactly the changelogs with an Unreleased heading and a section
      of the version that holds notes. */
  lemma ValidationReadsSection(content: string, m: Metadata)
    requires OneLine(m.version)
    ensures ValidateReleaseChangelog(content, m) == Ok(())
       <==> ExtractSection(content, UNRELEASED).Some? && ExtractSection(content, Version(m.version)).Some?
            && HasMeaningfulReleaseNotes(ExtractSection(content, Version(m.version)).value.body)
  {
    hide HasMeaningfulReleaseNotes, FindHeading, BodyOf;
    match FindHeading(content, Version(m.version)) {
      case None =>
      case Some(found) => FoundHeadingRefinds(content, m.version, found);
    }
  }

  // ----- the rewriter meets the validator

  /** A section of a text that is cut into `b`, a heading line `l`, `r` and `q`, with the heading
      in the head of the section and no more lines behind it than in `q`, covers `r`. */
  lemma SectionCovers(b: string, l: string, r: string, q: string, s: Section)
    requires b + l + r + q == s.head + s.body + s.tail
    requires OneLine(l) && !Blank(l)
    requires StartsLine(r) && r != "" && r[|r| - 1] == '\n'
    requires NonBlankLines(s.head) == NonBlankLines(b + l)
    requires StartsLine(s.body) && (s.tail != "" ==> s.body != "" && !IsSpace(s.tail[0]))
    requires |NonBlankLines(s.tail)| <= |NonBlankLines(q)|
    ensures HasMeaningfulReleaseNotes(r) ==> HasMeaningfulReleaseNotes(s.body)
  {
    hide NonBlankLines, HasMeaningfulReleaseNotes, IsSpace, Blank;
    FourParts(b + l, r, q);
    ThreeParts(s.head, s.body, s.tail);
    var w := HeadGap(b, l, r + q, s);
    BodyCovers(w, s.body, s.tail, r, q);
  }

  lemma FourParts(x: string, r: string, q: string)
    ensures x + r + q == x + (r + q)
  {
  }

  lemma ThreeParts(h: string, b: string, t: string)
    ensures h + b + t == h + (b + t)
  {
  }

  /** What the head holds behind the heading line is blank. */
  lemma HeadGap(b: string, l: string, rest: string, s: Section) returns (w: string)
    requires b + l + rest == s.head + (s.body + s.tail)
    requires OneLine(l) && !Blank(l) && StartsLine(rest)
    requires NonBlankLines(s.head) == NonBlankLines(b + l)
    requires StartsLine(s.body) && (s.tail != "" ==> s.body != "")
    ensures Blank(w) && w + (s.body + s.tail) == rest
  {
    hide NonBlankLines, Blank;
    HeadReaches(b, l, rest, s);
    var x := b + l;
    w := s.head[|x|..];
    SplitAt(x, rest, s.head, s.body + s.tail);
    GapIsBlank(x, w, s.head, rest, s.body + s.tail);
  }

  lemma BodyCovers(w: string, body: string, tail: string, r: string, q: string)
    requires Blank(w) && w + (body + tail) == r + q
    requires r != "" && r[|r| - 1] == '\n' && (tail != "" ==> !IsSpace(tail[0]))
    requires |NonBlankLines(tail)| <= |NonBlankLines(q)|
    ensures HasMeaningfulReleaseNotes(r) ==> HasMeaningfulReleaseNotes(body)
  {
    hide NonBlankLines, HasMeaningfulReleaseNotes, IsSpace, Blank;
    var front := w + body;
    ThreeParts(w, body, tail);
    BodyReaches(front, tail, r, q);
    SplitAt(r, q, front, tail);
    NotesInFront(r, front[|r|..]);
    BlankBefore(w, body);
  }

  lemma SplitAt(a: string, b: string, c: string, d: string)
    requires a + b == c + d && |a| <= |c|
    ensures c == a + c[|a|..] && c[|a|..] + d == b
  {
    assert c == (c + d)[..|c|] && a == (a + b)[..|a|];
    assert c[..|a|] == (c + d)[..|a|] == a;
    assert b == (a + b)[|a|..] == (c + d)[|a|..];
  }

  lemma HeadReaches(b: string, l: string, rest: string, s: Section)
    requires b + l + rest == s.head + (s.body + s.tail)
    requires OneLine(l) && !Blank(l) && StartsLine(s.body) && (s.tail != "" ==> s.body != "")
    requires NonBlankLines(s.head) == NonBlankLines(b + l)
    ensures |b + l| <= |s.head|
  {
    hide NonBlankLines, Blank;
    var x := b + l;
    if |s.head| < |x| {
      var d := x[|s.head|..];
      SplitAt(s.head, s.body + s.tail, x, rest);
      BodyStart(s.body, s.tail, d, rest);
      LinesConcat(s.head, d);
      assert |NonBlankLines(d)| == 0;
      BlankHasNoLines(d);
      OverhangHasText(b, l, |s.head|);
    }
  }

  lemma BodyStart(body: string, tail: string, d: string, rest: string)
    requires d != "" && d + rest == body + tail && StartsLine(body) && (tail != "" ==> body != "")
    ensures IsLineEnd(d[0])
  {
    assert (d + rest)[0] == d[0];
    assert body != "" ==> (body + tail)[0] == body[0];
  }

  lemma InsideLine(b: string, l: string, k: nat)
    requires OneLine(l) && |b| <= k < |b + l|
    ensures !IsLineEnd((b + l)[k])
  {
    assert (b + l)[k] == l[k - |b|];
  }

  /** From a line end on, text that ends in a line with text is not blank. */
  lemma OverhangHasText(b: string, l: string, k: nat)
    requires OneLine(l) && !Blank(l) && k < |b + l| && IsLineEnd((b + l)[k])
    ensures !Blank((b + l)[k..])
  {
    hide Blank;
    if k >= |b| {
      InsideLine(b, l, k);
    }
    var d := (b + l)[k..];
    assert d[|b| - k..] == l;
    if Blank(d) {
      BlankSuffix(d, |b| - k);
    }
  }

  lemma BlankSuffix(d: string, k: nat)
    requires Blank(d) && k <= |d|
    ensures Blank(d[k..])
  {
  }

  lemma GapIsBlank(x: string, w: string, head: string, rest: string, behind: string)
    requires head == x + w && w + behind == rest && StartsLine(rest)
    requires NonBlankLines(head) == NonBlankLines(x)
    ensures Blank(w)
  {
    hide NonBlankLines, Blank;
    assert w != "" ==> rest[0] == w[0];
    LinesConcat(x, w);
    assert |NonBlankLines(w)| == 0;
    BlankHasNoLines(w);
  }

  lemma BodyReaches(body: string, tail: string, r: string, q: string)
    requires body + tail == r + q && r != "" && r[|r| - 1] == '\n'
    requires tail != "" ==> !IsSpace(tail[0])
    requires |NonBlankLines(tail)| <= |NonBlankLines(q)|
    ensures |r| <= |body|
  {
    hide NonBlankLines, IsSpace;
    if |body| < |r| {
      var e := r[|body|..];
      SplitAt(body, tail, r, q);
      assert e[|e| - 1] == '\n' && tail == e + q && tail[0] == e[0];
      LinesConcat(e, q);
      assert |NonBlankLines(e)| == 0;
      BlankHasNoLines(e);
    }
  }

  /** A text whose version section covers notes passes validation. */
  lemma SectionValidates(after: string, m: Metadata, b: string, l: string, r: string, q: string)
    requires OneLine(m.version) && after == b + l + r + q
    requires OutlineOf(NonBlankLines(after), UNRELEASED).Some?
    requires OutlineOf(NonBlankLines(after), Version(m.version)).Some?
    requires OneLine(l) && !Blank(l) && StartsLine(r) && r != "" && r[|r| - 1] == '\n'
    requires OutlineOf(NonBlankLines(after), Version(m.version)).value.head == NonBlankLines(b + l)
    requires |OutlineOf(NonBlankLines(after), Version(m.version)).value.tail| <= |NonBlankLines(q)|
    requires HasMeaningfulReleaseNotes(r)
    ensures ValidateReleaseChangelog(after, m) == Ok(())
  {
    hide NonBlankLines, IsHeadingLine, OutlineOf, MatchLength, FindHeading, ExtractSection,
         HasMeaningfulReleaseNotes, ValidateReleaseChangelog, Blank, IsSpace;
    UnreleasedPlain();
    VersionPlain(m.version);
    SectionByLines(after, UNRELEASED);
    SectionByLines(after, Version(m.version));
    var s := ExtractSection(after, Version(m.version)).value;
    if s.tail != "" {
      MatchStartsText(s.tail, AnySection);
      HashIsText();
    }
    SectionCovers(b, l, r, q, s);
    ValidationReadsSection(after, m);
  }

  lemma HashIsText()
    ensures !IsSpace('#')
  {
  }

  /** The promoted text, cut behind the new heading and in front of the old tail. */
  lemma PromotedPieces(s: Section, m: Metadata)
    requires ValidMetadata(m) && StartsLine(s.body) && (s.tail == "" || s.tail[0] == '#')
    ensures var body := SqueezeTrailing(SqueezeLeading(s.body));
      PromotedText(s, m) == CollapseNewlines(s.head + "\n\n") + VersionLine(m) + CollapseNewlines(body + "\n")
                            + CollapseNewlines(s.tail)
  {
    hide VersionLine, CollapseNewlines, SqueezeLeading, SqueezeTrailing, ValidMetadata;
    var v, body := VersionLine(m), SqueezeTrailing(SqueezeLeading(s.body));
    var h := s.head + "\n\n";
    TailStays(s.tail);
    VersionLineIsHeading(m);
    VersionLineBounds(m);
    OneLineCollapses(v);
    CollapseConcat(h, v);
    CollapseConcat(h + v, body + "\n");
    CollapseConcat(h + v + (body + "\n"), s.tail);
    assert h + v + (body + "\n") + s.tail == s.head + "\n\n" + v + body + "\n" + s.tail;
  }

  lemma TailStays(tail: string)
    requires tail == "" || tail[0] == '#'
    ensures SqueezeLeading(tail) == tail
  {
  }

  lemma VersionLineBounds(m: Metadata)
    requires ValidMetadata(m)
    ensures var v := VersionLine(m);
      v != "" && v[0] == '#' && v[|v| - 1] != '\n' && '\n' !in v && !Blank(v) && OneLine(v)
  {
    hide ValidMetadata;
    VersionLineIsHeading(m);
    var v := VersionLine(m);
    assert OneLine(v);
    assert v[0] == '#' && !IsSpace(v[0]);
  }

  /** A successful promotion of an absent version yields a changelog that validation accepts. */
  lemma PromotionValidates(content: string, m: Metadata)
    requires Promotable(content, m)
    ensures ValidateReleaseChangelog(PromoteUnreleased(content, m).value, m) == Ok(())
  {
    hide NonBlankLines, IsHeadingLine, OutlineOf, VersionLine, PromotedText, MatchLength, FindHeading, ExtractSection,
         HasMeaningfulReleaseNotes, NoHeadingIn, ValidateReleaseChangelog, CollapseNewlines, SqueezeLeading,
         SqueezeTrailing, ValidMetadata, Blank;
    OneLineVersion(m);
    PromotionMovesNotes(content, m);
    UnreleasedPlain();
    SectionByLines(content, UNRELEASED);
    VersionFound(content, m.version);
    var s := ExtractSection(content, UNRELEASED).value;
    if s.tail != "" {
      MatchStartsText(s.tail, AnySection);
    }
    PromotedPieces(s, m);
    VersionLineBounds(m);
    var v, body := VersionLine(m), SqueezeTrailing(SqueezeLeading(s.body));
    var b, r, q := CollapseNewlines(s.head + "\n\n"), CollapseNewlines(body + "\n"), CollapseNewlines(s.tail);
    PromotedHead(s.head, v);
    PromotedBody(s.body);
    CollapseKeepsLines(s.tail);
    SectionValidates(PromotedText(s, m), m, b, v, r, q);
  }

  lemma OneLineVersion(m: Metadata)
    requires ValidMetadata(m)
    ensures OneLine(m.version)
  {
  }

  lemma PromotedHead(head: string, v: string)
    requires OneLine(v) && !Blank(v)
    ensures NonBlankLines(CollapseNewlines(head + "\n\n") + v) == NonBlankLines(head) + [v]
  {
    hide NonBlankLines, CollapseNewlines;
    var h := head + "\n\n";
    CollapseKeepsLines(h);
    CollapseLast(h);
    LinesConcat(CollapseNewlines(h), v);
    LinesOfOneLine(v);
    LinesBehindTwo(head, "", h + "");
    NoLines();
    assert head + ("\n\n" + "") == h + "" == h;
    assert NonBlankLines(head) + [] == NonBlankLines(head);
  }

  lemma PromotedBody(body: string)
    requires StartsLine(body)
    ensures var r := CollapseNewlines(SqueezeTrailing(SqueezeLeading(body)) + "\n");
      && r != "" && r[|r| - 1] == '\n' && StartsLine(r)
      && (HasMeaningfulReleaseNotes(r) <==> HasMeaningfulReleaseNotes(body))
  {
    hide CollapseNewlines, SqueezeLeading, SqueezeTrailing, HasMeaningfulReleaseNotes, NonBlankLines;
    var b := SqueezeTrailing(SqueezeLeading(body));
    SqueezedBody(body);
    CollapseLast(b + "\n");
    CollapseEnds(b + "\n");
    CollapseKeepsNotes(b + "\n");
    NotesBehindNewline(b);
    SqueezeKeepsNotes(body);
  }

  // ----- the promoted text, written out

  predicate Newlines(s: string) {
    forall i :: 0 <= i < |s| ==> s[i] == '\n'
  }

  /** Text that collapsing leaves, with no newline at either end. */
  predicate Solid(s: string) {
    s != "" && s[0] != '\n' && s[|s| - 1] != '\n' && CollapseNewlines(s) == s
  }

  lemma {:induction false} SkipsNewlines(a: string, b: string)
    requires Newlines(a) && (b == "" || b[0] != '\n')
    ensures SkipNewlines(a + b) == b
  {
    if a == "" {
      assert a + b == b;
    } else {
      assert (a + b)[1..] == a[1..] + b;
      SkipsNewlines(a[1..], b);
    }
  }

  lemma {:induction false} DropsNewlines(a: string, b: string)
    requires Newlines(b) && (a == "" || a[|a| - 1] != '\n')
    ensures DropTrailingNewlines(a + b) == a
  {
    if b == "" {
      assert a + b == a;
    } else {
      assert (a + b)[..|a + b| - 1] == a + b[..|b| - 1];
      DropsNewlines(a, b[..|b| - 1]);
    }
  }

  lemma NewlinesCollapse(s: string)
    requires Newlines(s) && |s| >= 1
    ensures CollapseNewlines(s) == if |s| == 1 then "\n" else "\n\n"
  {
    if |s| == 1 {
      assert s == "\n" && s[1..] == "";
    } else if |s| == 2 {
      assert s == "\n\n";
      CollapseSmall();
    } else {
      SkipsNewlines(s, "");
      assert s + "" == s;
    }
  }

  lemma BodySqueezed(lead: string, notes: string, end: string)
    requires Newlines(lead) && lead != "" && Newlines(end) && Solid(notes)
    ensures SqueezeTrailing(SqueezeLeading(lead + notes + end)) == "\n" + notes + (if end == "" then "" else "\n")
  {
    hide SkipNewlines, DropTrailingNewlines, CollapseNewlines;
    SkipsNewlines(lead, notes + end);
    assert lead + notes + end == lead + (notes + end);
    DropsNewlines("\n" + notes, end);
    assert "\n" + (notes + end) == "\n" + notes + end;
  }

  /** Around any of these pieces the heading line stands behind one blank line, the notes right
      behind it, and one blank line in front of what follows. */
  lemma PromotedLayout(head: string, gap: string, lead: string, notes: string, end: string, tail: string, m: Metadata)
    requires Solid(head) && Newlines(gap) && Newlines(lead) && lead != "" && Solid(notes) && Newlines(end)
    requires end != "" && (tail == "" || tail[0] != '\n') && CollapseNewlines(tail) == tail && ValidMetadata(m)
    ensures PromotedText(Section(head + gap, lead + notes + end, tail), m)
         == head + "\n\n" + ("## [" + m.version + "] - " + m.releaseDate) + "\n" + notes + "\n\n" + tail
  {
    hide CollapseNewlines, SqueezeLeading, SqueezeTrailing, SkipNewlines, DropTrailingNewlines, VersionLine;
    BodySqueezed(lead, notes, end);
    TailStaysSqueezed(tail);
    var v := VersionLine(m);
    VersionLineIs(m);
    VersionLineSolid(m);
    NewlinesCollapse(gap + "\n\n");
    CollapseSmall();
    NewlinesCollapse("\n");
    CollapseConcat(notes, "\n\n");
    CollapseConcat(notes + "\n\n", tail);
    CollapseConcat("\n", notes + "\n\n" + tail);
    CollapseConcat(v, "\n" + (notes + "\n\n" + tail));
    CollapseConcat(gap + "\n\n", v + ("\n" + (notes + "\n\n" + tail)));
    CollapseConcat(head, gap + "\n\n" + (v + ("\n" + (notes + "\n\n" + tail))));
    LayoutApart(head, gap, v, notes, tail);
  }

  lemma VersionLineIs(m: Metadata)
    ensures VersionLine(m) == "## [" + m.version + "] - " + m.releaseDate
  {
  }

  lemma VersionLineSolid(m: Metadata)
    requires ValidMetadata(m)
    ensures Solid(VersionLine(m))
  {
    hide CollapseNewlines, VersionLine, ValidMetadata;
    var v := VersionLine(m);
    VersionLineBounds(m);
    OneLineCollapses(v);
  }

  lemma TailStaysSqueezed(tail: string)
    requires tail == "" || tail[0] != '\n'
    ensures SqueezeLeading(tail) == tail
  {
  }

  lemma LayoutApart(head: string, gap: string, v: string, notes: string, tail: string)
    ensures head + gap + "\n\n" + v + ("\n" + notes + "\n") + "\n" + tail
         == head + (gap + "\n\n" + (v + ("\n" + (notes + "\n\n" + tail))))
    ensures head + ("\n\n" + (v + ("\n" + (notes + "\n\n" + tail))))
         == head + "\n\n" + v + "\n" + notes + "\n\n" + tail
  {
  }

  // ----- when a promotion is refused, written out

  /** A promotion is refused without an Unreleased heading line, and without notes under the
      first one; with a heading of the version it changes nothing. */
  lemma PromotionOutcome(content: string, m: Metadata)
    requires OneLine(m.version)
    ensures var r := PromoteUnreleased(content, m);
      && (r == Err(MissingHeading) <==> NoHeadingIn(NonBlankLines(content), UNRELEASED))
      && (r.Ok? && !NoHeadingIn(NonBlankLines(content), Version(m.version)) ==> r.value == content)
      && r != Err(MissingVersion)
      && (r == Err(EmptyNotes)
          <==> ExtractSection(content, UNRELEASED).Some?
               && !HasMeaningfulReleaseNotes(ExtractSection(content, UNRELEASED).value.body))
  {
    hide NonBlankLines, IsHeadingLine, NoHeadingIn, PromotedText, FindHeading, BodyOf, HasMeaningfulReleaseNotes;
    UnreleasedPlain();
    VersionPlain(m.version);
    HeadingFound(content, UNRELEASED);
    HeadingFound(content, Version(m.version));
  }
}
