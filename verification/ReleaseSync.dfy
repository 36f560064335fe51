/** Writing a rendered release section into the changelog. */
module ReleaseSync {
  import opened Prelude
  import opened Text
  import opened Lines
  import opened Headings
  import opened Sections
  import opened ReleaseNotes
  import opened Changelog

  const UNRELEASED_TEXT := "## [Unreleased]"

  /** A section of the version is replaced, from its heading to the next bracketed heading. */
  function ReplacedText(before: string, section: string, tail: string): string {
    CollapseNewlines(before + section + "\n" + SkipNewlines(tail))
  }

  /** A new section is written behind the first occurrence of the Unreleased heading text. */
  function InsertedText(before: string, section: string, after: string): string {
    CollapseNewlines(before + "\n\n" + section + ("\n\n" + SkipNewlines(after)))
  }

  function Upsert(content: string, version: string, section: string): Result<string, ChangelogError> {
    match Cut(content, UNRELEASED_TEXT)
    case None => Err(MissingHeading)
    case Some(halves) =>
      match FindHeading(content, Version(version))
      case Some(m) => Ok(ReplacedText(m.before, section, BodyOf(m.before + m.text, m.rest).tail))
      case None => Ok(InsertedText(halves.before + UNRELEASED_TEXT, section, halves.after))
  }

  function UpsertReleaseSection(changelog: string, version: string, section: string): Result<string, ChangelogError> {
    Upsert(RemoveReturns(changelog), version, section)
  }

  /** A rendered section without its final newline: the heading of the version, then
      lines that are no bracketed headings. */
  predicate Rendered(text: string, version: string) {
    && OneLine(version) && version != ""
    && text != "" && !IsSpace(text[0]) && !IsSpace(text[|text| - 1])
    && NonBlankLines(text) != []
    && IsHeadingLine(NonBlankLines(text)[0], Version(version))
    && NoHeadingIn(NonBlankLines(text)[1..], AnySection)
  }

  // ----- the lines of the result

  lemma ReplacedLines(before: string, text: string, tail: string)
    requires EndsLine(before)
    ensures NonBlankLines(ReplacedText(before, text + "\n", tail))
         == NonBlankLines(before) + NonBlankLines(text) + NonBlankLines(tail)
  {
    hide NonBlankLines, CollapseNewlines, SkipNewlines;
    var t := SkipNewlines(tail);
    CollapseKeepsLines(before + (text + "\n") + "\n" + t);
    SkipKeepsLines(tail);
    LinesBehindTwo(text, t, text + ("\n\n" + t));
    LinesConcat(before, text + ("\n\n" + t));
    assert before + (text + ("\n\n" + t)) == before + (text + "\n") + "\n" + t;
  }

  lemma InsertedLines(before: string, text: string, after: string)
    ensures NonBlankLines(InsertedText(before, text + "\n", after))
         == NonBlankLines(before) + NonBlankLines(text) + NonBlankLines(after)
  {
    hide NonBlankLines, CollapseNewlines, SkipNewlines;
    var a := SkipNewlines(after);
    var whole := before + "\n\n" + (text + "\n") + ("\n\n" + a);
    CollapseKeepsLines(whole);
    SkipKeepsLines(after);
    LinesBehindTwo(text + "\n", a, text + "\n" + ("\n\n" + a));
    LinesOfTrailing(text, '\n', text + "\n");
    LinesBehindTwo(before, text + "\n" + ("\n\n" + a), whole);
  }

  lemma VersionSection(content: string, version: string) returns (m: Match, s: Section)
    requires OneLine(version) && FindHeading(content, Version(version)).Some?
    ensures FindHeading(content, Version(version)) == Some(m) && s == BodyOf(m.before + m.text, m.rest)
    ensures CutsAtHeading(content, Version(version), m) && CutsSection(content, Version(version), s)
    ensures NonBlankLines(s.head) == NonBlankLines(m.before) + [FirstLine(m.text + m.rest)]
    ensures EndsLine(m.before)
  {
    hide NonBlankLines, IsHeadingLine, MatchLength, FirstLine, OutlineOf, BodyOf, NoHeadingIn, StartsSection;
    VersionPlain(version);
    FindHeadingByLines(content, Version(version));
    m := FindHeading(content, Version(version)).value;
    s := BodyOf(m.before + m.text, m.rest);
    BodyHead(m.before + m.text, m.rest);
    SectionFromMatch(content, Version(version), m);
    HeadLines(content, Version(version), m);
  }

  lemma BodyHead(head: string, rest: string)
    ensures BodyOf(head, rest).head == head
  {
  }

  lemma Regroup<T>(front: seq<T>, lines: seq<T>, more: seq<T>, tail: seq<T>)
    requires lines != []
    ensures front + lines + more + tail == front + [lines[0]] + (lines[1..] + more) + tail
  {
    assert lines == [lines[0]] + lines[1..];
    assert front + [lines[0]] + (lines[1..] + more) == front + lines + more;
  }

  lemma RenderedOutline(front: seq<string>, lines: seq<string>, more: seq<string>, tail: seq<string>, version: string)
    requires NoHeadingIn(front, Version(version)) && lines != []
    requires IsHeadingLine(lines[0], Version(version)) && NoHeadingIn(lines[1..], AnySection)
    requires NoHeadingIn(more, AnySection) && StartsSection(tail)
    ensures OutlineOf(front + lines + more + tail, Version(version))
         == Some(Outline(front + [lines[0]], lines[1..] + more, tail))
  {
    hide IsHeadingLine, OutlineOf, StartsSection, NoHeadingIn;
    var body := lines[1..] + more;
    AbsentPart(lines[1..], more, AnySection);
    OutlineIs(front, lines[0], body, tail, Version(version));
    Regroup(front, lines, more, tail);
  }

  /** Replacing: the section becomes the rendered lines and every other line stays, in order. */
  lemma UpsertReplacesSection(content: string, version: string, text: string)
    requires Rendered(text, version) && Upsert(content, version, text + "\n").Ok?
    requires OutlineOf(NonBlankLines(content), Version(version)).Some?
    ensures var o := OutlineOf(NonBlankLines(content), Version(version)).value;
      var t := NonBlankLines(text);
      var after := NonBlankLines(Upsert(content, version, text + "\n").value);
      && o.head != []
      && after == o.head[..|o.head| - 1] + t + o.tail
      && OutlineOf(after, Version(version)) == Some(Outline(o.head[..|o.head| - 1] + [t[0]], t[1..], o.tail))
  {
    hide NonBlankLines, IsHeadingLine, MatchLength, FirstLine, OutlineOf, BodyOf, NoHeadingIn, StartsSection,
         ReplacedText, InsertedText, IsSpace, Find, Contains, FindHeading;
    var lines := NonBlankLines(content);
    NoOutline(lines, Version(version));
    VersionFound(content, version);
    var m, s := VersionSection(content, version);
    ReplacedLines(m.before, text, s.tail);
    OutlineHead(lines, Version(version));
    var front, t := NonBlankLines(m.before), NonBlankLines(text);
    var head := front + [FirstLine(m.text + m.rest)];
    assert head[..|head| - 1] == front;
    NothingAbsent(AnySection);
    RenderedOutline(front, t, [], NonBlankLines(s.tail), version);
    assert front + t + [] + NonBlankLines(s.tail) == front + t + NonBlankLines(s.tail);
    assert t[1..] + [] == t[1..];
  }

  lemma NothingAbsent(h: Heading)
    ensures NoHeadingIn([], h)
  {
  }

  /** The first occurrence of the Unreleased heading text is a heading line, with at most
      white space behind it. */
  predicate UnreleasedAlone(content: string) {
    Cut(content, UNRELEASED_TEXT).Some?
    && var halves := Cut(content, UNRELEASED_TEXT).value;
       EndsLine(halves.before) && TailLength(halves.after).Some?
  }

  lemma UnreleasedTextIsHeading()
    ensures OneLine(UNRELEASED_TEXT) && KeepIfText(UNRELEASED_TEXT) == [UNRELEASED_TEXT]
    ensures IsHeadingLine(UNRELEASED_TEXT, UNRELEASED) && IsHeadingLine(UNRELEASED_TEXT, AnySection)
    ensures Literal(UNRELEASED) == UNRELEASED_TEXT
  {
    var p := UNRELEASED_TEXT;
    assert Literal(UNRELEASED) == p && p[|p|..] == "";
    UnreleasedPlain();
    UnreleasedIsSection(p);
    HeadingHasText(p, UNRELEASED);
  }

  /** The heading line with the white space behind it. */
  function UnreleasedLine(content: string): string
    requires UnreleasedAlone(content)
  {
    UNRELEASED_TEXT + FirstLine(Cut(content, UNRELEASED_TEXT).value.after)
  }

  lemma UnreleasedLines(content: string)
    requires UnreleasedAlone(content)
    ensures var halves := Cut(content, UNRELEASED_TEXT).value;
      && NonBlankLines(halves.before + UNRELEASED_TEXT) == NonBlankLines(halves.before) + [UNRELEASED_TEXT]
      && NonBlankLines(content)
           == NonBlankLines(halves.before) + [UnreleasedLine(content)] + NonBlankLines(halves.after)
    ensures IsHeadingLine(UnreleasedLine(content), UNRELEASED) && OneLine(UnreleasedLine(content))
    ensures IsHeadingLine(UnreleasedLine(content), Version("Unreleased"))
  {
    hide NonBlankLines, IsHeadingLine, Find, KeepIfText, Contains, FirstLine, TailLength, Blank;
    var u := UNRELEASED_TEXT;
    UnreleasedTextIsHeading();
    CutExists(content, u);
    CutJoins(content, u);
    var halves := Cut(content, u).value;
    FirstLineSplits(halves.after);
    BlankTail(u, halves.after);
    HeadingLineLines(halves.before, u, FirstLine(halves.after), halves.after[|FirstLine(halves.after)|..]);
  }

  lemma HeadingLineLines(b: string, u: string, f: string, r: string)
    requires EndsLine(b) && StartsLine(r) && OneLine(u) && KeepIfText(u) == [u]
    requires OneLine(u + f) && OneLine(f) && !Blank(u + f) && KeepIfText(f) == []
    ensures NonBlankLines(b + u) == NonBlankLines(b) + [u]
    ensures NonBlankLines(b + u + (f + r)) == NonBlankLines(b) + [u + f] + NonBlankLines(f + r)
  {
    hide NonBlankLines, KeepIfText, Blank;
    LinesOfOneLine(u);
    LinesConcat(b, u);
    LinesOfOneLine(u + f);
    LinesOfOneLine(f);
    KeptLine(u + f);
    LinesConcat(f, r);
    LinesConcat(u + f, r);
    LinesConcat(b, u + f + r);
    assert b + (u + f + r) == b + u + (f + r);
    NothingBefore(NonBlankLines(r));
    JoinLists(NonBlankLines(b), [u + f], NonBlankLines(r));
  }

  lemma NothingBefore<T>(a: seq<T>)
    ensures [] + a == a
  {
  }

  lemma FirstLineSplits(s: string)
    ensures var f, r := FirstLine(s), s[|FirstLine(s)|..];
      s == f + r && OneLine(f) && StartsLine(r)
  {
    FirstLineSpec(s);
  }

  /** White space behind the heading text leaves a heading line, also read as a version. */
  lemma BlankTail(u: string, after: string)
    requires u == UNRELEASED_TEXT && TailLength(after).Some?
    ensures var f := FirstLine(after);
      && OneLine(u + f) && !Blank(u + f) && KeepIfText(f) == []
      && IsHeadingLine(u + f, UNRELEASED) && IsHeadingLine(u + f, Version("Unreleased"))
  {
    hide TailLength, Blank, FirstLine;
    var f := FirstLine(after);
    TailIsBlankLine(after);
    TailByLine(after);
    FirstLineSpec(after);
    LiteralsOfUnreleased();
    var line := u + f;
    assert line[|u|..] == f && u <= line;
    NotBlankStart(line);
  }

  lemma LiteralsOfUnreleased()
    ensures Literal(UNRELEASED) == UNRELEASED_TEXT && Literal(Version("Unreleased")) == UNRELEASED_TEXT
    ensures OneLine(UNRELEASED_TEXT) && UNRELEASED_TEXT != "" && UNRELEASED_TEXT[0] == '#'
  {
    UnreleasedIsOneLine();
  }

  lemma UnreleasedIsOneLine()
    ensures OneLine(UNRELEASED_TEXT)
  {
  }

  lemma NotBlankStart(line: string)
    requires line != "" && line[0] == '#'
    ensures !Blank(line)
  {
    assert !IsSpace(line[0]);
  }

  /** The bare heading text is no heading of a version that the text does not list. */
  lemma BareIsNoVersion(content: string, version: string)
    requires UnreleasedAlone(content) && NoHeadingIn(NonBlankLines(content), Version(version))
    ensures var halves := Cut(content, UNRELEASED_TEXT).value;
      NoHeadingIn(NonBlankLines(halves.before) + [UNRELEASED_TEXT] + NonBlankLines(halves.after), Version(version))
  {
    hide NonBlankLines, IsHeadingLine, Cut, NoHeadingIn, UnreleasedLine;
    UnreleasedLines(content);
    UnreleasedTextIsHeading();
    var halves := Cut(content, UNRELEASED_TEXT).value;
    var h := Version(version);
    var a, b := NonBlankLines(halves.before), NonBlankLines(halves.after);
    AbsentPart(a + [UnreleasedLine(content)], b, h);
    AbsentPart(a, [UnreleasedLine(content)], h);
    AbsentOne(UnreleasedLine(content), h);
    if IsHeadingLine(UNRELEASED_TEXT, h) {
      UnreleasedIsNoVersion(UNRELEASED_TEXT, version);
    }
    AbsentOne(UNRELEASED_TEXT, h);
    AbsentPart(a, [UNRELEASED_TEXT], h);
    AbsentPart(a + [UNRELEASED_TEXT], b, h);
  }

  lemma AbsentOne(line: string, h: Heading)
    ensures NoHeadingIn([line], h) <==> !IsHeadingLine(line, h)
  {
    hide IsHeadingLine;
    assert [line][0] == line;
  }

  lemma CutExists(s: string, p: string)
    ensures Cut(s, p).Some? <==> Contains(s, p)
  {
  }

  /** Inserting: the rendered lines go right behind the Unreleased heading, every other line stays. */
  lemma UpsertInsertsSection(content: string, version: string, text: string)
    requires Rendered(text, version) && UnreleasedAlone(content)
    requires NoHeadingIn(NonBlankLines(content), Version(version))
    ensures Upsert(content, version, text + "\n").Ok?
    ensures var halves := Cut(content, UNRELEASED_TEXT).value;
      && NonBlankLines(Upsert(content, version, text + "\n").value)
        == NonBlankLines(halves.before) + [UNRELEASED_TEXT] + NonBlankLines(text) + NonBlankLines(halves.after)
      && NonBlankLines(content)
        == NonBlankLines(halves.before) + [UnreleasedLine(content)] + NonBlankLines(halves.after)
  {
    hide NonBlankLines, IsHeadingLine, MatchLength, NoHeadingIn, InsertedText, Find, Rendered, UnreleasedLine;
    RenderedOneLine(text, version);
    VersionFound(content, version);
    UnreleasedLines(content);
    var halves := Cut(content, UNRELEASED_TEXT).value;
    InsertedLines(halves.before + UNRELEASED_TEXT, text, halves.after);
  }

  lemma RenderedOneLine(text: string, version: string)
    requires Rendered(text, version)
    ensures OneLine(version) && version != ""
  {
  }

  // ----- other sections

  lemma VersionsDiffer(line: string, v: string, w: string)
    requires IsHeadingLine(line, Version(v)) && IsHeadingLine(line, Version(w)) && OneLine(line)
    ensures v == w
  {
    hide *;
    var y := VersionTail(line, v);
    var z := VersionTail(line, w);
    BracketsAgree(line, v, w, y, z);
  }

  lemma SpliceKeepsSection(front: seq<string>, x: seq<string>, y: seq<string>, rest: seq<string>, h: Heading)
    requires StartsSection(x + rest) && StartsSection(y + rest)
    requires NoHeadingIn(x, h) && NoHeadingIn(y, h)
    ensures SectionLines(front + x + rest, h) == SectionLines(front + y + rest, h)
  {
    hide *;
    SectionLinesAppend(front, x + rest, h);
    SectionLinesAppend(front, y + rest, h);
    SectionLinesSkip(x, rest, h);
    SectionLinesSkip(y, rest, h);
    assert front + (x + rest) == front + x + rest && front + (y + rest) == front + y + rest;
  }

  /** The lines of a section of one version are no headings of another. */
  lemma SectionIsNoOther(line: string, notes: seq<string>, version: string, other: string)
    requires OneLine(line) && IsHeadingLine(line, Version(version)) && NoHeadingIn(notes, AnySection)
    requires other != version && other != "" && OneLine(other) && version != "" && OneLine(version)
    ensures NoHeadingIn([line] + notes, Version(other)) && IsHeadingLine(line, AnySection)
  {
    hide IsHeadingLine;
    NoVersionInBody(notes, other);
    VersionIsSection(line, version);
    if IsHeadingLine(line, Version(other)) {
      VersionsDiffer(line, version, other);
    }
    if !IsHeadingLine(line, Version(other)) {
      AbsentBehindLine(line, notes, Version(other));
    }
  }

  lemma RenderedIsNoOther(text: string, version: string, other: string)
    requires Rendered(text, version) && other != version && other != "" && OneLine(other)
    ensures NoHeadingIn(NonBlankLines(text), Version(other)) && IsHeadingLine(NonBlankLines(text)[0], AnySection)
  {
    hide NonBlankLines, IsHeadingLine, NoHeadingIn;
    var t := NonBlankLines(text);
    LinesAreText(text, 0);
    SectionIsNoOther(t[0], t[1..], version, other);
    assert t == [t[0]] + t[1..];
  }

  /** Replacing keeps the section of every other version. */
  lemma UpsertReplaceKeepsOthers(content: string, version: string, text: string, other: string)
    requires Rendered(text, version) && Upsert(content, version, text + "\n").Ok?
    requires OutlineOf(NonBlankLines(content), Version(version)).Some?
    requires other != version && other != "" && OneLine(other)
    ensures SectionLines(NonBlankLines(Upsert(content, version, text + "\n").value), Version(other))
         == SectionLines(NonBlankLines(content), Version(other))
  {
    hide NonBlankLines, IsHeadingLine, OutlineOf, SectionLines, NoHeadingIn, Upsert;
    UpsertReplacesSection(content, version, text);
    var lines, t, h := NonBlankLines(content), NonBlankLines(text), Version(other);
    var o := OutlineOf(lines, Version(version)).value;
    OutlineHead(lines, Version(version));
    var front, line := o.head[..|o.head| - 1], o.head[|o.head| - 1];
    assert front + [line] == o.head;
    LineIsText(content, |front|);
    assert lines[|front|] == line;
    SectionIsNoOther(line, o.body, version, other);
    RenderedIsNoOther(text, version, other);
    assert lines == front + ([line] + o.body) + o.tail;
    SpliceKeepsSection(front, [line] + o.body, t, o.tail, h);
  }

  /** Inserting keeps the section of every other version. */
  lemma UpsertInsertKeepsOthers(content: string, version: string, text: string, other: string)
    requires Rendered(text, version) && UnreleasedAlone(content)
    requires NoHeadingIn(NonBlankLines(content), Version(version))
    requires other != version && other != "" && OneLine(other) && other != "Unreleased"
    ensures SectionLines(NonBlankLines(Upsert(content, version, text + "\n").value), Version(other))
         == SectionLines(NonBlankLines(content), Version(other))
  {
    hide NonBlankLines, IsHeadingLine, OutlineOf, SectionLines, NoHeadingIn, Upsert, Cut, Literal, UnreleasedLine;
    UpsertInsertsSection(content, version, text);
    UnreleasedLines(content);
    UnreleasedTextIsHeading();
    RenderedIsNoOther(text, version, other);
    var u, t, h := UNRELEASED_TEXT, NonBlankLines(text), Version(other);
    var line := UnreleasedLine(content);
    if IsHeadingLine(u, h) {
      UnreleasedIsNoVersion(u, other);
    }
    if IsHeadingLine(line, h) {
      UnreleasedIsNoVersion(line, other);
    }
    var halves := Cut(content, u).value;
    var front, rest := NonBlankLines(halves.before), NonBlankLines(halves.after);
    AbsentBehindLine(u, t, h);
    AbsentOne(line, h);
    UnreleasedIsSection(line);
    assert ([line] + rest)[0] == line && ([u] + t + rest)[0] == u;
    assert front + [u] + t + rest == front + ([u] + t) + rest;
    SpliceKeepsSection(front, [line], [u] + t, rest, h);
  }

  // ----- idempotence

  /** The part of a text from its first bracketed heading on. */
  function FromHeading(text: string): string {
    match FindHeading(text, AnySection)
    case None => ""
    case Some(next) => next.text + next.rest
  }

  lemma FromHeadingLines(text: string) returns (front: string)
    ensures text == front + FromHeading(text) && (FromHeading(text) == "" || EndsLine(front))
    ensures NoHeadingIn(NonBlankLines(front), AnySection) && StartsSection(NonBlankLines(FromHeading(text)))
    ensures NonBlankLines(text) == NonBlankLines(front) + NonBlankLines(FromHeading(text))
    ensures FromHeading(text) == "" || !IsSpace(FromHeading(text)[0])
    ensures front == "" <==> text == "" || MatchLength(text, AnySection).Some?
  {
    hide NonBlankLines, IsHeadingLine, MatchLength, FirstLine, IsSpace, FindHeading, StartsSection, NoHeadingIn;
    AnySectionPlain();
    FindHeadingByLines(text, AnySection);
    FoundFirst(text, AnySection);
    match FindHeading(text, AnySection) {
      case None =>
        front := text;
        NothingBehind(text);
      case Some(next) =>
        front := next.before;
        FoundTail(text, next);
    }
  }

  lemma NothingBehind(text: string)
    ensures text == text + "" && NonBlankLines(text) == NonBlankLines(text) + NonBlankLines("")
    ensures StartsSection(NonBlankLines(""))
  {
    hide IsHeadingLine;
    NoLines();
  }

  lemma FoundTail(text: string, next: Match)
    requires CutsAtHeading(text, AnySection, next)
    ensures var tail := next.text + next.rest;
      && text == next.before + tail && EndsLine(next.before) && tail != "" && !IsSpace(tail[0])
      && StartsSection(NonBlankLines(tail)) && NonBlankLines(text) == NonBlankLines(next.before) + NonBlankLines(tail)
  {
    hide NonBlankLines, IsHeadingLine, MatchLength, FirstLine, IsSpace, RestLines;
    var tail := next.text + next.rest;
    AnySectionPlain();
    MatchStartsText(tail, AnySection);
    HashIsText();
    FirstLineKept(tail, AnySection);
    LinesConcat(next.before, tail);
    assert text == next.before + tail;
  }

  lemma FoundFirst(text: string, h: Heading)
    ensures FindHeading(text, h).Some? ==>
      (FindHeading(text, h).value.before == "" <==> MatchLength(text, h).Some?)
    ensures FindHeading(text, h).None? ==> MatchLength(text, h).None?
  {
  }

  /** A text holding `rendered` at a line start, behind text without the version. */
  predicate Holds(content: string, front: string, text: string, rest: string, version: string) {
    && content == front + (CollapseNewlines(text) + "\n\n" + rest)
    && EndsLine(front) && NoHeadingIn(NonBlankLines(front), Version(version))
    && (rest == "" || rest[0] != '\n')
  }

  lemma HeldLines(front: string, text: string, rest: string)
    requires EndsLine(front)
    ensures NonBlankLines(CollapseNewlines(text) + "\n\n" + rest) == NonBlankLines(text) + NonBlankLines(rest)
    ensures NonBlankLines(front + (CollapseNewlines(text) + "\n\n" + rest))
         == NonBlankLines(front) + (NonBlankLines(text) + NonBlankLines(rest))
  {
    hide NonBlankLines, CollapseNewlines;
    var c := CollapseNewlines(text);
    CollapseKeepsLines(text);
    assert c + "\n\n" + rest == c + ("\n\n" + rest);
    LinesBehindTwo(c, rest, c + "\n\n" + rest);
    LinesConcat(front, c + "\n\n" + rest);
  }

  /** A second upsert cuts such a text right before the rendered section and at the next heading. */
  lemma SecondUpsertCuts(content: string, front: string, text: string, rest: string, version: string)
    requires Rendered(text, version) && Holds(content, front, text, rest, version)
    ensures FindHeading(content, Version(version)).Some?
    ensures var m := FindHeading(content, Version(version)).value;
      m.before == front && BodyOf(m.before + m.text, m.rest).tail == FromHeading(rest)
  {
    hide NonBlankLines, IsHeadingLine, MatchLength, FirstLine, OutlineOf, BodyOf, NoHeadingIn, StartsSection,
         CollapseNewlines, FromHeading, FindHeading;
    var h, t := Version(version), NonBlankLines(text);
    var middle := FromHeadingLines(rest);
    var more, tail := NonBlankLines(middle), NonBlankLines(FromHeading(rest));
    HeldLines(front, text, rest);
    var lines := NonBlankLines(content);
    assert NonBlankLines(front) + (t + (more + tail)) == NonBlankLines(front) + t + more + tail;
    RenderedOutline(NonBlankLines(front), t, more, tail, version);
    NoOutline(lines, h);
    VersionFound(content, version);
    var m, s := VersionSection(content, version);
    CancelLast(NonBlankLines(m.before), FirstLine(m.text + m.rest), NonBlankLines(front), t[0]);
    SameFront(content, front, text, rest, version, m);
    SameTail(content, front, text, rest, middle, s);
  }

  lemma CancelLast<T>(a: seq<T>, x: T, b: seq<T>, y: T)
    requires a + [x] == b + [y]
    ensures a == b && x == y
  {
    assert |a| == |b|;
    assert a == (a + [x])[..|a|] && b == (b + [y])[..|b|];
    assert x == (a + [x])[|a|] && y == (b + [y])[|b|];
  }

  lemma SameFront(content: string, front: string, text: string, rest: string, version: string, m: Match)
    requires Rendered(text, version) && Holds(content, front, text, rest, version)
    requires CutsAtHeading(content, Version(version), m)
    requires NonBlankLines(m.before) == NonBlankLines(front)
    ensures m.before == front
  {
    hide NonBlankLines, IsHeadingLine, FirstLine, NoHeadingIn, CollapseNewlines, MatchLength;
    var q, q' := m.text + m.rest, CollapseNewlines(text) + "\n\n" + rest;
    assert content == m.before + q;
    MatchStartsText(q, Version(version));
    CollapseEnds(text);
    assert q'[0] == text[0];
    HeldLines(front, text, rest);
    LinesConcat(m.before, q);
    CancelLeft(NonBlankLines(front), NonBlankLines(q), NonBlankLines(q'));
    CutIsUnique(m.before, q, front, q');
  }

  lemma CancelLeft<T>(a: seq<T>, b: seq<T>, c: seq<T>)
    requires a + b == a + c
    ensures b == c
  {
    assert b == (a + b)[|a|..] && c == (a + c)[|a|..];
  }

  lemma SameTail(content: string, front: string, text: string, rest: string, middle: string, s: Section)
    requires content == front + (CollapseNewlines(text) + "\n\n" + rest)
    requires rest == middle + FromHeading(rest) && (FromHeading(rest) == "" || EndsLine(middle))
    requires FromHeading(rest) == "" || !IsSpace(FromHeading(rest)[0])
    requires content == s.head + s.body + s.tail && NonBlankLines(s.tail) == NonBlankLines(FromHeading(rest))
    requires s.tail == "" || MatchLength(s.tail, AnySection).Some?
    requires s.tail != "" ==> s.body != "" && EndsLine(s.body)
    ensures s.tail == FromHeading(rest)
  {
    hide NonBlankLines, FromHeading, CollapseNewlines, MatchLength;
    var tail := FromHeading(rest);
    SectionTailHasText(s.tail);
    TextTailHasText(tail);
    if s.tail == "" || tail == "" {
      NoLines();
    } else {
      MatchStartsText(s.tail, AnySection);
      assert (s.head + s.body)[|s.head + s.body| - 1] == s.body[|s.body| - 1];
      var p := front + (CollapseNewlines(text) + "\n\n" + middle);
      assert content == p + tail;
      assert EndsLine(p) by {
        assert middle == "" ==> p[|p| - 1] == '\n';
        assert middle != "" ==> p[|p| - 1] == middle[|middle| - 1];
      }
      CutIsUnique(s.head + s.body, s.tail, p, tail);
    }
  }

  lemma SectionTailHasText(tail: string)
    requires tail == "" || MatchLength(tail, AnySection).Some?
    ensures NonBlankLines(tail) == [] ==> tail == ""
  {
    hide NonBlankLines, MatchLength;
    if tail != "" {
      AnySectionPlain();
      FirstLineKept(tail, AnySection);
    }
  }

  lemma TextTailHasText(tail: string)
    requires tail == "" || !IsSpace(tail[0])
    ensures NonBlankLines(tail) == [] ==> tail == ""
  {
    hide NonBlankLines;
    BlankHasNoLines(tail);
  }

  lemma ReplacedShape(before: string, text: string, tail: string)
    requires EndsLine(before) && text != "" && !IsSpace(text[0]) && !IsSpace(text[|text| - 1])
    requires tail == "" || tail[0] != '\n'
    ensures ReplacedText(before, text + "\n", tail)
         == CollapseNewlines(before) + (CollapseNewlines(text) + "\n\n" + CollapseNewlines(tail))
  {
    hide CollapseNewlines, IsSpace, SkipNewlines;
    SpacesAre('\n');
    SkipNothing(tail);
    ReplacedRegroup(before, text, tail);
    CollapseTextBehind(text, "\n\n", tail);
    CollapseConcat(before, text + ("\n\n" + tail));
  }

  lemma SkipNothing(s: string)
    requires s == "" || s[0] != '\n'
    ensures SkipNewlines(s) == s
  {
  }

  lemma ReplacedRegroup(b: string, c: string, a: string)
    ensures b + (c + "\n") + "\n" + a == b + (c + ("\n\n" + a))
  {
  }

  /** Behind text, a run of two or three newlines collapses to two. */
  lemma CollapseTextBehind(text: string, run: string, rest: string)
    requires text != "" && text[|text| - 1] != '\n' && (rest == "" || rest[0] != '\n')
    requires run == "\n\n" || run == "\n\n\n"
    ensures CollapseNewlines(text + (run + rest)) == CollapseNewlines(text) + "\n\n" + CollapseNewlines(rest)
  {
    hide CollapseNewlines;
    CollapseSmall();
    CollapseConcat(run, rest);
    CollapseConcat(text, run + rest);
    Regroup3(CollapseNewlines(text), CollapseNewlines(rest));
  }

  lemma Regroup3(c: string, a: string)
    ensures c + ("\n\n" + a) == c + "\n\n" + a
  {
  }

  lemma SpacesAre(c: char)
    requires c == '\n'
    ensures IsSpace(c)
  {
  }

  lemma InsertedShape(before: string, text: string, after: string)
    requires before != "" && before[|before| - 1] != '\n'
    requires text != "" && !IsSpace(text[0]) && !IsSpace(text[|text| - 1])
    ensures InsertedText(before, text + "\n", after)
         == (CollapseNewlines(before) + "\n\n")
            + (CollapseNewlines(text) + "\n\n" + CollapseNewlines(SkipNewlines(after)))
  {
    hide CollapseNewlines, IsSpace, SkipNewlines;
    SpacesAre('\n');
    var a := SkipNewlines(after);
    InsertedRegroup(before, text, a);
    CollapseTextBehind(text, "\n\n\n", a);
    CollapseTextBehind(before, "\n\n", text + ("\n\n\n" + a));
  }

  lemma InsertedRegroup(b: string, c: string, a: string)
    ensures b + "\n\n" + (c + "\n") + ("\n\n" + a) == b + ("\n\n" + (c + ("\n\n\n" + a)))
  {
  }

  /** What a further upsert makes of a text that already holds the rendered section. */
  lemma UpsertAgain(content: string, front: string, text: string, rest: string, version: string)
    requires Rendered(text, version) && Holds(content, front, text, rest, version)
    requires CollapseNewlines(front) == front && Contains(content, UNRELEASED_TEXT)
    ensures Upsert(content, version, text + "\n")
         == Ok(front + (CollapseNewlines(text) + "\n\n" + CollapseNewlines(FromHeading(rest))))
  {
    hide NonBlankLines, IsHeadingLine, FindHeading, NoHeadingIn, CollapseNewlines, FromHeading, BodyOf, ReplacedText,
         Find;
    CutExists(content, UNRELEASED_TEXT);
    SecondUpsertCuts(content, front, text, rest, version);
    var _ := FromHeadingLines(rest);
    SpacesAre('\n');
    ReplacedShape(front, text, FromHeading(rest));
  }

  lemma ContainedBehind(a: string, q: string, p: string)
    requires p <= q
    ensures Contains(a + q, p)
  {
    OccursAtStart(q, p);
    OccursBehind(a, q, p, 0);
    FindFirst(a + q, p, |a|);
  }

  /** Replacing a section keeps the Unreleased heading. */
  lemma ReplaceKeepsUnreleased(content: string, version: string, text: string)
    requires Rendered(text, version) && Upsert(content, version, text + "\n").Ok?
    requires OutlineOf(NonBlankLines(content), Version(version)).Some? && version != "Unreleased"
    requires OutlineOf(NonBlankLines(content), UNRELEASED).Some?
    ensures OutlineOf(NonBlankLines(Upsert(content, version, text + "\n").value), UNRELEASED).Some?
  {
    hide NonBlankLines, IsHeadingLine, NoHeadingIn, OutlineOf, Upsert;
    UpsertReplacesSection(content, version, text);
    var lines, t := NonBlankLines(content), NonBlankLines(text);
    var o := OutlineOf(lines, Version(version)).value;
    OutlineHead(lines, Version(version));
    var front, line := o.head[..|o.head| - 1], o.head[|o.head| - 1];
    assert front + [line] == o.head;
    LineIsText(content, |front|);
    assert lines[|front|] == line;
    if IsHeadingLine(line, UNRELEASED) {
      UnreleasedIsNoVersion(line, version);
    }
    NoUnreleasedIn(o.body);
    AbsentParts(front, line, o.body, o.tail, t);
    NoOutline(lines, UNRELEASED);
    NoOutline(front + t + o.tail, UNRELEASED);
  }

  lemma NoUnreleasedIn(body: seq<string>)
    requires NoHeadingIn(body, AnySection)
    ensures NoHeadingIn(body, UNRELEASED)
  {
    hide IsHeadingLine;
    forall i | 0 <= i < |body|
      ensures !IsHeadingLine(body[i], UNRELEASED)
    {
      UnreleasedIsSection(body[i]);
    }
  }

  lemma AbsentParts(front: seq<string>, line: string, body: seq<string>, tail: seq<string>, t: seq<string>)
    requires !IsHeadingLine(line, UNRELEASED) && NoHeadingIn(body, UNRELEASED)
    ensures NoHeadingIn(front + t + tail, UNRELEASED) ==> NoHeadingIn(front + [line] + body + tail, UNRELEASED)
  {
    hide IsHeadingLine;
    AbsentPart(front + t, tail, UNRELEASED);
    AbsentPart(front, t, UNRELEASED);
    AbsentPart(front, [line], UNRELEASED);
    AbsentPart(front + [line], body, UNRELEASED);
    AbsentPart(front + [line] + body, tail, UNRELEASED);
  }

  /** Some line holds the text of the Unreleased heading. */
  predicate NamesUnreleased(lines: seq<string>) {
    exists i :: 0 <= i < |lines| && Contains(lines[i], UNRELEASED_TEXT)
  }

  /** The lines of a text whose section is replaced. */
  function ReplacedLinesOf(content: string, version: string, text: string): seq<string>
    requires OutlineOf(NonBlankLines(content), Version(version)).Some?
  {
    var o := OutlineOf(NonBlankLines(content), Version(version)).value;
    (if o.head == [] then [] else o.head[..|o.head| - 1]) + NonBlankLines(text) + o.tail
  }

  /** Where the version has a section, an upsert with the same rendered section is idempotent
      exactly when the text of the Unreleased heading stands somewhere outside the old
      section; otherwise the second upsert finds no Unreleased heading and fails. */
  lemma UpsertReplaceIdempotentIff(content: string, version: string, text: string)
    requires Rendered(text, version) && Upsert(content, version, text + "\n").Ok?
    requires OutlineOf(NonBlankLines(content), Version(version)).Some?
    ensures Upsert(Upsert(content, version, text + "\n").value, version, text + "\n")
              == Upsert(content, version, text + "\n")
       <==> NamesUnreleased(ReplacedLinesOf(content, version, text))
  {
    hide NonBlankLines, OutlineOf, Upsert, NamesUnreleased, Rendered, Contains;
    UpsertReplacesSection(content, version, text);
    var after := Upsert(content, version, text + "\n").value;
    UnreleasedByLines(after);
    if Contains(after, UNRELEASED_TEXT) {
      ReplacedAgain(content, version, text);
    } else {
      UpsertFails(after, version, text + "\n");
    }
  }

  lemma UpsertFails(content: string, version: string, section: string)
    requires !Contains(content, UNRELEASED_TEXT)
    ensures Upsert(content, version, section).Err?
  {
    hide FindHeading, Find, BodyOf, ReplacedText, InsertedText;
    CutExists(content, UNRELEASED_TEXT);
  }

  lemma UnreleasedByLines(s: string)
    ensures Contains(s, UNRELEASED_TEXT) <==> NamesUnreleased(NonBlankLines(s))
  {
    hide NonBlankLines, Contains;
    LiteralsOfUnreleased();
    assert !IsSpace(UNRELEASED_TEXT[0]);
    ContainsByLines(s, UNRELEASED_TEXT);
  }

  lemma ReplacedAgain(content: string, version: string, text: string)
    requires Rendered(text, version) && Upsert(content, version, text + "\n").Ok?
    requires OutlineOf(NonBlankLines(content), Version(version)).Some?
    requires Contains(Upsert(content, version, text + "\n").value, UNRELEASED_TEXT)
    ensures Upsert(Upsert(content, version, text + "\n").value, version, text + "\n")
         == Upsert(content, version, text + "\n")
  {
    hide NonBlankLines, IsHeadingLine, MatchLength, FirstLine, OutlineOf, BodyOf, NoHeadingIn, StartsSection,
         CollapseNewlines, FromHeading, ReplacedText, FindHeading, Contains;
    var after := Upsert(content, version, text + "\n").value;
    NoOutline(NonBlankLines(content), Version(version));
    VersionFound(content, version);
    var m, s := VersionSection(content, version);
    var front, rest := CollapseNewlines(m.before), CollapseNewlines(s.tail);
    TailIsHeading(s.tail);
    SpacesAre('\n');
    ReplacedShape(m.before, text, s.tail);
    CollapsedFront(m.before, version);
    CollapseIdempotent(s.tail);
    UpsertAgain(after, front, text, rest, version);
  }

  /** A tail that starts with a heading or is empty is found again after collapsing. */
  lemma TailIsHeading(tail: string)
    requires tail == "" || MatchLength(tail, AnySection).Some?
    ensures tail == "" || tail[0] != '\n'
    ensures CollapseNewlines(tail) == "" || CollapseNewlines(tail)[0] != '\n'
    ensures FromHeading(CollapseNewlines(tail)) == CollapseNewlines(tail)
  {
    hide NonBlankLines, CollapseNewlines, MatchLength, FindHeading, IsHeadingLine, FirstLine, FromHeading;
    CollapseEnds(tail);
    if tail != "" {
      MatchStartsText(tail, AnySection);
    }
    CollapsedHeading(tail);
    var front := FromHeadingLines(CollapseNewlines(tail));
    assert front == "";
    assert front + FromHeading(CollapseNewlines(tail)) == FromHeading(CollapseNewlines(tail));
  }

  /** Collapsing keeps whether a text starts with a bracketed heading. */
  lemma CollapsedHeading(text: string)
    ensures MatchLength(CollapseNewlines(text), AnySection).Some? <==> MatchLength(text, AnySection).Some?
  {
    hide CollapseNewlines, MatchLength, FirstLine;
    AnySectionPlain();
    CollapseFirstLine(text);
    MatchByLine(text, AnySection);
    MatchByLine(CollapseNewlines(text), AnySection);
  }

  lemma CollapsedFront(before: string, version: string)
    requires EndsLine(before) && NoHeadingIn(NonBlankLines(before), Version(version))
    ensures CollapseNewlines(CollapseNewlines(before)) == CollapseNewlines(before)
    ensures EndsLine(CollapseNewlines(before))
    ensures NoHeadingIn(NonBlankLines(CollapseNewlines(before)), Version(version))
  {
    hide NonBlankLines, CollapseNewlines, IsHeadingLine;
    CollapseIdempotent(before);
    CollapseKeepsLines(before);
    CollapseEnds(before);
    if before != "" {
      CollapseLast(before);
    }
  }

  /** What follows the Unreleased heading text, without its leading newlines. */
  function UnreleasedNotes(content: string): string
    requires Cut(content, UNRELEASED_TEXT).Some?
  {
    SkipNewlines(Cut(content, UNRELEASED_TEXT).value.after)
  }

  /** The text names Unreleased, and neither it nor its part up to there has a heading of the version. */
  predicate IsNew(content: string, version: string) {
    && Cut(content, UNRELEASED_TEXT).Some?
    && NoHeadingIn(NonBlankLines(content), Version(version))
    && NoHeadingIn(NonBlankLines(Cut(content, UNRELEASED_TEXT).value.before + UNRELEASED_TEXT), Version(version))
  }

  /** Where the Unreleased text is a heading line, a version without a heading is new. */
  lemma NewBehindHeading(content: string, version: string)
    requires UnreleasedAlone(content) && NoHeadingIn(NonBlankLines(content), Version(version))
    ensures IsNew(content, version)
  {
    hide NonBlankLines, IsHeadingLine, Cut, NoHeadingIn, UnreleasedLine;
    UnreleasedLines(content);
    BareIsNoVersion(content, version);
    var halves := Cut(content, UNRELEASED_TEXT).value;
    AbsentPart(NonBlankLines(halves.before) + [UNRELEASED_TEXT], NonBlankLines(halves.after), Version(version));
  }

  /** And so is every version whose text holds no opening bracket, wherever the text names Unreleased. */
  lemma NewByName(content: string, version: string)
    requires '[' !in version && version != "Unreleased" && Contains(content, UNRELEASED_TEXT)
    requires NoHeadingIn(NonBlankLines(content), Version(version))
    ensures IsNew(content, version)
  {
    hide NonBlankLines, IsHeadingLine, Find, Contains, NoHeadingIn;
    CutJoins(content, UNRELEASED_TEXT);
    var halves := Cut(content, UNRELEASED_TEXT).value;
    FrontIsNew(halves.before, halves.after, version);
  }

  lemma {:induction false} FrontIsNew(before: string, after: string, version: string)
    requires '[' !in version && version != "Unreleased"
    requires NoHeadingIn(NonBlankLines(before + UNRELEASED_TEXT + after), Version(version))
    ensures NoHeadingIn(NonBlankLines(before + UNRELEASED_TEXT), Version(version))
    decreases |before|
  {
    hide NonBlankLines, KeepIfText, FirstLine, RestLines, IsHeadingLine, NoHeadingIn, UNRELEASED_TEXT;
    var u, h := UNRELEASED_TEXT, Version(version);
    SplitFirst(before);
    if FirstLine(before) == before {
      NamedIsNoVersion(before, version);
    } else {
      var line, e, rest := FirstLine(before), before[|FirstLine(before)|], RestLines(before);
      LinesJoinAs(line, e, rest + u, before + u);
      LinesJoinAs(line, e, rest + u + after, before + u + after);
      AbsentPart(NonBlankLines(line), NonBlankLines(rest + u), h);
      AbsentPart(NonBlankLines(line), NonBlankLines(rest + u + after), h);
      FrontIsNew(rest, after, version);
    }
  }

  /** A line that ends with the Unreleased text is no heading of such a version. */
  lemma NamedIsNoVersion(x: string, version: string)
    requires OneLine(x) && '[' !in version && version != "Unreleased"
    ensures NoHeadingIn(NonBlankLines(x + UNRELEASED_TEXT), Version(version))
  {
    hide NonBlankLines, IsHeadingLine;
    var line := x + UNRELEASED_TEXT;
    UnreleasedTextIsHeading();
    LinesOfOneLine(line);
    if IsHeadingLine(line, Version(version)) {
      NamedVersion(x, version);
    }
  }

  lemma NamedVersion(x: string, version: string)
    requires OneLine(x) && IsHeadingLine(x + UNRELEASED_TEXT, Version(version))
    ensures '[' in version || version == "Unreleased"
  {
    hide IsHeadingLine;
    var line := x + UNRELEASED_TEXT;
    UnreleasedTextIsHeading();
    if x == "" {
      assert line == UNRELEASED_TEXT;
      UnreleasedIsNoVersion(line, version);
    } else {
      var z := VersionTail(line, version);
      var w := line[4..|line| - 1];
      NothingIsTail();
      NamedSplit(x, line, version, z);
      BracketsAgree(line, w, version, "", z);
      assert w[|x| - 1] == line[|x| + 3] == '[';
    }
  }

  lemma NamedSplit(x: string, line: string, version: string, z: string)
    requires line == x + UNRELEASED_TEXT && line == "## [" + version + "]" + z
    ensures line == "## [" + line[4..|line| - 1] + "]" + ""
  {
    assert line[|line| - 1] == UNRELEASED_TEXT[|UNRELEASED_TEXT| - 1] == ']';
    assert line[..4] == "## [";
  }

  lemma NothingIsTail()
    ensures DatedTail("").Some?
  {
  }

  /** Where the version is new, an upsert is idempotent exactly when the text behind the
      Unreleased text is empty or starts with a bracketed heading, but for newlines:
      otherwise the first upsert puts those notes into the new section, and the second
      upsert removes them with it. */
  lemma UpsertInsertIdempotentIff(content: string, version: string, text: string)
    requires Rendered(text, version) && IsNew(content, version)
    ensures Upsert(content, version, text + "\n").Ok?
    ensures Upsert(Upsert(content, version, text + "\n").value, version, text + "\n")
              == Upsert(content, version, text + "\n")
       <==> UnreleasedNotes(content) == "" || MatchLength(UnreleasedNotes(content), AnySection).Some?
  {
    hide NonBlankLines, IsHeadingLine, MatchLength, FirstLine, NoHeadingIn, CollapseNewlines, FromHeading,
         InsertedText, FindHeading, Cut, Rendered, SkipNewlines, Upsert;
    var halves := Cut(content, UNRELEASED_TEXT).value;
    var before, rest := halves.before + UNRELEASED_TEXT, CollapseNewlines(UnreleasedNotes(content));
    var front := CollapseNewlines(before) + "\n\n";
    var after := front + (CollapseNewlines(text) + "\n\n" + rest);
    FirstUpsertShape(content, version, text);
    InsertedHolds(content, version, text);
    UpsertAgain(after, front, text, rest, version);
    NotesStay(UnreleasedNotes(content));
    SameEnd(front + (CollapseNewlines(text) + "\n\n"), rest, CollapseNewlines(FromHeading(rest)));
    assert front + (CollapseNewlines(text) + "\n\n") + rest == after;
    assert front + (CollapseNewlines(text) + "\n\n") + CollapseNewlines(FromHeading(rest))
        == front + (CollapseNewlines(text) + "\n\n" + CollapseNewlines(FromHeading(rest)));
  }

  /** A changelog on which the second upsert removes a note: any new version, rendered in any
      way, written twice into a changelog with one note under Unreleased. */
  lemma SecondUpsertLosesNote(version: string, text: string)
    requires Rendered(text, version) && version != "Unreleased"
    ensures var content := "## [Unreleased]\n- note";
      var once := Upsert(content, version, text + "\n");
      once.Ok? && Upsert(once.value, version, text + "\n") != once
  {
    hide NonBlankLines, MatchLength, Upsert, NoHeadingIn, Rendered, Cut, UnreleasedNotes, IsNew;
    var content := UNRELEASED_TEXT + "\n- note";
    assert content == "## [Unreleased]\n- note";
    NoteUnderUnreleased();
    NoteIsNoVersion(version);
    NewBehindHeading(content, version);
    UpsertInsertIdempotentIff(content, version, text);
    NoteIsNoHeadingOf(AnySection);
  }

  lemma NoteUnderUnreleased()
    ensures var content := UNRELEASED_TEXT + "\n- note";
      && UnreleasedAlone(content)
      && UnreleasedNotes(content) == "- note"
      && NonBlankLines(content) == [UNRELEASED_TEXT, "- note"]
  {
    hide NonBlankLines, Find, KeepIfText;
    var u := UNRELEASED_TEXT;
    var after := "\n- note";
    CutAtStart(u, after);
    assert TailLength(after).Some? by { NewlineIsTail(after); }
    assert after[1..] == "- note" && SkipNewlines("- note") == "- note";
    UnreleasedTextIsHeading();
    LinesJoin(u, '\n', "- note");
    assert u + ['\n'] + "- note" == u + after;
    LinesOfOneLine(u);
    NoteLineKept();
    LinesOfOneLine("- note");
  }

  lemma NewlineIsTail(after: string)
    requires after != "" && after[0] == '\n'
    ensures TailLength(after).Some?
  {
  }

  lemma NoteLineKept()
    ensures OneLine("- note") && KeepIfText("- note") == ["- note"]
  {
    assert !IsSpace("- note"[0]);
  }

  lemma NoteIsNoHeadingOf(h: Heading)
    ensures !IsHeadingLine("- note", h)
  {
    assert "- note"[0] != Literal(h)[0];
  }

  lemma NoteIsNoVersion(version: string)
    requires version != "Unreleased"
    ensures NoHeadingIn([UNRELEASED_TEXT, "- note"], Version(version))
  {
    hide IsHeadingLine;
    UnreleasedTextIsHeading();
    if IsHeadingLine(UNRELEASED_TEXT, Version(version)) {
      UnreleasedIsNoVersion(UNRELEASED_TEXT, version);
    }
    NoteIsNoHeadingOf(Version(version));
  }

  lemma SameEnd(p: string, a: string, b: string)
    ensures p + a == p + b <==> a == b
  {
    if p + a == p + b {
      assert a == (p + a)[|p|..] && b == (p + b)[|p|..];
    }
  }

  /** Cutting the collapsed notes at the next heading leaves them as they are exactly when
      they are empty or start with one. */
  lemma NotesStay(notes: string)
    ensures CollapseNewlines(FromHeading(CollapseNewlines(notes))) == CollapseNewlines(notes)
       <==> notes == "" || MatchLength(notes, AnySection).Some?
  {
    hide NonBlankLines, CollapseNewlines, MatchLength, FindHeading, IsHeadingLine, FromHeading;
    var rest := CollapseNewlines(notes);
    CollapsedHeading(notes);
    CollapseEnds(notes);
    CollapseIdempotent(notes);
    var front := FromHeadingLines(rest);
    CollapseEnds(FromHeading(rest));
    if front == "" {
      assert front + FromHeading(rest) == FromHeading(rest);
    } else {
      assert |FromHeading(rest)| < |rest|;
    }
  }

  lemma FirstUpsertShape(content: string, version: string, text: string)
    requires Rendered(text, version) && Cut(content, UNRELEASED_TEXT).Some?
    requires NoHeadingIn(NonBlankLines(content), Version(version))
    ensures var before := Cut(content, UNRELEASED_TEXT).value.before + UNRELEASED_TEXT;
      Upsert(content, version, text + "\n")
        == Ok((CollapseNewlines(before) + "\n\n")
              + (CollapseNewlines(text) + "\n\n" + CollapseNewlines(UnreleasedNotes(content))))
  {
    hide NonBlankLines, IsHeadingLine, CollapseNewlines, InsertedText, FindHeading, Cut, SkipNewlines, NoHeadingIn;
    VersionFound(content, version);
    var halves := Cut(content, UNRELEASED_TEXT).value;
    EndsWithBracket(halves.before);
    InsertedShape(halves.before + UNRELEASED_TEXT, text, halves.after);
  }

  lemma EndsWithBracket(a: string)
    ensures (a + UNRELEASED_TEXT) != "" && (a + UNRELEASED_TEXT)[|a + UNRELEASED_TEXT| - 1] == ']'
  {
    assert UNRELEASED_TEXT[|UNRELEASED_TEXT| - 1] == ']';
  }

  lemma InsertedHolds(content: string, version: string, text: string)
    requires IsNew(content, version)
    ensures var front := CollapseNewlines(Cut(content, UNRELEASED_TEXT).value.before + UNRELEASED_TEXT) + "\n\n";
      var rest := CollapseNewlines(UnreleasedNotes(content));
      var after := front + (CollapseNewlines(text) + "\n\n" + rest);
      && Holds(after, front, text, rest, version) && CollapseNewlines(front) == front
      && Contains(after, UNRELEASED_TEXT)
  {
    hide NonBlankLines, IsHeadingLine, CollapseNewlines, Cut, Contains, NoHeadingIn;
    var halves := Cut(content, UNRELEASED_TEXT).value;
    var before := halves.before + UNRELEASED_TEXT;
    var front := CollapseNewlines(before) + "\n\n";
    CollapseEnds(UnreleasedNotes(content));
    EndsWithBracket(halves.before);
    FrontStays(before);
    LinesOfTwo(before);
    var rest := CollapseNewlines(UnreleasedNotes(content));
    InsertedKeepsUnreleased(halves.before, front, CollapseNewlines(text) + "\n\n" + rest);
  }

  lemma FrontStays(before: string)
    requires before != "" && before[|before| - 1] == ']'
    ensures CollapseNewlines(CollapseNewlines(before) + "\n\n") == CollapseNewlines(before) + "\n\n"
  {
    hide CollapseNewlines;
    CollapseLast(before);
    CollapseConcat(CollapseNewlines(before), "\n\n");
    CollapseSmall();
    CollapseIdempotent(before);
  }

  lemma LinesOfTwo(before: string)
    ensures NonBlankLines(CollapseNewlines(before) + "\n\n") == NonBlankLines(before)
  {
    hide NonBlankLines, CollapseNewlines;
    var c := CollapseNewlines(before);
    CollapseKeepsLines(before);
    LinesOfTrailing(c, '\n', c + "\n");
    LinesOfTrailing(c + "\n", '\n', c + "\n\n");
  }

  lemma InsertedKeepsUnreleased(x: string, front: string, more: string)
    requires front == CollapseNewlines(x + UNRELEASED_TEXT) + "\n\n"
    ensures Contains(front + more, UNRELEASED_TEXT)
  {
    hide CollapseNewlines, Contains;
    UnreleasedNoNewline();
    CollapseConcat(x, UNRELEASED_TEXT);
    var c := CollapseNewlines(x);
    ContainedBehind(c, UNRELEASED_TEXT + ("\n\n" + more), UNRELEASED_TEXT);
    assert c + (UNRELEASED_TEXT + ("\n\n" + more)) == front + more;
  }

  lemma UnreleasedNoNewline()
    ensures CollapseNewlines(UNRELEASED_TEXT) == UNRELEASED_TEXT && UNRELEASED_TEXT[0] == '#'
  {
    OneLineCollapses(UNRELEASED_TEXT);
  }

  // ----- the rewriter meets the validator

  /** Notes behind the heading line of a rendered section. */
  predicate HasNotes(text: string) {
    HasMeaningfulReleaseNotes(text[|FirstLine(text)|..])
  }

  lemma RenderedSplit(text: string, version: string)
    requires Rendered(text, version)
    ensures var l, rest := FirstLine(text), text[|FirstLine(text)|..];
      && text == l + rest && OneLine(l) && !Blank(l) && l != "" && l[0] != '\n' && '\n' !in l
      && StartsLine(rest) && NonBlankLines(text)[0] == l
  {
    hide NonBlankLines, IsHeadingLine, NoHeadingIn, KeepIfText, Blank, IsSpace, RestLines;
    FirstLineSpec(text);
    LinesUnfold(text);
    var l := FirstLine(text);
    TextStartsLine(text);
    assert KeepIfText(l) == [l] && KeepIfText(l)[0] == l by { KeptLine(l); }
  }

  lemma KeptLine(l: string)
    requires !Blank(l)
    ensures KeepIfText(l) == [l]
  {
  }

  lemma TextStartsLine(text: string)
    requires text != "" && !IsSpace(text[0])
    ensures FirstLine(text) != "" && FirstLine(text)[0] == text[0] && !Blank(FirstLine(text))
  {
    assert LineLength(text) > 0;
  }

  lemma RestNotes(rest: string)
    requires StartsLine(rest)
    ensures var r := CollapseNewlines(rest + "\n\n");
      && r != "" && r[|r| - 1] == '\n' && StartsLine(r)
      && (HasMeaningfulReleaseNotes(rest) ==> HasMeaningfulReleaseNotes(r))
    ensures var r := CollapseNewlines(rest + "\n\n\n");
      && r != "" && r[|r| - 1] == '\n' && StartsLine(r)
      && (HasMeaningfulReleaseNotes(rest) ==> HasMeaningfulReleaseNotes(r))
  {
    hide CollapseNewlines, HasMeaningfulReleaseNotes;
    RestNotesBehind(rest, "\n");
    RestNotesBehind(rest, "\n\n");
    assert rest + "\n" + "\n" == rest + "\n\n" && rest + "\n" + "\n\n" == rest + "\n\n\n";
  }

  lemma RestNotesBehind(rest: string, more: string)
    requires StartsLine(rest) && more != "" && more[|more| - 1] == '\n'
    ensures var r := CollapseNewlines(rest + "\n" + more);
      && r != "" && r[|r| - 1] == '\n' && StartsLine(r)
      && (HasMeaningfulReleaseNotes(rest) ==> HasMeaningfulReleaseNotes(r))
  {
    hide CollapseNewlines, HasMeaningfulReleaseNotes;
    var whole := rest + "\n" + more;
    CollapseLast(whole);
    CollapseEnds(whole);
    CollapseKeepsNotes(whole);
    NotesJoin(rest, more);
    assert rest != "" ==> whole[0] == rest[0];
  }

  /** The collapsed text around a rendered section, cut behind the heading line and in front
      of what follows. */
  lemma CollapsedPieces(before: string, l: string, rest: string, gap: string, tail: string)
    requires l != "" && l[0] != '\n' && '\n' !in l && gap != "" && (tail == "" || tail[0] != '\n')
    requires StartsLine(rest)
    ensures CollapseNewlines(before + (l + rest) + gap + tail)
         == CollapseNewlines(before) + l + CollapseNewlines(rest + gap) + CollapseNewlines(tail)
  {
    hide CollapseNewlines;
    OneLineCollapses(l);
    assert l[|l| - 1] in l;
    CollapseConcat(before, l);
    CollapseConcat(before + l, rest + gap);
    CollapseConcat(before + l + (rest + gap), tail);
    assert before + l + (rest + gap) + tail == before + (l + rest) + gap + tail;
  }

  lemma CollapsedHeadLines(before: string, l: string)
    requires EndsLine(before) && OneLine(l) && !Blank(l)
    ensures NonBlankLines(CollapseNewlines(before) + l) == NonBlankLines(before) + [l]
  {
    hide NonBlankLines, CollapseNewlines, Blank;
    CollapseKeepsLines(before);
    CollapseEnds(before);
    if before != "" {
      CollapseLast(before);
    }
    LinesConcat(CollapseNewlines(before), l);
    LinesOfOneLine(l);
    KeptLine(l);
  }

  /** A changelog with a replaced section passes validation. */
  lemma UpsertReplaceValidates(content: string, m: Metadata, text: string)
    requires Rendered(text, m.version) && Upsert(content, m.version, text + "\n").Ok?
    requires OutlineOf(NonBlankLines(content), Version(m.version)).Some? && m.version != "Unreleased"
    requires OutlineOf(NonBlankLines(content), UNRELEASED).Some?
    requires HasNotes(text)
    ensures ValidateReleaseChangelog(Upsert(content, m.version, text + "\n").value, m) == Ok(())
  {
    hide NonBlankLines, IsHeadingLine, OutlineOf, NoHeadingIn, ValidateReleaseChangelog, HasMeaningfulReleaseNotes,
         Upsert, FirstLine, Blank, CollapseNewlines, FindHeading, BodyOf, MatchLength, Rendered, IsSpace;
    UpsertReplacesSection(content, m.version, text);
    ReplaceKeepsUnreleased(content, m.version, text);
    RenderedOneLine(text, m.version);
    RenderedSplit(text, m.version);
    var l, rest := FirstLine(text), text[|FirstLine(text)|..];
    var before, tail := ReplacedWhere(content, m.version, text);
    ReplacedCut(before, l, rest, tail);
    var r, q := CollapseNewlines(rest + "\n\n"), CollapseNewlines(SkipNewlines(tail));
    RestNotes(rest);
    CollapsedHeadLines(before, l);
    CollapseKeepsLines(SkipNewlines(tail));
    SkipKeepsLines(tail);
    SectionValidates(Upsert(content, m.version, text + "\n").value, m, CollapseNewlines(before), l, r, q);
  }

  /** The pieces that a replacement is put between. */
  lemma ReplacedWhere(content: string, version: string, text: string) returns (before: string, tail: string)
    requires OneLine(version) && Upsert(content, version, text + "\n").Ok?
    requires OutlineOf(NonBlankLines(content), Version(version)).Some?
    ensures Upsert(content, version, text + "\n") == Ok(ReplacedText(before, text + "\n", tail))
    ensures EndsLine(before)
    ensures var o := OutlineOf(NonBlankLines(content), Version(version)).value;
      o.head != [] && NonBlankLines(before) == o.head[..|o.head| - 1] && NonBlankLines(tail) == o.tail
  {
    hide NonBlankLines, IsHeadingLine, MatchLength, FirstLine, OutlineOf, BodyOf, NoHeadingIn, StartsSection,
         ReplacedText, InsertedText;
    NoOutline(NonBlankLines(content), Version(version));
    VersionFound(content, version);
    var m, s := VersionSection(content, version);
    before, tail := m.before, s.tail;
    var line := FirstLine(m.text + m.rest);
    assert (NonBlankLines(before) + [line])[..|NonBlankLines(before)|] == NonBlankLines(before);
  }

  lemma ReplacedCut(before: string, l: string, rest: string, tail: string)
    requires l != "" && l[0] != '\n' && '\n' !in l && StartsLine(rest)
    ensures ReplacedText(before, l + rest + "\n", tail)
         == CollapseNewlines(before) + l + CollapseNewlines(rest + "\n\n") + CollapseNewlines(SkipNewlines(tail))
  {
    hide CollapseNewlines, SkipNewlines;
    var t := SkipNewlines(tail);
    CollapsedPieces(before, l, rest, "\n\n", t);
    assert before + (l + rest) + "\n\n" + t == before + (l + rest + "\n") + "\n" + t;
  }

  /** A changelog with an inserted section passes validation. */
  lemma UpsertInsertValidates(content: string, m: Metadata, text: string)
    requires Rendered(text, m.version) && UnreleasedAlone(content)
    requires NoHeadingIn(NonBlankLines(content), Version(m.version))
    requires HasNotes(text)
    ensures Upsert(content, m.version, text + "\n").Ok?
    ensures ValidateReleaseChangelog(Upsert(content, m.version, text + "\n").value, m) == Ok(())
  {
    hide NonBlankLines, IsHeadingLine, OutlineOf, NoHeadingIn, ValidateReleaseChangelog, HasMeaningfulReleaseNotes,
         Upsert, Cut, Literal, FirstLine, Blank, CollapseNewlines, IsSpace, InsertedText, UnreleasedLine;
    UpsertInsertsSection(content, m.version, text);
    UnreleasedLines(content);
    UnreleasedTextIsHeading();
    RenderedOneLine(text, m.version);
    RenderedSplit(text, m.version);
    var halves := Cut(content, UNRELEASED_TEXT).value;
    var t := NonBlankLines(text);
    var l, rest := FirstLine(text), text[|FirstLine(text)|..];
    var before := halves.before + UNRELEASED_TEXT;
    InsertedWhere(content, m.version, text);
    BareIsNoVersion(content, m.version);
    InsertedOutlines(NonBlankLines(halves.before), UNRELEASED_TEXT, t, NonBlankLines(halves.after), m.version);
    InsertedCut(before, l, rest, halves.after);
    var b, q := CollapseNewlines(before + "\n\n"), CollapseNewlines(SkipNewlines(halves.after));
    RestNotes(rest);
    InsertedHeadLines(before, l);
    CollapseKeepsLines(SkipNewlines(halves.after));
    SkipKeepsLines(halves.after);
    SectionValidates(Upsert(content, m.version, text + "\n").value, m, b, l, CollapseNewlines(rest + "\n\n\n"), q);
  }

  lemma InsertedWhere(content: string, version: string, text: string)
    requires OneLine(version) && UnreleasedAlone(content) && NoHeadingIn(NonBlankLines(content), Version(version))
    ensures var halves := Cut(content, UNRELEASED_TEXT).value;
      Upsert(content, version, text + "\n")
        == Ok(InsertedText(halves.before + UNRELEASED_TEXT, text + "\n", halves.after))
  {
    hide NonBlankLines, MatchLength, NoHeadingIn, InsertedText, Find, Cut, FindHeading;
    VersionFound(content, version);
  }

  lemma InsertedHeadLines(before: string, l: string)
    requires OneLine(l) && !Blank(l)
    ensures NonBlankLines(CollapseNewlines(before + "\n\n") + l) == NonBlankLines(before) + [l]
  {
    PromotedHead(before, l);
  }

  lemma InsertedCut(before: string, l: string, rest: string, after: string)
    requires l != "" && l[0] != '\n' && '\n' !in l && StartsLine(rest)
    ensures InsertedText(before, l + rest + "\n", after)
         == CollapseNewlines(before + "\n\n") + l + CollapseNewlines(rest + "\n\n\n")
            + CollapseNewlines(SkipNewlines(after))
  {
    hide CollapseNewlines, SkipNewlines;
    var a := SkipNewlines(after);
    CollapsedPieces(before + "\n\n", l, rest, "\n\n\n", a);
    assert before + "\n\n" + (l + rest) + "\n\n\n" + a == before + "\n\n" + (l + rest + "\n") + ("\n\n" + a);
  }

  lemma InsertedOutlines(front: seq<string>, u: string, t: seq<string>, rest: seq<string>, version: string)
    requires NoHeadingIn(front + [u] + rest, Version(version)) && IsHeadingLine(u, UNRELEASED)
    requires t != [] && IsHeadingLine(t[0], Version(version)) && NoHeadingIn(t[1..], AnySection)
    ensures OutlineOf(front + [u] + t + rest, UNRELEASED).Some?
    ensures var o := OutlineOf(front + [u] + t + rest, Version(version));
      o.Some? && o.value.head == front + [u] + [t[0]] && |o.value.tail| <= |rest|
  {
    hide IsHeadingLine, OutlineOf, NoHeadingIn;
    var lines := front + [u] + t + rest;
    BodyHasNoHeading(rest);
    var n := BodyLength(rest);
    AbsentPart(front + [u], rest, Version(version));
    RenderedOutline(front + [u], t, rest[..n], rest[n..], version);
    assert rest == rest[..n] + rest[n..];
    assert front + [u] + t + rest[..n] + rest[n..] == lines;
    NoOutline(lines, UNRELEASED);
    AbsentPart(front + [u] + t, rest, UNRELEASED);
    AbsentPart(front + [u], t, UNRELEASED);
    HeadingAtEnd(front, u);
  }

  lemma HeadingAtEnd(front: seq<string>, u: string)
    requires IsHeadingLine(u, UNRELEASED)
    ensures !NoHeadingIn(front + [u], UNRELEASED)
  {
    hide IsHeadingLine;
    assert (front + [u])[|front|] == u;
  }

  // ----- the text as read from disk

  lemma {:induction false} NoReturnsLeft(s: string)
    ensures '\r' !in RemoveReturns(s)
    ensures '\r' !in s ==> RemoveReturns(s) == s
  {
    if s != "" {
      NoReturnsLeft(s[1..]);
      assert s == [s[0]] + s[1..];
    }
  }

  predicate ReturnFree(s: string) {
    '\r' !in s
  }

  lemma PartReturnFree(a: string, b: string)
    ensures ReturnFree(a + b) <==> ReturnFree(a) && ReturnFree(b)
  {
  }

  lemma {:induction false} SkipReturnFree(s: string)
    requires ReturnFree(s)
    ensures ReturnFree(SkipNewlines(s))
  {
    if s != "" && s[0] == '\n' {
      PartReturnFree(s[..1], s[1..]);
      assert s[..1] + s[1..] == s;
      SkipReturnFree(s[1..]);
    }
  }

  lemma {:induction false} CollapseReturnFree(s: string)
    requires ReturnFree(s)
    ensures ReturnFree(CollapseNewlines(s))
    decreases |s|
  {
    hide CollapseNewlines;
    CollapseNothing();
    if s != "" {
      CollapseUnfold(s);
      if LongRun(s) {
        SkipReturnFree(s);
        CollapseReturnFree(SkipNewlines(s));
        PartReturnFree("\n\n", CollapseNewlines(SkipNewlines(s)));
      } else {
        PartReturnFree([s[0]], s[1..]);
        assert [s[0]] + s[1..] == s;
        CollapseReturnFree(s[1..]);
        PartReturnFree([s[0]], CollapseNewlines(s[1..]));
      }
    }
  }

  lemma ReplacedReturnFree(content: string, version: string, text: string)
    requires OneLine(version) && ReturnFree(content) && ReturnFree(text)
    requires OutlineOf(NonBlankLines(content), Version(version)).Some?
    requires Upsert(content, version, text + "\n").Ok?
    ensures ReturnFree(Upsert(content, version, text + "\n").value)
  {
    hide NonBlankLines, IsHeadingLine, MatchLength, FirstLine, OutlineOf, BodyOf, NoHeadingIn, StartsSection,
         ReturnFree, FindHeading, Find, CollapseNewlines, SkipNewlines;
    NoOutline(NonBlankLines(content), Version(version));
    VersionFound(content, version);
    var m, s := VersionSection(content, version);
    PartReturnFree(s.head + s.body, s.tail);
    assert content == m.before + (m.text + m.rest);
    PartReturnFree(m.before, m.text + m.rest);
    SkipReturnFree(s.tail);
    NewlineReturnFree();
    PartReturnFree(text, "\n");
    PartReturnFree(m.before, text + "\n");
    PartReturnFree(m.before + (text + "\n"), "\n");
    PartReturnFree(m.before + (text + "\n") + "\n", SkipNewlines(s.tail));
    CollapseReturnFree(m.before + (text + "\n") + "\n" + SkipNewlines(s.tail));
  }

  lemma NewlineReturnFree()
    ensures ReturnFree("\n")
  {
  }

  /** On the text as read from disk, whatever carriage returns it had: a second run with the
      same section changes nothing exactly when the text of the Unreleased heading stands
      outside the old section. */
  lemma SyncTwiceIff(changelog: string, version: string, text: string)
    requires ReturnFree(text) && Rendered(text, version)
    requires OutlineOf(NonBlankLines(RemoveReturns(changelog)), Version(version)).Some?
    requires UpsertReleaseSection(changelog, version, text + "\n").Ok?
    ensures UpsertReleaseSection(UpsertReleaseSection(changelog, version, text + "\n").value, version, text + "\n")
              == UpsertReleaseSection(changelog, version, text + "\n")
       <==> NamesUnreleased(ReplacedLinesOf(RemoveReturns(changelog), version, text))
  {
    hide NonBlankLines, OutlineOf, Upsert, NamesUnreleased, ReplacedLinesOf;
    var content := RemoveReturns(changelog);
    var after := Upsert(content, version, text + "\n").value;
    UpsertReplaceIdempotentIff(content, version, text);
    NoReturnsLeft(changelog);
    ReplacedReturnFree(content, version, text);
    NoReturnsLeft(after);
  }

  lemma InsertedReturnFree(content: string, version: string, text: string)
    requires IsNew(content, version) && Rendered(text, version) && ReturnFree(content) && ReturnFree(text)
    ensures Upsert(content, version, text + "\n").Ok?
    ensures ReturnFree(Upsert(content, version, text + "\n").value)
  {
    hide NonBlankLines, NoHeadingIn, ReturnFree, Find, CollapseNewlines, SkipNewlines, Upsert, Rendered, Contains;
    FirstUpsertShape(content, version, text);
    CutJoins(content, UNRELEASED_TEXT);
    var halves := Cut(content, UNRELEASED_TEXT).value;
    var before, notes := halves.before + UNRELEASED_TEXT, UnreleasedNotes(content);
    PartReturnFree(before, halves.after);
    SkipReturnFree(halves.after);
    CollapseReturnFree(before);
    CollapseReturnFree(text);
    CollapseReturnFree(notes);
    GapReturnFree(CollapseNewlines(before), CollapseNewlines(text), CollapseNewlines(notes));
  }

  lemma GapReturnFree(a: string, b: string, c: string)
    requires ReturnFree(a) && ReturnFree(b) && ReturnFree(c)
    ensures ReturnFree((a + "\n\n") + (b + "\n\n" + c))
  {
  }

  /** The same for a new version: on the text as read from disk, a second run changes nothing
      exactly when the text behind the Unreleased text is empty or starts with a heading. */
  lemma SyncInsertTwiceIff(changelog: string, version: string, text: string)
    requires ReturnFree(text) && Rendered(text, version) && IsNew(RemoveReturns(changelog), version)
    ensures UpsertReleaseSection(changelog, version, text + "\n").Ok?
    ensures var notes := UnreleasedNotes(RemoveReturns(changelog));
      UpsertReleaseSection(UpsertReleaseSection(changelog, version, text + "\n").value, version, text + "\n")
        == UpsertReleaseSection(changelog, version, text + "\n")
      <==> notes == "" || MatchLength(notes, AnySection).Some?
  {
    hide IsNew, Upsert, UnreleasedNotes, Rendered, MatchLength;
    var content := RemoveReturns(changelog);
    UpsertInsertIdempotentIff(content, version, text);
    var after := Upsert(content, version, text + "\n").value;
    NoReturnsLeft(changelog);
    InsertedReturnFree(content, version, text);
    NoReturnsLeft(after);
  }

  // ----- a second run that is refused

  const FIRST := "## [1.0.0]"
  const MENTION := "- see ## [Unreleased]"
  const FRESH := "- fresh"

  lemma RefusedLines()
    ensures NonBlankLines(FIRST + "\n" + MENTION) == [FIRST, MENTION]
    ensures NonBlankLines(FIRST + "\n" + FRESH) == [FIRST, FRESH]
  {
    hide NonBlankLines, KeepIfText, FIRST, MENTION, FRESH;
    WordsKept();
    LinesOfOneLine(FIRST);
    LinesOfOneLine(MENTION);
    LinesOfOneLine(FRESH);
    LinesJoinAs(FIRST, '\n', MENTION, FIRST + "\n" + MENTION);
    LinesJoinAs(FIRST, '\n', FRESH, FIRST + "\n" + FRESH);
  }

  lemma WordsKept()
    ensures OneLine(FIRST) && OneLine(MENTION) && OneLine(FRESH)
    ensures KeepIfText(FIRST) == [FIRST] && KeepIfText(MENTION) == [MENTION] && KeepIfText(FRESH) == [FRESH]
  {
    assert !IsSpace(FIRST[0]) && !IsSpace(MENTION[0]) && !IsSpace(FRESH[0]);
  }

  lemma WordsAsHeadings()
    ensures IsHeadingLine(FIRST, Version("1.0.0"))
    ensures NoHeadingIn([MENTION], AnySection) && NoHeadingIn([FRESH], AnySection)
  {
    hide MatchLength;
    FirstIsHeading();
    NoDash(MENTION);
    NoDash(FRESH);
  }

  lemma FirstIsHeading()
    ensures IsHeadingLine(FIRST, Version("1.0.0"))
  {
    assert Literal(Version("1.0.0")) == FIRST && FIRST[|FIRST|..] == "";
  }

  lemma NoDash(line: string)
    requires line != "" && line[0] == '-'
    ensures !IsHeadingLine(line, AnySection)
  {
    assert Literal(AnySection)[0] == '#';
  }

  lemma FreshIsRendered()
    ensures Rendered(FIRST + "\n" + FRESH, "1.0.0")
  {
    hide NonBlankLines, IsHeadingLine, NoHeadingIn;
    RefusedLines();
    WordsAsHeadings();
    assert [FIRST, FRESH][1..] == [FRESH];
  }

  lemma WordsName()
    ensures Contains(MENTION, UNRELEASED_TEXT) && !Contains(FIRST, UNRELEASED_TEXT) && !Contains(FRESH, UNRELEASED_TEXT)
  {
    hide Contains;
    ContainedBehind("- see ", UNRELEASED_TEXT, UNRELEASED_TEXT);
    assert "- see " + UNRELEASED_TEXT == MENTION;
    TooShort(FIRST, UNRELEASED_TEXT);
    TooShort(FRESH, UNRELEASED_TEXT);
  }

  lemma TooShort(s: string, p: string)
    requires |s| < |p|
    ensures !Contains(s, p)
  {
    hide Find, Contains;
    CutExists(s, p);
  }

  /** A changelog on which the second run is refused: the first one replaces the only line
      that names Unreleased. */
  lemma SecondUpsertRefused()
    ensures var once := Upsert(FIRST + "\n" + MENTION, "1.0.0", FIRST + "\n" + FRESH + "\n");
      once.Ok? && Upsert(once.value, "1.0.0", FIRST + "\n" + FRESH + "\n").Err?
  {
    hide NonBlankLines, OutlineOf, Upsert, Rendered, Contains, IsHeadingLine, NoHeadingIn;
    hide FIRST, MENTION, FRESH, UNRELEASED_TEXT;
    var content, text := FIRST + "\n" + MENTION, FIRST + "\n" + FRESH;
    RefusedLines();
    WordsName();
    FreshIsRendered();
    MentionOutline();
    UnreleasedByLines(content);
    assert Contains([FIRST, MENTION][1], UNRELEASED_TEXT);
    UpsertSucceeds(content, "1.0.0", text + "\n");
    UpsertReplacesSection(content, "1.0.0", text);
    var after := Upsert(content, "1.0.0", text + "\n").value;
    assert NonBlankLines(after) == [FIRST, FRESH];
    UnreleasedByLines(after);
    UpsertFails(after, "1.0.0", text + "\n");
  }

  lemma MentionOutline()
    ensures OutlineOf([FIRST, MENTION], Version("1.0.0")) == Some(Outline([FIRST], [MENTION], []))
  {
    hide IsHeadingLine, OutlineOf, FIRST, MENTION;
    WordsAsHeadings();
    var none: seq<string> := [];
    NothingAbsent(Version("1.0.0"));
    OutlineIs(none, FIRST, [MENTION], none, Version("1.0.0"));
    assert none + [FIRST] + [MENTION] + none == [FIRST, MENTION] && none + [FIRST] == [FIRST];
  }

  lemma UpsertSucceeds(content: string, version: string, section: string)
    requires Contains(content, UNRELEASED_TEXT)
    ensures Upsert(content, version, section).Ok?
  {
    hide FindHeading, Find, BodyOf, ReplacedText, InsertedText;
    CutExists(content, UNRELEASED_TEXT);
  }
}
