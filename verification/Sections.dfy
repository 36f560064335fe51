/** Sections of a changelog: the text a heading opens, up to the next bracketed heading. */
module Sections {
  import opened Prelude
  import opened Lines
  import opened Headings

  /** The text up to the end of the heading, the section body, and the text from the next heading on. */
  datatype Section = Section(head: string, body: string, tail: string)

  function BodyOf(head: string, rest: string): Section {
    match FindHeading(rest, AnySection)
    case None => Section(head, rest, "")
    case Some(next) => Section(head, next.before, next.text + next.rest)
  }

  function ExtractSection(content: string, h: Heading): Option<Section> {
    match FindHeading(content, h)
    case None => None
    case Some(m) => Some(BodyOf(m.before + m.text, m.rest))
  }

  // ----- the same thing on a list of lines

  datatype Outline = Outline(head: seq<string>, body: seq<string>, tail: seq<string>)

  function BodyLength(lines: seq<string>): (n: nat)
    ensures n <= |lines|
  {
    if lines == [] || IsHeadingLine(lines[0], AnySection) then 0 else 1 + BodyLength(lines[1..])
  }

  function OutlineAt(head: seq<string>, rest: seq<string>): Outline {
    Outline(head, rest[..BodyLength(rest)], rest[BodyLength(rest)..])
  }

  function OutlineOf(lines: seq<string>, h: Heading): Option<Outline> {
    if lines == [] then None
    else if IsHeadingLine(lines[0], h) then Some(OutlineAt([lines[0]], lines[1..]))
    else match OutlineOf(lines[1..], h)
      case None => None
      case Some(o) => Some(o.(head := [lines[0]] + o.head))
  }

  predicate StartsSection(lines: seq<string>) {
    lines == [] || IsHeadingLine(lines[0], AnySection)
  }

  lemma {:induction false} BodyLengthIs(body: seq<string>, tail: seq<string>)
    requires NoHeadingIn(body, AnySection) && StartsSection(tail)
    ensures BodyLength(body + tail) == |body|
  {
    hide IsHeadingLine;
    if body == [] {
      assert body + tail == tail;
    } else {
      assert (body + tail)[1..] == body[1..] + tail;
      BodyLengthIs(body[1..], tail);
    }
  }

  /** The outline is the only way to cut at the first heading and at the next section. */
  lemma {:induction false} OutlineIs(head: seq<string>, line: string, body: seq<string>, tail: seq<string>, h: Heading)
    requires NoHeadingIn(head, h) && IsHeadingLine(line, h)
    requires NoHeadingIn(body, AnySection) && StartsSection(tail)
    ensures OutlineOf(head + [line] + body + tail, h) == Some(Outline(head + [line], body, tail))
  {
    hide IsHeadingLine;
    var lines := head + [line] + body + tail;
    if head == [] {
      assert lines[1..] == body + tail && lines[0] == line && head + [line] == [line];
      BodyLengthIs(body, tail);
      assert (body + tail)[..|body|] == body && (body + tail)[|body|..] == tail;
    } else {
      assert lines[1..] == head[1..] + [line] + body + tail;
      OutlineIs(head[1..], line, body, tail, h);
      assert [head[0]] + (head[1..] + [line]) == head + [line];
    }
  }

  lemma {:induction false} NoOutline(lines: seq<string>, h: Heading)
    ensures NoHeadingIn(lines, h) <==> OutlineOf(lines, h).None?
  {
    hide IsHeadingLine;
    if lines != [] {
      NoOutline(lines[1..], h);
      assert forall i :: 0 < i < |lines| ==> lines[i] == lines[1..][i - 1];
      assert forall i :: 0 <= i < |lines[1..]| ==> lines[1..][i] == lines[i + 1];
    }
  }

  lemma AnySectionPlain()
    ensures Plain(AnySection)
  {
  }

  /** Where a section ends: at the end of the text or at the next bracketed heading. */
  lemma BodyByLines(head: string, rest: string)
    requires StartsLine(rest)
    ensures var s := BodyOf(head, rest);
      && rest == s.body + s.tail && s.head == head
      && NoHeadingIn(NonBlankLines(s.body), AnySection)
      && StartsSection(NonBlankLines(s.tail))
      && (s.tail == "" || MatchLength(s.tail, AnySection).Some?)
      && (s.tail != "" ==> s.body != "" && EndsLine(s.body))
      && StartsLine(s.body)
      && NonBlankLines(rest) == NonBlankLines(s.body) + NonBlankLines(s.tail)
  {
    hide NonBlankLines, IsHeadingLine, MatchLength, FirstLine;
    AnySectionPlain();
    FindHeadingByLines(rest, AnySection);
    NoLines();
    match FindHeading(rest, AnySection) {
      case None =>
        assert rest + "" == rest;
        assert NonBlankLines(rest) + [] == NonBlankLines(rest);
      case Some(next) =>
        var tail := next.text + next.rest;
        MatchStartsText(tail, AnySection);
        FirstLineKept(tail, AnySection);
        assert rest == next.before + tail;
        FrontNotEmpty(rest, next.before, tail);
        LinesConcat(next.before, tail);
        BodyStartsLine(rest, next.before, tail);
    }
  }

  lemma FrontNotEmpty(rest: string, front: string, tail: string)
    requires rest == front + tail && StartsLine(rest) && tail != "" && !IsLineEnd(tail[0])
    ensures front != ""
  {
    assert front == "" ==> rest == tail;
  }

  lemma BodyStartsLine(rest: string, body: string, tail: string)
    requires rest == body + tail && StartsLine(rest)
    ensures StartsLine(body)
  {
    if body != "" {
      assert rest[0] == body[0];
    }
  }

  lemma MatchStartsText(s: string, h: Heading)
    requires MatchLength(s, h).Some?
    ensures s != "" && s[0] == '#'
  {
    assert Literal(h)[0] == '#';
  }

  predicate CutsSection(content: string, h: Heading, s: Section) {
    && content == s.head + s.body + s.tail
    && OutlineOf(NonBlankLines(content), h)
         == Some(Outline(NonBlankLines(s.head), NonBlankLines(s.body), NonBlankLines(s.tail)))
    && NonBlankLines(content) == NonBlankLines(s.head) + NonBlankLines(s.body) + NonBlankLines(s.tail)
    && (s.tail == "" || MatchLength(s.tail, AnySection).Some?)
    && (s.tail != "" ==> s.body != "" && EndsLine(s.body))
    && StartsLine(s.body)
  }

  /** Extracting a section from the text is outlining its lines. */
  lemma SectionByLines(content: string, h: Heading)
    requires Plain(h)
    ensures ExtractSection(content, h).None? <==> OutlineOf(NonBlankLines(content), h).None?
    ensures ExtractSection(content, h).Some? ==> CutsSection(content, h, ExtractSection(content, h).value)
  {
    hide NonBlankLines, IsHeadingLine, MatchLength, FirstLine, OutlineOf, BodyOf, NoHeadingIn, StartsSection;
    FindHeadingByLines(content, h);
    match FindHeading(content, h) {
      case None => NoOutline(NonBlankLines(content), h);
      case Some(m) => SectionFromMatch(content, h, m);
    }
  }

  lemma SectionFromMatch(content: string, h: Heading, m: Match)
    requires Plain(h) && CutsAtHeading(content, h, m)
    ensures CutsSection(content, h, BodyOf(m.before + m.text, m.rest))
  {
    hide NonBlankLines, IsHeadingLine, MatchLength, FirstLine, OutlineOf, BodyOf, NoHeadingIn, StartsSection;
    var line := FirstLine(m.text + m.rest);
    var head := m.before + m.text;
    HeadLines(content, h, m);
    BodyByLines(head, m.rest);
    var s := BodyOf(head, m.rest);
    var a, b, t := NonBlankLines(m.before), NonBlankLines(s.body), NonBlankLines(s.tail);
    OutlineIs(a, line, b, t, h);
    assert a + [line] + (b + t) == a + [line] + b + t;
    assert head + (s.body + s.tail) == head + s.body + s.tail;
  }

  /** The text up to the end of a heading holds the lines before it and the heading line. */
  lemma HeadLines(content: string, h: Heading, m: Match)
    requires Plain(h) && CutsAtHeading(content, h, m)
    ensures NonBlankLines(m.before + m.text) == NonBlankLines(m.before) + [FirstLine(m.text + m.rest)]
  {
    hide NonBlankLines, IsHeadingLine, MatchLength, FirstLine, NoHeadingIn;
    var a, line, r := NonBlankLines(m.before), FirstLine(m.text + m.rest), NonBlankLines(m.rest);
    LinesConcat(m.before + m.text, m.rest);
    assert NonBlankLines(m.before + m.text) + r == (a + [line]) + r;
    CancelRight(NonBlankLines(m.before + m.text), a + [line], r);
  }

  lemma CancelRight<T>(a: seq<T>, b: seq<T>, c: seq<T>)
    requires a + c == b + c
    ensures a == b
  {
    assert |a| == |b|;
    assert a == (a + c)[..|a|] && b == (b + c)[..|b|];
  }

  // ----- editing lines around a section

  /** The lines of a section, if it is there. */
  function SectionLines(lines: seq<string>, h: Heading): Option<seq<string>> {
    match OutlineOf(lines, h)
    case None => None
    case Some(o) => Some(o.body)
  }

  function OrElse<T>(a: Option<T>, b: Option<T>): Option<T> {
    if a.Some? then a else b
  }

  lemma {:induction false} BodyLengthStops(a: seq<string>, b: seq<string>)
    requires StartsSection(b)
    ensures BodyLength(a + b) == BodyLength(a)
  {
    hide IsHeadingLine;
    if a == [] {
      assert a + b == b;
    } else if !IsHeadingLine(a[0], AnySection) {
      assert (a + b)[1..] == a[1..] + b;
      BodyLengthStops(a[1..], b);
    }
  }

  /** A section is found in the lines in front of a heading, or else from that heading on. */
  lemma {:induction false} SectionLinesAppend(a: seq<string>, b: seq<string>, h: Heading)
    requires StartsSection(b)
    ensures SectionLines(a + b, h) == OrElse(SectionLines(a, h), SectionLines(b, h))
  {
    hide IsHeadingLine, StartsSection;
    if a == [] {
      assert a + b == b;
    } else {
      assert (a + b)[1..] == a[1..] + b && (a + b)[0] == a[0];
      if IsHeadingLine(a[0], h) {
        BodyLengthStops(a[1..], b);
        assert (a[1..] + b)[..BodyLength(a[1..])] == a[1..][..BodyLength(a[1..])];
      } else {
        SectionLinesAppend(a[1..], b, h);
      }
    }
  }

  /** Lines that are no heading of the section are passed over. */
  lemma {:induction false} SectionLinesSkip(a: seq<string>, b: seq<string>, h: Heading)
    requires NoHeadingIn(a, h)
    ensures SectionLines(a + b, h) == SectionLines(b, h)
  {
    hide IsHeadingLine;
    if a == [] {
      assert a + b == b;
    } else {
      assert (a + b)[1..] == a[1..] + b && (a + b)[0] == a[0];
      SectionLinesSkip(a[1..], b, h);
    }
  }
}
