/** Rendering the summary of a release as a changelog section. */
module ReleaseRender {
  import opened Text
  import opened Lines
  import opened Headings
  import opened Prelude
  import opened ReleaseNotes
  import opened Sections
  import opened Changelog
  import opened ReleaseSync

  datatype SectionName = Added | Changed | Fixed {
    function Title(): string {
      match this
      case Added => "Added"
      case Changed => "Changed"
      case Fixed => "Fixed"
    }
  }

  type Grouped = map<SectionName, seq<string>>

  const SECTIONS: seq<SectionName> := [Added, Changed, Fixed]

  function Items(grouped: Grouped, name: SectionName): seq<string> {
    if name in grouped then grouped[name] else []
  }

  function Bullets(items: seq<string>): seq<string> {
    if items == [] then [] else Bullets(items[..|items| - 1]) + ["- " + items[|items| - 1]]
  }

  function SectionParts(grouped: Grouped, name: SectionName): seq<string> {
    var items := Items(grouped, name);
    if items == [] then [] else ["### " + name.Title()] + Bullets(items) + [""]
  }

  function Parts(m: Metadata, grouped: Grouped, names: seq<SectionName>): seq<string> {
    if names == [] then [VersionLine(m), ""]
    else Parts(m, grouped, names[..|names| - 1]) + SectionParts(grouped, names[|names| - 1])
  }

  /** The rendered section without its final newline. */
  function RenderedText(m: Metadata, grouped: Grouped): string {
    Trim(JoinLines(Parts(m, grouped, SECTIONS)))
  }

  method PushBullets(parts: seq<string>, items: seq<string>) returns (pushed: seq<string>)
    ensures pushed == parts + Bullets(items)
  {
    pushed := parts;
    var i := 0;
    while i < |items|
      invariant 0 <= i <= |items|
      invariant pushed == parts + Bullets(items[..i])
    {
      assert items[..i + 1][..i] == items[..i];
      pushed := pushed + ["- " + items[i]];
      i := i + 1;
    }
    assert items[..i] == items;
  }

  method RenderReleaseSection(m: Metadata, grouped: Grouped) returns (section: string)
    ensures section == RenderedText(m, grouped) + "\n"
  {
    hide VersionLine, Trim, JoinLines, Bullets;
    var parts := [VersionLine(m), ""];
    var k := 0;
    while k < |SECTIONS|
      invariant 0 <= k <= |SECTIONS|
      invariant parts == Parts(m, grouped, SECTIONS[..k])
    {
      var name := SECTIONS[k];
      assert SECTIONS[..k + 1][..k] == SECTIONS[..k];
      var items := Items(grouped, name);
      if |items| > 0 {
        var pushed := PushBullets(parts + ["### " + name.Title()], items);
        assert pushed + [""] == parts + SectionParts(grouped, name);
        parts := pushed + [""];
      } else {
        assert parts == parts + SectionParts(grouped, name);
      }
      k := k + 1;
    }
    assert SECTIONS[..k] == SECTIONS;
    section := Trim(JoinLines(parts)) + "\n";
  }

  // ----- what the rendered lines are

  function Texts(parts: seq<string>): seq<string> {
    if parts == [] then [] else KeepIfText(parts[0]) + Texts(parts[1..])
  }

  lemma {:induction false} JoinedText(parts: seq<string>)
    requires forall i :: 0 <= i < |parts| ==> OneLine(parts[i])
    ensures NonBlankLines(JoinLines(parts)) == Texts(parts)
  {
    hide NonBlankLines, KeepIfText;
    NoLines();
    if parts != [] {
      LinesOfOneLine(parts[0]);
      if |parts| == 1 {
        assert Texts(parts[1..]) == [];
        assert KeepIfText(parts[0]) + [] == KeepIfText(parts[0]);
      } else {
        JoinedText(parts[1..]);
        LinesJoin(parts[0], '\n', JoinLines(parts[1..]));
      }
    }
  }

  lemma {:induction false} TextsAppend(a: seq<string>, b: seq<string>)
    ensures Texts(a + b) == Texts(a) + Texts(b)
  {
    if a == [] {
      assert a + b == b;
    } else {
      assert (a + b)[1..] == a[1..] + b;
      TextsAppend(a[1..], b);
    }
  }

  /** The same lines, but for whitespace at their ends. */
  predicate SameButEnds(a: seq<string>, b: seq<string>) {
    |a| == |b| && forall i :: 0 <= i < |a| ==> a[i] <= b[i] && Trim(a[i]) == Trim(b[i])
  }

  lemma SameButEndsAppend(k: seq<string>, a: seq<string>, b: seq<string>)
    requires SameButEnds(a, b)
    ensures SameButEnds(k + a, k + b)
  {
    hide Trim;
    forall i | 0 <= i < |k + a|
      ensures (k + a)[i] <= (k + b)[i] && Trim((k + a)[i]) == Trim((k + b)[i])
    {
      if i >= |k| {
        assert (k + a)[i] == a[i - |k|] && (k + b)[i] == b[i - |k|];
      }
    }
  }

  lemma SameOneLine(t: string, w: string)
    requires Blank(w)
    ensures SameButEnds(KeepIfText(t), KeepIfText(t + w))
  {
    BlankPrefix(t, w);
    TrimBehindBlank(t, w);
  }

  lemma BlankPrefix(t: string, w: string)
    requires Blank(w)
    ensures Blank(t + w) <==> Blank(t)
  {
    if Blank(t + w) {
      forall i | 0 <= i < |t|
        ensures IsSpace(t[i])
      {
        assert t[i] == (t + w)[i];
      }
    }
  }

  lemma TrimBehindBlank(t: string, w: string)
    requires Blank(w)
    ensures Trim(t + w) == Trim(t)
  {
    var a, b := TrimSpec(t);
    var core := Trim(t);
    if core == "" {
      TrimUnique(a + b + w, "", "");
      assert (a + b + w) + "" + "" == t + w;
    } else {
      TrimUnique(a, core, b + w);
      assert a + core + (b + w) == t + w;
    }
  }

  /** Cutting whitespace off the end of a text changes its lines only at their ends. */
  lemma {:induction false} TrimmedLines(t: string, b: string)
    requires Blank(b)
    ensures SameButEnds(NonBlankLines(t), NonBlankLines(t + b))
    decreases |t|
  {
    hide NonBlankLines, KeepIfText, SameButEnds, Blank;
    SplitFirst(t);
    var line, rest := FirstLine(t), RestLines(t);
    if line == t {
      LastLineEnds(t, b);
    } else {
      var e := t[|line|];
      TrimmedLines(rest, b);
      LinesJoin(line, e, rest);
      LinesJoin(line, e, rest + b);
      assert line + [e] + (rest + b) == t + b;
      SameButEndsAppend(NonBlankLines(line), NonBlankLines(rest), NonBlankLines(rest + b));
    }
  }

  lemma LastLineEnds(t: string, b: string)
    requires Blank(b) && OneLine(t)
    ensures SameButEnds(NonBlankLines(t), NonBlankLines(t + b))
  {
    hide NonBlankLines, SameButEnds, KeepIfText, Blank, FirstLine, RestLines;
    SplitFirst(b);
    var w := FirstLine(b);
    BlankFirst(b);
    SameOneLine(t, w);
    LinesOfOneLine(t);
    OneLineConcat(t, w);
    LinesOfOneLine(t + w);
    if w != b {
      var e, rest := b[|w|], RestLines(b);
      LinesJoin(t + w, e, rest);
      BlankParts(w, e, rest);
      BlankHasNoLines(rest);
      LineApart(t, w, e, rest);
      assert KeepIfText(t + w) + [] == KeepIfText(t + w);
    }
  }

  lemma LineApart(t: string, w: string, e: char, rest: string)
    ensures (t + w) + [e] + rest == t + (w + [e] + rest)
  {
  }

  lemma BlankFirst(b: string)
    requires Blank(b)
    ensures Blank(FirstLine(b))
  {
  }

  lemma OneLineConcat(a: string, b: string)
    requires OneLine(a) && OneLine(b)
    ensures OneLine(a + b)
  {
  }

  // ----- the rendered text is what the rewriter expects

  /** One line of text that is no bracketed heading. */
  predicate NoteLine(part: string) {
    OneLine(part) && !("## [" <= part)
  }

  predicate NoteLines(parts: seq<string>) {
    forall i :: 0 <= i < |parts| ==> NoteLine(parts[i])
  }

  predicate OneLineItems(grouped: Grouped) {
    forall name, i :: name in grouped && 0 <= i < |grouped[name]| ==> OneLine(grouped[name][i])
  }

  lemma NoteLinesAppend(a: seq<string>, b: seq<string>)
    requires NoteLines(a) && NoteLines(b)
    ensures NoteLines(a + b)
  {
    hide NoteLine;
  }

  lemma BulletIsNote(item: string)
    requires OneLine(item)
    ensures NoteLine("- " + item) && NoteLines(["- " + item])
  {
    OneLineConcat("- ", item);
    assert ("- " + item)[0] == '-';
  }

  lemma {:induction false} BulletsAreNotes(items: seq<string>)
    requires forall i :: 0 <= i < |items| ==> OneLine(items[i])
    ensures NoteLines(Bullets(items))
  {
    hide NoteLine, OneLine;
    if items != [] {
      var n := |items| - 1;
      BulletsAreNotes(items[..n]);
      BulletIsNote(items[n]);
      NoteLinesAppend(Bullets(items[..n]), ["- " + items[n]]);
    }
  }

  lemma TitleLine(name: SectionName)
    ensures NoteLines(["### " + name.Title()]) && NoteLines([""])
    ensures MeaningfulLine("### " + name.Title())
    ensures KeepIfText("### " + name.Title()) == ["### " + name.Title()]
  {
    var line := "### " + name.Title();
    assert line[0] == '#' && line[2] == '#' && |line| >= 8;
    match name {
      case Added => assert line == "### Added";
      case Changed => assert line == "### Changed";
      case Fixed => assert line == "### Fixed";
    }
    TrimOfTrimmed(line);
    assert "### " <= line;
  }

  lemma SectionPartsAreNotes(grouped: Grouped, name: SectionName)
    requires OneLineItems(grouped)
    ensures NoteLines(SectionParts(grouped, name))
    ensures HasNoteLine(Texts(SectionParts(grouped, name))) <==> Items(grouped, name) != []
  {
    hide NoteLine, OneLine, NoteLines, MeaningfulLine, KeepIfText, HasNoteLine;
    var items := Items(grouped, name);
    TitleLine(name);
    NoNotes();
    if items != [] {
      var title := ["### " + name.Title()];
      BulletsAreNotes(items);
      NoteLinesAppend(title, Bullets(items));
      NoteLinesAppend(title + Bullets(items), [""]);
      TextsAppend(title, Bullets(items) + [""]);
      assert title + Bullets(items) + [""] == title + (Bullets(items) + [""]);
      assert Texts(title) == title + [] by { assert title[1..] == []; }
      NoteInFront(title[0], Texts(Bullets(items) + [""]));
      assert title + Texts(Bullets(items) + [""]) == Texts(SectionParts(grouped, name));
    }
  }

  lemma NoNotes()
    ensures !HasNoteLine([]) && NoteLines([])
  {
  }

  lemma NoteInFront(line: string, rest: seq<string>)
    requires MeaningfulLine(line)
    ensures HasNoteLine([line] + rest)
  {
    hide MeaningfulLine;
    assert ([line] + rest)[0] == line;
  }

  /** Some section has an item. */
  predicate HasItems(grouped: Grouped, names: seq<SectionName>) {
    exists i :: 0 <= i < |names| && Items(grouped, names[i]) != []
  }

  lemma {:induction false} PartsShape(m: Metadata, grouped: Grouped, names: seq<SectionName>)
      returns (notes: seq<string>)
    requires OneLineItems(grouped)
    ensures Parts(m, grouped, names) == [VersionLine(m), ""] + notes
    ensures NoteLines(notes)
    ensures HasNoteLine(Texts(notes)) <==> HasItems(grouped, names)
  {
    hide NoteLines, HasNoteLine, OneLineItems, VersionLine, SectionParts, Items;
    if names == [] {
      notes := [];
      NoNotes();
      assert [VersionLine(m), ""] + notes == [VersionLine(m), ""];
    } else {
      var n := |names| - 1;
      var front := PartsShape(m, grouped, names[..n]);
      var last := SectionParts(grouped, names[n]);
      SectionPartsAreNotes(grouped, names[n]);
      notes := front + last;
      NoteLinesAppend(front, last);
      TextsAppend(front, last);
      NoteLineAppend(Texts(front), Texts(last));
      assert [VersionLine(m), ""] + notes == [VersionLine(m), ""] + front + last;
      assert HasItems(grouped, names) <==> HasItems(grouped, names[..n]) || Items(grouped, names[n]) != [] by {
        assert forall i :: 0 <= i < n ==> names[..n][i] == names[i];
      }
    }
  }

  lemma {:induction false} TextsAreParts(parts: seq<string>)
    requires NoteLines(parts)
    ensures NoteLines(Texts(parts))
  {
    hide NoteLine, Blank;
    if parts != [] {
      TextsAreParts(parts[1..]);
      NoteLinesAppend(KeepIfText(parts[0]), Texts(parts[1..]));
    }
  }

  /** The rendered lines: the version heading, then lines that differ from the notes at most at their ends. */
  lemma RenderedLines(m: Metadata, grouped: Grouped) returns (notes: seq<string>)
    requires ValidMetadata(m) && OneLineItems(grouped)
    ensures NoteLines(notes) && (HasNoteLine(notes) <==> HasItems(grouped, SECTIONS))
    ensures SameButEnds(NonBlankLines(RenderedText(m, grouped)), [VersionLine(m)] + notes)
    ensures VersionLine(m) <= RenderedText(m, grouped) && Trimmed(RenderedText(m, grouped))
  {
    hide NonBlankLines, NoteLine, HasNoteLine, OneLineItems, VersionLine, ValidMetadata, SectionParts, Trim, Items,
         Parts, KeepIfText, Blank, HasItems;
    var raw := PartsShape(m, grouped, SECTIONS);
    notes := Texts(raw);
    TextsAreParts(raw);
    VersionLineIsHeading(m);
    var v, text := VersionLine(m), JoinLines(Parts(m, grouped, SECTIONS));
    LinesOfParts(v, raw);
    var b := TrimKeepsFront(v, JoinBehind(v, raw), text, m);
    TrimmedLines(Trim(text), b);
  }

  function JoinBehind(v: string, raw: seq<string>): string {
    "\n" + JoinLines([""] + raw)
  }

  lemma LinesOfParts(v: string, raw: seq<string>)
    requires OneLine(v) && KeepIfText(v) == [v] && NoteLines(raw)
    ensures NonBlankLines(JoinLines([v, ""] + raw)) == [v] + Texts(raw)
    ensures JoinLines([v, ""] + raw) == v + JoinBehind(v, raw)
  {
    hide NonBlankLines, KeepIfText;
    var parts := [v, ""] + raw;
    assert parts[1..] == [""] + raw && parts[1..][1..] == raw;
    FirstOfBlank();
    JoinedText(parts);
    assert Texts(parts) == [v] + ([] + Texts(raw));
  }

  lemma TrimKeepsFront(v: string, more: string, text: string, m: Metadata) returns (b: string)
    requires ValidMetadata(m) && v == VersionLine(m) && text == v + more
    ensures v <= Trim(text) && Trimmed(Trim(text)) && text == Trim(text) + b && Blank(b)
  {
    hide TrimEnd, IsSpace, VersionLine;
    VersionLineEnds(m);
    assert text[0] == v[0] && text[|v| - 1] == v[|v| - 1];
    TrimEndReaches(text, |v| - 1);
    TrimEndSpec(text);
    b := text[|Trim(text)|..];
    assert v == text[..|v|] == Trim(text)[..|v|];
  }

  lemma {:induction false} TrimEndReaches(s: string, k: nat)
    requires k < |s| && !IsSpace(s[k])
    ensures |TrimEnd(s)| > k
  {
    if IsSpace(s[|s| - 1]) {
      TrimEndReaches(s[..|s| - 1], k);
    }
  }

  lemma VersionLineEnds(m: Metadata)
    requires ValidMetadata(m)
    ensures VersionLine(m) != "" && !IsSpace(VersionLine(m)[0]) && !IsSpace(VersionLine(m)[|VersionLine(m)| - 1])
  {
    var d := " - " + m.releaseDate;
    assert IsDigit(d[12]);
    assert VersionLine(m)[|VersionLine(m)| - 1] == d[12];
  }

  /** A rendered section is what the rewriter expects, and it holds notes exactly when there is an item. */
  lemma RenderMeetsRewriter(m: Metadata, grouped: Grouped)
    requires ValidMetadata(m) && OneLineItems(grouped)
    ensures Rendered(RenderedText(m, grouped), m.version)
    ensures HasNotes(RenderedText(m, grouped)) <==> HasItems(grouped, SECTIONS)
  {
    hide NonBlankLines, HasNoteLine, OneLineItems, RenderedText, IsHeadingLine, HasItems, ValidMetadata, OnlyNewlines,
         HasMeaningfulReleaseNotes, FirstLine, NoHeadingIn, IsSpace, Blank;
    RenderedShape(m, grouped);
    var text := RenderedText(m, grouped);
    RenderedSplit(text, m.version);
    var l, rest := FirstLine(text), text[|FirstLine(text)|..];
    RenderedOnlyNewlines(m, grouped);
    RestOnlyNewlines(l, rest);
    NotesByLines(rest);
    LinesConcat(l, rest);
    LinesOfOneLine(l);
    KeptLine(l);
    assert ([l] + NonBlankLines(rest))[1..] == NonBlankLines(rest);
  }

  lemma RestOnlyNewlines(a: string, b: string)
    requires OnlyNewlines(a + b)
    ensures OnlyNewlines(b)
  {
    assert forall i :: 0 <= i < |b| ==> b[i] == (a + b)[|a| + i];
  }

  lemma OnlyNewlinesJoin(a: string, b: string)
    requires OnlyNewlines(a) && OnlyNewlines(b)
    ensures OnlyNewlines(a + b)
  {
  }

  lemma {:induction false} JoinOnlyNewlines(parts: seq<string>)
    requires forall i :: 0 <= i < |parts| ==> OneLine(parts[i])
    ensures OnlyNewlines(JoinLines(parts))
  {
    hide OnlyNewlines;
    if parts == [] {
      OneLineOnlyNewlines("");
    } else {
      OneLineOnlyNewlines(parts[0]);
      if |parts| > 1 {
        JoinOnlyNewlines(parts[1..]);
        OnlyNewlinesJoin(parts[0], "\n");
        OnlyNewlinesJoin(parts[0] + "\n", JoinLines(parts[1..]));
      }
    }
  }

  lemma OneLineOnlyNewlines(v: string)
    requires OneLine(v)
    ensures OnlyNewlines(v) && OnlyNewlines("\n")
  {
  }

  lemma TrimOnlyNewlines(s: string)
    requires OnlyNewlines(s)
    ensures OnlyNewlines(Trim(s))
  {
    hide OnlyNewlines, Trim;
    var a, b := TrimSpec(s);
    assert a + (Trim(s) + b) == s;
    RestOnlyNewlines(a, Trim(s) + b);
    FrontOnlyNewlines(Trim(s), b);
  }

  lemma FrontOnlyNewlines(a: string, b: string)
    requires OnlyNewlines(a + b)
    ensures OnlyNewlines(a)
  {
    assert forall i :: 0 <= i < |a| ==> a[i] == (a + b)[i];
  }

  lemma RenderedOnlyNewlines(m: Metadata, grouped: Grouped)
    requires ValidMetadata(m) && OneLineItems(grouped)
    ensures OnlyNewlines(RenderedText(m, grouped))
  {
    hide OneLineItems, VersionLine, ValidMetadata, Parts, Trim, OneLine, OnlyNewlines, HasNoteLine, HasItems;
    var notes := PartsShape(m, grouped, SECTIONS);
    var parts := Parts(m, grouped, SECTIONS);
    VersionLineIsHeading(m);
    NothingIsOneLine();
    forall i | 0 <= i < |parts|
      ensures OneLine(parts[i])
    {
      assert i >= 2 ==> parts[i] == notes[i - 2] && NoteLine(notes[i - 2]);
    }
    JoinOnlyNewlines(parts);
    TrimOnlyNewlines(JoinLines(parts));
  }

  lemma NothingIsOneLine()
    ensures OneLine("")
  {
  }

  /** From grouped items to an accepted changelog: with at least one item, the rendered
      section written into a changelog, over an old section of the version or as a new one,
      gives a text that validation accepts. */
  lemma SyncedChangelogValidates(content: string, m: Metadata, grouped: Grouped)
    requires ValidMetadata(m) && OneLineItems(grouped) && HasItems(grouped, SECTIONS)
    requires m.version != "Unreleased" && UnreleasedAlone(content)
    ensures var r := Upsert(content, m.version, RenderedText(m, grouped) + "\n");
      r.Ok? && ValidateReleaseChangelog(r.value, m) == Ok(())
  {
    hide NonBlankLines, OutlineOf, RenderedText, Upsert, UnreleasedAlone, NoHeadingIn, ValidateReleaseChangelog,
         HasItems, OneLineItems, ValidMetadata, HasNotes, Rendered, FindHeading;
    var text := RenderedText(m, grouped);
    RenderMeetsRewriter(m, grouped);
    NoOutline(NonBlankLines(content), Version(m.version));
    if NoHeadingIn(NonBlankLines(content), Version(m.version)) {
      UpsertInsertValidates(content, m, text);
    } else {
      AloneIsFound(content);
      UpsertIsThere(content, m.version, text + "\n");
      UpsertReplaceValidates(content, m, text);
    }
  }

  lemma UpsertIsThere(content: string, version: string, section: string)
    requires UnreleasedAlone(content)
    ensures Upsert(content, version, section).Ok?
  {
    hide Cut, FindHeading, BodyOf, ReplacedText, InsertedText;
  }

  lemma AloneIsFound(content: string)
    requires UnreleasedAlone(content)
    ensures OutlineOf(NonBlankLines(content), UNRELEASED).Some?
  {
    hide NonBlankLines, IsHeadingLine, Cut, NoHeadingIn, OutlineOf, UnreleasedLine;
    UnreleasedLines(content);
    NoOutline(NonBlankLines(content), UNRELEASED);
    var halves := Cut(content, UNRELEASED_TEXT).value;
    HeadingInside(NonBlankLines(halves.before), UnreleasedLine(content), NonBlankLines(halves.after));
  }

  lemma HeadingInside(front: seq<string>, u: string, rest: seq<string>)
    requires IsHeadingLine(u, UNRELEASED)
    ensures !NoHeadingIn(front + [u] + rest, UNRELEASED)
  {
    hide IsHeadingLine;
    assert (front + [u] + rest)[|front|] == u;
  }

  /** The lines of a rendered section. */
  lemma RenderedShape(m: Metadata, grouped: Grouped)
    requires ValidMetadata(m) && OneLineItems(grouped)
    ensures Rendered(RenderedText(m, grouped), m.version)
    ensures HasNoteLine(NonBlankLines(RenderedText(m, grouped))[1..]) <==> HasItems(grouped, SECTIONS)
  {
    hide NonBlankLines, NoteLine, HasNoteLine, OneLineItems, VersionLine, RenderedText, IsHeadingLine, HasItems, Trim;
    var notes := RenderedLines(m, grouped);
    var text := RenderedText(m, grouped);
    var lines := NonBlankLines(text);
    VersionLineEnds(m);
    VersionLineIsHeading(m);
    FirstRenderedLine(text, VersionLine(m));
    assert lines[0] == VersionLine(m);
    assert SameButEnds(lines[1..], notes) by {
      assert forall i :: 0 <= i < |notes| ==> notes[i] == ([VersionLine(m)] + notes)[i + 1];
    }
    EndsKeepNotes(lines[1..], notes);
  }

  lemma FirstRenderedLine(text: string, v: string)
    requires v <= text && OneLine(v) && KeepIfText(v) == [v]
    requires NonBlankLines(text) != [] && NonBlankLines(text)[0] <= v
    ensures NonBlankLines(text)[0] == v
  {
    hide NonBlankLines;
    LinesUnfold(text);
    FirstLineBehind(v, text[|v|..]);
    assert v + text[|v|..] == text;
    var line := FirstLine(text);
    assert v <= line;
    BlankPrefixOf(v, line);
    assert NonBlankLines(text)[0] == line;
  }

  lemma BlankPrefixOf(v: string, line: string)
    requires v <= line
    ensures Blank(line) ==> Blank(v)
  {
    forall i | 0 <= i < |v|
      ensures v[i] == line[i]
    {
    }
  }

  lemma HeadingHasLiteral(line: string, h: Heading)
    ensures IsHeadingLine(line, h) ==> Literal(h) <= line
  {
  }

  lemma PrefixOfPrefix(p: string, line: string, other: string)
    requires line <= other
    ensures p <= line ==> p <= other
  {
  }

  lemma EndsKeepNotes(lines: seq<string>, notes: seq<string>)
    requires SameButEnds(lines, notes) && NoteLines(notes)
    ensures NoHeadingIn(lines, AnySection)
    ensures HasNoteLine(lines) <==> HasNoteLine(notes)
  {
    hide Trim;
    forall i | 0 <= i < |lines|
      ensures !IsHeadingLine(lines[i], AnySection)
    {
      HeadingHasLiteral(lines[i], AnySection);
      PrefixOfPrefix("## [", lines[i], notes[i]);
    }
    assert forall i :: 0 <= i < |lines| ==> (MeaningfulLine(lines[i]) <==> MeaningfulLine(notes[i]));
    if HasNoteLine(notes) {
      var i :| 0 <= i < |notes| && MeaningfulLine(notes[i]);
      assert MeaningfulLine(lines[i]);
    }
  }

  // ----- the rendered text, written out

  /** The lines of one section: its title, a bullet for each item in order, and an empty line. */
  function SectionWritten(title: string, items: seq<string>): seq<string> {
    if items == [] then []
    else ["### " + title] + seq(|items|, i requires 0 <= i < |items| => "- " + items[i]) + [""]
  }

  lemma {:induction false} BulletsWritten(items: seq<string>)
    ensures Bullets(items) == seq(|items|, i requires 0 <= i < |items| => "- " + items[i])
  {
    if items != [] {
      BulletsWritten(items[..|items| - 1]);
    }
  }

  /** The text is the heading with its date, and the sections in their order, each only where
      it has items, without the white space around all of it. */
  lemma RenderedWritten(m: Metadata, grouped: Grouped)
    ensures RenderedText(m, grouped)
         == Trim(JoinLines(["## [" + m.version + "] - " + m.releaseDate, ""]
                           + SectionWritten("Added", if Added in grouped then grouped[Added] else [])
                           + SectionWritten("Changed", if Changed in grouped then grouped[Changed] else [])
                           + SectionWritten("Fixed", if Fixed in grouped then grouped[Fixed] else [])))
  {
    hide Trim, JoinLines, VersionLine, SectionParts, SectionWritten;
    VersionLineIs(m);
    PartsWritten(m, grouped);
    SectionIs(grouped, Added);
    SectionIs(grouped, Changed);
    SectionIs(grouped, Fixed);
  }

  lemma PartsWritten(m: Metadata, grouped: Grouped)
    ensures Parts(m, grouped, SECTIONS)
         == [VersionLine(m), ""] + SectionParts(grouped, Added) + SectionParts(grouped, Changed)
            + SectionParts(grouped, Fixed)
  {
    hide VersionLine, SectionParts;
    var none: seq<SectionName> := [];
    PartsStep(m, grouped, none, Added);
    PartsStep(m, grouped, [Added], Changed);
    PartsStep(m, grouped, [Added, Changed], Fixed);
    assert none + [Added] == [Added] && [Added] + [Changed] == [Added, Changed];
    assert [Added, Changed] + [Fixed] == SECTIONS;
  }

  lemma PartsStep(m: Metadata, grouped: Grouped, names: seq<SectionName>, name: SectionName)
    ensures Parts(m, grouped, names + [name]) == Parts(m, grouped, names) + SectionParts(grouped, name)
  {
    hide VersionLine, SectionParts;
    assert (names + [name])[..|names|] == names;
  }

  lemma SectionIs(grouped: Grouped, name: SectionName)
    ensures SectionParts(grouped, name)
         == SectionWritten(match name case Added => "Added" case Changed => "Changed" case Fixed => "Fixed",
                           if name in grouped then grouped[name] else [])
  {
    hide Bullets;
    BulletsWritten(Items(grouped, name));
  }
}
