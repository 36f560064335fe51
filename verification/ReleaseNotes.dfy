/** Release notes: which text counts as a note, and which rewriting keeps notes. */
module ReleaseNotes {
  import opened Text
  import opened Lines

  predicate MeaningfulLine(line: string) {
    "- " <= Trim(line) || "### " <= Trim(line)
  }

  /** Some newline-separated piece, trimmed, starts a bullet or a sub-heading. */
  predicate HasMeaningfulReleaseNotes(body: string)
    decreases |body|
  {
    || MeaningfulLine(body[..NewlineAt(body)])
    || (NewlineAt(body) < |body| && HasMeaningfulReleaseNotes(body[NewlineAt(body) + 1..]))
  }

  /** A line is a note exactly when it is a bullet or a sub-heading with some text in it. */
  ghost predicate NoteLine(line: string) {
    exists a, r :: NoteParts(line, a, r)
  }

  predicate NoteParts(line: string, a: string, r: string) {
    Blank(a) && !Blank(r) && (line == a + "- " + r || line == a + "### " + r)
  }

  lemma NoteIff(line: string)
    ensures MeaningfulLine(line) <==> NoteLine(line)
  {
    hide Trim;
    if MeaningfulLine(line) {
      var a, b := TrimSpec(line);
      var t := Trim(line);
      var k := if "- " <= t then 2 else 4;
      var r := t[k..] + b;
      LastIsText(t, k, b);
      assert line == a + t[..k] + r;
      assert NoteParts(line, a, r);
    }
    if NoteLine(line) {
      var a, r :| NoteParts(line, a, r);
      MarkStays(line, a, if line == a + "- " + r then "- " else "### ", r);
    }
  }

  lemma LastIsText(t: string, k: nat, b: string)
    requires Trimmed(t) && 0 < k <= |t| && IsSpace(t[k - 1])
    ensures !Blank(t[k..] + b)
  {
    assert (t[k..] + b)[|t| - k - 1] == t[|t| - 1];
  }

  lemma BlankTrim(r: string, x: string, b: string)
    requires r == x + Trim(r) + b && Blank(x) && Blank(b) && !Blank(r)
    ensures Trim(r) != ""
  {
    hide Trim;
    assert Trim(r) == "" ==> x + Trim(r) + b == x + b;
  }

  lemma MarkStays(line: string, a: string, mark: string, r: string)
    requires Blank(a) && !Blank(r) && line == a + mark + r && mark != "" && !IsSpace(mark[0])
    ensures mark <= Trim(line)
  {
    hide Trim;
    var x, b := TrimSpec(r);
    BlankTrim(r, x, b);
    var middle := mark + x + Trim(r);
    assert middle[|middle| - 1] == Trim(r)[|Trim(r)| - 1] && middle[0] == mark[0];
    TrimUnique(a, middle, b);
    assert line == a + middle + b;
  }

  lemma {:induction false} BlankHasNoNotes(body: string)
    requires Blank(body)
    ensures !HasMeaningfulReleaseNotes(body)
    decreases |body|
  {
    var n := NewlineAt(body);
    BlankLineHasNoNotes(body[..n]);
    if n < |body| {
      BlankHasNoNotes(body[n + 1..]);
    }
  }

  lemma BlankLineHasNoNotes(line: string)
    requires Blank(line)
    ensures !MeaningfulLine(line)
  {
    TrimUnique(line, "", "");
    assert line + "" + "" == line;
  }

  // ----- notes of joined text

  lemma NewlineAtJoin(a: string, b: string)
    ensures NewlineAt(a) == |a| ==> NewlineAt(a + "\n" + b) == |a|
    ensures NewlineAt(a) < |a| ==> NewlineAt(a + "\n" + b) == NewlineAt(a)
  {
    if a == "" {
      assert a + "\n" + b == "\n" + b;
    } else {
      assert (a + "\n" + b)[1..] == a[1..] + "\n" + b;
      NewlineAtJoin(a[1..], b);
    }
  }

  /** Text on both sides of a newline has notes exactly when one side has. */
  lemma {:induction false} NotesJoin(a: string, b: string)
    ensures HasMeaningfulReleaseNotes(a + "\n" + b) <==> HasMeaningfulReleaseNotes(a) || HasMeaningfulReleaseNotes(b)
    decreases |a|
  {
    hide MeaningfulLine, NewlineAt;
    var s, n := a + "\n" + b, NewlineAt(a);
    NewlineAtJoin(a, b);
    if n == |a| {
      assert s[..n] == a == a[..n] && s[n + 1..] == b;
    } else {
      assert s[..n] == a[..n] && s[n + 1..] == a[n + 1..] + "\n" + b;
      NotesJoin(a[n + 1..], b);
    }
  }

  lemma NoNotesYet()
    ensures !HasMeaningfulReleaseNotes("")
  {
    BlankHasNoNotes("");
  }

  lemma SpaceInFront(c: char, s: string)
    requires IsSpace(c)
    ensures MeaningfulLine([c] + s) <==> MeaningfulLine(s)
  {
    TrimStartSkips([c], s);
  }

  lemma SpaceBefore(c: char, s: string)
    requires IsSpace(c)
    ensures HasMeaningfulReleaseNotes([c] + s) <==> HasMeaningfulReleaseNotes(s)
  {
    hide MeaningfulLine, IsSpace;
    var t := [c] + s;
    if c == '\n' {
      NotesJoin("", s);
      NoNotesYet();
      assert "" + "\n" + s == t;
    } else {
      assert t[1..] == s;
      var n := NewlineAt(s);
      SpaceInFront(c, s[..n]);
      assert t[..n + 1] == [c] + s[..n];
      assert t[n + 1..] == s[n..] && (n < |s| ==> t[n + 2..] == s[n + 1..]);
    }
  }

  /** White space in front does not matter. */
  lemma {:induction false} BlankBefore(w: string, s: string)
    requires Blank(w)
    ensures HasMeaningfulReleaseNotes(w + s) <==> HasMeaningfulReleaseNotes(s)
  {
    hide HasMeaningfulReleaseNotes;
    if w == "" {
      assert w + s == s;
    } else {
      SpaceBefore(w[0], w[1..] + s);
      assert [w[0]] + (w[1..] + s) == w + s;
      BlankBefore(w[1..], s);
    }
  }

  /** Text that ends in a newline brings its notes along. */
  lemma NotesInFront(r: string, more: string)
    requires r != "" && r[|r| - 1] == '\n'
    ensures HasMeaningfulReleaseNotes(r) ==> HasMeaningfulReleaseNotes(r + more)
  {
    hide HasMeaningfulReleaseNotes;
    var a := r[..|r| - 1];
    assert r == a + "\n" + "" && r + more == a + "\n" + more;
    NotesJoin(a, "");
    NotesJoin(a, more);
    NoNotesYet();
  }

  lemma NotesBehindNewline(a: string)
    ensures HasMeaningfulReleaseNotes(a + "\n") <==> HasMeaningfulReleaseNotes(a)
  {
    hide HasMeaningfulReleaseNotes;
    NotesJoin(a, "");
    NoNotesYet();
    assert a + "\n" + "" == a + "\n";
  }

  // ----- the clean-ups keep notes

  lemma {:induction false} SkipKeepsNotes(s: string)
    ensures HasMeaningfulReleaseNotes(SkipNewlines(s)) <==> HasMeaningfulReleaseNotes(s)
  {
    hide HasMeaningfulReleaseNotes;
    if s != "" && s[0] == '\n' {
      SpaceBefore(s[0], s[1..]);
      assert [s[0]] + s[1..] == s;
      SkipKeepsNotes(s[1..]);
    }
  }

  lemma {:induction false} DropKeepsNotes(s: string)
    ensures HasMeaningfulReleaseNotes(DropTrailingNewlines(s)) <==> HasMeaningfulReleaseNotes(s)
  {
    hide HasMeaningfulReleaseNotes;
    if s != "" && s[|s| - 1] == '\n' {
      NotesBehindNewline(s[..|s| - 1]);
      assert s[..|s| - 1] + "\n" == s;
      DropKeepsNotes(s[..|s| - 1]);
    }
  }

  lemma SqueezeKeepsNotes(s: string)
    ensures HasMeaningfulReleaseNotes(SqueezeTrailing(SqueezeLeading(s))) <==> HasMeaningfulReleaseNotes(s)
  {
    hide HasMeaningfulReleaseNotes, SkipNewlines, DropTrailingNewlines;
    SkipKeepsNotes(s);
    SpaceBefore('\n', SkipNewlines(s));
    var t := SqueezeLeading(s);
    DropKeepsNotes(t);
    NotesBehindNewline(DropTrailingNewlines(t));
  }

  /** Collapsing runs of newlines keeps notes, whatever stands before. */
  lemma {:induction false} CollapseKeepsNotesBehind(a: string, s: string)
    ensures HasMeaningfulReleaseNotes(a + CollapseNewlines(s)) <==> HasMeaningfulReleaseNotes(a + s)
    decreases |s|
  {
    hide HasMeaningfulReleaseNotes, CollapseNewlines, SkipNewlines;
    if s == "" {
      CollapseNothing();
    } else {
      CollapseUnfold(s);
      if LongRun(s) {
        var r := SkipNewlines(s);
        CollapseKeepsNotesBehind("", r);
        assert "" + CollapseNewlines(r) == CollapseNewlines(r) && "" + r == r;
        SkipKeepsNotes(s);
        RunBehind(a, s, CollapseNewlines(r));
      } else {
        CollapseKeepsNotesBehind(a + [s[0]], s[1..]);
        assert a + [s[0]] + s[1..] == a + s;
        assert a + [s[0]] + CollapseNewlines(s[1..]) == a + CollapseNewlines(s);
      }
    }
  }

  lemma RunBehind(a: string, s: string, c: string)
    requires s != "" && s[0] == '\n'
    requires HasMeaningfulReleaseNotes(c) <==> HasMeaningfulReleaseNotes(s)
    ensures HasMeaningfulReleaseNotes(a + ("\n\n" + c)) <==> HasMeaningfulReleaseNotes(a + s)
  {
    hide HasMeaningfulReleaseNotes;
    NotesJoin(a, s[1..]);
    NotesJoin(a, "\n" + c);
    SpaceBefore('\n', s[1..]);
    SpaceBefore('\n', c);
    assert a + "\n" + s[1..] == a + s && "\n" + s[1..] == s;
    assert a + "\n" + ("\n" + c) == a + ("\n\n" + c);
  }

  lemma CollapseKeepsNotes(s: string)
    ensures HasMeaningfulReleaseNotes(CollapseNewlines(s)) <==> HasMeaningfulReleaseNotes(s)
  {
    hide HasMeaningfulReleaseNotes;
    CollapseKeepsNotesBehind("", s);
    assert "" + CollapseNewlines(s) == CollapseNewlines(s) && "" + s == s;
  }

  // ----- notes by lines

  /** The text has no line terminator but the newline. */
  predicate OnlyNewlines(s: string) {
    forall i :: 0 <= i < |s| && IsLineEnd(s[i]) ==> s[i] == '\n'
  }

  lemma {:induction false} NewlineIsLine(s: string)
    requires OnlyNewlines(s)
    ensures NewlineAt(s) == LineLength(s)
  {
    if s != "" {
      assert IsLineEnd(s[0]) <==> s[0] == '\n';
      if s[0] != '\n' {
        NewlineIsLine(s[1..]);
      }
    }
  }

  predicate HasNoteLine(lines: seq<string>) {
    exists i :: 0 <= i < |lines| && MeaningfulLine(lines[i])
  }

  lemma NoteLineAppend(a: seq<string>, b: seq<string>)
    ensures HasNoteLine(a + b) <==> HasNoteLine(a) || HasNoteLine(b)
  {
    hide MeaningfulLine;
    assert forall i :: 0 <= i < |a| ==> (a + b)[i] == a[i];
    assert forall i :: 0 <= i < |b| ==> (a + b)[|a| + i] == b[i];
    if HasNoteLine(b) {
      var i :| 0 <= i < |b| && MeaningfulLine(b[i]);
      assert MeaningfulLine((a + b)[|a| + i]);
    }
    if HasNoteLine(a) {
      var i :| 0 <= i < |a| && MeaningfulLine(a[i]);
      assert MeaningfulLine((a + b)[i]);
    }
    if HasNoteLine(a + b) {
      var i :| 0 <= i < |a + b| && MeaningfulLine((a + b)[i]);
      assert i < |a| ==> MeaningfulLine(a[i]);
      assert i >= |a| ==> MeaningfulLine(b[i - |a|]);
    }
  }

  /** On text with plain newlines, notes are a matter of the non-blank lines. */
  lemma {:induction false} NotesByLines(s: string)
    requires OnlyNewlines(s)
    ensures HasMeaningfulReleaseNotes(s) <==> HasNoteLine(NonBlankLines(s))
    decreases |s|
  {
    hide NonBlankLines, MeaningfulLine, KeepIfText, HasNoteLine;
    NewlineIsLine(s);
    LinesUnfold(s);
    var line := FirstLine(s);
    NoteOfOneLine(line);
    FirstOfBlank();
    if s != "" {
      NoteLineAppend(KeepIfText(line), NonBlankLines(RestLines(s)));
      if LineLength(s) < |s| {
        NotesByLines(RestLines(s));
      } else {
        NoLines();
        NoteOfOneLine("");
      }
    }
  }

  lemma NoteOfOneLine(line: string)
    ensures HasNoteLine(KeepIfText(line)) <==> MeaningfulLine(line)
    ensures !HasNoteLine([])
  {
    hide MeaningfulLine;
    if Blank(line) {
      BlankLineHasNoNotes(line);
    } else {
      assert KeepIfText(line)[0] == line;
    }
  }
}
