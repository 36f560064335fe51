/** Printing flow commands, as the inverse of the parser. */
module FlowPrinter {
  import opened Prelude
  import opened Text
  import opened FlowParser

  function EscapeQuotes(v: string): string {
    if v == "" then ""
    else (if v[0] == '"' then "\\\"" else [v[0]]) + EscapeQuotes(v[1..])
  }

  function Quote(v: string): string {
    "\"" + EscapeQuotes(v) + "\""
  }

  lemma {:induction false} UnescapeEscape(v: string)
    ensures UnescapeQuotes(EscapeQuotes(v)) == v
    ensures EscapeQuotes(v) == "" || EscapeQuotes(v)[0] != '"'
  {
    if v != "" {
      UnescapeEscape(v[1..]);
      var e, rest := EscapeQuotes(v), EscapeQuotes(v[1..]);
      if v[0] == '"' {
        assert e[2..] == rest;
      } else {
        assert e[1..] == rest && (|e| >= 2 ==> e[1] == rest[0]);
      }
    }
  }

  /** Every string survives quoting and unquoting, quotes and backslashes included. */
  lemma UnquoteQuote(v: string)
    ensures Unquote(Quote(v)) == v
  {
    hide UnescapeQuotes, EscapeQuotes;
    UnescapeEscape(v);
    var e := EscapeQuotes(v);
    assert Quote(v)[1..] == e + "\"";
    assert (e + "\"")[..|e|] == e;
  }

  // ----- a key with a quoted value

  function Keyed(key: string, v: string): string {
    key + " " + Quote(v)
  }

  lemma QuoteTrimmed(v: string)
    ensures Quote(v) != "" && Quote(v)[0] == '"' && Quote(v)[|Quote(v)| - 1] == '"' && Trim(Quote(v)) == Quote(v)
  {
    hide EscapeQuotes;
    TrimOfTrimmed(Quote(v));
  }

  lemma KeyedReads(key: string, v: string)
    requires key != "" && !IsSpace(key[0])
    ensures Trim(Keyed(key, v)) == Keyed(key, v) && Trim("    " + Keyed(key, v)) == Keyed(key, v)
    ensures key <= Keyed(key, v) && Trim(Keyed(key, v)[|key|..]) == Quote(v)
    ensures Keyed(key, v) != ""
  {
    hide Trim, EscapeQuotes;
    var k, q := Keyed(key, v), Quote(v);
    QuoteTrimmed(v);
    assert k[0] == key[0] && k[|k| - 1] == q[|q| - 1] == '"';
    TrimOfTrimmed(k);
    TrimUnique("    ", k, "");
    assert "    " + k + "" == "    " + k;
    assert k[|key|..] == " " + q;
    TrimUnique(" ", q, "");
    assert " " + q + "" == " " + q;
  }

  // ----- commands

  /** How to print a command: text selectors on the same line where possible, and the
      optional flag where it is false. */
  datatype Style = Style(sameLine: bool, spellOptional: bool)

  function OptionalLine(optional: bool): string {
    if optional then "    optional: true" else "    optional: false"
  }

  function SelectorLine(s: Selector): string {
    match s
    case ById(id) => "    " + Keyed("id:", id)
    case ByText(text) => "    " + Keyed("text:", text)
  }

  function SelectorBlock(head: string, s: Selector, optional: bool, style: Style): seq<string> {
    if style.sameLine && s.ByText? && !optional then [Keyed(head, s.text)]
    else [head, SelectorLine(s)] + (if optional || style.spellOptional then [OptionalLine(optional)] else [])
  }

  function Print(c: FlowCommand, style: Style): seq<string> {
    match c
    case LaunchApp => ["- launchApp"]
    case AssertVisible(s, optional) => SelectorBlock("- assertVisible:", s, optional, style)
    case TapOn(s, optional) => SelectorBlock("- tapOn:", s, optional, style)
    case InputText(text) => [Keyed("- inputText:", text)]
    case SetClipboard(text) => [Keyed("- setClipboard:", text)]
    case PasteText => ["- pasteText"]
  }

  function PrintAll(cs: seq<(FlowCommand, Style)>): seq<string> {
    if cs == [] then [] else Print(cs[0].0, cs[0].1) + PrintAll(cs[1..])
  }

  function Commands(cs: seq<(FlowCommand, Style)>): seq<FlowCommand> {
    if cs == [] then [] else [cs[0].0] + Commands(cs[1..])
  }

  // ----- one command reads back

  lemma WordReads(word: string)
    requires word != "" && !IsSpace(word[0]) && !IsSpace(word[|word| - 1])
    ensures var line := "    " + ("optional: " + word);
      && "optional:" <= Trim(line)
      && Trim(Trim(line)[9..]) == word
  {
    hide Trim, IsSpace;
    var body := "optional: " + word;
    Spaces();
    assert body[|body| - 1] == word[|word| - 1] && body[0] == 'o';
    assert "    " + body + "" == "    " + body;
    TrimUnique("    ", body, "");
    assert body[9..] == " " + word + "";
    TrimUnique(" ", word, "");
  }

  lemma Spaces()
    ensures !IsSpace('o') && Blank(" ") && Blank("    ") && Blank("")
  {
  }

  lemma OptionalReads(optional: bool)
    ensures IsOptionalLine(OptionalLine(optional))
    ensures ParseBoolean(Trim(OptionalLine(optional))[9..]) == optional
  {
    hide Trim;
    if optional {
      WordReads("true");
      assert "    " + ("optional: " + "true") == OptionalLine(optional);
    } else {
      WordReads("false");
      assert "    " + ("optional: " + "false") == OptionalLine(optional);
      assert "false"[0] != "true"[0];
    }
  }

  lemma SelectorLineReads(s: Selector)
    ensures s.ById? ==> "id:" <= Trim(SelectorLine(s)) && Trim(Trim(SelectorLine(s))[3..]) == Quote(s.id)
    ensures s.ByText? ==> !("id:" <= Trim(SelectorLine(s))) && "text:" <= Trim(SelectorLine(s))
    ensures s.ByText? ==> Trim(Trim(SelectorLine(s))[5..]) == Quote(s.text)
  {
    hide Trim, Quote;
    match s {
      case ById(id) => KeyedReads("id:", id);
      case ByText(text) =>
        KeyedReads("text:", text);
        assert Keyed("text:", text)[0] == 't';
    }
  }

  lemma BlockReads(kind: SelectorKind, line: string, head: string, s: Selector, optional: bool, style: Style)
    requires !(style.sameLine && s.ByText? && !optional)
    ensures var lines := SelectorBlock(head, s, optional, style);
      SelectorStep(kind, line, "", lines) == Emit(kind.Command(s, optional), |lines|)
  {
    hide Trim, Quote, SelectorLine, Unquote, ParseBoolean, OptionalLine;
    var lines := SelectorBlock(head, s, optional, style);
    SelectorLineReads(s);
    OptionalReads(optional);
    EmptyLine();
    match s {
      case ById(id) => UnquoteQuote(id);
      case ByText(text) => UnquoteQuote(text);
    }
    assert LineAt(lines, 1) == SelectorLine(s);
    assert LineAt(lines, 2) == if optional || style.spellOptional then OptionalLine(optional) else "";
  }

  lemma HeadReads(head: string)
    requires head == "- assertVisible:" || head == "- tapOn:"
    ensures Trim(head) == head && head[|head|..] == ""
  {
    TrimOfTrimmed(head);
  }

  lemma AssertReads(s: Selector, optional: bool, style: Style)
    ensures var lines := Print(AssertVisible(s, optional), style);
      lines != [] && StepAt(lines) == Emit(AssertVisible(s, optional), |lines|)
  {
    hide Trim, Quote, Unquote, StepAt, SelectorStep, Keyed;
    var head := "- assertVisible:";
    var lines := Print(AssertVisible(s, optional), style);
    if style.sameLine && s.ByText? && !optional {
      KeyedReads(head, s.text);
      StepIsAssert(lines);
      InlineReads(Assert, Keyed(head, s.text), s.text, lines);
    } else {
      HeadReads(head);
      EmptyLine();
      StepIsAssert(lines);
      BlockReads(Assert, head, head, s, optional, style);
    }
  }

  lemma InlineReads(kind: SelectorKind, line: string, text: string, lines: seq<string>)
    ensures SelectorStep(kind, line, Quote(text), lines) == Emit(kind.Command(ByText(text), false), 1)
  {
    hide Quote, Unquote;
    UnquoteQuote(text);
    QuoteTrimmed(text);
    assert "\"" <= Quote(text);
  }

  lemma TapReads(s: Selector, optional: bool, style: Style)
    ensures var lines := Print(TapOn(s, optional), style);
      lines != [] && StepAt(lines) == Emit(TapOn(s, optional), |lines|)
  {
    hide Trim, Quote, Unquote, StepAt, SelectorStep, Keyed;
    var head := "- tapOn:";
    var lines := Print(TapOn(s, optional), style);
    if style.sameLine && s.ByText? && !optional {
      KeyedReads(head, s.text);
      StepIsTap(lines);
      InlineReads(Tap, Keyed(head, s.text), s.text, lines);
    } else {
      HeadReads(head);
      EmptyLine();
      StepIsTap(lines);
      BlockReads(Tap, head, head, s, optional, style);
    }
  }

  lemma InputReads(text: string)
    ensures StepAt([Keyed("- inputText:", text)]) == Emit(InputText(text), 1)
  {
    hide Trim, Quote, Unquote;
    var line := Keyed("- inputText:", text);
    KeyedReads("- inputText:", text);
    UnquoteQuote(text);
    assert line[0] == '-' && line[1] == ' ' && line[2] == 'i';
  }

  lemma ClipboardReads(text: string)
    ensures StepAt([Keyed("- setClipboard:", text)]) == Emit(SetClipboard(text), 1)
  {
    hide Trim, Quote, Unquote;
    var line := Keyed("- setClipboard:", text);
    KeyedReads("- setClipboard:", text);
    UnquoteQuote(text);
    assert line[0] == '-' && line[1] == ' ' && line[2] == 's';
  }

  lemma PlainReads()
    ensures StepAt(["- launchApp"]) == Emit(LaunchApp, 1)
    ensures StepAt(["- pasteText"]) == Emit(PasteText, 1)
  {
    hide Trim;
    var launch, paste := "- launchApp", "- pasteText";
    TrimOfTrimmed(launch);
    TrimOfTrimmed(paste);
    var lines: seq<string> := [launch];
    assert lines[1..] == [];
    assert launch[2] == 'l' && paste[2] == 'p';
  }

  /** Each printed command reads back as itself, using up exactly its lines. */
  lemma PrintReads(c: FlowCommand, style: Style)
    ensures Print(c, style) != [] && StepAt(Print(c, style)) == Emit(c, |Print(c, style)|)
  {
    hide StepAt;
    match c {
      case LaunchApp => PlainReads();
      case AssertVisible(s, optional) => AssertReads(s, optional, style);
      case TapOn(s, optional) => TapReads(s, optional, style);
      case InputText(text) => InputReads(text);
      case SetClipboard(text) => ClipboardReads(text);
      case PasteText => PlainReads();
    }
  }

  lemma PrintIsSafe(c: FlowCommand, style: Style)
    ensures SafeStart(Print(c, style))
  {
    hide Trim, Quote;
    var line := Print(c, style)[0];
    assert line[0] == '-';
    var a, b := TrimSpec(line);
    assert a == "" by {
      assert a != "" ==> a[0] == line[0] && IsSpace(a[0]);
    }
    assert Trim(line) != "" ==> Trim(line)[0] == line[0];
  }

  /** Parsing any printed list of commands gives the list back. */
  lemma {:induction false} ParsePrinted(cs: seq<(FlowCommand, Style)>, dir: string, files: FlowFiles, depth: nat)
    ensures ParseLines(PrintAll(cs), dir, files, depth) == Ok(Commands(cs))
    ensures SafeStart(PrintAll(cs))
  {
    hide StepAt, Print, SafeStart;
    if cs == [] {
      NothingIsSafe();
    } else {
      var lines, rest := Print(cs[0].0, cs[0].1), PrintAll(cs[1..]);
      ParsePrinted(cs[1..], dir, files, depth);
      PrintReads(cs[0].0, cs[0].1);
      PrintIsSafe(cs[0].0, cs[0].1);
      SafeFront(lines, rest);
      assert |lines[|lines|..]| == 0;
      assert [cs[0].0] + [] == [cs[0].0];
      assert ParseLines(lines, dir, files, depth) == Ok([cs[0].0]);
      ParseConcat(lines, rest, dir, files, depth);
    }
  }

  lemma NothingIsSafe()
    ensures SafeStart([])
  {
  }

  lemma SafeFront(a: seq<string>, b: seq<string>)
    requires a != [] && SafeStart(a)
    ensures SafeStart(a + b)
  {
    assert (a + b)[0] == a[0];
  }

  // ----- as a file

  predicate SingleLine(s: string) {
    '\n' !in s && '\r' !in s
  }

  lemma {:induction false} NewlineBehind(a: string, b: string)
    requires '\n' !in a && (b == "" || b[0] == '\n')
    ensures NewlineAt(a + b) == |a|
  {
    if a == "" {
      assert a + b == b;
    } else {
      assert (a + b)[1..] == a[1..] + b && a[0] in a;
      NewlineBehind(a[1..], b);
    }
  }

  lemma SplitFront(first: string, rest: string)
    requires '\n' !in first
    ensures SplitLines(first + ("\n" + rest)) == [first] + SplitLines(rest)
  {
    var s := first + ("\n" + rest);
    NewlineBehind(first, "\n" + rest);
    assert s[..|first|] == first && s[|first| + 1..] == rest;
  }

  lemma {:induction false} SplitJoin(lines: seq<string>)
    requires lines != [] && forall i :: 0 <= i < |lines| ==> SingleLine(lines[i])
    ensures SplitLines(JoinLines(lines)) == lines
  {
    hide NewlineAt;
    var first := lines[0];
    assert SingleLine(first);
    if |lines| == 1 {
      NewlineBehind(first, "");
      assert first + "" == first;
      assert lines == [first];
    } else {
      var rest := JoinLines(lines[1..]);
      SplitJoin(lines[1..]);
      SplitFront(first, rest);
      assert first + ("\n" + rest) == JoinLines(lines);
      assert lines == [first] + lines[1..];
    }
  }

  lemma {:induction false} NoReturns(s: string)
    requires '\r' !in s
    ensures RemoveReturns(s) == s
  {
    if s != "" {
      assert s[0] in s && s == [s[0]] + s[1..];
      NoReturns(s[1..]);
    }
  }

  lemma {:induction false} JoinHasNoReturns(lines: seq<string>)
    requires forall i :: 0 <= i < |lines| ==> SingleLine(lines[i])
    ensures '\r' !in JoinLines(lines)
  {
    if lines != [] {
      assert SingleLine(lines[0]);
      JoinHasNoReturns(lines[1..]);
    }
  }

  predicate SingleLineCommand(c: FlowCommand) {
    match c
    case LaunchApp => true
    case AssertVisible(s, _) => SingleLine(if s.ById? then s.id else s.text)
    case TapOn(s, _) => SingleLine(if s.ById? then s.id else s.text)
    case InputText(text) => SingleLine(text)
    case SetClipboard(text) => SingleLine(text)
    case PasteText => true
  }

  lemma {:induction false} EscapeSingleLine(v: string)
    requires SingleLine(v)
    ensures SingleLine(EscapeQuotes(v))
  {
    if v != "" {
      assert v == [v[0]] + v[1..];
      EscapeSingleLine(v[1..]);
    }
  }

  lemma KeyedSingleLine(key: string, v: string)
    requires SingleLine(key) && SingleLine(v)
    ensures SingleLine(Keyed(key, v)) && SingleLine("    " + Keyed(key, v))
  {
    hide EscapeQuotes;
    EscapeSingleLine(v);
  }

  lemma PrintSingleLine(c: FlowCommand, style: Style, i: nat)
    requires SingleLineCommand(c) && i < |Print(c, style)|
    ensures SingleLine(Print(c, style)[i])
  {
    hide Keyed, SelectorBlock, SingleLine;
    KeysSingleLine();
    WordsSingleLine();
    match c {
      case AssertVisible(s, optional) =>
        BlockSingleLine("- assertVisible:", s, optional, style, i);
      case TapOn(s, optional) =>
        BlockSingleLine("- tapOn:", s, optional, style, i);
      case InputText(text) => KeyedSingleLine("- inputText:", text);
      case SetClipboard(text) => KeyedSingleLine("- setClipboard:", text);
      case _ =>
    }
  }

  lemma WordsSingleLine()
    ensures SingleLine("- launchApp") && SingleLine("- pasteText")
  {
  }

  lemma KeysSingleLine()
    ensures SingleLine("- assertVisible:") && SingleLine("- tapOn:")
    ensures SingleLine("- inputText:") && SingleLine("- setClipboard:")
  {
  }

  lemma BlockSingleLine(head: string, s: Selector, optional: bool, style: Style, i: nat)
    requires SingleLine(head) && SingleLine(if s.ById? then s.id else s.text)
    requires i < |SelectorBlock(head, s, optional, style)|
    ensures SingleLine(SelectorBlock(head, s, optional, style)[i])
  {
    hide Keyed, SingleLine, SelectorLine, OptionalLine;
    SelectorSingleLine(head, s);
    OptionalSingleLine(optional);
  }

  lemma OptionalSingleLine(optional: bool)
    ensures SingleLine(OptionalLine(optional))
  {
  }

  lemma SelectorSingleLine(head: string, s: Selector)
    requires SingleLine(head) && SingleLine(if s.ById? then s.id else s.text)
    ensures SingleLine(SelectorLine(s))
    ensures s.ByText? ==> SingleLine(Keyed(head, s.text))
  {
    hide Keyed;
    match s {
      case ById(id) => KeyedSingleLine("id:", id);
      case ByText(text) => KeyedSingleLine("text:", text); KeyedSingleLine(head, text);
    }
  }

  lemma {:induction false} PrintAllSingleLine(cs: seq<(FlowCommand, Style)>, i: nat)
    requires forall k :: 0 <= k < |cs| ==> SingleLineCommand(cs[k].0)
    requires i < |PrintAll(cs)|
    ensures SingleLine(PrintAll(cs)[i])
  {
    hide Print, SingleLineCommand;
    var n := |Print(cs[0].0, cs[0].1)|;
    assert SingleLineCommand(cs[0].0);
    if i < n {
      PrintSingleLine(cs[0].0, cs[0].1, i);
    } else {
      PrintAllSingleLine(cs[1..], i - n);
    }
  }

  /** A printed flow file, parsed from disk, gives back its commands, for all single-line values. */
  lemma ParsePrintedFile(cs: seq<(FlowCommand, Style)>, dir: string, files: FlowFiles, depth: nat)
    requires forall k :: 0 <= k < |cs| ==> SingleLineCommand(cs[k].0)
    ensures ParseLines(LinesOf(JoinLines(PrintAll(cs))), dir, files, depth) == Ok(Commands(cs))
  {
    hide StepAt, SingleLineCommand, Print, SafeStart;
    var lines := PrintAll(cs);
    forall i | 0 <= i < |lines|
      ensures SingleLine(lines[i])
    {
      PrintAllSingleLine(cs, i);
    }
    JoinHasNoReturns(lines);
    NoReturns(JoinLines(lines));
    ParsePrinted(cs, dir, files, depth);
    if lines == [] {
      EmptyFlow(dir, files, depth);
    } else {
      SplitJoin(lines);
    }
  }

  lemma EmptyFlow(dir: string, files: FlowFiles, depth: nat)
    ensures ParseLines(SplitLines(""), dir, files, depth) == Ok([])
  {
    EmptyLine();
    assert SplitLines("") == [""];
    assert [""][1..] == [];
    assert StepAt([""]) == Skip;
  }
}
