/** The flow-file parser: one pass over the lines with lookahead, and nested includes. */
module FlowParser {
  import opened Prelude
  import opened Text

  datatype Selector = ById(id: string) | ByText(text: string)

  datatype FlowCommand =
    | LaunchApp
    | AssertVisible(selector: Selector, optional: bool)
    | TapOn(selector: Selector, optional: bool)
    | InputText(text: string)
    | SetClipboard(text: string)
    | PasteText

  /** `TooDeep` stands for includes nested deeper than the bound at hand. */
  datatype FlowError = Unsupported(line: string) | MissingFile(path: string) | TooDeep

  type ParseResult = Result<seq<FlowCommand>, FlowError>

  /** The flow files on disk, with the path operations of the platform. */
  datatype FlowFiles = FlowFiles(
    texts: map<string, string>,
    resolve: (string, string) -> string,
    dirname: string -> string)

  // ----- values

  function StripQuotes(value: string): string {
    var v := if value != "" && value[0] == '"' then value[1..] else value;
    if v != "" && v[|v| - 1] == '"' then v[..|v| - 1] else v
  }

  function UnescapeQuotes(s: string): string
    decreases |s|
  {
    if s == "" then ""
    else if |s| >= 2 && s[0] == '\\' && s[1] == '"' then "\"" + UnescapeQuotes(s[2..])
    else [s[0]] + UnescapeQuotes(s[1..])
  }

  function Unquote(value: string): string {
    UnescapeQuotes(StripQuotes(value))
  }

  function ParseBoolean(value: string): bool {
    Trim(value) == "true"
  }

  // ----- lines

  function SplitLines(s: string): seq<string>
    decreases |s|
  {
    var n := NewlineAt(s);
    if n == |s| then [s] else [s[..n]] + SplitLines(s[n + 1..])
  }

  function LinesOf(flowText: string): seq<string> {
    SplitLines(RemoveReturns(flowText))
  }

  // ----- one command

  /** What the line at hand means, with the number of lines that it uses up. */
  datatype Step =
    | Skip
    | Emit(command: FlowCommand, used: nat)
    | Include(path: string)
    | Fail(line: string)

  function LineAt(lines: seq<string>, i: nat): string {
    if i < |lines| then lines[i] else ""
  }

  function IndentedLines(lines: seq<string>): (n: nat)
    ensures n <= |lines|
  {
    if lines != [] && "  " <= lines[0] then 1 + IndentedLines(lines[1..]) else 0
  }

  datatype SelectorKind = Assert | Tap {
    function Command(selector: Selector, optional: bool): FlowCommand {
      match this
      case Assert => AssertVisible(selector, optional)
      case Tap => TapOn(selector, optional)
    }
  }

  predicate IsOptionalLine(line: string) {
    "optional:" <= Trim(line)
  }

  /** A command with a selector: quoted on the same line, or on the next line with an
      optional flag on the line after that. */
  function SelectorStep(kind: SelectorKind, line: string, inlineValue: string, lines: seq<string>): Step {
    if "\"" <= inlineValue then
      Emit(kind.Command(ByText(Unquote(inlineValue)), false), 1)
    else
      var selectorLine, optionalLine := Trim(LineAt(lines, 1)), Trim(LineAt(lines, 2));
      var hasFlag := "optional:" <= optionalLine;
      var optional := hasFlag && ParseBoolean(optionalLine[9..]);
      var used := if hasFlag then 3 else 2;
      if "id:" <= selectorLine then
        Emit(kind.Command(ById(Unquote(Trim(selectorLine[3..]))), optional), used)
      else if "text:" <= selectorLine then
        Emit(kind.Command(ByText(Unquote(Trim(selectorLine[5..]))), optional), used)
      else
        Fail(line)
  }

  function StepAt(lines: seq<string>): Step
    requires lines != []
  {
    var line := Trim(lines[0]);
    if line == "" || line == "---" || "appId:" <= line then Skip
    else if "- runFlow:" <= line then Include(Unquote(Trim(line[10..])))
    else if line == "- launchApp" || "- launchApp:" <= line then Emit(LaunchApp, 1 + IndentedLines(lines[1..]))
    else if "- assertVisible:" <= line then SelectorStep(Assert, line, Trim(line[16..]), lines)
    else if "- tapOn:" <= line then SelectorStep(Tap, line, Trim(line[8..]), lines)
    else if "- inputText:" <= line then Emit(InputText(Unquote(Trim(line[12..]))), 1)
    else if "- setClipboard:" <= line then Emit(SetClipboard(Unquote(Trim(line[15..]))), 1)
    else if line == "- pasteText" then Emit(PasteText, 1)
    else Fail(line)
  }

  /** A command uses up at least its own line, and no more lines than there are. */
  lemma StepUses(lines: seq<string>)
    requires lines != [] && StepAt(lines).Emit?
    ensures 1 <= StepAt(lines).used <= |lines|
  {
    hide Unquote;
    EmptyLine();
    if |lines| < 2 {
      assert LineAt(lines, 1) == "";
    }
    if |lines| < 3 {
      assert LineAt(lines, 2) == "";
    }
  }

  lemma EmptyLine()
    ensures Trim("") == ""
  {
  }

  // ----- which lines are understood

  /** A selector stands in quotes on the same line, or under its key on the next one. */
  predicate HasSelector(rest: string, lines: seq<string>) {
    || "\"" <= Trim(rest)
    || (|lines| >= 2 && ("id:" <= Trim(lines[1]) || "text:" <= Trim(lines[1])))
  }

  predicate Understood(lines: seq<string>)
    requires lines != []
  {
    var line := Trim(lines[0]);
    || line == "" || line == "---" || "appId:" <= line || "- runFlow:" <= line
    || line == "- launchApp" || "- launchApp:" <= line || line == "- pasteText"
    || "- inputText:" <= line || "- setClipboard:" <= line
    || ("- assertVisible:" <= line && HasSelector(line[16..], lines))
    || ("- tapOn:" <= line && HasSelector(line[8..], lines))
  }

  lemma SelectorFails(kind: SelectorKind, line: string, rest: string, lines: seq<string>)
    ensures SelectorStep(kind, line, Trim(rest), lines)
         == if HasSelector(rest, lines) then SelectorStep(kind, line, Trim(rest), lines) else Fail(line)
    ensures HasSelector(rest, lines) ==> SelectorStep(kind, line, Trim(rest), lines).Emit?
  {
    hide Unquote, Trim, ParseBoolean;
    EmptyLine();
  }

  /** A line fails exactly when it is not understood, and is then reported without the white
      space around it. */
  lemma StepFailsIff(lines: seq<string>)
    requires lines != []
    ensures StepAt(lines).Fail? <==> !Understood(lines)
    ensures StepAt(lines).Fail? ==> StepAt(lines) == Fail(Trim(lines[0]))
  {
    hide Unquote, Trim, SelectorStep, HasSelector;
    var line := Trim(lines[0]);
    if "- assertVisible:" <= line {
      StepIsAssert(lines);
      SelectorFails(Assert, line, line[16..], lines);
      assert line[2] == 'a' && line[0] == '-';
    } else if "- tapOn:" <= line {
      StepIsTap(lines);
      SelectorFails(Tap, line, line[8..], lines);
      assert line[2] == 't' && line[0] == '-';
    }
  }

  /** A selector is optional exactly when the third line says `optional: true`. */
  lemma FlagIff(kind: SelectorKind, line: string, rest: string, lines: seq<string>)
    requires !("\"" <= rest) && HasSelector(rest, lines) && Trim(rest) == rest
    ensures var step := SelectorStep(kind, line, rest, lines);
      && step.Emit? && (step.command.AssertVisible? || step.command.TapOn?)
      && (step.command.optional
          <==> |lines| >= 3 && "optional:" <= Trim(lines[2]) && Trim(Trim(lines[2])[9..]) == "true")
      && step.used == (if |lines| >= 3 && "optional:" <= Trim(lines[2]) then 3 else 2)
  {
    hide Unquote, Trim;
    EmptyLine();
  }

  /** A value without quotes is taken as it stands. */
  lemma {:induction false} UnquotePlain(value: string)
    requires '"' !in value
    ensures Unquote(value) == value
  {
    UnescapePlain(value);
  }

  lemma {:induction false} UnescapePlain(s: string)
    requires '"' !in s
    ensures UnescapeQuotes(s) == s
    decreases |s|
  {
    if s != "" {
      UnescapePlain(s[1..]);
      assert s == [s[0]] + s[1..];
    }
  }

  function Prepend(front: seq<FlowCommand>, rest: ParseResult): ParseResult {
    match rest
    case Ok(cs) => Ok(front + cs)
    case Err(e) => Err(e)
  }

  // ----- whole flows

  function ParseLines(lines: seq<string>, dir: string, files: FlowFiles, depth: nat): ParseResult
    decreases depth, 1, |lines|
  {
    if lines == [] then Ok([])
    else match StepAt(lines)
      case Skip => ParseLines(lines[1..], dir, files, depth)
      case Emit(c, n) =>
        StepUses(lines);
        Prepend([c], ParseLines(lines[n..], dir, files, depth))
      case Include(p) =>
        (match ParseFile(files.resolve(dir, p), files, depth)
         case Err(e) => Err(e)
         case Ok(cs) => Prepend(cs, ParseLines(lines[1..], dir, files, depth)))
      case Fail(line) => Err(Unsupported(line))
  }

  function ParseFile(path: string, files: FlowFiles, depth: nat): ParseResult
    decreases depth, 0
  {
    if depth == 0 then Err(TooDeep)
    else if path !in files.texts then Err(MissingFile(path))
    else ParseLines(LinesOf(files.texts[path]), files.dirname(path), files, depth - 1)
  }

  /** The loop of the parser over an index, against the reading by suffixes. */
  method ParseCommands(flowText: string, dir: string, files: FlowFiles, depth: nat) returns (r: ParseResult)
    ensures r == ParseLines(LinesOf(flowText), dir, files, depth)
    decreases depth, 1
  {
    hide StepAt;
    var commands: seq<FlowCommand> := [];
    var lines := LinesOf(flowText);
    var index := 0;
    PrependNothing(ParseLines(lines, dir, files, depth));
    assert lines[0..] == lines;
    while index < |lines|
      invariant 0 <= index <= |lines|
      invariant ParseLines(lines, dir, files, depth)
             == Prepend(commands, ParseLines(lines[index..], dir, files, depth))
    {
      assert lines[index..][1..] == lines[index + 1..];
      ghost var rest := lines[index..];
      match StepAt(lines[index..]) {
        case Skip =>
          index := index + 1;
        case Emit(c, n) =>
          StepUses(rest);
          assert rest[n..] == lines[index + n..];
          PrependTwice(commands, [c], ParseLines(lines[index + n..], dir, files, depth));
          commands := commands + [c];
          index := index + n;
        case Include(p) =>
          var nested := ParseCommandsFromFlowFile(files.resolve(dir, p), files, depth);
          if nested.Err? { return Err(nested.error); }
          PrependTwice(commands, nested.value, ParseLines(lines[index + 1..], dir, files, depth));
          commands := commands + nested.value;
          index := index + 1;
        case Fail(line) =>
          return Err(Unsupported(line));
      }
    }
    assert lines[index..] == [];
    assert commands + [] == commands;
    return Ok(commands);
  }

  method ParseCommandsFromFlowFile(path: string, files: FlowFiles, depth: nat) returns (r: ParseResult)
    ensures r == ParseFile(path, files, depth)
    decreases depth, 0
  {
    if depth == 0 { return Err(TooDeep); }
    if path !in files.texts { return Err(MissingFile(path)); }
    r := ParseCommands(files.texts[path], files.dirname(path), files, depth - 1);
  }

  lemma PrependTwice(a: seq<FlowCommand>, b: seq<FlowCommand>, r: ParseResult)
    ensures Prepend(a, Prepend(b, r)) == Prepend(a + b, r)
  {
    if r.Ok? {
      assert a + (b + r.value) == a + b + r.value;
    }
  }

  lemma PrependNothing(r: ParseResult)
    ensures Prepend([], r) == r
  {
    if r.Ok? {
      assert [] + r.value == r.value;
    }
  }

  // ----- lookahead

  /** A line that no command in front of it would take for its own. */
  predicate Safe(line: string) {
    !("  " <= line) && !IsOptionalLine(line)
  }

  predicate SafeStart(lines: seq<string>) {
    lines == [] || Safe(lines[0])
  }

  lemma {:induction false} IndentedStops(a: seq<string>, b: seq<string>)
    requires b == [] || !("  " <= b[0])
    ensures IndentedLines(a + b) == IndentedLines(a)
  {
    if a == [] {
      assert a + b == b;
    } else if "  " <= a[0] {
      assert (a + b)[1..] == a[1..] + b;
      IndentedStops(a[1..], b);
    }
  }

  lemma SelectorStepStable(kind: SelectorKind, line: string, inlineValue: string, a: seq<string>, b: seq<string>)
    requires a != [] && SafeStart(b) && !SelectorStep(kind, line, inlineValue, a).Fail?
    ensures SelectorStep(kind, line, inlineValue, a + b) == SelectorStep(kind, line, inlineValue, a)
  {
    hide Unquote, Trim, ParseBoolean;
    EmptyLine();
    assert |a| >= 2 ==> LineAt(a + b, 1) == LineAt(a, 1);
    assert |a| >= 3 ==> LineAt(a + b, 2) == LineAt(a, 2);
    assert |a| == 2 && b != [] ==> LineAt(a + b, 2) == b[0];
    assert |a| == 1 ==> LineAt(a, 1) == "";
  }

  /** A command that is complete reads the same when a safe line follows. */
  lemma StepStable(a: seq<string>, b: seq<string>)
    requires a != [] && SafeStart(b) && !StepAt(a).Fail?
    ensures StepAt(a + b) == StepAt(a)
  {
    hide Unquote, Trim, SelectorStep;
    var line := Trim(a[0]);
    assert (a + b)[0] == a[0] && (a + b)[1..] == a[1..] + b;
    if "- assertVisible:" <= line {
      StepIsAssert(a);
      StepIsAssert(a + b);
      SelectorStepStable(Assert, line, Trim(line[16..]), a, b);
    } else if "- tapOn:" <= line {
      StepIsTap(a);
      StepIsTap(a + b);
      SelectorStepStable(Tap, line, Trim(line[8..]), a, b);
    } else {
      IndentedStops(a[1..], b);
    }
  }

  lemma StepIsAssert(lines: seq<string>)
    requires lines != [] && "- assertVisible:" <= Trim(lines[0])
    ensures StepAt(lines) == SelectorStep(Assert, Trim(lines[0]), Trim(Trim(lines[0])[16..]), lines)
  {
    hide Unquote, Trim, SelectorStep;
    var line := Trim(lines[0]);
    assert line[0] == '-' && line[2] == 'a';
  }

  lemma StepIsTap(lines: seq<string>)
    requires lines != [] && "- tapOn:" <= Trim(lines[0])
    ensures StepAt(lines) == SelectorStep(Tap, Trim(lines[0]), Trim(Trim(lines[0])[8..]), lines)
  {
    hide Unquote, Trim, SelectorStep;
    var line := Trim(lines[0]);
    assert line[0] == '-' && line[2] == 't';
  }

  /** Parsing distributes over concatenation when the first part parses and the second
      part starts with a safe line. */
  lemma {:induction false} ParseConcat(a: seq<string>, b: seq<string>, dir: string, files: FlowFiles, depth: nat)
    requires ParseLines(a, dir, files, depth).Ok? && SafeStart(b)
    ensures ParseLines(a + b, dir, files, depth)
         == Prepend(ParseLines(a, dir, files, depth).value, ParseLines(b, dir, files, depth))
    decreases |a|
  {
    hide StepAt, SafeStart, ParseFile;
    if a == [] {
      assert a + b == b;
      PrependNothing(ParseLines(b, dir, files, depth));
    } else {
      StepStable(a, b);
      assert (a + b)[1..] == a[1..] + b;
      var rest := ParseLines(b, dir, files, depth);
      match StepAt(a) {
        case Skip =>
          ParseConcat(a[1..], b, dir, files, depth);
        case Emit(c, n) =>
          StepUses(a);
          assert (a + b)[n..] == a[n..] + b;
          ParseConcat(a[n..], b, dir, files, depth);
          PrependTwice([c], ParseLines(a[n..], dir, files, depth).value, rest);
        case Include(p) =>
          ParseConcat(a[1..], b, dir, files, depth);
          PrependTwice(ParseFile(files.resolve(dir, p), files, depth).value,
                       ParseLines(a[1..], dir, files, depth).value, rest);
        case Fail(_) =>
      }
    }
  }
}
