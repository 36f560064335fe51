/** Nested flow files: exactly when replacing each include by its file changes nothing. */
module FlowInlining {
  import opened Prelude
  import opened Text
  import opened FlowParser
  import FlowPrinter

  // ----- inlining

  /** The lines with each include replaced by the flattened lines of its file. */
  function FlattenLines(lines: seq<string>, dir: string, files: FlowFiles, depth: nat): seq<string>
    decreases depth, 1, |lines|
  {
    if lines == [] then []
    else match StepAt(lines)
      case Skip => lines[..1] + FlattenLines(lines[1..], dir, files, depth)
      case Emit(_, n) =>
        StepUses(lines);
        lines[..n] + FlattenLines(lines[n..], dir, files, depth)
      case Include(p) => FlattenFile(files.resolve(dir, p), files, depth) + FlattenLines(lines[1..], dir, files, depth)
      case Fail(_) => lines
  }

  function FlattenFile(path: string, files: FlowFiles, depth: nat): seq<string>
    decreases depth, 0
  {
    if depth == 0 || path !in files.texts then []
    else FlattenLines(LinesOf(files.texts[path]), files.dirname(path), files, depth - 1)
  }

  // ----- the seams

  predicate Indented(line: string) {
    "  " <= line
  }

  /** Whether a `launchApp` that stands in front (`open`), or in the lines, would take an
      indented line that follows the flattened lines. */
  predicate EndsOpen(lines: seq<string>, dir: string, files: FlowFiles, depth: nat, open: bool)
    decreases depth, 1, |lines|
  {
    if lines == [] then open
    else match StepAt(lines)
      case Skip => EndsOpen(lines[1..], dir, files, depth, open && Indented(lines[0]))
      case Emit(c, n) =>
        StepUses(lines);
        EndsOpen(lines[n..], dir, files, depth, c.LaunchApp?)
      case Include(p) =>
        EndsOpen(lines[1..], dir, files, depth, FileEndsOpen(files.resolve(dir, p), files, depth, open))
      case Fail(_) => false
  }

  predicate FileEndsOpen(path: string, files: FlowFiles, depth: nat, open: bool)
    decreases depth, 0
  {
    if depth == 0 || path !in files.texts then open
    else EndsOpen(LinesOf(files.texts[path]), files.dirname(path), files, depth - 1, open)
  }

  /** No command on an indented line comes to stand right behind a `launchApp`, but for
      indented lines that mean nothing, when the includes on the way are left out. */
  predicate Seamless(lines: seq<string>, dir: string, files: FlowFiles, depth: nat, open: bool)
    decreases depth, 1, |lines|
  {
    if lines == [] then true
    else match StepAt(lines)
      case Skip => Seamless(lines[1..], dir, files, depth, open && Indented(lines[0]))
      case Emit(c, n) =>
        StepUses(lines);
        !(open && Indented(lines[0])) && Seamless(lines[n..], dir, files, depth, c.LaunchApp?)
      case Include(p) =>
        var target := files.resolve(dir, p);
        && SeamlessFile(target, files, depth, open)
        && Seamless(lines[1..], dir, files, depth, FileEndsOpen(target, files, depth, open))
      case Fail(_) => true
  }

  predicate SeamlessFile(path: string, files: FlowFiles, depth: nat, open: bool)
    decreases depth, 0
  {
    if depth == 0 || path !in files.texts then true
    else Seamless(LinesOf(files.texts[path]), files.dirname(path), files, depth - 1, open)
  }

  // ----- reading behind an open command

  /** Where lines are read: the directory, the files and the depth. */
  datatype Place = Place(dir: string, files: FlowFiles, depth: nat)

  /** What the lines read as, behind an open `launchApp` if one stands in front of them. */
  function Reads(open: bool, lines: seq<string>, at: Place): ParseResult {
    ParseLines(if open then lines[IndentedLines(lines)..] else lines, at.dir, at.files, at.depth)
  }

  /** A failure, or fewer commands than that. */
  predicate Fewer(r: ParseResult, n: int) {
    r.Err? || |r.value| < n
  }

  predicate Bounded(rest: seq<string>, at: Place, bound: nat) {
    Fewer(Reads(true, rest, at), bound) && Fewer(Reads(false, rest, at), bound)
  }

  /** Lines that end with `rest` read as these commands with the reading of `rest` behind
      them if they are seamless, and lose a command or fail if they are not. */
  predicate Law(open: bool, lines: seq<string>, commands: seq<FlowCommand>, ends: bool, seamless: bool,
                rest: seq<string>, at: Place, bound: nat)
  {
    if seamless then Reads(open, lines, at) == Prepend(commands, Reads(ends, rest, at))
    else Fewer(Reads(open, lines, at), |commands| + bound - 1)
  }

  lemma LawBounds(open: bool, lines: seq<string>, commands: seq<FlowCommand>, ends: bool, seamless: bool,
                  rest: seq<string>, at: Place, bound: nat)
    requires Law(open, lines, commands, ends, seamless, rest, at, bound) && Bounded(rest, at, bound)
    ensures Fewer(Reads(open, lines, at), |commands| + bound)
  {
    hide Reads;
  }

  lemma LawsCompose(open: bool, lines: seq<string>, a: seq<FlowCommand>, ends: bool, seamless: bool,
                    middle: seq<string>, b: seq<FlowCommand>, laterEnds: bool, laterSeamless: bool,
                    rest: seq<string>, at: Place, bound: nat)
    requires Law(open, lines, a, ends, seamless, middle, at, |b| + bound)
    requires Law(ends, middle, b, laterEnds, laterSeamless, rest, at, bound)
    ensures Law(open, lines, a + b, laterEnds, seamless && laterSeamless, rest, at, bound)
  {
    hide Reads;
    PrependTwice(a, b, Reads(laterEnds, rest, at));
  }

  // ----- what the lines of a command are

  /** A line that is indented, or that means nothing on its own. */
  predicate Attached(line: string) {
    Indented(line) || "id:" <= Trim(line) || "text:" <= Trim(line) || IsOptionalLine(line)
  }

  predicate AllAttached(lines: seq<string>) {
    forall i :: 0 <= i < |lines| ==> Attached(lines[i])
  }

  lemma DetachedFails(lines: seq<string>)
    requires lines != [] && Attached(lines[0]) && !Indented(lines[0])
    ensures StepAt(lines).Fail?
  {
    hide Trim, Unquote;
    var line := Trim(lines[0]);
    assert line[0] == 'i' || line[0] == 't' || line[0] == 'o';
  }

  lemma OptionalFails(lines: seq<string>)
    requires lines != [] && IsOptionalLine(lines[0])
    ensures StepAt(lines).Fail?
  {
    hide Trim, Unquote;
    assert Trim(lines[0])[0] == 'o';
  }

  /** Behind an open command, attached lines are taken or fail. */
  lemma {:induction false} AttachedLines(a: seq<string>, rest: seq<string>, at: Place)
    requires AllAttached(a)
    ensures Reads(true, a + rest, at).Err? || Reads(true, a + rest, at) == Reads(true, rest, at)
    decreases |a|
  {
    hide Attached, Indented, StepAt;
    if a == [] {
      assert a + rest == rest;
    } else {
      assert (a + rest)[1..] == a[1..] + rest;
      if Indented(a[0]) {
        TakesLine(a + rest, at);
        AttachedLines(a[1..], rest, at);
      } else {
        DetachedFails(a + rest);
        LeavesLine(a + rest, at);
      }
    }
  }

  lemma TakesLine(lines: seq<string>, at: Place)
    requires lines != [] && Indented(lines[0])
    ensures Reads(true, lines, at) == Reads(true, lines[1..], at)
  {
    hide ParseLines;
    assert lines[IndentedLines(lines)..] == lines[1..][IndentedLines(lines[1..])..];
  }

  lemma LeavesLine(lines: seq<string>, at: Place)
    requires lines != [] && !Indented(lines[0])
    ensures Reads(true, lines, at) == ParseLines(lines, at.dir, at.files, at.depth)
  {
    hide ParseLines;
  }

  lemma CommandAttached(lines: seq<string>)
    requires lines != [] && StepAt(lines).Emit? && StepAt(lines).used <= |lines| && 1 <= StepAt(lines).used
    ensures AllAttached(lines[1..StepAt(lines).used])
  {
    hide Unquote, Trim, SelectorStep, Attached;
    var line := Trim(lines[0]);
    if "- assertVisible:" <= line {
      StepIsAssert(lines);
      SelectorAttached(Assert, line, Trim(line[16..]), lines);
    } else if "- tapOn:" <= line {
      StepIsTap(lines);
      SelectorAttached(Tap, line, Trim(line[8..]), lines);
    } else if line == "- launchApp" || "- launchApp:" <= line {
      IndentedAttached(lines[1..]);
      assert lines[1..StepAt(lines).used] == lines[1..][..IndentedLines(lines[1..])];
    }
  }

  lemma {:induction false} IndentedAttached(lines: seq<string>)
    ensures AllAttached(lines[..IndentedLines(lines)])
  {
    var n := IndentedLines(lines);
    if n > 0 {
      IndentedAttached(lines[1..]);
      FrontAttached(lines, n);
    }
  }

  lemma FrontAttached(lines: seq<string>, n: nat)
    requires 0 < n <= |lines| && Indented(lines[0]) && AllAttached(lines[1..][..n - 1])
    ensures AllAttached(lines[..n])
  {
    hide IsOptionalLine, Trim;
    forall i | 0 <= i < n
      ensures Attached(lines[..n][i])
    {
      assert i > 0 ==> lines[i] == lines[1..][..n - 1][i - 1];
    }
  }

  lemma SelectorAttached(kind: SelectorKind, line: string, inlineValue: string, lines: seq<string>)
    requires SelectorStep(kind, line, inlineValue, lines).Emit?
    requires 1 <= SelectorStep(kind, line, inlineValue, lines).used <= |lines|
    ensures AllAttached(lines[1..SelectorStep(kind, line, inlineValue, lines).used])
  {
    hide Unquote, Trim, ParseBoolean, Indented;
  }

  // ----- a command in front of other lines

  predicate PlainStart(lines: seq<string>) {
    lines == [] || !IsOptionalLine(lines[0])
  }

  lemma SelectorOver(kind: SelectorKind, line: string, inlineValue: string, lines: seq<string>, n: nat,
                     rest: seq<string>)
    requires SelectorStep(kind, line, inlineValue, lines).Emit?
    requires n == SelectorStep(kind, line, inlineValue, lines).used && 1 <= n <= |lines| && PlainStart(rest)
    ensures SelectorStep(kind, line, inlineValue, lines[..n] + rest) == SelectorStep(kind, line, inlineValue, lines)
  {
    hide Unquote, Trim, ParseBoolean;
    EmptyLine();
    var joined := lines[..n] + rest;
    assert n >= 2 ==> LineAt(joined, 1) == LineAt(lines, 1);
    assert n >= 3 ==> LineAt(joined, 2) == LineAt(lines, 2);
    assert n == 2 && rest != [] ==> LineAt(joined, 2) == rest[0];
  }

  lemma {:induction false} IndentedOver(lines: seq<string>, rest: seq<string>)
    ensures IndentedLines(lines[..IndentedLines(lines)] + rest) == IndentedLines(lines) + IndentedLines(rest)
  {
    var n := IndentedLines(lines);
    if n == 0 {
      assert lines[..n] + rest == rest;
    } else {
      assert (lines[..n] + rest)[1..] == lines[1..][..n - 1] + rest;
      IndentedOver(lines[1..], rest);
    }
  }

  /** In front of other lines a command reads the same; only `launchApp` goes on over the
      indented lines. */
  lemma StepOver(lines: seq<string>, n: nat, rest: seq<string>)
    requires lines != [] && StepAt(lines).Emit? && n == StepAt(lines).used && 1 <= n <= |lines| && PlainStart(rest)
    ensures var c := StepAt(lines).command;
      StepAt(lines[..n] + rest) == Emit(c, if c.LaunchApp? then n + IndentedLines(rest) else n)
  {
    hide Unquote, Trim, SelectorStep, PlainStart;
    var joined := lines[..n] + rest;
    var line := Trim(lines[0]);
    assert joined[0] == lines[0];
    if "- assertVisible:" <= line {
      StepIsAssert(lines);
      StepIsAssert(joined);
      SelectorOver(Assert, line, Trim(line[16..]), lines, n, rest);
      SelectorKeeps(Assert, line, Trim(line[16..]), lines);
    } else if "- tapOn:" <= line {
      StepIsTap(lines);
      StepIsTap(joined);
      SelectorOver(Tap, line, Trim(line[8..]), lines, n, rest);
      SelectorKeeps(Tap, line, Trim(line[8..]), lines);
    } else if line == "- launchApp" || "- launchApp:" <= line {
      assert joined[1..] == lines[1..][..n - 1] + rest;
      IndentedOver(lines[1..], rest);
    }
  }

  lemma SelectorKeeps(kind: SelectorKind, line: string, inlineValue: string, lines: seq<string>)
    requires SelectorStep(kind, line, inlineValue, lines).Emit?
    ensures !SelectorStep(kind, line, inlineValue, lines).command.LaunchApp?
  {
    hide Unquote, Trim, ParseBoolean;
  }

  // ----- the law for the first step

  lemma SkipLaw(open: bool, lines: seq<string>, rest: seq<string>, at: Place, bound: nat)
    requires lines != [] && StepAt(lines).Skip?
    ensures Law(open, lines[..1] + rest, [], open && Indented(lines[0]), true, rest, at, bound)
  {
    hide Indented, IndentedLines, StepAt;
    var joined := lines[..1] + rest;
    assert joined[1..] == rest;
    SkipsAlike(lines, joined);
    if open && Indented(lines[0]) {
      TakesLine(joined, at);
    } else if open {
      LeavesLine(joined, at);
    }
    PrependNothing(Reads(open && Indented(lines[0]), rest, at));
  }

  lemma SkipsAlike(a: seq<string>, b: seq<string>)
    requires a != [] && b != [] && a[0] == b[0] && StepAt(a).Skip?
    ensures StepAt(b).Skip?
  {
    hide Trim, Unquote, ParseBoolean;
  }

  lemma CommandLaw(open: bool, lines: seq<string>, n: nat, rest: seq<string>, at: Place, bound: nat)
    requires lines != [] && StepAt(lines).Emit? && n == StepAt(lines).used && 1 <= n <= |lines|
    requires PlainStart(rest) && Bounded(rest, at, bound)
    ensures Law(open, lines[..n] + rest, [StepAt(lines).command], StepAt(lines).command.LaunchApp?,
                !(open && Indented(lines[0])), rest, at, bound)
  {
    hide Indented, StepAt, PlainStart, IndentedLines, ParseLines;
    if open && Indented(lines[0]) {
      TakenCommand(lines, n, rest, at);
    } else {
      if open { LeavesLine(lines[..n] + rest, at); }
      KeptCommand(lines, n, rest, at);
    }
  }

  lemma TakenCommand(lines: seq<string>, n: nat, rest: seq<string>, at: Place)
    requires lines != [] && StepAt(lines).Emit? && n == StepAt(lines).used && 1 <= n <= |lines|
    requires Indented(lines[0])
    ensures Reads(true, lines[..n] + rest, at).Err? || Reads(true, lines[..n] + rest, at) == Reads(true, rest, at)
  {
    hide StepAt, AllAttached, Indented, Reads;
    var joined := lines[..n] + rest;
    assert joined[1..] == lines[1..n] + rest;
    TakesLine(joined, at);
    CommandAttached(lines);
    AttachedLines(lines[1..n], rest, at);
  }

  lemma KeptCommand(lines: seq<string>, n: nat, rest: seq<string>, at: Place)
    requires lines != [] && StepAt(lines).Emit? && n == StepAt(lines).used && 1 <= n <= |lines|
    requires PlainStart(rest)
    ensures ParseLines(lines[..n] + rest, at.dir, at.files, at.depth)
         == Prepend([StepAt(lines).command], Reads(StepAt(lines).command.LaunchApp?, rest, at))
  {
    hide StepAt, PlainStart, IndentedLines;
    var joined := lines[..n] + rest;
    StepOver(lines, n, rest);
    assert joined[n..] == rest;
    assert joined[n + IndentedLines(rest)..] == rest[IndentedLines(rest)..];
  }

  // ----- the law for flattened lines

  lemma PlainJoin(a: seq<string>, b: seq<string>)
    requires PlainStart(a) && PlainStart(b)
    ensures PlainStart(a + b)
  {
    hide IsOptionalLine;
    if a == [] { assert a + b == b; }
  }

  lemma PlainFront(lines: seq<string>, n: nat)
    requires lines != [] && !StepAt(lines).Fail? && n <= |lines|
    ensures PlainStart(lines[..n])
  {
    hide StepAt, IsOptionalLine;
    if IsOptionalLine(lines[0]) { OptionalFails(lines); }
  }

  /** Flattened lines that parse do not start with an optional flag. */
  lemma {:induction false} FlattenStart(lines: seq<string>, dir: string, files: FlowFiles, depth: nat)
    requires ParseLines(lines, dir, files, depth).Ok?
    ensures PlainStart(FlattenLines(lines, dir, files, depth))
    decreases depth, 1, |lines|
  {
    hide StepAt, PlainStart, ParseFile, FlattenFile;
    if lines == [] {
      NothingPlain();
    } else {
      match StepAt(lines) {
        case Skip =>
          PlainFront(lines, 1);
          FlattenStart(lines[1..], dir, files, depth);
          PlainJoin(lines[..1], FlattenLines(lines[1..], dir, files, depth));
        case Emit(_, n) =>
          StepUses(lines);
          PlainFront(lines, n);
          FlattenStart(lines[n..], dir, files, depth);
          PlainJoin(lines[..n], FlattenLines(lines[n..], dir, files, depth));
        case Include(p) =>
          FlattenFileStart(files.resolve(dir, p), files, depth);
          FlattenStart(lines[1..], dir, files, depth);
          PlainJoin(FlattenFile(files.resolve(dir, p), files, depth), FlattenLines(lines[1..], dir, files, depth));
        case Fail(_) =>
      }
    }
  }

  lemma NothingPlain()
    ensures PlainStart([])
  {
  }

  lemma {:induction false} FlattenFileStart(path: string, files: FlowFiles, depth: nat)
    requires ParseFile(path, files, depth).Ok?
    ensures PlainStart(FlattenFile(path, files, depth))
    decreases depth, 0
  {
    hide LinesOf, ParseLines, FlattenLines, PlainStart;
    FlattenStart(LinesOf(files.texts[path]), files.dirname(path), files, depth - 1);
  }

  ghost predicate LinesLaw(open: bool, lines: seq<string>, dir: string, files: FlowFiles, depth: nat,
                           rest: seq<string>, at: Place, bound: nat)
    requires ParseLines(lines, dir, files, depth).Ok?
  {
    Law(open, FlattenLines(lines, dir, files, depth) + rest, ParseLines(lines, dir, files, depth).value,
        EndsOpen(lines, dir, files, depth, open), Seamless(lines, dir, files, depth, open), rest, at, bound)
  }

  ghost predicate FileLaw(open: bool, path: string, files: FlowFiles, depth: nat,
                          rest: seq<string>, at: Place, bound: nat)
    requires ParseFile(path, files, depth).Ok?
  {
    Law(open, FlattenFile(path, files, depth) + rest, ParseFile(path, files, depth).value,
        FileEndsOpen(path, files, depth, open), SeamlessFile(path, files, depth, open), rest, at, bound)
  }

  lemma {:induction false} FlattenLinesLaw(open: bool, lines: seq<string>, dir: string, files: FlowFiles, depth: nat,
                                           rest: seq<string>, at: Place, bound: nat)
    requires ParseLines(lines, dir, files, depth).Ok? && PlainStart(rest) && Bounded(rest, at, bound)
    ensures LinesLaw(open, lines, dir, files, depth, rest, at, bound)
    decreases depth, 1, |lines|, 1
  {
    hide StepAt, ParseFile, PlainStart, Bounded, Law, FlattenFile, SeamlessFile, FileEndsOpen, Indented;
    if lines == [] {
      EmptyLaw(open, rest, at, bound);
    } else {
      match StepAt(lines) {
        case Skip =>
          RestLaw(lines, 1, dir, files, depth, rest, at, bound);
          SkipCase(open, lines, dir, files, depth, rest, at, bound);
        case Emit(_, n) =>
          StepUses(lines);
          RestLaw(lines, n, dir, files, depth, rest, at, bound);
          CommandCase(open, lines, n, dir, files, depth, rest, at, bound);
        case Include(p) =>
          RestLaw(lines, 1, dir, files, depth, rest, at, bound);
          var behind := FlattenLines(lines[1..], dir, files, depth) + rest;
          FlattenFileLaw(open, files.resolve(dir, p), files, depth, behind, at,
                         |ParseLines(lines[1..], dir, files, depth).value| + bound);
          IncludeCase(open, lines, dir, files, depth, rest, at, bound);
        case Fail(_) =>
      }
    }
  }

  lemma EmptyLaw(open: bool, rest: seq<string>, at: Place, bound: nat)
    ensures Law(open, [] + rest, [], open, true, rest, at, bound)
  {
    hide Reads;
    assert [] + rest == rest;
    PrependNothing(Reads(open, rest, at));
  }

  /** The law for the lines behind the first step, and what it says of them as a rest. */
  lemma RestLaw(lines: seq<string>, n: nat, dir: string, files: FlowFiles, depth: nat,
                rest: seq<string>, at: Place, bound: nat)
    requires 0 < n <= |lines| && ParseLines(lines[n..], dir, files, depth).Ok?
    requires PlainStart(rest) && Bounded(rest, at, bound)
    ensures LinesLaw(true, lines[n..], dir, files, depth, rest, at, bound)
    ensures LinesLaw(false, lines[n..], dir, files, depth, rest, at, bound)
    ensures PlainStart(FlattenLines(lines[n..], dir, files, depth) + rest)
    ensures Bounded(FlattenLines(lines[n..], dir, files, depth) + rest, at,
                    |ParseLines(lines[n..], dir, files, depth).value| + bound)
    decreases depth, 1, |lines|, 0
  {
    hide ParseLines, FlattenLines, PlainStart, EndsOpen, Seamless, Reads, Law;
    var tail := lines[n..];
    var flat := FlattenLines(tail, dir, files, depth);
    var commands := ParseLines(tail, dir, files, depth).value;
    FlattenLinesLaw(true, tail, dir, files, depth, rest, at, bound);
    FlattenLinesLaw(false, tail, dir, files, depth, rest, at, bound);
    FlattenStart(tail, dir, files, depth);
    PlainJoin(flat, rest);
    LawBounds(true, flat + rest, commands, EndsOpen(tail, dir, files, depth, true),
              Seamless(tail, dir, files, depth, true), rest, at, bound);
    LawBounds(false, flat + rest, commands, EndsOpen(tail, dir, files, depth, false),
              Seamless(tail, dir, files, depth, false), rest, at, bound);
  }

  lemma SkipCase(open: bool, lines: seq<string>, dir: string, files: FlowFiles, depth: nat,
                 rest: seq<string>, at: Place, bound: nat)
    requires lines != [] && StepAt(lines).Skip? && ParseLines(lines, dir, files, depth).Ok?
    requires LinesLaw(open && Indented(lines[0]), lines[1..], dir, files, depth, rest, at, bound)
    ensures LinesLaw(open, lines, dir, files, depth, rest, at, bound)
  {
    hide StepAt, Law, Indented;
    var tail := lines[1..];
    var flat, commands := FlattenLines(tail, dir, files, depth), ParseLines(tail, dir, files, depth).value;
    var next := open && Indented(lines[0]);
    Regroup(lines[..1], flat, rest);
    SkipLaw(open, lines, flat + rest, at, |commands| + bound);
    LawsCompose(open, lines[..1] + (flat + rest), [], next, true, flat + rest, commands,
                EndsOpen(tail, dir, files, depth, next), Seamless(tail, dir, files, depth, next), rest, at, bound);
    assert [] + commands == commands;
  }

  lemma Regroup(a: seq<string>, b: seq<string>, c: seq<string>)
    ensures (a + b) + c == a + (b + c)
  {
  }

  lemma CommandCase(open: bool, lines: seq<string>, n: nat, dir: string, files: FlowFiles, depth: nat,
                    rest: seq<string>, at: Place, bound: nat)
    requires lines != [] && StepAt(lines).Emit? && n == StepAt(lines).used && 1 <= n <= |lines|
    requires ParseLines(lines, dir, files, depth).Ok? && ParseLines(lines[n..], dir, files, depth).Ok?
    requires LinesLaw(StepAt(lines).command.LaunchApp?, lines[n..], dir, files, depth, rest, at, bound)
    requires PlainStart(FlattenLines(lines[n..], dir, files, depth) + rest)
    requires Bounded(FlattenLines(lines[n..], dir, files, depth) + rest, at,
                     |ParseLines(lines[n..], dir, files, depth).value| + bound)
    ensures LinesLaw(open, lines, dir, files, depth, rest, at, bound)
  {
    hide StepAt, Law, Indented, PlainStart, Bounded;
    var tail, c := lines[n..], StepAt(lines).command;
    var flat, commands := FlattenLines(tail, dir, files, depth), ParseLines(tail, dir, files, depth).value;
    Regroup(lines[..n], flat, rest);
    CommandLaw(open, lines, n, flat + rest, at, |commands| + bound);
    LawsCompose(open, lines[..n] + (flat + rest), [c], c.LaunchApp?, !(open && Indented(lines[0])), flat + rest,
                commands, EndsOpen(tail, dir, files, depth, c.LaunchApp?),
                Seamless(tail, dir, files, depth, c.LaunchApp?), rest, at, bound);
  }

  lemma IncludeCase(open: bool, lines: seq<string>, dir: string, files: FlowFiles, depth: nat,
                    rest: seq<string>, at: Place, bound: nat)
    requires lines != [] && StepAt(lines).Include? && ParseLines(lines, dir, files, depth).Ok?
    requires ParseLines(lines[1..], dir, files, depth).Ok?
    requires LinesLaw(true, lines[1..], dir, files, depth, rest, at, bound)
    requires LinesLaw(false, lines[1..], dir, files, depth, rest, at, bound)
    requires ParseFile(files.resolve(dir, StepAt(lines).path), files, depth).Ok?
    requires FileLaw(open, files.resolve(dir, StepAt(lines).path), files, depth,
                     FlattenLines(lines[1..], dir, files, depth) + rest, at,
                     |ParseLines(lines[1..], dir, files, depth).value| + bound)
    ensures LinesLaw(open, lines, dir, files, depth, rest, at, bound)
  {
    hide StepAt, Law, ParseFile, FlattenFile, FileEndsOpen, SeamlessFile;
    var tail, target := lines[1..], files.resolve(dir, StepAt(lines).path);
    var flat, commands := FlattenLines(tail, dir, files, depth), ParseLines(tail, dir, files, depth).value;
    var next := FileEndsOpen(target, files, depth, open);
    Regroup(FlattenFile(target, files, depth), flat, rest);
    LawsCompose(open, FlattenFile(target, files, depth) + (flat + rest), ParseFile(target, files, depth).value,
                next, SeamlessFile(target, files, depth, open), flat + rest, commands,
                EndsOpen(tail, dir, files, depth, next), Seamless(tail, dir, files, depth, next), rest, at, bound);
  }

  lemma {:induction false} FlattenFileLaw(open: bool, path: string, files: FlowFiles, depth: nat,
                                          rest: seq<string>, at: Place, bound: nat)
    requires ParseFile(path, files, depth).Ok? && PlainStart(rest) && Bounded(rest, at, bound)
    ensures FileLaw(open, path, files, depth, rest, at, bound)
    decreases depth, 0, 0, 0
  {
    hide LinesOf, ParseLines, FlattenLines, PlainStart, Bounded, Law, EndsOpen, Seamless;
    FlattenLinesLaw(open, LinesOf(files.texts[path]), files.dirname(path), files, depth - 1, rest, at, bound);
  }

  // ----- inlining is exact

  /** Lines that parse read the same with each include replaced by its flattened file exactly
      when they are seamless; otherwise the inlined lines lose commands or fail. */
  lemma FlattenLinesParseIff(lines: seq<string>, dir: string, files: FlowFiles, depth: nat, at: Place)
    requires ParseLines(lines, dir, files, depth).Ok?
    ensures var inlined := ParseLines(FlattenLines(lines, dir, files, depth), at.dir, at.files, at.depth);
      && (inlined == ParseLines(lines, dir, files, depth) <==> Seamless(lines, dir, files, depth, false))
      && (inlined == ParseLines(lines, dir, files, depth)
          || Fewer(inlined, |ParseLines(lines, dir, files, depth).value|))
  {
    hide ParseLines, FlattenLines, EndsOpen, Seamless, Law;
    var none: seq<string> := [];
    NothingReads(at);
    FlattenLinesLaw(false, lines, dir, files, depth, none, at, 1);
    LawAlone(FlattenLines(lines, dir, files, depth), ParseLines(lines, dir, files, depth).value,
             EndsOpen(lines, dir, files, depth, false), Seamless(lines, dir, files, depth, false), at);
  }

  lemma NothingReads(at: Place)
    ensures Reads(true, [], at) == Ok([]) && Reads(false, [], at) == Ok([])
    ensures Bounded([], at, 1) && PlainStart([])
  {
    var none: seq<string> := [];
    assert IndentedLines(none) == 0 && none[0..] == [];
  }

  lemma LawAlone(lines: seq<string>, commands: seq<FlowCommand>, ends: bool, seamless: bool, at: Place)
    requires Law(false, lines + [], commands, ends, seamless, [], at, 1)
    ensures var r := ParseLines(lines, at.dir, at.files, at.depth);
      if seamless then r == Ok(commands) else Fewer(r, |commands|)
  {
    hide ParseLines, IndentedLines;
    NothingReads(at);
    assert lines + [] == lines && commands + [] == commands;
  }

  lemma FlattenFileParseIff(path: string, files: FlowFiles, depth: nat, at: Place)
    requires ParseFile(path, files, depth).Ok?
    ensures var inlined := ParseLines(FlattenFile(path, files, depth), at.dir, at.files, at.depth);
      && (inlined == ParseFile(path, files, depth) <==> SeamlessFile(path, files, depth, false))
      && (inlined == ParseFile(path, files, depth) || Fewer(inlined, |ParseFile(path, files, depth).value|))
  {
    hide LinesOf, ParseLines, FlattenLines, Seamless;
    FlattenLinesParseIff(LinesOf(files.texts[path]), files.dirname(path), files, depth - 1, at);
  }

  // ----- files without indented seams

  predicate IsInclude(line: string) {
    "- runFlow:" <= Trim(line)
  }

  predicate FlushStart(lines: seq<string>) {
    lines == [] || !Indented(lines[0])
  }

  /** No line behind an include is indented. */
  predicate FlushBehindIncludes(lines: seq<string>) {
    forall i :: 0 <= i < |lines| - 1 && IsInclude(lines[i]) ==> !Indented(lines[i + 1])
  }

  predicate FlushFile(path: string, files: FlowFiles)
    requires path in files.texts
  {
    var lines := LinesOf(files.texts[path]);
    FlushStart(lines) && FlushBehindIncludes(lines)
  }

  /** No file starts with an indented line or has one behind an include. */
  predicate Flush(files: FlowFiles) {
    forall path :: path in files.texts ==> FlushFile(path, files)
  }

  lemma FlushSuffix(lines: seq<string>, n: nat)
    requires FlushBehindIncludes(lines) && n <= |lines|
    ensures FlushBehindIncludes(lines[n..])
  {
    hide Indented, IsInclude;
  }

  lemma {:induction false} IndentedMaximal(lines: seq<string>)
    ensures FlushStart(lines[IndentedLines(lines)..])
  {
    if lines != [] && "  " <= lines[0] {
      IndentedMaximal(lines[1..]);
      assert lines[IndentedLines(lines)..] == lines[1..][IndentedLines(lines[1..])..];
    }
  }

  lemma LaunchEndsFlush(lines: seq<string>, n: nat)
    requires lines != [] && StepAt(lines) == Emit(LaunchApp, n) && n <= |lines|
    ensures FlushStart(lines[n..])
  {
    hide Trim, Unquote, SelectorStep, FlushStart;
    var line := Trim(lines[0]);
    if "- assertVisible:" <= line {
      StepIsAssert(lines);
      SelectorKeeps(Assert, line, Trim(line[16..]), lines);
    } else if "- tapOn:" <= line {
      StepIsTap(lines);
      SelectorKeeps(Tap, line, Trim(line[8..]), lines);
    } else {
      IndentedMaximal(lines[1..]);
      assert lines[n..] == lines[1..][n - 1..];
    }
  }

  lemma FlushBehind(lines: seq<string>)
    requires lines != [] && StepAt(lines).Include? && FlushBehindIncludes(lines)
    ensures FlushStart(lines[1..])
  {
    hide Trim, Unquote, Indented;
    assert IsInclude(lines[0]);
    assert |lines| > 1 ==> !Indented(lines[0 + 1]);
  }

  lemma {:induction false} FlushLinesSeamless(lines: seq<string>, dir: string, files: FlowFiles, depth: nat, open: bool)
    requires Flush(files) && FlushBehindIncludes(lines) && (open ==> FlushStart(lines))
    ensures Seamless(lines, dir, files, depth, open)
    decreases depth, 1, |lines|
  {
    hide StepAt, Flush, FlushBehindIncludes, Indented, SeamlessFile, FileEndsOpen;
    if lines != [] {
      match StepAt(lines) {
        case Skip =>
          FlushSuffix(lines, 1);
          FlushLinesSeamless(lines[1..], dir, files, depth, false);
        case Emit(c, n) =>
          StepUses(lines);
          FlushSuffix(lines, n);
          if c.LaunchApp? { LaunchEndsFlush(lines, n); }
          FlushLinesSeamless(lines[n..], dir, files, depth, c.LaunchApp?);
        case Include(p) =>
          var target := files.resolve(dir, p);
          FlushSuffix(lines, 1);
          FlushBehind(lines);
          FlushFileSeamless(target, files, depth, open);
          FlushLinesSeamless(lines[1..], dir, files, depth, FileEndsOpen(target, files, depth, open));
        case Fail(_) =>
      }
    }
  }

  /** Files that are all flush are seamless, so that inlining them changes nothing. */
  lemma {:induction false} FlushFileSeamless(path: string, files: FlowFiles, depth: nat, open: bool)
    requires Flush(files)
    ensures SeamlessFile(path, files, depth, open)
    decreases depth, 0
  {
    hide LinesOf, Seamless, FlushStart, FlushBehindIncludes;
    if depth > 0 && path in files.texts {
      assert FlushFile(path, files);
      FlushLinesSeamless(LinesOf(files.texts[path]), files.dirname(path), files, depth - 1, open);
    }
  }

  // ----- lines in front of lines

  /** The last command of the lines is a `launchApp` that goes on to their end. */
  predicate LaunchAtEnd(lines: seq<string>)
    decreases |lines|
  {
    if lines == [] then false
    else match StepAt(lines)
      case Skip => LaunchAtEnd(lines[1..])
      case Emit(c, n) =>
        StepUses(lines);
        if n == |lines| then c.LaunchApp? else LaunchAtEnd(lines[n..])
      case Include(_) => LaunchAtEnd(lines[1..])
      case Fail(_) => false
  }

  predicate MeansNothing(line: string) {
    var trimmed := Trim(line);
    trimmed == "" || trimmed == "---" || "appId:" <= trimmed
  }

  /** The file that an include line asks for. */
  function TargetOf(line: string, at: Place): string
    requires IsInclude(line)
  {
    at.files.resolve(at.dir, Unquote(Trim(Trim(line)[10..])))
  }

  /** The line stands for a command, its own or one of the file that it includes. */
  predicate Counts(line: string, at: Place) {
    !MeansNothing(line) && (IsInclude(line) ==> ParseFile(TargetOf(line, at), at.files, at.depth) != Ok([]))
  }

  predicate FrontCounts(lines: seq<string>, at: Place) {
    exists i :: 0 <= i < IndentedLines(lines) && Counts(lines[i], at)
  }

  lemma FirstCounts(lines: seq<string>, at: Place)
    requires lines != []
    ensures StepAt(lines).Skip? ==> !Counts(lines[0], at)
    ensures StepAt(lines).Emit? ==> Counts(lines[0], at)
    ensures StepAt(lines).Include? ==>
      var target := at.files.resolve(at.dir, StepAt(lines).path);
      Counts(lines[0], at) <==> ParseFile(target, at.files, at.depth) != Ok([])
  {
    hide Trim, Unquote, ParseBoolean, ParseFile;
  }

  lemma FrontStep(lines: seq<string>, at: Place)
    requires lines != [] && Indented(lines[0])
    ensures FrontCounts(lines, at) <==> Counts(lines[0], at) || FrontCounts(lines[1..], at)
  {
    hide Counts;
    var tail := lines[1..];
    assert IndentedLines(lines) == 1 + IndentedLines(tail);
    if FrontCounts(tail, at) {
      var i :| 0 <= i < IndentedLines(tail) && Counts(tail[i], at);
      assert Counts(lines[i + 1], at);
    }
    assert forall i :: 0 < i < IndentedLines(lines) ==> lines[i] == tail[i - 1];
  }

  /** An open command takes nothing that counts exactly when the indented front stands for no command. */
  lemma {:induction false} OpenReads(lines: seq<string>, at: Place)
    requires Reads(false, lines, at).Ok?
    ensures if FrontCounts(lines, at) then Fewer(Reads(true, lines, at), |Reads(false, lines, at).value|)
            else Reads(true, lines, at) == Reads(false, lines, at)
    decreases |lines|
  {
    hide Indented, Counts, StepAt, IndentedLines, ParseFile;
    FrontIsThere(lines, at);
    if lines != [] && Indented(lines[0]) {
      FrontStep(lines, at);
      FirstCounts(lines, at);
      match StepAt(lines) {
        case Skip =>
          TakesLine(lines, at);
          OpenReads(lines[1..], at);
        case Emit(_, n) =>
          StepUses(lines);
          OpenTakes(lines, n, at);
        case Include(_) =>
          TakesLine(lines, at);
          OpenReads(lines[1..], at);
          ShorterOpen(lines[1..], at);
          PrependNothing(Reads(false, lines[1..], at));
        case Fail(_) =>
      }
    }
  }

  lemma FrontIsThere(lines: seq<string>, at: Place)
    ensures lines == [] || !Indented(lines[0]) ==>
      !FrontCounts(lines, at) && IndentedLines(lines) == 0 && lines[0..] == lines
  {
    hide Counts;
  }

  lemma OpenTakes(lines: seq<string>, n: nat, at: Place)
    requires lines != [] && StepAt(lines).Emit? && n == StepAt(lines).used && 1 <= n <= |lines|
    requires Indented(lines[0]) && Reads(false, lines, at).Ok?
    ensures Fewer(Reads(true, lines, at), |Reads(false, lines, at).value|)
    decreases |lines|, 0
  {
    hide Indented, StepAt, IndentedLines;
    var tail := lines[n..];
    assert lines[..n] + tail == lines;
    TakenCommand(lines, n, tail, at);
    ShorterOpen(tail, at);
  }

  /** Behind an open command there are at most the commands that there are without it. */
  lemma {:induction false} ShorterOpen(lines: seq<string>, at: Place)
    requires Reads(false, lines, at).Ok?
    ensures Fewer(Reads(true, lines, at), |Reads(false, lines, at).value| + 1)
    decreases |lines|, 1
  {
    hide Indented, StepAt, IndentedLines, ParseFile;
    FrontIsThere(lines, at);
    if lines != [] && Indented(lines[0]) {
      match StepAt(lines) {
        case Emit(_, n) =>
          StepUses(lines);
          OpenTakes(lines, n, at);
        case Fail(_) =>
        case _ =>
          TakesLine(lines, at);
          ShorterOpen(lines[1..], at);
      }
    }
  }

  lemma IncludesAlike(a: seq<string>, b: seq<string>)
    requires a != [] && b != [] && a[0] == b[0] && StepAt(a).Include?
    ensures StepAt(b) == StepAt(a)
  {
    hide Trim, Unquote, ParseBoolean;
  }

  lemma PlainLines(lines: seq<string>, at: Place)
    requires Reads(false, lines, at).Ok?
    ensures PlainStart(lines)
  {
    hide StepAt, IsOptionalLine;
    if lines != [] && IsOptionalLine(lines[0]) { OptionalFails(lines); }
  }

  /** Lines that parse leave what follows them to be read behind their last command. */
  lemma {:induction false} ConcatReads(a: seq<string>, b: seq<string>, at: Place)
    requires Reads(false, a, at).Ok? && PlainStart(b)
    ensures Reads(false, a + b, at) == Prepend(Reads(false, a, at).value, Reads(LaunchAtEnd(a), b, at))
    decreases |a|
  {
    hide StepAt, PlainStart, ParseFile, IndentedLines;
    if a == [] {
      assert a + b == b;
      PrependNothing(Reads(false, b, at));
    } else {
      assert (a + b)[1..] == a[1..] + b;
      match StepAt(a) {
        case Skip =>
          SkipsAlike(a, a + b);
          ConcatReads(a[1..], b, at);
        case Emit(c, n) =>
          StepUses(a);
          ConcatCommand(a, b, n, at);
        case Include(p) =>
          IncludesAlike(a, a + b);
          ConcatReads(a[1..], b, at);
          PrependTwice(ParseFile(at.files.resolve(at.dir, p), at.files, at.depth).value,
                       Reads(false, a[1..], at).value, Reads(LaunchAtEnd(a[1..]), b, at));
        case Fail(_) =>
      }
    }
  }

  lemma ConcatCommand(a: seq<string>, b: seq<string>, n: nat, at: Place)
    requires a != [] && StepAt(a).Emit? && n == StepAt(a).used && 1 <= n <= |a|
    requires Reads(false, a, at).Ok? && PlainStart(b)
    ensures Reads(false, a + b, at) == Prepend(Reads(false, a, at).value, Reads(LaunchAtEnd(a), b, at))
    decreases |a|, 0
  {
    hide StepAt, PlainStart, IndentedLines, ParseFile;
    var c, tail := StepAt(a).command, a[n..];
    assert a[..n] + (tail + b) == a + b;
    PlainLines(tail, at);
    PlainJoin(tail, b);
    KeptCommand(a, n, tail + b, at);
    if tail == [] {
      assert tail + b == b;
      assert Reads(false, tail, at) == Ok([]) && [c] + [] == [c];
    } else {
      if c.LaunchApp? {
        LaunchEndsFlush(a, n);
        assert (tail + b)[0] == tail[0];
        LeavesLine(tail + b, at);
      }
      ConcatReads(tail, b, at);
      PrependTwice([c], Reads(false, tail, at).value, Reads(LaunchAtEnd(tail), b, at));
    }
  }

  /** Parsing distributes over concatenation except exactly where the first part ends in a
      `launchApp` and the indented front of the second part stands for a command; there the
      whole loses commands or fails. */
  lemma ParseConcatIff(a: seq<string>, b: seq<string>, at: Place)
    requires Reads(false, a, at).Ok? && Reads(false, b, at).Ok?
    ensures var apart := Prepend(Reads(false, a, at).value, Reads(false, b, at));
      && (Reads(false, a + b, at) == apart <==> !(LaunchAtEnd(a) && FrontCounts(b, at)))
      && (Reads(false, a + b, at) == apart || Fewer(Reads(false, a + b, at), |apart.value|))
  {
    hide Reads, FrontCounts, LaunchAtEnd;
    PlainLines(b, at);
    ConcatReads(a, b, at);
    OpenReads(b, at);
    var open := LaunchAtEnd(a);
    assert if open then Reads(open, b, at) == Reads(true, b, at) else Reads(open, b, at) == Reads(false, b, at);
    PrependFewer(Reads(false, a, at).value, Reads(open, b, at), |Reads(false, b, at).value|);
  }

  lemma PrependFewer(front: seq<FlowCommand>, r: ParseResult, n: nat)
    ensures Fewer(Prepend(front, r), |front| + n) <==> Fewer(r, n)
  {
  }

  // ----- two files that lose a command

  const LAUNCH := "- launchApp"
  const INCLUDE := "- runFlow: part"
  const PASTE := "  - pasteText"

  /** A file that launches the app and then includes a file with one indented command. */
  function SeamFiles(): FlowFiles {
    FlowFiles(map["main" := JoinLines([LAUNCH, INCLUDE]), "part" := JoinLines([PASTE])],
              (dir, path) => path, path => "")
  }

  lemma SeamSteps(rest: seq<string>)
    ensures StepAt([LAUNCH] + rest) == Emit(LaunchApp, 1 + IndentedLines(rest))
    ensures StepAt([INCLUDE]) == Include("part")
    ensures StepAt([PASTE]) == Emit(PasteText, 1)
  {
    hide Trim, IndentedLines, Unquote, SelectorStep;
    SeamWords();
    SeamPaste([PASTE]);
    SeamUnquoted();
    assert ([LAUNCH] + rest)[1..] == rest;
    assert LAUNCH[2] == 'l' && INCLUDE[2] == 'r';
  }

  lemma SeamPaste(lines: seq<string>)
    requires lines != [] && Trim(lines[0]) == "- pasteText"
    ensures StepAt(lines) == Emit(PasteText, 1)
  {
    hide Trim, IndentedLines, Unquote, SelectorStep;
    var line := Trim(lines[0]);
    assert line[0] == '-' && line[2] == 'p';
  }

  lemma SeamUnquoted()
    ensures Unquote("part") == "part"
  {
    assert StripQuotes("part") == "part";
    NoQuotes();
  }

  lemma NoQuotes()
    ensures UnescapeQuotes("part") == "part"
  {
    assert "part"[1..] == "art" && "art"[1..] == "rt" && "rt"[1..] == "t" && "t"[1..] == "";
  }

  lemma SeamWords()
    ensures Trim(LAUNCH) == LAUNCH && Trim(INCLUDE) == INCLUDE
    ensures Trim(PASTE) == "- pasteText" && Trim(INCLUDE[10..]) == "part"
  {
    hide Trim;
    TrimOfTrimmed(LAUNCH);
    TrimOfTrimmed(INCLUDE);
    TrimUnique("  ", "- pasteText", "");
    assert PASTE == "  " + "- pasteText" + "";
    TrimUnique(" ", "part", "");
    assert INCLUDE[10..] == " " + "part" + "";
  }

  lemma SeamTexts()
    ensures LinesOf(JoinLines([LAUNCH, INCLUDE])) == [LAUNCH, INCLUDE]
    ensures LinesOf(JoinLines([PASTE])) == [PASTE]
  {
    hide LinesOf;
    assert FlowPrinter.SingleLine(LAUNCH) && FlowPrinter.SingleLine(INCLUDE) && FlowPrinter.SingleLine(PASTE);
    LinesBack([LAUNCH, INCLUDE]);
    LinesBack([PASTE]);
  }

  lemma LinesBack(lines: seq<string>)
    requires lines != [] && forall i :: 0 <= i < |lines| ==> FlowPrinter.SingleLine(lines[i])
    ensures LinesOf(JoinLines(lines)) == lines
  {
    hide FlowPrinter.SingleLine;
    FlowPrinter.JoinHasNoReturns(lines);
    FlowPrinter.NoReturns(JoinLines(lines));
    FlowPrinter.SplitJoin(lines);
  }

  /** The part reads as its one command, and flattens to itself. */
  lemma SeamPart(depth: nat)
    requires depth > 0
    ensures ParseFile("part", SeamFiles(), depth) == Ok([PasteText])
    ensures FlattenFile("part", SeamFiles(), depth) == [PASTE]
  {
    hide StepAt, JoinLines, LinesOf;
    SeamTexts();
    SeamSteps([]);
    OneCommand([PASTE], PasteText, "", SeamFiles(), depth - 1);
  }

  lemma OneCommand(lines: seq<string>, c: FlowCommand, dir: string, files: FlowFiles, depth: nat)
    requires lines != [] && StepAt(lines) == Emit(c, |lines|)
    ensures ParseLines(lines, dir, files, depth) == Ok([c])
    ensures FlattenLines(lines, dir, files, depth) == lines
  {
    hide StepAt;
    assert lines[|lines|..] == [];
    assert lines[..|lines|] + [] == lines;
    assert [c] + [] == [c];
  }

  /** In this pair of files inlining loses the command of the included file. */
  lemma InliningLosesCommand(depth: nat, at: Place)
    requires depth > 1
    ensures ParseFile("main", SeamFiles(), depth) == Ok([LaunchApp, PasteText])
    ensures FlattenFile("main", SeamFiles(), depth) == [LAUNCH, PASTE]
    ensures ParseLines([LAUNCH, PASTE], at.dir, at.files, at.depth) == Ok([LaunchApp])
  {
    hide StepAt, JoinLines, LinesOf, ParseFile, FlattenFile;
    SeamMain(depth);
    SeamSteps([PASTE]);
    assert [LAUNCH] + [PASTE] == [LAUNCH, PASTE];
    assert IndentedLines([PASTE]) == 1 by { assert [PASTE][1..] == []; }
    OneCommand([LAUNCH, PASTE], LaunchApp, at.dir, at.files, at.depth);
  }

  lemma SeamMain(depth: nat)
    requires depth > 1
    ensures ParseFile("main", SeamFiles(), depth) == Ok([LaunchApp, PasteText])
    ensures FlattenFile("main", SeamFiles(), depth) == [LAUNCH, PASTE]
  {
    hide StepAt, JoinLines, LinesOf, ParseLines, FlattenLines;
    SeamTexts();
    SeamInclude(depth - 1);
    SeamSteps([INCLUDE]);
    var main := [LAUNCH] + [INCLUDE];
    assert main == [LAUNCH, INCLUDE] && main[1..] == [INCLUDE] && main[..1] == [LAUNCH];
    FlushInclude();
    SeamFront(main, depth - 1);
  }

  lemma FlushInclude()
    ensures IndentedLines([INCLUDE]) == 0
  {
    assert INCLUDE[0] == '-';
  }

  lemma SeamFront(main: seq<string>, depth: nat)
    requires main != [] && StepAt(main) == Emit(LaunchApp, 1)
    requires ParseLines(main[1..], "", SeamFiles(), depth) == Ok([PasteText])
    requires FlattenLines(main[1..], "", SeamFiles(), depth) == [PASTE]
    ensures ParseLines(main, "", SeamFiles(), depth) == Ok([LaunchApp, PasteText])
    ensures FlattenLines(main, "", SeamFiles(), depth) == [main[0], PASTE]
  {
    hide StepAt, SeamFiles;
    assert main[..1] == [main[0]];
    assert [main[0]] + [PASTE] == [main[0], PASTE];
    assert [LaunchApp] + [PasteText] == [LaunchApp, PasteText];
  }

  lemma SeamInclude(depth: nat)
    requires depth > 0
    ensures ParseLines([INCLUDE], "", SeamFiles(), depth) == Ok([PasteText])
    ensures FlattenLines([INCLUDE], "", SeamFiles(), depth) == [PASTE]
  {
    hide StepAt, JoinLines, ParseFile, FlattenFile;
    SeamPart(depth);
    SeamSteps([]);
    assert [INCLUDE][1..] == [];
    assert [PasteText] + [] == [PasteText] && [PASTE] + [] == [PASTE];
  }
}
