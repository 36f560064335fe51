/** Nested flow files: exactly when reading a file comes to an end. */
module FlowTermination {
  import opened Prelude
  import opened Text
  import opened FlowParser
  import FlowPrinter

  // ----- depth

  /** A result that is not an overrun is the result at every greater depth: the bound is
      not part of the meaning of a flow. */
  lemma {:induction false} LinesDeeper(lines: seq<string>, dir: string, files: FlowFiles, low: nat, high: nat)
    requires low <= high && ParseLines(lines, dir, files, low) != Err(TooDeep)
    ensures ParseLines(lines, dir, files, high) == ParseLines(lines, dir, files, low)
    decreases low, 1, |lines|
  {
    hide StepAt, ParseFile;
    if lines != [] {
      match StepAt(lines) {
        case Skip => LinesDeeper(lines[1..], dir, files, low, high);
        case Emit(_, n) =>
          StepUses(lines);
          LinesDeeper(lines[n..], dir, files, low, high);
        case Include(p) =>
          var target := files.resolve(dir, p);
          FileDeeper(target, files, low, high);
          if ParseFile(target, files, low).Ok? {
            LinesDeeper(lines[1..], dir, files, low, high);
          }
        case Fail(_) =>
      }
    }
  }

  lemma {:induction false} FileDeeper(path: string, files: FlowFiles, low: nat, high: nat)
    requires low <= high && ParseFile(path, files, low) != Err(TooDeep)
    ensures ParseFile(path, files, high) == ParseFile(path, files, low)
    decreases low, 0
  {
    hide LinesOf, ParseLines;
    if path in files.texts {
      LinesDeeper(LinesOf(files.texts[path]), files.dirname(path), files, low - 1, high - 1);
    }
  }

  // ----- walks along includes

  type Step = (string, string) -> bool

  ghost predicate StepsAt(w: seq<string>, i: nat, step: Step)
    requires i + 1 < |w|
  {
    step(w[i], w[i + 1])
  }

  ghost predicate Walk(w: seq<string>, step: Step) {
    w != [] && forall i :: 0 <= i < |w| - 1 ==> StepsAt(w, i, step)
  }

  ghost predicate Repeats(w: seq<string>) {
    exists i, j :: 0 <= i < j < |w| && w[i] == w[j]
  }

  /** Some walk from the file comes back to a file that it has been at. */
  ghost predicate ReachesCycle(path: string, step: Step) {
    exists w :: w != [] && Walk(w, step) && w[0] == path && Repeats(w)
  }

  /** The place `k` of the endless walk that goes round from `i` to `j`. */
  function Node(w: seq<string>, i: nat, j: nat, k: nat): string
    requires i < j < |w|
  {
    if k < j then w[k] else Node(w, i, j, k - (j - i))
  }

  lemma {:induction false} NodeSteps(w: seq<string>, i: nat, j: nat, k: nat, step: Step)
    requires Walk(w, step) && i < j < |w| && w[i] == w[j]
    ensures step(Node(w, i, j, k), Node(w, i, j, k + 1))
    decreases k
  {
    if k + 1 < j {
      assert StepsAt(w, k, step);
    } else if k + 1 == j {
      assert StepsAt(w, k, step);
      assert Node(w, i, j, j) == Node(w, i, j, i);
    } else {
      NodeSteps(w, i, j, k - (j - i), step);
    }
  }

  /** A walk with a repetition goes on for ever. */
  lemma Pump(w: seq<string>, step: Step, n: nat) returns (v: seq<string>)
    requires Walk(w, step) && Repeats(w)
    ensures Walk(v, step) && |v| == n + 1 && v[0] == w[0]
  {
    hide Node;
    var i, j :| 0 <= i < j < |w| && w[i] == w[j];
    v := seq(n + 1, k requires 0 <= k => Node(w, i, j, k));
    forall k | 0 <= k < |v| - 1
      ensures StepsAt(v, k, step)
    {
      NodeSteps(w, i, j, k, step);
    }
    NodeStart(w, i, j);
  }

  lemma NodeStart(w: seq<string>, i: nat, j: nat)
    requires i < j < |w|
    ensures Node(w, i, j, 0) == w[0]
  {
  }

  /** Among more places than there are files, one comes twice. */
  lemma {:induction false} Pigeonhole(w: seq<string>, s: set<string>)
    requires |w| > |s| && forall i :: 0 <= i < |w| ==> w[i] in s
    ensures Repeats(w)
  {
    var first, rest := w[0], w[1..];
    if first in rest {
      var k :| 0 <= k < |rest| && rest[k] == first;
      assert w[0] == w[k + 1];
    } else {
      forall i | 0 <= i < |rest|
        ensures rest[i] in s - {first}
      {
        assert rest[i] == w[i + 1];
      }
      Pigeonhole(rest, s - {first});
      var i, j :| 0 <= i < j < |rest| && rest[i] == rest[j];
      assert w[i + 1] == w[j + 1];
    }
  }

  lemma WalkFrom(first: string, w: seq<string>, step: Step)
    requires Walk(w, step) && step(first, w[0])
    ensures Walk([first] + w, step)
  {
    var v := [first] + w;
    forall i | 0 <= i < |v| - 1
      ensures StepsAt(v, i, step)
    {
      assert i > 0 ==> StepsAt(w, i - 1, step);
    }
  }

  lemma WalkTail(w: seq<string>, step: Step)
    requires Walk(w, step) && |w| > 1
    ensures Walk(w[1..], step) && step(w[0], w[1])
  {
    assert StepsAt(w, 0, step);
    forall i | 0 <= i < |w[1..]| - 1
      ensures StepsAt(w[1..], i, step)
    {
      assert StepsAt(w, i + 1, step);
    }
  }

  // ----- which includes are reached

  /** The file parses, at some depth. */
  ghost predicate Parses(path: string, files: FlowFiles) {
    exists depth: nat :: ParseFile(path, files, depth).Ok?
  }

  /** Reading these lines comes to an include of this file: only supported lines, and only
      includes of files that parse, stand in front of it. */
  ghost predicate Reaches(lines: seq<string>, dir: string, files: FlowFiles, path: string)
    decreases |lines|
  {
    if lines == [] then false
    else match StepAt(lines)
      case Skip => Reaches(lines[1..], dir, files, path)
      case Emit(_, n) =>
        StepUses(lines);
        Reaches(lines[n..], dir, files, path)
      case Include(p) =>
        var target := files.resolve(dir, p);
        target == path || (Parses(target, files) && Reaches(lines[1..], dir, files, path))
      case Fail(_) => false
  }

  ghost predicate ReachesFile(from: string, to: string, files: FlowFiles) {
    from in files.texts && Reaches(LinesOf(files.texts[from]), files.dirname(from), files, to)
  }

  ghost function ReachStep(files: FlowFiles): Step {
    (from, to) => ReachesFile(from, to, files)
  }

  /** No depth is enough: the recursion of the parser never ends. */
  ghost predicate NeverEnds(path: string, files: FlowFiles) {
    forall depth: nat :: ParseFile(path, files, depth) == Err(TooDeep)
  }

  ghost predicate LinesNeverEnd(lines: seq<string>, dir: string, files: FlowFiles) {
    forall depth: nat :: ParseLines(lines, dir, files, depth) == Err(TooDeep)
  }

  /** A file that parses at some depth gives that result or an overrun at every depth. */
  lemma ParsesAt(path: string, files: FlowFiles, depth: nat)
    requires Parses(path, files)
    ensures ParseFile(path, files, depth).Ok? || ParseFile(path, files, depth) == Err(TooDeep)
  {
    hide ParseFile;
    var enough: nat :| ParseFile(path, files, enough).Ok?;
    if depth <= enough {
      if ParseFile(path, files, depth) != Err(TooDeep) {
        FileDeeper(path, files, depth, enough);
      }
    } else {
      FileDeeper(path, files, enough, depth);
    }
  }

  // ----- endless reading leads to a cycle

  lemma {:induction false} EndlessLines(lines: seq<string>, dir: string, files: FlowFiles) returns (path: string)
    requires LinesNeverEnd(lines, dir, files)
    ensures Reaches(lines, dir, files, path) && NeverEnds(path, files)
    decreases |lines|
  {
    hide StepAt, ParseFile, LinesNeverEnd, NeverEnds, Parses;
    EndlessStarts(lines, dir, files);
    match StepAt(lines) {
      case Skip =>
        EndlessRest(lines, dir, files);
        path := EndlessLines(lines[1..], dir, files);
      case Emit(_, n) =>
        StepUses(lines);
        EndlessRest(lines, dir, files);
        path := EndlessLines(lines[n..], dir, files);
      case Include(p) =>
        var target := files.resolve(dir, p);
        if NeverEnds(target, files) {
          path := target;
        } else {
          EndlessBehind(lines, dir, files);
          path := EndlessLines(lines[1..], dir, files);
        }
      case Fail(_) =>
        path := "";
    }
  }

  lemma EndlessStarts(lines: seq<string>, dir: string, files: FlowFiles)
    requires LinesNeverEnd(lines, dir, files)
    ensures lines != [] && !StepAt(lines).Fail?
  {
    hide StepAt, ParseFile;
    var once := ParseLines(lines, dir, files, 0);
    assert once == Err(TooDeep);
  }

  lemma EndlessRest(lines: seq<string>, dir: string, files: FlowFiles)
    requires LinesNeverEnd(lines, dir, files) && lines != []
    ensures StepAt(lines).Skip? ==> LinesNeverEnd(lines[1..], dir, files)
    ensures StepAt(lines).Emit? ==>
      StepAt(lines).used <= |lines| && LinesNeverEnd(lines[StepAt(lines).used..], dir, files)
  {
    hide StepAt, ParseFile;
    if StepAt(lines).Emit? { StepUses(lines); }
    forall depth: nat
      ensures StepAt(lines).Skip? ==> ParseLines(lines[1..], dir, files, depth) == Err(TooDeep)
      ensures StepAt(lines).Emit? ==> ParseLines(lines[StepAt(lines).used..], dir, files, depth) == Err(TooDeep)
    {
      assert ParseLines(lines, dir, files, depth) == Err(TooDeep);
    }
  }

  /** Where the included file comes to an end and the lines do not, the file parses and the
      lines behind it never end. */
  lemma EndlessBehind(lines: seq<string>, dir: string, files: FlowFiles)
    requires LinesNeverEnd(lines, dir, files) && lines != [] && StepAt(lines).Include?
    requires !NeverEnds(files.resolve(dir, StepAt(lines).path), files)
    ensures Parses(files.resolve(dir, StepAt(lines).path), files) && LinesNeverEnd(lines[1..], dir, files)
  {
    hide StepAt, ParseFile;
    var target := files.resolve(dir, StepAt(lines).path);
    var enough: nat :| ParseFile(target, files, enough) != Err(TooDeep);
    assert ParseLines(lines, dir, files, enough) == Err(TooDeep);
    assert ParseFile(target, files, enough).Ok?;
    forall depth: nat
      ensures ParseLines(lines[1..], dir, files, depth) == Err(TooDeep)
    {
      BehindOverruns(lines, dir, files, enough, depth);
    }
  }

  lemma BehindOverruns(lines: seq<string>, dir: string, files: FlowFiles, enough: nat, depth: nat)
    requires LinesNeverEnd(lines, dir, files) && lines != [] && StepAt(lines).Include?
    requires ParseFile(files.resolve(dir, StepAt(lines).path), files, enough).Ok?
    ensures ParseLines(lines[1..], dir, files, depth) == Err(TooDeep)
  {
    hide StepAt, ParseFile;
    var target := files.resolve(dir, StepAt(lines).path);
    var deep := if depth < enough then enough else depth;
    FileDeeper(target, files, enough, deep);
    assert ParseLines(lines, dir, files, deep) == Err(TooDeep);
    if ParseLines(lines[1..], dir, files, depth) != Err(TooDeep) {
      LinesDeeper(lines[1..], dir, files, depth, deep);
    }
  }

  lemma EndlessFile(path: string, files: FlowFiles) returns (next: string)
    requires NeverEnds(path, files)
    ensures ReachesFile(path, next, files) && NeverEnds(next, files)
  {
    hide LinesOf, ParseLines, Reaches;
    assert ParseFile(path, files, 1) == Err(TooDeep);
    var lines, dir := LinesOf(files.texts[path]), files.dirname(path);
    forall depth: nat
      ensures ParseLines(lines, dir, files, depth) == Err(TooDeep)
    {
      assert ParseFile(path, files, depth + 1) == Err(TooDeep);
    }
    next := EndlessLines(lines, dir, files);
  }

  lemma {:induction false} EndlessWalk(path: string, files: FlowFiles, n: nat) returns (w: seq<string>)
    requires NeverEnds(path, files)
    ensures Walk(w, ReachStep(files)) && |w| == n + 1 && w[0] == path
    ensures forall i :: 0 <= i < |w| ==> w[i] in files.texts
    decreases n
  {
    hide NeverEnds, Walk;
    var next := EndlessFile(path, files);
    if n == 0 {
      w := [path];
      OneStop(path, ReachStep(files));
    } else {
      var rest := EndlessWalk(next, files, n - 1);
      WalkFrom(path, rest, ReachStep(files));
      w := [path] + rest;
    }
  }

  lemma OneStop(path: string, step: Step)
    ensures Walk([path], step)
  {
  }

  // ----- a cycle makes reading endless

  lemma {:induction false} ReachedOverruns(lines: seq<string>, dir: string, files: FlowFiles, path: string, depth: nat)
    requires Reaches(lines, dir, files, path) && ParseFile(path, files, depth) == Err(TooDeep)
    ensures ParseLines(lines, dir, files, depth) == Err(TooDeep)
    decreases |lines|
  {
    hide StepAt, ParseFile, Parses;
    match StepAt(lines) {
      case Skip => ReachedOverruns(lines[1..], dir, files, path, depth);
      case Emit(_, n) =>
        StepUses(lines);
        ReachedOverruns(lines[n..], dir, files, path, depth);
      case Include(p) =>
        var target := files.resolve(dir, p);
        if target != path {
          ParsesAt(target, files, depth);
          ReachedOverruns(lines[1..], dir, files, path, depth);
        }
      case Fail(_) =>
    }
  }

  lemma {:induction false} WalkOverruns(w: seq<string>, files: FlowFiles)
    requires w != [] && Walk(w, ReachStep(files))
    ensures ParseFile(w[0], files, |w| - 1) == Err(TooDeep)
    decreases |w|
  {
    hide LinesOf, ParseLines, Reaches, Walk;
    if |w| > 1 {
      WalkTail(w, ReachStep(files));
      WalkOverruns(w[1..], files);
      ReachedOverruns(LinesOf(files.texts[w[0]]), files.dirname(w[0]), files, w[1], |w| - 2);
    }
  }

  /** Reading a file never ends exactly when, going along the includes that are reached, one
      can come back to a file.  An include is not reached behind an unsupported line, or
      behind an include that fails. */
  lemma NeverEndsIff(path: string, files: FlowFiles)
    ensures NeverEnds(path, files) <==> ReachesCycle(path, ReachStep(files))
  {
    hide ParseFile, Walk, Repeats, ReachStep;
    var step := ReachStep(files);
    if NeverEnds(path, files) {
      var w := EndlessWalk(path, files, |files.texts|);
      Pigeonhole(w, files.texts.Keys);
    }
    if ReachesCycle(path, step) {
      var w :| w != [] && Walk(w, step) && w[0] == path && Repeats(w);
      forall depth: nat
        ensures ParseFile(path, files, depth) == Err(TooDeep)
      {
        var v := Pump(w, step, depth);
        WalkOverruns(v, files);
      }
    }
  }

  // ----- the includes as they are written

  /** The files that reading these lines can ask for. */
  function Targets(lines: seq<string>, dir: string, files: FlowFiles): set<string>
    decreases |lines|
  {
    if lines == [] then {}
    else match StepAt(lines)
      case Skip => Targets(lines[1..], dir, files)
      case Emit(_, n) =>
        StepUses(lines);
        Targets(lines[n..], dir, files)
      case Include(p) => {files.resolve(dir, p)} + Targets(lines[1..], dir, files)
      case Fail(_) => {}
  }

  function FileTargets(path: string, files: FlowFiles): set<string> {
    if path in files.texts then Targets(LinesOf(files.texts[path]), files.dirname(path), files) else {}
  }

  function IncludeStep(files: FlowFiles): Step {
    (from, to) => to in FileTargets(from, files)
  }

  lemma {:induction false} OverrunTarget(lines: seq<string>, dir: string, files: FlowFiles, depth: nat)
      returns (path: string)
    requires ParseLines(lines, dir, files, depth) == Err(TooDeep)
    ensures path in Targets(lines, dir, files) && ParseFile(path, files, depth) == Err(TooDeep)
    decreases |lines|
  {
    hide StepAt, ParseFile;
    match StepAt(lines) {
      case Skip => path := OverrunTarget(lines[1..], dir, files, depth);
      case Emit(_, n) =>
        StepUses(lines);
        path := OverrunTarget(lines[n..], dir, files, depth);
      case Include(p) =>
        path := files.resolve(dir, p);
        if ParseFile(path, files, depth).Ok? {
          path := OverrunTarget(lines[1..], dir, files, depth);
        }
      case Fail(_) => path := "";
    }
  }

  /** An overrun at a depth comes from a walk of that many includes. */
  lemma {:induction false} OverrunWalk(path: string, files: FlowFiles, depth: nat) returns (w: seq<string>)
    requires ParseFile(path, files, depth) == Err(TooDeep)
    ensures Walk(w, IncludeStep(files)) && |w| == depth + 1 && w[0] == path
    ensures forall i :: 0 <= i < depth ==> w[i] in files.texts
    decreases depth
  {
    hide LinesOf, ParseLines, Targets, Walk;
    if depth == 0 {
      w := [path];
      OneStop(path, IncludeStep(files));
    } else {
      var next := OverrunTarget(LinesOf(files.texts[path]), files.dirname(path), files, depth - 1);
      var rest := OverrunWalk(next, files, depth - 1);
      WalkFrom(path, rest, IncludeStep(files));
      w := [path] + rest;
    }
  }

  /** An overrun at a depth above the number of files has gone round a cycle. */
  lemma OverrunCycle(path: string, files: FlowFiles, depth: nat)
    requires ParseFile(path, files, depth) == Err(TooDeep) && depth > |files.texts|
    ensures ReachesCycle(path, IncludeStep(files))
  {
    hide ParseFile, Walk, IncludeStep, Repeats;
    var w := OverrunWalk(path, files, depth);
    Pigeonhole(w[..depth], files.texts.Keys);
    PrefixRepeats(w, depth);
  }

  lemma PrefixRepeats(w: seq<string>, n: nat)
    requires n <= |w| && Repeats(w[..n])
    ensures Repeats(w)
  {
    var i, j :| 0 <= i < j < n && w[..n][i] == w[..n][j];
    assert w[i] == w[j];
  }

  /** Where no cycle of includes can be reached from a file, reading it ends, and every depth
      above the number of files gives one and the same result. */
  lemma AcyclicEnds(path: string, files: FlowFiles, low: nat, high: nat)
    requires !ReachesCycle(path, IncludeStep(files)) && |files.texts| < low <= high
    ensures ParseFile(path, files, low) != Err(TooDeep)
    ensures ParseFile(path, files, high) == ParseFile(path, files, low)
  {
    hide ParseFile, ReachesCycle, IncludeStep;
    if ParseFile(path, files, low) == Err(TooDeep) {
      OverrunCycle(path, files, low);
    }
    FileDeeper(path, files, low, high);
  }

  // ----- where every file is there and supported

  predicate Supported(lines: seq<string>)
    decreases |lines|
  {
    if lines == [] then true
    else match StepAt(lines)
      case Skip => Supported(lines[1..])
      case Emit(_, n) =>
        StepUses(lines);
        Supported(lines[n..])
      case Include(_) => Supported(lines[1..])
      case Fail(_) => false
  }

  predicate Fine(path: string, files: FlowFiles) {
    path in files.texts && Supported(LinesOf(files.texts[path]))
  }

  /** Every file that includes lead to is there and has no unsupported line. */
  ghost predicate AllFine(path: string, files: FlowFiles) {
    forall w :: w != [] && Walk(w, IncludeStep(files)) && w[0] == path ==> Fine(w[|w| - 1], files)
  }

  lemma FineHere(path: string, files: FlowFiles)
    requires AllFine(path, files)
    ensures Fine(path, files)
  {
    hide Fine, IncludeStep;
    OneStop(path, IncludeStep(files));
    assert [path][0] == path && [path][|[path]| - 1] == path;
  }

  lemma FineThere(path: string, next: string, files: FlowFiles)
    requires AllFine(path, files) && next in FileTargets(path, files)
    ensures AllFine(next, files)
  {
    hide Fine, Walk, FileTargets;
    forall w | w != [] && Walk(w, IncludeStep(files)) && w[0] == next
      ensures Fine(w[|w| - 1], files)
    {
      WalkFrom(path, w, IncludeStep(files));
      var v := [path] + w;
      assert v[0] == path && v[|v| - 1] == w[|w| - 1];
    }
  }

  lemma {:induction false} FineLines(lines: seq<string>, dir: string, files: FlowFiles, depth: nat)
    requires Supported(lines)
    requires forall t :: t in Targets(lines, dir, files) ==> AllFine(t, files)
    ensures ParseLines(lines, dir, files, depth).Ok? || ParseLines(lines, dir, files, depth) == Err(TooDeep)
    decreases depth, 1, |lines|
  {
    hide StepAt, AllFine, ParseFile;
    if lines != [] {
      match StepAt(lines) {
        case Skip => FineLines(lines[1..], dir, files, depth);
        case Emit(_, n) =>
          StepUses(lines);
          FineLines(lines[n..], dir, files, depth);
        case Include(p) =>
          FineFile(files.resolve(dir, p), files, depth);
          FineLines(lines[1..], dir, files, depth);
        case Fail(_) =>
      }
    }
  }

  /** Such a file parses or overruns, at every depth. */
  lemma {:induction false} FineFile(path: string, files: FlowFiles, depth: nat)
    requires AllFine(path, files)
    ensures ParseFile(path, files, depth).Ok? || ParseFile(path, files, depth) == Err(TooDeep)
    decreases depth, 0
  {
    hide AllFine, ParseLines, LinesOf, Targets, Supported;
    if depth > 0 {
      FineHere(path, files);
      forall t | t in Targets(LinesOf(files.texts[path]), files.dirname(path), files)
        ensures AllFine(t, files)
      {
        FineThere(path, t, files);
      }
      FineLines(LinesOf(files.texts[path]), files.dirname(path), files, depth - 1);
    }
  }

  lemma {:induction false} TargetOverruns(lines: seq<string>, dir: string, files: FlowFiles, path: string, depth: nat)
    requires Supported(lines) && path in Targets(lines, dir, files)
    requires forall t :: t in Targets(lines, dir, files) ==> AllFine(t, files)
    requires ParseFile(path, files, depth) == Err(TooDeep)
    ensures ParseLines(lines, dir, files, depth) == Err(TooDeep)
    decreases |lines|
  {
    hide StepAt, AllFine, ParseFile;
    match StepAt(lines) {
      case Skip => TargetOverruns(lines[1..], dir, files, path, depth);
      case Emit(_, n) =>
        StepUses(lines);
        TargetOverruns(lines[n..], dir, files, path, depth);
      case Include(p) =>
        var target := files.resolve(dir, p);
        FineFile(target, files, depth);
        if target != path {
          TargetOverruns(lines[1..], dir, files, path, depth);
        }
      case Fail(_) =>
    }
  }

  lemma {:induction false} FineWalkOverruns(w: seq<string>, files: FlowFiles)
    requires w != [] && Walk(w, IncludeStep(files)) && AllFine(w[0], files)
    ensures ParseFile(w[0], files, |w| - 1) == Err(TooDeep)
    decreases |w|
  {
    hide LinesOf, ParseLines, Targets, Walk, AllFine, Supported;
    if |w| > 1 {
      WalkTail(w, IncludeStep(files));
      FineHere(w[0], files);
      FineThere(w[0], w[1], files);
      FineWalkOverruns(w[1..], files);
      var lines, dir := LinesOf(files.texts[w[0]]), files.dirname(w[0]);
      forall t | t in Targets(lines, dir, files)
        ensures AllFine(t, files)
      {
        FineThere(w[0], t, files);
      }
      TargetOverruns(lines, dir, files, w[1], |w| - 2);
    }
  }

  /** Where every file that includes lead to is there and supported, reading never ends exactly
      when the includes lead from the file to one that leads back to itself. */
  lemma FineNeverEndsIff(path: string, files: FlowFiles)
    requires AllFine(path, files)
    ensures NeverEnds(path, files) <==> ReachesCycle(path, IncludeStep(files))
  {
    hide ParseFile, Walk, Repeats, IncludeStep, AllFine;
    var step := IncludeStep(files);
    if NeverEnds(path, files) && !ReachesCycle(path, step) {
      AcyclicEnds(path, files, |files.texts| + 1, |files.texts| + 1);
    }
    if ReachesCycle(path, step) {
      var w :| w != [] && Walk(w, step) && w[0] == path && Repeats(w);
      forall depth: nat
        ensures ParseFile(path, files, depth) == Err(TooDeep)
      {
        var v := Pump(w, step, depth);
        FineWalkOverruns(v, files);
      }
    }
  }

  // ----- a file that includes itself

  const SELF := "- runFlow: a"

  lemma SelfStep()
    ensures LinesOf(SELF) == [SELF] && StepAt([SELF]) == Include("a")
  {
    hide Trim, Unquote, SplitLines, RemoveReturns, FlowPrinter.SingleLine;
    SelfText();
    FlowPrinter.NoReturns(SELF);
    FlowPrinter.SplitJoin([SELF]);
    SelfWords();
    assert SELF[2] == 'r';
  }

  lemma SelfText()
    ensures JoinLines([SELF]) == SELF && FlowPrinter.SingleLine(SELF)
  {
  }

  lemma SelfWords()
    ensures Trim(SELF) == SELF && Trim(SELF[10..]) == "a" && Unquote("a") == "a"
  {
    hide Trim;
    TrimOfTrimmed(SELF);
    TrimUnique(" ", "a", "");
    assert SELF[10..] == " " + "a" + "";
    assert StripQuotes("a") == "a";
    assert "a"[1..] == "";
  }

  /** Reading a file that holds only an include of itself never ends. */
  lemma SelfIncludeNeverEnds(resolve: (string, string) -> string, dirname: string -> string)
    requires resolve(dirname("a"), "a") == "a"
    ensures NeverEnds("a", FlowFiles(map["a" := SELF], resolve, dirname))
  {
    hide StepAt, LinesOf, NeverEnds, ReachesCycle;
    var files := FlowFiles(map["a" := SELF], resolve, dirname);
    SelfStep();
    assert Reaches([SELF], dirname("a"), files, "a");
    var w := ["a", "a"];
    assert StepsAt(w, 0, ReachStep(files));
    SelfWalk(w, ReachStep(files));
    NeverEndsIff("a", files);
  }

  lemma SelfWalk(w: seq<string>, step: Step)
    requires w == ["a", "a"] && StepsAt(w, 0, step)
    ensures ReachesCycle("a", step)
  {
    assert w[0] == w[1];
    assert Walk(w, step) && Repeats(w);
  }
}
