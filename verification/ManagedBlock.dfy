/** Marker-delimited prompt blocks: stripping the managed block out of an agent's
    `prompt_append` text and merging a fresh block in. */
module ManagedBlock {
  import opened Prelude
  import opened Text

  datatype Agent = Atlas | Prometheus {
    function Name(): string {
      match this
      case Atlas => "atlas"
      case Prometheus => "prometheus"
    }
  }

  /** A pair of begin and end markers.  `Valid` is all that the laws need of them. */
  datatype Markers = Markers(begin: string, end: string) {
    predicate Valid() {
      && 0 < |end| < |begin|
      && '\n' !in begin && '\n' !in end
      && !IsSpace(begin[0]) && !IsSpace(begin[|begin| - 1])
      && !IsSpace(end[|end| - 1])
      && !Contains(begin, end)
    }
  }

  const MARKER_PREFIX := "[mobile-e2e-mcp managed agent prompt:"

  function MarkersOf(agent: Agent): Markers {
    Markers(MARKER_PREFIX + agent.Name() + " begin]", MARKER_PREFIX + agent.Name() + " end]")
  }

  lemma MarkersOfValid(agent: Agent)
    ensures MarkersOf(agent).Valid()
  {
    hide Markers.Valid, MARKER_PREFIX;
    var stem := MARKER_PREFIX + agent.Name();
    NameIsOneLine(agent);
    PrefixShape();
    assert stem[0] == '[' && stem[1] == 'm' && stem[2] == 'o' && |stem| > 2;
    assert '\n' !in stem;
    StemMarkersValid(stem);
  }

  lemma NameIsOneLine(agent: Agent)
    ensures '\n' !in agent.Name()
  {
  }

  lemma PrefixShape()
    ensures '\n' !in MARKER_PREFIX && |MARKER_PREFIX| > 2
    ensures MARKER_PREFIX[0] == '[' && MARKER_PREFIX[1] == 'm' && MARKER_PREFIX[2] == 'o'
  {
  }

  lemma StemMarkersValid(stem: string)
    requires |stem| > 2 && stem[0] == '[' && stem[1] == 'm' && stem[2] == 'o' && '\n' !in stem
    ensures Markers(stem + " begin]", stem + " end]").Valid()
  {
    var begin, end := stem + " begin]", stem + " end]";
    var k := |stem| + 1;
    assert begin[k] == 'b' && end[k] == 'e' && end[0] == '[' && begin[1] == 'm' && begin[2] == 'o';
    assert |begin| == |end| + 2;
    forall i: nat | i <= 2
      ensures !OccursAt(begin, end, i)
    {
      assert begin[i..i + |end|][0] == begin[i] && begin[i..i + |end|][k] == begin[i + k];
    }
    if Contains(begin, end) {
      FindOccurs(begin, end);
    }
  }

  function BuildManagedBlock(m: Markers, prompt: string): string {
    m.begin + ("\n" + prompt + "\n" + m.end)
  }

  /** The global lazy replacement: each begin marker is paired with the first end
      marker after it, the pair and all between is dropped, and the scan resumes
      behind it.  A begin marker with no end marker after it stays. */
  function RemoveBlocks(value: string, m: Markers): (result: string)
    requires m.Valid()
    ensures |result| <= |value|
    decreases |value|
  {
    match Cut(value, m.begin)
    case None => value
    case Some(head) =>
      match Cut(head.after, m.end)
      case None => value
      case Some(tail) => head.before + RemoveBlocks(tail.after, m)
  }

  function StripManagedBlock(value: string, m: Markers): string
    requires m.Valid()
  {
    Trim(RemoveBlocks(value, m))
  }

  function MergePromptAppend(existing: Option<string>, m: Markers, prompt: string): string
    requires m.Valid()
  {
    Joined(ManualText(existing, m), BuildManagedBlock(m, prompt))
  }

  /** The hand-written text that a value carries beside its managed block. */
  function ManualText(existing: Option<string>, m: Markers): string
    requires m.Valid()
  {
    StripManagedBlock(existing.GetOr(""), m)
  }

  function Joined(manual: string, managed: string): string {
    if |manual| > 0 then manual + "\n\n" + managed else managed
  }

  // ----- what the replacement does to a merged value

  /** Behind the begin marker of a block, the end marker is first met at the very end. */
  lemma EndMarkerIsLast(a: string, m: Markers, prompt: string)
    requires m.Valid() && !Contains(a, m.end) && !Contains(prompt, m.end)
    ensures Cut(a + ("\n" + prompt + "\n" + m.end), m.end) == Some(Halves(a + "\n" + prompt + "\n", ""))
  {
    AbsentAcrossNewline(a, prompt, m.end);
    CutAfterNewline(a + "\n" + prompt, m.end, "");
    assert a + "\n" + prompt + "\n" + m.end + "" == a + ("\n" + prompt + "\n" + m.end);
  }

  lemma BlockVanishes(m: Markers, prompt: string)
    requires m.Valid() && !Contains(prompt, m.end)
    ensures RemoveBlocks(BuildManagedBlock(m, prompt), m) == ""
  {
    var inside := "\n" + prompt + "\n" + m.end;
    CutAtStart(m.begin, inside);
    AbsentFromEmpty(m.end);
    EndMarkerIsLast("", m, prompt);
    assert "" + inside == inside;
    AbsentFromEmpty(m.begin);
  }

  /** Behind text without a begin marker, the replacement acts on the block alone. */
  lemma RemoveBehindManual(x: string, m: Markers, inside: string)
    requires m.Valid() && !Contains(x, m.begin)
    ensures RemoveBlocks(x + "\n" + (m.begin + inside), m) == x + "\n" + RemoveBlocks(m.begin + inside, m)
  {
    hide Find, Trim;
    CutAfterNewline(x, m.begin, inside);
    CutAtStart(m.begin, inside);
    assert x + "\n" + m.begin + inside == x + "\n" + (m.begin + inside);
    if Contains(inside, m.end) {
      var rest := RemoveBlocks(Cut(inside, m.end).value.after, m);
      assert "" + rest == rest;
    }
  }

  /** A begin marker in front of a block makes the replacement eat manual text. */
  lemma {:induction false} RemoveEatsManual(x: string, m: Markers, prompt: string)
    requires m.Valid() && Contains(x, m.begin) && !Contains(prompt, m.end)
    ensures |RemoveBlocks(x + ("\n" + BuildManagedBlock(m, prompt)), m)| <= |x| - |m.begin|
    decreases |x|
  {
    var block := "\n" + BuildManagedBlock(m, prompt);
    var head := Cut(x, m.begin).value;
    CutInPrefix(x, block, m.begin);
    if Contains(head.after, m.end) {
      var x' := Cut(head.after, m.end).value.after;
      CutInPrefix(head.after, block, m.end);
      if Contains(x', m.begin) {
        RemoveEatsManual(x', m, prompt);
      } else {
        RemoveKeepsManual(x', m, prompt);
      }
    } else {
      LastMatchReachesEnd(head.after, m, prompt);
    }
  }

  lemma RemoveKeepsManual(x: string, m: Markers, prompt: string)
    requires m.Valid() && !Contains(x, m.begin) && !Contains(prompt, m.end)
    ensures RemoveBlocks(x + ("\n" + BuildManagedBlock(m, prompt)), m) == x + "\n"
  {
    hide RemoveBlocks, Find, Contains;
    var block := BuildManagedBlock(m, prompt);
    RemoveBehindManual(x, m, "\n" + prompt + "\n" + m.end);
    BlockVanishes(m, prompt);
    assert x + ("\n" + block) == x + "\n" + block;
    assert x + "\n" + "" == x + "\n";
  }

  /** An unclosed begin marker is closed by the end marker of the block. */
  lemma LastMatchReachesEnd(rest: string, m: Markers, prompt: string)
    requires m.Valid() && !Contains(rest, m.end) && !Contains(prompt, m.end)
    ensures Contains(rest + ("\n" + BuildManagedBlock(m, prompt)), m.end)
    ensures Cut(rest + ("\n" + BuildManagedBlock(m, prompt)), m.end).value.after == ""
  {
    AbsentAcrossNewline(rest, m.begin, m.end);
    EndMarkerIsLast(rest + "\n" + m.begin, m, prompt);
    var inside := "\n" + prompt + "\n" + m.end;
    assert rest + "\n" + m.begin + inside == rest + ("\n" + (m.begin + inside));
  }

  // ----- merge laws

  /** For prompts without an end marker, stripping a merged value gives back the
      hand-written text exactly when that text carries no begin marker. */
  lemma StripUndoesMerge(existing: Option<string>, m: Markers, prompt: string)
    requires m.Valid() && !Contains(prompt, m.end)
    ensures ManualText(Some(MergePromptAppend(existing, m, prompt)), m) == ManualText(existing, m)
       <==> !Contains(ManualText(existing, m), m.begin)
  {
    ManualTextTrimmed(existing, m);
    StripUndoesJoin(ManualText(existing, m), m, prompt);
  }

  lemma ManualTextTrimmed(existing: Option<string>, m: Markers)
    requires m.Valid()
    ensures Trimmed(ManualText(existing, m))
  {
    var _, _ := TrimSpec(RemoveBlocks(existing.GetOr(""), m));
  }

  lemma StripUndoesJoin(manual: string, m: Markers, prompt: string)
    requires m.Valid() && !Contains(prompt, m.end) && Trimmed(manual)
    ensures StripManagedBlock(Joined(manual, BuildManagedBlock(m, prompt)), m) == manual
       <==> !Contains(manual, m.begin)
  {
    hide Contains, StripManagedBlock, BuildManagedBlock, Joined, Trimmed;
    if manual == "" {
      NothingIsKept(m, prompt);
      AbsentFromEmpty(m.begin);
    } else if Contains(manual, m.begin) {
      JoinedEatsManual(manual, m, prompt);
    } else {
      ManualIsKept(manual, m, prompt);
    }
  }

  lemma NothingIsKept(m: Markers, prompt: string)
    requires m.Valid() && !Contains(prompt, m.end)
    ensures StripManagedBlock(Joined("", BuildManagedBlock(m, prompt)), m) == ""
  {
    hide Contains, RemoveBlocks, BuildManagedBlock, Find;
    BlockVanishes(m, prompt);
  }

  lemma ManualIsKept(manual: string, m: Markers, prompt: string)
    requires m.Valid() && !Contains(prompt, m.end) && Trimmed(manual)
    requires manual != "" && !Contains(manual, m.begin)
    ensures StripManagedBlock(Joined(manual, BuildManagedBlock(m, prompt)), m) == manual
  {
    hide Contains, RemoveBlocks, BuildManagedBlock, Find, Trim;
    var block := BuildManagedBlock(m, prompt);
    AbsentFromEmpty(m.begin);
    AbsentAcrossNewline(manual, "", m.begin);
    assert manual + "\n" + "" == manual + "\n";
    RemoveKeepsManual(manual + "\n", m, prompt);
    assert (manual + "\n") + ("\n" + block) == manual + "\n\n" + block;
    TrimUnique("", manual, "\n\n");
    assert "" + manual + "\n\n" == manual + "\n" + "\n";
  }

  lemma JoinedEatsManual(manual: string, m: Markers, prompt: string)
    requires m.Valid() && !Contains(prompt, m.end) && Contains(manual, m.begin)
    ensures |StripManagedBlock(Joined(manual, BuildManagedBlock(m, prompt)), m)| < |manual|
  {
    var block := BuildManagedBlock(m, prompt);
    FindInPrefix(manual, "\n", m.begin);
    RemoveEatsManual(manual + "\n", m, prompt);
    assert (manual + "\n") + ("\n" + block) == manual + "\n\n" + block;
    TrimNoLonger(RemoveBlocks(Joined(manual, block), m));
  }

  lemma TrimNoLonger(s: string)
    ensures |Trim(s)| <= |s|
  {
    var _, _ := TrimSpec(s);
  }

  /** For hand-written text without a begin marker, the law holds for exactly the
      prompts whose own block is stripped to nothing. */
  lemma StripUndoesMergeForAnyPrompt(existing: Option<string>, m: Markers, prompt: string)
    requires m.Valid() && !Contains(ManualText(existing, m), m.begin)
    ensures ManualText(Some(MergePromptAppend(existing, m, prompt)), m) == ManualText(existing, m)
       <==> StripManagedBlock(BuildManagedBlock(m, prompt), m) == ""
  {
    ManualTextTrimmed(existing, m);
    StripBehindManual(ManualText(existing, m), m, "\n" + prompt + "\n" + m.end);
  }

  lemma StripBehindManual(manual: string, m: Markers, inside: string)
    requires m.Valid() && Trimmed(manual) && !Contains(manual, m.begin)
    ensures StripManagedBlock(Joined(manual, m.begin + inside), m) == manual
       <==> StripManagedBlock(m.begin + inside, m) == ""
  {
    if manual != "" {
      RemoveBehindJoin(manual, m, inside);
      TrimBehind(manual, "\n\n", RemoveBlocks(m.begin + inside, m));
    }
  }

  lemma RemoveBehindJoin(manual: string, m: Markers, inside: string)
    requires m.Valid() && manual != "" && !Contains(manual, m.begin)
    ensures RemoveBlocks(Joined(manual, m.begin + inside), m) == manual + "\n\n" + RemoveBlocks(m.begin + inside, m)
  {
    var block, x := m.begin + inside, manual + "\n";
    AbsentFromEmpty(m.begin);
    AbsentAcrossNewline(manual, "", m.begin);
    assert x + "" == x;
    RemoveBehindManual(x, m, inside);
    assert x + "\n" == manual + "\n\n";
  }

  /** Trimmed text, blank separator, residue: the trimmed whole is the text iff the residue is blank. */
  lemma TrimBehind(text: string, sep: string, residue: string)
    requires text != "" && Trimmed(text) && Blank(sep)
    ensures Trim(text + sep + residue) == text <==> Trim(residue) == ""
  {
    var a, b := TrimSpec(residue);
    var core := Trim(residue);
    if core == "" {
      assert Blank(sep + residue);
      TrimUnique("", text, sep + residue);
      assert "" + text + (sep + residue) == text + sep + residue;
    } else {
      var whole := text + sep + a + core;
      TrimUnique("", whole, b);
      assert "" + whole + b == text + sep + residue;
    }
  }

  /** Merging is determined by the hand-written text. */
  lemma MergeInjective(v: Option<string>, w: Option<string>, m: Markers, prompt: string)
    requires m.Valid()
    ensures MergePromptAppend(v, m, prompt) == MergePromptAppend(w, m, prompt)
       <==> ManualText(v, m) == ManualText(w, m)
  {
    JoinedInjective(ManualText(v, m), ManualText(w, m), BuildManagedBlock(m, prompt));
  }

  lemma JoinedInjective(s: string, t: string, managed: string)
    ensures Joined(s, managed) == Joined(t, managed) <==> s == t
  {
    if Joined(s, managed) == Joined(t, managed) {
      assert |s| == |t|;
      if s != "" {
        assert s == Joined(s, managed)[..|s|] == Joined(t, managed)[..|t|] == t;
      }
    }
  }

  /** Merging p and then q is merging q alone, exactly when the hand-written text
      has no begin marker; with p = q this is idempotence. */
  lemma MergeReplaces(existing: Option<string>, m: Markers, p: string, q: string)
    requires m.Valid() && !Contains(p, m.end)
    ensures MergePromptAppend(Some(MergePromptAppend(existing, m, p)), m, q)
              == MergePromptAppend(existing, m, q)
       <==> !Contains(ManualText(existing, m), m.begin)
  {
    StripUndoesMerge(existing, m, p);
    MergeInjective(Some(MergePromptAppend(existing, m, p)), existing, m, q);
  }

  /** Every merge of a list of prompts, one after the other. */
  function MergeAll(existing: Option<string>, m: Markers, prompts: seq<string>): Option<string>
    requires m.Valid()
    decreases |prompts|
  {
    if prompts == [] then existing
    else MergeAll(Some(MergePromptAppend(existing, m, prompts[0])), m, prompts[1..])
  }

  /** Over any run of merges only the last prompt is left, and the hand-written text survives. */
  lemma MergeRun(existing: Option<string>, m: Markers, prompts: seq<string>)
    requires m.Valid() && !Contains(ManualText(existing, m), m.begin)
    requires prompts != [] && forall i :: 0 <= i < |prompts| ==> !Contains(prompts[i], m.end)
    ensures MergeAll(existing, m, prompts) == Some(MergePromptAppend(existing, m, prompts[|prompts| - 1]))
    ensures ManualText(MergeAll(existing, m, prompts), m) == ManualText(existing, m)
  {
    MergeRunEndsWithLast(existing, m, prompts);
    StripUndoesMerge(existing, m, prompts[|prompts| - 1]);
  }

  lemma {:induction false} MergeRunEndsWithLast(existing: Option<string>, m: Markers, prompts: seq<string>)
    requires m.Valid() && !Contains(ManualText(existing, m), m.begin)
    requires prompts != [] && forall i :: 0 <= i < |prompts| ==> !Contains(prompts[i], m.end)
    ensures MergeAll(existing, m, prompts) == Some(MergePromptAppend(existing, m, prompts[|prompts| - 1]))
    decreases |prompts|
  {
    var p, rest, last := prompts[0], prompts[1..], prompts[|prompts| - 1];
    var merged := Some(MergePromptAppend(existing, m, p));
    assert MergeAll(existing, m, prompts) == MergeAll(merged, m, rest);
    if rest == [] {
    } else {
      assert rest[|rest| - 1] == last;
      assert !Contains(p, m.end);
      StripUndoesMerge(existing, m, p);
      MergeRunEndsWithLast(merged, m, rest);
      MergeInjective(merged, existing, m, last);
    }
  }

  /** A lone begin marker in hand-written text: merging a second time destroys it. */
  lemma LoneBeginMarkerIsEaten(m: Markers, prompt: string)
    requires m.Valid() && !Contains(prompt, m.end)
    ensures ManualText(Some(m.begin), m) == m.begin
    ensures var once := MergePromptAppend(Some(m.begin), m, prompt);
            MergePromptAppend(Some(once), m, prompt) != once
  {
    CutAtStart(m.begin, "");
    assert m.begin + "" == m.begin;
    AbsentFromEmpty(m.end);
    TrimOfTrimmed(m.begin);
    MergeReplaces(Some(m.begin), m, prompt, prompt);
  }

  // ----- the merged text, written out

  /** A merged value is the hand-written text, an empty line if there is any, and the prompt
      on lines of its own between the two markers. */
  lemma MergeWritten(existing: Option<string>, m: Markers, prompt: string)
    requires m.Valid()
    ensures MergePromptAppend(existing, m, prompt)
         == (if ManualText(existing, m) == "" then "" else ManualText(existing, m) + "\n\n")
            + m.begin + "\n" + prompt + "\n" + m.end
  {
    hide StripManagedBlock;
    var manual := ManualText(existing, m);
    WrittenApart(if manual == "" then "" else manual + "\n\n", m.begin, prompt, m.end);
  }

  lemma WrittenApart(front: string, begin: string, prompt: string, end: string)
    ensures front + (begin + ("\n" + prompt + "\n" + end)) == front + begin + "\n" + prompt + "\n" + end
  {
  }

  /** Different prompts never give the same merged text. */
  lemma MergeTellsPrompts(existing: Option<string>, m: Markers, p: string, q: string)
    requires m.Valid()
    ensures MergePromptAppend(existing, m, p) == MergePromptAppend(existing, m, q) <==> p == q
  {
    hide StripManagedBlock, MergePromptAppend;
    MergeWritten(existing, m, p);
    MergeWritten(existing, m, q);
    var front := (if ManualText(existing, m) == "" then "" else ManualText(existing, m) + "\n\n") + m.begin + "\n";
    if MergePromptAppend(existing, m, p) == MergePromptAppend(existing, m, q) {
      EndApart(front + p, m.end);
      EndApart(front + q, m.end);
      MiddleAgrees(front, p, q, "\n" + m.end);
    }
  }

  lemma EndApart(front: string, end: string)
    ensures front + ("\n" + end) == front + "\n" + end
  {
  }

  lemma MiddleAgrees(front: string, p: string, q: string, end: string)
    requires front + p + end == front + q + end
    ensures p == q
  {
    assert |p| == |q|;
    assert p == (front + p + end)[|front|..|front| + |p|];
    assert q == (front + q + end)[|front|..|front| + |q|];
  }

  lemma MarkersWritten()
    ensures MarkersOf(Atlas).begin == "[mobile-e2e-mcp managed agent prompt:atlas begin]"
    ensures MarkersOf(Atlas).end == "[mobile-e2e-mcp managed agent prompt:atlas end]"
    ensures MarkersOf(Prometheus).begin == "[mobile-e2e-mcp managed agent prompt:prometheus begin]"
    ensures MarkersOf(Prometheus).end == "[mobile-e2e-mcp managed agent prompt:prometheus end]"
  {
  }

  // ----- every block of an agent is managed

  /** Hand-written texts, each with a block behind it on lines of its own, and a last text. */
  function WithBlocks(parts: seq<(string, string)>, m: Markers, last: string): string {
    if parts == [] then last
    else parts[0].0 + "\n" + m.begin + "\n" + parts[0].1 + "\n" + m.end + WithBlocks(parts[1..], m, last)
  }

  function WithoutBlocks(parts: seq<(string, string)>, last: string): string {
    if parts == [] then last else parts[0].0 + "\n" + WithoutBlocks(parts[1..], last)
  }

  /** However many blocks there are, all of them are removed and every text between them stays. */
  lemma {:induction false} AllBlocksVanish(parts: seq<(string, string)>, m: Markers, last: string)
    requires m.Valid() && !Contains(last, m.begin)
    requires forall k :: 0 <= k < |parts| ==> !Contains(parts[k].0, m.begin) && !Contains(parts[k].1, m.end)
    ensures RemoveBlocks(WithBlocks(parts, m, last), m) == WithoutBlocks(parts, last)
    decreases |parts|
  {
    hide Contains, Markers.Valid;
    if parts == [] {
    } else {
      var (text, prompt) := parts[0];
      assert text == parts[0].0 && prompt == parts[0].1;
      AllBlocksVanish(parts[1..], m, last);
      FirstBlockVanishes(text, prompt, m, WithBlocks(parts[1..], m, last));
    }
  }

  lemma FirstBlockVanishes(text: string, prompt: string, m: Markers, rest: string)
    requires m.Valid() && !Contains(text, m.begin) && !Contains(prompt, m.end)
    ensures RemoveBlocks(text + "\n" + m.begin + "\n" + prompt + "\n" + m.end + rest, m)
         == text + "\n" + RemoveBlocks(rest, m)
  {
    hide Contains, Find;
    var inside := "\n" + prompt + "\n" + m.end + rest;
    CutAfterNewline(text, m.begin, inside);
    BlockApart(text, prompt, m.begin, m.end, rest);
    AbsentFromEmpty(m.end);
    AbsentAcrossNewline("", prompt, m.end);
    assert "" + "\n" + prompt == "\n" + prompt;
    CutAfterNewline("\n" + prompt, m.end, rest);
  }

  lemma BlockApart(text: string, prompt: string, begin: string, end: string, rest: string)
    ensures text + "\n" + begin + ("\n" + prompt + "\n" + end + rest)
         == text + "\n" + begin + "\n" + prompt + "\n" + end + rest
  {
  }
}
