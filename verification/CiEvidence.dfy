/** CI and pull-request evidence from any sources. */
module CiEvidence {
  import opened Prelude
  import opened Text
  import OneCommand
  import Candidate = RepoAppCandidate
  import Names

  type Blocker = Names.Blocker

  datatype Source = Source(
    kind: string,
    path: string,
    verdict: string,
    proofLevel: string,
    promoted: bool,
    blockers: seq<Blocker>,
    nextAction: OneCommand.Action)

  datatype ReviewStatus = Passed | Blocked | Failed | NeedsReview {
    function Name(): string {
      match this
      case Passed => "passed"
      case Blocked => "blocked"
      case Failed => "failed"
      case NeedsReview => "needs_review"
    }
  }

  datatype Conclusion = Success | Neutral | Failure {
    function Name(): string {
      match this
      case Success => "success"
      case Neutral => "neutral"
      case Failure => "failure"
    }
  }

  datatype Evidence = Evidence(
    runId: string,
    status: ReviewStatus,
    proofLevel: string,
    sources: seq<Source>,
    blockers: seq<Blocker>,
    conclusion: Conclusion,
    nextAction: OneCommand.Action,
    boundaries: seq<string>,
    prSummary: string)

  // ----- choices

  predicate SaysBlocked(s: Source) {
    s.proofLevel == Names.BLOCKED_BEFORE_LIVE || Contains(s.verdict, "blocked")
  }

  predicate SaysFailed(s: Source) {
    Contains(s.verdict, "failed")
  }

  predicate SaysLiveFailure(s: Source) {
    s.proofLevel == Names.LIVE_FAILURE || SaysFailed(s)
  }

  predicate Rejected(s: Source) {
    SaysFailed(s) || s.verdict == Names.INTAKE_REJECTED
  }

  predicate AnyBlocked(sources: seq<Source>) {
    exists i :: 0 <= i < |sources| && SaysBlocked(sources[i])
  }

  predicate AnyLiveFailure(sources: seq<Source>) {
    exists i :: 0 <= i < |sources| && SaysLiveFailure(sources[i])
  }

  predicate AnyRejected(sources: seq<Source>) {
    exists i :: 0 <= i < |sources| && Rejected(sources[i])
  }

  predicate AnyControlled(sources: seq<Source>) {
    exists i :: 0 <= i < |sources| && sources[i].proofLevel == Names.CONTROLLED_LEVEL
  }

  predicate AllPromoted(sources: seq<Source>) {
    forall i :: 0 <= i < |sources| ==> sources[i].promoted
  }

  predicate AllPhysical(sources: seq<Source>) {
    forall i :: 0 <= i < |sources| ==> sources[i].proofLevel == Names.PHYSICAL_CANDIDATE && sources[i].promoted
  }

  function ChooseProofLevel(sources: seq<Source>): string
    requires |sources| > 0
  {
    if AnyBlocked(sources) then Names.BLOCKED_BEFORE_LIVE
    else if AnyLiveFailure(sources) then Names.LIVE_FAILURE
    else if AllPhysical(sources) then Names.PHYSICAL_CANDIDATE
    else if AnyControlled(sources) then Names.CONTROLLED_LEVEL
    else sources[0].proofLevel
  }

  function AllBlockers(sources: seq<Source>): seq<Blocker> {
    if sources == [] then [] else sources[0].blockers + AllBlockers(sources[1..])
  }

  function ChooseStatus(sources: seq<Source>, blockers: seq<Blocker>, proofLevel: string): ReviewStatus {
    if blockers != [] || proofLevel == Names.BLOCKED_BEFORE_LIVE then Blocked
    else if AnyRejected(sources) then Failed
    else if proofLevel == Names.PHYSICAL_CANDIDATE && AllPromoted(sources) then Passed
    else NeedsReview
  }

  function ConclusionFor(status: ReviewStatus): Conclusion {
    match status
    case Passed => Success
    case Failed => Failure
    case _ => Neutral
  }

  function ChooseNextAction(sources: seq<Source>, status: ReviewStatus): OneCommand.Action
    requires |sources| > 0
  {
    if status.Passed? then
      OneCommand.Action("attach_mobile_change_ci_evidence", "pnpm run validate:mobile-change-ci-pr-evidence",
                        "Attach the generated CI/PR evidence artifact to review.")
    else sources[0].nextAction
  }

  // ----- the summary text

  function BlockerLines(blockers: seq<Blocker>): seq<string> {
    if blockers == [] then ["- none"]
    else seq(|blockers|, i requires 0 <= i < |blockers| => "- " + blockers[i].reasonCode + ": " + blockers[i].detail)
  }

  function SourceLines(sources: seq<Source>): seq<string> {
    seq(|sources|, i requires 0 <= i < |sources| =>
      "- " + sources[i].kind + ": verdict `" + sources[i].verdict + "`, proof `" + sources[i].proofLevel
      + "`, source `" + sources[i].path + "`")
  }

  function BoundaryLines(boundaries: seq<string>): seq<string> {
    seq(|boundaries|, i requires 0 <= i < |boundaries| => "- " + boundaries[i])
  }

  function LevelLine(e: Evidence): string {
    "Proof level: `" + e.proofLevel + "`"
  }

  function HeadLines(e: Evidence): seq<string> {
    ["## Mobile Change CI Evidence", "", "Review status: `" + e.status.Name() + "`",
     "CI conclusion: `" + e.conclusion.Name() + "`"]
  }

  function TailLines(e: Evidence): seq<string> {
    ["Run ID: `" + e.runId + "`", "", "Sources:"]
    + SourceLines(e.sources)
    + ["", "Blockers:"]
    + BlockerLines(e.blockers)
    + ["", "Next action:", "- `" + e.nextAction.kind + "`: " + e.nextAction.reason,
       "- Command: `" + e.nextAction.command + "`", "", "Boundaries:"]
    + BoundaryLines(e.boundaries)
    + [""]
  }

  /** The pull-request summary of evidence whose own summary is not looked at. */
  function RenderSummary(e: Evidence): string {
    JoinLines(HeadLines(e) + [LevelLine(e)] + TailLines(e))
  }

  function Boundaries(): seq<string> {
    ["This artifact is designed for CI upload and PR review; it does not execute a device by itself.",
     "Blocked and no-device outputs use neutral CI conclusions and must not be treated as successful app verification.",
     "A success CI conclusion requires an intake-backed physical/emulator proof candidate with no blockers."]
  }

  function WithoutSummary(runId: string, sources: seq<Source>): Evidence
    requires |sources| > 0
  {
    var blockers := AllBlockers(sources);
    var level := ChooseProofLevel(sources);
    var status := ChooseStatus(sources, blockers, level);
    Evidence(runId, status, level, sources, blockers, ConclusionFor(status), ChooseNextAction(sources, status),
             Boundaries(), "")
  }

  function EvidenceOf(runId: string, sources: seq<Source>): Evidence
    requires |sources| > 0
  {
    var e := WithoutSummary(runId, sources);
    e.(prSummary := RenderSummary(e))
  }

  /** The evidence; without a source there is none. */
  function BuildEvidence(runId: string, sources: seq<Source>): Option<Evidence> {
    if sources == [] then None else Some(EvidenceOf(runId, sources))
  }

  // ----- validation

  /** The assertions of the validator. */
  predicate Valid(e: Evidence) {
    && e.sources != []
    && Contains(e.prSummary, e.proofLevel)
    && ((e.proofLevel == Names.BLOCKED_BEFORE_LIVE || AnyBlocked(e.sources))
        ==> !e.conclusion.Success? && e.status.Blocked?)
    && (e.conclusion.Success? || e.status.Passed?
        ==> e.status.Passed? && e.proofLevel == Names.PHYSICAL_CANDIDATE && e.blockers == [] && AllPromoted(e.sources))
    && (e.status.Failed? ==> e.conclusion.Failure?)
  }

  lemma {:induction false} JoinContains(front: seq<string>, line: string, tail: seq<string>, p: string)
    requires exists a, b :: line == a + p + b
    ensures exists a, b :: JoinLines(front + [line] + tail) == a + p + b
  {
    var a, b :| line == a + p + b;
    var lines := front + [line] + tail;
    if front == [] {
      assert lines[0] == line && lines[1..] == tail;
      if tail != [] {
        JoinBehind(line, tail);
        InsideBehind(a, p, b, "\n" + JoinLines(tail));
      }
    } else {
      var rest := front[1..] + [line] + tail;
      JoinContains(front[1..], line, tail, p);
      var c, d :| JoinLines(rest) == c + p + d;
      assert lines == [front[0]] + rest;
      JoinBehind(front[0], rest);
      InsideFront(front[0] + "\n", c, p, d);
    }
  }

  lemma JoinBehind(line: string, rest: seq<string>)
    requires rest != []
    ensures JoinLines([line] + rest) == line + "\n" + JoinLines(rest)
  {
    assert ([line] + rest)[1..] == rest;
  }

  lemma InsideBehind(a: string, p: string, b: string, c: string)
    ensures a + p + b + c == a + p + (b + c)
  {
  }

  lemma InsideFront(f: string, c: string, p: string, d: string)
    ensures f + (c + p + d) == (f + c) + p + d
  {
  }

  /** The summary of any evidence contains its proof level. */
  lemma SummaryHasLevel(e: Evidence)
    ensures Contains(RenderSummary(e), e.proofLevel)
  {
    hide JoinLines, HeadLines, TailLines, Contains;
    assert LevelLine(e) == "Proof level: `" + e.proofLevel + "`";
    JoinContains(HeadLines(e), LevelLine(e), TailLines(e), e.proofLevel);
    var a, b :| RenderSummary(e) == a + e.proofLevel + b;
    ContainsInside(a, e.proofLevel, b);
  }

  /** Every line of a joined text stands in it. */
  lemma LineOccurs(lines: seq<string>, k: nat)
    requires k < |lines|
    ensures Occurs(JoinLines(lines), lines[k])
  {
    hide JoinLines;
    var line := lines[k];
    assert line == "" + line + "";
    CutAround(lines, k);
    JoinContains(lines[..k], line, lines[k + 1..], line);
  }

  lemma CutAround(lines: seq<string>, k: nat)
    requires k < |lines|
    ensures lines[..k] + [lines[k]] + lines[k + 1..] == lines
  {
  }

  function ConclusionLine(c: Conclusion): string {
    match c
    case Success => "CI conclusion: `success`"
    case Neutral => "CI conclusion: `neutral`"
    case Failure => "CI conclusion: `failure`"
  }

  /** The lines that a reader of the summary looks for. */
  ghost predicate SummaryShows(e: Evidence, text: string) {
    && Occurs(text, ConclusionLine(e.conclusion)) && Occurs(text, "Run ID: `" + e.runId + "`")
    && Occurs(text, "Proof level: `" + e.proofLevel + "`")
    && (forall i :: 0 <= i < |e.sources| ==> Occurs(text, SourceLine(e.sources[i])))
    && (forall i :: 0 <= i < |e.blockers| ==>
          Occurs(text, "- " + e.blockers[i].reasonCode + ": " + e.blockers[i].detail))
    && (e.blockers == [] ==> Occurs(text, "- none"))
  }

  function SourceLine(s: Source): string {
    "- " + s.kind + ": verdict `" + s.verdict + "`, proof `" + s.proofLevel + "`, source `" + s.path + "`"
  }

  lemma PartOccurs(front: seq<string>, part: seq<string>, tail: seq<string>, i: nat)
    requires i < |part|
    ensures Occurs(JoinLines(front + part + tail), part[i])
  {
    hide JoinLines, Occurs;
    var all := front + part + tail;
    assert all[|front| + i] == part[i];
    LineOccurs(all, |front| + i);
  }

  lemma ConclusionLineIs(e: Evidence)
    ensures |HeadLines(e)| == 4 && HeadLines(e)[3] == ConclusionLine(e.conclusion)
  {
    hide ReviewStatus.Name;
    match e.conclusion {
      case Success => assert "CI conclusion: `" + "success" + "`" == "CI conclusion: `success`";
      case Neutral => assert "CI conclusion: `" + "neutral" + "`" == "CI conclusion: `neutral`";
      case Failure => assert "CI conclusion: `" + "failure" + "`" == "CI conclusion: `failure`";
    }
  }

  /** The tail of the summary, by its parts. */
  lemma TailParts(e: Evidence) returns (behind: seq<string>, last: seq<string>)
    ensures TailLines(e) == ["Run ID: `" + e.runId + "`", "", "Sources:"] + SourceLines(e.sources) + behind
    ensures behind == ["", "Blockers:"] + BlockerLines(e.blockers) + last
  {
    hide SourceLines, BlockerLines, BoundaryLines;
    last := ["", "Next action:", "- `" + e.nextAction.kind + "`: " + e.nextAction.reason,
             "- Command: `" + e.nextAction.command + "`", "", "Boundaries:"] + BoundaryLines(e.boundaries) + [""];
    behind := ["", "Blockers:"] + BlockerLines(e.blockers) + last;
  }

  /** The summary of any evidence shows its conclusion, level, run, sources and blockers. */
  lemma SummaryWritten(e: Evidence)
    ensures SummaryShows(e, RenderSummary(e))
  {
    hide JoinLines, HeadLines, TailLines, Occurs, SourceLines, BlockerLines, ConclusionLine;
    var head, level, tail := HeadLines(e), [LevelLine(e)], TailLines(e);
    ConclusionLineIs(e);
    var behind, last := TailParts(e);
    var start := ["Run ID: `" + e.runId + "`", "", "Sources:"];
    var lines := head + level + tail;
    PartOccurs([], head, level + tail, 3);
    assert [] + head + (level + tail) == lines;
    PartOccurs(head, level, tail, 0);
    PartOccurs(head + level, start, SourceLines(e.sources) + behind, 0);
    assert head + level + start + (SourceLines(e.sources) + behind) == lines;
    SourcesOccur(e, head + level + start, behind);
    assert head + level + start + SourceLines(e.sources) + behind == lines;
    var front := head + level + start + SourceLines(e.sources) + ["", "Blockers:"];
    BlockersOccur(e, front, last);
    assert front + BlockerLines(e.blockers) + last == lines;
  }

  lemma SourcesOccur(e: Evidence, front: seq<string>, behind: seq<string>)
    ensures forall i :: 0 <= i < |e.sources| ==>
      Occurs(JoinLines(front + SourceLines(e.sources) + behind), SourceLine(e.sources[i]))
  {
    hide JoinLines, Occurs;
    forall i | 0 <= i < |e.sources|
      ensures Occurs(JoinLines(front + SourceLines(e.sources) + behind), SourceLine(e.sources[i]))
    {
      assert SourceLines(e.sources)[i] == SourceLine(e.sources[i]);
      PartOccurs(front, SourceLines(e.sources), behind, i);
    }
  }

  lemma BlockersOccur(e: Evidence, front: seq<string>, behind: seq<string>)
    ensures forall i :: 0 <= i < |e.blockers| ==>
      Occurs(JoinLines(front + BlockerLines(e.blockers) + behind),
             "- " + e.blockers[i].reasonCode + ": " + e.blockers[i].detail)
    ensures e.blockers == [] ==> Occurs(JoinLines(front + BlockerLines(e.blockers) + behind), "- none")
  {
    hide JoinLines, Occurs;
    if e.blockers == [] {
      PartOccurs(front, BlockerLines(e.blockers), behind, 0);
    }
    forall i | 0 <= i < |e.blockers|
      ensures Occurs(JoinLines(front + BlockerLines(e.blockers) + behind),
                     "- " + e.blockers[i].reasonCode + ": " + e.blockers[i].detail)
    {
      assert BlockerLines(e.blockers)[i] == "- " + e.blockers[i].reasonCode + ": " + e.blockers[i].detail;
      PartOccurs(front, BlockerLines(e.blockers), behind, i);
    }
  }

  /** There is evidence for any sources but none, and it passes the validator. */
  lemma BuiltIsValid(runId: string, sources: seq<Source>)
    ensures
      match BuildEvidence(runId, sources)
      case None => sources == []
      case Some(e) => Valid(e)
  {
    hide EvidenceOf, Valid;
    if sources != [] {
      EvidenceIsValid(runId, sources);
    }
  }

  lemma EvidenceIsValid(runId: string, sources: seq<Source>)
    requires |sources| > 0
    ensures Valid(EvidenceOf(runId, sources))
  {
    hide RenderSummary, AnyBlocked, AnyLiveFailure, AnyRejected, AnyControlled, AllPromoted, AllPhysical;
    hide Contains, Boundaries;
    hide AllBlockers, ChooseNextAction, Names.BLOCKED_BEFORE_LIVE, Names.PHYSICAL_CANDIDATE, Names.LIVE_FAILURE;
    hide Names.CONTROLLED_LEVEL;
    var e := WithoutSummary(runId, sources);
    SummaryHasLevel(e);
    Names.LevelsDiffer();
    SummaryIgnored(e, RenderSummary(e));
  }

  lemma SummaryIgnored(e: Evidence, text: string)
    ensures e.(prSummary := text).proofLevel == e.proofLevel
  {
  }

  // ----- level, status and conclusion, written out

  ghost predicate MeansBlocked(s: Source) {
    s.proofLevel == "blocked_before_live" || Occurs(s.verdict, "blocked")
  }

  ghost predicate MeansFailed(s: Source) {
    Occurs(s.verdict, "failed")
  }

  ghost predicate MeansRejected(s: Source) {
    MeansFailed(s) || s.verdict == "intake_rejected"
  }

  ghost predicate SomeBlocked(sources: seq<Source>) {
    exists i :: 0 <= i < |sources| && MeansBlocked(sources[i])
  }

  ghost predicate SomeLiveFailure(sources: seq<Source>) {
    exists i :: 0 <= i < |sources| && (sources[i].proofLevel == "live_failure" || MeansFailed(sources[i]))
  }

  ghost predicate SomeRejected(sources: seq<Source>) {
    exists i :: 0 <= i < |sources| && MeansRejected(sources[i])
  }

  predicate SomeControlled(sources: seq<Source>) {
    exists i :: 0 <= i < |sources| && sources[i].proofLevel == "no_device_or_controlled_output"
  }

  predicate EachPhysical(sources: seq<Source>) {
    forall i :: 0 <= i < |sources| ==> sources[i].promoted && sources[i].proofLevel == "physical_or_emulator_candidate"
  }

  predicate SomeBlocker(sources: seq<Source>) {
    exists i :: 0 <= i < |sources| && sources[i].blockers != []
  }

  ghost predicate LevelWritten(sources: seq<Source>, level: string)
    requires |sources| > 0
  {
    level ==
      if SomeBlocked(sources) then "blocked_before_live"
      else if SomeLiveFailure(sources) then "live_failure"
      else if EachPhysical(sources) then "physical_or_emulator_candidate"
      else if SomeControlled(sources) then "no_device_or_controlled_output"
      else sources[0].proofLevel
  }

  ghost predicate StatusWritten(sources: seq<Source>, level: string, status: ReviewStatus) {
    status ==
      if SomeBlocker(sources) || SomeBlocked(sources) then Blocked
      else if SomeRejected(sources) then Failed
      else if level == "physical_or_emulator_candidate" && forall i :: 0 <= i < |sources| ==> sources[i].promoted
      then Passed
      else NeedsReview
  }

  ghost predicate EvidenceTells(runId: string, sources: seq<Source>, e: Evidence)
    requires |sources| > 0
  {
    && e.runId == runId && e.sources == sources
    && LevelWritten(sources, e.proofLevel) && StatusWritten(sources, e.proofLevel, e.status)
    && (e.conclusion.Success? <==> e.status.Passed?) && (e.conclusion.Failure? <==> e.status.Failed?)
    && (if e.status.Passed? then e.nextAction.kind == "attach_mobile_change_ci_evidence"
        else e.nextAction == sources[0].nextAction)
  }

  lemma SourceMeans(s: Source)
    ensures SaysBlocked(s) <==> MeansBlocked(s)
    ensures SaysLiveFailure(s) <==> s.proofLevel == "live_failure" || MeansFailed(s)
    ensures Rejected(s) <==> MeansRejected(s)
  {
    hide Contains, Occurs;
    ContainsIff(s.verdict, "blocked");
    ContainsIff(s.verdict, "failed");
  }

  lemma SourcesMean(sources: seq<Source>)
    ensures AnyBlocked(sources) <==> SomeBlocked(sources)
    ensures AnyLiveFailure(sources) <==> SomeLiveFailure(sources)
    ensures AnyRejected(sources) <==> SomeRejected(sources)
  {
    hide SaysBlocked, SaysLiveFailure, Rejected, MeansBlocked, MeansFailed, MeansRejected;
    forall i | 0 <= i < |sources|
      ensures SaysBlocked(sources[i]) <==> MeansBlocked(sources[i])
      ensures SaysLiveFailure(sources[i]) <==> sources[i].proofLevel == "live_failure" || MeansFailed(sources[i])
      ensures Rejected(sources[i]) <==> MeansRejected(sources[i])
    {
      SourceMeans(sources[i]);
    }
  }

  lemma LevelsMean(sources: seq<Source>)
    ensures AllPhysical(sources) <==> EachPhysical(sources)
    ensures AnyControlled(sources) <==> SomeControlled(sources)
  {
  }

  lemma LevelNames()
    ensures Names.BLOCKED_BEFORE_LIVE == "blocked_before_live" && Names.LIVE_FAILURE == "live_failure"
    ensures Names.PHYSICAL_CANDIDATE == "physical_or_emulator_candidate"
    ensures Names.CONTROLLED_LEVEL == "no_device_or_controlled_output"
  {
  }

  lemma LevelIs(sources: seq<Source>)
    requires |sources| > 0
    ensures LevelWritten(sources, ChooseProofLevel(sources))
    ensures ChooseProofLevel(sources) == Names.BLOCKED_BEFORE_LIVE ==> SomeBlocked(sources)
    ensures SomeBlocked(sources) ==> ChooseProofLevel(sources) == Names.BLOCKED_BEFORE_LIVE
  {
    hide AnyBlocked, AnyLiveFailure, AllPhysical, AnyControlled, EachPhysical, SomeControlled, SomeLiveFailure;
    hide Names.BLOCKED_BEFORE_LIVE, Names.LIVE_FAILURE, Names.PHYSICAL_CANDIDATE, Names.CONTROLLED_LEVEL;
    hide SomeBlocked;
    SourcesMean(sources);
    LevelsMean(sources);
    LevelNames();
    Names.LevelsDiffer();
    LaterLevels(sources);
  }

  lemma LaterLevels(sources: seq<Source>)
    requires |sources| > 0
    ensures sources[0].proofLevel == Names.BLOCKED_BEFORE_LIVE ==> SomeBlocked(sources)
    ensures Names.LIVE_FAILURE != Names.BLOCKED_BEFORE_LIVE && Names.CONTROLLED_LEVEL != Names.BLOCKED_BEFORE_LIVE
  {
    hide Occurs;
    assert Names.LIVE_FAILURE[0] == 'l' && Names.CONTROLLED_LEVEL[0] == 'n' && Names.BLOCKED_BEFORE_LIVE[0] == 'b';
    assert sources[0].proofLevel == Names.BLOCKED_BEFORE_LIVE ==> MeansBlocked(sources[0]);
  }

  lemma BlockersMean(sources: seq<Source>)
    ensures AllBlockers(sources) != [] <==> SomeBlocker(sources)
  {
    NoBlockers(sources);
  }

  /** What the evidence says of any sources: its level, its status, and the conclusion, which is
      success exactly for a status that passed and failure exactly for one that failed. */
  lemma EvidenceWritten(runId: string, sources: seq<Source>)
    requires |sources| > 0
    ensures EvidenceTells(runId, sources, EvidenceOf(runId, sources))
  {
    hide RenderSummary, AllBlockers, Boundaries, ChooseProofLevel, LevelWritten, SomeBlocked, SomeRejected;
    hide SomeBlocker, AnyRejected;
    hide Names.BLOCKED_BEFORE_LIVE, Names.PHYSICAL_CANDIDATE;
    LevelIs(sources);
    SourcesMean(sources);
    BlockersMean(sources);
    LevelNames();
  }

  /** The conclusion is failure exactly when nothing blocks and some source failed or was
      rejected by the intake. */
  lemma FailureIff(runId: string, sources: seq<Source>)
    requires |sources| > 0
    ensures EvidenceOf(runId, sources).conclusion.Failure?
       <==> !SomeBlocker(sources) && !SomeBlocked(sources) && SomeRejected(sources)
  {
    hide EvidenceOf, LevelWritten, SomeBlocker, SomeBlocked, SomeRejected;
    EvidenceWritten(runId, sources);
  }

  /** The blockers of the evidence are those of the sources, one after the other. */
  lemma {:induction false} BlockersInOrder(a: seq<Source>, s: Source, b: seq<Source>)
    ensures AllBlockers(a + [s] + b) == AllBlockers(a) + s.blockers + AllBlockers(b)
  {
    var all := a + [s] + b;
    if a == [] {
      assert all[1..] == b;
    } else {
      assert all[1..] == a[1..] + [s] + b;
      BlockersInOrder(a[1..], s, b);
    }
  }

  // ----- success

  /** A source that does not stand in the way of success. */
  predicate Clear(s: Source) {
    && s.promoted && s.blockers == []
    && !SaysBlocked(s) && !SaysLiveFailure(s) && !Rejected(s)
    && s.proofLevel != Names.CONTROLLED_LEVEL
  }

  predicate AllClear(sources: seq<Source>) {
    forall i :: 0 <= i < |sources| ==> Clear(sources[i])
  }

  predicate FirstIsPhysical(sources: seq<Source>) {
    |sources| > 0 && sources[0].proofLevel == Names.PHYSICAL_CANDIDATE
  }

  lemma {:induction false} NoBlockers(sources: seq<Source>)
    ensures AllBlockers(sources) == [] <==> forall i :: 0 <= i < |sources| ==> sources[i].blockers == []
  {
    if sources != [] {
      NoBlockers(sources[1..]);
    }
  }

  lemma ClearAll(sources: seq<Source>)
    ensures AllClear(sources)
       <==> && AllPromoted(sources) && AllBlockers(sources) == []
            && !AnyBlocked(sources) && !AnyLiveFailure(sources) && !AnyRejected(sources) && !AnyControlled(sources)
  {
    hide SaysBlocked, SaysLiveFailure, Rejected, Names.CONTROLLED_LEVEL, AllBlockers;
    NoBlockers(sources);
  }

  lemma PhysicalSources(sources: seq<Source>)
    requires |sources| > 0 && AllPhysical(sources)
    ensures sources[0].proofLevel == Names.PHYSICAL_CANDIDATE && !AnyControlled(sources)
  {
    hide Names.PHYSICAL_CANDIDATE, Names.CONTROLLED_LEVEL;
    Names.LevelsDiffer();
  }

  /** For any sources, the conclusion is success exactly when every source is clear and the
      first one has the physical proof level. */
  lemma SuccessIff(runId: string, sources: seq<Source>)
    requires |sources| > 0
    ensures EvidenceOf(runId, sources).conclusion.Success? <==> AllClear(sources) && FirstIsPhysical(sources)
  {
    hide RenderSummary, AllBlockers, ChooseNextAction, Boundaries, AllClear;
    hide AnyBlocked, AnyLiveFailure, AnyRejected, AnyControlled, AllPromoted, AllPhysical;
    hide Names.BLOCKED_BEFORE_LIVE, Names.PHYSICAL_CANDIDATE, Names.LIVE_FAILURE, Names.CONTROLLED_LEVEL;
    Names.LevelsDiffer();
    ClearAll(sources);
    if AllPhysical(sources) {
      PhysicalSources(sources);
    }
  }

  /** The level of a later source need not be physical: behind a promoted physical source, a
      promoted source of the fixture level still lets the evidence say success. */
  lemma LaterLevelUnchecked(runId: string, first: Source, later: Source)
    requires Clear(first) && first.proofLevel == Names.PHYSICAL_CANDIDATE
    requires Clear(later) && later.proofLevel == Names.FIXTURE_CONTRACT
    ensures var e := EvidenceOf(runId, [first, later]);
      e.conclusion.Success? && e.proofLevel == Names.PHYSICAL_CANDIDATE
  {
    hide EvidenceOf, Clear;
    SuccessIff(runId, [first, later]);
    SuccessLevel(runId, [first, later]);
  }

  lemma SuccessLevel(runId: string, sources: seq<Source>)
    requires |sources| > 0 && EvidenceOf(runId, sources).conclusion.Success?
    ensures EvidenceOf(runId, sources).proofLevel == Names.PHYSICAL_CANDIDATE
  {
    hide RenderSummary, AllBlockers, ChooseNextAction, Boundaries, ChooseProofLevel, AnyRejected, AllPromoted;
    hide Names.BLOCKED_BEFORE_LIVE, Names.PHYSICAL_CANDIDATE;
  }

  // ----- sources made from candidates

  function SourceOf(path: string, c: Candidate.Candidate): Source {
    Source(
      "repo_app_success_candidate",
      path,
      c.verdict,
      if c.promoted then (if c.intake.Some? then c.intake.value.proofLevel else Names.PHYSICAL_CANDIDATE)
      else if Contains(c.verdict, "blocked") then Names.BLOCKED_BEFORE_LIVE
      else c.verification.proofLevel,
      c.promoted,
      c.blockers,
      c.nextAction)
  }

  /** The source made from a candidate: its level is the intake's where the candidate is promoted,
      the blocked one where its verdict says so, and the verification's otherwise. */
  lemma SourceWritten(path: string, c: Candidate.Candidate)
    ensures var s := SourceOf(path, c);
      && s.kind == "repo_app_success_candidate" && s.path == path && s.verdict == c.verdict
      && s.promoted == c.promoted && s.blockers == c.blockers
      && s.nextAction == c.nextAction
      && (c.promoted && c.intake.Some? ==> s.proofLevel == c.intake.value.proofLevel)
      && (c.promoted && c.intake.None? ==> s.proofLevel == "physical_or_emulator_candidate")
      && (!c.promoted && Occurs(c.verdict, "blocked") ==> s.proofLevel == "blocked_before_live")
      && (!c.promoted && !Occurs(c.verdict, "blocked") ==> s.proofLevel == c.verification.proofLevel)
  {
    hide Contains, Occurs;
    ContainsIff(c.verdict, "blocked");
  }

  lemma ContainsStart(s: string, p: string)
    requires p != "" && Contains(s, p)
    ensures p[0] in s
  {
    hide Find;
    FindOccurs(s, p);
    var i := Find(s, p).value;
    assert s[i] == s[i..i + |p|][0] == p[0];
  }

  lemma Lacks(s: string, p: string)
    requires p != "" && p[0] !in s
    ensures !Contains(s, p)
  {
    hide Contains;
    if Contains(s, p) {
      ContainsStart(s, p);
    }
  }

  predicate HasPair(s: string, a: char, b: char) {
    exists i :: 0 <= i < |s| - 1 && s[i] == a && s[i + 1] == b
  }

  lemma ContainsPair(s: string, p: string)
    requires |p| >= 2 && Contains(s, p)
    ensures HasPair(s, p[0], p[1])
  {
    hide Find;
    FindOccurs(s, p);
    var i := Find(s, p).value;
    assert s[i] == s[i..i + |p|][0] == p[0] && s[i + 1] == s[i..i + |p|][1] == p[1];
  }

  /** None of the candidate verdicts mentions failure; the promoted one mentions no block. */
  lemma PromotedMentions()
    ensures !Contains(Names.SUCCESS_PROMOTED, "failed") && !Contains(Names.SUCCESS_PROMOTED, "blocked")
  {
    hide Contains;
    Lacks(Names.SUCCESS_PROMOTED, "failed");
    Lacks(Names.SUCCESS_PROMOTED, "blocked");
  }

  lemma PendingMentions()
    ensures !Contains(Names.PENDING_INTAKE, "failed")
  {
    hide Contains;
    Lacks(Names.PENDING_INTAKE, "failed");
  }

  lemma OutputMentions()
    ensures !Contains(Names.OUTPUT_NOT_PROMOTABLE, "failed")
  {
    hide Contains;
    Lacks(Names.OUTPUT_NOT_PROMOTABLE, "failed");
  }

  /** The one `f` in the blocked verdict starts another word. */
  lemma BlockedMentions()
    ensures !Contains(Names.CANDIDATE_BLOCKED, "failed") && Contains(Names.CANDIDATE_BLOCKED, "blocked")
  {
    hide Find;
    var s := Names.CANDIDATE_BLOCKED;
    NoFailPair();
    if Contains(s, "failed") {
      ContainsPair(s, "failed");
    }
    BlockedAtStart(s);
  }

  lemma NoFailPair()
    ensures !HasPair(Names.CANDIDATE_BLOCKED, 'f', 'a')
  {
  }

  lemma BlockedAtStart(s: string)
    requires s == Names.CANDIDATE_BLOCKED
    ensures Contains(s, "blocked")
  {
    hide Find;
    assert s[0..7] == "blocked";
    FindFirst(s, "blocked", 0);
  }

  /** A candidate from the builder is a promoted source with nothing in its way, or is not
      promoted; its verdict never says that it failed. */
  lemma SourceOfBuilt(path: string, runId: string, c: Candidate.Contract, contractPath: Option<string>,
                      v: Candidate.Verification, i: Option<Candidate.IntakeVerdict>, artifactExists: bool)
    requires Candidate.CandidateOf(runId, c, contractPath, v, i, artifactExists).Ok?
    ensures
      var s := SourceOf(path, Candidate.CandidateOf(runId, c, contractPath, v, i, artifactExists).value);
      && !Rejected(s)
      && (s.promoted ==> Clear(s) && s.proofLevel == Names.PHYSICAL_CANDIDATE)
      && (Clear(s) ==> s.promoted)
  {
    hide Contains, Candidate.CandidateOf, Names.INTAKE_REJECTED;
    hide Names.SUCCESS_PROMOTED, Names.CANDIDATE_BLOCKED, Names.PENDING_INTAKE, Names.OUTPUT_NOT_PROMOTABLE;
    hide Names.BLOCKED_BEFORE_LIVE, Names.PHYSICAL_CANDIDATE, Names.LIVE_FAILURE, Names.CONTROLLED_LEVEL;
    Candidate.PromotedShape(runId, c, contractPath, v, i, artifactExists);
    PromotedMentions();
    PendingMentions();
    OutputMentions();
    BlockedMentions();
    Names.LevelsDiffer();
    CandidatesNotRejected();
  }

  lemma CandidatesNotRejected()
    ensures Names.SUCCESS_PROMOTED != Names.INTAKE_REJECTED && Names.CANDIDATE_BLOCKED != Names.INTAKE_REJECTED
    ensures Names.PENDING_INTAKE != Names.INTAKE_REJECTED && Names.OUTPUT_NOT_PROMOTABLE != Names.INTAKE_REJECTED
  {
    assert Names.INTAKE_REJECTED[0] == 'i' && Names.SUCCESS_PROMOTED[0] == 'r' && Names.CANDIDATE_BLOCKED[0] == 'b';
    assert Names.PENDING_INTAKE[0] == 'l' && Names.OUTPUT_NOT_PROMOTABLE[0] == 'n';
  }

  // ----- evidence of built candidates

  lemma NeverFailure(runId: string, sources: seq<Source>)
    requires |sources| > 0 && !AnyRejected(sources)
    ensures !EvidenceOf(runId, sources).conclusion.Failure?
  {
    hide RenderSummary, AllBlockers, ChooseNextAction, Boundaries, ChooseProofLevel, AnyRejected, AllPromoted;
    hide Names.BLOCKED_BEFORE_LIVE, Names.PHYSICAL_CANDIDATE;
  }

  /** What a candidate is built from, with the path that it is written to. */
  datatype Built = Built(
    path: string,
    runId: string,
    contract: Candidate.Contract,
    contractPath: Option<string>,
    verification: Candidate.Verification,
    intake: Option<Candidate.IntakeVerdict>,
    artifactExists: bool)
  {
    function Outcome(): Result<Candidate.Candidate, Candidate.CandidateFault> {
      Candidate.CandidateOf(runId, contract, contractPath, verification, intake, artifactExists)
    }

    predicate Promoted() {
      Outcome().Ok? && Outcome().value.promoted
    }
  }

  predicate AllBuilt(bs: seq<Built>) {
    forall k :: 0 <= k < |bs| ==> bs[k].Outcome().Ok?
  }

  predicate EveryPromoted(bs: seq<Built>) {
    forall k :: 0 <= k < |bs| ==> bs[k].Promoted()
  }

  function BuiltSources(bs: seq<Built>): (ss: seq<Source>)
    requires AllBuilt(bs)
    ensures |ss| == |bs|
  {
    seq(|bs|, k requires 0 <= k < |bs| => SourceOf(bs[k].path, bs[k].Outcome().value))
  }

  lemma SourceOfOne(b: Built)
    requires b.Outcome().Ok?
    ensures var s := SourceOf(b.path, b.Outcome().value);
      && !Rejected(s)
      && (Clear(s) <==> b.Promoted())
      && (Clear(s) ==> s.proofLevel == Names.PHYSICAL_CANDIDATE)
  {
    hide Clear, Rejected, Candidate.CandidateOf, Names.PHYSICAL_CANDIDATE;
    SourceOfBuilt(b.path, b.runId, b.contract, b.contractPath, b.verification, b.intake, b.artifactExists);
  }

  /** Over any list of built candidates, CI says success exactly when all of them are promoted,
      never says failure, and its evidence is valid. */
  lemma BuiltSuccessIff(runId: string, bs: seq<Built>)
    requires |bs| > 0 && AllBuilt(bs)
    ensures EvidenceOf(runId, BuiltSources(bs)).conclusion.Success? <==> EveryPromoted(bs)
    ensures !EvidenceOf(runId, BuiltSources(bs)).conclusion.Failure?
    ensures Valid(EvidenceOf(runId, BuiltSources(bs)))
  {
    hide EvidenceOf, Clear, SourceOf, Rejected, Valid, Names.PHYSICAL_CANDIDATE, Candidate.CandidateOf;
    var ss := BuiltSources(bs);
    SuccessIff(runId, ss);
    forall k | 0 <= k < |bs|
      ensures !Rejected(ss[k])
      ensures Clear(ss[k]) <==> bs[k].Promoted()
      ensures Clear(ss[k]) ==> ss[k].proofLevel == Names.PHYSICAL_CANDIDATE
    {
      SourceOfOne(bs[k]);
    }
    NeverFailure(runId, ss);
    EvidenceIsValid(runId, ss);
  }
}
