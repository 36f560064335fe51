/** The one command: readiness, verification, intake and handoff as gated stages. */
module OneCommand {
  import opened Prelude
  import Names

  type Blocker = Names.Blocker

  datatype Mode = Fixture | Live

  datatype Options = Options(runId: string, mode: Mode, outputDir: Option<string>)

  datatype Action = Action(kind: string, command: string, reason: string)

  datatype Readiness = Readiness(verdict: string, blockers: Option<seq<Blocker>>, nextAction: Action)

  datatype Verification = Verification(outputDir: string, verdict: Option<string>, nextAction: Option<Action>)

  datatype IntakeResult = IntakeResult(verdict: string, proofLevel: string, blockers: Option<seq<Blocker>>,
                                       nextAction: Action)

  /** The parts that the command is given; each can be missing.  What a part returns is
      arbitrary. */
  datatype Parts = Parts(
    readiness: Option<Readiness>,
    fixture: Option<Verification>,
    live: Option<Verification>,
    intake: Option<string -> IntakeResult>,
    handoff: Option<Verification -> string>)

  datatype StageId = ReadinessStage | VerifyStage | IntakeStage | HandoffStage

  datatype StageStatus = Passed | Stopped | Failed

  datatype Stage = Stage(id: StageId, status: StageStatus, detail: string)

  /** Where the outputs of the parts are, as far as they were called. */
  datatype Evidence = Evidence(
    readiness: Option<string>,
    verification: Option<string>,
    intake: Option<string>,
    handoff: Option<string>)

  /** The parts that a run calls, in order. */
  datatype PartCall = CallReadiness | CallFixture | CallLive | CallIntake(outputDir: string) | CallHandoff

  datatype CommandResult = CommandResult(
    runId: string,
    mode: Mode,
    verdict: string,
    proofLevel: string,
    stages: seq<Stage>,
    blockers: seq<Blocker>,
    evidence: Evidence,
    nextAction: Action)

  datatype MissingPart = NoReadiness | NoFixture | NoLive | NoIntake

  datatype Run = Run(result: Result<CommandResult, MissingPart>, calls: seq<PartCall>)

  function DefaultAction(): Action {
    Action("inspect_verification_output", "pnpm run validate:mobile-change-verification",
           "Inspect the generated verification output before retrying.")
  }

  function ActionOf(v: Verification): Action {
    v.nextAction.GetOr(DefaultAction())
  }

  predicate Verified(v: Verification) {
    v.verdict == Some(Names.CHANGE_VERIFIED)
  }

  function ReadyStage(): Stage {
    Stage(ReadinessStage, Passed, "Readiness preflight allows live verification to start.")
  }

  function BlockedStage(): Stage {
    Stage(ReadinessStage, Stopped,
      "Live verification stopped before UI-affecting actions because readiness preflight reported blockers.")
  }

  function VerifyStageOf(v: Verification): Stage {
    Stage(VerifyStage, if Verified(v) then Passed else Failed,
      "Verification verdict: " + v.verdict.GetOr("unknown") + ".")
  }

  function IntakeStageOf(i: IntakeResult): Stage {
    Stage(IntakeStage, if i.verdict == Names.PROMOTABLE then Passed else Failed, "Intake verdict: " + i.verdict + ".")
  }

  function HandoffStageOf(path: string): Stage {
    Stage(HandoffStage, Passed, "Handoff summary available at " + path + ".")
  }

  const READINESS_EVIDENCE := "docs/showcase/evidence/mobile-change-device-readiness"

  function DefaultOutputDir(runId: string): string {
    "output/showcase/mobile-change-one-command/" + runId
  }

  function OutputDir(o: Options): string {
    o.outputDir.GetOr(DefaultOutputDir(o.runId))
  }

  // ----- specification: each way to end, by the gates in front of it

  predicate Ready(parts: Parts) {
    parts.readiness.Some? && parts.readiness.value.verdict == Names.READY_FOR_LIVE
  }

  function Front(mode: Mode): seq<Stage> {
    if mode.Live? then [ReadyStage()] else []
  }

  function FrontCalls(mode: Mode): seq<PartCall> {
    if mode.Live? then [CallReadiness, CallLive] else [CallFixture]
  }

  function BlockedRun(o: Options, r: Readiness): Run {
    Run(Ok(CommandResult(o.runId, o.mode, Names.BLOCKED, Names.BLOCKED_BEFORE_LIVE, [BlockedStage()],
                         r.blockers.GetOr([]), Evidence(Some(READINESS_EVIDENCE), None, None, None), r.nextAction)),
        [CallReadiness])
  }

  /** The end of a run whose verification is there: with the optional handoff as its last stage. */
  function Ended(o: Options, parts: Parts, v: Verification, calls: seq<PartCall>, verdict: string, proofLevel: string,
                 stages: seq<Stage>, blockers: seq<Blocker>, intakeDir: Option<string>, nextAction: Action): Run {
    match parts.handoff
    case None =>
      Run(Ok(CommandResult(o.runId, o.mode, verdict, proofLevel, stages, blockers,
                           Evidence(None, Some(v.outputDir), intakeDir, None), nextAction)),
          calls)
    case Some(build) =>
      Run(Ok(CommandResult(o.runId, o.mode, verdict, proofLevel, stages + [HandoffStageOf(build(v))], blockers,
                           Evidence(None, Some(v.outputDir), intakeDir, Some(build(v))), nextAction)),
          calls + [CallHandoff])
  }

  function AfterVerification(o: Options, parts: Parts, v: Verification): Run {
    var calls := FrontCalls(o.mode);
    var stages := Front(o.mode) + [VerifyStageOf(v)];
    if !Verified(v) then
      Ended(o, parts, v, calls, Names.COMMAND_FAILED,
            if o.mode.Fixture? then Names.FIXTURE_CONTRACT else Names.LIVE_FAILURE, stages, [], None, ActionOf(v))
    else if o.mode.Fixture? then
      Ended(o, parts, v, calls, Names.COMPLETED, Names.FIXTURE_CONTRACT, stages, [], None, ActionOf(v))
    else match parts.intake
      case None => Run(Err(NoIntake), calls)
      case Some(run) =>
        var i := run(v.outputDir);
        var accepted := i.verdict == Names.PROMOTABLE;
        Ended(o, parts, v, calls + [CallIntake(v.outputDir)],
              if accepted then Names.COMPLETED else Names.INTAKE_REJECTED, i.proofLevel,
              stages + [IntakeStageOf(i)], if accepted then [] else i.blockers.GetOr([]),
              Some(OutputDir(o)), i.nextAction)
  }

  function CommandRun(o: Options, parts: Parts): Run {
    if o.mode.Live? && parts.readiness.None? then Run(Err(NoReadiness), [])
    else if o.mode.Live? && !Ready(parts) then BlockedRun(o, parts.readiness.value)
    else
      var verification := if o.mode.Fixture? then parts.fixture else parts.live;
      match verification
      case None =>
        Run(Err(if o.mode.Fixture? then NoFixture else NoLive), if o.mode.Live? then [CallReadiness] else [])
      case Some(v) => AfterVerification(o, parts, v)
  }

  // ----- how a run ends, written out

  predicate ReadyFor(parts: Parts) {
    parts.readiness.Some? && parts.readiness.value.verdict == "ready_for_live_mobile_change_verification"
  }

  predicate Confirms(v: Verification) {
    v.verdict == Some("mobile_change_verified")
  }

  predicate Ends(run: Run, verdict: string, proofLevel: string, blockers: seq<Blocker>) {
    && run.result.Ok? && run.result.value.verdict == verdict && run.result.value.proofLevel == proofLevel
    && run.result.value.blockers == blockers
  }

  /** The end of a run whose verification is there. */
  predicate EndWritten(o: Options, parts: Parts, v: Verification, run: Run) {
    var level := if o.mode.Fixture? then "fixture_contract" else "live_failure";
    if !Confirms(v) then Ends(run, "verification_failed", level, []) && NextIs(run, v)
    else if o.mode.Fixture? then Ends(run, "completed", "fixture_contract", []) && NextIs(run, v)
    else match parts.intake
      case None => run.result == Err(NoIntake)
      case Some(ask) =>
        var i := ask(v.outputDir);
        && run.result.Ok? && run.result.value.nextAction == i.nextAction
        && (if i.verdict == "promotable_live_proof_candidate" then Ends(run, "completed", i.proofLevel, [])
            else Ends(run, "intake_rejected", i.proofLevel, i.blockers.GetOr([])))
  }

  predicate NextIs(run: Run, v: Verification) {
    && run.result.Ok?
    && (v.nextAction.Some? ==> run.result.value.nextAction == v.nextAction.value)
    && (v.nextAction.None? ==> run.result.value.nextAction.kind == "inspect_verification_output")
  }

  /** How any run ends: by the first gate that it does not pass. */
  predicate RunWritten(o: Options, parts: Parts, run: Run) {
    if o.mode.Live? && parts.readiness.None? then run.result == Err(NoReadiness)
    else if o.mode.Live? && !ReadyFor(parts) then
      var r := parts.readiness.value;
      && Ends(run, "blocked", "blocked_before_live", r.blockers.GetOr([]))
      && run.result.value.nextAction == r.nextAction
    else match (if o.mode.Fixture? then parts.fixture else parts.live)
      case None => run.result == Err(if o.mode.Fixture? then NoFixture else NoLive)
      case Some(v) => EndWritten(o, parts, v, run)
  }

  lemma GatesAre(parts: Parts, v: Verification)
    ensures Ready(parts) <==> ReadyFor(parts)
    ensures Verified(v) <==> Confirms(v)
  {
  }

  lemma CommandNames()
    ensures Names.BLOCKED == "blocked" && Names.BLOCKED_BEFORE_LIVE == "blocked_before_live"
    ensures Names.COMMAND_FAILED == "verification_failed" && Names.COMPLETED == "completed"
  {
  }

  lemma LevelNames()
    ensures Names.INTAKE_REJECTED == "intake_rejected" && Names.PROMOTABLE == "promotable_live_proof_candidate"
    ensures Names.FIXTURE_CONTRACT == "fixture_contract" && Names.LIVE_FAILURE == "live_failure"
  {
  }

  lemma ActionIs(v: Verification)
    ensures v.nextAction.None? ==> ActionOf(v).kind == "inspect_verification_output"
    ensures v.nextAction.Some? ==> ActionOf(v) == v.nextAction.value
  {
  }

  lemma EndIs(o: Options, parts: Parts, v: Verification)
    ensures EndWritten(o, parts, v, AfterVerification(o, parts, v))
  {
    hide Verified, Confirms, ActionOf, Front, FrontCalls, VerifyStageOf, IntakeStageOf, HandoffStageOf, OutputDir;
    hide Names.COMPLETED, Names.COMMAND_FAILED, Names.INTAKE_REJECTED, Names.PROMOTABLE;
    hide Names.FIXTURE_CONTRACT, Names.LIVE_FAILURE;
    GatesAre(parts, v);
    CommandNames();
    LevelNames();
    ActionIs(v);
  }

  lemma BlockedIs(o: Options, r: Readiness)
    ensures Ends(BlockedRun(o, r), "blocked", "blocked_before_live", r.blockers.GetOr([]))
    ensures BlockedRun(o, r).result.value.nextAction == r.nextAction
  {
    hide BlockedStage, READINESS_EVIDENCE, Names.BLOCKED, Names.BLOCKED_BEFORE_LIVE;
    CommandNames();
  }

  /** Every run ends as written. */
  lemma RunIs(o: Options, parts: Parts)
    ensures RunWritten(o, parts, CommandRun(o, parts))
  {
    hide BlockedRun, AfterVerification, EndWritten, Ready, ReadyFor, Ends;
    if o.mode.Live? && parts.readiness.Some? {
      BlockedIs(o, parts.readiness.value);
    }
    var v := if o.mode.Fixture? then parts.fixture else parts.live;
    GatesAre(parts, v.GetOr(Verification("", None, None)));
    if v.Some? {
      EndIs(o, parts, v.value);
    }
  }

  // ----- the command

  /** The optional last stage; `stages` and `calls` grow when there is one. */
  method MaybeBuildHandoff(parts: Parts, v: Verification, stages: seq<Stage>, calls: seq<PartCall>)
      returns (path: Option<string>, newStages: seq<Stage>, newCalls: seq<PartCall>)
    ensures path == if parts.handoff.Some? then Some(parts.handoff.value(v)) else None
    ensures newStages == if parts.handoff.Some? then stages + [HandoffStageOf(parts.handoff.value(v))] else stages
    ensures newCalls == if parts.handoff.Some? then calls + [CallHandoff] else calls
  {
    if parts.handoff.None? { return None, stages, calls; }
    var built := parts.handoff.value(v);
    return Some(built), stages + [HandoffStageOf(built)], calls + [CallHandoff];
  }

  method RunOneCommand(o: Options, parts: Parts) returns (run: Run)
    ensures run == CommandRun(o, parts)
    ensures RunWritten(o, parts, run)
  {
    RunIs(o, parts);
    hide RunWritten, Verified, ActionOf, VerifyStageOf, ReadyStage, BlockedRun, AfterVerification, Names.READY_FOR_LIVE;
    var stages: seq<Stage> := [];
    var blockers: seq<Blocker> := [];
    var calls: seq<PartCall> := [];
    var verification := parts.fixture;
    if o.mode.Live? {
      if parts.readiness.None? { return Run(Err(NoReadiness), calls); }
      var readiness := parts.readiness.value;
      calls := calls + [CallReadiness];
      if readiness.verdict != Names.READY_FOR_LIVE { return BlockedRun(o, readiness); }
      stages := stages + [ReadyStage()];
      verification := parts.live;
    }
    if verification.None? { return Run(Err(if o.mode.Fixture? then NoFixture else NoLive), calls); }
    var v := verification.value;
    calls := calls + [if o.mode.Fixture? then CallFixture else CallLive];
    stages := stages + [VerifyStageOf(v)];
    assert calls == FrontCalls(o.mode) && stages == Front(o.mode) + [VerifyStageOf(v)];
    run := FinishCommand(o, parts, v, stages, blockers, calls);
  }

  method FinishCommand(o: Options, parts: Parts, v: Verification, allStages: seq<Stage>, allBlockers: seq<Blocker>,
                       allCalls: seq<PartCall>) returns (run: Run)
    requires allCalls == FrontCalls(o.mode) && allStages == Front(o.mode) + [VerifyStageOf(v)] && allBlockers == []
    ensures run == AfterVerification(o, parts, v)
  {
    hide Verified, ActionOf, FrontCalls, Front, VerifyStageOf, IntakeStageOf, HandoffStageOf, OutputDir;
    var stages, blockers, calls := allStages, allBlockers, allCalls;
    var path;
    if !Verified(v) {
      path, stages, calls := MaybeBuildHandoff(parts, v, stages, calls);
      var level := if o.mode.Fixture? then Names.FIXTURE_CONTRACT else Names.LIVE_FAILURE;
      return Run(Ok(CommandResult(o.runId, o.mode, Names.COMMAND_FAILED, level, stages, blockers,
                                  Evidence(None, Some(v.outputDir), None, path), ActionOf(v))),
                 calls);
    }
    var proofLevel := if o.mode.Fixture? then Names.FIXTURE_CONTRACT else Names.LIVE_FAILURE;
    var nextAction := ActionOf(v);
    var intakeDir := None;
    if o.mode.Live? {
      if parts.intake.None? { return Run(Err(NoIntake), calls); }
      var intake := parts.intake.value(v.outputDir);
      calls := calls + [CallIntake(v.outputDir)];
      proofLevel := intake.proofLevel;
      stages := stages + [IntakeStageOf(intake)];
      nextAction := intake.nextAction;
      intakeDir := Some(OutputDir(o));
      if intake.verdict != Names.PROMOTABLE {
        blockers := blockers + intake.blockers.GetOr([]);
        assert blockers == intake.blockers.GetOr([]);
        path, stages, calls := MaybeBuildHandoff(parts, v, stages, calls);
        return Run(Ok(CommandResult(o.runId, o.mode, Names.INTAKE_REJECTED, proofLevel, stages, blockers,
                                    Evidence(None, Some(v.outputDir), intakeDir, path), nextAction)),
                   calls);
      }
    }
    path, stages, calls := MaybeBuildHandoff(parts, v, stages, calls);
    return Run(Ok(CommandResult(o.runId, o.mode, Names.COMPLETED, proofLevel, stages, blockers,
                                Evidence(None, Some(v.outputDir), intakeDir, path), nextAction)),
               calls);
  }

  // ----- what the gates keep

  predicate GateHolds(o: Options, parts: Parts, calls: seq<PartCall>, i: nat)
    requires i < |calls|
  {
    match calls[i]
    case CallReadiness => o.mode.Live? && i == 0
    case CallFixture => o.mode.Fixture? && i == 0
    case CallLive => o.mode.Live? && i == 1 && calls[0] == CallReadiness && Ready(parts)
    case CallIntake(dir) =>
      o.mode.Live? && i == 2 && calls[1] == CallLive && Ready(parts)
      && parts.live.Some? && Verified(parts.live.value) && dir == parts.live.value.outputDir
    case CallHandoff => i == |calls| - 1 && i > 0
  }

  /** The gates: live verification only behind a readiness that passed, the intake only
      behind a live verification that verified, nothing live in fixture mode, and a handoff
      only at the very end. */
  lemma Gated(o: Options, parts: Parts, i: nat)
    requires i < |CommandRun(o, parts).calls|
    ensures GateHolds(o, parts, CommandRun(o, parts).calls, i)
  {
    hide Verified, ActionOf, BlockedRun, AfterVerification, Names.READY_FOR_LIVE;
    if (o.mode.Live? ==> Ready(parts)) && (if o.mode.Fixture? then parts.fixture else parts.live).Some? {
      var v := (if o.mode.Fixture? then parts.fixture else parts.live).value;
      AfterCalls(o, parts, v);
    } else {
      BlockedCalls(o, parts);
    }
  }

  lemma BlockedCalls(o: Options, parts: Parts)
    ensures parts.readiness.Some? ==> BlockedRun(o, parts.readiness.value).calls == [CallReadiness]
  {
    hide BlockedStage, READINESS_EVIDENCE, Names.BLOCKED, Names.BLOCKED_BEFORE_LIVE;
  }

  /** The calls of a run whose verification is there. */
  lemma AfterCalls(o: Options, parts: Parts, v: Verification)
    ensures AfterVerification(o, parts, v).calls
         == FrontCalls(o.mode)
            + (if o.mode.Live? && Verified(v) && parts.intake.Some? then [CallIntake(v.outputDir)] else [])
            + (if parts.handoff.Some? && (o.mode.Live? && Verified(v) ==> parts.intake.Some?)
               then [CallHandoff] else [])
  {
    hide Verified, ActionOf, Front, FrontCalls, VerifyStageOf, IntakeStageOf, HandoffStageOf, OutputDir;
    hide Names.COMPLETED, Names.COMMAND_FAILED, Names.INTAKE_REJECTED, Names.FIXTURE_CONTRACT, Names.LIVE_FAILURE;
    hide Names.PROMOTABLE;
  }

  /** A blocked readiness ends the command before anything live is called. */
  lemma BlockedCallsNothing(o: Options, parts: Parts)
    requires o.mode.Live? && parts.readiness.Some? && !Ready(parts)
    ensures
      var run := CommandRun(o, parts);
      && run.calls == [CallReadiness]
      && run.result.Ok? && run.result.value.verdict == Names.BLOCKED
      && run.result.value.proofLevel == Names.BLOCKED_BEFORE_LIVE
      && run.result.value.blockers == parts.readiness.value.blockers.GetOr([])
  {
    hide Ready, AfterVerification, BlockedStage, READINESS_EVIDENCE, Names.BLOCKED, Names.BLOCKED_BEFORE_LIVE;
  }

  predicate CompletedPhysical(run: Run) {
    && run.result.Ok?
    && run.result.value.verdict == Names.COMPLETED
    && run.result.value.proofLevel == Names.PHYSICAL_CANDIDATE
  }

  predicate PhysicalIntake(i: IntakeResult) {
    i.verdict == Names.PROMOTABLE && i.proofLevel == Names.PHYSICAL_CANDIDATE
  }

  /** The live verification verified, and the intake of its output accepts it as physical. */
  predicate LiveAccepted(parts: Parts) {
    && parts.live.Some? && Verified(parts.live.value)
    && parts.intake.Some? && PhysicalIntake(parts.intake.value(parts.live.value.outputDir))
  }

  /** A completed command with the physical proof level has passed every live gate, and
      these are all the ways to get there. */
  lemma PhysicalIff(o: Options, parts: Parts)
    ensures CompletedPhysical(CommandRun(o, parts)) <==> o.mode.Live? && Ready(parts) && LiveAccepted(parts)
  {
    hide Verified, ActionOf, VerifyStageOf, IntakeStageOf, HandoffStageOf, BlockedStage, Front, FrontCalls, OutputDir;
    hide READINESS_EVIDENCE;
    hide Names.READY_FOR_LIVE, Names.PROMOTABLE, Names.PHYSICAL_CANDIDATE, Names.FIXTURE_CONTRACT, Names.LIVE_FAILURE;
    hide Names.BLOCKED_BEFORE_LIVE, Names.COMPLETED, Names.BLOCKED, Names.COMMAND_FAILED, Names.INTAKE_REJECTED;
    Names.CommandVerdictsDiffer();
    Names.LevelsDiffer();
  }

  /** A completed command has no blockers. */
  lemma CompletedIsClear(o: Options, parts: Parts)
    requires CommandRun(o, parts).result.Ok?
    requires CommandRun(o, parts).result.value.verdict == Names.COMPLETED
    ensures CommandRun(o, parts).result.value.blockers == []
  {
    hide Verified, ActionOf, VerifyStageOf, IntakeStageOf, HandoffStageOf, BlockedStage, Front, FrontCalls, OutputDir;
    hide READINESS_EVIDENCE;
    hide Names.COMPLETED, Names.BLOCKED, Names.COMMAND_FAILED, Names.INTAKE_REJECTED;
    Names.CommandVerdictsDiffer();
  }

  // ----- stages

  function StageOf(c: PartCall): StageId {
    match c
    case CallReadiness => ReadinessStage
    case CallFixture => VerifyStage
    case CallLive => VerifyStage
    case CallIntake(_) => IntakeStage
    case CallHandoff => HandoffStage
  }

  predicate AllPassed(stages: seq<Stage>) {
    forall i :: 0 <= i < |stages| ==> stages[i].status.Passed?
  }

  predicate FollowCalls(stages: seq<Stage>, calls: seq<PartCall>) {
    |stages| == |calls| && forall i :: 0 <= i < |calls| ==> stages[i].id == StageOf(calls[i])
  }

  /** The reported stages are those of the parts that were called, in order, and the command
      is completed exactly when every one of them passed. */
  lemma StagesTellTheRun(o: Options, parts: Parts)
    requires CommandRun(o, parts).result.Ok?
    ensures
      var run := CommandRun(o, parts);
      && FollowCalls(run.result.value.stages, run.calls)
      && (run.result.value.verdict == Names.COMPLETED <==> AllPassed(run.result.value.stages))
  {
    hide AfterVerification, BlockedRun, FollowCalls, AllPassed, Names.READY_FOR_LIVE;
    hide Names.COMPLETED, Names.BLOCKED, Names.COMMAND_FAILED, Names.INTAKE_REJECTED;
    Names.CommandVerdictsDiffer();
    if o.mode.Live? && !Ready(parts) {
      BlockedTellsTheRun(o, parts.readiness.value);
    } else {
      var v := (if o.mode.Fixture? then parts.fixture else parts.live).value;
      AfterTellsTheRun(o, parts, v);
    }
  }

  lemma BlockedTellsTheRun(o: Options, r: Readiness)
    ensures var run := BlockedRun(o, r);
      && run.result.Ok? && FollowCalls(run.result.value.stages, run.calls)
      && !AllPassed(run.result.value.stages) && run.result.value.verdict == Names.BLOCKED
  {
    hide READINESS_EVIDENCE, Names.BLOCKED, Names.BLOCKED_BEFORE_LIVE;
    assert BlockedRun(o, r).result.value.stages[0].status.Stopped?;
  }

  lemma AfterTellsTheRun(o: Options, parts: Parts, v: Verification)
    requires AfterVerification(o, parts, v).result.Ok?
    ensures
      var run := AfterVerification(o, parts, v);
      && FollowCalls(run.result.value.stages, run.calls)
      && (run.result.value.verdict == Names.COMPLETED <==> AllPassed(run.result.value.stages))
  {
    hide Verified, ActionOf, Ended, FollowCalls, AllPassed, Front, FrontCalls, VerifyStageOf, IntakeStageOf;
    hide Names.COMPLETED, Names.BLOCKED, Names.COMMAND_FAILED, Names.INTAKE_REJECTED, Names.PROMOTABLE;
    Names.CommandVerdictsDiffer();
    var calls, stages := FrontCalls(o.mode), Front(o.mode) + [VerifyStageOf(v)];
    FrontFollows(o.mode, v);
    if !Verified(v) {
      var level := if o.mode.Fixture? then Names.FIXTURE_CONTRACT else Names.LIVE_FAILURE;
      EndedFollows(o, parts, v, calls, Names.COMMAND_FAILED, level, stages, [], None, ActionOf(v));
    } else if o.mode.Fixture? {
      EndedFollows(o, parts, v, calls, Names.COMPLETED, Names.FIXTURE_CONTRACT, stages, [], None, ActionOf(v));
    } else {
      var i := parts.intake.value(v.outputDir);
      var accepted := i.verdict == Names.PROMOTABLE;
      IntakeFollows(stages, calls, i, v.outputDir);
      EndedFollows(o, parts, v, calls + [CallIntake(v.outputDir)],
                   if accepted then Names.COMPLETED else Names.INTAKE_REJECTED, i.proofLevel,
                   stages + [IntakeStageOf(i)], if accepted then [] else i.blockers.GetOr([]),
                   Some(OutputDir(o)), i.nextAction);
    }
  }

  lemma FrontFollows(mode: Mode, v: Verification)
    ensures FollowCalls(Front(mode) + [VerifyStageOf(v)], FrontCalls(mode))
    ensures AllPassed(Front(mode) + [VerifyStageOf(v)]) <==> Verified(v)
  {
    hide Verified;
    var stages := Front(mode) + [VerifyStageOf(v)];
    assert stages[|stages| - 1] == VerifyStageOf(v);
  }

  lemma IntakeFollows(stages: seq<Stage>, calls: seq<PartCall>, i: IntakeResult, dir: string)
    requires FollowCalls(stages, calls)
    ensures FollowCalls(stages + [IntakeStageOf(i)], calls + [CallIntake(dir)])
    ensures AllPassed(stages + [IntakeStageOf(i)]) <==> AllPassed(stages) && i.verdict == Names.PROMOTABLE
  {
    hide Names.PROMOTABLE;
    var all := stages + [IntakeStageOf(i)];
    assert all[|stages|] == IntakeStageOf(i);
    assert forall k :: 0 <= k < |stages| ==> all[k] == stages[k];
  }

  lemma EndedFollows(o: Options, parts: Parts, v: Verification, calls: seq<PartCall>, verdict: string,
                     proofLevel: string, stages: seq<Stage>, blockers: seq<Blocker>, intakeDir: Option<string>,
                     nextAction: Action)
    requires FollowCalls(stages, calls)
    ensures var run := Ended(o, parts, v, calls, verdict, proofLevel, stages, blockers, intakeDir, nextAction);
      && run.result.Ok? && run.result.value.verdict == verdict
      && FollowCalls(run.result.value.stages, run.calls)
      && (AllPassed(run.result.value.stages) <==> AllPassed(stages))
  {
    if parts.handoff.Some? {
      var last := HandoffStageOf(parts.handoff.value(v));
      var all := stages + [last];
      assert all[|stages|] == last;
      assert forall k :: 0 <= k < |stages| ==> all[k] == stages[k];
    }
  }

  ghost predicate EvidenceFits(run: Run)
    requires run.result.Ok?
  {
    var e := run.result.value.evidence;
    && (e.readiness.Some? <==> run.result.value.verdict == Names.BLOCKED)
    && (e.verification.Some? <==> CallFixture in run.calls || CallLive in run.calls)
    && (e.intake.Some? <==> exists dir :: CallIntake(dir) in run.calls)
    && (e.handoff.Some? <==> CallHandoff in run.calls)
  }

  /** The evidence of a command that ran names the output of each part that was called, of the
      intake and the handoff exactly when they were, and of a readiness exactly when it blocked. */
  lemma EvidenceTellsTheRun(o: Options, parts: Parts)
    requires CommandRun(o, parts).result.Ok?
    ensures EvidenceFits(CommandRun(o, parts))
  {
    hide Verified, AfterVerification, EvidenceFits, BlockedRun, Names.READY_FOR_LIVE;
    if o.mode.Live? && !Ready(parts) {
      BlockedFits(o, parts.readiness.value);
    } else {
      AfterFits(o, parts, (if o.mode.Fixture? then parts.fixture else parts.live).value);
    }
  }

  lemma BlockedFits(o: Options, r: Readiness)
    ensures EvidenceFits(BlockedRun(o, r))
  {
    hide BlockedStage, READINESS_EVIDENCE, Names.BLOCKED, Names.BLOCKED_BEFORE_LIVE;
  }

  lemma AfterFits(o: Options, parts: Parts, v: Verification)
    requires AfterVerification(o, parts, v).result.Ok?
    ensures EvidenceFits(AfterVerification(o, parts, v))
  {
    hide Verified, ActionOf, VerifyStageOf, IntakeStageOf, HandoffStageOf, Front, FrontCalls, OutputDir;
    hide Names.COMPLETED, Names.BLOCKED, Names.COMMAND_FAILED, Names.INTAKE_REJECTED, Names.PROMOTABLE;
    hide Names.FIXTURE_CONTRACT, Names.LIVE_FAILURE;
    Names.CommandVerdictsDiffer();
    FrontHas(o.mode);
  }

  lemma FrontHas(mode: Mode)
    ensures CallFixture in FrontCalls(mode) || CallLive in FrontCalls(mode)
    ensures CallHandoff !in FrontCalls(mode)
    ensures forall dir :: CallIntake(dir) !in FrontCalls(mode)
  {
    assert mode.Live? ==> FrontCalls(mode)[1] == CallLive;
  }
}
