/** The pipeline end to end: no stage raises a proof level that the stages before it did not earn. */
module NoInflation {
  import opened Prelude
  import opened Text
  import opened LiveVerification
  import opened LiveLaws
  import opened LiveContract
  import opened ProofIntake
  import Command = OneCommand
  import Candidate = RepoAppCandidate
  import opened CiEvidence
  import Names

  /** Everything that one candidate depends on: the command with its readiness check and
      fixture, the live run with its tools, and the candidate's own inputs. */
  datatype Story = Story(
    runId: string,
    mode: Command.Mode,
    commandDir: Option<string>,
    readiness: Option<Command.Readiness>,
    fixture: Option<Command.Verification>,
    handoff: Option<Command.Verification -> string>,
    options: Options,
    installable: bool,
    invoke: Invoker,
    outputDir: string,
    contract: Candidate.Contract,
    contractPath: Option<string>,
    artifactExists: bool,
    intakeAttached: bool)

  function LiveBundle(t: Story): Bundle {
    LiveOutcome(t.options, t.installable, t.invoke).bundle
  }

  /** The intake of an output directory that holds the summary of the live run. */
  function LiveIntake(t: Story, dir: string): Intake {
    IntakeOf(dir, SummaryOf(LiveBundle(t)))
  }

  function ActionOfIntake(a: IntakeAction): Command.Action {
    match a
    case PromoteLiveEvidence =>
      Command.Action("promote_live_evidence",
        "mkdir -p docs/showcase/evidence/mobile-change-live"
        + " && cp -R <live-output-dir> docs/showcase/evidence/mobile-change-live/",
        "The live output looks promotable; copy the source proof directory into tracked showcase evidence"
        + " and review it before committing.")
    case RunOnConnectedDevice =>
      Command.Action("run_on_connected_device_or_self_hosted_runner",
        "pnpm run generate:mobile-change-device-readiness && pnpm run proof:mobile-change-verification:live",
        "This output came from a no-device path; rerun on a connected device or self-hosted runner before promotion.")
    case InspectLiveOutput =>
      Command.Action("inspect_live_proof_output",
        "pnpm run intake:mobile-change-live-proof -- <live-output-dir>",
        "The proof output is incomplete or not a live-device source; inspect the runner output before promotion.")
  }

  function IntakePart(t: Story, dir: string): Command.IntakeResult {
    var r := LiveIntake(t, dir);
    Command.IntakeResult(r.verdict, r.proofLevel, Some(r.blockers), ActionOfIntake(r.nextAction))
  }

  function LivePart(t: Story): Command.Verification {
    Command.Verification(t.outputDir, Some(LiveBundle(t).verdict), None)
  }

  function PartsOf(t: Story): Command.Parts {
    Command.Parts(t.readiness, t.fixture, Some(LivePart(t)), Some(dir => IntakePart(t, dir)), t.handoff)
  }

  function CommandOf(t: Story): Command.Run {
    Command.CommandRun(CommandOptions(t), PartsOf(t))
  }

  function CommandOptions(t: Story): Command.Options {
    Command.Options(t.runId, t.mode, t.commandDir)
  }

  /** The candidate made from the command's result and from the intake, if it is attached. */
  function CandidateFrom(t: Story): Result<Candidate.Candidate, Candidate.CandidateFault>
    requires CommandOf(t).result.Ok?
  {
    var r := CommandOf(t).result.value;
    var i := LiveIntake(t, t.outputDir);
    Candidate.CandidateOf(
      t.runId, t.contract, t.contractPath,
      Candidate.Verification(r.verdict, r.proofLevel, Some(r.blockers)),
      if t.intakeAttached then Some(Candidate.IntakeVerdict(i.verdict, i.proofLevel)) else None,
      t.artifactExists)
  }

  predicate Complete(t: Story) {
    CommandOf(t).result.Ok? && CandidateFrom(t).Ok?
  }

  // ----- what promotion means

  predicate ReadinessPassed(t: Story) {
    t.readiness.Some? && t.readiness.value.verdict == "ready_for_live_mobile_change_verification"
  }

  ghost predicate SomeUnavailable(steps: seq<Step>) {
    SomeCode(steps, "DEVICE_UNAVAILABLE") || SomeCode(steps, "APP_ARTIFACT_UNAVAILABLE")
  }

  ghost predicate MarkedAsForced(dir: string, runId: string) {
    Occurs(dir, "mobile-change-readiness-failure") || Occurs(runId, "readiness-failure")
  }

  /** Live mode, a readiness that passed, a live run that got its device and succeeded in
      every step with nothing unavailable, no mark of a forced run, an intake, an artifact
      and a contract that is not visual only. */
  ghost predicate Earned(t: Story) {
    var steps := LiveBundle(t).steps;
    && t.mode.Live? && ReadinessPassed(t)
    && (exists device :: Goes(t.options, t.installable, t.invoke, device))
    && steps != [] && (forall i :: 0 <= i < |steps| ==> steps[i].status.Success?)
    && !SomeUnavailable(steps) && !MarkedAsForced(t.outputDir, t.options.runId)
    && t.intakeAttached && t.artifactExists && t.contract.proofLevel != "visual_only"
  }

  lemma EarnedIff(t: Story)
    ensures Earned(t)
       <==> && t.mode.Live? && Command.Ready(PartsOf(t))
            && Proceeds(t.options, t.installable, t.invoke)
            && AllSucceeded(LiveBundle(t).steps)
            && !HasCode(LiveBundle(t).steps, Names.DEVICE_UNAVAILABLE)
            && !HasCode(LiveBundle(t).steps, Names.ARTIFACT_UNAVAILABLE)
            && !Controlled(t.outputDir, Some(t.options.runId))
            && t.intakeAttached && t.artifactExists && !Candidate.VisualOnly(t.contract)
  {
    hide LiveBundle, Proceeds, Goes, Controlled, HasCode, Command.Ready, PartsOf;
    hide ReadinessPassed, SomeUnavailable, MarkedAsForced;
    hide Names.DEVICE_UNAVAILABLE, Names.ARTIFACT_UNAVAILABLE;
    GoesSomewhere(t.options, t.installable, t.invoke);
    CodesWritten(LiveBundle(t).steps);
    MarksWritten(t.outputDir, t.options.runId);
    ReadyWritten(t);
  }

  lemma GoesSomewhere(o: Options, artifactExists: bool, invoke: Invoker)
    ensures (exists device :: Goes(o, artifactExists, invoke, device)) <==> Proceeds(o, artifactExists, invoke)
  {
    hide Goes, Device;
    if Proceeds(o, artifactExists, invoke) {
      GoesIff(o, artifactExists, invoke, Device(o, invoke).value);
    }
    if exists device :: Goes(o, artifactExists, invoke, device) {
      var device :| Goes(o, artifactExists, invoke, device);
      GoesIff(o, artifactExists, invoke, device);
    }
  }

  lemma CodesWritten(steps: seq<Step>)
    ensures HasCode(steps, Names.DEVICE_UNAVAILABLE) || HasCode(steps, Names.ARTIFACT_UNAVAILABLE)
       <==> SomeUnavailable(steps)
  {
  }

  lemma MarksWritten(dir: string, runId: string)
    ensures Controlled(dir, Some(runId)) <==> MarkedAsForced(dir, runId)
  {
    hide Contains, Occurs;
    ContainsIff(dir, "mobile-change-readiness-failure");
    ContainsIff(runId, "readiness-failure");
  }

  lemma ReadyWritten(t: Story)
    ensures Command.Ready(PartsOf(t)) <==> ReadinessPassed(t)
  {
    hide LivePart, IntakePart, Names.READY_FOR_LIVE;
    ReadyName();
  }

  lemma ReadyName()
    ensures Names.READY_FOR_LIVE == "ready_for_live_mobile_change_verification"
  {
  }

  /** The live run is verified and its intake promotable. */
  predicate LiveProven(t: Story) {
    LiveBundle(t).verdict == Names.CHANGE_VERIFIED && LiveIntake(t, t.outputDir).verdict == Names.PROMOTABLE
  }

  lemma LiveProvenIff(t: Story)
    ensures LiveProven(t)
       <==> && Proceeds(t.options, t.installable, t.invoke)
            && AllSucceeded(LiveBundle(t).steps)
            && !HasCode(LiveBundle(t).steps, Names.DEVICE_UNAVAILABLE)
            && !HasCode(LiveBundle(t).steps, Names.ARTIFACT_UNAVAILABLE)
            && !Controlled(t.outputDir, Some(t.options.runId))
    ensures LiveProven(t) ==> LiveIntake(t, t.outputDir).proofLevel == Names.PHYSICAL_CANDIDATE
    ensures LiveProven(t) ==> LiveIntake(t, t.outputDir).blockers == []
  {
    hide Proceeds, AllSucceeded, HasCode, Controlled, LiveOutcome, IntakeOf, SummaryOf, LiveSteps;
    hide Names.CHANGE_VERIFIED, Names.PROMOTABLE;
    var b := LiveBundle(t);
    LiveRunPromotableIff(t.options, t.installable, t.invoke, t.outputDir);
    VerdictIff(b.steps);
    LiveVerdict(t);
    PromotableIff(t.outputDir, SummaryOf(b));
  }

  lemma LiveVerdict(t: Story)
    ensures LiveBundle(t).verdict == VerdictFromSteps(LiveBundle(t).steps)
  {
    hide LiveSteps, LivePacket, LiveArtifacts, VerdictFromSteps;
  }

  /** The command completes with the physical level exactly behind readiness and a proven live run. */
  lemma CommandPhysicalIff(t: Story)
    ensures Command.CompletedPhysical(CommandOf(t))
       <==> t.mode.Live? && Command.Ready(PartsOf(t)) && LiveProven(t)
  {
    hide Command.CommandRun, Command.Ready, Command.CompletedPhysical, LiveBundle, IntakeOf, SummaryOf;
    hide Names.CHANGE_VERIFIED, Names.PROMOTABLE, Names.PHYSICAL_CANDIDATE;
    Command.PhysicalIff(CommandOptions(t), PartsOf(t));
    LiveProvenIff(t);
  }

  /** A candidate is promoted exactly when everything behind it was earned. */
  lemma PromotedIffEarned(t: Story)
    requires Complete(t)
    ensures CandidateFrom(t).value.promoted <==> Earned(t)
  {
    hide Command.CommandRun, Command.Ready, LiveBundle, LiveIntake, Proceeds, AllSucceeded, HasCode, Controlled;
    hide Candidate.CandidateOf, Candidate.VisualOnly, Earned;
    hide Names.COMPLETED, Names.PROMOTABLE, Names.PHYSICAL_CANDIDATE, Names.CHANGE_VERIFIED;
    hide Names.DEVICE_UNAVAILABLE, Names.ARTIFACT_UNAVAILABLE;
    EarnedIff(t);
    var r := CommandOf(t).result.value;
    var i := LiveIntake(t, t.outputDir);
    var v := Candidate.Verification(r.verdict, r.proofLevel, Some(r.blockers));
    var attached := if t.intakeAttached then Some(Candidate.IntakeVerdict(i.verdict, i.proofLevel)) else None;
    Candidate.PromotedIff(t.runId, t.contract, t.contractPath, v, attached, t.artifactExists);
    CommandPhysicalIff(t);
    LiveProvenIff(t);
    if r.verdict == Names.COMPLETED {
      Command.CompletedIsClear(CommandOptions(t), PartsOf(t));
    }
  }

  predicate LiveGatesPassed(calls: seq<Command.PartCall>, outputDir: string) {
    [Command.CallReadiness, Command.CallLive, Command.CallIntake(outputDir)] <= calls
  }

  /** What is behind a promoted candidate: readiness was asked first and live verification
      second, one session was kept in order, the expected phase was seen, and the intake
      had no blockers. */
  lemma PromotionHistory(t: Story) returns (asked: seq<Call>)
    requires Complete(t) && CandidateFrom(t).value.promoted
    ensures LiveGatesPassed(CommandOf(t).calls, t.outputDir)
    ensures Disciplined(LiveTrace(t.options, t.installable, t.invoke), SessionId(t.options))
    ensures asked != [] && asked[|asked| - 1].tool == GetScreenSummary
    ensures asked <= LiveTrace(t.options, t.installable, t.invoke) && ReadinessMatches(t.invoke(asked), t.options)
    ensures LiveIntake(t, t.outputDir).blockers == []
  {
    hide LiveTrace, Proceeds, AllSucceeded, HasCode, Controlled, LiveBundle, LiveIntake, CommandOf, CandidateFrom;
    hide Disciplined, SessionId, ReadinessMatches, Command.Ready, PartsOf, Earned;
    EarnedIff(t);
    PromotedIffEarned(t);
    LiveProvenIff(t);
    SessionDiscipline(t.options, t.installable, t.invoke);
    BundleVerdict(t);
    asked := VerifiedSawPhase(t.options, t.installable, t.invoke);
    LiveCalls(t);
  }

  lemma BundleVerdict(t: Story)
    requires LiveProven(t)
    ensures LiveOutcome(t.options, t.installable, t.invoke).bundle.verdict == Names.CHANGE_VERIFIED
  {
    hide LiveOutcome, LiveIntake;
  }

  lemma LiveCalls(t: Story)
    requires t.mode.Live? && Command.Ready(PartsOf(t)) && LiveBundle(t).verdict == Names.CHANGE_VERIFIED
    ensures LiveGatesPassed(CommandOf(t).calls, t.outputDir)
  {
    hide LiveBundle, IntakePart, Command.AfterVerification, Command.BlockedRun;
    Command.AfterCalls(CommandOptions(t), PartsOf(t), LivePart(t));
  }

  // ----- continuous integration

  /** A candidate with the story that it comes from and the path of its file. */
  datatype Submission = Submission(story: Story, path: string, candidate: Candidate.Candidate)

  /** The candidate is the one that the pipeline builds from the story. */
  predicate Genuine(x: Submission) {
    Complete(x.story) && CandidateFrom(x.story) == Ok(x.candidate)
  }

  predicate AllGenuine(xs: seq<Submission>) {
    forall k :: 0 <= k < |xs| ==> Genuine(xs[k])
  }

  ghost predicate AllEarned(xs: seq<Submission>) {
    forall k :: 0 <= k < |xs| ==> Earned(xs[k].story)
  }

  function SourcesOf(xs: seq<Submission>): (ss: seq<Source>)
    ensures |ss| == |xs|
  {
    seq(|xs|, k requires 0 <= k < |xs| => SourceOf(xs[k].path, xs[k].candidate))
  }

  lemma SourceOfSubmission(x: Submission)
    requires Genuine(x)
    ensures var s := SourceOf(x.path, x.candidate);
      && !Rejected(s)
      && (Clear(s) <==> Earned(x.story))
      && (Clear(s) ==> s.proofLevel == Names.PHYSICAL_CANDIDATE)
  {
    hide Earned, Clear, Rejected, CommandOf, LiveIntake, Candidate.CandidateOf, SourceOf;
    hide Names.PHYSICAL_CANDIDATE;
    var t := x.story;
    var r := CommandOf(t).result.value;
    var i := LiveIntake(t, t.outputDir);
    SourceOfBuilt(x.path, t.runId, t.contract, t.contractPath,
                  Candidate.Verification(r.verdict, r.proofLevel, Some(r.blockers)),
                  if t.intakeAttached then Some(Candidate.IntakeVerdict(i.verdict, i.proofLevel)) else None,
                  t.artifactExists);
    PromotedIffEarned(t);
    SourcePromoted(x.path, x.candidate);
  }

  lemma SourcePromoted(path: string, c: Candidate.Candidate)
    ensures SourceOf(path, c).promoted == c.promoted
  {
  }

  /** No inflation: over any list of candidates, CI says success exactly when every one of
      them was earned, and it never says failure. */
  lemma NoProofInflation(runId: string, xs: seq<Submission>)
    requires |xs| > 0 && AllGenuine(xs)
    ensures EvidenceOf(runId, SourcesOf(xs)).conclusion.Success? <==> AllEarned(xs)
    ensures !EvidenceOf(runId, SourcesOf(xs)).conclusion.Failure?
    ensures Valid(EvidenceOf(runId, SourcesOf(xs)))
  {
    hide EvidenceOf, Earned, Genuine, Clear, SourceOf, Rejected, Valid, Names.PHYSICAL_CANDIDATE;
    var ss := SourcesOf(xs);
    SuccessIff(runId, ss);
    forall k | 0 <= k < |xs|
      ensures !Rejected(ss[k])
      ensures Clear(ss[k]) <==> Earned(xs[k].story)
      ensures Clear(ss[k]) ==> ss[k].proofLevel == Names.PHYSICAL_CANDIDATE
    {
      SourceOfSubmission(xs[k]);
    }
    NeverFailure(runId, ss);
    EvidenceIsValid(runId, ss);
  }
}
