/** The success candidate of the app that the repository owns. */
module RepoAppCandidate {
  import opened Prelude
  import OneCommand
  import Names

  type Blocker = Names.Blocker

  datatype Contract = Contract(
    schema: string,
    platform: string,
    appId: string,
    appArtifact: Option<string>,
    runnerProfile: string,
    policyProfile: string,
    entryKind: string,
    resetKind: string,
    proofLevel: string,
    screenId: Option<string>,
    appPhase: Option<string>,
    selectorValue: Option<string>,
    visualHint: Option<string>)

  datatype ContractFault =
    | WrongSchema | WrongPlatform | NoAppId | NoRunner | NoPolicy | NoEntry | NoReset | NoVisualHint | NoSignal

  datatype Strength = Strength(strong: bool, warnings: seq<string>)

  predicate HasSignal(c: Contract) {
    Given(c.screenId) || Given(c.appPhase) || Given(c.selectorValue)
  }

  predicate VisualOnly(c: Contract) {
    c.proofLevel == "visual_only"
  }

  predicate AndroidPlatform(c: Contract) {
    c.platform == "android"
  }

  function ValidateContract(c: Contract): Result<Strength, ContractFault> {
    if c.schema != "mobile-change-readiness-contract/v1" then Err(WrongSchema)
    else if !AndroidPlatform(c) && c.platform != "ios" then Err(WrongPlatform)
    else if c.appId == "" then Err(NoAppId)
    else if c.runnerProfile == "" then Err(NoRunner)
    else if c.policyProfile == "" then Err(NoPolicy)
    else if c.entryKind == "" then Err(NoEntry)
    else if c.resetKind == "" then Err(NoReset)
    else if VisualOnly(c) then
      if Given(c.visualHint) then Ok(Strength(false, ["visual_only_readiness_cannot_promote_strong_proof"]))
      else Err(NoVisualHint)
    else if HasSignal(c) then Ok(Strength(true, []))
    else Err(NoSignal)
  }

  datatype Verification = Verification(verdict: string, proofLevel: string, blockers: Option<seq<Blocker>>)

  datatype IntakeVerdict = IntakeVerdict(verdict: string, proofLevel: string)

  datatype Candidate = Candidate(
    runId: string,
    verdict: string,
    promoted: bool,
    contract: Contract,
    artifactPath: string,
    artifactExists: bool,
    strong: bool,
    verification: Verification,
    intake: Option<IntakeVerdict>,
    blockers: seq<Blocker>,
    nextAction: OneCommand.Action)

  datatype CandidateFault = NotAndroid | BadContract(fault: ContractFault)

  // ----- building

  predicate PhysicalCompletion(v: Verification) {
    v.verdict == Names.COMPLETED && v.proofLevel == Names.PHYSICAL_CANDIDATE
  }

  predicate PhysicalIntake(i: Option<IntakeVerdict>) {
    i.Some? && i.value.verdict == Names.PROMOTABLE && i.value.proofLevel == Names.PHYSICAL_CANDIDATE
  }

  function VerdictForInput(v: Verification, i: Option<IntakeVerdict>): string {
    if v.verdict == Names.BLOCKED then Names.CANDIDATE_BLOCKED
    else if PhysicalCompletion(v) && PhysicalIntake(i) then Names.SUCCESS_PROMOTED
    else if PhysicalCompletion(v) then Names.PENDING_INTAKE
    else Names.OUTPUT_NOT_PROMOTABLE
  }

  function ArtifactBlocker(c: Contract): Blocker {
    Names.Blocker(Names.ARTIFACT_UNAVAILABLE,
      "Repo-owned app artifact is missing: " + c.appArtifact.GetOr("not-specified") + ".")
  }

  function ContractBlocker(s: Strength): Blocker {
    Names.Blocker(Names.CONTRACT_NOT_STRONG, "Readiness contract is not strong proof ready: " + Commas(s.warnings))
  }

  function Commas(ss: seq<string>): string {
    if ss == [] then "" else if |ss| == 1 then ss[0] else ss[0] + "," + Commas(ss[1..])
  }

  function NextKind(verdict: string): string {
    if verdict == Names.CANDIDATE_BLOCKED then "connect_device_and_run_repo_app_live_proof"
    else if verdict == Names.PENDING_INTAKE then "run_live_proof_intake"
    else if verdict == Names.SUCCESS_PROMOTED then "attach_repo_app_success_evidence"
    else "inspect_repo_app_output"
  }

  function NextCommand(verdict: string, runId: string, contractPath: Option<string>): string {
    if verdict == Names.CANDIDATE_BLOCKED then
      var contractArg := if Given(contractPath) then " --contract=" + contractPath.value else "";
      "pnpm run verify:mobile-change -- --live" + contractArg + " --run-id=" + runId
    else if verdict == Names.PENDING_INTAKE then
      "pnpm run intake:mobile-change-live-proof -- <repo-app-live-output-dir>"
    else if verdict == Names.SUCCESS_PROMOTED then "pnpm run validate:mobile-change-repo-app-success-candidate"
    else "pnpm run verify:mobile-change -- --live --contract=configs/readiness/demo-android-app.android.json"
  }

  function NextReason(verdict: string): string {
    if verdict == Names.CANDIDATE_BLOCKED then
      "Connect an authorized Android device or explicitly labeled emulator,"
      + " then rerun the repo-owned app live proof."
    else if verdict == Names.PENDING_INTAKE then
      "The live run completed, but the output still needs intake before tracked success promotion."
    else if verdict == Names.SUCCESS_PROMOTED then
      "Attach the accepted repo-owned app success evidence to review or release notes."
    else "Inspect the live output and blockers before retrying or changing the app contract."
  }

  function NextAction(verdict: string, runId: string, contractPath: Option<string>): OneCommand.Action {
    OneCommand.Action(NextKind(verdict), NextCommand(verdict, runId, contractPath), NextReason(verdict))
  }

  function CandidateBlockers(c: Contract, s: Strength, v: Verification, artifactExists: bool): seq<Blocker> {
    v.blockers.GetOr([])
    + (if artifactExists then [] else [ArtifactBlocker(c)])
    + (if s.strong then [] else [ContractBlocker(s)])
  }

  function CandidateVerdict(blockers: seq<Blocker>, v: Verification, i: Option<IntakeVerdict>): string {
    if blockers == [] then VerdictForInput(v, i)
    else if v.verdict == Names.BLOCKED then Names.CANDIDATE_BLOCKED
    else Names.OUTPUT_NOT_PROMOTABLE
  }

  function CandidateOf(runId: string, c: Contract, contractPath: Option<string>, v: Verification,
                       i: Option<IntakeVerdict>, artifactExists: bool): Result<Candidate, CandidateFault> {
    if !AndroidPlatform(c) then Err(NotAndroid)
    else match ValidateContract(c)
      case Err(fault) => Err(BadContract(fault))
      case Ok(s) =>
        var blockers := CandidateBlockers(c, s, v, artifactExists);
        var verdict := CandidateVerdict(blockers, v, i);
        Ok(Candidate(runId, verdict, verdict == Names.SUCCESS_PROMOTED, c, c.appArtifact.GetOr(""), artifactExists,
                     s.strong, v, i, blockers, NextAction(verdict, runId, contractPath)))
  }

  /** The builder computes the specified candidate, which is what its inputs say. */
  method BuildCandidate(runId: string, c: Contract, contractPath: Option<string>, v: Verification,
                        i: Option<IntakeVerdict>, artifactExists: bool) returns (r: Result<Candidate, CandidateFault>)
    ensures r == CandidateOf(runId, c, contractPath, v, i, artifactExists)
    ensures CandidateWritten(c, v, i, artifactExists, r)
  {
    hide ValidateContract, ArtifactBlocker, ContractBlocker, VerdictForInput, NextAction;
    hide AndroidPlatform, CandidateWritten;
    CandidateIs(runId, c, contractPath, v, i, artifactExists);
    if !AndroidPlatform(c) { return Err(NotAndroid); }
    var checkedContract := ValidateContract(c);
    if checkedContract.Err? { return Err(BadContract(checkedContract.error)); }
    var s := checkedContract.value;
    var blockers := v.blockers.GetOr([]);
    if !artifactExists {
      blockers := blockers + [ArtifactBlocker(c)];
    }
    if !s.strong {
      blockers := blockers + [ContractBlocker(s)];
    }
    assert blockers == CandidateBlockers(c, s, v, artifactExists);
    var verdict := VerdictForInput(v, i);
    if |blockers| > 0 {
      verdict := if v.verdict == Names.BLOCKED then Names.CANDIDATE_BLOCKED else Names.OUTPUT_NOT_PROMOTABLE;
    }
    return Ok(Candidate(runId, verdict, verdict == Names.SUCCESS_PROMOTED, c, c.appArtifact.GetOr(""), artifactExists,
                        s.strong, v, i, blockers, NextAction(verdict, runId, contractPath)));
  }

  // ----- validation

  /** The assertions of the validator; the result says whether the candidate is promotable. */
  function Validate(c: Candidate): Option<bool> {
    if c.contract.appId == "" || c.artifactPath == "" || !c.artifactExists || !c.strong || !HasSignal(c.contract)
       || !AndroidPlatform(c.contract) then None
    else if c.promoted || c.verdict == Names.SUCCESS_PROMOTED then
      if PhysicalCompletion(c.verification) && PhysicalIntake(c.intake) && c.blockers == [] then Some(true) else None
    else Some(false)
  }

  // ----- the candidate, written out

  predicate Filled(o: Option<string>) {
    o.Some? && o.value != ""
  }

  /** A contract that passes its own validation. */
  predicate Sound(c: Contract) {
    && c.schema == "mobile-change-readiness-contract/v1" && (c.platform == "android" || c.platform == "ios")
    && c.appId != "" && c.runnerProfile != "" && c.policyProfile != "" && c.entryKind != "" && c.resetKind != ""
    && (if c.proofLevel == "visual_only" then Filled(c.visualHint)
        else Filled(c.screenId) || Filled(c.appPhase) || Filled(c.selectorValue))
  }

  lemma SoundIff(c: Contract)
    ensures ValidateContract(c).Ok? <==> Sound(c)
    ensures ValidateContract(c).Ok? ==> (ValidateContract(c).value.strong <==> c.proofLevel != "visual_only")
    ensures AndroidPlatform(c) <==> c.platform == "android"
  {
  }

  predicate Physical(v: Verification) {
    v.verdict == "completed" && v.proofLevel == "physical_or_emulator_candidate"
  }

  predicate Accepted(i: Option<IntakeVerdict>) {
    i == Some(IntakeVerdict("promotable_live_proof_candidate", "physical_or_emulator_candidate"))
  }

  predicate VerdictWritten(v: Verification, i: Option<IntakeVerdict>, clear: bool, verdict: string) {
    verdict ==
      if v.verdict == "blocked" then "blocked_before_live_success"
      else if !clear then "not_promotable_repo_app_output"
      else if Physical(v) && Accepted(i) then "repo_app_live_success_promoted"
      else if Physical(v) then "live_success_pending_intake"
      else "not_promotable_repo_app_output"
  }

  /** The verification's blockers, then one for a missing artifact and one for a weak contract. */
  predicate BlockersWritten(c: Contract, v: Verification, artifactExists: bool, blockers: seq<Blocker>) {
    var prior := v.blockers.GetOr([]);
    var strong := c.proofLevel != "visual_only";
    && |blockers| == |prior| + (if artifactExists then 0 else 1) + (if strong then 0 else 1)
    && prior <= blockers
    && (!artifactExists ==> blockers[|prior|].reasonCode == "APP_ARTIFACT_UNAVAILABLE")
    && (!strong ==> blockers[|blockers| - 1].reasonCode == "READINESS_CONTRACT_NOT_STRONG")
  }

  /** What the builder makes of its inputs. */
  predicate CandidateWritten(c: Contract, v: Verification, i: Option<IntakeVerdict>, artifactExists: bool,
                             r: Result<Candidate, CandidateFault>) {
    && (r.Ok? <==> c.platform == "android" && Sound(c))
    && (r.Ok? ==>
          && VerdictWritten(v, i, r.value.blockers == [], r.value.verdict)
          && r.value.promoted == (r.value.verdict == "repo_app_live_success_promoted")
          && BlockersWritten(c, v, artifactExists, r.value.blockers)
          && r.value.strong == (c.proofLevel != "visual_only") && r.value.artifactExists == artifactExists
          && r.value.verification == v && r.value.intake == i && r.value.contract == c
          && ActionWritten(r.value.verdict, r.value.nextAction.kind))
  }

  /** The next action of each verdict. */
  predicate ActionWritten(verdict: string, kind: string) {
    kind ==
      if verdict == "blocked_before_live_success" then "connect_device_and_run_repo_app_live_proof"
      else if verdict == "live_success_pending_intake" then "run_live_proof_intake"
      else if verdict == "repo_app_live_success_promoted" then "attach_repo_app_success_evidence"
      else "inspect_repo_app_output"
  }

  lemma ActionIs(verdict: string, runId: string, contractPath: Option<string>)
    ensures ActionWritten(verdict, NextAction(verdict, runId, contractPath).kind)
  {
    hide NextCommand, NextReason, Names.CANDIDATE_BLOCKED, Names.PENDING_INTAKE, Names.SUCCESS_PROMOTED;
    CandidateNames();
  }

  lemma VerificationMeans(v: Verification, i: Option<IntakeVerdict>)
    ensures PhysicalCompletion(v) <==> Physical(v)
    ensures PhysicalIntake(i) <==> Accepted(i)
  {
  }

  lemma CandidateNames()
    ensures Names.BLOCKED == "blocked" && Names.CANDIDATE_BLOCKED == "blocked_before_live_success"
    ensures Names.PENDING_INTAKE == "live_success_pending_intake"
    ensures Names.SUCCESS_PROMOTED == "repo_app_live_success_promoted"
  {
  }

  lemma OutputName()
    ensures Names.OUTPUT_NOT_PROMOTABLE == "not_promotable_repo_app_output"
  {
  }

  lemma VerdictIs(blockers: seq<Blocker>, v: Verification, i: Option<IntakeVerdict>)
    ensures VerdictWritten(v, i, blockers == [], CandidateVerdict(blockers, v, i))
  {
    hide PhysicalCompletion, PhysicalIntake, Physical, Accepted;
    hide Names.BLOCKED, Names.CANDIDATE_BLOCKED, Names.PENDING_INTAKE, Names.SUCCESS_PROMOTED;
    hide Names.OUTPUT_NOT_PROMOTABLE;
    VerificationMeans(v, i);
    CandidateNames();
    OutputName();
  }

  lemma BlockerCodes(c: Contract, s: Strength)
    ensures ArtifactBlocker(c).reasonCode == "APP_ARTIFACT_UNAVAILABLE"
    ensures ContractBlocker(s).reasonCode == "READINESS_CONTRACT_NOT_STRONG"
  {
    hide Commas;
  }

  lemma BlockersAre(c: Contract, s: Strength, v: Verification, artifactExists: bool)
    requires s.strong <==> c.proofLevel != "visual_only"
    ensures BlockersWritten(c, v, artifactExists, CandidateBlockers(c, s, v, artifactExists))
  {
    hide ArtifactBlocker, ContractBlocker;
    BlockerCodes(c, s);
  }

  /** The built candidate is what its inputs say. */
  lemma CandidateIs(runId: string, c: Contract, contractPath: Option<string>, v: Verification,
                    i: Option<IntakeVerdict>, artifactExists: bool)
    ensures CandidateWritten(c, v, i, artifactExists, CandidateOf(runId, c, contractPath, v, i, artifactExists))
  {
    hide ValidateContract, AndroidPlatform, Sound, CandidateVerdict, CandidateBlockers, VerdictWritten;
    hide BlockersWritten, NextAction, ActionWritten, Names.SUCCESS_PROMOTED;
    SoundIff(c);
    CandidateNames();
    if AndroidPlatform(c) && ValidateContract(c).Ok? {
      var s := ValidateContract(c).value;
      BlockersAre(c, s, v, artifactExists);
      VerdictIs(CandidateBlockers(c, s, v, artifactExists), v, i);
      ActionIs(CandidateVerdict(CandidateBlockers(c, s, v, artifactExists), v, i), runId, contractPath);
    }
  }

  // ----- promotion

  lemma StrengthIff(c: Contract)
    requires ValidateContract(c).Ok?
    ensures ValidateContract(c).value.strong <==> !VisualOnly(c)
    ensures !VisualOnly(c) ==> HasSignal(c)
    ensures c.appId != ""
  {
    hide VisualOnly, HasSignal, AndroidPlatform;
  }

  /** A built candidate is promoted exactly when the verification completed with physical
      proof and no blockers, the intake accepts it as physical, the artifact exists and the
      contract is strong. */
  lemma PromotedIff(runId: string, c: Contract, contractPath: Option<string>, v: Verification,
                    i: Option<IntakeVerdict>, artifactExists: bool)
    requires CandidateOf(runId, c, contractPath, v, i, artifactExists).Ok?
    ensures CandidateOf(runId, c, contractPath, v, i, artifactExists).value.promoted
       <==> && PhysicalCompletion(v) && v.blockers.GetOr([]) == [] && PhysicalIntake(i)
            && artifactExists && !VisualOnly(c)
  {
    hide ValidateContract, ArtifactBlocker, ContractBlocker, NextAction, PhysicalIntake, VisualOnly, AndroidPlatform;
    hide Names.COMPLETED, Names.BLOCKED, Names.PHYSICAL_CANDIDATE;
    hide Names.SUCCESS_PROMOTED, Names.CANDIDATE_BLOCKED, Names.PENDING_INTAKE, Names.OUTPUT_NOT_PROMOTABLE;
    Names.CandidateVerdictsDiffer();
    Names.CommandVerdictsDiffer();
    StrengthIff(c);
  }

  /** What a promoted candidate holds. */
  lemma PromotedShape(runId: string, c: Contract, contractPath: Option<string>, v: Verification,
                      i: Option<IntakeVerdict>, artifactExists: bool)
    requires CandidateOf(runId, c, contractPath, v, i, artifactExists).Ok?
    ensures var r := CandidateOf(runId, c, contractPath, v, i, artifactExists).value;
      && (r.promoted <==> r.verdict == Names.SUCCESS_PROMOTED)
      && (r.promoted ==> r.blockers == [] && r.intake == i && PhysicalIntake(i))
      && (r.verdict == Names.CANDIDATE_BLOCKED || r.verdict == Names.PENDING_INTAKE
          || r.verdict == Names.SUCCESS_PROMOTED || r.verdict == Names.OUTPUT_NOT_PROMOTABLE)
  {
    hide ValidateContract, ArtifactBlocker, ContractBlocker, NextAction, PhysicalIntake, AndroidPlatform;
    hide Names.SUCCESS_PROMOTED, Names.CANDIDATE_BLOCKED, Names.PENDING_INTAKE, Names.OUTPUT_NOT_PROMOTABLE;
    Names.CandidateVerdictsDiffer();
  }

  /** A built candidate is called blocked exactly when its verification was. */
  lemma BlockedIff(runId: string, c: Contract, contractPath: Option<string>, v: Verification,
                   i: Option<IntakeVerdict>, artifactExists: bool)
    requires CandidateOf(runId, c, contractPath, v, i, artifactExists).Ok?
    ensures CandidateOf(runId, c, contractPath, v, i, artifactExists).value.verdict == Names.CANDIDATE_BLOCKED
       <==> v.verdict == Names.BLOCKED
  {
    hide ValidateContract, ArtifactBlocker, ContractBlocker, NextAction, PhysicalIntake, AndroidPlatform;
    hide PhysicalCompletion, CandidateBlockers, Names.BLOCKED;
    hide Names.SUCCESS_PROMOTED, Names.CANDIDATE_BLOCKED, Names.PENDING_INTAKE, Names.OUTPUT_NOT_PROMOTABLE;
    Names.CandidateVerdictsDiffer();
  }

  /** The validator takes a built candidate exactly when the artifact is named and exists
      and the contract is strong; it then calls it promotable exactly when it is promoted. */
  lemma BuiltValidIff(runId: string, c: Contract, contractPath: Option<string>, v: Verification,
                      i: Option<IntakeVerdict>, artifactExists: bool)
    requires CandidateOf(runId, c, contractPath, v, i, artifactExists).Ok?
    ensures var r := CandidateOf(runId, c, contractPath, v, i, artifactExists).value;
      && (Validate(r).Some? <==> Given(c.appArtifact) && artifactExists && !VisualOnly(c))
      && (Validate(r).Some? ==> Validate(r).value == r.promoted)
  {
    hide ValidateContract, ArtifactBlocker, ContractBlocker, NextAction, HasSignal, VisualOnly, AndroidPlatform;
    hide PhysicalCompletion, PhysicalIntake, CandidateVerdict, CandidateBlockers;
    StrengthIff(c);
    PromotedShape(runId, c, contractPath, v, i, artifactExists);
    PromotedIff(runId, c, contractPath, v, i, artifactExists);
  }
}
