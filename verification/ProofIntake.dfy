/** The intake of live proof: which verification summaries may be promoted. */
module ProofIntake {
  import opened Prelude
  import opened Text
  import opened Json
  import opened LiveVerification
  import opened LiveLaws
  import Names

  type Blocker = Names.Blocker

  datatype StepRef = StepRef(id: Option<string>, reasonCode: Option<string>)

  datatype ArtifactRef = ArtifactRef(kind: Option<string>, path: Option<string>)

  /** A summary as read from a file: every field can be missing. */
  datatype Summary = Summary(
    runId: Option<string>,
    source: Option<string>,
    verdict: Option<string>,
    matched: Option<bool>,
    stepIds: Option<seq<string>>,
    steps: Option<seq<StepRef>>,
    artifacts: Option<seq<ArtifactRef>>)

  datatype IntakeAction = PromoteLiveEvidence | RunOnConnectedDevice | InspectLiveOutput

  datatype Intake = Intake(
    sourceDir: string,
    runId: string,
    verdict: string,
    proofLevel: string,
    source: string,
    verificationVerdict: string,
    matched: Option<bool>,
    artifacts: seq<(string, string)>,
    blockers: seq<Blocker>,
    nextAction: IntakeAction)

  // ----- artifacts

  predicate Usable(r: ArtifactRef) {
    Given(r.kind) && Given(r.path)
  }

  function Compact(refs: seq<ArtifactRef>): seq<(string, string)> {
    if refs == [] then []
    else
      var front, last := Compact(refs[..|refs| - 1]), refs[|refs| - 1];
      if Usable(last) && (last.kind.value, last.path.value) !in front
      then front + [(last.kind.value, last.path.value)]
      else front
  }

  method CompactArtifacts(refs: seq<ArtifactRef>) returns (r: seq<(string, string)>)
    ensures r == Compact(refs)
  {
    r := [];
    for i := 0 to |refs|
      invariant r == Compact(refs[..i])
    {
      assert refs[..i + 1][..i] == refs[..i];
      if !Usable(refs[i]) { continue; }
      var known := false;
      for j := 0 to |r|
        invariant known <==> (refs[i].kind.value, refs[i].path.value) in r[..j]
      {
        if r[j].0 == refs[i].kind.value && r[j].1 == refs[i].path.value { known := true; }
      }
      assert r[..|r|] == r;
      if !known {
        r := r + [(refs[i].kind.value, refs[i].path.value)];
      }
    }
    assert refs[..|refs|] == refs;
  }

  /** The compact list has no duplicates and holds exactly the usable artifacts. */
  lemma {:induction false} CompactHolds(refs: seq<ArtifactRef>)
    ensures var c := Compact(refs);
      && (forall i, j :: 0 <= i < j < |c| ==> c[i] != c[j])
      && (forall a :: a in c <==> ArtifactRef(Some(a.0), Some(a.1)) in refs && a.0 != "" && a.1 != "")
  {
    if refs != [] {
      var n := |refs| - 1;
      CompactHolds(refs[..n]);
      assert refs == refs[..n] + [refs[n]];
    }
  }

  /** It keeps the order of first appearance: a front part of the list compacts to a front
      part of the result. */
  lemma {:induction false} CompactFront(refs: seq<ArtifactRef>, n: nat)
    requires n <= |refs|
    ensures Compact(refs[..n]) <= Compact(refs)
  {
    if n == |refs| {
      assert refs[..n] == refs;
    } else {
      CompactFront(refs[..|refs| - 1], n);
      assert refs[..|refs| - 1][..n] == refs[..n];
    }
  }

  // ----- blockers

  function RequiredSteps(): seq<string> {
    [Names.DISCOVER_DEVICE, Names.START_SESSION, Names.LAUNCH_APP, Names.INSPECT_READINESS,
     Names.CHECK_READINESS, Names.CLOSE_SESSION]
  }

  predicate HasStep(s: Summary, id: string) {
    s.stepIds.Some? && id in s.stepIds.value
  }

  predicate HasReason(s: Summary, code: string) {
    s.steps.Some? && exists i :: 0 <= i < |s.steps.value| && s.steps.value[i].reasonCode == Some(code)
  }

  /** The markers of forced or controlled output, in the directory or in the run id. */
  predicate Controlled(sourceDir: string, runId: Option<string>) {
    Contains(sourceDir, "mobile-change-readiness-failure")
    || (runId.Some? && Contains(runId.value, "readiness-failure"))
  }

  function Missing(s: Summary, ids: seq<string>): seq<string> {
    if ids == [] then []
    else Missing(s, ids[..|ids| - 1]) + (if HasStep(s, ids[|ids| - 1]) then [] else [ids[|ids| - 1]])
  }

  function SourceBlocker(s: Summary): Blocker {
    Names.Blocker(Names.NOT_LIVE_DEVICE_SOURCE, "Expected source live_device, got " + s.source.GetOr("unknown") + ".")
  }

  function DeviceBlocker(): Blocker {
    Names.Blocker(Names.DEVICE_UNAVAILABLE, "The live runner did not discover an eligible device.")
  }

  function ControlledBlocker(): Blocker {
    Names.Blocker(Names.CONTROLLED_OUTPUT,
      "The summary boundary identifies this output as forced or controlled rather than physical-device proof.")
  }

  function ReadinessBlocker(): Blocker {
    Names.Blocker(Names.READINESS_NOT_MATCHED,
      "The proof claims verification success while readiness did not match.")
  }

  function StepBlocker(id: string): Blocker {
    Names.Blocker(Names.REQUIRED_STEP_MISSING, "Missing required live proof step: " + id + ".")
  }

  function StepBlockers(ids: seq<string>): seq<Blocker> {
    seq(|ids|, i requires 0 <= i < |ids| => StepBlocker(ids[i]))
  }

  predicate NotLive(s: Summary) {
    s.source != Some(Names.LIVE_DEVICE)
  }

  predicate LacksDevice(s: Summary) {
    s.verdict == Some(Names.NO_DEVICE) || HasReason(s, Names.DEVICE_UNAVAILABLE)
  }

  predicate Contradictory(s: Summary) {
    s.matched == Some(false) && s.verdict == Some(Names.CHANGE_VERIFIED)
  }

  function If(c: bool, b: Blocker): seq<Blocker> {
    if c then [b] else []
  }

  function IntakeBlockers(sourceDir: string, s: Summary): seq<Blocker> {
    If(NotLive(s), SourceBlocker(s))
    + If(LacksDevice(s), DeviceBlocker())
    + If(Controlled(sourceDir, s.runId), ControlledBlocker())
    + If(Contradictory(s), ReadinessBlocker())
    + StepBlockers(Missing(s, RequiredSteps()))
  }

  predicate HasBlocker(blockers: seq<Blocker>, code: string) {
    exists i :: 0 <= i < |blockers| && blockers[i].reasonCode == code
  }

  function NextAction(blockers: seq<Blocker>): IntakeAction {
    if blockers == [] then PromoteLiveEvidence
    else if HasBlocker(blockers, Names.DEVICE_UNAVAILABLE) then RunOnConnectedDevice
    else InspectLiveOutput
  }

  function LevelOf(blockers: seq<Blocker>): string {
    if HasBlocker(blockers, Names.DEVICE_UNAVAILABLE) || HasBlocker(blockers, Names.NOT_LIVE_DEVICE_SOURCE)
       || HasBlocker(blockers, Names.CONTROLLED_OUTPUT)
    then Names.CONTROLLED_LEVEL
    else Names.PHYSICAL_CANDIDATE
  }

  function IntakeOf(sourceDir: string, s: Summary): Intake {
    var blockers := IntakeBlockers(sourceDir, s);
    Intake(
      sourceDir,
      s.runId.GetOr("unknown"),
      if blockers == [] then Names.PROMOTABLE else Names.NOT_PROMOTABLE,
      LevelOf(blockers),
      s.source.GetOr("unknown"),
      s.verdict.GetOr("unknown"),
      s.matched,
      Compact(s.artifacts.GetOr([])),
      blockers,
      NextAction(blockers))
  }

  method MissingSteps(s: Summary) returns (r: seq<string>)
    ensures r == Missing(s, RequiredSteps())
  {
    hide RequiredSteps;
    var ids := RequiredSteps();
    r := [];
    for i := 0 to |ids|
      invariant r == Missing(s, ids[..i])
    {
      assert ids[..i + 1][..i] == ids[..i];
      if !HasStep(s, ids[i]) {
        r := r + [ids[i]];
      }
    }
    assert ids[..|ids|] == ids;
  }

  method BuildBlockers(sourceDir: string, s: Summary) returns (blockers: seq<Blocker>)
    ensures blockers == IntakeBlockers(sourceDir, s)
  {
    hide NotLive, LacksDevice, Controlled, Contradictory, Missing, RequiredSteps;
    hide SourceBlocker, DeviceBlocker, ControlledBlocker, ReadinessBlocker, StepBlocker;
    blockers := [];
    var missing := MissingSteps(s);
    if NotLive(s) { blockers := blockers + [SourceBlocker(s)]; }
    if LacksDevice(s) { blockers := blockers + [DeviceBlocker()]; }
    if Controlled(sourceDir, s.runId) { blockers := blockers + [ControlledBlocker()]; }
    if Contradictory(s) { blockers := blockers + [ReadinessBlocker()]; }
    ghost var front := blockers;
    for i := 0 to |missing|
      invariant blockers == front + StepBlockers(missing[..i])
    {
      StepBlockersGrow(missing, i);
      blockers := blockers + [StepBlocker(missing[i])];
    }
    assert missing[..|missing|] == missing;
  }

  lemma StepBlockersGrow(ids: seq<string>, i: nat)
    requires i < |ids|
    ensures StepBlockers(ids[..i + 1]) == StepBlockers(ids[..i]) + [StepBlocker(ids[i])]
  {
    hide StepBlocker;
  }

  // ----- the conditions, written out

  /** Output that a forced run leaves: its directory or its run id says so somewhere. */
  ghost predicate Forced(sourceDir: string, s: Summary) {
    || Occurs(sourceDir, "mobile-change-readiness-failure")
    || (s.runId.Some? && Occurs(s.runId.value, "readiness-failure"))
  }

  /** The verdict or a step says that there was no device. */
  ghost predicate NoDevice(s: Summary) {
    || s.verdict == Some("device_unavailable")
    || (s.steps.Some? && exists i :: 0 <= i < |s.steps.value|
                                     && s.steps.value[i].reasonCode == Some("DEVICE_UNAVAILABLE"))
  }

  predicate SixSteps(s: Summary) {
    && s.stepIds.Some?
    && "discover-device" in s.stepIds.value && "start-session" in s.stepIds.value && "launch-app" in s.stepIds.value
    && "inspect-readiness" in s.stepIds.value && "check-readiness" in s.stepIds.value
    && "close-session" in s.stepIds.value
  }

  /** What makes a summary promotable. */
  ghost predicate Acceptable(sourceDir: string, s: Summary) {
    && s.source == Some("live_device") && !NoDevice(s) && !Forced(sourceDir, s)
    && !(s.matched == Some(false) && s.verdict == Some("mobile_change_verified"))
    && SixSteps(s)
  }

  lemma SourceIff(s: Summary)
    ensures NotLive(s) <==> s.source != Some("live_device")
    ensures Contradictory(s) <==> s.matched == Some(false) && s.verdict == Some("mobile_change_verified")
  {
  }

  lemma NoDeviceIff(s: Summary)
    ensures LacksDevice(s) <==> NoDevice(s)
  {
  }

  lemma ForcedIff(sourceDir: string, s: Summary)
    ensures Controlled(sourceDir, s.runId) <==> Forced(sourceDir, s)
  {
    hide Contains, Occurs;
    ContainsIff(sourceDir, "mobile-change-readiness-failure");
    if s.runId.Some? {
      ContainsIff(s.runId.value, "readiness-failure");
    }
  }

  lemma SixStepsIff(s: Summary)
    ensures HasRequiredSteps(s) <==> SixSteps(s)
  {
    hide HasStep;
    hide Names.DISCOVER_DEVICE, Names.START_SESSION, Names.LAUNCH_APP, Names.INSPECT_READINESS;
    hide Names.CHECK_READINESS, Names.CLOSE_SESSION;
    SixAre(s);
    RequiredAre();
    if SixSteps(s) {
      HasAll(s);
    }
    if HasRequiredSteps(s) {
      var ids := RequiredSteps();
      assert HasStep(s, ids[0]) && HasStep(s, ids[1]) && HasStep(s, ids[2]);
      assert HasStep(s, ids[3]) && HasStep(s, ids[4]) && HasStep(s, ids[5]);
    }
  }

  lemma RequiredAre()
    ensures RequiredSteps() == [Names.DISCOVER_DEVICE, Names.START_SESSION, Names.LAUNCH_APP, Names.INSPECT_READINESS,
                                Names.CHECK_READINESS, Names.CLOSE_SESSION]
  {
  }

  lemma SixAre(s: Summary)
    ensures SixSteps(s)
       <==> && HasStep(s, Names.DISCOVER_DEVICE) && HasStep(s, Names.START_SESSION) && HasStep(s, Names.LAUNCH_APP)
            && HasStep(s, Names.INSPECT_READINESS) && HasStep(s, Names.CHECK_READINESS)
            && HasStep(s, Names.CLOSE_SESSION)
  {
  }

  lemma HasAll(s: Summary)
    requires && HasStep(s, Names.DISCOVER_DEVICE) && HasStep(s, Names.START_SESSION) && HasStep(s, Names.LAUNCH_APP)
             && HasStep(s, Names.INSPECT_READINESS) && HasStep(s, Names.CHECK_READINESS)
             && HasStep(s, Names.CLOSE_SESSION)
    ensures HasRequiredSteps(s)
  {
    hide HasStep;
    hide Names.DISCOVER_DEVICE, Names.START_SESSION, Names.LAUNCH_APP, Names.INSPECT_READINESS;
    hide Names.CHECK_READINESS, Names.CLOSE_SESSION;
  }

  lemma IntakeNames()
    ensures Names.PROMOTABLE == "promotable_live_proof_candidate"
    ensures Names.PHYSICAL_CANDIDATE == "physical_or_emulator_candidate"
    ensures Names.NOT_PROMOTABLE == "not_promotable_live_proof"
    ensures Names.CONTROLLED_LEVEL == "no_device_or_controlled_output"
  {
  }

  lemma BlockerNames()
    ensures Names.NOT_LIVE_DEVICE_SOURCE == "NOT_LIVE_DEVICE_SOURCE" && Names.DEVICE_UNAVAILABLE == "DEVICE_UNAVAILABLE"
    ensures Names.CONTROLLED_OUTPUT == "CONTROLLED_OUTPUT" && Names.READINESS_NOT_MATCHED == "READINESS_NOT_MATCHED"
    ensures Names.REQUIRED_STEP_MISSING == "REQUIRED_STEP_MISSING"
  {
  }

  /** What an intake says, by the conditions on its summary. */
  ghost predicate IntakeWritten(sourceDir: string, s: Summary, r: Intake) {
    && (r.verdict == if Acceptable(sourceDir, s) then "promotable_live_proof_candidate"
                     else "not_promotable_live_proof")
    && (r.blockers == [] <==> Acceptable(sourceDir, s))
    && (r.proofLevel == if s.source == Some("live_device") && !NoDevice(s) && !Forced(sourceDir, s)
                        then "physical_or_emulator_candidate" else "no_device_or_controlled_output")
    && (r.nextAction == if Acceptable(sourceDir, s) then PromoteLiveEvidence
                        else if NoDevice(s) then RunOnConnectedDevice else InspectLiveOutput)
    && BlockersWritten(sourceDir, s, r.blockers)
  }

  /** Each reason is there exactly when it holds. */
  ghost predicate BlockersWritten(sourceDir: string, s: Summary, blockers: seq<Blocker>) {
    && (HasBlocker(blockers, "NOT_LIVE_DEVICE_SOURCE") <==> s.source != Some("live_device"))
    && (HasBlocker(blockers, "DEVICE_UNAVAILABLE") <==> NoDevice(s))
    && (HasBlocker(blockers, "CONTROLLED_OUTPUT") <==> Forced(sourceDir, s))
    && (HasBlocker(blockers, "READINESS_NOT_MATCHED")
        <==> s.matched == Some(false) && s.verdict == Some("mobile_change_verified"))
    && (HasBlocker(blockers, "REQUIRED_STEP_MISSING") <==> !SixSteps(s))
  }

  lemma BlockersAre(sourceDir: string, s: Summary)
    ensures BlockersWritten(sourceDir, s, IntakeBlockers(sourceDir, s))
  {
    hide NotLive, LacksDevice, Controlled, Contradictory, HasBlocker, IntakeBlockers, HasRequiredSteps;
    hide Forced, NoDevice, SixSteps;
    hide Names.NOT_LIVE_DEVICE_SOURCE, Names.DEVICE_UNAVAILABLE, Names.CONTROLLED_OUTPUT;
    hide Names.READINESS_NOT_MATCHED, Names.REQUIRED_STEP_MISSING;
    BlockerNames();
    BlockerCodes(sourceDir, s);
    OtherCodes(sourceDir, s);
    SourceIff(s);
    NoDeviceIff(s);
    ForcedIff(sourceDir, s);
    SixStepsIff(s);
  }

  /** The intake is what the conditions on the summary say, no more and no less. */
  lemma IntakeIs(sourceDir: string, s: Summary)
    ensures IntakeWritten(sourceDir, s, IntakeOf(sourceDir, s))
  {
    hide NotLive, LacksDevice, Controlled, Contradictory, IntakeBlockers, HasRequiredSteps, Compact;
    hide Forced, NoDevice, SixSteps, BlockersWritten, NextAction, LevelOf, HasBlocker;
    hide Names.PROMOTABLE, Names.NOT_PROMOTABLE, Names.PHYSICAL_CANDIDATE, Names.CONTROLLED_LEVEL;
    IntakeNames();
    PromotableIff(sourceDir, s);
    LevelIff(sourceDir, s);
    LevelCases(sourceDir, s);
    BlockersAre(sourceDir, s);
    SourceIff(s);
    NoDeviceIff(s);
    ForcedIff(sourceDir, s);
    SixStepsIff(s);
  }

  lemma LevelCases(sourceDir: string, s: Summary)
    ensures var r := IntakeOf(sourceDir, s);
      r.proofLevel == Names.PHYSICAL_CANDIDATE || r.proofLevel == Names.CONTROLLED_LEVEL
  {
    hide IntakeBlockers, Compact, NextAction, HasBlocker, Names.PHYSICAL_CANDIDATE, Names.CONTROLLED_LEVEL;
  }

  /** Whatever else a summary says, the mark of a forced run in its directory or run id keeps
      it from being promotable or physical. */
  lemma ForcedNeverPromotes(a: string, b: string, sourceDir: string, s: Summary)
    requires sourceDir == a + "mobile-change-readiness-failure" + b || s.runId == Some(a + "readiness-failure" + b)
    ensures var r := IntakeOf(sourceDir, s);
      && HasBlocker(r.blockers, "CONTROLLED_OUTPUT")
      && r.verdict != "promotable_live_proof_candidate" && r.proofLevel != "physical_or_emulator_candidate"
  {
    hide HasBlocker, IntakeOf, SixSteps, NoDevice;
    IntakeIs(sourceDir, s);
    assert Forced(sourceDir, s);
    LevelLiterals();
  }

  lemma LevelLiterals()
    ensures "not_promotable_live_proof" != "promotable_live_proof_candidate"
    ensures "no_device_or_controlled_output" != "physical_or_emulator_candidate"
  {
    assert "not_promotable_live_proof"[0] == 'n' && "no_device_or_controlled_output"[0] == 'n';
  }

  /** The builder computes the specified intake, which is what the conditions say. */
  method BuildIntake(sourceDir: string, s: Summary) returns (r: Intake)
    ensures r == IntakeOf(sourceDir, s)
    ensures IntakeWritten(sourceDir, s, r)
  {
    hide IntakeBlockers, Compact, LevelOf, NextAction, IntakeWritten;
    hide Names.PROMOTABLE, Names.NOT_PROMOTABLE;
    IntakeIs(sourceDir, s);
    var blockers := BuildBlockers(sourceDir, s);
    var artifacts := CompactArtifacts(s.artifacts.GetOr([]));
    return Intake(
        sourceDir,
        s.runId.GetOr("unknown"),
        if blockers == [] then Names.PROMOTABLE else Names.NOT_PROMOTABLE,
        LevelOf(blockers),
        s.source.GetOr("unknown"),
        s.verdict.GetOr("unknown"),
        s.matched,
        artifacts,
        blockers,
        NextAction(blockers));
  }

  // ----- when a summary is promotable

  lemma {:induction false} MissingEmpty(s: Summary, ids: seq<string>)
    ensures Missing(s, ids) == [] <==> forall i :: 0 <= i < |ids| ==> HasStep(s, ids[i])
  {
    if ids != [] {
      MissingEmpty(s, ids[..|ids| - 1]);
    }
  }

  predicate HasRequiredSteps(s: Summary) {
    forall i :: 0 <= i < |RequiredSteps()| ==> HasStep(s, RequiredSteps()[i])
  }

  /** A summary is promotable exactly when it comes from a live device that was there, is
      not controlled output, does not contradict itself and has all the required steps; it
      then has the physical proof level.  That the verification succeeded is not asked. */
  lemma PromotableIff(sourceDir: string, s: Summary)
    ensures var r := IntakeOf(sourceDir, s);
      && (r.verdict == Names.PROMOTABLE <==> r.blockers == [])
      && (r.verdict == Names.PROMOTABLE
          <==> !NotLive(s) && !LacksDevice(s) && !Controlled(sourceDir, s.runId) && !Contradictory(s)
               && HasRequiredSteps(s))
      && (r.verdict == Names.PROMOTABLE ==> r.proofLevel == Names.PHYSICAL_CANDIDATE)
  {
    hide NotLive, LacksDevice, Controlled, Contradictory, Missing, RequiredSteps, Compact, NextAction, HasStep;
    hide SourceBlocker, DeviceBlocker, ControlledBlocker, ReadinessBlocker, StepBlocker;
    hide Names.PROMOTABLE, Names.NOT_PROMOTABLE, Names.PHYSICAL_CANDIDATE, Names.CONTROLLED_LEVEL;
    Names.IntakeVerdictsDiffer();
    MissingEmpty(s, RequiredSteps());
  }

  /** The proof level is physical exactly when the device was there, the source is live and
      nothing marks it as controlled; and the next action follows from the blockers: promotion
      exactly for promotable proof, a rerun on a device exactly when the device was missing. */
  lemma LevelIff(sourceDir: string, s: Summary)
    ensures var r := IntakeOf(sourceDir, s);
      && (r.proofLevel == Names.PHYSICAL_CANDIDATE
          <==> !NotLive(s) && !LacksDevice(s) && !Controlled(sourceDir, s.runId))
      && (r.nextAction.PromoteLiveEvidence? <==> r.verdict == Names.PROMOTABLE)
      && (r.nextAction.RunOnConnectedDevice? <==> LacksDevice(s))
  {
    hide NotLive, LacksDevice, Controlled, Contradictory, Compact, HasBlocker, IntakeBlockers;
    hide Names.PROMOTABLE, Names.NOT_PROMOTABLE, Names.PHYSICAL_CANDIDATE, Names.CONTROLLED_LEVEL;
    Names.IntakeVerdictsDiffer();
    Names.LevelsDiffer();
    BlockerCodes(sourceDir, s);
  }

  lemma BlockerCodes(sourceDir: string, s: Summary)
    ensures var b := IntakeBlockers(sourceDir, s);
      && (HasBlocker(b, Names.DEVICE_UNAVAILABLE) <==> LacksDevice(s))
      && (HasBlocker(b, Names.NOT_LIVE_DEVICE_SOURCE) <==> NotLive(s))
      && (HasBlocker(b, Names.CONTROLLED_OUTPUT) <==> Controlled(sourceDir, s.runId))
      && (LacksDevice(s) ==> b != [])
  {
    hide SourceBlocker, DeviceBlocker, ControlledBlocker, ReadinessBlocker, StepBlocker;
    hide NotLive, LacksDevice, Controlled, Contradictory, HasBlocker, Missing, RequiredSteps;
    var p, q, t := If(NotLive(s), SourceBlocker(s)), If(LacksDevice(s), DeviceBlocker()),
                   If(Controlled(sourceDir, s.runId), ControlledBlocker());
    var u, w := If(Contradictory(s), ReadinessBlocker()), StepBlockers(Missing(s, RequiredSteps()));
    CodeAmong(p, q, t, u, w, Names.DEVICE_UNAVAILABLE);
    CodeAmong(p, q, t, u, w, Names.NOT_LIVE_DEVICE_SOURCE);
    CodeAmong(p, q, t, u, w, Names.CONTROLLED_OUTPUT);
    StepCodes(Missing(s, RequiredSteps()));
    SingleCodes(NotLive(s), SourceBlocker(s));
    SingleCodes(LacksDevice(s), DeviceBlocker());
    SingleCodes(Controlled(sourceDir, s.runId), ControlledBlocker());
    SingleCodes(Contradictory(s), ReadinessBlocker());
    SourceReason(s);
    DeviceReason();
    ControlledReason();
    ReadinessReason();
    Names.BlockerCodesDiffer();
  }

  lemma OtherCodes(sourceDir: string, s: Summary)
    ensures var b := IntakeBlockers(sourceDir, s);
      && (HasBlocker(b, Names.READINESS_NOT_MATCHED) <==> Contradictory(s))
      && (HasBlocker(b, Names.REQUIRED_STEP_MISSING) <==> !HasRequiredSteps(s))
  {
    hide SourceBlocker, DeviceBlocker, ControlledBlocker, ReadinessBlocker, StepBlocker;
    hide NotLive, LacksDevice, Controlled, Contradictory, HasBlocker, Missing, RequiredSteps, HasStep;
    var p, q, t := If(NotLive(s), SourceBlocker(s)), If(LacksDevice(s), DeviceBlocker()),
                   If(Controlled(sourceDir, s.runId), ControlledBlocker());
    var u, w := If(Contradictory(s), ReadinessBlocker()), StepBlockers(Missing(s, RequiredSteps()));
    CodeAmong(p, q, t, u, w, Names.READINESS_NOT_MATCHED);
    CodeAmong(p, q, t, u, w, Names.REQUIRED_STEP_MISSING);
    StepCodes(Missing(s, RequiredSteps()));
    MissingEmpty(s, RequiredSteps());
    SingleCodes(NotLive(s), SourceBlocker(s));
    SingleCodes(LacksDevice(s), DeviceBlocker());
    SingleCodes(Controlled(sourceDir, s.runId), ControlledBlocker());
    SingleCodes(Contradictory(s), ReadinessBlocker());
    SourceReason(s);
    DeviceReason();
    ControlledReason();
    ReadinessReason();
    Names.BlockerCodesDiffer();
  }

  lemma SourceReason(s: Summary)
    ensures SourceBlocker(s).reasonCode == Names.NOT_LIVE_DEVICE_SOURCE
  {
    hide Names.NOT_LIVE_DEVICE_SOURCE;
  }

  lemma DeviceReason()
    ensures DeviceBlocker().reasonCode == Names.DEVICE_UNAVAILABLE
  {
    hide Names.DEVICE_UNAVAILABLE;
  }

  lemma ControlledReason()
    ensures ControlledBlocker().reasonCode == Names.CONTROLLED_OUTPUT
  {
    hide Names.CONTROLLED_OUTPUT;
  }

  lemma ReadinessReason()
    ensures ReadinessBlocker().reasonCode == Names.READINESS_NOT_MATCHED
  {
    hide Names.READINESS_NOT_MATCHED;
  }

  lemma SingleCodes(c: bool, b: Blocker)
    ensures forall code :: HasBlocker(If(c, b), code) <==> c && b.reasonCode == code
  {
    assert c ==> If(c, b)[0] == b;
  }

  lemma StepCodes(ids: seq<string>)
    ensures forall code :: HasBlocker(StepBlockers(ids), code) ==> code == Names.REQUIRED_STEP_MISSING
    ensures HasBlocker(StepBlockers(ids), Names.REQUIRED_STEP_MISSING) <==> ids != []
  {
    hide Names.REQUIRED_STEP_MISSING;
    assert ids != [] ==> StepBlockers(ids)[0].reasonCode == Names.REQUIRED_STEP_MISSING;
  }

  lemma CodeJoin(a: seq<Blocker>, b: seq<Blocker>, code: string)
    ensures HasBlocker(a + b, code) <==> HasBlocker(a, code) || HasBlocker(b, code)
  {
    if HasBlocker(b, code) {
      var i :| 0 <= i < |b| && b[i].reasonCode == code;
      assert (a + b)[|a| + i] == b[i];
    }
    if HasBlocker(a, code) {
      var i :| 0 <= i < |a| && a[i].reasonCode == code;
      assert (a + b)[i] == a[i];
    }
  }

  lemma CodeAmong(p: seq<Blocker>, q: seq<Blocker>, t: seq<Blocker>, u: seq<Blocker>, w: seq<Blocker>, code: string)
    ensures HasBlocker(p + q + t + u + w, code)
       <==> HasBlocker(p, code) || HasBlocker(q, code) || HasBlocker(t, code) || HasBlocker(u, code)
            || HasBlocker(w, code)
  {
    hide HasBlocker;
    CodeJoin(p, q, code);
    CodeJoin(p + q, t, code);
    CodeJoin(p + q + t, u, code);
    CodeJoin(p + q + t + u, w, code);
  }

  // ----- summaries of live runs

  function StepRefs(steps: seq<Step>): seq<StepRef> {
    seq(|steps|, i requires 0 <= i < |steps| => StepRef(Some(steps[i].id), Some(steps[i].reasonCode)))
  }

  function KindName(k: ArtifactKind): string {
    match k
    case UiTree => "ui_tree"
    case OtherKind(name) => name
  }

  function ArtifactRefs(artifacts: seq<Artifact>): seq<ArtifactRef> {
    seq(|artifacts|, i requires 0 <= i < |artifacts| =>
      ArtifactRef(Some(KindName(artifacts[i].kind)), Some(artifacts[i].path)))
  }

  /** The summary that a bundle is written as. */
  function SummaryOf(b: Bundle): Summary {
    Summary(Some(b.runId), Some(b.source), Some(b.verdict), Some(b.matched), Some(b.stepIds),
            Some(StepRefs(b.steps)), Some(ArtifactRefs(b.artifacts)))
  }

  lemma ReasonOfBundle(b: Bundle, code: string)
    ensures HasReason(SummaryOf(b), code) <==> HasCode(b.steps, code)
  {
    hide ArtifactRefs;
    if HasCode(b.steps, code) {
      var i :| 0 <= i < |b.steps| && b.steps[i].reasonCode == code;
      assert StepRefs(b.steps)[i].reasonCode == Some(code);
    }
  }

  lemma DeviceOfBundle(steps: seq<Step>)
    ensures VerdictFromSteps(steps) == Names.NO_DEVICE <==> HasCode(steps, Names.DEVICE_UNAVAILABLE)
  {
    hide HasCode, AllSucceeded;
    hide Names.CHANGE_VERIFIED, Names.NO_DEVICE, Names.NO_ARTIFACT, Names.VERIFICATION_FAILED;
    Names.VerdictsDiffer();
  }

  lemma StepIdAt(steps: seq<Step>, k: nat, id: string)
    requires k < |steps| && steps[k].id == id
    ensures id in StepIds(steps)
  {
    assert StepIds(steps)[k] == id;
  }

  lemma FullRunHasSteps(o: Options, artifactExists: bool, invoke: Invoker)
    requires Proceeds(o, artifactExists, invoke)
    ensures var ids := StepIds(LiveSteps(o, artifactExists, invoke));
      forall i :: 0 <= i < |RequiredSteps()| ==> RequiredSteps()[i] in ids
  {
    hide LiveSteps, LiveTrace, Plan, StepIds, Device, NeedsInstall;
    var steps, trace := LiveSteps(o, artifactExists, invoke), LiveTrace(o, artifactExists, invoke);
    var n := |trace|;
    FullTrace(o, artifactExists, invoke);
    FullRunStep(o, artifactExists, invoke, 0);
    FullRunStep(o, artifactExists, invoke, 2);
    FullRunStep(o, artifactExists, invoke, n - 4);
    FullRunStep(o, artifactExists, invoke, n - 3);
    FullRunStep(o, artifactExists, invoke, n - 2);
    FullRunStep(o, artifactExists, invoke, n - 1);
  }

  lemma FullTrace(o: Options, artifactExists: bool, invoke: Invoker)
    requires Proceeds(o, artifactExists, invoke)
    ensures var trace := LiveTrace(o, artifactExists, invoke);
      var n := |trace|;
      && n >= 7 && trace[0].tool == ListDevices && trace[2].tool == StartSession && trace[n - 4].tool == LaunchApp
      && trace[n - 3].tool == InspectUi && trace[n - 2].tool == GetScreenSummary && trace[n - 1].tool == EndSession
  {
    hide Plan, Device, NeedsInstall;
    PlanShape(o, Device(o, invoke).value);
  }

  lemma FullRunStep(o: Options, artifactExists: bool, invoke: Invoker, k: nat)
    requires Proceeds(o, artifactExists, invoke) && k < |LiveTrace(o, artifactExists, invoke)|
    ensures StepName(LiveTrace(o, artifactExists, invoke)[k].tool) in StepIds(LiveSteps(o, artifactExists, invoke))
  {
    hide LiveSteps, LiveTrace, StepIds, StepName;
    StepsFollowCalls(o, artifactExists, invoke, k);
    StepIdAt(LiveSteps(o, artifactExists, invoke), k, StepName(LiveTrace(o, artifactExists, invoke)[k].tool));
  }

  lemma StoppedRunLacksStart(o: Options, artifactExists: bool, invoke: Invoker)
    requires !Proceeds(o, artifactExists, invoke)
    ensures Names.START_SESSION !in StepIds(LiveSteps(o, artifactExists, invoke))
  {
    hide DiscoverDetail, Names.START_SESSION, Names.DISCOVER_DEVICE, Names.CHECK_APP_ARTIFACT;
    Names.StepsDiffer();
  }

  /** The summary of a live run is promotable exactly when the run got its device and its
      artifact, no step says that a device was missing, and nothing marks it as controlled. */
  lemma LiveRunPromotableIff(o: Options, artifactExists: bool, invoke: Invoker, sourceDir: string)
    ensures
      var b := LiveOutcome(o, artifactExists, invoke).bundle;
      IntakeOf(sourceDir, SummaryOf(b)).verdict == Names.PROMOTABLE
      <==> && Proceeds(o, artifactExists, invoke)
           && !HasCode(b.steps, Names.DEVICE_UNAVAILABLE)
           && !Controlled(sourceDir, Some(o.runId))
  {
    hide LiveSteps, LivePacket, LiveArtifacts, HasCode, HasReason, Controlled, RequiredSteps, StepIds, VerdictFromSteps;
    hide StepRefs, ArtifactRefs, IntakeOf, Proceeds;
    var b := LiveOutcome(o, artifactExists, invoke).bundle;
    var s := SummaryOf(b);
    PromotableIff(sourceDir, s);
    ReasonOfBundle(b, Names.DEVICE_UNAVAILABLE);
    DeviceOfBundle(b.steps);
    if Proceeds(o, artifactExists, invoke) {
      FullRunHasSteps(o, artifactExists, invoke);
    } else {
      StoppedRunLacksStart(o, artifactExists, invoke);
      StartIsRequired();
      assert !HasStep(s, RequiredSteps()[1]);
    }
  }

  lemma StartIsRequired()
    ensures |RequiredSteps()| == 6 && RequiredSteps()[1] == Names.START_SESSION
  {
  }

  /** The intake alone does not ask for success: a run in which every tool fails is promotable. */
  lemma FailedRunIsPromotable(o: Options, sourceDir: string)
    requires Given(o.deviceId) && o.skipInstall && !Controlled(sourceDir, Some(o.runId))
    ensures
      var fail: Invoker := _ => Obj([("status", Str("failed"))]);
      var b := LiveOutcome(o, true, fail).bundle;
      && b.verdict != Names.CHANGE_VERIFIED
      && IntakeOf(sourceDir, SummaryOf(b)).verdict == Names.PROMOTABLE
  {
    hide LiveSteps, LiveOutcome, Controlled, IntakeOf, HasCode, Plan, LiveTrace;
    var fail: Invoker := _ => Obj([("status", Str("failed"))]);
    var b := LiveOutcome(o, true, fail).bundle;
    assert Proceeds(o, true, fail);
    OutcomeSteps(o, true, fail);
    LiveRunPromotableIff(o, true, fail, sourceDir);
    forall i | 0 <= i < |b.steps|
      ensures b.steps[i].reasonCode == Names.CODE_OK && (i > 0 ==> b.steps[i].status.Failed?)
    {
      FailedStep(o, o.deviceId.value, fail, i);
    }
    CodeAbsent(b.steps);
    FullRunLength(o, o.deviceId.value, fail);
    LiveVerdictIff(o, true, fail);
    assert b.steps[1].status.Failed?;
  }

  lemma CodeAbsent(steps: seq<Step>)
    requires forall i :: 0 <= i < |steps| ==> steps[i].reasonCode == Names.CODE_OK
    ensures !HasCode(steps, Names.DEVICE_UNAVAILABLE)
  {
    hide Names.CODE_OK, Names.DEVICE_UNAVAILABLE;
    Names.CodesDiffer();
  }

  lemma FailedStep(o: Options, device: string, fail: Invoker, i: nat)
    requires Device(o, fail) == Some(device) && Proceeds(o, true, fail)
    requires forall t :: fail(t) == Obj([("status", Str("failed"))])
    requires i < |LiveSteps(o, true, fail)|
    ensures LiveSteps(o, true, fail)[i].reasonCode == Names.CODE_OK
    ensures i > 0 ==> LiveSteps(o, true, fail)[i].status.Failed?
  {
    hide StepsUpTo, Plan, StepOf, DiscoverStep;
    var plan := Plan(o, device);
    PlanShape(o, device);
    StepAtCall(o, device, plan, fail, |plan|, 0);
    StepAtCall(o, device, plan, fail, |plan|, i);
    FailedAnswer(o, plan[i].tool);
    DiscoverId(fail(plan[..1]), device);
  }

  lemma FailedAnswer(o: Options, tool: Tool)
    ensures StepOf(o, tool, Obj([("status", Str("failed"))])).status.Failed?
    ensures StepOf(o, tool, Obj([("status", Str("failed"))])).reasonCode == Names.CODE_OK
  {
    hide ReadinessMatches, StepName, Names.CODE_OK;
    var v := Obj([("status", Str("failed"))]);
    assert Lookup(v.fields, "status") == Some(Str("failed"));
    assert v.fields[1..] == [] && "status"[0] != "reasonCode"[0];
    assert Lookup(v.fields, "reasonCode").None?;
    assert "failed"[0] != "success"[0] && "failed"[0] != "skipped"[0];
  }
}
