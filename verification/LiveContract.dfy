/** What a live run asks of the tools and makes of their answers, written out. */
module LiveContract {
  import opened Prelude
  import opened Json
  import opened LiveVerification
  import opened LiveLaws
  import Names

  // ----- the calls

  predicate Installs(o: Options) {
    o.appArtifact.Some? && o.appArtifact.value != "" && !o.skipInstall
  }

  /** The tools of a full run, in order. */
  function FullTools(o: Options): seq<Tool> {
    [ListDevices, DescribeCapabilities, StartSession]
    + (if Installs(o) then [InstallApp] else [])
    + [LaunchApp, InspectUi, GetScreenSummary, EndSession]
  }

  function OutputOf(o: Options): string {
    match o.outputDir
    case Some(dir) => dir
    case None => "output/showcase/mobile-change-verification-live/" + o.runId
  }

  /** What each tool is asked in a run on this device. */
  predicate CallWritten(o: Options, device: string, c: Call) {
    var session := Some("mobile-change-live-" + o.runId);
    match c.tool
    case ListDevices => c.session == None && c.device == None && c.input == DeviceInput(true)
    case DescribeCapabilities =>
      c.session == None && c.device == None && c.input == CapabilityInput(o.platform, o.runnerProfile)
    case StartSession =>
      && c.session == session && c.device == Some(device)
      && c.input == StartInput(o.platform, o.appId, o.runnerProfile, o.policyProfile)
    case InstallApp =>
      && c.session == session && c.device == Some(device) && o.appArtifact.Some?
      && c.input == InstallInput(o.platform, o.runnerProfile, o.paths.resolve(o.appArtifact.value))
    case LaunchApp =>
      c.session == session && c.device == Some(device) && c.input == LaunchInput(o.platform, o.runnerProfile, o.appId)
    case InspectUi =>
      && c.session == session && c.device == Some(device)
      && c.input == InspectInput(o.platform, o.runnerProfile, o.appId, o.paths.join(OutputOf(o), "inspect-ui.xml"))
    case GetScreenSummary =>
      && c.session == session && c.device == Some(device)
      && c.input == ScreenInput(o.platform, o.runnerProfile, o.appId, true)
    case EndSession => c.session == session && c.device == None && c.input == EndInput([OutputOf(o)])
    case Filesystem => false
  }

  /** The run gets a device, and the artifact that it is to install. */
  ghost predicate Goes(o: Options, artifactExists: bool, invoke: Invoker, device: string) {
    && Chooses(invoke([Call(ListDevices, None, None, DeviceInput(true))]), o, Some(device))
    && (Installs(o) ==> artifactExists)
  }

  lemma OneChoice(listed: Value, o: Options, r: Option<string>)
    ensures Chooses(listed, o, r) <==> r == SelectedDevice(listed, o)
  {
    hide Lists, Offers, SelectedDevice;
    SelectedChooses(listed, o);
    var s := SelectedDevice(listed, o);
    if Chooses(listed, o, r) && !(o.deviceId.Some? && o.deviceId.value != "") {
      ListsOnce(listed, o.platform);
      if r.Some? && s.Some? {
        var items, i :| Lists(listed, o.platform, items) && OffersFirst(items, i, r.value);
        var others, j :| Lists(listed, o.platform, others) && OffersFirst(others, j, s.value);
        assert items == others;
        OffersOne(items[i]);
      }
    }
  }

  lemma ListsOnce(listed: Value, platform: Platform)
    ensures forall a, b :: Lists(listed, platform, a) && Lists(listed, platform, b) ==> a == b
  {
    hide Lookup;
  }

  lemma OffersOne(device: Value)
    ensures forall a, b :: Offers(device, a) && Offers(device, b) ==> a == b
  {
    hide Lookup;
  }

  lemma GoesIff(o: Options, artifactExists: bool, invoke: Invoker, device: string)
    ensures Goes(o, artifactExists, invoke, device)
       <==> Proceeds(o, artifactExists, invoke) && Device(o, invoke) == Some(device)
  {
    hide Chooses, SelectedDevice;
    OneChoice(invoke([ListCall()]), o, Some(device));
  }

  lemma PlanCall(o: Options, device: string, i: nat)
    requires i < |Plan(o, device)|
    ensures i < |FullTools(o)| && Plan(o, device)[i].tool == FullTools(o)[i]
    ensures CallWritten(o, device, Plan(o, device)[i])
  {
    hide Plan, SessionId, OutputDir;
    PlanShape(o, device);
    SessionAndOutput(o);
  }

  lemma SessionAndOutput(o: Options)
    ensures SessionId(o) == "mobile-change-live-" + o.runId && OutputDir(o) == OutputOf(o)
    ensures NeedsInstall(o) == Installs(o)
  {
  }

  /** A full run makes exactly the calls of its tools, in order, each with its whole input;
      any other run asks for the devices only. */
  lemma CallsWritten(o: Options, artifactExists: bool, invoke: Invoker)
    ensures var trace := LiveTrace(o, artifactExists, invoke);
      if exists device :: Goes(o, artifactExists, invoke, device) then
        exists device :: Goes(o, artifactExists, invoke, device) && FollowsTools(o, device, trace)
      else trace == [Call(ListDevices, None, None, DeviceInput(true))]
  {
    hide Plan, Goes, Device, Proceeds, FollowsTools;
    if exists device :: Goes(o, artifactExists, invoke, device) {
      var device :| Goes(o, artifactExists, invoke, device);
      GoesIff(o, artifactExists, invoke, device);
      PlanFollows(o, device);
    } else if Proceeds(o, artifactExists, invoke) {
      SomeDevice(o, artifactExists, invoke);
      GoesIff(o, artifactExists, invoke, Device(o, invoke).value);
    }
  }

  lemma SomeDevice(o: Options, artifactExists: bool, invoke: Invoker)
    requires Proceeds(o, artifactExists, invoke)
    ensures Device(o, invoke).Some?
  {
  }

  ghost predicate FollowsTools(o: Options, device: string, trace: seq<Call>) {
    && |trace| == |FullTools(o)|
    && forall i :: 0 <= i < |trace| ==> trace[i].tool == FullTools(o)[i] && CallWritten(o, device, trace[i])
  }

  lemma PlanFollows(o: Options, device: string)
    ensures FollowsTools(o, device, Plan(o, device))
  {
    hide CallWritten, Plan, FullTools;
    PlanLength(o, device);
    forall i | 0 <= i < |Plan(o, device)|
      ensures Plan(o, device)[i].tool == FullTools(o)[i] && CallWritten(o, device, Plan(o, device)[i])
    {
      PlanCall(o, device, i);
    }
  }

  lemma PlanLength(o: Options, device: string)
    ensures |Plan(o, device)| == |FullTools(o)|
  {
  }

  // ----- the steps

  function StepIdWritten(tool: Tool): string {
    match tool
    case ListDevices => "discover-device"
    case DescribeCapabilities => "describe-capabilities"
    case StartSession => "start-session"
    case InstallApp => "install-app"
    case LaunchApp => "launch-app"
    case InspectUi => "inspect-readiness"
    case GetScreenSummary => "check-readiness"
    case EndSession => "close-session"
    case Filesystem => "check-app-artifact"
  }

  predicate Answers(answer: Value, key: string, v: Value) {
    answer.Obj? && Lookup(answer.fields, key) == Some(v)
  }

  /** The screen that the answer shows is in this phase. */
  predicate ShowsPhase(answer: Value, phase: string) {
    answer.Obj?
    && match Lookup(answer.fields, "data")
       case Some(Obj(data)) =>
         (match Lookup(data, "screenSummary")
          case Some(Obj(summary)) => Lookup(summary, "appPhase") == Some(Str(phase))
          case _ => false)
       case _ => false
  }

  predicate Unready(o: Options, tool: Tool, answer: Value) {
    && tool.GetScreenSummary? && Answers(answer, "status", Str("success"))
    && o.expectedAppPhase.Some? && o.expectedAppPhase.value != ""
    && !ShowsPhase(answer, o.expectedAppPhase.value)
  }

  /** The step that an answer makes: its status and code are the answer's, and a screen in the
      wrong phase fails. */
  ghost predicate StepWritten(o: Options, tool: Tool, answer: Value, step: Step) {
    && step.id == StepIdWritten(tool) && step.tool == tool && step.detail == None
    && (step.status.Success? <==> Answers(answer, "status", Str("success")) && !Unready(o, tool, answer))
    && (step.status.Skipped? <==> Answers(answer, "status", Str("skipped")))
    && (if Unready(o, tool, answer) then step.reasonCode == "APP_NOT_READY"
        else CodeWritten(answer, step.reasonCode))
  }

  ghost predicate CodeWritten(answer: Value, code: string) {
    Answers(answer, "reasonCode", Str(code)) || (code == "OK" && forall c :: !Answers(answer, "reasonCode", Str(c)))
  }

  lemma StatusIs(answer: Value)
    ensures StatusOf(answer).Success? <==> Answers(answer, "status", Str("success"))
    ensures StatusOf(answer).Skipped? <==> Answers(answer, "status", Str("skipped"))
    ensures !(Answers(answer, "status", Str("success")) && Answers(answer, "status", Str("skipped")))
  {
    hide Lookup;
    NothingLooked("status");
    assert "success"[1] != "skipped"[1];
  }

  lemma CodeIs(answer: Value)
    ensures CodeWritten(answer, CodeOf(answer))
  {
    hide Lookup;
    NothingLooked("reasonCode");
  }

  lemma PhaseIs(o: Options, answer: Value)
    ensures ReadinessMatches(answer, o)
       <==> (o.expectedAppPhase.Some? && o.expectedAppPhase.value != ""
             ==> ShowsPhase(answer, o.expectedAppPhase.value))
  {
    hide Lookup;
    NothingLooked("data");
    NothingLooked("screenSummary");
    NothingLooked("appPhase");
  }

  lemma StepIs(o: Options, tool: Tool, answer: Value)
    ensures StepWritten(o, tool, answer, StepOf(o, tool, answer))
  {
    hide StatusOf, CodeOf, ReadinessMatches, Answers, ShowsPhase, CodeWritten;
    hide StepName, StepIdWritten, Names.APP_NOT_READY;
    StatusIs(answer);
    CodeIs(answer);
    PhaseIs(o, answer);
    StepNames(tool);
    NotReadyCode();
  }

  lemma StepNames(tool: Tool)
    ensures StepName(tool) == StepIdWritten(tool) && StepName(GetScreenSummary) == Names.CHECK_READINESS
  {
  }

  lemma NotReadyCode()
    ensures Names.APP_NOT_READY == "APP_NOT_READY"
  {
  }

  /** The first step succeeds, whatever the list of devices said, and tells what it said. */
  predicate DiscoveryWritten(listed: Value, device: string, step: Step) {
    && step.id == "discover-device" && step.tool == ListDevices && step.status.Success? && step.reasonCode == "OK"
    && step.detail
         == if Answers(listed, "status", Str("success")) then Some("Selected device " + device + ".")
            else Some("Selected device " + device + "; list_devices returned " + TextOf(listed, "status") + "/"
                      + TextOf(listed, "reasonCode") + ".")
  }

  function TextOf(answer: Value, key: string): string {
    if answer.Obj? then
      match Lookup(answer.fields, key)
      case Some(Str(text)) => text
      case _ => "unknown"
    else "unknown"
  }

  /** Every call of a full run but the first has the step of its answer; the first one has a
      step that succeeded. */
  lemma StepsWritten(o: Options, artifactExists: bool, invoke: Invoker, device: string, k: nat)
    requires Goes(o, artifactExists, invoke, device) && k < |LiveTrace(o, artifactExists, invoke)|
    ensures var trace := LiveTrace(o, artifactExists, invoke);
      var steps := LiveOutcome(o, artifactExists, invoke).bundle.steps;
      && |steps| == |trace|
      && (if k == 0 then DiscoveryWritten(invoke(trace[..1]), device, steps[0])
          else StepWritten(o, trace[k].tool, invoke(trace[..k + 1]), steps[k]))
  {
    hide StepsUpTo, StepOf, Plan, StepWritten, DiscoverStep, Goes, LiveOutcome;
    GoesIff(o, artifactExists, invoke, device);
    OutcomeSteps(o, artifactExists, invoke);
    var plan := Plan(o, device);
    PlanShape(o, device);
    StepAtCall(o, device, plan, invoke, |plan|, k);
    StepIs(o, plan[k].tool, invoke(plan[..k + 1]));
    FirstStep(invoke(plan[..1]), device);
  }

  lemma FirstStep(listed: Value, device: string)
    ensures DiscoveryWritten(listed, device, DiscoverStep(listed, device))
  {
    hide Lookup;
    NothingLooked("status");
    NothingLooked("reasonCode");
  }

  /** A run without a device has one step, which failed; a run without its artifact has two. */
  lemma StoppedWritten(o: Options, artifactExists: bool, invoke: Invoker)
    requires forall device :: !Goes(o, artifactExists, invoke, device)
    ensures
      var listed := invoke([Call(ListDevices, None, None, DeviceInput(true))]);
      var result := LiveOutcome(o, artifactExists, invoke);
      var steps := result.bundle.steps;
      && result.bundle.artifacts == [] && result.packet.Some?
      && (if Chooses(listed, o, None) then
            steps == [Step("discover-device", ListDevices, Failed, "DEVICE_UNAVAILABLE", None)]
          else
            |steps| == 2 && steps[0].status.Success?
            && steps[1] == Step("check-app-artifact", Filesystem, Failed, "APP_ARTIFACT_UNAVAILABLE", o.appArtifact))
  {
    hide Chooses, Goes, SelectedDevice, DiscoverStep, Plan, StepsUpTo, VerdictFromSteps, HasCode, FirstFailed;
    var listed := invoke([ListCall()]);
    OneChoice(listed, o, None);
    if Device(o, invoke).Some? {
      GoesIff(o, artifactExists, invoke, Device(o, invoke).value);
      FirstStep(listed, Device(o, invoke).value);
    }
  }

  // ----- the bundle

  /** The artifacts are the strings that the answer of the inspection lists, in order. */
  ghost predicate ListsArtifacts(answer: Value, artifacts: seq<Artifact>) {
    if exists items :: Answers(answer, "artifacts", Arr(items)) then
      exists items, at: seq<nat> :: Answers(answer, "artifacts", Arr(items)) && Selects(items, at, artifacts)
    else artifacts == []
  }

  /** The positions, in order, of exactly the strings among the items. */
  ghost predicate Selects(items: seq<Value>, at: seq<nat>, artifacts: seq<Artifact>) {
    && |at| == |artifacts|
    && (forall k :: 0 <= k < |at| ==> at[k] < |items| && items[at[k]].Str?
                                      && artifacts[k] == Artifact(UiTree, items[at[k]].s))
    && (forall j, k :: 0 <= j < k < |at| ==> at[j] < at[k])
    && (forall i :: 0 <= i < |items| && items[i].Str? ==> i in at)
  }

  lemma {:induction false} StringsSelected(items: seq<Value>) returns (at: seq<nat>)
    ensures Selects(items, at, UiTrees(StringItems(items)))
  {
    hide StringItems, UiTrees, Selects;
    if items == [] {
      at := [];
      NoStrings();
    } else {
      var n := |items| - 1;
      var front := StringsSelected(items[..n]);
      StringItemsGrow(items, n);
      assert items[..n + 1] == items;
      var artifacts := UiTrees(StringItems(items[..n]));
      if items[n].Str? {
        at := front + [n];
        SelectsOneMore(items, n, front, artifacts);
      } else {
        at := front;
        SelectsNoMore(items, n, front, artifacts);
        assert artifacts + [] == artifacts;
      }
    }
  }

  lemma NoStrings()
    ensures UiTrees(StringItems([])) == [] && Selects([], [], [])
  {
  }

  lemma SelectsNoMore(items: seq<Value>, n: nat, at: seq<nat>, artifacts: seq<Artifact>)
    requires n + 1 == |items| && !items[n].Str? && Selects(items[..n], at, artifacts)
    ensures Selects(items, at, artifacts)
  {
    forall i | 0 <= i < |items| && items[i].Str?
      ensures i in at
    {
      assert items[..n][i] == items[i];
    }
  }

  lemma SelectsOneMore(items: seq<Value>, n: nat, at: seq<nat>, artifacts: seq<Artifact>)
    requires n + 1 == |items| && items[n].Str? && Selects(items[..n], at, artifacts)
    ensures Selects(items, at + [n], artifacts + [Artifact(UiTree, items[n].s)])
  {
    var more := at + [n];
    assert forall k :: 0 <= k < |at| ==> more[k] == at[k] < n;
    forall i | 0 <= i < |items| && items[i].Str?
      ensures i in more
    {
      if i < n {
        assert items[..n][i] == items[i];
        assert i in at;
      } else {
        assert more[|at|] == n;
      }
    }
  }

  lemma InspectWritten(answer: Value)
    ensures ListsArtifacts(answer, InspectArtifacts(answer))
  {
    hide Lookup, StringItems, UiTrees, Selects;
    NothingLooked("artifacts");
    var list := Field(answer, "artifacts");
    if list.Arr? {
      var at := StringsSelected(list.items);
      assert Answers(answer, "artifacts", Arr(list.items));
    } else {
      NoStrings();
    }
  }

  /** The artifacts of a full run are those of its inspection, and a packet has them too. */
  lemma ArtifactsWritten(o: Options, artifactExists: bool, invoke: Invoker, device: string)
      returns (asked: seq<Call>)
    requires Goes(o, artifactExists, invoke, device)
    ensures asked != [] && asked <= LiveTrace(o, artifactExists, invoke) && asked[|asked| - 1].tool == InspectUi
    ensures var result := LiveOutcome(o, artifactExists, invoke);
      && ListsArtifacts(invoke(asked), result.bundle.artifacts)
      && (result.packet.Some? ==> result.packet.value.artifacts == result.bundle.artifacts)
  {
    hide Goes, Plan, InspectArtifacts, ListsArtifacts, StepsUpTo, HasCode, FirstFailed, VerdictFromSteps;
    GoesIff(o, artifactExists, invoke, device);
    var plan := Plan(o, device);
    PlanShape(o, device);
    asked := plan[..InspectIndex(o) + 1];
    InspectWritten(invoke(asked));
  }

  ghost predicate SomeCode(steps: seq<Step>, code: string) {
    exists i :: 0 <= i < |steps| && steps[i].reasonCode == code
  }

  /** The bundle says what its steps say, and carries the names of the run. */
  lemma BundleWritten(o: Options, artifactExists: bool, invoke: Invoker)
    ensures
      var result := LiveOutcome(o, artifactExists, invoke);
      var b := result.bundle;
      && b.runId == o.runId && b.source == "live_device" && b.options == o
      && |b.stepIds| == |b.steps| && (forall i :: 0 <= i < |b.steps| ==> b.stepIds[i] == b.steps[i].id)
      && VerdictWritten(b.steps, b.verdict)
      && b.matched == (b.verdict == "mobile_change_verified") && b.nextStep.AttachToPr? == b.matched
      && (result.packet.Some? ==> result.packet.value.runId == o.runId)
  {
    hide LiveSteps, LiveArtifacts, HasCode, FirstFailed, VerdictFromSteps, VerdictWritten, NeedsInstall;
    var steps := LiveSteps(o, artifactExists, invoke);
    VerdictIs(steps);
    VerifiedName();
  }

  ghost predicate VerdictWritten(steps: seq<Step>, verdict: string) {
    verdict ==
      if SomeCode(steps, "DEVICE_UNAVAILABLE") then "device_unavailable"
      else if SomeCode(steps, "APP_ARTIFACT_UNAVAILABLE") then "app_artifact_unavailable"
      else if steps != [] && forall i :: 0 <= i < |steps| ==> steps[i].status.Success? then "mobile_change_verified"
      else "mobile_change_verification_failed"
  }

  lemma VerdictIs(steps: seq<Step>)
    ensures VerdictWritten(steps, VerdictFromSteps(steps))
  {
  }

  lemma VerifiedName()
    ensures Names.CHANGE_VERIFIED == "mobile_change_verified"
  {
  }

  // ----- the packet

  /** The signals of a packet: only what a live run can tell. */
  predicate OnlySignals(s: Signals, noDevice: bool, noArtifact: bool, notReady: bool) {
    && s.deviceUnavailable == noDevice && s.appArtifactUnavailable == noArtifact && s.appNotReady == notReady
    && !s.policyDenied && !s.networkPolicyFailure && !s.selectorNoMatch && !s.crashDetected
    && !s.interruptionDetected && !s.keyboardFocusAmbiguous
  }

  /** A packet is about its failed step, blames by its signals, and its signals are those of a
      missing device, of a missing artifact, or the codes of the steps of a full run. */
  lemma PacketWritten(o: Options, artifactExists: bool, invoke: Invoker)
    requires LiveOutcome(o, artifactExists, invoke).packet.Some?
    ensures
      var listed := invoke([Call(ListDevices, None, None, DeviceInput(true))]);
      var p, steps := LiveOutcome(o, artifactExists, invoke).packet.value,
                      LiveOutcome(o, artifactExists, invoke).bundle.steps;
      && p.reasonCode == p.failedStep.reasonCode
      && p.category == (if p.signals.deviceUnavailable || p.signals.appArtifactUnavailable then Environment
                        else if p.signals.appNotReady then AppReadiness else Unknown)
      && p.confidence == (if p.category.Unknown? then Low else High)
      && (if Chooses(listed, o, None) then OnlySignals(p.signals, true, false, false)
          else if Installs(o) && !artifactExists then OnlySignals(p.signals, false, true, false)
          else OnlySignals(p.signals, SomeCode(steps, "DEVICE_UNAVAILABLE"), false, SomeCode(steps, "APP_NOT_READY")))
  {
    hide Chooses, SelectedDevice, LiveSteps, LiveArtifacts, HasCode, SomeCode, FirstFailed, VerdictFromSteps;
    OneChoice(invoke([ListCall()]), o, None);
    CodesAre(LiveSteps(o, artifactExists, invoke));
  }

  lemma CodesAre(steps: seq<Step>)
    ensures HasCode(steps, Names.DEVICE_UNAVAILABLE) <==> SomeCode(steps, "DEVICE_UNAVAILABLE")
    ensures HasCode(steps, Names.APP_NOT_READY) <==> SomeCode(steps, "APP_NOT_READY")
  {
  }

  /** Each category is blamed exactly if its signal is given and none that goes before it. */
  lemma CategoryWritten(s: Signals)
    ensures var c := CategoryFromSignals(s);
      var a := s.deviceUnavailable || s.appArtifactUnavailable;
      var b := a || s.policyDenied || s.appNotReady;
      var d := b || s.networkPolicyFailure || s.selectorNoMatch;
      && (c.Environment? <==> a)
      && (c.Policy? <==> s.policyDenied && !a)
      && (c.AppReadiness? <==> s.appNotReady && !a && !s.policyDenied)
      && (c.Network? <==> s.networkPolicyFailure && !b)
      && (c.UiTarget? <==> s.selectorNoMatch && !b && !s.networkPolicyFailure)
      && (c.AppCrash? <==> s.crashDetected && !d)
      && (c.Interruption? <==> s.interruptionDetected && !d && !s.crashDetected)
      && (c.KeyboardFocus? <==> s.keyboardFocusAmbiguous && !d && !s.crashDetected && !s.interruptionDetected)
  {
  }
}
