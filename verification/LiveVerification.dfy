/** The live verification workflow against an arbitrary tool invoker. */
module LiveVerification {
  import opened Prelude
  import opened Json
  import Names

  datatype Platform = Android | IOS

  datatype Tool =
    | ListDevices
    | DescribeCapabilities
    | StartSession
    | InstallApp
    | LaunchApp
    | InspectUi
    | GetScreenSummary
    | EndSession
    | Filesystem

  datatype StepStatus = Success | Failed | Skipped

  datatype Step = Step(id: string, tool: Tool, status: StepStatus, reasonCode: string, detail: Option<string>)

  datatype Options = Options(
    runId: string,
    platform: Platform,
    appId: string,
    appArtifact: Option<string>,
    runnerProfile: string,
    policyProfile: string,
    outputDir: Option<string>,
    expectedScreenId: Option<string>,
    expectedAppPhase: Option<string>,
    deviceId: Option<string>,
    skipInstall: bool,
    paths: Paths)

  /** The path operations of the platform: resolving under the repository root, and joining. */
  datatype Paths = Paths(resolve: string -> string, join: (string, string) -> string)

  /** What a tool is asked, apart from the session and the device. */
  datatype Input =
    | DeviceInput(includeUnavailable: bool)
    | CapabilityInput(platform: Platform, runnerProfile: string)
    | StartInput(platform: Platform, appId: string, profile: string, policyProfile: string)
    | InstallInput(platform: Platform, runnerProfile: string, artifactPath: string)
    | LaunchInput(platform: Platform, runnerProfile: string, appId: string)
    | InspectInput(platform: Platform, runnerProfile: string, appId: string, outputPath: string)
    | ScreenInput(platform: Platform, runnerProfile: string, appId: string, includeDebugSignals: bool)
    | EndInput(artifacts: seq<string>)
    | NoInput

  /** One call of a tool, with the session and the device that it names. */
  datatype Call = Call(tool: Tool, session: Option<string>, device: Option<string>, input: Input)

  /** The invoker answers the last call as it likes, in view of all the earlier ones. */
  type Invoker = seq<Call> -> Value

  datatype ArtifactKind = UiTree | OtherKind(name: string)

  datatype Artifact = Artifact(kind: ArtifactKind, path: string)

  datatype NextStep = AttachToPr | InspectFailurePacket

  datatype Bundle = Bundle(
    runId: string,
    source: string,
    verdict: string,
    options: Options,
    matched: bool,
    stepIds: seq<string>,
    steps: seq<Step>,
    artifacts: seq<Artifact>,
    nextStep: NextStep)

  datatype Signals = Signals(
    deviceUnavailable: bool,
    appArtifactUnavailable: bool,
    policyDenied: bool,
    appNotReady: bool,
    networkPolicyFailure: bool,
    selectorNoMatch: bool,
    crashDetected: bool,
    interruptionDetected: bool,
    keyboardFocusAmbiguous: bool)

  datatype Category = Environment | Policy | AppReadiness | Network | UiTarget | AppCrash | Interruption
                    | KeyboardFocus | Unknown

  datatype Confidence = High | Medium | Low

  datatype Packet = Packet(
    runId: string,
    category: Category,
    confidence: Confidence,
    failedStep: Step,
    reasonCode: string,
    artifacts: seq<Artifact>,
    signals: Signals)

  datatype LiveResult = LiveResult(bundle: Bundle, packet: Option<Packet>)

  // ----- reading responses

  function Record(v: Value): Fields {
    if v.Obj? then v.fields else []
  }

  function Field(v: Value, key: string): Value {
    Lookup(Record(v), key).GetOr(Null)
  }

  function StatusOf(result: Value): StepStatus {
    if Field(result, "status") == Str("success") then Success
    else if Field(result, "status") == Str("skipped") then Skipped
    else Failed
  }

  function CodeOf(result: Value): string {
    if Field(result, "reasonCode").Str? then Field(result, "reasonCode").s else Names.CODE_OK
  }

  function StepFromResult(id: string, tool: Tool, result: Value): Step {
    Step(id, tool, StatusOf(result), CodeOf(result), None)
  }

  predicate Eligible(device: Value) {
    Field(device, "available") != Bool(false) && Field(device, "id").Str? && Field(device, "id").s != ""
  }

  function FirstEligible(devices: seq<Value>): Option<string> {
    if devices == [] then None
    else if Eligible(devices[0]) then Some(Field(devices[0], "id").s)
    else FirstEligible(devices[1..])
  }

  function Devices(listed: Value, platform: Platform): seq<Value> {
    var list := Field(Field(listed, "data"), if platform.Android? then "android" else "ios");
    if list.Arr? then list.items else []
  }

  function SelectedDevice(listed: Value, o: Options): Option<string> {
    if Given(o.deviceId) then o.deviceId else FirstEligible(Devices(listed, o.platform))
  }

  /** The answer lists these devices for the platform. */
  ghost predicate Lists(listed: Value, platform: Platform, items: seq<Value>) {
    listed.Obj?
    && match Lookup(listed.fields, "data")
       case Some(Obj(data)) => Lookup(data, if platform.Android? then "android" else "ios") == Some(Arr(items))
       case _ => false
  }

  /** A listed device with this id that is not called unavailable. */
  ghost predicate Offers(device: Value, id: string) {
    && id != "" && device.Obj? && Lookup(device.fields, "id") == Some(Str(id))
    && Lookup(device.fields, "available") != Some(Bool(false))
  }

  ghost predicate OffersFirst(items: seq<Value>, i: nat, id: string) {
    i < |items| && Offers(items[i], id) && forall j, other :: 0 <= j < i ==> !Offers(items[j], other)
  }

  /** The device that is asked for, or the first one that the list offers. */
  ghost predicate Chooses(listed: Value, o: Options, r: Option<string>) {
    if o.deviceId.Some? && o.deviceId.value != "" then r == o.deviceId
    else match r
      case Some(id) => exists items, i :: Lists(listed, o.platform, items) && OffersFirst(items, i, id)
      case None => forall items, i, id :: Lists(listed, o.platform, items) && 0 <= i < |items| ==> !Offers(items[i], id)
  }

  lemma EligibleIff(device: Value, id: string)
    ensures Eligible(device) && Field(device, "id") == Str(id) <==> Offers(device, id)
  {
    NothingLooked("id");
  }

  lemma NothingLooked(key: string)
    ensures Lookup([], key) == None
  {
  }

  lemma {:induction false} FirstOffered(items: seq<Value>)
    ensures
      match FirstEligible(items)
      case Some(id) => exists i :: OffersFirst(items, i, id)
      case None => forall i, id :: 0 <= i < |items| ==> !Offers(items[i], id)
  {
    hide Eligible, Field, Offers;
    if items != [] {
      FirstOffered(items[1..]);
      forall other: string
        ensures Eligible(items[0]) && Field(items[0], "id") == Str(other) <==> Offers(items[0], other)
      {
        EligibleIff(items[0], other);
      }
      NotEligible(items[0]);
      if Eligible(items[0]) {
        var id := Field(items[0], "id").s;
        assert FirstEligible(items) == Some(id);
        assert OffersFirst(items, 0, id);
      } else if FirstEligible(items[1..]).Some? {
        var i: nat :| OffersFirst(items[1..], i, FirstEligible(items[1..]).value);
        OffersBehind(items, i, FirstEligible(items[1..]).value);
        assert OffersFirst(items, i + 1, FirstEligible(items).value);
      } else {
        assert forall i, other :: 0 < i < |items| ==> items[i] == items[1..][i - 1] && !Offers(items[i], other);
      }
    }
  }

  lemma NotEligible(device: Value)
    ensures Eligible(device) ==> Field(device, "id").Str?
    ensures !Eligible(device) ==> forall id :: !Offers(device, id)
  {
    NothingLooked("id");
  }

  lemma OffersBehind(items: seq<Value>, i: nat, id: string)
    requires items != [] && OffersFirst(items[1..], i, id) && forall other :: !Offers(items[0], other)
    ensures OffersFirst(items, i + 1, id)
  {
    hide Offers;
    forall j, other | 0 <= j < i + 1
      ensures !Offers(items[j], other)
    {
      assert j > 0 ==> items[j] == items[1..][j - 1];
    }
  }

  lemma DevicesListed(listed: Value, platform: Platform)
    ensures Lists(listed, platform, Devices(listed, platform))
       || (Devices(listed, platform) == [] && forall items :: !Lists(listed, platform, items))
    ensures forall items :: Lists(listed, platform, items) ==> items == Devices(listed, platform)
  {
    hide Lookup;
    NothingLooked("data");
    NothingLooked(if platform.Android? then "android" else "ios");
  }

  lemma SelectedChooses(listed: Value, o: Options)
    ensures Chooses(listed, o, SelectedDevice(listed, o))
  {
    hide FirstEligible, Devices, Offers, Lists;
    var items := Devices(listed, o.platform);
    DevicesListed(listed, o.platform);
    FirstOffered(items);
  }

  method SelectDevice(listed: Value, o: Options) returns (r: Option<string>)
    ensures r == SelectedDevice(listed, o)
    ensures Chooses(listed, o, r)
  {
    hide Field, Chooses;
    SelectedChooses(listed, o);
    if Given(o.deviceId) { return o.deviceId; }
    var devices := Devices(listed, o.platform);
    assert devices[0..] == devices;
    for i := 0 to |devices|
      invariant FirstEligible(devices) == FirstEligible(devices[i..])
    {
      assert devices[i..][1..] == devices[i + 1..];
      if Field(devices[i], "available") == Bool(false) { continue; }
      var id := Field(devices[i], "id");
      if id.Str? && id.s != "" { return Some(id.s); }
    }
    return None;
  }

  function DiscoverDetail(listed: Value, device: string): string {
    if Field(listed, "status") == Str("success") then "Selected device " + device + "."
    else
      var status := if Field(listed, "status").Str? then Field(listed, "status").s else "unknown";
      var code := if Field(listed, "reasonCode").Str? then Field(listed, "reasonCode").s else "unknown";
      "Selected device " + device + "; list_devices returned " + status + "/" + code + "."
  }

  function DiscoverStep(listed: Value, device: string): Step {
    Step(Names.DISCOVER_DEVICE, ListDevices, Success, Names.CODE_OK, Some(DiscoverDetail(listed, device)))
  }

  function NoDeviceStep(): Step {
    Step(Names.DISCOVER_DEVICE, ListDevices, Failed, Names.DEVICE_UNAVAILABLE, None)
  }

  function NoArtifactStep(o: Options): Step {
    Step(Names.CHECK_APP_ARTIFACT, Filesystem, Failed, Names.ARTIFACT_UNAVAILABLE, o.appArtifact)
  }

  /** Whether the screen is in the expected phase; an expected screen id is not looked at. */
  predicate ReadinessMatches(screen: Value, o: Options) {
    Given(o.expectedAppPhase)
    ==> Field(Field(Field(screen, "data"), "screenSummary"), "appPhase") == Str(o.expectedAppPhase.value)
  }

  function ScreenStep(screen: Value, o: Options): Step {
    var step := StepFromResult(Names.CHECK_READINESS, GetScreenSummary, screen);
    if step.status.Success? && !ReadinessMatches(screen, o)
    then step.(status := Failed, reasonCode := Names.APP_NOT_READY)
    else step
  }

  function StringItems(items: seq<Value>): seq<string> {
    if items == [] then []
    else StringItems(items[..|items| - 1])
         + (if items[|items| - 1].Str? then [items[|items| - 1].s] else [])
  }

  function UiTrees(paths: seq<string>): seq<Artifact> {
    seq(|paths|, i requires 0 <= i < |paths| => Artifact(UiTree, paths[i]))
  }

  function InspectArtifacts(inspected: Value): seq<Artifact> {
    var list := Field(inspected, "artifacts");
    UiTrees(StringItems(if list.Arr? then list.items else []))
  }

  // ----- verdicts

  predicate HasCode(steps: seq<Step>, code: string) {
    exists i :: 0 <= i < |steps| && steps[i].reasonCode == code
  }

  predicate AllSucceeded(steps: seq<Step>) {
    steps != [] && forall i :: 0 <= i < |steps| ==> steps[i].status.Success?
  }

  function VerdictFromSteps(steps: seq<Step>): string {
    if HasCode(steps, Names.DEVICE_UNAVAILABLE) then Names.NO_DEVICE
    else if HasCode(steps, Names.ARTIFACT_UNAVAILABLE) then Names.NO_ARTIFACT
    else if AllSucceeded(steps) then Names.CHANGE_VERIFIED
    else Names.VERIFICATION_FAILED
  }

  function StepIds(steps: seq<Step>): seq<string> {
    seq(|steps|, i requires 0 <= i < |steps| => steps[i].id)
  }

  function BuildBundle(o: Options, source: string, steps: seq<Step>, artifacts: seq<Artifact>): Bundle {
    var verdict := VerdictFromSteps(steps);
    var verified := verdict == Names.CHANGE_VERIFIED;
    Bundle(o.runId, source, verdict, o, verified, StepIds(steps), steps, artifacts,
           if verified then AttachToPr else InspectFailurePacket)
  }

  function CategoryFromSignals(s: Signals): Category {
    if s.deviceUnavailable || s.appArtifactUnavailable then Environment
    else if s.policyDenied then Policy
    else if s.appNotReady then AppReadiness
    else if s.networkPolicyFailure then Network
    else if s.selectorNoMatch then UiTarget
    else if s.crashDetected then AppCrash
    else if s.interruptionDetected then Interruption
    else if s.keyboardFocusAmbiguous then KeyboardFocus
    else Unknown
  }

  function LiveSignals(noDevice: bool, noArtifact: bool, notReady: bool): Signals {
    Signals(noDevice, noArtifact, false, notReady, false, false, false, false, false)
  }

  function BuildPacket(runId: string, failedStep: Step, signals: Signals, artifacts: seq<Artifact>): Packet {
    var category := CategoryFromSignals(signals);
    Packet(runId, category, if category.Unknown? then Low else High, failedStep, failedStep.reasonCode, artifacts,
           signals)
  }

  function FirstFailed(steps: seq<Step>): Option<Step> {
    if steps == [] then None
    else if steps[0].status.Failed? then Some(steps[0])
    else FirstFailed(steps[1..])
  }

  // ----- the run, as a function of the invoker

  function SessionId(o: Options): string {
    "mobile-change-live-" + o.runId
  }

  predicate NeedsInstall(o: Options) {
    Given(o.appArtifact) && !o.skipInstall
  }

  function OutputDir(o: Options): string {
    o.outputDir.GetOr("output/showcase/mobile-change-verification-live/" + o.runId)
  }

  function InputOf(o: Options, tool: Tool): Input {
    match tool
    case ListDevices => ListCall().input
    case DescribeCapabilities => CapabilityInput(o.platform, o.runnerProfile)
    case StartSession => StartInput(o.platform, o.appId, o.runnerProfile, o.policyProfile)
    case InstallApp => InstallInput(o.platform, o.runnerProfile, o.paths.resolve(o.appArtifact.GetOr("")))
    case LaunchApp => LaunchInput(o.platform, o.runnerProfile, o.appId)
    case InspectUi =>
      InspectInput(o.platform, o.runnerProfile, o.appId, o.paths.join(OutputDir(o), "inspect-ui.xml"))
    case GetScreenSummary => ScreenInput(o.platform, o.runnerProfile, o.appId, true)
    case EndSession => EndInput([OutputDir(o)])
    case Filesystem => NoInput
  }

  function ListCall(): Call {
    Call(ListDevices, None, None, DeviceInput(true))
  }

  function CapabilityCall(o: Options): Call {
    Call(DescribeCapabilities, None, None, InputOf(o, DescribeCapabilities))
  }

  function SessionCall(o: Options, tool: Tool, device: string): Call {
    Call(tool, Some(SessionId(o)), Some(device), InputOf(o, tool))
  }

  function EndCall(o: Options): Call {
    Call(EndSession, Some(SessionId(o)), None, InputOf(o, EndSession))
  }

  /** The calls of a run that gets a device and its artifact. */
  function Plan(o: Options, device: string): seq<Call> {
    [ListCall(), CapabilityCall(o), SessionCall(o, StartSession, device)]
    + (if NeedsInstall(o) then [SessionCall(o, InstallApp, device)] else [])
    + [SessionCall(o, LaunchApp, device), SessionCall(o, InspectUi, device),
       SessionCall(o, GetScreenSummary, device), EndCall(o)]
  }

  function StepName(tool: Tool): string {
    match tool
    case ListDevices => Names.DISCOVER_DEVICE
    case DescribeCapabilities => Names.DESCRIBE_CAPABILITIES
    case StartSession => Names.START_SESSION
    case InstallApp => Names.INSTALL_APP
    case LaunchApp => Names.LAUNCH_APP
    case InspectUi => Names.INSPECT_READINESS
    case GetScreenSummary => Names.CHECK_READINESS
    case EndSession => Names.CLOSE_SESSION
    case Filesystem => Names.CHECK_APP_ARTIFACT
  }

  function StepOf(o: Options, tool: Tool, response: Value): Step {
    if tool.GetScreenSummary? then ScreenStep(response, o) else StepFromResult(StepName(tool), tool, response)
  }

  /** The steps of the first `n` calls of a plan. */
  function StepsUpTo(o: Options, device: string, plan: seq<Call>, invoke: Invoker, n: nat): seq<Step>
    requires 1 <= n <= |plan|
  {
    if n == 1 then [DiscoverStep(invoke(plan[..1]), device)]
    else StepsUpTo(o, device, plan, invoke, n - 1) + [StepOf(o, plan[n - 1].tool, invoke(plan[..n]))]
  }

  function Device(o: Options, invoke: Invoker): Option<string> {
    SelectedDevice(invoke([ListCall()]), o)
  }

  /** A device is there, and the artifact too if it is to be installed. */
  predicate Proceeds(o: Options, artifactExists: bool, invoke: Invoker) {
    Device(o, invoke).Some? && (NeedsInstall(o) ==> artifactExists)
  }

  function LiveTrace(o: Options, artifactExists: bool, invoke: Invoker): seq<Call> {
    if Proceeds(o, artifactExists, invoke) then Plan(o, Device(o, invoke).value) else [ListCall()]
  }

  function LiveSteps(o: Options, artifactExists: bool, invoke: Invoker): seq<Step> {
    match Device(o, invoke)
    case None => [NoDeviceStep()]
    case Some(device) =>
      if NeedsInstall(o) && !artifactExists then [DiscoverStep(invoke([ListCall()]), device), NoArtifactStep(o)]
      else StepsUpTo(o, device, Plan(o, device), invoke, |Plan(o, device)|)
  }

  function InspectIndex(o: Options): nat {
    if NeedsInstall(o) then 5 else 4
  }

  function LiveArtifacts(o: Options, artifactExists: bool, invoke: Invoker): seq<Artifact> {
    if Proceeds(o, artifactExists, invoke)
    then InspectArtifacts(invoke(Plan(o, Device(o, invoke).value)[..InspectIndex(o) + 1]))
    else []
  }

  function LivePacket(o: Options, artifactExists: bool, invoke: Invoker): Option<Packet> {
    var steps, artifacts := LiveSteps(o, artifactExists, invoke), LiveArtifacts(o, artifactExists, invoke);
    match Device(o, invoke)
    case None => Some(BuildPacket(o.runId, NoDeviceStep(), LiveSignals(true, false, false), artifacts))
    case Some(_) =>
      if NeedsInstall(o) && !artifactExists
      then Some(BuildPacket(o.runId, NoArtifactStep(o), LiveSignals(false, true, false), artifacts))
      else match FirstFailed(steps)
        case None => None
        case Some(failed) =>
          var signals := LiveSignals(HasCode(steps, Names.DEVICE_UNAVAILABLE), false,
                                     HasCode(steps, Names.APP_NOT_READY));
          Some(BuildPacket(o.runId, failed, signals, artifacts))
  }

  function LiveOutcome(o: Options, artifactExists: bool, invoke: Invoker): LiveResult {
    LiveResult(
      BuildBundle(o, Names.LIVE_DEVICE, LiveSteps(o, artifactExists, invoke), LiveArtifacts(o, artifactExists, invoke)),
      LivePacket(o, artifactExists, invoke))
  }

  // ----- the run

  /** One call of the plan and its step. */
  method Ask(o: Options, call: Call, trace: seq<Call>, steps: seq<Step>, invoke: Invoker,
             ghost device: string, ghost plan: seq<Call>)
      returns (response: Value, newTrace: seq<Call>, newSteps: seq<Step>)
    requires 1 <= |trace| < |plan| && trace == plan[..|trace|] && call == plan[|trace|]
    requires steps == StepsUpTo(o, device, plan, invoke, |trace|)
    ensures |newTrace| == |trace| + 1 && newTrace == plan[..|newTrace|]
    ensures response == invoke(newTrace)
    ensures newSteps == StepsUpTo(o, device, plan, invoke, |newTrace|)
  {
    hide ReadinessMatches, StepFromResult;
    newTrace := trace + [call];
    assert newTrace == plan[..|newTrace|];
    response := invoke(newTrace);
    var step := StepFromResult(StepName(call.tool), call.tool, response);
    if call.tool.GetScreenSummary? {
      step := ScreenStep(response, o);
    }
    newSteps := steps + [step];
  }

  method CollectArtifacts(inspected: Value) returns (artifacts: seq<Artifact>)
    ensures artifacts == InspectArtifacts(inspected)
  {
    hide Field;
    var list := Field(inspected, "artifacts");
    var items := if list.Arr? then list.items else [];
    artifacts := [];
    for i := 0 to |items|
      invariant artifacts == UiTrees(StringItems(items[..i]))
    {
      StringItemsGrow(items, i);
      if items[i].Str? {
        artifacts := artifacts + [Artifact(UiTree, items[i].s)];
      }
    }
    assert items[..|items|] == items;
  }

  lemma StringItemsGrow(items: seq<Value>, i: nat)
    requires i < |items|
    ensures UiTrees(StringItems(items[..i + 1]))
         == UiTrees(StringItems(items[..i])) + (if items[i].Str? then [Artifact(UiTree, items[i].s)] else [])
  {
    assert items[..i + 1][..i] == items[..i];
  }

  lemma PlanShape(o: Options, device: string)
    ensures var plan := Plan(o, device);
      && |plan| == (if NeedsInstall(o) then 8 else 7)
      && plan[0] == ListCall() && plan[1] == CapabilityCall(o)
      && plan[2] == SessionCall(o, StartSession, device)
      && (NeedsInstall(o) ==> plan[3] == SessionCall(o, InstallApp, device))
      && plan[|plan| - 4] == SessionCall(o, LaunchApp, device)
      && plan[|plan| - 3] == SessionCall(o, InspectUi, device)
      && plan[|plan| - 2] == SessionCall(o, GetScreenSummary, device)
      && plan[|plan| - 1] == EndCall(o)
  {
    hide NeedsInstall, SessionId, InputOf;
  }

  method RunSession(o: Options, device: string, listed: Value, invoke: Invoker)
      returns (trace: seq<Call>, steps: seq<Step>, artifacts: seq<Artifact>)
    requires listed == invoke([ListCall()])
    ensures trace == Plan(o, device)
    ensures steps == StepsUpTo(o, device, Plan(o, device), invoke, |Plan(o, device)|)
    ensures InspectIndex(o) < |Plan(o, device)|
    ensures artifacts == InspectArtifacts(invoke(Plan(o, device)[..InspectIndex(o) + 1]))
  {
    hide Plan, StepOf, SessionId, InspectArtifacts, NeedsInstall, DiscoverStep, InputOf;
    ghost var plan := Plan(o, device);
    PlanShape(o, device);
    trace := [ListCall()];
    steps := [DiscoverStep(listed, device)];
    assert trace == plan[..1];
    var response;
    response, trace, steps := Ask(o, CapabilityCall(o), trace, steps, invoke, device, plan);
    response, trace, steps := Ask(o, SessionCall(o, StartSession, device), trace, steps, invoke, device, plan);
    if NeedsInstall(o) {
      response, trace, steps := Ask(o, SessionCall(o, InstallApp, device), trace, steps, invoke, device, plan);
    }
    response, trace, steps := Ask(o, SessionCall(o, LaunchApp, device), trace, steps, invoke, device, plan);
    response, trace, steps := Ask(o, SessionCall(o, InspectUi, device), trace, steps, invoke, device, plan);
    artifacts := CollectArtifacts(response);
    response, trace, steps := Ask(o, SessionCall(o, GetScreenSummary, device), trace, steps, invoke, device, plan);
    response, trace, steps := Ask(o, EndCall(o), trace, steps, invoke, device, plan);
    assert plan[..|plan|] == plan;
  }

  method FindFailed(steps: seq<Step>) returns (r: Option<Step>)
    ensures r == FirstFailed(steps)
  {
    assert steps[0..] == steps;
    for i := 0 to |steps|
      invariant FirstFailed(steps) == FirstFailed(steps[i..])
    {
      assert steps[i..][1..] == steps[i + 1..];
      if steps[i].status.Failed? { return Some(steps[i]); }
    }
    return None;
  }

  method RunLive(o: Options, artifactExists: bool, invoke: Invoker) returns (result: LiveResult, trace: seq<Call>)
    ensures trace == LiveTrace(o, artifactExists, invoke)
    ensures result == LiveOutcome(o, artifactExists, invoke)
  {
    hide Plan, StepsUpTo, BuildBundle, BuildPacket, InspectArtifacts, FirstFailed, HasCode, DiscoverStep;
    hide SelectedDevice;
    trace := [ListCall()];
    var listed := invoke(trace);
    var device := SelectDevice(listed, o);
    if device.None? {
      return LiveResult(BuildBundle(o, Names.LIVE_DEVICE, [NoDeviceStep()], []),
                        Some(BuildPacket(o.runId, NoDeviceStep(), LiveSignals(true, false, false), []))), trace;
    }
    var steps := [DiscoverStep(listed, device.value)];
    if NeedsInstall(o) && !artifactExists {
      steps := steps + [NoArtifactStep(o)];
      assert steps == [DiscoverStep(listed, device.value), NoArtifactStep(o)];
      return LiveResult(BuildBundle(o, Names.LIVE_DEVICE, steps, []),
                        Some(BuildPacket(o.runId, NoArtifactStep(o), LiveSignals(false, true, false), []))), trace;
    }
    var artifacts;
    trace, steps, artifacts := RunSession(o, device.value, listed, invoke);
    var failed := FindFailed(steps);
    var packet := None;
    if failed.Some? {
      var signals := LiveSignals(HasCode(steps, Names.DEVICE_UNAVAILABLE), false, HasCode(steps, Names.APP_NOT_READY));
      packet := Some(BuildPacket(o.runId, failed.value, signals, artifacts));
    }
    return LiveResult(BuildBundle(o, Names.LIVE_DEVICE, steps, artifacts), packet), trace;
  }
}
