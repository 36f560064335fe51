/** What every live run keeps, whatever the tools answer. */
module LiveLaws {
  import opened Prelude
  import opened Json
  import opened LiveVerification
  import Names

  // ----- session discipline

  /** One session is started, all calls from there on carry its id and none before does,
      and its end comes once, as the last call. */
  ghost predicate Disciplined(trace: seq<Call>, id: string) {
    exists s :: 0 <= s < |trace| - 1 && StartsAt(trace, s, id)
  }

  ghost predicate StartsAt(trace: seq<Call>, s: int, id: string) {
    forall i :: 0 <= i < |trace| ==>
      && (trace[i].tool.StartSession? <==> i == s)
      && (trace[i].tool.EndSession? <==> i == |trace| - 1)
      && trace[i].session == if i < s then None else Some(id)
  }

  lemma SessionDiscipline(o: Options, artifactExists: bool, invoke: Invoker)
    ensures
      var trace := LiveTrace(o, artifactExists, invoke);
      if Proceeds(o, artifactExists, invoke) then Disciplined(trace, SessionId(o))
      else |trace| == 1 && trace[0].tool == ListDevices
  {
    hide Plan, Device, SessionId, NeedsInstall, InputOf;
    if Proceeds(o, artifactExists, invoke) {
      PlanShape(o, Device(o, invoke).value);
      assert StartsAt(LiveTrace(o, artifactExists, invoke), 2, SessionId(o));
    }
  }

  // ----- steps of a full run

  lemma {:induction false} StepAtCall(o: Options, device: string, plan: seq<Call>, invoke: Invoker, n: nat, k: nat)
    requires k < n <= |plan|
    ensures |StepsUpTo(o, device, plan, invoke, n)| == n
    ensures StepsUpTo(o, device, plan, invoke, n)[k]
         == if k == 0 then DiscoverStep(invoke(plan[..1]), device) else StepOf(o, plan[k].tool, invoke(plan[..k + 1]))
    decreases n
  {
    hide StepOf, DiscoverStep;
    if n > 1 {
      StepAtCall(o, device, plan, invoke, n - 1, if k < n - 1 then k else 0);
    }
  }

  lemma StepIdOf(o: Options, tool: Tool, response: Value)
    ensures StepOf(o, tool, response).id == StepName(tool)
  {
    hide StatusOf, CodeOf, ReadinessMatches;
  }

  /** Each call of a full run has its step, in order and under its name. */
  lemma StepsFollowCalls(o: Options, artifactExists: bool, invoke: Invoker, k: nat)
    requires Proceeds(o, artifactExists, invoke) && k < |LiveTrace(o, artifactExists, invoke)|
    ensures |LiveSteps(o, artifactExists, invoke)| == |LiveTrace(o, artifactExists, invoke)|
    ensures LiveSteps(o, artifactExists, invoke)[k].id == StepName(LiveTrace(o, artifactExists, invoke)[k].tool)
  {
    hide StepsUpTo, StepOf, Plan, StepName, DiscoverStep;
    var device := Device(o, invoke).value;
    PlanShape(o, device);
    StepAtCall(o, device, Plan(o, device), invoke, |Plan(o, device)|, k);
    StepIdOf(o, Plan(o, device)[k].tool, invoke(Plan(o, device)[..k + 1]));
    DiscoverId(invoke(Plan(o, device)[..1]), device);
  }

  lemma DiscoverId(listed: Value, device: string)
    ensures DiscoverStep(listed, device).id == StepName(ListDevices)
    ensures DiscoverStep(listed, device).status.Success?
    ensures DiscoverStep(listed, device).reasonCode == Names.CODE_OK
  {
    hide DiscoverDetail;
  }

  lemma LiveStepsExist(o: Options, artifactExists: bool, invoke: Invoker)
    ensures LiveSteps(o, artifactExists, invoke) != []
  {
    hide StepsUpTo, Plan, DiscoverStep;
    if Proceeds(o, artifactExists, invoke) {
      PlanShape(o, Device(o, invoke).value);
      StepsFollowCalls(o, artifactExists, invoke, 0);
    }
  }

  // ----- the verdict

  /** A verdict is `verified` exactly when every step succeeded and none has a code that
      says that something was unavailable. */
  lemma VerdictIff(steps: seq<Step>)
    ensures VerdictFromSteps(steps) == Names.CHANGE_VERIFIED
       <==> AllSucceeded(steps) && !HasCode(steps, Names.DEVICE_UNAVAILABLE)
            && !HasCode(steps, Names.ARTIFACT_UNAVAILABLE)
  {
    hide HasCode, AllSucceeded;
    hide Names.CHANGE_VERIFIED, Names.NO_DEVICE, Names.NO_ARTIFACT, Names.VERIFICATION_FAILED;
    Names.VerdictsDiffer();
  }

  lemma LiveVerdictIff(o: Options, artifactExists: bool, invoke: Invoker)
    ensures
      var result := LiveOutcome(o, artifactExists, invoke);
      var steps := result.bundle.steps;
      && result.bundle.matched == (result.bundle.verdict == Names.CHANGE_VERIFIED)
      && (result.bundle.matched
          <==> (forall i :: 0 <= i < |steps| ==> steps[i].status.Success?)
               && !HasCode(steps, Names.DEVICE_UNAVAILABLE) && !HasCode(steps, Names.ARTIFACT_UNAVAILABLE))
      && (result.bundle.matched ==> result.packet.None?)
  {
    hide HasCode, LiveSteps, LivePacket, LiveArtifacts;
    LiveStepsExist(o, artifactExists, invoke);
    VerdictIff(LiveSteps(o, artifactExists, invoke));
    PacketIff(o, artifactExists, invoke);
  }

  lemma StoppedIsNoSuccess(o: Options, artifactExists: bool, invoke: Invoker)
    ensures Proceeds(o, artifactExists, invoke) || !AllSucceeded(LiveSteps(o, artifactExists, invoke))
  {
    hide StepsUpTo, Plan, DiscoverStep;
    var steps := LiveSteps(o, artifactExists, invoke);
    if !Proceeds(o, artifactExists, invoke) {
      assert steps[|steps| - 1].status.Failed?;
    }
  }

  /** A run that gets no device or no artifact is never verified. */
  lemma VerifiedProceeds(o: Options, artifactExists: bool, invoke: Invoker)
    requires LiveOutcome(o, artifactExists, invoke).bundle.verdict == Names.CHANGE_VERIFIED
    ensures Proceeds(o, artifactExists, invoke)
  {
    hide HasCode, LivePacket, LiveArtifacts, StepsUpTo, Plan;
    VerdictIff(LiveSteps(o, artifactExists, invoke));
    StoppedIsNoSuccess(o, artifactExists, invoke);
  }

  // ----- the failure packet

  lemma {:induction false} FirstFailedIs(steps: seq<Step>)
    ensures FirstFailed(steps).None? <==> forall i :: 0 <= i < |steps| ==> !steps[i].status.Failed?
    ensures FirstFailed(steps).Some? ==> exists i :: 0 <= i < |steps| && FailsFirstAt(steps, i)
                                                     && steps[i] == FirstFailed(steps).value
  {
    if steps != [] {
      FirstFailedIs(steps[1..]);
      if steps[0].status.Failed? {
        assert FailsFirstAt(steps, 0);
      } else if FirstFailed(steps).Some? {
        var i :| 0 <= i < |steps[1..]| && FailsFirstAt(steps[1..], i) && steps[1..][i] == FirstFailed(steps).value;
        assert FailsFirstAt(steps, i + 1);
      }
    }
  }

  ghost predicate FailsFirstAt(steps: seq<Step>, i: nat) {
    && i < |steps| && steps[i].status.Failed?
    && forall j :: 0 <= j < i ==> !steps[j].status.Failed?
  }

  lemma PacketIsFirstFailed(o: Options, artifactExists: bool, invoke: Invoker)
    ensures
      var packet, failed := LivePacket(o, artifactExists, invoke), FirstFailed(LiveSteps(o, artifactExists, invoke));
      && (packet.Some? <==> failed.Some?)
      && (packet.Some? ==> packet.value.failedStep == failed.value)
  {
    hide StepsUpTo, Plan, HasCode, LiveArtifacts, CategoryFromSignals;
    if Device(o, invoke).Some? && NeedsInstall(o) && !artifactExists {
      var listed, device := invoke([ListCall()]), Device(o, invoke).value;
      DiscoverId(listed, device);
      assert [DiscoverStep(listed, device), NoArtifactStep(o)][1..] == [NoArtifactStep(o)];
    }
  }

  /** A failure packet is there exactly when some step failed, and is about the first one. */
  lemma PacketIff(o: Options, artifactExists: bool, invoke: Invoker)
    ensures
      var packet, steps := LivePacket(o, artifactExists, invoke), LiveSteps(o, artifactExists, invoke);
      && (packet.Some? <==> exists i :: 0 <= i < |steps| && steps[i].status.Failed?)
      && (packet.Some?
          ==> exists i :: 0 <= i < |steps| && FailsFirstAt(steps, i) && steps[i] == packet.value.failedStep)
  {
    hide LivePacket, LiveSteps, FirstFailed, FailsFirstAt;
    PacketIsFirstFailed(o, artifactExists, invoke);
    FirstFailedIs(LiveSteps(o, artifactExists, invoke));
  }

  /** A run that is not verified and still leaves no packet: exactly when no step failed, but
      one was skipped or one carries a code that says that something was unavailable. */
  lemma SilentFailureIff(o: Options, artifactExists: bool, invoke: Invoker)
    ensures
      var result := LiveOutcome(o, artifactExists, invoke);
      var steps := result.bundle.steps;
      !result.bundle.matched && result.packet.None?
      <==> && (forall i :: 0 <= i < |steps| ==> !steps[i].status.Failed?)
           && ((exists i :: 0 <= i < |steps| && steps[i].status.Skipped?)
               || HasCode(steps, Names.DEVICE_UNAVAILABLE) || HasCode(steps, Names.ARTIFACT_UNAVAILABLE))
  {
    hide HasCode, LiveSteps, LivePacket, LiveArtifacts, FailsFirstAt;
    LiveVerdictIff(o, artifactExists, invoke);
    PacketIff(o, artifactExists, invoke);
    StatusCases(LiveSteps(o, artifactExists, invoke));
  }

  lemma StatusCases(steps: seq<Step>)
    ensures (forall i :: 0 <= i < |steps| ==> steps[i].status.Success?)
       <==> (forall i :: 0 <= i < |steps| ==> !steps[i].status.Failed?)
            && !(exists i :: 0 <= i < |steps| && steps[i].status.Skipped?)
  {
  }

  /** Such a run: a requested device, and tools that skip everything. */
  lemma SkippedRunIsSilent(o: Options)
    requires Given(o.deviceId) && o.skipInstall
    ensures
      var skip: Invoker := _ => Obj([("status", Str("skipped"))]);
      var result := LiveOutcome(o, true, skip);
      !result.bundle.matched && result.packet.None?
  {
    hide HasCode, StepsUpTo, Plan, LiveOutcome, LiveSteps, LiveTrace;
    var skip: Invoker := _ => Obj([("status", Str("skipped"))]);
    var device := o.deviceId.value;
    assert Proceeds(o, true, skip) && Device(o, skip) == Some(device);
    var steps := LiveSteps(o, true, skip);
    forall i | 0 <= i < |steps|
      ensures !steps[i].status.Failed? && (i == 1 ==> steps[i].status.Skipped?)
    {
      SkippedStep(o, device, skip, i);
    }
    FullRunLength(o, device, skip);
    assert steps[1].status.Skipped?;
    assert LiveOutcome(o, true, skip).bundle.steps == steps by { OutcomeSteps(o, true, skip); }
    SilentFailureIff(o, true, skip);
  }

  lemma OutcomeSteps(o: Options, artifactExists: bool, invoke: Invoker)
    ensures LiveOutcome(o, artifactExists, invoke).bundle.steps == LiveSteps(o, artifactExists, invoke)
  {
    hide LiveSteps, LivePacket, LiveArtifacts, VerdictFromSteps;
  }

  lemma FullRunLength(o: Options, device: string, skip: Invoker)
    requires Device(o, skip) == Some(device) && Proceeds(o, true, skip)
    ensures |LiveSteps(o, true, skip)| >= 7
  {
    hide StepsUpTo, Plan, LiveSteps;
    PlanShape(o, device);
    StepsFollowCalls(o, true, skip, 0);
  }

  lemma SkippedStep(o: Options, device: string, skip: Invoker, i: nat)
    requires Device(o, skip) == Some(device) && Proceeds(o, true, skip)
    requires forall t :: skip(t) == Obj([("status", Str("skipped"))])
    requires i < |LiveSteps(o, true, skip)|
    ensures !LiveSteps(o, true, skip)[i].status.Failed?
    ensures i == 1 ==> LiveSteps(o, true, skip)[i].status.Skipped?
  {
    hide StepsUpTo, Plan, StepOf, DiscoverStep;
    var plan := Plan(o, device);
    PlanShape(o, device);
    StepAtCall(o, device, plan, skip, |plan|, 0);
    StepAtCall(o, device, plan, skip, |plan|, i);
    SkippedAnswer(o, plan[i].tool);
    DiscoverId(skip(plan[..1]), device);
  }

  lemma SkippedAnswer(o: Options, tool: Tool)
    ensures StepOf(o, tool, Obj([("status", Str("skipped"))])).status.Skipped?
  {
    hide ReadinessMatches, StepName, CodeOf;
    var v := Obj([("status", Str("skipped"))]);
    assert Lookup(v.fields, "status") == Some(Str("skipped"));
    assert "skipped"[1] != "success"[1];
  }

  /** What a failure packet blames: the environment exactly when the device or the artifact
      was missing or a step says so, else the app exactly when a step says that it was not
      ready; its confidence is low exactly when it blames nothing. */
  lemma PacketBlames(o: Options, artifactExists: bool, invoke: Invoker)
    requires LivePacket(o, artifactExists, invoke).Some?
    ensures
      var p, steps := LivePacket(o, artifactExists, invoke).value, LiveSteps(o, artifactExists, invoke);
      && (p.category.Environment?
          <==> !Proceeds(o, artifactExists, invoke) || HasCode(steps, Names.DEVICE_UNAVAILABLE))
      && (p.category.AppReadiness? <==> !p.category.Environment? && HasCode(steps, Names.APP_NOT_READY))
      && (p.category.Environment? || p.category.AppReadiness? || p.category.Unknown?)
      && (p.confidence.Low? <==> p.category.Unknown?)
      && p.reasonCode == p.failedStep.reasonCode
  {
    hide LiveSteps, LiveArtifacts, HasCode, FirstFailed, NeedsInstall;
  }

  // ----- readiness

  /** A verified run has seen the expected phase on the screen. */
  lemma VerifiedSawPhase(o: Options, artifactExists: bool, invoke: Invoker) returns (asked: seq<Call>)
    requires LiveOutcome(o, artifactExists, invoke).bundle.verdict == Names.CHANGE_VERIFIED
    ensures asked != [] && asked[|asked| - 1].tool == GetScreenSummary
    ensures asked <= LiveTrace(o, artifactExists, invoke)
    ensures ReadinessMatches(invoke(asked), o)
  {
    hide StepsUpTo, Plan, StepOf, LivePacket, LiveArtifacts, ReadinessMatches, HasCode, DiscoverStep;
    VerifiedProceeds(o, artifactExists, invoke);
    VerdictIff(LiveSteps(o, artifactExists, invoke));
    var device := Device(o, invoke).value;
    var plan := Plan(o, device);
    PlanShape(o, device);
    var k := |plan| - 2;
    asked := plan[..k + 1];
    StepAtCall(o, device, plan, invoke, |plan|, k);
    ScreenSucceeds(o, invoke(asked));
  }

  lemma ScreenSucceeds(o: Options, screen: Value)
    ensures StepOf(o, GetScreenSummary, screen).status.Success? ==> ReadinessMatches(screen, o)
  {
    hide ReadinessMatches, StatusOf, CodeOf;
  }

  lemma SamePlan(o: Options, other: Options, device: string)
    requires other == o.(expectedScreenId := other.expectedScreenId)
    ensures Plan(other, device) == Plan(o, device)
  {
  }

  /** The expected screen id plays no part: with any other id the calls, the steps and the
      verdict are the same. */
  lemma ScreenIdIgnored(o: Options, id: Option<string>, artifactExists: bool, invoke: Invoker)
    ensures
      var other := o.(expectedScreenId := id);
      && LiveTrace(other, artifactExists, invoke) == LiveTrace(o, artifactExists, invoke)
      && LiveSteps(other, artifactExists, invoke) == LiveSteps(o, artifactExists, invoke)
      && LiveOutcome(other, artifactExists, invoke).bundle.verdict
           == LiveOutcome(o, artifactExists, invoke).bundle.verdict
      && LivePacket(other, artifactExists, invoke) == LivePacket(o, artifactExists, invoke)
  {
    hide StepsUpTo, StepOf, HasCode, FirstFailed, BuildPacket, VerdictFromSteps, DiscoverStep, InspectArtifacts, Plan;
    var other := o.(expectedScreenId := id);
    if Device(o, invoke).Some? {
      var device := Device(o, invoke).value;
      var plan := Plan(o, device);
      SamePlan(o, other, device);
      PlanShape(o, device);
      SameSteps(o, other, device, plan, invoke, |plan|);
    }
  }

  lemma {:induction false} SameSteps(o: Options, other: Options, device: string, plan: seq<Call>, invoke: Invoker,
                                     n: nat)
    requires 1 <= n <= |plan| && o.expectedAppPhase == other.expectedAppPhase
    ensures StepsUpTo(o, device, plan, invoke, n) == StepsUpTo(other, device, plan, invoke, n)
  {
    hide DiscoverStep, StepFromResult, Field;
    if n > 1 {
      SameSteps(o, other, device, plan, invoke, n - 1);
    }
  }
}
