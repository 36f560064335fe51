/** The names that the mobile-change proof pipeline compares. */
module Names {
  datatype Blocker = Blocker(reasonCode: string, detail: string)

  // reason codes
  const CODE_OK := "OK"
  const DEVICE_UNAVAILABLE := "DEVICE_UNAVAILABLE"
  const ARTIFACT_UNAVAILABLE := "APP_ARTIFACT_UNAVAILABLE"
  const APP_NOT_READY := "APP_NOT_READY"
  const NOT_LIVE_DEVICE_SOURCE := "NOT_LIVE_DEVICE_SOURCE"
  const CONTROLLED_OUTPUT := "CONTROLLED_OUTPUT"
  const READINESS_NOT_MATCHED := "READINESS_NOT_MATCHED"
  const REQUIRED_STEP_MISSING := "REQUIRED_STEP_MISSING"
  const CONTRACT_NOT_STRONG := "READINESS_CONTRACT_NOT_STRONG"

  // workflow steps
  const DISCOVER_DEVICE := "discover-device"
  const CHECK_APP_ARTIFACT := "check-app-artifact"
  const DESCRIBE_CAPABILITIES := "describe-capabilities"
  const START_SESSION := "start-session"
  const INSTALL_APP := "install-app"
  const LAUNCH_APP := "launch-app"
  const INSPECT_READINESS := "inspect-readiness"
  const CHECK_READINESS := "check-readiness"
  const CLOSE_SESSION := "close-session"

  // sources
  const LIVE_DEVICE := "live_device"

  // verdicts of a verification
  const CHANGE_VERIFIED := "mobile_change_verified"
  const VERIFICATION_FAILED := "mobile_change_verification_failed"
  const NO_DEVICE := "device_unavailable"
  const NO_ARTIFACT := "app_artifact_unavailable"

  // verdicts of the intake
  const PROMOTABLE := "promotable_live_proof_candidate"
  const NOT_PROMOTABLE := "not_promotable_live_proof"

  // verdicts of the device readiness and of the one command
  const READY_FOR_LIVE := "ready_for_live_mobile_change_verification"
  const COMPLETED := "completed"
  const BLOCKED := "blocked"
  const COMMAND_FAILED := "verification_failed"
  const INTAKE_REJECTED := "intake_rejected"

  // proof levels
  const PHYSICAL_CANDIDATE := "physical_or_emulator_candidate"
  const CONTROLLED_LEVEL := "no_device_or_controlled_output"
  const FIXTURE_CONTRACT := "fixture_contract"
  const BLOCKED_BEFORE_LIVE := "blocked_before_live"
  const LIVE_FAILURE := "live_failure"

  // verdicts of a candidate
  const CANDIDATE_BLOCKED := "blocked_before_live_success"
  const PENDING_INTAKE := "live_success_pending_intake"
  const SUCCESS_PROMOTED := "repo_app_live_success_promoted"
  const OUTPUT_NOT_PROMOTABLE := "not_promotable_repo_app_output"

  lemma CodesDiffer()
    ensures CODE_OK != DEVICE_UNAVAILABLE && CODE_OK != ARTIFACT_UNAVAILABLE && CODE_OK != APP_NOT_READY
    ensures DEVICE_UNAVAILABLE != ARTIFACT_UNAVAILABLE && DEVICE_UNAVAILABLE != APP_NOT_READY
    ensures ARTIFACT_UNAVAILABLE != APP_NOT_READY
  {
    assert CODE_OK[0] == 'O' && DEVICE_UNAVAILABLE[0] == 'D';
    assert ARTIFACT_UNAVAILABLE[0] == 'A' && APP_NOT_READY[0] == 'A';
    assert |ARTIFACT_UNAVAILABLE| > |APP_NOT_READY|;
  }

  lemma StepsDiffer()
    ensures START_SESSION != DISCOVER_DEVICE && START_SESSION != CHECK_APP_ARTIFACT
  {
    assert START_SESSION[0] == 's' && DISCOVER_DEVICE[0] == 'd' && CHECK_APP_ARTIFACT[0] == 'c';
  }

  lemma VerdictsDiffer()
    ensures CHANGE_VERIFIED != VERIFICATION_FAILED && CHANGE_VERIFIED != NO_DEVICE
    ensures CHANGE_VERIFIED != NO_ARTIFACT && NO_DEVICE != NO_ARTIFACT
    ensures NO_DEVICE != VERIFICATION_FAILED && NO_ARTIFACT != VERIFICATION_FAILED
  {
    assert CHANGE_VERIFIED[0] == 'm' && VERIFICATION_FAILED[0] == 'm';
    assert NO_DEVICE[0] == 'd' && NO_ARTIFACT[0] == 'a';
    assert |CHANGE_VERIFIED| < |VERIFICATION_FAILED|;
  }

  lemma CommandVerdictsDiffer()
    ensures COMPLETED != BLOCKED && COMPLETED != COMMAND_FAILED && COMPLETED != INTAKE_REJECTED
    ensures BLOCKED != COMMAND_FAILED && BLOCKED != INTAKE_REJECTED
  {
    assert COMPLETED[0] == 'c' && BLOCKED[0] == 'b' && COMMAND_FAILED[0] == 'v' && INTAKE_REJECTED[0] == 'i';
  }

  lemma LevelsDiffer()
    ensures PHYSICAL_CANDIDATE != CONTROLLED_LEVEL && PHYSICAL_CANDIDATE != FIXTURE_CONTRACT
    ensures PHYSICAL_CANDIDATE != BLOCKED_BEFORE_LIVE && PHYSICAL_CANDIDATE != LIVE_FAILURE
  {
    assert PHYSICAL_CANDIDATE[0] == 'p' && CONTROLLED_LEVEL[0] == 'n' && FIXTURE_CONTRACT[0] == 'f';
    assert BLOCKED_BEFORE_LIVE[0] == 'b' && LIVE_FAILURE[0] == 'l';
  }

  lemma IntakeVerdictsDiffer()
    ensures PROMOTABLE != NOT_PROMOTABLE
  {
    assert PROMOTABLE[0] == 'p' && NOT_PROMOTABLE[0] == 'n';
  }

  lemma CandidateVerdictsDiffer()
    ensures SUCCESS_PROMOTED != CANDIDATE_BLOCKED && SUCCESS_PROMOTED != PENDING_INTAKE
    ensures SUCCESS_PROMOTED != OUTPUT_NOT_PROMOTABLE
    ensures CANDIDATE_BLOCKED != PENDING_INTAKE && CANDIDATE_BLOCKED != OUTPUT_NOT_PROMOTABLE
  {
    assert SUCCESS_PROMOTED[0] == 'r' && CANDIDATE_BLOCKED[0] == 'b';
    assert PENDING_INTAKE[0] == 'l' && OUTPUT_NOT_PROMOTABLE[0] == 'n';
  }

  lemma BlockerCodesDiffer()
    ensures DEVICE_UNAVAILABLE != NOT_LIVE_DEVICE_SOURCE && DEVICE_UNAVAILABLE != CONTROLLED_OUTPUT
    ensures DEVICE_UNAVAILABLE != READINESS_NOT_MATCHED && DEVICE_UNAVAILABLE != REQUIRED_STEP_MISSING
    ensures NOT_LIVE_DEVICE_SOURCE != CONTROLLED_OUTPUT && NOT_LIVE_DEVICE_SOURCE != READINESS_NOT_MATCHED
    ensures NOT_LIVE_DEVICE_SOURCE != REQUIRED_STEP_MISSING && CONTROLLED_OUTPUT != READINESS_NOT_MATCHED
    ensures CONTROLLED_OUTPUT != REQUIRED_STEP_MISSING && READINESS_NOT_MATCHED != REQUIRED_STEP_MISSING
  {
    assert DEVICE_UNAVAILABLE[0] == 'D' && NOT_LIVE_DEVICE_SOURCE[0] == 'N' && CONTROLLED_OUTPUT[0] == 'C';
    assert READINESS_NOT_MATCHED[0] == 'R' && REQUIRED_STEP_MISSING[0] == 'R';
    assert READINESS_NOT_MATCHED[2] == 'A' && REQUIRED_STEP_MISSING[2] == 'Q';
  }
}
