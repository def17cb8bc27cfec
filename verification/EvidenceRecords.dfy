/** The evidence record, as far as hardening, promotion, learning and context packing read it. */
module EvidenceRecords {
  import opened Common

  datatype FileRole = PromptFile | ContextFile | ToolCall | CommandOutput | Diff | TestResult | ArtifactFile

  datatype CapturedFile = CapturedFile(role: FileRole, path: string, content: string)

  datatype Verdict = Pass | Fail

  datatype ObservationKind = GoalSeen | InputSeen | CommandSeen | ArtifactSeen | ValidationSeen | OtherSeen

  datatype Observation = Observation(
    kind: ObservationKind, summary: string, path: Option<string>, command: Option<string>, exitCode: Option<int>)

  /** `metadata` keeps the boolean entries of the snapshot's metadata. */
  datatype Snapshot = Snapshot(path: string, kind: string, entries: seq<string>, metadata: map<string, bool>)

  datatype CheckResult = CheckResult(name: string, status: Verdict, message: string, artifactPath: Option<string>)

  datatype ArtifactContract = ArtifactContract(path: string, kind: string, checks: seq<string>)

  datatype TaskContract = TaskContract(
    goal: string, requiredInputs: seq<string>, expectedArtifacts: seq<string>, checks: seq<string>)

  datatype Section = RequiredInputs | ArtifactContracts | ValidationResults | PassingValidation

  /** The score is in hundredths. */
  datatype RecordQuality = RecordQuality(score: int, missing: seq<Section>, strictReady: bool)

  datatype Harness = Harness(
    status: Verdict, checks: seq<string>, failures: seq<string>, requiredChecks: seq<string>, humanReview: bool)

  datatype Outcome = Success | Failure | Undecided

  datatype Execution = Execution(command: string, exitCode: int, stderr: string)

  datatype Runtime = Runtime(name: string, model: Option<string>)

  datatype Evidence = Evidence(
    id: string,
    goal: string,
    normalizedGoal: Option<string>,
    runtime: Runtime,
    inputContext: seq<string>,
    files: seq<CapturedFile>,
    executions: seq<Execution>,
    finalArtifacts: seq<string>,
    retries: nat,
    interventions: seq<string>,
    outcome: Outcome,
    successLabel: Outcome,
    harness: Harness,
    observations: seq<Observation>,
    snapshots: seq<Snapshot>,
    contracts: seq<ArtifactContract>,
    validations: seq<CheckResult>,
    taskContract: Option<TaskContract>,
    quality: Option<RecordQuality>)
}
