/**
 Target validation: hard blockers and eval checks are computed side by side,
 and only together decide the status; readiness, risk and confidence are
 advisory.  Running a command, probing a file and assessing a command's risk
 are inputs.
 */
module Validation {
  import opened Common
  import opened EvidenceRecords
  import opened Readiness

  datatype CheckName =
    | ToolCompatibility
    | ContextRemap
    | ReadinessCheck
    | TargetRun
    | ArtifactExists(path: string)
    | ContractValidator

  datatype EvalCheck = EvalCheck(name: CheckName, status: Verdict)

  datatype Blocker =
    | UnavailableTool(tool: string)
    | UnresolvedContextRemap
    | TargetRunFailed
    | MissingArtifact(path: string)
    | ContractValidatorMissing
    | ContractValidatorFailed

  datatype Request = Request(
    requiredTools: seq<string>,
    availableTools: seq<string>,
    contextRemapped: bool,
    requestedArtifacts: seq<string>,
    taskArtifacts: seq<string>,
    contractArtifacts: seq<string>,
    command: Option<string>,
    approveRisk: bool,
    runContractValidator: bool)

  datatype CommandError = CommandExecutionError(reason: string)

  /** What the target answers: the risk of a command, a run's exit code or error, files, the validator. */
  datatype World = World(
    needsApproval: string -> bool,
    run: Result<int, CommandError>,
    fileExists: string -> bool,
    validatorExists: bool,
    validatorRun: Result<int, CommandError>)

  datatype RunPlan = RunPlan(executed: bool, exitCode: Option<int>)
  {
    predicate Passed() { executed && exitCode == Some(0) }
  }

  datatype Status = NeedsValidation | NeedsAdaptation | Validated

  datatype Report = Report(
    score: int,
    warnings: seq<Factor>,
    risk: RiskLevel,
    confidence: nat,
    blockers: seq<Blocker>,
    checks: seq<EvalCheck>,
    evalStatus: Verdict,
    plan: RunPlan,
    status: Status)

  // ---- The stages ----------------------------------------------------------

  /** `_unavailable_tools`: an empty tool list means that nothing is known. */
  function UnavailableTools(req: Request): seq<string> {
    if req.availableTools == [] then [] else Filter(req.requiredTools, (t: string) => t !in req.availableTools)
  }

  predicate RemapNeeded(req: Request, p: Portability) { ContextRemapRequired(p) && !req.contextRemapped }

  /** `_expected_artifacts`. */
  function ExpectedArtifacts(req: Request): seq<string> {
    if req.requestedArtifacts != [] then req.requestedArtifacts
    else if req.taskArtifacts != [] then req.taskArtifacts
    else req.contractArtifacts
  }

  function Tested(name: CheckName, ok: bool): EvalCheck { EvalCheck(name, if ok then Pass else Fail) }

  function StaticBlockers(unavailable: seq<string>, remapNeeded: bool): seq<Blocker> {
    Map(unavailable, (t: string) => UnavailableTool(t)) + if remapNeeded then [UnresolvedContextRemap] else []
  }

  /** `_static_hard_blockers`: one blocker per tool, in the order of the tools, and the remap last. */
  method StaticHardBlockers(unavailable: seq<string>, remapNeeded: bool) returns (blockers: seq<Blocker>)
    ensures |blockers| == |unavailable| + if remapNeeded then 1 else 0
    ensures forall i :: 0 <= i < |unavailable| ==> blockers[i] == UnavailableTool(unavailable[i])
    ensures remapNeeded ==> blockers[|unavailable|] == UnresolvedContextRemap
  {
    blockers := Map(unavailable, (t: string) => UnavailableTool(t));
    if remapNeeded {
      blockers := blockers + [UnresolvedContextRemap];
    }
  }

  /** These three facts fix the blockers. */
  lemma {:induction false} SameBlockers(blockers: seq<Blocker>, unavailable: seq<string>, remapNeeded: bool)
    requires |blockers| == |unavailable| + if remapNeeded then 1 else 0
    requires forall i :: 0 <= i < |unavailable| ==> blockers[i] == UnavailableTool(unavailable[i])
    requires remapNeeded ==> blockers[|unavailable|] == UnresolvedContextRemap
    ensures blockers == StaticBlockers(unavailable, remapNeeded)
  {
  }

  predicate Executes(req: Request, world: World) {
    req.command.Some? && (req.approveRisk || !world.needsApproval(req.command.value))
  }

  function RunChecks(req: Request, world: World): seq<EvalCheck> {
    if Executes(req, world) then [Tested(TargetRun, world.run == Ok(0))] else []
  }

  function RunBlockers(req: Request, world: World): seq<Blocker> {
    if Executes(req, world) && world.run != Ok(0) then [TargetRunFailed] else []
  }

  /** `_run_target_hook`. */
  method RunTargetHook(req: Request, world: World)
    returns (r: Result<(RunPlan, Option<EvalCheck>, seq<Blocker>), CommandError>)
    ensures r.Err? <==>
              && req.command.Some? && (req.approveRisk || !world.needsApproval(req.command.value))
              && world.run.Err?
    ensures r.Ok? ==>
              var runs := req.command.Some? && (req.approveRisk || !world.needsApproval(req.command.value));
              && r.value.0 == RunPlan(runs, if runs then Some(world.run.value) else None)
              && r.value.1 ==
                   (if runs then Some(EvalCheck(TargetRun, if world.run.value == 0 then Pass else Fail)) else None)
              && r.value.2 == (if runs && world.run.value != 0 then [TargetRunFailed] else [])
    ensures r.Ok? ==>
              && Opt(r.value.1) == RunChecks(req, world)
              && r.value.2 == RunBlockers(req, world)
  {
    if req.command.None? {
      return Ok((RunPlan(false, None), None, []));
    }
    if world.needsApproval(req.command.value) && !req.approveRisk {
      return Ok((RunPlan(false, None), None, []));
    }
    if world.run.Err? {
      return Err(world.run.error);
    }
    var code := world.run.value;
    var blockers := if code != 0 then [TargetRunFailed] else [];
    r := Ok((RunPlan(true, Some(code)), Some(Tested(TargetRun, code == 0)), blockers));
  }

  function ArtifactCheckList(expected: seq<string>, fileExists: string -> bool, enabled: bool): seq<EvalCheck> {
    if enabled then Map(expected, (a: string) => Tested(ArtifactExists(a), fileExists(a))) else []
  }

  function MissingArtifacts(expected: seq<string>, fileExists: string -> bool, enabled: bool): seq<Blocker> {
    if enabled then Map(Filter(expected, (a: string) => !fileExists(a)), (a: string) => MissingArtifact(a)) else []
  }

  /** The loop of `_artifact_checks`: a check for every artifact, a blocker for every missing one. */
  method ArtifactChecks(expected: seq<string>, fileExists: string -> bool, enabled: bool)
    returns (checks: seq<EvalCheck>, blockers: seq<Blocker>)
    ensures checks == ArtifactCheckList(expected, fileExists, enabled)
    ensures blockers == MissingArtifacts(expected, fileExists, enabled)
  {
    checks, blockers := [], [];
    if !enabled || expected == [] {
      return;
    }
    for i := 0 to |expected|
      invariant checks == ArtifactCheckList(expected[..i], fileExists, true)
      invariant blockers == MissingArtifacts(expected[..i], fileExists, true)
    {
      var found := fileExists(expected[i]);
      ArtifactStep(expected[..i], expected[i], fileExists);
      assert expected[..i + 1] == expected[..i] + [expected[i]];
      checks := checks + [Tested(ArtifactExists(expected[i]), found)];
      if !found {
        blockers := blockers + [MissingArtifact(expected[i])];
      }
    }
    assert expected[..|expected|] == expected;
  }

  lemma {:induction false} ArtifactStep(front: seq<string>, a: string, fileExists: string -> bool)
    ensures ArtifactCheckList(front + [a], fileExists, true) ==
            ArtifactCheckList(front, fileExists, true) + [Tested(ArtifactExists(a), fileExists(a))]
    ensures MissingArtifacts(front + [a], fileExists, true) ==
            MissingArtifacts(front, fileExists, true) + if fileExists(a) then [] else [MissingArtifact(a)]
  {
    FilterSnoc(front, a, (x: string) => !fileExists(x));
  }

  lemma {:induction false} FilterSnoc<T(!new)>(xs: seq<T>, x: T, p: T -> bool)
    ensures Filter(xs + [x], p) == Filter(xs, p) + if p(x) then [x] else []
  {
    if |xs| == 0 {
      assert xs + [x] == [x];
    } else {
      assert (xs + [x])[1..] == xs[1..] + [x];
      FilterSnoc(xs[1..], x, p);
    }
  }

  function ValidatorChecks(world: World, enabled: bool): seq<EvalCheck> {
    if enabled then [Tested(ContractValidator, world.validatorExists && world.validatorRun == Ok(0))] else []
  }

  function ValidatorBlockers(world: World, enabled: bool): seq<Blocker> {
    if !enabled then []
    else if !world.validatorExists then [ContractValidatorMissing]
    else if world.validatorRun == Ok(0) then []
    else [ContractValidatorFailed]
  }

  /** `_contract_validator_check`. */
  method ContractValidatorCheck(world: World, enabled: bool)
    returns (r: Result<(Option<EvalCheck>, seq<Blocker>), CommandError>)
    ensures r.Err? <==> enabled && world.validatorExists && world.validatorRun.Err?
    ensures r.Ok? ==>
              Opt(r.value.0) == ValidatorChecks(world, enabled) && r.value.1 == ValidatorBlockers(world, enabled)
  {
    if !enabled {
      return Ok((None, []));
    }
    if !world.validatorExists {
      return Ok((Some(EvalCheck(ContractValidator, Fail)), [ContractValidatorMissing]));
    }
    if world.validatorRun.Err? {
      return Err(world.validatorRun.error);
    }
    var check := Tested(ContractValidator, world.validatorRun.value == 0);
    r := Ok((Some(check), if world.validatorRun.value == 0 then [] else [ContractValidatorFailed]));
  }

  function Opt<T>(o: Option<T>): seq<T> {
    if o.Some? then [o.value] else []
  }

  /** The checks of `write_target_eval`: tool compatibility fails only when it is partial. */
  function TargetChecks(unavailable: seq<string>, remapNeeded: bool, extra: seq<EvalCheck>): seq<EvalCheck> {
    [Tested(ToolCompatibility, unavailable == []), Tested(ContextRemap, !remapNeeded), EvalCheck(ReadinessCheck, Pass)]
    + extra
  }

  predicate AnyFails(checks: seq<EvalCheck>) {
    exists c :: c in checks && c.status == Fail
  }

  /** `validated_status`. */
  function ValidatedStatus(blockers: seq<Blocker>, evalStatus: Verdict, executed: bool): Status {
    if blockers != [] || evalStatus == Fail then NeedsAdaptation
    else if executed then Validated
    else NeedsValidation
  }

  function Min(a: nat, b: nat): nat { if a < b then a else b }

  function Confidence(
    runPassed: bool, expected: seq<string>, artifactChecks: seq<EvalCheck>, validatorPassed: bool): nat {
    (if runPassed then 45 else 0)
    + (if expected != [] && artifactChecks != [] && !AnyFails(artifactChecks) then 30 else 0)
    + (if validatorPassed then 25 else 0)
  }

  /** `validation_confidence`, in hundredths; the clamp at 100 never fires. */
  method ValidationConfidence(
    runPassed: bool, expected: seq<string>, artifactChecks: seq<EvalCheck>, validatorPassed: bool)
    returns (score: nat)
    ensures score == Confidence(runPassed, expected, artifactChecks, validatorPassed)
  {
    score := 0;
    if runPassed {
      score := score + 45;
    }
    if expected != [] {
      if artifactChecks != [] && !AnyFails(artifactChecks) {
        score := score + 30;
      }
    }
    if validatorPassed {
      score := score + 25;
    }
    score := Min(100, score);
  }

  datatype ConfidenceLevel = HighConfidence | MediumConfidence | LowConfidence

  function ConfidenceLevelOf(score: nat): ConfidenceLevel {
    if score >= 80 then HighConfidence else if score >= 50 then MediumConfidence else LowConfidence
  }

  // ---- What the outcome must be --------------------------------------------

  /** The check that a blocker answers to. */
  function CheckOf(b: Blocker): CheckName {
    match b
    case UnavailableTool(_) => ToolCompatibility
    case UnresolvedContextRemap => ContextRemap
    case TargetRunFailed => TargetRun
    case MissingArtifact(path) => ArtifactExists(path)
    case ContractValidatorMissing => ContractValidator
    case ContractValidatorFailed => ContractValidator
  }

  /** The two verdicts name the same failures: a check fails exactly when some blocker answers to it. */
  ghost predicate Agree(blockers: seq<Blocker>, checks: seq<EvalCheck>) {
    forall n :: (exists b :: b in blockers && CheckOf(b) == n) <==> EvalCheck(n, Fail) in checks
  }

  /** Nothing stands in the way before the target has run. */
  predicate StaticallyClear(req: Request, p: Portability) {
    && (req.availableTools != [] ==> forall t :: t in req.requiredTools ==> t in req.availableTools)
    && (ContextRemapRequired(p) ==> req.contextRemapped)
  }

  /** The target run and everything checked after it succeeded. */
  predicate RunClear(req: Request, world: World) {
    && world.run == Ok(0)
    && (forall a :: a in ExpectedArtifacts(req) ==> world.fileExists(a))
    && (req.runContractValidator ==> world.validatorExists && world.validatorRun == Ok(0))
  }

  /** A command that cannot be carried out stops the validation. */
  predicate Raises(req: Request, world: World) {
    && Executes(req, world)
    && (world.run.Err? || (req.runContractValidator && world.validatorExists && world.validatorRun.Err?))
  }

  /** The status in terms of the request and the target alone. */
  function ExpectedStatus(req: Request, p: Portability, world: World): Status {
    if !StaticallyClear(req, p) then NeedsAdaptation
    else if !Executes(req, world) then NeedsValidation
    else if RunClear(req, world) then Validated
    else NeedsAdaptation
  }

  lemma {:induction false} AgreeConcat(b1: seq<Blocker>, c1: seq<EvalCheck>, b2: seq<Blocker>, c2: seq<EvalCheck>)
    requires Agree(b1, c1) && Agree(b2, c2)
    ensures Agree(b1 + b2, c1 + c2)
  {
    forall n
      ensures (exists b :: b in b1 + b2 && CheckOf(b) == n) <==> EvalCheck(n, Fail) in c1 + c2
    {
      assert (exists b :: b in b1 + b2 && CheckOf(b) == n) <==>
        (exists b :: b in b1 && CheckOf(b) == n) || (exists b :: b in b2 && CheckOf(b) == n);
    }
  }

  /** Agreeing verdicts are empty together. */
  lemma {:induction false} AgreeTogether(blockers: seq<Blocker>, checks: seq<EvalCheck>)
    requires Agree(blockers, checks)
    ensures blockers != [] <==> AnyFails(checks)
  {
    if blockers != [] {
      assert blockers[0] in blockers;
      assert EvalCheck(CheckOf(blockers[0]), Fail) in checks;
    }
    if c :| c in checks && c.status == Fail {
      assert c == EvalCheck(c.name, Fail);
      var b :| b in blockers && CheckOf(b) == c.name;
    }
  }

  /** What is known before the run is reported alike by blockers and checks. */
  lemma {:induction false} StaticAgrees(unavailable: seq<string>, remapNeeded: bool)
    ensures Agree(StaticBlockers(unavailable, remapNeeded), TargetChecks(unavailable, remapNeeded, []))
  {
    var tools := Map(unavailable, (t: string) => UnavailableTool(t));
    if unavailable != [] {
      assert tools[0] in tools;
    }
    assert Agree(tools, [Tested(ToolCompatibility, unavailable == [])]);
    var remap := if remapNeeded then [UnresolvedContextRemap] else [];
    SingleAgrees(remap, ContextRemap, !remapNeeded);
    AgreeConcat(tools, [Tested(ToolCompatibility, unavailable == [])], remap, [Tested(ContextRemap, !remapNeeded)]);
    assert Agree([], [EvalCheck(ReadinessCheck, Pass)]);
    AgreeConcat(
      tools + remap, [Tested(ToolCompatibility, unavailable == [])] + [Tested(ContextRemap, !remapNeeded)],
      [], [EvalCheck(ReadinessCheck, Pass)]);
    assert StaticBlockers(unavailable, remapNeeded) == tools + remap + [];
    assert TargetChecks(unavailable, remapNeeded, [])
        == [Tested(ToolCompatibility, unavailable == [])] + [Tested(ContextRemap, !remapNeeded)]
           + [EvalCheck(ReadinessCheck, Pass)];
  }

  lemma {:induction false} ArtifactsAgree(expected: seq<string>, fileExists: string -> bool)
    ensures Agree(
              Map(Filter(expected, (a: string) => !fileExists(a)), (a: string) => MissingArtifact(a)),
              Map(expected, (a: string) => Tested(ArtifactExists(a), fileExists(a))))
  {
    var missing := Filter(expected, (a: string) => !fileExists(a));
    var blockers := Map(missing, (a: string) => MissingArtifact(a));
    var checks := Map(expected, (a: string) => Tested(ArtifactExists(a), fileExists(a)));
    forall n
      ensures (exists b :: b in blockers && CheckOf(b) == n) <==> EvalCheck(n, Fail) in checks
    {
      if b :| b in blockers && CheckOf(b) == n {
        var i :| 0 <= i < |missing| && blockers[i] == b;
        assert missing[i] in missing;
        var j :| 0 <= j < |expected| && expected[j] == missing[i];
        assert checks[j] == EvalCheck(n, Fail);
      }
      if EvalCheck(n, Fail) in checks {
        var j :| 0 <= j < |checks| && checks[j] == EvalCheck(n, Fail);
        assert expected[j] in missing;
        var i :| 0 <= i < |missing| && missing[i] == expected[j];
        assert blockers[i] in blockers && CheckOf(blockers[i]) == n;
      }
    }
  }

  function RuntimeChecks(req: Request, world: World): seq<EvalCheck> {
    RunChecks(req, world)
    + ArtifactCheckList(ExpectedArtifacts(req), world.fileExists, Executes(req, world))
    + ValidatorChecks(world, req.runContractValidator && Executes(req, world))
  }

  function RuntimeBlockers(req: Request, world: World): seq<Blocker> {
    RunBlockers(req, world)
    + MissingArtifacts(ExpectedArtifacts(req), world.fileExists, Executes(req, world))
    + ValidatorBlockers(world, req.runContractValidator && Executes(req, world))
  }

  lemma {:induction false} SingleAgrees(blockers: seq<Blocker>, name: CheckName, ok: bool)
    requires ok ==> blockers == []
    requires !ok ==> |blockers| == 1 && CheckOf(blockers[0]) == name
    ensures Agree(blockers, [Tested(name, ok)])
  {
    if !ok {
      assert blockers == [blockers[0]];
    }
  }

  /** What is found once the target has run is reported alike by blockers and checks. */
  lemma {:induction false} RuntimeAgrees(req: Request, world: World)
    ensures Agree(RuntimeBlockers(req, world), RuntimeChecks(req, world))
  {
    var on := Executes(req, world);
    var validating := req.runContractValidator && on;
    var expected := ExpectedArtifacts(req);
    if on {
      SingleAgrees(RunBlockers(req, world), TargetRun, world.run == Ok(0));
      ArtifactsAgree(expected, world.fileExists);
    }
    if validating {
      var passed := world.validatorExists && world.validatorRun == Ok(0);
      SingleAgrees(ValidatorBlockers(world, true), ContractValidator, passed);
    }
    AgreeConcat(RunBlockers(req, world), RunChecks(req, world),
                MissingArtifacts(expected, world.fileExists, on), ArtifactCheckList(expected, world.fileExists, on));
    AgreeConcat(
      RunBlockers(req, world) + MissingArtifacts(expected, world.fileExists, on),
      RunChecks(req, world) + ArtifactCheckList(expected, world.fileExists, on),
      ValidatorBlockers(world, validating), ValidatorChecks(world, validating));
  }

  lemma {:induction false} RuntimeClear(req: Request, world: World)
    ensures RuntimeBlockers(req, world) == [] <==> (Executes(req, world) ==> RunClear(req, world))
  {
    NoneMissing(ExpectedArtifacts(req), world.fileExists);
  }

  lemma {:induction false} NoneMissing(expected: seq<string>, fileExists: string -> bool)
    ensures Filter(expected, (a: string) => !fileExists(a)) == [] <==> forall a :: a in expected ==> fileExists(a)
  {
    var missing := Filter(expected, (a: string) => !fileExists(a));
    if missing != [] {
      assert missing[0] in missing;
    }
  }

  lemma {:induction false} ToolsClear(req: Request)
    ensures UnavailableTools(req) == [] <==>
              (req.availableTools != [] ==> forall t :: t in req.requiredTools ==> t in req.availableTools)
  {
    var missing := UnavailableTools(req);
    if missing != [] {
      assert missing[0] in missing;
    }
  }

  /** Which blockers there are before the run, in terms of the request: and none exactly when it is statically clear. */
  lemma {:induction false} StaticBlockersExactly(req: Request, p: Portability, b: Blocker)
    ensures var blockers := StaticBlockers(UnavailableTools(req), RemapNeeded(req, p));
            && (b in blockers <==>
                  || (b.UnavailableTool? && b.tool in req.requiredTools
                      && req.availableTools != [] && b.tool !in req.availableTools)
                  || (b == UnresolvedContextRemap && ContextRemapRequired(p) && !req.contextRemapped))
            && (blockers == [] <==> StaticallyClear(req, p))
  {
    var tools := Map(UnavailableTools(req), (t: string) => UnavailableTool(t));
    ToolsClear(req);
    if b.UnavailableTool? && b.tool in UnavailableTools(req) {
      var i :| 0 <= i < |UnavailableTools(req)| && UnavailableTools(req)[i] == b.tool;
      assert tools[i] == b;
    }
  }

  // ---- The workflow --------------------------------------------------------

  /** The report of a validation whose commands could be carried out. */
  function Assessed(req: Request, p: Portability, world: World, fold: Fold): Report {
    var unavailable, remapNeeded := UnavailableTools(req), RemapNeeded(req, p);
    var on := Executes(req, world);
    var blockers := StaticBlockers(unavailable, remapNeeded) + RuntimeBlockers(req, world);
    var checks := TargetChecks(unavailable, remapNeeded, RuntimeChecks(req, world));
    var evalStatus := if AnyFails(checks) then Fail else Pass;
    Report(
      Score(p, fold), FactorsOf(p, fold), RiskLevelOf(Score(p, fold)),
      Confidence(
        on && world.run == Ok(0),
        ExpectedArtifacts(req),
        ArtifactCheckList(ExpectedArtifacts(req), world.fileExists, on),
        on && req.runContractValidator && world.validatorExists && world.validatorRun == Ok(0)),
      blockers, checks, evalStatus,
      RunPlan(on, if on && world.run.Ok? then Some(world.run.value) else None),
      ValidatedStatus(blockers, evalStatus, on))
  }

  /** The stages of `validate_capability_package` up to the written files. */
  method Assess(req: Request, p: Portability, world: World, fold: Fold) returns (r: Result<Report, CommandError>)
    ensures r.Err? <==> Raises(req, world)
    ensures r.Ok? ==> r.value == Assessed(req, p, world, fold)
  {
    var unavailable := UnavailableTools(req);
    var remapNeeded := RemapNeeded(req, p);
    var readiness := PortabilityReadiness(p, fold);
    var blockers := StaticHardBlockers(unavailable, remapNeeded);
    SameBlockers(blockers, unavailable, remapNeeded);
    var expected := ExpectedArtifacts(req);
    var run := RunTargetHook(req, world);
    if run.Err? {
      return Err(run.error);
    }
    var (plan, runCheck, runBlockers) := run.value;
    var artifactChecks, artifactBlockers := ArtifactChecks(expected, world.fileExists, plan.executed);
    var validator := ContractValidatorCheck(world, req.runContractValidator && plan.executed);
    if validator.Err? {
      return Err(validator.error);
    }
    var (contractCheck, contractBlockers) := validator.value;
    var extra := Opt(runCheck) + artifactChecks + Opt(contractCheck);
    var hardBlockers := blockers + (runBlockers + artifactBlockers + contractBlockers);
    var confidence := ValidationConfidence(
      plan.Passed(), expected, artifactChecks, contractCheck.Some? && contractCheck.value.status == Pass);
    var checks := TargetChecks(unavailable, remapNeeded, extra);
    var evalStatus := if AnyFails(checks) then Fail else Pass;
    var status := ValidatedStatus(hardBlockers, evalStatus, plan.executed);
    r := Ok(Report(
      readiness.score, readiness.factors, RiskLevelOf(readiness.score), confidence,
      hardBlockers, checks, evalStatus, plan, status));
  }

  /** The three places a validation writes to. */
  class TargetWorkspace {
    var evals: seq<(Verdict, seq<EvalCheck>)>
    var failureEvidence: seq<seq<EvalCheck>>
    var report: Option<Report>

    constructor ()
      ensures evals == [] && failureEvidence == [] && report == None
    {
      evals, failureEvidence, report := [], [], None;
    }

    /**
     `validate_capability_package`.  The eval is always written, failure
     evidence exactly when it fails; an error in a command leaves everything as it was.
     */
    method ValidateCapabilityPackage(req: Request, p: Portability, world: World, fold: Fold)
      returns (r: Result<Status, CommandError>)
      modifies this
      ensures r.Err? <==> Raises(req, world)
      ensures r.Err? ==> unchanged(this)
      ensures r.Ok? ==> report == Some(Assessed(req, p, world, fold)) && r.value == report.value.status
      ensures r.Ok? ==> evals == old(evals) + [(report.value.evalStatus, report.value.checks)]
      ensures r.Ok? ==>
                failureEvidence ==
                old(failureEvidence) + if report.value.evalStatus == Fail then [report.value.checks] else []
    {
      var outcome := Assess(req, p, world, fold);
      if outcome.Err? {
        return Err(outcome.error);
      }
      var it := outcome.value;
      evals := evals + [(it.evalStatus, it.checks)];
      if it.evalStatus == Fail {
        failureEvidence := failureEvidence + [it.checks];
      }
      report := Some(it);
      r := Ok(it.status);
    }
  }

  // ---- What every report says ----------------------------------------------

  lemma {:induction false} Combine(
    blockers: seq<Blocker>, unavailable: seq<string>, remapNeeded: bool, more: seq<Blocker>, extra: seq<EvalCheck>)
    requires Agree(blockers, TargetChecks(unavailable, remapNeeded, [])) && Agree(more, extra)
    ensures Agree(blockers + more, TargetChecks(unavailable, remapNeeded, extra))
    ensures blockers + more != [] <==> AnyFails(TargetChecks(unavailable, remapNeeded, extra))
  {
    var front := TargetChecks(unavailable, remapNeeded, []);
    AgreeConcat(blockers, front, more, extra);
    assert front + extra == TargetChecks(unavailable, remapNeeded, extra);
    AgreeTogether(blockers + more, front + extra);
  }

  /**
   Blockers and eval checks, computed apart, never contradict each other: they
   name the same failures, and so are empty together.
   */
  lemma {:induction false} VerdictsAgree(req: Request, p: Portability, world: World, fold: Fold)
    ensures var it := Assessed(req, p, world, fold);
            && Agree(it.blockers, it.checks)
            && (it.blockers != [] <==> it.evalStatus == Fail)
  {
    StaticAgrees(UnavailableTools(req), RemapNeeded(req, p));
    RuntimeAgrees(req, world);
    Combine(StaticBlockers(UnavailableTools(req), RemapNeeded(req, p)), UnavailableTools(req), RemapNeeded(req, p),
            RuntimeBlockers(req, world), RuntimeChecks(req, world));
  }

  lemma {:induction false} BlockersClear(req: Request, p: Portability, world: World, fold: Fold)
    ensures Assessed(req, p, world, fold).blockers == [] <==>
              StaticallyClear(req, p) && (Executes(req, world) ==> RunClear(req, world))
  {
    RuntimeClear(req, world);
    ToolsClear(req);
  }

  /** The artifacts asked for in the request, else those of the task contract, else those the contracts require. */
  lemma {:induction false} ExpectedArtifactsExactly(req: Request)
    ensures req.requestedArtifacts != [] ==> ExpectedArtifacts(req) == req.requestedArtifacts
    ensures req.requestedArtifacts == [] && req.taskArtifacts != [] ==> ExpectedArtifacts(req) == req.taskArtifacts
    ensures req.requestedArtifacts == [] && req.taskArtifacts == [] ==> ExpectedArtifacts(req) == req.contractArtifacts
  {
  }

  /**
   The status in terms of the request and the target alone: what stands in the way
   before the run asks for adaptation; otherwise a target that was not run, for lack
   of a command or of an approval that it needs, asks for validation; and one that
   was run is validated exactly when it and everything checked after it succeeded.
   */
  lemma {:induction false} StatusExactly(req: Request, p: Portability, world: World, fold: Fold)
    ensures var it := Assessed(req, p, world, fold);
            var clear :=
              && (req.availableTools != [] ==> forall t :: t in req.requiredTools ==> t in req.availableTools)
              && (p.target.project.Some? && p.target.project.value != p.source.project ==> req.contextRemapped);
            var runs := req.command.Some? && (req.approveRisk || !world.needsApproval(req.command.value));
            var succeeded :=
              && world.run == Ok(0)
              && (forall a :: a in ExpectedArtifacts(req) ==> world.fileExists(a))
              && (req.runContractValidator ==> world.validatorExists && world.validatorRun == Ok(0));
            && it.plan.executed == runs
            && (it.status == Validated <==> clear && runs && succeeded)
            && (it.status == NeedsValidation <==> clear && !runs)
            && (it.status == NeedsAdaptation <==> !clear || (runs && !succeeded))
  {
    VerdictsAgree(req, p, world, fold);
    BlockersClear(req, p, world, fold);
  }

  lemma {:induction false} StatusIsExpected(req: Request, p: Portability, world: World, fold: Fold)
    ensures Assessed(req, p, world, fold).status == ExpectedStatus(req, p, world)
  {
    VerdictsAgree(req, p, world, fold);
    BlockersClear(req, p, world, fold);
  }

  /** A risky command that has not been approved never runs: it raises nothing, and never leads to validated. */
  lemma {:induction false} UnapprovedNeverRuns(req: Request, p: Portability, world: World, fold: Fold)
    requires req.command.Some? && world.needsApproval(req.command.value) && !req.approveRisk
    ensures !Raises(req, world)
    ensures var it := Assessed(req, p, world, fold);
            && it.plan == RunPlan(false, None) && it.status != Validated && it.confidence == 0
            && forall c :: c in it.checks ==> c.name in {ToolCompatibility, ContextRemap, ReadinessCheck}
  {
    StatusExactly(req, p, world, fold);
    assert RuntimeChecks(req, world) == [];
  }

  /** When a validation stops with an error: the target runs, and it or a validator that is asked for cannot be run. */
  lemma {:induction false} RaisesExactly(req: Request, world: World)
    ensures Raises(req, world) <==>
              && req.command.Some? && (req.approveRisk || !world.needsApproval(req.command.value))
              && (world.run.Err? || (req.runContractValidator && world.validatorExists && world.validatorRun.Err?))
  {
  }

  /** The confidence in hundredths: 45 for the run, 30 for artifacts that are all there, 25 for the validator. */
  lemma {:induction false} ConfidenceExactly(req: Request, p: Portability, world: World, fold: Fold)
    ensures var runs := req.command.Some? && (req.approveRisk || !world.needsApproval(req.command.value));
            var artifacts := ExpectedArtifacts(req);
            Assessed(req, p, world, fold).confidence ==
              (if runs && world.run == Ok(0) then 45 else 0)
              + (if runs && artifacts != [] && forall a :: a in artifacts ==> world.fileExists(a) then 30 else 0)
              + (if runs && req.runContractValidator && world.validatorExists && world.validatorRun == Ok(0)
                 then 25 else 0)
  {
    ArtifactsClear(ExpectedArtifacts(req), world.fileExists);
  }

  /** What each blocker of a report tells, and only that. */
  lemma {:induction false} BlockersExactly(req: Request, p: Portability, world: World, fold: Fold, b: Blocker)
    ensures var runs := req.command.Some? && (req.approveRisk || !world.needsApproval(req.command.value));
            b in Assessed(req, p, world, fold).blockers <==>
              match b
              case UnavailableTool(t) =>
                req.availableTools != [] && t in req.requiredTools && t !in req.availableTools
              case UnresolvedContextRemap =>
                p.target.project.Some? && p.target.project.value != p.source.project && !req.contextRemapped
              case TargetRunFailed => runs && world.run != Ok(0)
              case MissingArtifact(a) => runs && a in ExpectedArtifacts(req) && !world.fileExists(a)
              case ContractValidatorMissing => runs && req.runContractValidator && !world.validatorExists
              case ContractValidatorFailed =>
                runs && req.runContractValidator && world.validatorExists && world.validatorRun != Ok(0)
  {
    var missing := Filter(ExpectedArtifacts(req), (a: string) => !world.fileExists(a));
    StaticBlockersExactly(req, p, b);
    MapMember(missing, (a: string) => MissingArtifact(a), b);
    if b.MissingArtifact? {
      assert b.path in missing <==> b.path in ExpectedArtifacts(req) && !world.fileExists(b.path);
    }
  }

  /** The stages of a validation in the order in which they find blockers. */
  function StageOf(b: Blocker): nat {
    match b
    case UnavailableTool(_) => 0
    case UnresolvedContextRemap => 1
    case TargetRunFailed => 2
    case MissingArtifact(_) => 3
    case ContractValidatorMissing => 4
    case ContractValidatorFailed => 4
  }

  ghost predicate InOrder(blockers: seq<Blocker>) {
    forall i, j :: 0 <= i < j < |blockers| ==> StageOf(blockers[i]) <= StageOf(blockers[j])
  }

  lemma {:induction false} OrderedSum(xs: seq<Blocker>, ys: seq<Blocker>)
    requires InOrder(xs) && InOrder(ys)
    requires forall x, y :: x in xs && y in ys ==> StageOf(x) <= StageOf(y)
    ensures InOrder(xs + ys)
  {
  }

  ghost predicate AllAt(blockers: seq<Blocker>, stage: nat) {
    forall b :: b in blockers ==> StageOf(b) == stage
  }

  lemma {:induction false} StagesOfParts(req: Request, world: World, expected: seq<string>, enabled: bool)
    ensures AllAt(RunBlockers(req, world), 2)
    ensures AllAt(MissingArtifacts(expected, world.fileExists, enabled), 3)
    ensures AllAt(ValidatorBlockers(world, enabled), 4)
  {
  }

  lemma {:induction false} ThreeInOrder(xs: seq<Blocker>, ys: seq<Blocker>, zs: seq<Blocker>)
    requires AllAt(xs, 2) && AllAt(ys, 3) && AllAt(zs, 4)
    ensures InOrder(xs + ys + zs)
    ensures forall b :: b in xs + ys + zs ==> StageOf(b) >= 2
  {
    OrderedSum(xs, ys);
    OrderedSum(xs + ys, zs);
  }

  lemma {:induction false} StagesOfRun(req: Request, world: World)
    ensures InOrder(RuntimeBlockers(req, world))
    ensures forall b :: b in RuntimeBlockers(req, world) ==> StageOf(b) >= 2
  {
    var on := Executes(req, world);
    StagesOfParts(req, world, ExpectedArtifacts(req), on);
    StagesOfParts(req, world, [], req.runContractValidator && on);
    ThreeInOrder(RunBlockers(req, world), MissingArtifacts(ExpectedArtifacts(req), world.fileExists, on),
                 ValidatorBlockers(world, req.runContractValidator && on));
  }

  /** A report lists its blockers in that order. */
  lemma {:induction false} BlockersInOrder(req: Request, p: Portability, world: World, fold: Fold)
    ensures InOrder(Assessed(req, p, world, fold).blockers)
  {
    var before := StaticBlockers(UnavailableTools(req), RemapNeeded(req, p));
    StagesOfRun(req, world);
    assert forall b :: b in before ==> StageOf(b) <= 1;
    OrderedSum(before, RuntimeBlockers(req, world));
  }

  function CheckNameOf(c: EvalCheck): CheckName { c.name }

  lemma {:induction false} ArtifactCheckNames(expected: seq<string>, fileExists: string -> bool, enabled: bool)
    ensures Map(ArtifactCheckList(expected, fileExists, enabled), CheckNameOf) ==
            if enabled then Map(expected, (a: string) => ArtifactExists(a)) else []
  {
  }

  lemma {:induction false} RuntimeCheckNames(req: Request, world: World)
    ensures var runs := req.command.Some? && (req.approveRisk || !world.needsApproval(req.command.value));
            Map(RuntimeChecks(req, world), CheckNameOf) ==
              (if runs then [TargetRun] else [])
              + (if runs then Map(ExpectedArtifacts(req), (a: string) => ArtifactExists(a)) else [])
              + (if req.runContractValidator && runs then [ContractValidator] else [])
  {
    var runs := Executes(req, world);
    var run, validator := RunChecks(req, world), ValidatorChecks(world, req.runContractValidator && runs);
    var artifacts := ArtifactCheckList(ExpectedArtifacts(req), world.fileExists, runs);
    ArtifactCheckNames(ExpectedArtifacts(req), world.fileExists, runs);
    MapConcat(run + artifacts, validator, CheckNameOf);
    MapConcat(run, artifacts, CheckNameOf);
    assert Map(run, CheckNameOf) == if runs then [TargetRun] else [];
    assert Map(validator, CheckNameOf) == if req.runContractValidator && runs then [ContractValidator] else [];
  }

  lemma {:induction false} TargetCheckNames(unavailable: seq<string>, remapNeeded: bool, extra: seq<EvalCheck>)
    ensures Map(TargetChecks(unavailable, remapNeeded, extra), CheckNameOf) ==
            [ToolCompatibility, ContextRemap, ReadinessCheck] + Map(extra, CheckNameOf)
  {
    var first := TargetChecks(unavailable, remapNeeded, []);
    assert TargetChecks(unavailable, remapNeeded, extra) == first + extra;
    MapConcat(first, extra, CheckNameOf);
    assert Map(first, CheckNameOf) == [ToolCompatibility, ContextRemap, ReadinessCheck];
  }

  /** The checks of a report in order, whether they pass or not: three, and those of what was run. */
  lemma {:induction false} ChecksExactly(req: Request, p: Portability, world: World, fold: Fold)
    ensures var runs := req.command.Some? && (req.approveRisk || !world.needsApproval(req.command.value));
            Map(Assessed(req, p, world, fold).checks, CheckNameOf) ==
              [ToolCompatibility, ContextRemap, ReadinessCheck]
              + ((if runs then [TargetRun] else [])
                 + (if runs then Map(ExpectedArtifacts(req), (a: string) => ArtifactExists(a)) else [])
                 + (if req.runContractValidator && runs then [ContractValidator] else []))
  {
    RuntimeCheckNames(req, world);
    TargetCheckNames(UnavailableTools(req), RemapNeeded(req, p), RuntimeChecks(req, world));
  }

  /**
   Two validations that differ only in runtimes, models and compression differ
   in nothing but the advisory score, warnings and risk.
   */
  lemma {:induction false} AdvisoryDoesNotInterfere(
    req: Request, p: Portability, q: Portability, world: World, fold: Fold)
    requires p.source.project == q.source.project && p.target.project == q.target.project
    ensures var a, b := Assessed(req, p, world, fold), Assessed(req, q, world, fold);
            b == a.(score := b.score, warnings := b.warnings, risk := b.risk)
  {
    assert RemapNeeded(req, p) == RemapNeeded(req, q);
  }

  /** The confidence of a validated target tells how much was asked for, not how sure the status is. */
  lemma {:induction false} ConfidenceOfValidated(req: Request, p: Portability, world: World, fold: Fold)
    requires Assessed(req, p, world, fold).status == Validated
    ensures var confidence := Assessed(req, p, world, fold).confidence;
            && (confidence >= 80 <==> ExpectedArtifacts(req) != [] && req.runContractValidator)
            && (confidence < 50 <==> ExpectedArtifacts(req) == [] && !req.runContractValidator)
            && (ConfidenceLevelOf(confidence) == HighConfidence <==> confidence >= 80)
            && (ConfidenceLevelOf(confidence) == LowConfidence <==> confidence < 50)
  {
    StatusIsExpected(req, p, world, fold);
    ArtifactsClear(ExpectedArtifacts(req), world.fileExists);
  }

  lemma {:induction false} ArtifactsClear(expected: seq<string>, fileExists: string -> bool)
    ensures AnyFails(ArtifactCheckList(expected, fileExists, true)) <==> exists a :: a in expected && !fileExists(a)
  {
    ArtifactsAgree(expected, fileExists);
    AgreeTogether(MissingArtifacts(expected, fileExists, true), ArtifactCheckList(expected, fileExists, true));
    NoneMissing(expected, fileExists);
  }

  /** High confidence takes a passing run, artifacts that are all there and a passing validator. */
  lemma {:induction false} HighConfidenceExactly(req: Request, p: Portability, world: World, fold: Fold)
    ensures Assessed(req, p, world, fold).confidence >= 80 <==>
              && req.command.Some? && (req.approveRisk || !world.needsApproval(req.command.value))
              && RunClear(req, world)
              && ExpectedArtifacts(req) != []
              && req.runContractValidator
  {
    ArtifactsClear(ExpectedArtifacts(req), world.fileExists);
  }
}
