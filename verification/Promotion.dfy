/**
 `promote`: the strict quality gate, the promotion metrics and the status of the
 capability.  Rates are compared by cross-multiplication: a required rate of
 9/10 is reached by p of n when 10*p >= 9*n.
 */
module Promotion {
  import opened Common
  import opened EvidenceRecords
  import opened OrderedMerge
  import Capture
  import Hardening

  const MIN_SUCCESS_RUNS := 3
  const MAX_INTERVENTION_TENTHS := 3
  const REQUIRED_PASS_TENTHS := 9

  predicate RateAtLeast(part: nat, whole: nat, tenths: nat) { 10 * part >= tenths * whole }

  predicate RateAtMost(part: nat, whole: nat, tenths: nat) { 10 * part <= tenths * whole }

  // ---- The strict gate -----------------------------------------------------

  datatype Issue =
    | MissingQuality
    | NotStrictReady(missing: seq<Section>)
    | MissingTaskContract
    | MissingContracts
    | MissingValidations
    | FailingValidations(names: seq<string>)
    | HarnessNotPassing

  /** A record the strict gate lets through. */
  predicate Promotable(e: Evidence) {
    && e.quality.Some? && e.quality.value.strictReady
    && e.taskContract.Some?
    && e.contracts != []
    && e.validations != []
    && (forall c :: c in e.validations ==> c.status == Pass)
    && e.harness.status == Pass
  }

  /** The issues the gate reports for a record, case by case. */
  predicate Raised(e: Evidence, issue: Issue) {
    match issue
    case MissingQuality => e.quality.None?
    case NotStrictReady(missing) =>
      e.quality.Some? && !e.quality.value.strictReady && missing == e.quality.value.missing
    case MissingTaskContract => e.taskContract.None?
    case MissingContracts => e.contracts == []
    case MissingValidations => e.validations == []
    case FailingValidations(names) =>
      names != [] && names == Map(Filter(e.validations, Hardening.Failing), Hardening.NameOf)
    case HarnessNotPassing => e.harness.status != Pass
  }

  /** `_quality_gate_issues`. */
  method QualityGateIssues(e: Evidence) returns (issues: seq<Issue>)
    ensures forall i :: i in issues <==> Raised(e, i)
    ensures issues == [] <==> Promotable(e)
  {
    issues := [];
    if e.quality.None? {
      issues := [MissingQuality];
    } else if !e.quality.value.strictReady {
      issues := [NotStrictReady(e.quality.value.missing)];
    }
    issues := ReportIf(e.taskContract.None?, MissingTaskContract, issues);
    issues := ReportIf(e.contracts == [], MissingContracts, issues);
    issues := ReportIf(e.validations == [], MissingValidations, issues);
    var failed := Map(Filter(e.validations, Hardening.Failing), Hardening.NameOf);
    NoneFailing(e.validations);
    issues := ReportIf(failed != [], FailingValidations(failed), issues);
    issues := ReportIf(e.harness.status != Pass, HarnessNotPassing, issues);
  }

  method ReportIf(found: bool, issue: Issue, issues: seq<Issue>) returns (r: seq<Issue>)
    ensures forall i :: i in r <==> i in issues || (found && i == issue)
    ensures r == [] <==> issues == [] && !found
  {
    r := issues;
    if found {
      r := r + [issue];
    }
  }

  lemma {:induction false} NoneFailing(results: seq<CheckResult>)
    ensures Filter(results, Hardening.Failing) == [] <==> forall c :: c in results ==> c.status == Pass
  {
    var failing := Filter(results, Hardening.Failing);
    if failing != [] {
      assert failing[0] in failing;
    }
  }

  /** What raises each issue: a failing validation is reported by the names of all that fail. */
  lemma {:induction false} RaisedExactly(e: Evidence, names: seq<string>, missing: seq<Section>, n: string)
    ensures Raised(e, MissingQuality) <==> e.quality.None?
    ensures Raised(e, NotStrictReady(missing)) <==>
              e.quality.Some? && !e.quality.value.strictReady && e.quality.value.missing == missing
    ensures Raised(e, MissingTaskContract) <==> e.taskContract.None?
    ensures Raised(e, MissingContracts) <==> |e.contracts| == 0
    ensures Raised(e, MissingValidations) <==> |e.validations| == 0
    ensures Raised(e, FailingValidations(names)) ==>
              (n in names <==> exists c :: c in e.validations && c.status == Fail && c.name == n)
    ensures (exists m :: Raised(e, FailingValidations(m))) <==> exists c :: c in e.validations && c.status == Fail
    ensures Raised(e, HarnessNotPassing) <==> e.harness.status == Fail
  {
    var failing := Filter(e.validations, Hardening.Failing);
    MapMember(failing, Hardening.NameOf, n);
    NoneFailing(e.validations);
    if failing != [] {
      assert Raised(e, FailingValidations(Map(failing, Hardening.NameOf)));
    }
  }

  /** `_enforce_quality_gate`: raises, with every issue, unless all records are promotable. */
  method EnforceQualityGate(records: seq<Evidence>) returns (r: Result<(), seq<(string, Issue)>>)
    ensures r.Ok? <==> forall e :: e in records ==> Promotable(e)
    ensures r.Err? ==> forall id, issue ::
              (id, issue) in r.error <==> exists e :: e in records && e.id == id && Raised(e, issue)
  {
    var issues: seq<(string, Issue)> := [];
    for i := 0 to |records|
      invariant issues == [] <==> forall j :: 0 <= j < i ==> Promotable(records[j])
      invariant forall id, issue ::
                  (id, issue) in issues <==> exists e :: e in records[..i] && e.id == id && Raised(e, issue)
    {
      assert records[..i + 1] == records[..i] + [records[i]];
      var found := QualityGateIssues(records[i]);
      var tagged := Map(found, issue => (records[i].id, issue));
      forall id, issue
        ensures (id, issue) in tagged <==> id == records[i].id && issue in found
      {
        if issue in found && id == records[i].id {
          var k :| 0 <= k < |found| && found[k] == issue;
          assert tagged[k] == (id, issue);
        }
      }
      issues := issues + tagged;
    }
    assert records[..|records|] == records;
    r := if issues == [] then Ok(()) else Err(issues);
  }

  /** A strict-ready quality already implies the gate's tests of contracts and validations. */
  lemma {:induction false} StrictReadyImplies(
    t: TaskContract, contracts: seq<ArtifactContract>, results: seq<CheckResult>)
    requires Hardening.Quality(t, contracts, results).strictReady
    ensures contracts != [] && results != [] && forall c :: c in results ==> c.status == Pass
  {
    Hardening.MissingEmpty(t, contracts, results);
    assert !Hardening.Lacks(t, contracts, results, ArtifactContracts);
    assert !Hardening.Lacks(t, contracts, results, ValidationResults);
    assert !Hardening.Lacks(t, contracts, results, PassingValidation);
  }

  /** The schema check that capture adds to the harness makes no difference to the gate. */
  lemma {:induction false} SchemaCheckKeepsGate(e: Evidence)
    ensures Promotable(Capture.SchemaChecked(e)) <==> Promotable(e)
  {
  }

  /** On hardened evidence, stored as it is or by capture, the seven tests of the gate come down to two. */
  lemma {:induction false} HardenedPromotableExactly(e: Evidence, snap: Hardening.Snapshots)
    ensures var h := Hardening.Harden(e, snap);
            && (Promotable(h) <==> h.quality.value.strictReady && h.harness.status == Pass)
            && (Promotable(Capture.SchemaChecked(h)) <==> Promotable(h))
  {
    var h := Hardening.Harden(e, snap);
    SchemaCheckKeepsGate(h);
    if h.quality.value.strictReady {
      StrictReadyImplies(h.taskContract.value, h.contracts, h.validations);
    }
  }

  /** What evidence must bring to pass the gate once hardened, stated before hardening. */
  lemma {:induction false} PromotableBeforeHardening(e: Evidence, snap: Hardening.Snapshots)
    ensures Promotable(Hardening.Harden(e, snap)) <==>
              && Hardening.RequiredInputsOf(e) != []
              && Hardening.ArtifactPaths(e) != []
              && Hardening.EveryCheckPasses(e.validations + Hardening.ValidateAll(Hardening.SnapshotsOf(e, snap)))
              && e.harness.status == Pass
              && e.harness.failures == []
  {
    var h := Hardening.Harden(e, snap);
    HardenedPromotableExactly(e, snap);
    Hardening.StrictReadyExactly(e, snap);
    Hardening.MergedPasses(e.validations + Hardening.ValidateAll(Hardening.SnapshotsOf(e, snap)));
    NoneFailing(h.validations);
    HarnessPassesExactly(e.harness, h.validations);
  }

  /**
   From the capture request to the gate: the stored record can be promoted exactly
   when a context or prompt file was given, an artifact was named, every command
   exited with 0, and every check of the artifacts passes.
   */
  lemma {:induction false} CapturedPromotableExactly(
    req: Capture.Request, id: string, files: seq<CapturedFile>, executions: seq<Execution>, texts: Capture.Texts,
    snap: Hardening.Snapshots)
    ensures var built := Capture.Built(req, id, files, executions, texts);
            Promotable(Capture.Captured(req, id, files, executions, texts, snap)) <==>
              && (exists f :: f in files && f.role in {PromptFile, ContextFile} && f.path != "")
              && (|| (exists p :: p in req.finalArtifacts && p != "")
                  || (exists f :: f in files && f.role == ArtifactFile && f.path != ""))
              && (forall x :: x in executions ==> x.exitCode == 0)
              && Hardening.EveryCheckPasses(Hardening.ValidateAll(Hardening.SnapshotsOf(built, snap)))
  {
    var built := Capture.Built(req, id, files, executions, texts);
    SchemaCheckKeepsGate(Hardening.Harden(built, snap));
    PromotableBeforeHardening(built, snap);
    Capture.CapturedInputs(req, id, files, executions, texts);
    Capture.CapturedArtifacts(req, id, files, executions, texts);
    var generated := Hardening.ValidateAll(Hardening.SnapshotsOf(built, snap));
    assert built.validations + generated == generated;
  }

  lemma {:induction false} HarnessPassesExactly(h: Harness, results: seq<CheckResult>)
    ensures var hardened := Hardening.HardenHarness(h, results);
            && (hardened.status == Pass ==> hardened.failures == [])
            && (hardened.status == Pass <==>
                  h.status == Pass && h.failures == [] && Filter(results, Hardening.Failing) == [])
  {
    var messages := Map(Filter(results, Hardening.Failing), Hardening.MessageOf);
    var all := h.failures + messages;
    FirstWinsKeys(all, Same);
    if all != [] {
      assert Map(all, Same)[0] in Map(FirstWins(all, Same), Same);
    }
  }

  // ---- Metrics and status --------------------------------------------------

  datatype EvalResult = EvalResult(status: Verdict, runtimeProfile: Option<string>)

  datatype Metrics = Metrics(
    evidenceCount: nat,
    successes: nat,
    failures: nat,
    harnessPasses: nat,
    interventions: nat,
    evalCount: nat,
    evalPasses: nat,
    profiles: seq<string>,
    criteriaMet: bool,
    evalGateMet: bool)

  datatype Status = Candidate | Validated | Stable

  predicate Successful(e: Evidence) {
    e.outcome == Success || (e.outcome == Undecided && e.successLabel == Success)
  }

  predicate Failed(e: Evidence) {
    e.outcome == Failure || (e.outcome == Undecided && e.successLabel == Failure)
  }

  predicate HarnessPassed(e: Evidence) { e.harness.status == Pass }

  predicate Intervened(e: Evidence) { e.interventions != [] }

  predicate EvalPassed(r: EvalResult) { r.status == Pass }

  function RuntimeProfile(e: Evidence): string { "runtime:" + e.runtime.name }

  function RecordProfiles(e: Evidence): seq<string> {
    [RuntimeProfile(e)] + if e.runtime.model.Some? then ["model:" + e.runtime.model.value] else []
  }

  function AllRecordProfiles(records: seq<Evidence>): seq<string> {
    if |records| == 0 then []
    else AllRecordProfiles(records[..|records| - 1]) + RecordProfiles(records[|records| - 1])
  }

  predicate HasProfile(r: EvalResult) { r.runtimeProfile.Some? }

  function EvalProfile(r: EvalResult): string {
    if r.runtimeProfile.Some? then "eval:" + r.runtimeProfile.value else ""
  }

  /** `_promotion_runtime_profiles`. */
  function RuntimeProfiles(records: seq<Evidence>, evals: seq<EvalResult>): seq<string> {
    FirstWins(AllRecordProfiles(records) + Map(Filter(evals, HasProfile), EvalProfile), Same)
  }

  /** `_min_runtime_profiles`. */
  function MinRuntimeProfiles(records: seq<Evidence>): seq<string> {
    FirstWins(Map(records, RuntimeProfile), Same)
  }

  /** `_promotion_metrics`. */
  function MetricsOf(records: seq<Evidence>, evals: seq<EvalResult>): Metrics
    requires records != []
  {
    var n, c := |records|, |evals|;
    var profiles := RuntimeProfiles(records, evals);
    var evalPasses := Count(evals, EvalPassed);
    Metrics(
      n, Count(records, Successful), Count(records, Failed), Count(records, HarnessPassed), Count(records, Intervened),
      c, evalPasses, profiles,
      && Count(records, Successful) >= MIN_SUCCESS_RUNS
      && RateAtLeast(Count(records, HarnessPassed), n, REQUIRED_PASS_TENTHS)
      && RateAtMost(Count(records, Intervened), n, MAX_INTERVENTION_TENTHS)
      && (forall p :: p in MinRuntimeProfiles(records) ==> p in profiles),
      c == 0 || RateAtLeast(evalPasses, c, REQUIRED_PASS_TENTHS))
  }

  /** `_capability_status`. */
  function StatusOf(m: Metrics): Status {
    if m.criteriaMet && m.evalGateMet && m.evalCount > 0 then Stable
    else if m.criteriaMet && m.evalGateMet then Validated
    else Candidate
  }

  /** The loop of `_promotion_runtime_profiles`. */
  method PromotionRuntimeProfiles(records: seq<Evidence>, evals: seq<EvalResult>) returns (r: seq<string>)
    ensures r == RuntimeProfiles(records, evals)
  {
    var profiles: seq<string> := [];
    for i := 0 to |records|
      invariant profiles == AllRecordProfiles(records[..i])
    {
      assert records[..i + 1][..i] == records[..i];
      profiles := profiles + [RuntimeProfile(records[i])];
      if records[i].runtime.model.Some? {
        profiles := profiles + ["model:" + records[i].runtime.model.value];
      }
      assert profiles == AllRecordProfiles(records[..i]) + RecordProfiles(records[i]);
    }
    assert records[..|records|] == records;
    profiles := profiles + Map(Filter(evals, HasProfile), EvalProfile);
    r := FirstWins(profiles, Same);
  }

  lemma {:induction false} RecordProfilesListed(records: seq<Evidence>, i: nat)
    requires i < |records|
    ensures RuntimeProfile(records[i]) in AllRecordProfiles(records)
  {
    var front := records[..|records| - 1];
    if i < |front| {
      RecordProfilesListed(front, i);
    } else {
      assert RecordProfiles(records[i])[0] == RuntimeProfile(records[i]);
    }
  }

  /** The runtime clause of the criteria always holds: promotion asks for the profiles it has just collected. */
  lemma {:induction false} RuntimeClauseAlwaysHolds(records: seq<Evidence>, evals: seq<EvalResult>)
    ensures forall p :: p in MinRuntimeProfiles(records) ==> p in RuntimeProfiles(records, evals)
  {
    var wanted := Map(records, RuntimeProfile);
    var listed := AllRecordProfiles(records) + Map(Filter(evals, HasProfile), EvalProfile);
    FirstWinsKeys(wanted, Same);
    FirstWinsKeys(listed, Same);
    Hardening.KeysSame(listed);
    Hardening.KeysSame(FirstWins(listed, Same));
    forall p | p in MinRuntimeProfiles(records)
      ensures p in RuntimeProfiles(records, evals)
    {
      var i :| 0 <= i < |records| && wanted[i] == p;
      RecordProfilesListed(records, i);
      assert p in listed;
    }
  }

  /** The criteria are three counts; the fourth clause decides nothing. */
  lemma {:induction false} CriteriaAreThreeCounts(records: seq<Evidence>, evals: seq<EvalResult>)
    requires records != []
    ensures MetricsOf(records, evals).criteriaMet <==>
              && Count(records, Successful) >= 3
              && 10 * Count(records, HarnessPassed) >= 9 * |records|
              && 10 * Count(records, Intervened) <= 3 * |records|
  {
    RuntimeClauseAlwaysHolds(records, evals);
  }

  /** The numbers of a set of records: what each record and each eval adds to them, field by field. */
  lemma {:induction false} RecordCounts(records: seq<Evidence>, e: Evidence, evals: seq<EvalResult>)
    requires records != []
    ensures var m, n := MetricsOf(records, evals), MetricsOf(records + [e], evals);
            && n.evidenceCount == m.evidenceCount + 1
            && n.interventions == m.interventions + (if e.interventions != [] then 1 else 0)
            && n.harnessPasses == m.harnessPasses + (if e.harness.status == Pass then 1 else 0)
            && n.successes ==
                 m.successes
                 + (if e.outcome == Success || (e.outcome == Undecided && e.successLabel == Success) then 1 else 0)
            && n.failures ==
                 m.failures
                 + (if e.outcome == Failure || (e.outcome == Undecided && e.successLabel == Failure) then 1 else 0)
            && n.evalCount == m.evalCount && n.evalPasses == m.evalPasses
  {
    CountConcat(records, [e], Intervened);
    CountConcat(records, [e], HarnessPassed);
    CountConcat(records, [e], Successful);
    CountConcat(records, [e], Failed);
    CountOne(e, Intervened);
    CountOne(e, HarnessPassed);
    CountOne(e, Successful);
    CountOne(e, Failed);
  }

  lemma {:induction false} FirstRecordCounts(e: Evidence)
    ensures var m := MetricsOf([e], []);
            && m.evidenceCount == 1 && m.evalCount == 0 && m.evalPasses == 0
            && m.interventions == (if e.interventions != [] then 1 else 0)
            && m.harnessPasses == (if e.harness.status == Pass then 1 else 0)
            && m.successes ==
                 (if e.outcome == Success || (e.outcome == Undecided && e.successLabel == Success) then 1 else 0)
            && m.failures ==
                 (if e.outcome == Failure || (e.outcome == Undecided && e.successLabel == Failure) then 1 else 0)
  {
    CountOne(e, Intervened);
    CountOne(e, HarnessPassed);
    CountOne(e, Successful);
    CountOne(e, Failed);
  }

  lemma {:induction false} EvalCounts(records: seq<Evidence>, evals: seq<EvalResult>, r: EvalResult)
    requires records != []
    ensures var m, n := MetricsOf(records, evals), MetricsOf(records, evals + [r]);
            && n.evalCount == m.evalCount + 1
            && n.evalPasses == m.evalPasses + (if r.status == Pass then 1 else 0)
            && n.evidenceCount == m.evidenceCount && n.interventions == m.interventions
            && n.harnessPasses == m.harnessPasses && n.successes == m.successes && n.failures == m.failures
  {
    CountConcat(evals, [r], EvalPassed);
    CountOne(r, EvalPassed);
  }

  lemma {:induction false} CountOne<T>(x: T, p: T -> bool)
    ensures Count([x], p) == if p(x) then 1 else 0
  {
    assert [x][..0] == [];
  }

  /** The status that these numbers give. */
  function StatusByNumbers(m: Metrics): Status {
    if !(m.successes >= 3 && 10 * m.harnessPasses >= 9 * m.evidenceCount && 10 * m.interventions <= 3 * m.evidenceCount)
    then Candidate
    else if m.evalCount == 0 then Validated
    else if 10 * m.evalPasses >= 9 * m.evalCount then Stable
    else Candidate
  }

  lemma {:induction false} StatusIsByNumbers(records: seq<Evidence>, evals: seq<EvalResult>)
    requires records != []
    ensures var m := MetricsOf(records, evals);
            && StatusOf(m) == StatusByNumbers(m)
            && (m.evalGateMet <==> m.evalCount == 0 || 10 * m.evalPasses >= 9 * m.evalCount)
            && (m.criteriaMet <==>
                  && m.successes >= 3
                  && 10 * m.harnessPasses >= 9 * m.evidenceCount
                  && 10 * m.interventions <= 3 * m.evidenceCount)
            && m.evidenceCount == |records| && m.evalCount == |evals|
  {
    CriteriaAreThreeCounts(records, evals);
  }

  /** The profiles collected: each record's runtime and model, and each eval's, each once. */
  lemma {:induction false} ProfilesExactly(records: seq<Evidence>, evals: seq<EvalResult>, p: string)
    ensures p in RuntimeProfiles(records, evals) <==>
              || (exists e :: e in records && p == "runtime:" + e.runtime.name)
              || (exists e :: e in records && e.runtime.model.Some? && p == "model:" + e.runtime.model.value)
              || (exists r :: r in evals && r.runtimeProfile.Some? && p == "eval:" + r.runtimeProfile.value)
    ensures UniqueKeys(RuntimeProfiles(records, evals), Same)
  {
    var named := Filter(evals, HasProfile);
    var all := AllRecordProfiles(records) + Map(named, EvalProfile);
    FirstWinsKeys(all, Same);
    Hardening.KeysSame(all);
    Hardening.KeysSame(FirstWins(all, Same));
    MapMember(named, EvalProfile, p);
    RecordProfilesExactly(records, p);
    assert forall r :: r in evals && r.runtimeProfile.Some? ==> r in named;
  }

  lemma {:induction false} RecordProfilesExactly(records: seq<Evidence>, p: string)
    ensures p in AllRecordProfiles(records) <==>
              || (exists e :: e in records && p == "runtime:" + e.runtime.name)
              || (exists e :: e in records && e.runtime.model.Some? && p == "model:" + e.runtime.model.value)
  {
    if |records| > 0 {
      var front, e := records[..|records| - 1], records[|records| - 1];
      RecordProfilesExactly(front, p);
      assert records == front + [e];
      assert p in RecordProfiles(e) <==>
        p == "runtime:" + e.runtime.name || (e.runtime.model.Some? && p == "model:" + e.runtime.model.value);
    }
  }

  lemma {:induction false} CountExclusive<T>(xs: seq<T>, p: T -> bool, q: T -> bool)
    requires forall x :: x in xs ==> !(p(x) && q(x))
    ensures Count(xs, p) + Count(xs, q) <= |xs|
  {
    if |xs| > 0 {
      CountExclusive(xs[..|xs| - 1], p, q);
    }
  }

  /** No record is both a success and a failure. */
  lemma {:induction false} SuccessesAndFailuresAreDisjoint(records: seq<Evidence>, evals: seq<EvalResult>)
    requires records != []
    ensures var m := MetricsOf(records, evals);
            m.successes + m.failures <= m.evidenceCount
  {
    CountExclusive(records, Successful, Failed);
  }

  // ---- Strict promotion ----------------------------------------------------

  /** `_harness_result`: the harness of the promoted manifest. */
  function ManifestHarnessFailures(records: seq<Evidence>): seq<string> {
    if |records| == 0 then []
    else ManifestHarnessFailures(records[..|records| - 1]) + records[|records| - 1].harness.failures
  }

  function ManifestHarnessStatus(records: seq<Evidence>): Verdict {
    if ManifestHarnessFailures(records) != [] then Fail else Pass
  }

  /** `_record_quality`: the worst score of the records that have one. */
  function WorstScore(records: seq<Evidence>): Option<int> {
    if |records| == 0 then None
    else
      var rest, q := WorstScore(records[..|records| - 1]), records[|records| - 1].quality;
      if q.None? then rest
      else if rest.None? || q.value.score < rest.value then Some(q.value.score)
      else rest
  }

  /** A stored record has the verdict of a hardened one: harness status, failures and quality. */
  predicate SameVerdict(e: Evidence, h: Evidence) {
    e.harness.status == h.harness.status && e.harness.failures == h.harness.failures && e.quality == h.quality
  }

  /** Hardened at some time, against the files there were then. */
  ghost predicate FromHardening(e: Evidence) {
    exists raw: Evidence, snap: Hardening.Snapshots :: SameVerdict(e, Hardening.Harden(raw, snap))
  }

  /** So is every record stored by capture, and every one stored as it was hardened. */
  lemma {:induction false} StoredFromHardening(raw: Evidence, snap: Hardening.Snapshots)
    ensures FromHardening(Hardening.Harden(raw, snap))
    ensures FromHardening(Capture.SchemaChecked(Hardening.Harden(raw, snap)))
  {
    var h := Hardening.Harden(raw, snap);
    assert SameVerdict(h, h);
    assert SameVerdict(Capture.SchemaChecked(h), Hardening.Harden(raw, snap));
  }

  /**
   What the strict gate buys: a harness pass rate of 1, so that the criteria
   are decided by successes and interventions alone.
   */
  lemma {:induction false} StrictPromotion(records: seq<Evidence>, evals: seq<EvalResult>)
    requires records != []
    requires forall e :: e in records ==> Promotable(e)
    ensures var m := MetricsOf(records, evals);
            && m.harnessPasses == m.evidenceCount
            && (m.criteriaMet <==> m.successes >= 3 && 10 * m.interventions <= 3 * m.evidenceCount)
  {
    CountAll(records, HarnessPassed);
    CriteriaAreThreeCounts(records, evals);
  }

  /** A promotable hardened record carries no failure and a full score. */
  lemma {:induction false} HardenedRecordIsClean(e: Evidence)
    requires FromHardening(e) && Promotable(e)
    ensures CleanRecord(e)
  {
    var raw: Evidence, snap: Hardening.Snapshots :| SameVerdict(e, Hardening.Harden(raw, snap));
    var h := Hardening.Harden(raw, snap);
    HarnessPassesExactly(raw.harness, h.validations);
    Hardening.ScoreIsAtLeastAQuarter(h.taskContract.value, h.contracts, h.validations);
  }

  predicate CleanRecord(e: Evidence) {
    e.harness.failures == [] && e.quality.Some? && e.quality.value.score == 100
  }

  /** The worst score is the least of those there are. */
  lemma {:induction false} WorstScoreIsLeast(records: seq<Evidence>)
    ensures WorstScore(records).Some? <==> exists e :: e in records && e.quality.Some?
    ensures forall e :: e in records && e.quality.Some? ==> WorstScore(records).value <= e.quality.value.score
    ensures WorstScore(records).Some? ==>
              exists e :: e in records && e.quality.Some? && e.quality.value.score == WorstScore(records).value
  {
    if |records| > 0 {
      var front, e := records[..|records| - 1], records[|records| - 1];
      WorstScoreIsLeast(front);
      assert records == front + [e];
      assert e in records;
      assert forall x :: x in front ==> x in records;
    }
  }

  /** The harness of a manifest has every failure of every record, and passes exactly when there are none. */
  lemma {:induction false} ManifestHarnessExactly(records: seq<Evidence>, failure: string)
    ensures failure in ManifestHarnessFailures(records) <==>
              exists e :: e in records && failure in e.harness.failures
    ensures ManifestHarnessStatus(records) == Pass <==> forall e :: e in records ==> e.harness.failures == []
  {
    if |records| > 0 {
      var front, e := records[..|records| - 1], records[|records| - 1];
      ManifestHarnessExactly(front, failure);
      assert records == front + [e];
      assert e in records;
      assert forall x :: x in front ==> x in records;
    }
  }

  lemma {:induction false} CleanManifest(records: seq<Evidence>)
    requires records != []
    requires forall e :: e in records ==> CleanRecord(e)
    ensures ManifestHarnessStatus(records) == Pass
    ensures WorstScore(records) == Some(100)
  {
    var front := records[..|records| - 1];
    assert CleanRecord(records[|records| - 1]);
    if front == [] {
      assert WorstScore(front) == None;
      assert ManifestHarnessFailures(front) == [];
    } else {
      CleanManifest(front);
    }
  }

  /** Strict promotion of hardened records, each from its own time, yields a passing harness and a full score. */
  lemma {:induction false} StrictManifest(records: seq<Evidence>)
    requires records != []
    requires forall e :: e in records ==> FromHardening(e) && Promotable(e)
    ensures ManifestHarnessStatus(records) == Pass
    ensures WorstScore(records) == Some(100)
  {
    forall e | e in records
      ensures CleanRecord(e)
    {
      HardenedRecordIsClean(e);
    }
    CleanManifest(records);
  }

  // ---- Monotonicity --------------------------------------------------------

  lemma {:induction false} CountConcat<T>(xs: seq<T>, ys: seq<T>, p: T -> bool)
    ensures Count(xs + ys, p) == Count(xs, p) + Count(ys, p)
  {
    if |ys| == 0 {
      assert xs + ys == xs;
    } else {
      assert (xs + ys)[..|xs + ys| - 1] == xs + ys[..|ys| - 1];
      CountConcat(xs, ys[..|ys| - 1], p);
    }
  }

  lemma {:induction false} CountInserted<T>(xs: seq<T>, x: T, ys: seq<T>, p: T -> bool)
    ensures Count(xs + [x] + ys, p) == Count(xs + ys, p) + if p(x) then 1 else 0
  {
    CountConcat(xs + [x], ys, p);
    CountConcat(xs, [x], p);
    CountConcat(xs, ys, p);
    assert [x][..0] == [];
  }

  predicate CleanSuccess(e: Evidence) { Successful(e) && HarnessPassed(e) && !Intervened(e) }

  /** A clean success inserted anywhere never takes the criteria away. */
  lemma {:induction false} CleanSuccessKeepsCriteria(
    before: seq<Evidence>, e: Evidence, after: seq<Evidence>, evals: seq<EvalResult>)
    requires before + after != [] && CleanSuccess(e)
    requires MetricsOf(before + after, evals).criteriaMet
    ensures MetricsOf(before + [e] + after, evals).criteriaMet
  {
    CriteriaAreThreeCounts(before + after, evals);
    CriteriaAreThreeCounts(before + [e] + after, evals);
    CountInserted(before, e, after, Successful);
    CountInserted(before, e, after, HarnessPassed);
    CountInserted(before, e, after, Intervened);
  }

  /** Whatever a record set looks like, nine clean successes per record and three more meet the criteria. */
  lemma {:induction false} EnoughCleanSuccesses(
    records: seq<Evidence>, clean: seq<Evidence>, evals: seq<EvalResult>)
    requires forall e :: e in clean ==> CleanSuccess(e)
    requires |clean| >= 9 * |records| + 3
    ensures MetricsOf(records + clean, evals).criteriaMet
  {
    CriteriaAreThreeCounts(records + clean, evals);
    CountConcat(records, clean, Successful);
    CountConcat(records, clean, HarnessPassed);
    CountConcat(records, clean, Intervened);
    CountAll(clean, Successful);
    CountAll(clean, HarnessPassed);
    CountExclusive(clean, HarnessPassed, Intervened);
  }

  function Rank(s: Status): nat {
    match s case Candidate => 0 case Validated => 1 case Stable => 2
  }

  /** One more passing eval never lowers the status, and lifts a validated capability to stable. */
  lemma {:induction false} PassingEvalNeverDemotes(
    records: seq<Evidence>, before: seq<EvalResult>, r: EvalResult, after: seq<EvalResult>)
    requires records != [] && EvalPassed(r)
    ensures var was := StatusOf(MetricsOf(records, before + after));
            var now := StatusOf(MetricsOf(records, before + [r] + after));
            && Rank(was) <= Rank(now)
            && (was == Validated ==> now == Stable)
  {
    CriteriaAreThreeCounts(records, before + after);
    CriteriaAreThreeCounts(records, before + [r] + after);
    CountInserted(before, r, after, EvalPassed);
  }

  /** One more failing eval never raises the status, and the first one leaves only a candidate. */
  lemma {:induction false} FailingEvalNeverPromotes(
    records: seq<Evidence>, before: seq<EvalResult>, r: EvalResult, after: seq<EvalResult>)
    requires records != [] && !EvalPassed(r)
    ensures var was := StatusOf(MetricsOf(records, before + after));
            var now := StatusOf(MetricsOf(records, before + [r] + after));
            && Rank(now) <= Rank(was)
            && (before + after == [] ==> now == Candidate)
  {
    CriteriaAreThreeCounts(records, before + after);
    CriteriaAreThreeCounts(records, before + [r] + after);
    CountInserted(before, r, after, EvalPassed);
  }

  /** The status a promotion reaches, or the issues it raises. */
  method Promote(records: seq<Evidence>, evals: seq<EvalResult>, strict: bool)
    returns (r: Result<(Status, Metrics), seq<(string, Issue)>>)
    requires records != []
    ensures r.Err? <==> strict && exists e :: e in records && !Promotable(e)
    ensures r.Ok? ==> r.value == (StatusByNumbers(MetricsOf(records, evals)), MetricsOf(records, evals))
  {
    if strict {
      var gate := EnforceQualityGate(records);
      if gate.Err? {
        return Err(gate.error);
      }
    }
    var metrics := MetricsOf(records, evals);
    StatusIsByNumbers(records, evals);
    r := Ok((StatusOf(metrics), metrics));
  }
}
