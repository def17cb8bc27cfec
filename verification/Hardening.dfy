/**
 `harden_evidence_record`: snapshots of the artifacts are validated, the
 results merged into the record, and contracts, quality and harness rebuilt.
 A snapshot is a fixed function of the path: the project directory does not
 change between two passes.
 */
module Hardening {
  import opened Common
  import opened EvidenceRecords
  import opened OrderedMerge

  type Snapshots = string -> Snapshot

  function NameOf(c: CheckResult): string { c.name }

  type ObservationKey = (ObservationKind, string, Option<string>, Option<string>)

  function KeyOf(o: Observation): ObservationKey { (o.kind, o.summary, o.path, o.command) }

  predicate NonEmpty(s: string) { s != "" }

  predicate Failing(c: CheckResult) { c.status == Fail }

  // ---- Snapshot validation -------------------------------------------------

  predicate Flag(s: Snapshot, key: string) { key in s.metadata && s.metadata[key] }

  function CheckFor(name: string, path: string, ok: bool, passed: string, failed: string): CheckResult {
    CheckResult(name + ":" + path, if ok then Pass else Fail, if ok then passed else failed, Some(path))
  }

  /** `_metadata_check`. */
  function MetadataCheck(s: Snapshot, key: string, name: string): CheckResult {
    CheckFor(name, s.path, Flag(s, key), name + " passed", name + " failed")
  }

  /** The metadata key and check name a kind of artifact is validated by. */
  function KindCheck(kind: string): Option<(string, string)> {
    if kind == "json" then Some(("valid_json", "json_parses"))
    else if kind == "csv" then Some(("valid_csv", "csv_parses"))
    else if kind == "png" then Some(("valid_png", "png_dimensions"))
    else if kind == "docx" || kind == "xlsx" then Some(("valid_zip", kind + "_opens"))
    else if kind == "pdf" then Some(("valid_pdf", "pdf_header"))
    else None
  }

  predicate EscapesProject(s: Snapshot) {
    "path_within_project" in s.metadata && !s.metadata["path_within_project"]
  }

  /** `_validate_snapshot`: at least one result, all about the snapshot's own path. */
  function ValidateSnapshot(s: Snapshot): (r: seq<CheckResult>)
    ensures |r| > 0
    ensures forall c :: c in r ==> c.artifactPath == Some(s.path)
  {
    if EscapesProject(s) then
      [CheckFor("artifact_within_project", s.path, false, "", "artifact path escapes project root")]
    else
      var found := Flag(s, "exists");
      var first := CheckFor("artifact_exists", s.path, found, "artifact exists", "artifact is missing");
      if !found then [first]
      else if s.kind == "directory" then
        [first, CheckFor("directory_has_entries", s.path, s.entries != [], "directory has files", "directory is empty")]
      else
        match KindCheck(s.kind)
        case None => [first]
        case Some((key, name)) => [first, MetadataCheck(s, key, name)]
  }

  /** An artifact is sound when it lies in the project, exists, and its kind's probe succeeds. */
  predicate Sound(s: Snapshot) {
    && !EscapesProject(s)
    && Flag(s, "exists")
    && (s.kind == "directory" ==> s.entries != [])
    && (s.kind != "directory" && KindCheck(s.kind).Some? ==> Flag(s, KindCheck(s.kind).value.0))
  }

  /** Validation reports no failure exactly for sound artifacts. */
  lemma {:induction false} SoundExactly(s: Snapshot)
    ensures Sound(s) <==> forall c :: c in ValidateSnapshot(s) ==> !Failing(c)
  {
    var r := ValidateSnapshot(s);
    assert r[0] in r;
    if |r| > 1 {
      assert r[1] in r;
      assert r == [r[0], r[1]];
    } else {
      assert r == [r[0]];
    }
  }

  /** A result on the snapshot's path, by its full name. */
  function Reported(s: Snapshot, name: string, ok: bool, passed: string, failed: string): CheckResult {
    CheckResult(name + s.path, if ok then Pass else Fail, if ok then passed else failed, Some(s.path))
  }

  predicate Known(s: Snapshot, key: string, value: bool) { key in s.metadata && s.metadata[key] == value }

  /** The results, kind by kind: one for an artifact that is outside or missing, at most two otherwise. */
  lemma {:induction false} ResultsExactly(s: Snapshot)
    ensures var r := ValidateSnapshot(s);
            var there := Reported(s, "artifact_exists:", true, "artifact exists", "");
            if Known(s, "path_within_project", false) then
              r == [Reported(s, "artifact_within_project:", false, "", "artifact path escapes project root")]
            else if !Known(s, "exists", true) then
              r == [Reported(s, "artifact_exists:", false, "", "artifact is missing")]
            else
              && (s.kind == "directory" ==>
                    r == [there, Reported(s, "directory_has_entries:", s.entries != [],
                                          "directory has files", "directory is empty")])
              && (s.kind == "json" ==>
                    r == [there, Reported(s, "json_parses:", Known(s, "valid_json", true),
                                          "json_parses passed", "json_parses failed")])
              && (s.kind == "csv" ==>
                    r == [there, Reported(s, "csv_parses:", Known(s, "valid_csv", true),
                                          "csv_parses passed", "csv_parses failed")])
              && (s.kind == "png" ==>
                    r == [there, Reported(s, "png_dimensions:", Known(s, "valid_png", true),
                                          "png_dimensions passed", "png_dimensions failed")])
              && (s.kind == "docx" ==>
                    r == [there, Reported(s, "docx_opens:", Known(s, "valid_zip", true),
                                          "docx_opens passed", "docx_opens failed")])
              && (s.kind == "xlsx" ==>
                    r == [there, Reported(s, "xlsx_opens:", Known(s, "valid_zip", true),
                                          "xlsx_opens passed", "xlsx_opens failed")])
              && (s.kind == "pdf" ==>
                    r == [there, Reported(s, "pdf_header:", Known(s, "valid_pdf", true),
                                          "pdf_header passed", "pdf_header failed")])
              && (s.kind !in PROBED_KINDS ==> r == [there])
  {
    NameTexts(s.path);
    MessageTexts();
  }

  lemma {:induction false} MessageTexts()
    ensures "json_parses" + " passed" == "json_parses passed" && "json_parses" + " failed" == "json_parses failed"
    ensures "csv_parses" + " passed" == "csv_parses passed" && "csv_parses" + " failed" == "csv_parses failed"
    ensures "png_dimensions" + " passed" == "png_dimensions passed"
    ensures "png_dimensions" + " failed" == "png_dimensions failed"
    ensures "docx" + "_opens" + " passed" == "docx_opens passed" && "docx" + "_opens" + " failed" == "docx_opens failed"
    ensures "xlsx" + "_opens" + " passed" == "xlsx_opens passed" && "xlsx" + "_opens" + " failed" == "xlsx_opens failed"
    ensures "pdf_header" + " passed" == "pdf_header passed" && "pdf_header" + " failed" == "pdf_header failed"
  {
  }

  const PROBED_KINDS: seq<string> := ["directory", "json", "csv", "png", "docx", "xlsx", "pdf"]

  lemma {:induction false} NameTexts(path: string)
    ensures "artifact_within_project:" + path == "artifact_within_project" + ":" + path
    ensures "artifact_exists:" + path == "artifact_exists" + ":" + path
    ensures "directory_has_entries:" + path == "directory_has_entries" + ":" + path
    ensures "json_parses:" + path == "json_parses" + ":" + path
    ensures "csv_parses:" + path == "csv_parses" + ":" + path
    ensures "png_dimensions:" + path == "png_dimensions" + ":" + path
    ensures "docx_opens:" + path == "docx" + "_opens" + ":" + path
    ensures "xlsx_opens:" + path == "xlsx" + "_opens" + ":" + path
    ensures "pdf_header:" + path == "pdf_header" + ":" + path
  {
  }

  /** Some result fails exactly in these cases, in terms of what was found out about the artifact. */
  lemma {:induction false} FailsExactly(s: Snapshot)
    ensures (exists c :: c in ValidateSnapshot(s) && c.status == Fail) <==>
              || Known(s, "path_within_project", false)
              || !Known(s, "exists", true)
              || (s.kind == "directory" && s.entries == [])
              || (s.kind == "json" && !Known(s, "valid_json", true))
              || (s.kind == "csv" && !Known(s, "valid_csv", true))
              || (s.kind == "png" && !Known(s, "valid_png", true))
              || (s.kind in ["docx", "xlsx"] && !Known(s, "valid_zip", true))
              || (s.kind == "pdf" && !Known(s, "valid_pdf", true))
  {
    SoundExactly(s);
    if !EscapesProject(s) && Flag(s, "exists") {
      SoundKinds(s);
    }
  }

  lemma {:induction false} SoundKinds(s: Snapshot)
    requires !EscapesProject(s) && Flag(s, "exists")
    ensures s.kind == "directory" ==> (Sound(s) <==> s.entries != [])
    ensures s.kind == "json" ==> (Sound(s) <==> Flag(s, "valid_json"))
    ensures s.kind == "csv" ==> (Sound(s) <==> Flag(s, "valid_csv"))
    ensures s.kind == "png" ==> (Sound(s) <==> Flag(s, "valid_png"))
    ensures s.kind in ["docx", "xlsx"] ==> (Sound(s) <==> Flag(s, "valid_zip"))
    ensures s.kind == "pdf" ==> (Sound(s) <==> Flag(s, "valid_pdf"))
    ensures s.kind !in PROBED_KINDS ==> Sound(s)
  {
  }

  function ValidateAll(ss: seq<Snapshot>): (r: seq<CheckResult>)
    ensures |ss| > 0 ==> |r| > 0
  {
    if |ss| == 0 then [] else ValidateSnapshot(ss[0]) + ValidateAll(ss[1..])
  }

  // ---- The pieces of a hardened record -------------------------------------

  predicate IsArtifactFile(f: CapturedFile) { f.role == ArtifactFile }

  predicate IsInputFile(f: CapturedFile) { f.role == PromptFile || f.role == ContextFile }

  function PathOf(f: CapturedFile): string { f.path }

  /** `_artifact_paths`. */
  function ArtifactPaths(e: Evidence): seq<string> {
    FirstWins(Filter(e.finalArtifacts + Map(Filter(e.files, IsArtifactFile), PathOf), NonEmpty), Same)
  }

  /** `_required_inputs`. */
  function RequiredInputsOf(e: Evidence): seq<string> {
    FirstWins(Filter(e.inputContext + Map(Filter(e.files, IsInputFile), PathOf), NonEmpty), Same)
  }

  function SnapshotsOf(e: Evidence, snap: Snapshots): (ss: seq<Snapshot>)
    ensures |ss| == |ArtifactPaths(e)|
  {
    Map(ArtifactPaths(e), snap)
  }

  /** `_merge_validation_results`. */
  function MergedValidations(e: Evidence, snap: Snapshots): seq<CheckResult> {
    LastWins(e.validations + ValidateAll(SnapshotsOf(e, snap)), NameOf)
  }

  function ContractOf(s: Snapshot): ArtifactContract {
    ArtifactContract(s.path, s.kind, Map(ValidateSnapshot(s), NameOf))
  }

  function ContractPath(c: ArtifactContract): string { c.path }

  function ContractsOf(ss: seq<Snapshot>): (cs: seq<ArtifactContract>)
    ensures |cs| == |ss|
  {
    Map(ss, ContractOf)
  }

  function TaskContractOf(e: Evidence, contracts: seq<ArtifactContract>, results: seq<CheckResult>): TaskContract {
    TaskContract(
      if e.normalizedGoal.Some? && NonEmpty(e.normalizedGoal.value) then e.normalizedGoal.value else e.goal,
      RequiredInputsOf(e),
      Map(contracts, ContractPath),
      Map(results, NameOf))
  }

  function InputObservation(path: string): Observation {
    Observation(InputSeen, "captured input " + path, Some(path), None, None)
  }

  function CommandObservation(x: Execution): Observation {
    Observation(CommandSeen, x.command, None, Some(x.command), Some(x.exitCode))
  }

  function ArtifactObservation(path: string): Observation {
    Observation(ArtifactSeen, "captured artifact " + path, Some(path), None, None)
  }

  function ValidationObservation(check: string): Observation {
    Observation(ValidationSeen, check, None, None, None)
  }

  /** The part of `_observations_from_evidence` that hardening leaves alone. */
  function FixedObservations(e: Evidence): seq<Observation> {
    [Observation(GoalSeen, e.goal, None, None, None)]
    + Map(RequiredInputsOf(e), InputObservation)
    + Map(e.executions, CommandObservation)
    + Map(ArtifactPaths(e), ArtifactObservation)
  }

  function ObservationsOf(e: Evidence): seq<Observation> {
    FixedObservations(e) + Map(e.harness.checks, ValidationObservation)
  }

  /** `_merge_observations`. */
  function MergedObservations(e: Evidence): seq<Observation> {
    FirstWins(e.observations + ObservationsOf(e), KeyOf)
  }

  predicate Lacks(t: TaskContract, contracts: seq<ArtifactContract>, results: seq<CheckResult>, s: Section) {
    match s
    case RequiredInputs => t.requiredInputs == []
    case ArtifactContracts => contracts == []
    case ValidationResults => results == []
    case PassingValidation => exists c :: c in results && Failing(c)
  }

  function AddIf(c: bool, s: Section, xs: seq<Section>): (r: seq<Section>)
    ensures |r| == |xs| + if c then 1 else 0
    ensures forall x :: x in r <==> x in xs || (c && x == s)
  {
    if c then xs + [s] else xs
  }

  function MissingSections(t: TaskContract, contracts: seq<ArtifactContract>, results: seq<CheckResult>): seq<Section> {
    AddIf(Lacks(t, contracts, results, PassingValidation), PassingValidation,
    AddIf(Lacks(t, contracts, results, ValidationResults), ValidationResults,
    AddIf(Lacks(t, contracts, results, ArtifactContracts), ArtifactContracts,
    AddIf(Lacks(t, contracts, results, RequiredInputs), RequiredInputs, []))))
  }

  function Quality(t: TaskContract, contracts: seq<ArtifactContract>, results: seq<CheckResult>): RecordQuality {
    var missing := MissingSections(t, contracts, results);
    var score := 100 - 25 * |missing|;
    RecordQuality(if score < 0 then 0 else score, missing, missing == [])
  }

  function MessageOf(c: CheckResult): string { c.message }

  /** `_harden_harness`. */
  function HardenHarness(h: Harness, results: seq<CheckResult>): Harness {
    var names := Map(results, NameOf);
    var failures := FirstWins(h.failures + Map(Filter(results, Failing), MessageOf), Same);
    Harness(
      if failures != [] then Fail else h.status,
      FirstWins(h.checks + names, Same),
      failures,
      FirstWins(h.requiredChecks + names, Same),
      h.humanReview)
  }

  function Harden(e: Evidence, snap: Snapshots): Evidence {
    var snapshots := SnapshotsOf(e, snap);
    var contracts := ContractsOf(snapshots);
    var results := MergedValidations(e, snap);
    var task := TaskContractOf(e, contracts, results);
    e.(observations := MergedObservations(e),
       snapshots := snapshots,
       contracts := contracts,
       validations := results,
       taskContract := Some(task),
       quality := Some(Quality(task, contracts, results)),
       harness := HardenHarness(e.harness, results))
  }

  // ---- The loops -----------------------------------------------------------

  /** The dictionary loop of `_merge_validation_results`: insertion order in `names`, values in `merged`. */
  method MergeValidationResults(existing: seq<CheckResult>, generated: seq<CheckResult>)
    returns (r: seq<CheckResult>)
    ensures r == LastWins(existing + generated, NameOf)
  {
    var all := existing + generated;
    var names: seq<string>, merged: map<string, CheckResult> := [], map[];
    for i := 0 to |all|
      invariant DictHolds(names, merged, LastWins(all[..i], NameOf))
    {
      var result := all[i];
      assert all[..i + 1][..i] == all[..i];
      ghost var d := LastWins(all[..i], NameOf);
      LastWinsFacts(all[..i], NameOf);
      PutFacts(d, result, NameOf);
      assert result.name in names <==> result.name in Map(d, NameOf) by {
        assert names == Map(d, NameOf);
      }
      if result.name !in merged {
        names := names + [result.name];
      }
      merged := merged[result.name := result];
      DictAfterPut(d, result, names, merged);
    }
    assert all[..|all|] == all;
    r := seq(|names|, i requires 0 <= i < |names| && names[i] in merged => merged[names[i]]);
  }

  /** names and merged hold the ordered dictionary d. */
  ghost predicate DictHolds(names: seq<string>, merged: map<string, CheckResult>, d: seq<CheckResult>) {
    && names == Map(d, NameOf)
    && (forall i :: 0 <= i < |d| ==> d[i].name in merged && merged[d[i].name] == d[i])
    && (forall n :: n in merged ==> n in names)
  }

  lemma {:induction false} DictAfterPut(
    d: seq<CheckResult>, x: CheckResult, names: seq<string>, merged: map<string, CheckResult>)
    requires UniqueKeys(d, NameOf)
    requires names == if x.name in Map(d, NameOf) then Map(d, NameOf) else Map(d, NameOf) + [x.name]
    requires x.name in merged && merged[x.name] == x
    requires forall i :: 0 <= i < |d| && d[i].name != x.name ==> d[i].name in merged && merged[d[i].name] == d[i]
    requires forall n :: n in merged ==> n in names
    ensures DictHolds(names, merged, Put(d, x, NameOf))
  {
    PutFacts(d, x, NameOf);
    var i := Position(d, x.name, NameOf);
    if i < |d| {
      forall j | 0 <= j < |d| && j != i
        ensures d[j].name != x.name
      {
        if j < i { assert NameOf(d[j]) != NameOf(d[i]); } else { assert NameOf(d[i]) != NameOf(d[j]); }
      }
    } else {
      forall j | 0 <= j < |d|
        ensures d[j].name != x.name
      {
        assert Map(d, NameOf)[j] == d[j].name;
      }
    }
  }

  /** The loop of `_merge_observations`, with its set of seen keys. */
  method MergeObservations(existing: seq<Observation>, generated: seq<Observation>)
    returns (merged: seq<Observation>)
    ensures merged == FirstWins(existing + generated, KeyOf)
  {
    var all := existing + generated;
    var seen: set<ObservationKey> := {};
    merged := [];
    for i := 0 to |all|
      invariant merged == FirstWins(all[..i], KeyOf)
      invariant forall k :: k in seen <==> k in Map(merged, KeyOf)
    {
      assert all[..i + 1][..i] == all[..i];
      var observation := all[i];
      var key := KeyOf(observation);
      if key !in seen {
        seen := seen + {key};
        KeysAppend(merged, [observation], KeyOf);
        assert Map([observation], KeyOf) == [key];
        merged := merged + [observation];
      }
    }
    assert all[..|all|] == all;
  }

  method AppendIf(lacking: bool, s: Section, missing: seq<Section>) returns (r: seq<Section>)
    ensures r == AddIf(lacking, s, missing)
  {
    r := missing;
    if lacking {
      r := r + [s];
    }
  }

  /** The appends of `_record_quality`. */
  method RecordQualityOf(t: TaskContract, contracts: seq<ArtifactContract>, results: seq<CheckResult>)
    returns (q: RecordQuality)
    ensures q == Quality(t, contracts, results)
  {
    var missing := AppendIf(t.requiredInputs == [], RequiredInputs, []);
    missing := AppendIf(contracts == [], ArtifactContracts, missing);
    missing := AppendIf(results == [], ValidationResults, missing);
    missing := AppendIf(exists c :: c in results && Failing(c), PassingValidation, missing);
    assert missing == MissingSections(t, contracts, results);
    MissingUnique(t, contracts, results);
    var unique := FirstWins(missing, Same);
    var score := 100 - 25 * |unique|;
    q := RecordQuality(if score < 0 then 0 else score, unique, unique == []);
  }

  lemma {:induction false} AddIfUnique(c: bool, s: Section, xs: seq<Section>)
    requires UniqueKeys(xs, Same) && s !in xs
    ensures UniqueKeys(AddIf(c, s, xs), Same)
  {
    var r := AddIf(c, s, xs);
    forall i, j | 0 <= i < j < |r|
      ensures Same(r[i]) != Same(r[j])
    {
      if j < |xs| {
        assert Same(xs[i]) != Same(xs[j]);
      } else {
        assert r[i] in xs;
      }
    }
  }

  lemma {:induction false} MissingUnique(t: TaskContract, contracts: seq<ArtifactContract>, results: seq<CheckResult>)
    ensures FirstWins(MissingSections(t, contracts, results), Same) == MissingSections(t, contracts, results)
  {
    var m1 := AddIf(Lacks(t, contracts, results, RequiredInputs), RequiredInputs, []);
    var m2 := AddIf(Lacks(t, contracts, results, ArtifactContracts), ArtifactContracts, m1);
    var m3 := AddIf(Lacks(t, contracts, results, ValidationResults), ValidationResults, m2);
    AddIfUnique(Lacks(t, contracts, results, RequiredInputs), RequiredInputs, []);
    AddIfUnique(Lacks(t, contracts, results, ArtifactContracts), ArtifactContracts, m1);
    AddIfUnique(Lacks(t, contracts, results, ValidationResults), ValidationResults, m2);
    AddIfUnique(Lacks(t, contracts, results, PassingValidation), PassingValidation, m3);
    var missing := MissingSections(t, contracts, results);
    FirstWinsAbsorbs(missing, [], Same);
    assert missing + [] == missing;
  }

  /** The whole of `harden_evidence_record`. */
  method HardenEvidenceRecord(e: Evidence, snap: Snapshots) returns (r: Evidence)
    ensures r == Harden(e, snap)
  {
    var snapshots := SnapshotsOf(e, snap);
    var results := MergeValidationResults(e.validations, ValidateAll(snapshots));
    var contracts := ContractsOf(snapshots);
    var task := TaskContractOf(e, contracts, results);
    var observations := MergeObservations(e.observations, ObservationsOf(e));
    var quality := RecordQualityOf(task, contracts, results);
    r := e.(observations := observations,
            snapshots := snapshots,
            contracts := contracts,
            validations := results,
            taskContract := Some(task),
            quality := Some(quality),
            harness := HardenHarness(e.harness, results));
  }

  // ---- Hardening settles ---------------------------------------------------

  lemma {:induction false} HarnessSettles(h: Harness, results: seq<CheckResult>)
    ensures HardenHarness(HardenHarness(h, results), results) == HardenHarness(h, results)
  {
    var names := Map(results, NameOf);
    FirstWinsIdempotent(h.checks, names, Same);
    FirstWinsIdempotent(h.requiredChecks, names, Same);
    FirstWinsIdempotent(h.failures, Map(Filter(results, Failing), MessageOf), Same);
  }

  /** A second pass changes nothing but `run_observations`. */
  lemma {:induction false} SecondPass(e: Evidence, snap: Snapshots)
    ensures var once := Harden(e, snap);
            var twice := Harden(once, snap);
            twice == once.(observations := twice.observations)
  {
    var once := Harden(e, snap);
    LastWinsIdempotent(e.validations, ValidateAll(SnapshotsOf(e, snap)), NameOf);
    assert SnapshotsOf(once, snap) == SnapshotsOf(e, snap);
    assert MergedValidations(once, snap) == once.validations;
    HarnessSettles(e.harness, once.validations);
  }

  /** A third pass changes nothing at all. */
  lemma {:induction false} ThirdPass(e: Evidence, snap: Snapshots)
    ensures var twice := Harden(Harden(e, snap), snap);
            Harden(twice, snap) == twice
  {
    var once := Harden(e, snap);
    var twice := Harden(once, snap);
    SecondPass(e, snap);
    SecondPass(once, snap);
    assert ObservationsOf(twice) == ObservationsOf(once);
    FirstWinsIdempotent(once.observations, ObservationsOf(once), KeyOf);
  }

  /** Every observation that the record itself gives rise to has been merged by the first pass. */
  lemma {:induction false} FirstPassCovers(e: Evidence, snap: Snapshots, o: Observation)
    requires o in ObservationsOf(e)
    ensures KeyOf(o) in Map(Harden(e, snap).observations, KeyOf)
  {
    KeyOfMember(ObservationsOf(e), o, KeyOf);
    KeysAppend(e.observations, ObservationsOf(e), KeyOf);
    FirstWinsKeys(e.observations + ObservationsOf(e), KeyOf);
  }

  /** The checks of a hardened harness are the recorded ones and the names of the results. */
  lemma {:induction false} HardenedChecks(h: Harness, results: seq<CheckResult>, name: string)
    ensures name in HardenHarness(h, results).checks <==> name in h.checks || name in Map(results, NameOf)
  {
    var all := h.checks + Map(results, NameOf);
    FirstWinsKeys(all, Same);
    KeysSame(all);
    KeysSame(FirstWins(all, Same));
  }

  /** An observation of the hardened record that the original did not give rise to. */
  lemma {:induction false} NewObservation(e: Evidence, snap: Snapshots, o: Observation)
    requires o in ObservationsOf(Harden(e, snap)) && o !in ObservationsOf(e)
    ensures o == ValidationObservation(o.summary)
    ensures o.summary in Map(Harden(e, snap).validations, NameOf) && o.summary !in e.harness.checks
  {
    var once := Harden(e, snap);
    assert FixedObservations(once) == FixedObservations(e);
    var vals := Map(once.harness.checks, ValidationObservation);
    assert o in vals;
    var j :| 0 <= j < |vals| && vals[j] == o;
    HardenedChecks(e.harness, once.validations, o.summary);
    assert once.harness.checks[j] in once.harness.checks;
  }

  /**
   What the second pass adds: validation observations, appended at the end, for
   check names the first pass put into the harness.
   */
  lemma {:induction false} SecondPassAppends(e: Evidence, snap: Snapshots)
    ensures var once := Harden(e, snap);
            var twice := Harden(once, snap);
            && once.observations <= twice.observations
            && forall o :: o in twice.observations[|once.observations|..] ==>
                 && o == ValidationObservation(o.summary)
                 && o.summary in Map(once.validations, NameOf)
                 && o.summary !in e.harness.checks
                 && KeyOf(o) !in Map(once.observations, KeyOf)
  {
    var once := Harden(e, snap);
    var u, ys := once.observations, ObservationsOf(once);
    FirstWinsKeys(e.observations + ObservationsOf(e), KeyOf);
    FirstWinsExtends(u, ys, KeyOf);
    assert Harden(once, snap).observations == FirstWins(u + ys, KeyOf);
    forall o | o in FirstWins(u + ys, KeyOf)[|u|..]
      ensures o == ValidationObservation(o.summary)
      ensures o.summary in Map(once.validations, NameOf) && o.summary !in e.harness.checks
    {
      if o in ObservationsOf(e) {
        FirstPassCovers(e, snap, o);
      }
      NewObservation(e, snap, o);
    }
  }

  /** The second pass has seen the name of every merged result. */
  lemma {:induction false} SecondPassCovers(e: Evidence, snap: Snapshots, c: CheckResult)
    requires c in Harden(e, snap).validations
    ensures KeyOf(ValidationObservation(c.name)) in Map(Harden(Harden(e, snap), snap).observations, KeyOf)
  {
    var once := Harden(e, snap);
    var i :| 0 <= i < |once.validations| && once.validations[i] == c;
    assert Map(once.validations, NameOf)[i] == c.name;
    HardenedChecks(e.harness, once.validations, c.name);
    var j :| 0 <= j < |once.harness.checks| && once.harness.checks[j] == c.name;
    assert Map(once.harness.checks, ValidationObservation)[j] == ValidationObservation(c.name);
    FirstPassCovers(once, snap, ValidationObservation(c.name));
  }

  /** The merged observations hold a validation exactly when it was recorded or its check was in the harness. */
  lemma {:induction false} ObservedExactly(e: Evidence, snap: Snapshots, name: string)
    ensures KeyOf(ValidationObservation(name)) in Map(Harden(e, snap).observations, KeyOf) <==>
              KeyOf(ValidationObservation(name)) in Map(e.observations, KeyOf) || name in e.harness.checks
  {
    var key := KeyOf(ValidationObservation(name));
    var generated := ObservationsOf(e);
    FirstWinsKeys(e.observations + generated, KeyOf);
    KeysAppend(e.observations, generated, KeyOf);
    if name in e.harness.checks {
      var i :| 0 <= i < |e.harness.checks| && e.harness.checks[i] == name;
      assert Map(e.harness.checks, ValidationObservation)[i] == ValidationObservation(name);
      KeyOfMember(generated, ValidationObservation(name), KeyOf);
    }
    if key in Map(generated, KeyOf) {
      var i :| 0 <= i < |generated| && Map(generated, KeyOf)[i] == key;
      var o := generated[i];
      assert o.kind == ValidationSeen;
      FixedAreNoValidations(e, o);
      assert o in Map(e.harness.checks, ValidationObservation);
      var j :| 0 <= j < |e.harness.checks| && Map(e.harness.checks, ValidationObservation)[j] == o;
      assert e.harness.checks[j] == name;
    }
  }

  lemma {:induction false} FixedAreNoValidations(e: Evidence, o: Observation)
    ensures o in FixedObservations(e) ==> o.kind != ValidationSeen
  {
  }

  /** The names of the merged results are those of the recorded and the fresh ones. */
  lemma {:induction false} MergedNames(e: Evidence, snap: Snapshots, name: string)
    ensures name in Map(Harden(e, snap).validations, NameOf) <==>
              name in Map(e.validations + ValidateAll(SnapshotsOf(e, snap)), NameOf)
  {
    var all := e.validations + ValidateAll(SnapshotsOf(e, snap));
    LastWinsFacts(all, NameOf);
    FirstWinsKeys(all, NameOf);
  }

  /** The check has been observed, or stands in the harness so that it will be. */
  predicate Foreseen(e: Evidence, name: string) {
    KeyOf(ValidationObservation(name)) in Map(e.observations, KeyOf) || name in e.harness.checks
  }

  /** After the second pass every check has been observed. */
  lemma {:induction false} AllObservedByThen(e: Evidence, snap: Snapshots, c: CheckResult)
    requires c in e.validations + ValidateAll(SnapshotsOf(e, snap))
    ensures KeyOf(ValidationObservation(c.name)) in Map(Harden(Harden(e, snap), snap).observations, KeyOf)
  {
    var once := Harden(e, snap);
    KeyOfMember(e.validations + ValidateAll(SnapshotsOf(e, snap)), c, NameOf);
    MergedNames(e, snap, c.name);
    var i :| 0 <= i < |once.validations| && Map(once.validations, NameOf)[i] == c.name;
    SecondPassCovers(e, snap, once.validations[i]);
  }

  /** A merged result that the first pass did not observe comes from one that was not foreseen. */
  lemma {:induction false} Unforeseen(e: Evidence, snap: Snapshots, c: CheckResult)
    requires c in Harden(e, snap).validations
    requires KeyOf(ValidationObservation(c.name)) !in Map(Harden(e, snap).observations, KeyOf)
    ensures exists x :: x in e.validations + ValidateAll(SnapshotsOf(e, snap)) && !Foreseen(e, x.name)
  {
    var all := e.validations + ValidateAll(SnapshotsOf(e, snap));
    KeyOfMember(Harden(e, snap).validations, c, NameOf);
    MergedNames(e, snap, c.name);
    var i :| 0 <= i < |all| && Map(all, NameOf)[i] == c.name;
    ObservedExactly(e, snap, c.name);
    assert all[i] in all && !Foreseen(e, all[i].name);
  }

  /**
   One pass is enough exactly when the record given to it foresees every check:
   each recorded result and each result of its artifacts.
   */
  lemma {:induction false} OnePassSettlesExactly(e: Evidence, snap: Snapshots)
    ensures Harden(Harden(e, snap), snap) == Harden(e, snap) <==>
              forall c :: c in e.validations + ValidateAll(SnapshotsOf(e, snap)) ==> Foreseen(e, c.name)
  {
    var once := Harden(e, snap);
    var twice := Harden(once, snap);
    SecondPass(e, snap);
    SecondPassAppends(e, snap);
    if twice == once {
      forall c | c in e.validations + ValidateAll(SnapshotsOf(e, snap))
        ensures Foreseen(e, c.name)
      {
        AllObservedByThen(e, snap, c);
        ObservedExactly(e, snap, c.name);
      }
    } else {
      UncoveredCheck(once, twice.observations);
      var c :| c in once.validations && KeyOf(ValidationObservation(c.name)) !in Map(once.observations, KeyOf);
      Unforeseen(e, snap, c);
    }
  }

  /** A record with one final artifact, nothing observed and nothing checked. */
  function OneArtifact(id: string, goal: string, path: string): Evidence {
    Evidence(
      id, goal, None, Runtime("codex", None), [], [], [], [path], 0, [], Undecided, Undecided,
      Harness(Pass, [], [], [], false), [], [], [], [], None, None)
  }

  /** On such a record two passes differ, whether or not the artifact exists. */
  lemma {:induction false} TwoPassesCanDiffer(id: string, goal: string, path: string, snap: Snapshots)
    requires path != ""
    ensures var e := OneArtifact(id, goal, path);
            Harden(Harden(e, snap), snap) != Harden(e, snap)
  {
    var e := OneArtifact(id, goal, path);
    assert e.files == [] && Filter(e.files, IsArtifactFile) == [];
    assert e.finalArtifacts + Map(Filter(e.files, IsArtifactFile), PathOf) == [path];
    assert path in Filter([path], NonEmpty);
    DedupeNonEmpty(Filter([path], NonEmpty));
    assert SnapshotsOf(e, snap) != [];
    var c := ValidateAll(SnapshotsOf(e, snap))[0];
    assert c in e.validations + ValidateAll(SnapshotsOf(e, snap));
    assert !Foreseen(e, c.name);
    OnePassSettlesExactly(e, snap);
  }

  lemma {:induction false} UncoveredCheck(once: Evidence, more: seq<Observation>)
    requires once.observations <= more && once.observations != more
    requires forall o :: o in more[|once.observations|..] ==>
               && o == ValidationObservation(o.summary)
               && o.summary in Map(once.validations, NameOf)
               && KeyOf(o) !in Map(once.observations, KeyOf)
    ensures exists c :: c in once.validations && KeyOf(ValidationObservation(c.name)) !in Map(once.observations, KeyOf)
  {
    var tail := more[|once.observations|..];
    assert more == once.observations + tail;
    var o := tail[0];
    assert o in tail;
    var i :| 0 <= i < |once.validations| && Map(once.validations, NameOf)[i] == o.summary;
    assert once.validations[i] in once.validations;
  }

  lemma {:induction false} KeysSame(xs: seq<string>)
    ensures Map(xs, Same) == xs
  {
  }

  lemma {:induction false} DedupeNonEmpty(xs: seq<string>)
    ensures FirstWins(xs, Same) == [] <==> xs == []
  {
    FirstWinsKeys(xs, Same);
    if xs != [] {
      assert Map(xs, Same<string>)[0] in Map(FirstWins(xs, Same), Same<string>);
    }
  }

  // ---- The pieces in the record's own fields ---------------------------------

  lemma {:induction false} KeptMember(xs: seq<string>, p: string)
    ensures p in FirstWins(xs, Same) <==> p in xs
  {
    FirstWinsKeys(xs, Same);
    KeysSame(xs);
    KeysSame(FirstWins(xs, Same));
  }

  lemma {:induction false} DedupedMember(xs: seq<string>, p: string)
    ensures p in FirstWins(Filter(xs, NonEmpty), Same) <==> p in xs && p != ""
  {
    KeptMember(Filter(xs, NonEmpty), p);
  }

  /** The inputs and artifacts of a record: the non-empty ones it lists, and those of its files by role. */
  lemma {:induction false} PathsExactly(e: Evidence, p: string)
    ensures p in RequiredInputsOf(e) <==>
              p != "" && (|| p in e.inputContext
                          || exists f :: f in e.files && f.role in {PromptFile, ContextFile} && f.path == p)
    ensures p in ArtifactPaths(e) <==>
              p != "" && (p in e.finalArtifacts || exists f :: f in e.files && f.role == ArtifactFile && f.path == p)
  {
    DedupedMember(e.inputContext + Map(Filter(e.files, IsInputFile), PathOf), p);
    DedupedMember(e.finalArtifacts + Map(Filter(e.files, IsArtifactFile), PathOf), p);
    MapMember(Filter(e.files, IsInputFile), PathOf, p);
    MapMember(Filter(e.files, IsArtifactFile), PathOf, p);
    assert forall f :: f in e.files && f.role in {PromptFile, ContextFile} ==> f in Filter(e.files, IsInputFile);
  }

  /** What a record gives rise to observations of, and in which words. */
  lemma {:induction false} ObservationsExactly(e: Evidence, o: Observation)
    ensures o in ObservationsOf(e) <==>
              || o == Observation(GoalSeen, e.goal, None, None, None)
              || (exists p :: p in RequiredInputsOf(e)
                              && Observation(InputSeen, "captured input " + p, Some(p), None, None) == o)
              || (exists x :: x in e.executions
                              && Observation(CommandSeen, x.command, None, Some(x.command), Some(x.exitCode)) == o)
              || (exists p :: p in ArtifactPaths(e)
                              && Observation(ArtifactSeen, "captured artifact " + p, Some(p), None, None) == o)
              || (o == Observation(ValidationSeen, o.summary, None, None, None) && o.summary in e.harness.checks)
  {
    MapMember(RequiredInputsOf(e), InputObservation, o);
    MapMember(e.executions, CommandObservation, o);
    MapMember(ArtifactPaths(e), ArtifactObservation, o);
    MapMember(e.harness.checks, ValidationObservation, o);
  }

  /** The kinds of observation in the order they are recorded. */
  function KindRank(k: ObservationKind): nat {
    match k
    case GoalSeen => 0
    case InputSeen => 1
    case CommandSeen => 2
    case ArtifactSeen => 3
    case ValidationSeen => 4
    case OtherSeen => 5
  }

  /** Observations go from the goal over inputs, commands and artifacts to validations. */
  lemma {:induction false} ObservationsInOrder(e: Evidence, i: nat, j: nat)
    requires i < j < |ObservationsOf(e)|
    ensures KindRank(ObservationsOf(e)[i].kind) <= KindRank(ObservationsOf(e)[j].kind)
  {
  }

  /** The goal of the contract is the normalized one, if there is one; the rest lists what was found. */
  lemma {:induction false} TaskContractExactly(e: Evidence, snap: Snapshots)
    ensures var h := Harden(e, snap);
            && h.snapshots == Map(ArtifactPaths(e), snap)
            && h.taskContract.Some? && h.taskContract.value.requiredInputs == RequiredInputsOf(e)
            && h.taskContract.value.goal ==
                 (if e.normalizedGoal.Some? && e.normalizedGoal.value != "" then e.normalizedGoal.value else e.goal)
            && |h.contracts| == |h.snapshots|
            && (forall i :: 0 <= i < |h.contracts| ==>
                  && h.contracts[i].path == h.snapshots[i].path && h.contracts[i].kind == h.snapshots[i].kind
                  && h.taskContract.value.expectedArtifacts[i] == h.snapshots[i].path)
  {
  }

  /** The sections reported missing, one by one. */
  lemma {:induction false} MissingExactly(e: Evidence, snap: Snapshots)
    ensures var h := Harden(e, snap);
            var missing := h.quality.value.missing;
            && (RequiredInputs in missing <==> RequiredInputsOf(e) == [])
            && (ArtifactContracts in missing <==> ArtifactPaths(e) == [])
            && (ValidationResults in missing <==> h.validations == [])
            && (PassingValidation in missing <==> exists c :: c in h.validations && c.status == Fail)
  {
    var h := Harden(e, snap);
    QualityExactly(h.taskContract.value, h.contracts, h.validations);
  }

  lemma {:induction false} QualityExactly(t: TaskContract, contracts: seq<ArtifactContract>, results: seq<CheckResult>)
    ensures var missing := Quality(t, contracts, results).missing;
            && (RequiredInputs in missing <==> t.requiredInputs == [])
            && (ArtifactContracts in missing <==> contracts == [])
            && (ValidationResults in missing <==> results == [])
            && (PassingValidation in missing <==> exists c :: c in results && c.status == Fail)
  {
  }

  /** The failures of a hardened harness: those recorded and the messages of the failing results. */
  lemma {:induction false} FailuresExactly(e: Evidence, snap: Snapshots, message: string)
    ensures var h := Harden(e, snap);
            && (message in h.harness.failures <==>
                  || message in e.harness.failures
                  || exists c :: c in h.validations && c.status == Fail && c.message == message)
            && (h.harness.status == Fail <==> h.harness.failures != [] || e.harness.status == Fail)
            && h.harness.humanReview == e.harness.humanReview
  {
    var results := MergedValidations(e, snap);
    var failing := Filter(results, Failing);
    var all := e.harness.failures + Map(failing, MessageOf);
    FirstWinsKeys(all, Same);
    KeysSame(all);
    KeysSame(FirstWins(all, Same));
    MapMember(failing, MessageOf, message);
  }

  // ---- What a hardened record says ------------------------------------------

  /** A fresh result replaces the recorded one of its name; a name that was not checked again keeps its result. */
  lemma {:induction false} FreshResultsWin(e: Evidence, snap: Snapshots, name: string)
    ensures var generated := ValidateAll(SnapshotsOf(e, snap));
            Latest(Harden(e, snap).validations, name, NameOf) ==
              if name in Map(generated, NameOf) then Latest(generated, name, NameOf)
              else Latest(e.validations, name, NameOf)
  {
    var generated := ValidateAll(SnapshotsOf(e, snap));
    LastWinsFacts(e.validations + generated, NameOf);
    LatestOfSum(e.validations, generated, name, NameOf);
  }

  lemma {:induction false} ValidatedOnce(ss: seq<Snapshot>, i: nat, c: CheckResult)
    requires i < |ss| && c in ValidateSnapshot(ss[i])
    ensures c in ValidateAll(ss)
  {
    if i > 0 {
      ValidatedOnce(ss[1..], i - 1, c);
    }
  }

  /** Every check that a contract names has a result, is listed in the task contract and is required by the harness. */
  lemma {:induction false} ContractsAreChecked(e: Evidence, snap: Snapshots, i: nat, name: string)
    requires i < |ContractsOf(SnapshotsOf(e, snap))| && name in ContractsOf(SnapshotsOf(e, snap))[i].checks
    ensures var h := Harden(e, snap);
            && h.contracts == ContractsOf(SnapshotsOf(e, snap))
            && h.taskContract.value.expectedArtifacts[i] == h.contracts[i].path
            && name in Map(h.validations, NameOf)
            && name in h.taskContract.value.checks
            && name in h.harness.checks && name in h.harness.requiredChecks
  {
    var s := SnapshotsOf(e, snap)[i];
    var all := e.validations + ValidateAll(SnapshotsOf(e, snap));
    var j :| 0 <= j < |ValidateSnapshot(s)| && Map(ValidateSnapshot(s), NameOf)[j] == name;
    var c := ValidateSnapshot(s)[j];
    ValidatedOnce(SnapshotsOf(e, snap), i, c);
    KeyOfMember(all, c, NameOf);
    LastWinsFacts(all, NameOf);
    FirstWinsKeys(all, NameOf);
    var results := LastWins(all, NameOf);
    HardenedChecks(e.harness, results, name);
    HardenedRequired(e.harness, results, name);
  }

  lemma {:induction false} HardenedRequired(h: Harness, results: seq<CheckResult>, name: string)
    requires name in Map(results, NameOf)
    ensures name in HardenHarness(h, results).requiredChecks
  {
    var all := h.requiredChecks + Map(results, NameOf);
    FirstWinsKeys(all, Same);
    KeysSame(all);
    KeysSame(FirstWins(all, Same));
  }

  // ---- Quality -------------------------------------------------------------

  /** The check a name ends up with passes: a later result replaces an earlier one of the same name. */
  ghost predicate EveryCheckPasses(results: seq<CheckResult>) {
    forall n :: n in Map(results, NameOf) ==> Latest(results, n, NameOf).value.status == Pass
  }

  lemma {:induction false} MergedPasses(results: seq<CheckResult>)
    ensures (exists c :: c in LastWins(results, NameOf) && Failing(c)) <==> !EveryCheckPasses(results)
  {
    var d := LastWins(results, NameOf);
    LastWinsFacts(results, NameOf);
    FirstWinsKeys(results, NameOf);
    if c :| c in d && Failing(c) {
      var i :| 0 <= i < |d| && d[i] == c;
      LatestWhenUnique(d, i, NameOf);
      assert Map(d, NameOf)[i] == c.name;
    }
    if n :| n in Map(results, NameOf) && Latest(results, n, NameOf).value.status == Fail {
      assert Latest(d, n, NameOf).value in d;
    }
  }

  /**
   A hardened record is strict-ready exactly when it names an input, names an
   artifact, and every check ends up passing: that validation results exist is
   implied by the artifact.
   */
  lemma {:induction false} StrictReadyExactly(e: Evidence, snap: Snapshots)
    ensures var h := Harden(e, snap);
            h.quality.value.strictReady <==>
              && RequiredInputsOf(e) != []
              && ArtifactPaths(e) != []
              && EveryCheckPasses(e.validations + ValidateAll(SnapshotsOf(e, snap)))
  {
    var h := Harden(e, snap);
    var all := e.validations + ValidateAll(SnapshotsOf(e, snap));
    MergedPasses(all);
    MissingEmpty(h.taskContract.value, h.contracts, h.validations);
    if ArtifactPaths(e) != [] {
      MergedNonEmpty(all);
    }
  }

  lemma {:induction false} MissingEmpty(t: TaskContract, contracts: seq<ArtifactContract>, results: seq<CheckResult>)
    ensures Quality(t, contracts, results).strictReady <==> forall s :: !Lacks(t, contracts, results, s)
  {
    var missing := MissingSections(t, contracts, results);
    forall s
      ensures s in missing <==> Lacks(t, contracts, results, s)
    {
    }
    if missing != [] {
      assert missing[0] in missing;
    }
  }

  lemma {:induction false} MergedNonEmpty(results: seq<CheckResult>)
    requires results != []
    ensures LastWins(results, NameOf) != []
  {
    LastWinsFacts(results, NameOf);
    FirstWinsKeys(results, NameOf);
    assert Map(results, NameOf)[0] in Map(LastWins(results, NameOf), NameOf);
  }

  /** The clamp of the score never fires: an absent result cannot also be failing. */
  lemma {:induction false} ScoreIsAtLeastAQuarter(
    t: TaskContract, contracts: seq<ArtifactContract>, results: seq<CheckResult>)
    ensures var q := Quality(t, contracts, results);
            && 25 <= q.score <= 100
            && q.score == 100 - 25 * |q.missing|
            && (q.score == 100 <==> q.strictReady)
  {
  }
}
