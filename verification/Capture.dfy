/**
 How the capture workflow, the first node of the pipeline, builds, hardens and
 finishes an evidence record.  `normalize` and `exitText` stand for the
 normalisation of a goal and the text of a failure without error output.
 */
module Capture {
  import opened Common
  import opened EvidenceRecords
  import opened OrderedMerge
  import Hardening

  datatype Request = Request(
    goal: string,
    runtime: Runtime,
    finalArtifacts: seq<string>,
    retries: nat,
    interventions: seq<string>,
    outcome: Outcome)

  type Texts = (string -> string, int -> string)

  predicate CommandFailed(x: Execution) { x.exitCode != 0 }

  predicate IsContextFile(f: CapturedFile) { f.role == ContextFile }

  function FailureText(x: Execution, exitText: int -> string): string {
    if x.stderr != "" then x.stderr else exitText(x.exitCode)
  }

  function CommandFailures(executions: seq<Execution>, exitText: int -> string): (r: seq<string>)
    ensures r == [] <==> forall x :: x in executions ==> x.exitCode == 0
  {
    var failed := Filter(executions, CommandFailed);
    assert failed != [] ==> failed[0] in failed;
    Map(failed, (x: Execution) => FailureText(x, exitText))
  }

  /** `_build_evidence`: a command is executed once, so there are executions exactly when commands were given. */
  function Built(
    req: Request, id: string, files: seq<CapturedFile>, executions: seq<Execution>, texts: Texts): Evidence
  {
    var failures := CommandFailures(executions, texts.1);
    Evidence(
      id, req.goal, Some(texts.0(req.goal)), req.runtime,
      Map(Filter(files, IsContextFile), Hardening.PathOf),
      files, executions, req.finalArtifacts, req.retries, req.interventions, req.outcome, req.outcome,
      Harness(
        if failures != [] then Fail else Pass,
        ["files_readable"] + if executions != [] then ["commands_executed"] else [],
        failures,
        ["files_readable"],
        false),
      [], [], [], [], None, None)
  }

  /** `_validate_harness`: once the hardened record has been validated, its harness names the schema check. */
  function SchemaChecked(e: Evidence): Evidence {
    e.(harness := e.harness.(
         checks := e.harness.checks + ["schema_valid"],
         requiredChecks := e.harness.requiredChecks + ["schema_valid"]))
  }

  /** The record that capture stores. */
  function Captured(
    req: Request, id: string, files: seq<CapturedFile>, executions: seq<Execution>, texts: Texts,
    snap: Hardening.Snapshots): Evidence
  {
    SchemaChecked(Hardening.Harden(Built(req, id, files, executions, texts), snap))
  }

  /** What hardening and the schema check leave of the request, the files and the commands. */
  lemma {:induction false} RequestIsCaptured(
    req: Request, id: string, files: seq<CapturedFile>, executions: seq<Execution>, texts: Texts,
    snap: Hardening.Snapshots)
    ensures var e := Captured(req, id, files, executions, texts, snap);
            && e.id == id && e.goal == req.goal && e.normalizedGoal == Some(texts.0(req.goal))
            && e.runtime == req.runtime && e.files == files && e.executions == executions
            && e.finalArtifacts == req.finalArtifacts && e.retries == req.retries
            && e.interventions == req.interventions
            && e.outcome == req.outcome && e.successLabel == req.outcome
            && !e.harness.humanReview
  {
  }

  /** The checks a captured harness lists, and those it requires, beside the results of the artifacts. */
  lemma {:induction false} CapturedChecks(
    req: Request, id: string, files: seq<CapturedFile>, executions: seq<Execution>, texts: Texts,
    snap: Hardening.Snapshots, name: string)
    ensures var e := Captured(req, id, files, executions, texts, snap);
            && (name in e.harness.checks <==>
                  || name == "files_readable" || name == "schema_valid"
                  || (name == "commands_executed" && executions != [])
                  || exists c :: c in e.validations && c.name == name)
            && (name in e.harness.requiredChecks <==>
                  || name == "files_readable" || name == "schema_valid"
                  || exists c :: c in e.validations && c.name == name)
  {
    var built := Built(req, id, files, executions, texts);
    var results := Hardening.MergedValidations(built, snap);
    var names := Map(results, Hardening.NameOf);
    MapMember(results, Hardening.NameOf, name);
    Hardening.KeptMember(built.harness.checks + names, name);
    Hardening.KeptMember(built.harness.requiredChecks + names, name);
  }

  /** Its failures: one for each command that failed, in its own words when it has some, and those of failing checks. */
  lemma {:induction false} CapturedFailures(
    req: Request, id: string, files: seq<CapturedFile>, executions: seq<Execution>, texts: Texts,
    snap: Hardening.Snapshots, message: string)
    ensures var e := Captured(req, id, files, executions, texts, snap);
            && (message in e.harness.failures <==>
                  || (exists x :: x in executions && x.exitCode != 0 &&
                        message == if x.stderr != "" then x.stderr else texts.1(x.exitCode))
                  || exists c :: c in e.validations && c.status == Fail && c.message == message)
            && (e.harness.status == Fail <==> e.harness.failures != [])
  {
    var built := Built(req, id, files, executions, texts);
    Hardening.FailuresExactly(built, snap, message);
    var failed := Filter(executions, CommandFailed);
    MapMember(failed, (x: Execution) => FailureText(x, texts.1), message);
    FailuresStay(built, snap);
  }

  lemma {:induction false} FailuresStay(e: Evidence, snap: Hardening.Snapshots)
    ensures e.harness.failures != [] ==> Hardening.Harden(e, snap).harness.failures != []
  {
    if e.harness.failures != [] {
      Hardening.FailuresExactly(e, snap, e.harness.failures[0]);
    }
  }

  predicate SomeNamed(paths: seq<string>) {
    exists x :: x in paths && x != ""
  }

  predicate SomeFile(files: seq<CapturedFile>, p: CapturedFile -> bool) {
    exists f :: f in files && p(f) && f.path != ""
  }

  lemma {:induction false} SomePath(files: seq<CapturedFile>, p: CapturedFile -> bool)
    ensures SomeNamed(Map(Filter(files, p), Hardening.PathOf)) <==> SomeFile(files, p)
  {
    var chosen := Filter(files, p);
    var paths := Map(chosen, Hardening.PathOf);
    if SomeNamed(paths) {
      var x :| x in paths && x != "";
      var i :| 0 <= i < |paths| && paths[i] == x;
      var f := chosen[i];
      assert f in chosen && f.path == x;
    }
    if SomeFile(files, p) {
      var f :| f in files && p(f) && f.path != "";
      assert f in chosen;
      var i :| 0 <= i < |chosen| && chosen[i] == f;
      assert paths[i] == f.path && paths[i] in paths;
    }
  }

  lemma {:induction false} SomeNonEmpty(xs: seq<string>, ys: seq<string>)
    ensures FirstWins(Filter(xs + ys, Hardening.NonEmpty), Same) != [] <==>
              SomeNamed(xs) || SomeNamed(ys)
  {
    var named := Filter(xs + ys, Hardening.NonEmpty);
    Hardening.DedupeNonEmpty(named);
    if named != [] {
      assert named[0] in named;
      assert named[0] in xs || named[0] in ys;
    }
    if x :| x in xs && x != "" {
      assert x in named;
    }
    if y :| y in ys && y != "" {
      assert y in named;
    }
  }

  /** A captured record has a required input exactly when a context or prompt file with a path was given. */
  lemma {:induction false} CapturedInputs(
    req: Request, id: string, files: seq<CapturedFile>, executions: seq<Execution>, texts: Texts)
    ensures Hardening.RequiredInputsOf(Built(req, id, files, executions, texts)) != [] <==>
              SomeFile(files, Hardening.IsInputFile)
  {
    var e := Built(req, id, files, executions, texts);
    SomeNonEmpty(e.inputContext, Map(Filter(files, Hardening.IsInputFile), Hardening.PathOf));
    SomePath(files, IsContextFile);
    SomePath(files, Hardening.IsInputFile);
    assert forall f :: IsContextFile(f) ==> Hardening.IsInputFile(f);
  }

  /** It has an artifact exactly when one was named, or a file was given as one. */
  lemma {:induction false} CapturedArtifacts(
    req: Request, id: string, files: seq<CapturedFile>, executions: seq<Execution>, texts: Texts)
    ensures Hardening.ArtifactPaths(Built(req, id, files, executions, texts)) != [] <==>
              SomeNamed(req.finalArtifacts) || SomeFile(files, Hardening.IsArtifactFile)
  {
    var e := Built(req, id, files, executions, texts);
    SomeNonEmpty(e.finalArtifacts, Map(Filter(files, Hardening.IsArtifactFile), Hardening.PathOf));
    SomePath(files, Hardening.IsArtifactFile);
  }
}
