/**
 The pipeline with its first two nodes filled in: import captures the run's files
 and commands, naming no final artifacts, and promotion is strict.  A run without
 an artifact file can then never get past promotion.
 */
module PipelineCapture {
  import opened Common
  import opened NodeNames
  import opened Pipeline
  import opened Runs
  import Capture
  import EvidenceRecords
  import Hardening
  import Promotion

  const IMPORT: NodeIndex := 0
  const PROMOTE: NodeIndex := 1

  type Files = seq<EvidenceRecords.CapturedFile>

  /** A record captured for a pipeline run from the given files: no final artifacts are named. */
  ghost predicate PipelineRecord(record: EvidenceRecords.Evidence, files: Files) {
    exists req: Capture.Request, id: string, executions: seq<EvidenceRecords.Execution>, texts: Capture.Texts,
      snap: Hardening.Snapshots ::
      req.finalArtifacts == [] && record == Capture.Captured(req, id, files, executions, texts, snap)
  }

  /** Promotion loads such a record and raises unless it can be promoted. */
  ghost predicate PromotesStrictly(oracle: Oracle, files: Files) {
    forall a: Artifacts ::
      oracle(PROMOTE, a).Finished? ==> exists record :: PipelineRecord(record, files) && Promotion.Promotable(record)
  }

  ghost predicate PromotionRaises(oracle: Oracle) {
    forall a: Artifacts :: oracle(PROMOTE, a).Raised?
  }

  predicate NoArtifactFile(files: Files) {
    forall f :: f in files && f.role == EvidenceRecords.ArtifactFile ==> f.path == ""
  }

  lemma {:induction false} NoArtifactNotPromotable(record: EvidenceRecords.Evidence, files: Files)
    requires PipelineRecord(record, files) && NoArtifactFile(files)
    ensures !Promotion.Promotable(record)
  {
    var req: Capture.Request, id: string, executions: seq<EvidenceRecords.Execution>, texts: Capture.Texts,
      snap: Hardening.Snapshots :|
      req.finalArtifacts == [] && record == Capture.Captured(req, id, files, executions, texts, snap);
    Promotion.CapturedPromotableExactly(req, id, files, executions, texts, snap);
  }

  /** Without an artifact file every promotion raises. */
  lemma {:induction false} NothingToPromote(oracle: Oracle, files: Files)
    requires PromotesStrictly(oracle, files) && NoArtifactFile(files)
    ensures PromotionRaises(oracle)
  {
    forall a: Artifacts
      ensures oracle(PROMOTE, a).Raised?
    {
      if oracle(PROMOTE, a).Finished? {
        var record :| PipelineRecord(record, files) && Promotion.Promotable(record);
        NoArtifactNotPromotable(record, files);
      }
    }
  }

  /** Records of a run that promotion has not let through. */
  ghost predicate AllShort(ws: seq<RunRecord>) {
    forall r :: r in ws ==> |r.completedNodes| <= PROMOTE && r.status != Completed
  }

  /** A working record is one step from import at most; a step of such a process keeps it so. */
  lemma {:induction false} StepStaysShort(rec: RunRecord, oracle: Oracle, body: Body)
    requires body == BodyOf(oracle) && PromotionRaises(oracle)
    requires Working(rec) && |rec.completedNodes| <= PROMOTE
    ensures var step := body(rec, |rec.completedNodes|);
            && AllShort(step.writes)
            && (step.goesOn ==> |rec.completedNodes| == IMPORT)
            && (!step.goesOn ==> step.last.failedNode == Some(Canonical(|rec.completedNodes|)))
  {
    var k := |rec.completedNodes|;
    StepIsSound(rec, oracle);
    var started := StartNode(rec, k);
    NeverMissing(started, k);
    var outcome := oracle(k, started.artifacts);
    if outcome.Finished? {
      LatestIsFresh(started, k, outcome);
      RunNodeProgress(started, k, outcome);
    }
  }

  /** Such a process never completes promotion; it ends failed, at import or at promotion. */
  lemma {:induction false} ProcessStaysShort(rec: RunRecord, i: nat, oracle: Oracle, ws: seq<RunRecord>)
    requires Working(rec) && i <= |rec.completedNodes| <= PROMOTE && PromotionRaises(oracle)
    requires ws == ContinueWrites(rec, i, BodyOf(oracle))
    ensures |ws| > 0 && AllShort(ws)
    ensures ws[|ws| - 1].failedNode in {Some(Canonical(IMPORT)), Some(Canonical(PROMOTE))}
    decreases NODE_COUNT - i
  {
    CompletedIsBelow(rec, |rec.completedNodes|, i);
    if i < |rec.completedNodes| {
      ProcessStaysShort(rec, i + 1, oracle, ws);
    } else {
      var body := BodyOf(oracle);
      BodyIsSound(rec, oracle, body);
      StepStaysShort(rec, oracle, body);
      var step := body(rec, i);
      if step.goesOn {
        ProcessStaysShort(step.last, i + 1, oracle, ContinueWrites(step.last, i + 1, body));
      }
    }
  }

  /** Every resume of the run promotes strictly from captures of the same files. */
  ghost predicate PipelineCommands(cs: seq<Command>, files: Files) {
    forall i :: 0 <= i < |cs| && cs[i].Resume? ==>
      exists oracle: Oracle :: cs[i].body == BodyOf(oracle) && PromotesStrictly(oracle, files)
  }

  lemma {:induction false} CommandStaysShort(disk: RunRecord, c: Command, files: Files)
    requires WellFormed(disk) && |disk.completedNodes| <= PROMOTE
    requires PipelineCommands([c], files) && NoArtifactFile(files)
    ensures AllWellFormed(CommandWrites(disk, c)) && AllShort(CommandWrites(disk, c))
  {
    match c
    case Resume(body, survives) =>
      assert [c][0] == c;
      var oracle: Oracle :| body == BodyOf(oracle) && PromotesStrictly(oracle, files);
      NothingToPromote(oracle, files);
      ResumedWellFormed(disk);
      var rec := Resumed(disk);
      ProcessStaysShort(rec, 0, oracle, ContinueWrites(rec, 0, body));
      ResumeWellFormed(disk, oracle);
      TakeFacts(ResumeWrites(disk, body), survives);
    case Rollback(to, reason) =>
      if TargetIndex(to).Some? {
        RollbackProgress(disk, TargetIndex(to).value, reason);
      }
  }

  lemma {:induction false} HistoryStaysShort(disk: RunRecord, cs: seq<Command>, files: Files)
    requires WellFormed(disk) && |disk.completedNodes| <= PROMOTE
    requires PipelineCommands(cs, files) && NoArtifactFile(files)
    ensures AllShort(HistoryWrites(disk, cs))
    decreases |cs|
  {
    if |cs| > 0 {
      assert PipelineCommands([cs[0]], files) by {
        assert [cs[0]][0] == cs[0];
      }
      CommandStaysShort(disk, cs[0], files);
      HistoryStaysShort(DiskAfter(disk, CommandWrites(disk, cs[0])), cs[1..], files);
    }
  }

  /**
   Over every history of crashes, resumes and rollbacks, a pipeline run that is given
   no artifact file never completes, nor gets past promotion; and an uninterrupted
   process of it ends failed, at import or at promotion.
   */
  lemma {:induction false} NoArtifactNoPromotion(
    start: RunRecord, oracle: Oracle, survives: nat, cs: seq<Command>, files: Files)
    requires start == NewRun(start.id, start.goal, start.config) && survives > 0
    requires PromotesStrictly(oracle, files) && PipelineCommands(cs, files) && NoArtifactFile(files)
    ensures var all := RunWrites(start, BodyOf(oracle));
            var ws := Take(all, survives);
            && AllShort(ws + HistoryWrites(DiskAfter(start, ws), cs))
            && all[|all| - 1].failedNode in {Some(Canonical(IMPORT)), Some(Canonical(PROMOTE))}
  {
    NothingToPromote(oracle, files);
    NewRunWellFormed(start.id, start.goal, start.config);
    var rest := ContinueWrites(start, 0, BodyOf(oracle));
    ContinueSound(start, 0, oracle, rest);
    ProcessStaysShort(start, 0, oracle, rest);
    var ws := Take([start] + rest, survives);
    TakeFacts([start] + rest, survives);
    HistoryStaysShort(DiskAfter(start, ws), cs, files);
  }

  /** It fails at import exactly when capturing raises, or its harness fails and that is not allowed. */
  lemma {:induction false} WhereItFails(start: RunRecord, oracle: Oracle, files: Files)
    requires start == NewRun(start.id, start.goal, start.config)
    requires PromotesStrictly(oracle, files) && NoArtifactFile(files)
    ensures var all := RunWrites(start, BodyOf(oracle));
            var captured := oracle(IMPORT, NO_ARTIFACTS);
            all[|all| - 1].failedNode == Some(Canonical(
              if captured.Raised? || (!captured.healthy && !start.config.allowFailedCapture) then IMPORT else PROMOTE))
  {
    NothingToPromote(oracle, files);
    NewRunWellFormed(start.id, start.goal, start.config);
    var body := BodyOf(oracle);
    StepStaysShort(start, oracle, body);
    BodyIsSound(start, oracle, body);
    CompletedIsBelow(start, 0, 0);
    var step := body(start, 0);
    ImportStep(start, oracle, body);
    var all := RunWrites(start, body);
    if step.goesOn {
      var after := step.last;
      CompletedIsBelow(after, 1, 1);
      BodyIsSound(after, oracle, body);
      StepStaysShort(after, oracle, body);
      var next := body(after, 1);
      assert ContinueWrites(after, 1, body) == next.writes;
      assert all == [start] + (step.writes + next.writes);
      assert all[|all| - 1] == next.last;
    } else {
      assert all == [start] + step.writes;
      assert all[|all| - 1] == step.last;
    }
  }

  lemma {:induction false} ImportStep(start: RunRecord, oracle: Oracle, body: Body)
    requires start == NewRun(start.id, start.goal, start.config) && body == BodyOf(oracle)
    ensures var captured := oracle(IMPORT, NO_ARTIFACTS);
            body(start, 0).goesOn <==> captured.Finished? && (captured.healthy || start.config.allowFailedCapture)
  {
    var started := StartNode(start, 0);
    var captured := oracle(IMPORT, NO_ARTIFACTS);
    if captured.Finished? {
      LatestIsFresh(started, 0, captured);
    }
  }

  /** Without artifacts nothing is validated: the captured harness passes exactly when every command exits with 0. */
  lemma {:induction false} HarnessFollowsCommands(
    req: Capture.Request, id: string, files: Files, executions: seq<EvidenceRecords.Execution>,
    texts: Capture.Texts, snap: Hardening.Snapshots)
    requires req.finalArtifacts == [] && NoArtifactFile(files)
    ensures Capture.Captured(req, id, files, executions, texts, snap).harness.status == EvidenceRecords.Pass <==>
              forall x :: x in executions ==> x.exitCode == 0
  {
    var built := Capture.Built(req, id, files, executions, texts);
    Capture.CapturedArtifacts(req, id, files, executions, texts);
    assert Hardening.ValidateAll(Hardening.SnapshotsOf(built, snap)) == [];
    assert built.validations + [] == [];
    assert Hardening.MergedValidations(built, snap) == [];
    Promotion.HarnessPassesExactly(built.harness, []);
  }
}
