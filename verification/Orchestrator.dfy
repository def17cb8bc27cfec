/**
 The orchestrator and rollback commands as they run: they rewrite the run file
 step by step.  Each command is proved to write exactly the records that the
 sequence functions of module Pipeline list.
 */
module Orchestrator {
  import opened Common
  import opened NodeNames
  import opened Runs
  import opened Pipeline
  import CrashResume

  datatype RunError = WorkflowRunNotFound(id: string) | UnknownRollbackNode(name: NodeName)

  datatype RollbackSummary = RollbackSummary(
    status: RunStatus,
    currentNode: NodeName,
    completedNodes: seq<NodeName>,
    clearedArtifacts: seq<NodeIndex>)

  /** What an operator does to an existing run. */
  datatype Operation = ResumeRun(oracle: Oracle) | RollBack(to: NodeName, reason: string)

  /** The same as a command of module Pipeline, one that does not crash. */
  function CommandOf(op: Operation): Command {
    match op
    case ResumeRun(oracle) => Resume(BodyOf(oracle), MAX_WRITES)
    case RollBack(to, reason) => Rollback(to, reason)
  }

  class RunStore {
    /** The run files, by run id. */
    var runs: map<string, RunRecord>
    /** Every record written so far, in order. */
    ghost var written: seq<RunRecord>

    /** Every file holds the record of the run it is named after. */
    ghost predicate Valid()
      reads this
    {
      forall id :: id in runs ==> runs[id].id == id
    }

    constructor ()
      ensures Valid() && runs == map[] && written == []
    {
      runs := map[];
      written := [];
    }

    method WriteWorkflowRun(rec: RunRecord)
      modifies this
      ensures old(Valid()) ==> Valid()
      ensures runs == old(runs)[rec.id := rec]
      ensures written == old(written) + [rec]
    {
      runs := runs[rec.id := rec];
      written := written + [rec];
    }

    /** The body of the loop in `_continue_workflow`, for a node that is not completed. */
    method RunOneNode(
      rec: RunRecord, i: NodeIndex, oracle: Oracle, ghost body: Body)
      returns (current: RunRecord, goesOn: bool)
      requires IsBodyOf(body, oracle)
      modifies this
      ensures var step := body(rec, i);
              && written == old(written) + step.writes && |step.writes| > 0
              && current == step.last && goesOn == step.goesOn
              && current.id == rec.id && runs == old(runs)[rec.id := current]
              && current == written[|written| - 1]
    {
      ghost var step := StepNode(rec, i, oracle);
      assert body(rec, i) == step;
      current := StartNode(rec, i);
      WriteWorkflowRun(current);
      var outcome := oracle(i, current.artifacts);
      var run := RunNode(current, i, outcome);
      if run.Threw? {
        current := FailNode(current, i, run.reason);
        WriteWorkflowRun(current);
        return current, false;
      }
      LatestIsFresh(current, i, outcome);
      current := run.rec;
      var result := LatestNodeResult(current.nodes, Canonical(i)).value;
      WriteWorkflowRun(current);
      if result.status == Fail {
        current := FailNode(current, i, Message(result.message));
        WriteWorkflowRun(current);
        return current, false;
      }
      goesOn := true;
    }

    method ContinueWorkflow(rec: RunRecord, oracle: Oracle, ghost body: Body) returns (last: RunRecord)
      requires IsBodyOf(body, oracle)
      modifies this
      ensures written == old(written) + ContinueWrites(rec, 0, body)
      ensures |written| > |old(written)| && last == written[|written| - 1]
      ensures last.id == rec.id && runs == old(runs)[rec.id := last]
      ensures old(Valid()) ==> Valid()
    {
      var current := rec;
      ghost var done: seq<RunRecord> := [];
      ghost var whole := ContinueWrites(rec, 0, body);
      for i := 0 to NODE_COUNT
        invariant whole == done + ContinueWrites(current, i, body)
        invariant written == old(written) + done
        invariant current.id == rec.id
        invariant |done| > 0 ==> runs == old(runs)[rec.id := current]
        invariant |done| == 0 ==> runs == old(runs)
      {
        if !IsCompleted(current, i) {
          ghost var step := body(current, i);
          ConcatAssoc(old(written), done, step.writes);
          ConcatAssoc(done, step.writes, ContinueWrites(step.last, i + 1, body));
          PutTwice(old(runs), rec.id, current, step.last);
          var goesOn;
          current, goesOn := RunOneNode(current, i, oracle, body);
          done := done + step.writes;
          if !goesOn {
            return current;
          }
        }
      }
      last := Complete(current);
      ConcatAssoc(old(written), done, [last]);
      PutTwice(old(runs), rec.id, current, last);
      WriteWorkflowRun(last);
    }

    method RunOrchestrateWorkflow(id: string, goal: string, config: RunConfig, oracle: Oracle)
      returns (last: RunRecord)
      modifies this
      ensures old(Valid()) ==> Valid()
      ensures written == old(written) + RunWrites(NewRun(id, goal, config), BodyOf(oracle))
      ensures last == written[|written| - 1]
      ensures runs == old(runs)[id := last]
      ensures |written| > |old(written)|
      ensures written[|old(written)|] ==
                RunRecord(id, goal, config, Running, Some(Canonical(0)), [], None, None, [],
                          Artifacts(None, None, None, None, None, None))
    {
      ghost var body := BodyOf(oracle);
      var rec := NewRun(id, goal, config);
      WriteWorkflowRun(rec);
      last := ContinueWorkflow(rec, oracle, body);
      ConcatAssoc(old(written), [rec], ContinueWrites(rec, 0, body));
      PutTwice(old(runs), id, rec, last);
    }

    /** The record is read from the file named `id` and written back to the file named after the record. */
    method RunResumeWorkflow(id: string, oracle: Oracle) returns (r: Result<RunRecord, RunError>)
      modifies this
      ensures old(Valid()) ==> Valid()
      ensures r.Err? <==> id !in old(runs)
      ensures r.Err? ==> r.error == WorkflowRunNotFound(id) && written == old(written) && runs == old(runs)
      ensures r.Ok? ==> written == old(written) + ResumeWrites(old(runs)[id], BodyOf(oracle))
      ensures r.Ok? ==> r.value == DiskAfter(old(runs)[id], ResumeWrites(old(runs)[id], BodyOf(oracle)))
      ensures r.Ok? ==>
                runs == if old(runs)[id].status == Completed then old(runs) else old(runs)[old(runs)[id].id := r.value]
      ensures r.Ok? && WellFormed(old(runs)[id]) && old(runs)[id].status != Completed ==>
                StartsAgain(old(runs)[id], written[|old(written)|..])
      ensures r.Ok? && WellFormed(old(runs)[id]) && old(runs)[id].status != Completed
              && CrashResume.PassingBody(BodyOf(oracle), old(runs)[id].config) ==>
                && |written| > |old(written)|
                && CrashResume.RunsExactly(written[|old(written)| + 1..], |old(runs)[id].completedNodes|)
                && r.value.status == Completed
    {
      if id !in runs {
        return Err(WorkflowRunNotFound(id));
      }
      var rec := runs[id];
      if rec.status == Completed {
        return Ok(rec);
      }
      ghost var body := BodyOf(oracle);
      var resumed := Resumed(rec);
      WriteWorkflowRun(resumed);
      var last := ContinueWorkflow(resumed, oracle, body);
      PutTwice(old(runs), rec.id, resumed, last);
      ConcatAssoc(old(written), [resumed], ContinueWrites(resumed, 0, body));
      ghost var ws := ResumeWrites(rec, body);
      assert written[|old(written)|..] == ws && written[|old(written)| + 1..] == ws[1..];
      if WellFormed(rec) {
        ResumeStarts(rec, oracle);
        if CrashResume.PassingBody(body, rec.config) {
          CrashResume.ResumeRunsTheRest(rec, body, ws);
        }
      }
      r := Ok(last);
    }

    /** The loop of `_artifact_resets`. */
    method ArtifactResets(rec: RunRecord, target: NodeIndex) returns (artifacts: Artifacts, cleared: seq<NodeIndex>)
      ensures artifacts == ResetFrom(rec.artifacts, 0, target)
      ensures cleared == ClearedFrom(rec.artifacts, 0, target)
    {
      artifacts, cleared := rec.artifacts, [];
      for i := 0 to NODE_COUNT
        invariant ResetFrom(artifacts, i, target) == ResetFrom(rec.artifacts, 0, target)
        invariant forall j: NodeIndex :: j >= i ==> artifacts.Get(j) == rec.artifacts.Get(j)
        invariant cleared + ClearedFrom(rec.artifacts, i, target) == ClearedFrom(rec.artifacts, 0, target)
      {
        if i >= target && rec.artifacts.Get(i).Some? {
          artifacts := artifacts.Set(i, None);
          cleared := cleared + [i];
        } else if i >= target {
          ArtifactsExtensional(artifacts.Set(i, None), artifacts);
        }
      }
    }

    method RollbackWorkflow(id: string, to: NodeName, reason: string) returns (r: Result<RollbackSummary, RunError>)
      modifies this
      ensures old(Valid()) ==> Valid()
      ensures r.Ok? <==> id in old(runs) && TargetIndex(to).Some?
      ensures id !in old(runs) ==> r == Err(WorkflowRunNotFound(id))
      ensures r.Err? ==> written == old(written) && runs == old(runs)
      ensures r.Ok? ==> written == old(written) + RollbackWrites(old(runs)[id], to, reason)
      ensures r.Ok? ==>
                && var rec, target := old(runs)[id], TargetIndex(to).value;
                && runs == old(runs)[rec.id := RolledBack(rec, target, reason)]
                && runs[rec.id].status == PendingReview && runs[rec.id].currentNode == Some(Canonical(target))
                && runs[rec.id].nodes == rec.nodes + [NodeResult(RollbackNote(target), Pass, reason, None)]
                && r.value == RollbackSummary(PendingReview, Canonical(target), CompletedBelow(rec, target),
                                              ClearedFrom(rec.artifacts, 0, target))
    {
      if id !in runs {
        return Err(WorkflowRunNotFound(id));
      }
      var rec := runs[id];
      var target := TargetIndex(to);
      if target.None? {
        return Err(UnknownRollbackNode(to));
      }
      RollbackExactly(rec, target.value, reason);
      var artifacts, cleared := ArtifactResets(rec, target.value);
      var rolledBack := RolledBack(rec, target.value, reason).(artifacts := artifacts);
      WriteWorkflowRun(rolledBack);
      r := Ok(RollbackSummary(rolledBack.status, Canonical(target.value), rolledBack.completedNodes, cleared));
    }

    /** One operation writes what the command lists and leaves its last record on disk. */
    method Operate(id: string, op: Operation)
      requires Valid() && id in runs
      modifies this
      ensures Valid()
      ensures written == old(written) + CommandWrites(old(runs)[id], CommandOf(op))
      ensures runs == old(runs)[id := DiskAfter(old(runs)[id], CommandWrites(old(runs)[id], CommandOf(op)))]
    {
      ghost var disk := runs[id];
      match op
      case ResumeRun(oracle) =>
        FewWrites(Resumed(disk), 0, oracle);
        assert CommandWrites(disk, CommandOf(op)) == ResumeWrites(disk, BodyOf(oracle));
        var r := RunResumeWorkflow(id, oracle);
        assert old(runs) == old(runs)[id := disk];
      case RollBack(to, reason) =>
        var r := RollbackWorkflow(id, to, reason);
        assert old(runs) == old(runs)[id := disk];
    }

    /**
     Any sequence of operations on a run performs exactly the history that module
     Pipeline reasons about; so a well-formed run only ever has well-formed files.
     */
    method OperateAll(id: string, ops: seq<Operation>)
      requires Valid() && id in runs
      modifies this
      ensures Valid()
      ensures written == old(written) + HistoryWrites(old(runs)[id], Map(ops, CommandOf))
      ensures runs == old(runs)[id := DiskAfterAll(old(runs)[id], Map(ops, CommandOf))]
      ensures WellFormed(old(runs)[id]) ==> WellFormed(runs[id]) && AllWellFormed(written[|old(written)|..])
    {
      ghost var cs := Map(ops, CommandOf);
      ghost var start := runs[id];
      ghost var done: seq<RunRecord> := [];
      assert runs == runs[id := start];
      for i := 0 to |ops|
        invariant Valid() && id in runs
        invariant HistoryWrites(start, cs) == done + HistoryWrites(runs[id], cs[i..])
        invariant DiskAfterAll(start, cs) == DiskAfterAll(runs[id], cs[i..])
        invariant written == old(written) + done
        invariant runs == old(runs)[id := runs[id]]
      {
        ghost var disk := runs[id];
        ghost var ws := CommandWrites(disk, cs[i]);
        HistoryUnfolds(disk, cs[i..], cs[i], cs[i + 1..]);
        ConcatAssoc(done, ws, HistoryWrites(DiskAfter(disk, ws), cs[i + 1..]));
        ConcatAssoc(old(written), done, ws);
        Operate(id, ops[i]);
        done := done + ws;
      }
      if WellFormed(start) {
        OperationsAreReal(ops);
        HistoryWellFormed(start, cs);
        assert written[|old(written)|..] == done;
      }
    }
  }

  lemma {:induction false} OperationsAreReal(ops: seq<Operation>)
    ensures RealCommands(Map(ops, CommandOf))
  {
    forall i | 0 <= i < |ops| && CommandOf(ops[i]).Resume?
      ensures RealBody(CommandOf(ops[i]).body)
    {
      assert CommandOf(ops[i]).body == BodyOf(ops[i].oracle);
    }
  }
}
