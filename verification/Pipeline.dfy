/**
 The checkpointed pipeline as a program over the run files on disk.
 `ContinueWrites` is the sequence of records one process writes; a crash keeps a
 prefix of it.  The class of module Orchestrator performs these writes step by
 step, and the lemmas about the sequence then hold of every disk state of every run.
 */
module Pipeline {
  import opened Common
  import opened NodeNames
  import opened Runs

  /** What the stage workflow of a node does when it runs against the given artifact ids. */
  type Oracle = (NodeIndex, Artifacts) -> Outcome

  // ---- The writes of one process -------------------------------------------

  /** One pass through the loop body: the records written, the last of them, and whether the loop goes on. */
  datatype NodeStep = NodeStep(writes: seq<RunRecord>, last: RunRecord, goesOn: bool)

  function StepNode(rec: RunRecord, i: NodeIndex, oracle: Oracle): (step: NodeStep)
    ensures 0 < |step.writes| <= 3 && step.writes[|step.writes| - 1] == step.last
  {
    var started := StartNode(rec, i);
    match RunNode(started, i, oracle(i, started.artifacts))
    case Threw(reason) =>
      var failed := FailNode(started, i, reason);
      NodeStep([started, failed], failed, false)
    case Ran(after) =>
      match LatestNodeResult(after.nodes, Canonical(i))
      case None => NodeStep([started], started, false)  // NodeResultMissingError leaves the process
      case Some(result) =>
        if result.status == Fail then
          var failed := FailNode(after, i, Message(result.message));
          NodeStep([started, after, failed], failed, false)
        else NodeStep([started, after], after, true)
  }

  /** The loop body as a value, so that the loop can be studied apart from what nodes do. */
  type Body = (RunRecord, NodeIndex) -> NodeStep

  function BodyOf(oracle: Oracle): Body {
    (rec: RunRecord, i: NodeIndex) => StepNode(rec, i, oracle)
  }

  ghost predicate IsBodyOf(body: Body, oracle: Oracle) {
    forall rec: RunRecord, i: NodeIndex {:trigger StepNode(rec, i, oracle)} :: body(rec, i) == StepNode(rec, i, oracle)
  }

  /** The records written by `_continue_workflow` from node i on. */
  function ContinueWrites(rec: RunRecord, i: nat, body: Body): (ws: seq<RunRecord>)
    requires i <= NODE_COUNT
    decreases NODE_COUNT - i, rec
  {
    if i == NODE_COUNT then [Complete(rec)]
    else if IsCompleted(rec, i) then ContinueWrites(rec, i + 1, body)
    else
      var step := body(rec, i);
      if step.goesOn then step.writes + ContinueWrites(step.last, i + 1, body) else step.writes
  }

  function RunWrites(rec: RunRecord, body: Body): (ws: seq<RunRecord>)
    ensures |ws| > 0
  {
    [rec] + ContinueWrites(rec, 0, body)
  }

  /** A completed run is only summarised; any other is marked running and continued. */
  function ResumeWrites(disk: RunRecord, body: Body): seq<RunRecord> {
    if disk.status == Completed then []
    else [Resumed(disk)] + ContinueWrites(Resumed(disk), 0, body)
  }

  function RollbackWrites(disk: RunRecord, to: NodeName, reason: string): seq<RunRecord> {
    match TargetIndex(to)
    case None => []
    case Some(target) => [RolledBack(disk, target, reason)]
  }

  /** A process writes at most this often. */
  const MAX_WRITES: nat := 20

  lemma {:induction false} FewWrites(rec: RunRecord, i: nat, oracle: Oracle)
    requires i <= NODE_COUNT
    ensures |ContinueWrites(rec, i, BodyOf(oracle))| <= 3 * (NODE_COUNT - i) + 1
    decreases NODE_COUNT - i
  {
    if i < NODE_COUNT {
      if IsCompleted(rec, i) {
        FewWrites(rec, i + 1, oracle);
      } else {
        var step := StepNode(rec, i, oracle);
        assert BodyOf(oracle)(rec, i) == step;
        if step.goesOn {
          FewWrites(step.last, i + 1, oracle);
        }
      }
    }
  }

  // ---- Histories -----------------------------------------------------------

  /** One operator command; a resume may crash after any number of its writes. */
  datatype Command =
    | Resume(body: Body, survives: nat)
    | Rollback(to: NodeName, reason: string)

  /** Every resume runs the pipeline's loop body, each with its own node behaviour. */
  ghost predicate RealCommands(cs: seq<Command>) {
    forall i :: 0 <= i < |cs| && cs[i].Resume? ==> RealBody(cs[i].body)
  }

  ghost predicate RealBody(body: Body) {
    exists oracle: Oracle :: body == BodyOf(oracle)
  }

  function Take<T>(xs: seq<T>, n: nat): seq<T> {
    if n < |xs| then xs[..n] else xs
  }

  function CommandWrites(disk: RunRecord, c: Command): seq<RunRecord> {
    match c
    case Resume(body, survives) => Take(ResumeWrites(disk, body), survives)
    case Rollback(to, reason) => RollbackWrites(disk, to, reason)
  }

  function DiskAfter(disk: RunRecord, ws: seq<RunRecord>): RunRecord {
    if |ws| == 0 then disk else ws[|ws| - 1]
  }

  /** Everything ever written to the run file by these commands, starting from `disk`. */
  function HistoryWrites(disk: RunRecord, cs: seq<Command>): seq<RunRecord>
    decreases |cs|
  {
    if |cs| == 0 then []
    else
      var ws := CommandWrites(disk, cs[0]);
      ws + HistoryWrites(DiskAfter(disk, ws), cs[1..])
  }

  lemma {:induction false} HistoryUnfolds(disk: RunRecord, cs: seq<Command>, c: Command, rest: seq<Command>)
    requires |cs| > 0 && c == cs[0] && rest == cs[1..]
    ensures var d := DiskAfter(disk, CommandWrites(disk, c));
            && HistoryWrites(disk, cs) == CommandWrites(disk, c) + HistoryWrites(d, rest)
            && DiskAfterAll(disk, cs) == DiskAfterAll(d, rest)
  {
  }

  function DiskAfterAll(disk: RunRecord, cs: seq<Command>): RunRecord
    decreases |cs|
  {
    if |cs| == 0 then disk
    else DiskAfterAll(DiskAfter(disk, CommandWrites(disk, cs[0])), cs[1..])
  }

  // ---- Invariants over all histories ---------------------------------------

  ghost predicate AllWellFormed(ws: seq<RunRecord>) {
    forall r :: r in ws ==> WellFormed(r)
  }

  /**
   One pass through the loop body from a working record, at its first uncompleted
   node: every write is well-formed; the loop goes on exactly when one more node is
   completed; otherwise the run has failed, for the reason the stage gave.
   */
  ghost predicate SoundStep(rec: RunRecord, step: NodeStep, oracle: Oracle) {
    && SoundWrites(step.writes, rec, oracle)
    && (step.goesOn ==> Working(step.last) && |step.last.completedNodes| == |rec.completedNodes| + 1)
    && (!step.goesOn ==> step.last.status == Failed && step.last.completedNodes == rec.completedNodes)
  }

  /**
   A record that failed did so at a node whose stage raised exactly this reason, or
   finished unhealthy with this message.  In particular the reason is never one of
   the orchestrator's own: no required value is missing, no log entry is missing.
   */
  ghost predicate HonestFailure(r: RunRecord, oracle: Oracle) {
    r.status == Failed ==>
      exists n: NodeIndex, a: Artifacts ::
        && r.failedNode == Some(Canonical(n))
        && match oracle(n, a)
           case Raised(reason) => r.failureReason == Some(Message(reason))
           case Finished(_, healthy, message, _) =>
             StatusOf(n, r.config, healthy) == Fail && r.failureReason == Some(Message(message))
  }

  lemma {:induction false} StepIsSound(rec: RunRecord, oracle: Oracle)
    requires Working(rec) && |rec.completedNodes| < NODE_COUNT
    ensures SoundStep(rec, StepNode(rec, |rec.completedNodes|, oracle), oracle)
  {
    var k := |rec.completedNodes|;
    var started := StartNode(rec, k);
    var outcome := oracle(k, started.artifacts);
    assert WellFormed(started);
    NeverMissing(started, k);
    match RunNode(started, k, outcome) {
      case Threw(reason) =>
        assert WellFormed(FailNode(started, k, reason));
      case Ran(after) =>
        LatestIsFresh(started, k, outcome);
        RunNodeProgress(started, k, outcome);
        assert WellFormed(after);
    }
  }

  /** Sound writes of one process: well-formed records of its run that fail only for a stage's reason. */
  ghost predicate SoundWrites(ws: seq<RunRecord>, rec: RunRecord, oracle: Oracle) {
    AllWellFormed(ws) && forall r :: r in ws ==> r.id == rec.id && r.config == rec.config && HonestFailure(r, oracle)
  }

  lemma {:induction false} SoundConcat(
    first: seq<RunRecord>, rest: seq<RunRecord>, rec: RunRecord, last: RunRecord, oracle: Oracle)
    requires SoundWrites(first, rec, oracle) && SoundWrites(rest, last, oracle)
    requires last.id == rec.id && last.config == rec.config
    ensures SoundWrites(first + rest, rec, oracle)
  {
  }

  /**
   One pass through the loop body in terms of the record's fields and what the stage
   did.  An unhealthy summary fails the run at import, unless that is allowed, at
   verification and at evaluation; the other three nodes pass whenever they return.
   */
  lemma {:induction false} StepExactly(rec: RunRecord, oracle: Oracle)
    requires Working(rec) && |rec.completedNodes| < NODE_COUNT
    ensures var k := |rec.completedNodes|;
            var step := StepNode(rec, k, oracle);
            && step.writes[0] == rec.(currentNode := Some(Canonical(k)))
            && match oracle(k, rec.artifacts)
               case Raised(reason) =>
                 && !step.goesOn && |step.writes| == 2
                 && step.last == rec.(status := Failed, currentNode := None, failedNode := Some(Canonical(k)),
                                      failureReason := Some(Message(reason)))
               case Finished(id, healthy, message, path) =>
                 && (step.goesOn <==>
                       k == 1 || k == 2 || k == 5 || healthy || (k == 0 && rec.config.allowFailedCapture))
                 && step.last.nodes ==
                      rec.nodes + [NodeResult(Canonical(k), if step.goesOn then Pass else Fail, message, Some(path))]
                 && step.last.artifacts == rec.artifacts.Set(k, Some(if k == 1 then rec.config.capabilityName else id))
                 && (step.goesOn ==>
                       && |step.writes| == 2
                       && step.last.completedNodes == rec.completedNodes + [Canonical(k)] && step.last.status == Running
                       && step.last.currentNode == Some(Canonical(k)))
                 && (!step.goesOn ==>
                       && |step.writes| == 3
                       && step.writes[1] == step.last.(status := Running, currentNode := Some(Canonical(k)),
                                                       failedNode := None, failureReason := None)
                       && step.last.currentNode == None
                       && step.last.completedNodes == rec.completedNodes && step.last.status == Failed
                       && step.last.failedNode == Some(Canonical(k))
                       && step.last.failureReason == Some(Message(message)))
  {
    var k := |rec.completedNodes|;
    var started := StartNode(rec, k);
    var outcome := oracle(k, started.artifacts);
    NeverMissing(started, k);
    if outcome.Finished? {
      LatestIsFresh(started, k, outcome);
      RunNodeProgress(started, k, outcome);
      CompletedIsBelow(started.(artifacts := RunNode(started, k, outcome).rec.artifacts), k, k);
    }
  }

  lemma {:induction false} BodyIsSound(rec: RunRecord, oracle: Oracle, body: Body)
    requires body == BodyOf(oracle)
    requires Working(rec) && |rec.completedNodes| < NODE_COUNT
    ensures var step := body(rec, |rec.completedNodes|);
            && SoundStep(rec, step, oracle)
            && |step.writes| > 0 && step.writes[|step.writes| - 1] == step.last
  {
    StepIsSound(rec, oracle);
  }

  ghost predicate Settled(ws: seq<RunRecord>) {
    |ws| > 0 && ws[|ws| - 1].status in {Completed, Failed}
  }

  /** Every write of a process keeps the record well-formed, whatever the nodes do. */
  lemma {:induction false} ContinueSound(rec: RunRecord, i: nat, oracle: Oracle, ws: seq<RunRecord>)
    requires Working(rec) && i <= |rec.completedNodes|
    requires ws == ContinueWrites(rec, i, BodyOf(oracle))
    ensures SoundWrites(ws, rec, oracle) && Settled(ws)
    decreases NODE_COUNT - i, 1
  {
    if i < NODE_COUNT {
      CompletedIsBelow(rec, |rec.completedNodes|, i);
      if i < |rec.completedNodes| {
        ContinueSound(rec, i + 1, oracle, ws);
      } else {
        FromStepSound(rec, oracle, BodyOf(oracle), ws);
      }
    }
  }

  lemma {:induction false} FromStepSound(rec: RunRecord, oracle: Oracle, body: Body, ws: seq<RunRecord>)
    requires body == BodyOf(oracle)
    requires Working(rec) && |rec.completedNodes| < NODE_COUNT
    requires var step := body(rec, |rec.completedNodes|);
             ws == step.writes
                   + if step.goesOn then ContinueWrites(step.last, |rec.completedNodes| + 1, body) else []
    ensures SoundWrites(ws, rec, oracle) && Settled(ws)
    decreases NODE_COUNT - |rec.completedNodes|, 0
  {
    var k := |rec.completedNodes|;
    BodyIsSound(rec, oracle, body);
    var step := body(rec, k);
    if step.goesOn {
      var rest := ContinueWrites(step.last, k + 1, body);
      ContinueSound(step.last, k + 1, oracle, rest);
      SoundConcat(step.writes, rest, rec, step.last, oracle);
    } else {
      assert ws == step.writes;
    }
  }

  lemma {:induction false} NewRunWellFormed(id: string, goal: string, config: RunConfig)
    ensures WellFormed(NewRun(id, goal, config))
  {
  }

  lemma {:induction false} ResumedWellFormed(disk: RunRecord)
    requires WellFormed(disk) && disk.status != Completed
    ensures WellFormed(Resumed(disk))
  {
  }

  /** The two records every resume of an uncompleted run begins with. */
  ghost predicate StartsAgain(disk: RunRecord, ws: seq<RunRecord>) {
    var k := |disk.completedNodes|;
    && |ws| >= 2
    && ws[0] == disk.(status := Running, failedNode := None, failureReason := None)
    && ws[1] == if k < NODE_COUNT then ws[0].(currentNode := Some(Canonical(k)))
                else ws[0].(status := Completed, currentNode := None)
  }

  /**
   A resume of an uncompleted run, failed or not, clears the failure, marks the run
   running and starts its first uncompleted node, whatever that node then does.
   */
  lemma {:induction false} ResumeStarts(disk: RunRecord, oracle: Oracle)
    requires WellFormed(disk) && disk.status != Completed
    ensures StartsAgain(disk, ResumeWrites(disk, BodyOf(oracle)))
  {
    var rec, k := Resumed(disk), |disk.completedNodes|;
    StartsAt(rec, 0, oracle);
  }

  lemma {:induction false} StartsAt(rec: RunRecord, i: nat, oracle: Oracle)
    requires Working(rec) && i <= |rec.completedNodes|
    ensures var ws := ContinueWrites(rec, i, BodyOf(oracle));
            && |ws| > 0
            && var k := |rec.completedNodes|;
               ws[0] == if k < NODE_COUNT then rec.(currentNode := Some(Canonical(k)))
                        else rec.(status := Completed, currentNode := None)
    decreases NODE_COUNT - i
  {
    if i < NODE_COUNT {
      CompletedIsBelow(rec, |rec.completedNodes|, i);
      if i < |rec.completedNodes| {
        StartsAt(rec, i + 1, oracle);
      } else {
        assert BodyOf(oracle)(rec, i) == StepNode(rec, i, oracle);
      }
    }
  }

  /** An uncrashed resume of a well-formed run leaves it completed or failed, and well-formed. */
  lemma {:induction false} ResumeSettles(disk: RunRecord, oracle: Oracle)
    requires WellFormed(disk)
    ensures var last := DiskAfter(disk, ResumeWrites(disk, BodyOf(oracle)));
            WellFormed(last) && last.status in {Completed, Failed}
  {
    if disk.status != Completed {
      ResumedWellFormed(disk);
      ContinueSound(Resumed(disk), 0, oracle, ContinueWrites(Resumed(disk), 0, BodyOf(oracle)));
    }
  }

  lemma {:induction false} ResumeWellFormed(disk: RunRecord, oracle: Oracle)
    requires WellFormed(disk)
    ensures AllWellFormed(ResumeWrites(disk, BodyOf(oracle)))
  {
    if disk.status != Completed {
      ResumedWellFormed(disk);
      ContinueSound(Resumed(disk), 0, oracle, ContinueWrites(Resumed(disk), 0, BodyOf(oracle)));
    }
  }

  lemma {:induction false} TakeFacts<T(!new)>(xs: seq<T>, n: nat)
    ensures forall x :: x in Take(xs, n) ==> x in xs
  {
  }

  lemma {:induction false} CommandWellFormed(disk: RunRecord, c: Command)
    requires WellFormed(disk) && RealCommands([c])
    ensures AllWellFormed(CommandWrites(disk, c))
    ensures WellFormed(DiskAfter(disk, CommandWrites(disk, c)))
  {
    match c
    case Resume(body, survives) =>
      assert [c][0] == c;
      var oracle: Oracle :| body == BodyOf(oracle);
      ResumeWellFormed(disk, oracle);
      TakeFacts(ResumeWrites(disk, body), survives);
    case Rollback(to, reason) =>
      if TargetIndex(to).Some? {
        RollbackProgress(disk, TargetIndex(to).value, reason);
      }
  }

  /**
   Safety over all histories: from a well-formed record, any sequence of resumes
   (with any node behaviour, crashing after any write) and rollbacks only ever
   writes well-formed records.
   */
  lemma {:induction false} HistoryWellFormed(disk: RunRecord, cs: seq<Command>)
    requires WellFormed(disk) && RealCommands(cs)
    ensures AllWellFormed(HistoryWrites(disk, cs))
    ensures WellFormed(DiskAfterAll(disk, cs))
    decreases |cs|
  {
    if |cs| > 0 {
      CommandWellFormed(disk, cs[0]);
      HistoryWellFormed(DiskAfter(disk, CommandWrites(disk, cs[0])), cs[1..]);
    }
  }

  /**
   The same for a run from its first write on: the original process crashes after
   `survives` of its writes (at least the first), then the commands follow.
   */
  lemma {:induction false} EveryRecordWellFormed(start: RunRecord, oracle: Oracle, survives: nat, cs: seq<Command>)
    requires start == NewRun(start.id, start.goal, start.config)
    requires survives > 0 && RealCommands(cs)
    ensures var ws := Take(RunWrites(start, BodyOf(oracle)), survives);
            AllWellFormed(ws + HistoryWrites(DiskAfter(start, ws), cs))
  {
    NewRunWellFormed(start.id, start.goal, start.config);
    ContinueSound(start, 0, oracle, ContinueWrites(start, 0, BodyOf(oracle)));
    var ws := Take(RunWrites(start, BodyOf(oracle)), survives);
    TakeFacts(RunWrites(start, BodyOf(oracle)), survives);
    assert AllWellFormed(ws);
    HistoryWellFormed(DiskAfter(start, ws), cs);
  }
}
