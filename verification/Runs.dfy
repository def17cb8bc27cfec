/**
 The workflow run record and the record transformations of the checkpointed
 pipeline (orchestrate.py) and of rollback (rollback.py).
 */
module Runs {
  import opened Common
  import opened NodeNames

  datatype RunStatus = Running | Completed | Failed | PendingReview

  datatype NodeStatus = Pass | Fail

  datatype NodeResult = NodeResult(name: NodeName, status: NodeStatus, message: string, path: Option<string>)

  /** The artifact id fields of a record, one per node. */
  datatype Artifacts = Artifacts(
    evidenceId: Option<string>,
    capabilityName: Option<string>,
    contextId: Option<string>,
    replayId: Option<string>,
    evalId: Option<string>,
    learningId: Option<string>)
  {
    /** The field that belongs to node i (the table of `_artifact_resets`). */
    function Get(i: NodeIndex): Option<string> {
      match i
      case 0 => evidenceId
      case 1 => capabilityName
      case 2 => contextId
      case 3 => replayId
      case 4 => evalId
      case _ => learningId
    }

    function Set(i: NodeIndex, v: Option<string>): (a: Artifacts)
      ensures a.Get(i) == v
      ensures forall j: NodeIndex :: j != i ==> a.Get(j) == Get(j)
    {
      match i
      case 0 => this.(evidenceId := v)
      case 1 => this.(capabilityName := v)
      case 2 => this.(contextId := v)
      case 3 => this.(replayId := v)
      case 4 => this.(evalId := v)
      case _ => this.(learningId := v)
    }
  }

  const NO_ARTIFACTS := Artifacts(None, None, None, None, None, None)

  /** The six fields determine the record part. */
  lemma {:induction false} ArtifactsExtensional(a: Artifacts, b: Artifacts)
    requires forall i: NodeIndex :: a.Get(i) == b.Get(i)
    ensures a == b
  {
    assert a.Get(0) == b.Get(0);
    assert a.Get(1) == b.Get(1);
    assert a.Get(2) == b.Get(2);
    assert a.Get(3) == b.Get(3);
    assert a.Get(4) == b.Get(4);
    assert a.Get(5) == b.Get(5);
  }

  /** The part of the run configuration that decides control flow. */
  datatype RunConfig = RunConfig(capabilityName: string, allowFailedCapture: bool)

  /** The text of a stage's error or report, or the orchestrator's own missing-value error. */
  datatype FailureReason = Message(text: string) | MissingValue(field: NodeIndex)

  datatype RunRecord = RunRecord(
    id: string,
    goal: string,
    config: RunConfig,
    status: RunStatus,
    currentNode: Option<NodeName>,
    completedNodes: seq<NodeName>,
    failedNode: Option<NodeName>,
    failureReason: Option<FailureReason>,
    nodes: seq<NodeResult>,
    artifacts: Artifacts)

  function NewRun(id: string, goal: string, config: RunConfig): RunRecord {
    RunRecord(id, goal, config, Running, Some(Canonical(0)), [], None, None, [], NO_ARTIFACTS)
  }

  // ---- Nodes ---------------------------------------------------------------

  /**
   What a stage workflow did: it returned a summary (the new artifact's id and
   whether the harness or eval it ran was healthy), or raised an exception the
   orchestrator handles.  Any other exception ends the process, like a crash.
   */
  datatype Outcome =
    | Finished(id: string, healthy: bool, message: string, path: string)
    | Raised(reason: string)

  /** Capture may be told to accept a failed harness; promote, context and learn never report failure. */
  function StatusOf(i: NodeIndex, config: RunConfig, healthy: bool): NodeStatus {
    match i
    case 0 => if !healthy && !config.allowFailedCapture then Fail else Pass
    case 3 => if healthy then Pass else Fail
    case 4 => if healthy then Pass else Fail
    case _ => Pass
  }

  /** The field a node cannot run without (`_required_id`). */
  function RequiredField(i: NodeIndex): Option<NodeIndex> {
    match i
    case 0 => None
    case 1 => Some(0)
    case _ => Some(1)
  }

  predicate RequiredValueMissing(rec: RunRecord, i: NodeIndex) {
    RequiredField(i).Some? && rec.artifacts.Get(RequiredField(i).value).None?
  }

  function CompletedNames(rec: RunRecord): set<NodeName> {
    set n | n in rec.completedNodes :: CanonicalName(n)
  }

  predicate IsCompleted(rec: RunRecord, i: NodeIndex) {
    Canonical(i) in CompletedNames(rec)
  }

  /** `_record_node`: log the result, and list a passing node as completed once. */
  function RecordNode(rec: RunRecord, result: NodeResult): RunRecord {
    rec.(
      completedNodes :=
        if result.status == Pass && result.name !in CompletedNames(rec)
        then rec.completedNodes + [result.name]
        else rec.completedNodes,
      nodes := rec.nodes + [result])
  }

  datatype NodeRun = Ran(rec: RunRecord) | Threw(reason: FailureReason)

  /** The promoted package carries the configured name; every other artifact gets a fresh id. */
  function ArtifactOf(i: NodeIndex, config: RunConfig, id: string): string {
    if i == 1 then config.capabilityName else id
  }

  function RunNode(rec: RunRecord, i: NodeIndex, outcome: Outcome): NodeRun {
    if RequiredValueMissing(rec, i) then Threw(MissingValue(RequiredField(i).value))
    else match outcome
      case Raised(reason) => Threw(Message(reason))
      case Finished(id, healthy, message, path) =>
        Ran(RecordNode(
              rec.(artifacts := rec.artifacts.Set(i, Some(ArtifactOf(i, rec.config, id)))),
              NodeResult(Canonical(i), StatusOf(i, rec.config, healthy), message, Some(path))))
  }

  /** `_latest_node_result`: the last log entry with exactly this name. */
  function LatestNodeResult(nodes: seq<NodeResult>, name: NodeName): Option<NodeResult> {
    if |nodes| == 0 then None
    else if nodes[|nodes| - 1].name == name then Some(nodes[|nodes| - 1])
    else LatestNodeResult(nodes[..|nodes| - 1], name)
  }

  function StartNode(rec: RunRecord, i: NodeIndex): RunRecord {
    rec.(currentNode := Some(Canonical(i)), status := Running)
  }

  function FailNode(rec: RunRecord, i: NodeIndex, reason: FailureReason): RunRecord {
    rec.(status := Failed, currentNode := None, failedNode := Some(Canonical(i)), failureReason := Some(reason))
  }

  function Complete(rec: RunRecord): RunRecord {
    rec.(status := Completed, currentNode := None)
  }

  /** The record a resume writes first (for a run that is not completed). */
  function Resumed(rec: RunRecord): RunRecord {
    rec.(status := Running, failedNode := None, failureReason := None)
  }

  // ---- Rollback ------------------------------------------------------------

  /** Position of a node name after alias resolution; None raises UnknownRollbackNodeError. */
  function TargetIndex(to: NodeName): Option<NodeIndex> {
    match CanonicalName(to)
    case Canonical(i) => Some(i)
    case _ => None
  }

  /** The nodes below `upTo` that are completed, in pipeline order. */
  function CompletedBelow(rec: RunRecord, upTo: nat): (s: seq<NodeName>)
    requires upTo <= NODE_COUNT
    ensures |s| <= upTo
  {
    if upTo == 0 then []
    else
      var front := CompletedBelow(rec, upTo - 1);
      if IsCompleted(rec, upTo - 1) then front + [Canonical(upTo - 1)] else front
  }

  /** The artifact fields from `target` on, reset from field i on. */
  function ResetFrom(a: Artifacts, i: nat, target: NodeIndex): (r: Artifacts)
    requires i <= NODE_COUNT
    ensures forall j: NodeIndex :: r.Get(j) == if j >= i && j >= target then None else a.Get(j)
    decreases NODE_COUNT - i
  {
    if i == NODE_COUNT then a
    else if i >= target then ResetFrom(a.Set(i, None), i + 1, target)
    else ResetFrom(a, i + 1, target)
  }

  /** The set fields among i..6 at or above the target, in order. */
  function ClearedFrom(a: Artifacts, i: nat, target: NodeIndex): seq<NodeIndex>
    requires i <= NODE_COUNT
    decreases NODE_COUNT - i
  {
    if i == NODE_COUNT then []
    else if i >= target && a.Get(i).Some? then [i] + ClearedFrom(a, i + 1, target)
    else ClearedFrom(a, i + 1, target)
  }

  /** The note's message is kept as the reason; its text also repeats the target the name carries. */
  function RolledBack(rec: RunRecord, target: NodeIndex, reason: string): RunRecord {
    rec.(
      status := PendingReview,
      currentNode := Some(Canonical(target)),
      completedNodes := CompletedBelow(rec, target),
      failedNode := None,
      failureReason := None,
      nodes := rec.nodes + [NodeResult(RollbackNote(target), Pass, reason, None)],
      artifacts := ResetFrom(rec.artifacts, 0, target))
  }

  // ---- The shape of a record -----------------------------------------------

  /** completed_nodes is exactly the first k nodes of the pipeline. */
  ghost predicate CompletedPrefix(rec: RunRecord, k: nat) {
    && k <= NODE_COUNT
    && |rec.completedNodes| == k
    && forall j: nat :: j < k ==> rec.completedNodes[j] == Canonical(j)
  }

  /** Every field below k is set and every field above k is unset; field k is free. */
  ghost predicate ArtifactsUpTo(a: Artifacts, k: nat) {
    forall j: NodeIndex :: (j < k ==> a.Get(j).Some?) && (j > k ==> a.Get(j).None?)
  }

  ghost predicate Progress(rec: RunRecord, k: nat) {
    CompletedPrefix(rec, k) && ArtifactsUpTo(rec.artifacts, k)
  }

  /**
   Status, failure fields and current node agree with the progress made.  The
   reason of a failure is a stage's, never a value the orchestrator itself missed.
   */
  ghost predicate StatusFits(rec: RunRecord, k: nat) {
    && (rec.status == Completed ==> k == NODE_COUNT)
    && (rec.status == Failed ==>
          && k < NODE_COUNT && rec.failedNode == Some(Canonical(k))
          && rec.failureReason.Some? && rec.failureReason.value.Message?)
    && (rec.status != Failed ==> rec.failedNode.None? && rec.failureReason.None?)
    && (rec.status in {Completed, Failed} ==> rec.currentNode.None?)
  }

  /** Every completed node has a passing log entry. */
  ghost predicate PassLogged(rec: RunRecord) {
    forall n :: n in rec.completedNodes ==> exists r :: r in rec.nodes && r.name == n && r.status == Pass
  }

  ghost predicate WellFormed(rec: RunRecord) {
    && Progress(rec, |rec.completedNodes|)
    && StatusFits(rec, |rec.completedNodes|)
    && PassLogged(rec)
  }

  /** A record of a process at work. */
  ghost predicate Working(rec: RunRecord) {
    WellFormed(rec) && rec.status == Running
  }

  /** In a well-formed record node i counts as completed exactly below the prefix length. */
  lemma {:induction false} CompletedIsBelow(rec: RunRecord, k: nat, i: NodeIndex)
    requires CompletedPrefix(rec, k)
    ensures IsCompleted(rec, i) <==> i < k
  {
    if i < k {
      assert rec.completedNodes[i] in rec.completedNodes;
      assert CanonicalName(rec.completedNodes[i]) == Canonical(i);
    }
    if IsCompleted(rec, i) {
      var n :| n in rec.completedNodes && CanonicalName(n) == Canonical(i);
      var j :| 0 <= j < |rec.completedNodes| && rec.completedNodes[j] == n;
    }
  }

  /** Nothing required is missing at the first node that is not completed. */
  lemma {:induction false} NeverMissing(rec: RunRecord, k: NodeIndex)
    requires Progress(rec, k)
    ensures !RequiredValueMissing(rec, k)
  {
  }

  /** The entry found for a node is the one its run has just appended. */
  lemma {:induction false} LatestIsFresh(rec: RunRecord, i: NodeIndex, outcome: Outcome)
    requires RunNode(rec, i, outcome).Ran?
    ensures LatestNodeResult(RunNode(rec, i, outcome).rec.nodes, Canonical(i)) ==
            Some(NodeResult(
                   Canonical(i), StatusOf(i, rec.config, outcome.healthy), outcome.message, Some(outcome.path)))
  {
  }

  /** One node run: a pass extends the prefix by this node, anything else keeps it. */
  lemma {:induction false} RunNodeProgress(rec: RunRecord, k: NodeIndex, outcome: Outcome)
    requires Progress(rec, k) && PassLogged(rec) && RunNode(rec, k, outcome).Ran?
    ensures var after := RunNode(rec, k, outcome).rec;
            && PassLogged(after)
            && after.artifacts.Get(k) == Some(ArtifactOf(k, rec.config, outcome.id))
            && (forall j: NodeIndex :: j != k ==> after.artifacts.Get(j) == rec.artifacts.Get(j))
            && if StatusOf(k, rec.config, outcome.healthy) == Pass then Progress(after, k + 1) else Progress(after, k)
  {
    CompletedIsBelow(rec, k, k);
    var after := RunNode(rec, k, outcome).rec;
    var entry := after.nodes[|rec.nodes|];
    assert entry in after.nodes;
    assert CompletedNames(rec) == CompletedNames(rec.(artifacts := after.artifacts));
    forall n | n in after.completedNodes
      ensures exists r :: r in after.nodes && r.name == n && r.status == Pass
    {
      if n in rec.completedNodes {
        var r :| r in rec.nodes && r.name == n && r.status == Pass;
        assert r in after.nodes;
      }
    }
  }

  lemma {:induction false} CompletedBelowIsPrefix(rec: RunRecord, k: nat, upTo: nat)
    requires CompletedPrefix(rec, k) && upTo <= NODE_COUNT
    ensures |CompletedBelow(rec, upTo)| == if upTo < k then upTo else k
    ensures forall j: nat :: j < |CompletedBelow(rec, upTo)| ==> CompletedBelow(rec, upTo)[j] == Canonical(j)
  {
    if upTo > 0 {
      CompletedBelowIsPrefix(rec, k, upTo - 1);
      CompletedIsBelow(rec, k, upTo - 1);
    }
  }

  /** Rolling back a well-formed record to t leaves the first min(t, k) nodes and is well-formed. */
  lemma {:induction false} RollbackProgress(rec: RunRecord, target: NodeIndex, reason: string)
    requires WellFormed(rec)
    ensures WellFormed(RolledBack(rec, target, reason))
    ensures var k := |rec.completedNodes|;
            |RolledBack(rec, target, reason).completedNodes| == if target < k then target else k
  {
    var k := |rec.completedNodes|;
    CompletedBelowIsPrefix(rec, k, target);
    var after := RolledBack(rec, target, reason);
    forall n | n in after.completedNodes
      ensures exists r :: r in after.nodes && r.name == n && r.status == Pass
    {
      var j :| 0 <= j < |after.completedNodes| && after.completedNodes[j] == n;
      assert rec.completedNodes[j] == n;
      assert n in rec.completedNodes;
      var r :| r in rec.nodes && r.name == n && r.status == Pass;
      assert r in after.nodes;
    }
  }

  /** The ids nodes cannot run without: import none, promotion the evidence id, every later node the capability name. */
  lemma {:induction false} RequiresExactly(rec: RunRecord, i: NodeIndex)
    ensures RequiredValueMissing(rec, i) <==>
              (i == 1 && rec.artifacts.evidenceId.None?) || (i >= 2 && rec.artifacts.capabilityName.None?)
  {
  }

  /** The record a rollback writes, field by field. */
  lemma {:induction false} RollbackExactly(rec: RunRecord, t: NodeIndex, reason: string)
    ensures var after := RolledBack(rec, t, reason);
            && after.id == rec.id && after.goal == rec.goal && after.config == rec.config
            && after.status == PendingReview
            && after.currentNode == Some(Canonical(t))
            && after.failedNode == None && after.failureReason == None
            && after.nodes == rec.nodes + [NodeResult(RollbackNote(t), Pass, reason, None)]
            && after.artifacts.evidenceId == (if t <= 0 then None else rec.artifacts.evidenceId)
            && after.artifacts.capabilityName == (if t <= 1 then None else rec.artifacts.capabilityName)
            && after.artifacts.contextId == (if t <= 2 then None else rec.artifacts.contextId)
            && after.artifacts.replayId == (if t <= 3 then None else rec.artifacts.replayId)
            && after.artifacts.evalId == (if t <= 4 then None else rec.artifacts.evalId)
            && after.artifacts.learningId == None
  {
    var a := ResetFrom(rec.artifacts, 0, t);
    assert a.Get(0) == a.evidenceId && a.Get(1) == a.capabilityName && a.Get(2) == a.contextId;
    assert a.Get(3) == a.replayId && a.Get(4) == a.evalId && a.Get(5) == a.learningId;
  }

  /** The cleared list names exactly the set fields at or above the target. */
  lemma {:induction false} ClearedExactly(a: Artifacts, i: nat, target: NodeIndex, j: NodeIndex)
    requires i <= NODE_COUNT
    ensures j in ClearedFrom(a, i, target) <==> j >= i && j >= target && a.Get(j).Some?
    decreases NODE_COUNT - i
  {
    if i < NODE_COUNT {
      ClearedExactly(a, i + 1, target, j);
    }
  }

  /** It lists each field once, in pipeline order. */
  lemma {:induction false} ClearedInOrder(a: Artifacts, i: nat, target: NodeIndex)
    requires i <= NODE_COUNT
    ensures var c := ClearedFrom(a, i, target);
            (forall p :: 0 <= p < |c| ==> c[p] >= i) && forall p, q :: 0 <= p < q < |c| ==> c[p] < c[q]
    decreases NODE_COUNT - i
  {
    if i < NODE_COUNT {
      ClearedInOrder(a, i + 1, target);
    }
  }

  /** Two rollbacks leave the completed nodes and fields of one rollback to the smaller target. */
  lemma {:induction false} RollbackComposes(
    rec: RunRecord, t1: NodeIndex, t2: NodeIndex, why1: string, why2: string, why: string)
    requires WellFormed(rec)
    ensures var twice := RolledBack(RolledBack(rec, t1, why1), t2, why2);
            var once := RolledBack(rec, if t1 < t2 then t1 else t2, why);
            twice.completedNodes == once.completedNodes && twice.artifacts == once.artifacts
  {
    var t := if t1 < t2 then t1 else t2;
    var k := |rec.completedNodes|;
    var first := RolledBack(rec, t1, why1);
    var twice := RolledBack(first, t2, why2);
    var once := RolledBack(rec, t, why);
    RollbackProgress(rec, t1, why1);
    RollbackProgress(first, t2, why2);
    RollbackProgress(rec, t, why);
    assert |twice.completedNodes| == |once.completedNodes|;
    assert forall j: nat :: j < |once.completedNodes| ==> twice.completedNodes[j] == once.completedNodes[j];
    ArtifactsExtensional(twice.artifacts, once.artifacts);
  }
}
