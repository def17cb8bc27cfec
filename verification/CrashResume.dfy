/**
 Resuming is invisible: what a run persists does not depend on where it crashed,
 and the artifacts it ends with do not depend on what failed or was rolled back.
 */
module CrashResume {
  import opened Common
  import opened NodeNames
  import opened Runs
  import opened Pipeline

  /** Every node passes; what it produces is a function of the node and the artifact ids. */
  ghost predicate AllPass(oracle: Oracle, config: RunConfig) {
    forall i: NodeIndex, a: Artifacts ::
      oracle(i, a).Finished? && StatusOf(i, config, oracle(i, a).healthy) == Pass
  }

  /** The loop starts working at the first node that is not completed. */
  lemma {:induction false} SkipsCompleted(rec: RunRecord, i: nat, body: Body)
    requires CompletedPrefix(rec, |rec.completedNodes|) && i <= |rec.completedNodes|
    ensures ContinueWrites(rec, i, body) == ContinueWrites(rec, |rec.completedNodes|, body)
    decreases |rec.completedNodes| - i
  {
    if i < |rec.completedNodes| {
      CompletedIsBelow(rec, |rec.completedNodes|, i);
      SkipsCompleted(rec, i + 1, body);
    }
  }

  /** A working record of the given configuration with k nodes done. */
  ghost predicate At(rec: RunRecord, config: RunConfig, k: nat) {
    Working(rec) && rec.config == config && |rec.completedNodes| == k
  }

  /**
   A body whose step at the first uncompleted node checkpoints the node, then its
   pass; repeating the step from the first checkpoint gives the same step.
   */
  ghost predicate PassingStep(body: Body, rec: RunRecord, config: RunConfig, k: NodeIndex) {
    var step := body(rec, k);
    && step.goesOn
    && step.writes == [StartNode(rec, k), step.last]
    && At(step.last, config, k + 1)
    && LogsPass(rec.nodes, step.last.nodes, k)
    && body(StartNode(rec, k), k) == step
  }

  /** The later log is the earlier one and a pass of node k. */
  ghost predicate LogsPass(before: seq<NodeResult>, after: seq<NodeResult>, k: NodeIndex) {
    && |after| == |before| + 1 && before == after[..|before|]
    && after[|before|].name == Canonical(k) && after[|before|].status == Pass
  }

  ghost predicate PassingBody(body: Body, config: RunConfig) {
    forall rec: RunRecord, k: NodeIndex :: At(rec, config, k) ==> PassingStep(body, rec, config, k)
  }

  lemma {:induction false} AllPassStep(oracle: Oracle, rec: RunRecord, config: RunConfig, k: NodeIndex)
    requires AllPass(oracle, config) && At(rec, config, k)
    ensures PassingStep(BodyOf(oracle), rec, config, k)
  {
    var started := StartNode(rec, k);
    var outcome := oracle(k, started.artifacts);
    CompletedIsBelow(rec, k, k);
    NeverMissing(started, k);
    LatestIsFresh(started, k, outcome);
    RunNodeProgress(started, k, outcome);
    var step := StepNode(rec, k, oracle);
    assert BodyOf(oracle)(rec, k) == step;
    assert StartNode(started, k) == started;
    assert BodyOf(oracle)(started, k) == StepNode(started, k, oracle) == step;
  }

  lemma {:induction false} AllPassGivesPassingBody(oracle: Oracle, config: RunConfig)
    requires AllPass(oracle, config)
    ensures PassingBody(BodyOf(oracle), config)
  {
    var body := BodyOf(oracle);
    forall rec: RunRecord, k: NodeIndex | At(rec, config, k)
      ensures PassingStep(body, rec, config, k)
    {
      AllPassStep(oracle, rec, config, k);
    }
  }

  /** The loop from its first uncompleted node: one step, then the loop from its result. */
  lemma {:induction false} LoopUnfolds(rec: RunRecord, body: Body, config: RunConfig, k: NodeIndex)
    requires At(rec, config, k) && PassingStep(body, rec, config, k)
    ensures ContinueWrites(rec, 0, body) ==
            [StartNode(rec, k), body(rec, k).last] + ContinueWrites(body(rec, k).last, 0, body)
  {
    SkipsCompleted(rec, 0, body);
    CompletedIsBelow(rec, k, k);
    SkipsCompleted(body(rec, k).last, 0, body);
  }

  /**
   Step s of a passing schedule `ws` that starts with k nodes done: it checkpoints
   node k + s, then that node's pass, and continuing from either of the two records
   writes the rest of the very same schedule.
   */
  ghost predicate ScheduledStep(ws: seq<RunRecord>, k: nat, config: RunConfig, body: Body, s: nat)
    requires 2 * s + 2 < |ws| && k + s < NODE_COUNT
  {
    && At(ws[2 * s], config, k + s)
    && ws[2 * s].currentNode == Some(Canonical(k + s))
    && ContinueWrites(ws[2 * s], 0, body) == ws[2 * s..]
    && At(ws[2 * s + 1], config, k + s + 1)
    && ContinueWrites(ws[2 * s + 1], 0, body) == ws[2 * s + 2..]
  }

  /** Two writes per remaining node, then the completed record. */
  ghost predicate Scheduled(ws: seq<RunRecord>, k: nat, config: RunConfig, body: Body) {
    && k <= NODE_COUNT
    && |ws| == 2 * (NODE_COUNT - k) + 1
    && (forall s: nat :: s < NODE_COUNT - k ==> ScheduledStep(ws, k, config, body, s))
    && ws[|ws| - 1].status == Completed && WellFormed(ws[|ws| - 1])
  }

  lemma {:induction false} StepShifts(
    first: RunRecord, after: RunRecord, rest: seq<RunRecord>, k: nat, config: RunConfig, body: Body, s: nat)
    requires k + 1 + s < NODE_COUNT && 2 * s + 2 < |rest| && ScheduledStep(rest, k + 1, config, body, s)
    ensures ScheduledStep([first, after] + rest, k, config, body, s + 1)
  {
    var ws := [first, after] + rest;
    assert ws[2 * (s + 1)] == rest[2 * s] && ws[2 * (s + 1) + 1] == rest[2 * s + 1];
    assert ws[2 * (s + 1)..] == rest[2 * s..] && ws[2 * (s + 1) + 2..] == rest[2 * s + 2..];
  }

  lemma {:induction false} ScheduleExtends(
    first: RunRecord, after: RunRecord, rest: seq<RunRecord>, k: nat, config: RunConfig, body: Body)
    requires k < NODE_COUNT && Scheduled(rest, k + 1, config, body)
    requires ScheduledStep([first, after] + rest, k, config, body, 0)
    ensures Scheduled([first, after] + rest, k, config, body)
  {
    var ws := [first, after] + rest;
    forall s: nat | s < NODE_COUNT - k
      ensures ScheduledStep(ws, k, config, body, s)
    {
      if s > 0 {
        StepShifts(first, after, rest, k, config, body, s - 1);
      }
    }
  }

  lemma {:induction false} FirstStep(
    first: RunRecord, after: RunRecord, rest: seq<RunRecord>, k: nat, config: RunConfig, body: Body)
    requires k < NODE_COUNT && |rest| > 0
    requires At(first, config, k) && first.currentNode == Some(Canonical(k)) && At(after, config, k + 1)
    requires ContinueWrites(first, 0, body) == [first, after] + rest
    requires ContinueWrites(after, 0, body) == rest
    ensures ScheduledStep([first, after] + rest, k, config, body, 0)
  {
    var ws := [first, after] + rest;
    assert ws[2..] == rest && ws[0..] == ws;
  }

  /** A process whose nodes all pass follows the schedule. */
  lemma {:induction false} PassingSchedule(rec: RunRecord, config: RunConfig, body: Body, ws: seq<RunRecord>)
    requires At(rec, config, |rec.completedNodes|) && PassingBody(body, config)
    requires ws == ContinueWrites(rec, 0, body)
    ensures Scheduled(ws, |rec.completedNodes|, config, body)
    decreases NODE_COUNT - |rec.completedNodes|
  {
    var k := |rec.completedNodes|;
    if k == NODE_COUNT {
      SkipsCompleted(rec, 0, body);
    } else {
      var first, after := StartNode(rec, k), body(rec, k).last;
      assert PassingStep(body, rec, config, k);
      assert At(first, config, k) && StartNode(first, k) == first;
      assert PassingStep(body, first, config, k);
      LoopUnfolds(rec, body, config, k);
      LoopUnfolds(first, body, config, k);
      var rest := ContinueWrites(after, 0, body);
      PassingSchedule(after, config, body, rest);
      FirstStep(first, after, rest, k, config, body);
      ScheduleExtends(first, after, rest, k, config, body);
    }
  }

  lemma {:induction false} LogExtendsByOne(
    before: seq<NodeResult>, mid: seq<NodeResult>, after: seq<NodeResult>, k: NodeIndex)
    requires LogsPass(before, mid, k) && LogExtends(mid, after, k + 1)
    ensures LogExtends(before, after, k)
  {
    assert after[|before|] == mid[|before|];
    assert forall j :: 0 <= j < |before| ==> before[j] == mid[..|before|][j] == mid[j] == after[j];
    forall j: NodeIndex | j >= k
      ensures after[|before| + j - k].name == Canonical(j) && after[|before| + j - k].status == Pass
    {
      if j > k {
        assert after[|mid| + j - (k + 1)] == after[|before| + j - k];
      }
    }
  }

  /** Such a process logs each remaining node exactly once, in order, and nothing else. */
  lemma {:induction false} PassingLog(rec: RunRecord, config: RunConfig, body: Body, ws: seq<RunRecord>)
    requires At(rec, config, |rec.completedNodes|) && PassingBody(body, config)
    requires ws == ContinueWrites(rec, 0, body)
    ensures |ws| > 0 && LogExtends(rec.nodes, ws[|ws| - 1].nodes, |rec.completedNodes|)
    decreases NODE_COUNT - |rec.completedNodes|
  {
    var k := |rec.completedNodes|;
    if k == NODE_COUNT {
      SkipsCompleted(rec, 0, body);
    } else {
      var after := body(rec, k).last;
      assert PassingStep(body, rec, config, k);
      LoopUnfolds(rec, body, config, k);
      var rest := ContinueWrites(after, 0, body);
      PassingLog(after, config, body, rest);
      assert ws[|ws| - 1] == rest[|rest| - 1];
      LogExtendsByOne(rec.nodes, after.nodes, ws[|ws| - 1].nodes, k);
    }
  }

  /** The later log adds to the earlier one exactly one pass of each node from k on, in order. */
  ghost predicate LogExtends(before: seq<NodeResult>, after: seq<NodeResult>, k: nat) {
    && before <= after
    && |after| == |before| + NODE_COUNT - k
    && forall j: NodeIndex :: j >= k ==>
         var r := after[|before| + j - k];
         r.name == Canonical(j) && r.status == Pass
  }

  /** A resume that crashes after `survives` writes. */
  function CrashedResumes(body: Body, survives: seq<nat>): seq<Command> {
    seq(|survives|, i requires 0 <= i < |survives| => Resume(body, survives[i]))
  }

  lemma {:induction false} CrashedResumesTail(body: Body, survives: seq<nat>, last: Command)
    requires |survives| > 0
    ensures var cs := CrashedResumes(body, survives) + [last];
            cs[0] == Resume(body, survives[0]) && cs[1..] == CrashedResumes(body, survives[1..]) + [last]
  {
    assert CrashedResumes(body, survives)[1..] == CrashedResumes(body, survives[1..]);
  }

  /** A record of the schedule, resumed without a crash, rewrites the rest of the schedule. */
  lemma {:induction false} ResumeFollowsSchedule(
    full: seq<RunRecord>, k: nat, config: RunConfig, body: Body, m: nat, ws: seq<RunRecord>)
    requires Scheduled(full, k, config, body) && m < |full|
    requires ws == ResumeWrites(full[m], body)
    ensures forall r :: r in ws ==> r in full
    ensures |ws| == 0 ==> m == |full| - 1
    ensures |ws| > 0 ==> ws[|ws| - 1] == full[|full| - 1]
    ensures |ws| <= |full| + 1
  {
    var disk := full[m];
    if m < |full| - 1 {
      var s := m / 2;
      assert ScheduledStep(full, k, config, body, s);
      assert Resumed(disk) == disk;
      var next := if m == 2 * s then m else m + 1;
      assert ws == [disk] + full[next..];
    }
  }

  /** One crashed resume on a record of the uninterrupted run writes records of that run only. */
  lemma {:induction false} ResumeStaysOnSchedule(
    start: RunRecord, body: Body, disk: RunRecord, survives: nat, full: seq<RunRecord>)
    requires full == ContinueWrites(start, 0, body)
    requires Scheduled(full, |start.completedNodes|, start.config, body) && Working(start)
    requires disk in [start] + full
    ensures forall r :: r in CommandWrites(disk, Resume(body, survives)) ==> r in [start] + full
    ensures var d := DiskAfter(disk, CommandWrites(disk, Resume(body, survives)));
            d in [start] + full && (survives > |full| ==> d == full[|full| - 1])
  {
    var ws := ResumeWrites(disk, body);
    if disk == start {
      assert Resumed(disk) == disk;
      assert ws == [disk] + full;
    } else {
      var m :| 0 <= m < |full| && full[m] == disk;
      ResumeFollowsSchedule(full, |start.completedNodes|, start.config, body, m, ws);
    }
    assert forall r :: r in ws ==> r in [start] + full;
    assert forall r :: r in Take(ws, survives) ==> r in ws;
  }

  lemma {:induction false} HistoryCons(disk: RunRecord, c: Command, rest: seq<Command>)
    ensures var d := DiskAfter(disk, CommandWrites(disk, c));
            && HistoryWrites(disk, [c] + rest) == CommandWrites(disk, c) + HistoryWrites(d, rest)
            && DiskAfterAll(disk, [c] + rest) == DiskAfterAll(d, rest)
  {
    assert ([c] + rest)[1..] == rest;
  }

  lemma {:induction false} CrashesStayOnSchedule(
    start: RunRecord, body: Body, disk: RunRecord, survives: seq<nat>, last: nat, full: seq<RunRecord>)
    requires full == ContinueWrites(start, 0, body)
    requires Scheduled(full, |start.completedNodes|, start.config, body) && Working(start)
    requires disk in [start] + full && last > |full|
    ensures var cs := CrashedResumes(body, survives) + [Resume(body, last)];
            && (forall r :: r in HistoryWrites(disk, cs) ==> r in [start] + full)
            && DiskAfterAll(disk, cs) == full[|full| - 1]
    decreases |survives|
  {
    if |survives| > 0 {
      var c := Resume(body, survives[0]);
      ResumeStaysOnSchedule(start, body, disk, survives[0], full);
      CrashedResumesTail(body, survives, Resume(body, last));
      var rest := CrashedResumes(body, survives[1..]) + [Resume(body, last)];
      assert CrashedResumes(body, survives) + [Resume(body, last)] == [c] + rest;
      HistoryCons(disk, c, rest);
      CrashesStayOnSchedule(start, body, DiskAfter(disk, CommandWrites(disk, c)), survives[1..], last, full);
    } else {
      var c := Resume(body, last);
      ResumeStaysOnSchedule(start, body, disk, last, full);
      assert CrashedResumes(body, survives) + [c] == [c] + [];
      HistoryCons(disk, c, []);
    }
  }

  /**
   Crash refinement: a passing run that crashes after its first write or later, is
   resumed, crashes again anywhere, and so on, only ever persists records of the
   uninterrupted run, and one uncrashed resume makes it end exactly like that run.
   */
  lemma {:induction false} CrashesAreInvisible(start: RunRecord, body: Body, whole: seq<RunRecord>,
                                               disk: RunRecord, survives: seq<nat>, last: nat)
    requires Working(start) && PassingBody(body, start.config)
    requires whole == RunWrites(start, body)
    requires disk in whole && last >= |whole|
    ensures var cs := CrashedResumes(body, survives) + [Resume(body, last)];
            && (forall r :: r in HistoryWrites(disk, cs) ==> r in whole)
            && DiskAfterAll(disk, cs) == whole[|whole| - 1]
  {
    var full := ContinueWrites(start, 0, body);
    assert whole == [start] + full;
    PassingSchedule(start, start.config, body, full);
    CrashesStayOnSchedule(start, body, disk, survives, last, full);
    assert full[|full| - 1] == whole[|whole| - 1];
  }

  /** From a new run: fourteen writes, the last one completed, its log the six passes once each in order. */
  lemma {:induction false} CrashedRunEndsClean(start: RunRecord, body: Body, whole: seq<RunRecord>,
                                               first: nat, survives: seq<nat>, last: nat)
    requires start == NewRun(start.id, start.goal, start.config) && PassingBody(body, start.config)
    requires whole == RunWrites(start, body)
    requires first > 0 && last >= |whole|
    ensures var disk := DiskAfter(start, Take(whole, first));
            && |whole| == 14
            && DiskAfterAll(disk, CrashedResumes(body, survives) + [Resume(body, last)]) == whole[13]
    ensures whole[13].status == Completed && WellFormed(whole[13]) && LogExtends([], whole[13].nodes, 0)
  {
    NewRunWellFormed(start.id, start.goal, start.config);
    PassingSchedule(start, start.config, body, whole[1..]);
    PassingLog(start, start.config, body, whole[1..]);
    var disk := DiskAfter(start, Take(whole, first));
    assert disk in whole;
    CrashesAreInvisible(start, body, whole, disk, survives, last);
  }

  /** `ws` checkpoints exactly the nodes from `from` on, in order, and ends completed. */
  ghost predicate RunsExactly(ws: seq<RunRecord>, from: nat) {
    && from <= NODE_COUNT
    && |ws| == 2 * (NODE_COUNT - from) + 1
    && (forall j: nat :: j < NODE_COUNT - from ==>
          && ws[2 * j].currentNode == Some(Canonical(from + j))
          && |ws[2 * j].completedNodes| == from + j
          && |ws[2 * j + 1].completedNodes| == from + j + 1)
    && ws[|ws| - 1].status == Completed
  }

  lemma {:induction false} ScheduleRunsExactly(ws: seq<RunRecord>, k: nat, config: RunConfig, body: Body)
    requires Scheduled(ws, k, config, body)
    ensures RunsExactly(ws, k)
  {
    forall j: nat | j < NODE_COUNT - k
      ensures ws[2 * j].currentNode == Some(Canonical(k + j))
      ensures |ws[2 * j].completedNodes| == k + j
      ensures |ws[2 * j + 1].completedNodes| == k + j + 1
    {
      assert ScheduledStep(ws, k, config, body, j);
    }
  }

  /**
   Resuming an uncompleted run, failed or not, with stages that now pass clears the
   failure, runs exactly the nodes that are not completed, in order, and completes.
   */
  lemma {:induction false} ResumeRunsTheRest(disk: RunRecord, body: Body, ws: seq<RunRecord>)
    requires WellFormed(disk) && disk.status != Completed && PassingBody(body, disk.config)
    requires ws == ResumeWrites(disk, body)
    ensures |ws| > 1 && ws[0].status == Running && ws[0].failedNode.None? && ws[0].failureReason.None?
    ensures RunsExactly(ws[1..], |disk.completedNodes|)
  {
    ResumedWellFormed(disk);
    var rec := Resumed(disk);
    assert ws[1..] == ContinueWrites(rec, 0, body);
    PassingSchedule(rec, rec.config, body, ws[1..]);
    ScheduleRunsExactly(ws[1..], |rec.completedNodes|, rec.config, body);
  }

  /** After a rollback to t, a passing resume starts exactly the nodes from min(t, k) on, in order. */
  lemma {:induction false} RollbackThenResume(
    disk: RunRecord, to: NodeName, reason: string, body: Body, back: RunRecord)
    requires WellFormed(disk) && TargetIndex(to).Some? && PassingBody(body, disk.config)
    requires RollbackWrites(disk, to, reason) == [back]
    ensures var t, k := TargetIndex(to).value, |disk.completedNodes|;
            && ResumeWrites(back, body) == [Resumed(back)] + ContinueWrites(Resumed(back), 0, body)
            && RunsExactly(ContinueWrites(Resumed(back), 0, body), if t < k then t else k)
  {
    var t := TargetIndex(to).value;
    RollbackProgress(disk, t, reason);
    ResumedWellFormed(back);
    var rec := Resumed(back);
    PassingSchedule(rec, rec.config, body, ContinueWrites(rec, 0, body));
    ScheduleRunsExactly(ContinueWrites(rec, 0, body), |rec.completedNodes|, rec.config, body);
  }

  // ---- Failures and rollbacks in between -----------------------------------

  /** The ids a node may depend on: those of the nodes before it. */
  function Upstream(a: Artifacts, i: NodeIndex): Artifacts {
    ResetFrom(a, 0, i)
  }

  /** The artifact of each passing node is `f` of its upstream ids; failures may be anything. */
  ghost predicate Produces(oracle: Oracle, config: RunConfig, f: (NodeIndex, Artifacts) -> string) {
    forall i: NodeIndex, a: Artifacts ::
      oracle(i, a).Finished? && StatusOf(i, config, oracle(i, a).healthy) == Pass ==>
        ArtifactOf(i, config, oracle(i, a).id) == f(i, Upstream(a, i))
  }

  ghost predicate ProducingBody(body: Body, config: RunConfig, f: (NodeIndex, Artifacts) -> string) {
    exists oracle: Oracle :: body == BodyOf(oracle) && Produces(oracle, config, f)
  }

  /** The ids of the first k nodes of an undisturbed run. */
  function IdealArtifacts(f: (NodeIndex, Artifacts) -> string, k: nat): Artifacts
    requires k <= NODE_COUNT
  {
    if k == 0 then NO_ARTIFACTS
    else
      var a := IdealArtifacts(f, k - 1);
      a.Set(k - 1, Some(f(k - 1, a)))
  }

  lemma {:induction false} IdealIsUpTo(f: (NodeIndex, Artifacts) -> string, k: nat, i: NodeIndex)
    requires k <= NODE_COUNT && i >= k
    ensures IdealArtifacts(f, k).Get(i).None?
  {
    if k > 0 { IdealIsUpTo(f, k - 1, i); }
  }

  /** The completed nodes' ids are the ideal ones. */
  ghost predicate Ideal(rec: RunRecord, f: (NodeIndex, Artifacts) -> string) {
    && |rec.completedNodes| <= NODE_COUNT
    && forall j: NodeIndex :: j < |rec.completedNodes| ==>
         rec.artifacts.Get(j) == IdealArtifacts(f, |rec.completedNodes|).Get(j)
  }

  lemma {:induction false} IdealStable(f: (NodeIndex, Artifacts) -> string, k: nat, k': nat, j: NodeIndex)
    requires j < k <= k' <= NODE_COUNT
    ensures IdealArtifacts(f, k).Get(j) == IdealArtifacts(f, k').Get(j)
  {
    if k < k' { IdealStable(f, k, k' - 1, j); }
  }

  /** A node that ran leaves the record ideal: a pass adds the ideal id, a failure lists nothing new. */
  lemma {:induction false} RanIdeal(rec: RunRecord, k: NodeIndex, outcome: Outcome, f: (NodeIndex, Artifacts) -> string)
    requires Working(rec) && k == |rec.completedNodes| && Ideal(rec, f)
    requires RunNode(rec, k, outcome).Ran?
    requires StatusOf(k, rec.config, outcome.healthy) == Pass ==>
               ArtifactOf(k, rec.config, outcome.id) == f(k, Upstream(rec.artifacts, k))
    ensures Ideal(RunNode(rec, k, outcome).rec, f)
  {
    RunNodeProgress(rec, k, outcome);
    if StatusOf(k, rec.config, outcome.healthy) == Pass {
      forall j: NodeIndex | j >= k
        ensures IdealArtifacts(f, k).Get(j).None?
      {
        IdealIsUpTo(f, k, j);
      }
      ArtifactsExtensional(Upstream(rec.artifacts, k), IdealArtifacts(f, k));
    }
  }

  lemma {:induction false} StepIdeal(rec: RunRecord, oracle: Oracle, f: (NodeIndex, Artifacts) -> string)
    requires Working(rec) && |rec.completedNodes| < NODE_COUNT
    requires Produces(oracle, rec.config, f) && Ideal(rec, f)
    ensures forall r :: r in StepNode(rec, |rec.completedNodes|, oracle).writes ==> Ideal(r, f)
  {
    var k := |rec.completedNodes|;
    var started := StartNode(rec, k);
    var outcome := oracle(k, started.artifacts);
    NeverMissing(started, k);
    if outcome.Finished? {
      LatestIsFresh(started, k, outcome);
      RanIdeal(started, k, outcome, f);
    }
  }

  lemma {:induction false} ContinueIdeal(rec: RunRecord, i: nat, oracle: Oracle, f: (NodeIndex, Artifacts) -> string)
    requires Working(rec) && i <= |rec.completedNodes|
    requires Produces(oracle, rec.config, f) && Ideal(rec, f)
    ensures forall r :: r in ContinueWrites(rec, i, BodyOf(oracle)) ==> Ideal(r, f)
    decreases NODE_COUNT - i
  {
    if i < NODE_COUNT {
      CompletedIsBelow(rec, |rec.completedNodes|, i);
      if i < |rec.completedNodes| {
        ContinueIdeal(rec, i + 1, oracle, f);
      } else {
        StepIsSound(rec, oracle);
        StepIdeal(rec, oracle, f);
        var step := StepNode(rec, i, oracle);
        assert BodyOf(oracle)(rec, i) == step;
        if step.goesOn {
          assert step.last in step.writes;
          ContinueIdeal(step.last, i + 1, oracle, f);
        }
      }
    }
  }

  lemma {:induction false} RollbackIdeal(
    rec: RunRecord, t: NodeIndex, reason: string, f: (NodeIndex, Artifacts) -> string)
    requires WellFormed(rec) && Ideal(rec, f)
    ensures Ideal(RolledBack(rec, t, reason), f)
  {
    RollbackProgress(rec, t, reason);
    var after := RolledBack(rec, t, reason);
    forall j: NodeIndex | j < |after.completedNodes|
      ensures after.artifacts.Get(j) == IdealArtifacts(f, |after.completedNodes|).Get(j)
    {
      IdealStable(f, |after.completedNodes|, |rec.completedNodes|, j);
    }
  }

  lemma {:induction false} CommandIdeal(disk: RunRecord, c: Command, f: (NodeIndex, Artifacts) -> string)
    requires WellFormed(disk) && Ideal(disk, f)
    requires c.Resume? ==> ProducingBody(c.body, disk.config, f)
    ensures forall r :: r in CommandWrites(disk, c) ==> WellFormed(r) && Ideal(r, f) && r.config == disk.config
  {
    match c {
      case Resume(body, survives) =>
        if disk.status != Completed {
          var oracle: Oracle :| body == BodyOf(oracle) && Produces(oracle, disk.config, f);
          ResumedWellFormed(disk);
          ContinueIdeal(Resumed(disk), 0, oracle, f);
          ContinueSound(Resumed(disk), 0, oracle, ContinueWrites(Resumed(disk), 0, body));
        }
        TakeFacts(ResumeWrites(disk, body), survives);
      case Rollback(to, reason) =>
        if TargetIndex(to).Some? {
          RollbackProgress(disk, TargetIndex(to).value, reason);
          RollbackIdeal(disk, TargetIndex(to).value, reason, f);
        }
    }
  }

  /**
   Convergence: through any history of crashes, failed and repeated nodes and
   rollbacks, as long as passing nodes are functions of their upstream ids, every
   completed record carries the ids of the undisturbed run.
   */
  lemma {:induction false} HistoryConverges(disk: RunRecord, cs: seq<Command>, f: (NodeIndex, Artifacts) -> string)
    requires WellFormed(disk) && Ideal(disk, f)
    requires forall i :: 0 <= i < |cs| && cs[i].Resume? ==> ProducingBody(cs[i].body, disk.config, f)
    ensures forall r :: r in HistoryWrites(disk, cs) ==> Ideal(r, f)
    ensures forall r :: r in HistoryWrites(disk, cs) && r.status == Completed ==>
              r.artifacts == IdealArtifacts(f, NODE_COUNT)
    decreases |cs|
  {
    HistoryWellFormed(disk, cs);
    if |cs| > 0 {
      CommandIdeal(disk, cs[0], f);
      HistoryConverges(DiskAfter(disk, CommandWrites(disk, cs[0])), cs[1..], f);
    }
    forall r | r in HistoryWrites(disk, cs) && r.status == Completed
      ensures r.artifacts == IdealArtifacts(f, NODE_COUNT)
    {
      assert WellFormed(r);
      ArtifactsExtensional(r.artifacts, IdealArtifacts(f, NODE_COUNT));
    }
  }

  // ---- Legacy names --------------------------------------------------------

  /** The record with its completed nodes under their current names. */
  function Modernize(rec: RunRecord): RunRecord {
    rec.(completedNodes := Map(rec.completedNodes, CanonicalName))
  }

  lemma {:induction false} ModernizeKeepsCompleted(rec: RunRecord)
    ensures CompletedNames(Modernize(rec)) == CompletedNames(rec)
  {
    forall n | n in CompletedNames(rec)
      ensures n in CompletedNames(Modernize(rec))
    {
      var j :| 0 <= j < |rec.completedNodes| && CanonicalName(rec.completedNodes[j]) == n;
      assert Modernize(rec).completedNodes[j] in Modernize(rec).completedNodes;
    }
    forall n | n in CompletedNames(Modernize(rec))
      ensures n in CompletedNames(rec)
    {
      var j :| 0 <= j < |rec.completedNodes| && CanonicalName(Modernize(rec).completedNodes[j]) == n;
      assert rec.completedNodes[j] in rec.completedNodes;
    }
  }

  lemma {:induction false} LegacyStep(rec: RunRecord, i: NodeIndex, oracle: Oracle)
    ensures var step, modern := StepNode(rec, i, oracle), StepNode(Modernize(rec), i, oracle);
            && Map(step.writes, Modernize) == modern.writes
            && Modernize(step.last) == modern.last
            && step.goesOn == modern.goesOn
  {
    var started := StartNode(rec, i);
    var outcome := oracle(i, started.artifacts);
    var run := RunNode(started, i, outcome);
    if run.Ran? {
      var mid := started.(artifacts := run.rec.artifacts);
      ModernizeKeepsCompleted(mid);
      assert Modernize(run.rec) == RunNode(Modernize(started), i, outcome).rec;
      LatestIsFresh(started, i, outcome);
      LatestIsFresh(Modernize(started), i, outcome);
    }
  }

  /** A run stored under legacy names continues exactly like its modernized form. */
  lemma {:induction false} LegacyContinues(rec: RunRecord, i: nat, oracle: Oracle)
    requires i <= NODE_COUNT
    ensures Map(ContinueWrites(rec, i, BodyOf(oracle)), Modernize) == ContinueWrites(Modernize(rec), i, BodyOf(oracle))
    decreases NODE_COUNT - i
  {
    ModernizeKeepsCompleted(rec);
    if i == NODE_COUNT {
    } else if IsCompleted(rec, i) {
      LegacyContinues(rec, i + 1, oracle);
    } else {
      LegacyStep(rec, i, oracle);
      var step := StepNode(rec, i, oracle);
      assert BodyOf(oracle)(rec, i) == step;
      assert BodyOf(oracle)(Modernize(rec), i) == StepNode(Modernize(rec), i, oracle);
      if step.goesOn {
        LegacyContinues(step.last, i + 1, oracle);
      }
    }
  }

  lemma {:induction false} LegacyCompletedBelow(rec: RunRecord, upTo: nat)
    requires upTo <= NODE_COUNT
    ensures CompletedBelow(Modernize(rec), upTo) == CompletedBelow(rec, upTo)
  {
    ModernizeKeepsCompleted(rec);
    if upTo > 0 { LegacyCompletedBelow(rec, upTo - 1); }
  }

  /** Rollback by a legacy name, or of a legacy record, gives the canonical result. */
  lemma {:induction false} LegacyRollsBack(rec: RunRecord, i: NodeIndex, reason: string)
    ensures RollbackWrites(rec, Legacy(i), reason) == RollbackWrites(rec, Canonical(i), reason)
    ensures RollbackWrites(Modernize(rec), Canonical(i), reason) == RollbackWrites(rec, Canonical(i), reason)
  {
    LegacyCompletedBelow(rec, i);
  }
}
