/**
 Many pipeline runs over one capabilities directory.  Each run has its own file
 and at most one process; processes of different runs interleave freely, may
 crash between any two effects, and share only the packages on disk, which are
 written exclusively and never deleted.
 */
module SharedPackages {
  import opened Common
  import opened NodeNames
  import opened Runs
  import Pipeline

  /** Who created a package's capability.yaml: a pipeline run, or another tool. */
  datatype Creator = ByRun(id: string) | External

  /** Where a process stands: deciding about node `at`, about to run it, between the
      exclusive write of its package and the rest of promotion, about to write the
      node's record, or about to write its failure. */
  datatype Phase = Head | Launched | Packaged | Recorded | Failing

  datatype Proc = Proc(rec: RunRecord, at: nat, phase: Phase)

  datatype World = World(packages: map<string, Creator>, disk: map<string, RunRecord>, procs: map<string, Proc>)

  datatype Action =
    | Begin(id: string, goal: string, config: RunConfig)
    | Resume(id: string)
    | Rollback(id: string, target: NodeIndex, reason: string)
    | Advance(id: string, outcome: Outcome)
    | Crash(id: string)
    | Publish(name: string)

  const PROMOTE: NodeIndex := 1

  // ---- Steps ---------------------------------------------------------------

  datatype ProcChange = Stays | Becomes(proc: Proc) | Ends

  /** What one action of a run does: rewrite its file, change its process, create a package. */
  datatype Effect = Effect(write: Option<RunRecord>, proc: ProcChange, create: Option<string>)

  const NOTHING := Effect(None, Stays, None)

  /** Record the failure of node `at` and end the process. */
  function FailAt(p: Proc, reason: FailureReason): Effect
    requires p.at < NODE_COUNT
  {
    Effect(Some(FailNode(p.rec, p.at, reason)), Ends, None)
  }

  /** The stage of node `at` has returned or raised. */
  function StageEnds(p: Proc, outcome: Outcome): Effect
    requires p.at < NODE_COUNT
  {
    match RunNode(p.rec, p.at, outcome)
    case Threw(reason) => FailAt(p, reason)
    case Ran(after) => Effect(None, Becomes(Proc(after, p.at, Recorded)), None)
  }

  /** Promotion reaches its first exclusive write: refused, or the package is created. */
  function CreatePackage(packages: map<string, Creator>, p: Proc): Effect
    requires p.at < NODE_COUNT
  {
    var name := p.rec.config.capabilityName;
    if name in packages then FailAt(p, Message(REFUSED))
    else Effect(None, Becomes(p.(phase := Packaged)), Some(name))
  }

  const REFUSED: string := "refusing to overwrite"

  function ProcEffect(packages: map<string, Creator>, p: Proc, outcome: Outcome): Effect {
    if p.phase == Head && p.at == NODE_COUNT then Effect(Some(Complete(p.rec)), Ends, None)
    else if p.at >= NODE_COUNT then NOTHING
    else match p.phase
      case Head =>
        if IsCompleted(p.rec, p.at) then Effect(None, Becomes(p.(at := p.at + 1)), None)
        else Effect(Some(StartNode(p.rec, p.at)), Becomes(Proc(StartNode(p.rec, p.at), p.at, Launched)), None)
      case Launched =>
        if p.at == PROMOTE && !RequiredValueMissing(p.rec, p.at) && outcome.Finished? then CreatePackage(packages, p)
        else StageEnds(p, outcome)
      case Packaged => StageEnds(p, outcome)
      case Recorded =>
        (match LatestNodeResult(p.rec.nodes, Canonical(p.at))
         case None => Effect(None, Ends, None)
         case Some(latest) =>
           if latest.status == Fail then Effect(Some(p.rec), Becomes(p.(phase := Failing)), None)
           else Effect(Some(p.rec), Becomes(Proc(p.rec, p.at + 1, Head)), None))
      case Failing =>
        match LatestNodeResult(p.rec.nodes, Canonical(p.at))
        case None => Effect(None, Ends, None)
        case Some(latest) => FailAt(p, Message(latest.message))
  }

  /**
   The one step of a process that creates a package: node 1, once its evidence id is
   there and its workflow gets that far, under a name that is free.  A taken name fails it.
   */
  lemma {:induction false} CreatesExactly(packages: map<string, Creator>, p: Proc, outcome: Outcome)
    ensures var e, name := ProcEffect(packages, p, outcome), p.rec.config.capabilityName;
            var creates := p.phase == Launched && p.at == 1 && p.rec.artifacts.evidenceId.Some? && outcome.Finished?;
            && e.create == (if creates && name !in packages then Some(name) else None)
            && (creates && name in packages ==>
                  && e.proc == Ends && e.write.Some?
                  && e.write.value.status == Failed && e.write.value.failedNode == Some(Canonical(1)))
  {
  }

  /** The effect of a run's action; one that is not possible does nothing. */
  function EffectOf(w: World, a: Action): Effect
    requires !a.Publish?
  {
    match a
    case Begin(id, goal, config) =>
      if id in w.disk then NOTHING
      else Effect(Some(NewRun(id, goal, config)), Becomes(Proc(NewRun(id, goal, config), 0, Head)), None)
    case Resume(id) =>
      if id !in w.disk || id in w.procs || w.disk[id].status == Completed then NOTHING
      else Effect(Some(Resumed(w.disk[id])), Becomes(Proc(Resumed(w.disk[id]), 0, Head)), None)
    case Rollback(id, target, reason) =>
      if id !in w.disk || id in w.procs then NOTHING
      else Effect(Some(RolledBack(w.disk[id], target, reason)), Stays, None)
    case Advance(id, outcome) =>
      if id !in w.procs then NOTHING else ProcEffect(w.packages, w.procs[id], outcome)
    case Crash(_) => Effect(None, Ends, None)
  }

  function Apply(w: World, id: string, e: Effect): World {
    World(
      if e.create.Some? then w.packages[e.create.value := ByRun(id)] else w.packages,
      if e.write.Some? then w.disk[id := e.write.value] else w.disk,
      match e.proc
      case Stays => w.procs
      case Becomes(p) => w.procs[id := p]
      case Ends => w.procs - {id})
  }

  function Act(w: World, a: Action): World {
    match a
    case Publish(name) => if name in w.packages then w else w.(packages := w.packages[name := External])
    case _ => Apply(w, a.id, EffectOf(w, a))
  }

  function Exec(w: World, acts: seq<Action>): World
    decreases |acts|
  {
    if |acts| == 0 then w else Exec(Act(w, acts[0]), acts[1..])
  }

  // ---- The same loop body --------------------------------------------------

  function PhaseRank(phase: Phase): nat {
    match phase case Head => 4 case Launched => 3 case Packaged => 2 case Recorded => 1 case Failing => 0
  }

  /** Everything a process writes from here to the next head of its loop, or its end. */
  function RoundWrites(packages: map<string, Creator>, p: Proc, outcome: Outcome): seq<RunRecord>
    decreases PhaseRank(p.phase)
  {
    var e := ProcEffect(packages, p, outcome);
    var rest :=
      if e.proc.Becomes? && PhaseRank(e.proc.proc.phase) < PhaseRank(p.phase)
      then RoundWrites(packages, e.proc.proc, outcome)
      else [];
    if e.write.Some? then [e.write.value] + rest else rest
  }

  /** What the stage of node i does when the package decides about promotion. */
  function Decided(packages: map<string, Creator>, rec: RunRecord, i: NodeIndex, outcome: Outcome): Outcome {
    if i == PROMOTE && outcome.Finished? && rec.config.capabilityName in packages then Raised(REFUSED) else outcome
  }

  /**
   An undisturbed round of a process is the loop body of the pipeline: the packages
   on disk only decide whether promotion is refused.
   */
  lemma {:induction false} RoundIsLoopBody(packages: map<string, Creator>, rec: RunRecord, i: NodeIndex,
                                           outcome: Outcome, oracle: Pipeline.Oracle)
    requires Working(rec) && i == |rec.completedNodes|
    requires oracle(i, rec.artifacts) == Decided(packages, rec, i, outcome)
    ensures RoundWrites(packages, Proc(rec, i, Head), outcome) == Pipeline.StepNode(rec, i, oracle).writes
  {
    CompletedIsBelow(rec, i, i);
    var p := Proc(StartNode(rec, i), i, Launched);
    NeverMissing(p.rec, i);
    assert RoundWrites(packages, Proc(rec, i, Head), outcome) == [p.rec] + RoundWrites(packages, p, outcome);
    var decided := Decided(packages, rec, i, outcome);
    if decided.Finished? {
      LatestIsFresh(p.rec, i, outcome);
      var q := Proc(RunNode(p.rec, i, outcome).rec, i, Recorded);
      assert RoundWrites(packages, p, outcome) == RoundWrites(packages, q, outcome) by {
        if i == PROMOTE {
          var mid := p.(phase := Packaged);
          assert RoundWrites(packages, p, outcome) == RoundWrites(packages, mid, outcome);
          assert RoundWrites(packages, mid, outcome) == RoundWrites(packages, q, outcome);
        }
      }
      if StatusOf(i, rec.config, outcome.healthy) == Fail {
        var f := q.(phase := Failing);
        assert RoundWrites(packages, q, outcome) == [q.rec] + RoundWrites(packages, f, outcome);
        assert RoundWrites(packages, f, outcome) == [FailNode(q.rec, i, Message(outcome.message))];
      } else {
        assert RoundWrites(packages, q, outcome) == [q.rec];
      }
    }
  }

  // ---- The invariant -------------------------------------------------------

  predicate IsPromotion(r: NodeResult) {
    r.name == Canonical(PROMOTE) && r.status == Pass
  }

  /** How many promotions a run's log records. */
  function Promotions(nodes: seq<NodeResult>): nat {
    if |nodes| == 0 then 0
    else Promotions(nodes[..|nodes| - 1]) + if IsPromotion(nodes[|nodes| - 1]) then 1 else 0
  }

  lemma {:induction false} PromotionsAppend(nodes: seq<NodeResult>, r: NodeResult)
    ensures Promotions(nodes + [r]) == Promotions(nodes) + if IsPromotion(r) then 1 else 0
  {
    assert (nodes + [r])[..|nodes + [r]| - 1] == nodes;
  }

  lemma {:induction false} PromotionCounted(nodes: seq<NodeResult>, i: nat)
    requires i < |nodes| && IsPromotion(nodes[i])
    ensures Promotions(nodes) > 0
  {
    if i < |nodes| - 1 { PromotionCounted(nodes[..|nodes| - 1], i); }
  }

  lemma {:induction false} TwoPromotions(nodes: seq<NodeResult>, i: nat, j: nat)
    requires i < j < |nodes| && IsPromotion(nodes[i]) && IsPromotion(nodes[j])
    ensures Promotions(nodes) > 1
  {
    var front := nodes[..|nodes| - 1];
    if j < |front| { TwoPromotions(front, i, j); } else { PromotionCounted(front, i); }
  }

  /** A run records at most one promotion, and then it created the package itself. */
  ghost predicate Ledger(packages: map<string, Creator>, rec: RunRecord) {
    && Promotions(rec.nodes) <= 1
    && (Promotions(rec.nodes) == 1 ==>
          rec.config.capabilityName in packages && packages[rec.config.capabilityName] == ByRun(rec.id))
    && (|rec.completedNodes| > PROMOTE ==> Promotions(rec.nodes) == 1)
  }

  ghost predicate ProcFits(packages: map<string, Creator>, p: Proc) {
    && Working(p.rec)
    && Ledger(packages, p.rec)
    && match p.phase
       case Head => p.at <= |p.rec.completedNodes|
       case Launched => p.at == |p.rec.completedNodes| < NODE_COUNT
       case Packaged =>
         && p.at == PROMOTE == |p.rec.completedNodes|
         && Promotions(p.rec.nodes) == 0
         && p.rec.config.capabilityName in packages
         && packages[p.rec.config.capabilityName] == ByRun(p.rec.id)
       case Recorded =>
         && p.at < NODE_COUNT
         && LatestNodeResult(p.rec.nodes, Canonical(p.at)).Some?
         && (p.at == PROMOTE ==> LatestNodeResult(p.rec.nodes, Canonical(p.at)).value.status == Pass)
         && |p.rec.completedNodes| ==
              if LatestNodeResult(p.rec.nodes, Canonical(p.at)).value.status == Pass then p.at + 1 else p.at
       case Failing => p.at == |p.rec.completedNodes| < NODE_COUNT
  }

  ghost predicate Inv(w: World) {
    forall id :: RunFits(w, id)
  }

  ghost predicate Initial(w: World) {
    w.disk == map[] && w.procs == map[] && forall name :: name in w.packages ==> w.packages[name] == External
  }

  /** The part of the invariant about one run: its file and its process, if any. */
  ghost predicate RunFits(w: World, id: string) {
    && (id in w.disk ==> FileFits(w.packages, id, w.disk[id]))
    && (id in w.procs ==>
          && id in w.disk
          && w.procs[id].rec.id == id
          && w.procs[id].rec.config == w.disk[id].config
          && ProcFits(w.packages, w.procs[id])
          && FileKeepsUp(w.disk[id], w.procs[id]))
  }

  /**
   While a stage is at work, the file lists the same completed nodes as the process;
   once it has ended, the file does not list its node yet.
   */
  ghost predicate FileKeepsUp(file: RunRecord, p: Proc) {
    && (p.phase in {Launched, Packaged} ==> file.completedNodes == p.rec.completedNodes)
    && (p.phase == Recorded ==> |file.completedNodes| == p.at)
  }

  ghost predicate FileFits(packages: map<string, Creator>, id: string, rec: RunRecord) {
    rec.id == id && WellFormed(rec) && Ledger(packages, rec)
  }

  /** A process' own step: what it writes and what it becomes fit. */
  ghost predicate EffectFits(packages: map<string, Creator>, id: string, p: Proc, e: Effect) {
    var packages' := if e.create.Some? then packages[e.create.value := ByRun(id)] else packages;
    && (e.create.Some? ==> e.create.value !in packages)
    && (e.proc.Stays? ==> e.write.None?)
    && (e.write.Some? ==> FileFits(packages', id, e.write.value) && e.write.value.config == p.rec.config)
    && (e.proc.Becomes? ==>
          && e.proc.proc.rec.id == id && e.proc.proc.rec.config == p.rec.config
          && ProcFits(packages', e.proc.proc)
          && StaysInStep(p, e))
  }

  /**
   A process that is or stays at a stage has written its completed nodes, or comes
   from a stage with the same ones; one whose stage has ended comes from that stage
   and has written nothing since.
   */
  ghost predicate StaysInStep(p: Proc, e: Effect)
    requires e.proc.Becomes?
  {
    var next := e.proc.proc;
    && (next.phase in {Launched, Packaged} ==>
          if e.write.Some? then e.write.value.completedNodes == next.rec.completedNodes
          else p.phase in {Launched, Packaged} && next.rec.completedNodes == p.rec.completedNodes)
    && (next.phase == Recorded ==>
          e.write.None? && p.phase in {Launched, Packaged} && |p.rec.completedNodes| == next.at)
  }

  lemma {:induction false} FailFits(packages: map<string, Creator>, p: Proc, reason: FailureReason)
    requires ProcFits(packages, p) && p.at == |p.rec.completedNodes| < NODE_COUNT && reason.Message?
    ensures EffectFits(packages, p.rec.id, p, FailAt(p, reason))
  {
    assert WellFormed(FailNode(p.rec, p.at, reason));
  }

  /** Running a node: the log gains one entry, a promotion exactly when node 1 passes. */
  lemma {:induction false} RanPromotions(rec: RunRecord, k: NodeIndex, outcome: Outcome)
    requires Working(rec) && k == |rec.completedNodes| && RunNode(rec, k, outcome).Ran?
    ensures var after := RunNode(rec, k, outcome).rec;
            && Working(after)
            && Promotions(after.nodes) == Promotions(rec.nodes) + (if k == PROMOTE then 1 else 0)
  {
    RunNodeProgress(rec, k, outcome);
    var after := RunNode(rec, k, outcome).rec;
    var entry := after.nodes[|rec.nodes|];
    assert after.nodes == rec.nodes + [entry];
    PromotionsAppend(rec.nodes, entry);
  }

  lemma {:induction false} StageEndsFits(packages: map<string, Creator>, p: Proc, outcome: Outcome)
    requires ProcFits(packages, p)
    requires p.phase == Packaged || (p.phase == Launched && (p.at != PROMOTE || outcome.Raised?))
    ensures EffectFits(packages, p.rec.id, p, StageEnds(p, outcome))
  {
    NeverMissing(p.rec, p.at);
    if outcome.Finished? {
      LatestIsFresh(p.rec, p.at, outcome);
      RunNodeProgress(p.rec, p.at, outcome);
      RanPromotions(p.rec, p.at, outcome);
    } else {
      FailFits(packages, p, Message(outcome.reason));
    }
  }

  lemma {:induction false} ProcEffectFits(packages: map<string, Creator>, p: Proc, outcome: Outcome)
    requires ProcFits(packages, p)
    ensures EffectFits(packages, p.rec.id, p, ProcEffect(packages, p, outcome))
  {
    match p.phase {
      case Head =>
        if p.at < NODE_COUNT {
          CompletedIsBelow(p.rec, |p.rec.completedNodes|, p.at);
          assert WellFormed(StartNode(p.rec, p.at));
        }
      case Launched =>
        NeverMissing(p.rec, p.at);
        if p.at != PROMOTE || outcome.Raised? {
          StageEndsFits(packages, p, outcome);
        } else {
          FailFits(packages, p, Message(REFUSED));
        }
      case Packaged =>
        StageEndsFits(packages, p, outcome);
      case Recorded =>
      case Failing =>
        var latest := LatestNodeResult(p.rec.nodes, Canonical(p.at));
        if latest.Some? {
          FailFits(packages, p, Message(latest.value.message));
        }
    }
  }

  /** A run's own actions keep its file and process in order. */
  lemma {:induction false} OwnActionFits(w: World, a: Action)
    requires !a.Publish? && RunFits(w, a.id)
    ensures RunFits(Act(w, a), a.id)
  {
    match a
    case Begin(id, goal, config) => Pipeline.NewRunWellFormed(id, goal, config);
    case Resume(id) =>
      if id in w.disk && w.disk[id].status != Completed { Pipeline.ResumedWellFormed(w.disk[id]); }
    case Rollback(id, target, reason) =>
      if id in w.disk && id !in w.procs {
        var rec := w.disk[id];
        RollbackProgress(rec, target, reason);
        PromotionsAppend(rec.nodes, RolledBack(rec, target, reason).nodes[|rec.nodes|]);
      }
    case Advance(id, outcome) =>
      if id in w.procs {
        ProcEffectFits(w.packages, w.procs[id], outcome);
        EffectApplies(w, id, ProcEffect(w.packages, w.procs[id], outcome));
      }
    case Crash(id) =>
  }

  lemma {:induction false} EffectApplies(w: World, id: string, e: Effect)
    requires RunFits(w, id) && id in w.procs && EffectFits(w.packages, id, w.procs[id], e)
    ensures RunFits(Apply(w, id, e), id)
  {
  }

  /** Nothing disturbs another run: its file and process stay. */
  lemma {:induction false} OthersUntouched(w: World, id: string, e: Effect, other: string)
    requires other != id
    ensures var w' := Apply(w, id, e);
            && (other in w.disk <==> other in w'.disk) && (other in w.disk ==> w'.disk[other] == w.disk[other])
            && (other in w.procs <==> other in w'.procs) && (other in w.procs ==> w'.procs[other] == w.procs[other])
  {
  }

  /** Packages are never removed or taken over. */
  lemma {:induction false} PackagesOnlyGrow(w: World, a: Action, name: string)
    requires name in w.packages
    ensures name in Act(w, a).packages && Act(w, a).packages[name] == w.packages[name]
  {
    if !a.Publish? && EffectOf(w, a).create.Some? {
      assert EffectOf(w, a).create.value !in w.packages;
    }
  }

  lemma {:induction false} StillFits(w: World, w': World, id: string)
    requires RunFits(w, id)
    requires id in w.disk <==> id in w'.disk
    requires id in w.disk ==> w'.disk[id] == w.disk[id]
    requires id in w.procs <==> id in w'.procs
    requires id in w.procs ==> w'.procs[id] == w.procs[id]
    requires forall name :: name in w.packages ==> name in w'.packages && w'.packages[name] == w.packages[name]
    ensures RunFits(w', id)
  {
  }

  lemma {:induction false} ActKeepsInv(w: World, a: Action)
    requires Inv(w)
    ensures Inv(Act(w, a))
  {
    var w' := Act(w, a);
    forall name | name in w.packages
      ensures name in w'.packages && w'.packages[name] == w.packages[name]
    {
      PackagesOnlyGrow(w, a, name);
    }
    forall id
      ensures RunFits(w', id)
    {
      assert RunFits(w, id);
      if a.Publish? {
        StillFits(w, w', id);
      } else if a.id != id {
        OthersUntouched(w, a.id, EffectOf(w, a), id);
        StillFits(w, w', id);
      } else {
        OwnActionFits(w, a);
      }
    }
  }

  lemma {:induction false} ExecKeepsInv(w: World, acts: seq<Action>)
    requires Inv(w)
    ensures Inv(Exec(w, acts))
    decreases |acts|
  {
    if |acts| > 0 {
      ActKeepsInv(w, acts[0]);
      ExecKeepsInv(Act(w, acts[0]), acts[1..]);
    }
  }

  // ---- At most one promotion -----------------------------------------------

  /**
   Over all interleavings, crashes, resumes and rollbacks of any number of runs, a
   capability name is promoted at most once: two recorded passes of promotion for
   the same name are the same log entry of the same run.
   */
  lemma {:induction false} AtMostOnePromotion(start: World, acts: seq<Action>, id1: string, i: nat, id2: string, j: nat)
    requires Initial(start)
    requires var w := Exec(start, acts);
             && id1 in w.disk && i < |w.disk[id1].nodes| && IsPromotion(w.disk[id1].nodes[i])
             && id2 in w.disk && j < |w.disk[id2].nodes| && IsPromotion(w.disk[id2].nodes[j])
             && w.disk[id1].config.capabilityName == w.disk[id2].config.capabilityName
    ensures id1 == id2 && i == j
  {
    ExecKeepsInv(start, acts);
    var w := Exec(start, acts);
    assert RunFits(w, id1) && RunFits(w, id2);
    PromotionCounted(w.disk[id1].nodes, i);
    PromotionCounted(w.disk[id2].nodes, j);
    if i < j { TwoPromotions(w.disk[id1].nodes, i, j); }
    if j < i { TwoPromotions(w.disk[id1].nodes, j, i); }
  }

  // ---- Blocked runs --------------------------------------------------------

  /** The package exists, promotion is not listed as completed, and no process is past creating it. */
  ghost predicate Blocked(w: World, id: string) {
    && id in w.disk
    && w.disk[id].config.capabilityName in w.packages
    && |w.disk[id].completedNodes| <= PROMOTE
    && (id in w.procs ==> w.procs[id].phase != Packaged && |w.procs[id].rec.completedNodes| <= PROMOTE)
  }

  lemma {:induction false} BlockedStays(w: World, a: Action, id: string)
    requires Inv(w) && Blocked(w, id)
    ensures Blocked(Act(w, a), id)
  {
    assert RunFits(w, id);
    PackagesOnlyGrow(w, a, w.disk[id].config.capabilityName);
    if a.Publish? {
    } else if a.id != id {
      OthersUntouched(w, a.id, EffectOf(w, a), id);
    } else if a.Advance? && id in w.procs {
      BlockedStep(w.packages, w.procs[id], a.outcome);
    } else if a.Rollback? && id !in w.procs {
      RollbackProgress(w.disk[id], a.target, a.reason);
    }
  }

  /** A process of a blocked run neither creates a package nor completes promotion. */
  lemma {:induction false} BlockedStep(packages: map<string, Creator>, p: Proc, outcome: Outcome)
    requires ProcFits(packages, p) && p.phase != Packaged && |p.rec.completedNodes| <= PROMOTE
    requires p.rec.config.capabilityName in packages
    ensures var e := ProcEffect(packages, p, outcome);
            && (e.write.Some? ==> |e.write.value.completedNodes| <= PROMOTE && e.write.value.config == p.rec.config)
            && (e.proc.Becomes? ==> e.proc.proc.phase != Packaged && |e.proc.proc.rec.completedNodes| <= PROMOTE)
  {
    ProcEffectFits(packages, p, outcome);
    if p.phase == Launched {
      NeverMissing(p.rec, p.at);
      if outcome.Finished? {
        RunNodeProgress(p.rec, p.at, outcome);
      }
    }
  }

  /** A blocked run is never completed again, whatever happens. */
  lemma {:induction false} BlockedForever(w: World, acts: seq<Action>, id: string)
    requires Inv(w) && Blocked(w, id)
    ensures var w' := Exec(w, acts); Blocked(w', id) && w'.disk[id].status != Completed
    decreases |acts|
  {
    if |acts| > 0 {
      ActKeepsInv(w, acts[0]);
      BlockedStays(w, acts[0], id);
      BlockedForever(Act(w, acts[0]), acts[1..], id);
    } else {
      assert RunFits(w, id);
    }
  }

  /** Rolling a run back past its recorded promotion blocks it: rollback clears the id, not the package. */
  lemma {:induction false} RollbackPastPromotionBlocks(
    w: World, id: string, target: NodeIndex, reason: string, acts: seq<Action>)
    requires Inv(w) && id in w.disk && id !in w.procs
    requires Promotions(w.disk[id].nodes) > 0 && target <= PROMOTE
    ensures Exec(Act(w, Rollback(id, target, reason)), acts).disk.Keys >= {id}
    ensures Exec(Act(w, Rollback(id, target, reason)), acts).disk[id].status != Completed
  {
    assert RunFits(w, id);
    RollbackProgress(w.disk[id], target, reason);
    ActKeepsInv(w, Rollback(id, target, reason));
    BlockedForever(Act(w, Rollback(id, target, reason)), acts, id);
  }

  /** A crash between creating the package and writing the record that says so blocks the run as well. */
  lemma {:induction false} CrashAfterCreateBlocks(w: World, id: string, acts: seq<Action>)
    requires Inv(w) && id in w.procs
    requires w.procs[id].phase == Packaged || (w.procs[id].phase == Recorded && w.procs[id].at == PROMOTE)
    ensures Exec(Act(w, Crash(id)), acts).disk.Keys >= {id}
    ensures Exec(Act(w, Crash(id)), acts).disk[id].status != Completed
  {
    assert RunFits(w, id);
    ActKeepsInv(w, Crash(id));
    BlockedForever(Act(w, Crash(id)), acts, id);
  }

  // ---- Every other run can complete ----------------------------------------

  const GOOD := Finished("id", true, "ok", "path")

  /** A process that no package stands in the way of, and that has not just failed. */
  ghost predicate CanStep(w: World, id: string) {
    Inv(w) && id in w.procs && Unhindered(w.packages, w.procs[id])
  }

  ghost predicate Unhindered(packages: map<string, Creator>, p: Proc) {
    && p.at <= NODE_COUNT
    && p.phase != Failing
    && (p.phase == Recorded ==> p.at < NODE_COUNT && IsPass(LatestNodeResult(p.rec.nodes, Canonical(p.at))))
    && (p.phase == Packaged || |p.rec.completedNodes| > PROMOTE || p.rec.config.capabilityName !in packages)
  }

  predicate IsPass(r: Option<NodeResult>) {
    r.Some? && r.value.status == Pass
  }

  /** How far a process is from its end, in steps. */
  function Distance(p: Proc): nat
    requires p.at <= NODE_COUNT
  {
    4 * (NODE_COUNT - p.at) + PhaseRank(p.phase)
  }

  lemma {:induction false} GoodStep(w: World, id: string)
    requires CanStep(w, id) && !(w.procs[id].phase == Head && w.procs[id].at == NODE_COUNT)
    ensures var w' := Act(w, Advance(id, GOOD));
            && w.procs[id].at < NODE_COUNT
            && CanStep(w', id)
            && Distance(w'.procs[id]) < Distance(w.procs[id])
  {
    assert RunFits(w, id);
    ActKeepsInv(w, Advance(id, GOOD));
    GoodEffect(w.packages, w.procs[id]);
  }

  /** A good step of an unhindered process leaves it unhindered and nearer to its end. */
  lemma {:induction false} GoodEffect(packages: map<string, Creator>, p: Proc)
    requires ProcFits(packages, p) && Unhindered(packages, p)
    requires !(p.phase == Head && p.at == NODE_COUNT)
    ensures p.at < NODE_COUNT
    ensures var e := ProcEffect(packages, p, GOOD);
            && e.proc.Becomes?
            && Unhindered(if e.create.Some? then packages[e.create.value := ByRun(p.rec.id)] else packages, e.proc.proc)
            && Distance(e.proc.proc) < Distance(p)
  {
    NeverMissingWhenLaunched(packages, p);
    if p.phase in {Launched, Packaged} {
      LatestIsFresh(p.rec, p.at, GOOD);
      RunNodeProgress(p.rec, p.at, GOOD);
    }
  }

  lemma {:induction false} NeverMissingWhenLaunched(packages: map<string, Creator>, p: Proc)
    requires ProcFits(packages, p)
    ensures p.phase in {Launched, Packaged} ==> !RequiredValueMissing(p.rec, p.at)
  {
    if p.phase in {Launched, Packaged} {
      NeverMissing(p.rec, p.at);
    }
  }

  lemma {:induction false} GoesToTheEnd(w: World, id: string) returns (acts: seq<Action>)
    requires CanStep(w, id)
    ensures Completes(w, acts, id) && id !in Exec(w, acts).procs
    decreases Distance(w.procs[id])
  {
    assert RunFits(w, id);
    var a := Advance(id, GOOD);
    if w.procs[id].phase == Head && w.procs[id].at == NODE_COUNT {
      acts := [a];
      ExecCons(w, a, []);
    } else {
      GoodStep(w, id);
      var rest := GoesToTheEnd(Act(w, a), id);
      acts := [a] + rest;
      ExecCons(w, a, rest);
    }
  }

  lemma {:induction false} ExecCons(w: World, a: Action, rest: seq<Action>)
    ensures Exec(w, [a] + rest) == Exec(Act(w, a), rest)
  {
    assert ([a] + rest)[1..] == rest;
  }

  ghost predicate Completes(w: World, acts: seq<Action>, id: string) {
    id in Exec(w, acts).disk && Exec(w, acts).disk[id].status == Completed
  }

  /**
   Exactly which idle runs can still be completed by some continuation: those whose
   capability name is free, or whose promotion is still listed as completed.
   */
  lemma {:induction false} CompletableExactly(w: World, id: string)
    requires Inv(w) && id in w.disk && id !in w.procs
    ensures (exists acts :: Completes(w, acts, id))
            <==> (w.disk[id].config.capabilityName !in w.packages || Canonical(1) in w.disk[id].completedNodes)
  {
    assert RunFits(w, id);
    assert Canonical(1) in w.disk[id].completedNodes <==> |w.disk[id].completedNodes| > PROMOTE by {
      if |w.disk[id].completedNodes| > 1 {
        assert w.disk[id].completedNodes[1] == Canonical(1);
      }
    }
    if Blocked(w, id) {
      forall acts
        ensures !Completes(w, acts, id)
      {
        BlockedForever(w, acts, id);
      }
    } else if w.disk[id].status == Completed {
      assert Completes(w, [], id);
    } else {
      ActKeepsInv(w, Resume(id));
      var w' := Act(w, Resume(id));
      var rest := GoesToTheEnd(w', id);
      ExecCons(w, Resume(id), rest);
      assert Completes(w, [Resume(id)] + rest, id);
    }
  }

  // ---- The blocked situations occur ----------------------------------------

  const NOWHERE := World(map[], map[], map[])

  /** A begun run that nothing hinders. */
  lemma {:induction false} BeginsUnhindered(id: string, goal: string, config: RunConfig)
    ensures Inv(NOWHERE)
    ensures CanStep(Act(NOWHERE, Begin(id, goal, config)), id)
  {
    ActKeepsInv(NOWHERE, Begin(id, goal, config));
  }

  /** Any run, alone, can come to have promoted and be idle: then a rollback to promotion blocks it. */
  lemma {:induction false} PromotedRunsOccur(id: string, goal: string, config: RunConfig) returns (acts: seq<Action>)
    ensures var w := Exec(NOWHERE, acts);
            && Inv(w) && id in w.disk && id !in w.procs
            && w.disk[id].config == config && Promotions(w.disk[id].nodes) > 0
  {
    var begin := Begin(id, goal, config);
    BeginsUnhindered(id, goal, config);
    var w := Act(NOWHERE, begin);
    var rest := GoesToTheEnd(w, id);
    acts := [begin] + rest;
    ExecCons(NOWHERE, begin, rest);
    ExecKeepsInv(NOWHERE, acts);
    ConfigStays(w, rest, id);
    assert RunFits(Exec(NOWHERE, acts), id);
  }

  /** The configuration of a run never changes. */
  lemma {:induction false} ConfigStays(w: World, acts: seq<Action>, id: string)
    requires Inv(w) && id in w.disk
    ensures id in Exec(w, acts).disk && Exec(w, acts).disk[id].config == w.disk[id].config
    decreases |acts|
  {
    if |acts| > 0 {
      var a := acts[0];
      assert RunFits(w, id);
      if a.Publish? {
      } else if a.id != id {
        OthersUntouched(w, a.id, EffectOf(w, a), id);
      } else if a.Advance? && id in w.procs {
        ProcEffectFits(w.packages, w.procs[id], a.outcome);
      }
      ActKeepsInv(w, a);
      ConfigStays(Act(w, a), acts[1..], id);
    }
  }

  /** It can also come to have created its package, with the record of that not yet on disk. */
  lemma {:induction false} PackagedRunsOccur(id: string, goal: string, config: RunConfig) returns (acts: seq<Action>)
    ensures var w := Exec(NOWHERE, acts);
            Inv(w) && id in w.procs && w.procs[id].phase == Packaged && w.procs[id].rec.config == config
  {
    var begin := Begin(id, goal, config);
    BeginsUnhindered(id, goal, config);
    var rest := GoesToPackaged(Act(NOWHERE, begin), id);
    acts := [begin] + rest;
    ExecCons(NOWHERE, begin, rest);
    ExecKeepsInv(NOWHERE, acts);
  }

  lemma {:induction false} GoesToPackaged(w: World, id: string) returns (acts: seq<Action>)
    requires CanStep(w, id) && w.procs[id].at <= PROMOTE && |w.procs[id].rec.completedNodes| <= PROMOTE
    ensures var w' := Exec(w, acts);
            id in w'.procs && w'.procs[id].phase == Packaged && w'.procs[id].rec.config == w.procs[id].rec.config
    decreases Distance(w.procs[id])
  {
    assert RunFits(w, id);
    if w.procs[id].phase == Packaged {
      acts := [];
    } else {
      var a := Advance(id, GOOD);
      GoodStep(w, id);
      NotPastPromotion(w.packages, w.procs[id]);
      var rest := GoesToPackaged(Act(w, a), id);
      acts := [a] + rest;
      ExecCons(w, a, rest);
    }
  }

  /** Short of creating its package, a good step of a process does not take it past promotion. */
  lemma {:induction false} NotPastPromotion(packages: map<string, Creator>, p: Proc)
    requires ProcFits(packages, p) && Unhindered(packages, p) && p.phase != Packaged
    requires p.at <= PROMOTE && |p.rec.completedNodes| <= PROMOTE
    ensures var e := ProcEffect(packages, p, GOOD);
            && e.proc.Becomes? && e.proc.proc.rec.config == p.rec.config
            && e.proc.proc.at <= PROMOTE && |e.proc.proc.rec.completedNodes| <= PROMOTE
  {
    NeverMissingWhenLaunched(packages, p);
    if p.phase == Head {
      CompletedIsBelow(p.rec, |p.rec.completedNodes|, p.at);
    } else if p.phase == Launched {
      LatestIsFresh(p.rec, p.at, GOOD);
      RunNodeProgress(p.rec, p.at, GOOD);
    }
  }
}
