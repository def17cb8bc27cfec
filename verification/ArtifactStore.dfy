/**
 The artifact directories over time.  Evidence, learning exports and decisions are
 written exclusively; a manifest is created exclusively and then only replaced by
 card rewrites and accepted patches.  A manifest that verifies keeps verifying.
 */
module ArtifactStore {
  import opened Common
  import opened Integrity

  datatype Store = Store(
    evidence: map<string, Artifact>,
    manifests: map<string, Artifact>,
    learning: map<string, Artifact>,
    decisions: map<string, Artifact>)

  /** The quality gate of a promotion; a request that is not strict lets everything through. */
  type Gate = Content -> bool

  /** One workflow run against the store; a run that raises may leave part of its work. */
  datatype Event =
    | WriteEvidence(record: Artifact)
    | Promote(evidenceIds: seq<string>, name: string, body: string, gate: Gate)
    | RewriteCard(name: string)
    | Learn(name: string, id: string, offered: Patches, body: string)
    | ApplyPatch(name: string, learningId: string, kind: PatchKind, index: nat, accepted: bool, decisionId: string)
    | OtherWrite  // replays, evals, contexts, reviews: other directories

  /** Files are named after the ids of the records they hold. */
  ghost predicate WellKeyed(s: Store) {
    && (forall id :: id in s.evidence ==> s.evidence[id].content.Evidence? && s.evidence[id].content.id == id)
    && (forall name :: name in s.manifests ==>
          s.manifests[name].content.Manifest? && s.manifests[name].content.name == name)
    && (forall id :: id in s.learning ==> s.learning[id].content.Learning?)
  }

  /** `_load_evidence`: every id must be there. */
  predicate AllPresent(s: Store, ids: seq<string>) {
    forall id :: id in ids ==> id in s.evidence
  }

  function Load(s: Store, ids: seq<string>): (records: seq<Artifact>)
    requires AllPresent(s, ids)
    ensures |records| == |ids| && forall i :: 0 <= i < |ids| ==> records[i] == s.evidence[ids[i]]
  {
    seq(|ids|, i requires 0 <= i < |ids| => s.evidence[ids[i]])
  }

  predicate CanPromote(s: Store, ids: seq<string>, name: string, gate: Gate) {
    && |ids| > 0 && AllPresent(s, ids) && name !in s.manifests
    && forall i :: 0 <= i < |ids| ==> s.evidence[ids[i]].content.Evidence? && gate(s.evidence[ids[i]].content)
  }

  predicate CanLearn(s: Store, name: string, id: string) {
    && name in s.manifests && s.manifests[name].content.Manifest?
    && s.manifests[name].content.sourceId in s.evidence
    && s.evidence[s.manifests[name].content.sourceId].content.Evidence?
    && id !in s.learning
  }

  /** The patch is there to be decided on: manifest, export and a 1-based index in range. */
  predicate CanDecide(s: Store, name: string, learningId: string, kind: PatchKind, index: nat) {
    && name in s.manifests && s.manifests[name].content.Manifest?
    && learningId in s.learning && s.learning[learningId].content.Learning?
    && 1 <= index <= |s.learning[learningId].content.offered.Get(kind)|
  }

  function Learned(sha: Hash, s: Store, name: string, id: string, offered: Patches, body: string): Artifact
    requires CanLearn(s, name, id)
  {
    var source := s.evidence[s.manifests[name].content.sourceId];
    LearningExport(sha, source, Learning(id, source.content.id, offered, body))
  }

  function Decided(
    sha: Hash, s: Store, name: string, learningId: string, kind: PatchKind, index: nat, accepted: bool,
    id: string): Artifact
    requires CanDecide(s, name, learningId, kind, index)
  {
    var exported := s.learning[learningId];
    var patch := exported.content.offered.Get(kind)[index - 1];
    PatchDecision(sha, exported, Decision(id, learningId, kind, patch, accepted, accepted))
  }

  function Step(sha: Hash, s: Store, e: Event): Store {
    match e
    case WriteEvidence(record) =>
      if record.content.Evidence? && record.content.id !in s.evidence
      then s.(evidence := s.evidence[record.content.id := record]) else s
    case Promote(ids, name, body, gate) =>
      if CanPromote(s, ids, name, gate)
      then s.(manifests := s.manifests[name := Promoted(sha, Load(s, ids), name, body)]) else s
    case RewriteCard(name) =>
      if name in s.manifests && s.manifests[name].content.Manifest?
      then s.(manifests := s.manifests[s.manifests[name].content.name := s.manifests[name]]) else s
    case Learn(name, id, offered, body) =>
      if CanLearn(s, name, id) then s.(learning := s.learning[id := Learned(sha, s, name, id, offered, body)]) else s
    case ApplyPatch(name, learningId, kind, index, accepted, decisionId) =>
      if !CanDecide(s, name, learningId, kind, index) then s
      else
        var patch := s.learning[learningId].content.offered.Get(kind)[index - 1];
        Store(
          s.evidence,
          if accepted
          then s.manifests[s.manifests[name].content.name := Accepted(sha, s.manifests[name], kind, patch)]
          else s.manifests,
          s.learning,
          if decisionId in s.decisions then s.decisions
          else s.decisions[decisionId := Decided(sha, s, name, learningId, kind, index, accepted, decisionId)])
    case OtherWrite => s
  }

  function History(sha: Hash, s: Store, es: seq<Event>): Store
    decreases |es|
  {
    if |es| == 0 then s else History(sha, Step(sha, s, es[0]), es[1..])
  }

  /** The event accepts a patch of `name`, and the patch is there. */
  predicate Accepts(s: Store, e: Event, name: string) {
    e.ApplyPatch? && e.name == name && e.accepted && CanDecide(s, name, e.learningId, e.kind, e.index)
  }

  /** How many accepted patches of `name` take effect along the history. */
  function AcceptedCount(sha: Hash, s: Store, es: seq<Event>, name: string): nat
    decreases |es|
  {
    if |es| == 0 then 0
    else
      var e := es[0];
      (if Accepts(s, e, name) then 1 else 0)
      + AcceptedCount(sha, Step(sha, s, e), es[1..], name)
  }

  // ---- What the history keeps ----------------------------------------------

  /** Evidence is never rewritten or removed. */
  ghost predicate EvidenceKept(before: Store, after: Store) {
    forall id :: id in before.evidence ==> id in after.evidence && after.evidence[id] == before.evidence[id]
  }

  lemma {:induction false} StepKeepsKeys(sha: Hash, s: Store, e: Event)
    requires WellKeyed(s)
    ensures WellKeyed(Step(sha, s, e)) && EvidenceKept(s, Step(sha, s, e))
  {
  }

  /** More evidence, with the linked records unchanged, cannot make a manifest fail. */
  lemma {:induction false} MoreEvidence(sha: Hash, m: Artifact, name: string, before: Store, after: Store)
    requires Verifies(sha, m, CapabilityType, name, before.evidence) && EvidenceKept(before, after)
    ensures Verifies(sha, m, CapabilityType, name, after.evidence)
  {
    if m.content.Manifest? {
      forall i: nat | i < |m.chain|
        ensures SourceHolds(sha, m.chain[i], after.evidence)
      {
        assert SourceHolds(sha, m.chain[i], before.evidence);
      }
    }
  }

  ghost predicate VerifiedManifest(sha: Hash, s: Store, name: string) {
    name in s.manifests && Verifies(sha, s.manifests[name], CapabilityType, name, s.evidence)
  }

  lemma {:induction false} StepKeepsVerified(sha: Hash, s: Store, e: Event, name: string)
    requires WellKeyed(s) && VerifiedManifest(sha, s, name)
    ensures var s' := Step(sha, s, e);
            && VerifiedManifest(sha, s', name)
            && s.manifests[name].chain <= s'.manifests[name].chain
            && |s'.manifests[name].chain| ==
                 |s.manifests[name].chain|
                 + if Accepts(s, e, name) then 1 else 0
  {
    StepKeepsKeys(sha, s, e);
    MoreEvidence(sha, s.manifests[name], name, s, Step(sha, s, e));
    if Accepts(s, e, name) {
      var patch := s.learning[e.learningId].content.offered.Get(e.kind)[e.index - 1];
      AcceptedVerifies(sha, s.manifests[name], e.kind, patch, s.evidence);
    }
  }

  /**
   A verifying manifest verifies after any later history of evidence, promotions,
   card rewrites, learning exports, accepted and rejected patches and other writes;
   its chain only grows, by one link per accepted patch.
   */
  lemma {:induction false} VerifiesForever(sha: Hash, s: Store, es: seq<Event>, name: string)
    requires WellKeyed(s) && VerifiedManifest(sha, s, name)
    ensures var s' := History(sha, s, es);
            && VerifiedManifest(sha, s', name)
            && s.manifests[name].chain <= s'.manifests[name].chain
            && |s'.manifests[name].chain| == |s.manifests[name].chain| + AcceptedCount(sha, s, es, name)
    decreases |es|
  {
    if |es| > 0 {
      StepKeepsVerified(sha, s, es[0], name);
      StepKeepsKeys(sha, s, es[0]);
      VerifiesForever(sha, Step(sha, s, es[0]), es[1..], name);
    }
  }

  /** From evidence that carries only its own link: promote, then anything; the manifest verifies. */
  lemma {:induction false} PromotedVerifiesForever(
    sha: Hash, s: Store, ids: seq<string>, name: string, body: string, gate: Gate, es: seq<Event>)
    requires WellKeyed(s) && CanPromote(s, ids, name, gate)
    requires forall id :: id in ids ==> OwnChain(sha, s.evidence[id])
    ensures var promoted := Step(sha, s, Promote(ids, name, body, gate));
            var s' := History(sha, promoted, es);
            && VerifiedManifest(sha, s', name)
            && |s'.manifests[name].chain| == |ids| + 1 + AcceptedCount(sha, promoted, es, name)
  {
    var promoted := Step(sha, s, Promote(ids, name, body, gate));
    var sources := Load(s, ids);
    forall i | 0 <= i < |sources|
      ensures sources[i].content.Evidence? && OwnChain(sha, sources[i])
      ensures sources[i].content.id in s.evidence && s.evidence[sources[i].content.id] == sources[i]
    {
      assert ids[i] in ids;
    }
    PromotedVerifies(sha, sources, name, body, s.evidence);
    StepKeepsKeys(sha, s, Promote(ids, name, body, gate));
    VerifiesForever(sha, promoted, es, name);
  }

  /** Every export's last link, and so every decision's first one, names a predecessor. */
  ghost predicate LinksHavePredecessors(s: Store) {
    && (forall id :: id in s.learning ==>
          s.learning[id].content.Learning? && |s.learning[id].chain| == 2 && s.learning[id].chain[1].previous.Some?)
    && (forall id :: id in s.decisions ==>
          |s.decisions[id].chain| > 0 && s.decisions[id].chain[0].previous.Some?)
  }

  lemma {:induction false} StepKeepsPredecessors(sha: Hash, s: Store, e: Event)
    requires LinksHavePredecessors(s)
    ensures LinksHavePredecessors(Step(sha, s, e))
  {
  }

  lemma {:induction false} HistoryKeepsPredecessors(sha: Hash, s: Store, es: seq<Event>)
    requires LinksHavePredecessors(s)
    ensures LinksHavePredecessors(History(sha, s, es))
    decreases |es|
  {
    if |es| > 0 {
      StepKeepsPredecessors(sha, s, es[0]);
      HistoryKeepsPredecessors(sha, Step(sha, s, es[0]), es[1..]);
    }
  }

  /**
   Whereas every decision ever stored fails verification: from a store without
   exports and decisions, whatever is captured, promoted, learned and patched, no
   stored decision verifies, under any id and against any evidence.
   */
  lemma {:induction false} StoredDecisionFails(
    sha: Hash, s: Store, es: seq<Event>, decisionId: string, id: string, evidence: map<string, Artifact>)
    requires s.learning == map[] && s.decisions == map[]
    requires decisionId in History(sha, s, es).decisions
    ensures !Verifies(sha, History(sha, s, es).decisions[decisionId], DecisionType, id, evidence)
  {
    HistoryKeepsPredecessors(sha, s, es);
    var decision := History(sha, s, es).decisions[decisionId];
    assert !PreviousFound(decision.chain, 0);
  }

  /** Such decisions are stored: learning and then deciding on a patch, with a new decision id, stores one. */
  lemma {:induction false} DecisionsAreStored(
    sha: Hash, s: Store, learn: Event, apply: Event)
    requires learn.Learn? && CanLearn(s, learn.name, learn.id)
    requires apply.ApplyPatch? && apply.learningId == learn.id && apply.decisionId !in s.decisions
    requires CanDecide(Step(sha, s, learn), apply.name, apply.learningId, apply.kind, apply.index)
    ensures apply.decisionId in History(sha, s, [learn, apply]).decisions
    ensures !Verifies(sha, History(sha, s, [learn, apply]).decisions[apply.decisionId], DecisionType, apply.decisionId,
                      History(sha, s, [learn, apply]).evidence)
  {
    var s1 := Step(sha, s, learn);
    var s2 := Step(sha, s1, apply);
    assert [learn, apply][1..] == [apply] && [apply][1..] == [];
    assert History(sha, s1, [apply]) == History(sha, s2, []) == s2;
    assert History(sha, s, [learn, apply]) == s2;
    var decision := s2.decisions[apply.decisionId];
    assert !PreviousFound(decision.chain, 0);
  }

  // ---- The workflows -------------------------------------------------------

  datatype StoreError =
    | NotFound(id: string)
    | DuplicateWrite(id: string)
    | PatchIndex(index: nat, count: nat)
    | NoEvidence
    | QualityGate
    | Unparsable(id: string)

  /** The later manifest is the earlier one with one more patch of the kind, and nothing else changed. */
  ghost predicate PatchAdded(before: Content, after: Content, kind: PatchKind, patch: string)
    requires before.Manifest?
  {
    && after.Manifest? && after.name == before.name && after.sourceId == before.sourceId && after.body == before.body
    && after.patches.prompt == before.patches.prompt + (if kind == PromptPatch then [patch] else [])
    && after.patches.context == before.patches.context + (if kind == ContextPatch then [patch] else [])
    && after.patches.harness == before.patches.harness + (if kind == HarnessPatch then [patch] else [])
  }

  lemma {:induction false} AcceptedAdds(sha: Hash, m: Artifact, kind: PatchKind, patch: string)
    requires m.content.Manifest?
    ensures PatchAdded(m.content, Accepted(sha, m, kind, patch).content, kind, patch)
  {
  }

  class Directories {
    var evidence: map<string, Artifact>
    var manifests: map<string, Artifact>
    var learning: map<string, Artifact>
    var decisions: map<string, Artifact>

    function Contents(): Store
      reads this
    {
      Store(evidence, manifests, learning, decisions)
    }

    constructor ()
      ensures Contents() == Store(map[], map[], map[], map[]) && WellKeyed(Contents())
    {
      evidence, manifests, learning, decisions := map[], map[], map[], map[];
    }

    method StoreEvidence(sha: Hash, record: Artifact) returns (r: Result<string, StoreError>)
      requires record.content.Evidence?
      modifies this
      ensures old(WellKeyed(Contents())) ==> WellKeyed(Contents())
      ensures Contents() == Step(sha, old(Contents()), WriteEvidence(record))
      ensures r.Err? <==> record.content.id in old(evidence)
    {
      if record.content.id in evidence {
        return Err(DuplicateWrite(record.content.id));
      }
      evidence := evidence[record.content.id := record];
      r := Ok(record.content.id);
    }

    /** Loads the evidence one by one, has it pass the gate, links it, and creates the package. */
    method RunPromote(sha: Hash, ids: seq<string>, name: string, body: string, gate: Gate)
      returns (r: Result<string, StoreError>)
      modifies this
      ensures old(WellKeyed(Contents())) ==> WellKeyed(Contents())
      ensures Contents() == Step(sha, old(Contents()), Promote(ids, name, body, gate))
      ensures r.Ok? <==>
                && |ids| > 0 && name !in old(manifests)
                && forall id :: id in ids ==>
                     id in old(evidence) && old(evidence)[id].content.Evidence? && gate(old(evidence)[id].content)
      ensures r == Err(QualityGate) <==>
                && |ids| > 0 && AllPresent(old(Contents()), ids)
                && (forall id :: id in ids ==> old(evidence)[id].content.Evidence?)
                && exists id :: id in ids && !gate(old(evidence)[id].content)
      ensures r.Ok? ==>
                && manifests.Keys == old(manifests).Keys + {name}
                && manifests[name].content ==
                     Manifest(name, old(evidence)[ids[0]].content.id, body, Patches([], [], []))
                && |manifests[name].chain| == |ids| + 1
      ensures r.Err? ==> manifests == old(manifests)
    {
      if |ids| == 0 {
        return Err(NoEvidence);
      }
      var records: seq<Artifact> := [];
      for i := 0 to |ids|
        invariant |records| == i && Contents() == old(Contents())
        invariant forall j :: 0 <= j < i ==>
                    ids[j] in evidence && records[j] == evidence[ids[j]] && records[j].content.Evidence?
      {
        if ids[i] !in evidence {
          return Err(NotFound(ids[i]));
        }
        if !evidence[ids[i]].content.Evidence? {
          return Err(Unparsable(ids[i]));
        }
        records := records + [evidence[ids[i]]];
      }
      assert AllPresent(Contents(), ids) by {
        forall id | id in ids ensures id in evidence { var j :| 0 <= j < |ids| && ids[j] == id; }
      }
      assert records == Load(Contents(), ids);
      if exists i | 0 <= i < |records| :: !gate(records[i].content) {
        return Err(QualityGate);
      }
      assert forall id :: id in ids ==> gate(evidence[id].content);
      if name in manifests {
        return Err(DuplicateWrite(name));
      }
      manifests := manifests[name := Promoted(sha, records, name, body)];
      r := Ok(name);
    }

    method RunLearn(
      sha: Hash, name: string, id: string, offered: Patches, body: string)
      returns (r: Result<string, StoreError>)
      modifies this
      ensures old(WellKeyed(Contents())) ==> WellKeyed(Contents())
      ensures Contents() == Step(sha, old(Contents()), Learn(name, id, offered, body))
      ensures r.Ok? <==>
                && name in old(manifests) && old(manifests)[name].content.Manifest?
                && old(manifests)[name].content.sourceId in old(evidence)
                && old(evidence)[old(manifests)[name].content.sourceId].content.Evidence?
                && id !in old(learning)
      ensures r.Ok? ==>
                && learning.Keys == old(learning).Keys + {id}
                && learning[id].content ==
                     Learning(id, old(evidence)[old(manifests)[name].content.sourceId].content.id, offered, body)
      ensures r.Err? ==> learning == old(learning)
    {
      if name !in manifests {
        return Err(NotFound(name));
      }
      var manifest := manifests[name].content;
      if !manifest.Manifest? {
        return Err(Unparsable(name));
      }
      if manifest.sourceId !in evidence {
        return Err(NotFound(manifest.sourceId));
      }
      var source := evidence[manifest.sourceId];
      if !source.content.Evidence? {
        return Err(Unparsable(manifest.sourceId));
      }
      var exported := LearningExport(sha, source, Learning(id, source.content.id, offered, body));
      if id in learning {
        return Err(DuplicateWrite(id));
      }
      learning := learning[id := exported];
      r := Ok(id);
    }

    /** The manifest is replaced before the decision is written, so a refused decision keeps the patch. */
    method ApplyLearningPatch(
      sha: Hash, name: string, learningId: string, kind: PatchKind, index: nat, accepted: bool,
      decisionId: string)
      returns (r: Result<bool, StoreError>)
      requires index >= 1
      modifies this
      ensures old(WellKeyed(Contents())) ==> WellKeyed(Contents())
      ensures Contents() == Step(sha, old(Contents()), ApplyPatch(name, learningId, kind, index, accepted, decisionId))
      ensures var decides :=
                && name in old(manifests) && old(manifests)[name].content.Manifest?
                && learningId in old(learning) && old(learning)[learningId].content.Learning?
                && index <= |old(learning)[learningId].content.offered.Get(kind)|;
              && (r.Ok? <==> decides && decisionId !in old(decisions))
              && (r.Ok? ==> r.value == accepted)
              && (decides && accepted ==>
                    && var m := old(manifests)[name].content;
                    && manifests.Keys == old(manifests).Keys + {m.name}
                    && PatchAdded(m, manifests[m.name].content, kind,
                                  old(learning)[learningId].content.offered.Get(kind)[index - 1]))
              && (!(decides && accepted) ==> manifests == old(manifests))
      ensures r.Ok? ==>
                && decisions.Keys == old(decisions).Keys + {decisionId}
                && decisions[decisionId].content ==
                     Decision(decisionId, learningId, kind,
                              old(learning)[learningId].content.offered.Get(kind)[index - 1], accepted, accepted)
    {
      if name !in manifests {
        return Err(NotFound(name));
      }
      var manifest := manifests[name];
      if !manifest.content.Manifest? {
        return Err(Unparsable(name));
      }
      if learningId !in learning {
        return Err(NotFound(learningId));
      }
      var exported := learning[learningId];
      if !exported.content.Learning? {
        return Err(Unparsable(learningId));
      }
      var patches := exported.content.offered.Get(kind);
      if index > |patches| {
        return Err(PatchIndex(index, |patches|));
      }
      var patch := patches[index - 1];
      var updated := false;
      if accepted {
        AcceptedAdds(sha, manifest, kind, patch);
        manifests := manifests[manifest.content.name := Accepted(sha, manifest, kind, patch)];
        updated := true;
      }
      var decision := PatchDecision(sha, exported, Decision(decisionId, learningId, kind, patch, accepted, updated));
      if decisionId in decisions {
        return Err(DuplicateWrite(decisionId));
      }
      decisions := decisions[decisionId := decision];
      r := Ok(updated);
    }

    /** `run_card_workflow --write`: the package is rewritten from the stored manifest, under the name it carries. */
    method RewriteCard(sha: Hash, name: string) returns (r: Result<string, StoreError>)
      modifies this
      ensures old(WellKeyed(Contents())) ==> Contents() == old(Contents())
      ensures Contents() == Step(sha, old(Contents()), Event.RewriteCard(name))
      ensures r.Ok? <==> name in old(manifests) && old(manifests)[name].content.Manifest?
    {
      if name !in manifests {
        return Err(NotFound(name));
      }
      var manifest := manifests[name];
      if !manifest.content.Manifest? {
        return Err(Unparsable(name));
      }
      manifests := manifests[manifest.content.name := manifest];
      r := Ok(name);
    }
  }
}
