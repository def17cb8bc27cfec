/**
 Integrity chains: how promotion, learning and patching build them, what
 `verify_artifact` accepts, and what it keeps accepting as the store grows.
 The digest is any function of an artifact's content without its chain; nothing
 below assumes that it is free of collisions.
 */
module Integrity {
  import opened Common

  type Digest = string

  datatype PatchKind = PromptPatch | ContextPatch | HarnessPatch

  datatype Patches = Patches(prompt: seq<string>, context: seq<string>, harness: seq<string>)
  {
    function Get(kind: PatchKind): seq<string> {
      match kind case PromptPatch => prompt case ContextPatch => context case HarnessPatch => harness
    }

    function Add(kind: PatchKind, patch: string): (p: Patches)
      ensures p.Get(kind) == Get(kind) + [patch]
      ensures forall k :: k != kind ==> p.Get(k) == Get(k)
    {
      match kind
      case PromptPatch => this.(prompt := prompt + [patch])
      case ContextPatch => this.(context := context + [patch])
      case HarnessPatch => this.(harness := harness + [patch])
    }
  }

  /** What is hashed: a record without its integrity_chain.  `body` stands for the fields not modelled. */
  datatype Content =
    | Evidence(id: string, body: string)
    | Manifest(name: string, sourceId: string, body: string, patches: Patches)
    | Learning(id: string, sourceEvidenceId: string, offered: Patches, body: string)
    | Decision(id: string, learningId: string, kind: PatchKind, patch: string, accepted: bool, updatedManifest: bool)

  datatype ArtifactType = EvidenceType | CapabilityType | LearningType | DecisionType

  type Hash = Content -> Digest

  datatype Link = Link(artifactType: ArtifactType, id: string, sha: Digest, previous: Option<Digest>)

  datatype Artifact = Artifact(content: Content, chain: seq<Link>)

  /** `integrity_link`. */
  function NewLink(sha: Hash, t: ArtifactType, id: string, content: Content, previous: Option<Digest>): Link {
    Link(t, id, sha(content), previous)
  }

  /** `append_integrity_link`. */
  function AppendLink(sha: Hash, a: Artifact, t: ArtifactType, id: string, previous: Option<Digest>): Artifact {
    a.(chain := a.chain + [NewLink(sha, t, id, a.content, previous)])
  }

  /** The link other artifacts embed: the last of the chain, or a fresh one for an unchained record. */
  function EmbeddedLink(sha: Hash, a: Artifact, t: ArtifactType, id: string): Link {
    if |a.chain| > 0 then a.chain[|a.chain| - 1] else NewLink(sha, t, id, a.content, None)
  }

  /** An artifact is cited by its own last link; one without a chain by the hash of its content, with no predecessor. */
  lemma {:induction false} EmbeddedLinkExactly(sha: Hash, a: Artifact, t: ArtifactType, id: string)
    ensures a.chain == [] ==> EmbeddedLink(sha, a, t, id) == Link(t, id, sha(a.content), None)
    ensures forall front, last :: a.chain == front + [last] ==> EmbeddedLink(sha, a, t, id) == last
  {
  }

  // ---- Verification --------------------------------------------------------

  datatype Check = Check(artifactType: ArtifactType, id: string, pass: bool)

  ghost predicate PreviousFound(chain: seq<Link>, i: nat)
    requires i < |chain|
  {
    chain[i].previous.Some? ==> exists j: nat :: j < i && chain[j].sha == chain[i].previous.value
  }

  ghost predicate PreviousLinksHold(chain: seq<Link>) {
    forall i: nat :: i < |chain| ==> PreviousFound(chain, i)
  }

  ghost predicate SelfHolds(sha: Hash, a: Artifact, t: ArtifactType, id: string) {
    && |a.chain| > 0
    && var last := a.chain[|a.chain| - 1];
       last.sha == sha(a.content) && last.artifactType == t && last.id == id
  }

  /** A link to source evidence is backed by the evidence file as it is now. */
  ghost predicate SourceHolds(sha: Hash, link: Link, evidence: map<string, Artifact>) {
    link.artifactType == EvidenceType ==> link.id in evidence && sha(evidence[link.id].content) == link.sha
  }

  ghost predicate SourcesHold(sha: Hash, chain: seq<Link>, evidence: map<string, Artifact>) {
    forall i: nat :: i < |chain| ==> SourceHolds(sha, chain[i], evidence)
  }

  /** What it means for an artifact to verify. */
  ghost predicate Verifies(sha: Hash, a: Artifact, t: ArtifactType, id: string, evidence: map<string, Artifact>) {
    && SelfHolds(sha, a, t, id)
    && PreviousLinksHold(a.chain)
    && (a.content.Manifest? ==> SourcesHold(sha, a.chain, evidence))
  }

  predicate AllPass(checks: seq<Check>) {
    forall c :: c in checks ==> c.pass
  }

  /** The loop of `_previous_link_checks`, with the inner `any`. */
  method PreviousLinkChecks(t: ArtifactType, id: string, chain: seq<Link>) returns (checks: seq<Check>)
    ensures AllPass(checks) <==> PreviousLinksHold(chain)
  {
    checks := [];
    for index := 0 to |chain|
      invariant AllPass(checks) <==> forall i: nat :: i < index ==> PreviousFound(chain, i)
    {
      var link := chain[index];
      if link.previous.Some? {
        var matched := exists j | 0 <= j < index :: chain[j].sha == link.previous.value;
        assert matched <==> PreviousFound(chain, index);
        checks := checks + [Check(t, id, matched)];
      }
    }
  }

  /** The loop of `_capability_source_checks`. */
  method CapabilitySourceChecks(sha: Hash, a: Artifact, evidence: map<string, Artifact>) returns (checks: seq<Check>)
    ensures AllPass(checks) <==> (a.content.Manifest? ==> SourcesHold(sha, a.chain, evidence))
  {
    checks := [];
    if !a.content.Manifest? {
      return;
    }
    for index := 0 to |a.chain|
      invariant AllPass(checks) <==> forall i: nat :: i < index ==> SourceHolds(sha, a.chain[i], evidence)
    {
      var link := a.chain[index];
      if link.artifactType == EvidenceType {
        if link.id !in evidence {
          checks := checks + [Check(EvidenceType, link.id, false)];
        } else {
          checks := checks + [Check(EvidenceType, link.id, sha(evidence[link.id].content) == link.sha)];
        }
      }
    }
  }

  /** `verify_artifact` on a loaded artifact: it passes exactly when the artifact verifies. */
  method VerifyArtifact(
    sha: Hash, a: Artifact, t: ArtifactType, id: string, evidence: map<string, Artifact>)
    returns (pass: bool)
    ensures pass <==> Verifies(sha, a, t, id, evidence)
  {
    var checks: seq<Check>;
    if |a.chain| == 0 {
      checks := [Check(t, id, false)];
    } else {
      var last := a.chain[|a.chain| - 1];
      checks := [Check(t, id, sha(a.content) == last.sha), Check(t, id, last.artifactType == t && last.id == id)];
      var previous := PreviousLinkChecks(t, id, a.chain);
      checks := checks + previous;
    }
    var sources := CapabilitySourceChecks(sha, a, evidence);
    var all := checks + sources;
    pass := forall i | 0 <= i < |all| :: all[i].pass;
    assert pass <==> AllPass(checks) && AllPass(sources) by {
      assert forall c :: c in all <==> c in checks || c in sources;
      if pass {
        forall c | c in all ensures c.pass { var i :| 0 <= i < |all| && all[i] == c; }
      }
    }
    if |a.chain| > 0 {
      assert AllPass(checks) ==> checks[0].pass && checks[1].pass by {
        if AllPass(checks) { assert checks[0] in checks && checks[1] in checks; }
      }
    } else {
      assert checks[0] in checks;
    }
  }

  /** The three conditions in links and hashes. */
  lemma {:induction false} VerifiesExactly(
    sha: Hash, a: Artifact, t: ArtifactType, id: string, evidence: map<string, Artifact>)
    ensures var chain, n := a.chain, |a.chain|;
            Verifies(sha, a, t, id, evidence) <==>
              && n > 0 && chain[n - 1].artifactType == t && chain[n - 1].id == id && chain[n - 1].sha == sha(a.content)
              && (forall i :: 0 <= i < n && chain[i].previous.Some? ==>
                    exists j :: 0 <= j < i && chain[j].sha == chain[i].previous.value)
              && (a.content.Manifest? ==>
                    forall i :: 0 <= i < n && chain[i].artifactType == EvidenceType ==>
                      chain[i].id in evidence && sha(evidence[chain[i].id].content) == chain[i].sha)
  {
    assert PreviousLinksHold(a.chain) <==>
      forall i :: 0 <= i < |a.chain| && a.chain[i].previous.Some? ==>
        exists j :: 0 <= j < i && a.chain[j].sha == a.chain[i].previous.value by {
      forall i: nat | i < |a.chain|
        ensures PreviousFound(a.chain, i) <==>
          (a.chain[i].previous.Some? ==> exists j :: 0 <= j < i && a.chain[j].sha == a.chain[i].previous.value)
      {
        if a.chain[i].previous.Some? {
          if j :| 0 <= j < i && a.chain[j].sha == a.chain[i].previous.value {
            assert PreviousFound(a.chain, i);
          }
        }
      }
    }
    assert SourcesHold(sha, a.chain, evidence) <==>
      forall i: nat :: i < |a.chain| ==> SourceHolds(sha, a.chain[i], evidence);
  }

  /** An artifact that verifies does so under one type and one id only. */
  lemma {:induction false} VerifiesUnderOneName(
    sha: Hash, a: Artifact, t: ArtifactType, id: string, t': ArtifactType, id': string,
    evidence: map<string, Artifact>)
    requires Verifies(sha, a, t, id, evidence)
    ensures Verifies(sha, a, t', id', evidence) <==> t' == t && id' == id
  {
  }

  // ---- Extending chains ----------------------------------------------------

  lemma {:induction false} PreviousInPrefix(chain: seq<Link>, link: Link, i: nat)
    requires i < |chain|
    ensures PreviousFound(chain + [link], i) <==> PreviousFound(chain, i)
  {
    var longer := chain + [link];
    if chain[i].previous.Some? {
      if j: nat :| j < i && chain[j].sha == chain[i].previous.value {
        assert longer[j].sha == longer[i].previous.value;
      }
      if j: nat :| j < i && longer[j].sha == longer[i].previous.value {
        assert chain[j].sha == chain[i].previous.value;
      }
    }
  }

  /** Appending one link keeps the earlier ones and adds exactly its own condition. */
  lemma {:induction false} PreviousAfterAppend(chain: seq<Link>, link: Link)
    ensures PreviousLinksHold(chain + [link]) <==> PreviousLinksHold(chain) && PreviousFound(chain + [link], |chain|)
  {
    var longer := chain + [link];
    if PreviousLinksHold(longer) {
      forall i: nat | i < |chain| ensures PreviousFound(chain, i) {
        assert PreviousFound(longer, i);
        PreviousInPrefix(chain, link, i);
      }
    }
    if PreviousLinksHold(chain) && PreviousFound(longer, |chain|) {
      forall i: nat | i < |longer| ensures PreviousFound(longer, i) {
        if i < |chain| {
          assert PreviousFound(chain, i);
          PreviousInPrefix(chain, link, i);
        }
      }
    }
  }

  /**
   Embedding another artifact's last link and appending one's own: the previous-link
   check passes exactly when the embedded link has no predecessor.
   */
  lemma {:induction false} EmbeddingLastLink(embedded: Link, own: Link)
    requires own.previous == Some(embedded.sha)
    ensures PreviousLinksHold([embedded, own]) <==> embedded.previous.None?
  {
    var chain := [embedded, own];
    assert PreviousFound(chain, 1) by { assert chain[0].sha == embedded.sha; }
    if embedded.previous.Some? {
      assert !PreviousFound(chain, 0);
    }
  }

  /** Embedding the whole chain instead passes exactly when that chain does. */
  lemma {:induction false} EmbeddingWholeChain(chain: seq<Link>, own: Link)
    requires |chain| > 0 && own.previous == Some(chain[|chain| - 1].sha)
    ensures PreviousLinksHold(chain + [own]) <==> PreviousLinksHold(chain)
  {
    PreviousAfterAppend(chain, own);
    assert (chain + [own])[|chain| - 1].sha == own.previous.value;
  }

  // ---- Promotion -----------------------------------------------------------

  /** The evidence part of a manifest's chain: the embedded link of every source record. */
  function EvidenceLinks(sha: Hash, sources: seq<Artifact>): (links: seq<Link>)
    requires forall i :: 0 <= i < |sources| ==> sources[i].content.Evidence?
    ensures |links| == |sources|
    ensures forall i :: 0 <= i < |sources| ==>
              links[i] == EmbeddedLink(sha, sources[i], EvidenceType, sources[i].content.id)
  {
    seq(|sources|, i requires 0 <= i < |sources| => EmbeddedLink(sha, sources[i], EvidenceType, sources[i].content.id))
  }

  /** The chain building of `_build_manifest`. */
  function Promoted(sha: Hash, sources: seq<Artifact>, name: string, body: string): Artifact
    requires |sources| > 0 && forall i :: 0 <= i < |sources| ==> sources[i].content.Evidence?
  {
    var links := EvidenceLinks(sha, sources);
    var content := Manifest(name, sources[0].content.id, body, Patches([], [], []));
    AppendLink(sha, Artifact(content, links), CapabilityType, name,
               Some(links[|links| - 1].sha))
  }

  /** A promoted manifest cites its sources in order, and then itself as what follows the last of them. */
  lemma {:induction false} PromotedChain(sha: Hash, sources: seq<Artifact>, name: string, body: string)
    requires |sources| > 0 && forall i :: 0 <= i < |sources| ==> sources[i].content.Evidence?
    ensures var m, n := Promoted(sha, sources, name, body), |sources|;
            && |m.chain| == n + 1
            && (forall i :: 0 <= i < n ==>
                  && (sources[i].chain == [] ==>
                        m.chain[i] == Link(EvidenceType, sources[i].content.id, sha(sources[i].content), None))
                  && (sources[i].chain != [] ==> m.chain[i] == sources[i].chain[|sources[i].chain| - 1]))
            && m.chain[n] == Link(CapabilityType, name, sha(m.content), Some(m.chain[n - 1].sha))
  {
  }

  /** An evidence record as capture, session and import write it: its own link and no other. */
  ghost predicate OwnChain(sha: Hash, a: Artifact) {
    && a.content.Evidence?
    && (a.chain == [] || a.chain == [NewLink(sha, EvidenceType, a.content.id, a.content, None)])
  }

  /** The sources are the stored evidence files of their ids. */
  ghost predicate StoredSources(sources: seq<Artifact>, evidence: map<string, Artifact>) {
    forall i :: 0 <= i < |sources| ==>
      sources[i].content.Evidence? && sources[i].content.id in evidence && evidence[sources[i].content.id] == sources[i]
  }

  /**
   A fresh manifest verifies exactly when each embedded evidence link finds its
   predecessor among the links before it and is backed by the evidence it names.
   */
  lemma {:induction false} PromotedVerifiesExactly(
    sha: Hash, sources: seq<Artifact>, name: string, body: string, evidence: map<string, Artifact>)
    requires |sources| > 0 && forall i :: 0 <= i < |sources| ==> sources[i].content.Evidence?
    ensures Verifies(sha, Promoted(sha, sources, name, body), CapabilityType, name, evidence) <==>
            var links := EvidenceLinks(sha, sources);
            PreviousLinksHold(links) && SourcesHold(sha, links, evidence)
  {
    var links := EvidenceLinks(sha, sources);
    var m := Promoted(sha, sources, name, body);
    var own := m.chain[|links|];
    assert m.chain == links + [own];
    EmbeddingWholeChain(links, own);
    if SourcesHold(sha, m.chain, evidence) {
      forall i: nat | i < |links|
        ensures SourceHolds(sha, links[i], evidence)
      {
        assert SourceHolds(sha, m.chain[i], evidence);
      }
    }
  }

  /** From evidence with its own chain, every promotion verifies. */
  lemma {:induction false} PromotedVerifies(
    sha: Hash, sources: seq<Artifact>, name: string, body: string, evidence: map<string, Artifact>)
    requires |sources| > 0 && StoredSources(sources, evidence)
    requires forall i :: 0 <= i < |sources| ==> OwnChain(sha, sources[i])
    ensures Verifies(sha, Promoted(sha, sources, name, body), CapabilityType, name, evidence)
  {
    PromotedVerifiesExactly(sha, sources, name, body, evidence);
    var links := EvidenceLinks(sha, sources);
    forall i: nat | i < |links|
      ensures PreviousFound(links, i) && SourceHolds(sha, links[i], evidence)
    {
      assert OwnChain(sha, sources[i]);
    }
  }

  // ---- Learning exports and patch decisions --------------------------------

  /** The chain building of `_build_learning_export`. */
  function LearningExport(sha: Hash, source: Artifact, content: Content): Artifact
    requires source.content.Evidence? && content.Learning?
  {
    var link := EmbeddedLink(sha, source, EvidenceType, source.content.id);
    AppendLink(sha, Artifact(content, [link]), LearningType, content.id, Some(link.sha))
  }

  /** The chain building of `apply_learning_patch`. */
  function PatchDecision(sha: Hash, exported: Artifact, content: Content): Artifact
    requires exported.content.Learning? && content.Decision?
  {
    var link := EmbeddedLink(sha, exported, LearningType, exported.content.id);
    AppendLink(sha, Artifact(content, [link]), DecisionType, content.id, Some(link.sha))
  }

  /** An export and a decision cite what they are about, and then themselves as what follows it. */
  lemma {:induction false} CitingChains(sha: Hash, a: Artifact, content: Content)
    ensures a.content.Evidence? && content.Learning? ==>
              var cited := EmbeddedLink(sha, a, EvidenceType, a.content.id);
              LearningExport(sha, a, content).chain ==
                [cited, Link(LearningType, content.id, sha(content), Some(cited.sha))]
    ensures a.content.Learning? && content.Decision? ==>
              var cited := EmbeddedLink(sha, a, LearningType, a.content.id);
              PatchDecision(sha, a, content).chain ==
                [cited, Link(DecisionType, content.id, sha(content), Some(cited.sha))]
  {
  }

  /** A learning export verifies exactly when the evidence link it embeds has no predecessor. */
  lemma {:induction false} LearningVerifiesExactly(
    sha: Hash, source: Artifact, content: Content, evidence: map<string, Artifact>)
    requires source.content.Evidence? && content.Learning?
    ensures Verifies(sha, LearningExport(sha, source, content), LearningType, content.id, evidence) <==>
            EmbeddedLink(sha, source, EvidenceType, source.content.id).previous.None?
  {
    var a := LearningExport(sha, source, content);
    assert a.chain == [a.chain[0], a.chain[1]];
    EmbeddingLastLink(a.chain[0], a.chain[1]);
  }

  /** A patch decision verifies exactly when the link it embeds has no predecessor. */
  lemma {:induction false} DecisionVerifiesExactly(
    sha: Hash, exported: Artifact, content: Content, evidence: map<string, Artifact>)
    requires exported.content.Learning? && content.Decision?
    ensures Verifies(sha, PatchDecision(sha, exported, content), DecisionType, content.id, evidence) <==>
            EmbeddedLink(sha, exported, LearningType, exported.content.id).previous.None?
  {
    var a := PatchDecision(sha, exported, content);
    assert a.chain == [a.chain[0], a.chain[1]];
    EmbeddingLastLink(a.chain[0], a.chain[1]);
  }

  /**
   So a decision on any export that the learn workflow wrote fails verification,
   although the export itself may verify; with the export's whole chain embedded it
   would verify whenever the export does.
   */
  lemma {:induction false} LearnedDecisionNeverVerifies(
    sha: Hash, source: Artifact, learned: Content, decided: Content, evidence: map<string, Artifact>)
    requires source.content.Evidence? && learned.Learning? && decided.Decision?
    ensures var exported := LearningExport(sha, source, learned);
            && !Verifies(sha, PatchDecision(sha, exported, decided), DecisionType, decided.id, evidence)
            && (Verifies(sha, exported, LearningType, learned.id, evidence) ==>
                  Verifies(sha,
                           AppendLink(sha, Artifact(decided, exported.chain), DecisionType, decided.id,
                                      Some(exported.chain[|exported.chain| - 1].sha)),
                           DecisionType, decided.id, evidence))
  {
    var exported := LearningExport(sha, source, learned);
    DecisionVerifiesExactly(sha, exported, decided, evidence);
    var previous := Some(exported.chain[|exported.chain| - 1].sha);
    EmbeddingWholeChain(exported.chain, NewLink(sha, DecisionType, decided.id, decided, previous));
  }

  // ---- Accepted patches ----------------------------------------------------

  /** `_accepted_manifest`. */
  function Accepted(sha: Hash, m: Artifact, kind: PatchKind, patch: string): Artifact
    requires m.content.Manifest?
  {
    var content := m.content.(patches := m.content.patches.Add(kind, patch));
    AppendLink(sha, m.(content := content), CapabilityType, m.content.name,
               if |m.chain| > 0 then Some(m.chain[|m.chain| - 1].sha) else None)
  }

  /** The link an accepted patch adds: the manifest as it is now, following what was last before. */
  lemma {:induction false} AcceptedChain(sha: Hash, m: Artifact, kind: PatchKind, patch: string)
    requires m.content.Manifest?
    ensures var after := Accepted(sha, m, kind, patch);
            && |after.chain| == |m.chain| + 1 && after.chain[..|m.chain|] == m.chain
            && (m.chain == [] ==>
                  after.chain[0] == Link(CapabilityType, m.content.name, sha(after.content), None))
            && forall front, last :: m.chain == front + [last] ==>
                 after.chain[|m.chain|] == Link(CapabilityType, m.content.name, sha(after.content), Some(last.sha))
  {
  }

  /** Accepting a patch keeps a manifest verifying and lengthens its chain by one. */
  lemma {:induction false} AcceptedVerifies(
    sha: Hash, m: Artifact, kind: PatchKind, patch: string, evidence: map<string, Artifact>)
    requires m.content.Manifest? && Verifies(sha, m, CapabilityType, m.content.name, evidence)
    ensures var after := Accepted(sha, m, kind, patch);
            && Verifies(sha, after, CapabilityType, m.content.name, evidence)
            && after.chain[..|after.chain| - 1] == m.chain
            && after.content.patches.Get(kind) == m.content.patches.Get(kind) + [patch]
            && after.content.name == m.content.name
  {
    var after := Accepted(sha, m, kind, patch);
    var own := after.chain[|m.chain|];
    assert after.chain == m.chain + [own];
    EmbeddingWholeChain(m.chain, own);
    forall i: nat | i < |after.chain|
      ensures SourceHolds(sha, after.chain[i], evidence)
    {
      if i < |m.chain| { assert SourceHolds(sha, m.chain[i], evidence); }
    }
  }

  // ---- Tampering -----------------------------------------------------------

  /** Editing a verifying artifact's content goes unnoticed exactly when its digest is unchanged. */
  lemma {:induction false} TamperedContent(
    sha: Hash, a: Artifact, t: ArtifactType, id: string, evidence: map<string, Artifact>, edited: Content)
    requires Verifies(sha, a, t, id, evidence) && (edited.Manifest? <==> a.content.Manifest?)
    ensures Verifies(sha, a.(content := edited), t, id, evidence) <==> sha(edited) == sha(a.content)
  {
  }

  /** Editing or deleting a source record of a verifying manifest: likewise. */
  lemma {:induction false} TamperedSource(
    sha: Hash, m: Artifact, evidence: map<string, Artifact>, after: map<string, Artifact>, i: nat)
    requires m.content.Manifest? && Verifies(sha, m, CapabilityType, m.content.name, evidence)
    requires i < |m.chain| && m.chain[i].artifactType == EvidenceType
    requires m.chain[i].id !in after || sha(after[m.chain[i].id].content) != sha(evidence[m.chain[i].id].content)
    ensures !Verifies(sha, m, CapabilityType, m.content.name, after)
  {
    assert SourceHolds(sha, m.chain[i], evidence);
    assert !SourceHolds(sha, m.chain[i], after);
  }

  /** The manifest an import writes: renamed if asked to, with the chain it came with. */
  function ImportedAs(m: Artifact, name: string): Artifact
    requires m.content.Manifest?
  {
    m.(content := m.content.(name := name))
  }

  /**
   When a manifest that verified where it comes from verifies where it is imported:
   exactly when it keeps its name and the evidence it links to is there, unchanged.
   An import brings no evidence along.
   */
  lemma {:induction false} ImportVerifiesExactly(
    sha: Hash, m: Artifact, name: string, evidence: map<string, Artifact>, anywhere: map<string, Artifact>)
    requires m.content.Manifest? && Verifies(sha, m, CapabilityType, m.content.name, evidence)
    ensures Verifies(sha, ImportedAs(m, name), CapabilityType, name, anywhere) <==>
              name == m.content.name && SourcesHold(sha, m.chain, anywhere)
  {
    if name == m.content.name {
      assert ImportedAs(m, name) == m;
    }
  }

  /** So a promoted manifest fails wherever one of its source records is missing, under any name. */
  lemma {:induction false} ImportWithoutEvidenceFails(
    sha: Hash, sources: seq<Artifact>, name: string, body: string, i: nat, newName: string,
    anywhere: map<string, Artifact>)
    requires i < |sources|
    requires forall j :: 0 <= j < |sources| ==> sources[j].content.Evidence? && OwnChain(sha, sources[j])
    requires sources[i].content.id !in anywhere
    ensures !Verifies(sha, ImportedAs(Promoted(sha, sources, name, body), newName), CapabilityType, newName, anywhere)
  {
    var m := Promoted(sha, sources, name, body);
    assert OwnChain(sha, sources[i]);
    assert m.chain[i] == EvidenceLinks(sha, sources)[i];
    assert !SourceHolds(sha, m.chain[i], anywhere);
  }
}
