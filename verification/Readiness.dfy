/**
 Portability readiness of a capability for a target environment.
 Scores and deltas are in hundredths.  Case folding is a parameter `fold`.
 */
module Readiness {
  import opened Common
  import opened Strings

  datatype ModelClass = Local | Standard | Frontier

  datatype Tier = Low | Medium | High

  datatype Profile = Profile(modelClass: ModelClass, contextTokens: Option<nat>, toolUse: Tier, reasoning: Tier)

  datatype Source = Source(runtime: string, model: Option<string>, project: string)

  datatype Target = Target(runtime: string, model: Option<string>, project: Option<string>)

  datatype Portability = Portability(source: Source, target: Target, compressionRequired: bool)

  type Fold = string -> string

  const LOCAL_MARKERS: seq<string> := ["mini", "small", "local", "qwen", "7b", "13b", "27b"]
  const FRONTIER_MARKERS: seq<string> := ["gpt-5", "opus", "sonnet", "gemini-2", "frontier"]

  const UNKNOWN_DELTA := -10
  const FRONTIER_TO_LOCAL_DELTA := -25
  const FRONTIER_TO_STANDARD_DELTA := -15
  const GENERIC_DOWNGRADE_DELTA := -10
  const SAME_PROFILE_DELTA := -3
  const FRONTIER_TO_FRONTIER_DELTA := -5
  const GENERIC_TRANSFER_DELTA := -8
  const DOWNGRADE_FACTOR_THRESHOLD := -10
  const RUNTIME_DELTA := -5
  const PROJECT_DELTA := -5
  const COMPRESSION_DELTA := -10

  // ---- Model profiles ------------------------------------------------------

  predicate AnyMarker(name: string, markers: seq<string>) {
    exists m | m in markers :: Contains(name, m)
  }

  /** `_infer_model_profile`, on the folded name. */
  function InferredProfile(name: string): Profile {
    if AnyMarker(name, LOCAL_MARKERS) then Profile(Local, None, Medium, Medium)
    else if AnyMarker(name, FRONTIER_MARKERS) then Profile(Frontier, None, High, High)
    else Profile(Standard, None, Medium, Medium)
  }

  /** `_model_profile`: the table first, then inference. */
  function ModelProfile(model: string, fold: Fold): Profile {
    var name := fold(model);
    if name == "gpt-5.5" then Profile(Frontier, Some(256000), High, High)
    else if name == "qwen3.6-27b" then Profile(Local, Some(32768), Medium, Medium)
    else InferredProfile(name)
  }

  function ClassRank(c: ModelClass): nat {
    match c case Local => 1 case Standard => 2 case Frontier => 3
  }

  function TierRank(t: Tier): nat {
    match t case Low => 1 case Medium => 2 case High => 3
  }

  /** `_profile_rank(p) < _profile_rank(q)`: Python compares the tuples lexicographically. */
  predicate RanksBelow(p: Profile, q: Profile) {
    || ClassRank(p.modelClass) < ClassRank(q.modelClass)
    || (p.modelClass == q.modelClass && TierRank(p.reasoning) < TierRank(q.reasoning))
    || (p.modelClass == q.modelClass && p.reasoning == q.reasoning && TierRank(p.toolUse) < TierRank(q.toolUse))
  }

  /** Ranking is a strict weak order: irreflexive, transitive, and so is being of equal rank. */
  lemma {:induction false} RanksBelowIsStrictWeakOrder(p: Profile, q: Profile, r: Profile)
    ensures !RanksBelow(p, p)
    ensures RanksBelow(p, q) ==> !RanksBelow(q, p)
    ensures RanksBelow(p, q) && RanksBelow(q, r) ==> RanksBelow(p, r)
    ensures RanksBelow(p, r) ==> RanksBelow(p, q) || RanksBelow(q, r)
  {
  }

  /**
   Which class a model has, by its folded name: the two listed models, then the
   markers of local models, before those of frontier models, and standard otherwise.
   */
  lemma {:induction false} ModelClassExactly(model: string, fold: Fold)
    ensures var name := fold(model);
            var local :=
              || Contains(name, "mini") || Contains(name, "small") || Contains(name, "local")
              || Contains(name, "qwen") || Contains(name, "7b") || Contains(name, "13b") || Contains(name, "27b");
            var frontier :=
              || Contains(name, "gpt-5") || Contains(name, "opus") || Contains(name, "sonnet")
              || Contains(name, "gemini-2") || Contains(name, "frontier");
            var p := ModelProfile(model, fold);
            && (p.modelClass == Frontier <==>
                  name == "gpt-5.5" || (name != "qwen3.6-27b" && !local && frontier))
            && (p.modelClass == Local <==> name != "gpt-5.5" && (name == "qwen3.6-27b" || local))
            && (name == "gpt-5.5" ==> p.contextTokens == Some(256000))
            && (name == "qwen3.6-27b" ==> p.contextTokens == Some(32768))
            && (name != "gpt-5.5" && name != "qwen3.6-27b" ==> p.contextTokens == None)
  {
    var name := fold(model);
    AnyMarkerExactly(name, LOCAL_MARKERS);
    AnyMarkerExactly(name, FRONTIER_MARKERS);
  }

  lemma {:induction false} AnyMarkerExactly(name: string, markers: seq<string>)
    ensures AnyMarker(name, markers) <==> exists i :: 0 <= i < |markers| && Contains(name, markers[i])
  {
    if AnyMarker(name, markers) {
      var m :| m in markers && Contains(name, m);
      var i :| 0 <= i < |markers| && markers[i] == m;
    }
  }

  /** Every model's profile follows from its class but for the context size. */
  lemma {:induction false} ProfileFollowsClass(model: string, fold: Fold)
    ensures var p := ModelProfile(model, fold);
            && (p.modelClass == Frontier ==> p.toolUse == High && p.reasoning == High)
            && (p.modelClass != Frontier ==> p.toolUse == Medium && p.reasoning == Medium)
            && (p.modelClass == Standard ==> p.contextTokens == None)
  {
  }

  /** So of two models one ranks below the other exactly when its class does. */
  lemma {:induction false} RankIsClassRank(a: string, b: string, fold: Fold)
    ensures var p, q := ModelProfile(a, fold), ModelProfile(b, fold);
            RanksBelow(p, q) <==> ClassRank(p.modelClass) < ClassRank(q.modelClass)
  {
    ProfileFollowsClass(a, fold);
    ProfileFollowsClass(b, fold);
  }

  // ---- Deltas --------------------------------------------------------------

  /** `_model_transfer_delta`. */
  function ModelTransferDelta(source: Option<string>, target: Option<string>, fold: Fold): int {
    if source.None? || target.None? then UNKNOWN_DELTA
    else
      var s, t := ModelProfile(source.value, fold), ModelProfile(target.value, fold);
      var downgrade := RanksBelow(t, s);
      if downgrade && s.modelClass == Frontier && t.modelClass == Local then FRONTIER_TO_LOCAL_DELTA
      else if downgrade && s.modelClass == Frontier && t.modelClass == Standard then FRONTIER_TO_STANDARD_DELTA
      else if downgrade then GENERIC_DOWNGRADE_DELTA
      else if s == t then SAME_PROFILE_DELTA
      else if s.modelClass == Frontier && t.modelClass == Frontier then FRONTIER_TO_FRONTIER_DELTA
      else GENERIC_TRANSFER_DELTA
  }

  /** `model_downgrade`. */
  predicate ModelDowngrade(p: Portability, fold: Fold) {
    && p.source.model.Some? && p.target.model.Some?
    && p.source.model != p.target.model
    && RanksBelow(ModelProfile(p.target.model.value, fold), ModelProfile(p.source.model.value, fold))
  }

  /** The delta says whether a change between two known models is a downgrade. */
  lemma {:induction false} DeltaTellsDowngrades(p: Portability, fold: Fold)
    requires p.source.model.Some? && p.target.model.Some? && p.source.model != p.target.model
    ensures ModelTransferDelta(p.source.model, p.target.model, fold) <= DOWNGRADE_FACTOR_THRESHOLD
            <==> ModelDowngrade(p, fold)
  {
  }

  /** The four grades of a change between known models, from the two classes and the context sizes alone. */
  lemma {:induction false} DeltaByClass(a: string, b: string, fold: Fold)
    ensures var s, t := ModelProfile(a, fold), ModelProfile(b, fold);
            var d := ModelTransferDelta(Some(a), Some(b), fold);
            && (d == -25 <==> s.modelClass == Frontier && t.modelClass == Local)
            && (d == -15 <==> s.modelClass == Frontier && t.modelClass == Standard)
            && (d == -10 <==> s.modelClass == Standard && t.modelClass == Local)
            && (d == -8 <==> ClassRank(s.modelClass) < ClassRank(t.modelClass)
                             || (s.modelClass == Local && t.modelClass == Local && s.contextTokens != t.contextTokens))
            && (d == -5 <==> s.modelClass == Frontier && t.modelClass == Frontier && s.contextTokens != t.contextTokens)
            && (d == -3 <==> s == t)
  {
    ProfileFollowsClass(a, fold);
    ProfileFollowsClass(b, fold);
  }

  // ---- Readiness -----------------------------------------------------------

  datatype FactorName = CrossRuntime | ModelDowngradeFactor | ModelTransfer | ProjectTransfer | ContextCompression

  datatype Factor = Factor(name: FactorName, delta: int)

  datatype ReadinessReport = ReadinessReport(score: int, factors: seq<Factor>)

  predicate ProjectsDiffer(p: Portability) { Some(p.source.project) != p.target.project }

  /** `context_remap_required`. */
  predicate ContextRemapRequired(p: Portability) {
    p.target.project.Some? && p.target.project.value != p.source.project
  }

  function Sum(fs: seq<Factor>): int {
    if |fs| == 0 then 0 else Sum(fs[..|fs| - 1]) + fs[|fs| - 1].delta
  }

  lemma {:induction false} SumAppend(fs: seq<Factor>, f: Factor)
    ensures Sum(fs + [f]) == Sum(fs) + f.delta
  {
    assert (fs + [f])[..|fs|] == fs;
  }

  function FactorIf(applies: bool, f: Factor, fs: seq<Factor>): (r: seq<Factor>)
    ensures forall g :: g in r <==> g in fs || (applies && g == f)
  {
    if applies then fs + [f] else fs
  }

  function ModelFactor(delta: int): Factor {
    Factor(if delta <= DOWNGRADE_FACTOR_THRESHOLD then ModelDowngradeFactor else ModelTransfer, delta)
  }

  function FactorsFrom(runtime: bool, model: bool, delta: int, project: bool, compression: bool): seq<Factor> {
    FactorIf(compression, Factor(ContextCompression, COMPRESSION_DELTA),
    FactorIf(project, Factor(ProjectTransfer, PROJECT_DELTA),
    FactorIf(model, ModelFactor(delta),
    FactorIf(runtime, Factor(CrossRuntime, RUNTIME_DELTA), []))))
  }

  /** The factors in the order they are reported. */
  function FactorsOf(p: Portability, fold: Fold): seq<Factor> {
    FactorsFrom(
      p.source.runtime != p.target.runtime,
      p.source.model != p.target.model, ModelTransferDelta(p.source.model, p.target.model, fold),
      ProjectsDiffer(p),
      p.compressionRequired)
  }

  method AddFactor(score: int, factors: seq<Factor>, applies: bool, f: Factor)
    returns (newScore: int, newFactors: seq<Factor>)
    requires score == 100 + Sum(factors)
    ensures newScore == 100 + Sum(newFactors)
    ensures newFactors == FactorIf(applies, f, factors)
  {
    newScore, newFactors := score, factors;
    if applies {
      SumAppend(factors, f);
      newScore, newFactors := score + f.delta, factors + [f];
    }
  }

  method CollectFactors(runtime: bool, model: bool, delta: int, project: bool, compression: bool)
    returns (score: int, factors: seq<Factor>)
    ensures factors == FactorsFrom(runtime, model, delta, project, compression)
    ensures score == 100 + Sum(factors)
  {
    score, factors := AddFactor(100, [], runtime, Factor(CrossRuntime, RUNTIME_DELTA));
    score, factors := AddFactor(score, factors, model, ModelFactor(delta));
    score, factors := AddFactor(score, factors, project, Factor(ProjectTransfer, PROJECT_DELTA));
    score, factors := AddFactor(score, factors, compression, Factor(ContextCompression, COMPRESSION_DELTA));
  }

  /**
   `portability_readiness`: the score is 100 plus the sum of the reported
   deltas, at least 55, so that the clamp at 0 never fires.
   */
  method PortabilityReadiness(p: Portability, fold: Fold) returns (r: ReadinessReport)
    ensures r.factors == FactorsOf(p, fold)
    ensures r.score == 100 + Sum(r.factors)
    ensures 55 <= r.score <= 100
    ensures r.score == Score(p, fold)
  {
    var score, factors := CollectFactors(
      p.source.runtime != p.target.runtime,
      p.source.model != p.target.model, ModelTransferDelta(p.source.model, p.target.model, fold),
      ProjectsDiffer(p),
      p.compressionRequired);
    ScoreIsSum(p, fold);
    r := ReadinessReport(if score < 0 then 0 else score, factors);
  }

  function When(c: bool, delta: int): int { if c then delta else 0 }

  lemma {:induction false} SumFactorIf(applies: bool, f: Factor, fs: seq<Factor>)
    ensures Sum(FactorIf(applies, f, fs)) == Sum(fs) + When(applies, f.delta)
  {
    SumAppend(fs, f);
  }

  lemma {:induction false} SumOfFour(
    c1: bool, f1: Factor, c2: bool, f2: Factor, c3: bool, f3: Factor, c4: bool, f4: Factor)
    ensures Sum(FactorIf(c4, f4, FactorIf(c3, f3, FactorIf(c2, f2, FactorIf(c1, f1, []))))) ==
            When(c1, f1.delta) + When(c2, f2.delta) + When(c3, f3.delta) + When(c4, f4.delta)
  {
    var one := FactorIf(c1, f1, []);
    var two := FactorIf(c2, f2, one);
    SumFactorIf(c1, f1, []);
    SumFactorIf(c2, f2, one);
    SumFactorIf(c3, f3, two);
    SumFactorIf(c4, f4, FactorIf(c3, f3, two));
  }

  /** The score is 100 plus the sum of the reported deltas. */
  lemma {:induction false} ScoreIsSum(p: Portability, fold: Fold)
    ensures 100 + Sum(FactorsOf(p, fold)) == Score(p, fold)
  {
    SumOfFour(
      p.source.runtime != p.target.runtime, Factor(CrossRuntime, RUNTIME_DELTA),
      p.source.model != p.target.model, ModelFactor(ModelTransferDelta(p.source.model, p.target.model, fold)),
      ProjectsDiffer(p), Factor(ProjectTransfer, PROJECT_DELTA),
      p.compressionRequired, Factor(ContextCompression, COMPRESSION_DELTA));
  }

  /** Which factors are reported, and with what deltas. */
  lemma {:induction false} FactorsReported(p: Portability, fold: Fold, f: Factor)
    ensures var d := ModelTransferDelta(p.source.model, p.target.model, fold);
            f in FactorsOf(p, fold) <==>
              match f.name
              case CrossRuntime => p.source.runtime != p.target.runtime && f.delta == -5
              case ModelDowngradeFactor => p.source.model != p.target.model && d <= -10 && f.delta == d
              case ModelTransfer => p.source.model != p.target.model && d > -10 && f.delta == d
              case ProjectTransfer => p.target.project != Some(p.source.project) && f.delta == -5
              case ContextCompression => p.compressionRequired && f.delta == -10
  {
  }

  /** The order of the comparisons: runtimes, models, projects, sizes. */
  function FactorRank(n: FactorName): nat {
    match n
    case CrossRuntime => 0
    case ModelDowngradeFactor => 1
    case ModelTransfer => 1
    case ProjectTransfer => 2
    case ContextCompression => 3
  }

  /** Factors are reported in that order, no two for the same comparison. */
  lemma {:induction false} FactorsInOrder(p: Portability, fold: Fold, i: nat, j: nat)
    requires i < j < |FactorsOf(p, fold)|
    ensures FactorRank(FactorsOf(p, fold)[i].name) < FactorRank(FactorsOf(p, fold)[j].name)
  {
  }

  /** The score as a function of the environment. */
  function Score(p: Portability, fold: Fold): (s: int)
    ensures 55 <= s <= 100
  {
    100
    + When(p.source.runtime != p.target.runtime, RUNTIME_DELTA)
    + When(p.source.model != p.target.model, ModelTransferDelta(p.source.model, p.target.model, fold))
    + When(ProjectsDiffer(p), PROJECT_DELTA)
    + When(p.compressionRequired, COMPRESSION_DELTA)
  }

  /** The bounds are attained, each by one family of environments. */
  lemma {:induction false} ScoreExtremes(p: Portability, fold: Fold)
    ensures Score(p, fold) == 100 <==>
              && p.source.runtime == p.target.runtime && p.source.model == p.target.model
              && !ProjectsDiffer(p) && !p.compressionRequired
    ensures Score(p, fold) == 55 <==>
              && p.source.runtime != p.target.runtime && ProjectsDiffer(p) && p.compressionRequired
              && p.source.model.Some? && p.target.model.Some?
              && ModelProfile(p.source.model.value, fold).modelClass == Frontier
              && ModelProfile(p.target.model.value, fold).modelClass == Local
  {
    if p.source.model.Some? && p.target.model.Some? {
      DeltaByClass(p.source.model.value, p.target.model.value, fold);
    }
  }

  datatype RiskLevel = LowRisk | MediumRisk | HighRisk | Severe

  /** `_risk_level`. */
  function RiskLevelOf(score: int): RiskLevel {
    if score >= 85 then LowRisk else if score >= 65 then MediumRisk else if score >= 40 then HighRisk else Severe
  }

  /**
   The risk levels that occur.  Severe never does; high takes a change from a
   frontier to a local model with compression and one more difference.
   */
  lemma {:induction false} RiskLevels(p: Portability, fold: Fold)
    ensures RiskLevelOf(Score(p, fold)) != Severe
    ensures RiskLevelOf(Score(p, fold)) == HighRisk <==>
              && p.source.model.Some? && p.target.model.Some?
              && ModelProfile(p.source.model.value, fold).modelClass == Frontier
              && ModelProfile(p.target.model.value, fold).modelClass == Local
              && p.compressionRequired
              && (p.source.runtime != p.target.runtime || ProjectsDiffer(p))
  {
    if p.source.model.Some? && p.target.model.Some? {
      DeltaByClass(p.source.model.value, p.target.model.value, fold);
    }
  }

  /** Low and medium risk by what the reported deltas add up to. */
  lemma {:induction false} RiskBySum(p: Portability, fold: Fold)
    ensures RiskLevelOf(Score(p, fold)) == LowRisk <==> Sum(FactorsOf(p, fold)) >= -15
    ensures RiskLevelOf(Score(p, fold)) == MediumRisk <==> -35 <= Sum(FactorsOf(p, fold)) < -15
    ensures RiskLevelOf(Score(p, fold)) == HighRisk <==> Sum(FactorsOf(p, fold)) < -35
  {
    ScoreIsSum(p, fold);
  }

  /** A reported downgrade that is none: one of the two models is not known. */
  lemma {:induction false} DowngradeFactorExactly(p: Portability, fold: Fold)
    ensures (exists f :: f in FactorsOf(p, fold) && f.name == ModelDowngradeFactor) <==>
              ModelDowngrade(p, fold) || (p.source.model.Some? <==> p.target.model.None?)
  {
    var d := ModelTransferDelta(p.source.model, p.target.model, fold);
    if p.source.model != p.target.model && d <= DOWNGRADE_FACTOR_THRESHOLD {
      assert Factor(ModelDowngradeFactor, d) in FactorsOf(p, fold);
    }
    if p.source.model.Some? && p.target.model.Some? && p.source.model != p.target.model {
      DeltaTellsDowngrades(p, fold);
    }
  }

  // ---- Transfer types ------------------------------------------------------

  datatype Transfer = CrossRuntimeTransfer | ModelTransferType | ProjectTransferType | SameEnvironment

  /** `transfer_type`. */
  method TransferType(source: Source, target: Target) returns (values: seq<Transfer>)
    ensures CrossRuntimeTransfer in values <==> source.runtime != target.runtime
    ensures ModelTransferType in values <==> source.model != target.model
    ensures ProjectTransferType in values <==> Some(source.project) != target.project
    ensures SameEnvironment in values <==>
              source.runtime == target.runtime && source.model == target.model && Some(source.project) == target.project
    ensures SameEnvironment in values ==> values == [SameEnvironment]
    ensures SameEnvironment !in values ==>
              values ==
                (if source.runtime != target.runtime then [CrossRuntimeTransfer] else [])
                + (if source.model != target.model then [ModelTransferType] else [])
                + (if Some(source.project) != target.project then [ProjectTransferType] else [])
  {
    values := [];
    if source.runtime != target.runtime {
      values := values + [CrossRuntimeTransfer];
    }
    if source.model != target.model {
      values := values + [ModelTransferType];
    }
    if Some(source.project) != target.project {
      values := values + [ProjectTransferType];
    }
    if values == [] {
      values := [SameEnvironment];
    }
  }

  /**
   A project transfer lowers the score even when no remap is asked for: exactly
   when the target names no project.
   */
  lemma {:induction false} ProjectTransferWithoutRemap(p: Portability)
    ensures ContextRemapRequired(p) ==> ProjectsDiffer(p)
    ensures ProjectsDiffer(p) && !ContextRemapRequired(p) <==> p.target.project.None?
  {
  }
}
