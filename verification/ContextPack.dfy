/**
 Context packing: which captured files are selected for a capability, why the
 others are not, and what truncation does to their size in tokens.
 Case folding is a parameter `fold`.
 */
module ContextPack {
  import opened Common
  import opened EvidenceRecords
  import opened OrderedMerge
  import opened Strings

  type Fold = string -> string

  /** The context policy of a manifest, with the forbidden rules of its field. */
  datatype Policy = Policy(
    required: seq<string>,
    optional: seq<string>,
    forbidden: seq<string>,
    fieldForbidden: seq<string>,
    tokenBudget: Option<nat>)

  datatype Request = Request(includeOptional: bool, query: Option<string>, maxChars: Option<nat>)

  // ---- Selection -----------------------------------------------------------

  /** `_is_forbidden`. */
  predicate IsForbidden(path: string, rules: seq<string>) {
    exists rule | rule in rules :: Contains(path, rule)
  }

  function AllForbidden(policy: Policy): seq<string> {
    FirstWins(policy.forbidden + policy.fieldForbidden, Same)
  }

  /** `_matches_query`. */
  predicate MatchesQuery(f: CapturedFile, query: Option<string>, fold: Fold) {
    query.Some? ==> Contains(fold(f.path), fold(query.value)) || Contains(fold(f.content), fold(query.value))
  }

  function RequiredContext(files: seq<CapturedFile>, policy: Policy): seq<CapturedFile> {
    var rules := AllForbidden(policy);
    Filter(files, (f: CapturedFile) =>
      !IsForbidden(f.path, rules) && (f.path in policy.required || f.role == ContextFile))
  }

  function OptionalContext(files: seq<CapturedFile>, policy: Policy, request: Request, fold: Fold): seq<CapturedFile> {
    if !request.includeOptional then []
    else
      var rules := AllForbidden(policy);
      var required := RequiredContext(files, policy);
      Filter(files, (f: CapturedFile) =>
        && f.path in policy.optional
        && f !in required
        && MatchesQuery(f, request.query, fold)
        && !IsForbidden(f.path, rules))
  }

  function SelectedContext(files: seq<CapturedFile>, policy: Policy, request: Request, fold: Fold): seq<CapturedFile> {
    RequiredContext(files, policy) + OptionalContext(files, policy, request, fold)
  }

  function ExcludedContext(files: seq<CapturedFile>, policy: Policy, request: Request, fold: Fold): seq<CapturedFile> {
    var selected := SelectedContext(files, policy, request, fold);
    Filter(files, (f: CapturedFile) => f !in selected)
  }

  // ---- The rule for a single file -------------------------------------------

  datatype Fate = Required | Optional | Excluded

  predicate Banned(f: CapturedFile, policy: Policy) {
    IsForbidden(f.path, policy.forbidden) || IsForbidden(f.path, policy.fieldForbidden)
  }

  /** Where a file goes, decided by the file alone. */
  function FateOf(f: CapturedFile, policy: Policy, request: Request, fold: Fold): Fate {
    if Banned(f, policy) then Excluded
    else if f.path in policy.required || f.role == ContextFile then Required
    else if request.includeOptional && f.path in policy.optional && MatchesQuery(f, request.query, fold) then Optional
    else Excluded
  }

  lemma {:induction false} AllForbiddenIsBoth(path: string, policy: Policy)
    ensures IsForbidden(path, AllForbidden(policy)) <==>
              IsForbidden(path, policy.forbidden) || IsForbidden(path, policy.fieldForbidden)
  {
    var all := policy.forbidden + policy.fieldForbidden;
    FirstWinsKeys(all, Same);
    forall rule
      ensures rule in AllForbidden(policy) <==> rule in all
    {
      if rule in all {
        KeyOfMember(all, rule, Same);
        var kept := AllForbidden(policy);
        var i :| 0 <= i < |kept| && Map(kept, Same)[i] == rule;
        assert kept[i] == rule;
      }
    }
  }

  /** A file is in each of the three lists exactly when that is its fate: no file is in two, none in neither. */
  lemma {:induction false} FateDecides(
    files: seq<CapturedFile>, policy: Policy, request: Request, fold: Fold, f: CapturedFile)
    requires f in files
    ensures f in RequiredContext(files, policy) <==> FateOf(f, policy, request, fold) == Required
    ensures f in OptionalContext(files, policy, request, fold) <==> FateOf(f, policy, request, fold) == Optional
    ensures f in ExcludedContext(files, policy, request, fold) <==> FateOf(f, policy, request, fold) == Excluded
  {
    AllForbiddenIsBoth(f.path, policy);
  }

  /** The sublist of the files with a given fate. */
  function WithFate(
    files: seq<CapturedFile>, policy: Policy, request: Request, fold: Fold, fate: Fate): seq<CapturedFile> {
    Filter(files, (f: CapturedFile) => FateOf(f, policy, request, fold) == fate)
  }

  lemma {:induction false} FilterAgrees<T(!new)>(xs: seq<T>, p: T -> bool, q: T -> bool)
    requires forall x :: x in xs ==> p(x) == q(x)
    ensures Filter(xs, p) == Filter(xs, q)
  {
    if |xs| > 0 {
      FilterAgrees(xs[1..], p, q);
    }
  }

  lemma {:induction false} FilterNone<T(!new)>(xs: seq<T>, p: T -> bool)
    requires forall x :: x in xs ==> !p(x)
    ensures Filter(xs, p) == []
  {
    if |xs| > 0 {
      FilterNone(xs[1..], p);
    }
  }

  lemma {:induction false} RequiredIsFate(files: seq<CapturedFile>, policy: Policy, request: Request, fold: Fold)
    ensures RequiredContext(files, policy) == WithFate(files, policy, request, fold, Required)
  {
    var rules := AllForbidden(policy);
    var p := (f: CapturedFile) => !IsForbidden(f.path, rules) && (f.path in policy.required || f.role == ContextFile);
    var q := (f: CapturedFile) => FateOf(f, policy, request, fold) == Required;
    forall f | f in files
      ensures p(f) == q(f)
    {
      AllForbiddenIsBoth(f.path, policy);
    }
    FilterAgrees(files, p, q);
  }

  lemma {:induction false} OptionalIsFate(files: seq<CapturedFile>, policy: Policy, request: Request, fold: Fold)
    ensures OptionalContext(files, policy, request, fold) == WithFate(files, policy, request, fold, Optional)
  {
    var q := (f: CapturedFile) => FateOf(f, policy, request, fold) == Optional;
    if request.includeOptional {
      var rules := AllForbidden(policy);
      var required := RequiredContext(files, policy);
      var p := (f: CapturedFile) =>
        && f.path in policy.optional
        && f !in required
        && MatchesQuery(f, request.query, fold)
        && !IsForbidden(f.path, rules);
      forall f | f in files
        ensures p(f) == q(f)
      {
        AllForbiddenIsBoth(f.path, policy);
        FateDecides(files, policy, request, fold, f);
      }
      FilterAgrees(files, p, q);
    } else {
      FilterNone(files, q);
    }
  }

  lemma {:induction false} ExcludedIsFate(files: seq<CapturedFile>, policy: Policy, request: Request, fold: Fold)
    ensures ExcludedContext(files, policy, request, fold) == WithFate(files, policy, request, fold, Excluded)
  {
    var selected := SelectedContext(files, policy, request, fold);
    var p := (f: CapturedFile) => f !in selected;
    var q := (f: CapturedFile) => FateOf(f, policy, request, fold) == Excluded;
    forall f | f in files
      ensures p(f) == q(f)
    {
      FateDecides(files, policy, request, fold, f);
    }
    FilterAgrees(files, p, q);
  }

  /**
   Selection splits the captured files into three lists, counting copies; each
   list keeps the order of the capture (it is the sublist of one fate).
   */
  lemma {:induction false} SelectionPartitions(files: seq<CapturedFile>, policy: Policy, request: Request, fold: Fold)
    ensures multiset(files) ==
            multiset(RequiredContext(files, policy))
            + multiset(OptionalContext(files, policy, request, fold))
            + multiset(ExcludedContext(files, policy, request, fold))
    ensures RequiredContext(files, policy) == WithFate(files, policy, request, fold, Required)
    ensures OptionalContext(files, policy, request, fold) == WithFate(files, policy, request, fold, Optional)
    ensures ExcludedContext(files, policy, request, fold) == WithFate(files, policy, request, fold, Excluded)
  {
    RequiredIsFate(files, policy, request, fold);
    OptionalIsFate(files, policy, request, fold);
    ExcludedIsFate(files, policy, request, fold);
    FatesSplit(files, policy, request, fold);
  }

  lemma {:induction false} FatesSplit(files: seq<CapturedFile>, policy: Policy, request: Request, fold: Fold)
    ensures multiset(files) ==
            multiset(WithFate(files, policy, request, fold, Required))
            + multiset(WithFate(files, policy, request, fold, Optional))
            + multiset(WithFate(files, policy, request, fold, Excluded))
  {
    if |files| > 0 {
      FatesSplit(files[1..], policy, request, fold);
      assert files == [files[0]] + files[1..];
      forall fate
        ensures WithFate(files, policy, request, fold, fate) ==
                (if FateOf(files[0], policy, request, fold) == fate then [files[0]] else [])
                + WithFate(files[1..], policy, request, fold, fate)
      {
      }
    }
  }

  /** What is selected, by the file's path, role and content and the lists of the policy. */
  lemma {:induction false} SelectedExactly(
    files: seq<CapturedFile>, policy: Policy, request: Request, fold: Fold, f: CapturedFile)
    requires f in files
    ensures var free :=
              forall rule :: rule in policy.forbidden || rule in policy.fieldForbidden ==> !Contains(f.path, rule);
            var required := f.path in policy.required || f.role == ContextFile;
            var asked :=
              request.query.Some? ==>
                || Contains(fold(f.path), fold(request.query.value))
                || Contains(fold(f.content), fold(request.query.value));
            && (f in RequiredContext(files, policy) <==> free && required)
            && (f in OptionalContext(files, policy, request, fold) <==>
                  free && !required && request.includeOptional && f.path in policy.optional && asked)
            && (f in ExcludedContext(files, policy, request, fold) <==>
                  !free || (!required && !(request.includeOptional && f.path in policy.optional && asked)))
  {
    FateDecides(files, policy, request, fold, f);
  }

  /** No selected path contains a rule forbidden by the capability or by its field. */
  lemma {:induction false} NothingForbiddenIsSelected(
    files: seq<CapturedFile>, policy: Policy, request: Request, fold: Fold, f: CapturedFile, rule: string)
    requires f in SelectedContext(files, policy, request, fold)
    requires rule in policy.forbidden || rule in policy.fieldForbidden
    ensures !Contains(f.path, rule)
  {
    FateDecides(files, policy, request, fold, f);
  }

  // ---- Reasons for exclusion -------------------------------------------------

  datatype Reason = ForbiddenByPolicy | ForbiddenByField | NotRequested | NoMatch | NotSelected

  /** The reason of `_excluded_context_item`. */
  function ReasonFor(f: CapturedFile, policy: Policy, request: Request, fold: Fold): Reason {
    if IsForbidden(f.path, policy.forbidden) then ForbiddenByPolicy
    else if IsForbidden(f.path, policy.fieldForbidden) then ForbiddenByField
    else if f.path in policy.optional && !request.includeOptional then NotRequested
    else if request.query.Some? && !MatchesQuery(f, request.query, fold) then NoMatch
    else NotSelected
  }

  /** What each reason tells about an excluded file, exactly. */
  lemma {:induction false} ReasonsExplain(
    files: seq<CapturedFile>, policy: Policy, request: Request, fold: Fold, f: CapturedFile)
    requires f in ExcludedContext(files, policy, request, fold)
    ensures var reason := ReasonFor(f, policy, request, fold);
            var matched := MatchesQuery(f, request.query, fold);
            && (reason == ForbiddenByPolicy <==> IsForbidden(f.path, policy.forbidden))
            && (reason == ForbiddenByField <==>
                  !IsForbidden(f.path, policy.forbidden) && IsForbidden(f.path, policy.fieldForbidden))
            && (reason == NotRequested <==> !Banned(f, policy) && f.path in policy.optional && !request.includeOptional)
            && (reason == NoMatch <==>
                  !Banned(f, policy) && !matched && (f.path in policy.optional ==> request.includeOptional))
            && (reason == NotSelected <==> !Banned(f, policy) && matched && f.path !in policy.optional)
  {
    FateDecides(files, policy, request, fold, f);
  }

  /** A file that no list of the policy names and no role requires. */
  predicate NeverOptional(f: CapturedFile, policy: Policy) {
    f.path !in policy.required && f.path !in policy.optional && f.role != ContextFile
  }

  /**
   Such a file is always excluded, and is said not to match the query as optional
   context exactly when it is not forbidden and the query given does not match it.
   */
  lemma {:induction false} NeverOptionalNoMatch(
    files: seq<CapturedFile>, policy: Policy, request: Request, fold: Fold, f: CapturedFile)
    requires f in files && NeverOptional(f, policy)
    ensures f in ExcludedContext(files, policy, request, fold)
    ensures ReasonFor(f, policy, request, fold) == NoMatch <==>
              !Banned(f, policy) && request.query.Some? && !MatchesQuery(f, request.query, fold)
  {
    FateDecides(files, policy, request, fold, f);
  }

  /** That happens: an empty policy, one empty prompt file, and a query longer than its path. */
  lemma {:induction false} NeverOptionalButNoMatch(path: string, query: string, fold: Fold)
    requires path != "" && fold("") == "" && |fold(query)| > |fold(path)|
    ensures var f := CapturedFile(PromptFile, path, "");
            var policy, request := Policy([], [], [], [], None), Request(true, Some(query), None);
            && NeverOptional(f, policy)
            && f in ExcludedContext([f], policy, request, fold)
            && ReasonFor(f, policy, request, fold) == NoMatch
  {
    var f := CapturedFile(PromptFile, path, "");
    var policy, request := Policy([], [], [], [], None), Request(true, Some(query), None);
    assert !Contains("", fold(query)) && !Contains(fold(path), fold(query));
    assert f in [f];
    NeverOptionalNoMatch([f], policy, request, fold, f);
  }

  // ---- Sizes -----------------------------------------------------------------

  /** `_token_estimate`. */
  function TokenEstimate(content: string): nat {
    if content == "" then 0 else if |content| / 4 < 1 then 1 else |content| / 4
  }

  function Tokens(files: seq<CapturedFile>): nat {
    if |files| == 0 then 0 else Tokens(files[..|files| - 1]) + TokenEstimate(files[|files| - 1].content)
  }

  /** `_max_chars`. */
  function MaxChars(request: Request, policy: Policy): Option<nat> {
    if request.maxChars.Some? then request.maxChars
    else if policy.tokenBudget.None? then None
    else Some(policy.tokenBudget.value * 4)
  }

  /** A request's own limit wins over the budget; a budget of B tokens allows 4 B characters, all of B tokens. */
  lemma {:induction false} LimitExactly(request: Request, policy: Policy, f: CapturedFile)
    ensures request.maxChars.Some? ==> MaxChars(request, policy) == request.maxChars
    ensures request.maxChars.None? && policy.tokenBudget.None? ==> MaxChars(request, policy).None?
    ensures request.maxChars.None? && policy.tokenBudget.Some? ==>
              && MaxChars(request, policy) == Some(4 * policy.tokenBudget.value)
              && (f.content != "" && |f.content| <= 4 * policy.tokenBudget.value ==>
                    1 <= TokenEstimate(f.content) <= policy.tokenBudget.value)
  {
  }

  /** The estimate is the number of whole groups of four characters, but one for a shorter text that is not empty. */
  lemma {:induction false} EstimateExactly(content: string)
    ensures var t := TokenEstimate(content);
            && (t == 0 <==> content == "")
            && (|content| >= 4 ==> 4 * t <= |content| < 4 * t + 4)
            && (0 < |content| < 4 ==> t == 1)
  {
  }

  /** `_compress_file`. */
  function Compress(f: CapturedFile, maxChars: Option<nat>): CapturedFile {
    if maxChars.None? || |f.content| <= maxChars.value then f else f.(content := f.content[..maxChars.value])
  }

  function CompressAll(files: seq<CapturedFile>, maxChars: Option<nat>): (r: seq<CapturedFile>)
    ensures |r| == |files|
    ensures forall i :: 0 <= i < |files| ==> r[i] == Compress(files[i], maxChars)
  {
    seq(|files|, i requires 0 <= i < |files| => Compress(files[i], maxChars))
  }

  /** The flag `compressed` of a packed item. */
  predicate CompressedFlag(f: CapturedFile, maxChars: Option<nat>) {
    maxChars.Some? && |f.content| > maxChars.value
  }

  /** The flag tells exactly which files the bundle changes; path and role stay, and a prefix of the content. */
  lemma {:induction false} CompressionKeepsPrefix(f: CapturedFile, maxChars: Option<nat>)
    ensures var c := Compress(f, maxChars);
            && (CompressedFlag(f, maxChars) <==> c != f)
            && c.path == f.path && c.role == f.role && c.content <= f.content
            && (maxChars.Some? ==> |c.content| <= maxChars.value)
            && Compress(c, maxChars) == c
  {
    var c := Compress(f, maxChars);
    if CompressedFlag(f, maxChars) {
      assert |c.content| == maxChars.value;
    }
  }

  lemma {:induction false} TokensAppend(xs: seq<CapturedFile>, ys: seq<CapturedFile>)
    ensures Tokens(xs + ys) == Tokens(xs) + Tokens(ys)
  {
    if |ys| == 0 {
      assert xs + ys == xs;
    } else {
      assert (xs + ys)[..|xs + ys| - 1] == xs + ys[..|ys| - 1];
      TokensAppend(xs, ys[..|ys| - 1]);
    }
  }

  function Min(a: nat, b: nat): nat { if a < b then a else b }

  /** With only a budget of B tokens, each packed item is estimated at its own estimate, capped at B. */
  lemma {:induction false} ItemFitsBudget(f: CapturedFile, request: Request, policy: Policy)
    requires request.maxChars.None? && policy.tokenBudget.Some? && policy.tokenBudget.value >= 1
    ensures TokenEstimate(Compress(f, MaxChars(request, policy)).content)
            == Min(TokenEstimate(f.content), policy.tokenBudget.value)
  {
    CompressionKeepsPrefix(f, MaxChars(request, policy));
  }

  /** The estimates of the plan's items, each capped at b. */
  function CappedTokens(files: seq<CapturedFile>, b: nat): nat {
    if |files| == 0 then 0
    else CappedTokens(files[..|files| - 1], b) + Min(TokenEstimate(files[|files| - 1].content), b)
  }

  /**
   What the budget makes of a bundle: its estimate is the sum of the plan's item
   estimates, each capped at B.  So it fits B exactly when that sum does.
   */
  lemma {:induction false} BundleIsCapped(files: seq<CapturedFile>, request: Request, policy: Policy)
    requires request.maxChars.None? && policy.tokenBudget.Some? && policy.tokenBudget.value >= 1
    ensures Tokens(CompressAll(files, MaxChars(request, policy))) == CappedTokens(files, policy.tokenBudget.value)
  {
    if |files| > 0 {
      var front := files[..|files| - 1];
      var packed := CompressAll(files, MaxChars(request, policy));
      assert packed[..|packed| - 1] == CompressAll(front, MaxChars(request, policy));
      BundleIsCapped(front, request, policy);
      ItemFitsBudget(files[|files| - 1], request, policy);
    }
  }

  /** Two files that are not empty already need room for both: a budget of one token is never enough for them. */
  lemma {:induction false} TwoFilesExceedOneToken(f: CapturedFile, g: CapturedFile, request: Request, policy: Policy)
    requires request.maxChars.None? && policy.tokenBudget == Some(1)
    requires f.content != "" && g.content != ""
    ensures Tokens(CompressAll([f, g], MaxChars(request, policy))) == 2
  {
    BundleIsCapped([f, g], request, policy);
    assert [f, g][..1] == [f] && [f][..0] == [];
    assert CappedTokens([f], 1) == CappedTokens([], 1) + 1;
  }

  lemma {:induction false} OneMore(b: nat, n: nat)
    ensures b * (n + 1) == b * n + b
  {
  }

  lemma {:induction false} TokensBounded(files: seq<CapturedFile>, b: nat)
    requires forall f :: f in files ==> TokenEstimate(f.content) <= b
    ensures Tokens(files) <= b * |files|
    ensures (forall f :: f in files ==> TokenEstimate(f.content) == b) ==> Tokens(files) == b * |files|
  {
    if |files| > 0 {
      var front := files[..|files| - 1];
      TokensBounded(front, b);
      OneMore(b, |front|);
      assert files[|files| - 1] in files;
    }
  }

  /**
   So a bundle is within B per selected file, not within B: the budget is
   applied to each item by itself, and files that fill it reach the bound.
   */
  lemma {:induction false} BundleFitsBudgetPerItem(files: seq<CapturedFile>, request: Request, policy: Policy)
    requires request.maxChars.None? && policy.tokenBudget.Some? && policy.tokenBudget.value >= 1
    ensures var bundle, bound := CompressAll(files, MaxChars(request, policy)), policy.tokenBudget.value * |files|;
            && Tokens(bundle) <= bound
            && ((forall f :: f in files ==> |f.content| >= 4 * policy.tokenBudget.value) ==> Tokens(bundle) == bound)
  {
    var bundle := CompressAll(files, MaxChars(request, policy));
    forall c | c in bundle
      ensures TokenEstimate(c.content) <= policy.tokenBudget.value
      ensures (forall f :: f in files ==> |f.content| >= 4 * policy.tokenBudget.value) ==>
                TokenEstimate(c.content) == policy.tokenBudget.value
    {
      var i :| 0 <= i < |files| && bundle[i] == c;
      ItemFitsBudget(files[i], request, policy);
    }
    TokensBounded(bundle, policy.tokenBudget.value);
  }

  /** The plan's estimate is taken before truncation: it is never below the bundle's, and equal when nothing was cut. */
  lemma {:induction false} PlanEstimateIsBeforeTruncation(files: seq<CapturedFile>, maxChars: Option<nat>)
    ensures Tokens(CompressAll(files, maxChars)) <= Tokens(files)
    ensures (forall f :: f in files ==> !CompressedFlag(f, maxChars)) ==>
              Tokens(CompressAll(files, maxChars)) == Tokens(files)
  {
    if |files| > 0 {
      var front, f := files[..|files| - 1], files[|files| - 1];
      var packed := CompressAll(files, maxChars);
      assert packed[..|packed| - 1] == CompressAll(front, maxChars);
      PlanEstimateIsBeforeTruncation(front, maxChars);
      CompressionKeepsPrefix(f, maxChars);
      assert f in files;
    }
  }

  // ---- The workflow ----------------------------------------------------------

  datatype Bundle = Bundle(
    required: seq<CapturedFile>,
    optional: seq<CapturedFile>,
    excluded: seq<(CapturedFile, Reason)>,
    tokenEstimate: nat,
    compressed: seq<CapturedFile>)

  /** `_select_context`. */
  function SelectContext(files: seq<CapturedFile>, policy: Policy, request: Request, fold: Fold): Bundle {
    var selected := SelectedContext(files, policy, request, fold);
    var excluded := ExcludedContext(files, policy, request, fold);
    Bundle(
      RequiredContext(files, policy),
      OptionalContext(files, policy, request, fold),
      Map(excluded, (f: CapturedFile) => (f, ReasonFor(f, policy, request, fold))),
      Tokens(selected),
      CompressAll(selected, MaxChars(request, policy)))
  }

  /** The token estimate is the sum over the required and the optional items, and bounds the compressed bundle. */
  lemma {:induction false} EstimateIsTheSum(files: seq<CapturedFile>, policy: Policy, request: Request, fold: Fold)
    ensures var b := SelectContext(files, policy, request, fold);
            && b.tokenEstimate == Tokens(b.required) + Tokens(b.optional)
            && Tokens(b.compressed) <= b.tokenEstimate
            && |b.compressed| == |b.required| + |b.optional|
  {
    var selected := SelectedContext(files, policy, request, fold);
    TokensAppend(RequiredContext(files, policy), OptionalContext(files, policy, request, fold));
    PlanEstimateIsBeforeTruncation(selected, MaxChars(request, policy));
  }
}
