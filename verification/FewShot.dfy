/**
 Few-shot candidates: `learn` prints a prompt and an output into one string,
 `dataset-export` splits it again.  The separator overlaps itself by a newline,
 which decides when the split gives back what was printed.
 */
module FewShot {
  import opened Common
  import opened EvidenceRecords
  import opened Strings

  const PREFIX := "input:\n"
  const SEPARATOR := "\n\noutput:\n"
  /** The separator without its last newline. */
  const HALF_SEPARATOR := "\n\noutput:"

  /** One example of `_few_shot_examples`. */
  function Candidate(prompt: string, output: string): string { PREFIX + prompt + SEPARATOR + output }

  predicate IsPrompt(f: CapturedFile) { f.role == PromptFile }

  predicate IsOutput(f: CapturedFile) {
    f.role == CommandOutput || f.role == TestResult || f.role == ArtifactFile
  }

  function ContentOf(f: CapturedFile): string { f.content }

  function Pairs(prompts: seq<string>, outputs: seq<string>): seq<(string, string)> {
    if |prompts| == 0 then []
    else Map(outputs, (o: string) => (prompts[0], o)) + Pairs(prompts[1..], outputs)
  }

  function PairsOf(files: seq<CapturedFile>): seq<(string, string)> {
    Pairs(Map(Filter(files, IsPrompt), ContentOf), Map(Filter(files, IsOutput), ContentOf))
  }

  function PrintPair(pair: (string, string)): string { Candidate(pair.0, pair.1) }

  /** `_few_shot_examples`. */
  function FewShotExamples(files: seq<CapturedFile>): seq<string> {
    var prompts := Map(Filter(files, IsPrompt), ContentOf);
    var outputs := Map(Filter(files, IsOutput), ContentOf);
    if prompts == [] || outputs == [] then [] else Map(Pairs(prompts, outputs), PrintPair)
  }

  datatype SplitError = ValueError

  /** `_split_few_shot_candidate`: unpacking the two parts raises when the separator is not found after the prefix. */
  function Split(candidate: string): Result<(string, string), SplitError> {
    if PREFIX <= candidate && Contains(candidate, SEPARATOR) then
      var rest := candidate[|PREFIX|..];
      var (found, i) := FirstFrom(rest, SEPARATOR, 0);
      if found then Ok((rest[..i], rest[i + |SEPARATOR|..])) else Err(ValueError)
    else Ok((candidate, ""))
  }

  /** `_fine_tuning_rows`: prompts and completions, or the first error. */
  function SplitAll(candidates: seq<string>): Result<seq<(string, string)>, SplitError> {
    if |candidates| == 0 then Ok([])
    else
      match Split(candidates[0])
      case Err(e) => Err(e)
      case Ok(row) =>
        match SplitAll(candidates[1..])
        case Err(e) => Err(e)
        case Ok(rows) => Ok([row] + rows)
  }

  // ---- The split -----------------------------------------------------------

  /** A prompt the separator cannot be found in too early. */
  predicate Clean(prompt: string) {
    !Contains(prompt, SEPARATOR) && !EndsWith(prompt, HALF_SEPARATOR)
  }

  /** The separator can start inside the prompt in two ways: wholly inside it, or overlapping by its last newline. */
  lemma {:induction false} EarlyOccurrence(prompt: string, output: string, i: nat)
    requires i < |prompt| && OccursAt(prompt + SEPARATOR + output, SEPARATOR, i)
    ensures OccursAt(prompt, SEPARATOR, i) || (i + 9 == |prompt| && EndsWith(prompt, HALF_SEPARATOR))
  {
    var text := prompt + SEPARATOR + output;
    assert text[i..i + 10] == SEPARATOR;
    assert SEPARATOR[0] == '\n' && SEPARATOR[8] == ':' && SEPARATOR[9] == '\n';
    if i + 10 <= |prompt| {
      assert prompt[i..i + 10] == text[i..i + 10];
    } else {
      var d := |prompt| - i;
      assert forall k :: |prompt| <= k < |prompt| + 10 ==> text[k] == SEPARATOR[k - |prompt|];
      assert text[i + 8] == SEPARATOR[8] && text[i + 9] == SEPARATOR[9];
      assert d == 9;
      assert SEPARATOR == HALF_SEPARATOR + ['\n'];
      assert text[i..i + 9] == text[i..i + 10][..9] == HALF_SEPARATOR;
      assert prompt[i..] == text[i..i + 9];
    }
  }

  lemma {:induction false} OverlapOccurs(prompt: string, output: string)
    requires EndsWith(prompt, HALF_SEPARATOR)
    ensures OccursAt(prompt + SEPARATOR + output, SEPARATOR, |prompt| - 9)
  {
    var text := prompt + SEPARATOR + output;
    var i := |prompt| - 9;
    assert text[i..i + 9] == prompt[i..] == HALF_SEPARATOR;
    assert text[i + 9] == SEPARATOR[0] == '\n';
    assert text[i..i + 10] == text[i..i + 9] + [text[i + 9]];
    assert SEPARATOR == HALF_SEPARATOR + ['\n'];
  }

  /** In a printed candidate the separator is first found after the prompt exactly when the prompt is clean. */
  lemma {:induction false} FirstFoundAfterPrompt(prompt: string, output: string)
    ensures var text := prompt + SEPARATOR + output;
            var (found, i) := FirstFrom(text, SEPARATOR, 0);
            found && i <= |prompt| && (i == |prompt| <==> Clean(prompt))
  {
    var text := prompt + SEPARATOR + output;
    var (found, i) := FirstFrom(text, SEPARATOR, 0);
    assert text[|prompt|..|prompt| + |SEPARATOR|] == SEPARATOR;
    assert OccursAt(text, SEPARATOR, |prompt|);
    if i < |prompt| {
      EarlyOccurrence(prompt, output, i);
    }
    if !Clean(prompt) {
      if EndsWith(prompt, HALF_SEPARATOR) {
        OverlapOccurs(prompt, output);
      } else {
        var k: nat :| k <= |prompt| && OccursAt(prompt, SEPARATOR, k);
        assert text[k..k + |SEPARATOR|] == prompt[k..k + |SEPARATOR|];
        assert OccursAt(text, SEPARATOR, k);
      }
    }
  }

  lemma {:induction false} CandidateParts(prompt: string, output: string)
    ensures PREFIX <= Candidate(prompt, output)
    ensures Candidate(prompt, output)[|PREFIX|..] == prompt + SEPARATOR + output
    ensures Contains(Candidate(prompt, output), SEPARATOR)
  {
    var c := Candidate(prompt, output);
    var i := |PREFIX| + |prompt|;
    assert c[i..i + |SEPARATOR|] == SEPARATOR;
    assert OccursAt(c, SEPARATOR, i);
  }

  /**
   The round trip: a printed candidate always splits, and gives back the
   prompt and the output exactly when the prompt neither contains the
   separator nor ends with all of it but the last newline.
   */
  lemma {:induction false} RoundTripExactly(prompt: string, output: string)
    ensures Split(Candidate(prompt, output)).Ok?
    ensures Split(Candidate(prompt, output)) == Ok((prompt, output)) <==> Clean(prompt)
  {
    CandidateParts(prompt, output);
    FirstFoundAfterPrompt(prompt, output);
    var text := prompt + SEPARATOR + output;
    var (found, i) := FirstFrom(text, SEPARATOR, 0);
    if i == |prompt| {
      assert text[..i] == prompt;
      assert text[i + |SEPARATOR|..] == output;
    } else {
      assert |text[..i]| != |prompt|;
    }
  }

  lemma {:induction false} CutAt(text: string, i: nat)
    requires OccursAt(text, SEPARATOR, i)
    ensures text == text[..i] + SEPARATOR + text[i + |SEPARATOR|..]
  {
    assert text[..i] + text[i..i + |SEPARATOR|] == text[..i + |SEPARATOR|];
  }

  /** A split by the separator loses nothing: printing its parts gives the candidate back. */
  lemma {:induction false} SplitIsLossless(candidate: string)
    requires PREFIX <= candidate && Contains(candidate, SEPARATOR) && Split(candidate).Ok?
    ensures Candidate(Split(candidate).value.0, Split(candidate).value.1) == candidate
  {
    var rest := candidate[|PREFIX|..];
    var (found, i) := FirstFrom(rest, SEPARATOR, 0);
    assert candidate == PREFIX + rest;
    CutAt(rest, i);
    ConcatAssoc(PREFIX, rest[..i] + SEPARATOR, rest[i + |SEPARATOR|..]);
    ConcatAssoc(PREFIX, rest[..i], SEPARATOR);
  }

  /** What comes out of a split is clean: splitting is stable from the first time on. */
  lemma {:induction false} SplitIsStable(prompt: string, output: string)
    ensures Split(Candidate(prompt, output)).Ok?
    ensures var (a, b) := Split(Candidate(prompt, output)).value;
            Clean(a) && Candidate(a, b) == Candidate(prompt, output) && Split(Candidate(a, b)) == Ok((a, b))
  {
    CandidateParts(prompt, output);
    RoundTripExactly(prompt, output);
    SplitIsLossless(Candidate(prompt, output));
    var (a, b) := Split(Candidate(prompt, output)).value;
    RoundTripExactly(a, b);
  }

  /** A candidate without prefix or separator is all prompt, and only such a candidate is. */
  lemma {:induction false} SplitKeepsExactly(candidate: string)
    ensures Split(candidate) == Ok((candidate, "")) <==> !(PREFIX <= candidate && Contains(candidate, SEPARATOR))
  {
    if PREFIX <= candidate && Contains(candidate, SEPARATOR) && Split(candidate).Ok? {
      assert |Split(candidate).value.0| < |candidate|;
    }
  }

  /** The prefix and the separator sharing a newline. */
  const SHARED := "input:\n\noutput:\n"

  /**
   A candidate from elsewhere can raise: exactly when the separator shares the
   prefix's newline and does not occur again.
   */
  lemma {:induction false} SplitRaisesExactly(candidate: string)
    ensures Split(candidate).Err? <==> SHARED <= candidate && !Contains(candidate[|PREFIX|..], SEPARATOR)
  {
    if SHARED <= candidate {
      SharedHoldsBoth(candidate);
    }
    if PREFIX <= candidate && Contains(candidate, SEPARATOR) && !Contains(candidate[|PREFIX|..], SEPARATOR) {
      OnlyShared(candidate);
    }
  }

  lemma {:induction false} SharedHoldsBoth(candidate: string)
    requires SHARED <= candidate
    ensures PREFIX <= candidate && Contains(candidate, SEPARATOR)
  {
    assert SHARED == "input:" + SEPARATOR == PREFIX + "\noutput:\n";
    PrefixTransitive(PREFIX, SHARED, candidate);
    assert candidate[6..6 + |SEPARATOR|] == SHARED[6..6 + |SEPARATOR|] == SEPARATOR;
    assert OccursAt(candidate, SEPARATOR, 6);
  }

  lemma {:induction false} OnlyShared(candidate: string)
    requires PREFIX <= candidate
    requires Contains(candidate, SEPARATOR) && !Contains(candidate[|PREFIX|..], SEPARATOR)
    ensures SHARED <= candidate
  {
    var rest := candidate[|PREFIX|..];
    var k: nat :| k <= |candidate| && OccursAt(candidate, SEPARATOR, k);
    if k >= |PREFIX| {
      assert rest[k - |PREFIX|..k - |PREFIX| + |SEPARATOR|] == candidate[k..k + |SEPARATOR|];
      assert OccursAt(rest, SEPARATOR, k - |PREFIX|);
    }
    EarlyInPrefix(candidate, k);
  }

  lemma {:induction false} PrefixTransitive(a: string, b: string, c: string)
    requires a <= b <= c
    ensures a <= c
  {
  }

  lemma {:induction false} EarlyInPrefix(candidate: string, k: nat)
    requires PREFIX <= candidate && k < |PREFIX| && OccursAt(candidate, SEPARATOR, k)
    ensures SHARED <= candidate
  {
    assert candidate[k] == SEPARATOR[0] == '\n';
    assert candidate[k] == PREFIX[k];
    assert k == 6;
    assert candidate[..6] == PREFIX[..6] == "input:";
    assert candidate[..16] == candidate[..6] + candidate[6..16];
    assert SHARED == "input:" + SEPARATOR;
  }

  // ---- From files to rows --------------------------------------------------

  lemma {:induction false} SplitAllPrinted(pairs: seq<(string, string)>)
    ensures var r := SplitAll(Map(pairs, PrintPair));
            && r.Ok? && |r.value| == |pairs|
            && (forall k :: 0 <= k < |pairs| ==> Ok(r.value[k]) == Split(PrintPair(pairs[k])))
  {
    var candidates := Map(pairs, PrintPair);
    if |pairs| > 0 {
      RoundTripExactly(pairs[0].0, pairs[0].1);
      assert candidates[1..] == Map(pairs[1..], PrintPair);
      SplitAllPrinted(pairs[1..]);
    }
  }

  lemma {:induction false} PairsHoldEveryPrompt(prompts: seq<string>, outputs: seq<string>, p: string)
    requires outputs != []
    ensures p in prompts <==> exists pair :: pair in Pairs(prompts, outputs) && pair.0 == p
  {
    if |prompts| > 0 {
      var first := Map(outputs, (o: string) => (prompts[0], o));
      PairsHoldEveryPrompt(prompts[1..], outputs, p);
      assert first[0] in first && first[0].0 == prompts[0];
      assert prompts == [prompts[0]] + prompts[1..];
    }
  }

  /** The captured pairs: every prompt file's content with that of every command output, test result and artifact. */
  lemma {:induction false} PairsExactly(files: seq<CapturedFile>, prompt: string, output: string)
    ensures (prompt, output) in PairsOf(files) <==>
              && (exists f :: f in files && f.role == PromptFile && f.content == prompt)
              && (exists f :: f in files && f.role in {CommandOutput, TestResult, ArtifactFile} && f.content == output)
  {
    var prompts := Filter(files, IsPrompt);
    var outputs := Filter(files, IsOutput);
    MapMember(prompts, ContentOf, prompt);
    MapMember(outputs, ContentOf, output);
    PairMember(Map(prompts, ContentOf), Map(outputs, ContentOf), prompt, output);
    assert forall f :: f in files && f.role in {CommandOutput, TestResult, ArtifactFile} ==> f in outputs;
    assert forall f :: f in files && f.role == PromptFile ==> f in prompts;
  }

  lemma {:induction false} PairMember(prompts: seq<string>, outputs: seq<string>, prompt: string, output: string)
    ensures (prompt, output) in Pairs(prompts, outputs) <==> prompt in prompts && output in outputs
  {
    if |prompts| > 0 {
      PairMember(prompts[1..], outputs, prompt, output);
      MapMember(outputs, (o: string) => (prompts[0], o), (prompt, output));
      assert prompts == [prompts[0]] + prompts[1..];
    }
  }

  /** Splitting what was printed gives the pairs back exactly when all their prompts are clean. */
  lemma {:induction false} PairsSurviveExactly(pairs: seq<(string, string)>)
    ensures SplitAll(Map(pairs, PrintPair)).Ok?
    ensures SplitAll(Map(pairs, PrintPair)).value == pairs <==> forall pair :: pair in pairs ==> Clean(pair.0)
  {
    SplitAllPrinted(pairs);
    var rows := SplitAll(Map(pairs, PrintPair)).value;
    forall k | 0 <= k < |pairs|
      ensures rows[k] == pairs[k] <==> Clean(pairs[k].0)
    {
      RoundTripExactly(pairs[k].0, pairs[k].1);
    }
  }

  lemma {:induction false} AllPromptsClean(prompts: seq<string>, outputs: seq<string>)
    requires outputs != []
    ensures (forall pair :: pair in Pairs(prompts, outputs) ==> Clean(pair.0)) <==>
              forall p :: p in prompts ==> Clean(p)
  {
    forall p
      ensures p in prompts <==> exists pair :: pair in Pairs(prompts, outputs) && pair.0 == p
    {
      PairsHoldEveryPrompt(prompts, outputs, p);
    }
  }

  lemma {:induction false} NoOutputsNoPairs(prompts: seq<string>)
    ensures Pairs(prompts, []) == []
  {
    if |prompts| > 0 {
      NoOutputsNoPairs(prompts[1..]);
    }
  }

  /**
   From captured files to training rows: the export never raises on candidates
   of its own, has a row for every prompt and output, and the rows are the
   captured pairs exactly when every prompt is clean or there is no output.
   */
  lemma {:induction false} RowsAreTheCapturedPairs(files: seq<CapturedFile>)
    ensures var rows := SplitAll(FewShotExamples(files));
            && rows.Ok?
            && |rows.value| == |PairsOf(files)|
            && (rows.value == PairsOf(files) <==>
                  || (forall f :: f in files && f.role == PromptFile ==> Clean(f.content))
                  || (forall f :: f in files ==> f.role !in {CommandOutput, TestResult, ArtifactFile}))
  {
    var prompts := Map(Filter(files, IsPrompt), ContentOf);
    var outputs := Map(Filter(files, IsOutput), ContentOf);
    var pairs := PairsOf(files);
    if outputs == [] {
      NoOutputsNoPairs(prompts);
    } else {
      AllPromptsClean(prompts, outputs);
      assert Filter(files, IsOutput)[0] in Filter(files, IsOutput);
    }
    assert FewShotExamples(files) == Map(pairs, PrintPair);
    SplitAllPrinted(pairs);
    PairsSurviveExactly(pairs);
    PromptsOfFiles(files);
    NoOutputs(files);
  }

  lemma {:induction false} NoOutputs(files: seq<CapturedFile>)
    ensures Filter(files, IsOutput) == [] <==> forall f :: f in files ==> !IsOutput(f)
  {
    if Filter(files, IsOutput) != [] {
      assert Filter(files, IsOutput)[0] in Filter(files, IsOutput);
    }
  }

  lemma {:induction false} PromptsOfFiles(files: seq<CapturedFile>)
    ensures forall p :: p in Map(Filter(files, IsPrompt), ContentOf) <==>
              exists f :: f in files && IsPrompt(f) && f.content == p
  {
    var chosen := Filter(files, IsPrompt);
    var prompts := Map(chosen, ContentOf);
    forall p
      ensures p in prompts <==> exists f :: f in files && IsPrompt(f) && f.content == p
    {
      if p in prompts {
        var i :| 0 <= i < |prompts| && prompts[i] == p;
        assert chosen[i] in chosen;
      }
      if f :| f in files && IsPrompt(f) && f.content == p {
        assert f in chosen;
        var i :| 0 <= i < |chosen| && chosen[i] == f;
        assert prompts[i] == p;
      }
    }
  }
}
