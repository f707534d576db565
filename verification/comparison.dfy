/**
 * The two command-line comparison runners. Each trial of the triple loop
 * counts the prompt's tokens, classifies the prompt, asks the provider,
 * scores the answer's readability, stores a result under the trial's key
 * and writes log lines; any exception in between replaces the result with
 * an error record and the loop goes on.
 *
 * The first-generation runner in `LLM_Labs_V1` scores with its own
 * Flesch-only function and logs three readability figures. The root runner
 * scores with the three-key first-generation dictionary but also logs its
 * "smog_index" entry, which that dictionary lacks: the KeyError is caught
 * by the trial's own handler, so every answered trial ends as an error
 * record. `RunTrialRoot` models the code as written; the runner of
 * `LLM_Labs_V1`, which logs the same lines without the SMOG figure, is the
 * corrected behaviour.
 */
module Comparison {
  import opened Base
  import opened Strings
  import opened Seqs
  import opened Numerals
  import opened Dicts
  import opened Readability
  import opened LegacyMetrics
  import opened PromptClassifier
  import opened Llm
  import opened LogExtract
  import Patterns
  import opened Trials

  /** The services a trial calls: the three providers, the token counter, the NLP analysis and the clock. */
  datatype Services = Services(
    groq: Oracle, gemini: Oracle, ollama: Oracle,
    countTokens: string -> nat,
    analyze: string -> Analysis,
    elapsed: Trial -> real)

  const Unsupported: string := "[Unsupported provider]"

  /** The provider dispatch of one trial: an unknown provider answers with a fixed text instead of raising. */
  function Respond(svc: Services, t: Trial, userInput: string): (r: Result<string>)
    ensures t.provider == "groq" ==> r == Query(svc.groq, t.model, t.prompt, userInput)
    ensures t.provider == "gemini" ==> r == Query(svc.gemini, t.model, t.prompt, userInput)
    ensures t.provider == "ollama" ==> r == Query(svc.ollama, t.model, t.prompt, userInput)
    ensures t.provider !in ["groq", "gemini", "ollama"] ==> r == Ok(Unsupported)
  {
    if t.provider == "groq" then Query(svc.groq, t.model, t.prompt, userInput)
    else if t.provider == "gemini" then Query(svc.gemini, t.model, t.prompt, userInput)
    else if t.provider == "ollama" then Query(svc.ollama, t.model, t.prompt, userInput)
    else Ok(Unsupported)
  }

  /** A stored result: the fields both runners write. */
  datatype Outcome = Outcome(
    provider: string, model: string, promptName: string,
    promptType: string, promptLengthWords: nat,
    inputTokens: nat, outputTokens: nat, totalTokens: nat,
    response: string, responseTime: Option<real>, length: nat,
    readability: LegacyReadings)

  /** The error record: the exception's text as the response, no time, zero counts, Flesch "N/A". */
  function Failed(t: Trial, e: PyError): Outcome
  {
    Outcome(t.provider, t.model, t.promptName, "Unknown", 0, 0, 0, 0,
      "Error: " + e.Text(), None, 0, LegacyReadings(0, 0, NA))
  }

  /** The success record of an answered trial, with the readability the runner computed. */
  function Answered(svc: Services, t: Trial, userInput: string, response: string, readability: LegacyReadings): Outcome
  {
    var input := svc.countTokens(userInput + t.prompt);
    var output := svc.countTokens(response);
    Outcome(t.provider, t.model, t.promptName,
      Classify(t.prompt).Name(), |Words(t.prompt)|,
      input, output, input + output,
      response, Some(Round3(svc.elapsed(t))), |Words(response)|,
      readability)
  }

  /**
   * The local `get_readability_metrics` of the `LLM_Labs_V1` runner: the
   * sentence and syllable counts, and Flesch unless there is no sentence or
   * no alphabetic word.
   */
  function LocalReadabilityMetrics(a: Analysis): (r: LegacyReadings)
    ensures r.sentences == a.sentences && r.syllables == a.textSyllables
    ensures r.flesch.NA? <==> a.sentences == 0 || |AlphaWords(a.tokens)| == 0
  {
    var words := |AlphaWords(a.tokens)|;
    var flesch :=
      if a.sentences > 0 && words > 0 then
        Rounded(206.835 - 1.015 * (words as real / a.sentences as real) - 84.6 * (a.textSyllables as real / words as real))
      else NA;
    LegacyReadings(a.sentences, a.textSyllables, flesch)
  }

  /** The runner's own scorer and the shared first-generation scorer give the same three figures. */
  lemma LocalMetricsAgree(a: Analysis)
    ensures LocalReadabilityMetrics(a) == LegacyMetrics.GetReadabilityMetrics(a)
  {
    TallyCountsAlphaWords(a.tokens);
  }

  // ---------------------------------------------------------------- log lines

  function HeaderLines(t: Trial, o: Outcome, time: real): (lines: seq<string>)
  {
    ["Provider: " + Upper(t.provider) + " | Model: " + t.model + " | Prompt: " + t.promptName,
     "Prompt Type: " + o.promptType + " | Prompt Length: " + NatToString(o.promptLengthWords) + " words",
     "Tokens (Input/Output/Total): " + NatToString(o.inputTokens) + "/" + NatToString(o.outputTokens)
       + "/" + NatToString(o.inputTokens + o.outputTokens),
     "Response Time: " + ShowRound3(time) + "s | Words: " + NatToString(o.length)]
  }

  function ReadabilityLine(r: LegacyReadings): string
  {
    "Readability - Sentences: " + NatToString(r.sentences) + ", Syllables: " + NatToString(r.syllables)
      + ", Flesch Score: " + r.flesch.Show()
  }

  /** The readability line up to its Flesch marker. */
  function ReadabilityPrefix(r: LegacyReadings): string
  {
    "Readability - Sentences: " + NatToString(r.sentences) + ", Syllables: " + NatToString(r.syllables) + ", "
  }

  lemma ReadabilityPrefixHasNoF(r: LegacyReadings)
    ensures ReadabilityLine(r) == ReadabilityPrefix(r) + ScoreLabels[0] + r.flesch.Show()
    ensures forall k :: 0 <= k < |ReadabilityPrefix(r)| ==> ReadabilityPrefix(r)[k] != 'F'
  {
    var x, y := NatToString(r.sentences), NatToString(r.syllables);
    var a, b := "Readability - Sentences: ", ", Syllables: ";
    var pre := a + x + b + y + ", ";
    assert pre == ReadabilityPrefix(r);
    forall k | 0 <= k < |pre|
      ensures pre[k] != 'F'
    {
      if k < |a| {
        assert pre[k] == a[k];
      } else if k < |a| + |x| {
        assert pre[k] == x[k - |a|];
      } else if k < |a| + |x| + |b| {
        assert pre[k] == b[k - |a| - |x|];
      } else if k < |a| + |x| + |b| + |y| {
        assert pre[k] == y[k - |a| - |x| - |b|];
      }
    }
  }

  /**
   * The first-generation extractor's Flesch capture on the readability line
   * reads back the score it shows: "N/A" as "N", and a negative score not at
   * all, since its class has no '-'.
   */
  lemma ReadabilityLineReadBack(r: LegacyReadings)
    ensures var c := Capture(ReadabilityLine(r), ScoreLabels[0], LegacyScoreClass);
      && (r.flesch.NA? ==> c == Some("N"))
      && (r.flesch.Num? && r.flesch.hundredths >= 0 ==> c == Some(r.flesch.Show()))
      && (r.flesch.Num? && r.flesch.hundredths < 0 ==> c.None?)
  {
    var pre := ReadabilityPrefix(r);
    ReadabilityPrefixHasNoF(r);
    match r.flesch
    case NA =>
      NoEarlierMarker(pre, ScoreLabels[0], "N/A");
      NotAvailableReadAsN(pre, ScoreLabels[0], []);
      assert pre + ScoreLabels[0] + "N/A" + [] == ReadabilityLine(r);
    case Num(h) =>
      if h >= 0 {
        FleschReadBack(pre, h);
      } else {
        NegativeFleschLine(pre, h);
      }
  }

  /** With no 'F' before it, "Flesch Score: " does not occur before its own position. */
  lemma NoEarlierMarker(pre: string, marker: string, v: string)
    requires |marker| > 0 && marker[0] == 'F'
    requires forall k :: 0 <= k < |pre| ==> pre[k] != 'F'
    ensures forall k: nat :: k < |pre| ==> !OccursAt(pre + marker + v + [], marker, k)
  {
    var text := pre + marker + v + [];
    forall k: nat | k < |pre|
      ensures !OccursAt(text, marker, k)
    {
      assert text[k] == pre[k];
    }
  }

  /** A text cannot hold `marker` where it holds a different first character. */
  lemma NotAtOtherStart(text: string, marker: string, k: nat)
    requires k < |text| && |marker| > 0 && text[k] != marker[0]
    ensures !OccursAt(text, marker, k)
  {
    if k + |marker| <= |text| {
      assert text[k..k + |marker|][0] == text[k];
    }
  }

  lemma FleschReadBack(pre: string, h: int)
    requires h >= 0
    requires forall k :: 0 <= k < |pre| ==> pre[k] != 'F'
    ensures Capture(pre + ScoreLabels[0] + Num(h).Show(), ScoreLabels[0], LegacyScoreClass) == Some(Num(h).Show())
  {
    var v := ShowScaled(h, 2);
    assert Num(h).Show() == v;
    ShowScaledChars(h, 2);
    forall k | 0 <= k < |v|
      ensures Patterns.InClass(LegacyScoreClass, v[k])
    {
      ClassMembers(v[k]);
    }
    NoEarlierMarker(pre, ScoreLabels[0], v);
    CaptureAfter(pre, ScoreLabels[0], v, [], LegacyScoreClass);
    assert pre + ScoreLabels[0] + v + [] == pre + ScoreLabels[0] + Num(h).Show();
  }

  lemma NegativeFleschLine(pre: string, h: int)
    requires h < 0
    requires forall k :: 0 <= k < |pre| ==> pre[k] != 'F'
    ensures Capture(pre + ScoreLabels[0] + Num(h).Show(), ScoreLabels[0], LegacyScoreClass).None?
  {
    var marker := ScoreLabels[0];
    var v := ShowScaled(h, 2);
    assert Num(h).Show() == v;
    ShowScaledChars(h, 2);
    assert marker == "Flesch Score: ";
    var text := pre + marker + v;
    assert text == pre + "Flesch Score: -" + v[1..] + [];
    forall k: nat | k != |pre| && k < |text|
      ensures text[k] != 'F'
    {
      if k < |pre| {
        assert text[k] == pre[k];
      } else if k < |pre| + |marker| {
        assert text[k] == marker[k - |pre|];
      } else {
        assert text[k] == v[k - |pre| - |marker|];
      }
    }
    forall k: nat | k != |pre|
      ensures !OccursAt(text, marker, k)
    {
      if k < |text| {
        NotAtOtherStart(text, marker, k);
      }
    }
    NegativeFleschNotFound(pre, v[1..], []);
  }

  /** The last line of a successful trial: the response and the delimiter that ends the log entry. */
  function ResponseLine(response: string): string
  {
    "Response:\n" + response + "\n" + Delimiter
  }

  function ErrorLine(t: Trial, e: PyError): string
  {
    "Error querying " + t.provider + " (" + t.model + ") with " + t.promptName + ": " + e.Text()
  }

  /** What one trial leaves behind: the lines it logs and the result stored under its key. */
  datatype Step = Step(log: seq<string>, outcome: Outcome)

  /**
   * One trial of the `LLM_Labs_V1` runner: a failed call gives one error
   * line and the error record; an answer gives six lines, the last ending
   * with the delimiter, and the success record.
   */
  function RunTrial(svc: Services, userInput: string, t: Trial): (s: Step)
    ensures s.outcome.responseTime.None? <==> Respond(svc, t, userInput).Err?
    ensures Respond(svc, t, userInput).Err? ==>
      var e := Respond(svc, t, userInput).error;
      && s.outcome == Failed(t, e)
      && s.log == [ErrorLine(t, e)]
    ensures Respond(svc, t, userInput).Ok? ==>
      var response := Respond(svc, t, userInput).value;
      && s.outcome.response == response
      && s.outcome.totalTokens == s.outcome.inputTokens + s.outcome.outputTokens
      && s.outcome.inputTokens == svc.countTokens(userInput + t.prompt)
      && s.outcome.outputTokens == svc.countTokens(response)
      && s.outcome.length == |Words(response)|
      && s.outcome.promptLengthWords == |Words(t.prompt)|
      && s.outcome.provider == t.provider && s.outcome.model == t.model && s.outcome.promptName == t.promptName
      && s.outcome.promptType == Classify(t.prompt).Name()
      && s.outcome.readability == LegacyMetrics.GetReadabilityMetrics(svc.analyze(response))
      && |s.log| == 6 && s.log[..4] == HeaderLines(t, s.outcome, svc.elapsed(t))
      && s.log[4] == ReadabilityLine(s.outcome.readability) && s.log[5] == ResponseLine(response)
  {
    match Respond(svc, t, userInput)
    case Err(e) => Step([ErrorLine(t, e)], Failed(t, e))
    case Ok(response) => AnsweredStep(svc, userInput, t, response)
  }

  /** What an answered trial of the `LLM_Labs_V1` runner logs and stores. */
  function AnsweredStep(svc: Services, userInput: string, t: Trial, response: string): (s: Step)
    ensures s.outcome.responseTime.Some?
    ensures && s.outcome.response == response
      && s.outcome.totalTokens == s.outcome.inputTokens + s.outcome.outputTokens
      && s.outcome.inputTokens == svc.countTokens(userInput + t.prompt)
      && s.outcome.outputTokens == svc.countTokens(response)
      && s.outcome.length == |Words(response)|
      && s.outcome.promptLengthWords == |Words(t.prompt)|
      && s.outcome.provider == t.provider && s.outcome.model == t.model && s.outcome.promptName == t.promptName
      && s.outcome.promptType == Classify(t.prompt).Name()
      && s.outcome.readability == LegacyMetrics.GetReadabilityMetrics(svc.analyze(response))
      && |s.log| == 6 && s.log[..4] == HeaderLines(t, s.outcome, svc.elapsed(t))
      && s.log[4] == ReadabilityLine(s.outcome.readability) && s.log[5] == ResponseLine(response)
  {
    var readability := LocalReadabilityMetrics(svc.analyze(response));
    LocalMetricsAgree(svc.analyze(response));
    var o := Answered(svc, t, userInput, response, readability);
    Step(HeaderLines(t, o, svc.elapsed(t)) + [ReadabilityLine(readability), ResponseLine(response)], o)
  }

  /**
   * One trial of the root runner, as written: after the four header lines
   * the readability line looks up "smog_index"; where that raises, the
   * error line and the error record replace the rest.
   */
  function RunTrialRoot(svc: Services, userInput: string, t: Trial): (s: Step)
    ensures Respond(svc, t, userInput).Err? ==> s == RunTrial(svc, userInput, t)
  {
    match Respond(svc, t, userInput)
    case Err(e) => Step([ErrorLine(t, e)], Failed(t, e))
    case Ok(response) =>
      var readability := LegacyMetrics.GetReadabilityMetrics(svc.analyze(response));
      var o := Answered(svc, t, userInput, response, readability);
      var head := HeaderLines(t, o, svc.elapsed(t));
      match readability.Lookup("smog_index")
      case Err(e) => Step(head + [ErrorLine(t, e)], Failed(t, e))
      case Ok(smog) =>
        Step(head + [ReadabilityLine(readability) + ", SMOG Index: " + smog.Show(), ResponseLine(response)], o)
  }

  /** As written, an answered root trial logs its header lines, then the KeyError, and is stored as an error record. */
  lemma AnsweredRootTrialFails(svc: Services, userInput: string, t: Trial)
    requires Respond(svc, t, userInput).Ok?
    ensures var s := RunTrialRoot(svc, userInput, t);
      && s.outcome == Failed(t, KeyError("smog_index"))
      && |s.log| == 5 && s.log[4] == ErrorLine(t, KeyError("smog_index"))
      && s.log[..4] == RunTrial(svc, userInput, t).log[..4]
  {
    var response := Respond(svc, t, userInput).value;
    var readability := LegacyMetrics.GetReadabilityMetrics(svc.analyze(response));
    NoSmogIndex(svc.analyze(response));
    var o := Answered(svc, t, userInput, response, readability);
    var head := HeaderLines(t, o, svc.elapsed(t));
    assert |head| == 4;
    assert RunTrialRoot(svc, userInput, t) == Step(head + [ErrorLine(t, KeyError("smog_index"))], Failed(t, KeyError("smog_index")));
    LocalMetricsAgree(svc.analyze(response));
    assert RunTrial(svc, userInput, t) == AnsweredStep(svc, userInput, t, response);
  }

  /**
   * An answered trial's log reads back as its record: the tokens line gives
   * the three counts and the first-generation Flesch capture gives the score
   * as printed, "N" for "N/A", and nothing for a negative score.
   */
  lemma AnsweredLogReadBack(svc: Services, userInput: string, t: Trial)
    requires Respond(svc, t, userInput).Ok?
    ensures var s := RunTrial(svc, userInput, t);
      var o := s.outcome;
      var c := Capture(s.log[4], ScoreLabels[0], LegacyScoreClass);
      && ReadTokens(s.log[2]) == Some((o.inputTokens, o.outputTokens, o.totalTokens))
      && (o.readability.flesch.NA? ==> c == Some("N"))
      && (o.readability.flesch.Num? && o.readability.flesch.hundredths >= 0 ==> c == Some(o.readability.flesch.Show()))
      && (o.readability.flesch.Num? && o.readability.flesch.hundredths < 0 ==> c.None?)
  {
    var s := RunTrial(svc, userInput, t);
    StepReadBack(s, t, svc.elapsed(t));
  }

  lemma StepReadBack(s: Step, t: Trial, time: real)
    requires |s.log| >= 5 && s.log[..4] == HeaderLines(t, s.outcome, time)
    requires s.log[4] == ReadabilityLine(s.outcome.readability)
    requires s.outcome.totalTokens == s.outcome.inputTokens + s.outcome.outputTokens
    ensures var o := s.outcome;
      var c := Capture(s.log[4], ScoreLabels[0], LegacyScoreClass);
      && ReadTokens(s.log[2]) == Some((o.inputTokens, o.outputTokens, o.totalTokens))
      && (o.readability.flesch.NA? ==> c == Some("N"))
      && (o.readability.flesch.Num? && o.readability.flesch.hundredths >= 0 ==> c == Some(o.readability.flesch.Show()))
      && (o.readability.flesch.Num? && o.readability.flesch.hundredths < 0 ==> c.None?)
  {
    var o := s.outcome;
    assert s.log[2] == s.log[..4][2];
    TokensLineReadBack(o.inputTokens, o.outputTokens, o.inputTokens + o.outputTokens);
    ReadabilityLineReadBack(o.readability);
  }

  /** The corrected trial stores an answered trial as a success, with its time. */
  lemma AnsweredTrialSucceeds(svc: Services, userInput: string, t: Trial)
    requires Respond(svc, t, userInput).Ok?
    ensures RunTrial(svc, userInput, t).outcome.responseTime == Some(Round3(svc.elapsed(t)))
  {
  }

  // ---------------------------------------------------------------- the whole run

  /** The results dictionary and the log of a whole run. */
  datatype Run = Run(results: Dict<Outcome>, log: seq<string>)

  function Outcomes(svc: Services, userInput: string, root: bool): Trial -> Outcome
  {
    (t: Trial) => if root then RunTrialRoot(svc, userInput, t).outcome else RunTrial(svc, userInput, t).outcome
  }

  function Logs(svc: Services, userInput: string, root: bool): Trial -> seq<string>
  {
    (t: Trial) => if root then RunTrialRoot(svc, userInput, t).log else RunTrial(svc, userInput, t).log
  }

  /**
   * `run_comparative_evaluation`: `root` selects the root runner as written,
   * otherwise the `LLM_Labs_V1` runner.
   */
  function RunComparison(svc: Services, providers: Dict<seq<string>>, prompts: Dict<string>, userInput: string, root: bool): (r: Run)
    ensures Keys(r.results) == Dedup(Map(TrialKey, AllTrials(providers, prompts)))
    ensures |r.results| <= ModelCount(providers) * |prompts|
  {
    var trials := AllTrials(providers, prompts);
    RecordKeys(trials, Outcomes(svc, userInput, root));
    RecordSize(trials, Outcomes(svc, userInput, root));
    TrialCount(providers, prompts);
    Run(Record(trials, Outcomes(svc, userInput, root)), Flatten(Map(Logs(svc, userInput, root), trials)))
  }

  /** As written, the root runner stores no success record: every stored result has no response time. */
  lemma RootStoresOnlyErrors(svc: Services, providers: Dict<seq<string>>, prompts: Dict<string>, userInput: string, k: string)
    requires k in Keys(RunComparison(svc, providers, prompts, userInput, true).results)
    ensures var v := Get(RunComparison(svc, providers, prompts, userInput, true).results, k);
      v.Some? && v.value.responseTime.None?
  {
    var trials := AllTrials(providers, prompts);
    LastTrialWins(trials, Outcomes(svc, userInput, true), k);
    RecordKeys(trials, Outcomes(svc, userInput, true));
    var j := LastWithKey(trials, k);
    if j.None? {
      assert false;
    }
    RootOutcomeIsError(svc, userInput, trials[j.value]);
  }

  lemma RootOutcomeIsError(svc: Services, userInput: string, t: Trial)
    ensures RunTrialRoot(svc, userInput, t).outcome.responseTime.None?
  {
    if Respond(svc, t, userInput).Ok? {
      AnsweredRootTrialFails(svc, userInput, t);
    }
  }

  /** The result stored under a key is the outcome of the last trial with that key. */
  lemma StoredResultIsLastTrial(svc: Services, providers: Dict<seq<string>>, prompts: Dict<string>, userInput: string, k: string)
    ensures var trials := AllTrials(providers, prompts);
      Get(RunComparison(svc, providers, prompts, userInput, false).results, k) ==
        match LastWithKey(trials, k)
        case None => None
        case Some(j) => Some(RunTrial(svc, userInput, trials[j]).outcome)
  {
    LastTrialWins(AllTrials(providers, prompts), Outcomes(svc, userInput, false), k);
  }

  // ---------------------------------------------------------------- log pieces

  /** No character of `s` is '-'. */
  predicate DashFree(s: string)
  {
    forall i :: 0 <= i < |s| ==> s[i] != '-'
  }

  lemma DelimiterCharAt(x: string, j: nat, q: nat)
    requires OccursAt(x, Delimiter, j) && j <= q < j + |Delimiter|
    ensures x[q] == '-'
  {
    assert x[q] == x[j..j + |Delimiter|][q - j];
  }

  /** A run of dashes cannot straddle a non-empty dash-free piece. */
  lemma DashRunSides(a: string, s: string, b: string, j: nat)
    requires |s| > 0 && DashFree(s)
    requires OccursAt(a + s + b, Delimiter, j)
    ensures OccursAt(a, Delimiter, j) || (j >= |a| + |s| && OccursAt(b, Delimiter, j - |a| - |s|))
  {
    var x := a + s + b;
    var d := |Delimiter|;
    if j < |a| + |s| && j + d > |a| {
      var q := if j <= |a| then |a| else j;
      DelimiterCharAt(x, j, q);
      assert false;
    } else if j + d <= |a| {
      assert x[j..j + d] == a[j..j + d];
      assert OccursAt(a, Delimiter, j);
    } else {
      var jb := j - |a| - |s|;
      assert j + d <= |x|;
      assert jb + d <= |b|;
      assert x[j..j + d] == b[jb..jb + d];
      assert OccursAt(b, Delimiter, jb);
    }
  }

  /** The delimiter occurs in `a + s + b` only where it occurs in `a` or in `b`. */
  lemma NoDelimiterAcross(a: string, s: string, b: string)
    requires |s| > 0 && DashFree(s)
    requires !Contains(a, Delimiter) && !Contains(b, Delimiter)
    ensures !Contains(a + s + b, Delimiter)
  {
    ContainsIff(a + s + b, Delimiter);
    ContainsIff(a, Delimiter);
    ContainsIff(b, Delimiter);
    forall j: nat | OccursAt(a + s + b, Delimiter, j)
      ensures false
    {
      DashRunSides(a, s, b, j);
    }
  }

  lemma DashFreeHasNoDelimiter(s: string)
    requires DashFree(s)
    ensures !Contains(s, Delimiter)
  {
    ContainsIff(s, Delimiter);
    forall j: nat | OccursAt(s, Delimiter, j)
      ensures false
    {
      DelimiterCharAt(s, j, j);
      assert false;
    }
  }

  /**
   * An error line holds no delimiter unless a name or the message does, so
   * the log entry of a failed trial is not closed and runs into the next.
   */
  lemma ErrorLineHasNoDelimiter(t: Trial, e: PyError)
    requires !Contains(t.provider, Delimiter) && !Contains(t.model, Delimiter)
    requires !Contains(t.promptName, Delimiter) && !Contains(e.Text(), Delimiter)
    ensures !Contains(ErrorLine(t, e), Delimiter)
  {
    var p1, p2, p3, p4 := "Error querying ", " (", ") with ", ": ";
    assert DashFree(p1) && DashFree(p2) && DashFree(p3) && DashFree(p4);
    assert ErrorLine(t, e) == (((p1 + t.provider) + p2 + t.model) + p3 + t.promptName) + p4 + e.Text();
    assert p1 + t.provider == "" + p1 + t.provider;
    DashFreeHasNoDelimiter("");
    NoDelimiterAcross("", p1, t.provider);
    NoDelimiterAcross(p1 + t.provider, p2, t.model);
    NoDelimiterAcross((p1 + t.provider) + p2 + t.model, p3, t.promptName);
    NoDelimiterAcross(((p1 + t.provider) + p2 + t.model) + p3 + t.promptName, p4, e.Text());
  }

  /** A successful trial's log ends with the delimiter, closing its entry. */
  lemma SuccessEndsEntry(svc: Services, userInput: string, t: Trial)
    requires Respond(svc, t, userInput).Ok?
    ensures var log := RunTrial(svc, userInput, t).log;
      var last := log[|log| - 1];
      |last| >= |Delimiter| && last[|last| - |Delimiter|..] == Delimiter
  {
  }
}
