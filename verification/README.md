# llm-labs: a verified model of the comparison harness

llm-labs compares large language models. A run asks several providers
(Groq, Gemini, Ollama) and several of their models the same question under
several prompt templates. It times each answer, counts tokens, classifies
the prompt, scores the answer's readability and writes a log. A report
generator reads the log back, groups the records by provider and model, and
renders averages. A Flask application runs the same loop for the browser,
lists the local Ollama models and previews results.

This project models the deterministic core of that harness in Dafny.
Every library call is a parameter:

- the LLM providers are oracles that answer or fail;
- the tokenizer is a function to a count;
- the NLP analysis (spaCy tokens, sentence count, textstat syllables and
  Dale-Chall) is an input record;
- the clock is a function from trial to elapsed time;
- the SMOG square root is a function argument.

Floats are exact reals. Python's `round(x, n)` is round-half-even of the
exact value, so every rounded value is within half a unit of the last place.

| file | module | models |
|---|---|---|
| base.dfy | Base | `Option`, `Result`, the Python exceptions that matter and their `str` |
| strings.dfy | Strings | `lower`, `upper`, `in`, `split()`, `split(sep)`, `join`, `strip`, `replace`, `title`, slicing |
| numerals.dfy | Numerals | `int`/`str` on naturals, `float()` on sign/digits/point literals, `round`, `str` of a rounded float, `'.2f'` |
| seqs.dfy, dicts.dfy | Seqs, Dicts | comprehensions, first-seen order, insertion-ordered dictionaries with overwrite |
| patterns.dfy | Patterns | `re.search` for patterns of literals and greedy `[class]+` groups |
| classifier.dfy | PromptClassifier | `classify_prompt` |
| readability.dfy | Readability | the second-generation `metrics.py`: statistics, ten guarded formulas, the fifteen-key dictionary |
| legacy_metrics.dfy | LegacyMetrics | the first-generation `metrics.py`: three statistics, Flesch, the three-key dictionary |
| llms.dfy | Llm | the three `query_*_llm` calls as one oracle query |
| trials.dfy | Trials | the provider → model → prompt loop and the non-injective result key |
| comparison.dfy | Comparison | both command-line `run_comparative_evaluation` runners |
| log_extract.dfy | LogExtract | both `extract_log_metrics` |
| grouping.dfy | Grouping | the `provider::model` grouping of both report generators |
| report.dfy | Report | `safe_float` and the second-generation `generate_report` |
| legacy_report.dfy | LegacyReport | the first-generation `generate_report`, as written and corrected |
| web_app.dfy | WebApp | the `ollama list` parser, template building, the evaluation loop and summary, the report preview |

The first-generation runner under `LLM_Labs_V1/utils` and the root runner
`utils/comparison.py` differ in one line. The root runner's log line reads
`readability['smog_index']`, but the three-key dictionary it uses has no
such key. The trial's own `except` catches the KeyError, so every answered
trial of the root runner is stored as an error record. The `LLM_Labs_V1`
runner does not read that key, and serves as the corrected behaviour (see
Findings).

## Model

| member | source | states |
|---|---|---|
| PromptClassifier.AnyIn | comparision_tools/prompt_classifier.py:3 | `any(word in p for word in words)` is true exactly when some keyword occurs in the text as a substring |
| PromptClassifier.Classify | comparision_tools/prompt_classifier.py:1-12 | Math iff a Math keyword occurs in the lower-cased prompt; Creative iff none does and a Creative one does; Reasoning iff neither earlier category matches and a Reasoning keyword does; Knowledge iff none of the first three matches and a Knowledge keyword does |
| PromptClassifier.GeneralIffNoKeyword | comparision_tools/prompt_classifier.py:11-12 | the label is "General" exactly when none of the twenty keywords occurs in the lower-cased prompt |
| PromptClassifier.ClassifyIgnoresCase | comparision_tools/prompt_classifier.py:2 | lower-casing or upper-casing the prompt never changes its category |
| PromptClassifier.MathSurvivesContext | comparision_tools/prompt_classifier.py:3-4 | a Math prompt stays Math whatever text is put before or after it |
| PromptClassifier.FirstCategoryWins | comparision_tools/prompt_classifier.py:7-8 | a Reasoning keyword in a prompt with no Math or Creative keyword gives Reasoning |
| PromptClassifier.SolveEquationIsMath | comparision_tools/prompt_classifier.py:3-4 | "Solve this equation for x" is Math |
| PromptClassifier.AftermathIsMath | comparision_tools/prompt_classifier.py:3-4 | matching is by substring: "aftermath" is Math |
| PromptClassifier.ChainOfThoughtIsMath | comparision_tools/prompt_classifier.py:3-4 | "Solve each step carefully" (the chain-of-thought template's wording) is Math |
| PromptClassifier.DragonStoryIsCreative | comparision_tools/prompt_classifier.py:5-6 | "Tell me a story about a dragon" is Creative |
| PromptClassifier.ShowMeIsReasoning | comparision_tools/prompt_classifier.py:7-8 | matching is by substring: "show me" contains "how" and is Reasoning |
| PromptClassifier.CapitalQuestionIsKnowledge | comparision_tools/prompt_classifier.py:9-10 | "What is the capital of France?" is Knowledge; "how" is absent although its letters occur |
| Readability.Tally | LLM_Labs_V2/comparision_tools/metrics.py:10-16 | polysyllables ≤ alphabetic words ≤ characters of alphabetic words, every alphabetic token being non-empty |
| Readability.GetTextStats | LLM_Labs_V2/comparision_tools/metrics.py:7-24 | sentence and syllable counts are the analysis's; `polysyllable_count ≤ word_count ≤ char_count` |
| Readability.TallyCountsAlphaWords | LLM_Labs_V2/comparision_tools/metrics.py:10 | the word count is the number of alphabetic tokens |
| Readability.Rounded | LLM_Labs_V2/comparision_tools/metrics.py:34 | `round(score, 2)` is a number within half a hundredth of the score |
| Readability.Flesch | LLM_Labs_V2/comparision_tools/metrics.py:26-37 | "N/A" exactly when there is no sentence or no word; otherwise the rounded Flesch formula |
| Readability.Smog | LLM_Labs_V2/comparision_tools/metrics.py:39-46 | "N/A" exactly when there are fewer than three sentences or no polysyllable |
| Readability.ColemanLiau | LLM_Labs_V2/comparision_tools/metrics.py:48-57 | "N/A" exactly when there is no word or no sentence; otherwise the rounded Coleman–Liau formula |
| Readability.GunningFog | LLM_Labs_V2/comparision_tools/metrics.py:59-66 | "N/A" exactly when there is no sentence or no word; otherwise the rounded Gunning Fog formula |
| Readability.Ari | LLM_Labs_V2/comparision_tools/metrics.py:68-75 | "N/A" exactly when there is no word or no sentence; otherwise the rounded ARI formula |
| Readability.DaleChall | LLM_Labs_V2/comparision_tools/metrics.py:77-78 | always a number: the library's score rounded |
| Readability.Sample | LLM_Labs_V2/comparision_tools/metrics.py:81-82 | `words[:n]` is a prefix of the alphabetic words, of length min(n, words) |
| Readability.Forcast | LLM_Labs_V2/comparision_tools/metrics.py:80-85 | always a number, between 5 and 20, within rounding of 20 − monosyllables/10 over the first 150 words |
| Readability.ForcastWithoutMonosyllables | LLM_Labs_V2/comparision_tools/metrics.py:83-85 | with no one-syllable word in the sample FORCAST is exactly 20 |
| Readability.Max1 | LLM_Labs_V2/comparision_tools/metrics.py:93 | `max(1, n)` is at least 1 and at least n, and n itself when n ≥ 1 |
| Readability.EasyPlusHard | LLM_Labs_V2/comparision_tools/metrics.py:90-92 | every sampled word is easy or hard, so easy + hard = min(100, words) |
| Readability.LinsearWrite | LLM_Labs_V2/comparision_tools/metrics.py:87-99 | always a number: the raw score halved when above 20, otherwise reduced by 2 |
| Readability.LinsearWriteWithoutWords | LLM_Labs_V2/comparision_tools/metrics.py:94-98 | a text with no alphabetic word scores −2 |
| Readability.Lix | LLM_Labs_V2/comparision_tools/metrics.py:101-109 | ZeroDivisionError exactly when there is no alphabetic word; otherwise the rounded LIX formula |
| Readability.Rix | LLM_Labs_V2/comparision_tools/metrics.py:111-118 | always a non-negative number within rounding of long words / max(1, sentences); 0 when no word is longer than six letters |
| Readability.GetReadabilityMetrics | LLM_Labs_V2/comparision_tools/metrics.py:120-168 | raises ZeroDivisionError exactly when the text has no alphabetic word; otherwise the statistics pass through unchanged and each of the ten scores is its own formula (Flesch, SMOG, Coleman-Liau, Gunning Fog, ARI, Dale-Chall, FORCAST, Linsear Write, LIX, RIX) over those statistics |
| Readability.ScoreEntries | LLM_Labs_V2/comparision_tools/metrics.py:152-167 | each of the ten score keys of the result dictionary looks up the value of its own formula |
| Readability.ScoresPresent | LLM_Labs_V2/comparision_tools/metrics.py:120-168 | with at least one word and one sentence every score is a number except SMOG, which is a number exactly when there are at least three sentences and some polysyllable |
| Readability.StatisticsPassThrough | LLM_Labs_V2/comparision_tools/metrics.py:152-157 | the five statistics appear unchanged under their own keys |
| Readability.SmogEntry | LLM_Labs_V2/comparision_tools/metrics.py:125-159 | the "smog_index" entry exists and is "N/A" exactly when sentences < 3 or no polysyllable |
| Readability.NoWordsRaises | LLM_Labs_V2/comparision_tools/metrics.py:101-148 | a text without alphabetic tokens makes the whole scorer raise ZeroDivisionError, whatever its sentences |
| Readability.FleschDecreasesWithSyllables | LLM_Labs_V2/comparision_tools/metrics.py:29-33 | for fixed sentences and words, more syllables give a strictly lower score and never a higher rounded one |
| Readability.FleschExample | comparision_tools/metrics.py:21-27 | 2 sentences, 6 words and 6 syllables score 119.19, printed "119.19" |
| LegacyMetrics.GetTextStats | comparision_tools/metrics.py:7-17 | only sentences, alphabetic words and syllables; they equal the second-generation counts |
| LegacyMetrics.GetReadabilityMetrics | comparision_tools/metrics.py:32-41 | sentence and syllable counts pass through; Flesch is "N/A" exactly when there is no sentence or no word, and otherwise the Flesch Reading Ease formula over the sentence, word and syllable counts |
| LegacyMetrics.NoSmogIndex | comparision_tools/metrics.py:37-41 | looking up "smog_index" in the three-key dictionary raises KeyError('smog_index') |
| LegacyMetrics.AgreesWithFullScorer | comparision_tools/metrics.py:32-41 | on its three keys the first-generation dictionary agrees with the second-generation one |
| Llm.FullPrompt | utils/llms.py:11 | the message is the prompt, one newline, then the user input |
| Llm.Query | utils/llms.py:9-32 | fails exactly when the provider fails, with its message; otherwise the answer with leading and trailing whitespace cut off: a slice of the answer with only whitespace outside it, no space at either end, empty iff the answer is all whitespace |
| Trials.ModelTrials | utils/comparison.py:22 | one trial per prompt, in prompt order, for the given provider and model |
| Trials.ProviderTrialsLength | utils/comparison.py:21-22 | a provider runs models × prompts trials |
| Trials.TrialCount | utils/comparison.py:20-22 | the loop runs one trial per model and prompt: (number of models) × (number of prompts) |
| Trials.ProviderTrialsMembers | utils/comparison.py:21-22 | a trial runs for a provider exactly when it lists the model and the prompt is one of the prompts |
| Trials.AllTrialsMembers | utils/comparison.py:20-22 | every offered (provider, model, prompt) combination is tried, and nothing else |
| Trials.TrialsInProviderOrder | utils/comparison.py:20 | all trials of earlier providers come before those of later providers |
| Trials.RecordKeys | utils/comparison.py:23-44 | the result keys are the distinct trial keys in the order they are first written |
| Trials.RecordSize | utils/comparison.py:23-44 | at most one result per trial, and exactly one per trial iff no two trials share a key |
| Trials.LastTrialWins | utils/comparison.py:44-73 | the result under a key is the outcome of the last trial with that key |
| Trials.UnderscoreCollision | utils/comparison.py:23 | ("llama_3", "a") and ("llama", "3_a") give the same key |
| Trials.RepeatedModelOverwrites | utils/comparison.py:21-23 | a model listed twice runs twice and leaves one result |
| Comparison.Respond | utils/comparison.py:31-38 | groq, gemini and ollama go to their own oracle; any other provider answers "[Unsupported provider]" without raising |
| Comparison.LocalReadabilityMetrics | LLM_Labs_V1/utils/comparison.py:20-39 | sentence and syllable counts pass through; Flesch is "N/A" exactly when there is no sentence or no alphabetic word |
| Comparison.LocalMetricsAgree | LLM_Labs_V1/utils/comparison.py:20-39 | the runner's own scorer equals the shared first-generation scorer |
| Comparison.RunTrial | LLM_Labs_V1/utils/comparison.py:47-113 | a failed call gives one error line and the error record (no time); an answer gives the success record (provider, model and prompt name of the trial, input counted on user input + prompt, output counted on the response, total = input + output, the prompt's word count and category, the response's word count, the readability) and six log lines: the provider/model/prompt, type/length, tokens and time/words lines, the readability line, and the response followed by the delimiter |
| Comparison.AnsweredStep | LLM_Labs_V1/utils/comparison.py:64-92 | the success record field by field, and the six log lines: four header lines showing that record, the readability line, and the response with the delimiter |
| Comparison.AnsweredLogReadBack | LLM_Labs_V1/utils/comparison.py:83-91 | an answered trial's tokens line is read back as its three token counts; its readability line gives the first-generation Flesch capture the score as printed, "N" for "N/A", and nothing for a negative score |
| Comparison.ReadabilityLineReadBack | utils/report_generator.py:28 | the first-generation Flesch class reads the readability line's score back as printed, "N/A" as "N", and misses a negative score |
| LogExtract.TokensLineReadBack | LLM_Labs_V2/utils/report_generator.py:33-36 | a logged "Tokens (Input/Output/Total): a/b/c" is read back as (a, b, c) |
| Comparison.AnsweredTrialSucceeds | LLM_Labs_V1/utils/comparison.py:64-81 | an answered trial is stored with its rounded time |
| Comparison.SuccessEndsEntry | LLM_Labs_V1/utils/comparison.py:92 | a successful trial's last log line ends with the 50-dash delimiter |
| Comparison.ErrorLineHasNoDelimiter | LLM_Labs_V1/utils/comparison.py:94-95 | the error line has no delimiter unless a name or the message has one, so a failed trial's entry runs into the next |
| Comparison.RunTrialRoot | utils/comparison.py:23-90 | on a failed call the root trial behaves as the corrected one |
| Comparison.AnsweredRootTrialFails | utils/comparison.py:59-90 | an answered root trial logs the same four header lines as the corrected trial and then the KeyError line, and is stored as the error record of KeyError('smog_index') |
| Comparison.RootOutcomeIsError | utils/comparison.py:26-90 | every root trial, answered or not, is stored without a response time |
| Comparison.RunComparison | utils/comparison.py:17-23 | the result keys are the distinct trial keys in first-written order, at most (models × prompts) of them |
| Comparison.RootStoresOnlyErrors | utils/comparison.py:44-90 | every result the root runner stores is an error record |
| Comparison.StoredResultIsLastTrial | LLM_Labs_V1/utils/comparison.py:44-113 | the result under a key is the outcome of the last trial with that key |
| Patterns.SearchFrom | LLM_Labs_V2/utils/report_generator.py:35 | the leftmost position from `i` on where the greedy matcher succeeds, nothing when it succeeds nowhere |
| Patterns.MatchAtUniform | LLM_Labs_V2/utils/report_generator.py:35 | every group captured by runs of one class is a non-empty run of that class |
| Patterns.MatchAtSound | LLM_Labs_V2/utils/report_generator.py:35-37 | what the greedy matcher returns is a match of the pattern |
| Patterns.MatchAtComplete | LLM_Labs_V2/utils/report_generator.py:35-37 | where a pattern whose runs are followed by a non-class literal matches at all, the greedy matcher finds a match |
| Patterns.SearchLeftmost | LLM_Labs_V2/utils/report_generator.py:35-37 | `re.search` finds the leftmost match of such a pattern, and none when it matches nowhere |
| LogExtract.ClassMembers | LLM_Labs_V2/utils/report_generator.py:29-47 | each bracketed class admits exactly the characters its pattern lists |
| LogExtract.Capture | LLM_Labs_V2/utils/report_generator.py:29-47 | `.group(1)` raises exactly when no marker is followed by a class character; otherwise the longest class run after the leftmost such marker |
| LogExtract.CaptureFirst | LLM_Labs_V2/utils/report_generator.py:29-32 | the capture is the run after the leftmost labelled position |
| LogExtract.CaptureAfter | LLM_Labs_V2/utils/report_generator.py:29-47 | a value written after its marker is read back exactly when the next character does not continue it |
| LogExtract.NotAvailableReadAsN | LLM_Labs_V2/utils/report_generator.py:38-47 | a logged "N/A" is captured as "N" by both generations' score classes |
| LogExtract.ModelNameStopsAtSlash | LLM_Labs_V2/utils/report_generator.py:30 | "meta-llama/llama-4" is read as "meta-llama" |
| LogExtract.PromptTypeKeepsTrailingSpace | LLM_Labs_V2/utils/report_generator.py:32 | "Prompt Type: Math \| …" is read as "Math " with its trailing space |
| LogExtract.NegativeFleschNotFound | utils/report_generator.py:28 | a negative Flesch score is not found by the first-generation class, but is by the second |
| LogExtract.TokensPatternShape | LLM_Labs_V2/utils/report_generator.py:35-37 | the tokens pattern has three groups and the time pattern one, each run followed by a non-class literal |
| LogExtract.ReadTokens | LLM_Labs_V2/utils/report_generator.py:33-36 | the three numbers exist exactly when the tokens pattern matches, and are the decimal values of its three captured groups |
| LogExtract.ReadTokensDigits | LLM_Labs_V2/utils/report_generator.py:33-36 | the three groups are digit runs, so `int` never fails on them |
| LogExtract.ReadTime | LLM_Labs_V2/utils/report_generator.py:37 | a time is read only where the time pattern matches |
| LogExtract.ReadHeader | LLM_Labs_V2/utils/report_generator.py:29-37 | the eight shared fields are the captures of their patterns; none when any capture or conversion fails |
| LogExtract.CaptureAll | LLM_Labs_V2/utils/report_generator.py:38-47 | one capture per score marker in marker order, or none when any marker is missing |
| LogExtract.ParseEntry | LLM_Labs_V2/utils/report_generator.py:28-71 | a piece yields a record exactly when all sixteen patterns match and the conversions succeed; the record holds ten scores |
| LogExtract.ParseLegacyEntry | utils/report_generator.py:21-42 | a piece yields a record exactly when the seven fields are found and the conversions succeed |
| LogExtract.ProviderHasNoColon | LLM_Labs_V2/utils/report_generator.py:29 | a captured provider name contains no ':' |
| LogExtract.ExtractLogMetrics | LLM_Labs_V2/utils/report_generator.py:17-73 | FileNotFoundError exactly when there is no log; otherwise the records are the parses of the pieces that parse, in piece order, one per such piece (strictly increasing source positions, no parsing piece skipped) |
| LogExtract.ExtractLegacyLogMetrics | utils/report_generator.py:10-44 | the same split and skip policy over the seven first-generation fields: the records are the parses of the parsing pieces, in piece order |
| LogExtract.EntriesInPieceOrder | LLM_Labs_V2/utils/report_generator.py:27-69 | records come out in piece order: the records of earlier pieces come first |
| Grouping.AddToGroup | LLM_Labs_V2/utils/report_generator.py:81 | after `setdefault(key, []).append(item)` the key's group exists and is non-empty |
| Grouping.GroupByKeys | LLM_Labs_V2/utils/report_generator.py:79-81 | the groups appear in the order their keys are first seen |
| Grouping.GroupByMembers | LLM_Labs_V2/utils/report_generator.py:79-81 | the group of a key holds exactly the records with that key, in order; no group for an unseen key |
| Grouping.GroupByIsPartition | LLM_Labs_V2/utils/report_generator.py:79-81 | keys in first-seen order, and each group is exactly its key's records |
| Grouping.GroupsNonEmpty | LLM_Labs_V2/utils/report_generator.py:81 | every group present holds at least one record |
| Grouping.GroupEntriesNonEmpty | LLM_Labs_V2/utils/report_generator.py:81 | every entry of the grouping holds a non-empty group |
| Grouping.GroupEntryIsMembers | LLM_Labs_V2/utils/report_generator.py:79-81 | the entry at each position holds the records with its key |
| Grouping.KeyHasEntry | LLM_Labs_V2/utils/report_generator.py:79-81 | every record's key names an entry of the grouping |
| Grouping.GroupSizesAddUp | LLM_Labs_V2/utils/report_generator.py:79-81 | every record lands in exactly one group: the sizes add up to the number of records |
| Grouping.GroupKeyInjective | LLM_Labs_V2/utils/report_generator.py:80 | `provider::model` determines the provider and the model when the provider has no ':' |
| Grouping.GroupKeyAmbiguousWithColon | LLM_Labs_V2/utils/report_generator.py:80 | with a ':' in the provider two pairs share a key |
| Report.SafeFloat | LLM_Labs_V2/utils/report_generator.py:9-14 | None exactly where `float` raises ValueError |
| Report.LoggedScoreReadBack | LLM_Labs_V2/utils/report_generator.py:38-47 | a logged score is captured and converted back to the value it printed; "N/A" converts to None |
| Report.LoggedNotAvailable | LLM_Labs_V2/utils/report_generator.py:38 | a logged "N/A" is captured as "N" and `safe_float` gives None |
| Report.LoggedNumber | LLM_Labs_V2/utils/report_generator.py:38-47 | a logged number is captured as printed and converts to its value |
| Report.Missing | LLM_Labs_V2/utils/report_generator.py:150-159 | missing is the number of records whose score does not convert, at most the group size |
| Report.Average | LLM_Labs_V2/utils/report_generator.py:162-171 | "N/A" exactly when no value converts; otherwise within rounding of the mean |
| Report.AverageMissingIff | LLM_Labs_V2/utils/report_generator.py:137-171 | an average is "N/A" exactly when every record of the group misses that score |
| Report.Summarize | LLM_Labs_V2/utils/report_generator.py:130-171 | the group's key; the three averages are the means of input tokens, output tokens and response time over the group; each of the ten score averages is the rounded mean of the scores that convert ("N/A" when none does) and its missing count is the number of records whose score does not convert, at most the group size and equal to it iff the average is "N/A" |
| Report.MeanWithin | LLM_Labs_V2/utils/report_generator.py:132-134 | an average of values between two bounds lies between them |
| Report.StatsOfGroup | LLM_Labs_V2/utils/report_generator.py:77-81 | summary i is the summary of the non-empty group of all entries under the i-th distinct key |
| Report.GroupLinesAt | LLM_Labs_V2/utils/report_generator.py:130-176 | lines 1-3 of group i's block show the mean input tokens, output tokens and response time over exactly the entries of that group |
| Report.GroupScoreLinesAt | LLM_Labs_V2/utils/report_generator.py:136-186 | score line k of group i's block shows the average of the k-th score over the group's convertible scores and the number of the group's entries where it does not convert |
| Report.SummarizeAll | LLM_Labs_V2/utils/report_generator.py:130 | one summary per group, in group order, under its key |
| Report.Block | LLM_Labs_V2/utils/report_generator.py:131-188 | fifteen lines: heading, the three averages of the summary, ten score lines in label order, blank |
| Report.Blocks | LLM_Labs_V2/utils/report_generator.py:130-188 | one fifteen-line block per group, each starting with its heading |
| Report.ScoreLines | LLM_Labs_V2/utils/report_generator.py:83-188 | two header lines and fifteen lines per group |
| Report.ScoreLinesLayout | LLM_Labs_V2/utils/report_generator.py:83-188 | group i's heading is line 2 + 15i and its blank line is line 2 + 15i + 14 |
| Report.Stats | LLM_Labs_V2/utils/report_generator.py:77-81 | one summary per distinct key, in first-seen order |
| Report.GenerateReport | LLM_Labs_V2/utils/report_generator.py:76-221 | fails exactly when the narrative call fails, with the exception it raised; otherwise the score lines, the insights heading and the narrator's reply with only whitespace stripped from its ends, joined by newlines |
| Report.WithInsights | LLM_Labs_V2/utils/report_generator.py:190-221 | the lines, the insights heading and a slice of the narrator's reply with only whitespace outside it; or the exception the call raised |
| Report.HeadingsInFirstSeenOrder | LLM_Labs_V2/utils/report_generator.py:79-131 | heading i names the i-th distinct key in first-seen order |
| Report.TimeLineExample | LLM_Labs_V2/utils/report_generator.py:134-176 | times 1.0 and 3.0 render as "2.00 sec" |
| LegacyReport.FirstUnconvertible | utils/report_generator.py:62 | the first record whose Flesch text passes the "N/A" test but does not convert |
| LegacyReport.FleschScores | utils/report_generator.py:62 | raises the ValueError of the first unconvertible text exactly when one exists; otherwise every value that converts, in order |
| LegacyReport.LegacyBlock | utils/report_generator.py:58-69 | six lines: heading, the means of input tokens, output tokens and response time over the group, the Flesch average, blank |
| LegacyReport.FixedBlock | utils/report_generator.py:58-69 | the corrected block has the same six-line shape and the same three means, with the Flesch average over the texts that convert |
| LegacyReport.LegacyAverageLinesAt | utils/report_generator.py:50-66 | lines 1-3 of group i's block in the corrected report show the means over exactly the entries of the i-th distinct key |
| LegacyReport.FixedBlocks | utils/report_generator.py:57-69 | one corrected block per group |
| LegacyReport.FixedBlockAt | utils/report_generator.py:57-69 | block k is the corrected block of group k |
| LegacyReport.FixedBlocksAt | utils/report_generator.py:57-69 | every block is the corrected block of its group |
| LegacyReport.LegacyBlocks | utils/report_generator.py:57-69 | when the loop does not raise, one block per group |
| LegacyReport.LegacyBlocksFail | utils/report_generator.py:57-63 | the loop raises exactly when some group holds an unconvertible text, with that text's ValueError |
| LegacyReport.LegacyBlocksFixed | utils/report_generator.py:57-69 | where the loop does not raise, its blocks are the corrected ones |
| LegacyReport.Narrate | utils/report_generator.py:71-93 | fails exactly when the narrative call fails, with its exception; otherwise the score lines, the insights heading and the narrator's reply stripped of surrounding whitespace |
| LegacyReport.LegacyGroups | utils/report_generator.py:48-52 | groups in first-seen key order, each non-empty |
| LegacyReport.UnconvertibleInSomeGroup | utils/report_generator.py:48-62 | some group holds an unconvertible text exactly when the summary does |
| LegacyReport.GenerateLegacyReport | utils/report_generator.py:47-96 | an unconvertible Flesch text anywhere makes the report raise its ValueError; without one the report is the corrected one |
| LegacyReport.FixedReport | utils/report_generator.py:47-96 | the corrected report fails exactly when the narrative call fails, with its exception; otherwise the corrected score lines, the insights heading and the stripped reply |
| LegacyReport.FixedFleschNotAvailableIff | utils/report_generator.py:62-63 | a corrected Flesch average is "N/A" exactly when no text of the group converts |
| LegacyReport.LegacyHeadingAt | utils/report_generator.py:54-58 | group i's heading is line 2 + 6i and names the i-th key in first-seen order |
| LegacyReport.LegacyFleschLineAt | utils/report_generator.py:62-68 | line 2 + 6i + 4 shows group i's Flesch average over its convertible texts |
| LegacyReport.BlockLinesAt | utils/report_generator.py:54-69 | line r of block i is line 2 + 6i + r of the score text |
| LegacyReport.NotAvailableRecordIsUnconvertible | utils/report_generator.py:28-62 | a score read back as "N" passes the "N/A" test and does not convert |
| LegacyReport.NotAvailableAbortsReport | utils/report_generator.py:62 | one record with Flesch "N" makes the report raise ValueError for 'N' |
| LegacyReport.NotAvailableFixed | utils/report_generator.py:62-63 | the corrected report of that record succeeds when the narrative call does |
| WebApp.ModelName | LLM_Labs_V1/flask_app.py:88-92 | a line contributes a name exactly when it is not blank; the name is non-empty and has no whitespace |
| WebApp.Names | LLM_Labs_V1/flask_app.py:87-92 | one name per non-blank line, each non-empty and free of whitespace |
| WebApp.ParseOllamaList | LLM_Labs_V1/flask_app.py:84-92 | the header line is skipped; one name per non-blank remaining line |
| WebApp.NamesAreFirstWords | LLM_Labs_V1/flask_app.py:87-92 | the names are the first words of the non-blank lines, in order, and nothing else |
| WebApp.ModelNameIsFirstWord | LLM_Labs_V1/flask_app.py:87-92 | a line gives a name exactly when it is not blank, and the name is its first word |
| WebApp.HeaderOnlyListsNothing | LLM_Labs_V1/flask_app.py:84-87 | output with at most a header line lists no model |
| WebApp.OllamaModelsReply | LLM_Labs_V1/flask_app.py:94-107 | the raw output is returned; "no models" exactly when every listed line is blank; otherwise the names and `count == len(names)` |
| WebApp.CountZeroIff | LLM_Labs_V1/flask_app.py:94 | no name is found exactly when every line is blank |
| WebApp.TemplateFunctionIds | LLM_Labs_V1/flask_app.py:218-228 | ids "1" to "8" select prompt functions; "9" is the persona template |
| WebApp.TemplateName | LLM_Labs_V1/flask_app.py:230-238 | a template is named exactly when its id is "1" to "9" |
| WebApp.Template | LLM_Labs_V1/flask_app.py:230-239 | KeyError(id) exactly for an unknown id; otherwise the template under its name |
| WebApp.BuildTemplatesError | LLM_Labs_V1/flask_app.py:230-239 | building fails exactly when some id is unknown, with the KeyError of the first such id |
| WebApp.BuildTemplatesKeys | LLM_Labs_V1/flask_app.py:230-239 | one template per distinct name, in the order names first appear |
| WebApp.DropPromptSuffix | LLM_Labs_V1/flask_app.py:238 | removing "_prompt" from "self_ask_prompt" gives "self_ask" |
| WebApp.UnderscoreToSpace | LLM_Labs_V1/flask_app.py:238 | "self_ask" becomes "self ask" |
| WebApp.TitleExample | LLM_Labs_V1/flask_app.py:238 | "self ask" title-cases to "Self Ask" |
| WebApp.DisplayExample | LLM_Labs_V1/flask_app.py:238 | `self_ask_prompt` is displayed as "Self Ask" |
| WebApp.PersonaDefaults | LLM_Labs_V1/flask_app.py:231-235 | with no settings the persona template is "persona_assistant_professional_clear and concise" |
| WebApp.Respond | LLM_Labs_V1/flask_app.py:255-262 | known providers go to their oracle; any other answers "Unsupported provider: p" |
| WebApp.RunTests | LLM_Labs_V1/flask_app.py:247-288 | one entry per trial, in trial order, with its provider, model, strategy and question; an entry succeeds exactly when its call does |
| WebApp.UnsupportedSucceeds | LLM_Labs_V1/flask_app.py:261-268 | an unknown provider's test succeeds with "Unsupported provider: p" |
| WebApp.AverageTime | LLM_Labs_V1/flask_app.py:291 | 0 with no tests; otherwise within rounding of (time of successful tests) / (all tests) |
| WebApp.NoSuccessNoTime | LLM_Labs_V1/flask_app.py:265 | failed tests add nothing to the total time |
| WebApp.AllFailedAverageZero | LLM_Labs_V1/flask_app.py:265-291 | when every test fails the average time is 0 |
| WebApp.UniformAverage | LLM_Labs_V1/flask_app.py:264-291 | when every test succeeds in the same rounded time, the average is that time |
| WebApp.PerformerIsNotNone | LLM_Labs_V1/flask_app.py:298 | a performer label always contains '-', so it is never "None" |
| WebApp.BestPerformer | LLM_Labs_V1/flask_app.py:294-298 | "None" exactly when no test succeeded; otherwise the performer of the first successful entry with least time |
| WebApp.ComparativeEvaluation | LLM_Labs_V1/flask_app.py:208-324 | fails exactly when some template id is unknown, with the first one's KeyError; otherwise one entry per trial, total = models × templates, successes counted, the average time, best "None" iff no success, and otherwise the performer of the first successful entry with the least time |
| WebApp.Preview | LLM_Labs_V1/flask_app.py:374 | the first min(200, length) characters of the response or error, then "..."; the whole text exactly when it fits |
| Strings.Lower | comparision_tools/prompt_classifier.py:2 | same length, each character lower-cased |
| Strings.Words | utils/comparison.py:29 | `split()` words are non-empty, whitespace-free, together hold exactly the non-space characters in order, and there is one per position where a non-space character starts the text or follows whitespace: the words are the maximal runs |
| Strings.WordsEmptyIff | utils/comparison.py:55 | a text has no words exactly when it is all whitespace |
| Strings.Split | LLM_Labs_V2/utils/report_generator.py:24 | at least one piece; joining the pieces with the separator gives the text back; no piece contains the separator, and every cut is the leftmost: no occurrence starts inside a piece and runs into the next separator |
| Strings.Strip | LLM_Labs_V1/flask_app.py:84 | a slice of the text with only whitespace before and after it; empty exactly for an all-whitespace text; no whitespace at either end |
| Strings.Take | LLM_Labs_V1/flask_app.py:374 | `s[:n]` is a prefix of length min(n, len(s)) |
| Numerals.ParseFloat | LLM_Labs_V2/utils/report_generator.py:12 | `float` succeeds exactly on decimal literals with an optional sign |
| Numerals.ShowScaledRoundTrip | LLM_Labs_V2/utils/report_generator.py:9-14 | `float(str(v)) == v` for every printed score |
| Numerals.NatToStringRoundTrip | LLM_Labs_V2/utils/report_generator.py:33-36 | `int(str(n)) == n` for the logged token counts |
| Numerals.Round2 | LLM_Labs_V1/flask_app.py:264 | `round(x, 2)` is within half a hundredth of x |
| Numerals.Round3 | utils/comparison.py:40 | `round(x, 3)` is within half a thousandth of x |
| Numerals.Round2Idempotent | LLM_Labs_V1/flask_app.py:291 | rounding an already rounded value changes nothing |
| Numerals.Fixed2 | LLM_Labs_V2/utils/report_generator.py:174-176 | `format(x, '.2f')` is at least four characters long, with the point third from the end |
| Numerals.Fixed2ReadBack | LLM_Labs_V2/utils/report_generator.py:174-176 | the '.2f' text ends in two digits, `float` reads it back as x rounded to two places, and it starts with '-' exactly when that rounded value is negative |
| Dicts.Put | utils/comparison.py:44 | `d[k] = v` makes k map to v and leaves every other key alone |
| Dicts.PutKeys | utils/comparison.py:44 | assignment keeps key order: an existing key stays in place, a new key goes last |
| Dicts.Lookup | utils/comparison.py:67 | `d[k]` raises KeyError(k) exactly when k is absent |

## Left out

- File and log I/O. The log text is an input, the report an output string; `REPORT_FILE`, the file write, `os.path.exists` and the printed messages are not modelled.
- The logging prefix. `logging` puts a timestamp and level before every line; the model's log lines are the messages only, which changes no capture because every marker is searched for anywhere in a piece.
- The console print loops (utils/comparison.py:92-108 and LLM_Labs_V1/utils/comparison.py:115-130). They only print. The root loop also reads `smog_index`, which error records lack.
- The LLM SDKs, spaCy, textstat and the gpt2 tokenizer are foreign libraries. They are oracles and inputs, and are assumed not to raise where the source calls them outside the provider call.
- The clock. Elapsed times are a function of the trial.
- Readability.Smog: the square root is a supplied function, so only SMOG's guard is stated, not its value.
- Floating point. Ratios are exact reals and `round` is half-even on the exact value. A binary float can round a tie differently; every rounded value is stated only within half a unit of its last place. There is no negative zero: a value that rounds to zero from below prints without its sign.
- Numerals.Fixed2: a value in (-0.005, 0) prints "0.00" where Python prints "-0.00".
- Numerals.ShowScaled: a score x in (-0.005, 0) is rounded by `round(x, 2)` to a negative zero, which Python prints "-0.0" and the model prints "0.0". A first-generation log entry with such a Flesch score is dropped by the program, whose class `[\d\.NA]+` cannot start at '-', but is kept by the model.
- Numerals.ParseFloat: decides only literals of an optional sign, digits and at most one point. That is every string the score and time patterns can capture except those holding 'N' or 'A'. Those are treated as unconvertible, though Python also accepts "NAN", "nan" and "inf" spellings.
- Patterns.IsWordChar: `\w` and `\d` are ASCII only; Python's Unicode classes admit more letters and digits.
- Strings.Lower: ASCII letters only. The same holds for `upper` and `title`.
- LogExtract.ReadTime: states only that a time implies a match of the time pattern. `float` can still reject a capture such as "1.2.3".
- Comparison.RunTrialRoot: its contract covers the failed call; the answered call is stated by AnsweredRootTrialFails.
- LegacyReport.LegacyBlocks: its contract gives only the length; LegacyBlocksFail and LegacyBlocksFixed state the rest.
- The second-generation extractor expects ten score labels. Neither runner in this model writes more than the Flesch and SMOG figures, so no modelled log yields a second-generation record. The extractor is modelled on its own terms.
- LIX divides by the word count without a guard (LLM_Labs_V2/comparision_tools/metrics.py:108). The model keeps the ZeroDivisionError (Readability.Lix, Readability.NoWordsRaises) rather than guess a corrected formula.
- The Flask routes other than the ollama listing and the comparative evaluation: `session_data`, `send_file`, the report route except its preview, and the `subprocess` call with its error replies.
- The interactive CLIs (LLM_Labs_V1/app.py, LLM_Labs_V2/app.py), the RAG components and the template texts of LLM_Labs_V2/utils/prompts.py. The template texts are a `PromptLibrary` parameter.
- Entries of a request's template configuration that are not objects; `config.get` on them would raise.
- A request without a `user_input` field (LLM_Labs_V1/flask_app.py:213). WebApp.ComparativeEvaluation takes the user input as a string. With the field missing, `data.get` gives `None` and every groq, gemini or ollama trial fails on `prompt + "\n" + None` (utils/llms.py:11, 21, 27) with a TypeError that the route records as a failed entry; the model has no such entry.

## Findings

| source | as written | input that shows it | evidently intended | confidence | as-written member | corrected member |
|---|---|---|---|---|---|---|
| utils/comparison.py:63-71 | the log line reads `readability['smog_index']` from the three-key first-generation dictionary; the KeyError is caught as a trial failure | any trial whose provider answers | the answered trial is stored as a success, as the `LLM_Labs_V1` runner does | high, not executed | Comparison.AnsweredRootTrialFails | Comparison.AnsweredTrialSucceeds |
| utils/report_generator.py:28-62 | the Flesch capture of a logged "N/A" is "N", which passes the `!= "N/A"` test, and `float("N")` raises ValueError out of `generate_report` | one record whose Flesch score was logged as "N/A" | a text that does not convert counts as missing, as `safe_float` does in the second generation | high, not executed | LegacyReport.NotAvailableAbortsReport | LegacyReport.NotAvailableFixed |
