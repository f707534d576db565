/**
 * The first-generation report: the seven-field records grouped by
 * `provider::model`, per group the average token counts and response time
 * and the average Flesch score, then the narrative model's answer.
 *
 * The Flesch texts are converted with `float` unless they equal "N/A". The
 * extractor can never produce "N/A" (its class has no '/'), so a logged
 * "N/A", read back as "N", reaches `float` and its ValueError aborts the
 * whole report. `GenerateLegacyReport` models the code as written;
 * `FixedReport` skips the texts that do not convert, which is what the
 * "N/A" test evidently intends, and the two agree whenever every text
 * converts.
 */
module LegacyReport {
  import opened Base
  import opened Strings
  import opened Seqs
  import opened Numerals
  import opened Dicts
  import opened Readability
  import opened LogExtract
  import opened Grouping
  import opened Llm
  import opened Report

  /** The group key of a record. */
  function LegacyKey(e: LegacyEntry): string
  {
    GroupKey(e.header.provider, e.header.model)
  }

  function LegacyInput(e: LegacyEntry): real { e.header.inputTokens as real }
  function LegacyOutput(e: LegacyEntry): real { e.header.outputTokens as real }
  function LegacyTime(e: LegacyEntry): real { e.header.responseTime }

  /**
   * The text of the ValueError `float(s)` raises. The captured texts hold
   * no quote character, so `repr` puts them between single quotes.
   */
  function FloatError(s: string): string
  {
    "could not convert string to float: '" + s + "'"
  }

  /** The converted Flesch score of a record, if its text converts. */
  function FleschValue(e: LegacyEntry): Option<real>
  {
    ParseFloat(e.flesch)
  }

  /** A record whose Flesch text passes the "N/A" test and then fails to convert. */
  predicate Unconvertible(e: LegacyEntry)
  {
    e.flesch != "N/A" && !IsDecimal(e.flesch)
  }

  /** The position of the first unconvertible record, or the length when there is none. */
  function FirstUnconvertible(records: seq<LegacyEntry>): (i: nat)
    ensures i <= |records|
    ensures forall j :: 0 <= j < i ==> !Unconvertible(records[j])
    ensures i < |records| ==> Unconvertible(records[i])
  {
    if |records| == 0 then 0
    else if Unconvertible(records[0]) then 0
    else
      var rest := FirstUnconvertible(records[1..]);
      assert forall j :: 1 <= j <= rest ==> records[j] == records[1..][j - 1];
      1 + rest
  }

  lemma NotAvailableIsNotDecimal()
    ensures !IsDecimal("N/A")
  {
    assert "N/A"[1] == '/';
  }

  /**
   * `[float(r["flesch_score"]) for r in records if r["flesch_score"] != "N/A"]`:
   * the ValueError of the first unconvertible text, and otherwise every
   * value that converts, in order.
   */
  function FleschScores(records: seq<LegacyEntry>): (r: Result<seq<real>>)
    ensures r.Err? <==> FirstUnconvertible(records) < |records|
    ensures r.Err? <==> exists i :: 0 <= i < |records| && Unconvertible(records[i])
    ensures r.Err? ==> r.error == ValueError(FloatError(records[FirstUnconvertible(records)].flesch))
    ensures r.Ok? ==> r.value == FilterMap(FleschValue, records)
  {
    if |records| == 0 then Ok([])
    else
      var e := records[0];
      var rest := FleschScores(records[1..]);
      assert forall j :: 1 <= j < |records| ==> records[j] == records[1..][j - 1];
      if e.flesch == "N/A" then
        NotAvailableIsNotDecimal();
        rest
      else
        match ParseFloat(e.flesch)
        case None => Err(ValueError(FloatError(e.flesch)))
        case Some(v) =>
          match rest
          case Err(x) => Err(x)
          case Ok(vs) => Ok([v] + vs)
  }

  /** The Flesch line of a block. */
  function FleschLine(avg: Metric): string
  {
    "- 📚 Avg. Flesch Reading Ease: " + avg.Show()
  }

  /** The block of one group: heading, three averages, the Flesch average and a blank line. */
  function LegacyBlock(key: string, records: seq<LegacyEntry>, flesch: seq<real>): (lines: seq<string>)
    requires |records| > 0
    ensures |lines| == 6 && lines[0] == Heading(key) && lines[5] == ""
    ensures lines[1] == InputLine(Mean(Map(LegacyInput, records)))
    ensures lines[2] == OutputLine(Mean(Map(LegacyOutput, records)))
    ensures lines[3] == TimeLine(Mean(Map(LegacyTime, records)))
    ensures lines[4] == FleschLine(Average(flesch))
  {
    var input := InputLine(Mean(Map(LegacyInput, records)));
    var output := OutputLine(Mean(Map(LegacyOutput, records)));
    var time := TimeLine(Mean(Map(LegacyTime, records)));
    [Heading(key), input, output, time, FleschLine(Average(flesch)), ""]
  }

  /** Each group holds at least one record. */
  predicate NonEmptyGroups(groups: Dict<seq<LegacyEntry>>)
  {
    forall i :: 0 <= i < |groups| ==> |groups[i].1| > 0
  }

  /** Some record of some group is unconvertible. */
  predicate SomeUnconvertible(groups: Dict<seq<LegacyEntry>>)
  {
    exists i, j :: 0 <= i < |groups| && 0 <= j < |groups[i].1| && Unconvertible(groups[i].1[j])
  }

  /** The corrected block of one group: the Flesch average over the texts that convert. */
  function FixedBlock(group: (string, seq<LegacyEntry>)): (lines: seq<string>)
    requires |group.1| > 0
    ensures |lines| == 6 && lines[0] == Heading(group.0) && lines[5] == ""
    ensures lines[1] == InputLine(Mean(Map(LegacyInput, group.1)))
    ensures lines[2] == OutputLine(Mean(Map(LegacyOutput, group.1)))
    ensures lines[3] == TimeLine(Mean(Map(LegacyTime, group.1)))
    ensures lines[4] == FleschLine(Average(FilterMap(FleschValue, group.1)))
  {
    LegacyBlock(group.0, group.1, FilterMap(FleschValue, group.1))
  }

  /** The blocks the corrected report builds, one per group. */
  function FixedBlocks(groups: Dict<seq<LegacyEntry>>): (bs: seq<seq<string>>)
    requires NonEmptyGroups(groups)
    ensures |bs| == |groups|
    decreases |groups|
  {
    if |groups| == 0 then [] else [FixedBlock(groups[0])] + FixedBlocks(groups[1..])
  }

  /** Block `k` of the corrected report is the corrected block of group `k`. */
  lemma {:induction false} FixedBlockAt(groups: Dict<seq<LegacyEntry>>, k: nat)
    requires NonEmptyGroups(groups) && k < |groups|
    ensures FixedBlocks(groups)[k] == FixedBlock(groups[k])
    decreases k
  {
    if k > 0 {
      var tail := groups[1..];
      assert NonEmptyGroups(tail) by {
        assert forall i :: 0 <= i < |tail| ==> tail[i] == groups[i + 1];
      }
      FixedBlockAt(tail, k - 1);
      assert tail[k - 1] == groups[k];
      assert FixedBlocks(groups)[k] == FixedBlocks(tail)[k - 1];
    }
  }

  lemma FixedBlocksAt(groups: Dict<seq<LegacyEntry>>)
    requires NonEmptyGroups(groups)
    ensures forall k :: 0 <= k < |groups| ==> FixedBlocks(groups)[k] == FixedBlock(groups[k])
  {
    forall k | 0 <= k < |groups|
      ensures FixedBlocks(groups)[k] == FixedBlock(groups[k])
    {
      FixedBlockAt(groups, k);
    }
  }

  /**
   * The loop over the groups as written: the first unconvertible text, in
   * group order, raises; otherwise one block per group.
   */
  function LegacyBlocks(groups: Dict<seq<LegacyEntry>>): (r: Result<seq<seq<string>>>)
    requires NonEmptyGroups(groups)
    ensures r.Ok? ==> |r.value| == |groups|
    decreases |groups|
  {
    if |groups| == 0 then Ok([])
    else
      match FleschScores(groups[0].1)
      case Err(e) => Err(e)
      case Ok(fs) =>
        match LegacyBlocks(groups[1..])
        case Err(e) => Err(e)
        case Ok(rest) => Ok([LegacyBlock(groups[0].0, groups[0].1, fs)] + rest)
  }

  /** An unconvertible record sits in the first group or in one of the others. */
  lemma SomeUnconvertibleCons(groups: Dict<seq<LegacyEntry>>)
    requires |groups| > 0
    ensures SomeUnconvertible(groups) <==>
      (exists j :: 0 <= j < |groups[0].1| && Unconvertible(groups[0].1[j])) || SomeUnconvertible(groups[1..])
  {
    var tail := groups[1..];
    if SomeUnconvertible(tail) {
      var i, j :| 0 <= i < |tail| && 0 <= j < |tail[i].1| && Unconvertible(tail[i].1[j]);
      assert groups[i + 1] == tail[i];
    }
    if SomeUnconvertible(groups) {
      var i, j :| 0 <= i < |groups| && 0 <= j < |groups[i].1| && Unconvertible(groups[i].1[j]);
      if i > 0 {
        assert tail[i - 1] == groups[i];
      }
    }
  }

  /** The loop raises exactly when some group holds an unconvertible record, with that record's ValueError. */
  lemma {:induction false} LegacyBlocksFail(groups: Dict<seq<LegacyEntry>>)
    requires NonEmptyGroups(groups)
    ensures LegacyBlocks(groups).Err? <==> SomeUnconvertible(groups)
    ensures LegacyBlocks(groups).Err? ==> exists i, j :: (0 <= i < |groups| && 0 <= j < |groups[i].1|
      && Unconvertible(groups[i].1[j]) && LegacyBlocks(groups).error == ValueError(FloatError(groups[i].1[j].flesch)))
    decreases |groups|
  {
    if |groups| > 0 {
      var tail := groups[1..];
      LegacyBlocksFail(tail);
      SomeUnconvertibleCons(groups);
      var r := LegacyBlocks(groups);
      if FleschScores(groups[0].1).Err? {
        var j := FirstUnconvertible(groups[0].1);
        assert r.error == ValueError(FloatError(groups[0].1[j].flesch));
      } else if r.Err? {
        var i, j :| 0 <= i < |tail| && 0 <= j < |tail[i].1|
          && Unconvertible(tail[i].1[j]) && r.error == ValueError(FloatError(tail[i].1[j].flesch));
        assert groups[i + 1] == tail[i];
      }
    }
  }

  /** Where the loop does not raise, its blocks are the corrected ones. */
  lemma {:induction false} LegacyBlocksFixed(groups: Dict<seq<LegacyEntry>>)
    requires NonEmptyGroups(groups)
    ensures LegacyBlocks(groups).Ok? ==> LegacyBlocks(groups).value == FixedBlocks(groups)
    decreases |groups|
  {
    if |groups| > 0 && LegacyBlocks(groups).Ok? {
      var tail := groups[1..];
      LegacyBlocksFixed(tail);
      var fs := FleschScores(groups[0].1).value;
      assert FixedBlock(groups[0]) == LegacyBlock(groups[0].0, groups[0].1, fs);
      assert LegacyBlocks(groups).value == [LegacyBlock(groups[0].0, groups[0].1, fs)] + LegacyBlocks(tail).value;
    }
  }

  /** The title, the question and the blocks. */
  function LegacyScoreLines(question: string, blocks: seq<seq<string>>): seq<string>
  {
    [ReportTitle, QuestionLine(question)] + Flatten(blocks)
  }

  /** The instructions sent with the score text to the narrative model. */
  const LegacyInstructions: string :=
    "You are an objective evaluator. Given the performance metrics for multiple LLMs, "
    + "analyze only the numeric data below without any assumptions or external context. "
    + "Identify which model performs better strictly based on the following measurable factors:\n\n"
    + "- Average input/output tokens (efficiency)\n"
    + "- Average response time (speed)\n"
    + "- Average Flesch Reading Ease (clarity/readability)\n\n"
    + "DO NOT add any subjective commentary or external knowledge. "
    + "Just summarize which model(s) have the strongest numeric performance for each metric, and conclude "
    + "which model performed better overall—purely based on these statistics."

  /** The score text handed to the narrative model, and the report once its answer is appended. */
  function Narrate(lines: seq<string>, narrator: Oracle): (r: Result<string>)
    ensures r.Err? <==> narrator(NarrativeModel, FullPrompt(LegacyInstructions, Join(lines, "\n"))).Failure?
    ensures var reply := narrator(NarrativeModel, FullPrompt(LegacyInstructions, Join(lines, "\n")));
      && (r.Err? ==> r.error == Raised(reply.message))
      && (r.Ok? ==>
            exists i, j :: 0 <= i <= j <= |reply.text| && AllSpace(reply.text[..i]) && AllSpace(reply.text[j..])
              && r.value == Join(lines + [InsightsHeading, reply.text[i..j]], "\n"))
  {
    WithInsights(lines, LegacyInstructions, narrator)
  }

  /** The groups of the summary; every one is non-empty. */
  function LegacyGroups(summary: seq<LegacyEntry>): (g: Dict<seq<LegacyEntry>>)
    ensures NonEmptyGroups(g)
    ensures Keys(g) == Dedup(Map(LegacyKey, summary))
  {
    GroupEntriesNonEmpty(summary, LegacyKey);
    GroupByKeys(summary, LegacyKey);
    GroupBy(summary, LegacyKey)
  }

  /** A record of the summary is unconvertible exactly when one in some group is. */
  lemma UnconvertibleInSomeGroup(summary: seq<LegacyEntry>)
    ensures SomeUnconvertible(LegacyGroups(summary)) <==> exists k :: 0 <= k < |summary| && Unconvertible(summary[k])
  {
    var g := LegacyGroups(summary);
    if SomeUnconvertible(g) {
      var i, j :| 0 <= i < |g| && 0 <= j < |g[i].1| && Unconvertible(g[i].1[j]);
      GroupEntryIsMembers(summary, LegacyKey, i);
      assert g[i].1[j] in summary;
    }
    if k :| 0 <= k < |summary| && Unconvertible(summary[k]) {
      var i := KeyHasEntry(summary, LegacyKey, k);
      GroupEntryIsMembers(summary, LegacyKey, i);
      FilterHas(HasKey(LegacyKey, g[i].0), summary, k);
      var j :| 0 <= j < |g[i].1| && g[i].1[j] == summary[k];
      assert Unconvertible(g[i].1[j]);
    }
  }

  /**
   * `generate_report` of the first generation, as written: the ValueError of
   * an unconvertible Flesch text, or the narrative call's exception, or the
   * report text.
   */
  function GenerateLegacyReport(summary: seq<LegacyEntry>, question: string, narrator: Oracle): (r: Result<string>)
    ensures (exists k :: 0 <= k < |summary| && Unconvertible(summary[k])) ==>
      r.Err? && exists k :: 0 <= k < |summary| && Unconvertible(summary[k]) && r.error == ValueError(FloatError(summary[k].flesch))
    ensures (forall k :: 0 <= k < |summary| ==> !Unconvertible(summary[k])) ==>
      r == FixedReport(summary, question, narrator)
  {
    var g := LegacyGroups(summary);
    UnconvertibleInSomeGroup(summary);
    LegacyBlocksFail(g);
    LegacyBlocksFixed(g);
    match LegacyBlocks(g)
    case Err(e) =>
      assert exists k :: 0 <= k < |summary| && Unconvertible(summary[k]) && e == ValueError(FloatError(summary[k].flesch)) by {
        var i, j :| 0 <= i < |g| && 0 <= j < |g[i].1| && Unconvertible(g[i].1[j]) && e == ValueError(FloatError(g[i].1[j].flesch));
        GroupEntryIsMembers(summary, LegacyKey, i);
        assert g[i].1[j] in summary;
      }
      Err(e)
    case Ok(bs) => Narrate(LegacyScoreLines(question, bs), narrator)
  }

  /**
   * The corrected report: a Flesch text that does not convert counts as
   * missing, so only the narrative call can make the report fail.
   */
  function FixedReport(summary: seq<LegacyEntry>, question: string, narrator: Oracle): (r: Result<string>)
    ensures var lines := LegacyScoreLines(question, FixedBlocks(LegacyGroups(summary)));
      var reply := narrator(NarrativeModel, FullPrompt(LegacyInstructions, Join(lines, "\n")));
      && (r.Err? <==> reply.Failure?)
      && (r.Err? ==> r.error == Raised(reply.message))
      && (r.Ok? ==>
            exists i, j :: 0 <= i <= j <= |reply.text| && AllSpace(reply.text[..i]) && AllSpace(reply.text[j..])
              && r.value == Join(lines + [InsightsHeading, reply.text[i..j]], "\n"))
  {
    Narrate(LegacyScoreLines(question, FixedBlocks(LegacyGroups(summary))), narrator)
  }

  /** The Flesch average of a corrected block is "N/A" exactly when no text of the group converts. */
  lemma FixedFleschNotAvailableIff(summary: seq<LegacyEntry>, i: nat)
    requires i < |LegacyGroups(summary)|
    ensures var g := LegacyGroups(summary);
      Average(FilterMap(FleschValue, g[i].1)).NA? <==> forall j :: 0 <= j < |g[i].1| ==> !IsDecimal(g[i].1[j].flesch)
  {
    var records := LegacyGroups(summary)[i].1;
    var vs := FilterMap(FleschValue, records);
    if |vs| > 0 {
      FilterMapSomeWitness(FleschValue, records);
    } else {
      FilterMapCount(FleschValue, records);
      forall j | 0 <= j < |records|
        ensures !IsDecimal(records[j].flesch)
      {
        CountAll(IsNone(FleschValue), records, j);
      }
    }
  }

  /** Group `i`'s heading is line `2 + 6 i` and names the `i`-th key in first-seen order. */
  lemma LegacyHeadingAt(question: string, summary: seq<LegacyEntry>, i: nat)
    requires i < |LegacyGroups(summary)|
    ensures var lines := LegacyScoreLines(question, FixedBlocks(LegacyGroups(summary)));
      2 + 6 * i < |lines| && lines[2 + 6 * i] == Heading(Dedup(Map(LegacyKey, summary))[i])
  {
    var g := LegacyGroups(summary);
    FixedBlocksAt(g);
    BlockLinesAt(question, FixedBlocks(g), i, 0);
    assert Keys(g)[i] == g[i].0;
  }

  /** Group `i`'s Flesch line is line `2 + 6 i + 4` and shows the average of its convertible texts. */
  lemma LegacyFleschLineAt(question: string, summary: seq<LegacyEntry>, i: nat)
    requires i < |LegacyGroups(summary)|
    ensures var g := LegacyGroups(summary);
      var lines := LegacyScoreLines(question, FixedBlocks(g));
      2 + 6 * i + 4 < |lines| && lines[2 + 6 * i + 4] == FleschLine(Average(FilterMap(FleschValue, g[i].1)))
  {
    var g := LegacyGroups(summary);
    FixedBlocksAt(g);
    BlockLinesAt(question, FixedBlocks(g), i, 4);
  }

  /**
   * Group `i`'s lines 1 to 3 show the means of the token counts and the
   * response time over every record carrying the `i`-th key.
   */
  lemma LegacyAverageLinesAt(question: string, summary: seq<LegacyEntry>, i: nat)
    requires i < |LegacyGroups(summary)|
    ensures var g := LegacyGroups(summary);
      var lines := LegacyScoreLines(question, FixedBlocks(g));
      && g[i].1 == Members(summary, LegacyKey, Dedup(Map(LegacyKey, summary))[i])
      && 2 + 6 * i + 3 < |lines|
      && lines[2 + 6 * i + 1] == InputLine(Mean(Map(LegacyInput, g[i].1)))
      && lines[2 + 6 * i + 2] == OutputLine(Mean(Map(LegacyOutput, g[i].1)))
      && lines[2 + 6 * i + 3] == TimeLine(Mean(Map(LegacyTime, g[i].1)))
  {
    var g := LegacyGroups(summary);
    assert g[i].1 == Members(summary, LegacyKey, Dedup(Map(LegacyKey, summary))[i]) by {
      GroupEntryIsMembers(summary, LegacyKey, i);
      assert Keys(g)[i] == g[i].0;
    }
    FixedAverageLinesAt(question, g, i);
  }

  /** Lines 1 to 3 of corrected block `i` show the group's three averages. */
  lemma FixedAverageLinesAt(question: string, groups: Dict<seq<LegacyEntry>>, i: nat)
    requires NonEmptyGroups(groups) && i < |groups|
    ensures var lines := LegacyScoreLines(question, FixedBlocks(groups));
      && 2 + 6 * i + 3 < |lines|
      && lines[2 + 6 * i + 1] == InputLine(Mean(Map(LegacyInput, groups[i].1)))
      && lines[2 + 6 * i + 2] == OutputLine(Mean(Map(LegacyOutput, groups[i].1)))
      && lines[2 + 6 * i + 3] == TimeLine(Mean(Map(LegacyTime, groups[i].1)))
  {
    FixedLineAt(question, groups, i, 1);
    FixedLineAt(question, groups, i, 2);
    FixedLineAt(question, groups, i, 3);
  }

  /** Line `r` of corrected block `i` is line `2 + 6 i + r` of the score text. */
  lemma FixedLineAt(question: string, groups: Dict<seq<LegacyEntry>>, i: nat, r: nat)
    requires NonEmptyGroups(groups) && i < |groups| && r < 6
    ensures 2 + 6 * i + r < |LegacyScoreLines(question, FixedBlocks(groups))|
    ensures LegacyScoreLines(question, FixedBlocks(groups))[2 + 6 * i + r] == FixedBlock(groups[i])[r]
  {
    FixedBlocksAt(groups);
    BlockLinesAt(question, FixedBlocks(groups), i, r);
  }

  /** Line `r` of block `i` is line `2 + 6 i + r` of the score text. */
  lemma BlockLinesAt(question: string, blocks: seq<seq<string>>, i: nat, r: nat)
    requires forall k :: 0 <= k < |blocks| ==> |blocks[k]| == 6
    requires i < |blocks| && r < 6
    ensures |LegacyScoreLines(question, blocks)| == 2 + 6 * |blocks|
    ensures LegacyScoreLines(question, blocks)[2 + 6 * i + r] == blocks[i][r]
  {
    var header := [ReportTitle, QuestionLine(question)];
    var body := Flatten(blocks);
    assert LegacyScoreLines(question, blocks) == header + body;
    FlattenUniform(blocks, 6, i, r);
    var at := i * 6 + r;
    assert 2 + 6 * i + r == |header| + at;
    ConcatAt(header, body, at);
  }

  /** A Flesch score logged as "N/A" is read back as "N", which is unconvertible. */
  lemma NotAvailableRecordIsUnconvertible(e: LegacyEntry)
    requires e.flesch == "N"
    ensures Unconvertible(e) && FleschValue(e).None?
  {
    assert !IsDecimal("N");
  }

  /**
   * As written, one record whose Flesch score was logged as "N/A" aborts the
   * report with `ValueError: could not convert string to float: 'N'`.
   */
  lemma NotAvailableAbortsReport(e: LegacyEntry, question: string, narrator: Oracle)
    requires e.flesch == "N"
    ensures GenerateLegacyReport([e], question, narrator) == Err(ValueError(FloatError("N")))
  {
    NotAvailableRecordIsUnconvertible(e);
  }

  /** The corrected report of the same record fails only if the narrative call does. */
  lemma NotAvailableFixed(e: LegacyEntry, question: string, narrator: Oracle)
    requires e.flesch == "N"
    requires forall model, prompt :: narrator(model, prompt).Answer?
    ensures FixedReport([e], question, narrator).Ok?
  {
  }
}
