/**
 * The second-generation report: the extracted records grouped by
 * `provider::model`, per group the average token counts and response time
 * over all records, and for each of the ten readability scores the mean of
 * the values that convert to a number (rounded to two places, "N/A" when
 * none does) together with the number of records whose value does not
 * convert. The score text is handed to a narrative model whose answer is
 * appended under a final heading.
 */
module Report {
  import opened Base
  import opened Strings
  import opened Seqs
  import opened Numerals
  import opened Dicts
  import opened Readability
  import opened Patterns
  import opened LogExtract
  import opened Grouping
  import opened Llm

  /** `safe_float`: the value of the text, or `None` exactly where `float` raises ValueError. */
  function SafeFloat(value: string): (r: Option<real>)
    ensures r.None? <==> !IsDecimal(value)
  {
    ParseFloat(value)
  }

  /** A logged score is read back as the value it printed; "N/A" is read as "N", which does not convert. */
  lemma LoggedScoreReadBack(pre: string, marker: string, m: Metric, post: string)
    requires forall k: nat :: k < |pre| ==> !OccursAt(pre + marker + m.Show() + post, marker, k)
    requires post == [] || !InClass(ScoreClass, post[0])
    ensures var c := Capture(pre + marker + m.Show() + post, marker, ScoreClass);
      c.Some? && SafeFloat(c.value) == if m.NA? then None else Some(m.Value())
  {
    match m
    case NA => LoggedNotAvailable(pre, marker, post);
    case Num(h) => LoggedNumber(pre, marker, h, post);
  }

  lemma LoggedNotAvailable(pre: string, marker: string, post: string)
    requires forall k: nat :: k < |pre| ==> !OccursAt(pre + marker + NA.Show() + post, marker, k)
    ensures var c := Capture(pre + marker + NA.Show() + post, marker, ScoreClass);
      c == Some("N") && SafeFloat(c.value).None?
  {
    assert NA.Show() == "N/A";
    NotAvailableReadAsN(pre, marker, post);
    assert !IsDecimal("N");
  }

  lemma LoggedNumber(pre: string, marker: string, h: int, post: string)
    requires forall k: nat :: k < |pre| ==> !OccursAt(pre + marker + Num(h).Show() + post, marker, k)
    requires post == [] || !InClass(ScoreClass, post[0])
    ensures var c := Capture(pre + marker + Num(h).Show() + post, marker, ScoreClass);
      c == Some(Num(h).Show()) && SafeFloat(c.value) == Some(Num(h).Value())
  {
    var v := ShowScaled(h, 2);
    assert Num(h).Show() == v;
    ShowScaledChars(h, 2);
    forall i | 0 <= i < |v|
      ensures InClass(ScoreClass, v[i])
    {
      ClassMembers(v[i]);
    }
    CaptureAfter(pre, marker, v, post, ScoreClass);
    assert Capture(pre + marker + Num(h).Show() + post, marker, ScoreClass) == Some(v);
    ShowScaledRoundTrip(h, 2);
    ScaledTwoPlaces(h);
  }

  lemma ScaledTwoPlaces(h: int)
    ensures Scaled(h, 2) == Num(h).Value()
  {
    assert Pow10(2) == 100 by {
      assert Pow10(1) == 10;
    }
  }

  /** The group key of a record. */
  function EntryKey(e: Entry): string
  {
    GroupKey(e.header.provider, e.header.model)
  }

  /** The converted value of score `k` of a record. */
  function ScoreOf(k: nat): Entry -> Option<real>
  {
    (e: Entry) => if k < |e.scores| then SafeFloat(e.scores[k]) else None
  }

  /** The values of score `k` that convert, in record order. */
  function ScoreValues(records: seq<Entry>, k: nat): seq<real>
  {
    FilterMap(ScoreOf(k), records)
  }

  /** `len(records) - len(scores)`: the records whose score `k` does not convert. */
  function Missing(records: seq<Entry>, k: nat): (n: nat)
    ensures n == Count(IsNone(ScoreOf(k)), records)
    ensures n <= |records|
  {
    FilterMapCount(ScoreOf(k), records);
    |records| - |ScoreValues(records, k)|
  }

  /** `round(sum(xs) / len(xs), 2) if xs else "N/A"`. */
  function Average(xs: seq<real>): (m: Metric)
    ensures m.NA? <==> |xs| == 0
    ensures m.Num? ==> -0.005 <= m.Value() - Sum(xs) / (|xs| as real) <= 0.005
  {
    if |xs| == 0 then NA else Rounded(Sum(xs) / (|xs| as real))
  }

  /** A score average is "N/A" exactly when every record of the group misses that score. */
  lemma AverageMissingIff(records: seq<Entry>, k: nat)
    ensures Average(ScoreValues(records, k)).NA? <==> Missing(records, k) == |records|
  {
  }

  /** `sum(xs) / len(xs)` for a non-empty group. */
  function Mean(xs: seq<real>): real
    requires |xs| > 0
  {
    Sum(xs) / (|xs| as real)
  }

  /** A mean lies between any bounds of its values. */
  lemma MeanWithin(xs: seq<real>, lo: real, hi: real)
    requires |xs| > 0
    requires forall i :: 0 <= i < |xs| ==> lo <= xs[i] <= hi
    ensures lo <= Mean(xs) <= hi
  {
    SumWithin(xs, lo, hi);
    var n := |xs| as real;
    assert Sum(xs) / n >= lo by {
      assert Sum(xs) >= n * lo;
      DivideBelow(Sum(xs), n, lo);
    }
    assert Sum(xs) / n <= hi by {
      assert Sum(xs) <= n * hi;
      DivideAbove(Sum(xs), n, hi);
    }
  }

  lemma {:induction false} SumWithin(xs: seq<real>, lo: real, hi: real)
    requires forall i :: 0 <= i < |xs| ==> lo <= xs[i] <= hi
    ensures (|xs| as real) * lo <= Sum(xs) <= (|xs| as real) * hi
  {
    if |xs| > 0 {
      SumWithin(xs[1..], lo, hi);
      var m := |xs[1..]| as real;
      assert (|xs| as real) * lo == lo + m * lo;
      assert (|xs| as real) * hi == hi + m * hi;
    }
  }

  lemma DivideBelow(x: real, n: real, lo: real)
    requires n > 0.0 && x >= n * lo
    ensures x / n >= lo
  {
    assert x / n * n == x;
  }

  lemma DivideAbove(x: real, n: real, hi: real)
    requires n > 0.0 && x <= n * hi
    ensures x / n <= hi
  {
    assert x / n * n == x;
  }

  function InputTokens(e: Entry): real { e.header.inputTokens as real }
  function OutputTokens(e: Entry): real { e.header.outputTokens as real }
  function ResponseTime(e: Entry): real { e.header.responseTime }

  /** What the report shows for one group. */
  datatype GroupStats = GroupStats(
    key: string, avgInput: real, avgOutput: real, avgTime: real,
    averages: seq<Metric>, missing: seq<nat>)

  /** The statistics of one non-empty group. */
  function Summarize(key: string, records: seq<Entry>): (s: GroupStats)
    requires |records| > 0
    ensures s.key == key
    ensures s.avgInput == Mean(Map(InputTokens, records))
    ensures s.avgOutput == Mean(Map(OutputTokens, records))
    ensures s.avgTime == Mean(Map(ResponseTime, records))
    ensures |s.averages| == |ScoreLabels| && |s.missing| == |ScoreLabels|
    ensures forall k :: 0 <= k < |ScoreLabels| ==>
      && s.averages[k] == Average(ScoreValues(records, k))
      && s.missing[k] == Count(IsNone(ScoreOf(k)), records)
      && s.missing[k] <= |records|
      && (s.averages[k].NA? <==> s.missing[k] == |records|)
  {
    var n := |ScoreLabels|;
    var averages := seq(n, k requires 0 <= k < n => Average(ScoreValues(records, k)));
    var missing := seq(n, k requires 0 <= k < n => Missing(records, k));
    assert forall k :: 0 <= k < n ==> (averages[k].NA? <==> missing[k] == |records|) by {
      forall k | 0 <= k < n
        ensures averages[k].NA? <==> missing[k] == |records|
      {
        AverageMissingIff(records, k);
      }
    }
    GroupStats(key,
      Mean(Map(InputTokens, records)), Mean(Map(OutputTokens, records)), Mean(Map(ResponseTime, records)),
      averages, missing)
  }

  /** The statistics of every group, in group order. */
  function SummarizeAll(groups: Dict<seq<Entry>>): (ss: seq<GroupStats>)
    requires forall i :: 0 <= i < |groups| ==> |groups[i].1| > 0
    ensures |ss| == |groups|
    ensures forall i :: 0 <= i < |ss| ==> ss[i].key == groups[i].0
  {
    seq(|groups|, i requires 0 <= i < |groups| => Summarize(groups[i].0, groups[i].1))
  }

  // ---------------------------------------------------------------- layout

  const ReportTitle: string := "# 📊 LLM Performance Report\n"

  function QuestionLine(question: string): string
  {
    "**User Question:** " + question + "\n"
  }

  function Heading(key: string): string
  {
    "## 🔹 " + key
  }

  /** The caption of score `k`, in `ScoreLabels` order. */
  function Caption(k: nat): string
    requires k < 10
  {
    match k
    case 0 => "- 📚 Avg. Flesch Reading Ease: "
    case 1 => "- 📖 Avg. SMOG Index: "
    case 2 => "- ✍️ Avg. Coleman-Liau Index: "
    case 3 => "- 🏛 Avg. Gunning Fog Index: "
    case 4 => "- 📐 Avg. Automated Readability Index (ARI): "
    case 5 => "- 📖 Avg. Dale-Chall Index: "
    case 6 => "- ⚙️ Avg. FORCAST Index: "
    case 7 => "- ✈️ Avg. Linsear Write Index: "
    case 8 => "- 📏 Avg. LIX: "
    case _ => "- 🔠 Avg. RIX: "
  }

  /** How to read score `k`, in `ScoreLabels` order. */
  function Interpretation(k: nat): string
    requires k < 10
  {
    match k
    case 0 => "Higher is better (easier to read). 90–100 = Very Easy, 60–70 = Standard, 0–30 = Very Difficult."
    case 1 => "Lower is better (less years of education needed). Typically 7–9 = Easily understood, >12 = College-level."
    case 2 => "Lower is better (less grade level required). 8–10 = Middle school level, >12 = High school/college level."
    case 3 => "Lower is better (less years of formal education required). 7–8 = Near-universal readability, 12+ = College-level."
    case 4 => "Lower is better (grade-level readability). 1–6 = Elementary, 7–12 = Middle/High school, 13+ = College-level."
    case 5 => "Lower is better (uses familiar words). <8 = Easy, 8–10 = Medium difficulty, >10 = Difficult/college-level."
    case 6 => "Lower is better (simpler text, often used for technical/manuals). Around 9–10 = Plain English, >12 = Complex."
    case 7 => "Lower is better (military readability test). <20 = Easy, 20–30 = Standard, >30 = Difficult."
    case 8 => "Lower is better (text density). <30 = Very easy, 30–40 = Easy, 40–50 = Standard, 50+ = Difficult."
    case _ => "Lower is better (based on long words per sentence). <2 = Easy, 2–5 = Standard, >5 = Difficult."
  }

  function InputLine(avg: real): string { "- 🔢 Average Input Tokens: " + Fixed2(avg) }
  function OutputLine(avg: real): string { "- 🔢 Average Output Tokens: " + Fixed2(avg) }
  function TimeLine(avg: real): string { "- ⏱️ Average Response Time: " + Fixed2(avg) + " sec" }

  /** One score line: caption, average, interpretation and missing count. */
  function ScoreLine(k: nat, avg: Metric, missing: nat): string
    requires k < |ScoreLabels|
  {
    Caption(k) + avg.Show() + " (" + Interpretation(k) + ") – ❌ Missing: " + NatToString(missing)
  }

  /** The block of one group: heading, three averages, ten score lines and a blank line. */
  function Block(s: GroupStats): (lines: seq<string>)
    requires |s.averages| == |ScoreLabels| && |s.missing| == |ScoreLabels|
    ensures |lines| == 15
    ensures lines[0] == Heading(s.key) && lines[14] == ""
    ensures lines[1] == InputLine(s.avgInput) && lines[2] == OutputLine(s.avgOutput)
    ensures lines[3] == TimeLine(s.avgTime)
    ensures forall k :: 0 <= k < 10 ==> lines[4 + k] == ScoreLine(k, s.averages[k], s.missing[k])
  {
    BlockHead(s) + ScoreRows(s) + [""]
  }

  /** The heading and the three average lines of a block. */
  function BlockHead(s: GroupStats): (lines: seq<string>)
    ensures |lines| == 4 && lines[0] == Heading(s.key)
    ensures lines[1] == InputLine(s.avgInput) && lines[2] == OutputLine(s.avgOutput) && lines[3] == TimeLine(s.avgTime)
  {
    [Heading(s.key), InputLine(s.avgInput), OutputLine(s.avgOutput), TimeLine(s.avgTime)]
  }

  /** The ten score lines of a block, in `ScoreLabels` order. */
  function ScoreRows(s: GroupStats): (lines: seq<string>)
    requires |s.averages| == |ScoreLabels| && |s.missing| == |ScoreLabels|
    ensures |lines| == 10
    ensures forall k :: 0 <= k < 10 ==> lines[k] == ScoreLine(k, s.averages[k], s.missing[k])
  {
    seq(10, k requires 0 <= k < 10 => ScoreLine(k, s.averages[k], s.missing[k]))
  }

  /** The blocks of all groups, in group order. */
  function Blocks(stats: seq<GroupStats>): (bs: seq<seq<string>>)
    requires forall i :: 0 <= i < |stats| ==> |stats[i].averages| == |ScoreLabels| && |stats[i].missing| == |ScoreLabels|
    ensures |bs| == |stats|
    ensures forall i :: 0 <= i < |bs| ==> |bs[i]| == 15 && bs[i][0] == Heading(stats[i].key) && bs[i][14] == ""
  {
    seq(|stats|, i requires 0 <= i < |stats| => Block(stats[i]))
  }

  /** The lines before the narrative: title, question, then one block per group. */
  function ScoreLines(question: string, stats: seq<GroupStats>): (lines: seq<string>)
    requires forall i :: 0 <= i < |stats| ==> |stats[i].averages| == |ScoreLabels| && |stats[i].missing| == |ScoreLabels|
    ensures |lines| == 2 + 15 * |stats|
  {
    FlattenUniformLength(Blocks(stats), 15);
    [ReportTitle, QuestionLine(question)] + Flatten(Blocks(stats))
  }

  /** Two header lines and fifteen lines per group; group `i`'s heading is line `2 + 15 i`. */
  lemma ScoreLinesLayout(question: string, stats: seq<GroupStats>, i: nat)
    requires forall j :: 0 <= j < |stats| ==> |stats[j].averages| == |ScoreLabels| && |stats[j].missing| == |ScoreLabels|
    requires i < |stats|
    ensures |ScoreLines(question, stats)| == 2 + 15 * |stats|
    ensures ScoreLines(question, stats)[2 + 15 * i] == Heading(stats[i].key)
    ensures ScoreLines(question, stats)[2 + 15 * i + 14] == ""
  {
    BlockEdgeAt(question, stats, i, 0);
    BlockEdgeAt(question, stats, i, 14);
  }

  /** Line `r` of group `i`'s block, for the heading and the closing blank line, is line `2 + 15 i + r`. */
  lemma BlockEdgeAt(question: string, stats: seq<GroupStats>, i: nat, r: nat)
    requires forall j :: 0 <= j < |stats| ==> |stats[j].averages| == |ScoreLabels| && |stats[j].missing| == |ScoreLabels|
    requires i < |stats| && (r == 0 || r == 14)
    ensures 2 + 15 * i + r < |ScoreLines(question, stats)|
    ensures r == 0 ==> ScoreLines(question, stats)[2 + 15 * i] == Heading(stats[i].key)
    ensures r == 14 ==> ScoreLines(question, stats)[2 + 15 * i + 14] == ""
  {
    var blocks := Blocks(stats);
    var header := [ReportTitle, QuestionLine(question)];
    assert ScoreLines(question, stats) == header + Flatten(blocks);
    HeaderFlattenAt(header, blocks, 15, i, r, 2 + 15 * i + r);
  }



  lemma ConcatAt<T>(xs: seq<T>, ys: seq<T>, k: nat)
    requires k < |ys|
    ensures (xs + ys)[|xs| + k] == ys[k]
  {
  }

  const NarrativeModel: string := "gemini-2.0-flash"

  /** The instructions sent with the score text to the narrative model. */
  const NarrativeInstructions: string :=
    "You are an objective evaluator. Given the performance metrics for multiple LLMs, "
    + "analyze only the numeric data below without any assumptions or external context. "
    + "Identify which model performs better strictly based on the following measurable factors:\n\n"
    + "- Average input/output tokens (efficiency)\n"
    + "- Average response time (speed)\n"
    + "- Average Flesch Reading Ease (clarity/readability)\n"
    + "- Average SMOG Index (education level needed)\n"
    + "- Average Coleman-Liau Index (grade level)\n"
    + "- Average Gunning Fog Index (long-form readability)\n\n"
    + "- Average Automated Readability Index (ARI)\n\n"
    + "- Average Dale-Chall Index (vocabulary difficulty)\n"
    + "- Average FORCAST Index (technical text readability)\n"
    + "- Average Linsear Write Index (military/technical readability)\n"
    + "- Average LIX Index (sentence/word complexity)\n"
    + "- Average RIX Index (long word ratio)\n\n"
    + "DO NOT add any subjective commentary or external knowledge. "
    + "Just summarize which model(s) have the strongest numeric performance for each metric, and conclude "
    + "which model performed better overall—purely based on these statistics."

  const InsightsHeading: string := "## 🧠 Gemini Insights\n"

  /** The groups of the summary, each with its statistics. */
  function Stats(summary: seq<Entry>): (ss: seq<GroupStats>)
    ensures |ss| == |GroupBy(summary, EntryKey)|
    ensures forall i :: 0 <= i < |ss| ==> ss[i].key == GroupBy(summary, EntryKey)[i].0
    ensures forall i :: 0 <= i < |ss| ==> |ss[i].averages| == |ScoreLabels| && |ss[i].missing| == |ScoreLabels|
    ensures |ss| == |Dedup(Map(EntryKey, summary))|
    ensures forall i :: 0 <= i < |ss| ==> ss[i].key == Dedup(Map(EntryKey, summary))[i]
  {
    GroupEntriesNonEmpty(summary, EntryKey);
    GroupByKeys(summary, EntryKey);
    SummarizeAll(GroupBy(summary, EntryKey))
  }

  /** The score text of a summary: title, question and one block per group. */
  function ReportBody(summary: seq<Entry>, question: string): seq<string>
  {
    ScoreLines(question, Stats(summary))
  }

  /**
   * `generate_report`: the text written to the report file, or the
   * exception the narrative call raises, in which case nothing is written.
   */
  function GenerateReport(summary: seq<Entry>, question: string, narrator: Oracle): (r: Result<string>)
    ensures r.Err? <==> narrator(NarrativeModel, FullPrompt(NarrativeInstructions, Join(ReportBody(summary, question), "\n"))).Failure?
    ensures var reply := narrator(NarrativeModel, FullPrompt(NarrativeInstructions, Join(ReportBody(summary, question), "\n")));
      && (r.Err? ==> r.error == Raised(reply.message))
      && (r.Ok? ==>
            exists i, j :: 0 <= i <= j <= |reply.text| && AllSpace(reply.text[..i]) && AllSpace(reply.text[j..])
              && r.value == Join(ReportBody(summary, question) + [InsightsHeading, reply.text[i..j]], "\n"))
  {
    WithInsights(ReportBody(summary, question), NarrativeInstructions, narrator)
  }

  /**
   * The score lines followed by the insights heading and the narrative
   * model's stripped answer, all joined by newlines; or the exception the
   * call raises. Both report generators end this way.
   */
  function WithInsights(lines: seq<string>, instructions: string, narrator: Oracle): (r: Result<string>)
    ensures var reply := narrator(NarrativeModel, FullPrompt(instructions, Join(lines, "\n")));
      && (r.Err? <==> reply.Failure?)
      && (r.Err? ==> r.error == Raised(reply.message))
      && (r.Ok? ==>
            exists i, j :: 0 <= i <= j <= |reply.text| && AllSpace(reply.text[..i]) && AllSpace(reply.text[j..])
              && r.value == Join(lines + [InsightsHeading, reply.text[i..j]], "\n"))
  {
    match Query(narrator, NarrativeModel, instructions, Join(lines, "\n"))
    case Err(e) => Err(e)
    case Ok(insight) => Ok(Join(lines + [InsightsHeading, insight], "\n"))
  }

  /** The headings name the groups in the order their key first appears among the records. */
  lemma HeadingsInFirstSeenOrder(summary: seq<Entry>, question: string, i: nat)
    requires i < |Stats(summary)|
    ensures ScoreLines(question, Stats(summary))[2 + 15 * i] == Heading(Dedup(Map(EntryKey, summary))[i])
  {
    ScoreLinesLayout(question, Stats(summary), i);
  }

  /**
   * The statistics of group `i` are those of the records carrying the
   * `i`-th key in first-seen order, and nothing else.
   */
  lemma StatsOfGroup(summary: seq<Entry>, i: nat)
    requires i < |Stats(summary)|
    ensures var key := Dedup(Map(EntryKey, summary))[i];
      var group := Members(summary, EntryKey, key);
      |group| > 0 && Stats(summary)[i] == Summarize(key, group)
  {
    var groups := GroupBy(summary, EntryKey);
    GroupEntriesNonEmpty(summary, EntryKey);
    GroupEntryIsMembers(summary, EntryKey, i);
    assert Stats(summary)[i] == Summarize(groups[i].0, groups[i].1);
  }

  /** Line `r` of group `i`'s block is line `2 + 15 i + r` of the score text. */
  lemma ScoreLineAt(question: string, stats: seq<GroupStats>, i: nat, r: nat)
    requires forall j :: 0 <= j < |stats| ==> |stats[j].averages| == |ScoreLabels| && |stats[j].missing| == |ScoreLabels|
    requires i < |stats| && r < 15
    ensures 2 + 15 * i + r < |ScoreLines(question, stats)|
    ensures ScoreLines(question, stats)[2 + 15 * i + r] == Block(stats[i])[r]
  {
    var blocks := Blocks(stats);
    var header := [ReportTitle, QuestionLine(question)];
    var body := Flatten(blocks);
    assert ScoreLines(question, stats) == header + body;
    FlattenUniform(blocks, 15, i, r);
    var at := i * 15 + r;
    assert 2 + 15 * i + r == |header| + at;
    ConcatAt(header, body, at);
    assert blocks[i] == Block(stats[i]);
  }

  /**
   * Group `i`'s average lines show the means of the token counts and the
   * response time over every record of the group.
   */
  lemma GroupLinesAt(summary: seq<Entry>, question: string, i: nat)
    requires i < |Stats(summary)|
    ensures var group := Members(summary, EntryKey, Dedup(Map(EntryKey, summary))[i]);
      var lines := ScoreLines(question, Stats(summary));
      && |group| > 0 && 2 + 15 * i + 14 < |lines|
      && lines[2 + 15 * i + 1] == InputLine(Mean(Map(InputTokens, group)))
      && lines[2 + 15 * i + 2] == OutputLine(Mean(Map(OutputTokens, group)))
      && lines[2 + 15 * i + 3] == TimeLine(Mean(Map(ResponseTime, group)))
  {
    StatsOfGroup(summary, i);
    AverageLinesAt(question, Stats(summary), i);
  }

  /** Lines 1 to 3 of group `i`'s block show its three averages. */
  lemma AverageLinesAt(question: string, stats: seq<GroupStats>, i: nat)
    requires forall j :: 0 <= j < |stats| ==> |stats[j].averages| == |ScoreLabels| && |stats[j].missing| == |ScoreLabels|
    requires i < |stats|
    ensures var lines := ScoreLines(question, stats);
      && 2 + 15 * i + 14 < |lines|
      && lines[2 + 15 * i + 1] == InputLine(stats[i].avgInput)
      && lines[2 + 15 * i + 2] == OutputLine(stats[i].avgOutput)
      && lines[2 + 15 * i + 3] == TimeLine(stats[i].avgTime)
  {
    InputLineAt(question, stats, i);
    OutputLineAt(question, stats, i);
    TimeLineAt(question, stats, i);
  }

  lemma InputLineAt(question: string, stats: seq<GroupStats>, i: nat)
    requires forall j :: 0 <= j < |stats| ==> |stats[j].averages| == |ScoreLabels| && |stats[j].missing| == |ScoreLabels|
    requires i < |stats|
    ensures 2 + 15 * i + 14 < |ScoreLines(question, stats)|
    ensures ScoreLines(question, stats)[2 + 15 * i + 1] == InputLine(stats[i].avgInput)
  {
    var b := Block(stats[i]);
    ScoreLineAt(question, stats, i, 14);
    ScoreLineAt(question, stats, i, 1);
    assert b[1] == InputLine(stats[i].avgInput);
  }

  lemma OutputLineAt(question: string, stats: seq<GroupStats>, i: nat)
    requires forall j :: 0 <= j < |stats| ==> |stats[j].averages| == |ScoreLabels| && |stats[j].missing| == |ScoreLabels|
    requires i < |stats|
    ensures 2 + 15 * i + 14 < |ScoreLines(question, stats)|
    ensures ScoreLines(question, stats)[2 + 15 * i + 2] == OutputLine(stats[i].avgOutput)
  {
    var b := Block(stats[i]);
    ScoreLineAt(question, stats, i, 14);
    ScoreLineAt(question, stats, i, 2);
    assert b[2] == OutputLine(stats[i].avgOutput);
  }

  lemma TimeLineAt(question: string, stats: seq<GroupStats>, i: nat)
    requires forall j :: 0 <= j < |stats| ==> |stats[j].averages| == |ScoreLabels| && |stats[j].missing| == |ScoreLabels|
    requires i < |stats|
    ensures 2 + 15 * i + 14 < |ScoreLines(question, stats)|
    ensures ScoreLines(question, stats)[2 + 15 * i + 3] == TimeLine(stats[i].avgTime)
  {
    var b := Block(stats[i]);
    ScoreLineAt(question, stats, i, 14);
    ScoreLineAt(question, stats, i, 3);
    assert b[3] == TimeLine(stats[i].avgTime);
  }

  /** Group `i`'s score lines show the averages and missing counts of the group's records. */
  lemma GroupScoreLinesAt(summary: seq<Entry>, question: string, i: nat, k: nat)
    requires i < |Stats(summary)| && k < 10
    ensures var group := Members(summary, EntryKey, Dedup(Map(EntryKey, summary))[i]);
      var lines := ScoreLines(question, Stats(summary));
      && |group| > 0 && 2 + 15 * i + 4 + k < |lines|
      && lines[2 + 15 * i + 4 + k] == ScoreLine(k, Average(ScoreValues(group, k)), Count(IsNone(ScoreOf(k)), group))
  {
    var stats := Stats(summary);
    var key := Dedup(Map(EntryKey, summary))[i];
    var group := Members(summary, EntryKey, key);
    StatsOfGroup(summary, i);
    var s := stats[i];
    assert s == Summarize(key, group);
    ScoreRowAt(question, stats, i, k);
    assert s.averages[k] == Average(ScoreValues(group, k)) && s.missing[k] == Count(IsNone(ScoreOf(k)), group);
  }

  /** Score line `k` of group `i` is line `2 + 15 i + 4 + k` of the score text. */
  lemma ScoreRowAt(question: string, stats: seq<GroupStats>, i: nat, k: nat)
    requires forall j :: 0 <= j < |stats| ==> |stats[j].averages| == |ScoreLabels| && |stats[j].missing| == |ScoreLabels|
    requires i < |stats| && k < 10
    ensures 2 + 15 * i + 4 + k < |ScoreLines(question, stats)|
    ensures ScoreLines(question, stats)[2 + 15 * i + 4 + k] == ScoreLine(k, stats[i].averages[k], stats[i].missing[k])
  {
    var blocks := Blocks(stats);
    var header := [ReportTitle, QuestionLine(question)];
    assert ScoreLines(question, stats) == header + Flatten(blocks);
    HeaderFlattenAt(header, blocks, 15, i, 4 + k, 2 + 15 * i + 4 + k);
    assert blocks[i] == Block(stats[i]);
  }

  /** Times of 1.0 and 3.0 seconds average to a line reading "2.00 sec". */
  lemma TimeLineExample()
    ensures TimeLine(Mean([1.0, 3.0])) == "- ⏱️ Average Response Time: 2.00 sec"
  {
    assert Sum([1.0, 3.0]) == 4.0;
    assert Mean([1.0, 3.0]) == 2.0;
    FixedTwo();
  }

  lemma FixedTwo()
    ensures Fixed2(2.0) == "2.00"
  {
    assert Hundredths(2.0) == 200 by {
      assert 2.0 * 100.0 == 200 as real;
      RoundHalfEvenOfInt(200);
    }
    assert NatToString(2) == "2";
    assert NatToString(0) == "0";
    assert PadZeros("0", 2) == "00" by {
      assert PadZeros("00", 2) == "00";
    }
  }
}
