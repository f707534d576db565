/**
 * The readability scorer of the second-generation harness: text statistics
 * counted over one NLP analysis of a text, ten published readability
 * formulas each guarded by the condition under which it yields a number
 * ("N/A" otherwise), and the fifteen-key dictionary that combines them.
 *
 * The NLP analysis (tokens, sentence segmentation, syllable counts and the
 * Dale-Chall score) comes from external libraries and is an input here.
 * Every score is rounded to two places, so a score is kept as a whole
 * number of hundredths; the formulas themselves are evaluated over exact
 * reals.
 */
module Readability {
  import opened Base
  import opened Seqs
  import opened Numerals

  /** One token of the analysis: its text, whether it is alphabetic, and its syllable count. */
  datatype Token = Token(text: string, isAlpha: bool, syllables: nat)

  /** An alphabetic token is never empty. */
  type Tok = t: Token | t.isAlpha ==> |t.text| > 0 witness Token("", false, 0)

  /**
   * What the external libraries report about one text: its tokens, the
   * number of sentences, the syllable count of the whole text, and the
   * Dale-Chall score.
   */
  datatype Analysis = Analysis(tokens: seq<Tok>, sentences: nat, textSyllables: nat, daleChall: real)

  /** A score: "N/A", or a value counted in hundredths. */
  datatype Metric = NA | Num(hundredths: int)
  {
    /** The value the score stands for. */
    function Value(): real
      requires Num?
    {
      hundredths as real / 100.0
    }

    /** How the score prints: "N/A", or `str` of the rounded float. */
    function Show(): string
    {
      match this
      case NA => "N/A"
      case Num(h) => ShowScaled(h, 2)
    }
  }

  /** `round(x, 2)` kept as a score. */
  function Rounded(x: real): (m: Metric)
    ensures m.Num? && -0.005 <= m.Value() - x <= 0.005
  {
    Num(Hundredths(x))
  }

  /** The text of every alphabetic token, in order. */
  function AlphaWords(ts: seq<Tok>): (ws: seq<Tok>)
    ensures |ws| <= |ts|
    ensures forall k :: 0 <= k < |ws| ==> ws[k].isAlpha && ws[k] in ts
  {
    Filter((t: Tok) => t.isAlpha, ts)
  }

  // ---------------------------------------------------------------- statistics

  /** The five statistics every formula is computed from. */
  datatype TextStats = TextStats(sentences: nat, words: nat, syllables: nat, polysyllables: nat, chars: nat)

  /** Alphabetic tokens, those of them with three syllables or more, and their total length. */
  function Tally(ts: seq<Tok>): (r: (nat, nat, nat))
    ensures r.1 <= r.0 <= r.2
  {
    if |ts| == 0 then (0, 0, 0)
    else
      var rest := Tally(ts[1..]);
      var t := ts[0];
      if t.isAlpha then
        (rest.0 + 1, rest.1 + (if t.syllables >= 3 then 1 else 0), rest.2 + |t.text|)
      else rest
  }

  /** `get_text_stats`: the counts the formulas share. */
  function GetTextStats(a: Analysis): (s: TextStats)
    ensures s.sentences == a.sentences && s.syllables == a.textSyllables
    ensures s.polysyllables <= s.words <= s.chars
  {
    var (w, p, c) := Tally(a.tokens);
    TextStats(a.sentences, w, a.textSyllables, p, c)
  }

  /** The word count is the number of alphabetic tokens. */
  lemma {:induction false} TallyCountsAlphaWords(ts: seq<Tok>)
    ensures Tally(ts).0 == |AlphaWords(ts)|
  {
    if |ts| > 0 {
      TallyCountsAlphaWords(ts[1..]);
    }
  }

  // ---------------------------------------------------------------- the formulas

  function FleschScore(sentences: nat, words: nat, syllables: nat): real
    requires sentences > 0 && words > 0
  {
    206.835 - 1.015 * (words as real / sentences as real) - 84.6 * (syllables as real / words as real)
  }

  /** Flesch Reading Ease: a number exactly when there is a sentence and a word. */
  function Flesch(sentences: nat, words: nat, syllables: nat): (m: Metric)
    ensures m.NA? <==> sentences == 0 || words == 0
    ensures m.Num? ==> -0.005 <= m.Value() - FleschScore(sentences, words, syllables) <= 0.005
  {
    if sentences > 0 && words > 0 then Rounded(FleschScore(sentences, words, syllables)) else NA
  }

  /** SMOG: a number only from three sentences and one polysyllable on; the square root is supplied. */
  function Smog(sentences: nat, polysyllables: nat, sqrt: real -> real): (m: Metric)
    ensures m.NA? <==> sentences < 3 || polysyllables == 0
  {
    if sentences >= 3 && polysyllables > 0 then
      Rounded(1.0430 * sqrt(polysyllables as real * (30.0 / sentences as real)) + 3.1291)
    else NA
  }

  function ColemanLiauScore(chars: nat, words: nat, sentences: nat): real
    requires words > 0
  {
    var l := chars as real / words as real * 100.0;
    var s := sentences as real / words as real * 100.0;
    0.0588 * l - 0.296 * s - 15.8
  }

  /** Coleman-Liau index: a number exactly when there is a word and a sentence. */
  function ColemanLiau(chars: nat, words: nat, sentences: nat): (m: Metric)
    ensures m.NA? <==> sentences == 0 || words == 0
    ensures m.Num? ==> -0.005 <= m.Value() - ColemanLiauScore(chars, words, sentences) <= 0.005
  {
    if words > 0 && sentences > 0 then Rounded(ColemanLiauScore(chars, words, sentences)) else NA
  }

  function GunningFogScore(sentences: nat, words: nat, polysyllables: nat): real
    requires sentences > 0 && words > 0
  {
    0.4 * (words as real / sentences as real + 100.0 * (polysyllables as real / words as real))
  }

  /** Gunning Fog index: a number exactly when there is a sentence and a word. */
  function GunningFog(sentences: nat, words: nat, polysyllables: nat): (m: Metric)
    ensures m.NA? <==> sentences == 0 || words == 0
    ensures m.Num? ==> -0.005 <= m.Value() - GunningFogScore(sentences, words, polysyllables) <= 0.005
  {
    if sentences > 0 && words > 0 then Rounded(GunningFogScore(sentences, words, polysyllables)) else NA
  }

  function AriScore(chars: nat, words: nat, sentences: nat): real
    requires words > 0 && sentences > 0
  {
    4.71 * (chars as real / words as real) + 0.5 * (words as real / sentences as real) - 21.43
  }

  /** Automated Readability Index: a number exactly when there is a word and a sentence. */
  function Ari(chars: nat, words: nat, sentences: nat): (m: Metric)
    ensures m.NA? <==> sentences == 0 || words == 0
    ensures m.Num? ==> -0.005 <= m.Value() - AriScore(chars, words, sentences) <= 0.005
  {
    if words > 0 && sentences > 0 then Rounded(AriScore(chars, words, sentences)) else NA
  }

  /** Dale-Chall: the library's score, rounded; always a number. */
  function DaleChall(a: Analysis): (m: Metric)
    ensures m.Num? && -0.005 <= m.Value() - a.daleChall <= 0.005
  {
    Rounded(a.daleChall)
  }

  /** The first `n` alphabetic words (`words[:n]`). */
  function Sample(ts: seq<Tok>, n: nat): (ws: seq<Tok>)
    ensures |ws| == if |AlphaWords(ts)| < n then |AlphaWords(ts)| else n
    ensures ws <= AlphaWords(ts)
  {
    var ws := AlphaWords(ts);
    if |ws| < n then ws else ws[..n]
  }

  function ForcastScore(ts: seq<Tok>): real
  {
    20.0 - Count((t: Tok) => t.syllables == 1, Sample(ts, 150)) as real / 10.0
  }

  /** FORCAST over the first 150 words: always a number between 5 and 20. */
  function Forcast(a: Analysis): (m: Metric)
    ensures m.Num? && 5.0 <= m.Value() <= 20.0
    ensures -0.005 <= m.Value() - ForcastScore(a.tokens) <= 0.005
  {
    var score := ForcastScore(a.tokens);
    assert 5.0 <= score <= 20.0;
    RoundedWithin(score, 500, 2000);
    Rounded(score)
  }

  /** Rounding a value between two whole numbers of hundredths stays between them. */
  lemma RoundedWithin(x: real, lo: int, hi: int)
    requires lo as real / 100.0 <= x <= hi as real / 100.0
    ensures lo <= Hundredths(x) <= hi
  {
    RoundHalfEvenMonotone(lo as real / 100.0 * 100.0, x * 100.0);
    RoundHalfEvenMonotone(x * 100.0, hi as real / 100.0 * 100.0);
    Round2Exact(lo);
    Round2Exact(hi);
  }

  lemma DivideByAtLeastOne(x: real, d: real)
    requires x >= 0.0 && d >= 1.0
    ensures 0.0 <= x / d <= x
  {
  }

  function Easy(ts: seq<Tok>): nat
  {
    Count((t: Tok) => t.syllables <= 2, Sample(ts, 100))
  }

  function Hard(ts: seq<Tok>): nat
  {
    Count((t: Tok) => t.syllables >= 3, Sample(ts, 100))
  }

  /** The Linsear Write raw score before its final adjustment; the sentence count is at least one. */
  function LinsearRaw(a: Analysis): real
  {
    (Easy(a.tokens) + 3 * Hard(a.tokens)) as real / Max1(a.sentences) as real
  }

  function Max1(n: nat): (m: nat)
    ensures m >= 1 && m >= n && (n >= 1 ==> m == n)
  {
    if n < 1 then 1 else n
  }

  /** Linsear Write over the first 100 words: halved above 20, otherwise reduced by 2; always a number. */
  function LinsearWrite(a: Analysis): (m: Metric)
    ensures m.Num?
    ensures LinsearRaw(a) > 20.0 ==> -0.005 <= m.Value() - LinsearRaw(a) / 2.0 <= 0.005
    ensures LinsearRaw(a) <= 20.0 ==> -0.005 <= m.Value() - (LinsearRaw(a) - 2.0) <= 0.005
  {
    var score := LinsearRaw(a);
    Rounded(if score > 20.0 then score / 2.0 else score - 2.0)
  }

  function LongWords(ts: seq<Tok>): nat
  {
    Count((t: Tok) => |t.text| > 6, AlphaWords(ts))
  }

  function LixScore(a: Analysis): real
    requires |AlphaWords(a.tokens)| > 0
  {
    var words := |AlphaWords(a.tokens)|;
    words as real / Max1(a.sentences) as real + 100.0 * (LongWords(a.tokens) as real / words as real)
  }

  /** LIX has no guard on the word count: without alphabetic words it divides by zero. */
  function Lix(a: Analysis): (r: Result<Metric>)
    ensures r.Err? <==> |AlphaWords(a.tokens)| == 0
    ensures r.Err? ==> r.error == ZeroDivisionError
    ensures r.Ok? ==> r.value.Num? && -0.005 <= r.value.Value() - LixScore(a) <= 0.005
  {
    if |AlphaWords(a.tokens)| == 0 then Err(ZeroDivisionError) else Ok(Rounded(LixScore(a)))
  }

  /** RIX: long words per sentence, the sentence count being at least one; never negative. */
  function Rix(a: Analysis): (m: Metric)
    ensures m.Num? && m.hundredths >= 0
    ensures -0.005 <= m.Value() - LongWords(a.tokens) as real / Max1(a.sentences) as real <= 0.005
    ensures LongWords(a.tokens) == 0 ==> m.hundredths == 0
  {
    var score := LongWords(a.tokens) as real / Max1(a.sentences) as real;
    DivideByAtLeastOne(LongWords(a.tokens) as real, Max1(a.sentences) as real);
    RoundedWithin(score, 0, 100 * LongWords(a.tokens));
    Rounded(score)
  }

  // ---------------------------------------------------------------- the dictionary

  /** A dictionary value: a count or a score. */
  datatype Reading = Stat(n: nat) | Score(m: Metric)
  {
    function Show(): string
    {
      match this
      case Stat(n) => NatToString(n)
      case Score(m) => m.Show()
    }
  }

  const MetricKeys: seq<string> := [
    "sentence_count", "word_count", "syllable_count", "polysyllable_count", "char_count",
    "flesch_reading_ease", "smog_index", "coleman_liau_index", "gunning_fog_index",
    "automated_readability_index", "dale_chall_index", "forcast_index", "linsear_write_index",
    "lix", "rix"]

  /** The fifteen-entry dictionary `get_readability_metrics` returns. */
  datatype Readings = Readings(
    stats: TextStats,
    flesch: Metric, smog: Metric, colemanLiau: Metric, gunningFog: Metric, ari: Metric,
    daleChall: Metric, forcast: Metric, linsearWrite: Metric, lix: Metric, rix: Metric)
  {
    /** `readings[key]`: KeyError for any key outside the fifteen. */
    function Lookup(key: string): (r: Result<Reading>)
      ensures r.Err? <==> key !in MetricKeys
      ensures r.Err? ==> r.error == KeyError(key)
    {
      if key == "sentence_count" then Ok(Stat(stats.sentences))
      else if key == "word_count" then Ok(Stat(stats.words))
      else if key == "syllable_count" then Ok(Stat(stats.syllables))
      else if key == "polysyllable_count" then Ok(Stat(stats.polysyllables))
      else if key == "char_count" then Ok(Stat(stats.chars))
      else if key == "flesch_reading_ease" then Ok(Score(flesch))
      else if key == "smog_index" then Ok(Score(smog))
      else if key == "coleman_liau_index" then Ok(Score(colemanLiau))
      else if key == "gunning_fog_index" then Ok(Score(gunningFog))
      else if key == "automated_readability_index" then Ok(Score(ari))
      else if key == "dale_chall_index" then Ok(Score(daleChall))
      else if key == "forcast_index" then Ok(Score(forcast))
      else if key == "linsear_write_index" then Ok(Score(linsearWrite))
      else if key == "lix" then Ok(Score(lix))
      else if key == "rix" then Ok(Score(rix))
      else Err(KeyError(key))
    }
  }

  /**
   * `get_readability_metrics`: the five statistics and the ten scores, or
   * the ZeroDivisionError LIX raises on a text without alphabetic words.
   */
  function GetReadabilityMetrics(a: Analysis, sqrt: real -> real): (r: Result<Readings>)
    ensures r.Err? <==> GetTextStats(a).words == 0
    ensures r.Err? ==> r.error == ZeroDivisionError
    ensures r.Ok? ==> r.value.stats == GetTextStats(a)
    ensures r.Ok? ==> var s := GetTextStats(a);
      && r.value.flesch == Flesch(s.sentences, s.words, s.syllables)
      && r.value.smog == Smog(s.sentences, s.polysyllables, sqrt)
      && r.value.colemanLiau == ColemanLiau(s.chars, s.words, s.sentences)
      && r.value.gunningFog == GunningFog(s.sentences, s.words, s.polysyllables)
      && r.value.ari == Ari(s.chars, s.words, s.sentences)
      && r.value.daleChall == DaleChall(a)
      && r.value.forcast == Forcast(a)
      && r.value.linsearWrite == LinsearWrite(a)
      && Lix(a) == Ok(r.value.lix)
      && r.value.rix == Rix(a)
  {
    var s := GetTextStats(a);
    TallyCountsAlphaWords(a.tokens);
    match Lix(a)
    case Err(e) => Err(e)
    case Ok(lix) =>
      Ok(Readings(s,
        Flesch(s.sentences, s.words, s.syllables),
        Smog(s.sentences, s.polysyllables, sqrt),
        ColemanLiau(s.chars, s.words, s.sentences),
        GunningFog(s.sentences, s.words, s.polysyllables),
        Ari(s.chars, s.words, s.sentences),
        DaleChall(a), Forcast(a), LinsearWrite(a), lix, Rix(a)))
  }

  // ---------------------------------------------------------------- properties

  /** The five statistics reach the dictionary unchanged, under their own keys. */
  lemma StatisticsPassThrough(a: Analysis, sqrt: real -> real)
    requires GetTextStats(a).words > 0
    ensures var r := GetReadabilityMetrics(a, sqrt).value;
      var s := GetTextStats(a);
      && r.Lookup("sentence_count") == Ok(Stat(s.sentences))
      && r.Lookup("word_count") == Ok(Stat(s.words))
      && r.Lookup("syllable_count") == Ok(Stat(s.syllables))
      && r.Lookup("polysyllable_count") == Ok(Stat(s.polysyllables))
      && r.Lookup("char_count") == Ok(Stat(s.chars))
  {
  }

  /**
   * Each of the ten score keys holds its own formula's value: the
   * dictionary pairs every key with the scorer of the same name.
   */
  lemma ScoreEntries(a: Analysis, sqrt: real -> real)
    requires GetTextStats(a).words > 0
    ensures var r := GetReadabilityMetrics(a, sqrt).value;
      var s := GetTextStats(a);
      && r.Lookup("flesch_reading_ease") == Ok(Score(Flesch(s.sentences, s.words, s.syllables)))
      && r.Lookup("smog_index") == Ok(Score(Smog(s.sentences, s.polysyllables, sqrt)))
      && r.Lookup("coleman_liau_index") == Ok(Score(ColemanLiau(s.chars, s.words, s.sentences)))
      && r.Lookup("gunning_fog_index") == Ok(Score(GunningFog(s.sentences, s.words, s.polysyllables)))
      && r.Lookup("automated_readability_index") == Ok(Score(Ari(s.chars, s.words, s.sentences)))
      && r.Lookup("dale_chall_index") == Ok(Score(DaleChall(a)))
      && r.Lookup("forcast_index") == Ok(Score(Forcast(a)))
      && r.Lookup("linsear_write_index") == Ok(Score(LinsearWrite(a)))
      && Lix(a).Ok? && r.Lookup("lix") == Ok(Score(Lix(a).value))
      && r.Lookup("rix") == Ok(Score(Rix(a)))
  {
    var r := GetReadabilityMetrics(a, sqrt).value;
    ScoreKeys(r);
  }

  /** The ten score keys of any dictionary, each to its own field. */
  lemma ScoreKeys(r: Readings)
    ensures r.Lookup("flesch_reading_ease") == Ok(Score(r.flesch))
    ensures r.Lookup("smog_index") == Ok(Score(r.smog))
    ensures r.Lookup("coleman_liau_index") == Ok(Score(r.colemanLiau))
    ensures r.Lookup("gunning_fog_index") == Ok(Score(r.gunningFog))
    ensures r.Lookup("automated_readability_index") == Ok(Score(r.ari))
    ensures r.Lookup("dale_chall_index") == Ok(Score(r.daleChall))
    ensures r.Lookup("forcast_index") == Ok(Score(r.forcast))
    ensures r.Lookup("linsear_write_index") == Ok(Score(r.linsearWrite))
    ensures r.Lookup("lix") == Ok(Score(r.lix))
    ensures r.Lookup("rix") == Ok(Score(r.rix))
  {
    LaterScoreKeys(r);
  }

  lemma LaterScoreKeys(r: Readings)
    ensures r.Lookup("dale_chall_index") == Ok(Score(r.daleChall))
    ensures r.Lookup("forcast_index") == Ok(Score(r.forcast))
    ensures r.Lookup("linsear_write_index") == Ok(Score(r.linsearWrite))
    ensures r.Lookup("lix") == Ok(Score(r.lix))
    ensures r.Lookup("rix") == Ok(Score(r.rix))
  {
  }

  /**
   * With at least one sentence and one alphabetic word, every score except
   * SMOG is a number; SMOG needs three sentences and a polysyllable.
   */
  lemma ScoresPresent(a: Analysis, sqrt: real -> real)
    requires GetTextStats(a).words > 0 && a.sentences > 0
    ensures var r := GetReadabilityMetrics(a, sqrt).value;
      && r.flesch.Num? && r.colemanLiau.Num? && r.gunningFog.Num? && r.ari.Num?
      && r.daleChall.Num? && r.forcast.Num? && r.linsearWrite.Num? && r.lix.Num? && r.rix.Num?
      && (r.smog.Num? <==> a.sentences >= 3 && GetTextStats(a).polysyllables > 0)
  {
  }

  /** The SMOG entry depends on the sentence and polysyllable counts only through its guard. */
  lemma SmogEntry(a: Analysis, sqrt: real -> real)
    requires GetTextStats(a).words > 0
    ensures var r := GetReadabilityMetrics(a, sqrt).value;
      var s := GetTextStats(a);
      && r.Lookup("smog_index").Ok?
      && (r.Lookup("smog_index") == Ok(Score(NA)) <==> s.sentences < 3 || s.polysyllables == 0)
  {
  }

  /** The published example: two sentences, six words and six syllables score 119.19. */
  lemma FleschExample()
    ensures Flesch(2, 6, 6) == Num(11919)
    ensures Flesch(2, 6, 6).Show() == "119.19"
  {
    assert FleschScore(2, 6, 6) == 119.19;
    assert 119.19 * 100.0 == 11919 as real;
    RoundHalfEvenOfInt(11919);
    ShowExampleScore();
  }

  lemma ShowExampleScore()
    ensures ShowScaled(11919, 2) == "119.19"
  {
    assert NatToString(1) == "1";
    assert NatToString(11) == "11";
    assert NatToString(119) == "119";
    assert NatToString(1191) == "1191";
    assert NatToString(11919) == "11919";
    var digits := "11919";
    assert PadZeros(digits, 3) == digits;
    assert digits[..3] == "119" && digits[3..] == "19";
    assert TrimZeros("19") == "19";
    assert ShowFraction("19") == "19";
    assert ShowUnsigned(11919, 2) == "119" + "." + "19";
  }

  /** More syllables for the same words and sentences mean a strictly lower score, and never a higher rounded one. */
  lemma FleschDecreasesWithSyllables(sentences: nat, words: nat, y1: nat, y2: nat)
    requires sentences > 0 && words > 0 && y1 < y2
    ensures FleschScore(sentences, words, y2) < FleschScore(sentences, words, y1)
    ensures Flesch(sentences, words, y2).hundredths <= Flesch(sentences, words, y1).hundredths
  {
    var w := words as real;
    assert y1 as real / w < y2 as real / w;
    RoundHalfEvenMonotone(FleschScore(sentences, words, y2) * 100.0, FleschScore(sentences, words, y1) * 100.0);
  }

  /** Linsear Write samples the first hundred words, and each of them is easy or hard. */
  lemma {:induction false} EasyPlusHard(a: Analysis)
    ensures Easy(a.tokens) + Hard(a.tokens) == |Sample(a.tokens, 100)|
    ensures |Sample(a.tokens, 100)| == if GetTextStats(a).words < 100 then GetTextStats(a).words else 100
  {
    CountSplit(Sample(a.tokens, 100));
    TallyCountsAlphaWords(a.tokens);
  }

  lemma {:induction false} CountSplit(ws: seq<Tok>)
    ensures Count((t: Tok) => t.syllables <= 2, ws) + Count((t: Tok) => t.syllables >= 3, ws) == |ws|
  {
    if |ws| > 0 {
      CountSplit(ws[1..]);
    }
  }

  /** A text without alphabetic words scores -2 in Linsear Write. */
  lemma LinsearWriteWithoutWords(a: Analysis)
    requires GetTextStats(a).words == 0
    ensures LinsearWrite(a) == Num(-200)
  {
    EasyPlusHard(a);
    assert Easy(a.tokens) == 0 && Hard(a.tokens) == 0;
    assert LinsearRaw(a) == 0.0;
    RoundHalfEvenOfInt(-200);
  }

  /** FORCAST is 20 when the sample has no one-syllable word. */
  lemma ForcastWithoutMonosyllables(a: Analysis)
    requires Count((t: Tok) => t.syllables == 1, Sample(a.tokens, 150)) == 0
    ensures Forcast(a) == Num(2000)
  {
    RoundHalfEvenOfInt(2000);
  }

  /** Every text without alphabetic words makes the whole scorer raise, whatever its sentences. */
  lemma NoWordsRaises(a: Analysis, sqrt: real -> real)
    requires forall k :: 0 <= k < |a.tokens| ==> !a.tokens[k].isAlpha
    ensures GetReadabilityMetrics(a, sqrt) == Err(ZeroDivisionError)
  {
    NoAlphaWords(a.tokens);
  }

  lemma {:induction false} NoAlphaWords(ts: seq<Tok>)
    requires forall k :: 0 <= k < |ts| ==> !ts[k].isAlpha
    ensures Tally(ts).0 == 0
  {
    if |ts| > 0 {
      NoAlphaWords(ts[1..]);
    }
  }
}
