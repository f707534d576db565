/**
 * The first-generation readability scorer: three text statistics, the
 * Flesch Reading Ease score, and a three-key dictionary holding the
 * sentence count, the syllable count and the Flesch score. It has no SMOG
 * entry, which the first-generation runner nevertheless reads.
 */
module LegacyMetrics {
  import opened Base
  import opened Readability

  /** The three statistics of the first-generation scorer. */
  datatype LegacyStats = LegacyStats(sentences: nat, words: nat, syllables: nat)

  /** `get_text_stats`: sentences, alphabetic words and the syllables of the whole text. */
  function GetTextStats(a: Analysis): (s: LegacyStats)
    ensures s.words == |AlphaWords(a.tokens)|
    ensures var full := Readability.GetTextStats(a);
      s == LegacyStats(full.sentences, full.words, full.syllables)
  {
    TallyCountsAlphaWords(a.tokens);
    LegacyStats(a.sentences, Tally(a.tokens).0, a.textSyllables)
  }

  const LegacyKeys: seq<string> := ["sentence_count", "syllable_count", "flesch_reading_ease"]

  /** The three-entry dictionary. */
  datatype LegacyReadings = LegacyReadings(sentences: nat, syllables: nat, flesch: Metric)
  {
    /** `readings[key]`: KeyError for any key outside the three. */
    function Lookup(key: string): (r: Result<Reading>)
      ensures r.Err? <==> key !in LegacyKeys
      ensures r.Err? ==> r.error == KeyError(key)
    {
      if key == "sentence_count" then Ok(Stat(sentences))
      else if key == "syllable_count" then Ok(Stat(syllables))
      else if key == "flesch_reading_ease" then Ok(Score(flesch))
      else Err(KeyError(key))
    }
  }

  /** `get_readability_metrics` of the first generation: never raises, Flesch "N/A" without a sentence or a word. */
  function GetReadabilityMetrics(a: Analysis): (r: LegacyReadings)
    ensures r.flesch.NA? <==> a.sentences == 0 || GetTextStats(a).words == 0
    ensures r.sentences == a.sentences && r.syllables == a.textSyllables
    ensures r.flesch == Flesch(a.sentences, GetTextStats(a).words, a.textSyllables)
  {
    var s := GetTextStats(a);
    LegacyReadings(s.sentences, s.syllables, Flesch(s.sentences, s.words, s.syllables))
  }

  /** The first-generation dictionary has no "smog_index" entry. */
  lemma NoSmogIndex(a: Analysis)
    ensures GetReadabilityMetrics(a).Lookup("smog_index") == Err(KeyError("smog_index"))
  {
  }

  /** Where the second-generation scorer answers, its dictionary agrees with the first-generation one on all three keys. */
  lemma AgreesWithFullScorer(a: Analysis, sqrt: real -> real, key: string)
    requires key in LegacyKeys
    requires Readability.GetReadabilityMetrics(a, sqrt).Ok?
    ensures GetReadabilityMetrics(a).Lookup(key) == Readability.GetReadabilityMetrics(a, sqrt).value.Lookup(key)
  {
  }
}
