/**
 * Reading the comparison log back. The log text is cut at every run of 50
 * dashes; each piece yields a record when every labelled field is found in
 * it, and is skipped otherwise. A field is the leftmost occurrence of its
 * marker followed by at least one character of the field's class, and its
 * value is the longest run of class characters after the marker.
 *
 * Both generations of the report generator share the first eight fields;
 * the second generation reads ten readability scores, the first only the
 * Flesch score, with a class that has no '-'.
 */
module LogExtract {
  import opened Base
  import opened Strings
  import opened Seqs
  import opened Numerals
  import opened Patterns

  /** The entry delimiter: fifty dashes. */
  const Delimiter: string := Repeat('-', 50)

  const WordClass: CharClass := [WordAtom]
  const ModelClass: CharClass := [WordAtom, CharAtom('-'), CharAtom('.'), CharAtom(':')]
  const PromptClass: CharClass := [WordAtom, CharAtom('_')]
  const PromptTypeClass: CharClass := [WordAtom, SpaceAtom]
  const DigitClass: CharClass := [DigitAtom]
  const TimeClass: CharClass := [DigitAtom, CharAtom('.')]
  /** `[\d\.NA\-]`, the class of the second-generation scores. */
  const ScoreClass: CharClass := [DigitAtom, CharAtom('.'), CharAtom('N'), CharAtom('A'), CharAtom('-')]
  /** `[\d\.NA]`, the class of the first-generation Flesch score. */
  const LegacyScoreClass: CharClass := [DigitAtom, CharAtom('.'), CharAtom('N'), CharAtom('A')]

  /** What each class admits, spelled out. */
  lemma ClassMembers(c: char)
    ensures InClass(WordClass, c) <==> IsWordChar(c)
    ensures InClass(ModelClass, c) <==> IsWordChar(c) || c == '-' || c == '.' || c == ':'
    ensures InClass(PromptClass, c) <==> IsWordChar(c)
    ensures InClass(PromptTypeClass, c) <==> IsWordChar(c) || IsSpace(c)
    ensures InClass(DigitClass, c) <==> IsDigit(c)
    ensures InClass(TimeClass, c) <==> IsDigit(c) || c == '.'
    ensures InClass(ScoreClass, c) <==> IsDigit(c) || c == '.' || c == 'N' || c == 'A' || c == '-'
    ensures InClass(LegacyScoreClass, c) <==> IsDigit(c) || c == '.' || c == 'N' || c == 'A'
  {
    var d, w, sp := [DigitAtom], [WordAtom], [SpaceAtom];
    var dash, dot, colon, under := [CharAtom('-')], [CharAtom('.')], [CharAtom(':')], [CharAtom('_')];
    var n, a := [CharAtom('N')], [CharAtom('A')];
    InClassSingle(DigitAtom, c); InClassSingle(WordAtom, c); InClassSingle(SpaceAtom, c);
    InClassSingle(CharAtom('-'), c); InClassSingle(CharAtom('.'), c); InClassSingle(CharAtom(':'), c);
    InClassSingle(CharAtom('_'), c); InClassSingle(CharAtom('N'), c); InClassSingle(CharAtom('A'), c);
    assert ModelClass == w + dash + dot + colon;
    InClassAppend(w + dash + dot, colon, c); InClassAppend(w + dash, dot, c); InClassAppend(w, dash, c);
    assert PromptClass == w + under;
    InClassAppend(w, under, c);
    assert PromptTypeClass == w + sp;
    InClassAppend(w, sp, c);
    assert TimeClass == d + dot;
    InClassAppend(d, dot, c);
    assert LegacyScoreClass == d + dot + n + a;
    InClassAppend(d + dot + n, a, c); InClassAppend(d + dot, n, c); InClassAppend(d, dot, c);
    assert ScoreClass == LegacyScoreClass + dash;
    InClassAppend(LegacyScoreClass, dash, c);
  }

  // ---------------------------------------------------------------- one labelled field

  /** `marker` occurs at `i` and a class character follows it. */
  predicate LabelledAt(text: string, marker: string, cls: CharClass, i: nat)
  {
    OccursAt(text, marker, i) && i + |marker| < |text| && InClass(cls, text[i + |marker|])
  }

  /** `i` is the leftmost such position. */
  predicate FirstLabelledAt(text: string, marker: string, cls: CharClass, i: nat)
  {
    LabelledAt(text, marker, cls, i) && forall k: nat :: k < i ==> !LabelledAt(text, marker, cls, k)
  }

  /** The longest run of class characters right after the marker at `i`. */
  function RunAfter(text: string, marker: string, cls: CharClass, i: nat): string
    requires i + |marker| <= |text|
  {
    text[i + |marker|..RunEnd(text, cls, i + |marker|)]
  }

  /** The pattern `marker(cls+)`. */
  function Field(marker: string, cls: CharClass): Pattern
  {
    [Lit(marker), Run(cls)]
  }

  lemma FieldMatchAt(text: string, marker: string, cls: CharClass, i: nat)
    requires i <= |text|
    ensures MatchAt(text, Field(marker, cls), i).Some? <==> LabelledAt(text, marker, cls, i)
    ensures LabelledAt(text, marker, cls, i) ==>
      MatchAt(text, Field(marker, cls), i).value.1 == [RunAfter(text, marker, cls, i)]
  {
    var pat := Field(marker, cls);
    assert pat[1..] == [Run(cls)];
    assert pat[1..][1..] == [];
    if OccursAt(text, marker, i) {
      var a := i + |marker|;
      assert MatchAt(text, pat, i) == MatchAt(text, pat[1..], a);
      var j := RunEnd(text, cls, a);
      if j > a {
        var q := pat[1..];
        assert q[0] == Run(cls);
        assert MatchAt(text, q[1..], j) == Some((j, []));
        assert [text[a..j]] + [] == [text[a..j]];
        assert MatchAt(text, q, a) == Some((j, [text[a..j]]));
      }
    }
  }

  lemma FieldMatchAll(text: string, marker: string, cls: CharClass)
    ensures forall i: nat :: i <= |text| ==>
      (MatchAt(text, Field(marker, cls), i).Some? <==> LabelledAt(text, marker, cls, i))
  {
    forall i: nat | i <= |text|
      ensures MatchAt(text, Field(marker, cls), i).Some? <==> LabelledAt(text, marker, cls, i)
    {
      FieldMatchAt(text, marker, cls, i);
    }
  }

  /**
   * `re.search(marker + "(cls+)", text).group(1)`; `None` where there is no
   * match and Python's `.group` call raises.
   */
  function Capture(text: string, marker: string, cls: CharClass): (r: Option<string>)
    ensures r.None? <==> forall i: nat :: !LabelledAt(text, marker, cls, i)
    ensures r.Some? ==> exists i: nat :: FirstLabelledAt(text, marker, cls, i) && r.value == RunAfter(text, marker, cls, i)
    ensures r.Some? ==> |r.value| > 0 && AllIn(cls, r.value)
  {
    FieldMatchAll(text, marker, cls);
    match Search(text, Field(marker, cls))
    case None => None
    case Some(f) =>
      FieldMatchAt(text, marker, cls, f.start);
      var v := RunAfter(text, marker, cls, f.start);
      assert InClass(cls, v[0]);
      Some(f.groups[0])
  }

  /** The capture is the run after the leftmost labelled position, wherever that is. */
  lemma CaptureFirst(text: string, marker: string, cls: CharClass, i: nat)
    requires FirstLabelledAt(text, marker, cls, i)
    ensures Capture(text, marker, cls) == Some(RunAfter(text, marker, cls, i))
  {
    var r := Capture(text, marker, cls);
    var j: nat :| FirstLabelledAt(text, marker, cls, j) && r.value == RunAfter(text, marker, cls, j);
  }

  /**
   * Reading back a value written after its marker: when the marker does not
   * occur earlier and the value is a run of class characters that the next
   * character does not continue, the capture is exactly the value.
   */
  lemma CaptureAfter(pre: string, marker: string, v: string, post: string, cls: CharClass)
    requires |v| > 0 && AllIn(cls, v)
    requires post == [] || !InClass(cls, post[0])
    requires forall k: nat :: k < |pre| ==> !OccursAt(pre + marker + v + post, marker, k)
    ensures Capture(pre + marker + v + post, marker, cls) == Some(v)
  {
    var text := pre + marker + v + post;
    var i := |pre|;
    var a := i + |marker|;
    assert text[i..a] == marker;
    assert text[a..a + |v|] == v;
    assert text[a] == v[0];
    assert LabelledAt(text, marker, cls, i);
    if a + |v| < |text| {
      assert text[a + |v|] == post[0];
    }
    RunEndAt(text, cls, a, a + |v|);
    CaptureFirst(text, marker, cls, i);
  }

  /** A capture stops at the first character outside its class: "N/A" is read as "N". */
  lemma NotAvailableReadAsN(pre: string, marker: string, post: string)
    requires forall k: nat :: k < |pre| ==> !OccursAt(pre + marker + "N/A" + post, marker, k)
    ensures Capture(pre + marker + "N/A" + post, marker, ScoreClass) == Some("N")
    ensures Capture(pre + marker + "N/A" + post, marker, LegacyScoreClass) == Some("N")
  {
    assert pre + marker + "N/A" + post == pre + marker + "N" + ("/A" + post);
    ClassMembers('N');
    ClassMembers('/');
    CaptureAfter(pre, marker, "N", "/A" + post, ScoreClass);
    CaptureAfter(pre, marker, "N", "/A" + post, LegacyScoreClass);
  }

  /** A model name is cut at its first '/': "meta-llama/llama-4" is read as "meta-llama". */
  lemma ModelNameStopsAtSlash()
    ensures Capture("Model: meta-llama/llama-4", "Model: ", ModelClass) == Some("meta-llama")
  {
    var v := "meta-llama";
    assert "Model: meta-llama/llama-4" == [] + "Model: " + v + "/llama-4";
    forall k | 0 <= k < |v|
      ensures InClass(ModelClass, v[k])
    {
      ClassMembers(v[k]);
    }
    ClassMembers('/');
    CaptureAfter([], "Model: ", v, "/llama-4", ModelClass);
  }

  /** The prompt type keeps the space that precedes the next " | " separator. */
  lemma PromptTypeKeepsTrailingSpace()
    ensures Capture("Prompt Type: Math | Prompt Length: 5 words", "Prompt Type: ", PromptTypeClass) == Some("Math ")
  {
    var v := "Math ";
    assert "Prompt Type: Math | Prompt Length: 5 words" == [] + "Prompt Type: " + v + "| Prompt Length: 5 words";
    forall k | 0 <= k < |v|
      ensures InClass(PromptTypeClass, v[k])
    {
      ClassMembers(v[k]);
    }
    ClassMembers('|');
    CaptureAfter([], "Prompt Type: ", v, "| Prompt Length: 5 words", PromptTypeClass);
  }

  /** The first-generation Flesch class has no '-': a negative score is not found, while the second-generation class takes it. */
  lemma NegativeFleschNotFound(pre: string, digits: string, post: string)
    requires forall k: nat :: k != |pre| ==> !OccursAt(pre + "Flesch Score: -" + digits + post, "Flesch Score: ", k)
    ensures Capture(pre + "Flesch Score: -" + digits + post, "Flesch Score: ", LegacyScoreClass).None?
    ensures Capture(pre + "Flesch Score: -" + digits + post, "Flesch Score: ", ScoreClass).Some?
  {
    var marker := "Flesch Score: ";
    var text := pre + "Flesch Score: -" + digits + post;
    assert text == pre + marker + "-" + digits + post;
    var i := |pre|;
    assert text[i..i + |marker|] == marker;
    assert text[i + |marker|] == '-';
    ClassMembers('-');
    assert LabelledAt(text, marker, ScoreClass, i);
    assert !LabelledAt(text, marker, LegacyScoreClass, i);
  }

  // ---------------------------------------------------------------- whole entries

  const ProviderLabel: string := "Provider: "
  const ModelLabel: string := "Model: "
  const PromptLabel: string := "Prompt: "
  const PromptTypeLabel: string := "Prompt Type: "
  const TokensLabel: string := "Tokens (Input/Output/Total): "
  const TimeLabel: string := "Response Time: "

  /** `Tokens \(Input/Output/Total\): (\d+)/(\d+)/(\d+)`. */
  const TokensPattern: Pattern :=
    [Lit(TokensLabel), Run(DigitClass), Lit("/"), Run(DigitClass), Lit("/"), Run(DigitClass)]

  /** `Response Time: ([\d\.]+)s`. */
  const TimePattern: Pattern := [Lit(TimeLabel), Run(TimeClass), Lit("s")]

  /** The markers of the ten second-generation scores, in the order the record lists them. */
  const ScoreLabels: seq<string> := [
    "Flesch Score: ", "SMOG Index: ", "Coleman-Liau Index: ", "Gunning Fog Index: ",
    "Automated Readability Index: ", "Dale-Chall: ", "FORCAST: ", "Linsear Write: ",
    "LIX: ", "RIX: "]

  /** The eight fields both generations read. */
  datatype Header = Header(
    provider: string, model: string, prompt: string, promptType: string,
    inputTokens: nat, outputTokens: nat, totalTokens: nat, responseTime: real)

  /** A second-generation record: the header and the ten captured score texts, in `ScoreLabels` order. */
  datatype Entry = Entry(header: Header, scores: seq<string>)

  /** A first-generation record: the header and the captured Flesch text. */
  datatype LegacyEntry = LegacyEntry(header: Header, flesch: string)

  lemma TokensPatternShape()
    ensures Groups(TokensPattern) == 3 && Separated(TokensPattern)
    ensures Groups(TimePattern) == 1 && Separated(TimePattern)
  {
    var p := TokensPattern;
    assert p[5..][1..] == [];
    assert Groups(p[5..]) == 1;
    assert p[4..][1..] == p[5..];
    assert Groups(p[4..]) == 1;
    assert p[3..][1..] == p[4..];
    assert Groups(p[3..]) == 2;
    assert p[2..][1..] == p[3..];
    assert Groups(p[2..]) == 2;
    assert p[1..][1..] == p[2..];
    assert Groups(p[1..]) == 3;
    ClassMembers('/');
    ClassMembers('s');
    forall n | 0 <= n < |p| - 1 && p[n].Run?
      ensures p[n + 1].Lit? && |p[n + 1].text| > 0 && !InClass(p[n].cls, p[n + 1].text[0])
    {
      assert n == 1 || n == 3;
    }
    var q := TimePattern;
    assert q[2..][1..] == [];
    assert Groups(q[2..]) == 0;
    assert q[1..][1..] == q[2..];
    assert Groups(q[1..]) == 1;
    forall n | 0 <= n < |q| - 1 && q[n].Run?
      ensures q[n + 1].Lit? && |q[n + 1].text| > 0 && !InClass(q[n].cls, q[n + 1].text[0])
    {
      assert n == 1;
    }
  }

  /** `map(int, re.findall(tokens pattern, text)[0])`: the first match's three numbers. */
  function ReadTokens(text: string): (r: Option<(nat, nat, nat)>)
    ensures r.Some? <==> Search(text, TokensPattern).Some?
    ensures r.Some? ==> var g := Search(text, TokensPattern).value.groups;
      && |g| == 3
      && ParseNat(g[0]) == Some(r.value.0) && ParseNat(g[1]) == Some(r.value.1) && ParseNat(g[2]) == Some(r.value.2)
  {
    TokensPatternShape();
    match Search(text, TokensPattern)
    case None => None
    case Some(f) =>
      var g := f.groups;
      match (ParseNat(g[0]), ParseNat(g[1]), ParseNat(g[2]))
      case (Some(a), Some(b), Some(c)) => Some((a, b, c))
      case _ => ReadTokensDigits(text, f); None
  }

  /** The three token groups are digit runs, so `int` never fails on them. */
  lemma ReadTokensDigits(text: string, f: Found)
    requires Search(text, TokensPattern) == Some(f)
    ensures |f.groups| == 3
    ensures ParseNat(f.groups[0]).Some? && ParseNat(f.groups[1]).Some? && ParseNat(f.groups[2]).Some?
  {
    TokensPatternShape();
    var p := TokensPattern;
    assert MatchAt(text, p, f.start) == Some((f.end, f.groups));
    forall n | 0 <= n < |p| && p[n].Run?
      ensures p[n].cls == DigitClass
    {
      assert n == 1 || n == 3 || n == 5;
    }
    MatchAtUniform(text, p, f.start, DigitClass);
    forall k | 0 <= k < 3
      ensures ParseNat(f.groups[k]).Some?
    {
      var g := f.groups[k];
      forall m | 0 <= m < |g|
        ensures IsDigit(g[m])
      {
        ClassMembers(g[m]);
      }
    }
  }

  /** A tokens line as the runner writes it is read back as the three counts it shows. */
  lemma TokensLineReadBack(a: nat, b: nat, c: nat)
    ensures ReadTokens(TokensLabel + NatToString(a) + "/" + NatToString(b) + "/" + NatToString(c)) == Some((a, b, c))
  {
    NatToStringRoundTrip(a);
    NatToStringRoundTrip(b);
    NatToStringRoundTrip(c);
    TokensTextRead(NatToString(a), NatToString(b), NatToString(c), a, b, c);
  }

  /** The label followed by three digit strings joined by '/' is read as the numbers they spell. */
  lemma TokensTextRead(x: string, y: string, z: string, a: nat, b: nat, c: nat)
    requires |x| > 0 && |y| > 0 && |z| > 0 && AllDigits(x) && AllDigits(y) && AllDigits(z)
    requires ParseNat(x) == Some(a) && ParseNat(y) == Some(b) && ParseNat(z) == Some(c)
    ensures ReadTokens(TokensLabel + x + "/" + y + "/" + z) == Some((a, b, c))
  {
    var i := |TokensLabel|;
    TokensLineLayout(TokensLabel, x, y, z);
    TokensLineRead(TokensLabel + x + "/" + y + "/" + z, i, i + |x|, i + |x| + 1 + |y|, a, b, c);
  }

  /** A line the tokens pattern finds is read as the numbers its three digit runs spell. */
  lemma TokensLineRead(s: string, i: nat, j1: nat, j2: nat, a: nat, b: nat, c: nat)
    requires i == |TokensLabel| && OccursAt(s, TokensLabel, 0)
    requires i < j1 && j1 + 1 < j2 && j2 + 1 < |s| && s[j1] == '/' && s[j2] == '/'
    requires RunEnd(s, DigitClass, i) == j1 && RunEnd(s, DigitClass, j1 + 1) == j2 && RunEnd(s, DigitClass, j2 + 1) == |s|
    requires ParseNat(s[i..j1]) == Some(a) && ParseNat(s[j1 + 1..j2]) == Some(b) && ParseNat(s[j2 + 1..]) == Some(c)
    ensures ReadTokens(s) == Some((a, b, c))
  {
    TokensLineFound(s, i, j1, j2);
  }

  /** The tokens pattern finds a line that starts with the label and continues with three slash-separated digit runs. */
  lemma TokensLineFound(s: string, i: nat, j1: nat, j2: nat)
    requires i == |TokensLabel| && OccursAt(s, TokensLabel, 0)
    requires i < j1 && j1 + 1 < j2 && j2 + 1 < |s| && s[j1] == '/' && s[j2] == '/'
    requires RunEnd(s, DigitClass, i) == j1 && RunEnd(s, DigitClass, j1 + 1) == j2 && RunEnd(s, DigitClass, j2 + 1) == |s|
    ensures Search(s, TokensPattern) == Some(Found(0, |s|, [s[i..j1], s[j1 + 1..j2], s[j2 + 1..]]))
  {
    var p := TokensPattern;
    assert OccursAt(s, "/", j1) && OccursAt(s, "/", j2);
    SeparatedRunsMatch(s, DigitClass, "/", i, j1, j2);
    assert p[1..] == [Run(DigitClass), Lit("/"), Run(DigitClass), Lit("/"), Run(DigitClass)];
    LitStep(s, TokensLabel, p, 0);
    assert MatchAt(s, p, 0) == Some((|s|, [s[i..j1], s[j1 + 1..j2], s[j2 + 1..]]));
  }

  /** Where the label, the three numbers and the two slashes of a tokens line sit. */
  lemma TokensLineLayout(pre: string, x: string, y: string, z: string)
    requires |x| > 0 && |y| > 0 && |z| > 0 && AllDigits(x) && AllDigits(y) && AllDigits(z)
    ensures var s := pre + x + "/" + y + "/" + z;
      var i := |pre|;
      var j1 := i + |x|;
      var j2 := j1 + 1 + |y|;
      && j2 + 1 < |s|
      && OccursAt(s, pre, 0)
      && s[i..j1] == x && s[j1 + 1..j2] == y && s[j2 + 1..] == z
      && s[j1] == '/' && s[j2] == '/'
      && RunEnd(s, DigitClass, i) == j1 && RunEnd(s, DigitClass, j1 + 1) == j2 && RunEnd(s, DigitClass, j2 + 1) == |s|
  {
    var s := pre + x + "/" + y + "/" + z;
    assert s == pre + x + ("/" + y + "/" + z);
    DigitRunAt(pre, x, "/" + y + "/" + z);
    assert s == pre + x + "/" + y + ("/" + z);
    DigitRunAt(pre + x + "/", y, "/" + z);
    assert s == pre + x + "/" + y + "/" + z + "";
    DigitRunAt(pre + x + "/" + y + "/", z, "");
  }

  /** Digits written after `pre` and followed by '/' or the end form the whole digit run there. */
  lemma DigitRunAt(pre: string, v: string, post: string)
    requires AllDigits(v)
    requires post == [] || post[0] == '/'
    ensures RunEnd(pre + v + post, DigitClass, |pre|) == |pre| + |v|
  {
    var s := pre + v + post;
    var i, j := |pre|, |pre| + |v|;
    assert s[i..j] == v;
    forall k | 0 <= k < |v|
      ensures InClass(DigitClass, s[i..j][k])
    {
      ClassMembers(s[i..j][k]);
    }
    if j < |s| {
      assert s[j] == post[0];
      ClassMembers(s[j]);
    }
    RunEndAt(s, DigitClass, i, j);
  }

  /** `float(re.search(time pattern, text).group(1))`; `None` when there is no match or `float` raises. */
  function ReadTime(text: string): (r: Option<real>)
    ensures r.Some? ==> Search(text, TimePattern).Some?
  {
    TokensPatternShape();
    match Search(text, TimePattern)
    case None => None
    case Some(f) => ParseFloat(f.groups[0])
  }

  /** The eight shared fields, or `None` when any is missing. */
  function ReadHeader(piece: string): (r: Option<Header>)
    ensures r.Some? ==>
      && Capture(piece, ProviderLabel, WordClass) == Some(r.value.provider)
      && Capture(piece, ModelLabel, ModelClass) == Some(r.value.model)
      && Capture(piece, PromptLabel, PromptClass) == Some(r.value.prompt)
      && Capture(piece, PromptTypeLabel, PromptTypeClass) == Some(r.value.promptType)
      && ReadTokens(piece) == Some((r.value.inputTokens, r.value.outputTokens, r.value.totalTokens))
      && ReadTime(piece) == Some(r.value.responseTime)
    ensures r.None? ==>
      || Capture(piece, ProviderLabel, WordClass).None?
      || Capture(piece, ModelLabel, ModelClass).None?
      || Capture(piece, PromptLabel, PromptClass).None?
      || Capture(piece, PromptTypeLabel, PromptTypeClass).None?
      || ReadTokens(piece).None?
      || ReadTime(piece).None?
  {
    match (Capture(piece, ProviderLabel, WordClass), Capture(piece, ModelLabel, ModelClass),
           Capture(piece, PromptLabel, PromptClass), Capture(piece, PromptTypeLabel, PromptTypeClass),
           ReadTokens(piece), ReadTime(piece))
    case (Some(provider), Some(model), Some(prompt), Some(promptType), Some((i, o, t)), Some(time)) =>
      Some(Header(provider, model, prompt, promptType, i, o, t, time))
    case _ => None
  }

  /** The score captures for `markers`, or `None` when any marker is missing. */
  function CaptureAll(piece: string, markers: seq<string>, cls: CharClass): (r: Option<seq<string>>)
    ensures r.Some? ==> |r.value| == |markers|
    ensures r.Some? ==> forall k :: 0 <= k < |markers| ==> Capture(piece, markers[k], cls) == Some(r.value[k])
    ensures r.None? ==> exists k :: 0 <= k < |markers| && Capture(piece, markers[k], cls).None?
  {
    if |markers| == 0 then Some([])
    else match (Capture(piece, markers[0], cls), CaptureAll(piece, markers[1..], cls))
      case (Some(v), Some(vs)) =>
        assert forall k :: 1 <= k < |markers| ==> markers[k] == markers[1..][k - 1];
        Some([v] + vs)
      case (None, _) => None
      case (_, None) =>
        var k :| 0 <= k < |markers[1..]| && Capture(piece, markers[1..][k], cls).None?;
        assert markers[1..][k] == markers[k + 1];
        None
  }

  /** One second-generation log piece: a record when all sixteen patterns match and the conversions succeed. */
  function ParseEntry(piece: string): (r: Option<Entry>)
    ensures r.Some? <==> ReadHeader(piece).Some? && CaptureAll(piece, ScoreLabels, ScoreClass).Some?
    ensures r.Some? ==> |r.value.scores| == |ScoreLabels|
  {
    match (ReadHeader(piece), CaptureAll(piece, ScoreLabels, ScoreClass))
    case (Some(h), Some(scores)) => Some(Entry(h, scores))
    case _ => None
  }

  /** One first-generation log piece: the shared fields and the Flesch score. */
  function ParseLegacyEntry(piece: string): (r: Option<LegacyEntry>)
    ensures r.Some? <==> ReadHeader(piece).Some? && Capture(piece, ScoreLabels[0], LegacyScoreClass).Some?
  {
    match (ReadHeader(piece), Capture(piece, ScoreLabels[0], LegacyScoreClass))
    case (Some(h), Some(f)) => Some(LegacyEntry(h, f))
    case _ => None
  }

  /** A captured word run has no ':'. */
  lemma WordRunHasNoColon(v: string)
    requires AllIn(WordClass, v)
    ensures ':' !in v
  {
    ClassMembers(':');
  }

  /** The provider name is a run of word characters, so it has no ':'. */
  lemma ProviderHasNoColon(piece: string, h: Header)
    requires ReadHeader(piece) == Some(h)
    ensures ':' !in h.provider
  {
    var c := Capture(piece, ProviderLabel, WordClass);
    assert c == Some(h.provider);
    WordRunHasNoColon(c.value);
  }

  const MissingLog: string := "Log file not found. Ensure comparison ran successfully."

  /**
   * `extract_log_metrics` of the second generation. The log's content is an
   * input, `None` when the file does not exist.
   */
  function ExtractLogMetrics(log: Option<string>): (r: Result<seq<Entry>>)
    ensures r.Err? <==> log.None?
    ensures r.Err? ==> r.error == FileNotFoundError(MissingLog)
    ensures r.Ok? ==> |r.value| <= |Split(log.value, Delimiter)|
    ensures r.Ok? ==> (|r.value| == |Split(log.value, Delimiter)| <==>
      forall k :: 0 <= k < |Split(log.value, Delimiter)| ==> ParseEntry(Split(log.value, Delimiter)[k]).Some?)
    ensures r.Ok? ==> exists js :: PicksAt(ParseEntry, Split(log.value, Delimiter), r.value, js)
  {
    match log
    case None => Err(FileNotFoundError(MissingLog))
    case Some(content) =>
      FilterMapPicks(ParseEntry, Split(content, Delimiter));
      Ok(FilterMap(ParseEntry, Split(content, Delimiter)))
  }

  /** `extract_log_metrics` of the first generation: the same split and skip policy over seven fields. */
  function ExtractLegacyLogMetrics(log: Option<string>): (r: Result<seq<LegacyEntry>>)
    ensures r.Err? <==> log.None?
    ensures r.Err? ==> r.error == FileNotFoundError(MissingLog)
    ensures r.Ok? ==> |r.value| <= |Split(log.value, Delimiter)|
    ensures r.Ok? ==> (|r.value| == |Split(log.value, Delimiter)| <==>
      forall k :: 0 <= k < |Split(log.value, Delimiter)| ==> ParseLegacyEntry(Split(log.value, Delimiter)[k]).Some?)
    ensures r.Ok? ==> exists js :: PicksAt(ParseLegacyEntry, Split(log.value, Delimiter), r.value, js)
  {
    match log
    case None => Err(FileNotFoundError(MissingLog))
    case Some(content) =>
      FilterMapPicks(ParseLegacyEntry, Split(content, Delimiter));
      Ok(FilterMap(ParseLegacyEntry, Split(content, Delimiter)))
  }

  /** Records come out in the order of their pieces: those of earlier pieces first. */
  lemma EntriesInPieceOrder(pieces: seq<string>, more: seq<string>)
    ensures FilterMap(ParseEntry, pieces + more) == FilterMap(ParseEntry, pieces) + FilterMap(ParseEntry, more)
    ensures FilterMap(ParseLegacyEntry, pieces + more) == FilterMap(ParseLegacyEntry, pieces) + FilterMap(ParseLegacyEntry, more)
  {
    FilterMapAppend(ParseEntry, pieces, more);
    FilterMapAppend(ParseLegacyEntry, pieces, more);
  }
}
