/**
 * The pure parts of the Flask front end of `LLM_Labs_V1`: reading the model
 * names out of `ollama list` output, building the named prompt templates a
 * request selects, the comparative evaluation loop with its summary, and
 * the per-result preview of the report route.
 */
module WebApp {
  import opened Base
  import opened Strings
  import opened Seqs
  import opened Numerals
  import opened Dicts
  import opened Llm
  import opened Trials

  // ---------------------------------------------------------------- ollama list

  /** A line that is not all whitespace. */
  predicate Filled(line: string)
  {
    !AllSpace(line)
  }

  /** The first whitespace-separated word of a line, "" for a blank one. */
  function FirstWord(line: string): string
  {
    var parts := Words(line);
    if |parts| > 0 then parts[0] else ""
  }

  /**
   * The model name one line contributes: nothing for a blank line, else
   * the line's first word. The source's second guard (`if parts`) cannot
   * fail once the stripped line is non-empty.
   */
  function ModelName(line: string): (r: Option<string>)
    ensures r.Some? <==> Filled(line)
    ensures r.Some? ==> |r.value| > 0 && NoSpace(r.value)
  {
    if Strip(line) == "" then None
    else
      WordsEmptyIff(line);
      Some(Words(line)[0])
  }

  /** The model names of the lines after the header, in line order. */
  function Names(lines: seq<string>): (names: seq<string>)
    ensures |names| == Count(Filled, lines)
    ensures forall k :: 0 <= k < |names| ==> |names[k]| > 0 && NoSpace(names[k])
  {
    if |lines| == 0 then []
    else
      var rest := Names(lines[1..]);
      match ModelName(lines[0])
      case Some(n) => [n] + rest
      case None => rest
  }

  /** The lines of the stripped output after its first (header) line. */
  function ListingBody(stdout: string): seq<string>
  {
    Split(Strip(stdout), "\n")[1..]
  }

  /** The `parsed_models` of `get_ollama_models`. */
  function ParseOllamaList(stdout: string): (names: seq<string>)
    ensures |names| == Count(Filled, ListingBody(stdout)) <= |ListingBody(stdout)|
    ensures forall k :: 0 <= k < |names| ==> |names[k]| > 0 && NoSpace(names[k])
  {
    Names(ListingBody(stdout))
  }

  /** The names are the first words of the non-blank lines, in order, and nothing else. */
  lemma NamesAreFirstWords(lines: seq<string>)
    ensures Names(lines) == Map(FirstWord, Filter(Filled, lines))
  {
    NamesAreModelNames(lines);
    forall line | true
      ensures ModelName(line) == if Filled(line) then Some(FirstWord(line)) else None
    {
      ModelNameIsFirstWord(line);
    }
    FilterMapOfFilter(ModelName, Filled, FirstWord, lines);
  }

  lemma {:induction false} NamesAreModelNames(lines: seq<string>)
    ensures Names(lines) == FilterMap(ModelName, lines)
  {
    if |lines| > 0 {
      NamesAreModelNames(lines[1..]);
    }
  }

  /** A line's name is its first word exactly when the line is not blank. */
  lemma ModelNameIsFirstWord(line: string)
    ensures ModelName(line) == if Filled(line) then Some(FirstWord(line)) else None
  {
    WordsEmptyIff(line);
  }

  /** Output that is only a header line, or only whitespace, lists no model. */
  lemma HeaderOnlyListsNothing(stdout: string)
    requires !Contains(Strip(stdout), "\n")
    ensures ParseOllamaList(stdout) == []
  {
    assert Split(Strip(stdout), "\n") == [Strip(stdout)];
  }

  /** The route's answer: with no names, a message and no count; otherwise the names and their number. */
  datatype OllamaModels =
    | NoModels(raw: string)
    | Listed(raw: string, names: seq<string>, count: nat)

  function OllamaModelsReply(stdout: string): (r: OllamaModels)
    ensures r.raw == stdout
    ensures r.NoModels? <==> forall i :: 0 <= i < |ListingBody(stdout)| ==> !Filled(ListingBody(stdout)[i])
    ensures r.Listed? ==> r.count == |r.names| > 0 && r.names == Map(FirstWord, Filter(Filled, ListingBody(stdout)))
  {
    var names := ParseOllamaList(stdout);
    NamesAreFirstWords(ListingBody(stdout));
    CountZeroIff(ListingBody(stdout));
    if |names| == 0 then NoModels(stdout) else Listed(stdout, names, |names|)
  }

  lemma {:induction false} CountZeroIff(lines: seq<string>)
    ensures Count(Filled, lines) == 0 <==> forall i :: 0 <= i < |lines| ==> !Filled(lines[i])
  {
    if |lines| > 0 {
      CountZeroIff(lines[1..]);
      assert forall i :: 1 <= i < |lines| ==> lines[i] == lines[1..][i - 1];
    }
  }

  // ---------------------------------------------------------------- prompt templates

  /** A template's settings from the request; only the persona template reads them. */
  datatype TemplateConfig = TemplateConfig(role: Option<string>, tone: Option<string>, style: Option<string>)

  /** The texts the prompt functions return: by function name, and the persona template by its three settings. */
  datatype PromptLibrary = PromptLibrary(fixed: string -> string, persona: (string, string, string) -> string)

  /** `config.get(key, default)`. */
  function OrDefault(v: Option<string>, default: string): string
  {
    match v
    case Some(s) => s
    case None => default
  }

  const PersonaId: string := "9"

  /** The ids "1" to "8" and the functions they select. */
  const TemplateFunctions: Dict<string> := [
    ("1", "zero_shot_prompt"), ("2", "one_shot_prompt"), ("3", "few_shot_prompt"),
    ("4", "chain_of_thought_prompt"), ("5", "react_prompt"), ("6", "self_ask_prompt"),
    ("7", "tree_of_thought_prompt"), ("8", "instruction_constraints_prompt")]

  const TemplateIds: seq<string> := ["1", "2", "3", "4", "5", "6", "7", "8", "9"]

  lemma TemplateFunctionIds()
    ensures Keys(TemplateFunctions) == TemplateIds[..8]
  {
  }

  /** The persona template's name, each setting defaulted as the route does. */
  function PersonaName(c: TemplateConfig): string
  {
    "persona_" + OrDefault(c.role, "assistant") + "_" + OrDefault(c.tone, "professional")
      + "_" + OrDefault(c.style, "clear and concise")
  }

  /** A prompt function's display name: "_prompt" dropped, underscores to spaces, title case. */
  function DisplayName(fn: string): string
  {
    Title(Replace(Replace(fn, "_prompt", ""), "_", " "))
  }

  /** The name a configured template is stored under, none for an unknown id. */
  function TemplateName(entry: (string, TemplateConfig)): (r: Option<string>)
    ensures r.None? <==> entry.0 !in TemplateIds
  {
    TemplateFunctionIds();
    if entry.0 == PersonaId then Some(PersonaName(entry.1))
    else
      match Get(TemplateFunctions, entry.0)
      case None => None
      case Some(fn) => Some(DisplayName(fn))
  }

  /** One configured template: its name and text, or the KeyError an unknown id raises. */
  function Template(lib: PromptLibrary, entry: (string, TemplateConfig)): (r: Result<(string, string)>)
    ensures r.Err? <==> entry.0 !in TemplateIds
    ensures r.Err? ==> r.error == KeyError(entry.0)
    ensures r.Ok? ==> Some(r.value.0) == TemplateName(entry)
  {
    var (id, c) := entry;
    if id == PersonaId then
      var role, tone, style := OrDefault(c.role, "assistant"), OrDefault(c.tone, "professional"), OrDefault(c.style, "clear and concise");
      Ok((PersonaName(c), lib.persona(role, tone, style)))
    else
      match Get(TemplateFunctions, id)
      case None => Err(KeyError(id))
      case Some(fn) => Ok((DisplayName(fn), lib.fixed(fn)))
  }

  predicate Unknown(entry: (string, TemplateConfig))
  {
    entry.0 !in TemplateIds
  }

  /** The position of the first entry with an unknown id, `|configs|` when there is none. */
  function FirstUnknown(configs: Dict<TemplateConfig>): (i: nat)
    ensures i <= |configs|
    ensures forall j :: 0 <= j < i ==> !Unknown(configs[j])
    ensures i < |configs| ==> Unknown(configs[i])
  {
    if |configs| == 0 then 0
    else if Unknown(configs[0]) then 0
    else
      var rest := FirstUnknown(configs[1..]);
      assert forall j :: 1 <= j <= rest ==> configs[j] == configs[1..][j - 1];
      1 + rest
  }

  /**
   * The template dictionary of a request, entries written in request order;
   * the first unknown id aborts with its KeyError.
   */
  function BuildTemplates(lib: PromptLibrary, configs: Dict<TemplateConfig>): Result<Dict<string>>
  {
    if |configs| == 0 then Ok([])
    else
      var init := configs[..|configs| - 1];
      match BuildTemplates(lib, init)
      case Err(e) => Err(e)
      case Ok(d) =>
        match Template(lib, configs[|configs| - 1])
        case Err(e) => Err(e)
        case Ok(named) => Ok(Put(d, named.0, named.1))
  }

  lemma FirstUnknownSnoc(configs: Dict<TemplateConfig>)
    requires |configs| > 0
    ensures var init := configs[..|configs| - 1];
      && (FirstUnknown(init) < |init| ==> FirstUnknown(configs) == FirstUnknown(init))
      && (FirstUnknown(init) == |init| ==>
            FirstUnknown(configs) == (if Unknown(configs[|init|]) then |init| else |configs|))
  {
    var init := configs[..|configs| - 1];
    assert forall j :: 0 <= j < |init| ==> init[j] == configs[j];
  }

  /** A build fails exactly when some id is unknown, and then with the KeyError of the first such id. */
  lemma {:induction false} BuildTemplatesError(lib: PromptLibrary, configs: Dict<TemplateConfig>)
    ensures BuildTemplates(lib, configs).Err? <==> FirstUnknown(configs) < |configs|
    ensures BuildTemplates(lib, configs).Err? ==> BuildTemplates(lib, configs).error == KeyError(configs[FirstUnknown(configs)].0)
  {
    if |configs| > 0 {
      var init := configs[..|configs| - 1];
      var last := configs[|configs| - 1];
      BuildTemplatesError(lib, init);
      FirstUnknownSnoc(configs);
      var b := BuildTemplates(lib, init);
      if b.Err? {
        assert init[FirstUnknown(init)] == configs[FirstUnknown(init)];
        assert BuildTemplates(lib, configs) == b;
      } else {
        var t := Template(lib, last);
        assert BuildTemplates(lib, configs).Err? <==> t.Err?;
      }
    }
  }

  lemma SomeUnknownIff(configs: Dict<TemplateConfig>)
    ensures FirstUnknown(configs) < |configs| <==> exists i :: 0 <= i < |configs| && Unknown(configs[i])
  {
  }

  /** A successful build stores one template per distinct name, in the order the names first appear. */
  lemma {:induction false} BuildTemplatesKeys(lib: PromptLibrary, configs: Dict<TemplateConfig>)
    requires BuildTemplates(lib, configs).Ok?
    ensures Keys(BuildTemplates(lib, configs).value) == Dedup(FilterMap(TemplateName, configs))
  {
    if |configs| > 0 {
      var init := configs[..|configs| - 1];
      var last := configs[|configs| - 1];
      BuildTemplatesKeys(lib, init);
      var d := BuildTemplates(lib, init).value;
      var named := Template(lib, last).value;
      PutKeys(d, named.0, named.1);
      FilterMapSnoc(TemplateName, configs);
      assert FilterMap(TemplateName, [last]) == [named.0];
      var ns := FilterMap(TemplateName, configs);
      assert ns[..|ns| - 1] == FilterMap(TemplateName, init);
    }
  }

  lemma DropPromptSuffix()
    ensures Replace("self_ask_prompt", "_prompt", "") == "self_ask"
  {
    var s := "self_ask_prompt";
    assert OccursAt(s, "_prompt", 8);
    forall j | 0 <= j < 8
      ensures !OccursAt(s, "_prompt", j)
    {
      assert s[j..j + 7][0] == s[j] && s[j..j + 7][1] == s[j + 1];
    }
    assert IndexFrom(s, "_prompt", 0) == Some(8);
    assert s[..8] == "self_ask";
    assert s[15..] == "";
    assert Split("", "_prompt") == [""];
    assert Split(s, "_prompt") == ["self_ask", ""];
  }

  lemma UnderscoreToSpace()
    ensures Replace("self_ask", "_", " ") == "self ask"
  {
    var t := "self_ask";
    assert OccursAt(t, "_", 4);
    forall j | 0 <= j < 4
      ensures !OccursAt(t, "_", j)
    {
      assert t[j..j + 1][0] == t[j];
    }
    assert IndexFrom(t, "_", 0) == Some(4);
    assert t[5..] == "ask";
    forall j: nat
      ensures !OccursAt("ask", "_", j)
    {
      if j < 3 {
        assert "ask"[j..j + 1][0] == "ask"[j];
      }
    }
    assert IndexFrom("ask", "_", 0) == None;
    assert Split("ask", "_") == ["ask"];
    assert t[..4] == "self";
    assert Split(t, "_") == ["self", "ask"];
  }

  lemma TitleExample()
    ensures Title("self ask") == "Self Ask"
  {
    var s := "self ask";
    assert s[1..] == "elf ask" && s[1..][1..] == "lf ask" && s[1..][1..][1..] == "f ask";
    assert "f ask"[1..] == " ask" && " ask"[1..] == "ask" && "ask"[1..] == "sk";
    assert "sk"[1..] == "k" && "k"[1..] == "";
    assert TitleFrom("k", true) == "k";
    assert TitleFrom("sk", true) == "sk";
    assert TitleFrom("ask", false) == "Ask";
    assert TitleFrom(" ask", true) == " Ask";
    assert TitleFrom("f ask", true) == "f Ask";
    assert TitleFrom("lf ask", true) == "lf Ask";
    assert TitleFrom("elf ask", true) == "elf Ask";
  }

  /** The display name of `self_ask_prompt`. */
  lemma DisplayExample()
    ensures DisplayName("self_ask_prompt") == "Self Ask"
  {
    DropPromptSuffix();
    UnderscoreToSpace();
    TitleExample();
  }

  /** With no settings the persona template is named after the three defaults. */
  lemma PersonaDefaults()
    ensures PersonaName(TemplateConfig(None, None, None)) == "persona_assistant_professional_clear and concise"
  {
  }

  // ---------------------------------------------------------------- the evaluation loop

  /** The services one test calls: the three providers and the clock. */
  datatype Services = Services(groq: Oracle, gemini: Oracle, ollama: Oracle, elapsed: Trial -> real)

  /** The provider dispatch; an unknown provider is answered, not raised. */
  function Respond(svc: Services, t: Trial, userInput: string): (r: Result<string>)
    ensures t.provider == "groq" ==> r == Query(svc.groq, t.model, t.prompt, userInput)
    ensures t.provider == "gemini" ==> r == Query(svc.gemini, t.model, t.prompt, userInput)
    ensures t.provider == "ollama" ==> r == Query(svc.ollama, t.model, t.prompt, userInput)
    ensures t.provider !in ["groq", "gemini", "ollama"] ==> r == Ok("Unsupported provider: " + t.provider)
  {
    if t.provider == "groq" then Query(svc.groq, t.model, t.prompt, userInput)
    else if t.provider == "gemini" then Query(svc.gemini, t.model, t.prompt, userInput)
    else if t.provider == "ollama" then Query(svc.ollama, t.model, t.prompt, userInput)
    else Ok("Unsupported provider: " + t.provider)
  }

  /** One entry of `detailed_results`: the response on success, the exception on failure. */
  datatype Detail = Detail(
    provider: string, model: string, strategy: string, question: string,
    reply: Result<string>, responseTime: real)

  predicate Succeeded(d: Detail)
  {
    d.reply.Ok?
  }

  /** One test: the reply and the elapsed time rounded to two places, whether or not the call failed. */
  function RunTest(svc: Services, userInput: string, t: Trial): Detail
  {
    Detail(t.provider, t.model, t.promptName, userInput, Respond(svc, t, userInput), Round2(svc.elapsed(t)))
  }

  /** The entries of all tests, one per trial, in trial order. */
  function RunTests(svc: Services, userInput: string, trials: seq<Trial>): (ds: seq<Detail>)
    ensures |ds| == |trials|
    ensures forall i :: 0 <= i < |ds| ==>
      && ds[i].provider == trials[i].provider && ds[i].model == trials[i].model
      && ds[i].strategy == trials[i].promptName && ds[i].question == userInput
      && (Succeeded(ds[i]) <==> Respond(svc, trials[i], userInput).Ok?)
  {
    Map((t: Trial) => RunTest(svc, userInput, t), trials)
  }

  /** A test with an unknown provider counts as a success. */
  lemma UnsupportedSucceeds(svc: Services, userInput: string, t: Trial)
    requires t.provider !in ["groq", "gemini", "ollama"]
    ensures Succeeded(RunTest(svc, userInput, t))
    ensures RunTest(svc, userInput, t).reply.value == "Unsupported provider: " + t.provider
  {
  }

  /** A successful test's time, 0 for a failed one. */
  function CountedTime(d: Detail): real
  {
    if Succeeded(d) then d.responseTime else 0.0
  }

  /** `total_time`: the times of the successful tests only. */
  function TotalTime(ds: seq<Detail>): real
  {
    Sum(Map(CountedTime, ds))
  }

  /** `avg_response_time`: total time over all tests, failed ones included, rounded to two places; 0 with no tests. */
  function AverageTime(ds: seq<Detail>): (avg: real)
    ensures |ds| == 0 ==> avg == 0.0
    ensures |ds| > 0 ==> -0.005 <= avg - TotalTime(ds) / |ds| as real <= 0.005
  {
    if |ds| > 0 then Round2(TotalTime(ds) / |ds| as real) else 0.0
  }

  lemma {:induction false} NoSuccessNoTime(ds: seq<Detail>)
    requires Count(Succeeded, ds) == 0
    ensures TotalTime(ds) == 0.0
  {
    if |ds| > 0 {
      NoSuccessNoTime(ds[1..]);
      assert Map(CountedTime, ds) == [CountedTime(ds[0])] + Map(CountedTime, ds[1..]);
    }
  }

  /** When every test fails the average is 0. */
  lemma AllFailedAverageZero(ds: seq<Detail>)
    requires Count(Succeeded, ds) == 0
    ensures AverageTime(ds) == 0.0
  {
    NoSuccessNoTime(ds);
    if |ds| > 0 {
      assert 0.0 / |ds| as real == 0 as real / 100.0;
      Round2Exact(0);
    }
  }

  lemma {:induction false} UniformTime(ds: seq<Detail>, time: real)
    requires forall i :: 0 <= i < |ds| ==> Succeeded(ds[i]) && ds[i].responseTime == time
    ensures TotalTime(ds) == |ds| as real * time
  {
    if |ds| > 0 {
      UniformTime(ds[1..], time);
      assert Map(CountedTime, ds) == [CountedTime(ds[0])] + Map(CountedTime, ds[1..]);
    }
  }

  /** When every test succeeds in the same rounded time, the average is that time. */
  lemma UniformAverage(ds: seq<Detail>, x: real)
    requires |ds| > 0
    requires forall i :: 0 <= i < |ds| ==> Succeeded(ds[i]) && ds[i].responseTime == Round2(x)
    ensures AverageTime(ds) == Round2(x)
  {
    UniformTime(ds, Round2(x));
    assert TotalTime(ds) / |ds| as real == Round2(x);
    Round2Idempotent(x);
  }

  // ---------------------------------------------------------------- best performer

  /** "provider-model" of an entry. */
  function Performer(d: Detail): string
  {
    d.provider + "-" + d.model
  }

  lemma PerformerIsNotNone(d: Detail)
    ensures Performer(d) != "None"
  {
    var p := Performer(d);
    assert p[|d.provider|] == '-';
  }

  /** Entry `b` is the first of those among the first `n` with the least time among the successful ones. */
  predicate FastestAmong(ds: seq<Detail>, n: nat, b: nat)
    requires n <= |ds|
  {
    && b < n && Succeeded(ds[b])
    && (forall j :: 0 <= j < n && Succeeded(ds[j]) ==> ds[b].responseTime <= ds[j].responseTime)
    && (forall j :: 0 <= j < b && Succeeded(ds[j]) ==> ds[j].responseTime > ds[b].responseTime)
  }

  /**
   * `best_performer`: "None" without a successful test, otherwise the
   * performer of the first successful entry with the least time, which is
   * what `min` with a key returns.
   */
  method BestPerformer(ds: seq<Detail>) returns (best: string)
    ensures best == "None" <==> forall j :: 0 <= j < |ds| ==> !Succeeded(ds[j])
    ensures best != "None" ==> exists b :: 0 <= b < |ds| && FastestAmong(ds, |ds|, b) && best == Performer(ds[b])
  {
    var found := false;
    var b := 0;
    var i := 0;
    while i < |ds|
      invariant 0 <= i <= |ds|
      invariant found <==> exists j :: 0 <= j < i && Succeeded(ds[j])
      invariant found ==> FastestAmong(ds, i, b)
    {
      if Succeeded(ds[i]) && (!found || ds[i].responseTime < ds[b].responseTime) {
        found := true;
        b := i;
      }
      i := i + 1;
    }
    if found {
      best := Performer(ds[b]);
      PerformerIsNotNone(ds[b]);
    } else {
      best := "None";
    }
  }

  // ---------------------------------------------------------------- the route

  datatype Summary = Summary(totalTests: nat, successfulTests: nat, avgResponseTime: real, bestPerformer: string)

  datatype Evaluation = Evaluation(details: seq<Detail>, summary: Summary)

  /**
   * `comparative_evaluation`: build the templates, run one test per
   * provider, model and template, and summarise; an unknown template id
   * fails the whole request with its error.
   */
  method ComparativeEvaluation(svc: Services, lib: PromptLibrary, providers: Dict<seq<string>>,
                               configs: Dict<TemplateConfig>, userInput: string) returns (r: Result<Evaluation>)
    ensures r.Err? <==> exists i :: 0 <= i < |configs| && Unknown(configs[i])
    ensures r.Err? ==> FirstUnknown(configs) < |configs| && r.error == KeyError(configs[FirstUnknown(configs)].0)
    ensures r.Ok? ==> BuildTemplates(lib, configs).Ok?
    ensures r.Ok? && BuildTemplates(lib, configs).Ok? ==>
      var templates := BuildTemplates(lib, configs).value;
      var trials := AllTrials(providers, templates);
      && r.value.details == RunTests(svc, userInput, trials)
      && r.value.summary.totalTests == |r.value.details| == ModelCount(providers) * |templates|
      && r.value.summary.successfulTests == Count(Succeeded, r.value.details) <= r.value.summary.totalTests
      && r.value.summary.avgResponseTime == AverageTime(r.value.details)
      && (r.value.summary.bestPerformer == "None" <==>
          forall j :: 0 <= j < |r.value.details| ==> !Succeeded(r.value.details[j]))
      && (r.value.summary.bestPerformer != "None" ==>
          exists b :: 0 <= b < |r.value.details| && FastestAmong(r.value.details, |r.value.details|, b)
            && r.value.summary.bestPerformer == Performer(r.value.details[b]))
  {
    BuildTemplatesError(lib, configs);
    SomeUnknownIff(configs);
    match BuildTemplates(lib, configs)
    case Err(e) =>
      r := Err(e);
    case Ok(templates) =>
      var trials := AllTrials(providers, templates);
      TrialCount(providers, templates);
      var details := RunTests(svc, userInput, trials);
      var best := BestPerformer(details);
      var summary := Summary(|details|, Count(Succeeded, details), AverageTime(details), best);
      r := Ok(Evaluation(details, summary));
  }

  // ---------------------------------------------------------------- report preview

  /** The text an entry shows: its response, or its error. */
  function ShownText(d: Detail): string
  {
    match d.reply
    case Ok(response) => response
    case Err(e) => e.Text()
  }

  function Status(d: Detail): string
  {
    if Succeeded(d) then "✓ SUCCESS" else "✗ FAILED"
  }

  /** At most 200 characters of the shown text, then "...". */
  function Preview(d: Detail): (p: string)
    ensures |p| <= 203 && |p| >= 3 && p[|p| - 3..] == "..."
    ensures p[..|p| - 3] <= ShownText(d)
    ensures |ShownText(d)| <= 200 <==> p == ShownText(d) + "..."
    ensures |p| == (if |ShownText(d)| < 200 then |ShownText(d)| else 200) + 3
  {
    var shown := Take(ShownText(d), 200);
    shown + "..."
  }
}
