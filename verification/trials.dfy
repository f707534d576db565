/**
 * The triple loop every comparison runner shares: for each provider, for
 * each of its models, for each named prompt, one trial. The command-line
 * runners write one result per trial into a dictionary under the key
 * `f"{provider}_{model}_{prompt_name}"`; that key is not injective, so a
 * later trial can overwrite an earlier one.
 */
module Trials {
  import opened Base
  import opened Seqs
  import opened Dicts

  /** One (provider, model, named prompt) combination. */
  datatype Trial = Trial(provider: string, model: string, promptName: string, prompt: string)

  /** The trials of one model: one per prompt, in prompt order. */
  function ModelTrials(provider: string, model: string, prompts: Dict<string>): (ts: seq<Trial>)
    ensures |ts| == |prompts|
    ensures forall n :: 0 <= n < |ts| ==> ts[n] == Trial(provider, model, prompts[n].0, prompts[n].1)
  {
    seq(|prompts|, n requires 0 <= n < |prompts| => Trial(provider, model, prompts[n].0, prompts[n].1))
  }

  /** The trials of one provider: model by model. */
  function ProviderTrials(provider: string, models: seq<string>, prompts: Dict<string>): seq<Trial>
  {
    if |models| == 0 then [] else ModelTrials(provider, models[0], prompts) + ProviderTrials(provider, models[1..], prompts)
  }

  /** All trials: provider by provider, in the order the dictionaries list them. */
  function AllTrials(providers: Dict<seq<string>>, prompts: Dict<string>): seq<Trial>
  {
    if |providers| == 0 then []
    else ProviderTrials(providers[0].0, providers[0].1, prompts) + AllTrials(providers[1..], prompts)
  }

  /** The number of models over all providers. */
  function ModelCount(providers: Dict<seq<string>>): nat
  {
    if |providers| == 0 then 0 else |providers[0].1| + ModelCount(providers[1..])
  }

  lemma {:induction false} ProviderTrialsLength(provider: string, models: seq<string>, prompts: Dict<string>)
    ensures |ProviderTrials(provider, models, prompts)| == |models| * |prompts|
  {
    if |models| > 0 {
      ProviderTrialsLength(provider, models[1..], prompts);
      MulSucc(|models| - 1, |prompts|);
    }
  }

  /** There is one trial per model and prompt: N·M·K when every provider has M models. */
  lemma {:induction false} TrialCount(providers: Dict<seq<string>>, prompts: Dict<string>)
    ensures |AllTrials(providers, prompts)| == ModelCount(providers) * |prompts|
  {
    if |providers| > 0 {
      TrialCount(providers[1..], prompts);
      ProviderTrialsLength(providers[0].0, providers[0].1, prompts);
      MulAdd(|providers[0].1|, ModelCount(providers[1..]), |prompts|);
    }
  }

  /** A trial runs for a model exactly when that model is listed with a prompt. */
  lemma {:induction false} ProviderTrialsMembers(provider: string, models: seq<string>, prompts: Dict<string>, t: Trial)
    ensures t in ProviderTrials(provider, models, prompts) <==>
      t.provider == provider && t.model in models && (t.promptName, t.prompt) in prompts
  {
    if |models| > 0 {
      ProviderTrialsMembers(provider, models[1..], prompts, t);
      var here := ModelTrials(provider, models[0], prompts);
      if t in here {
        var n :| 0 <= n < |here| && here[n] == t;
        assert prompts[n] == (t.promptName, t.prompt);
      }
      if t.provider == provider && t.model == models[0] && (t.promptName, t.prompt) in prompts {
        var n :| 0 <= n < |prompts| && prompts[n] == (t.promptName, t.prompt);
        assert here[n] == t;
      }
      assert models == [models[0]] + models[1..];
    }
  }

  /** Provider `t.provider` lists `t.model`, and `t` names one of the prompts. */
  predicate Offered(providers: Dict<seq<string>>, prompts: Dict<string>, t: Trial)
  {
    exists i :: 0 <= i < |providers| && providers[i].0 == t.provider && t.model in providers[i].1 && (t.promptName, t.prompt) in prompts
  }

  /** Every combination is tried, and nothing else. */
  lemma {:induction false} AllTrialsMembers(providers: Dict<seq<string>>, prompts: Dict<string>, t: Trial)
    ensures t in AllTrials(providers, prompts) <==> Offered(providers, prompts, t)
  {
    if |providers| > 0 {
      var tail := providers[1..];
      AllTrialsMembers(tail, prompts, t);
      ProviderTrialsMembers(providers[0].0, providers[0].1, prompts, t);
      if Offered(providers, prompts, t) {
        var i :| 0 <= i < |providers| && providers[i].0 == t.provider && t.model in providers[i].1 && (t.promptName, t.prompt) in prompts;
        if i > 0 {
          assert tail[i - 1] == providers[i];
        }
      }
      if Offered(tail, prompts, t) {
        var i :| 0 <= i < |tail| && tail[i].0 == t.provider && t.model in tail[i].1 && (t.promptName, t.prompt) in prompts;
        assert providers[i + 1] == tail[i];
      }
    }
  }

  /** The trials of earlier providers all come before those of later ones. */
  lemma {:induction false} TrialsInProviderOrder(providers: Dict<seq<string>>, more: Dict<seq<string>>, prompts: Dict<string>)
    ensures AllTrials(providers + more, prompts) == AllTrials(providers, prompts) + AllTrials(more, prompts)
  {
    if |providers| > 0 {
      TrialsInProviderOrder(providers[1..], more, prompts);
      assert (providers + more)[1..] == providers[1..] + more;
    } else {
      assert providers + more == more;
    }
  }

  // ---------------------------------------------------------------- keyed results

  /** The result key `f"{provider}_{model}_{prompt_name}"`. */
  function TrialKey(t: Trial): string
  {
    t.provider + "_" + t.model + "_" + t.promptName
  }

  /** The results dictionary after every trial has written `results[key] = outcome(trial)`. */
  function Record<R>(trials: seq<Trial>, outcome: Trial -> R): Dict<R>
  {
    if |trials| == 0 then []
    else
      var t := trials[|trials| - 1];
      Put(Record(trials[..|trials| - 1], outcome), TrialKey(t), outcome(t))
  }

  lemma MapKeySnoc(trials: seq<Trial>)
    requires |trials| > 0
    ensures Map(TrialKey, trials) == Map(TrialKey, trials[..|trials| - 1]) + [TrialKey(trials[|trials| - 1])]
  {
  }

  /** The keys are the distinct trial keys, in the order they are first written. */
  lemma {:induction false} RecordKeys<R>(trials: seq<Trial>, outcome: Trial -> R)
    ensures Keys(Record(trials, outcome)) == Dedup(Map(TrialKey, trials))
  {
    if |trials| > 0 {
      var init := trials[..|trials| - 1];
      var t := trials[|trials| - 1];
      RecordKeys(init, outcome);
      PutKeys(Record(init, outcome), TrialKey(t), outcome(t));
      MapKeySnoc(trials);
      var ks := Map(TrialKey, trials);
      assert ks[..|ks| - 1] == Map(TrialKey, init);
      assert ks[|ks| - 1] == TrialKey(t);
    }
  }

  /** There is at most one result per trial, and exactly one exactly when no two trials share a key. */
  lemma RecordSize<R>(trials: seq<Trial>, outcome: Trial -> R)
    ensures |Record(trials, outcome)| <= |trials|
    ensures |Record(trials, outcome)| == |trials| <==> Distinct(Map(TrialKey, trials))
  {
    RecordKeys(trials, outcome);
    DedupKeepsAllIffDistinct(Map(TrialKey, trials));
  }

  /** The position of the last trial with key `k`, if any. */
  function LastWithKey(trials: seq<Trial>, k: string): (r: Option<nat>)
    ensures r.None? <==> forall j :: 0 <= j < |trials| ==> TrialKey(trials[j]) != k
    ensures r.Some? ==> r.value < |trials| && TrialKey(trials[r.value]) == k
    ensures r.Some? ==> forall j :: r.value < j < |trials| ==> TrialKey(trials[j]) != k
  {
    if |trials| == 0 then None
    else if TrialKey(trials[|trials| - 1]) == k then Some(|trials| - 1)
    else
      var r := LastWithKey(trials[..|trials| - 1], k);
      assert forall j :: 0 <= j < |trials| - 1 ==> trials[..|trials| - 1][j] == trials[j];
      r
  }

  /** The result stored under a key is the outcome of the last trial with that key: later trials overwrite earlier ones. */
  lemma {:induction false} LastTrialWins<R>(trials: seq<Trial>, outcome: Trial -> R, k: string)
    ensures Get(Record(trials, outcome), k) ==
      match LastWithKey(trials, k) case None => None case Some(j) => Some(outcome(trials[j]))
  {
    if |trials| > 0 {
      LastTrialWins(trials[..|trials| - 1], outcome, k);
    }
  }

  /** Underscores make two different trials share a key. */
  lemma UnderscoreCollision(prompt: string)
    ensures TrialKey(Trial("groq", "llama_3", "a", prompt)) == TrialKey(Trial("groq", "llama", "3_a", prompt))
  {
  }

  /** A model listed twice runs twice, and its second run overwrites the first. */
  lemma RepeatedModelOverwrites<R>(prompt: string, outcome: Trial -> R)
    ensures var trials := AllTrials([("groq", ["m", "m"])], [("p", prompt)]);
      |trials| == 2 && |Record(trials, outcome)| == 1
  {
    var trials := AllTrials([("groq", ["m", "m"])], [("p", prompt)]);
    var t := Trial("groq", "m", "p", prompt);
    var prompts := [("p", prompt)];
    assert ModelTrials("groq", "m", prompts) == [t];
    assert ["m"][1..] == [];
    assert ProviderTrials("groq", ["m"], prompts) == [t] + ProviderTrials("groq", [], prompts) == [t];
    assert ["m", "m"][1..] == ["m"];
    assert ProviderTrials("groq", ["m", "m"], prompts) == [t] + ProviderTrials("groq", ["m"], prompts);
    var providers := [("groq", ["m", "m"])];
    assert providers[1..] == [];
    assert trials == ProviderTrials("groq", ["m", "m"], prompts) + AllTrials([], prompts);
    assert trials == [t, t];
    assert trials[..1] == [t];
    assert Record([t], outcome) == [(TrialKey(t), outcome(t))];
  }
}
