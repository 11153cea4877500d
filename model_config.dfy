/** `get_model`: which chat-model provider serves a request, chosen by the
    first of four case-sensitive substring tests on the configured model
    name. The provider client objects are not built; the choice is returned
    as a value. */
module ModelConfig {
  import opened Wrappers
  import opened Text

  datatype Provider = OpenAI | Anthropic | Google | Groq

  /** `ChatX(model=model, temperature=temperature)` as a value. */
  datatype Selection = Selection(provider: Provider, model: string, temperature: int)

  /** The name used when none is configured, and the fallback for names no
      rule recognises. */
  const DefaultModel := "llama-3.1-8b-instant"

  /** `config.get("configurable", {}).get("model", DefaultModel)`. */
  function ModelName(configured: Option<string>): string
  {
    configured.GetOr(DefaultModel)
  }

  /** `get_model(config)`. */
  function GetModel(configured: Option<string>): (r: Selection)
    ensures r.temperature == 0
    ensures r.model == ModelName(configured) || r.model == DefaultModel
    ensures r.model != ModelName(configured) ==> r.provider == Groq
  {
    var name := ModelName(configured);
    if Contains(name, "gpt") then Selection(OpenAI, name, 0)
    else if Contains(name, "claude") then Selection(Anthropic, name, 0)
    else if Contains(name, "gemini") then Selection(Google, name, 0)
    else if Contains(name, "llama") || Contains(name, "mixtral") then Selection(Groq, name, 0)
    else Selection(Groq, DefaultModel, 0)
  }

  // ---------------------------------------------------------------------------
  // The same dispatch written as an ordered rule table

  /** Keyword and provider of each branch, in the order they are tried. */
  const Rules: seq<(string, Provider)> :=
    [("gpt", OpenAI), ("claude", Anthropic), ("gemini", Google), ("llama", Groq), ("mixtral", Groq)]

  /** Index of the first rule at or after `from` whose keyword occurs in
      `name`. */
  function FirstRule(name: string, rules: seq<(string, Provider)>, from: nat): (r: Option<nat>)
    ensures r.Some? ==> from <= r.value < |rules| && Contains(name, rules[r.value].0)
    ensures r.Some? ==> forall k :: from <= k < r.value ==> !Contains(name, rules[k].0)
    ensures r.None? ==> forall k :: from <= k < |rules| ==> !Contains(name, rules[k].0)
    decreases |rules| - from
  {
    if from >= |rules| then None
    else if Contains(name, rules[from].0) then Some(from)
    else FirstRule(name, rules, from + 1)
  }

  /** The selection the rule table prescribes: the provider of the first
      matching rule with the configured name, or the default model on Groq. */
  function TableSelection(name: string): Selection
  {
    match FirstRule(name, Rules, 0)
    case Some(k) => Selection(Rules[k].1, name, 0)
    case None => Selection(Groq, DefaultModel, 0)
  }

  /** `get_model` is exactly first-match dispatch over the rule table. */
  lemma GetModelIsFirstMatch(configured: Option<string>)
    ensures GetModel(configured) == TableSelection(ModelName(configured))
  {
    var name := ModelName(configured);
    var r := FirstRule(name, Rules, 0);
    if r.Some? {
      assert Rules[r.value].1 == GetModel(configured).provider by {
        assert r.value == 0 ==> Contains(name, "gpt");
      }
    }
  }

  /** A name mentioning "gpt" goes to OpenAI whatever else it mentions:
      earlier rules win. */
  lemma GptWins(name: string)
    requires Contains(name, "gpt")
    ensures GetModel(Some(name)) == Selection(OpenAI, name, 0)
  {
  }

  /** The default name matches none of the rules before the Llama one ... */
  lemma DefaultSkipsEarlierRules(x: string)
    requires x == DefaultModel
    ensures !Contains(x, "gpt") && !Contains(x, "claude") && !Contains(x, "gemini")
  {
    AbsentChar(x, "gpt", 0);
    AbsentChar(x, "claude", 0);
    AbsentChar(x, "gemini", 0);
  }

  /** ... and matches the Llama rule. */
  lemma DefaultMatchesLlama(x: string)
    requires x == DefaultModel
    ensures Contains(x, "llama")
  {
    assert OccursAt(x, "llama", 0);
    ContainsIff(x, "llama");
  }

  /** With no model configured the default Llama model on Groq is used. */
  lemma UnconfiguredUsesDefault()
    ensures GetModel(None) == Selection(Groq, DefaultModel, 0)
  {
    DefaultSkipsEarlierRules(DefaultModel);
    DefaultMatchesLlama(DefaultModel);
  }

  // The examples below take their text as a parameter pinned by `requires`,
  // so the string literal is unfolded only where such a lemma is applied.
  /** Matching is case-sensitive: "GPT-4" matches no rule and falls back to
      the default model, discarding the configured name. */
  lemma UpperCaseFallsThrough(x: string)
    requires x == "GPT-4"
    ensures GetModel(Some(x)) == Selection(Groq, DefaultModel, 0)
  {
    AbsentChar(x, "gpt", 0);
    AbsentChar(x, "claude", 0);
    AbsentChar(x, "gemini", 0);
    AbsentChar(x, "llama", 0);
    AbsentChar(x, "mixtral", 0);
  }

  /** "mixtral-8x7b" is served by Groq under its own name. */
  lemma MixtralOnGroq(x: string)
    requires x == "mixtral-8x7b"
    ensures GetModel(Some(x)) == Selection(Groq, x, 0)
  {
    AbsentChar(x, "gpt", 0);
    AbsentChar(x, "claude", 0);
    AbsentChar(x, "gemini", 0);
    assert OccursAt(x, "mixtral", 0);
    ContainsIff(x, "mixtral");
  }
}
