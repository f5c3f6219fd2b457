/** The model tables of api/utils.ts: the system prompt and the provider
    (base URL and API-key variable) used for each supported model. */
module Models {
  import opened Wrappers

  const DeepHermes24B := "DeepHermes-3-Mistral-24B-Preview"
  const Hermes70B := "Hermes-3-Llama-3.1-70B"
  const GPT4o := "gpt-4o-2024-11-20"
  const DeepSeekV3 := "deepseek-chat"

  const OpenAIURL := "https://api.openai.com/v1"
  const NousURL := "https://inference-api.nousresearch.com/v1"
  const DeepSeekURL := "https://api.deepseek.com/v1"

  /** The three prompt constants, by name; their wording carries no logic. */
  datatype SystemPrompt = HermesThinkPrompt | HermesToolPrompt | QuorraPrompt

  /** The environment variable the API key is read from. */
  datatype KeyVar = NousKey | OpenAIKey | DeepSeekKey

  datatype ProviderConfig = ProviderConfig(baseURL: string, apiKey: KeyVar)

  predicate Known(model: string) {
    model == DeepHermes24B || model == Hermes70B || model == GPT4o || model == DeepSeekV3
  }

  function UnknownModel(model: string): string {
    "What model is this? " + model
  }

  /** `getModelSystemPrompt`. */
  function GetModelSystemPrompt(model: string): (r: Result<SystemPrompt, string>)
    ensures r.Success? <==> Known(model)
    ensures r.Failure? ==> r.error == UnknownModel(model)
    ensures model == DeepHermes24B ==> r == Success(HermesThinkPrompt)
    ensures model == Hermes70B ==> r == Success(HermesToolPrompt)
    ensures model == GPT4o || model == DeepSeekV3 ==> r == Success(QuorraPrompt)
  {
    if model == DeepHermes24B then Success(HermesThinkPrompt)
    else if model == Hermes70B then Success(HermesToolPrompt)
    else if model == GPT4o || model == DeepSeekV3 then Success(QuorraPrompt)
    else Failure(UnknownModel(model))
  }

  /** `getProviderConfig`. */
  function GetProviderConfig(model: string): (r: Result<ProviderConfig, string>)
    ensures r.Success? <==> Known(model)
    ensures r.Failure? ==> r.error == UnknownModel(model)
    ensures model == DeepHermes24B || model == Hermes70B ==> r == Success(ProviderConfig(NousURL, NousKey))
    ensures model == GPT4o ==> r == Success(ProviderConfig(OpenAIURL, OpenAIKey))
    ensures model == DeepSeekV3 ==> r == Success(ProviderConfig(DeepSeekURL, DeepSeekKey))
  {
    if model == DeepHermes24B || model == Hermes70B then Success(ProviderConfig(NousURL, NousKey))
    else if model == GPT4o then Success(ProviderConfig(OpenAIURL, OpenAIKey))
    else if model == DeepSeekV3 then Success(ProviderConfig(DeepSeekURL, DeepSeekKey))
    else Failure(UnknownModel(model))
  }

  /** The two lookups accept the same models and fail with the same
      message; the Hermes prompts go with the Nous provider and the Quorra
      prompt with the other two, and each provider's key variable matches
      its URL. */
  lemma LookupsAgree(model: string)
    ensures GetModelSystemPrompt(model).Success? <==> GetProviderConfig(model).Success?
    ensures GetModelSystemPrompt(model).Failure? ==>
      GetModelSystemPrompt(model).error == GetProviderConfig(model).error
    ensures GetModelSystemPrompt(model).Success? ==>
      (GetModelSystemPrompt(model).value != QuorraPrompt <==> GetProviderConfig(model).value.baseURL == NousURL)
    ensures GetProviderConfig(model).Success? ==>
      var c := GetProviderConfig(model).value;
      (c.baseURL == NousURL <==> c.apiKey == NousKey)
      && (c.baseURL == OpenAIURL <==> c.apiKey == OpenAIKey)
      && (c.baseURL == DeepSeekURL <==> c.apiKey == DeepSeekKey)
  {
  }
}
