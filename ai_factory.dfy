/**
 * The AI-engine registry (app/services/ai/factory.py): the configured engine
 * name is upper-cased and dispatched on; there is one real engine and no
 * default. The configured engine name and the Gemini API key are parameters;
 * an empty key stands for one that is unset.
 */
module AiFactory {
  import opened Outcomes
  import opened AsciiText

  /** The engines the factory can construct. */
  datatype AiEngine = GeminiAIEngine

  /** The two exceptions the factory raises. */
  datatype EngineError =
    | NotImplementedError(message: string)
    | ValueError(message: string)

  const VectorNotImplemented := "Vector DB AI Engine is not yet implemented."
  const GeminiKeyMissing := "GEMINI_API_KEY is not set in the environment variables."

  /** The Gemini engine's constructor: it refuses to start without an API key. */
  function NewGeminiEngine(geminiApiKey: string): (r: Result<AiEngine, EngineError>)
    ensures r.Ok? <==> geminiApiKey != ""
    ensures r.Err? ==> r.error == ValueError(GeminiKeyMissing)
  {
    if geminiApiKey == "" then Err(ValueError(GeminiKeyMissing)) else Ok(GeminiAIEngine)
  }

  /** get_ai_engine, for the configured values of ACTIVE_AI_ENGINE and GEMINI_API_KEY. */
  function GetAiEngine(activeAiEngine: string, geminiApiKey: string): (r: Result<AiEngine, EngineError>)
    ensures r.Ok? <==> Upper(activeAiEngine) == "GEMINI" && geminiApiKey != ""
    ensures r.Ok? ==> r.value == GeminiAIEngine
    ensures Upper(activeAiEngine) == "GEMINI" && geminiApiKey == "" ==> r == Err(ValueError(GeminiKeyMissing))
    ensures Upper(activeAiEngine) == "VECTOR" ==> r == Err(NotImplementedError(VectorNotImplemented))
    ensures Upper(activeAiEngine) !in {"GEMINI", "VECTOR"} ==>
              r == Err(ValueError("Unsupported AI Engine: " + Upper(activeAiEngine)))
  {
    var engineName := Upper(activeAiEngine);
    if engineName == "GEMINI" then NewGeminiEngine(geminiApiKey)
    else if engineName == "VECTOR" then Err(NotImplementedError(VectorNotImplemented))
    else Err(ValueError("Unsupported AI Engine: " + engineName))
  }

  /** Dispatch ignores case: names that agree once lower-cased get the same answer. */
  lemma DispatchIgnoresCase(name1: string, name2: string, geminiApiKey: string)
    requires Lower(name1) == Lower(name2)
    ensures GetAiEngine(name1, geminiApiKey) == GetAiEngine(name2, geminiApiKey)
  {
    UpperOfLower(name1);
    UpperOfLower(name2);
  }

  /** The engine is returned exactly for the casings of "gemini", and only when the key is set. */
  lemma SucceedsExactlyForGemini(name: string, geminiApiKey: string)
    ensures GetAiEngine(name, geminiApiKey).Ok? <==> Lower(name) == "gemini" && geminiApiKey != ""
  {
    if Lower(name) == "gemini" {
      UpperOfLower(name);
      assert Upper("gemini") == "GEMINI";
    }
    if Upper(name) == "GEMINI" {
      LowerOfUpper(name);
      assert Lower("GEMINI") == "gemini";
    }
  }
}
