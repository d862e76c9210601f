/** `DocumentAnalysisAgent`: retrieve the two most relevant guidelines, build the prompt,
    make one model call and validate its JSON with `AnalysisResult`. The model's output is
    untrusted: a result is returned only when every field passes. */
module Agent {
  import opened Common
  import opened Embeddings
  import opened Prompts
  import opened Llm
  import opened Schemas

  /** How many guidelines `analyze_document` retrieves. */
  const AnalysisTopK: int := 2

  /** The exceptions `analyze_document` raises: the model call or the JSON extraction
      failed; the JSON is not an object, so `AnalysisResult(**response_json)` cannot be
      called; or the object failed validation. */
  datatype AnalysisError =
    | LlmFailed(error: LlmError)
    | NotAMapping(output: Json)
    | ValidationFailed(output: Json, errors: seq<FieldError>)

  /** `AnalysisResult(**response_json)`, re-raising a validation error with the output. */
  function Validate(output: Json, parseFloat: string -> Option<real>): (r: Result<AnalysisResult, AnalysisError>)
    ensures r.Ok? <==> output.JObject? && ValidateAnalysis(output.fields, parseFloat).Ok?
    ensures r.Ok? ==> r.value == ValidateAnalysis(output.fields, parseFloat).value && WellFormed(r.value)
    ensures !output.JObject? ==> r == Err(NotAMapping(output))
    ensures output.JObject? && r.Err? ==>
      r == Err(ValidationFailed(output, Errors(FieldOutcomes(output.fields, parseFloat))))
  {
    match output
    case JObject(fields) =>
      (match ValidateAnalysis(fields, parseFloat)
       case Ok(a) => AcceptedIsWellFormed(fields, parseFloat); Ok(a)
       case Err(errors) => Err(ValidationFailed(output, errors)))
    case _ => Err(NotAMapping(output))
  }

  /** The one prompt the agent sends: the document and the guidelines ranked first and
      second for it. */
  function AnalysisPrompt(guidelines: seq<string>, scores: seq<real>, documentText: string): string
    requires |scores| == |guidelines|
  {
    BuildCompletePrompt(documentText, TopGuidelines(guidelines, scores, AnalysisTopK))
  }

  /** What `analyze_document` makes of its prompt: one model call, extraction of the JSON
      from the reply, and validation. */
  function Outcome(generate: Model, parse: string -> Result<Json, string>,
                   parseFloat: string -> Option<real>, prompt: string): Result<AnalysisResult, AnalysisError>
  {
    match GenerateStructured(generate, parse, prompt)
    case Err(e) => Err(LlmFailed(e))
    case Ok(output) => Validate(output, parseFloat)
  }

  /** Every result the agent returns satisfies the schema; a model failure is reported as
      such, and an accepted result is exactly what validation made of the model's JSON. */
  lemma OutcomeFacts(generate: Model, parse: string -> Result<Json, string>,
                     parseFloat: string -> Option<real>, prompt: string)
    ensures var r := Outcome(generate, parse, parseFloat, prompt);
      var out := GenerateStructured(generate, parse, prompt);
      && (r.Ok? ==> WellFormed(r.value))
      && (out.Err? <==> r.Err? && r.error.LlmFailed?)
      && (out.Err? ==> r == Err(LlmFailed(out.error)))
      && (r.Ok? ==> out.Ok? && out.value.JObject? && ValidateAnalysis(out.value.fields, parseFloat) == Ok(r.value))
  {
  }

  /** The model is called once, on the prompt only: two models whose first replies to it
      agree lead to the same outcome, whatever they would answer to any other prompt or to
      a second call with the same prompt. */
  lemma OneModelCall(g1: Model, g2: Model,
                     parse: string -> Result<Json, string>, parseFloat: string -> Option<real>, prompt: string)
    requires g1(prompt, FirstAttempt) == g2(prompt, FirstAttempt)
    ensures Outcome(g1, parse, parseFloat, prompt) == Outcome(g2, parse, parseFloat, prompt)
  {
  }

  /** The prompt is the system prompt over at most two guidelines, each one of the corpus,
      followed by the user prompt over the document. */
  lemma AnalysisPromptShape(guidelines: seq<string>, scores: seq<real>, documentText: string)
    requires |scores| == |guidelines|
    ensures var relevant := TopGuidelines(guidelines, scores, AnalysisTopK);
      var sys := BuildSystemPrompt(relevant);
      var p := AnalysisPrompt(guidelines, scores, documentText);
      && |relevant| == Min(2, |guidelines|)
      && (forall j :: 0 <= j < |relevant| ==> relevant[j] in guidelines)
      && p[..|sys|] == sys
      && p[|sys| + 2..] == BuildUserPrompt(documentText)
  {
    var relevant := TopGuidelines(guidelines, scores, AnalysisTopK);
    RetrievalFacts(guidelines, scores, AnalysisTopK);
    CompletePromptShape(documentText, relevant);
  }

  class DocumentAnalysisAgent {
    /** The embedding service, built once. */
    const embeddingService: EmbeddingService
    /** The Gemini model, by prompt and call number. */
    const generate: Model
    /** `json.loads`: the value, or the decoder's error message. */
    const parse: string -> Result<Json, string>
    /** pydantic's reading of a string as a float. */
    const parseFloat: string -> Option<real>

    ghost predicate Valid() {
      embeddingService.Valid()
    }

    constructor (embeddingService: EmbeddingService, generate: Model,
                 parse: string -> Result<Json, string>, parseFloat: string -> Option<real>)
      requires embeddingService.Valid()
      ensures Valid()
      ensures this.embeddingService == embeddingService && this.generate == generate
      ensures this.parse == parse && this.parseFloat == parseFloat
    {
      this.embeddingService := embeddingService;
      this.generate := generate;
      this.parse := parse;
      this.parseFloat := parseFloat;
    }

    /** `analyze_document`: retrieval with `top_k=2`, the prompt, one model call and
        validation of its output. */
    method AnalyzeDocument(documentText: string) returns (r: Result<AnalysisResult, AnalysisError>)
      requires Valid()
      ensures |embeddingService.Scores(documentText)| == |embeddingService.guidelines|
      ensures r == Outcome(generate, parse, parseFloat,
                           AnalysisPrompt(embeddingService.guidelines, embeddingService.Scores(documentText), documentText))
    {
      var relevant := embeddingService.RetrieveRelevantGuidelines(documentText, AnalysisTopK);
      var prompt := BuildCompletePrompt(documentText, relevant);
      match GenerateStructured(generate, parse, prompt) {
        case Err(e) => r := Err(LlmFailed(e));
        case Ok(j) => r := Validate(j, parseFloat);
      }
    }
  }
}
