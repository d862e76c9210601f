/** `GeminiService`: one call to the Gemini model, and the extraction of a JSON object
    from its reply. The model and `json.loads` are oracles: `generate` gives the reply text
    or the API's error message to a call numbered by prompt, `parse` the JSON value or the
    decoder's error message. */
module Llm {
  import opened Common

  /** The Gemini model: its reply text, or the API's error message, to the n-th call made
      with a prompt. Calls are numbered from `FirstAttempt`, so a retry of the same prompt
      is a different call that may get a different reply. */
  type Model = (string, nat) -> Result<string, string>

  /** The number of the first call made with a prompt. */
  const FirstAttempt: nat := 0

  const Fence: string := "```"
  const JsonTag: string := "json"
  const ParseErrorPrefix: string := "Failed to parse JSON from LLM response: "
  const ApiErrorPrefix: string := "Gemini API error: "
  /** How much of the reply the parse error quotes. */
  const QuotedLength: nat := 200

  /** The two exceptions of the service: a failed API call and a reply that is not JSON
      (the `ValueError`). */
  datatype LlmError = ApiError(message: string) | ParseError(message: string)

  // ---------------------------------------------------------------------------
  // Stage 1: ```(?:json)?\s*(\{.*?\})\s*```  (DOTALL, leftmost match)
  // ---------------------------------------------------------------------------

  /** At p the pattern's head ```` ``` ````, an optional `json`, whitespace and `{` match;
      the result is where that `{` stands. */
  function FenceOpen(s: string, p: nat): (b: Option<nat>)
    ensures b.Some? ==> OccursAt(s, Fence, p) && p + 3 <= b.value < |s| && s[b.value] == '{'
    ensures b.Some? ==> AllSpace(s, if OccursAt(s, JsonTag, p + 3) then p + 7 else p + 3, b.value)
    ensures OccursAt(s, Fence, p) ==>
      var q := if OccursAt(s, JsonTag, p + 3) then p + 7 else p + 3;
      q <= |s| && (SkipSpace(s, q) < |s| && s[SkipSpace(s, q)] == '{' ==> b == Some(SkipSpace(s, q)))
  {
    if !OccursAt(s, Fence, p) then None
    else
      var q := if OccursAt(s, JsonTag, p + 3) then p + 7 else p + 3;
      var b := SkipSpace(s, q);
      if b < |s| && s[b] == '{' then Some(b) else None
  }

  /** A `}` at e, followed by optional whitespace and a closing ```` ``` ````. */
  predicate Closes(s: string, e: nat) {
    e < |s| && s[e] == '}' && OccursAt(s, Fence, SkipSpace(s, e + 1))
  }

  /** The lazy `.*?\}`: the first e at or after `from` that closes the block. */
  function FirstClose(s: string, from: nat): (e: Option<nat>)
    ensures e.Some? ==> from <= e.value && Closes(s, e.value)
    ensures e.Some? ==> forall k :: from <= k < e.value ==> !Closes(s, k)
    ensures e.None? ==> forall k :: from <= k < |s| ==> !Closes(s, k)
    decreases |s| - from
  {
    if from >= |s| then None
    else if Closes(s, from) then Some(from)
    else FirstClose(s, from + 1)
  }

  /** The pattern matches starting at p, with group 1 being s[b..e+1]. */
  function FenceAt(s: string, p: nat): (m: Option<(nat, nat)>)
    ensures m.Some? ==> FenceOpen(s, p) == Some(m.value.0) && m.value.0 < m.value.1
    ensures m.Some? ==> FirstClose(s, m.value.0 + 1) == Some(m.value.1)
    ensures m.None? ==> FenceOpen(s, p).None? || FirstClose(s, FenceOpen(s, p).value + 1).None?
  {
    match FenceOpen(s, p)
    case None => None
    case Some(b) =>
      match FirstClose(s, b + 1)
      case None => None
      case Some(e) => Some((b, e))
  }

  /** `re.search` tries the start positions from left to right. */
  function FenceFrom(s: string, p: nat): (m: Option<(nat, nat)>)
    ensures m.Some? ==> exists q :: p <= q <= |s| && FenceAt(s, q) == m &&
                          forall r :: p <= r < q ==> FenceAt(s, r).None?
    ensures m.None? ==> forall q :: p <= q <= |s| ==> FenceAt(s, q).None?
    decreases |s| + 1 - p
  {
    if p > |s| then None
    else if FenceAt(s, p).Some? then FenceAt(s, p)
    else FenceFrom(s, p + 1)
  }

  /** The first fenced block, as the span of its braces, when there is one: the match
      starts at a ```` ``` ```` before which no match starts, and runs from the `{` after
      the fence to the first `}` that is followed by optional whitespace and ```` ``` ````. */
  function FencedSpan(s: string): (m: Option<(nat, nat)>)
    ensures m.Some? ==> exists p :: 0 <= p <= |s| && FenceAt(s, p) == m &&
                          forall q :: 0 <= q < p ==> FenceAt(s, q).None?
    ensures m.Some? ==> m.value.0 < m.value.1 < |s| && s[m.value.0] == '{' && s[m.value.1] == '}'
    ensures m.None? ==> forall p :: 0 <= p <= |s| ==> FenceAt(s, p).None?
  {
    FenceFrom(s, 0)
  }

  // ---------------------------------------------------------------------------
  // Stage 2: \{.*\}  (DOTALL, leftmost and greedy)
  // ---------------------------------------------------------------------------

  /** From the first `{` to the last `}`, when that `}` comes after it. */
  function BraceSpan(s: string): (m: Option<(nat, nat)>)
    ensures m.Some? ==> m.value.0 < m.value.1 < |s| && s[m.value.0] == '{' && s[m.value.1] == '}'
    ensures m.Some? ==> (forall k :: 0 <= k < m.value.0 ==> s[k] != '{') && (forall k :: m.value.1 < k < |s| ==> s[k] != '}')
    ensures m.None? ==> forall i, j :: 0 <= i < j < |s| && s[i] == '{' ==> s[j] != '}'
  {
    match FirstIndex(s, '{', 0)
    case None => None
    case Some(i) =>
      match LastIndex(s, '}', |s|)
      case None => None
      case Some(j) => if i < j then Some((i, j)) else None
  }

  // ---------------------------------------------------------------------------
  // extract_json_from_response
  // ---------------------------------------------------------------------------

  /** A string that begins with `{` and ends with `}`. */
  predicate Braced(c: string) {
    2 <= |c| && c[0] == '{' && c[|c| - 1] == '}'
  }

  /** The text of a span from a `{` to a later `}`, both included. */
  function SpanText(s: string, m: (nat, nat)): (c: string)
    requires m.0 < m.1 < |s| && s[m.0] == '{' && s[m.1] == '}'
    ensures Braced(c)
  {
    s[m.0..m.1 + 1]
  }

  /** The one substring `extract_json_from_response` hands to `json.loads`. */
  function Candidate(s: string): string
  {
    match FencedSpan(s)
    case Some(m) => SpanText(s, m)
    case None =>
      match BraceSpan(s)
      case Some(m) => SpanText(s, m)
      case None => Strip(s)
  }

  /** The candidate is the fenced block's object when there is one, else the span from
      the first `{` to the last `}`, else the stripped reply; the first two begin with `{`
      and end with `}`. */
  lemma CandidateStages(s: string)
    ensures FencedSpan(s).Some? ==> Candidate(s) == s[FencedSpan(s).value.0..FencedSpan(s).value.1 + 1]
    ensures FencedSpan(s).None? && BraceSpan(s).Some? ==> Candidate(s) == s[BraceSpan(s).value.0..BraceSpan(s).value.1 + 1]
    ensures FencedSpan(s).None? && BraceSpan(s).None? ==> Candidate(s) == Strip(s)
    ensures FencedSpan(s).Some? || BraceSpan(s).Some? ==> Braced(Candidate(s))
  {
  }

  /** The message of the `ValueError`: the decoder's reason and the reply's first 200
      characters. */
  function ParseErrorMessage(reason: string, reply: string): (msg: string)
    ensures var head := ParseErrorPrefix + reason + "\nResponse: ";
      && |msg| == |head| + Min(QuotedLength, |reply|) + 3
      && msg[..|head|] == head
      && msg[|head|..|msg| - 3] == reply[..Min(QuotedLength, |reply|)]
      && msg[|msg| - 3..] == "..."
  {
    ParseErrorPrefix + reason + "\nResponse: " + Prefix(reply, QuotedLength) + "..."
  }

  /** `extract_json_from_response`: parse the one candidate; a decoding failure is a
      `ParseError`, with no later stage tried. */
  function ExtractJson(parse: string -> Result<Json, string>, reply: string): (r: Result<Json, LlmError>)
    ensures r.Ok? <==> parse(Candidate(reply)).Ok?
    ensures r.Ok? ==> r.value == parse(Candidate(reply)).value
    ensures r.Err? ==> r.error == ParseError(ParseErrorMessage(parse(Candidate(reply)).error, reply))
  {
    match parse(Candidate(reply))
    case Ok(j) => Ok(j)
    case Err(reason) => Err(ParseError(ParseErrorMessage(reason, reply)))
  }

  /** Only the chosen candidate is ever parsed: two decoders that agree on it give the
      same outcome, whatever they do on the other stages' candidates. */
  lemma ExtractParsesOnlyCandidate(p1: string -> Result<Json, string>, p2: string -> Result<Json, string>, reply: string)
    requires p1(Candidate(reply)) == p2(Candidate(reply))
    ensures ExtractJson(p1, reply) == ExtractJson(p2, reply)
  {
  }

  /** A reply that is a JSON object with nothing around it is its own candidate when it
      has no fenced block: all of it, from its first `{` to its last `}`. */
  lemma BareObjectIsCandidate(reply: string)
    requires 2 <= |reply| && reply[0] == '{' && reply[|reply| - 1] == '}'
    requires FencedSpan(reply).None?
    ensures Candidate(reply) == reply
  {
    var m := BraceSpan(reply);
    assert m.Some? by {
      assert FirstIndex(reply, '{', 0) == Some(0);
      assert LastIndex(reply, '}', |reply|) == Some(|reply| - 1);
    }
    assert m.value == (0, |reply| - 1);
  }

  /** `generate_response`: the reply text, or the API failure re-raised with a prefix. */
  function GenerateResponse(generate: Model, prompt: string): (r: Result<string, LlmError>)
    ensures r.Ok? <==> generate(prompt, FirstAttempt).Ok?
    ensures r.Ok? ==> r.value == generate(prompt, FirstAttempt).value
    ensures r.Err? ==> r.error == ApiError(ApiErrorPrefix + generate(prompt, FirstAttempt).error)
  {
    match generate(prompt, FirstAttempt)
    case Ok(text) => Ok(text)
    case Err(e) => Err(ApiError(ApiErrorPrefix + e))
  }

  /** `generate_structured_response`: one model call, then extraction of its reply. */
  function GenerateStructured(generate: Model, parse: string -> Result<Json, string>,
                              prompt: string): (r: Result<Json, LlmError>)
    ensures generate(prompt, FirstAttempt).Err? ==> r == Err(ApiError(ApiErrorPrefix + generate(prompt, FirstAttempt).error))
    ensures generate(prompt, FirstAttempt).Ok? ==> r == ExtractJson(parse, generate(prompt, FirstAttempt).value)
  {
    match GenerateResponse(generate, prompt)
    case Ok(reply) => ExtractJson(parse, reply)
    case Err(e) => Err(e)
  }

  /** A failed API call never reaches the decoder: the outcome is the `ApiError`, whatever
      the decoder would make of any text. */
  lemma ApiFailureSkipsDecoder(generate: Model, p1: string -> Result<Json, string>,
                               p2: string -> Result<Json, string>, prompt: string)
    requires generate(prompt, FirstAttempt).Err?
    ensures GenerateStructured(generate, p1, prompt) == GenerateStructured(generate, p2, prompt)
    ensures GenerateStructured(generate, p1, prompt).Err? && GenerateStructured(generate, p1, prompt).error.ApiError?
  {
  }

  /** Each failure of the structured call is attributed to its stage: an `ApiError` exactly
      when the model call failed, a `ParseError` exactly when the call succeeded and the
      candidate of its reply did not decode; success means both succeeded, and the value is
      the decoded candidate. */
  lemma StructuredStages(generate: Model, parse: string -> Result<Json, string>, prompt: string)
    ensures var r := GenerateStructured(generate, parse, prompt);
      var reply := generate(prompt, FirstAttempt);
      && (r.Err? && r.error.ApiError? <==> reply.Err?)
      && (r.Err? && r.error.ParseError? <==> reply.Ok? && parse(Candidate(reply.value)).Err?)
      && (r.Ok? <==> reply.Ok? && parse(Candidate(reply.value)).Ok?)
      && (r.Ok? ==> r.value == parse(Candidate(reply.value)).value)
  {
  }
}
