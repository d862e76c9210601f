/** `QAAgent`: answer a question from the chunks `VectorDBService.search` finds. The
    chunks are numbered from 1 in the context the model sees, the same numbers label the
    citations returned beside the answer, and a store without hits is answered without
    calling the model. */
module QaAgent {
  import opened Common
  import opened ChunkStore
  import opened Llm
  import VectorDb

  /** One entry of `sources`. */
  datatype Citation = Citation(sourceNumber: nat, text: string, document: string, documentId: MetaValue)

  /** The dict `answer_question` returns. */
  datatype QaAnswer = QaAnswer(answer: string, sources: seq<Citation>)

  /** The exceptions `answer_question` raises: a `TypeError` from metadata of the wrong
      type, and the `ValueError` that wraps a failed model call. */
  datatype QaError = MetadataTypeError | AnswerFailed(message: string)

  const NoDocumentsAnswer: string := "I don't have any documents to answer this question. Please upload documents first."
  const AnswerFailedPrefix: string := "Failed to generate answer: "
  const UnknownLabel: string := "Unknown"

  /** The fixed instructions of the Q&A prompt, line by line. */
  const QaInstructionLines: seq<string> := [
    "You are a helpful assistant that answers questions based ONLY on the provided context.",
    "",
    "Rules:",
    "1. Answer the question using ONLY information from the context provided",
    "2. If the context doesn't contain enough information, say \"I don't have enough information to answer that question.\"",
    "3. Be concise and direct in your answer",
    "4. Cite source numbers when referencing specific information (e.g., \"According to Source 1...\")",
    "5. Do not make assumptions or add information not in the context",
    "6. If multiple sources provide the same information, mention all relevant sources"
  ]

  /** The instructions as one text. */
  const QaInstructions: string := Join("\n", QaInstructionLines)
  /** Everything of the prompt before the context. */
  const QaHead: string := QaInstructions + "\n\nContext from documents:\n\n"
  const QuestionCue: string := "\n\nQuestion: "
  const AnswerCue: string := "\n\nAnswer:"

  /** `f"{value}"` of a metadata value. */
  function Display(v: MetaValue): string {
    match v
    case Text(s) => s
    case Number(n) => IntToString(n)
  }

  /** The context line of source i. */
  function SourceLabel(i: nat, text: string): string {
    "[Source " + NatToString(i) + "]: " + text
  }

  /** A hit can be cited: its `chunk_index`, if any, is a number (it is incremented) and
      its `filename`, if any, a string (a string is appended to it). */
  predicate Citable(h: SearchHit) {
    GetOr(h.metadata, ChunkIndexKey, Number(0)).Number?
    && GetOr(h.metadata, FilenameKey, Text(UnknownLabel)).Text?
  }

  /** `(Chunk {chunk_index + 1}/{total_chunks})`, with the defaults 0 and 1. */
  function ChunkInfo(h: SearchHit): string
    requires Citable(h)
  {
    "(Chunk " + IntToString(GetOr(h.metadata, ChunkIndexKey, Number(0)).n + 1) + "/"
      + Display(GetOr(h.metadata, TotalChunksKey, Number(1))) + ")"
  }

  /** The citation of the hit numbered i. */
  function CitationOf(i: nat, h: SearchHit): Citation
    requires Citable(h)
  {
    Citation(i, h.text, GetOr(h.metadata, FilenameKey, Text(UnknownLabel)).s + " " + ChunkInfo(h),
             GetOr(h.metadata, DocumentIdKey, Text(UnknownLabel)))
  }

  /** The context lines, one per hit, numbered from 1. */
  function ContextParts(hits: seq<SearchHit>): seq<string> {
    seq(|hits|, i requires 0 <= i < |hits| => SourceLabel(i + 1, hits[i].text))
  }

  /** The citations, one per hit, numbered from 1. */
  function Citations(hits: seq<SearchHit>): seq<Citation>
    requires forall i :: 0 <= i < |hits| ==> Citable(hits[i])
  {
    seq(|hits|, i requires 0 <= i < |hits| => CitationOf(i + 1, hits[i]))
  }

  /** The context block: the context lines separated by blank lines. */
  function Context(hits: seq<SearchHit>): string {
    Join("\n\n", ContextParts(hits))
  }

  /** `_build_qa_prompt`. */
  function QaPrompt(question: string, context: string): string {
    QaHead + context + QuestionCue + question + AnswerCue
  }

  /** What `answer_question` makes of the model's reply to its prompt. */
  function Respond(reply: Result<string, LlmError>, hits: seq<SearchHit>): Result<QaAnswer, QaError>
    requires forall i :: 0 <= i < |hits| ==> Citable(hits[i])
  {
    match reply
    case Ok(answer) => Ok(QaAnswer(Strip(answer), Citations(hits)))
    case Err(e) => Err(AnswerFailed(AnswerFailedPrefix + e.message))
  }

  /** `answer_question` on the hits of its search. */
  function Answer(generate: Model, question: string, hits: seq<SearchHit>): Result<QaAnswer, QaError>
  {
    if hits == [] then Ok(QaAnswer(NoDocumentsAnswer, []))
    else if !(forall i :: 0 <= i < |hits| ==> Citable(hits[i])) then Err(MetadataTypeError)
    else Respond(GenerateResponse(generate, QaPrompt(question, Context(hits))), hits)
  }

  /** The loop of `answer_question` over the hits: the context lines and the citations,
      or the `TypeError` of the first hit that cannot be cited. */
  method AssembleContext(hits: seq<SearchHit>) returns (r: Result<(string, seq<Citation>), QaError>)
    ensures r.Ok? <==> forall i :: 0 <= i < |hits| ==> Citable(hits[i])
    ensures r.Ok? ==> r.value == (Context(hits), Citations(hits))
    ensures r.Err? ==> r.error == MetadataTypeError
  {
    var parts: seq<string> := [];
    var sources: seq<Citation> := [];
    for i := 0 to |hits|
      invariant forall j :: 0 <= j < i ==> Citable(hits[j])
      invariant parts == ContextParts(hits[..i])
      invariant sources == Citations(hits[..i])
    {
      parts := parts + [SourceLabel(i + 1, hits[i].text)];
      if !Citable(hits[i]) {
        return Err(MetadataTypeError);
      }
      sources := sources + [CitationOf(i + 1, hits[i])];
    }
    assert hits[..|hits|] == hits;
    r := Ok((Join("\n\n", parts), sources));
  }

  /** A search without hits is answered at once, whatever the model would say. */
  lemma NoHitsNoModelCall(g1: Model, g2: Model, question: string)
    ensures Answer(g1, question, []) == Answer(g2, question, []) == Ok(QaAnswer(NoDocumentsAnswer, []))
  {
  }

  /** The sources are numbered 1 to n in hit order, carry the full text of their chunk,
      and name the document `Unknown` when the chunk does not say which it is. */
  lemma CitationsFacts(hits: seq<SearchHit>)
    requires forall i :: 0 <= i < |hits| ==> Citable(hits[i])
    ensures var cs := Citations(hits);
      && |cs| == |hits|
      && (forall i :: 0 <= i < |cs| ==> cs[i].sourceNumber == i + 1 && cs[i].text == hits[i].text)
      && (forall i :: 0 <= i < |cs| && DocumentIdKey !in hits[i].metadata ==> cs[i].documentId == Text(UnknownLabel))
      && (forall i :: 0 <= i < |cs| && DocumentIdKey in hits[i].metadata ==> cs[i].documentId == hits[i].metadata[DocumentIdKey])
      && (forall i :: 0 <= i < |cs| && FilenameKey !in hits[i].metadata ==>
            UnknownLabel + " " <= cs[i].document)
  {
    var cs := Citations(hits);
    forall i | 0 <= i < |cs| && FilenameKey !in hits[i].metadata
      ensures UnknownLabel + " " <= cs[i].document
    {
      assert cs[i].document == UnknownLabel + " " + ChunkInfo(hits[i]);
    }
  }

  /** What the model reads and what the caller gets back agree: source i's line in the
      context carries the number and the full text of citation i, at its own offset. */
  lemma ContextCitesSources(hits: seq<SearchHit>)
    requires forall i :: 0 <= i < |hits| ==> Citable(hits[i])
    ensures forall i :: 0 <= i < |hits| ==>
      var line := SourceLabel(Citations(hits)[i].sourceNumber, Citations(hits)[i].text);
      var o := JoinOffset("\n\n", ContextParts(hits), i);
      o + |line| <= |Context(hits)| && Context(hits)[o..o + |line|] == line
  {
    forall i | 0 <= i < |hits|
      ensures var line := SourceLabel(Citations(hits)[i].sourceNumber, Citations(hits)[i].text);
        var o := JoinOffset("\n\n", ContextParts(hits), i);
        o + |line| <= |Context(hits)| && Context(hits)[o..o + |line|] == line
    {
      JoinContains("\n\n", ContextParts(hits), i);
    }
  }

  /** The source numbers of the context are read back by `int`: the i-th line is labelled
      with i + 1 and no other line is. */
  lemma SourceNumbersDistinct(i: nat, j: nat)
    requires NatToString(i + 1) == NatToString(j + 1)
    ensures i == j
  {
    NatToStringInjective(i + 1, j + 1);
  }

  /** Where the five pieces of `h + a + m + b + t` stand. */
  lemma {:induction false} FiveParts(h: string, a: string, m: string, b: string, t: string)
    ensures var p := h + a + m + b + t;
      var q := |h| + |a| + |m|;
      && |p| == q + |b| + |t|
      && p[..|h|] == h
      && p[|h|..|h| + |a|] == a
      && p[|h| + |a|..q] == m
      && p[q..q + |b|] == b
      && p[q + |b|..] == t
  {
    var p := h + a + m + b + t;
    var q := |h| + |a| + |m|;
    assert p == (h + a + m) + b + t;
    assert (h + a + m)[..|h|] == h;
    assert (h + a + m)[|h|..|h| + |a|] == a;
    assert (h + a + m)[|h| + |a|..] == m;
  }

  /** The prompt is the instructions, the context and the question, in that order, and
      the question and the context can be read back from it. */
  lemma QaPromptShape(question: string, context: string)
    ensures var p := QaPrompt(question, context);
      var c := |QaHead|;
      var q := c + |context| + |QuestionCue|;
      && |p| == q + |question| + |AnswerCue|
      && p[..c] == QaHead
      && p[c..c + |context|] == context
      && p[c + |context|..q] == QuestionCue
      && p[q..q + |question|] == question
      && p[q + |question|..] == AnswerCue
  {
    FiveParts(QaHead, context, QuestionCue, question, AnswerCue);
  }

  /** The reply, stripped, beside the citations; a failed call becomes the `ValueError`
      naming the API error. */
  lemma RespondFacts(generate: Model, prompt: string, hits: seq<SearchHit>)
    requires forall i :: 0 <= i < |hits| ==> Citable(hits[i])
    ensures var reply := generate(prompt, FirstAttempt);
      var r := Respond(GenerateResponse(generate, prompt), hits);
      && (r.Ok? <==> reply.Ok?)
      && (r.Ok? ==> r.value == QaAnswer(Strip(reply.value), Citations(hits)))
      && (r.Err? ==> r.error == AnswerFailed(AnswerFailedPrefix + ApiErrorPrefix + reply.error))
  {
  }

  /** A returned answer is the model's reply to the Q&A prompt, stripped, beside the
      citations; a failed call becomes the `ValueError` naming the API error. */
  lemma AnswerFacts(generate: Model, question: string, hits: seq<SearchHit>)
    requires hits != [] && forall i :: 0 <= i < |hits| ==> Citable(hits[i])
    ensures var reply := generate(QaPrompt(question, Context(hits)), FirstAttempt);
      var r := Answer(generate, question, hits);
      && (r.Ok? <==> reply.Ok?)
      && (r.Ok? ==> r.value == QaAnswer(Strip(reply.value), Citations(hits)))
      && (r.Err? ==> r.error == AnswerFailed(AnswerFailedPrefix + ApiErrorPrefix + reply.error))
  {
    RespondFacts(generate, QaPrompt(question, Context(hits)), hits);
  }

  /** A hit whose metadata cannot be cited makes the whole call fail, before the model is
      called. */
  lemma UncitableFails(generate: Model, question: string, hits: seq<SearchHit>, k: nat)
    requires k < |hits| && !Citable(hits[k])
    ensures Answer(generate, question, hits) == Err(MetadataTypeError)
  {
  }

  class QAAgent {
    const vectorDb: VectorDb.VectorDBService
    /** The Gemini model: the reply text, or the API's error message. */
    const generate: Model

    constructor (vectorDb: VectorDb.VectorDBService, generate: Model)
      ensures this.vectorDb == vectorDb && this.generate == generate
    {
      this.vectorDb := vectorDb;
      this.generate := generate;
    }

    /** `answer_question`: search, assemble context and citations, ask the model. */
    method AnswerQuestion(question: string, documentId: Option<string>, topK: int) returns (r: Result<QaAnswer, QaError>)
      ensures r == Answer(generate, question,
        HitsOf(vectorDb.query(vectorDb.encode(question), topK, SearchFilter(documentId), vectorDb.records)))
    {
      var hits := vectorDb.Search(question, topK, documentId);
      if hits == [] {
        return Ok(QaAnswer(NoDocumentsAnswer, []));
      }
      var assembled := AssembleContext(hits);
      if assembled.Err? {
        return Err(assembled.error);
      }
      var (context, sources) := assembled.value;
      var prompt := QaPrompt(question, context);
      match GenerateResponse(generate, prompt) {
        case Ok(answer) => r := Ok(QaAnswer(Strip(answer), sources));
        case Err(e) => r := Err(AnswerFailed(AnswerFailedPrefix + e.message));
      }
    }
  }
}
