/** `LangChainQAAgent`: question answering through LangChain chains. The retriever, the
    chat model and the `RetrievalQA` chain are oracles. The custom chain retrieves twice,
    once inside the chain for the prompt and once more for the citations; the retriever
    oracle is told which of the two retrievals it serves, so the model does not assume
    that they agree. */
module QaAgentLangchain {
  import opened Common
  import opened ChunkStore
  import opened VectorDbLangchain
  import QaAgent

  /** One entry of `sources`: the number is a string here, and the document is the raw
      `filename` value. */
  datatype LcCitation = LcCitation(sourceNumber: string, text: string, document: MetaValue, documentId: MetaValue)

  datatype LcAnswer = LcAnswer(answer: string, sources: seq<LcCitation>)

  /** How much of a chunk a citation shows. */
  const DisplayLimit: nat := 200
  const Ellipsis: string := "..."

  /** The retriever's `search_kwargs`: `k`, and the `document_id` filter only when a
      non-empty id is given, the same choice `search` makes. */
  function RetrieverKwargs(topK: int, documentId: Option<string>): (kw: SearchKwargs)
    ensures kw.k == topK
    ensures kw.filter == SearchFilter(documentId)
    ensures kw.filter.Some? <==> documentId.Some? && documentId.value != ""
  {
    if documentId.Some? && documentId.value != "" then SearchKwargs(topK, Some(documentId.value))
    else SearchKwargs(topK, None)
  }

  /** The default `top_k` of the answer methods. */
  const DefaultTopK: int := 5

  /** `get_retriever` without kwargs builds the retriever the agent builds for its default
      `top_k` and no document (or an empty id). */
  lemma GetRetrieverAgrees()
    ensures AsRetrieverKwargs(None) == RetrieverKwargs(DefaultTopK, None)
    ensures AsRetrieverKwargs(None) == RetrieverKwargs(DefaultTopK, Some(""))
  {
  }

  /** The text a citation shows: the whole chunk when it has at most 200 characters, else
      its first 200 characters and `...`. */
  function DisplayText(content: string): (t: string)
    ensures |t| <= DisplayLimit + |Ellipsis|
    ensures |content| <= DisplayLimit ==> t == content
    ensures |content| > DisplayLimit ==>
      |t| == DisplayLimit + |Ellipsis| && t[..DisplayLimit] == content[..DisplayLimit] && t[DisplayLimit..] == Ellipsis
  {
    if |content| > DisplayLimit then content[..DisplayLimit] + Ellipsis else content
  }

  /** The citation of the document numbered i. */
  function LcCitationOf(i: nat, doc: LcDocument): LcCitation {
    LcCitation(NatToString(i), DisplayText(doc.pageContent),
               GetOr(doc.metadata, FilenameKey, Text(QaAgent.UnknownLabel)),
               GetOr(doc.metadata, DocumentIdKey, Text(QaAgent.UnknownLabel)))
  }

  /** The citations of the retrieved documents, numbered from 1. */
  function LcCitations(docs: seq<LcDocument>): seq<LcCitation> {
    seq(|docs|, i requires 0 <= i < |docs| => LcCitationOf(i + 1, docs[i]))
  }

  /** The context lines `format_docs` builds, numbered from 1. */
  function SourceBlocks(docs: seq<LcDocument>): seq<string> {
    seq(|docs|, i requires 0 <= i < |docs| => QaAgent.SourceLabel(i + 1, docs[i].pageContent))
  }

  /** `format_docs`. */
  method FormatDocs(docs: seq<LcDocument>) returns (context: string)
    ensures context == Join("\n\n", SourceBlocks(docs))
  {
    var formatted: seq<string> := [];
    for i := 0 to |docs|
      invariant formatted == SourceBlocks(docs[..i])
    {
      formatted := formatted + [QaAgent.SourceLabel(i + 1, docs[i].pageContent)];
    }
    assert docs[..|docs|] == docs;
    context := Join("\n\n", formatted);
  }

  /** The loop that builds `sources` from documents. */
  method BuildSources(docs: seq<LcDocument>) returns (sources: seq<LcCitation>)
    ensures sources == LcCitations(docs)
  {
    sources := [];
    for i := 0 to |docs|
      invariant sources == LcCitations(docs[..i])
    {
      sources := sources + [LcCitationOf(i + 1, docs[i])];
    }
    assert docs[..|docs|] == docs;
  }

  /** Each document's content appears in the formatted context, after its `[Source i]: `
      label, at its own offset. */
  lemma FormatDocsContains(docs: seq<LcDocument>)
    ensures forall i :: 0 <= i < |docs| ==>
      var block := QaAgent.SourceLabel(i + 1, docs[i].pageContent);
      var o := JoinOffset("\n\n", SourceBlocks(docs), i);
      o + |block| <= |Join("\n\n", SourceBlocks(docs))| && Join("\n\n", SourceBlocks(docs))[o..o + |block|] == block
  {
    forall i | 0 <= i < |docs|
      ensures var block := QaAgent.SourceLabel(i + 1, docs[i].pageContent);
        var o := JoinOffset("\n\n", SourceBlocks(docs), i);
        o + |block| <= |Join("\n\n", SourceBlocks(docs))| && Join("\n\n", SourceBlocks(docs))[o..o + |block|] == block
    {
      JoinContains("\n\n", SourceBlocks(docs), i);
    }
  }

  /** The sources are numbered by the decimal strings of 1 to n, which `int` reads back;
      each shows at most 203 characters of its chunk; document and id default to
      `Unknown`. */
  lemma LcCitationsFacts(docs: seq<LcDocument>)
    ensures var cs := LcCitations(docs);
      && |cs| == |docs|
      && (forall i :: 0 <= i < |cs| ==> AllDigits(cs[i].sourceNumber) && ParseDecimal(cs[i].sourceNumber) == i + 1)
      && (forall i :: 0 <= i < |cs| ==> |cs[i].text| <= DisplayLimit + |Ellipsis|)
      && (forall i :: 0 <= i < |cs| && FilenameKey !in docs[i].metadata ==> cs[i].document == Text(QaAgent.UnknownLabel))
      && (forall i :: 0 <= i < |cs| && DocumentIdKey !in docs[i].metadata ==> cs[i].documentId == Text(QaAgent.UnknownLabel))
  {
    var cs := LcCitations(docs);
    forall i | 0 <= i < |cs| ensures ParseDecimal(cs[i].sourceNumber) == i + 1 {
      ParseNatToString(i + 1);
    }
  }

  /** The custom chain's template, before and after the context. */
  const TemplateHead: string := QaAgent.QaInstructions + "\n\nContext from documents:\n"

  /** The custom template filled in. */
  function CustomPrompt(context: string, question: string): string {
    TemplateHead + context + QaAgent.QuestionCue + question + QaAgent.AnswerCue
  }

  /** The filled template is the instructions, the context and the question, and the
      context and the question can be read back from it. */
  lemma CustomPromptShape(context: string, question: string)
    ensures var p := CustomPrompt(context, question);
      var c := |TemplateHead|;
      var q := c + |context| + |QaAgent.QuestionCue|;
      && |p| == q + |question| + |QaAgent.AnswerCue|
      && p[..c] == TemplateHead
      && p[c..c + |context|] == context
      && p[q..q + |question|] == question
  {
    QaAgent.FiveParts(TemplateHead, context, QaAgent.QuestionCue, question, QaAgent.AnswerCue);
  }

  /** `answer_question_custom`: the chain retrieves (retrieval 0), formats, fills the
      template and asks the model; the answer is stripped; the citations come from a
      second retrieval (retrieval 1). An exception of the model propagates. */
  function CustomAnswer(retrieve: (SearchKwargs, string, nat) -> seq<LcDocument>, chat: string -> Result<string, string>,
                        question: string, documentId: Option<string>, topK: int): Result<LcAnswer, string>
  {
    var kw := RetrieverKwargs(topK, documentId);
    match chat(CustomPrompt(Join("\n\n", SourceBlocks(retrieve(kw, question, 0))), question))
    case Err(e) => Err(e)
    case Ok(answer) => Ok(LcAnswer(Strip(answer), LcCitations(retrieve(kw, question, 1))))
  }

  /** `answer_question_simple`: `RetrievalQA` with the same retriever; its answer is
      returned as it is, and its source documents are cited. */
  function SimpleAnswer(retrievalQa: (SearchKwargs, string) -> Result<(string, seq<LcDocument>), string>,
                        question: string, documentId: Option<string>, topK: int): Result<LcAnswer, string>
  {
    match retrievalQa(RetrieverKwargs(topK, documentId), question)
    case Err(e) => Err(e)
    case Ok((result, docs)) => Ok(LcAnswer(result, LcCitations(docs)))
  }

  /** The custom chain's answer is the model's reply stripped, and its citations are those
      of the second retrieval, with the same `search_kwargs` as the first. */
  lemma CustomAnswerFacts(retrieve: (SearchKwargs, string, nat) -> seq<LcDocument>, chat: string -> Result<string, string>,
                          question: string, documentId: Option<string>, topK: int)
    ensures var kw := RetrieverKwargs(topK, documentId);
      var reply := chat(CustomPrompt(Join("\n\n", SourceBlocks(retrieve(kw, question, 0))), question));
      var r := CustomAnswer(retrieve, chat, question, documentId, topK);
      && (r.Ok? <==> reply.Ok?)
      && (r.Ok? ==> r.value.answer == Strip(reply.value) && r.value.sources == LcCitations(retrieve(kw, question, 1)))
      && (r.Err? ==> r.error == reply.error)
  {
  }

  class LangChainQAAgent {
    /** `vector_db.as_retriever(search_kwargs).invoke(question)`, for the n-th retrieval
        of a call. */
    const retrieve: (SearchKwargs, string, nat) -> seq<LcDocument>
    /** `prompt | llm | StrOutputParser()` on a filled prompt. */
    const chat: string -> Result<string, string>
    /** `RetrievalQA.from_chain_type(...).invoke`: the result and the source documents. */
    const retrievalQa: (SearchKwargs, string) -> Result<(string, seq<LcDocument>), string>

    constructor (retrieve: (SearchKwargs, string, nat) -> seq<LcDocument>, chat: string -> Result<string, string>,
                 retrievalQa: (SearchKwargs, string) -> Result<(string, seq<LcDocument>), string>)
      ensures this.retrieve == retrieve && this.chat == chat && this.retrievalQa == retrievalQa
    {
      this.retrieve := retrieve;
      this.chat := chat;
      this.retrievalQa := retrievalQa;
    }

    /** `answer_question_simple`. */
    method AnswerQuestionSimple(question: string, documentId: Option<string>, topK: int) returns (r: Result<LcAnswer, string>)
      ensures r == SimpleAnswer(retrievalQa, question, documentId, topK)
    {
      var kw := RetrieverKwargs(topK, documentId);
      match retrievalQa(kw, question) {
        case Err(e) => r := Err(e);
        case Ok((result, docs)) =>
          var sources := BuildSources(docs);
          r := Ok(LcAnswer(result, sources));
      }
    }

    /** `answer_question_custom`. */
    method AnswerQuestionCustom(question: string, documentId: Option<string>, topK: int) returns (r: Result<LcAnswer, string>)
      ensures r == CustomAnswer(retrieve, chat, question, documentId, topK)
    {
      var kw := RetrieverKwargs(topK, documentId);
      var context := FormatDocs(retrieve(kw, question, 0));
      match chat(CustomPrompt(context, question)) {
        case Err(e) => r := Err(e);
        case Ok(answer) =>
          var sourceDocs := retrieve(kw, question, 1);
          var sources := BuildSources(sourceDocs);
          r := Ok(LcAnswer(Strip(answer), sources));
      }
    }

    /** `answer_question`: the custom chain, with the same arguments. */
    method AnswerQuestion(question: string, documentId: Option<string>, topK: int) returns (r: Result<LcAnswer, string>)
      ensures r == CustomAnswer(retrieve, chat, question, documentId, topK)
    {
      r := AnswerQuestionCustom(question, documentId, topK);
    }
  }
}
