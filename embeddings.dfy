/** `EmbeddingService`: a fixed corpus of four analysis guidelines, embedded once when the
    service is built, ranked against a query by similarity. The sentence embedding model
    and the cosine similarity are oracles; scores are abstract ordered values. */
module Embeddings {
  import opened Common

  /** The corpus of guidelines, `ANALYSIS_GUIDELINES`, verbatim, each written as its lines. */
  const AnalysisGuidelines: seq<string> := [
    Join("\n", [
      "",
      "    A complete document should include:",
      "    - Clear title or heading",
      "    - Introduction or overview section",
      "    - Main content with logical structure",
      "    - Conclusion or summary",
      "    - References or citations (if applicable)",
      "    "]),
    Join("\n", [
      "",
      "    When assessing document completeness:",
      "    - Check for logical flow between sections",
      "    - Verify that claims are supported by evidence",
      "    - Look for missing context or unexplained terms",
      "    - Identify gaps in reasoning or argumentation",
      "    "]),
    Join("\n", [
      "",
      "    Evidence-based analysis principles:",
      "    - Only cite information present in the document",
      "    - Use direct quotes when possible",
      "    - Do not make assumptions about missing information",
      "    - Mark uncertain assessments with lower confidence scores",
      "    "]),
    Join("\n", [
      "",
      "    Common completeness issues to check:",
      "    - Missing introduction or background",
      "    - Undefined abbreviations or acronyms",
      "    - Unsupported claims without evidence",
      "    - Abrupt ending without conclusion",
      "    - Missing references for cited facts",
      "    "])
  ]

  /** One `(i, similarity)` pair of the ranking. */
  datatype Scored = Scored(index: nat, score: real)

  /** a precedes b after `sort(key=score, reverse=True)` on a list in index order: a higher
      score first, and on equal scores the earlier guideline first, since the sort is stable. */
  predicate Before(a: Scored, b: Scored) {
    a.score > b.score || (a.score == b.score && a.index < b.index)
  }

  /** Every element precedes every later one. */
  predicate Ranked(ys: seq<Scored>) {
    forall i, j :: 0 <= i < j < |ys| ==> Before(ys[i], ys[j])
  }

  /** Indices strictly increase along the list, as in the list the loop builds. */
  predicate IndexAscending(xs: seq<Scored>) {
    forall i, j :: 0 <= i < j < |xs| ==> xs[i].index < xs[j].index
  }

  /** The pairs the loop of `retrieve_relevant_guidelines` appends, in corpus order. */
  function Enumerate(scores: seq<real>): (xs: seq<Scored>)
    ensures |xs| == |scores| && IndexAscending(xs)
    ensures forall i :: 0 <= i < |xs| ==> xs[i] == Scored(i, scores[i])
  {
    seq(|scores|, i requires 0 <= i < |scores| => Scored(i, scores[i]))
  }

  /** Inserts x in front of the first element it does not score below. */
  function Insert(x: Scored, ys: seq<Scored>): seq<Scored>
  {
    if ys == [] || x.score >= ys[0].score then [x] + ys else [ys[0]] + Insert(x, ys[1..])
  }

  /** Python's stable `list.sort(key=score, reverse=True)`. */
  function SortDesc(xs: seq<Scored>): seq<Scored>
  {
    if xs == [] then [] else Insert(xs[0], SortDesc(xs[1..]))
  }

  lemma {:induction false} InsertPermutes(x: Scored, ys: seq<Scored>)
    ensures multiset(Insert(x, ys)) == multiset([x]) + multiset(ys)
    decreases |ys|
  {
    if ys != [] && x.score < ys[0].score {
      InsertPermutes(x, ys[1..]);
      assert ys == [ys[0]] + ys[1..];
    }
  }

  /** The sort only reorders. */
  lemma {:induction false} SortDescPermutes(xs: seq<Scored>)
    ensures multiset(SortDesc(xs)) == multiset(xs)
    decreases |xs|
  {
    if xs != [] {
      SortDescPermutes(xs[1..]);
      InsertPermutes(xs[0], SortDesc(xs[1..]));
      assert xs == [xs[0]] + xs[1..];
    }
  }

  /** Inserting an element whose index is below every index of a ranked list keeps it ranked. */
  lemma {:induction false} InsertRanked(x: Scored, ys: seq<Scored>)
    requires Ranked(ys)
    requires forall j :: 0 <= j < |ys| ==> x.index < ys[j].index
    ensures Ranked(Insert(x, ys))
    decreases |ys|
  {
    if ys != [] && x.score < ys[0].score {
      var rest := ys[1..];
      InsertRanked(x, rest);
      InsertPermutes(x, rest);
      var ins := Insert(x, rest);
      forall j | 0 <= j < |ins| ensures Before(ys[0], ins[j]) {
        assert ins[j] in multiset(ins);
        assert ins[j] == x || ins[j] in rest;
      }
      assert Insert(x, ys) == [ys[0]] + ins;
    }
  }

  /** On a list in index order the sort ranks by score, ties in index order. */
  lemma {:induction false} SortDescRanked(xs: seq<Scored>)
    requires IndexAscending(xs)
    ensures Ranked(SortDesc(xs))
    decreases |xs|
  {
    if xs != [] {
      var rest := xs[1..];
      SortDescRanked(rest);
      SortDescPermutes(rest);
      var s := SortDesc(rest);
      forall j | 0 <= j < |s| ensures xs[0].index < s[j].index {
        assert s[j] in multiset(s);
        var k :| 0 <= k < |rest| && rest[k] == s[j];
        assert rest[k] == xs[k + 1];
      }
      InsertRanked(xs[0], s);
    }
  }

  /** The corpus indices in ranking order. */
  function Ranking(scores: seq<real>): seq<Scored>
  {
    SortDesc(Enumerate(scores))
  }

  /** `top_indices`: the indices of the first `top_k` ranked pairs (Python `[:top_k]`). */
  function TopIndices(scores: seq<real>, topK: int): (t: seq<nat>)
  {
    var r := Ranking(scores);
    seq(PySliceEnd(|r|, topK), j requires 0 <= j < PySliceEnd(|r|, topK) => r[j].index)
  }

  /** The ranking lists every guideline exactly once, higher scores first, ties in corpus order. */
  lemma RankingFacts(scores: seq<real>)
    ensures var r := Ranking(scores);
      && |r| == |scores| && Ranked(r)
      && (forall j :: 0 <= j < |r| ==> r[j].index < |scores| && r[j].score == scores[r[j].index])
      && (forall u :: 0 <= u < |scores| ==> Scored(u, scores[u]) in r)
  {
    var xs := Enumerate(scores);
    var r := SortDesc(xs);
    SortDescPermutes(xs);
    SortDescRanked(xs);
    assert |r| == |xs| by {
      assert |multiset(r)| == |multiset(xs)|;
    }
    forall j | 0 <= j < |r| ensures r[j].index < |scores| && r[j].score == scores[r[j].index] {
      assert r[j] in multiset(xs);
    }
    forall u | 0 <= u < |scores| ensures Scored(u, scores[u]) in r {
      assert xs[u] in multiset(r);
    }
  }

  /** What `retrieve_relevant_guidelines` promises of the indices it picks: `min(top_k, n)`
      of them for a non-negative `top_k` (Python slice rules otherwise), all distinct corpus
      indices, in non-increasing score order with ties in corpus order, and every guideline
      left out ranks after every one picked. */
  lemma TopIndicesFacts(scores: seq<real>, topK: int)
    ensures var t := TopIndices(scores, topK);
      && |t| == PySliceEnd(|scores|, topK)
      && (topK >= 0 ==> |t| == Min(topK, |scores|))
      && (forall j :: 0 <= j < |t| ==> t[j] < |scores|)
      && (forall i, j :: 0 <= i < j < |t| ==> t[i] != t[j])
      && (forall i, j :: 0 <= i < j < |t| ==> scores[t[i]] >= scores[t[j]])
      && (forall i, j :: 0 <= i < j < |t| && scores[t[i]] == scores[t[j]] ==> t[i] < t[j])
      && (forall j, u :: 0 <= j < |t| && 0 <= u < |scores| && u !in t ==>
            scores[u] < scores[t[j]] || (scores[u] == scores[t[j]] && t[j] < u))
  {
    var r := Ranking(scores);
    RankingFacts(scores);
    var t := TopIndices(scores, topK);
    assert forall j :: 0 <= j < |t| ==> r[j].index == t[j];
    PrefixOrder(scores, r, t);
    PrefixBeatsRest(scores, r, t);
  }

  /** The indices of a prefix of a ranking are distinct, in ranking order. */
  lemma PrefixOrder(scores: seq<real>, r: seq<Scored>, t: seq<nat>)
    requires Ranked(r) && |t| <= |r|
    requires forall j :: 0 <= j < |r| ==> r[j].index < |scores| && r[j].score == scores[r[j].index]
    requires forall q :: 0 <= q < |t| ==> r[q].index == t[q]
    ensures forall j :: 0 <= j < |t| ==> t[j] < |scores|
    ensures forall i, j :: 0 <= i < j < |t| ==> t[i] != t[j] && scores[t[i]] >= scores[t[j]]
    ensures forall i, j :: 0 <= i < j < |t| && scores[t[i]] == scores[t[j]] ==> t[i] < t[j]
  {
    forall i, j | 0 <= i < j < |t| ensures t[i] != t[j] && scores[t[i]] >= scores[t[j]] {
      assert Before(r[i], r[j]);
    }
  }

  /** Every index left out of a prefix of a ranking ranks after every index in it. */
  lemma PrefixBeatsRest(scores: seq<real>, r: seq<Scored>, t: seq<nat>)
    requires Ranked(r) && |t| <= |r|
    requires forall j :: 0 <= j < |r| ==> r[j].index < |scores| && r[j].score == scores[r[j].index]
    requires forall u :: 0 <= u < |scores| ==> Scored(u, scores[u]) in r
    requires forall q :: 0 <= q < |t| ==> r[q].index == t[q]
    ensures forall j, u :: 0 <= j < |t| && 0 <= u < |scores| && u !in t ==>
      scores[u] < scores[t[j]] || (scores[u] == scores[t[j]] && t[j] < u)
  {
    forall j, u | 0 <= j < |t| && 0 <= u < |scores| && u !in t
      ensures scores[u] < scores[t[j]] || (scores[u] == scores[t[j]] && t[j] < u)
    {
      TopLeftOut(r, t, j, u, scores[u]);
    }
  }

  /** A pair of the ranking whose index was not picked sits after every picked one. */
  lemma TopLeftOut(r: seq<Scored>, t: seq<nat>, j: nat, u: nat, score: real)
    requires Ranked(r) && |t| <= |r| && j < |t|
    requires forall q :: 0 <= q < |t| ==> r[q].index == t[q]
    requires Scored(u, score) in r && u !in t
    ensures Before(r[j], Scored(u, score))
  {
    var p :| 0 <= p < |r| && r[p] == Scored(u, score);
    assert forall q :: 0 <= q < |t| ==> r[q].index != u;
    assert j < p;
  }

  /** The texts `retrieve_relevant_guidelines` returns. */
  function TopGuidelines(guidelines: seq<string>, scores: seq<real>, topK: int): seq<string>
    requires |scores| == |guidelines|
  {
    var t := TopIndices(scores, topK);
    TopIndicesFacts(scores, topK);
    seq(|t|, j requires 0 <= j < |t| => guidelines[t[j]])
  }

  /** `_embed_texts(texts)`: one embedding per text. */
  function EmbedAll(encode: string -> Vector, texts: seq<string>): (es: seq<Vector>)
    ensures |es| == |texts| && forall i :: 0 <= i < |texts| ==> es[i] == encode(texts[i])
  {
    seq(|texts|, i requires 0 <= i < |texts| => encode(texts[i]))
  }

  class EmbeddingService {
    /** `self.guidelines`, set once. */
    const guidelines: seq<string>
    /** `self.guideline_embeddings`, computed once from the guidelines. */
    const guidelineEmbeddings: seq<Vector>
    /** `SentenceTransformer.encode` on one text. */
    const encode: string -> Vector
    /** `_cosine_similarity`. */
    const similarity: (Vector, Vector) -> real

    /** The embeddings are those of the guidelines, in corpus order. */
    ghost predicate Valid() {
      guidelineEmbeddings == EmbedAll(encode, guidelines)
    }

    /** Builds the service: the corpus and one embedding per guideline. */
    constructor (encode: string -> Vector, similarity: (Vector, Vector) -> real)
      ensures Valid() && guidelines == AnalysisGuidelines
      ensures this.encode == encode && this.similarity == similarity
    {
      this.encode := encode;
      this.similarity := similarity;
      guidelines := AnalysisGuidelines;
      guidelineEmbeddings := EmbedAll(encode, AnalysisGuidelines);
    }

    /** The similarity of the query to each guideline, in corpus order. */
    function Scores(query: string): (s: seq<real>)
      ensures |s| == |guidelineEmbeddings|
      ensures forall i :: 0 <= i < |s| ==> s[i] == similarity(encode(query), guidelineEmbeddings[i])
    {
      seq(|guidelineEmbeddings|, i requires 0 <= i < |guidelineEmbeddings| => similarity(encode(query), guidelineEmbeddings[i]))
    }

    /** `retrieve_relevant_guidelines`: score every guideline against the query, sort the
        pairs by score, highest first, and return the texts of the first `top_k`. Nothing of
        the service changes. */
    method RetrieveRelevantGuidelines(query: string, topK: int) returns (texts: seq<string>)
      requires Valid()
      ensures texts == TopGuidelines(guidelines, Scores(query), topK)
    {
      var queryEmbedding := encode(query);
      var similarities: seq<Scored> := [];
      for i := 0 to |guidelineEmbeddings|
        invariant similarities == Enumerate(Scores(query)[..i])
      {
        similarities := similarities + [Scored(i, similarity(queryEmbedding, guidelineEmbeddings[i]))];
      }
      assert Scores(query)[..|guidelineEmbeddings|] == Scores(query);
      var sorted := SortDesc(similarities);
      RankingFacts(Scores(query));
      var top := sorted[..PySliceEnd(|sorted|, topK)];
      var topIndices := seq(|top|, j requires 0 <= j < |top| => top[j].index);
      texts := seq(|topIndices|, j requires 0 <= j < |topIndices| => guidelines[topIndices[j]]);
      assert topIndices == TopIndices(Scores(query), topK);
    }
  }

  /** Retrieval on the service returns `min(top_k, 4)` distinct guidelines of the corpus,
      best first, and none it leaves out ranks above one it returns. */
  lemma RetrievalFacts(guidelines: seq<string>, scores: seq<real>, topK: int)
    requires |scores| == |guidelines|
    ensures var texts := TopGuidelines(guidelines, scores, topK);
      var t := TopIndices(scores, topK);
      && |texts| == |t| == PySliceEnd(|guidelines|, topK)
      && forall j :: 0 <= j < |texts| ==> t[j] < |guidelines| && texts[j] == guidelines[t[j]]
  {
    TopIndicesFacts(scores, topK);
  }
}
