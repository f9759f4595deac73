/**
 * The retrieval-augmented feedback pipeline: a mock vector store whose search
 * returns two fixed contexts, the prompt built from the retrieved texts and
 * the query, and the flow from inputs to the generated reply.
 *
 * The embedding (`_embed_text`, random in the original) and the language
 * model client are the parameters `embed` and `generate`.
 */
module RagPipeline {
  import opened Strings
  import Template

  datatype RetrievedContext = RetrievedContext(text: string, relevanceScore: real, sourceId: string)

  /** The mock store; its index is never filled, so only the dimension is kept. */
  datatype VectorDatabase = VectorDatabase(dimension: int)

  /** The `k` that `generate_feedback` leaves at its default. */
  const DefaultK: int := 5

  const SampleContexts: seq<RetrievedContext> := [
    RetrievedContext("Sample context 1...", 0.92, "doc_123"),
    RetrievedContext("Sample context 2...", 0.88, "doc_456")
  ]

  /**
   * `VectorDatabase.search`: the two sample contexts, best first, whatever the
   * store, the query embedding and `k` (even when `k` is smaller than two).
   */
  function Search(db: VectorDatabase, queryEmbedding: seq<real>, k: int): (r: seq<RetrievedContext>)
    ensures r == SampleContexts
    ensures |r| == 2 && r[0].relevanceScore > r[1].relevanceScore
  {
    SampleContexts
  }

  /** `[c.text for c in context]`. */
  function Texts(context: seq<RetrievedContext>): (r: seq<string>)
    ensures |r| == |context|
    ensures forall k :: 0 <= k < |r| ==> r[k] == context[k].text
  {
    seq(|context|, k requires 0 <= k < |context| => context[k].text)
  }

  const PromptHead: string := "Context:\n"
  const QueryHeader: string := "\n\nQuery:\n"
  const PromptTail: string := "\n\nAnswer based on context:"

  /**
   * `_construct_prompt`: the context texts one per line, then the query, then
   * the instruction. Every context text and then the query occur verbatim and
   * in retrieval order, whatever characters they hold.
   */
  function ConstructPrompt(query: string, context: seq<RetrievedContext>): (p: string)
    ensures |p| >= |PromptHead| && p[..|PromptHead|] == PromptHead
    ensures |p| >= |PromptTail| && p[|p| - |PromptTail|..] == PromptTail
    ensures Template.EmbedsInOrder(p, Texts(context) + [query])
  {
    PromptEmbeds(query, context);
    PromptHead + Join("\n", Texts(context)) + QueryHeader + query + PromptTail
  }

  /** The literal pieces between the context texts and the query. */
  function PromptPieces(head: string, queryHeader: string, tail: string, n: nat): (r: seq<string>)
    ensures |r| == n + 2
  {
    if n == 0 then [head + queryHeader, tail]
    else [head] + Template.Repeat(n - 1, "\n") + [queryHeader, tail]
  }

  /** The prompt is an interpolation of the texts and the query, so it embeds them in order. */
  lemma PromptEmbeds(query: string, context: seq<RetrievedContext>)
    ensures PromptHead + Join("\n", Texts(context)) + QueryHeader + query + PromptTail
         == Template.Interpolate(PromptPieces(PromptHead, QueryHeader, PromptTail, |context|), Texts(context) + [query])
    ensures Template.EmbedsInOrder(PromptHead + Join("\n", Texts(context)) + QueryHeader + query + PromptTail,
                                   Texts(context) + [query])
  {
    PiecesEmbed(PromptHead, QueryHeader, PromptTail, Texts(context), query);
  }

  /** `PromptEmbeds` for any fixed pieces. */
  lemma PiecesEmbed(head: string, queryHeader: string, tail: string, texts: seq<string>, query: string)
    ensures head + Join("\n", texts) + queryHeader + query + tail
         == Template.Interpolate(PromptPieces(head, queryHeader, tail, |texts|), texts + [query])
    ensures Template.EmbedsInOrder(head + Join("\n", texts) + queryHeader + query + tail, texts + [query])
  {
    PiecesInterpolate(head, queryHeader, tail, texts, query);
    Template.InterpolateEmbeds(PromptPieces(head, queryHeader, tail, |texts|), texts + [query]);
  }

  /** The prompt text is the interpolation of the texts and the query between the pieces. */
  lemma PiecesInterpolate(head: string, queryHeader: string, tail: string, texts: seq<string>, query: string)
    ensures head + Join("\n", texts) + queryHeader + query + tail
         == Template.Interpolate(PromptPieces(head, queryHeader, tail, |texts|), texts + [query])
  {
    if |texts| == 0 {
      NoTextsInterpolate(head, queryHeader, tail, texts, query);
    } else {
      TextsInterpolate(head, queryHeader, tail, texts, query);
    }
  }

  /** Without context texts the header and the query header form one piece. */
  lemma NoTextsInterpolate(head: string, queryHeader: string, tail: string, texts: seq<string>, query: string)
    requires |texts| == 0
    ensures head + Join("\n", texts) + queryHeader + query + tail
         == Template.Interpolate(PromptPieces(head, queryHeader, tail, |texts|), texts + [query])
  {
    assert PromptPieces(head, queryHeader, tail, |texts|) == [head + queryHeader, tail];
    assert texts + [query] == [query];
    assert head + Join("\n", texts) == head;
    Template.InterpolatePair(head + queryHeader, query, tail);
  }

  /** With context texts the separators between them are the inner pieces. */
  lemma TextsInterpolate(head: string, queryHeader: string, tail: string, texts: seq<string>, query: string)
    requires |texts| >= 1
    ensures head + Join("\n", texts) + queryHeader + query + tail
         == Template.Interpolate(PromptPieces(head, queryHeader, tail, |texts|), texts + [query])
  {
    assert PromptPieces(head, queryHeader, tail, |texts|)
        == [head] + Template.Repeat(|texts| - 1, "\n") + [queryHeader] + [tail];
    Template.InterpolateJoin(head, "\n", texts, queryHeader, [tail], [query]);
    assert [queryHeader] + [tail] == [queryHeader, tail];
    Template.InterpolatePair(queryHeader, query, tail);
    Regroup(head + Join("\n", texts), queryHeader, query, tail);
  }

  /** Concatenation regrouped around its first operand. */
  lemma Regroup(a: string, b: string, c: string, d: string)
    ensures a + b + c + d == a + (b + c + d)
  {
  }

  /**
   * Read line by line, the prompt gives back every context text, in retrieval
   * order, and the query, provided none of them holds a line break.
   */
  lemma PromptLines(query: string, context: seq<RetrievedContext>)
    requires |context| >= 1
    requires forall k :: 0 <= k < |context| ==> '\n' !in context[k].text
    requires '\n' !in query
    ensures Split(ConstructPrompt(query, context), '\n')
         == ["Context:"] + Texts(context) + ["", "Query:", query, "", "Answer based on context:"]
  {
    PromptLayout(ConstructPrompt(query, context), query, context);
  }

  /** `PromptLines` for the text the prompt is built from. */
  lemma PromptLayout(p: string, query: string, context: seq<RetrievedContext>)
    requires |context| >= 1
    requires forall k :: 0 <= k < |context| ==> '\n' !in context[k].text
    requires '\n' !in query
    requires p == PromptHead + Join("\n", Texts(context)) + QueryHeader + query + PromptTail
    ensures Split(p, '\n')
         == ["Context:"] + Texts(context) + ["", "Query:", query, "", "Answer based on context:"]
  {
    PiecesShape();
    var texts := Texts(context);
    assert forall k :: 0 <= k < |texts| ==> '\n' !in texts[k];
    PiecesLayout(p, PromptHead, QueryHeader, PromptTail, "Context:", "Query:", "Answer based on context:",
                 texts, query);
  }

  /** The fixed pieces of the prompt, cut at their line breaks. */
  lemma PiecesShape()
    ensures PromptHead == "Context:" + ['\n']
    ensures QueryHeader == ['\n'] + [] + ['\n'] + "Query:" + ['\n']
    ensures PromptTail == ['\n'] + [] + ['\n'] + "Answer based on context:"
    ensures '\n' !in "Context:" && '\n' !in "Query:" && '\n' !in "Answer based on context:"
  {
    HeadShape();
    QueryHeaderShape();
    TailShape();
  }

  lemma HeadShape()
    ensures PromptHead == "Context:" + ['\n'] && '\n' !in "Context:"
  {
  }

  lemma QueryHeaderShape()
    ensures QueryHeader == ['\n'] + [] + ['\n'] + "Query:" + ['\n'] && '\n' !in "Query:"
  {
  }

  lemma TailShape()
    ensures PromptTail == ['\n'] + [] + ['\n'] + "Answer based on context:" && '\n' !in "Answer based on context:"
  {
    assert PromptTail == "\n\n" + "Answer based on context:";
    assert "\n\n" == ['\n'] + [] + ['\n'];
  }

  /** `PromptLayout` for any fixed pieces that each end or begin a line. */
  lemma PiecesLayout(p: string, head: string, queryHeader: string, tail: string, h: string, q: string, t: string,
                     texts: seq<string>, query: string)
    requires head == h + ['\n'] && queryHeader == ['\n'] + [] + ['\n'] + q + ['\n'] && tail == ['\n'] + [] + ['\n'] + t
    requires |texts| >= 1
    requires forall k :: 0 <= k < |texts| ==> '\n' !in texts[k]
    requires '\n' !in h && '\n' !in q && '\n' !in query && '\n' !in t
    requires p == head + Join("\n", texts) + queryHeader + query + tail
    ensures Split(p, '\n') == [h] + texts + ["", q, query, "", t]
  {
    var cs := Join("\n", texts);
    assert p == h + ['\n'] + cs + ['\n'] + [] + ['\n'] + q + ['\n'] + query + ['\n'] + [] + ['\n'] + t;
    LayoutLines(p, h, texts, q, query, t);
  }

  /** The line structure of the prompt, for any header, texts, query and instruction. */
  lemma {:induction false} LayoutLines(p: string, h: string, texts: seq<string>, q: string, query: string, t: string)
    requires |texts| >= 1
    requires forall k :: 0 <= k < |texts| ==> '\n' !in texts[k]
    requires '\n' !in h && '\n' !in q && '\n' !in query && '\n' !in t
    requires p == h + ['\n'] + Join("\n", texts) + ['\n'] + [] + ['\n'] + q + ['\n'] + query + ['\n'] + [] + ['\n'] + t
    ensures Split(p, '\n') == [h] + texts + ["", q, query, "", t]
  {
    var cs := Join("\n", texts);
    var rest := [] + ['\n'] + q + ['\n'] + query + ['\n'] + [] + ['\n'] + t;
    var s1 := cs + ['\n'] + rest;
    assert h + ['\n'] + Join("\n", texts) + ['\n'] + [] + ['\n'] + q + ['\n'] + query + ['\n'] + [] + ['\n'] + t
        == h + ['\n'] + s1;
    SplitPrefix(h, '\n', s1);
    SplitJoin(texts, '\n');
    SplitConcat(cs, '\n', rest);
    QueryLines(q, query, t);
  }

  /** The lines after the last context text, for any header `q` and instruction `t`. */
  lemma {:induction false} QueryLines(q: string, query: string, t: string)
    requires '\n' !in q && '\n' !in query && '\n' !in t
    ensures Split([] + ['\n'] + q + ['\n'] + query + ['\n'] + [] + ['\n'] + t, '\n') == ["", q, query, "", t]
  {
    var s5 := [] + ['\n'] + t;
    var s4 := query + ['\n'] + s5;
    var s3 := q + ['\n'] + s4;
    var s2 := [] + ['\n'] + s3;
    assert [] + ['\n'] + q + ['\n'] + query + ['\n'] + [] + ['\n'] + t == s2;
    SplitNoSeparator(t, '\n');
    SplitPrefix([], '\n', t);
    SplitPrefix(query, '\n', s5);
    SplitPrefix(q, '\n', s4);
    SplitPrefix([], '\n', s3);
  }

  /** Only the texts reach the prompt: scores and source ids do not matter. */
  lemma {:induction false} ScoresAndSourcesIgnored(query: string, c1: seq<RetrievedContext>, c2: seq<RetrievedContext>)
    requires |c1| == |c2|
    requires forall k :: 0 <= k < |c1| ==> c1[k].text == c2[k].text
    ensures ConstructPrompt(query, c1) == ConstructPrompt(query, c2)
  {
    assert Texts(c1) == Texts(c2);
  }

  /**
   * `generate_feedback`: the prompt's query is the resume text alone; the job
   * description only feeds the embedding, which the search ignores, so the
   * reply is the model's answer to the resume text over the sample contexts.
   */
  function GenerateFeedback(db: VectorDatabase, resumeText: string, jobDescription: string,
                            embed: string -> seq<real>, generate: string -> string): (r: string)
    ensures r == generate(ConstructPrompt(resumeText, SampleContexts))
  {
    var queryEmbedding := embed(resumeText + jobDescription);
    var context := Search(db, queryEmbedding, DefaultK);
    generate(ConstructPrompt(resumeText, context))
  }

  /** The job description, the store and the embedding never change the feedback. */
  lemma JobDescriptionDoesNotMatter(db1: VectorDatabase, db2: VectorDatabase, resumeText: string,
                                    jd1: string, jd2: string, embed1: string -> seq<real>,
                                    embed2: string -> seq<real>, generate: string -> string)
    ensures GenerateFeedback(db1, resumeText, jd1, embed1, generate)
         == GenerateFeedback(db2, resumeText, jd2, embed2, generate)
  {
  }

  /** The prompt for the sample contexts, line by line. */
  lemma SamplePromptLines(query: string)
    requires '\n' !in query
    ensures Split(ConstructPrompt(query, SampleContexts), '\n')
         == ["Context:", "Sample context 1...", "Sample context 2...", "", "Query:", query, "",
             "Answer based on context:"]
  {
    assert Texts(SampleContexts) == ["Sample context 1...", "Sample context 2..."];
    PromptLines(query, SampleContexts);
  }
}
