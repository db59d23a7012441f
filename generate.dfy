/**
 * The two-step answering graph: `retrieve` (search, hydrate, rerank, map the
 * rerank indices back onto the hydrated list) followed by `generate` (join
 * the context texts into the prompt and ask the language model). Each step
 * returns a partial state that the graph merges into the running state.
 */
module Generate {
  import opened Wrappers
  import opened Documents
  import Retrieval
  import Config

  /**
   * The external collaborators, as opaque functions:
   * `search(question, k)` is the MMR retriever, `store` the point store the
   * hydration fetches from, `rerank(question, texts, top_n)` gives the
   * `index` of each rerank result in result order, `llm(prompt)` the model's
   * reply text.
   */
  datatype Services = Services(
    search: (string, nat) -> seq<Doc>,
    store: Retrieval.PointStore,
    rerank: (string, seq<string>, nat) -> seq<nat>,
    llm: string -> string)

  /** The graph state: a question, and the keys the steps add to it. */
  datatype State = State(question: string, context: Option<seq<Doc>>, answer: Option<string>)

  /** What one step returns: the state keys it sets. */
  datatype Update = Update(context: Option<seq<Doc>>, answer: Option<string>)

  /** Why a run of the graph stops before an answer. */
  datatype PipelineError =
    | HydrationFailed(cause: Retrieval.HydrationError)
    | RerankIndexOutOfRange

  /** Merging a step's output into the state: the keys it sets win, the rest stay. */
  function Merge(s: State, u: Update): (r: State)
    ensures r.question == s.question
    ensures u.context.Some? ==> r.context == u.context
    ensures u.context.None? ==> r.context == s.context
    ensures u.answer.Some? ==> r.answer == u.answer
    ensures u.answer.None? ==> r.answer == s.answer
  {
    State(
      s.question,
      if u.context.Some? then u.context else s.context,
      if u.answer.Some? then u.answer else s.answer)
  }

  /** The separator between context passages in the prompt. */
  const SEPARATOR := "\n\n"

  /** The texts handed to the reranker: one per hydrated document, in order. */
  function RerankTexts(docs: seq<Doc>): (texts: seq<string>)
    ensures |texts| == |docs|
    ensures forall i | 0 <= i < |docs| :: texts[i] == docs[i].page_content
  {
    seq(|docs|, i requires 0 <= i < |docs| => docs[i].page_content)
  }

  predicate IndicesInRange(indices: seq<nat>, n: nat) {
    forall k | 0 <= k < |indices| :: indices[k] < n
  }

  /** The documents at the given indices, one per index, in the order of the indices. */
  function SelectByIndex(docs: seq<Doc>, indices: seq<nat>): (chosen: seq<Doc>)
    requires IndicesInRange(indices, |docs|)
    ensures |chosen| == |indices|
    ensures forall k | 0 <= k < |indices| :: chosen[k] == docs[indices[k]]
    ensures forall k | 0 <= k < |chosen| :: chosen[k] in docs
  {
    seq(|indices|, k requires 0 <= k < |indices| => docs[indices[k]])
  }

  /**
   * The `retrieve` step: MMR search for `RETRIEVAL_MMR_K` hits, hydration,
   * reranking of the hydrated texts for the top `RERANK_FINAL_K`, and the
   * rerank indices mapped back onto the hydrated list. It sets only `context`.
   */
  function RetrieveStep(services: Services, state: State): (r: Result<Update, PipelineError>)
    ensures r.Success? ==> r.value.context.Some? && r.value.answer.None?
  {
    var question := state.question;
    var hits := services.search(question, Config.RETRIEVAL_MMR_K);
    match Retrieval.Enriched(services.store, hits)
    case Failure(e) => Failure(HydrationFailed(e))
    case Success(hydrated) =>
      var indices := services.rerank(question, RerankTexts(hydrated), Config.RERANK_FINAL_K);
      if IndicesInRange(indices, |hydrated|) then
        Success(Update(Some(SelectByIndex(hydrated, indices)), None))
      else
        Failure(RerankIndexOutOfRange)
  }

  /**
   * The parts with `SEPARATOR` between neighbours: empty for no parts, a lone
   * part as it is, and otherwise starting with the first part and ending with
   * the last.
   */
  function Join(parts: seq<string>): (r: string)
    ensures parts == [] ==> r == ""
    ensures |parts| == 1 ==> r == parts[0]
    ensures parts != [] ==> |parts[0]| <= |r| && r[..|parts[0]|] == parts[0]
    ensures parts != [] ==> |parts[|parts| - 1]| <= |r| && r[|r| - |parts[|parts| - 1]|..] == parts[|parts| - 1]
  {
    if parts == [] then ""
    else if |parts| == 1 then parts[0]
    else
      var rest := Join(parts[1..]);
      var last := parts[|parts| - 1];
      var r := parts[0] + SEPARATOR + rest;
      assert r[|r| - |last|..] == rest[|rest| - |last|..];
      r
  }

  /**
   * The context block: the page contents joined in context order. It is empty
   * for no context, a lone passage's text as it is, and otherwise starts with
   * the first passage's text and ends with the last one's.
   */
  function ContextText(context: seq<Doc>): (r: string)
    ensures context == [] ==> r == ""
    ensures |context| == 1 ==> r == context[0].page_content
    ensures context != [] ==>
      var first := context[0].page_content;
      var last := context[|context| - 1].page_content;
      && |first| <= |r| && r[..|first|] == first
      && |last| <= |r| && r[|r| - |last|..] == last
  {
    Join(seq(|context|, i requires 0 <= i < |context| => context[i].page_content))
  }

  /** The prompt template's text around the `{context}` and `{question}` slots. */
  const PROMPT_HEAD := "You are a helpful research assistant specializing in feminist theory,\nsocial science, and gender studies. Use ONLY the context provided below to\nanswer the question. If the context is not sufficient, say you don't know.\n\nContext:\n"
  const PROMPT_MIDDLE := "\n\nQuestion:\n"
  const PROMPT_TAIL := "\n\nAnswer in a clear, concise way that would make sense to a non-expert reader."

  /**
   * The template filled with a context block and a question: the head, the
   * context block, the middle, the question and the tail, each at its fixed
   * offset.
   */
  function Prompt(context: string, question: string): (p: string)
    ensures var c := |PROMPT_HEAD|;
      var q := c + |context| + |PROMPT_MIDDLE|;
      && |p| == q + |question| + |PROMPT_TAIL|
      && p[..c] == PROMPT_HEAD
      && p[c..c + |context|] == context
      && p[c + |context|..q] == PROMPT_MIDDLE
      && p[q..q + |question|] == question
      && p[q + |question|..] == PROMPT_TAIL
  {
    PROMPT_HEAD + context + PROMPT_MIDDLE + question + PROMPT_TAIL
  }

  /** The `generate` step: it sets only `answer`, the model's reply to the filled prompt. */
  function GenerateStep(llm: string -> string, state: State): (u: Update)
    requires state.context.Some?
    ensures u.context.None? && u.answer.Some?
  {
    Update(None, Some(llm(Prompt(ContextText(state.context.value), state.question))))
  }

  /**
   * One run of the graph on a question: start from the question alone, merge
   * the output of `retrieve`, then that of `generate`. A run fails exactly
   * when `retrieve` does, with its error; a completed run keeps the question
   * and holds both a context and an answer.
   */
  function Invoke(services: Services, question: string): (r: Result<State, PipelineError>)
    ensures var retrieved := RetrieveStep(services, State(question, None, None));
      && (r.Failure? <==> retrieved.Failure?)
      && (r.Failure? ==> r.error == retrieved.error)
    ensures r.Success? ==> r.value.question == question && r.value.context.Some? && r.value.answer.Some?
  {
    var start := State(question, None, None);
    match RetrieveStep(services, start)
    case Failure(e) => Failure(e)
    case Success(retrieved) =>
      var afterRetrieve := Merge(start, retrieved);
      Success(Merge(afterRetrieve, GenerateStep(services.llm, afterRetrieve)))
  }

  // ---------------------------------------------------------------------------
  // The rerank index mapping

  /**
   * On success the context is the hydrated documents at the rerank indices, in
   * rerank order, and the reranker saw exactly the hydrated texts in order.
   */
  lemma RetrieveContextFollowsRerank(services: Services, state: State)
    ensures RetrieveStep(services, state).Success? ==>
      var hits := services.search(state.question, Config.RETRIEVAL_MMR_K);
      && Retrieval.Enriched(services.store, hits).Success?
      && var hydrated := Retrieval.Enriched(services.store, hits).value;
      && var indices := services.rerank(state.question, RerankTexts(hydrated), Config.RERANK_FINAL_K);
      && var context := RetrieveStep(services, state).value.context.value;
      && |context| == |indices|
      && (forall k | 0 <= k < |indices| :: indices[k] < |hydrated| && context[k] == hydrated[indices[k]])
      && (forall k | 0 <= k < |context| :: context[k] in hydrated)
  {
  }

  /** The step fails exactly when hydration fails or the reranker names a missing candidate. */
  lemma RetrieveStepFailure(services: Services, state: State)
    ensures var hits := services.search(state.question, Config.RETRIEVAL_MMR_K);
      RetrieveStep(services, state).Failure? <==>
        || Retrieval.Enriched(services.store, hits).Failure?
        || !IndicesInRange(
             services.rerank(state.question, RerankTexts(Retrieval.Enriched(services.store, hits).value), Config.RERANK_FINAL_K),
             |Retrieval.Enriched(services.store, hits).value|)
  {
  }

  /** Rerank indices `[2, 0]` over `[d0, d1, d2]` give `[d2, d0]`. */
  lemma SelectByIndexExample(d0: Doc, d1: Doc, d2: Doc)
    ensures SelectByIndex([d0, d1, d2], [2, 0]) == [d2, d0]
  {
  }

  /** A reranker that keeps to `top_n` keeps the context within `RERANK_FINAL_K`. */
  lemma ContextWithinFinalK(services: Services, state: State)
    requires forall q, texts, n :: |services.rerank(q, texts, n)| <= n
    ensures RetrieveStep(services, state).Success? ==>
      |RetrieveStep(services, state).value.context.value| <= Config.RERANK_FINAL_K
  {
    RetrieveContextFollowsRerank(services, state);
  }

  predicate Distinct(indices: seq<nat>) {
    forall i, j | 0 <= i < j < |indices| :: indices[i] != indices[j]
  }

  /** The numbers below `n`. */
  function Below(n: nat): (s: set<nat>)
    ensures |s| == n
    ensures forall i: nat :: i in s <==> i < n
  {
    if n == 0 then {} else Below(n - 1) + {n - 1}
  }

  /** The indices a sequence uses. */
  function Elements(indices: seq<nat>): set<nat> {
    set k | k in indices
  }

  /** A sequence with no repeated element has as many elements as its set. */
  lemma {:induction false} DistinctCardinality(indices: seq<nat>)
    requires Distinct(indices)
    ensures |Elements(indices)| == |indices|
  {
    if indices != [] {
      var rest := indices[1..];
      assert Distinct(rest) by {
        forall i, j | 0 <= i < j < |rest| ensures rest[i] != rest[j] {
          assert rest[i] == indices[i + 1] && rest[j] == indices[j + 1];
        }
      }
      DistinctCardinality(rest);
      var tail := Elements(rest);
      assert indices[0] !in tail by {
        forall j | 0 <= j < |rest| ensures rest[j] != indices[0] {
          assert rest[j] == indices[j + 1];
        }
      }
      assert Elements(indices) == tail + {indices[0]};
      assert |tail + {indices[0]}| == |tail| + 1;
    }
  }

  /** Distinct indices all below `n` are at most `n` many. */
  lemma DistinctIndicesBound(indices: seq<nat>, n: nat)
    requires Distinct(indices)
    requires IndicesInRange(indices, n)
    ensures |indices| <= n
  {
    DistinctCardinality(indices);
    var used := Elements(indices);
    var range := Below(n);
    assert used <= range;
    SubsetCardinality(used, range);
  }

  lemma SubsetCardinality(a: set<nat>, b: set<nat>)
    requires a <= b
    ensures |a| <= |b|
  {
    assert b == a + (b - a);
  }

  /**
   * A reranker that returns distinct indices and a search that keeps to `k`
   * keep the context within `RETRIEVAL_MMR_K`.
   */
  lemma ContextWithinMmrK(services: Services, state: State)
    requires |services.search(state.question, Config.RETRIEVAL_MMR_K)| <= Config.RETRIEVAL_MMR_K
    requires forall q, texts, n :: Distinct(services.rerank(q, texts, n))
    ensures RetrieveStep(services, state).Success? ==>
      |RetrieveStep(services, state).value.context.value| <= Config.RETRIEVAL_MMR_K
  {
    if RetrieveStep(services, state).Success? {
      var hits := services.search(state.question, Config.RETRIEVAL_MMR_K);
      var hydrated := Retrieval.Enriched(services.store, hits).value;
      var indices := services.rerank(state.question, RerankTexts(hydrated), Config.RERANK_FINAL_K);
      RetrieveContextFollowsRerank(services, state);
      DistinctIndicesBound(indices, |hydrated|);
    }
  }

  // ---------------------------------------------------------------------------
  // The context join

  /** Joining two non-empty lists is joining each and putting one separator between. */
  lemma {:induction false} JoinAppend(a: seq<string>, b: seq<string>)
    requires a != [] && b != []
    ensures Join(a + b) == Join(a) + SEPARATOR + Join(b)
  {
    if |a| == 1 {
      assert (a + b)[1..] == b;
    } else {
      assert (a + b)[1..] == a[1..] + b;
      JoinAppend(a[1..], b);
    }
  }

  /** Total length of the parts. */
  function TotalLength(parts: seq<string>): nat {
    if parts == [] then 0 else |parts[0]| + TotalLength(parts[1..])
  }

  /** The joined text holds every part and one two-character separator between neighbours. */
  lemma {:induction false} JoinLength(parts: seq<string>)
    requires parts != []
    ensures |Join(parts)| == TotalLength(parts) + 2 * (|parts| - 1)
  {
    if |parts| > 1 {
      JoinLength(parts[1..]);
    }
  }

  // ---------------------------------------------------------------------------
  // The graph

  /**
   * A run either stops with the `retrieve` step's error, or ends with the
   * question unchanged, the context `retrieve` produced, and the answer the
   * model gave to the prompt built from exactly that context.
   */
  lemma InvokeSequence(services: Services, question: string)
    ensures var start := State(question, None, None);
      match RetrieveStep(services, start)
      case Failure(e) => Invoke(services, question) == Failure(e)
      case Success(u) =>
        && Invoke(services, question).Success?
        && var s := Invoke(services, question).value;
        && s.question == question
        && s.context == u.context
        && s.answer == Some(services.llm(Prompt(ContextText(u.context.value), question)))
  {
  }

  /** Three hydrated candidates reranked as `[1, 0, 2]` make a context of those three in that order. */
  lemma EndToEndExample(d0: Doc, d1: Doc, d2: Doc, llm: string -> string)
    requires !Retrieval.HasId(d0) && !Retrieval.HasId(d1) && !Retrieval.HasId(d2)
    ensures var services := Services(
        (q, k) => [d0, d1, d2],
        map[],
        (q, texts, n) => [1, 0, 2],
        llm);
      var question := "What does data feminism argue about power and default settings?";
      && Invoke(services, question).Success?
      && Invoke(services, question).value.context == Some([d1, d0, d2])
      && Invoke(services, question).value.answer
         == Some(llm(Prompt(d1.page_content + SEPARATOR + d0.page_content + SEPARATOR + d2.page_content, question)))
  {
    var services := Services((q, k) => [d0, d1, d2], map[], (q, texts, n) => [1, 0, 2], llm);
    var question := "What does data feminism argue about power and default settings?";
    var start := State(question, None, None);
    assert services.search(question, Config.RETRIEVAL_MMR_K) == [d0, d1, d2];
    assert forall i | 0 <= i < 3 :: !Retrieval.HasId([d0, d1, d2][i]);
    assert Retrieval.Enriched(services.store, [d0, d1, d2]) == Success([d0, d1, d2]);
    var indices := services.rerank(question, RerankTexts([d0, d1, d2]), Config.RERANK_FINAL_K);
    assert indices == [1, 0, 2];
    assert SelectByIndex([d0, d1, d2], indices) == [d1, d0, d2];
    assert RetrieveStep(services, start) == Success(Update(Some([d1, d0, d2]), None));
    ContextOfThree(d1, d0, d2);
    InvokeSequence(services, question);
  }

  /** Three passages make the context block of their texts with a separator between each. */
  lemma ContextOfThree(a: Doc, b: Doc, c: Doc)
    ensures ContextText([a, b, c]) == a.page_content + SEPARATOR + b.page_content + SEPARATOR + c.page_content
  {
    var texts := seq(3, i requires 0 <= i < 3 => [a, b, c][i].page_content);
    assert texts == [a.page_content, b.page_content, c.page_content];
    assert Join(texts[1..]) == b.page_content + SEPARATOR + c.page_content by {
      assert texts[1..][1..] == [c.page_content];
    }
  }
}
