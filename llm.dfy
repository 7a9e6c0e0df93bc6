/** The language model as the summarizer sees it: a request carrying the
    variables its prompt template is rendered with, an answer that depends
    on the request and on how many calls came before it (the model samples
    at a non-zero temperature), and the decoding of an answer, which may
    fail. Template rendering, the chat API and its retries are not part of
    this model. */
module Llm {
  import opened Wrappers
  import opened Models

  /** `settings.LLM_MODEL`, `settings.OUTPUT_LANG` and
      `settings.LLM_TEMPERATURE` at their defaults. */
  const ModelName := "gpt-4o"
  const OutputLang := "zh"
  const DefaultTemperature: real := 0.7

  datatype Request =
    /** `map.jinja2` for one chunk. */
    | MapCall(startTime: real, endTime: real, text: string)
    /** `reduce.jinja2`: over a raw transcript or over chunk summaries. */
    | ReduceCall(title: string, author: string, transcript: Option<string>, chunks: Option<seq<ChunkSummary>>,
                 language: string, extractKeyframes: bool, requiredTerms: seq<string>, temperature: real)
    /** The vision refinement of one chapter, always at temperature 0. */
    | VisionCall(chapter: string, fromSecond: int, toSecond: int, bullets: seq<string>, images: seq<string>)
    /** `study.jinja2`, answered as Markdown. */
    | StudyCall(title: string, author: string, fullText: string, summary: SummaryResult)

  /** The model: `answer(n, q)` is the text of the reply to request `q`
      when it is the `n`-th call of the run; `parse` is `json.loads`, and
      the two validators are `ChunkSummary(**data)` and
      `SummaryResult(**data)`. */
  datatype Model = Model(
    answer: (nat, Request) -> string,
    parse: string -> Option<Json>,
    chunkSummary: Json -> Option<ChunkSummary>,
    summaryResult: Json -> Option<SummaryResult>)

  /** An answer independent of the call count, as a model at temperature 0
      that always replies the same would give. */
  ghost predicate Deterministic(m: Model) {
    forall n: nat, k: nat, q: Request :: m.answer(n, q) == m.answer(k, q)
  }
}
