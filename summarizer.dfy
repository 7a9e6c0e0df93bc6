/** `SummarizerService.summarize`: the cache lookup, the chunking, the
    map phase, the reduce call with its title-term grounding retry, the
    write-back of the summary, and the keyframe and vision steps on the
    chapters of the result. Each call to the model is numbered from the
    count the run starts at, since a sampling model may answer the same
    prompt differently each time. */
module Summarizer {
  import opened Wrappers
  import opened Text
  import opened Models
  import opened Llm
  import opened Seqs
  import opened Cache
  import opened Chunker
  import opened Grounding
  import opened KeyFrames
  import opened Illustration

  /** How `summarize` can fail: `SummaryResult(**cached)` rejects a cached
      entry, the transcript yields no chunk (`chunks[0]` raises), or the
      reduce reply (or the retry's) does not decode and validate. */
  datatype Failure = InvalidCachedSummary | EmptyTranscript | InvalidFinalSummary

  /** The options of a call. */
  datatype Options = Options(extractKeyframes: bool, forceRefresh: bool, useVision: bool)

  /** What the run depends on besides the transcript, the metadata and the
      state on disk: the model, the token counter of the chunker, whether an
      image file can be read, and what probing and downloading the video
      give the keyframe extractor. */
  datatype World = World(m: Model, tokens: string -> nat, readable: string -> bool, probe: Option<ProbeInfo>, dl: Download, ffmpeg: Ffmpeg)

  /** The summary cache key: the video id, the model name and the output
      language joined by underscores, then the `_v2` version tag. */
  function CacheKey(videoId: string): (r: string)
    ensures StartsWith(r, videoId + "_") && EndsWith(r, "_v2")
  {
    var tail := ModelName + "_" + OutputLang + "_v2";
    assert videoId + "_" + ModelName + "_" + OutputLang + "_v2" == (videoId + "_") + tail;
    assert ((videoId + "_") + tail)[..|videoId| + 1] == videoId + "_";
    videoId + "_" + ModelName + "_" + OutputLang + "_v2"
  }

  /** Different videos have different cache keys. */
  lemma CacheKeysDistinct(a: string, b: string)
    requires a != b
    ensures CacheKey(a) != CacheKey(b)
  {
    var suffix := "_" + ModelName + "_" + OutputLang + "_v2";
    assert CacheKey(a) == a + suffix && CacheKey(b) == b + suffix;
    if CacheKey(a) == CacheKey(b) {
      SameSuffix(a, b, suffix);
    }
  }

  /** `[s.text for s in segments]` */
  function SegmentTexts(segs: seq<Segment>): (r: seq<string>)
    ensures |r| == |segs| && forall i | 0 <= i < |segs| :: r[i] == segs[i].text
  {
    seq(|segs|, i requires 0 <= i < |segs| => segs[i].text)
  }

  /** `"\n".join([s.text for s in segments])` */
  function JoinedText(segs: seq<Segment>): string {
    Join("\n", SegmentTexts(segs))
  }

  // ---------------------------------------------------------------------
  // The map phase.
  // ---------------------------------------------------------------------

  /** The map prompt of a chunk: its span and its text. */
  function MapRequest(chunk: seq<Segment>): Request
    requires chunk != []
  {
    MapCall(chunk[0].start, Last(chunk).end, JoinedText(chunk))
  }

  /** `_process_chunk`, sent as call number `n`: the reply when it decodes
      and validates, else a chunk summary with the chunk's span and no key
      point; it never fails. */
  function ProcessChunk(m: Model, n: nat, chunk: seq<Segment>): (r: ChunkSummary)
    requires chunk != []
    ensures var d := m.parse(m.answer(n, MapRequest(chunk)));
      if d.Some? && m.chunkSummary(d.value).Some? then r == m.chunkSummary(d.value).value
      else r == NewChunkSummary(chunk[0].start, Last(chunk).end, []) && r.keyPoints == [] && r.entities == Some([])
  {
    var d := m.parse(m.answer(n, MapRequest(chunk)));
    if d.Some? && m.chunkSummary(d.value).Some? then m.chunkSummary(d.value).value
    else NewChunkSummary(chunk[0].start, Last(chunk).end, [])
  }

  /** One pass of the map loop from call number `n0`: chunk `k` is call
      `n0 + k`. */
  function MapPhase(m: Model, n0: nat, chunks: seq<seq<Segment>>): (r: seq<ChunkSummary>)
    requires NonEmptyChunks(chunks)
    ensures |r| == |chunks|
  {
    seq(|chunks|, k requires 0 <= k < |chunks| => ProcessChunk(m, n0 + k, chunks[k]))
  }

  /** The map loop: one summary per chunk, in order. */
  method MapChunks(m: Model, n0: nat, chunks: seq<seq<Segment>>) returns (sums: seq<ChunkSummary>)
    requires NonEmptyChunks(chunks)
    ensures sums == MapPhase(m, n0, chunks)
  {
    sums := [];
    for i := 0 to |chunks|
      invariant |sums| == i
      invariant forall k | 0 <= k < i :: sums[k] == ProcessChunk(m, n0 + k, chunks[k])
    {
      var s := ProcessChunk(m, n0 + i, chunks[i]);
      sums := sums + [s];
    }
  }

  /** A model that answers the same prompt the same way makes the second
      pass repeat the first. */
  lemma MapPassesAgree(m: Model, n0: nat, n1: nat, chunks: seq<seq<Segment>>)
    requires NonEmptyChunks(chunks) && Deterministic(m)
    ensures MapPhase(m, n0, chunks) == MapPhase(m, n1, chunks)
  {
    forall k | 0 <= k < |chunks| ensures MapPhase(m, n0, chunks)[k] == MapPhase(m, n1, chunks)[k] {
      assert m.answer(n0 + k, MapRequest(chunks[k])) == m.answer(n1 + k, MapRequest(chunks[k]));
    }
  }

  // ---------------------------------------------------------------------
  // The reduce call and the grounding retry.
  // ---------------------------------------------------------------------

  /** `reduce.jinja2` as `summarize` renders it: the title terms are always
      required. */
  function ReduceRequest(meta: VideoMetadata, transcript: Option<string>, chunks: Option<seq<ChunkSummary>>,
                         extractKeyframes: bool, temperature: real): Request {
    ReduceCall(meta.title, meta.author, transcript, chunks, OutputLang, extractKeyframes, TitleTerms(meta.title), temperature)
  }

  /** The first reduce request and the number of the call it is sent as:
      the one-pass prompt over the only chunk's text, or the prompt over
      the summaries of two map passes. */
  function FirstReduce(m: Model, n0: nat, meta: VideoMetadata, chunks: seq<seq<Segment>>, extractKeyframes: bool): (Request, nat)
    requires chunks != [] && NonEmptyChunks(chunks)
  {
    if |chunks| == 1 then (ReduceRequest(meta, Some(JoinedText(chunks[0])), None, extractKeyframes, DefaultTemperature), n0)
    else
      var sums := MapPhase(m, n0, chunks) + MapPhase(m, n0 + |chunks|, chunks);
      (ReduceRequest(meta, None, Some(sums), extractKeyframes, DefaultTemperature), n0 + 2 * |chunks|)
  }

  /** The retry: the whole transcript, at temperature 0, without keyframes. */
  function RetryRequest(meta: VideoMetadata, t: Transcript): Request {
    ReduceRequest(meta, Some(JoinedText(t.segments)), None, false, 0.0)
  }

  /** `json.loads` then `SummaryResult(**data)`. */
  function DecodeSummary(m: Model, reply: string): Option<(Json, SummaryResult)> {
    var d := m.parse(reply);
    if d.Some? && m.summaryResult(d.value).Some? then Some((d.value, m.summaryResult(d.value).value)) else None
  }

  /** Whether a result passes the grounding check for a title. */
  predicate Grounded(meta: VideoMetadata, r: SummaryResult) {
    MentionsTitleTerms(CombinedText(r), TitleTerms(meta.title))
  }

  /** The outcome of the reduce call sent as call `k`: the result, the data
      written to the cache, and the call count after it. */
  function Reduce(m: Model, k: nat, q: Request, meta: VideoMetadata, t: Transcript): (r: (Result<(SummaryResult, Json), Failure>, nat))
    ensures r.1 >= k
  {
    var first := DecodeSummary(m, m.answer(k, q));
    if first.None? then (Err(InvalidFinalSummary), k + 1)
    else if Grounded(meta, first.value.1) then (Ok((first.value.1, first.value.0)), k + 1)
    else
      var second := DecodeSummary(m, m.answer(k + 1, RetryRequest(meta, t)));
      if second.None? then (Err(InvalidFinalSummary), k + 2)
      else (Ok((second.value.1, first.value.0)), k + 2)
  }

  /** A fresh summary from call `n0`: the result and the data to cache, or
      the failure; and the call count after it. */
  function Generate(w: World, n0: nat, t: Transcript, meta: VideoMetadata, extractKeyframes: bool): (r: (Result<(SummaryResult, Json), Failure>, nat))
    ensures r.1 >= n0
  {
    var chunks := Chunks(t.segments, w.tokens, DefaultMaxTokens);
    ChunksPartition(t.segments, w.tokens, DefaultMaxTokens);
    if chunks == [] then (Err(EmptyTranscript), n0)
    else
      var (q, k) := FirstReduce(w.m, n0, meta, chunks, extractKeyframes);
      Reduce(w.m, k, q, meta, t)
  }

  // ---------------------------------------------------------------------
  // The whole run.
  // ---------------------------------------------------------------------

  /** The outcome of `summarize`: the result or the failure it raises, the
      count of model calls after it, the cache files and the stills on
      disk. */
  datatype Run = Run(result: Result<SummaryResult, Failure>, calls: nat, files: map<string, Entry>, stills: set<string>)

  /** `cached = None if force_refresh else cache_manager.get_summary(key)` */
  function Lookup(files: map<string, Entry>, dir: string, hash: string -> string, videoId: string, forceRefresh: bool): Option<Json> {
    if forceRefresh then None else Load(files, SummaryPath(dir, hash, CacheKey(videoId)))
  }

  /** Step 4: keyframe requests (or the midpoint fallback), their
      extraction when there is a timestamp, and the positional hand-out of
      the paths. */
  function Illustrate(w: World, stills: set<string>, meta: VideoMetadata, chs: seq<Chapter>): (r: (seq<Chapter>, set<string>))
    ensures |r.0| == |chs|
  {
    var (out, reqs) := Prepared(chs);
    PreparedValid(chs);
    var ts := Timestamps(out, reqs);
    if ts == [] then (out, stills)
    else
      var (paths, stills') := ExtractBatch(stills, ts, meta.id, w.probe, w.dl, w.ffmpeg);
      (Assigned(out, reqs, paths), stills')
  }

  /** Steps 4 and 5 on a result, from call number `n`. */
  function Finish(w: World, n: nat, files: map<string, Entry>, stills: set<string>, meta: VideoMetadata, opts: Options, r: SummaryResult): (run: Run)
    ensures run.files == files && run.result.Ok? && run.calls >= n
    ensures run.result.value.oneSentenceSummary == r.oneSentenceSummary && run.result.value.keyPoints == r.keyPoints
    ensures run.result.value.quotes == r.quotes && |run.result.value.chapters| == |r.chapters|
    ensures !opts.useVision ==> run.calls == n
    ensures !opts.extractKeyframes ==> run.stills == stills
    ensures !opts.extractKeyframes && !opts.useVision ==> run.result == Ok(r)
  {
    var (chs, stills') := if opts.extractKeyframes then Illustrate(w, stills, meta, r.chapters) else (r.chapters, stills);
    var (chs', n') := Refined(w.m, n, chs, w.readable, opts.useVision);
    Run(Ok(r.(chapters := chs')), n', files, stills')
  }

  /** `summarize(transcript, metadata, ...)` from call number `n0`, on the
      cache files and the stills on disk. */
  function Summarized(w: World, n0: nat, dir: string, hash: string -> string, files: map<string, Entry>, stills: set<string>,
                     t: Transcript, meta: VideoMetadata, opts: Options): Run
  {
    var cached := Lookup(files, dir, hash, meta.id, opts.forceRefresh);
    if cached.Some? && Truthy(cached.value) then
      var v := w.m.summaryResult(cached.value);
      if v.None? then Run(Err(InvalidCachedSummary), n0, files, stills)
      else Finish(w, n0, files, stills, meta, opts, v.value)
    else
      var (g, n) := Generate(w, n0, t, meta, opts.extractKeyframes);
      if g.Err? then Run(Err(g.error), n, files, stills)
      else Finish(w, n, files[SummaryPath(dir, hash, CacheKey(meta.id)) := Stored(g.value.1)], stills, meta, opts, g.value.0)
  }

  // ---------------------------------------------------------------------
  // What a run does.
  // ---------------------------------------------------------------------

  /** `SummaryResult(**data)` accepts only a non-empty object: the four
      fields are required. */
  ghost predicate ObjectsOnly(m: Model) {
    forall j | m.summaryResult(j).Some? :: j.JObject? && j.members != []
  }

  /** A cached entry that is truthy and validates is the result: no
      summary is written and, without vision, no model call is made;
      without keyframes and vision the result is the cached one as it is. */
  lemma CacheHit(w: World, n0: nat, dir: string, hash: string -> string, files: map<string, Entry>, stills: set<string>,
                 t: Transcript, meta: VideoMetadata, opts: Options)
    requires !opts.forceRefresh
    requires var c := Load(files, SummaryPath(dir, hash, CacheKey(meta.id)));
      c.Some? && Truthy(c.value) && w.m.summaryResult(c.value).Some?
    ensures var run := Summarized(w, n0, dir, hash, files, stills, t, meta, opts);
      var cached := w.m.summaryResult(Load(files, SummaryPath(dir, hash, CacheKey(meta.id))).value).value;
      run.files == files && run.result.Ok?
      && run.result.value.oneSentenceSummary == cached.oneSentenceSummary && run.result.value.keyPoints == cached.keyPoints
      && (!opts.useVision ==> run.calls == n0)
      && (!opts.extractKeyframes && !opts.useVision ==> run.result == Ok(cached) && run.stills == stills)
  {
  }

  /** With `force_refresh` the stored summary plays no part: runs over any
      two caches give the same result, calls and stills. */
  lemma ForceRefreshIgnoresCache(w: World, n0: nat, dir: string, hash: string -> string, f1: map<string, Entry>, f2: map<string, Entry>,
                                 stills: set<string>, t: Transcript, meta: VideoMetadata, opts: Options)
    requires opts.forceRefresh
    ensures var r1 := Summarized(w, n0, dir, hash, f1, stills, t, meta, opts);
      var r2 := Summarized(w, n0, dir, hash, f2, stills, t, meta, opts);
      r1.result == r2.result && r1.calls == r2.calls && r1.stills == r2.stills
  {
  }

  /** The run fails with `EmptyTranscript` exactly when the transcript has
      no segment, before any model call. */
  lemma EmptyTranscriptFails(w: World, n0: nat, t: Transcript, meta: VideoMetadata, extractKeyframes: bool)
    ensures Generate(w, n0, t, meta, extractKeyframes).0 == Err(EmptyTranscript) <==> t.segments == []
    ensures t.segments == [] ==> Generate(w, n0, t, meta, extractKeyframes).1 == n0
  {
    ChunksPartition(t.segments, w.tokens, DefaultMaxTokens);
  }

  /** One chunk: no map call; the reduce is the first call and reads the
      text of every merged segment. */
  lemma OnePass(m: Model, n0: nat, meta: VideoMetadata, segments: seq<Segment>, tokens: string -> nat, extractKeyframes: bool)
    requires |Chunks(segments, tokens, DefaultMaxTokens)| == 1
    ensures NonEmptyChunks(Chunks(segments, tokens, DefaultMaxTokens))
    ensures var (q, k) := FirstReduce(m, n0, meta, Chunks(segments, tokens, DefaultMaxTokens), extractKeyframes);
      k == n0 && q.transcript == Some(JoinedText(Aggregated(segments, DefaultMinDuration))) && q.chunks == None
      && q.temperature == DefaultTemperature && q.extractKeyframes == extractKeyframes && q.requiredTerms == TitleTerms(meta.title)
  {
    var cs := Chunks(segments, tokens, DefaultMaxTokens);
    ChunksPartition(segments, tokens, DefaultMaxTokens);
    assert Flatten(cs) == cs[0] + Flatten(cs[1..]);
    assert cs[0] + Flatten(cs[1..]) == cs[0];
  }

  /** More than one chunk: each chunk is summarized twice, by two whole
      passes of the map loop, and the reduce reads all 2n summaries after
      2n calls. */
  lemma MapRunsTwice(m: Model, n0: nat, meta: VideoMetadata, chunks: seq<seq<Segment>>, extractKeyframes: bool)
    requires |chunks| > 1 && NonEmptyChunks(chunks)
    ensures var (q, k) := FirstReduce(m, n0, meta, chunks, extractKeyframes);
      var n := |chunks|;
      k == n0 + 2 * n && q.transcript == None && q.chunks.Some? && |q.chunks.value| == 2 * n
      && (forall i | 0 <= i < n :: q.chunks.value[i] == ProcessChunk(m, n0 + i, chunks[i]))
      && (forall i | 0 <= i < n :: q.chunks.value[n + i] == ProcessChunk(m, n0 + n + i, chunks[i]))
  {
  }

  /** With a model that answers each prompt one way, the reduce reads every
      chunk summary twice over. */
  lemma SummariesDoubled(m: Model, n0: nat, meta: VideoMetadata, chunks: seq<seq<Segment>>, extractKeyframes: bool)
    requires |chunks| > 1 && NonEmptyChunks(chunks) && Deterministic(m)
    ensures var q := FirstReduce(m, n0, meta, chunks, extractKeyframes).0;
      q.chunks == Some(MapPhase(m, n0, chunks) + MapPhase(m, n0, chunks))
  {
    MapPassesAgree(m, n0 + |chunks|, n0, chunks);
  }

  /** A grounded first reply is the result, after one call. */
  lemma GroundedNoRetry(m: Model, k: nat, q: Request, meta: VideoMetadata, t: Transcript)
    requires DecodeSummary(m, m.answer(k, q)).Some? && Grounded(meta, DecodeSummary(m, m.answer(k, q)).value.1)
    ensures var first := DecodeSummary(m, m.answer(k, q)).value;
      Reduce(m, k, q, meta, t) == (Ok((first.1, first.0)), k + 1)
  {
  }

  /** A first reply that mentions no title term is followed by exactly one
      more call, over the whole transcript at temperature 0 and without
      keyframes; its result is kept without a second check, and the data
      to cache is still the first reply's. */
  lemma UngroundedRetry(m: Model, k: nat, q: Request, meta: VideoMetadata, t: Transcript)
    requires DecodeSummary(m, m.answer(k, q)).Some? && !Grounded(meta, DecodeSummary(m, m.answer(k, q)).value.1)
    ensures var first := DecodeSummary(m, m.answer(k, q)).value;
      var q2 := RetryRequest(meta, t);
      var second := DecodeSummary(m, m.answer(k + 1, q2));
      var r := Reduce(m, k, q, meta, t);
      r.1 == k + 2
      && q2.transcript == Some(JoinedText(t.segments)) && q2.chunks == None && q2.temperature == 0.0
      && !q2.extractKeyframes && q2.requiredTerms == TitleTerms(meta.title)
      && (r.0.Ok? <==> second.Some?)
      && (second.Some? ==> r.0.value == (second.value.1, first.0))
  {
  }

  /** The data to cache is the first reply's whenever the reduce succeeds,
      and it validates to the first reply's result. */
  lemma SavedIsFirstReply(m: Model, k: nat, q: Request, meta: VideoMetadata, t: Transcript)
    requires Reduce(m, k, q, meta, t).0.Ok?
    ensures var first := DecodeSummary(m, m.answer(k, q));
      first.Some? && Reduce(m, k, q, meta, t).0.value.1 == first.value.0
      && m.summaryResult(first.value.0) == Some(first.value.1)
  {
  }

  /** A fresh run writes its data under the video's key and changes no
      other file. */
  lemma CachesGenerated(w: World, n0: nat, dir: string, hash: string -> string, files: map<string, Entry>, stills: set<string>,
                        t: Transcript, meta: VideoMetadata, opts: Options)
    requires var c := Lookup(files, dir, hash, meta.id, opts.forceRefresh); !(c.Some? && Truthy(c.value))
    requires Generate(w, n0, t, meta, opts.extractKeyframes).0.Ok?
    ensures Summarized(w, n0, dir, hash, files, stills, t, meta, opts).files
      == files[SummaryPath(dir, hash, CacheKey(meta.id)) := Stored(Generate(w, n0, t, meta, opts.extractKeyframes).0.value.1)]
  {
  }

  /** A run that fails writes nothing: no summary and no still. */
  lemma FailureKeepsState(w: World, n0: nat, dir: string, hash: string -> string, files: map<string, Entry>, stills: set<string>,
                          t: Transcript, meta: VideoMetadata, opts: Options)
    requires Summarized(w, n0, dir, hash, files, stills, t, meta, opts).result.Err?
    ensures Summarized(w, n0, dir, hash, files, stills, t, meta, opts).files == files
    ensures Summarized(w, n0, dir, hash, files, stills, t, meta, opts).stills == stills
  {
  }

  /** The next run without `force_refresh` returns what the first reply
      validated to, with no model call: after a grounding retry that is
      the result that missed every title term, not the one returned. */
  lemma NextRunReturnsSaved(w: World, n0: nat, n1: nat, dir: string, hash: string -> string, files: map<string, Entry>,
                            stills: set<string>, t: Transcript, t2: Transcript, meta: VideoMetadata, opts: Options)
    requires ObjectsOnly(w.m)
    requires var c := Lookup(files, dir, hash, meta.id, opts.forceRefresh); !(c.Some? && Truthy(c.value))
    requires Generate(w, n0, t, meta, opts.extractKeyframes).0.Ok?
    ensures var saved := Generate(w, n0, t, meta, opts.extractKeyframes).0.value.1;
      var run := Summarized(w, n0, dir, hash, files, stills, t, meta, opts);
      var again := Summarized(w, n1, dir, hash, run.files, stills, t2, meta, Options(false, false, false));
      w.m.summaryResult(saved).Some? && again.result == Ok(w.m.summaryResult(saved).value) && again.calls == n1 && again.files == run.files
  {
    var saved := Generate(w, n0, t, meta, opts.extractKeyframes).0.value.1;
    var run := Summarized(w, n0, dir, hash, files, stills, t, meta, opts);
    CachesGenerated(w, n0, dir, hash, files, stills, t, meta, opts);
    var path := SummaryPath(dir, hash, CacheKey(meta.id));
    assert Load(run.files, path) == Some(saved);
    var chunks := Chunks(t.segments, w.tokens, DefaultMaxTokens);
    ChunksPartition(t.segments, w.tokens, DefaultMaxTokens);
    var (q, k) := FirstReduce(w.m, n0, meta, chunks, opts.extractKeyframes);
    SavedIsFirstReply(w.m, k, q, meta, t);
    assert Truthy(saved);
    CacheHit(w, n1, dir, hash, run.files, stills, t2, meta, Options(false, false, false));
  }

  lemma TwoFrameRequests(chs: seq<Chapter>)
    requires |chs| == 1 && chs[0].keyframes.Some? && |chs[0].keyframes.value| == 2
    ensures Requests(chs) == [Ref(0, 0), Ref(0, 1)]
  {
    assert ChapterRefs(chs, 0) == [Ref(0, 0), Ref(0, 1)];
    assert RequestsOf(chs, 1) == RequestsOf(chs, 0) + ChapterRefs(chs, 0);
  }

  /** Keyframe step, end to end: when the first of a chapter's two stills
      cannot be extracted, the first keyframe gets the second still and the
      second keyframe gets none. */
  lemma DroppedStillShiftsImages(w: World, meta: VideoMetadata, title: string, s: real, e: real, bullets: seq<string>,
                                 t1: real, t2: real, d1: string, d2: string)
    requires w.probe.Some? && IsSet(StreamUrl(w.probe.value))
    requires !w.ffmpeg(StreamUrl(w.probe.value).value, t1, OutputPath(meta.id, t1))
    requires w.ffmpeg(StreamUrl(w.probe.value).value, t2, OutputPath(meta.id, t2))
    ensures var chs := [Chapter(title, s, e, bullets, Some([KeyFrame(t1, d1, None), KeyFrame(t2, d2, None)]))];
      var out := Illustrate(w, {}, meta, chs).0;
      |KeyframesOf(out[0])| == 2
      && KeyframesOf(out[0])[0].imagePath == Some(OutputPath(meta.id, t2))
      && KeyframesOf(out[0])[1].imagePath == None
  {
    var chs := [Chapter(title, s, e, bullets, Some([KeyFrame(t1, d1, None), KeyFrame(t2, d2, None)]))];
    var reqs := [Ref(0, 0), Ref(0, 1)];
    TwoFrameRequests(chs);
    RequestsExact(chs);
    var ts := Timestamps(chs, reqs);
    assert ts == [t1, t2];
    var video := StreamUrl(w.probe.value).value;
    FirstFailureShifts({}, video, t1, t2, meta.id, w.ffmpeg);
    var paths := [OutputPath(meta.id, t2)];
    DirectFirst({}, ts, meta.id, w.probe.value, w.dl, w.ffmpeg);
    assert ExtractBatch({}, ts, meta.id, w.probe, w.dl, w.ffmpeg).0 == paths;
    AssignedByPosition(chs, reqs, paths);
    var out := Assigned(chs, reqs, paths);
    assert Illustrate(w, {}, meta, chs).0 == out;
    assert Image(out, reqs[0]) == Some(OutputPath(meta.id, t2));
    assert Image(out, reqs[1]) == Image(chs, reqs[1]);
  }

  /** Steps 1 to 3 on a cache miss: chunking, the map loops, the reduce
      call and its retry. */
  method GenerateFresh(w: World, n0: nat, t: Transcript, meta: VideoMetadata, extractKeyframes: bool)
    returns (g: Result<(SummaryResult, Json), Failure>, n: nat)
    ensures (g, n) == Generate(w, n0, t, meta, extractKeyframes)
  {
    var chunks := Chunk(t, w.tokens, DefaultMaxTokens);
    ChunksPartition(t.segments, w.tokens, DefaultMaxTokens);
    if |chunks| == 0 {
      // `chunks[0]` raises.
      return Err(EmptyTranscript), n0;
    }
    var q;
    q, n := FirstReduceOf(w.m, n0, meta, chunks, extractKeyframes);
    g, n := ReduceWithRetry(w.m, n, q, meta, t);
  }

  /** The map loops, when there is more than one chunk, and the first
      reduce request. */
  method FirstReduceOf(m: Model, n0: nat, meta: VideoMetadata, chunks: seq<seq<Segment>>, extractKeyframes: bool)
    returns (q: Request, n: nat)
    requires chunks != [] && NonEmptyChunks(chunks)
    ensures (q, n) == FirstReduce(m, n0, meta, chunks, extractKeyframes)
  {
    if |chunks| == 1 {
      q := ReduceRequest(meta, Some(JoinedText(chunks[0])), None, extractKeyframes, DefaultTemperature);
      n := n0;
    } else {
      var first := MapChunks(m, n0, chunks);
      var second := MapChunks(m, n0 + |chunks|, chunks);
      n := n0 + 2 * |chunks|;
      q := ReduceRequest(meta, None, Some(first + second), extractKeyframes, DefaultTemperature);
    }
  }

  /** The reduce call and, when the result misses every title term, the
      one retry. */
  method ReduceWithRetry(m: Model, k: nat, q: Request, meta: VideoMetadata, t: Transcript)
    returns (g: Result<(SummaryResult, Json), Failure>, n: nat)
    ensures (g, n) == Reduce(m, k, q, meta, t)
  {
    var reply := m.answer(k, q);
    n := k + 1;
    var decoded := DecodeSummary(m, reply);
    if decoded.None? {
      return Err(InvalidFinalSummary), n;
    }
    var data := decoded.value.0;
    var result := decoded.value.1;
    if !Grounded(meta, result) {
      var retry := m.answer(n, RetryRequest(meta, t));
      n := n + 1;
      var decoded' := DecodeSummary(m, retry);
      if decoded'.None? {
        return Err(InvalidFinalSummary), n;
      }
      result := decoded'.value.1;
    }
    g := Ok((result, data));
  }

  /** Step 4 on the keyframe extractor. */
  method IllustrateChapters(w: World, kx: KeyFrameExtractor, meta: VideoMetadata, chs0: seq<Chapter>) returns (chs: seq<Chapter>)
    modifies kx
    ensures (chs, kx.files) == Illustrate(w, old(kx.files), meta, chs0)
  {
    var reqs := CollectRequests(chs0);
    chs := chs0;
    if reqs == [] {
      chs, reqs := AddDefaultFrames(chs);
    }
    PreparedValid(chs0);
    assert (chs, reqs) == Prepared(chs0);
    var ts := Timestamps(chs, reqs);
    if ts != [] {
      var paths := kx.ExtractBatchFrom(ts, meta.id, w.probe, w.dl, w.ffmpeg);
      chs := AssignPaths(chs, reqs, paths);
    }
  }

  /** Steps 4 and 5 on a result. */
  method FinishRun(w: World, n0: nat, kx: KeyFrameExtractor, meta: VideoMetadata, opts: Options, base: SummaryResult,
                   ghost files: map<string, Entry>)
    returns (r: Result<SummaryResult, Failure>, n: nat)
    modifies kx
    ensures Run(r, n, files, kx.files) == Finish(w, n0, files, old(kx.files), meta, opts, base)
  {
    var result := base;
    n := n0;
    if opts.extractKeyframes {
      var chs := IllustrateChapters(w, kx, meta, result.chapters);
      result := result.(chapters := chs);
    }
    assert (result.chapters, kx.files) ==
      if opts.extractKeyframes then Illustrate(w, old(kx.files), meta, base.chapters) else (base.chapters, old(kx.files));
    if opts.useVision && AnyImages(result.chapters) {
      var chs, n' := RefineChapters(w.m, n, result.chapters, w.readable);
      assert chs == Refined(w.m, n, result.chapters, w.readable, opts.useVision).0;
      result := result.(chapters := chs);
      n := n';
    }
    r := Ok(result);
  }

  /** `summarize`, on the cache manager and the keyframe extractor. */
  method Summarize(w: World, n0: nat, cache: CacheManager, kx: KeyFrameExtractor, t: Transcript, meta: VideoMetadata, opts: Options)
    returns (r: Result<SummaryResult, Failure>, n: nat)
    requires cache.Valid()
    modifies cache, kx
    ensures var run := Summarized(w, n0, cache.cacheDir, cache.hash, old(cache.files), old(kx.files), t, meta, opts);
      r == run.result && n == run.calls && cache.files == run.files && kx.files == run.stills
    ensures var path := SummaryPath(cache.cacheDir, cache.hash, CacheKey(meta.id));
      cache.log == old(cache.log) +
        (if !opts.forceRefresh && path in old(cache.files) && !old(cache.files)[path].Unopenable? then [SummaryHit] else [])
    ensures cache.Valid()
  {
    var cached: Option<Json> := None;
    if !opts.forceRefresh {
      cached := cache.GetSummary(CacheKey(meta.id));
    }
    assert cached == Lookup(old(cache.files), cache.cacheDir, cache.hash, meta.id, opts.forceRefresh);
    var result: SummaryResult;
    if cached.Some? && Truthy(cached.value) {
      var v := w.m.summaryResult(cached.value);
      if v.None? {
        return Err(InvalidCachedSummary), n0;
      }
      result := v.value;
      n := n0;
      assert Summarized(w, n0, cache.cacheDir, cache.hash, old(cache.files), old(kx.files), t, meta, opts)
        == Finish(w, n0, cache.files, kx.files, meta, opts, result);
    } else {
      var g;
      g, n := GenerateFresh(w, n0, t, meta, opts.extractKeyframes);
      if g.Err? {
        return Err(g.error), n;
      }
      result := g.value.0;
      cache.SaveSummary(CacheKey(meta.id), g.value.1);
      assert Summarized(w, n0, cache.cacheDir, cache.hash, old(cache.files), old(kx.files), t, meta, opts)
        == Finish(w, n, cache.files, kx.files, meta, opts, result);
    }
    r, n := FinishRun(w, n, kx, meta, opts, result, cache.files);
  }
}
