# ai-video-summarizer, modelled in Dafny

ai-video-summarizer turns a Bilibili or YouTube video into a structured
summary. It fetches the platform's captions, or transcribes the audio with
Whisper when there are none. It merges the timed segments and packs them
into chunks under a token budget. A language model summarises each chunk,
then reduces the chunk summaries into a one-sentence summary, key points,
chapters and quotes. The summary is checked against the words of the video
title, and results are cached on disk. Keyframes are cut from the video
with ffmpeg and attached to the chapters. The command line renders the
result as Markdown.

This project models the deterministic middle of that pipeline:

- the pydantic models;
- the segment merger and the token-budget chunker;
- the on-disk cache;
- keyframe file naming, stream choice and batch extraction;
- the summarizer's orchestration: cache, map and reduce, grounding retry, keyframe requests and image assignment, study notes and extractive notes;
- caption track selection and the caption parsers of both providers;
- the command line's `format_time`, `to_markdown`, and its URL clean-up and dispatch.

Every outside collaborator becomes a parameter of the model:

- the language model, the JSON decoder and the pydantic validation;
- the token counter and the hash;
- ffmpeg and yt-dlp, the transcript API and Whisper;
- the file system.

Timestamps are exact `real` numbers. Python's `int()` on a float truncates toward zero (`Text.Trunc`).

Modules, one per source concern:

| module | file | models |
|---|---|---|
| `Models` | models.dfy | `src/models/transcript.py`, `src/models/summary.py` |
| `Chunker` | chunker.dfy | `src/utils/chunker.py` |
| `Cache` | cache.dfy | `src/utils/cache.py` |
| `KeyFrames` | keyframes.dfy | `src/utils/keyframes.py` |
| `Summarizer`, `Grounding`, `Illustration`, `Notes`, `Llm` | summarizer.dfy, grounding.dfy, illustration.dfy, notes.dfy, llm.dfy | `src/services/summarizer.py` |
| `Bilibili`, `BilibiliTracks`, `BilibiliCaptions` | bilibili.dfy, bili_tracks.dfy, bili_captions.dfy | `src/providers/bilibili.py` |
| `Subtitles`, `Asr` | subtitles.dfy, asr.dfy | subtitle candidates and Whisper segments, shared by both providers |
| `YouTube`, `YouTubeCaptions` | youtube.dfy, yt_captions.dfy | `src/providers/youtube.py` |
| `Captions` | captions.dfy | timing lines and timecodes, shared by both providers |
| `Cli` | cli.dfy | `src/cli.py` |
| `Urls` | urls.dfy | `urllib.parse` as used by `src/cli.py` and `src/providers/bilibili.py` |
| `Text`, `Seqs`, `Ranking`, `Sorting`, `JsonValues`, `Wrappers` | text.dfy, seqs.dfy, ranking.dfy, sorting.dfy, json.dfy, wrappers.dfy | Python's string, list and sort built-ins; decoded JSON values |


## Behaviour the model makes explicit

Several things the code does are easy to miss when reading it. Each one is
stated as a lemma rather than smoothed over:

- `Summarizer.MapRunsTwice`: with more than one chunk, `summarize` runs the
  map loop at `src/services/summarizer.py:99-104` and again at 187-193. Both
  passes append to the same list, so the reduce prompt lists every chunk
  summary twice and 2n model calls are made. A map-reduce, as the progress
  label at `src/cli.py:169` names the step, would read each chunk summary
  once; the model follows the code.
- `Summarizer.SavedIsFirstReply` and `Summarizer.NextRunReturnsSaved`: after
  a grounding retry the run returns the retry's result, but the cache keeps
  the first reply (line 236). The next run without `force_refresh` therefore
  returns the result that missed every title term.
- The single-chunk branch at lines 105-115 builds a placeholder chunk
  summary that nothing reads. The model drops it. With no segment at all,
  `chunks[0]` at line 109 raises; `Summarizer.EmptyTranscriptFails` states
  this.
- `Illustration.AssignedByPosition`, `KeyFrames.FirstFailureShifts` and
  `Summarizer.DroppedStillShiftsImages`: extraction skips a still that
  cannot be cut, and paths are then handed out by position. A dropped
  still therefore gives each later keyframe the image meant for the next.
- `KeyFrames.OutputPathSharing`: two timestamps in the same whole second
  share one output file.
- `YouTube.UnlistedChineseRanksFirst`: `lang_rank` gives every unlisted
  Chinese code rank 0, so `zh-TW` is preferred to the listed `zh-Hant`.
- `Notes.UnclosedFenceExample`: study notes that open a code fence and never
  close it come out empty.
- `Cli.YouTubeIdWithBV`: a YouTube short link whose id holds `BV` is sent
  to the Bilibili provider.
- `Cli.ClockNegative` and `Cli.MinusFiveSeconds`: `format_time` of a
  negative time shows the time counted back from the next whole hour, so
  minus five seconds is shown as `59:55`.
- `Cli.CleanUrlNestedQuotes`: the URL clean-up strips backticks before
  quotes, so backticks inside quotes stay.
- `BilibiliCaptions.ParsersAgree`: the Bilibili WebVTT and SubRip parsers
  give the same segments for every text, so the SubRip retry after an empty
  WebVTT result never finds anything.

## Model

| member | source | states |
|---|---|---|
| Models.CaptionTranscript | src/models/transcript.py:9-13 | a transcript built without `source` is marked `"platform_caption"` and keeps its segments |
| Models.NewChunkSummary | src/models/summary.py:4-8 | a chunk summary built without `entities` has the empty list there, and the given times and key points |
| Models.NewKeyFrame | src/models/summary.py:10-13 | a new keyframe has no image path |
| Models.NewChapter | src/models/summary.py:15-20 | a chapter built without keyframes has the empty list there |
| Models.ModelsAdmitUnvalidatedValues | src/models/transcript.py:4-13 | a segment may end before it starts and have no text, and a transcript's segments need not be in time order |
| Chunker.PreAggregate | src/utils/chunker.py:17-39 | the merge loop returns the value of the reference definition `Aggregated` |
| Chunker.AggregatedLength | src/utils/chunker.py:19-39 | the output is empty exactly when the input is, and is never longer than it |
| Chunker.AggregatedSettled | src/utils/chunker.py:25-36 | every output segment but the last lasts at least `min_duration` |
| Chunker.MergeAllSpan | src/utils/chunker.py:28-33 | a merged segment starts at its first member's start and ends at its last member's end |
| Chunker.AggregatedPartition | src/utils/chunker.py:25-39 | the input splits into consecutive groups whose concatenation is the input, and output `i` is group `i` merged |
| Chunker.AggregatedIdempotent | src/utils/chunker.py:17-39 | merging an already merged list changes nothing |
| Chunker.Chunk | src/utils/chunker.py:41-63 | the packing loop returns the value of the reference definition `Chunks` |
| Chunker.ChunksPartition | src/utils/chunker.py:41-63 | no chunk is empty; the chunks concatenated are exactly the merged segments; there are no chunks exactly when there are no segments |
| Chunker.ChunksBudget | src/utils/chunker.py:48-57 | each chunk is within the token budget or is a single segment |
| Chunker.ChunksMaximal | src/utils/chunker.py:51-54 | each chunk but the last was closed only because the next chunk's first segment would have gone over the budget |
| Cache.Load | src/utils/cache.py:18-26 | a load returns a value exactly when the file exists and can be read |
| Cache.LoadAfterSave | src/utils/cache.py:28-49 | loading a path after saving data there returns that data |
| Cache.LoadElsewhere | src/utils/cache.py:28-31 | writing one path leaves what every other path loads unchanged |
| Cache.TranscriptPathsDistinct | src/utils/cache.py:19 | different video ids have different transcript files |
| Cache.SummaryPathsDistinct | src/utils/cache.py:34-35 | keys with different hashes have different summary files |
| Cache.KindsDistinct | src/utils/cache.py:19 | a summary file is never a transcript file |
| Cache.SaveSummaryFrame | src/utils/cache.py:45-49 | saving a summary leaves every transcript, and every summary of another hash, as it was |
| Cache.SaveTranscriptFrame | src/utils/cache.py:28-31 | saving a transcript leaves every summary, and every other video's transcript, as it was |
| Cache.CacheManager.constructor | src/utils/cache.py:9-13 | the cache, transcripts and summaries directories exist afterwards; the files already on disk are kept |
| Cache.CacheManager.GetTranscript | src/utils/cache.py:18-26 | returns the stored transcript, or None when it is missing or unreadable; a warning is logged for a file that cannot be opened or decoded |
| Cache.CacheManager.SaveTranscript | src/utils/cache.py:28-31 | the transcript file now holds the data; no other file changes |
| Cache.CacheManager.GetSummary | src/utils/cache.py:33-43 | returns the stored summary, or None when it is missing or unreadable; the hit message is logged only when the file opens, before it is decoded |
| Cache.CacheManager.SaveSummary | src/utils/cache.py:45-49 | the summary file of the key's hash now holds the data; no other file changes |
| KeyFrames.OutputPath | src/utils/keyframes.py:14-15 | a still's file lies in the output directory, is named after the video id and an underscore, and ends in `.jpg` |
| KeyFrames.OutputPathSharing | src/utils/keyframes.py:14-15 | two timestamps share an output file exactly when their whole seconds agree |
| KeyFrames.Extracted | src/utils/keyframes.py:12-31 | on success the path is the timestamp's output file and that file is added to disk; on failure nothing changes |
| KeyFrames.ExistingStillIsReused | src/utils/keyframes.py:16-17 | an existing output file is returned without running ffmpeg |
| KeyFrames.ExtractIdempotent | src/utils/keyframes.py:14-17 | after one success, asking again for the same whole second succeeds at once and changes nothing |
| KeyFrames.BatchPaths | src/utils/keyframes.py:56-59 | every returned path is the output file of one of the timestamps and is on disk afterwards |
| KeyFrames.BatchAllSucceed | src/utils/keyframes.py:56-59 | when every extraction succeeds, path `i` belongs to timestamp `i` |
| KeyFrames.FirstFailureShifts | src/utils/keyframes.py:56-59 | a failed first extraction puts the second timestamp's file at position 0 |
| KeyFrames.Progressives | src/utils/keyframes.py:44-47 | the progressive streams are exactly the formats with video, audio and a URL |
| KeyFrames.StreamIsBest | src/utils/keyframes.py:48-51 | the chosen stream is progressive, and no other progressive stream is taller, or as tall with a higher bitrate |
| KeyFrames.NoProgressiveStream | src/utils/keyframes.py:50-53 | with no progressive stream, the probe's own `url` is used |
| KeyFrames.ScanIsPreferred | src/utils/keyframes.py:93-107 | the listing scan picks the first `.mp4`, else the first `.mkv` or `.webm`, else the first file of the video |
| KeyFrames.ExtractBatch | src/utils/keyframes.py:33-121 | the batch never returns more paths than timestamps |
| KeyFrames.DirectFirst | src/utils/keyframes.py:55-61 | when the stream yields any still, the download is not used |
| KeyFrames.KeyFrameExtractor.ExtractKeyframe | src/utils/keyframes.py:12-31 | the path and the new files are those of `Extracted` |
| KeyFrames.KeyFrameExtractor.Stills | src/utils/keyframes.py:113-117 | the loop's paths and files are those of `Batch` |
| KeyFrames.KeyFrameExtractor.ExtractBatchFrom | src/utils/keyframes.py:33-121 | the paths and files are those of `ExtractBatch` |
| Summarizer.CacheKey | src/services/summarizer.py:86 | the summary cache key opens with the video id and an underscore and ends with the `_v2` version tag |
| Summarizer.CacheKeysDistinct | src/services/summarizer.py:86 | two different video ids never share a summary cache key; the key also names the model and the output language |
| Summarizer.ProcessChunk | src/services/summarizer.py:64-82 | a map reply that decodes and validates is the chunk's summary; any other reply gives a summary spanning the chunk's first start to its last end with no key point and no entity, so the map step never fails |
| Summarizer.MapChunks | src/services/summarizer.py:99-104 | the map loop yields one summary per chunk, in chunk order, chunk k being sent as the k-th call of the pass |
| Summarizer.MapPassesAgree | src/services/summarizer.py:99-104 | when the model answers a prompt the same way whenever asked, a second pass of the map loop repeats the first |
| Summarizer.CacheHit | src/services/summarizer.py:86-91 | a stored summary that is truthy and validates is returned as the result; nothing is written to the cache, and with neither keyframes nor vision no model call is made and the result is the stored one unchanged |
| Summarizer.ForceRefreshIgnoresCache | src/services/summarizer.py:88 | with force_refresh the result, the call count and the stills are the same whatever the cache holds |
| Summarizer.EmptyTranscriptFails | src/services/summarizer.py:95-109 | the run fails exactly when the transcript has no segment (the single-chunk branch then indexes an empty chunk list), and then before any model call |
| Summarizer.OnePass | src/services/summarizer.py:168-186 | with a single chunk no map call is made; the reduce is the first call, carries the text of every merged segment, the default temperature, the keyframe flag and the title's terms |
| Summarizer.MapRunsTwice | src/services/summarizer.py:99-104 | with more than one chunk every chunk is summarized twice, by two whole passes of the map loop, and the reduce is sent after 2n calls with all 2n summaries |
| Summarizer.SummariesDoubled | src/services/summarizer.py:187-205 | with a model that answers a prompt one way, the reduce reads the list of chunk summaries twice over |
| Summarizer.GroundedNoRetry | src/services/summarizer.py:207-218 | a first reduce reply that mentions a title term is the result after exactly one call, and it is also the data to cache |
| Summarizer.UngroundedRetry | src/services/summarizer.py:219-233 | a first reply that mentions no title term is followed by exactly one more call, over the whole transcript, at temperature 0 and without keyframes; the run succeeds exactly when that reply decodes, its result is kept without a second grounding check, and the data to cache stays the first reply's |
| Summarizer.SavedIsFirstReply | src/services/summarizer.py:236 | whenever the reduce succeeds, the data to cache is the first reply's, and it validates to the first reply's result |
| Summarizer.CachesGenerated | src/services/summarizer.py:236 | a fresh run stores its data under the video's summary path and changes no other cache file |
| Summarizer.FailureKeepsState | src/services/summarizer.py:237-239 | a run that fails writes no summary and no still |
| Summarizer.NextRunReturnsSaved | src/services/summarizer.py:86-91 | the next run without force_refresh returns what the first reply validated to, with no model call and no write; after a grounding retry that is the result that missed every title term, not the one the first run returned |
| Summarizer.DroppedStillShiftsImages | src/services/summarizer.py:259-266 | when the first of a chapter's two stills cannot be extracted, the first keyframe receives the second still's path and the second keyframe none: paths are handed out by position |
| Summarizer.Generate | src/services/summarizer.py:93-239 | a fresh summary never lowers the call count |
| Summarizer.Reduce | src/services/summarizer.py:207-239 | the reduce step never lowers the call count |
| Summarizer.Finish | src/services/summarizer.py:242-305 | the keyframe and vision steps write no summary and keep the one-sentence summary, the key points, the quotes and the number of chapters; without vision they make no call, without keyframes they write no still, and with neither the result is returned unchanged |
| Summarizer.GenerateFresh | src/services/summarizer.py:93-239 | the chunking, map, reduce and retry steps, on a cache miss, compute what Generate defines |
| Summarizer.FirstReduceOf | src/services/summarizer.py:99-205 | the map loops and the first reduce request are what FirstReduce defines |
| Summarizer.ReduceWithRetry | src/services/summarizer.py:207-239 | the reduce call and its one retry compute what Reduce defines |
| Summarizer.IllustrateChapters | src/services/summarizer.py:242-266 | the keyframe step, run on the keyframe extractor, yields the chapters and the stills that Illustrate defines |
| Summarizer.FinishRun | src/services/summarizer.py:242-305 | the keyframe and vision steps compute what Finish defines |
| Summarizer.Summarize | src/services/summarizer.py:84-307 | a whole run on the cache manager and the keyframe extractor has the result, the cache files, the stills and the call count that Summarized defines, and keeps the cache valid; the cache's log gains the hit message exactly when no refresh was forced and the summary file exists and opens |
| Grounding.Unbracketed | src/services/summarizer.py:220 | the title keeps its length, with each of the four brackets (full-width and ASCII) replaced by a space and every other character kept |
| Grounding.TitleTerms | src/services/summarizer.py:220 | every required term is non-empty and holds no white space |
| Grounding.TitleTermsShape | src/services/summarizer.py:220 | the required terms are the white-space words of the unbracketed title: the empty-string filter drops nothing, no term holds a space or a bracket, and together they are the title's other characters in order |
| Grounding.MentionsTitleTerms | src/services/summarizer.py:211-218 | the check passes exactly when there is no term or the lowered text holds some lowered term |
| Grounding.CombinedTextStarts | src/services/summarizer.py:219 | the text the check reads opens with the one-sentence summary |
| Grounding.SummarySentenceGrounds | src/services/summarizer.py:211-219 | a one-sentence summary that mentions a term passes the check whatever the key points say |
| Grounding.BlankTitleAlwaysGrounded | src/services/summarizer.py:211-220 | a title of brackets and white space only has no terms, so every summary passes |
| Illustration.RequestsExact | src/services/summarizer.py:245-249 | the keyframe requests are exactly the keyframes the model chose: each names an existing keyframe, every chosen keyframe is requested once, in chapter order then keyframe order |
| Illustration.NoRequests | src/services/summarizer.py:250 | the midpoint fallback runs exactly when no chapter has a keyframe |
| Illustration.DefaultFrame | src/services/summarizer.py:255-256 | a default frame of a chapter of non-negative length lies within the chapter |
| Illustration.PickedSpec | src/services/summarizer.py:252-253 | the fallback picks at most five distinct chapters (all of them when there are at most five), lists them by start time, and never leaves out a chapter longer than one it picks |
| Illustration.InstallEffect | src/services/summarizer.py:254-257 | the picked chapters get their one default frame and every other chapter stays as it was |
| Illustration.DefaultFrames | src/services/summarizer.py:250-258 | without a chosen keyframe, the picked chapters and only they get one default frame each, and those frames are the requests, in picked order |
| Illustration.PreparedValid | src/services/summarizer.py:245-258 | the requests the extraction works on, chosen or fallback, name existing keyframes, each once |
| Illustration.SetImageEffect | src/services/summarizer.py:266 | setting a request's path changes that keyframe's image and no other |
| Illustration.AssignedByPosition | src/services/summarizer.py:263-266 | paths go to requests by position: request i gets path i while both lists last and the later requests keep their image, so a dropped extraction hands each later path to the request before its own |
| Illustration.ImagesOfEmpty | src/services/summarizer.py:276-278 | a chapter is skipped exactly when none of its keyframes has an image path |
| Illustration.NewBullets | src/services/summarizer.py:299-303 | a replacement is found only when the reply decodes to an object whose "summary" is a non-empty list, and then it is that list |
| Illustration.Refine | src/services/summarizer.py:301-305 | the reply's bullets replace the chapter's when there are some, and the chapter is otherwise unchanged; title, times and keyframes are always kept |
| Illustration.EmptyReplyKeepsBullets | src/services/summarizer.py:301-302 | a reply whose "summary" is missing, empty or not a list keeps the chapter's bullets |
| Illustration.Refined | src/services/summarizer.py:269-275 | the vision step keeps the number of chapters and makes at most one call per chapter |
| Illustration.CallsInOrder | src/services/summarizer.py:275-298 | two chapters with images are sent as different calls, the earlier chapter first |
| Illustration.NoImagesNoCalls | src/services/summarizer.py:270-273 | without any image no call is made and every chapter is kept |
| Illustration.CollectRequests | src/services/summarizer.py:245-249 | the collecting loop builds the requests Requests defines |
| Illustration.AddDefaultFrames | src/services/summarizer.py:250-258 | the fallback loop builds the chapters and requests Prepared defines |
| Illustration.AssignPaths | src/services/summarizer.py:263-266 | the hand-out loop builds the chapters Assigned defines |
| Illustration.RefineChapters | src/services/summarizer.py:275-305 | the vision loop makes one call per chapter with images, numbered in chapter order, and gives each chapter what SentAs defines |
| Notes.Unfence | src/services/summarizer.py:326-331 | the result is a piece of the reply; a fenced reply gives a stripped piece, and any other reply is returned as it is |
| Notes.StudyNotes | src/services/summarizer.py:309-331 | the notes are a stripped piece of the model's answer to the study request |
| Notes.StripFence | src/services/summarizer.py:325-331 | the result is a stripped piece of the reply; a reply that does not open with a fence once stripped is returned stripped |
| Notes.FencedBlock | src/services/summarizer.py:325-331 | a fenced block loses its opening line, whatever its language tag, and its closing fence, and its body is stripped |
| Notes.UnclosedFenceIsEmpty | src/services/summarizer.py:326-330 | a reply that opens a fence and never closes it comes out empty, because the only fence the reverse search finds is the opening one |
| Notes.UnclosedFenceExample | src/services/summarizer.py:326-330 | a fenced answer cut short before its closing fence gives empty notes |
| Notes.Window | src/services/summarizer.py:341 | the window is at least one segment, and an eighth of the segments (rounded down) from eight segments on |
| Notes.SnippetTexts | src/services/summarizer.py:347 | a window's snippet joins the stripped non-blank texts of its first three segments |
| Notes.WindowsCover | src/services/summarizer.py:343-346 | the windows cover the segments in order without overlap, each of the window size except the last, which holds at least one |
| Notes.BucketsShape | src/services/summarizer.py:353-365 | the buckets cover the transcript in order; each spans at most three minutes of start times from its first segment, and each new bucket opens more than three minutes after the previous one opened |
| Notes.ShortTranscriptKeyPoints | src/services/summarizer.py:341-351 | under 16 segments every segment is its own window, so the key points are the stripped texts of the segments that have any, of which only the first ten are shown |
| Notes.LayoutShape | src/services/summarizer.py:334-365 | the notes are the three header lines, at most ten key-point bullets, the section heading and one bullet per bucket |
| Notes.LayoutKeyPoint | src/services/summarizer.py:350-351 | the key points shown are the first ones found, in order |
| Notes.LayoutPart | src/services/summarizer.py:352-365 | after the heading come the bucket lines, in bucket order |
| Notes.CollectKeyPoints | src/services/summarizer.py:341-349 | the window loop collects the snippets KeyPoints defines |
| Notes.BucketLines | src/services/summarizer.py:353-365 | the bucket loop emits one line per bucket of Buckets |
| Notes.Render | src/services/summarizer.py:350-365 | the lines after the header are the layout of the key points and bucket lines |
| Notes.ExtractiveNotes | src/services/summarizer.py:333-366 | the notes are the lines NotesLines defines, joined by line breaks; an empty transcript gives the header alone |
| Bilibili.UnknownFormatReadsVtt | src/providers/bilibili.py:318-323 | a file of any other format is read as WebVTT, and the SubRip retry after an empty result never adds a segment |
| Bilibili.XmlIsRefused | src/providers/bilibili.py:315-317 | a Danmaku XML track is refused, never parsed |
| Bilibili.TrackIsSelected | src/providers/bilibili.py:53-203 | when a track is found, the page index was read, the pool of tracks was not empty and the track is the selection's choice from it |
| Bilibili.OfficialShape | src/providers/bilibili.py:325-332 | an official transcript is a platform caption with at least one segment, in the language of the chosen track |
| Bilibili.OfficialTranscript | src/providers/bilibili.py:53-338 | the official path, with its collection, selection and parsing loops, returns what Official defines, including each of its failures |
| Bilibili.TrackOfPageUrl | src/providers/bilibili.py:55-87 | the track search on a video page URL with `?p=` uses the page number and the path read from that URL |
| Bilibili.UnparsableUrlUsesWhisper | src/providers/bilibili.py:41-57 | a URL that urlparse rejects fails the official path, so the provider falls back to Whisper |
| Bilibili.ChooseTrack | src/providers/bilibili.py:55-203 | the page index, entry choice, id, subtitle dict, candidates and selection give what Track defines |
| Bilibili.ReadSegments | src/providers/bilibili.py:287-323 | the format dispatch, running the parsers, gives what SegmentsFor defines |
| Bilibili.WhisperVideoIdOfPage | src/providers/bilibili.py:347-350 | the Whisper id of a video page URL holding BV is its last path segment without the query |
| Bilibili.WhisperTranscript | src/providers/bilibili.py:340-393 | Whisper's transcript exists exactly when Whisper returned segments; it is then Whisper's, with the id read from the URL and one segment per Whisper segment, keeping its times and stripping its text |
| Bilibili.TranscribeWithWhisper | src/providers/bilibili.py:340-393 | a missing Whisper result or one without segments fails; otherwise the transcript is Whisper's, in its language or "unknown", with one segment per Whisper segment |
| Bilibili.ConvertSegments | src/providers/bilibili.py:380-386 | the conversion loop yields one stripped segment per Whisper segment, in order |
| Bilibili.TranscribeSource | src/providers/bilibili.py:41-51 | a transcript is a platform caption exactly when ASR was not asked for and the official path succeeded, and Whisper's otherwise |
| Bilibili.TranscribeFailsOnlyIfBothFail | src/providers/bilibili.py:47-51 | without the ASR flag the provider fails exactly when both the official path and Whisper fail |
| Bilibili.GetTranscript | src/providers/bilibili.py:41-51 | the provider's transcript is what Transcribe defines |
| BilibiliTracks.PageIndex | src/providers/bilibili.py:55-57 | the page is 1 without a p parameter and the parsed integer otherwise; a value that is not an integer fails |
| BilibiliTracks.PageOfVideoUrl | src/providers/bilibili.py:55-57 | a video page URL ending in `?p=` and digits parses into its path and that page number |
| BilibiliTracks.DefaultPageOfVideoUrl | src/providers/bilibili.py:55-57 | a video page URL without a query parses into its path and page 1 |
| BilibiliTracks.VideoPathTail | src/providers/bilibili.py:87 | the id read from a video page path is the BV id |
| BilibiliTracks.PageEntryIndex | src/providers/bilibili.py:77 | the index found is the first entry whose playlist index is the page, or past the end when there is none |
| BilibiliTracks.UrlEntryIndex | src/providers/bilibili.py:80 | the index found is the first entry whose page URL is the requested URL, or past the end when there is none |
| BilibiliTracks.SelectEntry | src/providers/bilibili.py:72-84 | without parts the top-level info is used; otherwise a part: the first whose playlist index is the page, else the first with the requested URL, else the first part |
| BilibiliTracks.PathTailIsLastSegment | src/providers/bilibili.py:87 | the id read from a URL path is its last segment, with or without a trailing slash |
| BilibiliTracks.Bvid | src/providers/bilibili.py:87 | the id is the top level's when set, else the selected entry's when set, else the URL path's last segment |
| BilibiliTracks.ChosenSubs | src/providers/bilibili.py:90-94 | no subtitle dict is found exactly when neither the selected entry nor the top level has manual or automatic subtitles |
| BilibiliTracks.Pool | src/providers/bilibili.py:119-172 | the tracks chosen among are the non-XML candidates when there are some, else the player API's tracks when it lists some, else all candidates |
| BilibiliTracks.PoolAvoidsXml | src/providers/bilibili.py:120-172 | when a non-XML candidate exists, the choice is made among candidates that are not XML |
| BilibiliTracks.LangScore | src/providers/bilibili.py:164-186 | a language scores 200 less ten per place for a listed preference, else 50 for a Chinese code, 40 for an English one and 10 for any other |
| BilibiliTracks.FmtScore | src/providers/bilibili.py:189-192 | a format scores 5 less its place among json, json3, vtt and srt, and 0 otherwise |
| BilibiliTracks.ScoreRange | src/providers/bilibili.py:170-195 | every candidate scores between 10 and 205, so the first always beats the initial best score of -1 |
| BilibiliTracks.LanguageDominates | src/providers/bilibili.py:172-193 | a listed language beats an unlisted one and an earlier listed language a later one, whatever the formats |
| BilibiliTracks.FormatBreaksTies | src/providers/bilibili.py:189-193 | between two tracks of one language the earlier preferred format wins |
| BilibiliTracks.Selected | src/providers/bilibili.py:170-199 | a track is chosen exactly when the pool is not empty |
| BilibiliTracks.SelectedIsFirstBest | src/providers/bilibili.py:195-199 | a candidate scoring at least as high as every other and strictly higher than every earlier one is the one chosen |
| BilibiliTracks.SelectedIsBest | src/providers/bilibili.py:170-199 | the chosen track is in the pool and scores at least as high as every candidate |
| BilibiliTracks.SelectTrack | src/providers/bilibili.py:170-199 | the selection loop, replacing the choice only on a strictly higher score, chooses what Selected defines |
| Subtitles.ItemCandidates | src/providers/bilibili.py:107-112 | an item yields a candidate exactly when it is a dict with a non-empty URL, and the candidate carries the lowered extension, empty when missing |
| Subtitles.LangCandidatesFrom | src/providers/bilibili.py:107-115 | every candidate of a language comes from one of its items and has a non-empty URL |
| Subtitles.NonXml | src/providers/bilibili.py:120 | the filter keeps exactly the candidates whose extension is not xml |
| Subtitles.CollectCandidates | src/providers/bilibili.py:104-115 | the collection loop yields the candidates of every language in dict order, as Candidates defines |
| Subtitles.CollectLang | src/providers/bilibili.py:107-112 | the inner loop yields the candidates of one language's items, in order |
| BilibiliCaptions.CueFrom | src/providers/bilibili.py:254-261 | a cue is produced only from a timing line that matches the timing grammar and from non-empty content |
| BilibiliCaptions.ParsersAgreeOnBlock | src/providers/bilibili.py:238-285 | the WebVTT and SubRip block parsers give the same cue for every block |
| BilibiliCaptions.ParsersAgree | src/providers/bilibili.py:238-285 | the WebVTT and SubRip parsers return the same segments for every text |
| BilibiliCaptions.CueTimes | src/providers/bilibili.py:223-236 | a cue's times are the values its timestamps spell, never the 0.0 fallback of a conversion error |
| BilibiliCaptions.VttSegmentsShape | src/providers/bilibili.py:238-262 | there is at most one segment per block, and every segment has text |
| BilibiliCaptions.ParseVtt | src/providers/bilibili.py:238-262 | the WebVTT loop returns the segments VttSegments defines |
| BilibiliCaptions.ParseSrt | src/providers/bilibili.py:264-285 | the SubRip loop returns the segments SrtSegments defines |
| BilibiliCaptions.BodyItemDefaults | src/providers/bilibili.py:292-296 | an item without "to" ends where it starts, one without "from" either spans the instant 0, and missing or empty content gives empty text |
| BilibiliCaptions.BodySegments | src/providers/bilibili.py:291-296 | a readable body gives exactly one segment per item, empty texts included |
| BilibiliCaptions.BodyFailureSticks | src/providers/bilibili.py:291-296 | a bad item anywhere fails the whole body |
| BilibiliCaptions.ParseJsonBody | src/providers/bilibili.py:288-296 | the json branch's loop returns what JsonBody defines |
| BilibiliCaptions.Json3Event | src/providers/bilibili.py:301-310 | an event gives at most one segment, and only one with text |
| BilibiliCaptions.EventTimes | src/providers/bilibili.py:302-310 | an event's segment starts at tStartMs over 1000 and lasts dDurationMs over 1000 seconds |
| BilibiliCaptions.Json3FailureSticks | src/providers/bilibili.py:300-310 | a bad event anywhere fails the whole document |
| BilibiliCaptions.Json3EventsHaveText | src/providers/bilibili.py:308-310 | events with empty text are dropped, so there is at most one segment per event and every segment has text |
| BilibiliCaptions.CollectSegTexts | src/providers/bilibili.py:305-307 | the inner loop collects the stripped texts SegTexts defines |
| BilibiliCaptions.ReadEvent | src/providers/bilibili.py:301-310 | one event of the json3 loop gives what Json3Event defines |
| BilibiliCaptions.ParseJson3 | src/providers/bilibili.py:297-310 | the json3 branch's loop returns what Json3 defines |
| Asr.AsrSegment | src/providers/bilibili.py:382-386 | a Whisper segment keeps its times, and its text is stripped |
| Asr.AsrSegments | src/providers/bilibili.py:380-386 | the conversion yields exactly one segment per Whisper segment, in order |
| YouTube.Search | src/providers/youtube.py:20 | the search finds the leftmost position where the pattern matches, and reports no match only when it matches nowhere |
| YouTube.Captured | src/providers/youtube.py:20-25 | a captured id is eleven characters from letters, digits, `_` and `-` |
| YouTube.VideoId | src/providers/youtube.py:19-32 | unless the extractor's answer is used, the id is eleven id characters found in the URL; no id is found only when the extractor fails |
| YouTube.VideoIdLeftmost | src/providers/youtube.py:20-22 | the leftmost `v=` or `/shorts/` followed by eleven id characters decides the id, wherever a short link appears |
| YouTube.VideoIdShortLink | src/providers/youtube.py:23-25 | without a watch or shorts match, the leftmost short link decides the id |
| YouTube.VideoIdProbe | src/providers/youtube.py:19-32 | the extractor is asked exactly when neither pattern matches anywhere, and its failure fails the provider; otherwise the id is eleven id characters of the URL |
| YouTube.LangRank | src/providers/youtube.py:166-175 | a language ranks at its place among the preferences, else 0 when it holds zh, 10 when it holds en and 99 otherwise |
| YouTube.FmtRank | src/providers/youtube.py:176-181 | a format ranks at its place among vtt, srt, json3 and srv3, else 99 |
| YouTube.KeyIsTuple | src/providers/youtube.py:182 | the sort key orders tracks by language rank, then by format rank |
| YouTube.ChosenIsFirstBest | src/providers/youtube.py:182-183 | the chosen track is one no candidate ranks before, and every earlier candidate ranks strictly after it, as a stable sort leaves it |
| YouTube.ListedLanguages | src/providers/youtube.py:164-175 | the four listed codes rank 0 to 3 |
| YouTube.UnlistedChineseRanksFirst | src/providers/youtube.py:171-172 | an unlisted Chinese code ranks 0, so zh-TW goes before the listed zh-Hant and zh |
| YouTube.ChineseFirst | src/providers/youtube.py:166-182 | any track whose code holds zh goes before any whose code does not, whatever the formats |
| YouTube.EnglishNext | src/providers/youtube.py:166-182 | a track whose code holds en but not zh goes before one whose code holds neither |
| YouTube.FormatBreaksTies | src/providers/youtube.py:176-182 | within one language the preferred formats come in their listed order, before any other format |
| YouTube.ItemSegment | src/providers/youtube.py:122 | an item's segment starts at its start, lasts its duration and carries its text |
| YouTube.ListedSegments | src/providers/youtube.py:110-122 | the listed path reads at most one segment per item, each from an item that has all three fields |
| YouTube.DirectSegments | src/providers/youtube.py:131 | the direct path reads exactly one segment per item, in order |
| YouTube.ListedKeepsCompleteItems | src/providers/youtube.py:110-131 | when every item has its fields, the two API paths read the same segments |
| YouTube.ListedSkipsIncompleteItems | src/providers/youtube.py:120-121 | items that all lack a field give no segment |
| YouTube.ApiTranscript | src/providers/youtube.py:56-138 | the API's transcript is a platform caption of the video; the listed path always yields one, in the track's language; the direct path yields one, labelled "auto", exactly when no item lacks a field; an unavailable API yields none |
| YouTube.ConvertItems | src/providers/youtube.py:110-122 | the items loop reads the segments ListedSegments defines |
| YouTube.FallbackShape | src/providers/youtube.py:140-202 | a fallback transcript comes from the chosen track of a non-empty candidate list, in its language, with at least one segment |
| YouTube.ManualSubtitlesWin | src/providers/youtube.py:152-163 | manual subtitles are used whenever there are any, so manual ones without a URL fail the fallback even when automatic captions have one |
| YouTube.WhisperTranscript | src/providers/youtube.py:329-357 | Whisper yields a transcript exactly when it returns a result, and it is Whisper's, for the video id |
| YouTube.ApiShortCircuits | src/providers/youtube.py:56-123 | a transcript from the API is returned as it is, and the other methods are never consulted |
| YouTube.TranscribeSource | src/providers/youtube.py:52-210 | a transcript is always for the video's id; it is Whisper's exactly when ASR is allowed and both caption methods failed, and a platform caption otherwise |
| YouTube.NoAsrHint | src/providers/youtube.py:206-210 | without ASR the failure of both caption methods is the error that suggests enabling it |
| YouTube.GetTranscript | src/providers/youtube.py:52-210 | the provider's transcript, with its loops run, is what Transcribe defines |
| YouTube.FetchApi | src/providers/youtube.py:56-138 | method 1, with its items loop, yields what ApiTranscript defines |
| YouTube.FetchSubtitles | src/providers/youtube.py:140-204 | method 2, with its candidate and parser loops, yields what Fallback defines |
| YouTubeCaptions.TextEnd | src/providers/youtube.py:237-241 | a cue's text runs up to the first blank line or line holding an arrow |
| YouTubeCaptions.BlankEnd | src/providers/youtube.py:242-243 | the blank-line skip stops at the first non-blank line |
| YouTubeCaptions.VttCue | src/providers/youtube.py:231-246 | a cue is kept only when it has text |
| YouTubeCaptions.NextLine | src/providers/youtube.py:227-243 | the scan always moves forward after a timing line |
| YouTubeCaptions.VttFrom | src/providers/youtube.py:227-247 | the WebVTT scan gives at most one segment per line, each with text |
| YouTubeCaptions.ReadCueText | src/providers/youtube.py:236-241 | the text loop stops where TextEnd says and collects the stripped lines before it |
| YouTubeCaptions.SkipBlank | src/providers/youtube.py:242-243 | the blank loop stops where BlankEnd says |
| YouTubeCaptions.ReadTimes | src/providers/youtube.py:234-235 | `ts_to_sec` reads both stamps of an accepted timing line without failing, to the seconds they spell |
| YouTubeCaptions.ScanCue | src/providers/youtube.py:231-246 | one timing line appends its cue, when it has text, and moves the scan to NextLine |
| YouTubeCaptions.ParseVtt | src/providers/youtube.py:212-247 | the WebVTT parser returns the segments Vtt defines |
| YouTubeCaptions.SrtCue | src/providers/youtube.py:309-326 | a block gives a cue only with non-empty text |
| YouTubeCaptions.SrtSegments | src/providers/youtube.py:300-327 | the SubRip parser gives at most one segment per block, each with text |
| YouTubeCaptions.ParseSrt | src/providers/youtube.py:300-327 | the SubRip loop returns the segments SrtSegments defines |
| YouTubeCaptions.SplitArrow | src/providers/youtube.py:319 | a line with one arrow splits into what precedes and what follows it |
| YouTubeCaptions.VttReadsStandardCue | src/providers/youtube.py:227-246 | a standard WebVTT cue, a timing line over text lines and the blank line closing it, yields its cue with the times its timestamps spell and its stripped lines joined by spaces, and the scan resumes after the blank line; a lone cue is the whole reading |
| YouTubeCaptions.SrtReadsStandardCue | src/providers/youtube.py:309-326 | a standard timing line over non-blank text yields its cue, with the times its timestamps spell |
| YouTubeCaptions.SrtReadsNumberedCue | src/providers/youtube.py:313-326 | the same cue behind its number line is read the same way |
| YouTubeCaptions.Json3SkipsUntimed | src/providers/youtube.py:257-265 | an event with no timing fields, or whose segs is not a list, adds nothing and raises nothing |
| YouTubeCaptions.Json3Event | src/providers/youtube.py:256-271 | an event gives at most one segment, and only one with text |
| YouTubeCaptions.Json3EventTimes | src/providers/youtube.py:269-271 | an event's segment starts at tStartMs over 1000 and lasts dDurationMs over 1000 seconds |
| YouTubeCaptions.Json3EventsHaveText | src/providers/youtube.py:266-271 | there is at most one segment per event, each with text |
| YouTubeCaptions.ParseJson3 | src/providers/youtube.py:249-272 | the json3 parser returns what Json3 defines |
| YouTubeCaptions.CollectEvents | src/providers/youtube.py:256-271 | the events loop returns what Json3Events defines |
| YouTubeCaptions.Segments | src/providers/youtube.py:192-199 | WebVTT is read when the format says so or the text starts with WEBVTT, else SubRip when the format says so or the text holds an arrow, else json3 |
| YouTubeCaptions.Json3BeforeSrv3 | src/providers/youtube.py:196-199 | json3 wins whenever it finds a segment, srv3 is read only when json3 finds none, and a failing json3 reading fails the step |
| YouTubeCaptions.ReadSegments | src/providers/youtube.py:191-199 | the parsing step returns what Segments defines |
| YouTubeCaptions.ReadJsonFallback | src/providers/youtube.py:196-199 | the `json3` reading, replaced by the `srv3` reading only when `json3` finds no segment |
| Captions.RunLength | src/providers/bilibili.py:241 | the run length counts exactly the leading non-blank lines |
| Captions.Blocks | src/providers/bilibili.py:241-242 | every line of every block is stripped and not empty |
| Captions.ParseTimecode | src/providers/bilibili.py:223-236 | a timecode with three or two fields reads as the seconds that the SubRip and WebVTT readings give it, when they read it |
| Captions.VttTsToSec | src/providers/youtube.py:217-225 | a timestamp is read only when it has two or three colon-separated fields |
| Captions.SrtTsToSec | src/providers/youtube.py:304-307 | a timestamp is read only when it has exactly three colon-separated fields |
| Captions.VttAgreesWithSrt | src/providers/youtube.py:217-225 | the WebVTT reading gives every timestamp the SubRip reading reads the same value |
| Captions.HoursMinutesSeconds | src/providers/bilibili.py:228-230 | three fields read as hours, minutes and seconds in seconds, and one failed field fails them all |
| Captions.MinutesSeconds | src/providers/bilibili.py:231-233 | two fields read as minutes and seconds in seconds, and one failed field fails both |
| Captions.StampReadings | src/providers/youtube.py:217-225 | every reading of a well-formed timestamp, the Bilibili one included, gives the seconds it spells; the SubRip reading needs the hours |
| Captions.BiliTimingFromShape | src/providers/bilibili.py:254 | a recognised Bilibili timing line holds two well-formed timestamps and the arrow |
| Captions.YtStandardTiming | src/providers/youtube.py:215 | the timing line `a --> b` of two timestamps in the regex's shape captures exactly `a` and `b` |
| Captions.YtTimingFromShape | src/providers/youtube.py:215 | a recognised YouTube timing line holds two well-formed timestamps and the arrow |
| Captions.BiliTimingValues | src/providers/bilibili.py:254-258 | both ends of a recognised Bilibili timing line read as the seconds they spell |
| Captions.YtTimingValues | src/providers/youtube.py:215-235 | both ends of a recognised YouTube timing line read as the seconds they spell |
| Captions.TimingHasArrow | src/providers/bilibili.py:246-254 | only a line holding the arrow can be a timing line |
| Cli.Pad2 | src/cli.py:24-25 | a two-digit field is the decimal numeral of the number, zero-padded to two digits below 100 |
| Cli.Clock | src/cli.py:21-22 | the hours, minutes and seconds add back up to the whole seconds; minutes and seconds are below 60, and the hours are negative exactly when the time is |
| Cli.ClockRoundTrip | src/cli.py:20-25 | the clock of a non-negative number of whole seconds reads back as that number |
| Cli.ClockFields | src/cli.py:23-25 | a non-negative time has three fields exactly from one hour on, and its minutes and seconds are two digits each, below 60 |
| Cli.ClockNegative | src/cli.py:21-25 | a negative time has no hours field and shows the time counted back from the next whole hour |
| Cli.MinusFiveSeconds | src/cli.py:20-25 | minus five seconds is shown as 59:55 |
| Cli.TruncTwice | src/cli.py:46 | truncating a keyframe's time before formatting it changes nothing |
| Cli.ToMarkdown | src/cli.py:27-52 | the line-by-line assembly gives the document Markdown defines |
| Cli.AppendBullets | src/cli.py:34-35 | each item is appended as a bullet line, in order |
| Cli.AppendFrames | src/cli.py:43-46 | each keyframe's lines are appended, in order |
| Cli.AppendChapter | src/cli.py:38-47 | a chapter's heading, bullets, keyframe section and blank line are appended as ChapterLines defines |
| Cli.AppendChapters | src/cli.py:37-47 | the chapters' lines are appended one chapter after the other |
| Cli.AppendQuotes | src/cli.py:48-51 | the quotes section is appended exactly as QuotesLines defines |
| Cli.MarkdownKeyPoints | src/cli.py:28-36 | the document opens with the title, the author and the one-sentence summary, then every key point as a bullet in order, then the chapters heading |
| Cli.MarkdownQuotesLast | src/cli.py:48-52 | the quotes come last, and only they depend on the quotes |
| Cli.QuotesSection | src/cli.py:48-51 | the quotes section is there exactly when there are quotes; it opens with its heading and lists every quote with its clock, in order |
| Cli.KeyframeSection | src/cli.py:41-42 | a chapter shows the keyframe heading exactly when it has keyframes |
| Cli.FramesCount | src/cli.py:43-46 | every keyframe gets one time line, and one image line more exactly when its image path is set |
| Cli.ChapterLength | src/cli.py:38-47 | a chapter's lines number two plus one per bullet, plus the keyframe heading and the keyframe lines when it has keyframes |
| Cli.ChapterShape | src/cli.py:38-47 | a chapter opens with its heading, lists its bullets in order right after it and ends with a blank line |
| Cli.FormatTime | src/cli.py:20-25 | the clock of a non-negative time reads back as its whole seconds; a negative one reads back as them counted back from the next whole hour |
| Cli.CleanUrl | src/cli.py:109 | the cleaned URL is a piece of the argument that neither starts nor ends with white space |
| Text.ParseStripped | src/providers/bilibili.py:226-233 | surrounding white space does not change what `int` and `float` read |
| Text.LStripChar | src/cli.py:109 | stripping one character from the left removes exactly the leading run of it |
| Cli.CleanUrlIdle | src/cli.py:109 | a URL that neither starts nor ends with white space, a backtick or a quote is left as it is |
| Cli.CleanUrlQuoted | src/cli.py:109 | one pair of backticks, double quotes or single quotes around a URL is removed |
| Cli.CleanUrlNestedQuotes | src/cli.py:109 | the clean-up removes the wrappers in a fixed order, so backticks inside double quotes stay |
| Urls.ParseUrl | src/cli.py:111 | a parsed URL's netloc has balanced brackets and no `/`, `?` or `#`; its path has no `?` or `#`; its query has no `#` |
| Urls.SplitAtFirst | src/cli.py:111 | a string splits at the first separator into a part without it and the rest, or stays whole when the separator is absent |
| Urls.RemoveUnsafeClean | src/cli.py:111 | no tab, carriage return or line feed is left once urlparse has sanitised its input |
| Urls.NetlocEnd | src/cli.py:111-112 | the netloc runs up to the earliest `/`, `?` or `#` after the leading `//` |
| Urls.ParseWebUrl | src/cli.py:111-113 | a URL of the form scheme://host/path?query parses into exactly those parts |
| Urls.ParseWebPath | src/cli.py:111-112 | a URL of the form scheme://host/path parses with an empty query |
| Urls.QueryValue | src/cli.py:113-114 | the value found is not empty: parse_qs drops blank values |
| Cli.WatchQuery | src/cli.py:113-114 | the v field that opens a query gives the id, whatever follows |
| Cli.ShortLinkCanonical | src/cli.py:117-120 | a youtu.be short link becomes the canonical watch URL of its id |
| Cli.WatchUrlCanonical | src/cli.py:112-116 | a watch URL whose query opens with the v field becomes the canonical watch URL of that id, and the other fields are dropped |
| Cli.WatchCanonicalIdle | src/cli.py:112-116 | the canonical watch URL is its own canonical form |
| Cli.WatchIdempotent | src/cli.py:109-138 | resolving the canonical watch URL gives it back unchanged |
| Cli.ShortLinkResolves | src/cli.py:109-138 | a youtu.be short link resolves to the canonical watch URL |
| Cli.WatchDispatch | src/cli.py:140-145 | a canonical watch URL goes to the Bilibili provider exactly when its id holds BV or bilibili |
| Cli.YouTubeIdWithBV | src/cli.py:117-145 | a YouTube id holding BV, given as a short link, is handed to the Bilibili provider |
| Cli.NoNetlocIdle | src/cli.py:112-120 | a URL with no colon and no leading `//` has no netloc, so no YouTube rewrite applies |
| Cli.CanonicalYouTube | src/cli.py:110-122 | the URL is kept, or replaced by a watch URL with an id, and only when it parses with a YouTube netloc |
| Cli.BilibiliUrl | src/cli.py:135-138 | the URL is kept or prefixed with the Bilibili video URL, and it no longer starts with BV unless it names bilibili.com |
| Cli.BvRule | src/cli.py:135-136 | a bare BV id is prefixed with the Bilibili video URL |
| Cli.BvIdResolves | src/cli.py:109-145 | a bare BV id resolves to its Bilibili video URL, which goes to the Bilibili provider |
| Cli.ResolveUrl | src/cli.py:109-145 | the URL argument, rewritten step by step, is what ResolvedUrl defines, and the provider is the one PlatformOf picks for it |

## Left out

- I/O is not modelled; its results are inputs, apart from cache writes, which always succeed (see the cache line below). This covers the language model's HTTP calls and their retries, yt-dlp, the transcript API, the HTTP downloads, Whisper with its audio download, ffmpeg, `os.listdir`/`os.path.exists`, and logging, except the cache manager's messages, which are kept as its `log`.
- Answers of the language model are a function of the call number and the request (`Llm.Model`). The rendered Jinja templates are not produced; a request records the values the template receives.
- JSON decoding, pydantic validation and `SummaryResult(**data)` are function parameters of the model. So is tiktoken's token count (`tokens`), and so is the SHA-256 hash behind cache file names (`hash`).
- Pydantic objects that the summarizer mutates in place (`kf.image_path`, `chapter.keyframes`, `chapter.summary`) are modelled on values. A (chapter, keyframe) index pair stands for each aliased reference.
- The in-place list sorts (the fallback's `sorted`/`sort` and the YouTube fallback's `candidates.sort`) are modelled as functions on sequences: a stable insertion sort and "first index with the least key". Update in place is not captured.
- youtube.py:62-74 and 125-133: which listing or fetching method the installed transcript library offers is an input (`YouTube.Api`). So is whether it accepts cookies.
- youtube.py:76-107: the search for a manual, generated or Chinese transcript and the translation to `zh-Hans` are left to the transcript library. Their outcome is an input: the language code and the fetched items.
- youtube.py:274-298: the `srv3` XML reader is an input function. XML parsing and HTML unescaping are not modelled.
- Python's `splitlines` is modelled as splitting at `\n`, `\r\n` and `\r`. The other Unicode line separators are not modelled.
- `str.lower` is modelled on ASCII letters only. Regex `\d` is modelled as ASCII digits only.
- `parse_qs` is modelled without percent-decoding, both for the command line's `v` field and for the Bilibili provider's `p` field. `urlsplit` is modelled without its bracketed-host (IPv6) validation and without its NFKC check of non-ASCII netlocs. A netloc with an unmatched bracket is modelled as the `ValueError` that the `except` at cli.py:121-122 swallows.
- Text.ParseInt: reads an optional sign and ASCII digits only. Python's `int` also reads `_` digit grouping (`1_0`) and non-ASCII decimal digits. For those the model gives None, as for a `ValueError`. For example, `?p=1_0` is page 10 in Python, but in the model the official path fails and the provider falls back to Whisper.
- Text.ParseFloat: reads an optional sign, ASCII digits and at most one `.` only. Python's `float` also reads exponents (`1e3`), `inf`, `infinity` and `nan` in any case, `_` grouping and non-ASCII digits. For those the model gives None, so a caption timestamp written that way is read as the parse failure.
- Captions.SrtTsToSec and Captions.VttTsToSec: their own contracts state only how many fields a timestamp that is read has. The values are stated by `Captions.StampReadings`, `Captions.HoursMinutesSeconds` and `Captions.MinutesSeconds`.
- Cache.CacheManager.SaveTranscript and Cache.CacheManager.SaveSummary: a cache write always succeeds. In the source, `open(path, "w")` or `json.dump` can raise (cache.py:30-31, 48-49). A failed summary write is logged and re-raised at summarizer.py:236-239, so `summarize` fails, but `Summarizer.Summarize` returns the result. A write that fails part-way, leaving a truncated file, is not modelled either.
- cli.py:54-83 (`render_summary`), the argument parsing (85-107), the settings overrides (126-133) and the writing of output files are not modelled.
- `to_markdown`'s line list is built through helper methods (`Cli.AppendChapter` …), one per loop of the source.
- The vision step's actual image reading and base64 encoding are not modelled. Whether an image can be read is an input predicate (`readable`).
- Illustration.NewBullets: only a list of strings replaces a chapter's bullets. The source also assigns a non-empty list whose items are not strings, which pydantic would not check on assignment. The model keeps the chapter's bullets in that case.
- Field validators of the pydantic models are not modelled; `Models.ModelsAdmitUnvalidatedValues` states that any values are admitted.
- Timestamps are exact reals; floating-point rounding is not modelled.
- `extract_info` of both providers (metadata only) is not modelled; the metadata is an input.
