/** The records of the pipeline: timed segments and transcripts, the
    map-phase chunk summary, and the structured summary with its chapters,
    keyframes and quotes. Every field is unconstrained, as in the pydantic
    models they stand for; optional fields with a default are `Option`s
    whose default is given by the constructor functions below. */
module Models {
  import opened Wrappers

  /** One timed unit of transcript text, in seconds. */
  datatype Segment = Segment(start: real, end: real, text: string)

  /** Provenance of a transcript: the two literals of the `source` field. */
  datatype Source = PlatformCaption | AsrWhisper {
    function Literal(): string {
      match this
      case PlatformCaption => "platform_caption"
      case AsrWhisper => "asr_whisper"
    }
  }

  datatype Transcript = Transcript(videoId: string, language: string, source: Source, segments: seq<Segment>)

  /** `Transcript(video_id=..., language=..., segments=...)`: `source` left at its default. */
  function CaptionTranscript(videoId: string, language: string, segments: seq<Segment>): (t: Transcript)
    ensures t.source == PlatformCaption && t.source.Literal() == "platform_caption"
    ensures t.segments == segments
  {
    Transcript(videoId, language, PlatformCaption, segments)
  }

  /** Map-phase output for one chunk; `entities` may be null in the JSON. */
  datatype ChunkSummary = ChunkSummary(startTime: real, endTime: real, keyPoints: seq<string>, entities: Option<seq<string>>)

  /** `ChunkSummary(start_time=..., end_time=..., key_points=...)`: `entities` defaults to `[]`. */
  function NewChunkSummary(startTime: real, endTime: real, keyPoints: seq<string>): (c: ChunkSummary)
    ensures c.entities == Some([])
    ensures c.startTime == startTime && c.endTime == endTime && c.keyPoints == keyPoints
  {
    ChunkSummary(startTime, endTime, keyPoints, Some([]))
  }

  datatype KeyFrame = KeyFrame(timestamp: real, description: string, imagePath: Option<string>)

  /** `KeyFrame(timestamp=..., description=...)`: no image until one is assigned. */
  function NewKeyFrame(timestamp: real, description: string): (k: KeyFrame)
    ensures k.imagePath == None
  {
    KeyFrame(timestamp, description, None)
  }

  datatype Chapter = Chapter(title: string, startTime: real, endTime: real, summary: seq<string>, keyframes: Option<seq<KeyFrame>>)

  /** `Chapter(...)` without keyframes: they default to the empty list. */
  function NewChapter(title: string, startTime: real, endTime: real, summary: seq<string>): (c: Chapter)
    ensures c.keyframes == Some([])
  {
    Chapter(title, startTime, endTime, summary, Some([]))
  }

  /** `chapter.keyframes or []` */
  function KeyframesOf(c: Chapter): seq<KeyFrame> {
    c.keyframes.GetOr([])
  }

  /** Python truthiness of `chapter.keyframes`: present and non-empty. */
  predicate HasKeyframes(c: Chapter) {
    c.keyframes.Some? && c.keyframes.value != []
  }

  /** Python truthiness of an optional string such as `kf.image_path`. */
  predicate IsSet(s: Option<string>) {
    s.Some? && s.value != []
  }

  datatype Quote = Quote(text: string, timestamp: real)

  /** All four fields are required: a JSON object lacking one does not validate. */
  datatype SummaryResult = SummaryResult(oneSentenceSummary: string, keyPoints: seq<string>, chapters: seq<Chapter>, quotes: seq<Quote>)

  datatype VideoMetadata = VideoMetadata(
    id: string, title: string, author: string, duration: real, platform: string, url: string,
    description: Option<string>, thumbnailUrl: Option<string>)

  /** A decoded JSON document; object members keep their order. */
  datatype Json =
    | JNull
    | JBool(b: bool)
    | JNumber(n: real)
    | JString(s: string)
    | JArray(items: seq<Json>)
    | JObject(members: seq<(string, Json)>)

  /** Python truthiness of a decoded JSON value (`if cached:`). */
  predicate Truthy(j: Json) {
    match j
    case JNull => false
    case JBool(b) => b
    case JNumber(n) => n != 0.0
    case JString(s) => s != []
    case JArray(items) => items != []
    case JObject(members) => members != []
  }

  /** The models validate types only: a segment may end before it starts and
      carry no text, a chapter may end before it starts, and a transcript's
      segments need not be sorted. */
  lemma ModelsAdmitUnvalidatedValues()
    ensures exists s: Segment :: s.end < s.start && s.text == []
    ensures exists c: Chapter :: c.endTime <= c.startTime
    ensures exists t: Transcript :: |t.segments| == 2 && t.segments[1].start < t.segments[0].start
  {
    var s := Segment(1.0, 0.0, "");
    assert s.end < s.start && s.text == [];
    var c := NewChapter("", 5.0, 5.0, []);
    assert c.endTime <= c.startTime;
    var t := CaptionTranscript("", "", [Segment(9.0, 10.0, "b"), Segment(0.0, 1.0, "a")]);
    assert |t.segments| == 2 && t.segments[1].start < t.segments[0].start;
  }
}
