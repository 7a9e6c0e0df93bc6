/** What a Whisper transcription hands back, and the one-to-one segment
    mapping both providers apply to it. The transcription itself (model
    loading, audio download, decoding) is outside the model. */
module Asr {
  import opened Wrappers
  import opened Text
  import opened Models

  datatype WhisperSegment = WhisperSegment(start: real, end: real, text: string)

  /** `result`: its `language`, if present, and its `segments`, if present. */
  datatype WhisperResult = WhisperResult(language: Option<string>, segments: Option<seq<WhisperSegment>>)

  /** `Segment(start=seg['start'], end=seg['end'], text=seg['text'].strip())` */
  function AsrSegment(w: WhisperSegment): (s: Segment)
    ensures s.start == w.start && s.end == w.end && s.text == Strip(w.text)
  {
    Segment(w.start, w.end, Strip(w.text))
  }

  /** One segment per Whisper segment, in order. */
  function AsrSegments(ws: seq<WhisperSegment>): (r: seq<Segment>)
    ensures |r| == |ws|
    ensures forall i | 0 <= i < |ws| :: r[i] == AsrSegment(ws[i])
  {
    seq(|ws|, i requires 0 <= i < |ws| => AsrSegment(ws[i]))
  }

  /** `result.get('language', 'unknown')` */
  function AsrLanguage(res: WhisperResult): string {
    res.language.GetOr("unknown")
  }
}
