/** The Bilibili provider's transcript path: the official subtitles (track
    choice, download, format dispatch) with Whisper as the fallback. The
    extractor's answer, the player API's track list, the HTTP download, the
    JSON decoder and the Whisper result are inputs. */
module Bilibili {
  import opened Wrappers
  import opened Text
  import opened Seqs
  import opened Models
  import opened Subtitles
  import opened Captions
  import opened JsonValues
  import opened BilibiliTracks
  import opened BilibiliCaptions
  import opened Asr
  import opened Urls

  /** The inputs the official path reads besides the page URL. */
  datatype Sources = Sources(
    info: Info,                        // the extractor's answer
    api: seq<Candidate>,               // tracks the player API lists (empty without a cid)
    fetch: string -> Option<string>,   // the body downloaded from a URL; None on an HTTP error
    decode: string -> Option<Json>)    // `resp.json()`; None when the body is not JSON

  function OptionToResult<T>(o: Option<T>, e: string): (r: Result<T, string>)
    ensures r.Ok? <==> o.Some?
    ensures o.Some? ==> r.value == o.value
  {
    if o.Some? then Ok(o.value) else Err(e)
  }

  /** The segments of a downloaded subtitle file, by the track's format. */
  function SegmentsFor(fmt: string, subUrl: string, body: string, decode: string -> Option<Json>): Result<seq<Segment>, string> {
    if fmt == "json" then
      var data := decode(body);
      if data.None? then Err("invalid JSON") else OptionToResult(JsonBody(data.value), "malformed json body")
    else if fmt == "json3" then
      var data := decode(body);
      if data.None? then Err("invalid JSON") else OptionToResult(Json3(data.value), "malformed json3 events")
    else if fmt == "vtt" then Ok(VttSegments(Blocks(body)))
    else if fmt == "srt" then Ok(SrtSegments(Blocks(body)))
    else if Contains(subUrl, "xml") || fmt == "xml" then Err("No valid closed captions found (only found Danmaku XML).")
    else
      var parsed := VttSegments(Blocks(body));
      Ok(if parsed != [] then parsed else SrtSegments(Blocks(body)))
  }

  /** A file of unknown format is read as WebVTT: the SubRip retry adds nothing. */
  lemma UnknownFormatReadsVtt(fmt: string, subUrl: string, body: string, decode: string -> Option<Json>)
    requires fmt !in ["json", "json3", "vtt", "srt", "xml"] && !Contains(subUrl, "xml")
    ensures SegmentsFor(fmt, subUrl, body, decode) == Ok(VttSegments(Blocks(body)))
  {
    ParsersAgree(Blocks(body));
  }

  /** A Danmaku XML track is never parsed. */
  lemma XmlIsRefused(subUrl: string, body: string, decode: string -> Option<Json>)
    ensures SegmentsFor("xml", subUrl, body, decode).Err?
  {
  }

  /** The subtitle dict of the part of the video the URL names. */
  function SubsFor(url: string, src: Sources, page: int): SubsDict {
    ChosenSubs(SelectEntry(src.info, page, url), src.info.top)
  }

  /** The tracks the choice is made among. */
  function PoolFor(url: string, src: Sources, page: int): seq<Candidate> {
    Pool(Candidates(SubsFor(url, src, page)), src.api)
  }

  /** The video id and the chosen track, or why there is none. */
  function Track(url: string, src: Sources): Result<(string, Candidate), string> {
    var parts := PartsOf(url);
    if parts.None? then Err("Invalid URL")
    else
      var page := PageIndex(parts.value);
      if page.None? then Err("invalid page index")
      else TrackOn(url, src, page.value, parts.value)
  }

  /** The choice once the page and the path are known. */
  function TrackOn(url: string, src: Sources, page: int, parts: UrlParts): Result<(string, Candidate), string> {
    var selected := SelectEntry(src.info, page, url);
    var subs := ChosenSubs(selected, src.info.top);
    if subs == [] then Err("No subtitles found for this Bilibili video.")
    else
      var choice := Selected(Pool(Candidates(subs), src.api));
      if choice.None? || choice.value.url == [] then Err("Could not extract subtitle URL")
      else Ok((Bvid(src.info, selected, parts), choice.value))
  }

  /** The page of `?p=<d>` is the part the track is chosen from, and the
      URL's path is the id fallback. */
  lemma TrackOfPageUrl(bv: string, d: string, src: Sources)
    requires IsId(bv) && d != [] && AllDigits(d)
    ensures Track(VideoPrefix + bv + "?p=" + d, src)
      == TrackOn(VideoPrefix + bv + "?p=" + d, src, DigitsValue(d), UrlParts("/video/" + bv, Some(d)))
  {
    PageOfVideoUrl(bv, d);
  }

  /** The chosen track is the first best-scoring one of a non-empty pool. */
  lemma TrackIsSelected(url: string, src: Sources)
    requires Track(url, src).Ok?
    ensures PartsOf(url).Some? && PageIndex(PartsOf(url).value).Some?
    ensures var pool := PoolFor(url, src, PageIndex(PartsOf(url).value).value);
      pool != [] && Track(url, src).value.1 == Selected(pool).value
  {
  }

  /** `_get_official_transcript` */
  function Official(url: string, src: Sources): Result<Transcript, string> {
    var track := Track(url, src);
    if track.Err? then Err(track.error)
    else
      var (bvid, c) := track.value;
      var body := src.fetch(c.url);
      if body.None? then Err("HTTP error")
      else
        var segs := SegmentsFor(c.ext, c.url, body.value, src.decode);
        if segs.Err? then Err(segs.error)
        else if segs.value == [] then Err("Parsed zero subtitle segments for format " + c.ext + ".")
        else Ok(CaptionTranscript(bvid, c.lang, segs.value))
  }

  /** An official transcript is a platform caption with at least one
      segment, in the language of the chosen track. */
  lemma OfficialShape(url: string, src: Sources)
    requires Official(url, src).Ok?
    ensures Track(url, src).Ok?
    ensures Official(url, src).value.source == PlatformCaption
    ensures Official(url, src).value.segments != []
    ensures Official(url, src).value.language == Track(url, src).value.1.lang
  {
    var c := Track(url, src).value.1;
    var segs := SegmentsFor(c.ext, c.url, src.fetch(c.url).value, src.decode);
    assert Official(url, src) == Ok(CaptionTranscript(Track(url, src).value.0, c.lang, segs.value));
  }

  /** The official path as a program: every step of the function above,
      with the candidate collection, the selection and the parsers run as
      loops. */
  method OfficialTranscript(url: string, src: Sources) returns (r: Result<Transcript, string>)
    ensures r == Official(url, src)
  {
    var track := ChooseTrack(url, src);
    if track.Err? {
      return Err(track.error);
    }
    var (bvid, c) := track.value;
    var body := src.fetch(c.url);
    if body.None? {
      return Err("HTTP error");
    }
    var segs := ReadSegments(c.ext, c.url, body.value, src.decode);
    if segs.Err? {
      return Err(segs.error);
    }
    if segs.value == [] {
      return Err("Parsed zero subtitle segments for format " + c.ext + ".");
    }
    return Ok(CaptionTranscript(bvid, c.lang, segs.value));
  }

  /** Entry, id, subtitle dict, candidates and selection. */
  method ChooseTrack(url: string, src: Sources) returns (r: Result<(string, Candidate), string>)
    ensures r == Track(url, src)
  {
    var parts := PartsOf(url);
    if parts.None? {
      return Err("Invalid URL");
    }
    var page := PageIndex(parts.value);
    if page.None? {
      return Err("invalid page index");
    }
    var selected := SelectEntry(src.info, page.value, url);
    var subs := ChosenSubs(selected, src.info.top);
    if subs == [] {
      return Err("No subtitles found for this Bilibili video.");
    }
    var candidates := CollectCandidates(subs);
    var choice := SelectTrack(Pool(candidates, src.api));
    if choice.None? || choice.value.url == [] {
      return Err("Could not extract subtitle URL");
    }
    return Ok((Bvid(src.info, selected, parts.value), choice.value));
  }

  /** The format dispatch, running the parsers. */
  method ReadSegments(fmt: string, subUrl: string, body: string, decode: string -> Option<Json>) returns (r: Result<seq<Segment>, string>)
    ensures r == SegmentsFor(fmt, subUrl, body, decode)
  {
    if fmt == "json" || fmt == "json3" {
      var data := decode(body);
      if data.None? {
        return Err("invalid JSON");
      }
      if fmt == "json" {
        var segs := ParseJsonBody(data.value);
        return OptionToResult(segs, "malformed json body");
      } else {
        var segs := ParseJson3(data.value);
        return OptionToResult(segs, "malformed json3 events");
      }
    } else if fmt == "vtt" {
      var segs := ParseVtt(body);
      return Ok(segs);
    } else if fmt == "srt" {
      var segs := ParseSrt(body);
      return Ok(segs);
    } else if Contains(subUrl, "xml") || fmt == "xml" {
      return Err("No valid closed captions found (only found Danmaku XML).");
    } else {
      var parsed := ParseVtt(body);
      if parsed == [] {
        parsed := ParseSrt(body);
      }
      return Ok(parsed);
    }
  }

  // ---------------------------------------------------------------------
  // Whisper and the dispatch between the two paths.
  // ---------------------------------------------------------------------

  /** `url.split('/')[-1]`, cut at `?` when it holds `BV`. */
  function WhisperVideoId(url: string): string {
    var pieces := SplitOn(url, "/");
    var last := pieces[|pieces| - 1];
    if Contains(last, "BV") then SplitOn(last, "?")[0] else last
  }

  /** The id of a video page URL is its last path segment, without the query. */
  lemma WhisperVideoIdOfPage(prefix: string, x: string, query: string)
    requires forall i | 0 <= i < |x| :: x[i] != '/' && x[i] != '?'
    requires forall i | 0 <= i < |query| :: query[i] != '/'
    requires Contains(x + "?" + query, "BV")
    ensures WhisperVideoId(prefix + "/" + x + "?" + query) == x
  {
    var last := x + ['?'] + query;
    assert prefix + "/" + x + "?" + query == prefix + ['/'] + last;
    forall i | 0 <= i < |last| ensures last[i] != '/' {
      if i < |x| {
        assert last[i] == x[i];
      } else if i > |x| {
        assert last[i] == query[i - |x| - 1];
      }
    }
    SplitLastPiece(prefix, '/', last);
    SplitOnAfter(x, '?', query);
  }

  /** `_transcribe_with_whisper`: a missing result (the model is not
      installed or transcription failed) or one without `segments` raises;
      otherwise the transcript is Whisper's, under the id taken from the
      URL, with one stripped segment per Whisper segment. */
  function WhisperTranscript(url: string, asr: Option<WhisperResult>): (r: Result<Transcript, string>)
    ensures r.Ok? <==> asr.Some? && asr.value.segments.Some?
    ensures r.Ok? ==>
      r.value.source == AsrWhisper && r.value.videoId == WhisperVideoId(url)
      && |r.value.segments| == |asr.value.segments.value|
      && forall i | 0 <= i < |r.value.segments| ::
        r.value.segments[i].start == asr.value.segments.value[i].start
        && r.value.segments[i].end == asr.value.segments.value[i].end
        && r.value.segments[i].text == Strip(asr.value.segments.value[i].text)
  {
    if asr.None? then Err("Whisper transcription failed")
    else if asr.value.segments.None? then Err("Whisper result has no segments")
    else Ok(Transcript(WhisperVideoId(url), AsrLanguage(asr.value), AsrWhisper, AsrSegments(asr.value.segments.value)))
  }

  /** The segment loop of `_transcribe_with_whisper`. */
  method TranscribeWithWhisper(url: string, asr: Option<WhisperResult>) returns (r: Result<Transcript, string>)
    ensures r == WhisperTranscript(url, asr)
  {
    if asr.None? {
      return Err("Whisper transcription failed");
    }
    if asr.value.segments.None? {
      return Err("Whisper result has no segments");
    }
    var segments := ConvertSegments(asr.value.segments.value);
    return Ok(Transcript(WhisperVideoId(url), AsrLanguage(asr.value), AsrWhisper, segments));
  }

  /** The loop appending one segment per Whisper segment. */
  method ConvertSegments(ws: seq<WhisperSegment>) returns (segments: seq<Segment>)
    ensures segments == AsrSegments(ws)
  {
    segments := [];
    for i := 0 to |ws|
      invariant |segments| == i
      invariant forall k | 0 <= k < i :: segments[k] == AsrSegment(ws[k])
    {
      segments := segments + [AsrSegment(ws[i])];
    }
  }

  /** `get_transcript`: Whisper straight away when asked for, else the
      official subtitles with Whisper after any failure. */
  function Transcribe(allowAsr: bool, url: string, src: Sources, asr: Option<WhisperResult>): Result<Transcript, string> {
    if allowAsr then WhisperTranscript(url, asr)
    else
      var official := Official(url, src);
      if official.Ok? then official else WhisperTranscript(url, asr)
  }

  /** Where a transcript comes from: a platform caption exactly when ASR was
      not requested and the official path succeeded; otherwise Whisper's. */
  lemma TranscribeSource(allowAsr: bool, url: string, src: Sources, asr: Option<WhisperResult>)
    requires Transcribe(allowAsr, url, src, asr).Ok?
    ensures Transcribe(allowAsr, url, src, asr).value.source == PlatformCaption
      <==> !allowAsr && Official(url, src).Ok?
    ensures Transcribe(allowAsr, url, src, asr).value.source == AsrWhisper
      <==> (allowAsr || Official(url, src).Err?)
  {
    if !allowAsr && Official(url, src).Ok? {
      OfficialShape(url, src);
    }
  }

  /** A URL that `urlparse` rejects fails the official path before the
      extractor is asked, so Whisper is used. */
  lemma UnparsableUrlUsesWhisper(url: string, src: Sources, asr: Option<WhisperResult>)
    requires ParseUrl(url).None?
    ensures Official(url, src).Err?
    ensures Transcribe(false, url, src, asr) == WhisperTranscript(url, asr)
  {
  }

  /** The fallback fails only when both paths fail. */
  lemma TranscribeFailsOnlyIfBothFail(url: string, src: Sources, asr: Option<WhisperResult>)
    ensures Transcribe(false, url, src, asr).Err? <==> Official(url, src).Err? && WhisperTranscript(url, asr).Err?
  {
  }

  method GetTranscript(allowAsr: bool, url: string, src: Sources, asr: Option<WhisperResult>) returns (r: Result<Transcript, string>)
    ensures r == Transcribe(allowAsr, url, src, asr)
  {
    if allowAsr {
      r := TranscribeWithWhisper(url, asr);
      return;
    }
    r := OfficialTranscript(url, src);
    if r.Err? {
      r := TranscribeWithWhisper(url, asr);
    }
  }
}
