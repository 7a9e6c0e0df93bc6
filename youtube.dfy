/** The YouTube provider's transcript path: the video id, the
    transcript-API result, the yt-dlp subtitle fallback (ranking, download,
    format dispatch) and Whisper. The extractors, the transcript API, the
    HTTP download, the JSON decoder and the Whisper result are inputs. */
module YouTube {
  import opened Wrappers
  import opened Text
  import opened Models
  import opened Subtitles
  import opened Ranking
  import opened Sorting
  import opened JsonValues
  import opened YouTubeCaptions
  import opened Asr

  // ---------------------------------------------------------------------
  // The video id.
  // ---------------------------------------------------------------------

  /** `[A-Za-z0-9_-]` */
  predicate IsIdChar(c: char) {
    ('A' <= c <= 'Z') || ('a' <= c <= 'z') || ('0' <= c <= '9') || c == '_' || c == '-'
  }

  /** Eleven id characters start at `i`. */
  predicate IdAt(s: string, i: nat) {
    i + 11 <= |s| && forall k | i <= k < i + 11 :: IsIdChar(s[k])
  }

  predicate IsId(id: string) {
    |id| == 11 && forall k | 0 <= k < 11 :: IsIdChar(id[k])
  }

  /** The two id patterns: `(?:v=|/shorts/)([A-Za-z0-9_-]{11})` and
      `youtu\.be/([A-Za-z0-9_-]{11})`. */
  datatype Pattern = WatchOrShorts | ShortLink

  /** Where the group starts when `pat` matches at `i`. */
  function GroupAt(pat: Pattern, s: string, i: nat): (g: Option<nat>)
    ensures g.Some? ==> IdAt(s, g.value)
  {
    match pat
    case WatchOrShorts =>
      if OccursAt(s, "v=", i) && IdAt(s, i + 2) then Some(i + 2)
      else if OccursAt(s, "/shorts/", i) && IdAt(s, i + 8) then Some(i + 8)
      else None
    case ShortLink =>
      if OccursAt(s, "youtu.be/", i) && IdAt(s, i + 9) then Some(i + 9) else None
  }

  /** `re.search`: the leftmost position, from `i` on, where `pat` matches. */
  function Search(pat: Pattern, s: string, i: nat): (r: Option<nat>)
    requires i <= |s|
    ensures r.Some? ==> i <= r.value <= |s| && GroupAt(pat, s, r.value).Some?
    ensures r.Some? ==> forall j | i <= j < r.value :: GroupAt(pat, s, j).None?
    ensures r.None? ==> forall j | i <= j <= |s| :: GroupAt(pat, s, j).None?
    decreases |s| - i
  {
    if GroupAt(pat, s, i).Some? then Some(i)
    else if i == |s| then None
    else Search(pat, s, i + 1)
  }

  /** `m.group(1)` of the leftmost match. */
  function Captured(pat: Pattern, s: string): (r: Option<string>)
    ensures r.Some? ==> IsId(r.value) && Contains(s, r.value)
  {
    var p := Search(pat, s, 0);
    if p.None? then None
    else
      var g := GroupAt(pat, s, p.value).value;
      ContainsAt(s, s[g..g + 11], g);
      Some(s[g..g + 11])
  }

  /** `_get_video_id`: the watch or shorts pattern, then the short-link
      pattern, then the extractor's `info['id']`, whose failure (`probe`
      is None) is raised. An id other than the extractor's is eleven id
      characters found in the URL, and the id is missing only when the
      extractor fails too. */
  function VideoId(url: string, probe: Option<string>): (r: Option<string>)
    ensures r != probe ==> r.Some? && IsId(r.value) && Contains(url, r.value)
    ensures r.None? ==> probe.None?
  {
    var keyed := Captured(WatchOrShorts, url);
    if keyed.Some? then keyed
    else
      var short := Captured(ShortLink, url);
      if short.Some? then short else probe
  }

  /** The leftmost `v=` or `/shorts/` followed by eleven id characters
      decides the id, wherever a short link appears. */
  lemma VideoIdLeftmost(url: string, p: nat, probe: Option<string>)
    requires p <= |url| && GroupAt(WatchOrShorts, url, p).Some?
    requires forall j | 0 <= j < p :: GroupAt(WatchOrShorts, url, j).None?
    ensures VideoId(url, probe) == Some(url[GroupAt(WatchOrShorts, url, p).value..GroupAt(WatchOrShorts, url, p).value + 11])
    ensures IsId(VideoId(url, probe).value)
  {
    var q := Search(WatchOrShorts, url, 0);
    assert q == Some(p);
  }

  /** Without a watch or shorts match, the leftmost short link decides. */
  lemma VideoIdShortLink(url: string, p: nat, probe: Option<string>)
    requires forall j | 0 <= j <= |url| :: GroupAt(WatchOrShorts, url, j).None?
    requires p <= |url| && GroupAt(ShortLink, url, p).Some?
    requires forall j | 0 <= j < p :: GroupAt(ShortLink, url, j).None?
    ensures VideoId(url, probe) == Some(url[p + 9..p + 20])
  {
    var q := Search(ShortLink, url, 0);
    assert q == Some(p);
  }

  /** The extractor is asked exactly when neither pattern matches anywhere;
      otherwise the id is eleven id characters of the URL. */
  lemma VideoIdProbe(url: string, probe: Option<string>)
    ensures (forall j | 0 <= j <= |url| :: GroupAt(WatchOrShorts, url, j).None? && GroupAt(ShortLink, url, j).None?)
      ==> VideoId(url, probe) == probe
    ensures (exists j | 0 <= j <= |url| :: GroupAt(WatchOrShorts, url, j).Some? || GroupAt(ShortLink, url, j).Some?)
      ==> VideoId(url, probe).Some? && IsId(VideoId(url, probe).value)
  {
  }

  // ---------------------------------------------------------------------
  // Ranking the yt-dlp subtitle candidates.
  // ---------------------------------------------------------------------

  const LangPrefs: seq<string> := ["zh-Hans", "zh-Hant", "zh", "en"]

  const FmtPrefs: seq<string> := ["vtt", "srt", "json3", "srv3"]

  /** `lang_rank`: the index of the preference equal to the code ignoring
      case, else 0 for a code holding `zh`, 10 for one holding `en` and 99
      for any other. */
  function LangRank(lang: string): (r: nat)
    ensures r < 100
  {
    var i := PrefIndex(LangPrefs, lang);
    if i < |LangPrefs| then i
    else if Contains(Lower(lang), "zh") then 0
    else if Contains(Lower(lang), "en") then 10
    else 99
  }

  /** `fmt_rank`: the index of the lower-cased extension among the
      preferred formats, else 99. */
  function FmtRank(ext: string): (r: nat)
    ensures r < 100
  {
    var i := IndexOf(FmtPrefs, Lower(ext));
    if i < |FmtPrefs| then i else 99
  }

  /** The tuple order of `(lang_rank, fmt_rank)`. */
  predicate RankBefore(c: Candidate, d: Candidate) {
    LangRank(c.lang) < LangRank(d.lang)
    || (LangRank(c.lang) == LangRank(d.lang) && FmtRank(c.ext) < FmtRank(d.ext))
  }

  /** The sort key `(lang_rank(x[0]), fmt_rank(x[2]))`. */
  function Key(c: Candidate): Rank {
    (LangRank(c.lang) as real, FmtRank(c.ext) as real)
  }

  /** Keys compare as the two ranks do. */
  lemma KeyIsTuple(c: Candidate, d: Candidate)
    ensures Below(Key(c), Key(d)) <==> RankBefore(c, d)
  {
  }

  /** `candidates.sort(key=…)` followed by `candidates[0]`. */
  function Chosen(cands: seq<Candidate>): Candidate
    requires cands != []
  {
    SortBy(cands, Key)[0]
  }

  /** The chosen track is the first one that no other candidate ranks
      before: every earlier candidate ranks strictly after it. */
  lemma ChosenIsFirstBest(cands: seq<Candidate>)
    requires cands != []
    ensures var k := FirstMin(Keys(cands, Key));
      Chosen(cands) == cands[k]
      && (forall i | 0 <= i < |cands| :: !RankBefore(cands[i], cands[k]))
      && (forall i | 0 <= i < k :: RankBefore(cands[k], cands[i]))
  {
    SortByHead(cands, Key);
    var k := FirstMin(Keys(cands, Key));
    forall i | 0 <= i < |cands|
      ensures !RankBefore(cands[i], cands[k])
      ensures i < k ==> RankBefore(cands[k], cands[i])
    {
      KeyIsTuple(cands[i], cands[k]);
      KeyIsTuple(cands[k], cands[i]);
    }
  }

  /** A string that begins with `p` holds `p`. */
  lemma HoldsAtStart(s: string, p: string)
    requires |p| <= |s| && forall k | 0 <= k < |p| :: s[k] == p[k]
    ensures Contains(s, p)
  {
    assert s[0..|p|] == p;
    ContainsAt(s, p, 0);
  }

  /** The lower-cased listed codes hold `zh`, except the last, which holds
      `en` and not `zh`. */
  lemma ListedCodes(lang: string)
    requires PrefIndex(LangPrefs, lang) < |LangPrefs|
    ensures PrefIndex(LangPrefs, lang) < 3 ==> Contains(Lower(lang), "zh")
    ensures PrefIndex(LangPrefs, lang) == 3 ==> Contains(Lower(lang), "en") && !Contains(Lower(lang), "zh")
  {
    if PrefIndex(LangPrefs, lang) < 3 {
      ListedChinese(lang);
    } else {
      ListedEnglish(lang);
    }
  }

  lemma ListedChinese(lang: string)
    requires PrefIndex(LangPrefs, lang) < 3
    ensures Contains(Lower(lang), "zh")
  {
    var p := LangPrefs[PrefIndex(LangPrefs, lang)];
    LowerPrefixZh(lang, p);
  }

  /** A code equal, ignoring case, to one starting with `zh` holds `zh`. */
  lemma LowerPrefixZh(lang: string, p: string)
    requires Lower(p) == Lower(lang) && |p| >= 2 && p[0] == 'z' && p[1] == 'h'
    ensures Contains(Lower(lang), "zh")
  {
    var l := Lower(lang);
    assert l[0] == Lower(p)[0] && l[1] == Lower(p)[1];
    HoldsAtStart(l, "zh");
  }

  lemma ListedEnglish(lang: string)
    requires PrefIndex(LangPrefs, lang) == 3
    ensures Contains(Lower(lang), "en") && !Contains(Lower(lang), "zh")
  {
    var l := Lower(lang);
    assert l == Lower("en");
    assert |l| == 2 && l[0] == 'e' && l[1] == 'n';
    HoldsAtStart(l, "en");
    assert !OccursAt(l, "zh", 0) by {
      assert l[0..2][0] != "zh"[0];
    }
  }

  /** The four listed codes rank 0 to 3. */
  lemma ListedLanguages()
    ensures LangRank("zh-Hans") == 0 && LangRank("zh-Hant") == 1
    ensures LangRank("zh") == 2 && LangRank("en") == 3
  {
    assert Lower("zh-Hans")[6] == 's' && Lower("zh-Hant")[6] == 't';
    assert Lower("zh")[0] == 'z' && Lower("en")[0] == 'e';
  }

  /** An unlisted Chinese code ranks 0: `zh-TW` goes before the listed
      `zh-Hant` and `zh`. */
  lemma UnlistedChineseRanksFirst()
    ensures LangRank("zh-TW") == 0
    ensures LangRank("zh-TW") < LangRank("zh-Hant") < LangRank("zh")
  {
    ListedLanguages();
    var l := Lower("zh-TW");
    assert |l| == 5 && l[0] == 'z' && l[1] == 'h';
    HoldsAtStart(l, "zh");
  }

  /** Any track whose code holds `zh` goes before any track whose code
      does not, whatever the two formats. */
  lemma ChineseFirst(c: Candidate, d: Candidate)
    requires Contains(Lower(c.lang), "zh") && !Contains(Lower(d.lang), "zh")
    ensures RankBefore(c, d)
  {
    if PrefIndex(LangPrefs, c.lang) < |LangPrefs| {
      ListedCodes(c.lang);
    }
    if PrefIndex(LangPrefs, d.lang) < |LangPrefs| {
      ListedCodes(d.lang);
    }
  }

  /** Then English: a track whose code holds `en` but not `zh` goes before
      one whose code holds neither. */
  lemma EnglishNext(c: Candidate, d: Candidate)
    requires Contains(Lower(c.lang), "en") && !Contains(Lower(c.lang), "zh")
    requires !Contains(Lower(d.lang), "en") && !Contains(Lower(d.lang), "zh")
    ensures RankBefore(c, d)
  {
    if PrefIndex(LangPrefs, c.lang) < |LangPrefs| {
      ListedCodes(c.lang);
    }
    if PrefIndex(LangPrefs, d.lang) < |LangPrefs| {
      ListedCodes(d.lang);
    }
  }

  /** Within one language the preferred formats come in their listed order,
      before any other format. */
  lemma FormatBreaksTies(c: Candidate, d: Candidate)
    requires c.lang == d.lang
    requires IndexOf(FmtPrefs, Lower(c.ext)) < IndexOf(FmtPrefs, Lower(d.ext))
    ensures RankBefore(c, d)
  {
  }

  // ---------------------------------------------------------------------
  // Method 1: the transcript API.
  // ---------------------------------------------------------------------

  /** One fetched item: `start`, `duration` and `text`, each possibly None. */
  datatype ApiItem = ApiItem(start: Option<real>, duration: Option<real>, text: Option<string>)

  /** What the transcript API yields: a transcript found through the
      listing (its language code after any translation, and its items),
      the older direct fetch, or none at all (disabled, not found, or any
      other exception). */
  datatype Api = Listed(languageCode: string, items: seq<ApiItem>) | Direct(items: seq<ApiItem>) | Unavailable

  predicate Complete(it: ApiItem) {
    it.start.Some? && it.duration.Some? && it.text.Some?
  }

  /** `Segment(start, start + duration, text)` */
  function ItemSegment(it: ApiItem): (s: Segment)
    requires Complete(it)
    ensures s.start == it.start.value && s.end - s.start == it.duration.value && s.text == it.text.value
  {
    Segment(it.start.value, it.start.value + it.duration.value, it.text.value)
  }

  /** The listed path: items lacking a field are skipped. */
  function ListedSegments(items: seq<ApiItem>): (r: seq<Segment>)
    ensures |r| <= |items|
    ensures forall s | s in r :: exists it | it in items :: Complete(it) && s == ItemSegment(it)
  {
    if items == [] then []
    else
      var init := items[..|items| - 1];
      var it := items[|items| - 1];
      assert forall x | x in init :: x in items;
      ListedSegments(init) + (if Complete(it) then [ItemSegment(it)] else [])
  }

  /** The direct path keeps every item; a missing field raises. */
  function DirectSegments(items: seq<ApiItem>): (r: seq<Segment>)
    requires forall i | 0 <= i < |items| :: Complete(items[i])
    ensures |r| == |items|
    ensures forall i | 0 <= i < |items| :: r[i] == ItemSegment(items[i])
  {
    seq(|items|, i requires 0 <= i < |items| => ItemSegment(items[i]))
  }

  /** When no item lacks a field, the two paths read the same segments. */
  lemma {:induction false} ListedKeepsCompleteItems(items: seq<ApiItem>)
    requires forall i | 0 <= i < |items| :: Complete(items[i])
    ensures ListedSegments(items) == DirectSegments(items)
    decreases |items|
  {
    if items != [] {
      ListedKeepsCompleteItems(items[..|items| - 1]);
    }
  }

  /** Items all lacking a field give no segments. */
  lemma {:induction false} ListedSkipsIncompleteItems(items: seq<ApiItem>)
    requires forall i | 0 <= i < |items| :: !Complete(items[i])
    ensures ListedSegments(items) == []
    decreases |items|
  {
    if items != [] {
      ListedSkipsIncompleteItems(items[..|items| - 1]);
    }
  }

  /** The transcript of method 1, when it yields one. */
  function ApiTranscript(videoId: string, api: Api): (r: Option<Transcript>)
    ensures r.Some? ==> r.value.source == PlatformCaption && r.value.videoId == videoId
    ensures api.Listed? ==> r.Some? && r.value.language == api.languageCode
    ensures api.Direct? ==> (r.Some? <==> forall i | 0 <= i < |api.items| :: Complete(api.items[i]))
    ensures api.Direct? && r.Some? ==> r.value.language == "auto"
    ensures api.Unavailable? ==> r.None?
  {
    match api
    case Listed(code, items) => Some(CaptionTranscript(videoId, code, ListedSegments(items)))
    case Direct(items) =>
      if forall i | 0 <= i < |items| :: Complete(items[i]) then Some(CaptionTranscript(videoId, "auto", DirectSegments(items)))
      else None
    case Unavailable => None
  }

  /** The `for item in data` loop of the listed path. */
  method ConvertItems(items: seq<ApiItem>) returns (segments: seq<Segment>)
    ensures segments == ListedSegments(items)
  {
    segments := [];
    for i := 0 to |items|
      invariant segments == ListedSegments(items[..i])
    {
      assert items[..i + 1][..i] == items[..i];
      if Complete(items[i]) {
        segments := segments + [ItemSegment(items[i])];
      }
    }
    assert items[..|items|] == items;
  }

  // ---------------------------------------------------------------------
  // Method 2: yt-dlp subtitles.
  // ---------------------------------------------------------------------

  /** The extractor's `subtitles` and `automatic_captions` (missing ones empty). */
  datatype YtInfo = YtInfo(subtitles: SubsDict, automaticCaptions: SubsDict)

  /** The inputs of the provider besides the URL. */
  datatype Sources = Sources(
    probe: Option<string>,             // `info['id']` when no pattern matches; None when extraction raises
    api: Api,                          // method 1's outcome
    info: Option<YtInfo>,              // method 2's extraction; None when it raises
    fetch: string -> Option<string>,   // the body downloaded from a URL; None on an HTTP error
    decode: string -> Option<Json>,    // `json.loads`; None when the body is not JSON
    srv3: string -> seq<Segment>)      // `_parse_srv3`

  /** `info.get('subtitles') or info.get('automatic_captions') or {}` */
  function SubsOf(info: YtInfo): SubsDict {
    if info.subtitles != [] then info.subtitles else info.automaticCaptions
  }

  /** Method 2: the language and segments of the chosen track, or why
      there are none. */
  function Fallback(src: Sources): Result<(string, seq<Segment>), string> {
    if src.info.None? then Err("yt-dlp extraction failed")
    else
      var subs := SubsOf(src.info.value);
      if subs == [] then Err("No subtitles found via yt-dlp.")
      else
        var cands := Candidates(subs);
        if cands == [] then Err("Could not extract subtitle URL from yt-dlp subtitle metadata.")
        else
          var c := Chosen(cands);
          var body := src.fetch(c.url);
          if body.None? then Err("HTTP error")
          else
            var segs := Segments(c.ext, body.value, src.decode, src.srv3);
            if segs.None? then Err("malformed json3 events")
            else if segs.value == [] then Err("Failed to parse subtitles via yt-dlp fallback.")
            else Ok((c.lang, segs.value))
  }

  /** A fallback transcript is the chosen track's, in its language, with at
      least one segment. */
  lemma FallbackShape(src: Sources)
    requires Fallback(src).Ok?
    ensures src.info.Some? && Candidates(SubsOf(src.info.value)) != []
    ensures var c := Chosen(Candidates(SubsOf(src.info.value)));
      src.fetch(c.url).Some?
      && Segments(c.ext, src.fetch(c.url).value, src.decode, src.srv3) == Some(Fallback(src).value.1)
      && Fallback(src).value.0 == c.lang
    ensures Fallback(src).value.1 != []
  {
  }

  /** The manual subtitles are used whenever there are any, even when
      none of them has a URL and the automatic captions do. */
  lemma ManualSubtitlesWin(src: Sources)
    requires src.info.Some? && src.info.value.subtitles != []
    requires Candidates(src.info.value.subtitles) == []
    ensures Fallback(src) == Err("Could not extract subtitle URL from yt-dlp subtitle metadata.")
  {
  }

  // ---------------------------------------------------------------------
  // Whisper and the order of the three methods.
  // ---------------------------------------------------------------------

  /** `_transcribe_with_whisper`: a missing result (the model is not
      installed, the download or the transcription failed) raises; missing
      `segments` read as none. */
  function WhisperTranscript(videoId: string, asr: Option<WhisperResult>): (r: Result<Transcript, string>)
    ensures r.Ok? <==> asr.Some?
    ensures r.Ok? ==> r.value.source == AsrWhisper && r.value.videoId == videoId
  {
    if asr.None? then Err("Whisper transcription failed")
    else Ok(Transcript(videoId, AsrLanguage(asr.value), AsrWhisper, AsrSegments(asr.value.segments.GetOr([]))))
  }

  const NoTranscript := "Could not find a valid transcript. Enable ASR with --use-whisper."

  /** `get_transcript`: the API, then yt-dlp subtitles, then Whisper when
      allowed. */
  function Transcribe(allowAsr: bool, url: string, src: Sources, asr: Option<WhisperResult>): Result<Transcript, string> {
    var vid := VideoId(url, src.probe);
    if vid.None? then Err("Failed to extract ID")
    else
      var api := ApiTranscript(vid.value, src.api);
      if api.Some? then Ok(api.value)
      else
        var fb := Fallback(src);
        if fb.Ok? then Ok(CaptionTranscript(vid.value, fb.value.0, fb.value.1))
        else if allowAsr then WhisperTranscript(vid.value, asr)
        else Err(NoTranscript)
  }

  /** A transcript from the API is returned as is: the other methods are
      never consulted. */
  lemma ApiShortCircuits(allowAsr: bool, url: string, src: Sources, asr: Option<WhisperResult>)
    requires VideoId(url, src.probe).Some?
    requires ApiTranscript(VideoId(url, src.probe).value, src.api).Some?
    ensures Transcribe(allowAsr, url, src, asr) == Ok(ApiTranscript(VideoId(url, src.probe).value, src.api).value)
  {
  }

  /** Whisper's transcript comes back exactly when ASR is allowed and both
      caption methods failed; every other transcript is a platform caption. */
  lemma TranscribeSource(allowAsr: bool, url: string, src: Sources, asr: Option<WhisperResult>)
    requires Transcribe(allowAsr, url, src, asr).Ok?
    ensures VideoId(url, src.probe).Some?
    ensures Transcribe(allowAsr, url, src, asr).value.source == AsrWhisper
      <==> allowAsr && ApiTranscript(VideoId(url, src.probe).value, src.api).None? && Fallback(src).Err?
    ensures Transcribe(allowAsr, url, src, asr).value.videoId == VideoId(url, src.probe).value
  {
  }

  /** Without ASR, the failure of both caption methods is reported with the
      hint to enable it. */
  lemma NoAsrHint(url: string, src: Sources, asr: Option<WhisperResult>)
    requires VideoId(url, src.probe).Some?
    requires ApiTranscript(VideoId(url, src.probe).value, src.api).None? && Fallback(src).Err?
    ensures Transcribe(false, url, src, asr) == Err(NoTranscript)
  {
  }

  /** `get_transcript` as a program, with the API items loop, the
      candidate collection and the parsers run as loops. */
  method GetTranscript(allowAsr: bool, url: string, src: Sources, asr: Option<WhisperResult>) returns (r: Result<Transcript, string>)
    ensures r == Transcribe(allowAsr, url, src, asr)
  {
    var vid := VideoId(url, src.probe);
    if vid.None? {
      return Err("Failed to extract ID");
    }
    var api := FetchApi(vid.value, src.api);
    if api.Some? {
      return Ok(api.value);
    }
    var fb := FetchSubtitles(src);
    if fb.Ok? {
      return Ok(CaptionTranscript(vid.value, fb.value.0, fb.value.1));
    }
    if allowAsr {
      return WhisperTranscript(vid.value, asr);
    }
    return Err(NoTranscript);
  }

  /** Method 1, with the listed path's items loop. */
  method FetchApi(videoId: string, api: Api) returns (r: Option<Transcript>)
    ensures r == ApiTranscript(videoId, api)
  {
    match api {
      case Listed(code, items) =>
        var segments := ConvertItems(items);
        r := Some(CaptionTranscript(videoId, code, segments));
      case Direct(items) =>
        r := ApiTranscript(videoId, api);
      case Unavailable =>
        r := None;
    }
  }

  /** Method 2, with the candidate loop and the parsers' loops. */
  method FetchSubtitles(src: Sources) returns (r: Result<(string, seq<Segment>), string>)
    ensures r == Fallback(src)
  {
    if src.info.None? {
      return Err("yt-dlp extraction failed");
    }
    var subs := SubsOf(src.info.value);
    if subs == [] {
      return Err("No subtitles found via yt-dlp.");
    }
    var cands := CollectCandidates(subs);
    if cands == [] {
      return Err("Could not extract subtitle URL from yt-dlp subtitle metadata.");
    }
    var c := Chosen(cands);
    var body := src.fetch(c.url);
    if body.None? {
      return Err("HTTP error");
    }
    var segs := ReadSegments(c.ext, body.value, src.decode, src.srv3);
    if segs.None? {
      return Err("malformed json3 events");
    }
    if segs.value == [] {
      return Err("Failed to parse subtitles via yt-dlp fallback.");
    }
    return Ok((c.lang, segs.value));
  }
}
