/** How the Bilibili provider chooses which subtitle track to download:
    the part of a multi-part video, the video's id, the subtitle dict, the
    candidate pool and the additive language and format score. */
module BilibiliTracks {
  import opened Wrappers
  import opened Text
  import opened Models
  import opened Subtitles
  import opened Ranking
  import opened Seqs
  import opened Urls

  /** The fields of one extractor result (the top-level info or one of its
      `entries`) that track selection reads. */
  datatype Entry = Entry(
    playlistIndex: Option<int>, webpageUrl: Option<string>, id: Option<string>,
    subtitles: SubsDict, automaticCaptions: SubsDict)

  /** The extractor's answer: the top-level fields and, when `entries` is a
      list, its elements. */
  datatype Info = Info(top: Entry, entries: Option<seq<Entry>>)

  /** What `urlparse` and `parse_qs` give for the page URL: its path and the
      first value of the `p` query parameter, if any. */
  datatype UrlParts = UrlParts(path: string, pageParam: Option<string>)

  /** `parsed = urlparse(url)` and `parse_qs(parsed.query).get('p')`; None
      where `urlparse` raises `ValueError`. */
  function PartsOf(url: string): Option<UrlParts> {
    match ParseUrl(url)
    case None => None
    case Some(p) => Some(UrlParts(p.path, QueryValue(SplitOn(p.query, "&"), "p")))
  }

  /** `int(qs.get('p', ['1'])[0])`: page 1 (`int('1')`) without a `p`
      parameter; a value that is not an integer raises. */
  function PageIndex(u: UrlParts): (r: Option<int>)
    ensures u.pageParam.None? ==> r == Some(1)
    ensures u.pageParam.Some? ==> r == ParseInt(u.pageParam.value)
  {
    if u.pageParam.None? then Some(1) else ParseInt(u.pageParam.value)
  }

  const VideoHost := "www.bilibili.com"
  const VideoPrefix := "https://www.bilibili.com/video/"

  /** The parts of a URL that `urlparse` splits into `p`. */
  lemma PartsOfParsed(url: string, p: ParsedUrl)
    requires ParseUrl(url) == Some(p)
    ensures PartsOf(url) == Some(UrlParts(p.path, QueryValue(SplitOn(p.query, "&"), "p")))
  {
  }

  /** `https://www.bilibili.com/video/<bv>?p=<d>` as `urlparse` splits it. */
  lemma PageUrlShape(bv: string, d: string, path: string, query: string)
    requires path == "/" + "video" + "/" + bv && query == "p" + "=" + d
    ensures VideoPrefix + bv + "?p=" + d == "https" + ":" + ("//" + VideoHost + (path + "?" + query))
  {
  }

  /** `https://www.bilibili.com/video/<bv>` as `urlparse` splits it. */
  lemma VideoUrlShape(bv: string, path: string)
    requires path == "/" + "video" + "/" + bv
    ensures VideoPrefix + bv == "https" + ":" + ("//" + VideoHost + path)
  {
  }

  lemma VideoHostIsHost()
    ensures Host(VideoHost) && IsId("video") && IsId("p")
  {
  }

  lemma PageUrlParsed(bv: string, d: string)
    requires IsId(bv) && d != [] && AllDigits(d)
    ensures ParseUrl(VideoPrefix + bv + "?p=" + d) == Some(ParsedUrl("https", VideoHost, "/video/" + bv, "", "p=" + d, ""))
  {
    var path := "/" + "video" + "/" + bv;
    var query := "p" + "=" + d;
    assert IsId(d);
    VideoHostIsHost();
    DirIdPath("video", bv);
    FieldSafe("p", d);
    ParseWebUrl("https", VideoHost, path, query);
    PageUrlShape(bv, d, path, query);
    VideoPath(bv);
    PageField(d);
  }

  /** `parse_qs("p=<d>")['p'][0]` is `d`. */
  lemma PageQuery(d: string)
    requires d != [] && AllDigits(d)
    ensures QueryValue(SplitOn("p=" + d, "&"), "p") == Some(d)
  {
    assert IsId(d);
    VideoHostIsHost();
    QueryOneField("p", d);
    PageField(d);
  }

  /** The page `?p=<d>` of a video URL is read from the URL: page `d`, on
      the path `/video/<bv>`. */
  lemma PageOfVideoUrl(bv: string, d: string)
    requires IsId(bv) && d != [] && AllDigits(d)
    ensures PartsOf(VideoPrefix + bv + "?p=" + d) == Some(UrlParts("/video/" + bv, Some(d)))
    ensures PageIndex(UrlParts("/video/" + bv, Some(d))) == Some(DigitsValue(d))
  {
    PageUrlParsed(bv, d);
    PartsOfParsed(VideoPrefix + bv + "?p=" + d, ParsedUrl("https", VideoHost, "/video/" + bv, "", "p=" + d, ""));
    PageQuery(d);
    ParseIntDigits(d);
  }

  /** Without a query the video URL is page 1. */
  lemma DefaultPageOfVideoUrl(bv: string)
    requires IsId(bv)
    ensures PartsOf(VideoPrefix + bv) == Some(UrlParts("/video/" + bv, None))
    ensures PageIndex(UrlParts("/video/" + bv, None)) == Some(1)
  {
    var path := "/" + "video" + "/" + bv;
    VideoHostIsHost();
    DirIdPath("video", bv);
    ParseWebPath("https", VideoHost, path);
    VideoUrlShape(bv, path);
    PartsOfParsed(VideoPrefix + bv, ParsedUrl("https", VideoHost, path, "", "", ""));
    EmptyQuery();
    VideoPath(bv);
  }

  lemma VideoPath(bv: string)
    ensures "/" + "video" + "/" + bv == "/video/" + bv
  {
    assert "/" + "video" + "/" == "/video/";
  }

  lemma PageField(d: string)
    ensures "p" + "=" + d == "p=" + d
  {
    assert "p" + "=" == "p=";
  }

  /** An empty query has no `p` field. */
  lemma EmptyQuery()
    ensures QueryValue(SplitOn("", "&"), "p").None?
  {
    assert SplitOn("", "&") == [""];
  }

  /** The id fallback reads the last segment of a video path. */
  lemma VideoPathTail(bv: string)
    requires IsId(bv)
    ensures PathTail("/video/" + bv) == bv
  {
    assert "/video/" + bv == "/video" + "/" + bv;
    PathTailIsLastSegment("/video", bv);
  }

  /** The first entry whose `playlist_index` is `page`, or `|es|`. */
  function PageEntryIndex(es: seq<Entry>, page: int): (k: nat)
    ensures k <= |es|
    ensures k < |es| ==> es[k].playlistIndex == Some(page)
    ensures forall i | 0 <= i < k :: es[i].playlistIndex != Some(page)
  {
    if es == [] then 0
    else if es[0].playlistIndex == Some(page) then 0
    else 1 + PageEntryIndex(es[1..], page)
  }

  /** The first entry whose `webpage_url` is `url`, or `|es|`. */
  function UrlEntryIndex(es: seq<Entry>, url: string): (k: nat)
    ensures k <= |es|
    ensures k < |es| ==> es[k].webpageUrl == Some(url)
    ensures forall i | 0 <= i < k :: es[i].webpageUrl != Some(url)
  {
    if es == [] then 0
    else if es[0].webpageUrl == Some(url) then 0
    else 1 + UrlEntryIndex(es[1..], url)
  }

  /** The entry a multi-part video is read from: the part whose playlist
      index is the page, else the part whose URL is the requested one, else
      the first part; without parts, the top-level info. */
  function SelectEntry(info: Info, page: int, url: string): (e: Entry)
    ensures (info.entries.None? || info.entries.value == []) ==> e == info.top
    ensures info.entries.Some? && info.entries.value != [] ==> e in info.entries.value
    ensures info.entries.Some? && (exists i | 0 <= i < |info.entries.value| :: info.entries.value[i].playlistIndex == Some(page))
      ==> e.playlistIndex == Some(page)
    ensures info.entries.Some? && (forall i | 0 <= i < |info.entries.value| :: info.entries.value[i].playlistIndex != Some(page))
      && (exists i | 0 <= i < |info.entries.value| :: info.entries.value[i].webpageUrl == Some(url))
      ==> e.webpageUrl == Some(url)
    ensures info.entries.Some? && info.entries.value != []
      && (forall i | 0 <= i < |info.entries.value| :: info.entries.value[i].playlistIndex != Some(page))
      && (forall i | 0 <= i < |info.entries.value| :: info.entries.value[i].webpageUrl != Some(url))
      ==> e == info.entries.value[0]
  {
    if info.entries.Some? && info.entries.value != [] then
      var es := info.entries.value;
      var k := PageEntryIndex(es, page);
      if k < |es| then es[k]
      else
        var j := UrlEntryIndex(es, url);
        if j < |es| then es[j] else es[0]
    else info.top
  }

  /** `path.rstrip('/').split('/')[-1].split('?')[0]` */
  function PathTail(path: string): string {
    var pieces := SplitOn(RStripChar(path, '/'), "/");
    SplitOn(pieces[|pieces| - 1], "?")[0]
  }

  /** The id read from a path is its last segment, with or without a
      trailing slash. */
  lemma PathTailIsLastSegment(prefix: string, x: string)
    requires x != []
    requires forall i | 0 <= i < |x| :: x[i] != '/' && x[i] != '?'
    ensures PathTail(prefix + "/" + x) == x
    ensures PathTail(prefix + "/" + x + "/") == x
  {
    var p := prefix + "/" + x;
    PathTailOfStripped(prefix, x, p);
    var q := p + "/";
    assert q[..|q| - 1] == p;
    PathTailOfStripped(prefix, x, q);
  }

  lemma PathTailOfStripped(prefix: string, x: string, p: string)
    requires forall i | 0 <= i < |x| :: x[i] != '/' && x[i] != '?'
    requires RStripChar(p, '/') == prefix + ['/'] + x
    ensures PathTail(p) == x
  {
    SplitLastPiece(prefix, '/', x);
    SplitOnNone(x, '?');
  }

  /** `info.get('id') or info_selected.get('id') or <tail of the URL path>` */
  function Bvid(info: Info, selected: Entry, u: UrlParts): (r: string)
    ensures IsSet(info.top.id) ==> r == info.top.id.value
    ensures !IsSet(info.top.id) && IsSet(selected.id) ==> r == selected.id.value
    ensures !IsSet(info.top.id) && !IsSet(selected.id) ==> r == PathTail(u.path)
  {
    if IsSet(info.top.id) then info.top.id.value
    else if IsSet(selected.id) then selected.id.value
    else PathTail(u.path)
  }

  /** `e.get('subtitles') or e.get('automatic_captions')` */
  function SubsOf(e: Entry): SubsDict {
    if e.subtitles != [] then e.subtitles else e.automaticCaptions
  }

  /** The subtitle dict used: the selected entry's, else the top level's;
      empty when neither has one. */
  function ChosenSubs(selected: Entry, top: Entry): (r: SubsDict)
    ensures r == [] <==> selected.subtitles == [] && selected.automaticCaptions == [] && top.subtitles == [] && top.automaticCaptions == []
  {
    if SubsOf(selected) != [] then SubsOf(selected) else SubsOf(top)
  }

  /** `non_xml_candidates or candidates` once the player API's tracks (all
      `json`, possibly none) have been appended to both lists when there was
      no non-XML candidate. */
  function Pool(candidates: seq<Candidate>, api: seq<Candidate>): (r: seq<Candidate>)
    ensures NonXml(candidates) != [] ==> r == NonXml(candidates)
    ensures NonXml(candidates) == [] && api != [] ==> r == api
    ensures NonXml(candidates) == [] && api == [] ==> r == candidates
  {
    var nx := NonXml(candidates);
    if nx != [] then nx else if api != [] then api else candidates
  }

  /** An XML track is used only when nothing else is on offer. */
  lemma PoolAvoidsXml(candidates: seq<Candidate>, api: seq<Candidate>)
    requires exists c | c in candidates :: c.ext != "xml"
    ensures forall c | c in Pool(candidates, api) :: c in candidates && c.ext != "xml"
  {
    var c :| c in candidates && c.ext != "xml";
    assert c in NonXml(candidates);
  }

  // ---------------------------------------------------------------------
  // Scores.
  // ---------------------------------------------------------------------

  const LangPrefs: seq<string> := ["zh-CN", "zh-Hans", "zh-Hant", "zh-TW", "zh-HK", "zh", "ai-zh", "zh_CN", "zh_Hans", "en-US", "en"]

  const FmtPrefs: seq<string> := ["json", "json3", "vtt", "srt"]

  /** The language score: `200 - 10 i` for the `i`-th preference, else 50
      for a Chinese code, 40 for an English one and 10 for any other. */
  function LangScore(lang: string): (s: int)
    ensures PrefIndex(LangPrefs, lang) < |LangPrefs| ==> s == 200 - 10 * PrefIndex(LangPrefs, lang)
    ensures PrefIndex(LangPrefs, lang) == |LangPrefs| ==>
      s == (if Contains(Lower(lang), "zh") || Contains(Lower(lang), "chinese") then 50
            else if Contains(Lower(lang), "en") then 40 else 10)
  {
    var i := PrefIndex(LangPrefs, lang);
    if i < |LangPrefs| then 200 - 10 * i
    else if Contains(Lower(lang), "zh") || Contains(Lower(lang), "chinese") then 50
    else if Contains(Lower(lang), "en") then 40
    else 10
  }

  /** The format score: `5 - i` for the `i`-th preferred format, else 0. */
  function FmtScore(ext: string): (s: int)
    ensures IndexOf(FmtPrefs, ext) < |FmtPrefs| ==> s == 5 - IndexOf(FmtPrefs, ext)
    ensures IndexOf(FmtPrefs, ext) == |FmtPrefs| ==> s == 0
  {
    var i := IndexOf(FmtPrefs, ext);
    if i < |FmtPrefs| then 5 - i else 0
  }

  function Score(c: Candidate): int {
    LangScore(c.lang) + FmtScore(c.ext)
  }

  function Scores(pool: seq<Candidate>): (r: seq<int>)
    ensures |r| == |pool|
    ensures forall i | 0 <= i < |pool| :: r[i] == Score(pool[i])
  {
    seq(|pool|, i requires 0 <= i < |pool| => Score(pool[i]))
  }

  /** Every candidate scores between 10 and 205, so the first one always
      beats the initial best score of -1. */
  lemma ScoreRange(c: Candidate)
    ensures 10 <= Score(c) <= 205
  {
  }

  /** Language dominates format: a listed language beats any unlisted one,
      and an earlier listed language beats a later one, whatever the two
      formats are. */
  lemma LanguageDominates(c: Candidate, d: Candidate)
    requires PrefIndex(LangPrefs, c.lang) < PrefIndex(LangPrefs, d.lang)
    ensures Score(c) > Score(d)
  {
  }

  /** Between two tracks of one language the earlier preferred format wins. */
  lemma FormatBreaksTies(c: Candidate, d: Candidate)
    requires c.lang == d.lang
    requires IndexOf(FmtPrefs, c.ext) < IndexOf(FmtPrefs, d.ext)
    ensures Score(c) > Score(d)
  {
  }

  /** The chosen track: the first candidate of strictly highest score. */
  function Selected(pool: seq<Candidate>): (r: Option<Candidate>)
    ensures r.None? <==> pool == []
  {
    if pool == [] then None else Some(pool[FirstMax(Scores(pool))])
  }

  /** `Selected` is characterised by its score alone: a candidate scoring at
      least as high as every other and strictly higher than every earlier one
      is the one chosen. */
  lemma SelectedIsFirstBest(pool: seq<Candidate>, k: nat)
    requires k < |pool|
    requires forall i | 0 <= i < |pool| :: Score(pool[i]) <= Score(pool[k])
    requires forall i | 0 <= i < k :: Score(pool[i]) < Score(pool[k])
    ensures Selected(pool) == Some(pool[k])
  {
    FirstMaxUnique(Scores(pool), k);
  }

  /** The chosen track scores at least as high as every candidate. */
  lemma SelectedIsBest(pool: seq<Candidate>)
    requires pool != []
    ensures Selected(pool).value in pool
    ensures forall c | c in pool :: Score(c) <= Score(Selected(pool).value)
  {
    var xs := Scores(pool);
    var k := FirstMax(xs);
    forall c | c in pool ensures Score(c) <= Score(pool[k]) {
      var i :| 0 <= i < |pool| && pool[i] == c;
      assert xs[i] <= xs[k];
    }
  }

  /** The selection loop: `best_score = -1`, and a candidate replaces the
      choice only when its score is strictly higher. */
  method SelectTrack(pool: seq<Candidate>) returns (sel: Option<Candidate>)
    ensures sel == Selected(pool)
  {
    var bestScore := -1;
    sel := None;
    ghost var xs := Scores(pool);
    ghost var best: nat := 0;
    for i := 0 to |pool|
      invariant i == 0 ==> sel.None? && bestScore == -1
      invariant 0 < i ==> best < i && best == FirstMax(xs[..i]) && sel.Some? && sel.value == pool[best] && bestScore == xs[best]
    {
      var c := pool[i];
      var score := LangScore(c.lang) + FmtScore(c.ext);
      assert score == xs[i];
      ScoreRange(c);
      FirstMaxStep(xs, i, best);
      if score > bestScore {
        bestScore := score;
        sel := Some(c);
        best := i;
      }
    }
    assert xs[..|pool|] == xs;
  }
}
