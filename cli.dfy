/** The command line's own logic: the clock format of timestamps, the
    Markdown document written for a summary, and the clean-up,
    canonicalisation and platform dispatch of the URL the user passes. */
module Cli {
  import opened Wrappers
  import opened Text
  import opened Models
  import opened Seqs
  import opened Ranking
  import opened Urls

  // ---------------------------------------------------------------------
  // format_time

  /** `f"{n:02d}"`: the decimal digits of `n`, with a leading zero below 10. */
  function Pad2(n: nat): (r: string)
    ensures |r| >= 2 && AllDigits(r) && DigitsValue(r) == n
    ensures n < 100 ==> |r| == 2
  {
    NatToStringRoundTrip(n);
    if n < 10 then
      LeadingZero(NatToString(n));
      "0" + NatToString(n)
    else
      NatToString(n)
  }

  /** A leading zero does not change the value of a numeral. */
  lemma {:induction false} LeadingZero(d: string)
    requires AllDigits(d)
    ensures AllDigits("0" + d) && DigitsValue("0" + d) == DigitsValue(d)
    decreases |d|
  {
    if d != [] {
      LeadingZero(d[..|d| - 1]);
      assert ("0" + d)[..|"0" + d| - 1] == "0" + d[..|d| - 1];
    }
  }

  /** `divmod(total, 60)` and then `divmod(m, 60)`: hours, minutes and
      seconds. Python's `divmod` by a positive number floors, which is what
      Dafny's `/` and `%` do as well. */
  function Clock(total: int): (hms: (int, nat, nat))
    ensures hms.0 * 3600 + hms.1 * 60 + hms.2 == total
    ensures hms.1 < 60 && hms.2 < 60
    ensures hms.0 >= 0 <==> total >= 0
  {
    var m := total / 60;
    (m / 60, m % 60, total % 60)
  }

  /** `format_time` once `int(seconds)` is taken: `HH:MM:SS` from one hour
      on, else `MM:SS`. */
  function FormatClock(total: int): string {
    var (h, m, s) := Clock(total);
    if h > 0 then Pad2(h) + ":" + Pad2(m) + ":" + Pad2(s) else Pad2(m) + ":" + Pad2(s)
  }

  /** `format_time(seconds)`: the whole seconds, read back from the clock
      it shows; a negative time reads back counted from the next whole
      hour. */
  function FormatTime(seconds: real): (r: string)
    ensures Trunc(seconds) >= 0 ==> ParseClock(r) == Some(Trunc(seconds))
    ensures Trunc(seconds) < 0 ==> ParseClock(r) == Some(Trunc(seconds) % 3600)
  {
    var t := Trunc(seconds);
    if t >= 0 then (ClockRoundTrip(t); FormatClock(t)) else (ClockNegative(t); FormatClock(t))
  }

  /** Reading a clock back: two or three colon-separated numerals. */
  function ParseClock(s: string): Option<int> {
    ParseFields(SplitOn(s, ":"))
  }

  /** Every field is a non-empty run of digits. */
  predicate Numerals(f: seq<string>) {
    forall k | 0 <= k < |f| :: f[k] != [] && AllDigits(f[k])
  }

  /** The value of a clock's colon-separated fields. */
  function ParseFields(f: seq<string>): Option<int> {
    if !Numerals(f) then None
    else if |f| == 2 then Some(DigitsValue(f[0]) * 60 + DigitsValue(f[1]))
    else if |f| == 3 then Some(DigitsValue(f[0]) * 3600 + DigitsValue(f[1]) * 60 + DigitsValue(f[2]))
    else None
  }

  /** A run of digits holds no colon. */
  lemma DigitsNoColon(d: string)
    requires AllDigits(d)
    ensures NoChar(d, ':')
  {
  }

  /** Two colon-free fields joined by a colon split back apart. */
  lemma ColonPair(a: string, b: string)
    requires NoChar(a, ':') && NoChar(b, ':')
    ensures SplitOn(a + ":" + b, ":") == [a, b]
  {
    SplitOnAfter(a, ':', b);
    SplitOnNone(b, ':');
  }

  /** Three colon-free fields joined by colons split back apart. */
  lemma ColonTriple(a: string, b: string, c: string)
    requires NoChar(a, ':') && NoChar(b, ':') && NoChar(c, ':')
    ensures SplitOn(a + ":" + b + ":" + c, ":") == [a, b, c]
  {
    assert a + ":" + b + ":" + c == a + [':'] + (b + ":" + c);
    SplitOnAfter(a, ':', b + ":" + c);
    ColonPair(b, c);
  }

  /** The fields of `MM:SS`. */
  lemma MinutesFields(m: nat, s: nat)
    requires m < 60 && s < 60
    ensures SplitOn(Pad2(m) + ":" + Pad2(s), ":") == [Pad2(m), Pad2(s)]
  {
    DigitsNoColon(Pad2(m));
    DigitsNoColon(Pad2(s));
    ColonPair(Pad2(m), Pad2(s));
  }

  /** The fields of `HH:MM:SS`. */
  lemma HoursFields(h: nat, m: nat, s: nat)
    requires m < 60 && s < 60
    ensures SplitOn(Pad2(h) + ":" + Pad2(m) + ":" + Pad2(s), ":") == [Pad2(h), Pad2(m), Pad2(s)]
  {
    DigitsNoColon(Pad2(h));
    DigitsNoColon(Pad2(m));
    DigitsNoColon(Pad2(s));
    ColonTriple(Pad2(h), Pad2(m), Pad2(s));
  }

  /** Two numerals split apart read back as a count of minutes and seconds. */
  lemma ParseTwo(a: string, b: string)
    requires a != [] && b != [] && AllDigits(a) && AllDigits(b)
    ensures ParseFields([a, b]) == Some(DigitsValue(a) * 60 + DigitsValue(b))
  {
    assert Numerals([a, b]);
  }

  /** Three numerals split apart read back as hours, minutes and seconds. */
  lemma ParseThree(a: string, b: string, c: string)
    requires a != [] && b != [] && c != [] && AllDigits(a) && AllDigits(b) && AllDigits(c)
    ensures ParseFields([a, b, c]) == Some(DigitsValue(a) * 3600 + DigitsValue(b) * 60 + DigitsValue(c))
  {
    assert Numerals([a, b, c]);
  }

  /** `MM:SS` reads back as minutes and seconds. */
  lemma MinutesRoundTrip(m: nat, s: nat, v: int)
    requires m < 60 && s < 60 && v == m * 60 + s
    ensures ParseClock(Pad2(m) + ":" + Pad2(s)) == Some(v)
  {
    MinutesFields(m, s);
    ParseTwo(Pad2(m), Pad2(s));
  }

  /** `HH:MM:SS` reads back as hours, minutes and seconds. */
  lemma HoursRoundTrip(h: nat, m: nat, s: nat, v: int)
    requires m < 60 && s < 60 && v == h * 3600 + m * 60 + s
    ensures ParseClock(Pad2(h) + ":" + Pad2(m) + ":" + Pad2(s)) == Some(v)
  {
    HoursFields(h, m, s);
    ParseThree(Pad2(h), Pad2(m), Pad2(s));
  }

  /** The clock of a non-negative number of seconds reads back as it. */
  lemma ClockRoundTrip(total: int)
    requires total >= 0
    ensures ParseClock(FormatClock(total)) == Some(total)
  {
    if Clock(total).0 > 0 {
      HoursClock(total);
    } else {
      MinutesClock(total);
    }
  }

  lemma HoursClock(total: int)
    requires Clock(total).0 > 0
    ensures ParseClock(FormatClock(total)) == Some(total)
  {
    var (h, m, s) := Clock(total);
    var str := Pad2(h) + ":" + Pad2(m) + ":" + Pad2(s);
    assert FormatClock(total) == str;
    HoursRoundTrip(h, m, s, total);
  }

  lemma MinutesClock(total: int)
    requires Clock(total).0 == 0
    ensures ParseClock(FormatClock(total)) == Some(total)
  {
    var (h, m, s) := Clock(total);
    var str := Pad2(m) + ":" + Pad2(s);
    assert FormatClock(total) == str;
    MinutesRoundTrip(m, s, total);
  }

  /** A non-negative time has three fields exactly from one hour on, and
      its minutes and seconds are two digits each, below 60. */
  lemma ClockFields(total: int)
    requires total >= 0
    ensures var f := SplitOn(FormatClock(total), ":");
      (|f| == 2 <==> total < 3600) && (|f| == 2 || |f| == 3)
      && |f[|f| - 1]| == 2 && |f[|f| - 2]| == 2 && AllDigits(f[|f| - 1]) && AllDigits(f[|f| - 2])
      && DigitsValue(f[|f| - 1]) < 60 && DigitsValue(f[|f| - 2]) < 60
  {
    var (h, m, s) := Clock(total);
    if h > 0 {
      HoursFields(h, m, s);
    } else {
      MinutesFields(m, s);
    }
  }

  /** A negative time has no hours field: it shows the time counted back
      from the next whole hour (`format_time(-5)` is `59:55`). */
  lemma ClockNegative(total: int)
    requires total < 0
    ensures ParseClock(FormatClock(total)) == Some(total % 3600)
    ensures |SplitOn(FormatClock(total), ":")| == 2
  {
    var (h, m, s) := Clock(total);
    var str := Pad2(m) + ":" + Pad2(s);
    assert FormatClock(total) == str;
    MinutesFields(m, s);
    HourRemainder(total, h, m * 60 + s);
    MinutesRoundTrip(m, s, total % 3600);
  }

  /** The remainder of a whole number of hours plus less than an hour. */
  lemma HourRemainder(total: int, h: int, r: int)
    requires total == h * 3600 + r && 0 <= r < 3600
    ensures total % 3600 == r
  {
  }

  lemma MinusFiveSeconds()
    ensures FormatTime(-5.0) == "59:55"
  {
    assert Trunc(-5.0) == -5;
    assert Clock(-5) == (-1, 59, 55);
    assert NatToString(59) == "59" && NatToString(55) == "55";
  }

  /** `int(t)` before `format_time`, which truncates again, changes nothing. */
  lemma TruncTwice(t: real)
    ensures Trunc(Trunc(t) as real) == Trunc(t)
    ensures FormatTime(Trunc(t) as real) == FormatTime(t)
  {
  }

  // ---------------------------------------------------------------------
  // to_markdown

  const OneSentenceHeading := "## 一句话总结"
  const KeyPointsHeading := "\n## 关键要点"
  const ChaptersHeading := "\n## 章节"
  const KeyframesHeading := "\n#### 关键帧"
  const QuotesHeading := "## 金句"

  /** The title, the author, the one-sentence summary and the key-point heading. */
  function Head(meta: VideoMetadata, r: SummaryResult): seq<string> {
    ["# " + meta.title, "\n> 作者：" + meta.author + "\n", OneSentenceHeading, r.oneSentenceSummary, KeyPointsHeading]
  }

  /** A chapter's heading: its title and the clocks of its start and end. */
  function ChapterHeading(c: Chapter): string {
    "### " + c.title + " （" + FormatTime(c.startTime) + " - " + FormatTime(c.endTime) + "）"
  }

  function ImageLine(title: string, path: string): string {
    "![" + title + "](" + path + ")"
  }

  function TimeLine(kf: KeyFrame): string {
    "- 时间：" + FormatTime(Trunc(kf.timestamp) as real) + "，说明：" + kf.description
  }

  /** One keyframe: its image when it has one, then its time and description. */
  function FrameLines(title: string, kf: KeyFrame): seq<string> {
    (if IsSet(kf.imagePath) then [ImageLine(title, kf.imagePath.value)] else []) + [TimeLine(kf)]
  }

  /** The keyframes of a chapter, in order. */
  function FramesLines(title: string, kfs: seq<KeyFrame>): seq<string>
    decreases |kfs|
  {
    if kfs == [] then [] else FramesLines(title, kfs[..|kfs| - 1]) + FrameLines(title, kfs[|kfs| - 1])
  }

  /** One chapter: heading, bullets, the keyframe section when it has
      keyframes, and a blank line. */
  function ChapterLines(c: Chapter): seq<string> {
    [ChapterHeading(c)] + Bullets(c.summary)
    + (if HasKeyframes(c) then [KeyframesHeading] + FramesLines(c.title, c.keyframes.value) else [])
    + [""]
  }

  function ChaptersLines(chs: seq<Chapter>): seq<string>
    decreases |chs|
  {
    if chs == [] then [] else ChaptersLines(chs[..|chs| - 1]) + ChapterLines(chs[|chs| - 1])
  }

  function QuoteLine(q: Quote): string {
    "- " + q.text + " （" + FormatTime(Trunc(q.timestamp) as real) + "）"
  }

  function QuoteList(qs: seq<Quote>): (r: seq<string>)
    ensures |r| == |qs| && forall k | 0 <= k < |qs| :: r[k] == QuoteLine(qs[k])
  {
    seq(|qs|, k requires 0 <= k < |qs| => QuoteLine(qs[k]))
  }

  /** The quotes section, present only when there are quotes. */
  function QuotesLines(qs: seq<Quote>): seq<string> {
    if qs == [] then [] else [QuotesHeading] + QuoteList(qs)
  }

  /** The lines of `to_markdown(metadata, summary)`. */
  function MarkdownLines(meta: VideoMetadata, r: SummaryResult): seq<string> {
    BodyLines(meta, r) + QuotesLines(r.quotes)
  }

  /** Everything before the quotes section. */
  function BodyLines(meta: VideoMetadata, r: SummaryResult): seq<string> {
    Head(meta, r) + Bullets(r.keyPoints) + [ChaptersHeading] + ChaptersLines(r.chapters)
  }

  /** `to_markdown(metadata, summary)`: the lines joined by newlines. */
  function Markdown(meta: VideoMetadata, r: SummaryResult): string {
    Join("\n", MarkdownLines(meta, r))
  }

  lemma FramesSnoc(title: string, kfs: seq<KeyFrame>, j: nat)
    requires j < |kfs|
    ensures FramesLines(title, kfs[..j + 1]) == FramesLines(title, kfs[..j]) + FrameLines(title, kfs[j])
  {
    assert kfs[..j + 1][..j] == kfs[..j];
  }

  lemma ChaptersSnoc(chs: seq<Chapter>, i: nat)
    requires i < |chs|
    ensures ChaptersLines(chs[..i + 1]) == ChaptersLines(chs[..i]) + ChapterLines(chs[i])
  {
    assert chs[..i + 1][..i] == chs[..i];
  }

  /** One keyframe's lines appended to the chapter's lines so far. */
  lemma FrameStep(before: seq<string>, lines: seq<string>, title: string, kfs: seq<KeyFrame>, j: nat)
    requires j < |kfs| && lines == before + FramesLines(title, kfs[..j])
    ensures lines + FrameLines(title, kfs[j]) == before + FramesLines(title, kfs[..j + 1])
  {
    FramesSnoc(title, kfs, j);
    AppendAssoc(before, FramesLines(title, kfs[..j]), FrameLines(title, kfs[j]));
  }

  lemma FrameWithImage(prev: seq<string>, title: string, kf: KeyFrame)
    requires IsSet(kf.imagePath)
    ensures prev + [ImageLine(title, kf.imagePath.value)] + [TimeLine(kf)] == prev + FrameLines(title, kf)
  {
  }

  lemma FrameWithoutImage(prev: seq<string>, title: string, kf: KeyFrame)
    requires !IsSet(kf.imagePath)
    ensures prev + [TimeLine(kf)] == prev + FrameLines(title, kf)
  {
  }

  lemma BulletStep(head: seq<string>, lines: seq<string>, items: seq<string>, j: nat)
    requires j < |items| && lines == head + Bullets(items[..j])
    ensures lines + ["- " + items[j]] == head + Bullets(items[..j + 1])
  {
    BulletsSnoc(items, j);
  }

  lemma ChapterStep(top: seq<string>, lines: seq<string>, chs: seq<Chapter>, i: nat)
    requires i < |chs| && lines == top + ChaptersLines(chs[..i])
    ensures lines + ChapterLines(chs[i]) == top + ChaptersLines(chs[..i + 1])
  {
    ChaptersSnoc(chs, i);
    AppendAssoc(top, ChaptersLines(chs[..i]), ChapterLines(chs[i]));
  }

  lemma QuoteStep(mid: seq<string>, lines: seq<string>, qs: seq<Quote>, k: nat)
    requires k < |qs| && lines == mid + QuoteList(qs[..k])
    ensures lines + [QuoteLine(qs[k])] == mid + QuoteList(qs[..k + 1])
  {
    assert QuoteList(qs[..k + 1]) == QuoteList(qs[..k]) + [QuoteLine(qs[k])];
    AppendAssoc(mid, QuoteList(qs[..k]), [QuoteLine(qs[k])]);
  }

  /** `lines.append(f"- {p}")` for each item, in order. */
  method AppendBullets(lines: seq<string>, items: seq<string>) returns (out: seq<string>)
    ensures out == lines + Bullets(items)
  {
    out := lines;
    for j := 0 to |items|
      invariant out == lines + Bullets(items[..j])
    {
      BulletStep(lines, out, items, j);
      out := out + ["- " + items[j]];
    }
    assert items[..|items|] == items;
  }

  /** The keyframe lines of a chapter, appended one keyframe at a time. */
  method AppendFrames(lines: seq<string>, title: string, kfs: seq<KeyFrame>) returns (out: seq<string>)
    ensures out == lines + FramesLines(title, kfs)
  {
    out := lines;
    for j := 0 to |kfs|
      invariant out == lines + FramesLines(title, kfs[..j])
    {
      var kf := kfs[j];
      FrameStep(lines, out, title, kfs, j);
      ghost var prev := out;
      if IsSet(kf.imagePath) {
        out := out + [ImageLine(title, kf.imagePath.value)];
      }
      out := out + [TimeLine(kf)];
      if IsSet(kf.imagePath) {
        FrameWithImage(prev, title, kf);
      } else {
        FrameWithoutImage(prev, title, kf);
      }
    }
    assert kfs[..|kfs|] == kfs;
  }

  lemma Regroup<T>(a: seq<T>, b: seq<T>, c: seq<T>, d: seq<T>, e: seq<T>, f: seq<T>)
    ensures a + b + c + d + e + f == a + (b + c + (d + e) + f)
  {
  }

  lemma ChapterWithFrames(lines: seq<string>, c: Chapter)
    requires HasKeyframes(c)
    ensures lines + [ChapterHeading(c)] + Bullets(c.summary) + [KeyframesHeading] + FramesLines(c.title, c.keyframes.value) + [""]
      == lines + ChapterLines(c)
  {
    Regroup(lines, [ChapterHeading(c)], Bullets(c.summary), [KeyframesHeading], FramesLines(c.title, c.keyframes.value), [""]);
  }

  lemma ChapterWithoutFrames(lines: seq<string>, c: Chapter)
    requires !HasKeyframes(c)
    ensures lines + [ChapterHeading(c)] + Bullets(c.summary) + [""] == lines + ChapterLines(c)
  {
    Regroup(lines, [ChapterHeading(c)], Bullets(c.summary), [], [], [""]);
  }

  /** The lines of one chapter: heading, bullets, keyframes, blank line. */
  method AppendChapter(lines: seq<string>, c: Chapter) returns (out: seq<string>)
    ensures out == lines + ChapterLines(c)
  {
    out := lines + [ChapterHeading(c)];
    out := AppendBullets(out, c.summary);
    if HasKeyframes(c) {
      out := out + [KeyframesHeading];
      out := AppendFrames(out, c.title, c.keyframes.value);
      out := out + [""];
      ChapterWithFrames(lines, c);
    } else {
      out := out + [""];
      ChapterWithoutFrames(lines, c);
    }
  }

  /** The chapters' lines, one chapter after the other. */
  method AppendChapters(lines: seq<string>, chs: seq<Chapter>) returns (out: seq<string>)
    ensures out == lines + ChaptersLines(chs)
  {
    out := lines;
    for i := 0 to |chs|
      invariant out == lines + ChaptersLines(chs[..i])
    {
      ChapterStep(lines, out, chs, i);
      out := AppendChapter(out, chs[i]);
    }
    assert chs[..|chs|] == chs;
  }

  /** The quotes section, when there are quotes. */
  method AppendQuotes(lines: seq<string>, qs: seq<Quote>) returns (out: seq<string>)
    ensures out == lines + QuotesLines(qs)
  {
    out := lines;
    if qs != [] {
      out := out + [QuotesHeading];
      ghost var mid := out;
      for k := 0 to |qs|
        invariant out == mid + QuoteList(qs[..k])
      {
        QuoteStep(mid, out, qs, k);
        out := out + [QuoteLine(qs[k])];
      }
      QuotesAssembled(lines, qs);
    }
  }

  lemma QuotesAssembled(lines: seq<string>, qs: seq<Quote>)
    requires qs != []
    ensures lines + [QuotesHeading] + QuoteList(qs[..|qs|]) == lines + QuotesLines(qs)
  {
    assert qs[..|qs|] == qs;
  }

  /** `to_markdown`: the lines appended in order and joined. */
  method ToMarkdown(meta: VideoMetadata, summary: SummaryResult) returns (md: string)
    ensures md == Markdown(meta, summary)
  {
    var lines := Head(meta, summary);
    lines := AppendBullets(lines, summary.keyPoints);
    lines := lines + [ChaptersHeading];
    lines := AppendChapters(lines, summary.chapters);
    lines := AppendQuotes(lines, summary.quotes);
    md := Join("\n", lines);
  }

  /** The document opens with the title, the author and the one-sentence
      summary; each key point follows as a `- ` line in order, then the
      chapter heading. */
  lemma MarkdownKeyPoints(meta: VideoMetadata, r: SummaryResult)
    ensures var ls := MarkdownLines(meta, r);
      |ls| >= 6 + |r.keyPoints| && ls[0] == "# " + meta.title && ls[3] == r.oneSentenceSummary
      && ls[5 + |r.keyPoints|] == ChaptersHeading
  {
  }

  lemma MarkdownKeyPoint(meta: VideoMetadata, r: SummaryResult, k: nat)
    requires k < |r.keyPoints|
    ensures MarkdownLines(meta, r)[5 + k] == "- " + r.keyPoints[k]
  {
  }

  lemma AppendNil<T>(a: seq<T>)
    ensures a + [] == a
  {
  }

  /** The quotes come last, after everything else, and only they depend on
      the quotes. */
  lemma MarkdownQuotesLast(meta: VideoMetadata, r: SummaryResult)
    ensures MarkdownLines(meta, r) == MarkdownLines(meta, r.(quotes := [])) + QuotesLines(r.quotes)
  {
    var r0 := r.(quotes := []);
    assert BodyLines(meta, r0) == BodyLines(meta, r);
    AppendNil(BodyLines(meta, r));
  }

  /** The quotes section opens with its heading and lists every quote with
      its clock, in order; it is there exactly when there are quotes. */
  lemma QuotesSection(qs: seq<Quote>)
    ensures QuotesHeading in QuotesLines(qs) <==> qs != []
    ensures qs != [] ==> |QuotesLines(qs)| == 1 + |qs| && QuotesLines(qs)[0] == QuotesHeading
    ensures forall k | 0 <= k < |qs| :: QuotesLines(qs)[1 + k] == QuoteLine(qs[k])
  {
    if qs != [] {
      var ls := QuotesLines(qs);
      assert ls == [QuotesHeading] + QuoteList(qs);
      assert ls[0] == QuotesHeading;
      assert forall k | 0 <= k < |qs| :: ls[1 + k] == QuoteList(qs)[k];
    }
  }

  /** A line that does not open with a newline. */
  predicate Plain(line: string) {
    line == [] || line[0] != '\n'
  }

  lemma {:induction false} FramesPlain(title: string, kfs: seq<KeyFrame>)
    ensures forall k | 0 <= k < |FramesLines(title, kfs)| :: Plain(FramesLines(title, kfs)[k])
    decreases |kfs|
  {
    if kfs != [] {
      FramesPlain(title, kfs[..|kfs| - 1]);
    }
  }

  /** A chapter shows the keyframe heading exactly when it has keyframes:
      no other line of it opens with a newline. */
  lemma KeyframeSection(c: Chapter)
    ensures KeyframesHeading in ChapterLines(c) <==> HasKeyframes(c)
  {
    if !HasKeyframes(c) {
      var ls := ChapterLines(c);
      forall k | 0 <= k < |ls|
        ensures Plain(ls[k])
      {
        if 0 < k < |ls| - 1 {
          assert ls[k] == Bullets(c.summary)[k - 1];
        }
      }
      assert !Plain(KeyframesHeading);
    }
  }

  /** The number of keyframes with an image. */
  function ImageCount(kfs: seq<KeyFrame>): nat
    decreases |kfs|
  {
    if kfs == [] then 0 else ImageCount(kfs[..|kfs| - 1]) + (if IsSet(kfs[|kfs| - 1].imagePath) then 1 else 0)
  }

  lemma FrameLinesCount(title: string, kf: KeyFrame)
    ensures |FrameLines(title, kf)| == 1 + (if IsSet(kf.imagePath) then 1 else 0)
  {
  }

  /** Every keyframe gets one time line, and one image line more exactly
      when its image is set. */
  lemma {:induction false} FramesCount(title: string, kfs: seq<KeyFrame>)
    ensures |FramesLines(title, kfs)| == |kfs| + ImageCount(kfs)
    decreases |kfs|
  {
    if kfs != [] {
      FramesCount(title, kfs[..|kfs| - 1]);
      FrameLinesCount(title, kfs[|kfs| - 1]);
    }
  }

  /** A chapter's lines number two, plus one per bullet, plus, when it has
      keyframes, one for the keyframe heading, one per keyframe and one per
      image. */
  lemma ChapterLength(c: Chapter)
    ensures |ChapterLines(c)| == 2 + |c.summary|
      + (if HasKeyframes(c) then 1 + |c.keyframes.value| + ImageCount(c.keyframes.value) else 0)
  {
    if HasKeyframes(c) {
      FramesCount(c.title, c.keyframes.value);
    }
  }

  /** A chapter opens with its heading, lists its bullets in order right
      after it and ends with a blank line. */
  lemma ChapterShape(c: Chapter)
    ensures var ls := ChapterLines(c);
      |ls| >= 2 + |c.summary| && ls[0] == ChapterHeading(c) && ls[|ls| - 1] == ""
      && forall k | 0 <= k < |c.summary| :: ls[1 + k] == "- " + c.summary[k]
  {
  }

  // ---------------------------------------------------------------------
  // The URL argument: clean-up, canonical YouTube form, BV ids, dispatch

  /** `url.strip().strip('`').strip('"').strip("'").strip()`: a piece of
      the raw argument, cut from its ends, that neither starts nor ends
      with white space. */
  function CleanUrl(raw: string): (r: string)
    ensures |r| <= |raw| && Occurs(raw, r)
    ensures r == [] || (!IsSpace(r[0]) && !IsSpace(r[|r| - 1]))
  {
    CleanUrlPiece(raw);
    Strip(StripChar(StripChar(StripChar(Strip(raw), '`'), '"'), '\''))
  }

  /** Each stage of the clean-up cuts its input at the ends. */
  lemma CleanUrlPiece(raw: string)
    ensures Occurs(raw, Strip(StripChar(StripChar(StripChar(Strip(raw), '`'), '"'), '\'')))
  {
    var s0 := Strip(raw);
    var s1 := StripChar(s0, '`');
    var s2 := StripChar(s1, '"');
    var s3 := StripChar(s2, '\'');
    StripPiece(raw);
    StripCharPiece(s0, '`');
    StripCharPiece(s1, '"');
    StripCharPiece(s2, '\'');
    StripPiece(s3);
    PieceOfPiece(raw, s0, s1);
    PieceOfPiece(raw, s1, s2);
    PieceOfPiece(raw, s2, s3);
    PieceOfPiece(raw, s3, Strip(s3));
  }

  /** A character the clean-up removes from the ends. */
  predicate Wrapping(c: char) {
    IsSpace(c) || c == '`' || c == '"' || c == '\''
  }

  lemma StripCharIdle(s: string, c: char)
    requires s == [] || (s[0] != c && s[|s| - 1] != c)
    ensures StripChar(s, c) == s
  {
  }

  lemma StripCharPair(u: string, c: char)
    requires u != [] && u[0] != c && u[|u| - 1] != c
    ensures StripChar([c] + u + [c], c) == u
  {
    var w := [c] + u + [c];
    assert w[1..] == u + [c];
    assert LStripChar(w, c) == u + [c];
    assert (u + [c])[..|u|] == u;
  }

  /** A URL that neither starts nor ends with white space or a quote is
      left as it is. */
  lemma CleanUrlIdle(u: string)
    requires u == [] || (!Wrapping(u[0]) && !Wrapping(u[|u| - 1]))
    ensures CleanUrl(u) == u
  {
    StripIdle(u);
    StripCharIdle(u, '`');
    StripCharIdle(u, '"');
    StripCharIdle(u, '\'');
  }

  /** The clean-up, stage by stage. */
  lemma CleanStages(w: string, s1: string, s2: string, s3: string, u: string)
    requires Strip(w) == w && StripChar(w, '`') == s1 && StripChar(s1, '"') == s2
    requires StripChar(s2, '\'') == s3 && Strip(s3) == u
    ensures CleanUrl(w) == u
  {
  }

  lemma QuotedEnds(u: string, q: char)
    requires !IsSpace(q)
    ensures Strip([q] + u + [q]) == [q] + u + [q]
  {
    var w := [q] + u + [q];
    assert w[0] == q && w[|w| - 1] == q;
    StripIdle(w);
  }

  lemma Backticked(u: string)
    requires u != [] && !Wrapping(u[0]) && !Wrapping(u[|u| - 1])
    ensures CleanUrl(['`'] + u + ['`']) == u
  {
    QuotedEnds(u, '`');
    StripCharPair(u, '`');
    StripIdle(u);
    StripCharIdle(u, '"');
    StripCharIdle(u, '\'');
    CleanStages(['`'] + u + ['`'], u, u, u, u);
  }

  /** The clean-up of a string whose ends are not backticks. */
  lemma CleanStagesSkip(w: string, s2: string, s3: string, u: string)
    requires w != [] && w[0] != '`' && w[|w| - 1] != '`'
    requires Strip(w) == w && StripChar(w, '"') == s2
    requires StripChar(s2, '\'') == s3 && Strip(s3) == u
    ensures CleanUrl(w) == u
  {
    StripCharIdle(w, '`');
  }

  /** The clean-up of a string whose ends are neither backticks nor double quotes. */
  lemma CleanStagesSkipTwo(w: string, s3: string, u: string)
    requires w != [] && w[0] != '`' && w[|w| - 1] != '`' && w[0] != '"' && w[|w| - 1] != '"'
    requires Strip(w) == w && StripChar(w, '\'') == s3 && Strip(s3) == u
    ensures CleanUrl(w) == u
  {
    StripCharIdle(w, '"');
    CleanStagesSkip(w, w, s3, u);
  }

  /** Double quotes are removed even around backticks, which then stay. */
  lemma DoubleQuoted(u: string)
    requires u != [] && !IsSpace(u[0]) && !IsSpace(u[|u| - 1])
    requires u[0] != '"' && u[|u| - 1] != '"' && u[0] != '\'' && u[|u| - 1] != '\''
    ensures CleanUrl(['"'] + u + ['"']) == u
  {
    var w := ['"'] + u + ['"'];
    assert w[0] == '"' && w[|w| - 1] == '"';
    QuotedEnds(u, '"');
    StripCharPair(u, '"');
    StripIdle(u);
    StripCharIdle(u, '\'');
    CleanStagesSkip(w, u, u, u);
  }

  lemma SingleQuoted(u: string)
    requires u != [] && !Wrapping(u[0]) && !Wrapping(u[|u| - 1])
    ensures CleanUrl(['\''] + u + ['\'']) == u
  {
    var w := ['\''] + u + ['\''];
    assert w[0] == '\'' && w[|w| - 1] == '\'';
    QuotedEnds(u, '\'');
    StripCharPair(u, '\'');
    StripIdle(u);
    CleanStagesSkipTwo(w, u, u);
  }

  /** One pair of backticks or quotes around a URL is removed. */
  lemma CleanUrlQuoted(u: string, q: char)
    requires q == '`' || q == '"' || q == '\''
    requires u != [] && !Wrapping(u[0]) && !Wrapping(u[|u| - 1])
    ensures CleanUrl([q] + u + [q]) == u
  {
    if q == '`' {
      Backticked(u);
    } else if q == '"' {
      DoubleQuoted(u);
    } else {
      SingleQuoted(u);
    }
  }

  /** The quotes are removed in a fixed order, so backticks inside double
      quotes stay. */
  lemma CleanUrlNestedQuotes()
    ensures CleanUrl("\"`x`\"") == "`x`"
  {
    assert "\"`x`\"" == ['"'] + "`x`" + ['"'];
    DoubleQuoted("`x`");
  }


  const WatchPrefix := "https://www.youtube.com/watch?v="
  const BilibiliVideoPrefix := "https://www.bilibili.com/video/"

  /** `main`'s rewrite of a YouTube URL: a watch URL with a `v` value, or
      a youtu.be short link with an id, becomes the canonical watch URL; any
      other URL, and one `urlparse` rejects, stays as it is. */
  function CanonicalYouTube(url: string): (r: string)
    ensures r == url || (StartsWith(r, WatchPrefix) && |r| > |WatchPrefix|)
    ensures r != url ==>
      ParseUrl(url).Some? &&
      (Contains(ParseUrl(url).value.netloc, "youtube.com") || Contains(ParseUrl(url).value.netloc, "youtu.be"))
  {
    match ParseUrl(url)
    case None => url
    case Some(p) =>
      if Contains(p.netloc, "youtube.com") && p.path == "/watch" then
        match QueryValue(SplitOn(p.query, "&"), "v")
        case Some(v) => WatchPrefix + v
        case None => url
      else if Contains(p.netloc, "youtu.be") then
        var vid := SplitOn(StripChar(p.path, '/'), "/")[0];
        if vid != [] then WatchPrefix + vid else url
      else url
  }

  /** `main`'s normalisation of a Bilibili id: a bare BV id becomes a
      bilibili video URL, so the providers never receive a bare BV id. */
  function BilibiliUrl(url: string): (r: string)
    ensures r == url || r == BilibiliVideoPrefix + url
    ensures !StartsWith(r, "BV") || Contains(r, "bilibili.com")
  {
    if StartsWith(url, "BV") && !Contains(url, "bilibili.com") then
      assert (BilibiliVideoPrefix + url)[0] == 'h';
      BilibiliVideoPrefix + url
    else url
  }

  datatype Platform = Bilibili | YouTube

  /** `main`'s choice of provider for a URL. */
  function PlatformOf(url: string): Platform {
    if Contains(url, "bilibili") || Contains(url, "BV") then Bilibili else YouTube
  }

  /** The URL the providers receive. */
  function ResolvedUrl(raw: string): string {
    BilibiliUrl(CanonicalYouTube(CleanUrl(raw)))
  }

  /** `main`'s URL handling: the URL argument rewritten step by step and
      the provider chosen for it. */
  method ResolveUrl(raw: string) returns (url: string, platform: Platform)
    ensures url == ResolvedUrl(raw)
    ensures platform == PlatformOf(url)
  {
    url := CleanUrl(raw);
    var parsed := ParseUrl(url);
    if parsed.Some? {
      var p := parsed.value;
      if Contains(p.netloc, "youtube.com") && p.path == "/watch" {
        var v := QueryValue(SplitOn(p.query, "&"), "v");
        if v.Some? {
          url := WatchPrefix + v.value;
        }
      } else if Contains(p.netloc, "youtu.be") {
        var vid := SplitOn(StripChar(p.path, '/'), "/")[0];
        if vid != [] {
          url := WatchPrefix + vid;
        }
      }
    }
    if StartsWith(url, "BV") && !Contains(url, "bilibili.com") {
      url := BilibiliVideoPrefix + url;
    }
    if Contains(url, "bilibili") || Contains(url, "BV") {
      platform := Bilibili;
    } else {
      platform := YouTube;
    }
  }

  // URL lemmas


  lemma StripSlashes(id: string)
    requires IsId(id)
    ensures StripChar("/" + id, '/') == id
    ensures SplitOn(id, "/") == [id]
  {
    assert ("/" + id)[1..] == id;
    SplitOnNone(id, '/');
  }

  lemma Shape<T>(a: seq<T>, b: seq<T>, c: seq<T>, d: seq<T>, e: seq<T>, x: seq<T>)
    ensures (a + b + c + d + e) + x == a + b + (c + d + (e + x))
  {
  }

  lemma IdPath(id: string)
    requires IsId(id)
    ensures PlainPath("/" + id)
  {
    assert forall i | 1 <= i < |"/" + id| :: ("/" + id)[i] == id[i - 1];
  }

  /** The rewrite of a URL that parses with a youtu.be netloc. */
  lemma ShortLinkRewrite(url: string, p: ParsedUrl, vid: string)
    requires ParseUrl(url) == Some(p)
    requires !Contains(p.netloc, "youtube.com") && Contains(p.netloc, "youtu.be")
    requires SplitOn(StripChar(p.path, '/'), "/")[0] == vid && vid != []
    ensures CanonicalYouTube(url) == WatchPrefix + vid
  {
  }

  lemma ShortHost()
    ensures Host("youtu.be")
    ensures !Contains("youtu.be", "youtube.com") && Contains("youtu.be", "youtu.be")
  {
    assert OccursAt("youtu.be", "youtu.be", 0);
  }

  lemma ShortLinkParse(id: string)
    requires IsId(id)
    ensures ParseUrl("https://youtu.be/" + id) == Some(ParsedUrl("https", "youtu.be", "/" + id, "", "", ""))
  {
    assert "https://youtu.be/" == "https" + ":" + "//" + "youtu.be" + "/";
    Shape("https", ":", "//", "youtu.be", "/", id);
    ShortHost();
    IdPath(id);
    ParseWebPath("https", "youtu.be", "/" + id);
  }

  /** A youtu.be short link becomes the canonical watch URL. */
  lemma ShortLinkCanonical(id: string)
    requires IsId(id)
    ensures CanonicalYouTube("https://youtu.be/" + id) == WatchPrefix + id
  {
    ShortLinkParse(id);
    ShortHost();
    StripSlashes(id);
    ShortLinkRewrite("https://youtu.be/" + id, ParsedUrl("https", "youtu.be", "/" + id, "", "", ""), id);
  }

  /** The `v` field first in a query gives the id, whatever follows. */
  lemma VField(id: string, more: seq<string>)
    requires IsId(id)
    ensures QueryValue(["v=" + id] + more, "v") == Some(id)
  {
    var f := ("v=" + id);
    assert IndexOf(f, '=') == 1;
    assert f[..1] == "v" && f[2..] == id;
    assert ReplaceChar("v", '+', ' ') == "v";
    assert ReplaceChar(id, '+', ' ') == id;
  }

  lemma IdNoChar(id: string, c: char)
    requires IsId(id) && !IsIdChar(c)
    ensures NoChar(id, c)
  {
  }

  /** `parse_qs("v=<id>&<rest>")["v"][0]` is the id. */
  lemma WatchQuery(id: string, rest: string)
    requires IsId(id)
    ensures QueryValue(SplitOn("v=" + id + "&" + rest, "&"), "v") == Some(id)
  {
    IdNoChar(id, '&');
    assert forall i | 2 <= i < |"v=" + id| :: ("v=" + id)[i] == id[i - 2];
    SplitOnAfter("v=" + id, '&', rest);
    VField(id, SplitOn(rest, "&"));
  }

  /** `parse_qs("v=<id>")["v"][0]` is the id. */
  lemma WatchQueryAlone(id: string)
    requires IsId(id)
    ensures QueryValue(SplitOn("v=" + id, "&"), "v") == Some(id)
  {
    IdNoChar(id, '&');
    assert forall i | 2 <= i < |"v=" + id| :: ("v=" + id)[i] == id[i - 2];
    SplitOnNone("v=" + id, '&');
    VField(id, []);
  }

  /** The rewrite of a URL that parses as a youtube.com `/watch` URL with a
      `v` value. */
  lemma WatchRewrite(url: string, p: ParsedUrl, v: string)
    requires ParseUrl(url) == Some(p)
    requires Contains(p.netloc, "youtube.com") && p.path == "/watch"
    requires QueryValue(SplitOn(p.query, "&"), "v") == Some(v)
    ensures CanonicalYouTube(url) == WatchPrefix + v
  {
  }

  lemma WatchHost()
    ensures Host("www.youtube.com") && PlainPath("/watch")
    ensures Contains("www.youtube.com", "youtube.com")
  {
    assert OccursAt("www.youtube.com", "youtube.com", 4);
  }

  /** An id's `v` field is safe and holds no `#`. */
  lemma VFieldSafe(id: string, rest: string)
    requires IsId(id) && Safe(rest) && NoChar(rest, '#')
    ensures Safe("v=" + id) && NoChar("v=" + id, '#')
    ensures Safe("v=" + id + "&" + rest) && NoChar("v=" + id + "&" + rest, '#')
  {
    var f := "v=" + id;
    assert forall i | 2 <= i < |f| :: f[i] == id[i - 2];
    var q := f + "&" + rest;
    assert forall i | |f| + 1 <= i < |q| :: q[i] == rest[i - |f| - 1];
    assert forall i | 0 <= i < |f| :: q[i] == f[i];
  }

  /** The watch URL of an id, split as `urlparse` sees it. */
  lemma WatchShape(query: string)
    ensures WatchPrefix[..|WatchPrefix| - 2] + query == "https" + ":" + ("//" + "www.youtube.com" + ("/watch" + "?" + query))
  {
  }

  /** A watch URL whose query opens with the `v` field is rewritten to the
      canonical watch URL of that id; the other fields are dropped. */
  lemma WatchUrlCanonical(id: string, rest: string)
    requires IsId(id) && Safe(rest) && NoChar(rest, '#')
    ensures CanonicalYouTube(WatchPrefix + id + "&" + rest) == WatchPrefix + id
  {
    var query := "v=" + id + "&" + rest;
    assert WatchPrefix + id + "&" + rest == WatchPrefix[..|WatchPrefix| - 2] + query;
    WatchShape(query);
    WatchHost();
    VFieldSafe(id, rest);
    ParseWebUrl("https", "www.youtube.com", "/watch", query);
    WatchQuery(id, rest);
    WatchRewrite(WatchPrefix + id + "&" + rest, ParsedUrl("https", "www.youtube.com", "/watch", "", query, ""), id);
  }

  /** The canonical watch URL of an id is its own canonical form. */
  lemma WatchCanonicalIdle(id: string)
    requires IsId(id)
    ensures CanonicalYouTube(WatchPrefix + id) == WatchPrefix + id
  {
    var query := "v=" + id;
    assert WatchPrefix + id == WatchPrefix[..|WatchPrefix| - 2] + query;
    WatchShape(query);
    WatchHost();
    VFieldSafe(id, "");
    ParseWebUrl("https", "www.youtube.com", "/watch", query);
    WatchQueryAlone(id);
    WatchRewrite(WatchPrefix + id, ParsedUrl("https", "www.youtube.com", "/watch", "", query, ""), id);
  }

  /** The clean-up leaves a URL that opens with `h` and ends in an id
      character as it is. */
  lemma WebUrlClean(url: string)
    requires url != [] && url[0] == 'h' && IsIdChar(url[|url| - 1])
    ensures CleanUrl(url) == url
  {
    WebUrlEnds(url);
    CleanUrlIdle(url);
  }

  lemma WebUrlEnds(url: string)
    requires url != [] && url[0] == 'h' && IsIdChar(url[|url| - 1])
    ensures !Wrapping(url[0]) && !Wrapping(url[|url| - 1])
  {
  }

  /** The BV rule leaves a URL that opens with `h` as it is. */
  lemma WebUrlNotBv(url: string)
    requires url != [] && url[0] == 'h'
    ensures BilibiliUrl(url) == url
  {
    if |url| >= 2 {
      assert url[..2][0] == 'h';
    }
  }

  /** Resolving the canonical watch URL gives it back. */
  lemma WatchIdempotent(id: string)
    requires IsId(id)
    ensures ResolvedUrl(WatchPrefix + id) == WatchPrefix + id
  {
    assert (WatchPrefix + id)[|WatchPrefix + id| - 1] == id[|id| - 1];
    WebUrlClean(WatchPrefix + id);
    WatchCanonicalIdle(id);
    WebUrlNotBv(WatchPrefix + id);
  }

  /** A youtu.be short link resolves to the canonical watch URL. */
  lemma ShortLinkResolves(id: string)
    requires IsId(id)
    ensures ResolvedUrl("https://youtu.be/" + id) == WatchPrefix + id
  {
    assert ("https://youtu.be/" + id)[|"https://youtu.be/" + id| - 1] == id[|id| - 1];
    WebUrlClean("https://youtu.be/" + id);
    ShortLinkCanonical(id);
    WebUrlNotBv(WatchPrefix + id);
  }

  lemma OccursShift(p: string, s: string, pat: string, j: int)
    requires |p| <= j && OccursAt(p + s, pat, j)
    ensures OccursAt(s, pat, j - |p|)
  {
    var w := (p + s)[j..j + |pat|];
    assert forall k | 0 <= k < |pat| :: w[k] == s[j - |p| + k];
  }

  lemma OccursShiftBack(p: string, s: string, pat: string, j: int)
    requires OccursAt(s, pat, j)
    ensures OccursAt(p + s, pat, j + |p|)
  {
    var w := s[j..j + |pat|];
    assert forall k | 0 <= k < |pat| :: (p + s)[j + |p| + k] == w[k];
  }

  /** No occurrence starts inside `p`. */
  lemma OccursPastPrefix(p: string, s: string, pat: string, j: int)
    requires |pat| >= 2 && NoChar(p, pat[1]) && (p == [] || p[|p| - 1] != pat[0])
    requires OccursAt(p + s, pat, j)
    ensures j >= |p|
  {
    var u := p + s;
    assert u[j] == u[j..j + |pat|][0] == pat[0];
    assert u[j + 1] == u[j..j + |pat|][1] == pat[1];
    if j + 1 < |p| {
      assert false;
    } else if j < |p| {
      assert false;
    }
  }

  /** A pattern whose second character is not in `p`, and whose first
      character is not `p`'s last, occurs in `p + s` exactly when it occurs
      in `s`. */
  lemma ContainsSplit(p: string, s: string, pat: string)
    requires |pat| >= 2 && NoChar(p, pat[1]) && (p == [] || p[|p| - 1] != pat[0])
    ensures Contains(p + s, pat) <==> Contains(s, pat)
  {
    if Contains(p + s, pat) {
      var j := Find(p + s, pat);
      OccursPastPrefix(p, s, pat, j);
      OccursShift(p, s, pat, j);
      ContainsAt(s, pat, j - |p|);
    }
    if Contains(s, pat) {
      var j := Find(s, pat);
      OccursShiftBack(p, s, pat, j);
      ContainsAt(p + s, pat, j + |p|);
    }
  }

  lemma WatchPrefixChars()
    ensures NoChar(WatchPrefix, 'V') && NoChar(WatchPrefix, 'i')
    ensures WatchPrefix[|WatchPrefix| - 1] == '='
  {
  }

  /** A canonical watch URL goes to the bilibili provider exactly when its
      id holds `BV` or `bilibili`. */
  lemma WatchDispatch(id: string)
    ensures PlatformOf(WatchPrefix + id) == Bilibili <==> Contains(id, "BV") || Contains(id, "bilibili")
  {
    WatchPrefixChars();
    ContainsSplit(WatchPrefix, id, "BV");
    ContainsSplit(WatchPrefix, id, "bilibili");
  }

  /** A YouTube id with `BV` in it, given as a short link, is handed to the
      bilibili provider. */
  lemma YouTubeIdWithBV(id: string)
    requires IsId(id) && Contains(id, "BV")
    ensures ResolvedUrl("https://youtu.be/" + id) == WatchPrefix + id
    ensures PlatformOf(ResolvedUrl("https://youtu.be/" + id)) == Bilibili
  {
    ShortLinkResolves(id);
    WatchDispatch(id);
  }

  /** A pattern holding a character `s` lacks does not occur in `s`. */
  lemma MissingChar(s: string, pat: string, i: nat)
    requires i < |pat| && NoChar(s, pat[i])
    ensures !Contains(s, pat)
  {
  }

  /** A URL with no colon and no leading `//` has an empty netloc, and no
      YouTube rewrite applies to it. */
  lemma NoNetlocIdle(url: string)
    requires NoChar(url, ':') && !StartsWith(url, "//") && Sanitize(url) == url
    ensures CanonicalYouTube(url) == url
  {
    assert SplitScheme(url) == ("", url);
    assert SplitNetloc(url) == ("", url);
    assert !Contains("", "youtube.com") && !Contains("", "youtu.be");
  }

  /** A bare id needs no clean-up. */
  lemma BareIdClean(id: string)
    requires IsId(id)
    ensures CleanUrl(id) == id
  {
    CleanUrlIdle(id);
  }

  /** A bare id needs no YouTube rewrite. */
  lemma BareIdCanonical(id: string)
    requires IsId(id)
    ensures CanonicalYouTube(id) == id
  {
    IdNoChar(id, ':');
    assert Safe(id) && !IsC0OrSpace(id[0]);
    SanitizeIdle(id);
    NoNetlocIdle(id);
  }

  /** The BV rule prefixes a bare BV id. */
  lemma BvRule(id: string)
    requires IsId(id) && StartsWith(id, "BV")
    ensures BilibiliUrl(id) == BilibiliVideoPrefix + id
  {
    IdNoChar(id, '.');
    assert "bilibili.com"[8] == '.';
    MissingChar(id, "bilibili.com", 8);
  }

  /** A pattern in `p` is in `p + s`. */
  lemma ContainsPrefix(p: string, s: string, pat: string)
    requires Contains(p, pat)
    ensures Contains(p + s, pat)
  {
    var j := Find(p, pat);
    assert (p + s)[j..j + |pat|] == p[j..j + |pat|];
    ContainsAt(p + s, pat, j);
  }

  lemma BilibiliPrefixed(id: string)
    ensures Contains(BilibiliVideoPrefix + id, "bilibili")
  {
    assert OccursAt(BilibiliVideoPrefix, "bilibili", 12);
    ContainsPrefix(BilibiliVideoPrefix, id, "bilibili");
  }

  /** A bare BV id resolves to its bilibili video URL, which goes to the
      bilibili provider. */
  lemma BvIdResolves(id: string)
    requires IsId(id) && StartsWith(id, "BV")
    ensures ResolvedUrl(id) == BilibiliVideoPrefix + id
    ensures PlatformOf(ResolvedUrl(id)) == Bilibili
  {
    BareIdClean(id);
    BareIdCanonical(id);
    BvRule(id);
    BilibiliPrefixed(id);
  }
}
