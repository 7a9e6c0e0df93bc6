/** The two note generators of the summarizer: the study notes, which are
    the model's Markdown with a surrounding code fence taken off, and the
    extractive notes, built from the transcript alone. */
module Notes {
  import opened Wrappers
  import opened Text
  import opened Models
  import opened Llm
  import opened Seqs
  import opened Summarizer

  // ---------------------------------------------------------------------
  // Study notes.
  // ---------------------------------------------------------------------

  const Fence := "```"

  /** `study.jinja2` over the whole transcript and the summary. */
  function StudyRequest(t: Transcript, meta: VideoMetadata, summary: SummaryResult): Request {
    StudyCall(meta.title, meta.author, JoinedText(t.segments), summary)
  }

  /** The text opens with a fence, so `rfind` finds one at 0 or later. */
  lemma RFindFenceFound(text: string)
    requires StartsWith(text, Fence)
    ensures RFind(text, Fence) >= 0
  {
    assert OccursAt(text, Fence, 0);
  }

  /** What is kept of a stripped reply: when it opens with a fence, what
      lies between the end of its first line and the last fence, stripped;
      otherwise all of it. Either way a piece of the reply. */
  function Unfence(text: string): (r: string)
    ensures Occurs(text, r)
    ensures StartsWith(text, Fence) ==> Strip(r) == r
    ensures !StartsWith(text, Fence) ==> r == text
  {
    if StartsWith(text, Fence) then
      RFindFenceFound(text);
      var inner := Slice(text, Find(text, "\n") + 1, RFind(text, Fence));
      SlicePiece(text, Find(text, "\n") + 1, RFind(text, Fence));
      StripPiece(inner);
      PieceOfPiece(text, inner, Strip(inner));
      StripTwice(inner);
      Strip(inner)
    else
      assert OccursAt(text, text, 0);
      text
  }

  /** The fence handling of `generate_study_notes`: a stripped piece of
      the reply, all of it stripped when it does not open with a fence. */
  function StripFence(md: string): (r: string)
    ensures Occurs(md, r) && Strip(r) == r
    ensures !StartsWith(Strip(md), Fence) ==> r == Strip(md)
  {
    StripPiece(md);
    PieceOfPiece(md, Strip(md), Unfence(Strip(md)));
    StripTwice(md);
    Unfence(Strip(md))
  }

  /** `generate_study_notes`, sent as call number `n`: a stripped piece of
      the model's reply. */
  function StudyNotes(m: Model, n: nat, t: Transcript, meta: VideoMetadata, summary: SummaryResult): (r: string)
    ensures Occurs(m.answer(n, StudyRequest(t, meta, summary)), r) && Strip(r) == r
  {
    StripFence(m.answer(n, StudyRequest(t, meta, summary)))
  }

  /** A text that ends with `pat` has its last occurrence there. */
  lemma RFindAtEnd(s: string, pat: string)
    requires |pat| <= |s| && s[|s| - |pat|..] == pat
    ensures RFind(s, pat) == |s| - |pat|
  {
    assert s[|s| - |pat|..|s|] == pat;
  }

  /** The fenced branch, once the positions of the first line break and of
      the last fence are known. */
  lemma UnfenceAt(text: string, nl: int, last: nat)
    requires StartsWith(text, Fence)
    requires Find(text, "\n") == nl && RFind(text, Fence) == last
    ensures Unfence(text) == Strip(Slice(text, nl + 1, last))
  {
  }

  /** In a fenced block the first line break ends the opening line. */
  lemma FencedFind(lang: string, body: string)
    requires forall i | 0 <= i < |lang| :: lang[i] != '\n'
    ensures Find(Fence + lang + "\n" + body + Fence, "\n") == |Fence + lang|
  {
    var head := Fence + lang;
    var md := head + "\n" + body + Fence;
    var nl := |head|;
    assert md[nl..nl + 1] == "\n";
    forall j | 0 <= j < nl ensures !OccursAt(md, "\n", j) {
      assert md[j] == head[j];
      assert md[j..j + 1][0] == md[j];
    }
    FindIs(md, "\n", nl);
  }

  /** In a fenced block the last fence is the closing one. */
  lemma FencedRFind(lang: string, body: string)
    ensures RFind(Fence + lang + "\n" + body + Fence, Fence) == |Fence + lang + "\n" + body|
  {
    var md := Fence + lang + "\n" + body + Fence;
    assert md[|md| - |Fence|..] == Fence;
    RFindAtEnd(md, Fence);
  }

  /** A fenced block loses its fence: the opening line, with whatever
      language tag, and the closing fence go; the body is stripped. */
  lemma FencedBlock(lang: string, body: string)
    requires forall i | 0 <= i < |lang| :: lang[i] != '\n'
    ensures StripFence(Fence + lang + "\n" + body + Fence) == Strip(body)
  {
    var head := Fence + lang;
    var md := head + "\n" + body + Fence;
    var nl := |head|;
    var last := |md| - |Fence|;
    FencedFind(lang, body);
    FencedRFind(lang, body);
    assert md[..|Fence|] == Fence;
    assert md[nl + 1..last] == body;
    assert md[0] == '`' && md[|md| - 1] == '`';
    assert !IsSpace(md[0]) && !IsSpace(md[|md| - 1]);
    FencedUnfence(md, nl, last, body);
  }

  /** The fenced branch once the inner text is known. */
  lemma FencedUnfence(md: string, nl: nat, last: nat, body: string)
    requires StartsWith(md, Fence) && !IsSpace(md[0]) && !IsSpace(md[|md| - 1])
    requires Find(md, "\n") == nl && RFind(md, Fence) == last
    requires nl + 1 <= last <= |md| && md[nl + 1..last] == body
    ensures StripFence(md) == Strip(body)
  {
    StripFenceIdle(md);
    UnfenceAt(md, nl, last);
  }

  /** A reply with no white space around it is unfenced as it is. */
  lemma StripFenceIdle(md: string)
    requires md == [] || (!IsSpace(md[0]) && !IsSpace(md[|md| - 1]))
    ensures StripFence(md) == Unfence(md)
  {
    StripIdle(md);
  }

  /** A reply that opens a fence and never closes it comes out empty: the
      only fence `rfind` sees is the opening one, and the slice up to it is
      empty. */
  lemma UnclosedFenceIsEmpty(md: string)
    requires StartsWith(Strip(md), Fence)
    requires forall j | 0 < j :: !OccursAt(Strip(md), Fence, j)
    ensures StripFence(md) == []
  {
    var text := Strip(md);
    RFindFenceFound(text);
    assert RFind(text, Fence) == 0;
  }

  /** For instance a fenced answer cut short before its closing fence. */
  lemma UnclosedFenceExample()
    ensures StripFence("```\nabc") == []
  {
    var md := "```\nabc";
    assert md[..3] == Fence;
    forall j | 0 < j ensures !OccursAt(md, Fence, j) {
      if 0 < j && j + 3 <= |md| {
        assert md[j..j + 3][2] == md[j + 2] != '`';
      }
    }
    RFindFenceFound(md);
    assert RFind(md, Fence) == 0;
    assert Unfence(md) == [];
    assert md[0] == '`' && md[|md| - 1] == 'c';
    StripFenceIdle(md);
  }

  // ---------------------------------------------------------------------
  // Extractive notes.
  // ---------------------------------------------------------------------

  const KeyPointsHeading := "## 提取式要点（基于原文）"
  const SectionHeading := "\n## 分段摘要（按时序）"
  const BucketSeconds: real := 180.0
  const MaxKeyPoints := 10

  /** The three opening lines. */
  function Header(meta: VideoMetadata): seq<string> {
    ["# " + meta.title, "\n> 作者：" + meta.author + "\n", KeyPointsHeading]
  }

  /** `max(1, total // 8)` */
  function Window(total: nat): (w: nat)
    ensures w >= 1 && (total >= 8 ==> w == total / 8)
  {
    if total / 8 > 1 then total / 8 else 1
  }

  /** `[s.text.strip() for s in segs if s.text.strip()]` */
  function NonBlankTexts(segs: seq<Segment>): (r: seq<string>)
    ensures |r| <= |segs|
    ensures forall k | 0 <= k < |r| :: r[k] != []
  {
    if segs == [] then []
    else (if Strip(segs[0].text) != [] then [Strip(segs[0].text)] else []) + NonBlankTexts(segs[1..])
  }

  /** The stripped text of segment `j`, when there is one and it is not
      blank. */
  function Kept(segs: seq<Segment>, j: nat): (r: seq<string>)
    ensures |r| <= 1
  {
    if j < |segs| && Strip(segs[j].text) != [] then [Strip(segs[j].text)] else []
  }

  /** A window's snippet: the non-blank texts among its first three
      segments, stripped and joined by a full-width comma. */
  function Snippet(segs: seq<Segment>): string {
    Join("，", Kept(segs, 0) + Kept(segs, 1) + Kept(segs, 2))
  }

  /** The filter, one segment at a time. */
  lemma NonBlankStep(segs: seq<Segment>, j: nat)
    requires j <= |segs|
    ensures j < |segs| ==> NonBlankTexts(segs[j..]) == Kept(segs, j) + NonBlankTexts(segs[j + 1..])
    ensures j == |segs| ==> NonBlankTexts(segs[j..]) == [] && Kept(segs, j) == []
  {
    if j < |segs| {
      assert segs[j..][0] == segs[j] && segs[j..][1..] == segs[j + 1..];
    }
  }

  /** The snippet keeps the same texts as the list comprehension over the
      first three segments. */
  lemma SnippetTexts(segs: seq<Segment>)
    ensures Snippet(segs) == Join("，", NonBlankTexts(segs[..if |segs| < 3 then |segs| else 3]))
  {
    FirstThreeKept(segs);
  }

  /** From segment `j` of at most three on, the filter keeps what `Kept`
      keeps. */
  lemma {:induction false} NonBlankShort(p: seq<Segment>, j: nat)
    requires j <= |p| <= 3
    ensures NonBlankTexts(p[j..]) == Kept(p, j) + Kept(p, j + 1) + Kept(p, j + 2)
    decreases |p| - j
  {
    NonBlankStep(p, j);
    if j < |p| {
      NonBlankShort(p, j + 1);
      assert Kept(p, j + 3) == [];
      AppendAssoc(Kept(p, j), Kept(p, j + 1), Kept(p, j + 2));
    } else {
      assert Kept(p, j + 1) == [] && Kept(p, j + 2) == [];
    }
  }

  lemma FirstThreeKept(segs: seq<Segment>)
    ensures NonBlankTexts(segs[..if |segs| < 3 then |segs| else 3]) == Kept(segs, 0) + Kept(segs, 1) + Kept(segs, 2)
  {
    var n := if |segs| < 3 then |segs| else 3;
    var p := segs[..n];
    forall j | 0 <= j < 3 ensures Kept(p, j) == Kept(segs, j) {
      if j < n {
        assert p[j] == segs[j];
      }
    }
    NonBlankShort(p, 0);
    assert p[0..] == p;
  }

  /** `segments[i:i+window]` for `i` in `range(k, total, window)`. */
  function WindowsFrom(segs: seq<Segment>, w: nat, i: nat): (r: seq<seq<Segment>>)
    requires w >= 1
    decreases |segs| - i
  {
    if i >= |segs| then []
    else [segs[i..if i + w <= |segs| then i + w else |segs|]] + WindowsFrom(segs, w, i + w)
  }

  /** The non-empty snippets of the windows, in order. */
  function KeyPointsOf(ws: seq<seq<Segment>>): (r: seq<string>)
    ensures |r| <= |ws|
  {
    if ws == [] then []
    else (if Snippet(ws[0]) != [] then [Snippet(ws[0])] else []) + KeyPointsOf(ws[1..])
  }

  function KeyPoints(segs: seq<Segment>): seq<string> {
    KeyPointsOf(WindowsFrom(segs, Window(|segs|), 0))
  }

  /** The bucket loop from segment `rest[0]` on, with the open bucket
      `bucket` started at `start`. */
  function BucketsFrom(rest: seq<Segment>, start: real, bucket: seq<Segment>): seq<seq<Segment>>
    decreases |rest|
  {
    if rest == [] then (if bucket != [] then [bucket] else [])
    else if rest[0].start - start > BucketSeconds && bucket != []
    then [bucket] + BucketsFrom(rest[1..], rest[0].start, [rest[0]])
    else BucketsFrom(rest[1..], start, bucket + [rest[0]])
  }

  function Buckets(segs: seq<Segment>): seq<seq<Segment>> {
    if segs == [] then [] else BucketsFrom(segs, segs[0].start, [])
  }

  /** A bucket's line: its non-blank texts joined by a full-width
      semicolon. */
  function Part(bucket: seq<Segment>): string {
    Join("；", NonBlankTexts(bucket))
  }

  function Parts(bs: seq<seq<Segment>>): (r: seq<string>)
    ensures |r| == |bs| && forall k | 0 <= k < |bs| :: r[k] == Part(bs[k])
  {
    seq(|bs|, k requires 0 <= k < |bs| => Part(bs[k]))
  }

  /** The lines of non-empty notes, given the key points and the bucket
      lines: the header, a bullet for each of the first ten key points,
      the section heading and a bullet per bucket. */
  function Layout(meta: VideoMetadata, kps: seq<string>, parts: seq<string>): seq<string> {
    Header(meta) + Bullets(kps[..if |kps| < MaxKeyPoints then |kps| else MaxKeyPoints])
    + [SectionHeading] + Bullets(parts)
  }

  /** The lines of `generate_extractive_notes`. */
  function NotesLines(meta: VideoMetadata, segs: seq<Segment>): seq<string> {
    if segs == [] then Header(meta)
    else Layout(meta, KeyPoints(segs), Parts(Buckets(segs)))
  }

  /** The key points from window `i` on: the window's snippet, when
      there is one, then those of the windows after it. */
  lemma KeyPointsStep(segs: seq<Segment>, w: nat, i: nat)
    requires w >= 1 && i < |segs|
    ensures var ws := segs[i..if i + w <= |segs| then i + w else |segs|];
      KeyPointsOf(WindowsFrom(segs, w, i)) ==
      (if Snippet(ws) != [] then [Snippet(ws)] else []) + KeyPointsOf(WindowsFrom(segs, w, i + w))
  {
    var ws := segs[i..if i + w <= |segs| then i + w else |segs|];
    var rest := WindowsFrom(segs, w, i + w);
    assert WindowsFrom(segs, w, i) == [ws] + rest;
    assert ([ws] + rest)[1..] == rest;
  }

  /** The window loop's invariant survives one window. */
  lemma KeyPointsAdvance(segs: seq<Segment>, w: nat, i: nat, acc: seq<string>, snippet: string)
    requires w >= 1 && i < |segs|
    requires snippet == Snippet(segs[i..if i + w <= |segs| then i + w else |segs|])
    requires acc + KeyPointsOf(WindowsFrom(segs, w, i)) == KeyPoints(segs)
    ensures (if snippet != [] then acc + [snippet] else acc) + KeyPointsOf(WindowsFrom(segs, w, i + w)) == KeyPoints(segs)
  {
    var here: seq<string> := if snippet != [] then [snippet] else [];
    var rest := KeyPointsOf(WindowsFrom(segs, w, i + w));
    KeyPointsStep(segs, w, i);
    AppendAssoc(acc, here, rest);
    assert acc + [] == acc;
  }

  /** One step of the bucket loop. */
  lemma BucketsFromStep(rest: seq<Segment>, start: real, bucket: seq<Segment>)
    requires rest != []
    ensures BucketsFrom(rest, start, bucket) ==
      if rest[0].start - start > BucketSeconds && bucket != []
      then [bucket] + BucketsFrom(rest[1..], rest[0].start, [rest[0]])
      else BucketsFrom(rest[1..], start, bucket + [rest[0]])
  {
  }

  /** The bucket loop's invariant survives one segment. */
  lemma BucketsAdvance(segs: seq<Segment>, j: nat, start: real, bucket: seq<Segment>, done: seq<seq<Segment>>)
    requires j < |segs|
    requires done + BucketsFrom(segs[j..], start, bucket) == Buckets(segs)
    ensures segs[j].start - start > BucketSeconds && bucket != [] ==>
      (done + [bucket]) + BucketsFrom(segs[j + 1..], segs[j].start, [segs[j]]) == Buckets(segs)
    ensures !(segs[j].start - start > BucketSeconds && bucket != []) ==>
      done + BucketsFrom(segs[j + 1..], start, bucket + [segs[j]]) == Buckets(segs)
  {
    assert segs[j..][0] == segs[j] && segs[j..][1..] == segs[j + 1..];
    BucketsFromStep(segs[j..], start, bucket);
    AppendAssoc(done, [bucket], BucketsFrom(segs[j + 1..], segs[j].start, [segs[j]]));
  }

  /** Emitting a bucket's line keeps the lines in step with the buckets. */
  lemma BulletLinesAppend(lines: seq<string>, done: seq<seq<Segment>>, bucket: seq<Segment>)
    requires lines == Bullets(Parts(done))
    ensures lines + ["- " + Part(bucket)] == Bullets(Parts(done + [bucket]))
  {
    PartsAppend(done, bucket);
    BulletsAppend(Parts(done), Part(bucket));
  }

  lemma PartsAppend(bs: seq<seq<Segment>>, b: seq<Segment>)
    ensures Parts(bs + [b]) == Parts(bs) + [Part(b)]
  {
  }

  // Properties of the extractive notes.

  /** The windows cover the segments from `i` on, in order, without
      overlap: each holds `w` segments except the last, which holds at
      least one. */
  lemma {:induction false} WindowsCover(segs: seq<Segment>, w: nat, i: nat)
    requires w >= 1 && i <= |segs|
    ensures Flatten(WindowsFrom(segs, w, i)) == segs[i..]
    ensures forall k | 0 <= k < |WindowsFrom(segs, w, i)| :: 1 <= |WindowsFrom(segs, w, i)[k]| <= w
    ensures forall k | 0 <= k < |WindowsFrom(segs, w, i)| - 1 :: |WindowsFrom(segs, w, i)[k]| == w
    decreases |segs| - i
  {
    if i < |segs| {
      var hi := if i + w <= |segs| then i + w else |segs|;
      var rest := WindowsFrom(segs, w, i + w);
      assert WindowsFrom(segs, w, i) == [segs[i..hi]] + rest;
      if i + w <= |segs| {
        WindowsCover(segs, w, i + w);
        FlattenCons(segs[i..hi], rest);
        assert segs[i..hi] + segs[i + w..] == segs[i..];
      } else {
        assert rest == [];
        assert Flatten([segs[i..hi]]) == segs[i..hi] + Flatten([]);
      }
    }
  }

  /** A bucket: its segments start at most three minutes after its first. */
  predicate Tight(b: seq<Segment>) {
    b != [] && forall j | 0 < j < |b| :: b[j].start - b[0].start <= BucketSeconds
  }

  /** Each bucket opens more than three minutes after every earlier one. */
  predicate Spread(bs: seq<seq<Segment>>) {
    forall j, k | 0 <= j < k < |bs| :: bs[j] != [] && bs[k] != [] && bs[k][0].start - bs[j][0].start > BucketSeconds
  }

  lemma {:induction false} BucketsFromShape(rest: seq<Segment>, start: real, bucket: seq<Segment>)
    requires bucket == [] ==> rest != [] && rest[0].start == start
    requires bucket != [] ==> Tight(bucket) && bucket[0].start == start
    ensures Flatten(BucketsFrom(rest, start, bucket)) == bucket + rest
    ensures forall k | 0 <= k < |BucketsFrom(rest, start, bucket)| :: Tight(BucketsFrom(rest, start, bucket)[k])
    ensures Spread(BucketsFrom(rest, start, bucket))
    ensures BucketsFrom(rest, start, bucket) != [] && BucketsFrom(rest, start, bucket)[0] != []
    ensures BucketsFrom(rest, start, bucket)[0][0] == (bucket + rest)[0]
    decreases |rest|
  {
    var r := BucketsFrom(rest, start, bucket);
    if rest == [] {
      assert r == [bucket];
      assert Flatten([bucket]) == bucket + Flatten([]);
    } else if rest[0].start - start > BucketSeconds && bucket != [] {
      var tail := BucketsFrom(rest[1..], rest[0].start, [rest[0]]);
      BucketsFromShape(rest[1..], rest[0].start, [rest[0]]);
      assert r == [bucket] + tail;
      FlattenCons(bucket, tail);
      assert [rest[0]] + rest[1..] == rest;
      assert forall k | 0 < k < |r| :: r[k] == tail[k - 1];
    } else {
      var b := bucket + [rest[0]];
      assert b[0].start == start;
      assert Tight(b) by {
        forall j | 0 < j < |b| ensures b[j].start - b[0].start <= BucketSeconds {
          if j < |bucket| {
            assert b[j] == bucket[j];
          }
        }
      }
      BucketsFromShape(rest[1..], start, b);
      assert b + rest[1..] == bucket + rest;
    }
  }

  /** The buckets cover the transcript in order; every bucket spans at
      most three minutes of start times from its first segment, and each
      new bucket opens more than three minutes after the previous one
      opened. */
  lemma BucketsShape(segs: seq<Segment>)
    requires segs != []
    ensures Flatten(Buckets(segs)) == segs
    ensures forall k | 0 <= k < |Buckets(segs)| :: Tight(Buckets(segs)[k])
    ensures Spread(Buckets(segs))
  {
    BucketsFromShape(segs, segs[0].start, []);
    assert [] + segs == segs;
  }

  /** A one-segment window's snippet is the segment's stripped text. */
  lemma SnippetOfOne(x: Segment)
    ensures Snippet([x]) == Strip(x.text)
  {
    assert Kept([x], 1) + Kept([x], 2) == [];
  }

  /** With one-segment windows the key points are the stripped texts of
      the segments that have any. */
  lemma {:induction false} SingleWindows(segs: seq<Segment>, i: nat)
    requires i <= |segs|
    ensures KeyPointsOf(WindowsFrom(segs, 1, i)) == NonBlankTexts(segs[i..])
    decreases |segs| - i
  {
    if i < |segs| {
      KeyPointsStep(segs, 1, i);
      assert segs[i..i + 1] == [segs[i]];
      SnippetOfOne(segs[i]);
      assert segs[i..][0] == segs[i] && segs[i..][1..] == segs[i + 1..];
      SingleWindows(segs, i + 1);
    }
  }

  /** Fewer than 16 segments make one-segment windows, and only the first
      ten segments with text become key points: whatever the later
      segments say is not sampled. */
  lemma ShortTranscriptKeyPoints(segs: seq<Segment>)
    requires |segs| < 16
    ensures KeyPoints(segs) == NonBlankTexts(segs)
  {
    assert Window(|segs|) == 1;
    SingleWindows(segs, 0);
    assert segs[0..] == segs;
  }

  /** The layout as its three pieces. */
  lemma LayoutPieces(meta: VideoMetadata, kps: seq<string>, parts: seq<string>)
    ensures var shown := if |kps| < MaxKeyPoints then |kps| else MaxKeyPoints;
      Layout(meta, kps, parts) == Header(meta) + Bullets(kps[..shown]) + ([SectionHeading] + Bullets(parts))
  {
  }

  /** The notes show at most ten key points, then the section heading,
      then one line per bucket. */
  lemma LayoutShape(meta: VideoMetadata, kps: seq<string>, parts: seq<string>)
    ensures var shown := if |kps| < MaxKeyPoints then |kps| else MaxKeyPoints;
      var lines := Layout(meta, kps, parts);
      |lines| == 4 + shown + |parts| && lines[..3] == Header(meta) && lines[3 + shown] == SectionHeading
  {
    var shown := if |kps| < MaxKeyPoints then |kps| else MaxKeyPoints;
    LayoutPieces(meta, kps, parts);
    var h := Header(meta);
    var b := Bullets(kps[..shown]);
    var lines := h + b + ([SectionHeading] + Bullets(parts));
    assert lines[..3] == h;
  }

  /** The key points shown are the first ones found, in order. */
  lemma LayoutKeyPoint(meta: VideoMetadata, kps: seq<string>, parts: seq<string>, k: nat)
    requires k < |kps| && k < MaxKeyPoints
    ensures Layout(meta, kps, parts)[3 + k] == "- " + kps[k]
  {
    var shown := if |kps| < MaxKeyPoints then |kps| else MaxKeyPoints;
    LayoutPieces(meta, kps, parts);
    var b := Bullets(kps[..shown]);
    assert (Header(meta) + b + ([SectionHeading] + Bullets(parts)))[3 + k] == b[k];
  }

  /** After the heading comes one line per bucket, in order. */
  lemma LayoutPart(meta: VideoMetadata, kps: seq<string>, parts: seq<string>, k: nat)
    requires k < |parts|
    ensures var shown := if |kps| < MaxKeyPoints then |kps| else MaxKeyPoints;
      Layout(meta, kps, parts)[4 + shown + k] == "- " + parts[k]
  {
    var shown := if |kps| < MaxKeyPoints then |kps| else MaxKeyPoints;
    LayoutPieces(meta, kps, parts);
    var tail := [SectionHeading] + Bullets(parts);
    assert (Header(meta) + Bullets(kps[..shown]) + tail)[4 + shown + k] == tail[1 + k];
  }

  /** The first loop of `generate_extractive_notes`: one snippet per
      window, blank snippets dropped. */
  method CollectKeyPoints(segments: seq<Segment>) returns (keyPoints: seq<string>)
    ensures keyPoints == KeyPoints(segments)
  {
    var total := |segments|;
    var window := Window(total);
    keyPoints := [];
    var i: nat := 0;
    while i < total
      invariant keyPoints + KeyPointsOf(WindowsFrom(segments, window, i)) == KeyPoints(segments)
      decreases total - i
    {
      var segs := segments[i..if i + window <= total then i + window else total];
      var snippet := Snippet(segs);
      KeyPointsAdvance(segments, window, i, keyPoints, snippet);
      if snippet != [] {
        keyPoints := keyPoints + [snippet];
      }
      i := i + window;
    }
  }

  /** The bucket loop of `generate_extractive_notes`: one line per bucket. */
  method BucketLines(segments: seq<Segment>) returns (lines: seq<string>)
    requires segments != []
    ensures lines == Bullets(Parts(Buckets(segments)))
  {
    lines := [];
    var currentStart := segments[0].start;
    var bucket: seq<Segment> := [];
    ghost var done: seq<seq<Segment>> := [];
    for j := 0 to |segments|
      invariant lines == Bullets(Parts(done))
      invariant done + BucketsFrom(segments[j..], currentStart, bucket) == Buckets(segments)
    {
      var s := segments[j];
      BucketsAdvance(segments, j, currentStart, bucket, done);
      if s.start - currentStart > BucketSeconds && bucket != [] {
        BulletLinesAppend(lines, done, bucket);
        lines := lines + ["- " + Part(bucket)];
        done := done + [bucket];
        currentStart := s.start;
        bucket := [s];
      } else {
        bucket := bucket + [s];
      }
    }
    if bucket != [] {
      BulletLinesAppend(lines, done, bucket);
      lines := lines + ["- " + Part(bucket)];
      done := done + [bucket];
    }
    assert done == Buckets(segments);
  }

  /** The key-point bullets, the section heading and the bucket lines
      after the header. */
  method Render(meta: VideoMetadata, keyPoints: seq<string>, bucketLines: seq<string>, ghost parts: seq<string>)
    returns (lines: seq<string>)
    requires bucketLines == Bullets(parts)
    ensures lines == Layout(meta, keyPoints, parts)
  {
    lines := Header(meta);
    var shown := if |keyPoints| < MaxKeyPoints then |keyPoints| else MaxKeyPoints;
    for k := 0 to shown
      invariant lines == Header(meta) + Bullets(keyPoints[..k])
    {
      BulletsSnoc(keyPoints, k);
      lines := lines + ["- " + keyPoints[k]];
    }
    lines := lines + [SectionHeading] + bucketLines;
  }

  /** `generate_extractive_notes` */
  method ExtractiveNotes(t: Transcript, meta: VideoMetadata) returns (notes: string)
    ensures notes == Join("\n", NotesLines(meta, t.segments))
    ensures t.segments == [] ==> notes == Join("\n", Header(meta))
  {
    if |t.segments| == 0 {
      return Join("\n", Header(meta));
    }
    var keyPoints := CollectKeyPoints(t.segments);
    var bucketLines := BucketLines(t.segments);
    var lines := Render(meta, keyPoints, bucketLines, Parts(Buckets(t.segments)));
    notes := Join("\n", lines);
  }
}
