/** The YouTube caption parsers of the yt-dlp fallback: a line scanner for
    WebVTT, a block parser for SubRip, the `json3` event format and the
    choice among them. A `None` result stands for an exception raised while
    reading the document; the `srv3` XML reader is an input. */
module YouTubeCaptions {
  import opened Wrappers
  import opened Text
  import opened Models
  import opened Captions
  import opened JsonValues

  function CueSeq(o: Option<Segment>): seq<Segment> {
    if o.Some? then [o.value] else []
  }

  // ---------------------------------------------------------------------
  // WebVTT: a scan over the lines of the file.
  // ---------------------------------------------------------------------

  /** A line that ends a cue's text: blank, or holding the arrow of the
      next timing line. */
  predicate StopsText(l: string) {
    IsBlank(l) || Contains(l, "-->")
  }

  /** Where the text of a cue whose first text line is `i` ends. */
  function TextEnd(lines: seq<string>, i: nat): (j: nat)
    requires i <= |lines|
    ensures i <= j <= |lines|
    ensures forall k {:trigger StopsText(lines[k])} | i <= k < j :: !StopsText(lines[k])
    ensures j < |lines| ==> StopsText(lines[j])
    decreases |lines| - i
  {
    if i == |lines| || StopsText(lines[i]) then i else TextEnd(lines, i + 1)
  }

  /** The first non-blank line at or after `i`. */
  function BlankEnd(lines: seq<string>, i: nat): (j: nat)
    requires i <= |lines|
    ensures i <= j <= |lines|
    ensures forall k | i <= k < j :: IsBlank(lines[k])
    ensures j < |lines| ==> !IsBlank(lines[j])
    decreases |lines| - i
  {
    if i == |lines| || !IsBlank(lines[i]) then i else BlankEnd(lines, i + 1)
  }

  /** `[t for t in parts if t]` */
  function Filled(parts: seq<string>): (r: seq<string>)
    ensures |r| <= |parts|
    ensures forall k | 0 <= k < |r| :: r[k] != []
  {
    if parts == [] then []
    else (if parts[0] == [] then [] else [parts[0]]) + Filled(parts[1..])
  }

  /** The text of the cue whose text lines start at line `i`: the stripped
      lines up to the next blank or timing line, joined by spaces. */
  function CueText(lines: seq<string>, i: nat): string
    requires i <= |lines|
  {
    Join(" ", Filled(StripAll(lines[i..TextEnd(lines, i)])))
  }

  /** The cue opened by the timing line `i`: its times are the seconds its
      two timestamps spell (a stamp without hours has hour 0) and its text
      is that of the lines below it; a cue without text is dropped. */
  function VttCue(lines: seq<string>, i: nat): (r: Option<Segment>)
    requires i < |lines| && YtTiming(lines[i]).Some?
    ensures r.Some? ==> r.value.text != []
  {
    var t := YtTiming(lines[i]).value;
    YtTimingValues(lines[i]);
    var text := CueText(lines, i + 1);
    if text == [] then None else Some(Segment(StampValue(t.start), StampValue(t.end), text))
  }

  /** Where the scan resumes after the cue opened at line `i`: behind the
      blank lines that follow its text, or right at a timing line that cut
      the text short. */
  function NextLine(lines: seq<string>, i: nat): (j: nat)
    requires i < |lines|
    ensures i < j <= |lines|
  {
    BlankEnd(lines, TextEnd(lines, i + 1))
  }

  /** Every segment carries text. */
  predicate Texted(segs: seq<Segment>) {
    forall k | 0 <= k < |segs| :: segs[k].text != []
  }

  /** Two lists whose segments all carry text join to one. */
  lemma TextedJoin(a: seq<Segment>, b: seq<Segment>)
    requires Texted(a) && Texted(b)
    ensures Texted(a + b)
  {
  }

  /** The segments the scanner appends from line `i` on: lines that are no
      timing line are passed over, and each timing line contributes its cue. */
  function VttFrom(lines: seq<string>, i: nat): (r: seq<Segment>)
    requires i <= |lines|
    ensures Texted(r)
    ensures |r| <= |lines| - i
    decreases |lines| - i
  {
    if i == |lines| then []
    else if YtTiming(lines[i]).None? then VttFrom(lines, i + 1)
    else
      var cue := CueSeq(VttCue(lines, i));
      var more := VttFrom(lines, NextLine(lines, i));
      TextedJoin(cue, more);
      cue + more
  }

  /** `_parse_vtt` */
  function Vtt(content: string): seq<Segment> {
    VttFrom(SplitLines(content), 0)
  }

  /** The filter keeps a list with no empty string as it is. */
  lemma {:induction false} FilledIdle(parts: seq<string>)
    requires forall k | 0 <= k < |parts| :: parts[k] != []
    ensures Filled(parts) == parts
  {
    if parts != [] {
      FilledIdle(parts[1..]);
    }
  }

  /** The lines of a cue: its timing line, its text lines, the blank line
      that closes it and what follows. */
  lemma CueLayout(l0: string, content: seq<string>, rest: seq<string>)
    ensures var lines := [l0] + content + [""] + rest;
      var e := |content| + 1;
      |lines| == e + 1 + |rest| && lines[0] == l0 && lines[1..e] == content && lines[e] == ""
      && (rest == [] || lines[e + 1] == rest[0])
  {
  }

  /** Text lines from line 1 up to the blank line `e`, and no blank line
      after it: the text ends at `e` and the scan resumes at `e + 1`. */
  lemma CueBounds(lines: seq<string>, content: seq<string>, e: nat)
    requires e == |content| + 1 < |lines| && lines[1..e] == content && IsBlank(lines[e])
    requires forall k | 0 <= k < |content| :: !StopsText(content[k])
    requires e + 1 == |lines| || !IsBlank(lines[e + 1])
    ensures TextEnd(lines, 1) == e && NextLine(lines, 0) == e + 1
  {
    assert forall k | 1 <= k < e :: lines[k] == content[k - 1];
    assert forall k | 1 <= k < e :: !StopsText(lines[k]);
    assert StopsText(lines[e]);
    assert BlankEnd(lines, e) == e + 1;
  }

  /** Lines that are neither blank nor hold an arrow make a text of their
      stripped lines joined by spaces, never the empty text. */
  lemma CueTextLines(content: seq<string>)
    requires content != [] && forall k | 0 <= k < |content| :: !StopsText(content[k])
    ensures Join(" ", Filled(StripAll(content))) == Join(" ", StripAll(content)) != []
  {
    forall k | 0 <= k < |content|
      ensures Strip(content[k]) != []
    {
      StripEmptyIffBlank(content[k]);
    }
    FilledIdle(StripAll(content));
    JoinNonEmpty(" ", StripAll(content), 0);
  }

  /** A timing line at the top contributes its cue, then the scan resumes. */
  lemma VttCueStep(lines: seq<string>, seg: Segment, j: nat)
    requires 0 < |lines| && YtTiming(lines[0]).Some?
    requires VttCue(lines, 0) == Some(seg) && NextLine(lines, 0) == j
    ensures VttFrom(lines, 0) == [seg] + VttFrom(lines, j)
  {
  }

  /** A standard WebVTT cue, a timing line `a --> b` over text lines that
      are neither blank nor hold an arrow and a blank line that closes it,
      yields its cue with the times its timestamps spell and its stripped
      lines joined by spaces; the scan resumes right after the blank line. */
  lemma VttReadsStandardCue(a: string, b: string, content: seq<string>, rest: seq<string>)
    requires IsYtStamp(a) && IsYtStamp(b)
    requires content != [] && forall k | 0 <= k < |content| :: !StopsText(content[k])
    requires rest == [] || !IsBlank(rest[0])
    ensures var lines := [a + " --> " + b] + content + [""] + rest;
      VttFrom(lines, 0)
      == [Segment(StampValue(a), StampValue(b), Join(" ", StripAll(content)))] + VttFrom(lines, |content| + 2)
    ensures rest == [] ==>
      VttFrom([a + " --> " + b] + content + [""], 0)
      == [Segment(StampValue(a), StampValue(b), Join(" ", StripAll(content)))]
  {
    var lines := [a + " --> " + b] + content + [""] + rest;
    var e := |content| + 1;
    YtStandardTiming(a, b);
    CueLayout(a + " --> " + b, content, rest);
    CueBounds(lines, content, e);
    CueTextLines(content);
    var seg := Segment(StampValue(a), StampValue(b), Join(" ", StripAll(content)));
    assert CueText(lines, 1) == seg.text;
    VttCueStep(lines, seg, e + 1);
    assert rest == [] ==> lines == [a + " --> " + b] + content + [""] && e + 1 == |lines|;
  }

  lemma BlankEndStep(lines: seq<string>, i: nat)
    requires i < |lines| && IsBlank(lines[i])
    ensures BlankEnd(lines, i) == BlankEnd(lines, i + 1)
  {
  }

  /** One more stripped line of a cue's text, and the text goes on behind it. */
  lemma CueTextStep(lines: seq<string>, i0: nat, i: nat, done: seq<string>)
    requires i0 <= i < |lines| && !StopsText(lines[i]) && done == StripAll(lines[i0..i])
    ensures done + [Strip(lines[i])] == StripAll(lines[i0..i + 1])
    ensures TextEnd(lines, i) == TextEnd(lines, i + 1)
  {
    assert lines[i0..i + 1] == lines[i0..i] + [lines[i]];
  }

  /** Collects the stripped text lines of a cue starting at line `i0`. The
      loop ends at a blank line (one that strips to the empty string) and
      at a line holding `-->`, where the source breaks out of it. */
  method ReadCueText(lines: seq<string>, i0: nat) returns (textLines: seq<string>, i: nat)
    requires i0 <= |lines|
    ensures i == TextEnd(lines, i0)
    ensures textLines == StripAll(lines[i0..i])
  {
    textLines := [];
    i := i0;
    while i < |lines| && !StopsText(lines[i])
      invariant i0 <= i <= |lines|
      invariant TextEnd(lines, i) == TextEnd(lines, i0)
      invariant textLines == StripAll(lines[i0..i])
      decreases |lines| - i
    {
      CueTextStep(lines, i0, i, textLines);
      textLines := textLines + [Strip(lines[i])];
      i := i + 1;
    }
  }

  /** Skips the blank lines at `i0`. */
  method SkipBlank(lines: seq<string>, i0: nat) returns (i: nat)
    requires i0 <= |lines|
    ensures i == BlankEnd(lines, i0)
  {
    i := i0;
    while i < |lines| && Strip(lines[i]) == []
      invariant i0 <= i <= |lines|
      invariant BlankEnd(lines, i) == BlankEnd(lines, i0)
      decreases |lines| - i
    {
      StripEmptyIffBlank(lines[i]);
      BlankEndStep(lines, i);
      i := i + 1;
    }
    if i < |lines| {
      StripEmptyIffBlank(lines[i]);
    }
  }

  /** `ts_to_sec` on the two timestamps of a timing line: it never fails on
      what the timing grammar accepts, and gives the seconds they spell. */
  method ReadTimes(line: string) returns (start: real, end: real)
    requires YtTiming(line).Some?
    ensures var t := YtTiming(line).value;
      IsStamp(t.start) && IsStamp(t.end) && start == StampValue(t.start) && end == StampValue(t.end)
  {
    var t := YtTiming(line).value;
    YtTimingValues(line);
    start := VttTsToSec(t.start).value;
    end := VttTsToSec(t.end).value;
  }

  /** One cue of `_parse_vtt`, from its timing line to where the scan
      resumes: the two timestamps are read by `ts_to_sec`, and the cue is
      appended when it has text. */
  method ScanCue(lines: seq<string>, at: nat, segments: seq<Segment>) returns (segments': seq<Segment>, next: nat)
    requires at < |lines| && YtTiming(lines[at]).Some?
    ensures segments' == segments + CueSeq(VttCue(lines, at)) && next == NextLine(lines, at)
  {
    var start, end := ReadTimes(lines[at]);
    var textLines, i := ReadCueText(lines, at + 1);
    next := SkipBlank(lines, i);
    var text := Join(" ", Filled(textLines));
    if text != [] {
      segments' := segments + [Segment(start, end, text)];
    } else {
      segments' := segments;
    }
  }

  /** A timing line contributes its cue, and the scan goes on behind it. */
  lemma VttFromCue(lines: seq<string>, at: nat, done: seq<Segment>)
    requires at < |lines| && YtTiming(lines[at]).Some?
    ensures done + VttFrom(lines, at) == (done + CueSeq(VttCue(lines, at))) + VttFrom(lines, NextLine(lines, at))
  {
  }

  /** `_parse_vtt` */
  method ParseVtt(content: string) returns (segments: seq<Segment>)
    ensures segments == Vtt(content)
  {
    var lines := SplitLines(content);
    segments := [];
    var i := 0;
    ghost var all := VttFrom(lines, 0);
    while i < |lines|
      invariant 0 <= i <= |lines|
      invariant segments + VttFrom(lines, i) == all
      decreases |lines| - i
    {
      var line := lines[i];
      var m := YtTiming(line);
      if m.None? {
        i := i + 1;
      } else {
        VttFromCue(lines, i, segments);
        segments, i := ScanCue(lines, i, segments);
      }
    }
  }

  // ---------------------------------------------------------------------
  // SubRip: one cue per block.
  // ---------------------------------------------------------------------

  /** `re.match(r"^\d+$", l)`: a cue number line. */
  predicate IsIndexLine(l: string) {
    l != [] && AllDigits(l)
  }

  /** One block: an optional number line, then a timing line that `-->`
      splits into exactly two pieces that `ts_to_sec` reads as `H:M:S`;
      the remaining lines joined by spaces are the text, which must not be
      empty. Any failure skips the block. */
  function SrtCue(lines: seq<string>): (r: Option<Segment>)
    ensures r.Some? ==> r.value.text != []
  {
    if lines == [] then None
    else
      var idx := if IsIndexLine(lines[0]) then 1 else 0;
      if idx >= |lines| || !Contains(lines[idx], "-->") then None
      else TimedCue(StripAll(SplitOn(lines[idx], "-->")), lines[idx + 1..])
  }

  /** The cue of the stripped pieces of a timing line and the lines below it. */
  function TimedCue(parts: seq<string>, rest: seq<string>): (r: Option<Segment>)
    ensures r.Some? ==> r.value.text != []
  {
    if |parts| != 2 then None
    else
      var start := SrtTsToSec(parts[0]);
      var end := SrtTsToSec(parts[1]);
      var text := Strip(Join(" ", rest));
      if start.None? || end.None? || text == [] then None
      else Some(Segment(start.value, end.value, text))
  }

  /** The segments `_parse_srt` appends for `blocks`, in block order. */
  function SrtSegments(blocks: seq<seq<string>>): (r: seq<Segment>)
    ensures |r| <= |blocks|
    ensures forall k | 0 <= k < |r| :: r[k].text != []
  {
    if blocks == [] then [] else SrtSegments(blocks[..|blocks| - 1]) + CueSeq(SrtCue(blocks[|blocks| - 1]))
  }

  /** `_parse_srt` */
  method ParseSrt(content: string) returns (segments: seq<Segment>)
    ensures segments == SrtSegments(Blocks(content))
  {
    var blocks := Blocks(content);
    segments := [];
    for i := 0 to |blocks|
      invariant segments == SrtSegments(blocks[..i])
    {
      assert blocks[..i + 1][..i] == blocks[..i];
      var cue := SrtCue(blocks[i]);
      if cue.Some? {
        segments := segments + [cue.value];
      }
    }
    assert blocks[..|blocks|] == blocks;
  }

  /** A piece with no `-` holds no arrow. */
  predicate NoDash(s: string) {
    forall i | 0 <= i < |s| :: s[i] != '-'
  }

  lemma NoArrow(s: string)
    requires NoDash(s)
    ensures Find(s, "-->") < 0
  {
    forall j | 0 <= j && j + 3 <= |s|
      ensures !OccursAt(s, "-->", j)
    {
      assert s[j..j + 3][0] == s[j] != '-';
      assert "-->"[0] == '-';
    }
  }

  /** A line with one arrow splits into what precedes and what follows it. */
  lemma SplitArrow(x: string, y: string)
    requires NoDash(x) && NoDash(y)
    ensures SplitOn(x + "-->" + y, "-->") == [x, y]
  {
    var s := x + "-->" + y;
    forall j | 0 <= j < |x|
      ensures !OccursAt(s, "-->", j)
    {
      assert s[j] == x[j] != '-';
      if j + 3 <= |s| {
        assert s[j..j + 3][0] == s[j];
        assert "-->"[0] == '-';
      }
    }
    assert s[|x|..|x| + 3] == "-->";
    FindIs(s, "-->", |x|);
    assert s[..|x|] == x && s[|x| + 3..] == y;
    NoArrow(y);
  }

  lemma HourClockNoDash(g: string)
    requires IsHourClock(g)
    ensures NoDash(g)
  {
    var L := |g| - 10;
    forall i | 0 <= i < |g|
      ensures g[i] != '-'
    {
      if i < L { assert IsDigit(g[i]); }
      else if i == L || i == L + 3 || i == L + 6 { }
      else { assert IsDigit(g[i]); }
    }
  }

  lemma DigitIsNoSpace(c: char)
    requires IsDigit(c)
    ensures !IsSpace(c)
  {
  }

  /** Stripping the space a clean piece was padded with on the right. */
  lemma StripRightPad(a: string)
    requires a != [] && !IsSpace(a[0]) && !IsSpace(a[|a| - 1])
    ensures Strip(a + " ") == a
  {
    var x := a + " ";
    assert x[0] == a[0];
    assert LStrip(x) == x;
    assert x[..|a|] == a;
  }

  /** Stripping the space a clean piece was padded with on the left. */
  lemma StripLeftPad(a: string)
    requires a != [] && !IsSpace(a[0]) && !IsSpace(a[|a| - 1])
    ensures Strip(" " + a) == a
  {
    var y := " " + a;
    assert y[1..] == a;
    assert LStrip(y) == a;
  }

  lemma StripPadded(a: string)
    requires IsHourClock(a)
    ensures Strip(a + " ") == a && Strip(" " + a) == a
  {
    DigitIsNoSpace(a[0]);
    DigitIsNoSpace(a[|a| - 1]);
    StripRightPad(a);
    StripLeftPad(a);
  }

  /** The timing line `a --> b` holds the arrow, and splits at it into
      `a` and `b` padded with the spaces around the arrow. */
  lemma ArrowLineSplit(a: string, b: string)
    requires IsHourClock(a) && IsHourClock(b)
    ensures Contains(a + " --> " + b, "-->")
    ensures SplitOn(a + " --> " + b, "-->") == [a + " ", " " + b]
  {
    HourClockNoDash(a);
    HourClockNoDash(b);
    var x, y := a + " ", " " + b;
    assert a + " --> " + b == x + "-->" + y;
    assert NoDash(x) && NoDash(y);
    SplitArrow(x, y);
    assert OccursAt(x + "-->" + y, "-->", |x|);
    ContainsAt(x + "-->" + y, "-->", |x|);
  }

  /** The pieces around the arrow of `a --> b`, stripped, are `a` and `b`. */
  lemma StandardTimingParts(a: string, b: string)
    requires IsHourClock(a) && IsHourClock(b)
    ensures Contains(a + " --> " + b, "-->")
    ensures var parts := StripAll(SplitOn(a + " --> " + b, "-->"));
      |parts| == 2 && parts[0] == a && parts[1] == b
  {
    ArrowLineSplit(a, b);
    StripPadded(a);
    StripPadded(b);
  }

  /** The block parser reads the first line as the timing line of an
      unnumbered block, and the second as that of a numbered one. */
  lemma SrtCueUnnumbered(lines: seq<string>)
    requires lines != [] && !IsIndexLine(lines[0]) && Contains(lines[0], "-->")
    ensures SrtCue(lines) == TimedCue(StripAll(SplitOn(lines[0], "-->")), lines[1..])
  {
  }

  lemma SrtCueNumbered(lines: seq<string>)
    requires |lines| > 1 && IsIndexLine(lines[0]) && Contains(lines[1], "-->")
    ensures SrtCue(lines) == TimedCue(StripAll(SplitOn(lines[1], "-->")), lines[2..])
  {
  }

  /** Two readable stamps and some text make a cue. */
  lemma TimedCueReads(parts: seq<string>, rest: seq<string>)
    requires |parts| == 2
    requires SrtTsToSec(parts[0]).Some? && SrtTsToSec(parts[1]).Some?
    requires Strip(Join(" ", rest)) != []
    ensures TimedCue(parts, rest) == Some(Segment(SrtTsToSec(parts[0]).value, SrtTsToSec(parts[1]).value, Strip(Join(" ", rest))))
  {
  }

  /** What the timing line `a --> b` and its text lines make. */
  predicate IsStandardCue(c: Option<Segment>, a: string, b: string, content: seq<string>)
    requires IsHourClock(a) && IsHourClock(b)
  {
    c.Some? && c.value.start == StampValue(a) && c.value.end == StampValue(b)
    && c.value.text == Strip(Join(" ", content))
  }

  lemma StandardTimedCue(a: string, b: string, content: seq<string>)
    requires IsHourClock(a) && IsHourClock(b)
    requires Strip(Join(" ", content)) != []
    ensures Contains(a + " --> " + b, "-->") && !IsIndexLine(a + " --> " + b)
    ensures IsStandardCue(TimedCue(StripAll(SplitOn(a + " --> " + b, "-->")), content), a, b, content)
  {
    var line := a + " --> " + b;
    assert line[|a|] == ' ';
    StandardTimingParts(a, b);
    var parts := StripAll(SplitOn(line, "-->"));
    HourClockSrt(a);
    HourClockSrt(b);
    assert SrtTsToSec(parts[0]) == SrtTsToSec(a) && SrtTsToSec(parts[1]) == SrtTsToSec(b);
    TimedCueReads(parts, content);
  }

  /** A standard SubRip cue, a timing line `HH:MM:SS,mmm --> HH:MM:SS,mmm`
      over non-blank text, yields its cue with the times its timestamps
      spell. */
  lemma SrtReadsStandardCue(a: string, b: string, content: seq<string>)
    requires IsHourClock(a) && IsHourClock(b)
    requires Strip(Join(" ", content)) != []
    ensures IsStandardCue(SrtCue([a + " --> " + b] + content), a, b, content)
  {
    var lines := [a + " --> " + b] + content;
    StandardTimedCue(a, b, content);
    assert lines[1..] == content;
    SrtCueUnnumbered(lines);
  }

  /** The same cue behind its number line. */
  lemma SrtReadsNumberedCue(n: string, a: string, b: string, content: seq<string>)
    requires IsIndexLine(n)
    requires IsHourClock(a) && IsHourClock(b)
    requires Strip(Join(" ", content)) != []
    ensures IsStandardCue(SrtCue([n, a + " --> " + b] + content), a, b, content)
  {
    var lines := [n, a + " --> " + b] + content;
    StandardTimedCue(a, b, content);
    assert lines[2..] == content;
    SrtCueNumbered(lines);
  }

  // ---------------------------------------------------------------------
  // The `json3` event format.
  // ---------------------------------------------------------------------

  /** What one element of `segs` adds to the text: the `utf8 or ""` of a
      dict (a truthy non-string raises in the join), nothing for any other
      element. */
  function Utf8Piece(seg: Json): (r: Option<string>)
    ensures !seg.JObject? ==> r == Some([])
  {
    if !seg.JObject? then Some([])
    else
      var u := GetTruthy(seg, "utf8", JString([]));
      if u.JString? then Some(u.s) else None
  }

  /** `"".join(...)` over `segs`. */
  function Utf8Text(segs: seq<Json>): Option<string> {
    if segs == [] then Some([])
    else
      var init := Utf8Text(segs[..|segs| - 1]);
      var last := Utf8Piece(segs[|segs| - 1]);
      if init.None? || last.None? then None else Some(init.value + last.value)
  }

  /** One event. It is skipped (`Some([])`) unless it is a dict with
      non-null `tStartMs` and `dDurationMs` and a list of `segs` whose joined
      text, newlines read as spaces and stripped, is not empty; its times
      are `float` of the two fields in milliseconds. */
  function Json3Event(ev: Json): (r: Option<seq<Segment>>)
    ensures r.Some? ==> |r.value| <= 1
    ensures r.Some? && r.value != [] ==> r.value[0].text != []
  {
    if !ev.JObject? || IsNone(Get(ev, "tStartMs")) || IsNone(Get(ev, "dDurationMs")) then Some([])
    else
      var segs := GetTruthy(ev, "segs", JArray([]));
      if !segs.JArray? then Some([])
      else
        var raw := Utf8Text(segs.items);
        if raw.None? then None
        else
          var text := Strip(ReplaceChar(raw.value, '\n', ' '));
          if text == [] then Some([])
          else
            var a := ToFloat(Get(ev, "tStartMs").value);
            var b := ToFloat(Get(ev, "dDurationMs").value);
            if a.None? || b.None? then None
            else Some([Segment(a.value / 1000.0, (a.value + b.value) / 1000.0, text)])
  }

  /** An event without its timing fields, or whose `segs` is no list,
      adds nothing and raises nothing. */
  lemma Json3SkipsUntimed(ev: Json)
    requires ev.JObject?
    requires IsNone(Get(ev, "tStartMs")) || IsNone(Get(ev, "dDurationMs")) || !GetTruthy(ev, "segs", JArray([])).JArray?
    ensures Json3Event(ev) == Some([])
  {
  }

  /** An event segment spans its duration. */
  lemma Json3EventTimes(ev: Json)
    requires Json3Event(ev).Some? && Json3Event(ev).value != []
    ensures ev.JObject? && Get(ev, "tStartMs").Some? && Get(ev, "dDurationMs").Some?
    ensures var s := Json3Event(ev).value[0];
      var a := ToFloat(Get(ev, "tStartMs").value);
      var b := ToFloat(Get(ev, "dDurationMs").value);
      a.Some? && b.Some? && s.start == a.value / 1000.0 && s.end - s.start == b.value / 1000.0
  {
  }

  function Json3Events(evs: seq<Json>): Option<seq<Segment>> {
    if evs == [] then Some([])
    else
      var init := Json3Events(evs[..|evs| - 1]);
      var last := Json3Event(evs[|evs| - 1]);
      if init.None? || last.None? then None else Some(init.value + last.value)
  }

  lemma {:induction false} Json3FailureSticks(evs: seq<Json>, j: nat)
    requires j <= |evs|
    requires Json3Events(evs[..j]).None?
    ensures Json3Events(evs).None?
    decreases |evs| - j
  {
    if j < |evs| {
      assert evs[..j + 1][..j] == evs[..j];
      Json3FailureSticks(evs, j + 1);
    } else {
      assert evs[..j] == evs;
    }
  }

  /** At most one segment per event, each with text. */
  lemma {:induction false} Json3EventsHaveText(evs: seq<Json>)
    requires Json3Events(evs).Some?
    ensures |Json3Events(evs).value| <= |evs|
    ensures forall k | 0 <= k < |Json3Events(evs).value| :: Json3Events(evs).value[k].text != []
  {
    if evs != [] {
      var init := Json3Events(evs[..|evs| - 1]);
      var last := Json3Event(evs[|evs| - 1]);
      assert Json3Events(evs) == Some(init.value + last.value);
      Json3EventsHaveText(evs[..|evs| - 1]);
      var r := init.value + last.value;
      forall k | 0 <= k < |r|
        ensures r[k].text != []
      {
        if k < |init.value| {
          assert r[k] == init.value[k];
        } else {
          assert |last.value| == 1 && k == |init.value|;
          assert r[k] == last.value[0];
        }
      }
    }
  }

  /** `_parse_json3`: text that does not decode gives no segments; a
      decoded document must be an object whose `events or []` is iterable. */
  function Json3(content: string, decode: string -> Option<Json>): Option<seq<Segment>> {
    match decode(content)
    case None => Some([])
    case Some(data) =>
      if !data.JObject? then None
      else
        var elems := Elements(GetTruthy(data, "events", JArray([])));
        if elems.None? then None else Json3Events(elems.value)
  }

  method ParseJson3(content: string, decode: string -> Option<Json>) returns (r: Option<seq<Segment>>)
    ensures r == Json3(content, decode)
  {
    var parsed := decode(content);
    if parsed.None? {
      return Some([]);
    }
    var data := parsed.value;
    if !data.JObject? {
      return None;
    }
    var elems := Elements(GetTruthy(data, "events", JArray([])));
    if elems.None? {
      return None;
    }
    r := CollectEvents(elems.value);
  }

  /** The loop over the events. */
  method CollectEvents(evs: seq<Json>) returns (r: Option<seq<Segment>>)
    ensures r == Json3Events(evs)
  {
    var segments := [];
    for i := 0 to |evs|
      invariant Json3Events(evs[..i]) == Some(segments)
    {
      assert evs[..i + 1][..i] == evs[..i];
      var found := Json3Event(evs[i]);
      if found.None? {
        Json3FailureSticks(evs, i + 1);
        return None;
      }
      segments := segments + found.value;
    }
    assert evs[..|evs|] == evs;
    return Some(segments);
  }

  // ---------------------------------------------------------------------
  // Choosing the parser.
  // ---------------------------------------------------------------------

  /** The parser for a downloaded track of format `fmt`: WebVTT when the
      format says so or the text starts with `WEBVTT`, else SubRip when the
      format says so or the text holds an arrow, else `json3` and, when that
      finds nothing, `srv3`. */
  function Segments(fmt: string, text: string, decode: string -> Option<Json>, srv3: string -> seq<Segment>): (r: Option<seq<Segment>>)
    ensures (fmt == "vtt" || StartsWith(LStrip(text), "WEBVTT")) ==> r == Some(Vtt(text))
    ensures !(fmt == "vtt" || StartsWith(LStrip(text), "WEBVTT")) && (fmt == "srt" || Contains(text, "-->"))
      ==> r == Some(SrtSegments(Blocks(text)))
  {
    if fmt == "vtt" || StartsWith(LStrip(text), "WEBVTT") then Some(Vtt(text))
    else if fmt == "srt" || Contains(text, "-->") then Some(SrtSegments(Blocks(text)))
    else JsonFallback(text, decode, srv3)
  }

  /** The last resort: `json3`, and `srv3` when `json3` finds nothing. */
  function JsonFallback(text: string, decode: string -> Option<Json>, srv3: string -> seq<Segment>): Option<seq<Segment>> {
    var j := Json3(text, decode);
    if j.None? then None
    else if j.value != [] then j
    else Some(srv3(text))
  }

  /** The `json3` reading wins whenever it finds a segment; `srv3` is
      consulted only when it finds none. */
  lemma Json3BeforeSrv3(fmt: string, text: string, decode: string -> Option<Json>, srv3: string -> seq<Segment>)
    requires fmt != "vtt" && !StartsWith(LStrip(text), "WEBVTT") && fmt != "srt" && !Contains(text, "-->")
    ensures Json3(text, decode).Some? && Json3(text, decode).value != [] ==> Segments(fmt, text, decode, srv3) == Json3(text, decode)
    ensures Json3(text, decode) == Some([]) ==> Segments(fmt, text, decode, srv3) == Some(srv3(text))
    ensures Json3(text, decode).None? ==> Segments(fmt, text, decode, srv3).None?
  {
  }

  /** The parsing step of the fallback, by the same dispatch. */
  method ReadSegments(fmt: string, text: string, decode: string -> Option<Json>, srv3: string -> seq<Segment>)
    returns (r: Option<seq<Segment>>)
    ensures r == Segments(fmt, text, decode, srv3)
  {
    if fmt == "vtt" || StartsWith(LStrip(text), "WEBVTT") {
      var segs := ParseVtt(text);
      return Some(segs);
    } else if fmt == "srt" || Contains(text, "-->") {
      var segs := ParseSrt(text);
      return Some(segs);
    }
    r := ReadJsonFallback(text, decode, srv3);
  }

  /** `json3`, then `srv3` when `json3` finds nothing. */
  method ReadJsonFallback(text: string, decode: string -> Option<Json>, srv3: string -> seq<Segment>)
    returns (r: Option<seq<Segment>>)
    ensures r == JsonFallback(text, decode, srv3)
  {
    r := ParseJson3(text, decode);
    if r.Some? && r.value == [] {
      r := Some(srv3(text));
    }
  }
}
