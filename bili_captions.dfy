/** The Bilibili caption parsers: WebVTT and SubRip text split into blocks,
    the `json` body format and the `json3` event format. A `None` result
    stands for an exception raised while reading the document. */
module BilibiliCaptions {
  import opened Wrappers
  import opened Text
  import opened Seqs
  import opened Models
  import opened Captions
  import opened JsonValues

  // ---------------------------------------------------------------------
  // WebVTT and SubRip.
  // ---------------------------------------------------------------------

  /** The cue of a timing line and its content lines: the timing line must
      match the timing grammar, its two timestamps are read by
      `_parse_timecode`, and the content joined by spaces must not be empty. */
  function CueFrom(timing: string, content: seq<string>): (r: Option<Segment>)
    ensures r.Some? ==> r.value.text != [] && BiliTiming(timing).Some?
  {
    match BiliTiming(timing)
    case None => None
    case Some(t) =>
      var text := Strip(Join(" ", content));
      if text == [] then None else Some(Segment(ParseTimecode(t.start), ParseTimecode(t.end), text))
  }

  /** `_parse_vtt` on one block: the timing line is the first line holding
      `-->`, provided it is the first or the second line. */
  function VttCue(lines: seq<string>): Option<Segment> {
    if lines == [] then None
    else if Contains(lines[0], "-->") then CueFrom(lines[0], lines[1..])
    else if |lines| > 1 && Contains(lines[1], "-->") then CueFrom(lines[1], lines[2..])
    else None
  }

  /** `_parse_srt` on one block: at least two lines; the timing line is the
      first line if it holds `-->`, else the second. */
  function SrtCue(lines: seq<string>): Option<Segment> {
    if |lines| < 2 then None
    else
      var idx := if Contains(lines[0], "-->") then 0 else 1;
      CueFrom(lines[idx], lines[idx + 1..])
  }

  /** The two block parsers agree on every block: a one-line block has no
      content, and a second line without `-->` is no timing line. */
  lemma ParsersAgreeOnBlock(lines: seq<string>)
    ensures SrtCue(lines) == VttCue(lines)
  {
    if |lines| == 1 && Contains(lines[0], "-->") {
      assert Strip(Join(" ", lines[1..])) == [];
    } else if |lines| >= 2 && !Contains(lines[0], "-->") && !Contains(lines[1], "-->") {
      TimingHasArrow(lines[1]);
    }
  }

  /** A cue's times are the values its two timestamps spell, never the
      `0.0` that `_parse_timecode` falls back to on a conversion error. */
  lemma CueTimes(timing: string, content: seq<string>)
    requires CueFrom(timing, content).Some?
    ensures var t := BiliTiming(timing).value;
      IsStamp(t.start) && IsStamp(t.end)
      && CueFrom(timing, content).value.start == StampValue(t.start)
      && CueFrom(timing, content).value.end == StampValue(t.end)
  {
    BiliTimingValues(timing);
  }

  function CueSeq(o: Option<Segment>): seq<Segment> {
    if o.Some? then [o.value] else []
  }

  /** The segments `_parse_vtt` appends for `blocks`, in block order. */
  function VttSegments(blocks: seq<seq<string>>): seq<Segment> {
    if blocks == [] then [] else VttSegments(blocks[..|blocks| - 1]) + CueSeq(VttCue(blocks[|blocks| - 1]))
  }

  function SrtSegments(blocks: seq<seq<string>>): seq<Segment> {
    if blocks == [] then [] else SrtSegments(blocks[..|blocks| - 1]) + CueSeq(SrtCue(blocks[|blocks| - 1]))
  }

  /** `_parse_vtt` and `_parse_srt` return the same segments for every text,
      so the SubRip retry after an empty WebVTT result never finds any. */
  lemma {:induction false} ParsersAgree(blocks: seq<seq<string>>)
    ensures SrtSegments(blocks) == VttSegments(blocks)
  {
    if blocks != [] {
      ParsersAgree(blocks[..|blocks| - 1]);
      ParsersAgreeOnBlock(blocks[|blocks| - 1]);
    }
  }

  /** At most one segment per block, each with text. */
  lemma {:induction false} VttSegmentsShape(blocks: seq<seq<string>>)
    ensures |VttSegments(blocks)| <= |blocks|
    ensures forall k | 0 <= k < |VttSegments(blocks)| :: VttSegments(blocks)[k].text != []
  {
    if blocks != [] {
      VttSegmentsShape(blocks[..|blocks| - 1]);
    }
  }

  /** `_parse_vtt`: one cue per block that yields one. */
  method ParseVtt(text: string) returns (segments: seq<Segment>)
    ensures segments == VttSegments(Blocks(text))
  {
    var blocks := Blocks(text);
    segments := [];
    for i := 0 to |blocks|
      invariant segments == VttSegments(blocks[..i])
    {
      assert blocks[..i + 1][..i] == blocks[..i];
      var cue := VttCue(blocks[i]);
      if cue.Some? {
        segments := segments + [cue.value];
      }
    }
    assert blocks[..|blocks|] == blocks;
  }

  /** `_parse_srt` */
  method ParseSrt(text: string) returns (segments: seq<Segment>)
    ensures segments == SrtSegments(Blocks(text))
  {
    var blocks := Blocks(text);
    segments := [];
    for i := 0 to |blocks|
      invariant segments == SrtSegments(blocks[..i])
    {
      assert blocks[..i + 1][..i] == blocks[..i];
      var cue := SrtCue(blocks[i]);
      if cue.Some? {
        segments := segments + [cue.value];
      }
    }
    assert blocks[..|blocks|] == blocks;
  }

  // ---------------------------------------------------------------------
  // The `json` body format.
  // ---------------------------------------------------------------------

  /** One `body` item: `float(from)` (default 0), `float(to)` (default
      `from`), and the stripped `content` or the empty string. */
  function BodyItem(item: Json): (r: Option<Segment>)
    ensures !item.JObject? ==> r.None?
  {
    if !item.JObject? then None
    else
      var from := GetOr(item, "from", JNumber(0.0));
      var start := ToFloat(from);
      var end := ToFloat(GetOr(item, "to", from));
      var content := GetTruthy(item, "content", JString(""));
      if start.None? || end.None? || !content.JString? then None
      else Some(Segment(start.value, end.value, Strip(content.s)))
  }

  /** An item without `to` ends where it starts; one without `from` either
      spans the instant 0; a missing or empty `content` gives empty text. */
  lemma BodyItemDefaults(item: Json)
    requires item.JObject? && BodyItem(item).Some?
    ensures Get(item, "to").None? ==> BodyItem(item).value.end == BodyItem(item).value.start
    ensures Get(item, "to").None? && Get(item, "from").None? ==> BodyItem(item).value.start == 0.0 && BodyItem(item).value.end == 0.0
    ensures (Get(item, "content").None? || !Truthy(Get(item, "content").value)) ==> BodyItem(item).value.text == []
  {
  }

  /** The segments of the items of `body`, one per item; any bad item raises. */
  function BodySegments(items: seq<Json>): (r: Option<seq<Segment>>)
    ensures r.Some? ==> |r.value| == |items|
  {
    if items == [] then Some([])
    else
      var init := BodySegments(items[..|items| - 1]);
      var last := BodyItem(items[|items| - 1]);
      if init.None? || last.None? then None else Some(init.value + [last.value])
  }

  /** A bad item anywhere fails the whole body. */
  lemma {:induction false} BodyFailureSticks(items: seq<Json>, j: nat)
    requires j <= |items|
    requires BodySegments(items[..j]).None?
    ensures BodySegments(items).None?
    decreases |items| - j
  {
    if j < |items| {
      assert items[..j + 1][..j] == items[..j];
      BodyFailureSticks(items, j + 1);
    } else {
      assert items[..j] == items;
    }
  }

  /** `data.get('body', [])` iterated: the document must be an object and
      its body iterable. */
  function JsonBody(data: Json): Option<seq<Segment>> {
    if !data.JObject? then None
    else
      var elems := Elements(GetOr(data, "body", JArray([])));
      if elems.None? then None else BodySegments(elems.value)
  }

  /** The `json` branch: one segment per body item, even when its text is
      empty. */
  method ParseJsonBody(data: Json) returns (r: Option<seq<Segment>>)
    ensures r == JsonBody(data)
  {
    if !data.JObject? {
      return None;
    }
    var elems := Elements(GetOr(data, "body", JArray([])));
    if elems.None? {
      return None;
    }
    var items := elems.value;
    var segments := [];
    for i := 0 to |items|
      invariant BodySegments(items[..i]) == Some(segments)
    {
      assert items[..i + 1][..i] == items[..i];
      var seg := BodyItem(items[i]);
      if seg.None? {
        BodyFailureSticks(items, i + 1);
        return None;
      }
      segments := segments + [seg.value];
    }
    assert items[..|items|] == items;
    return Some(segments);
  }

  // ---------------------------------------------------------------------
  // The `json3` event format.
  // ---------------------------------------------------------------------

  /** What one element of `segs` adds to the texts: the stripped `utf8` of a
      dict whose `utf8` is truthy (it must then be a string), else nothing. */
  function SegText(seg: Json): (r: Option<seq<string>>)
    ensures r.Some? ==> |r.value| <= 1
  {
    if seg.JObject? && Get(seg, "utf8").Some? && Truthy(Get(seg, "utf8").value) then
      var u := Get(seg, "utf8").value;
      if u.JString? then Some([Strip(u.s)]) else None
    else Some([])
  }

  function SegTexts(segs: seq<Json>): Option<seq<string>> {
    if segs == [] then Some([])
    else
      var init := SegTexts(segs[..|segs| - 1]);
      var last := SegText(segs[|segs| - 1]);
      if init.None? || last.None? then None else Some(init.value + last.value)
  }

  lemma {:induction false} SegTextsFailureSticks(segs: seq<Json>, j: nat)
    requires j <= |segs|
    requires SegTexts(segs[..j]).None?
    ensures SegTexts(segs).None?
    decreases |segs| - j
  {
    if j < |segs| {
      assert segs[..j + 1][..j] == segs[..j];
      SegTextsFailureSticks(segs, j + 1);
    } else {
      assert segs[..j] == segs;
    }
  }

  /** The segment of an event with non-empty text, from `tStartMs` and
      `dDurationMs` (both default 0) in milliseconds. */
  function EventSegment(ev: Json, texts: seq<string>): (r: Option<seq<Segment>>)
    requires ev.JObject?
    ensures r.Some? ==> |r.value| <= 1
    ensures r.Some? && r.value != [] ==> r.value[0].text != []
  {
    var text := Strip(Join(" ", texts));
    if text == [] then Some([])
    else
      var a := Arith(GetOr(ev, "tStartMs", JNumber(0.0)));
      var b := Arith(GetOr(ev, "dDurationMs", JNumber(0.0)));
      if a.None? || b.None? then None
      else Some([Segment(a.value / 1000.0, (a.value + b.value) / 1000.0, text)])
  }

  /** One event: it must be a dict whose `segs or []` is iterable. */
  function Json3Event(ev: Json): (r: Option<seq<Segment>>)
    ensures r.Some? ==> |r.value| <= 1
    ensures r.Some? && r.value != [] ==> r.value[0].text != []
  {
    if !ev.JObject? then None
    else
      var segs := Elements(GetTruthy(ev, "segs", JArray([])));
      if segs.None? then None
      else
        var texts := SegTexts(segs.value);
        if texts.None? then None else EventSegment(ev, texts.value)
  }

  /** An event segment spans its duration: it starts at `tStartMs / 1000`
      and lasts `dDurationMs / 1000` seconds. */
  lemma EventTimes(ev: Json, texts: seq<string>)
    requires ev.JObject? && EventSegment(ev, texts).Some? && EventSegment(ev, texts).value != []
    ensures var s := EventSegment(ev, texts).value[0];
      Arith(GetOr(ev, "tStartMs", JNumber(0.0))).Some? && Arith(GetOr(ev, "dDurationMs", JNumber(0.0))).Some?
      && s.start == Arith(GetOr(ev, "tStartMs", JNumber(0.0))).value / 1000.0
      && s.end - s.start == Arith(GetOr(ev, "dDurationMs", JNumber(0.0))).value / 1000.0
  {
  }

  function Json3Events(evs: seq<Json>): Option<seq<Segment>> {
    if evs == [] then Some([])
    else
      var init := Json3Events(evs[..|evs| - 1]);
      var last := Json3Event(evs[|evs| - 1]);
      if init.None? || last.None? then None else Some(init.value + last.value)
  }

  lemma {:induction false} Json3FailureSticks(evs: seq<Json>, j: nat)
    requires j <= |evs|
    requires Json3Events(evs[..j]).None?
    ensures Json3Events(evs).None?
    decreases |evs| - j
  {
    if j < |evs| {
      assert evs[..j + 1][..j] == evs[..j];
      Json3FailureSticks(evs, j + 1);
    } else {
      assert evs[..j] == evs;
    }
  }

  /** Events with empty text are dropped: every segment has text. */
  lemma {:induction false} Json3EventsHaveText(evs: seq<Json>)
    requires Json3Events(evs).Some?
    ensures |Json3Events(evs).value| <= |evs|
    ensures forall k | 0 <= k < |Json3Events(evs).value| :: Json3Events(evs).value[k].text != []
  {
    if evs != [] {
      Json3EventsHaveText(evs[..|evs| - 1]);
      var ev := evs[|evs| - 1];
      var segs := Elements(GetTruthy(ev, "segs", JArray([])));
      var texts := SegTexts(segs.value);
      assert Json3Event(ev) == EventSegment(ev, texts.value);
    }
  }

  /** `data.get('events') or []` iterated. */
  function Json3(data: Json): Option<seq<Segment>> {
    if !data.JObject? then None
    else
      var elems := Elements(GetTruthy(data, "events", JArray([])));
      if elems.None? then None else Json3Events(elems.value)
  }

  /** The inner loop over one event's `segs`. */
  method CollectSegTexts(segs: seq<Json>) returns (r: Option<seq<string>>)
    ensures r == SegTexts(segs)
  {
    var texts := [];
    for i := 0 to |segs|
      invariant SegTexts(segs[..i]) == Some(texts)
    {
      assert segs[..i + 1][..i] == segs[..i];
      var piece := SegText(segs[i]);
      if piece.None? {
        SegTextsFailureSticks(segs, i + 1);
        return None;
      }
      texts := texts + piece.value;
    }
    assert segs[..|segs|] == segs;
    return Some(texts);
  }

  /** One event of the `json3` branch. */
  method ReadEvent(ev: Json) returns (found: Option<seq<Segment>>)
    ensures found == Json3Event(ev)
  {
    if !ev.JObject? {
      return None;
    }
    var segs := Elements(GetTruthy(ev, "segs", JArray([])));
    if segs.None? {
      return None;
    }
    var texts := CollectSegTexts(segs.value);
    if texts.None? {
      return None;
    }
    found := EventSegment(ev, texts.value);
  }

  /** The `json3` branch. */
  method ParseJson3(data: Json) returns (r: Option<seq<Segment>>)
    ensures r == Json3(data)
  {
    if !data.JObject? {
      return None;
    }
    var elems := Elements(GetTruthy(data, "events", JArray([])));
    if elems.None? {
      return None;
    }
    var evs := elems.value;
    var segments := [];
    for i := 0 to |evs|
      invariant Json3Events(evs[..i]) == Some(segments)
    {
      assert evs[..i + 1][..i] == evs[..i];
      var found := ReadEvent(evs[i]);
      if found.None? {
        Json3FailureSticks(evs, i + 1);
        return None;
      }
      segments := segments + found.value;
    }
    assert evs[..|evs|] == evs;
    return Some(segments);
  }
}
