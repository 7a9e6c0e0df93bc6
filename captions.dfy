/** What the caption parsers of both providers share: the blank-line block
    structure of a caption file, the two timing-line grammars (recognised
    here by hand, leftmost match first, as a regular-expression search
    would) and the readings of a timestamp as seconds. */
module Captions {
  import opened Wrappers
  import opened Text

  // ---------------------------------------------------------------------
  // Blocks: `re.split(r"\n\s*\n", text.strip())`, then per block
  // `[l.strip() for l in block.splitlines() if l.strip()]`.
  // ---------------------------------------------------------------------

  /** Number of leading non-blank lines. */
  function RunLength(lines: seq<string>): (n: nat)
    ensures n <= |lines|
    ensures forall i | 0 <= i < n :: !IsBlank(lines[i])
    ensures n == |lines| || IsBlank(lines[n])
  {
    if lines == [] || IsBlank(lines[0]) then 0 else 1 + RunLength(lines[1..])
  }

  /** The maximal runs of non-blank lines: the pieces between separators
      made of one or more blank lines. */
  function Runs(lines: seq<string>): (r: seq<seq<string>>)
    ensures forall k | 0 <= k < |r| :: r[k] != []
    decreases |lines|
  {
    if lines == [] then []
    else if IsBlank(lines[0]) then Runs(lines[1..])
    else
      var n := RunLength(lines);
      [lines[..n]] + Runs(lines[n..])
  }

  /** A line as the parsers see it: stripped and not empty. */
  predicate IsCleanLine(l: string) {
    l != [] && !IsSpace(l[0]) && !IsSpace(l[|l| - 1])
  }

  /** The stripped non-blank pieces among `ps`, in order. */
  function CleanPieces(ps: seq<string>): (r: seq<string>)
    ensures forall k | 0 <= k < |r| :: IsCleanLine(r[k])
  {
    if ps == [] then []
    else
      var head := if IsBlank(ps[0]) then [] else [Strip(ps[0])];
      StripEmptyIffBlank(ps[0]);
      head + CleanPieces(ps[1..])
  }

  /** The lines of one block: each `\n`-line may still hold `\r` breaks. */
  function BlockLines(run: seq<string>): (r: seq<string>)
    ensures forall k | 0 <= k < |r| :: IsCleanLine(r[k])
  {
    if run == [] then [] else CleanPieces(SplitOn(run[0], "\r")) + BlockLines(run[1..])
  }

  /** The blocks of a caption file, each as its list of clean lines. */
  function Blocks(text: string): (r: seq<seq<string>>)
    ensures forall k, i | 0 <= k < |r| && 0 <= i < |r[k]| :: IsCleanLine(r[k][i])
  {
    var runs := Runs(SplitOn(text, "\n"));
    seq(|runs|, k requires 0 <= k < |runs| => BlockLines(runs[k]))
  }

  // ---------------------------------------------------------------------
  // Character runs and fixed-width fields.
  // ---------------------------------------------------------------------

  function DigitRun(s: string, i: nat): (n: nat)
    requires i <= |s|
    ensures i + n <= |s|
    ensures forall k | i <= k < i + n :: IsDigit(s[k])
    ensures i + n == |s| || !IsDigit(s[i + n])
    decreases |s| - i
  {
    if i == |s| || !IsDigit(s[i]) then 0 else 1 + DigitRun(s, i + 1)
  }

  function SpaceRun(s: string, i: nat): (n: nat)
    requires i <= |s|
    ensures i + n <= |s|
    ensures forall k | i <= k < i + n :: IsSpace(s[k])
    ensures i + n == |s| || !IsSpace(s[i + n])
    decreases |s| - i
  {
    if i == |s| || !IsSpace(s[i]) then 0 else 1 + SpaceRun(s, i + 1)
  }

  predicate DigitsAt(s: string, i: nat, n: nat) {
    i + n <= |s| && forall k | i <= k < i + n :: IsDigit(s[k])
  }

  predicate CharAt(s: string, i: nat, c: char) {
    i < |s| && s[i] == c
  }

  /** `[\.,]` */
  predicate FracSepAt(s: string, i: nat) {
    i < |s| && (s[i] == '.' || s[i] == ',')
  }

  // ---------------------------------------------------------------------
  // Timestamp shapes and their values.
  // ---------------------------------------------------------------------

  /** `MM:SS.mmm` (or with `,`): exactly nine characters. */
  predicate IsClock(g: string) {
    |g| == 9 && DigitsAt(g, 0, 2) && g[2] == ':' && DigitsAt(g, 3, 2) && FracSepAt(g, 5) && DigitsAt(g, 6, 3)
  }

  /** `H:MM:SS.mmm` with one or more hour digits. */
  predicate IsHourClock(g: string) {
    |g| >= 11 && DigitsAt(g, 0, |g| - 10) && g[|g| - 10] == ':' && DigitsAt(g, |g| - 9, 2)
    && g[|g| - 7] == ':' && DigitsAt(g, |g| - 6, 2) && FracSepAt(g, |g| - 4) && DigitsAt(g, |g| - 3, 3)
  }

  predicate IsStamp(g: string) {
    IsClock(g) || IsHourClock(g)
  }

  /** The fields of `MM:SS.mmm`: minutes and seconds. */
  function ClockMinutes(g: string): nat
    requires IsClock(g)
  {
    DigitsValue(g[..2])
  }

  function ClockSeconds(g: string): real
    requires IsClock(g)
  {
    DecimalValue(g[3..5], g[6..])
  }

  /** The fields of `H:MM:SS.mmm`: hours, minutes and seconds. */
  function HourClockHours(g: string): nat
    requires IsHourClock(g)
  {
    DigitsValue(g[..|g| - 10])
  }

  function HourClockMinutes(g: string): nat
    requires IsHourClock(g)
  {
    DigitsValue(g[|g| - 9..|g| - 7])
  }

  function HourClockSeconds(g: string): real
    requires IsHourClock(g)
  {
    DecimalValue(g[|g| - 6..|g| - 4], g[|g| - 3..])
  }

  /** The number of seconds a timestamp spells. */
  function StampValue(g: string): real
    requires IsStamp(g)
  {
    if IsHourClock(g) then (HourClockHours(g) * 3600 + HourClockMinutes(g) * 60) as real + HourClockSeconds(g)
    else (ClockMinutes(g) * 60) as real + ClockSeconds(g)
  }

  /** The pieces of a timestamp between its colons, once `,` is read as `.`. */
  function ColonPieces(t: string): (r: seq<string>)
    ensures |r| >= 1
  {
    SplitOn(ReplaceChar(t, ',', '.'), ":")
  }

  /** The Bilibili `_parse_timecode`: `,` read as `.`, split at `:`, each
      part stripped; three parts are hours, minutes, seconds, two are
      minutes and seconds, one is seconds; any failed conversion gives 0.
      Wherever a YouTube reading of the same stamp succeeds, this one
      gives the same seconds. */
  function ParseTimecode(t: string): (r: real)
    ensures SrtTsToSec(t).Some? ==> r == SrtTsToSec(t).value
    ensures VttTsToSec(t).Some? ==> r == VttTsToSec(t).value
  {
    var p := ColonPieces(t);
    if |p| == 2 || |p| == 3 then
      ParseStripped(p[0]);
      ParseStripped(p[1]);
      ParseStripped(p[|p| - 1]);
      TimecodeOfParts(StripAll(p))
    else
      TimecodeOfParts(StripAll(p))
  }

  function TimecodeOfParts(parts: seq<string>): real
    requires |parts| >= 1
  {
    if |parts| == 3 then HoursMinutesSeconds(ParseInt(parts[0]), ParseInt(parts[1]), ParseFloat(parts[2])).GetOr(0.0)
    else if |parts| == 2 then MinutesSeconds(ParseInt(parts[0]), ParseFloat(parts[1])).GetOr(0.0)
    else ParseFloat(parts[|parts| - 1]).GetOr(0.0)
  }

  /** Hours, minutes and seconds as seconds; a failed conversion fails the whole. */
  function HoursMinutesSeconds(h: Option<int>, m: Option<int>, s: Option<real>): (r: Option<real>)
    ensures r.Some? <==> h.Some? && m.Some? && s.Some?
    ensures r.Some? ==> r.value == (h.value * 3600 + m.value * 60) as real + s.value
  {
    if h.Some? && m.Some? && s.Some? then Some((h.value * 3600 + m.value * 60) as real + s.value) else None
  }

  function MinutesSeconds(m: Option<int>, s: Option<real>): (r: Option<real>)
    ensures r.Some? <==> m.Some? && s.Some?
    ensures r.Some? ==> r.value == (m.value * 60) as real + s.value
  {
    if m.Some? && s.Some? then Some((m.value * 60) as real + s.value) else None
  }

  /** The `ts_to_sec` of the YouTube WebVTT parser: two parts mean hour 0;
      otherwise exactly three parts are required (anything else raises). */
  function VttTsToSec(ts: string): (r: Option<real>)
    ensures r.Some? ==> |ColonPieces(ts)| == 2 || |ColonPieces(ts)| == 3
  {
    VttOfParts(ColonPieces(ts))
  }

  /** The WebVTT reading reads every stamp the SubRip reading reads, the
      same way. */
  lemma VttAgreesWithSrt(ts: string)
    requires SrtTsToSec(ts).Some?
    ensures VttTsToSec(ts) == SrtTsToSec(ts)
  {
  }

  function VttOfParts(parts: seq<string>): Option<real> {
    if |parts| == 2 then MinutesSeconds(ParseInt(parts[0]), ParseFloat(parts[1]))
    else SrtOfParts(parts)
  }

  /** The `ts_to_sec` of the YouTube SubRip parser: only a stamp of
      exactly three parts is read. */
  function SrtTsToSec(ts: string): (r: Option<real>)
    ensures r.Some? ==> |ColonPieces(ts)| == 3
  {
    SrtOfParts(ColonPieces(ts))
  }

  function SrtOfParts(parts: seq<string>): Option<real> {
    if |parts| == 3 then HoursMinutesSeconds(ParseInt(parts[0]), ParseInt(parts[1]), ParseFloat(parts[2]))
    else None
  }

  /** `[p.strip() for p in parts]` */
  function StripAll(parts: seq<string>): (r: seq<string>)
    ensures |r| == |parts|
    ensures forall k | 0 <= k < |r| :: r[k] == Strip(parts[k])
  {
    seq(|parts|, k requires 0 <= k < |parts| => Strip(parts[k]))
  }

  /** `int` reads `p` as `v`, stripped or not. */
  predicate IntReading(p: string, v: int) {
    ParseInt(p) == Some(v) && ParseInt(Strip(p)) == Some(v)
  }

  /** `float` reads `p` as `v`, stripped or not. */
  predicate FloatReading(p: string, v: real) {
    ParseFloat(p) == Some(v) && ParseFloat(Strip(p)) == Some(v)
  }

  lemma DigitsPiece(d: string)
    requires d != [] && AllDigits(d)
    ensures ParseInt(d) == Some(DigitsValue(d) as int)
    ensures ParseInt(Strip(d)) == Some(DigitsValue(d) as int)
  {
    ParseIntDigits(d);
    StripDigitsEnds(d);
  }

  /** The seconds field `SS<sep>mmm` once `,` is read as `.`. */
  lemma SecondsPiece(r: string, g: string, a: nat)
    requires a + 6 == |g| && |r| == 6 && DigitsAt(g, a, 2) && FracSepAt(g, a + 2) && DigitsAt(g, a + 3, 3)
    requires forall k | 0 <= k < 6 :: r[k] == (if g[a + k] == ',' then '.' else g[a + k])
    ensures ParseFloat(r) == Some(DecimalValue(g[a..a + 2], g[a + 3..]))
    ensures ParseFloat(Strip(r)) == Some(DecimalValue(g[a..a + 2], g[a + 3..]))
  {
    var ss, ms := g[a..a + 2], g[a + 3..];
    assert r == ss + "." + ms;
    ParseFloatDecimal(ss, ms);
    assert r[0] == ss[0] && r[5] == ms[2];
    StripDigitsEnds(r);
  }

  /** `g2` is `g` with `,` read as `.`. */
  predicate CommaAsDot(g: string, g2: string) {
    |g2| == |g| && forall k | 0 <= k < |g| :: g2[k] == (if g[k] == ',' then '.' else g[k])
  }

  lemma HourClockSplit(g: string, g2: string)
    requires IsHourClock(g) && CommaAsDot(g, g2)
    ensures var L := |g| - 10;
      SplitOn(g2, ":") == [g[..L], g[L + 1..L + 3], g2[L + 4..]]
  {
    var L := |g| - 10;
    assert forall i | 0 <= i < |g2| && i != L && i != L + 3 :: g2[i] != ':' by {
      forall i | 0 <= i < |g2| && i != L && i != L + 3 ensures g2[i] != ':' {
        if i < L { assert IsDigit(g[i]); }
        else if i < L + 3 { assert IsDigit(g[i]); }
        else if i < L + 6 { assert IsDigit(g[i]); }
        else if i == L + 6 { }
        else { assert IsDigit(g[i]); }
      }
    }
    SplitOnTwoChars(g2, ':', L, L + 3);
    assert g2[..L] == g[..L] by {
      assert forall i | 0 <= i < L :: IsDigit(g[i]);
    }
    assert g2[L + 1..L + 3] == g[L + 1..L + 3];
  }

  lemma ClockSplit(g: string, g2: string)
    requires IsClock(g) && CommaAsDot(g, g2)
    ensures SplitOn(g2, ":") == [g[..2], g2[3..]]
  {
    assert forall i | 0 <= i < |g2| && i != 2 :: g2[i] != ':' by {
      forall i | 0 <= i < |g2| && i != 2 ensures g2[i] != ':' {
        if i != 5 { assert IsDigit(g[i]); }
      }
    }
    SplitOnOneChar(g2, ':', 2);
    assert g2[..2] == g[..2];
  }

  lemma HourSecondsReading(g: string, g2: string)
    requires IsHourClock(g) && CommaAsDot(g, g2)
    ensures FloatReading(g2[|g| - 6..], HourClockSeconds(g))
  {
    var a := |g| - 6;
    var r := g2[a..];
    assert forall k | 0 <= k < 6 :: r[k] == (if g[a + k] == ',' then '.' else g[a + k]) by {
      forall k | 0 <= k < 6 ensures r[k] == (if g[a + k] == ',' then '.' else g[a + k]) {
        assert r[k] == g2[a + k];
      }
    }
    assert DigitsAt(g, a, 2) && FracSepAt(g, a + 2) && DigitsAt(g, a + 3, 3);
    SecondsPiece(r, g, a);
  }

  lemma HourClockParts(g: string, g2: string)
    requires IsHourClock(g) && CommaAsDot(g, g2)
    ensures var parts := SplitOn(g2, ":");
      |parts| == 3 && IntReading(parts[0], HourClockHours(g)) && IntReading(parts[1], HourClockMinutes(g))
      && FloatReading(parts[2], HourClockSeconds(g))
  {
    HourClockHoursPiece(g, g2);
    HourClockMinutesPiece(g, g2);
    HourClockSecondsPiece(g, g2);
  }

  lemma HourClockHoursPiece(g: string, g2: string)
    requires IsHourClock(g) && CommaAsDot(g, g2)
    ensures |SplitOn(g2, ":")| == 3 && IntReading(SplitOn(g2, ":")[0], HourClockHours(g))
  {
    HourClockSplit(g, g2);
    DigitsPiece(g[..|g| - 10]);
  }

  lemma HourClockMinutesPiece(g: string, g2: string)
    requires IsHourClock(g) && CommaAsDot(g, g2)
    ensures |SplitOn(g2, ":")| == 3 && IntReading(SplitOn(g2, ":")[1], HourClockMinutes(g))
  {
    HourClockSplit(g, g2);
    DigitsPiece(g[|g| - 9..|g| - 7]);
  }

  lemma HourClockSecondsPiece(g: string, g2: string)
    requires IsHourClock(g) && CommaAsDot(g, g2)
    ensures |SplitOn(g2, ":")| == 3 && FloatReading(SplitOn(g2, ":")[2], HourClockSeconds(g))
  {
    HourClockSplit(g, g2);
    HourSecondsReading(g, g2);
  }

  lemma ClockParts(g: string, g2: string)
    requires IsClock(g) && CommaAsDot(g, g2)
    ensures var parts := SplitOn(g2, ":");
      |parts| == 2 && IntReading(parts[0], ClockMinutes(g)) && FloatReading(parts[1], ClockSeconds(g))
  {
    ClockMinutesPiece(g, g2);
    ClockSecondsPiece(g, g2);
  }

  lemma ClockMinutesPiece(g: string, g2: string)
    requires IsClock(g) && CommaAsDot(g, g2)
    ensures |SplitOn(g2, ":")| == 2 && IntReading(SplitOn(g2, ":")[0], ClockMinutes(g))
  {
    ClockSplit(g, g2);
    DigitsPiece(g[..2]);
  }

  lemma ClockSecondsPiece(g: string, g2: string)
    requires IsClock(g) && CommaAsDot(g, g2)
    ensures |SplitOn(g2, ":")| == 2 && FloatReading(SplitOn(g2, ":")[1], ClockSeconds(g))
  {
    ClockSplit(g, g2);
    ClockSecondsReading(g, g2);
  }

  lemma ClockSecondsReading(g: string, g2: string)
    requires IsClock(g) && CommaAsDot(g, g2)
    ensures FloatReading(g2[3..], ClockSeconds(g))
  {
    var r := g2[3..];
    assert forall k | 0 <= k < 6 :: r[k] == (if g[3 + k] == ',' then '.' else g[3 + k]) by {
      forall k | 0 <= k < 6 ensures r[k] == (if g[3 + k] == ',' then '.' else g[3 + k]) {
        assert r[k] == g2[3 + k];
      }
    }
    assert DigitsAt(g, 3, 2) && FracSepAt(g, 5) && DigitsAt(g, 6, 3);
    SecondsPiece(r, g, 3);
  }

  /** `:`-pieces of `t` (after `,` is read as `.`) that read as hours, minutes and seconds. */
  predicate ThreeFields(t: string, h: int, m: int, sec: real) {
    var parts := ColonPieces(t);
    |parts| == 3 && IntReading(parts[0], h) && IntReading(parts[1], m) && FloatReading(parts[2], sec)
  }

  /** `:`-pieces of `t` that read as minutes and seconds. */
  predicate TwoFields(t: string, m: int, sec: real) {
    var parts := ColonPieces(t);
    |parts| == 2 && IntReading(parts[0], m) && FloatReading(parts[1], sec)
  }

  lemma TimecodeOfThree(parts: seq<string>, h: int, m: int, sec: real)
    requires |parts| == 3 && ParseInt(parts[0]) == Some(h) && ParseInt(parts[1]) == Some(m) && ParseFloat(parts[2]) == Some(sec)
    ensures TimecodeOfParts(parts) == (h * 3600 + m * 60) as real + sec
  {
    assert TimecodeOfParts(parts) == HoursMinutesSeconds(Some(h), Some(m), Some(sec)).GetOr(0.0);
  }

  lemma SrtOfThree(parts: seq<string>, h: int, m: int, sec: real)
    requires |parts| == 3 && ParseInt(parts[0]) == Some(h) && ParseInt(parts[1]) == Some(m) && ParseFloat(parts[2]) == Some(sec)
    ensures SrtOfParts(parts) == Some((h * 3600 + m * 60) as real + sec)
  {
    var r := HoursMinutesSeconds(Some(h), Some(m), Some(sec));
    assert r.Some? && r.value == (h * 3600 + m * 60) as real + sec;
  }

  lemma VttOfThree(parts: seq<string>, h: int, m: int, sec: real)
    requires |parts| == 3 && ParseInt(parts[0]) == Some(h) && ParseInt(parts[1]) == Some(m) && ParseFloat(parts[2]) == Some(sec)
    ensures VttOfParts(parts) == Some((h * 3600 + m * 60) as real + sec)
  {
    assert VttOfParts(parts) == SrtOfParts(parts);
    SrtOfThree(parts, h, m, sec);
  }

  lemma TimecodeOfTwo(parts: seq<string>, m: int, sec: real)
    requires |parts| == 2 && ParseInt(parts[0]) == Some(m) && ParseFloat(parts[1]) == Some(sec)
    ensures TimecodeOfParts(parts) == (m * 60) as real + sec
    ensures VttOfParts(parts) == Some((m * 60) as real + sec)
  {
    assert VttOfParts(parts) == MinutesSeconds(Some(m), Some(sec));
    assert TimecodeOfParts(parts) == MinutesSeconds(Some(m), Some(sec)).GetOr(0.0);
  }

  lemma ThreeStripped(parts: seq<string>, h: int, m: int, sec: real)
    requires |parts| == 3 && ParseInt(Strip(parts[0])) == Some(h) && ParseInt(Strip(parts[1])) == Some(m)
    requires ParseFloat(Strip(parts[2])) == Some(sec)
    ensures TimecodeOfParts(StripAll(parts)) == (h * 3600 + m * 60) as real + sec
  {
    TimecodeOfThree(StripAll(parts), h, m, sec);
  }

  lemma TwoPartsReadings(parts: seq<string>, m: int, sec: real)
    requires |parts| == 2 && IntReading(parts[0], m) && FloatReading(parts[1], sec)
    ensures TimecodeOfParts(StripAll(parts)) == (m * 60) as real + sec
    ensures VttOfParts(parts) == Some((m * 60) as real + sec)
  {
    TimecodeOfTwo(parts, m, sec);
    TimecodeOfTwo(StripAll(parts), m, sec);
  }

  lemma ThreeFieldsReadings(t: string, h: int, m: int, sec: real)
    requires ThreeFields(t, h, m, sec)
    ensures ParseTimecode(t) == (h * 3600 + m * 60) as real + sec
    ensures VttTsToSec(t) == Some((h * 3600 + m * 60) as real + sec)
    ensures SrtTsToSec(t) == Some((h * 3600 + m * 60) as real + sec)
  {
    ThreeFieldsSrt(t, h, m, sec);
    ThreeFieldsVtt(t, h, m, sec);
    ThreeFieldsTimecode(t, h, m, sec);
  }

  lemma ThreeFieldsSrt(t: string, h: int, m: int, sec: real)
    requires ThreeFields(t, h, m, sec)
    ensures SrtTsToSec(t) == Some((h * 3600 + m * 60) as real + sec)
  {
    SrtOfThree(ColonPieces(t), h, m, sec);
  }

  lemma ThreeFieldsVtt(t: string, h: int, m: int, sec: real)
    requires ThreeFields(t, h, m, sec)
    ensures VttTsToSec(t) == Some((h * 3600 + m * 60) as real + sec)
  {
    VttOfThree(ColonPieces(t), h, m, sec);
  }

  lemma ThreeFieldsTimecode(t: string, h: int, m: int, sec: real)
    requires ThreeFields(t, h, m, sec)
    ensures ParseTimecode(t) == (h * 3600 + m * 60) as real + sec
  {
    ThreeStripped(ColonPieces(t), h, m, sec);
  }

  lemma TwoFieldsReadings(t: string, m: int, sec: real)
    requires TwoFields(t, m, sec)
    ensures ParseTimecode(t) == (m * 60) as real + sec
    ensures VttTsToSec(t) == Some((m * 60) as real + sec)
  {
    TwoPartsReadings(ColonPieces(t), m, sec);
  }

  lemma HourClockReadings(g: string)
    requires IsHourClock(g)
    ensures ParseTimecode(g) == StampValue(g)
    ensures VttTsToSec(g).Some? && VttTsToSec(g).value == StampValue(g)
    ensures SrtTsToSec(g).Some? && SrtTsToSec(g).value == StampValue(g)
  {
    HourClockTimecode(g);
    HourClockVtt(g);
    HourClockSrt(g);
  }

  lemma HourClockValue(g: string)
    requires IsHourClock(g)
    ensures StampValue(g) == (HourClockHours(g) * 3600 + HourClockMinutes(g) * 60) as real + HourClockSeconds(g)
  {
  }

  lemma HourClockFields(g: string)
    requires IsHourClock(g)
    ensures ThreeFields(g, HourClockHours(g), HourClockMinutes(g), HourClockSeconds(g))
  {
    HourClockParts(g, ReplaceChar(g, ',', '.'));
  }

  lemma HourClockTimecode(g: string)
    requires IsHourClock(g)
    ensures ParseTimecode(g) == StampValue(g)
  {
    HourClockFields(g);
    ThreeFieldsTimecode(g, HourClockHours(g), HourClockMinutes(g), HourClockSeconds(g));
    HourClockValue(g);
  }

  lemma HourClockVttFields(g: string)
    requires IsHourClock(g)
    ensures VttTsToSec(g).Some?
    ensures VttTsToSec(g).value == (HourClockHours(g) * 3600 + HourClockMinutes(g) * 60) as real + HourClockSeconds(g)
  {
    HourClockFields(g);
    ThreeFieldsVtt(g, HourClockHours(g), HourClockMinutes(g), HourClockSeconds(g));
  }

  lemma HourClockVtt(g: string)
    requires IsHourClock(g)
    ensures VttTsToSec(g).Some? && VttTsToSec(g).value == StampValue(g)
  {
    HourClockVttFields(g);
    HourClockValue(g);
  }

  lemma HourClockSrtFields(g: string)
    requires IsHourClock(g)
    ensures SrtTsToSec(g).Some?
    ensures SrtTsToSec(g).value == (HourClockHours(g) * 3600 + HourClockMinutes(g) * 60) as real + HourClockSeconds(g)
  {
    HourClockFields(g);
    ThreeFieldsSrt(g, HourClockHours(g), HourClockMinutes(g), HourClockSeconds(g));
  }

  lemma HourClockSrt(g: string)
    requires IsHourClock(g)
    ensures SrtTsToSec(g).Some? && SrtTsToSec(g).value == StampValue(g)
  {
    HourClockSrtFields(g);
    HourClockValue(g);
  }

  lemma ClockReadings(g: string)
    requires IsClock(g)
    ensures ParseTimecode(g) == StampValue(g)
    ensures VttTsToSec(g).Some? && VttTsToSec(g).value == StampValue(g)
  {
    ClockTimecode(g);
    ClockVtt(g);
  }

  lemma ClockValue(g: string)
    requires IsClock(g)
    ensures StampValue(g) == (ClockMinutes(g) * 60) as real + ClockSeconds(g)
  {
    assert !IsHourClock(g);
  }

  lemma ClockFields(g: string)
    requires IsClock(g)
    ensures TwoFields(g, ClockMinutes(g), ClockSeconds(g))
  {
    ClockParts(g, ReplaceChar(g, ',', '.'));
  }

  lemma ClockTimecode(g: string)
    requires IsClock(g)
    ensures ParseTimecode(g) == StampValue(g)
  {
    ClockFields(g);
    TwoFieldsReadings(g, ClockMinutes(g), ClockSeconds(g));
    ClockValue(g);
  }

  lemma ClockVttFields(g: string)
    requires IsClock(g)
    ensures VttTsToSec(g).Some?
    ensures VttTsToSec(g).value == (ClockMinutes(g) * 60) as real + ClockSeconds(g)
  {
    ClockFields(g);
    TwoFieldsReadings(g, ClockMinutes(g), ClockSeconds(g));
  }

  lemma ClockVtt(g: string)
    requires IsClock(g)
    ensures VttTsToSec(g).Some? && VttTsToSec(g).value == StampValue(g)
  {
    ClockVttFields(g);
    ClockValue(g);
  }

  /** Every reading of a well-formed timestamp gives the seconds it spells;
      the SubRip reading needs the hours. */
  lemma StampReadings(g: string)
    requires IsStamp(g)
    ensures ParseTimecode(g) == StampValue(g)
    ensures VttTsToSec(g).Some? && VttTsToSec(g).value == StampValue(g)
    ensures IsHourClock(g) ==> SrtTsToSec(g).Some? && SrtTsToSec(g).value == StampValue(g)
  {
    if IsHourClock(g) {
      HourClockReadings(g);
    } else {
      ClockReadings(g);
    }
  }

  // ---------------------------------------------------------------------
  // Timing lines.
  // ---------------------------------------------------------------------

  /** The two captured timestamps of a timing line. */
  datatype Timing = Timing(start: string, end: string)

  /** Length of the Bilibili timestamp `\d+:\d{2}:\d{2}[.,]\d{3}|\d{2}:\d{2}[.,]\d{3}`
      starting at `i`, or 0. The `\d+` can only end at the colon, so the
      whole digit run is taken; the two alternatives differ at the sixth
      character and never both match. */
  function BiliStampLength(s: string, i: nat): (n: nat)
    requires i <= |s|
    ensures i + n <= |s|
  {
    var d := DigitRun(s, i);
    if d >= 1 && HourStampAt(s, i + d) then d + 10
    else if ClockStampAt(s, i) then 9
    else 0
  }

  /** What follows the hour digits ending at `j`: `:\d{2}:\d{2}[.,]\d{3}`. */
  predicate HourStampAt(s: string, j: nat) {
    CharAt(s, j, ':') && DigitsAt(s, j + 1, 2) && CharAt(s, j + 3, ':')
    && DigitsAt(s, j + 4, 2) && FracSepAt(s, j + 6) && DigitsAt(s, j + 7, 3)
  }

  /** `\d{2}:\d{2}[.,]\d{3}` at `i`. */
  predicate ClockStampAt(s: string, i: nat) {
    DigitsAt(s, i, 2) && CharAt(s, i + 2, ':') && DigitsAt(s, i + 3, 2) && FracSepAt(s, i + 5) && DigitsAt(s, i + 6, 3)
  }

  /** Length of the YouTube timestamp `\d{2}:\d{2}(?::\d{2})?[.,]\d{3}` at `i`, or 0. */
  function YtStampLength(s: string, i: nat): (n: nat)
    requires i <= |s|
    ensures i + n <= |s|
  {
    if DigitsAt(s, i, 2) && CharAt(s, i + 2, ':') && DigitsAt(s, i + 3, 2) then
      if CharAt(s, i + 5, ':') && DigitsAt(s, i + 6, 2) && FracSepAt(s, i + 8) && DigitsAt(s, i + 9, 3) then 12
      else if FracSepAt(s, i + 5) && DigitsAt(s, i + 6, 3) then 9
      else 0
    else 0
  }

  lemma BiliStampShape(s: string, i: nat)
    requires i <= |s| && BiliStampLength(s, i) > 0
    ensures IsStamp(s[i..i + BiliStampLength(s, i)])
  {
    var n := BiliStampLength(s, i);
    var g := s[i..i + n];
    var d := DigitRun(s, i);
    if d >= 1 && HourStampAt(s, i + d) {
      assert n == d + 10;
      assert forall k | 0 <= k < d :: g[k] == s[i + k];
      assert IsHourClock(g);
    } else {
      assert ClockStampAt(s, i) && n == 9;
      assert IsClock(g);
    }
  }

  lemma YtStampShape(s: string, i: nat)
    requires i <= |s| && YtStampLength(s, i) > 0
    ensures IsStamp(s[i..i + YtStampLength(s, i)])
    ensures YtStampLength(s, i) == 12 ==> IsHourClock(s[i..i + 12])
  {
  }

  /** `-->` at `j`. */
  predicate ArrowAt(s: string, j: nat) {
    j + 3 <= |s| && s[j] == '-' && s[j + 1] == '-' && s[j + 2] == '>'
  }

  lemma ArrowOccurs(s: string, j: nat)
    requires ArrowAt(s, j)
    ensures OccursAt(s, "-->", j) && Contains(s, "-->")
  {
    assert s[j..j + 3] == "-->";
    ContainsAt(s, "-->", j);
  }

  /** A Bilibili timing line matched at `i`: stamp, `\s*-->\s*`, stamp. */
  function BiliTimingAt(s: string, i: nat): (r: Option<Timing>)
    requires i <= |s|
    ensures r.Some? ==> IsStamp(r.value.start)
  {
    var n1 := BiliStampLength(s, i);
    if n1 == 0 then None
    else
      BiliStampShape(s, i);
      BiliArrowAt(s, i, i + n1)
  }

  /** What follows the first stamp `s[i..e]`: `\s*-->\s*`, then the second stamp. */
  function BiliArrowAt(s: string, i: nat, e: nat): (r: Option<Timing>)
    requires i <= e <= |s|
    ensures r.Some? ==> r.value.start == s[i..e] && IsStamp(r.value.end) && Contains(s, "-->")
  {
    var j := e + SpaceRun(s, e);
    if !ArrowAt(s, j) then None
    else
      ArrowOccurs(s, j);
      BiliSecondAt(s, i, e, j + 3 + SpaceRun(s, j + 3))
  }

  /** The second stamp, at `k`. */
  function BiliSecondAt(s: string, i: nat, e: nat, k: nat): (r: Option<Timing>)
    requires i <= e <= k <= |s|
    ensures r.Some? ==> r.value.start == s[i..e] && IsStamp(r.value.end)
  {
    var n2 := BiliStampLength(s, k);
    if n2 == 0 then None
    else
      BiliStampShape(s, k);
      Some(Timing(s[i..e], s[k..k + n2]))
  }

  /** A YouTube timing line matched at `i`: stamp, `\s+-->\s+`, stamp. */
  function YtTimingAt(s: string, i: nat): (r: Option<Timing>)
    requires i <= |s|
    ensures r.Some? ==> IsStamp(r.value.start)
  {
    var n1 := YtStampLength(s, i);
    if n1 == 0 then None
    else
      YtStampShape(s, i);
      YtArrowAt(s, i, i + n1)
  }

  function YtArrowAt(s: string, i: nat, e: nat): (r: Option<Timing>)
    requires i <= e <= |s|
    ensures r.Some? ==> r.value.start == s[i..e] && IsStamp(r.value.end) && Contains(s, "-->")
  {
    var j := e + SpaceRun(s, e);
    if j == e || !ArrowAt(s, j) || SpaceRun(s, j + 3) == 0 then None
    else
      ArrowOccurs(s, j);
      YtSecondAt(s, i, e, j + 3 + SpaceRun(s, j + 3))
  }

  function YtSecondAt(s: string, i: nat, e: nat, k: nat): (r: Option<Timing>)
    requires i <= e <= k <= |s|
    ensures r.Some? ==> r.value.start == s[i..e] && IsStamp(r.value.end)
  {
    var n2 := YtStampLength(s, k);
    if n2 == 0 then None
    else
      YtStampShape(s, k);
      Some(Timing(s[i..e], s[k..k + n2]))
  }

  lemma BiliTimingAtRest(s: string, i: nat)
    requires i <= |s| && BiliTimingAt(s, i).Some?
    ensures IsStamp(BiliTimingAt(s, i).value.end) && Contains(s, "-->")
  {
    assert BiliStampLength(s, i) > 0;
  }

  lemma YtTimingAtRest(s: string, i: nat)
    requires i <= |s| && YtTimingAt(s, i).Some?
    ensures IsStamp(YtTimingAt(s, i).value.end) && Contains(s, "-->")
  {
    assert YtStampLength(s, i) > 0;
  }

  /** `re.search`: the leftmost position where the timing line matches. */
  function BiliTimingFrom(s: string, i: nat): (r: Option<Timing>)
    requires i <= |s|
    decreases |s| - i
  {
    if BiliTimingAt(s, i).Some? then BiliTimingAt(s, i)
    else if i == |s| then None
    else BiliTimingFrom(s, i + 1)
  }

  function YtTimingFrom(s: string, i: nat): (r: Option<Timing>)
    requires i <= |s|
    decreases |s| - i
  {
    if YtTimingAt(s, i).Some? then YtTimingAt(s, i)
    else if i == |s| then None
    else YtTimingFrom(s, i + 1)
  }

  function BiliTiming(s: string): Option<Timing> {
    BiliTimingFrom(s, 0)
  }

  function YtTiming(s: string): Option<Timing> {
    YtTimingFrom(s, 0)
  }

  /** A recognised timing line holds two well-formed timestamps and the arrow `-->`. */
  lemma {:induction false} BiliTimingFromShape(s: string, i: nat)
    requires i <= |s| && BiliTimingFrom(s, i).Some?
    ensures IsStamp(BiliTimingFrom(s, i).value.start) && IsStamp(BiliTimingFrom(s, i).value.end)
    ensures Contains(s, "-->")
    decreases |s| - i
  {
    if BiliTimingAt(s, i).Some? {
      BiliTimingAtRest(s, i);
    } else {
      BiliTimingFromShape(s, i + 1);
    }
  }

  lemma {:induction false} YtTimingFromShape(s: string, i: nat)
    requires i <= |s| && YtTimingFrom(s, i).Some?
    ensures IsStamp(YtTimingFrom(s, i).value.start) && IsStamp(YtTimingFrom(s, i).value.end)
    ensures Contains(s, "-->")
    decreases |s| - i
  {
    if YtTimingAt(s, i).Some? {
      YtTimingAtRest(s, i);
    } else {
      YtTimingFromShape(s, i + 1);
    }
  }

  /** Both ends of a recognised timing line read as the seconds they spell. */
  lemma BiliTimingValues(s: string)
    requires BiliTiming(s).Some?
    ensures var t := BiliTiming(s).value;
      IsStamp(t.start) && IsStamp(t.end)
      && ParseTimecode(t.start) == StampValue(t.start) && ParseTimecode(t.end) == StampValue(t.end)
  {
    BiliTimingFromShape(s, 0);
    StampReadings(BiliTiming(s).value.start);
    StampReadings(BiliTiming(s).value.end);
  }

  lemma YtTimingValues(s: string)
    requires YtTiming(s).Some?
    ensures var t := YtTiming(s).value;
      IsStamp(t.start) && IsStamp(t.end)
      && VttTsToSec(t.start).Some? && VttTsToSec(t.start).value == StampValue(t.start)
      && VttTsToSec(t.end).Some? && VttTsToSec(t.end).value == StampValue(t.end)
  {
    YtTimingFromShape(s, 0);
    StampReadings(YtTiming(s).value.start);
    StampReadings(YtTiming(s).value.end);
  }

  /** A timestamp as the YouTube timing regex spells it: `MM:SS.mmm` or
      `HH:MM:SS.mmm`, with `.` or `,` before the milliseconds. */
  predicate IsYtStamp(g: string) {
    IsClock(g) || (IsHourClock(g) && |g| == 12)
  }

  /** The timestamp regex matches all of `g` where `g` stands in a line,
      whatever follows it. */
  lemma YtStampAt(pre: string, g: string, post: string)
    requires IsYtStamp(g)
    ensures YtStampLength(pre + g + post, |pre|) == |g| && IsDigit((pre + g + post)[|pre|])
  {
    var s := pre + g + post;
    assert forall k | 0 <= k < |g| :: s[|pre| + k] == g[k];
  }

  /** ` --> ` at `n`, before a digit: one space on each side of the arrow. */
  lemma PaddedArrow(s: string, n: nat)
    requires n + 5 < |s| && s[n..n + 5] == " --> " && IsDigit(s[n + 5])
    ensures SpaceRun(s, n) == 1 && ArrowAt(s, n + 1) && SpaceRun(s, n + 4) == 1
  {
    assert s[n] == ' ' && s[n + 1] == '-' && s[n + 2] == '-' && s[n + 3] == '>' && s[n + 4] == ' ';
    assert !IsSpace(s[n + 5]);
  }

  /** A stamp of length `n` at the start, ` --> `, and a stamp of length
      `m` make a timing line. */
  lemma TimingOfStamps(s: string, n: nat, m: nat)
    requires n > 0 && n + 5 + m <= |s|
    requires YtStampLength(s, 0) == n && YtStampLength(s, n + 5) == m && m > 0
    requires s[n..n + 5] == " --> " && IsDigit(s[n + 5])
    ensures YtTiming(s) == Some(Timing(s[..n], s[n + 5..n + 5 + m]))
  {
    PaddedArrow(s, n);
  }

  /** The timing line `a --> b` captures `a` and `b`. */
  lemma YtStandardTiming(a: string, b: string)
    requires IsYtStamp(a) && IsYtStamp(b)
    ensures YtTiming(a + " --> " + b) == Some(Timing(a, b))
  {
    var s := a + " --> " + b;
    YtStampAt([], a, " --> " + b);
    YtStampAt(a + " --> ", b, []);
    assert [] + a + (" --> " + b) == s == a + " --> " + b + [];
    assert s[..|a|] == a && s[|a|..|a| + 5] == " --> " && s[|a| + 5..|a| + 5 + |b|] == b;
    TimingOfStamps(s, |a|, |b|);
  }

  /** Only a line holding the arrow can be a timing line. */
  lemma TimingHasArrow(s: string)
    ensures BiliTiming(s).Some? ==> Contains(s, "-->")
    ensures YtTiming(s).Some? ==> Contains(s, "-->")
  {
    if BiliTiming(s).Some? {
      BiliTimingFromShape(s, 0);
    }
    if YtTiming(s).Some? {
      YtTimingFromShape(s, 0);
    }
  }
}
