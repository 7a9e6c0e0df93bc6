/** The string operations of Python's `str` that the caption parsers, the
    summarizer and the CLI rely on, written over `seq<char>` with their
    Python meaning stated in the contracts. */
module Text {
  import opened Wrappers

  /** `str.isspace()` for one character: ASCII white space, the
      information separators 0x1C-0x1F and the Unicode spaces
      (including U+3000, the ideographic space of Chinese text). */
  predicate IsSpace(c: char) {
    c == ' ' || c == '\t' || c == '\n' || c == '\r' || c == '\U{000B}' || c == '\U{000C}'
    || ('\U{001C}' <= c <= '\U{001F}') || c == '\U{0085}' || c == '\U{00A0}' || c == '\U{1680}'
    || ('\U{2000}' <= c <= '\U{200A}') || c == '\U{2028}' || c == '\U{2029}' || c == '\U{202F}'
    || c == '\U{205F}' || c == '\U{3000}'
  }

  /** A string made of white space only (`not s.strip()`). */
  predicate IsBlank(s: string) {
    forall i | 0 <= i < |s| :: IsSpace(s[i])
  }

  predicate IsDigit(c: char) {
    '0' <= c <= '9'
  }

  predicate AllDigits(s: string) {
    forall i | 0 <= i < |s| :: IsDigit(s[i])
  }

  /** `str.lstrip()` */
  function LStrip(s: string): (r: string)
    ensures |r| <= |s| && r == s[|s| - |r|..]
    ensures r == [] || !IsSpace(r[0])
    ensures forall i | 0 <= i < |s| - |r| :: IsSpace(s[i])
  {
    if s != [] && IsSpace(s[0]) then LStrip(s[1..]) else s
  }

  /** `str.rstrip()` */
  function RStrip(s: string): (r: string)
    ensures |r| <= |s| && r == s[..|r|]
    ensures r == [] || !IsSpace(r[|r| - 1])
    ensures forall i | |r| <= i < |s| :: IsSpace(s[i])
  {
    if s != [] && IsSpace(s[|s| - 1]) then RStrip(s[..|s| - 1]) else s
  }

  /** `str.strip()`: the longest infix of `s` that neither starts nor ends
      with white space, obtained by removing white space only. */
  function Strip(s: string): (r: string)
    ensures |r| <= |s|
    ensures r == [] || (!IsSpace(r[0]) && !IsSpace(r[|r| - 1]))
  {
    RStrip(LStrip(s))
  }

  /** `s.strip()` is empty exactly when `s` is blank. */
  lemma StripEmptyIffBlank(s: string)
    ensures Strip(s) == [] <==> IsBlank(s)
  {
    var l := LStrip(s);
    if l != [] {
      assert l[0] == s[|s| - |l|];
      assert !IsBlank(s);
    }
  }

  /** Stripping a string that has no surrounding white space changes nothing. */
  lemma StripIdle(s: string)
    requires s == [] || (!IsSpace(s[0]) && !IsSpace(s[|s| - 1]))
    ensures Strip(s) == s
  {
  }

  predicate StartsWith(s: string, p: string) {
    |p| <= |s| && s[..|p|] == p
  }

  predicate EndsWith(s: string, p: string) {
    |p| <= |s| && s[|s| - |p|..] == p
  }

  /** `pat` occurs in `s` at position `j`. */
  predicate OccursAt(s: string, pat: string, j: int) {
    0 <= j && j + |pat| <= |s| && s[j..j + |pat|] == pat
  }

  /** The leftmost occurrence of `pat` at or after `i`, or -1 (`str.find`). */
  function FindFrom(s: string, pat: string, i: nat): (r: int)
    requires i <= |s|
    ensures r == -1 || (i <= r && OccursAt(s, pat, r))
    ensures r == -1 ==> forall j | i <= j :: !OccursAt(s, pat, j)
    ensures r != -1 ==> forall j | i <= j < r :: !OccursAt(s, pat, j)
    decreases |s| - i
  {
    if i + |pat| > |s| then -1
    else if s[i..i + |pat|] == pat then i
    else if i == |s| then -1
    else FindFrom(s, pat, i + 1)
  }

  function Find(s: string, pat: string): int {
    FindFrom(s, pat, 0)
  }

  /** The `in` operator on strings. */
  predicate Contains(s: string, pat: string) {
    Find(s, pat) >= 0
  }

  lemma ContainsAt(s: string, pat: string, j: nat)
    requires OccursAt(s, pat, j)
    ensures Contains(s, pat)
  {
  }

  /** The leftmost occurrence is at `k` when `pat` occurs there and nowhere before. */
  lemma FindIs(s: string, pat: string, k: nat)
    requires OccursAt(s, pat, k)
    requires forall j | 0 <= j < k :: !OccursAt(s, pat, j)
    ensures Find(s, pat) == k
  {
  }

  /** Splitting at a separator character that does not occur in `a`. */
  lemma SplitOnAfter(a: string, c: char, b: string)
    requires forall i | 0 <= i < |a| :: a[i] != c
    ensures SplitOn(a + [c] + b, [c]) == [a] + SplitOn(b, [c])
  {
    var s := a + [c] + b;
    forall j | 0 <= j < |a|
      ensures !OccursAt(s, [c], j)
    {
      assert s[j] == a[j];
    }
    assert OccursAt(s, [c], |a|);
    FindIs(s, [c], |a|);
    assert s[..|a|] == a && s[|a| + 1..] == b;
  }

  /** Splitting at the first occurrence, at `p`, of a separator character. */
  lemma SplitOnAtChar(s: string, c: char, p: nat)
    requires p < |s| && s[p] == c
    requires forall i | 0 <= i < p :: s[i] != c
    ensures SplitOn(s, [c]) == [s[..p]] + SplitOn(s[p + 1..], [c])
  {
    forall j | 0 <= j < p
      ensures !OccursAt(s, [c], j)
    {
      assert s[j..j + 1][0] == s[j];
    }
    assert s[p..p + 1] == [c];
    FindIs(s, [c], p);
  }

  /** A string without the separator character is not split. */
  lemma SplitOnNone(a: string, c: char)
    requires forall i | 0 <= i < |a| :: a[i] != c
    ensures SplitOn(a, [c]) == [a]
  {
    FindCharNone(a, c, 0);
  }

  /** A character that does not occur at or after `i` is not found. */
  lemma {:induction false} FindCharNone(a: string, c: char, i: nat)
    requires i <= |a|
    requires forall k | i <= k < |a| :: a[k] != c
    ensures FindFrom(a, [c], i) == -1
    decreases |a| - i
  {
    if i < |a| {
      assert a[i..i + 1][0] == a[i];
      FindCharNone(a, c, i + 1);
    }
  }

  /** Splitting at the only occurrence, at `p`, of a separator character. */
  lemma SplitOnOneChar(s: string, c: char, p: nat)
    requires p < |s| && s[p] == c
    requires forall i | 0 <= i < |s| && i != p :: s[i] != c
    ensures SplitOn(s, [c]) == [s[..p], s[p + 1..]]
  {
    SplitOnAtChar(s, c, p);
    var t := s[p + 1..];
    assert forall i | 0 <= i < |t| :: t[i] == s[p + 1 + i];
    SplitOnNone(t, c);
  }

  /** Splitting at the only two occurrences, at `p` and `q`, of a separator character. */
  lemma SplitOnTwoChars(s: string, c: char, p: nat, q: nat)
    requires p < q < |s| && s[p] == c && s[q] == c
    requires forall i | 0 <= i < |s| && i != p && i != q :: s[i] != c
    ensures SplitOn(s, [c]) == [s[..p], s[p + 1..q], s[q + 1..]]
  {
    var t := s[p + 1..];
    SplitTail(s, c, p, q);
    SplitOnAtChar(s, c, p);
  }

  lemma SplitTail(s: string, c: char, p: nat, q: nat)
    requires p < q < |s| && s[p] == c && s[q] == c
    requires forall i | 0 <= i < |s| && i != p && i != q :: s[i] != c
    ensures SplitOn(s[p + 1..], [c]) == [s[p + 1..q], s[q + 1..]]
  {
    var t := s[p + 1..];
    forall i | 0 <= i < |t| && i != q - p - 1 ensures t[i] != c {
      assert t[i] == s[p + 1 + i];
    }
    SplitOnOneChar(t, c, q - p - 1);
    assert t[..q - p - 1] == s[p + 1..q];
    assert t[q - p..] == s[q + 1..];
  }

  /** The last piece of a split at `c` is what follows the last `c`. */
  lemma {:induction false} SplitLastPiece(a: string, c: char, x: string)
    requires forall i | 0 <= i < |x| :: x[i] != c
    ensures var r := SplitOn(a + [c] + x, [c]); r[|r| - 1] == x
    decreases |a|
  {
    var s := a + [c] + x;
    assert OccursAt(s, [c], |a|);
    var k := Find(s, [c]);
    assert 0 <= k <= |a|;
    var r := SplitOn(s, [c]);
    var t := SplitOn(s[k + 1..], [c]);
    assert r == [s[..k]] + t;
    assert r[|r| - 1] == t[|t| - 1];
    if k == |a| {
      assert s[k + 1..] == x;
      SplitOnNone(x, c);
    } else {
      assert s[k + 1..] == a[k + 1..] + [c] + x;
      SplitLastPiece(a[k + 1..], c, x);
    }
  }

  /** `s.rstrip(c)` for one character `c`. */
  function RStripChar(s: string, c: char): (r: string)
    ensures |r| <= |s| && r == s[..|r|]
    ensures r == [] || r[|r| - 1] != c
    ensures forall i | |r| <= i < |s| :: s[i] == c
  {
    if s != [] && s[|s| - 1] == c then RStripChar(s[..|s| - 1], c) else s
  }

  /** `s.lstrip(c)` for one character `c`. */
  function LStripChar(s: string, c: char): (r: string)
    ensures |r| <= |s| && r == s[|s| - |r|..]
    ensures r == [] || r[0] != c
    ensures forall i | 0 <= i < |s| - |r| :: s[i] == c
  {
    if s != [] && s[0] == c then LStripChar(s[1..], c) else s
  }

  /** `s.strip(c)` for one character `c`. */
  function StripChar(s: string, c: char): string {
    RStripChar(LStripChar(s, c), c)
  }

  /** `pat` is a piece of `s`: it occurs in `s` somewhere. */
  predicate Occurs(s: string, pat: string) {
    exists j | 0 <= j <= |s| :: OccursAt(s, pat, j)
  }

  /** A piece of a piece is a piece. */
  lemma PieceOfPiece(a: string, b: string, c: string)
    requires Occurs(a, b) && Occurs(b, c)
    ensures Occurs(a, c)
  {
    var i :| 0 <= i <= |a| && OccursAt(a, b, i);
    var j :| 0 <= j <= |b| && OccursAt(b, c, j);
    assert b == a[i..i + |b|] && c == b[j..j + |c|];
    forall k | 0 <= k < |c|
      ensures a[i + j..i + j + |c|][k] == c[k]
    {
      assert c[k] == b[j + k] == a[i + j + k];
    }
    assert a[i + j..i + j + |c|] == c;
    assert OccursAt(a, c, i + j);
  }

  lemma StripPiece(s: string)
    ensures Occurs(s, Strip(s))
  {
    var l := LStrip(s);
    var j := |s| - |l|;
    assert l == s[j..];
    var r := RStrip(l);
    assert r == l[..|r|] && Strip(s) == r;
    assert s[j..j + |r|] == s[j..][..|r|];
    assert OccursAt(s, r, j);
  }

  lemma SlicePiece(s: string, a: nat, b: nat)
    ensures Occurs(s, Slice(s, a, b))
  {
    if a < b <= |s| {
      assert OccursAt(s, s[a..b], a);
    } else if b <= a || a >= |s| {
      assert OccursAt(s, [], 0);
    } else {
      assert OccursAt(s, s[a..], a);
    }
  }

  /** Stripping twice strips no more than stripping once. */
  lemma StripTwice(s: string)
    ensures Strip(Strip(s)) == Strip(s)
  {
    StripIdle(Strip(s));
  }

  lemma StripCharPiece(s: string, c: char)
    ensures Occurs(s, StripChar(s, c))
  {
    var l := LStripChar(s, c);
    var j := |s| - |l|;
    assert s[j..j + |StripChar(s, c)|] == l[..|StripChar(s, c)|];
    assert OccursAt(s, StripChar(s, c), j);
  }


  /** The rightmost occurrence of `pat` starting at or before `i`, or -1. */
  function RFindAtOrBelow(s: string, pat: string, i: int): (r: int)
    requires i + |pat| <= |s|
    ensures r == -1 || (0 <= r <= i && OccursAt(s, pat, r))
    ensures forall j | r < j <= i :: !OccursAt(s, pat, j)
    decreases i + 1
  {
    if i < 0 then -1
    else if s[i..i + |pat|] == pat then i
    else RFindAtOrBelow(s, pat, i - 1)
  }

  /** `str.rfind` */
  function RFind(s: string, pat: string): (r: int)
    ensures r == -1 || OccursAt(s, pat, r)
  {
    if |pat| > |s| then -1 else RFindAtOrBelow(s, pat, |s| - |pat|)
  }

  /** Python's `s[a:b]` for non-negative bounds. */
  function Slice(s: string, a: nat, b: nat): (r: string)
    ensures |r| <= |s|
    ensures a < b <= |s| ==> r == s[a..b]
    ensures b <= a ==> r == []
  {
    var hi := if b <= |s| then b else |s|;
    if a >= hi then [] else s[a..hi]
  }

  /** `sep.join(parts)` */
  function Join(sep: string, parts: seq<string>): (r: string)
    ensures parts == [] ==> r == []
    ensures |parts| == 1 ==> r == parts[0]
  {
    if parts == [] then []
    else if |parts| == 1 then parts[0]
    else parts[0] + sep + Join(sep, parts[1..])
  }

  /** A join is empty only if every piece is. */
  lemma {:induction false} JoinNonEmpty(sep: string, parts: seq<string>, k: nat)
    requires k < |parts| && parts[k] != []
    ensures Join(sep, parts) != []
  {
    if |parts| > 1 {
      var rest := Join(sep, parts[1..]);
      assert |Join(sep, parts)| == |parts[0]| + |sep| + |rest|;
      if k > 0 {
        assert parts[1..][k - 1] == parts[k];
        JoinNonEmpty(sep, parts[1..], k - 1);
      }
    }
  }

  /** `s.replace(a, b)` for single characters. */
  function ReplaceChar(s: string, a: char, b: char): (r: string)
    ensures |r| == |s|
    ensures forall i | 0 <= i < |s| :: r[i] == (if s[i] == a then b else s[i])
  {
    seq(|s|, i requires 0 <= i < |s| => if s[i] == a then b else s[i])
  }

  /** ASCII `str.lower()` of one character. */
  function LowerChar(c: char): char {
    if 'A' <= c <= 'Z' then (c as int + 32) as char else c
  }

  function Lower(s: string): (r: string)
    ensures |r| == |s|
    ensures forall i | 0 <= i < |s| :: r[i] == LowerChar(s[i])
  {
    seq(|s|, i requires 0 <= i < |s| => LowerChar(s[i]))
  }

  /** `s.split(sep)` for a non-empty separator: the pieces between the
      non-overlapping occurrences of `sep`, found from the left. */
  function SplitOn(s: string, sep: string): (r: seq<string>)
    requires sep != []
    ensures |r| >= 1
    ensures Find(s, sep) < 0 ==> r == [s]
    decreases |s|
  {
    var k := Find(s, sep);
    if k < 0 then [s] else [s[..k]] + SplitOn(s[k + |sep|..], sep)
  }

  /** Number of leading non-space characters. */
  function WordLength(s: string): (n: nat)
    ensures n <= |s|
    ensures forall i | 0 <= i < n :: !IsSpace(s[i])
    ensures n == |s| || IsSpace(s[n])
  {
    if s == [] || IsSpace(s[0]) then 0 else 1 + WordLength(s[1..])
  }

  /** `s.split()` with no argument: the maximal runs of non-space characters. */
  function SplitWs(s: string): (r: seq<string>)
    ensures forall k | 0 <= k < |r| :: r[k] != [] && forall i | 0 <= i < |r[k]| :: !IsSpace(r[k][i])
    decreases |s|
  {
    if s == [] then []
    else if IsSpace(s[0]) then SplitWs(s[1..])
    else
      var n := WordLength(s);
      [s[..n]] + SplitWs(s[n..])
  }

  /** The characters of `s` that are not white space, in order. */
  function NonSpace(s: string): string {
    if s == [] then [] else if IsSpace(s[0]) then NonSpace(s[1..]) else [s[0]] + NonSpace(s[1..])
  }

  function Concat(parts: seq<string>): string {
    if parts == [] then [] else parts[0] + Concat(parts[1..])
  }

  lemma {:induction false} ConcatAppend(a: seq<string>, b: seq<string>)
    ensures Concat(a + b) == Concat(a) + Concat(b)
  {
    if a != [] {
      assert (a + b)[1..] == a[1..] + b;
      ConcatAppend(a[1..], b);
      calc {
        Concat(a + b);
        a[0] + Concat(a[1..] + b);
        a[0] + (Concat(a[1..]) + Concat(b));
        (a[0] + Concat(a[1..])) + Concat(b);
      }
    } else {
      assert a + b == b;
    }
  }

  lemma {:induction false} NonSpaceAppend(a: string, b: string)
    ensures NonSpace(a + b) == NonSpace(a) + NonSpace(b)
  {
    if a != [] {
      assert (a + b)[1..] == a[1..] + b;
      NonSpaceAppend(a[1..], b);
      assert (a + b)[0] == a[0];
      if !IsSpace(a[0]) {
        calc {
          NonSpace(a + b);
          [a[0]] + NonSpace(a[1..] + b);
          [a[0]] + (NonSpace(a[1..]) + NonSpace(b));
          ([a[0]] + NonSpace(a[1..])) + NonSpace(b);
        }
      }
    } else {
      assert a + b == b;
    }
  }

  lemma {:induction false} NonSpaceOfWord(w: string)
    requires forall i | 0 <= i < |w| :: !IsSpace(w[i])
    ensures NonSpace(w) == w
  {
    if w != [] {
      NonSpaceOfWord(w[1..]);
    }
  }

  /** Splitting on white space loses exactly the white space: the words,
      put back together, are the non-space characters of the input. */
  lemma {:induction false} SplitWsKeepsNonSpace(s: string)
    ensures Concat(SplitWs(s)) == NonSpace(s)
    decreases |s|
  {
    if s == [] {
    } else if IsSpace(s[0]) {
      SplitWsKeepsNonSpace(s[1..]);
    } else {
      var n := WordLength(s);
      SplitWsKeepsNonSpace(s[n..]);
      assert s == s[..n] + s[n..];
      NonSpaceAppend(s[..n], s[n..]);
      NonSpaceOfWord(s[..n]);
      ConcatAppend([s[..n]], SplitWs(s[n..]));
    }
  }

  /** Length of the first line of `s` (up to, not including, a line break). */
  function LineLength(s: string): (n: nat)
    ensures n <= |s|
    ensures forall i | 0 <= i < n :: s[i] != '\n' && s[i] != '\r'
    ensures n == |s| || s[n] == '\n' || s[n] == '\r'
  {
    if s == [] || s[0] == '\n' || s[0] == '\r' then 0 else 1 + LineLength(s[1..])
  }

  /** `str.splitlines()` for text whose line breaks are `\n`, `\r\n` or `\r`:
      a final line break does not start an extra empty line. */
  function SplitLines(s: string): (r: seq<string>)
    ensures s == [] ==> r == []
    ensures forall k | 0 <= k < |r| :: forall i | 0 <= i < |r[k]| :: r[k][i] != '\n' && r[k][i] != '\r'
    decreases |s|
  {
    if s == [] then []
    else
      var n := LineLength(s);
      var brk := if n == |s| then 0
                 else if s[n] == '\r' && n + 1 < |s| && s[n + 1] == '\n' then 2
                 else 1;
      [s[..n]] + SplitLines(s[n + brk..])
  }

  /** Decimal rendering of a natural number (`str(n)`). */
  function NatToString(n: nat): (r: string)
    ensures |r| >= 1 && AllDigits(r)
    ensures n < 10 <==> |r| == 1
    decreases n
  {
    if n < 10 then [('0' as int + n) as char]
    else NatToString(n / 10) + [('0' as int + n % 10) as char]
  }

  /** `str(i)` for any integer. */
  function IntToString(i: int): (r: string)
    ensures i >= 0 ==> r == NatToString(i)
    ensures i < 0 ==> r == "-" + NatToString(-i)
  {
    if i >= 0 then NatToString(i) else "-" + NatToString(-i)
  }

  function DigitValue(c: char): nat
    requires IsDigit(c)
  {
    c as int - '0' as int
  }

  /** The value of a string of ASCII digits, read as a decimal number. */
  function DigitsValue(d: string): nat
    requires AllDigits(d)
  {
    if d == [] then 0 else DigitsValue(d[..|d| - 1]) * 10 + DigitValue(d[|d| - 1])
  }

  /** Reading back the decimal rendering of `n` gives `n`. */
  lemma {:induction false} NatToStringRoundTrip(n: nat)
    ensures DigitsValue(NatToString(n)) == n
    decreases n
  {
    if n >= 10 {
      NatToStringRoundTrip(n / 10);
      var r := NatToString(n);
      assert r[..|r| - 1] == NatToString(n / 10);
    }
  }

  function Pow10(k: nat): (p: nat)
    ensures p >= 1
  {
    if k == 0 then 1 else 10 * Pow10(k - 1)
  }

  /** An optional sign in front of `body`: its multiplier and the rest. */
  function SignOf(t: string): (int, string) {
    if t != [] && t[0] == '-' then (-1, t[1..])
    else if t != [] && t[0] == '+' then (1, t[1..])
    else (1, t)
  }

  /** Python's `int(s)` for decimal strings: surrounding white space, an
      optional sign and ASCII digits give a value, and None stands for the
      `ValueError`. Digit grouping with `_` and non-ASCII digits, which
      Python also reads, give None here too. */
  function ParseInt(s: string): (r: Option<int>)
  {
    var t := Strip(s);
    var (sign, body) := SignOf(t);
    if body != [] && AllDigits(body) then Some(sign * DigitsValue(body)) else None
  }

  /** `int` and `float` strip their argument, so stripping it first
      changes nothing. */
  lemma ParseStripped(s: string)
    ensures ParseInt(Strip(s)) == ParseInt(s) && ParseFloat(Strip(s)) == ParseFloat(s)
  {
    StripTwice(s);
  }

  /** `int` reads a string of digits as its decimal value. */
  lemma ParseIntDigits(s: string)
    requires s != [] && AllDigits(s)
    ensures ParseInt(s) == Some(DigitsValue(s) as int)
  {
    StripDigitsEnds(s);
    assert SignOf(s) == (1, s);
  }

  /** A string that starts and ends with a digit is not changed by `Strip`. */
  lemma StripDigitsEnds(s: string)
    requires s != [] && IsDigit(s[0]) && IsDigit(s[|s| - 1])
    ensures Strip(s) == s
  {
    StripIdle(s);
  }

  /** The value of the decimal numeral `<ip>.<fp>`. */
  function DecimalValue(ip: string, fp: string): real
    requires AllDigits(ip) && AllDigits(fp)
  {
    DigitsValue(ip) as real + DigitsValue(fp) as real / Pow10(|fp|) as real
  }

  function Signed(sign: int, v: real): real {
    if sign < 0 then -v else v
  }

  /** Python's `float(s)` for plain decimal strings: surrounding white space,
      an optional sign, digits with at most one `.` and at least one digit.
      Exponents, `inf`/`nan`, `_` grouping and non-ASCII digits, which
      Python also reads, give None here. */
  function ParseFloat(s: string): (r: Option<real>)
  {
    var t := Strip(s);
    var (sign, body) := SignOf(t);
    var k := Find(body, ".");
    if k < 0 then
      (if body != [] && AllDigits(body) then Some(Signed(sign, DigitsValue(body) as real)) else None)
    else
      var ip := body[..k];
      var fp := body[k + 1..];
      if AllDigits(ip) && AllDigits(fp) && (ip != [] || fp != [])
      then Some(Signed(sign, DecimalValue(ip, fp)))
      else None
  }

  /** How `float` reads a stripped, unsigned string `s` whose first `.`
      separates the digit strings `ip` and `fp`. */
  lemma ParseFloatAt(s: string, ip: string, fp: string)
    requires Strip(s) == s && s != [] && IsDigit(s[0])
    requires Find(s, ".") == |ip| && |ip| < |s|
    requires s[..|ip|] == ip && s[|ip| + 1..] == fp
    requires AllDigits(ip) && AllDigits(fp) && ip != []
    ensures ParseFloat(s) == Some(DecimalValue(ip, fp))
  {
    assert SignOf(s) == (1, s);
  }

  lemma DecimalShape(ip: string, fp: string)
    requires ip != [] && fp != [] && AllDigits(ip) && AllDigits(fp)
    ensures var s := ip + "." + fp; Strip(s) == s && Find(s, ".") == |ip| && s[..|ip|] == ip && s[|ip| + 1..] == fp
  {
    var s := ip + "." + fp;
    assert s[0] == ip[0] && s[|s| - 1] == fp[|fp| - 1];
    StripDigitsEnds(s);
    FirstDot(ip, fp);
    var k := |ip|;
    assert s[..k] == ip;
    assert s[k + 1..] == fp;
  }

  /** `float("<ip>.<fp>")` for digit strings is the decimal value they spell. */
  lemma ParseFloatDecimal(ip: string, fp: string)
    requires ip != [] && fp != [] && AllDigits(ip) && AllDigits(fp)
    ensures ParseFloat(ip + "." + fp) == Some(DecimalValue(ip, fp))
  {
    DecimalShape(ip, fp);
    var s := ip + "." + fp;
    assert s[0] == ip[0];
    ParseFloatAt(s, ip, fp);
  }

  lemma FirstDot(ip: string, fp: string)
    requires AllDigits(ip)
    ensures Find(ip + "." + fp, ".") == |ip|
  {
    var s := ip + "." + fp;
    forall j | 0 <= j < |ip|
      ensures !OccursAt(s, ".", j)
    {
      assert s[j] == ip[j];
      assert s[j..j + 1][0] == s[j];
    }
    assert s[|ip|..|ip| + 1] == ".";
    FindIs(s, ".", |ip|);
  }

  /** `int(t)` on a float: truncation toward zero. */
  function Trunc(t: real): int {
    if t >= 0.0 then t.Floor else -((-t).Floor)
  }

  /** `os.path.join(a, b)` for a relative `b`. */
  function PathJoin(a: string, b: string): string {
    a + "/" + b
  }

  /** `a + s == b + s` only when `a == b`. */
  lemma SameSuffix(a: string, b: string, s: string)
    requires a + s == b + s
    ensures a == b
  {
    assert a == (a + s)[..|a|];
    assert |a| == |b|;
    assert b == (b + s)[..|b|];
  }

  /** `p + a == p + b` only when `a == b`. */
  lemma SamePrefix(p: string, a: string, b: string)
    requires p + a == p + b
    ensures a == b
  {
    assert a == (p + a)[|p|..];
    assert b == (p + b)[|p|..];
  }

  /** `- ` before each item. */
  function Bullets(items: seq<string>): (r: seq<string>)
    ensures |r| == |items| && forall k | 0 <= k < |items| :: r[k] == "- " + items[k]
  {
    seq(|items|, k requires 0 <= k < |items| => "- " + items[k])
  }

  lemma BulletsSnoc(items: seq<string>, k: nat)
    requires k < |items|
    ensures Bullets(items[..k + 1]) == Bullets(items[..k]) + ["- " + items[k]]
  {
  }

  lemma BulletsAppend(items: seq<string>, x: string)
    ensures Bullets(items + [x]) == Bullets(items) + ["- " + x]
  {
  }
}
