/** The title-term grounding check of the summarizer: the words of the
    video title that a summary is expected to mention, and whether the
    one-sentence summary and the key points mention any of them. */
module Grounding {
  import opened Text
  import opened Models

  /** The four characters the title is split at besides white space. */
  predicate IsBracket(c: char) {
    c == '（' || c == '）' || c == '(' || c == ')'
  }

  /** The title with `（` `）` `(` `)` each replaced by a space. */
  function Unbracketed(title: string): (r: string)
    ensures |r| == |title|
    ensures forall i | 0 <= i < |title| :: r[i] == (if IsBracket(title[i]) then ' ' else title[i])
  {
    ReplaceChar(ReplaceChar(ReplaceChar(ReplaceChar(title, '（', ' '), '）', ' '), '(', ' '), ')', ' ')
  }

  /** `[t for t in ts if t]` */
  function NonEmptyTerms(ts: seq<string>): (r: seq<string>)
    ensures |r| <= |ts|
    ensures forall k | 0 <= k < |r| :: r[k] != [] && r[k] in ts
  {
    if ts == [] then []
    else (if ts[0] != [] then [ts[0]] else []) + NonEmptyTerms(ts[1..])
  }

  /** The required terms of a title: each is a non-empty run of
      characters that are not white space. */
  function TitleTerms(title: string): (r: seq<string>)
    ensures forall k | 0 <= k < |r| :: r[k] != [] && forall i | 0 <= i < |r[k]| :: !IsSpace(r[k][i])
  {
    NonEmptyTerms(SplitWs(Unbracketed(title)))
  }

  /** The filter keeps a list with no empty string as it is. */
  lemma {:induction false} NonEmptyTermsIdle(ts: seq<string>)
    requires forall k | 0 <= k < |ts| :: ts[k] != []
    ensures NonEmptyTerms(ts) == ts
  {
    if ts != [] {
      NonEmptyTermsIdle(ts[1..]);
    }
  }

  /** Every character of a word of `s.split()` is a character of `s`. */
  lemma {:induction false} SplitWsChars(s: string)
    ensures forall k, i | 0 <= k < |SplitWs(s)| && 0 <= i < |SplitWs(s)[k]| :: SplitWs(s)[k][i] in s
    decreases |s|
  {
    if s != [] {
      if IsSpace(s[0]) {
        SplitWsChars(s[1..]);
        assert forall c | c in s[1..] :: c in s;
      } else {
        var n := WordLength(s);
        SplitWsChars(s[n..]);
        assert forall c | c in s[n..] :: c in s;
        assert forall i | 0 <= i < n :: s[..n][i] == s[i];
        assert SplitWs(s) == [s[..n]] + SplitWs(s[n..]);
      }
    }
  }

  /** The terms are the words of the title once the brackets are blanked:
      the filter drops nothing, no term is empty or holds a space or a
      bracket, and together they are the title's other characters, in
      order. */
  lemma TitleTermsShape(title: string)
    ensures TitleTerms(title) == SplitWs(Unbracketed(title))
    ensures forall k, i | 0 <= k < |TitleTerms(title)| && 0 <= i < |TitleTerms(title)[k]| ::
      !IsSpace(TitleTerms(title)[k][i]) && !IsBracket(TitleTerms(title)[k][i])
    ensures Concat(TitleTerms(title)) == NonSpace(Unbracketed(title))
  {
    var u := Unbracketed(title);
    NonEmptyTermsIdle(SplitWs(u));
    SplitWsChars(u);
    SplitWsKeepsNonSpace(u);
    forall k, i | 0 <= k < |SplitWs(u)| && 0 <= i < |SplitWs(u)[k]|
      ensures !IsBracket(SplitWs(u)[k][i])
    {
      var c := SplitWs(u)[k][i];
      assert c in u;
      var j :| 0 <= j < |u| && u[j] == c;
    }
  }

  /** `mentions_title_terms`' loop over the terms, on the lowered text. */
  function MentionsAny(lowered: string, terms: seq<string>): bool {
    if terms == [] then false
    else Contains(lowered, Lower(terms[0])) || MentionsAny(lowered, terms[1..])
  }


  lemma {:induction false} MentionsAnyIff(lowered: string, terms: seq<string>)
    ensures MentionsAny(lowered, terms) <==> exists k | 0 <= k < |terms| :: Contains(lowered, Lower(terms[k]))
  {
    if terms != [] {
      MentionsAnyIff(lowered, terms[1..]);
      if MentionsAny(lowered, terms[1..]) {
        var k :| 0 <= k < |terms[1..]| && Contains(lowered, Lower(terms[1..][k]));
        assert terms[k + 1] == terms[1..][k];
      }
      if exists k | 0 <= k < |terms| :: Contains(lowered, Lower(terms[k])) {
        var k :| 0 <= k < |terms| && Contains(lowered, Lower(terms[k]));
        if k > 0 {
          assert terms[1..][k - 1] == terms[k];
        }
      }
    }
  }

  /** `mentions_title_terms(text, terms)`: the check passes exactly when
      there are no terms or the lowered text holds some lowered term. */
  function MentionsTitleTerms(text: string, terms: seq<string>): (r: bool)
    ensures r <==> terms == [] || exists k | 0 <= k < |terms| :: Contains(Lower(text), Lower(terms[k]))
  {
    MentionsAnyIff(Lower(text), terms);
    terms == [] || MentionsAny(Lower(text), terms)
  }

  /** The text the check reads: the one-sentence summary and the key points,
      joined by spaces. */
  function CombinedText(r: SummaryResult): string {
    Join(" ", [r.oneSentenceSummary] + r.keyPoints)
  }

  /** The combined text opens with the one-sentence summary. */
  lemma CombinedTextStarts(r: SummaryResult)
    ensures StartsWith(CombinedText(r), r.oneSentenceSummary)
  {
    var parts := [r.oneSentenceSummary] + r.keyPoints;
    if |parts| > 1 {
      assert CombinedText(r) == r.oneSentenceSummary + (" " + Join(" ", parts[1..]));
    }
  }

  lemma LowerPrefix(s: string, p: string)
    requires StartsWith(s, p)
    ensures StartsWith(Lower(s), Lower(p))
  {
    assert Lower(s)[..|p|] == Lower(p);
  }

  lemma OccursInPrefix(s: string, p: string, pat: string, j: nat)
    requires StartsWith(s, p) && OccursAt(p, pat, j)
    ensures OccursAt(s, pat, j)
  {
    assert s[j..j + |pat|] == p[j..j + |pat|];
  }

  /** A one-sentence summary that mentions a term is enough for the check,
      whatever the key points say. */
  lemma SummarySentenceGrounds(r: SummaryResult, terms: seq<string>, k: nat)
    requires k < |terms| && Contains(Lower(r.oneSentenceSummary), Lower(terms[k]))
    ensures MentionsTitleTerms(CombinedText(r), terms)
  {
    var s := Lower(r.oneSentenceSummary);
    var j := Find(s, Lower(terms[k]));
    CombinedTextStarts(r);
    LowerPrefix(CombinedText(r), r.oneSentenceSummary);
    OccursInPrefix(Lower(CombinedText(r)), s, Lower(terms[k]), j);
    ContainsAt(Lower(CombinedText(r)), Lower(terms[k]), j);
  }

  /** A title of brackets and spaces only has no terms, so every summary
      passes the check. */
  lemma BlankTitleAlwaysGrounded(title: string, r: SummaryResult)
    requires forall i | 0 <= i < |title| :: IsSpace(title[i]) || IsBracket(title[i])
    ensures TitleTerms(title) == []
    ensures MentionsTitleTerms(CombinedText(r), TitleTerms(title))
  {
    var u := Unbracketed(title);
    assert IsBlank(u);
    SplitWsBlank(u);
  }

  /** A blank string has no words. */
  lemma {:induction false} SplitWsBlank(s: string)
    requires IsBlank(s)
    ensures SplitWs(s) == []
  {
    if s != [] {
      SplitWsBlank(s[1..]);
    }
  }
}
