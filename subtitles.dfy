/** The subtitle metadata both providers receive from the extractor: a
    dict from language code to one item or a list of items, and the
    `(lang, url, ext)` candidates collected from it. */
module Subtitles {
  import opened Wrappers
  import opened Text
  import opened Seqs

  /** One entry of a language's value: a dict with an optional `url` and
      `ext`, or something that is not a dict. */
  datatype SubItem = SubDict(url: Option<string>, ext: Option<string>) | NotDict

  /** A language's value: a list of items, or a single item. */
  datatype SubValue = ItemList(items: seq<SubItem>) | Single(item: SubItem)

  /** A subtitles dict in its iteration order; a missing dict is empty. */
  type SubsDict = seq<(string, SubValue)>

  datatype Candidate = Candidate(lang: string, url: string, ext: string)

  /** `items if isinstance(items, list) else [items]` */
  function ItemsOf(v: SubValue): seq<SubItem> {
    match v
    case ItemList(items) => items
    case Single(item) => [item]
  }

  /** A dict item with a truthy `url` yields a candidate whose extension is
      `(it.get('ext') or '').lower()`; any other item yields nothing. */
  function ItemCandidates(lang: string, it: SubItem): (r: seq<Candidate>)
    ensures |r| <= 1
    ensures r != [] <==> it.SubDict? && it.url.Some? && it.url.value != []
    ensures r != [] ==> r[0] == Candidate(lang, it.url.value, Lower(it.ext.GetOr("")))
  {
    if it.SubDict? && it.url.Some? && it.url.value != [] then [Candidate(lang, it.url.value, Lower(it.ext.GetOr("")))]
    else []
  }

  /** The candidates of one language's items, in item order. */
  function LangCandidates(lang: string, items: seq<SubItem>): seq<Candidate> {
    if items == [] then [] else ItemCandidates(lang, items[0]) + LangCandidates(lang, items[1..])
  }

  /** The candidates of the whole dict, language by language. */
  function Candidates(subs: SubsDict): seq<Candidate> {
    if subs == [] then [] else LangCandidates(subs[0].0, ItemsOf(subs[0].1)) + Candidates(subs[1..])
  }

  /** Every candidate comes from an item of its language and has a non-empty URL. */
  lemma {:induction false} LangCandidatesFrom(lang: string, items: seq<SubItem>)
    ensures forall c | c in LangCandidates(lang, items) ::
      c.lang == lang && c.url != [] && exists it | it in items :: it.SubDict? && it.url == Some(c.url)
  {
    if items != [] {
      LangCandidatesFrom(lang, items[1..]);
      forall c | c in LangCandidates(lang, items)
        ensures c.lang == lang && c.url != [] && exists it | it in items :: it.SubDict? && it.url == Some(c.url)
      {
        if c in ItemCandidates(lang, items[0]) {
          assert items[0] in items;
        } else {
          assert c in LangCandidates(lang, items[1..]);
          var it :| it in items[1..] && it.SubDict? && it.url == Some(c.url);
          assert it in items;
        }
      }
    }
  }

  /** `[c for c in candidates if c[2] != 'xml']` */
  function NonXml(cs: seq<Candidate>): (r: seq<Candidate>)
    ensures forall c | c in r :: c in cs && c.ext != "xml"
    ensures forall c | c in cs && c.ext != "xml" :: c in r
    ensures |r| <= |cs|
  {
    if cs == [] then []
    else (if cs[0].ext != "xml" then [cs[0]] else []) + NonXml(cs[1..])
  }

  /** The collection loop of both providers: for each language, append the
      candidates of its items. */
  method CollectCandidates(subs: SubsDict) returns (candidates: seq<Candidate>)
    ensures candidates == Candidates(subs)
  {
    candidates := [];
    var i := 0;
    while i < |subs|
      invariant 0 <= i <= |subs|
      invariant candidates + Candidates(subs[i..]) == Candidates(subs)
    {
      CandidatesStep(subs, i);
      var found := CollectLang(subs[i].0, ItemsOf(subs[i].1));
      assert (candidates + found) + Candidates(subs[i + 1..]) == candidates + Candidates(subs[i..]);
      candidates := candidates + found;
      i := i + 1;
    }
    assert subs[i..] == [];
  }

  /** The inner loop: for each item of one language, append the candidate
      the item yields, if any. */
  method CollectLang(lang: string, items: seq<SubItem>) returns (found: seq<Candidate>)
    ensures found == LangCandidates(lang, items)
  {
    found := [];
    var j := 0;
    while j < |items|
      invariant 0 <= j <= |items|
      invariant found + LangCandidates(lang, items[j..]) == LangCandidates(lang, items)
    {
      LangCandidatesStep(lang, items, j);
      var it := items[j];
      ghost var step := ItemCandidates(lang, it);
      if it.SubDict? && it.url.Some? && it.url.value != [] {
        var c := Candidate(lang, it.url.value, Lower(it.ext.GetOr("")));
        assert step == [c];
        found := found + [c];
      } else {
        assert step == [];
      }
      assert found + LangCandidates(lang, items[j + 1..]) == LangCandidates(lang, items);
      j := j + 1;
    }
    assert items[j..] == [];
  }

  lemma LangCandidatesStep(lang: string, items: seq<SubItem>, j: int)
    requires 0 <= j < |items|
    ensures LangCandidates(lang, items[j..]) == ItemCandidates(lang, items[j]) + LangCandidates(lang, items[j + 1..])
  {
    assert items[j..][1..] == items[j + 1..];
  }

  lemma CandidatesStep(subs: SubsDict, i: int)
    requires 0 <= i < |subs|
    ensures Candidates(subs[i..]) == LangCandidates(subs[i].0, ItemsOf(subs[i].1)) + Candidates(subs[i + 1..])
  {
    assert subs[i..][1..] == subs[i + 1..];
  }
}
