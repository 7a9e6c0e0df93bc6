/** Picking the best of a list of scored tracks. Bilibili keeps the first
    candidate whose score is strictly higher than every earlier one; YouTube
    sorts stably by a rank key and takes the head, which is the first
    candidate of least key. */
module Ranking {
  import opened Text

  /** The index of the first maximum of `xs`: the position a scan that
      replaces its choice only on a strictly higher score ends on. */
  function FirstMax(xs: seq<int>): (k: nat)
    requires xs != []
    ensures k < |xs|
    ensures forall i | 0 <= i < |xs| :: xs[i] <= xs[k]
    ensures forall i | 0 <= i < k :: xs[i] < xs[k]
  {
    if |xs| == 1 then 0
    else
      var k := FirstMax(xs[..|xs| - 1]);
      if xs[|xs| - 1] > xs[k] then |xs| - 1 else k
  }

  /** A sort key: a pair compared lexicographically, as Python compares
      tuples. */
  type Rank = (real, real)

  /** `a < b` on keys. */
  predicate Below(a: Rank, b: Rank) {
    a.0 < b.0 || (a.0 == b.0 && a.1 < b.1)
  }

  /** The index of the first least key of `xs`. */
  function FirstMin(xs: seq<Rank>): (k: nat)
    requires xs != []
    ensures k < |xs|
    ensures forall i | 0 <= i < |xs| :: !Below(xs[i], xs[k])
    ensures forall i | 0 <= i < k :: Below(xs[k], xs[i])
  {
    if |xs| == 1 then 0
    else
      var k := FirstMin(xs[..|xs| - 1]);
      if Below(xs[|xs| - 1], xs[k]) then |xs| - 1 else k
  }

  /** A first maximum is unique: any index holding a maximum with only
      smaller values before it is the one `FirstMax` picks. */
  lemma FirstMaxUnique(xs: seq<int>, j: nat)
    requires j < |xs|
    requires forall i | 0 <= i < |xs| :: xs[i] <= xs[j]
    requires forall i | 0 <= i < j :: xs[i] < xs[j]
    ensures FirstMax(xs) == j
  {
  }

  /** Extending a list keeps its first maximum unless the new value beats it. */
  lemma FirstMaxSnoc(xs: seq<int>, x: int)
    requires xs != []
    ensures FirstMax(xs + [x]) == if x > xs[FirstMax(xs)] then |xs| else FirstMax(xs)
  {
    assert (xs + [x])[..|xs|] == xs;
  }

  lemma FirstMinSnoc(xs: seq<Rank>, x: Rank)
    requires xs != []
    ensures FirstMin(xs + [x]) == if Below(x, xs[FirstMin(xs)]) then |xs| else FirstMin(xs)
  {
    assert (xs + [x])[..|xs|] == xs;
  }

  /** One step of a left-to-right scan for the first maximum. */
  lemma FirstMaxStep(xs: seq<int>, i: nat, best: nat)
    requires i < |xs|
    requires 0 < i ==> best == FirstMax(xs[..i])
    ensures i == 0 ==> FirstMax(xs[..i + 1]) == 0
    ensures 0 < i ==> FirstMax(xs[..i + 1]) == if xs[i] > xs[best] then i else best
  {
    assert xs[..i + 1] == xs[..i] + [xs[i]];
    if 0 < i {
      FirstMaxSnoc(xs[..i], xs[i]);
    }
  }

  /** The first index whose value equals `x`, or `|xs|` when there is none:
      the `for i, p in enumerate(prefs): if p == x` search. */
  function IndexOf<T(==)>(xs: seq<T>, x: T): (k: nat)
    ensures k <= |xs|
    ensures k < |xs| ==> xs[k] == x
    ensures forall i | 0 <= i < k :: xs[i] != x
  {
    if xs == [] then 0
    else if xs[0] == x then 0
    else 1 + IndexOf(xs[1..], x)
  }

  /** The first preference equal to `lang` ignoring case, or `|prefs|`. */
  function PrefIndex(prefs: seq<string>, lang: string): (k: nat)
    ensures k <= |prefs|
    ensures k < |prefs| ==> Lower(prefs[k]) == Lower(lang)
    ensures forall i | 0 <= i < k :: Lower(prefs[i]) != Lower(lang)
  {
    if prefs == [] then 0
    else if Lower(prefs[0]) == Lower(lang) then 0
    else 1 + PrefIndex(prefs[1..], lang)
  }
}
