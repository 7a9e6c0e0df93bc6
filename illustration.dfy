/** The keyframe and vision steps of `summarize`: which keyframes are
    requested from the extractor, the default frames added when the model
    chose none, the positional hand-out of the extracted image paths, and
    the vision pass that may replace a chapter's bullets. The source
    mutates the chapter and keyframe objects it collected; here the
    chapters are values and a request is the position of its keyframe. */
module Illustration {
  import opened Wrappers
  import opened Text
  import opened Models
  import opened Ranking
  import opened Sorting
  import opened JsonValues
  import opened Llm

  // ---------------------------------------------------------------------
  // Requests.
  // ---------------------------------------------------------------------

  /** Keyframe `frame` of chapter `chapter`: one `(kf, chapter)` pair. */
  datatype Ref = Ref(chapter: nat, frame: nat)

  predicate ValidRef(chs: seq<Chapter>, r: Ref) {
    r.chapter < |chs| && r.frame < |KeyframesOf(chs[r.chapter])|
  }

  predicate ValidRefs(chs: seq<Chapter>, rs: seq<Ref>) {
    forall k | 0 <= k < |rs| :: ValidRef(chs, rs[k])
  }

  /** Chapter order first, then keyframe order. */
  predicate Precedes(r: Ref, s: Ref) {
    r.chapter < s.chapter || (r.chapter == s.chapter && r.frame < s.frame)
  }

  /** No keyframe is requested twice. */
  predicate DistinctRefs(rs: seq<Ref>) {
    forall i, j | 0 <= i < j < |rs| :: rs[i] != rs[j]
  }

  function FrameRefs(c: nat, m: nat): (rs: seq<Ref>)
    ensures |rs| == m && forall j | 0 <= j < m :: rs[j] == Ref(c, j)
  {
    seq(m, j requires 0 <= j < m => Ref(c, j))
  }

  /** The pairs one chapter contributes: none unless `chapter.keyframes`
      is a non-empty list. */
  function ChapterRefs(chs: seq<Chapter>, c: nat): seq<Ref>
    requires c < |chs|
  {
    if HasKeyframes(chs[c]) then FrameRefs(c, |chs[c].keyframes.value|) else []
  }

  /** The requests collected from the first `n` chapters. */
  function RequestsOf(chs: seq<Chapter>, n: nat): seq<Ref>
    requires n <= |chs|
  {
    if n == 0 then [] else RequestsOf(chs, n - 1) + ChapterRefs(chs, n - 1)
  }

  function Requests(chs: seq<Chapter>): seq<Ref> {
    RequestsOf(chs, |chs|)
  }

  /** Every request names an existing keyframe of one of the first `n`
      chapters. */
  lemma {:induction false} RequestsValid(chs: seq<Chapter>, n: nat)
    requires n <= |chs|
    ensures forall k | 0 <= k < |RequestsOf(chs, n)| :: ValidRef(chs, RequestsOf(chs, n)[k]) && RequestsOf(chs, n)[k].chapter < n
  {
    if n > 0 {
      RequestsValid(chs, n - 1);
      var p := RequestsOf(chs, n - 1);
      var r := RequestsOf(chs, n);
      assert forall k | 0 <= k < |p| :: r[k] == p[k];
      assert forall k | |p| <= k < |r| :: r[k] == ChapterRefs(chs, n - 1)[k - |p|];
    }
  }

  /** Every keyframe of the first `n` chapters is requested. */
  lemma {:induction false} RequestsComplete(chs: seq<Chapter>, n: nat)
    requires n <= |chs|
    ensures forall c, j | 0 <= c < n && 0 <= j < |KeyframesOf(chs[c])| :: Ref(c, j) in RequestsOf(chs, n)
  {
    if n > 0 {
      RequestsComplete(chs, n - 1);
      var p := RequestsOf(chs, n - 1);
      var r := RequestsOf(chs, n);
      assert r == p + ChapterRefs(chs, n - 1);
      forall c, j | 0 <= c < n && 0 <= j < |KeyframesOf(chs[c])| ensures Ref(c, j) in r {
        if c < n - 1 {
          assert Ref(c, j) in p;
        } else {
          assert HasKeyframes(chs[c]);
          assert ChapterRefs(chs, c)[j] == Ref(c, j);
          assert r[|p| + j] == Ref(c, j);
        }
      }
    }
  }

  /** Requests follow chapter order, then keyframe order. */
  lemma {:induction false} RequestsOrdered(chs: seq<Chapter>, n: nat)
    requires n <= |chs|
    ensures forall i, j | 0 <= i < j < |RequestsOf(chs, n)| :: Precedes(RequestsOf(chs, n)[i], RequestsOf(chs, n)[j])
  {
    if n > 0 {
      RequestsOrdered(chs, n - 1);
      RequestsValid(chs, n - 1);
      var p := RequestsOf(chs, n - 1);
      var r := RequestsOf(chs, n);
      assert forall k | 0 <= k < |p| :: r[k] == p[k];
      assert forall k | |p| <= k < |r| :: r[k] == Ref(n - 1, k - |p|);
    }
  }

  /** The requests are exactly the keyframes the model chose, each once, in
      chapter order then keyframe order. */
  lemma RequestsExact(chs: seq<Chapter>)
    ensures ValidRefs(chs, Requests(chs))
    ensures forall c, j | 0 <= c < |chs| && 0 <= j < |KeyframesOf(chs[c])| :: Ref(c, j) in Requests(chs)
    ensures forall i, j | 0 <= i < j < |Requests(chs)| :: Precedes(Requests(chs)[i], Requests(chs)[j])
    ensures DistinctRefs(Requests(chs))
  {
    RequestsValid(chs, |chs|);
    RequestsComplete(chs, |chs|);
    RequestsOrdered(chs, |chs|);
  }

  /** The fallback runs exactly when no chapter has a keyframe. */
  lemma NoRequests(chs: seq<Chapter>)
    ensures Requests(chs) == [] <==> forall c | 0 <= c < |chs| :: !HasKeyframes(chs[c])
  {
    RequestsExact(chs);
    forall c | 0 <= c < |chs| && HasKeyframes(chs[c]) ensures Ref(c, 0) in Requests(chs) {
      assert 0 < |KeyframesOf(chs[c])|;
    }
    if Requests(chs) != [] {
      var r := Requests(chs)[0];
      assert ValidRef(chs, r);
    }
  }

  // ---------------------------------------------------------------------
  // The default frames.
  // ---------------------------------------------------------------------

  function Length(c: Chapter): real {
    c.endTime - c.startTime
  }

  function Indices(n: nat): (r: seq<nat>)
    ensures |r| == n && forall i | 0 <= i < n :: r[i] == i
  {
    seq(n, i requires 0 <= i < n => i)
  }

  /** `key=lambda c: c.end_time - c.start_time, reverse=True` on chapter
      indices: a stable sort on the negated length. */
  function LongerFirst(chs: seq<Chapter>): nat -> Rank {
    (i: nat) => if i < |chs| then (-Length(chs[i]), 0.0) else (0.0, 0.0)
  }

  /** `key=lambda c: c.start_time` */
  function EarlierFirst(chs: seq<Chapter>): nat -> Rank {
    (i: nat) => if i < |chs| then (chs[i].startTime, 0.0) else (0.0, 0.0)
  }

  /** `s[:k]` */
  function Take<T>(s: seq<T>, k: nat): (r: seq<T>)
    ensures |r| == if |s| <= k then |s| else k
    ensures r == s[..|r|]
  {
    if |s| <= k then s else s[..k]
  }

  /** The five longest chapters (ties kept in chapter order)... */
  function Longest(chs: seq<Chapter>): seq<nat> {
    Take(SortBy(Indices(|chs|), LongerFirst(chs)), 5)
  }

  /** ...put back in start-time order. */
  function Picked(chs: seq<Chapter>): seq<nat> {
    SortBy(Longest(chs), EarlierFirst(chs))
  }

  /** `KeyFrame(timestamp=<midpoint>, description=f"Overview of {title}")` */
  function DefaultFrame(c: Chapter): (k: KeyFrame)
    ensures Length(c) >= 0.0 ==> c.startTime <= k.timestamp <= c.endTime
  {
    NewKeyFrame(c.startTime + (c.endTime - c.startTime) / 2.0, "Overview of " + c.title)
  }

  /** `chapter.keyframes = [kf]` for the first `m` picked chapters. */
  function Install(chs: seq<Chapter>, ps: seq<nat>, m: nat): (r: seq<Chapter>)
    requires m <= |ps| && forall k | 0 <= k < |ps| :: ps[k] < |chs|
    ensures |r| == |chs|
  {
    if m == 0 then chs
    else
      var prev := Install(chs, ps, m - 1);
      var p := ps[m - 1];
      prev[p := prev[p].(keyframes := Some([DefaultFrame(prev[p])]))]
  }

  /** The picked chapters get their one default frame; the others are left
      as they were. */
  lemma {:induction false} InstallEffect(chs: seq<Chapter>, ps: seq<nat>, m: nat)
    requires m <= |ps| && forall k | 0 <= k < |ps| :: ps[k] < |chs|
    ensures forall q | 0 <= q < |chs| ::
      Install(chs, ps, m)[q] == if q in ps[..m] then chs[q].(keyframes := Some([DefaultFrame(chs[q])])) else chs[q]
  {
    if m > 0 {
      InstallEffect(chs, ps, m - 1);
      assert ps[..m] == ps[..m - 1] + [ps[m - 1]];
    }
  }

  /** The requests of the default frames: keyframe 0 of each picked chapter,
      in the picked order. */
  function DefaultRefs(ps: seq<nat>): (rs: seq<Ref>)
    ensures |rs| == |ps| && forall k | 0 <= k < |ps| :: rs[k] == Ref(ps[k], 0)
  {
    seq(|ps|, k requires 0 <= k < |ps| => Ref(ps[k], 0))
  }

  lemma DefaultRefsSnoc(ps: seq<nat>, k: nat)
    requires k < |ps|
    ensures DefaultRefs(ps[..k + 1]) == DefaultRefs(ps[..k]) + [Ref(ps[k], 0)]
  {
    assert forall i | 0 <= i < k :: ps[..k + 1][i] == ps[..k][i];
  }

  /** Each index occurs at most once. */
  ghost predicate Distinct(s: seq<nat>) {
    forall x :: multiset(s)[x] <= 1
  }

  lemma {:induction false} IndicesDistinct(n: nat)
    ensures Distinct(Indices(n))
  {
    if n > 0 {
      IndicesDistinct(n - 1);
      assert Indices(n) == Indices(n - 1) + [n - 1];
      assert n - 1 !in Indices(n - 1);
    }
  }

  lemma DistinctAt(s: seq<nat>, i: nat, j: nat)
    requires Distinct(s) && i < j < |s|
    ensures s[i] != s[j]
  {
    assert s == s[..j] + s[j..];
    assert multiset(s) == multiset(s[..j]) + multiset(s[j..]);
    assert s[..j][i] == s[i] && s[j..][0] == s[j];
    assert s[i] in multiset(s[..j]) && s[j] in multiset(s[j..]);
    assert multiset(s)[s[i]] == multiset(s[..j])[s[i]] + multiset(s[j..])[s[i]];
  }

  lemma TakeSub<T>(s: seq<T>, k: nat)
    ensures multiset(Take(s, k)) <= multiset(s)
  {
    if |s| > k {
      assert s == s[..k] + s[k..];
    }
  }

  /** The picked indices: at most five, in range and distinct. */
  lemma PickedIndices(chs: seq<Chapter>)
    ensures |Picked(chs)| == if |chs| <= 5 then |chs| else 5
    ensures forall k | 0 <= k < |Picked(chs)| :: Picked(chs)[k] < |chs|
    ensures Distinct(Picked(chs))
  {
    var all: seq<nat> := Indices(|chs|);
    var top: seq<nat> := Longest(chs);
    var ps: seq<nat> := Picked(chs);
    IndicesDistinct(|chs|);
    TakeSub(SortBy(all, LongerFirst(chs)), 5);
    assert multiset(ps) <= multiset(all);
    forall k | 0 <= k < |ps| ensures ps[k] < |chs| {
      assert ps[k] in multiset(all);
    }
  }

  /** The picked chapters are listed by start time. */
  lemma PickedOrdered(chs: seq<Chapter>)
    ensures forall i, j | 0 <= i < j < |Picked(chs)| && Picked(chs)[j] < |chs| && Picked(chs)[i] < |chs| ::
      chs[Picked(chs)[i]].startTime <= chs[Picked(chs)[j]].startTime
  {
    var ps: seq<nat> := Picked(chs);
    SortBySorted(Longest(chs), EarlierFirst(chs));
    forall i, j | 0 <= i < j < |ps| && ps[j] < |chs| && ps[i] < |chs|
      ensures chs[ps[i]].startTime <= chs[ps[j]].startTime
    {
      assert !Below(EarlierFirst(chs)(ps[j]), EarlierFirst(chs)(ps[i]));
    }
  }

  /** No chapter is passed over for a shorter one. */
  lemma PickedLongest(chs: seq<Chapter>)
    ensures forall k, q | 0 <= k < |Picked(chs)| && 0 <= q < |chs| && q !in Picked(chs) && Picked(chs)[k] < |chs| ::
      Length(chs[q]) <= Length(chs[Picked(chs)[k]])
  {
    var all: seq<nat> := Indices(|chs|);
    var byLength := SortBy(all, LongerFirst(chs));
    var top: seq<nat> := Longest(chs);
    var ps: seq<nat> := Picked(chs);
    assert multiset(ps) == multiset(top);
    SortBySorted(all, LongerFirst(chs));
    forall k, q | 0 <= k < |ps| && 0 <= q < |chs| && q !in ps && ps[k] < |chs|
      ensures Length(chs[q]) <= Length(chs[ps[k]])
    {
      assert all[q] == q;
      assert q in multiset(byLength);
      var b :| 0 <= b < |byLength| && byLength[b] == q;
      assert ps[k] in multiset(top);
      var a :| 0 <= a < |top| && top[a] == ps[k];
      assert byLength[a] == ps[k];
      assert forall x | x in top :: x in multiset(ps);
      assert q !in top;
      assert b >= |top|;
      assert !Below(LongerFirst(chs)(byLength[b]), LongerFirst(chs)(byLength[a]));
    }
  }

  /** The fallback takes at most five distinct chapters, lists them by start
      time, and takes no chapter while a longer one is left out. */
  lemma PickedSpec(chs: seq<Chapter>)
    ensures |Picked(chs)| == if |chs| <= 5 then |chs| else 5
    ensures forall k | 0 <= k < |Picked(chs)| :: Picked(chs)[k] < |chs|
    ensures Distinct(Picked(chs))
    ensures forall i, j | 0 <= i < j < |Picked(chs)| :: chs[Picked(chs)[i]].startTime <= chs[Picked(chs)[j]].startTime
    ensures forall k, q | 0 <= k < |Picked(chs)| && 0 <= q < |chs| && q !in Picked(chs) ::
      Length(chs[q]) <= Length(chs[Picked(chs)[k]])
  {
    PickedIndices(chs);
    PickedOrdered(chs);
    PickedLongest(chs);
  }

  /** The chapters and the requests the keyframe step works on. */
  function Prepared(chs: seq<Chapter>): (seq<Chapter>, seq<Ref>) {
    var reqs := Requests(chs);
    if reqs != [] then (chs, reqs)
    else
      PickedSpec(chs);
      (Install(chs, Picked(chs), |Picked(chs)|), DefaultRefs(Picked(chs)))
  }

  /** Without a chosen keyframe, the picked chapters, and only they, get one
      default frame each, and those frames are what is requested. */
  lemma DefaultFrames(chs: seq<Chapter>)
    requires Requests(chs) == []
    ensures var (out, reqs) := Prepared(chs);
      reqs == DefaultRefs(Picked(chs))
      && forall q | 0 <= q < |chs| ::
        out[q] == if q in Picked(chs) then chs[q].(keyframes := Some([DefaultFrame(chs[q])])) else chs[q]
  {
    PickedSpec(chs);
    InstallEffect(chs, Picked(chs), |Picked(chs)|);
    assert Picked(chs)[..|Picked(chs)|] == Picked(chs);
  }

  /** The prepared requests are valid and distinct. */
  lemma PreparedValid(chs: seq<Chapter>)
    ensures var (out, reqs) := Prepared(chs);
      |out| == |chs| && ValidRefs(out, reqs) && DistinctRefs(reqs)
  {
    RequestsExact(chs);
    if Requests(chs) == [] {
      var ps := Picked(chs);
      PickedSpec(chs);
      DefaultFrames(chs);
      var (out, reqs) := Prepared(chs);
      forall k | 0 <= k < |reqs| ensures ValidRef(out, reqs[k]) {
        assert ps[k] in ps;
      }
      forall i, j | 0 <= i < j < |reqs| ensures reqs[i] != reqs[j] {
        DistinctAt(ps, i, j);
      }
    }
  }

  /** `[req[0].timestamp for req in all_kf_requests]` */
  function Timestamps(chs: seq<Chapter>, reqs: seq<Ref>): (ts: seq<real>)
    requires ValidRefs(chs, reqs)
    ensures |ts| == |reqs|
  {
    seq(|reqs|, i requires 0 <= i < |reqs| => KeyframesOf(chs[reqs[i].chapter])[reqs[i].frame].timestamp)
  }

  // ---------------------------------------------------------------------
  // Handing out the image paths.
  // ---------------------------------------------------------------------

  /** The image path of the keyframe `r` names. */
  function Image(chs: seq<Chapter>, r: Ref): Option<string>
    requires ValidRef(chs, r)
  {
    KeyframesOf(chs[r.chapter])[r.frame].imagePath
  }

  /** Same chapters, each with the same number of keyframes. */
  predicate SameShape(a: seq<Chapter>, b: seq<Chapter>) {
    |a| == |b| && forall c | 0 <= c < |a| :: |KeyframesOf(a[c])| == |KeyframesOf(b[c])|
  }

  /** `kf.image_path = path` */
  function SetImage(chs: seq<Chapter>, r: Ref, path: string): (out: seq<Chapter>)
    requires ValidRef(chs, r)
    ensures SameShape(out, chs)
  {
    var c := chs[r.chapter];
    var kfs := c.keyframes.value;
    chs[r.chapter := c.(keyframes := Some(kfs[r.frame := kfs[r.frame].(imagePath := Some(path))]))]
  }

  /** The keyframe `r` gets the path; every other keyframe keeps its own. */
  lemma SetImageEffect(chs: seq<Chapter>, r: Ref, path: string, x: Ref)
    requires ValidRef(chs, r) && ValidRef(chs, x)
    ensures ValidRef(SetImage(chs, r, path), x)
    ensures Image(SetImage(chs, r, path), x) == if x == r then Some(path) else Image(chs, x)
  {
  }

  /** The first `m` requests get their paths. */
  function Assign(chs: seq<Chapter>, reqs: seq<Ref>, paths: seq<string>, m: nat): (out: seq<Chapter>)
    requires m <= |reqs| && m <= |paths| && ValidRefs(chs, reqs)
    ensures SameShape(out, chs)
  {
    if m == 0 then chs
    else
      var prev := Assign(chs, reqs, paths, m - 1);
      assert ValidRef(prev, reqs[m - 1]);
      SetImage(prev, reqs[m - 1], paths[m - 1])
  }

  function Min(a: nat, b: nat): nat {
    if a <= b then a else b
  }

  /** `for i, path in enumerate(paths): if i < len(all_kf_requests): ...` */
  function Assigned(chs: seq<Chapter>, reqs: seq<Ref>, paths: seq<string>): (out: seq<Chapter>)
    requires ValidRefs(chs, reqs)
    ensures SameShape(out, chs)
  {
    Assign(chs, reqs, paths, Min(|paths|, |reqs|))
  }

  /** Request `k` gets path `k` for every `k` below `m`. */
  lemma {:induction false} AssignHits(chs: seq<Chapter>, reqs: seq<Ref>, paths: seq<string>, m: nat)
    requires m <= |reqs| && m <= |paths| && ValidRefs(chs, reqs) && DistinctRefs(reqs)
    ensures forall k | 0 <= k < m :: Image(Assign(chs, reqs, paths, m), reqs[k]) == Some(paths[k])
  {
    if m > 0 {
      AssignHits(chs, reqs, paths, m - 1);
      var prev := Assign(chs, reqs, paths, m - 1);
      var r := reqs[m - 1];
      assert ValidRef(prev, r);
      assert Assign(chs, reqs, paths, m) == SetImage(prev, r, paths[m - 1]);
      forall k | 0 <= k < m ensures Image(Assign(chs, reqs, paths, m), reqs[k]) == Some(paths[k]) {
        assert ValidRef(prev, reqs[k]);
        SetImageEffect(prev, r, paths[m - 1], reqs[k]);
      }
    }
  }

  /** The keyframes not requested in the first `m` keep their image path. */
  lemma {:induction false} AssignKeeps(chs: seq<Chapter>, reqs: seq<Ref>, paths: seq<string>, m: nat)
    requires m <= |reqs| && m <= |paths| && ValidRefs(chs, reqs)
    ensures forall x | ValidRef(chs, x) && x !in reqs[..m] :: Image(Assign(chs, reqs, paths, m), x) == Image(chs, x)
  {
    if m > 0 {
      AssignKeeps(chs, reqs, paths, m - 1);
      var prev := Assign(chs, reqs, paths, m - 1);
      var r := reqs[m - 1];
      assert ValidRef(prev, r);
      assert Assign(chs, reqs, paths, m) == SetImage(prev, r, paths[m - 1]);
      assert reqs[..m] == reqs[..m - 1] + [r];
      forall x | ValidRef(chs, x) && x !in reqs[..m] ensures Image(Assign(chs, reqs, paths, m), x) == Image(chs, x) {
        assert ValidRef(prev, x);
        SetImageEffect(prev, r, paths[m - 1], x);
      }
    }
  }

  /** Paths go to requests by position: request `i` gets `paths[i]` while
      both lists last, the rest keep theirs. A dropped extraction therefore
      hands each later path to the request before its own. */
  lemma AssignedByPosition(chs: seq<Chapter>, reqs: seq<Ref>, paths: seq<string>)
    requires ValidRefs(chs, reqs) && DistinctRefs(reqs)
    ensures forall k | 0 <= k < |reqs| && k < |paths| :: Image(Assigned(chs, reqs, paths), reqs[k]) == Some(paths[k])
    ensures forall k | |paths| <= k < |reqs| :: Image(Assigned(chs, reqs, paths), reqs[k]) == Image(chs, reqs[k])
  {
    var m := Min(|paths|, |reqs|);
    AssignHits(chs, reqs, paths, m);
    AssignKeeps(chs, reqs, paths, m);
    forall k | |paths| <= k < |reqs| ensures Image(Assigned(chs, reqs, paths), reqs[k]) == Image(chs, reqs[k]) {
      assert forall i | 0 <= i < m :: reqs[..m][i] == reqs[i] != reqs[k];
      assert reqs[k] !in reqs[..m];
    }
  }

  // ---------------------------------------------------------------------
  // The vision pass.
  // ---------------------------------------------------------------------

  /** `[kf.image_path for kf in keyframes if kf.image_path]` */
  function ImagesOf(kfs: seq<KeyFrame>): (r: seq<string>)
    ensures |r| <= |kfs|
  {
    if kfs == [] then []
    else (if IsSet(kfs[0].imagePath) then [kfs[0].imagePath.value] else []) + ImagesOf(kfs[1..])
  }

  lemma {:induction false} ImagesOfEmpty(kfs: seq<KeyFrame>)
    ensures ImagesOf(kfs) == [] <==> forall k | 0 <= k < |kfs| :: !IsSet(kfs[k].imagePath)
  {
    if kfs != [] {
      ImagesOfEmpty(kfs[1..]);
      assert forall k | 1 <= k < |kfs| :: kfs[k] == kfs[1..][k - 1];
    }
  }

  /** `any(kf.image_path for c in chapters for kf in c.keyframes or [])` */
  predicate AnyImages(chs: seq<Chapter>) {
    exists c, k | 0 <= c < |chs| && 0 <= k < |KeyframesOf(chs[c])| :: IsSet(KeyframesOf(chs[c])[k].imagePath)
  }

  /** The images sent for a chapter: the first six, less those that cannot
      be read. */
  function Readable(paths: seq<string>, readable: string -> bool): (r: seq<string>)
    ensures |r| <= |paths|
  {
    if paths == [] then []
    else (if readable(paths[0]) then [paths[0]] else []) + Readable(paths[1..], readable)
  }

  function VisionRequest(c: Chapter, readable: string -> bool): Request {
    VisionCall(c.title, Trunc(c.startTime), Trunc(c.endTime), c.summary, Readable(Take(ImagesOf(KeyframesOf(c)), 6), readable))
  }

  predicate IsText(j: Json) {
    j.JString?
  }

  /** `new_bullets = data.get("summary") or []` kept when it is a non-empty
      list; None when the reply does not decode to an object or the list
      is empty or missing. */
  function NewBullets(data: Option<Json>): (r: Option<seq<string>>)
    ensures r.Some? ==>
      r.value != [] && data.Some? && data.value.JObject? && Get(data.value, "summary") == Some(JArray(Texts(r.value)))
  {
    if data.None? || !data.value.JObject? then None
    else
      var v := GetTruthy(data.value, "summary", JArray([]));
      if v.JArray? && v.items != [] && forall i | 0 <= i < |v.items| :: IsText(v.items[i])
      then
        var bullets := seq(|v.items|, i requires 0 <= i < |v.items| && IsText(v.items[i]) => v.items[i].s);
        assert Texts(bullets) == v.items;
        Some(bullets)
      else None
  }

  /** The JSON strings of `ss`. */
  function Texts(ss: seq<string>): (r: seq<Json>)
    ensures |r| == |ss| && forall i | 0 <= i < |ss| :: r[i] == JString(ss[i])
  {
    seq(|ss|, i requires 0 <= i < |ss| => JString(ss[i]))
  }

  /** The replacement rule: the reply's bullets when there are some, else
      the chapter's own. */
  function Refine(c: Chapter, data: Option<Json>): (r: Chapter)
    ensures r.title == c.title && r.startTime == c.startTime && r.endTime == c.endTime && r.keyframes == c.keyframes
    ensures NewBullets(data).Some? ==> r.summary == NewBullets(data).value != []
    ensures NewBullets(data).None? ==> r == c
  {
    var nb := NewBullets(data);
    if nb.Some? then c.(summary := nb.value) else c
  }

  /** The reply chapter `c` gets when it is sent as call number `k`. */
  function Reply(m: Model, c: Chapter, readable: string -> bool, k: nat): Option<Json> {
    m.parse(m.answer(k, VisionRequest(c, readable)))
  }

  /** One call per chapter with images among the first `i`, none for the
      others. */
  function WithImages(chs: seq<Chapter>, i: nat): (r: nat)
    requires i <= |chs|
    ensures r <= i
  {
    if i == 0 then 0 else WithImages(chs, i - 1) + (if ImagesOf(KeyframesOf(chs[i - 1])) == [] then 0 else 1)
  }

  /** Chapter `c` after the pass: left alone without images, else sent as
      the call numbered by the chapters with images before it, and given
      the replacement rule's bullets. */
  function SentAs(m: Model, n0: nat, chs: seq<Chapter>, readable: string -> bool, c: nat): Chapter
    requires c < |chs|
  {
    if ImagesOf(KeyframesOf(chs[c])) == [] then chs[c]
    else Refine(chs[c], Reply(m, chs[c], readable, n0 + WithImages(chs, c)))
  }

  /** The vision step from call number `n0`: the chapters and the count of
      calls made. Nothing happens unless it is asked for and some keyframe
      has an image. */
  function Refined(m: Model, n0: nat, chs: seq<Chapter>, readable: string -> bool, useVision: bool): (r: (seq<Chapter>, nat))
    ensures |r.0| == |chs| && n0 <= r.1 <= n0 + |chs|
  {
    if useVision && AnyImages(chs)
    then (seq(|chs|, c requires 0 <= c < |chs| => SentAs(m, n0, chs, readable, c)), n0 + WithImages(chs, |chs|))
    else (chs, n0)
  }

  /** The count of chapters with images grows by one at each of them, so
      two chapters with images are sent as different calls, the earlier
      chapter first. */
  lemma {:induction false} CallsInOrder(chs: seq<Chapter>, a: nat, b: nat)
    requires a < b <= |chs| && ImagesOf(KeyframesOf(chs[a])) != []
    ensures WithImages(chs, a) < WithImages(chs, b)
    decreases b
  {
    if b > a + 1 {
      CallsInOrder(chs, a, b - 1);
    }
  }

  /** Without any image, no chapter is sent: the guard changes nothing. */
  lemma NoImagesNoCalls(m: Model, n0: nat, chs: seq<Chapter>, readable: string -> bool)
    requires !AnyImages(chs)
    ensures WithImages(chs, |chs|) == 0
    ensures seq(|chs|, c requires 0 <= c < |chs| => SentAs(m, n0, chs, readable, c)) == chs
  {
    forall c | 0 <= c < |chs| ensures ImagesOf(KeyframesOf(chs[c])) == [] {
      ImagesOfEmpty(KeyframesOf(chs[c]));
    }
    NoImagesCount(chs, |chs|);
  }

  lemma {:induction false} NoImagesCount(chs: seq<Chapter>, i: nat)
    requires i <= |chs|
    requires forall c | 0 <= c < |chs| :: ImagesOf(KeyframesOf(chs[c])) == []
    ensures WithImages(chs, i) == 0
  {
    if i > 0 {
      NoImagesCount(chs, i - 1);
    }
  }

  /** A reply without a usable list keeps the chapter's bullets: an empty
      or missing list, or one that is not a list. */
  lemma EmptyReplyKeepsBullets(c: Chapter, data: Json)
    requires data.JObject?
    requires forall v | Get(data, "summary") == Some(v) :: !v.JArray? || v.items == []
    ensures Refine(c, Some(data)) == c
  {
  }

  // ---------------------------------------------------------------------
  // The loops.
  // ---------------------------------------------------------------------

  /** The loop collecting `(kf, chapter)` pairs. */
  method CollectRequests(chs: seq<Chapter>) returns (reqs: seq<Ref>)
    ensures reqs == Requests(chs)
  {
    reqs := [];
    for c := 0 to |chs|
      invariant reqs == RequestsOf(chs, c)
    {
      if HasKeyframes(chs[c]) {
        var kfs := chs[c].keyframes.value;
        for j := 0 to |kfs|
          invariant reqs == RequestsOf(chs, c) + FrameRefs(c, j)
        {
          assert FrameRefs(c, j + 1) == FrameRefs(c, j) + [Ref(c, j)];
          reqs := reqs + [Ref(c, j)];
        }
      }
    }
  }

  /** The fallback loop over the picked chapters. */
  method AddDefaultFrames(chs: seq<Chapter>) returns (out: seq<Chapter>, reqs: seq<Ref>)
    requires Requests(chs) == []
    ensures (out, reqs) == Prepared(chs)
  {
    var ps: seq<nat> := Picked(chs);
    PickedSpec(chs);
    out := chs;
    reqs := [];
    for k := 0 to |ps|
      invariant out == Install(chs, ps, k)
      invariant reqs == DefaultRefs(ps[..k])
    {
      var p := ps[k];
      var kf := DefaultFrame(out[p]);
      out := out[p := out[p].(keyframes := Some([kf]))];
      assert out == Install(chs, ps, k + 1);
      DefaultRefsSnoc(ps, k);
      reqs := reqs + [Ref(p, 0)];
    }
    assert ps[..|ps|] == ps;
  }

  /** The loop handing out the paths. */
  method AssignPaths(chs: seq<Chapter>, reqs: seq<Ref>, paths: seq<string>) returns (out: seq<Chapter>)
    requires ValidRefs(chs, reqs)
    ensures out == Assigned(chs, reqs, paths)
  {
    out := chs;
    for i := 0 to |paths|
      invariant out == Assign(chs, reqs, paths, Min(i, |reqs|))
    {
      if i < |reqs| {
        assert ValidRef(Assign(chs, reqs, paths, i), reqs[i]);
        out := SetImage(out, reqs[i], paths[i]);
      }
    }
  }

  /** The vision loop, from call number `n0`. */
  method RefineChapters(m: Model, n0: nat, chs: seq<Chapter>, readable: string -> bool) returns (out: seq<Chapter>, n: nat)
    ensures |out| == |chs| && n == n0 + WithImages(chs, |chs|)
    ensures forall c | 0 <= c < |chs| :: out[c] == SentAs(m, n0, chs, readable, c)
  {
    out, n := chs, n0;
    for i := 0 to |chs|
      invariant |out| == |chs| && n == n0 + WithImages(chs, i)
      invariant forall c | 0 <= c < i :: out[c] == SentAs(m, n0, chs, readable, c)
      invariant forall c | i <= c < |chs| :: out[c] == chs[c]
    {
      var c := out[i];
      var images := ImagesOf(KeyframesOf(c));
      assert c == chs[i];
      if images != [] {
        var reply := m.answer(n, VisionRequest(c, readable));
        out := out[i := Refine(c, m.parse(reply))];
        n := n + 1;
        assert out[i] == SentAs(m, n0, chs, readable, i);
      }
    }
  }
}
