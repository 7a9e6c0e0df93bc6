/** The keyframe extractor: one still per timestamp, written by ffmpeg
    into the output directory, from the best progressive stream of the
    video or else from a locally downloaded copy. The files on disk are the
    extractor's state; ffmpeg, the extractor's format list, the download
    and the cache directory's listing are inputs. */
module KeyFrames {
  import opened Wrappers
  import opened Text
  import opened Models
  import opened Ranking
  import opened Sorting

  /** `os.path.join(settings.OUTPUT_DIR, "keyframes")` with the default settings. */
  const OutputDir := "outputs/keyframes"

  /** `settings.CACHE_DIR` with the default settings. */
  const CacheDir := ".cache"

  /** `<output>/<video_id>_<int(timestamp)>.jpg`: a JPEG file in the
      output directory whose name opens with the video id. */
  function OutputPath(videoId: string, t: real): (r: string)
    ensures StartsWith(r, OutputDir + "/" + videoId + "_") && EndsWith(r, ".jpg")
  {
    var head := OutputDir + "/" + videoId + "_";
    var tail := IntToString(Trunc(t)) + ".jpg";
    assert PathJoin(OutputDir, videoId + "_" + IntToString(Trunc(t)) + ".jpg") == head + tail;
    assert (head + tail)[..|head|] == head && (head + tail)[|head + tail| - 4..] == ".jpg";
    PathJoin(OutputDir, videoId + "_" + IntToString(Trunc(t)) + ".jpg")
  }

  lemma NatToStringInjective(a: nat, b: nat)
    requires NatToString(a) == NatToString(b)
    ensures a == b
  {
    NatToStringRoundTrip(a);
    NatToStringRoundTrip(b);
  }

  /** `str` of an integer starts with a minus sign exactly when it is negative. */
  lemma IntToStringSign(a: int)
    ensures IntToString(a)[0] == '-' <==> a < 0
  {
    if a >= 0 {
      assert IsDigit(NatToString(a)[0]);
    }
  }

  /** `str` on integers is one-to-one. */
  lemma IntToStringInjective(a: int, b: int)
    requires IntToString(a) == IntToString(b)
    ensures a == b
  {
    IntToStringSign(a);
    IntToStringSign(b);
    if a >= 0 && b >= 0 {
      NatToStringInjective(a, b);
    } else if a < 0 && b < 0 {
      SamePrefix("-", NatToString(-a), NatToString(-b));
      NatToStringInjective(-a, -b);
    }
  }

  lemma PathShape(videoId: string, t: real)
    ensures OutputPath(videoId, t) == (OutputDir + "/" + videoId + "_") + (IntToString(Trunc(t)) + ".jpg")
  {
    var a := IntToString(Trunc(t));
    calc {
      OutputPath(videoId, t);
      OutputDir + "/" + (videoId + "_" + a + ".jpg");
      { assert videoId + "_" + a + ".jpg" == (videoId + "_") + (a + ".jpg"); }
      OutputDir + "/" + ((videoId + "_") + (a + ".jpg"));
    }
  }

  /** Two timestamps share an output file exactly when their whole seconds
      agree: 10.2 and 10.9 name the same still. */
  lemma OutputPathSharing(videoId: string, t1: real, t2: real)
    ensures OutputPath(videoId, t1) == OutputPath(videoId, t2) <==> Trunc(t1) == Trunc(t2)
  {
    if OutputPath(videoId, t1) == OutputPath(videoId, t2) {
      var p := OutputDir + "/" + videoId + "_";
      var a := IntToString(Trunc(t1));
      var b := IntToString(Trunc(t2));
      PathShape(videoId, t1);
      PathShape(videoId, t2);
      SamePrefix(p, a + ".jpg", b + ".jpg");
      SameSuffix(a, b, ".jpg");
      IntToStringInjective(Trunc(t1), Trunc(t2));
    }
  }

  // ---------------------------------------------------------------------
  // One keyframe.
  // ---------------------------------------------------------------------

  /** ffmpeg's outcome for `(video, timestamp, output)`: true when it wrote
      the still, false when it failed or could not be started. */
  type Ffmpeg = (string, real, string) -> bool

  /** `extract_keyframe` on the files `files`: the path it returns (None on
      failure) and the files afterwards. */
  function Extracted(files: set<string>, video: string, t: real, videoId: string, ffmpeg: Ffmpeg): (r: (Option<string>, set<string>))
    ensures r.0.Some? ==> r.0.value == OutputPath(videoId, t) && r.1 == files + {r.0.value}
    ensures r.0.None? ==> r.1 == files
  {
    var path := OutputPath(videoId, t);
    if path in files then (Some(path), files)
    else if ffmpeg(video, t, path) then (Some(path), files + {path})
    else (None, files)
  }

  /** An existing still is returned without running ffmpeg. */
  lemma ExistingStillIsReused(files: set<string>, video: string, t: real, videoId: string, ffmpeg: Ffmpeg, other: Ffmpeg)
    requires OutputPath(videoId, t) in files
    ensures Extracted(files, video, t, videoId, ffmpeg) == (Some(OutputPath(videoId, t)), files)
    ensures Extracted(files, video, t, videoId, ffmpeg) == Extracted(files, video, t, videoId, other)
  {
  }

  /** Extraction is idempotent: once it succeeds, asking again for the same
      whole second succeeds at once and changes nothing. */
  lemma ExtractIdempotent(files: set<string>, video: string, t: real, t2: real, videoId: string, ffmpeg: Ffmpeg, other: Ffmpeg)
    requires Extracted(files, video, t, videoId, ffmpeg).0.Some?
    requires Trunc(t2) == Trunc(t)
    ensures var after := Extracted(files, video, t, videoId, ffmpeg).1;
      Extracted(after, video, t2, videoId, other) == (Some(OutputPath(videoId, t)), after)
  {
    OutputPathSharing(videoId, t, t2);
  }

  /** Extractions in order, keeping the successful paths. */
  function Batch(files: set<string>, video: string, ts: seq<real>, videoId: string, ffmpeg: Ffmpeg): (r: (seq<string>, set<string>))
    ensures |r.0| <= |ts|
    ensures files <= r.1
    decreases |ts|
  {
    if ts == [] then ([], files)
    else
      var init := Batch(files, video, ts[..|ts| - 1], videoId, ffmpeg);
      var last := Extracted(init.1, video, ts[|ts| - 1], videoId, ffmpeg);
      (init.0 + (if last.0.Some? then [last.0.value] else []), last.1)
  }

  /** The last timestamp's extraction runs on the files the earlier ones
      left behind. */
  lemma BatchStep(files: set<string>, video: string, ts: seq<real>, videoId: string, ffmpeg: Ffmpeg)
    requires ts != []
    ensures var init := Batch(files, video, ts[..|ts| - 1], videoId, ffmpeg);
      var last := Extracted(init.1, video, ts[|ts| - 1], videoId, ffmpeg);
      Batch(files, video, ts, videoId, ffmpeg) == (init.0 + (if last.0.Some? then [last.0.value] else []), last.1)
  {
  }

  /** `BatchStep` on a prefix of the timestamps. */
  lemma BatchPrefixStep(files: set<string>, video: string, ts: seq<real>, i: nat, videoId: string, ffmpeg: Ffmpeg)
    requires i < |ts|
    ensures var init := Batch(files, video, ts[..i], videoId, ffmpeg);
      var last := Extracted(init.1, video, ts[i], videoId, ffmpeg);
      Batch(files, video, ts[..i + 1], videoId, ffmpeg) == (init.0 + (if last.0.Some? then [last.0.value] else []), last.1)
  {
    assert ts[..i + 1][..i] == ts[..i];
    BatchStep(files, video, ts[..i + 1], videoId, ffmpeg);
  }

  /** Every path returned is the still of one of the timestamps, and is on
      disk afterwards. */
  lemma {:induction false} BatchPaths(files: set<string>, video: string, ts: seq<real>, videoId: string, ffmpeg: Ffmpeg)
    ensures var r := Batch(files, video, ts, videoId, ffmpeg);
      forall i | 0 <= i < |r.0| :: r.0[i] in r.1 && exists j | 0 <= j < |ts| :: r.0[i] == OutputPath(videoId, ts[j])
    decreases |ts|
  {
    if ts != [] {
      var n := |ts| - 1;
      var p := ts[..n];
      BatchPaths(files, video, p, videoId, ffmpeg);
      var init := Batch(files, video, p, videoId, ffmpeg);
      var last := Extracted(init.1, video, ts[n], videoId, ffmpeg);
      var r := Batch(files, video, ts, videoId, ffmpeg);
      BatchStep(files, video, ts, videoId, ffmpeg);
      forall i | 0 <= i < |r.0| ensures r.0[i] in r.1 && exists j | 0 <= j < |ts| :: r.0[i] == OutputPath(videoId, ts[j]) {
        if i < |init.0| {
          assert r.0[i] == init.0[i];
          var j :| 0 <= j < |p| && init.0[i] == OutputPath(videoId, p[j]);
          assert p[j] == ts[j];
        } else {
          assert r.0[i] == OutputPath(videoId, ts[n]);
        }
      }
    }
  }

  /** When every extraction succeeds, path `i` is the still of timestamp
      `i`; a single failure shifts every later path one place down. */
  lemma {:induction false} BatchAllSucceed(files: set<string>, video: string, ts: seq<real>, videoId: string, ffmpeg: Ffmpeg)
    requires forall j | 0 <= j < |ts| :: ffmpeg(video, ts[j], OutputPath(videoId, ts[j]))
    ensures |Batch(files, video, ts, videoId, ffmpeg).0| == |ts|
    ensures forall i | 0 <= i < |ts| :: Batch(files, video, ts, videoId, ffmpeg).0[i] == OutputPath(videoId, ts[i])
    decreases |ts|
  {
    if ts != [] {
      var n := |ts| - 1;
      var p := ts[..n];
      assert forall j | 0 <= j < |p| :: p[j] == ts[j];
      BatchAllSucceed(files, video, p, videoId, ffmpeg);
      var init := Batch(files, video, p, videoId, ffmpeg);
      var last := Extracted(init.1, video, ts[n], videoId, ffmpeg);
      assert last.0 == Some(OutputPath(videoId, ts[n]));
      var paths := Batch(files, video, ts, videoId, ffmpeg).0;
      BatchStep(files, video, ts, videoId, ffmpeg);
      forall i | 0 <= i < |ts| ensures paths[i] == OutputPath(videoId, ts[i]) {
        if i < n { assert paths[i] == init.0[i]; }
      }
    }
  }

  /** A failed first extraction hands the second timestamp's still to
      position 0. */
  lemma FirstFailureShifts(files: set<string>, video: string, t1: real, t2: real, videoId: string, ffmpeg: Ffmpeg)
    requires OutputPath(videoId, t1) !in files && !ffmpeg(video, t1, OutputPath(videoId, t1))
    requires ffmpeg(video, t2, OutputPath(videoId, t2))
    ensures Batch(files, video, [t1, t2], videoId, ffmpeg).0 == [OutputPath(videoId, t2)]
  {
    assert [t1, t2][..1] == [t1];
    assert [t1][..0] == [];
    BatchStep(files, video, [t1], videoId, ffmpeg);
    BatchStep(files, video, [t1, t2], videoId, ffmpeg);
  }

  // ---------------------------------------------------------------------
  // Choosing the input: the best progressive stream.
  // ---------------------------------------------------------------------

  /** One entry of `info['formats']`; absent fields are None. */
  datatype Format = Format(vcodec: Option<string>, acodec: Option<string>, url: Option<string>, height: Option<real>, tbr: Option<real>)

  /** The extractor's answer: `formats` (empty when missing) and `url`. */
  datatype ProbeInfo = ProbeInfo(formats: seq<Format>, url: Option<string>)

  /** A stream with both video and audio and a URL. */
  predicate Progressive(f: Format) {
    f.vcodec != Some("none") && f.acodec != Some("none") && IsSet(f.url)
  }

  function Progressives(fmts: seq<Format>): (r: seq<Format>)
    ensures |r| <= |fmts|
    ensures forall i | 0 <= i < |r| :: Progressive(r[i]) && r[i] in fmts
    ensures forall i | 0 <= i < |fmts| :: Progressive(fmts[i]) ==> fmts[i] in r
  {
    if fmts == [] then []
    else (if Progressive(fmts[0]) then [fmts[0]] else []) + Progressives(fmts[1..])
  }

  /** `(-(height or 0), -(tbr or 0))`: tallest first, then highest bitrate. */
  function StreamKey(f: Format): Rank {
    (-f.height.GetOr(0.0), -f.tbr.GetOr(0.0))
  }

  /** The first progressive stream of greatest height, and of highest
      bitrate among those: the head of the sorted list. */
  function BestStream(fmts: seq<Format>): Format
    requires Progressives(fmts) != []
  {
    SortBy(Progressives(fmts), StreamKey)[0]
  }

  /** The stream the stills are cut from. */
  function StreamUrl(info: ProbeInfo): Option<string> {
    if Progressives(info.formats) != [] then BestStream(info.formats).url else info.url
  }

  /** The chosen stream is a progressive one that no other progressive
      stream beats on height, nor on bitrate at equal height. */
  lemma StreamIsBest(fmts: seq<Format>)
    requires Progressives(fmts) != []
    ensures var f := BestStream(fmts);
      Progressive(f) && f in fmts
      && forall g | g in Progressives(fmts) ::
        g.height.GetOr(0.0) < f.height.GetOr(0.0)
        || (g.height.GetOr(0.0) == f.height.GetOr(0.0) && g.tbr.GetOr(0.0) <= f.tbr.GetOr(0.0))
  {
    var prog := Progressives(fmts);
    var ks := Keys(prog, StreamKey);
    SortByHead(prog, StreamKey);
    var k := FirstMin(ks);
    assert BestStream(fmts) == prog[k];
    forall g | g in prog
      ensures !Below(StreamKey(g), StreamKey(prog[k]))
    {
      var i :| 0 <= i < |prog| && prog[i] == g;
      assert !Below(ks[i], ks[k]);
    }
  }

  /** Without a progressive stream the extractor's own `url` is used. */
  lemma NoProgressiveStream(info: ProbeInfo)
    requires forall i | 0 <= i < |info.formats| :: !Progressive(info.formats[i])
    ensures StreamUrl(info) == info.url
  {
    if Progressives(info.formats) != [] {
      assert Progressives(info.formats)[0] in info.formats;
    }
  }

  // ---------------------------------------------------------------------
  // Choosing the input: the downloaded file.
  // ---------------------------------------------------------------------

  /** `name.startswith(f"{video_id}.")` */
  predicate OfVideo(name: string, videoId: string) {
    StartsWith(name, videoId + ".")
  }

  /** The three kinds of file the preference tells apart. */
  datatype Kind = Mp4 | MkvOrWebm | AnyFile

  predicate OfKind(k: Kind, name: string, videoId: string) {
    OfVideo(name, videoId) &&
    match k
    case Mp4 => EndsWith(name, ".mp4")
    case MkvOrWebm => EndsWith(name, ".mkv") || EndsWith(name, ".webm")
    case AnyFile => true
  }

  /** The first name from `i` on of kind `k`, as a path. */
  function FirstOf(k: Kind, names: seq<string>, videoId: string, i: nat): (r: Option<string>)
    requires i <= |names|
    ensures r.Some? ==> exists j | i <= j < |names| :: OfKind(k, names[j], videoId) && r.value == PathJoin(CacheDir, names[j])
    decreases |names| - i
  {
    if i == |names| then None
    else if OfKind(k, names[i], videoId) then Some(PathJoin(CacheDir, names[i]))
    else FirstOf(k, names, videoId, i + 1)
  }

  /** `a or b` on optional paths. */
  function Or(a: Option<string>, b: Option<string>): Option<string> {
    if a.Some? then a else b
  }

  /** The preference the loop implements: the first `.mp4`, else the first
      `.mkv` or `.webm`, else the first file of the video. */
  function Preferred(names: seq<string>, videoId: string): Option<string> {
    Or(FirstOf(Mp4, names, videoId, 0), Or(FirstOf(MkvOrWebm, names, videoId, 0), FirstOf(AnyFile, names, videoId, 0)))
  }

  /** The `for name in os.listdir(...)` loop from `i` on, with its
      `preferred` and `local_file`. */
  function Scan(names: seq<string>, videoId: string, i: nat, preferred: Option<string>, local: Option<string>): Option<string>
    requires i <= |names|
    decreases |names| - i
  {
    if i == |names| then Or(preferred, local)
    else if !OfVideo(names[i], videoId) then Scan(names, videoId, i + 1, preferred, local)
    else
      var path := PathJoin(CacheDir, names[i]);
      if EndsWith(names[i], ".mp4") then Or(Some(path), local)
      else
        var p := if EndsWith(names[i], ".mkv") || EndsWith(names[i], ".webm") then Or(preferred, Some(path)) else preferred;
        Scan(names, videoId, i + 1, p, Or(local, Some(path)))
  }

  /** The scan from `i`, having seen no `.mp4`, holds in `preferred` and
      `local` the first `.mkv`/`.webm` and the first file seen so far. */
  lemma {:induction false} ScanFrom(names: seq<string>, videoId: string, i: nat, preferred: Option<string>, local: Option<string>)
    requires i <= |names|
    requires preferred.Some? ==> local.Some?
    ensures Scan(names, videoId, i, preferred, local)
      == Or(FirstOf(Mp4, names, videoId, i), Or(preferred, Or(FirstOf(MkvOrWebm, names, videoId, i), Or(local, FirstOf(AnyFile, names, videoId, i)))))
    decreases |names| - i
  {
    if i < |names| {
      if OfVideo(names[i], videoId) && !EndsWith(names[i], ".mp4") {
        var path := PathJoin(CacheDir, names[i]);
        var p := if EndsWith(names[i], ".mkv") || EndsWith(names[i], ".webm") then Or(preferred, Some(path)) else preferred;
        ScanFrom(names, videoId, i + 1, p, Or(local, Some(path)));
      } else if !OfVideo(names[i], videoId) {
        ScanFrom(names, videoId, i + 1, preferred, local);
      }
    }
  }

  /** The loop picks the preferred file. */
  lemma ScanIsPreferred(names: seq<string>, videoId: string)
    ensures Scan(names, videoId, 0, None, None) == Preferred(names, videoId)
  {
    ScanFrom(names, videoId, 0, None, None);
  }

  // ---------------------------------------------------------------------
  // The batch.
  // ---------------------------------------------------------------------

  /** The local download: whether either attempt finished, and the names
      in the cache directory afterwards. */
  datatype Download = Download(ok: bool, listing: seq<string>)

  /** `extract_batch`: the stream's stills if any succeed; else the
      downloaded file's; `[]` when the probe raises, the download fails or
      no file of the video is found. */
  function ExtractBatch(files: set<string>, ts: seq<real>, videoId: string, probe: Option<ProbeInfo>, dl: Download, ffmpeg: Ffmpeg): (r: (seq<string>, set<string>))
    ensures |r.0| <= |ts|
  {
    if probe.None? then ([], files)
    else
      var stream := StreamUrl(probe.value);
      var direct := if IsSet(stream) then Batch(files, stream.value, ts, videoId, ffmpeg) else ([], files);
      if direct.0 != [] then direct
      else if !dl.ok then ([], direct.1)
      else
        var local := Scan(dl.listing, videoId, 0, None, None);
        if local.None? then ([], direct.1)
        else Batch(direct.1, local.value, ts, videoId, ffmpeg)
  }

  /** The local copy is used only when the stream gave no still at all. */
  lemma DirectFirst(files: set<string>, ts: seq<real>, videoId: string, probe: ProbeInfo, dl: Download, ffmpeg: Ffmpeg)
    requires IsSet(StreamUrl(probe))
    requires Batch(files, StreamUrl(probe).value, ts, videoId, ffmpeg).0 != []
    ensures ExtractBatch(files, ts, videoId, Some(probe), dl, ffmpeg) == Batch(files, StreamUrl(probe).value, ts, videoId, ffmpeg)
  {
  }

  /** `KeyFrameExtractor` over the files on disk. */
  class KeyFrameExtractor {
    var files: set<string>

    constructor (existing: set<string>)
      ensures files == existing
    {
      files := existing;
    }

    /** `extract_keyframe` */
    method ExtractKeyframe(video: string, t: real, videoId: string, ffmpeg: Ffmpeg) returns (path: Option<string>)
      modifies this
      ensures (path, files) == Extracted(old(files), video, t, videoId, ffmpeg)
    {
      var output := OutputPath(videoId, t);
      if output in files {
        return Some(output);
      }
      if ffmpeg(video, t, output) {
        files := files + {output};
        return Some(output);
      }
      return None;
    }

    /** The `for ts in timestamps` loop. */
    method Stills(video: string, ts: seq<real>, videoId: string, ffmpeg: Ffmpeg) returns (results: seq<string>)
      modifies this
      ensures (results, files) == Batch(old(files), video, ts, videoId, ffmpeg)
    {
      results := [];
      ghost var start := files;
      for i := 0 to |ts|
        invariant (results, files) == Batch(start, video, ts[..i], videoId, ffmpeg)
      {
        BatchPrefixStep(start, video, ts, i, videoId, ffmpeg);
        ghost var before := files;
        ghost var prev := results;
        var path := ExtractKeyframe(video, ts[i], videoId, ffmpeg);
        ghost var step := Extracted(before, video, ts[i], videoId, ffmpeg);
        assert path == step.0 && files == step.1;
        if path.Some? {
          results := results + [path.value];
        }
        assert results == prev + (if step.0.Some? then [step.0.value] else []);
        assert (results, files) == Batch(start, video, ts[..i + 1], videoId, ffmpeg);
      }
      assert ts[..|ts|] == ts;
    }

    /** The directory loop choosing the local file. */
    static method LocalFile(names: seq<string>, videoId: string) returns (r: Option<string>)
      ensures r == Preferred(names, videoId)
    {
      ScanIsPreferred(names, videoId);
      var preferred: Option<string> := None;
      var local: Option<string> := None;
      var i := 0;
      var done := false;
      r := None;
      // `break` at the first `.mp4`, written as the loop condition
      while i < |names| && !done
        invariant 0 <= i <= |names|
        invariant done ==> r == Scan(names, videoId, 0, None, None)
        invariant !done ==> Scan(names, videoId, i, preferred, local) == Scan(names, videoId, 0, None, None)
      {
        if OfVideo(names[i], videoId) {
          var path := PathJoin(CacheDir, names[i]);
          if EndsWith(names[i], ".mp4") {
            r := Or(Some(path), local);
            done := true;
          } else {
            if EndsWith(names[i], ".mkv") || EndsWith(names[i], ".webm") {
              preferred := Or(preferred, Some(path));
            }
            local := Or(local, Some(path));
          }
        }
        i := i + 1;
      }
      if !done {
        r := Or(preferred, local);
      }
    }

    /** `extract_batch` */
    method ExtractBatchFrom(ts: seq<real>, videoId: string, probe: Option<ProbeInfo>, dl: Download, ffmpeg: Ffmpeg) returns (results: seq<string>)
      modifies this
      ensures (results, files) == ExtractBatch(old(files), ts, videoId, probe, dl, ffmpeg)
    {
      if probe.None? {
        return [];
      }
      var stream := StreamUrl(probe.value);
      if IsSet(stream) {
        results := Stills(stream.value, ts, videoId, ffmpeg);
        if results != [] {
          return;
        }
      }
      if !dl.ok {
        return [];
      }
      var local := LocalFile(dl.listing, videoId);
      ScanIsPreferred(dl.listing, videoId);
      if local.None? {
        return [];
      }
      results := Stills(local.value, ts, videoId, ffmpeg);
    }
  }
}
