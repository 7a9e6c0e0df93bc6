/** The cache of transcripts and summaries: JSON files under the cache
    directory, transcripts named by video id and summaries by the hash of
    their key. The directory tree is a map from path to file; the hash is
    a parameter. */
module Cache {
  import opened Wrappers
  import opened Models
  import opened Text

  /** A cache file: JSON that `json.dump` wrote, a file that opens but
      that `json.load` cannot decode (corrupt, truncated), or one that
      `open` refuses (no permission, a directory). */
  datatype Entry = Stored(data: Json) | Undecodable | Unopenable

  /** `<cache>/transcripts/<video_id>.json` */
  function TranscriptPath(dir: string, videoId: string): string {
    PathJoin(PathJoin(dir, "transcripts"), videoId + ".json")
  }

  /** `<cache>/summaries/<hash(key)>.json` */
  function SummaryPath(dir: string, hash: string -> string, key: string): string {
    PathJoin(PathJoin(dir, "summaries"), hash(key) + ".json")
  }

  /** What `get_*` returns for a path: the stored JSON, or None when the
      file is missing or cannot be read. */
  function Load(files: map<string, Entry>, path: string): (r: Option<Json>)
    ensures r.Some? <==> path in files && files[path].Stored?
  {
    if path in files && files[path].Stored? then Some(files[path].data) else None
  }

  /** A save followed by a load of the same path returns what was saved. */
  lemma LoadAfterSave(files: map<string, Entry>, path: string, data: Json)
    ensures Load(files[path := Stored(data)], path) == Some(data)
  {
  }

  /** Writing one path leaves what every other path loads unchanged. */
  lemma LoadElsewhere(files: map<string, Entry>, path: string, other: string, e: Entry)
    requires other != path
    ensures Load(files[path := e], other) == Load(files, other)
  {
  }

  /** Distinct video ids have distinct transcript files. */
  lemma TranscriptPathsDistinct(dir: string, a: string, b: string)
    requires a != b
    ensures TranscriptPath(dir, a) != TranscriptPath(dir, b)
  {
    var p := PathJoin(dir, "transcripts") + "/";
    if TranscriptPath(dir, a) == TranscriptPath(dir, b) {
      assert p + (a + ".json") == p + (b + ".json");
      SamePrefix(p, a + ".json", b + ".json");
      SameSuffix(a, b, ".json");
    }
  }

  /** Keys of distinct hash have distinct summary files. */
  lemma SummaryPathsDistinct(dir: string, hash: string -> string, k1: string, k2: string)
    requires hash(k1) != hash(k2)
    ensures SummaryPath(dir, hash, k1) != SummaryPath(dir, hash, k2)
  {
    var p := PathJoin(dir, "summaries") + "/";
    if SummaryPath(dir, hash, k1) == SummaryPath(dir, hash, k2) {
      assert p + (hash(k1) + ".json") == p + (hash(k2) + ".json");
      SamePrefix(p, hash(k1) + ".json", hash(k2) + ".json");
      SameSuffix(hash(k1), hash(k2), ".json");
    }
  }

  /** A summary file is never a transcript file: the two directories
      differ in their first letter. */
  lemma KindsDistinct(dir: string, hash: string -> string, key: string, videoId: string)
    ensures SummaryPath(dir, hash, key) != TranscriptPath(dir, videoId)
  {
    var s := SummaryPath(dir, hash, key);
    var t := TranscriptPath(dir, videoId);
    assert s[|dir| + 1] == 's';
    assert t[|dir| + 1] == 't';
  }

  /** Saving a summary leaves every transcript and every summary of another
      hash as it was. */
  lemma SaveSummaryFrame(files: map<string, Entry>, dir: string, hash: string -> string, key: string, data: Json)
    ensures forall v :: Load(files[SummaryPath(dir, hash, key) := Stored(data)], TranscriptPath(dir, v)) == Load(files, TranscriptPath(dir, v))
    ensures forall k | hash(k) != hash(key) ::
      Load(files[SummaryPath(dir, hash, key) := Stored(data)], SummaryPath(dir, hash, k)) == Load(files, SummaryPath(dir, hash, k))
  {
    forall v ensures Load(files[SummaryPath(dir, hash, key) := Stored(data)], TranscriptPath(dir, v)) == Load(files, TranscriptPath(dir, v)) {
      KindsDistinct(dir, hash, key, v);
    }
    forall k | hash(k) != hash(key)
      ensures Load(files[SummaryPath(dir, hash, key) := Stored(data)], SummaryPath(dir, hash, k)) == Load(files, SummaryPath(dir, hash, k))
    {
      SummaryPathsDistinct(dir, hash, k, key);
    }
  }

  /** Saving a transcript leaves every summary and every other video's
      transcript as it was. */
  lemma SaveTranscriptFrame(files: map<string, Entry>, dir: string, hash: string -> string, videoId: string, data: Json)
    ensures forall k :: Load(files[TranscriptPath(dir, videoId) := Stored(data)], SummaryPath(dir, hash, k)) == Load(files, SummaryPath(dir, hash, k))
    ensures forall v | v != videoId ::
      Load(files[TranscriptPath(dir, videoId) := Stored(data)], TranscriptPath(dir, v)) == Load(files, TranscriptPath(dir, v))
  {
    forall k ensures Load(files[TranscriptPath(dir, videoId) := Stored(data)], SummaryPath(dir, hash, k)) == Load(files, SummaryPath(dir, hash, k)) {
      KindsDistinct(dir, hash, k, videoId);
    }
    forall v | v != videoId
      ensures Load(files[TranscriptPath(dir, videoId) := Stored(data)], TranscriptPath(dir, v)) == Load(files, TranscriptPath(dir, v))
    {
      TranscriptPathsDistinct(dir, v, videoId);
    }
  }

  const TranscriptWarning := "Failed to load transcript cache"

  const SummaryHit := "Hit summary cache!"

  /** `CacheManager`: the directory it was built on, the files under it
      and the messages it has logged. */
  class CacheManager {
    const cacheDir: string
    const hash: string -> string   // `hashlib.sha256(key.encode()).hexdigest()`
    var dirs: set<string>
    var files: map<string, Entry>
    var log: seq<string>

    /** The three directories the files are written into exist. */
    ghost predicate Valid()
      reads this
    {
      cacheDir in dirs && PathJoin(cacheDir, "transcripts") in dirs && PathJoin(cacheDir, "summaries") in dirs
    }

    /** `__init__`: the directories are created if missing; the files
      already on disk are kept. */
    constructor (cacheDir: string, hash: string -> string, disk: set<string>, existing: map<string, Entry>)
      ensures this.cacheDir == cacheDir && this.hash == hash
      ensures dirs == disk + {cacheDir, PathJoin(cacheDir, "transcripts"), PathJoin(cacheDir, "summaries")}
      ensures files == existing && log == []
      ensures Valid()
    {
      this.cacheDir := cacheDir;
      this.hash := hash;
      dirs := disk + {cacheDir, PathJoin(cacheDir, "transcripts"), PathJoin(cacheDir, "summaries")};
      files := existing;
      log := [];
    }

    /** `get_transcript`: a file that cannot be opened or decoded reads as
      None with a warning. */
    method GetTranscript(videoId: string) returns (r: Option<Json>)
      modifies this`log
      ensures r == Load(files, TranscriptPath(cacheDir, videoId))
      ensures var path := TranscriptPath(cacheDir, videoId);
        log == old(log) + (if path in files && !files[path].Stored? then [TranscriptWarning] else [])
    {
      var path := TranscriptPath(cacheDir, videoId);
      r := None;
      if path in files {
        match files[path]
        case Stored(data) =>
          r := Some(data);
        case _ =>
          log := log + [TranscriptWarning];
      }
    }

    /** `save_transcript`: the file is written, replacing any earlier one. */
    method SaveTranscript(videoId: string, data: Json)
      requires Valid()
      modifies this`files
      ensures files == old(files)[TranscriptPath(cacheDir, videoId) := Stored(data)]
      ensures Valid()
    {
      files := files[TranscriptPath(cacheDir, videoId) := Stored(data)];
    }

    /** `get_summary`: the hit is logged once the file opens, before it is
      decoded; a file that does not open or decode reads as None silently. */
    method GetSummary(key: string) returns (r: Option<Json>)
      modifies this`log
      ensures r == Load(files, SummaryPath(cacheDir, hash, key))
      ensures var path := SummaryPath(cacheDir, hash, key);
        log == old(log) + (if path in files && !files[path].Unopenable? then [SummaryHit] else [])
    {
      var path := SummaryPath(cacheDir, hash, key);
      r := None;
      if path in files && !files[path].Unopenable? {
        log := log + [SummaryHit];
        if files[path].Stored? {
          r := Some(files[path].data);
        }
      }
    }

    /** `save_summary` */
    method SaveSummary(key: string, data: Json)
      requires Valid()
      modifies this`files
      ensures files == old(files)[SummaryPath(cacheDir, hash, key) := Stored(data)]
      ensures Valid()
    {
      files := files[SummaryPath(cacheDir, hash, key) := Stored(data)];
    }
  }
}
