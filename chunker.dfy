/** The chunker: `pre_aggregate` merges short adjacent segments, `chunk`
    packs the merged segments greedily under a token budget. The tokenizer
    is a parameter `tokens: string -> nat` (the number of tokens of a text). */
module Chunker {
  import opened Models
  import opened Text
  import opened Seqs

  /** The default `min_duration` of `pre_aggregate`, used by `chunk`. */
  const DefaultMinDuration: real := 20.0
  /** The default `max_tokens` of the chunker. */
  const DefaultMaxTokens: int := 3000

  function Duration(s: Segment): real {
    s.end - s.start
  }

  /** One merge step: the running segment absorbs the next one. */
  function Merge(cur: Segment, next: Segment): Segment {
    Segment(cur.start, next.end, Strip(cur.text + " " + next.text))
  }

  /** The specification of the merge loop: `cur` is the running segment and
      `rest` what the loop has still to visit. */
  function AggregateFrom(cur: Segment, rest: seq<Segment>, minDuration: real): seq<Segment>
    decreases |rest|
  {
    if rest == [] then [cur]
    else if Duration(cur) < minDuration then AggregateFrom(Merge(cur, rest[0]), rest[1..], minDuration)
    else [cur] + AggregateFrom(rest[0], rest[1..], minDuration)
  }

  /** What `pre_aggregate(segments, min_duration)` returns. */
  function Aggregated(segments: seq<Segment>, minDuration: real): seq<Segment> {
    if segments == [] then [] else AggregateFrom(segments[0], segments[1..], minDuration)
  }

  /** `Chunker.pre_aggregate` */
  method PreAggregate(segments: seq<Segment>, minDuration: real) returns (merged: seq<Segment>)
    ensures merged == Aggregated(segments, minDuration)
  {
    if segments == [] {
      return [];
    }
    merged := [];
    var current := segments[0];
    var i := 1;
    while i < |segments|
      invariant 1 <= i <= |segments|
      invariant Aggregated(segments, minDuration) == merged + AggregateFrom(current, segments[i..], minDuration)
    {
      var next := segments[i];
      assert segments[i..][0] == next && segments[i..][1..] == segments[i + 1..];
      if Duration(current) < minDuration {
        current := Merge(current, next);
      } else {
        merged := merged + [current];
        current := next;
      }
      i := i + 1;
    }
    merged := merged + [current];
  }

  /** The merge loop emits at least one and at most one segment per input. */
  lemma {:induction false} AggregateFromLength(cur: Segment, rest: seq<Segment>, minDuration: real)
    ensures 1 <= |AggregateFrom(cur, rest, minDuration)| <= |rest| + 1
    decreases |rest|
  {
    if rest != [] {
      if Duration(cur) < minDuration {
        AggregateFromLength(Merge(cur, rest[0]), rest[1..], minDuration);
      } else {
        AggregateFromLength(rest[0], rest[1..], minDuration);
      }
    }
  }

  /** `pre_aggregate([]) == []`; otherwise the output is non-empty and no longer than the input. */
  lemma AggregatedLength(segments: seq<Segment>, minDuration: real)
    ensures segments == [] <==> Aggregated(segments, minDuration) == []
    ensures |Aggregated(segments, minDuration)| <= |segments|
  {
    if segments != [] {
      AggregateFromLength(segments[0], segments[1..], minDuration);
    }
  }

  /** Every segment but the last lasts at least `minDuration`. */
  predicate Settled(r: seq<Segment>, minDuration: real) {
    forall i | 0 <= i < |r| - 1 :: Duration(r[i]) >= minDuration
  }

  /** The running segment is emitted only once it lasts at least
      `minDuration`, so only the final segment may be shorter. */
  lemma {:induction false} AggregateFromSettledOutput(cur: Segment, rest: seq<Segment>, minDuration: real)
    ensures Settled(AggregateFrom(cur, rest, minDuration), minDuration)
    decreases |rest|
  {
    if rest != [] {
      if Duration(cur) < minDuration {
        AggregateFromSettledOutput(Merge(cur, rest[0]), rest[1..], minDuration);
      } else {
        AggregateFromSettledOutput(rest[0], rest[1..], minDuration);
        var tail := AggregateFrom(rest[0], rest[1..], minDuration);
        var r := [cur] + tail;
        assert AggregateFrom(cur, rest, minDuration) == r;
        forall i | 0 <= i < |r| - 1
          ensures Duration(r[i]) >= minDuration
        {
          if i > 0 {
            assert r[i] == tail[i - 1];
          }
        }
      }
    }
  }

  lemma AggregatedSettled(segments: seq<Segment>, minDuration: real)
    ensures Settled(Aggregated(segments, minDuration), minDuration)
  {
    if segments != [] {
      AggregateFromSettledOutput(segments[0], segments[1..], minDuration);
    }
  }

  /** The segment a group of consecutive inputs is merged into: a left fold of `Merge`. */
  function MergeAll(group: seq<Segment>): Segment
    requires group != []
  {
    if |group| == 1 then group[0] else Merge(MergeAll(group[..|group| - 1]), group[|group| - 1])
  }

  /** A merged segment starts where its first member starts and ends where its last member ends. */
  lemma {:induction false} MergeAllSpan(group: seq<Segment>)
    requires group != []
    ensures MergeAll(group).start == group[0].start
    ensures MergeAll(group).end == Last(group).end
  {
    if |group| > 1 {
      MergeAllSpan(group[..|group| - 1]);
    }
  }

  /** `out` is the result of merging each group of `gs`, position by position. */
  predicate MergesOf(gs: seq<seq<Segment>>, out: seq<Segment>) {
    |gs| == |out| && forall k | 0 <= k < |gs| :: gs[k] != [] && out[k] == MergeAll(gs[k])
  }

  lemma MergesOfCons(g: seq<Segment>, gs: seq<seq<Segment>>, out: seq<Segment>)
    requires g != [] && MergesOf(gs, out)
    ensures MergesOf([g] + gs, [MergeAll(g)] + out)
  {
    var gs2 := [g] + gs;
    var out2 := [MergeAll(g)] + out;
    forall k | 0 <= k < |gs2|
      ensures gs2[k] != [] && out2[k] == MergeAll(gs2[k])
    {
      if k > 0 {
        assert gs2[k] == gs[k - 1] && out2[k] == out[k - 1];
      }
    }
  }

  /** The groups of inputs behind the outputs of the merge loop, when the
      running segment is the merge of `group`. */
  ghost function GroupsFrom(group: seq<Segment>, rest: seq<Segment>, minDuration: real): seq<seq<Segment>>
    requires group != []
    decreases |rest|
  {
    if rest == [] then [group]
    else if Duration(MergeAll(group)) < minDuration then GroupsFrom(group + [rest[0]], rest[1..], minDuration)
    else [group] + GroupsFrom([rest[0]], rest[1..], minDuration)
  }

  lemma {:induction false} GroupsFromFlatten(group: seq<Segment>, rest: seq<Segment>, minDuration: real)
    requires group != []
    ensures Flatten(GroupsFrom(group, rest, minDuration)) == group + rest
    decreases |rest|
  {
    if rest == [] {
      assert Flatten([group]) == group + Flatten<Segment>([]);
    } else if Duration(MergeAll(group)) < minDuration {
      var g2 := group + [rest[0]];
      GroupsFromFlatten(g2, rest[1..], minDuration);
      ShiftHead(group, rest);
    } else {
      GroupsFromFlatten([rest[0]], rest[1..], minDuration);
      var gs := GroupsFrom([rest[0]], rest[1..], minDuration);
      assert GroupsFrom(group, rest, minDuration) == [group] + gs;
      FlattenCons(group, gs);
      ShiftHead(group, rest);
    }
  }

  lemma {:induction false} GroupsFromMerges(group: seq<Segment>, rest: seq<Segment>, minDuration: real)
    requires group != []
    ensures MergesOf(GroupsFrom(group, rest, minDuration), AggregateFrom(MergeAll(group), rest, minDuration))
    decreases |rest|
  {
    if rest == [] {
      assert MergesOf([group], [MergeAll(group)]);
    } else if Duration(MergeAll(group)) < minDuration {
      var g2 := group + [rest[0]];
      assert g2[..|g2| - 1] == group;
      assert MergeAll(g2) == Merge(MergeAll(group), rest[0]);
      GroupsFromMerges(g2, rest[1..], minDuration);
    } else {
      assert MergeAll([rest[0]]) == rest[0];
      GroupsFromMerges([rest[0]], rest[1..], minDuration);
      var gs := GroupsFrom([rest[0]], rest[1..], minDuration);
      assert GroupsFrom(group, rest, minDuration) == [group] + gs;
      MergesOfCons(group, gs, AggregateFrom(rest[0], rest[1..], minDuration));
    }
  }

  /** The outputs cover the input contiguously: the input splits into
      consecutive non-empty groups, and each output is its group merged
      (first start, last end, texts joined by one space and stripped). */
  lemma AggregatedPartition(segments: seq<Segment>, minDuration: real)
    requires segments != []
    ensures exists gs: seq<seq<Segment>> :: Flatten(gs) == segments && MergesOf(gs, Aggregated(segments, minDuration))
  {
    var gs := GroupsFrom([segments[0]], segments[1..], minDuration);
    GroupsFromFlatten([segments[0]], segments[1..], minDuration);
    GroupsFromMerges([segments[0]], segments[1..], minDuration);
    assert [segments[0]] + segments[1..] == segments;
    assert Flatten(gs) == segments;
  }

  /** An input whose segments, except possibly the last, already last at
      least `minDuration` passes through the merge loop unchanged. */
  lemma {:induction false} AggregateFromFixpoint(s: seq<Segment>, minDuration: real)
    requires s != [] && Settled(s, minDuration)
    ensures AggregateFrom(s[0], s[1..], minDuration) == s
    decreases |s|
  {
    if |s| > 1 {
      assert Settled(s[1..], minDuration) by {
        forall i | 0 <= i < |s[1..]| - 1
          ensures Duration(s[1..][i]) >= minDuration
        {
          assert s[1..][i] == s[i + 1];
        }
      }
      AggregateFromFixpoint(s[1..], minDuration);
      assert s[1..][0] == s[1] && s[1..][1..] == s[2..];
      assert Duration(s[0]) >= minDuration;
      assert [s[0]] + s[1..] == s;
    }
  }

  /** `pre_aggregate` is idempotent for a fixed `min_duration`. */
  lemma AggregatedIdempotent(segments: seq<Segment>, minDuration: real)
    ensures Aggregated(Aggregated(segments, minDuration), minDuration) == Aggregated(segments, minDuration)
  {
    var r := Aggregated(segments, minDuration);
    if r != [] {
      AggregatedSettled(segments, minDuration);
      AggregateFromFixpoint(r, minDuration);
    }
  }

  /** Total tokens of a group of segments. */
  function Tokens(tokens: string -> nat, segs: seq<Segment>): nat {
    if segs == [] then 0 else Tokens(tokens, segs[..|segs| - 1]) + tokens(segs[|segs| - 1].text)
  }

  lemma TokensAppend(tokens: string -> nat, segs: seq<Segment>, s: Segment)
    ensures Tokens(tokens, segs + [s]) == Tokens(tokens, segs) + tokens(s.text)
  {
    assert (segs + [s])[..|segs + [s]| - 1] == segs;
  }

  /** The specification of the packing loop: `current` is the open chunk
      and `rest` the segments still to place. */
  function PackFrom(rest: seq<Segment>, tokens: string -> nat, maxTokens: int, current: seq<Segment>): seq<seq<Segment>>
    decreases |rest|
  {
    if rest == [] then (if current != [] then [current] else [])
    else if Tokens(tokens, current) + tokens(rest[0].text) > maxTokens && current != []
    then [current] + PackFrom(rest[1..], tokens, maxTokens, [rest[0]])
    else PackFrom(rest[1..], tokens, maxTokens, current + [rest[0]])
  }

  /** One step of the packing loop. */
  lemma PackFromStep(rest: seq<Segment>, tokens: string -> nat, maxTokens: int, current: seq<Segment>)
    requires rest != []
    ensures Tokens(tokens, current) + tokens(rest[0].text) > maxTokens && current != [] ==>
      PackFrom(rest, tokens, maxTokens, current) == [current] + PackFrom(rest[1..], tokens, maxTokens, [rest[0]])
    ensures !(Tokens(tokens, current) + tokens(rest[0].text) > maxTokens && current != []) ==>
      PackFrom(rest, tokens, maxTokens, current) == PackFrom(rest[1..], tokens, maxTokens, current + [rest[0]])
  {
  }

  /** What `Chunker.chunk(transcript)` returns. */
  function Chunks(segments: seq<Segment>, tokens: string -> nat, maxTokens: int): seq<seq<Segment>> {
    PackFrom(Aggregated(segments, DefaultMinDuration), tokens, maxTokens, [])
  }

  /** `Chunker.chunk` */
  method Chunk(transcript: Transcript, tokens: string -> nat, maxTokens: int) returns (chunks: seq<seq<Segment>>)
    ensures chunks == Chunks(transcript.segments, tokens, maxTokens)
  {
    var segments := PreAggregate(transcript.segments, DefaultMinDuration);
    chunks := [];
    var current: seq<Segment> := [];
    var currentTokens: nat := 0;
    var i := 0;
    while i < |segments|
      invariant 0 <= i <= |segments|
      invariant currentTokens == Tokens(tokens, current)
      invariant Chunks(transcript.segments, tokens, maxTokens) == chunks + PackFrom(segments[i..], tokens, maxTokens, current)
    {
      var seg := segments[i];
      PackFromStep(segments[i..], tokens, maxTokens, current);
      assert segments[i..][0] == seg && segments[i..][1..] == segments[i + 1..];
      var segTokens := tokens(seg.text);
      if currentTokens + segTokens > maxTokens && current != [] {
        chunks := chunks + [current];
        current := [];
        currentTokens := 0;
      }
      TokensAppend(tokens, current, seg);
      current := current + [seg];
      currentTokens := currentTokens + segTokens;
      i := i + 1;
    }
    if current != [] {
      chunks := chunks + [current];
    }
  }


  /** No chunk is empty. */
  predicate NonEmptyChunks(cs: seq<seq<Segment>>) {
    forall k | 0 <= k < |cs| :: cs[k] != []
  }

  /** Packing never emits an empty chunk and loses or reorders no segment. */
  lemma {:induction false} PackFromPartition(rest: seq<Segment>, tokens: string -> nat, maxTokens: int, current: seq<Segment>)
    ensures NonEmptyChunks(PackFrom(rest, tokens, maxTokens, current))
    ensures Flatten(PackFrom(rest, tokens, maxTokens, current)) == current + rest
    decreases |rest|
  {
    if rest == [] {
      assert current + rest == current;
      if current != [] {
        assert Flatten([current]) == current + Flatten<Segment>([]);
      }
    } else if Tokens(tokens, current) + tokens(rest[0].text) > maxTokens && current != [] {
      PackFromPartition(rest[1..], tokens, maxTokens, [rest[0]]);
      var cs := PackFrom(rest[1..], tokens, maxTokens, [rest[0]]);
      var all: seq<seq<Segment>> := [current] + cs;
      assert PackFrom(rest, tokens, maxTokens, current) == all;
      assert all[1..] == cs;
      forall k | 0 <= k < |all|
        ensures all[k] != []
      {
        if k > 0 {
          assert all[k] == cs[k - 1];
        }
      }
      assert [rest[0]] + rest[1..] == rest;
    } else {
      PackFromPartition(rest[1..], tokens, maxTokens, current + [rest[0]]);
      assert current + [rest[0]] + rest[1..] == current + rest;
    }
  }

  /** `chunk` never emits an empty chunk, and its chunks concatenated are
      exactly `pre_aggregate(transcript.segments)`; in particular there are
      no chunks exactly when the transcript has no segments. */
  lemma ChunksPartition(segments: seq<Segment>, tokens: string -> nat, maxTokens: int)
    ensures NonEmptyChunks(Chunks(segments, tokens, maxTokens))
    ensures Flatten(Chunks(segments, tokens, maxTokens)) == Aggregated(segments, DefaultMinDuration)
    ensures Chunks(segments, tokens, maxTokens) == [] <==> segments == []
  {
    var agg := Aggregated(segments, DefaultMinDuration);
    PackFromPartition(agg, tokens, maxTokens, []);
    assert [] + agg == agg;
    AggregatedLength(segments, DefaultMinDuration);
    var cs := Chunks(segments, tokens, maxTokens);
    if cs != [] {
      assert Flatten(cs) == cs[0] + Flatten(cs[1..]);
    }
  }

  /** Every chunk fits the budget unless it is a single (oversized) segment. */
  predicate WithinBudget(tokens: string -> nat, maxTokens: int, cs: seq<seq<Segment>>) {
    forall k | 0 <= k < |cs| :: Tokens(tokens, cs[k]) <= maxTokens || |cs[k]| == 1
  }

  lemma {:induction false} PackFromBudget(rest: seq<Segment>, tokens: string -> nat, maxTokens: int, current: seq<Segment>)
    requires Tokens(tokens, current) <= maxTokens || |current| <= 1
    ensures WithinBudget(tokens, maxTokens, PackFrom(rest, tokens, maxTokens, current))
    decreases |rest|
  {
    if rest == [] {
    } else if Tokens(tokens, current) + tokens(rest[0].text) > maxTokens && current != [] {
      PackFromBudget(rest[1..], tokens, maxTokens, [rest[0]]);
      var cs := PackFrom(rest[1..], tokens, maxTokens, [rest[0]]);
      var all: seq<seq<Segment>> := [current] + cs;
      assert PackFrom(rest, tokens, maxTokens, current) == all;
      forall k | 0 <= k < |all|
        ensures Tokens(tokens, all[k]) <= maxTokens || |all[k]| == 1
      {
        if k > 0 {
          assert all[k] == cs[k - 1];
        }
      }
    } else {
      TokensAppend(tokens, current, rest[0]);
      if current == [] {
        assert current + [rest[0]] == [rest[0]];
      }
      PackFromBudget(rest[1..], tokens, maxTokens, current + [rest[0]]);
    }
  }

  lemma ChunksBudget(segments: seq<Segment>, tokens: string -> nat, maxTokens: int)
    ensures WithinBudget(tokens, maxTokens, Chunks(segments, tokens, maxTokens))
  {
    PackFromBudget(Aggregated(segments, DefaultMinDuration), tokens, maxTokens, []);
  }

  /** The first chunk of a packing continues the open chunk. */
  lemma {:induction false} PackFromFirst(rest: seq<Segment>, tokens: string -> nat, maxTokens: int, current: seq<Segment>)
    requires current != []
    ensures var cs := PackFrom(rest, tokens, maxTokens, current);
      cs != [] && cs[0] != [] && cs[0][0] == current[0]
    decreases |rest|
  {
    if rest != [] && !(Tokens(tokens, current) + tokens(rest[0].text) > maxTokens) {
      PackFromFirst(rest[1..], tokens, maxTokens, current + [rest[0]]);
    }
  }

  /** Greedy maximality: each chunk was closed only because the first
      segment of the next chunk would have taken it over the budget. */
  predicate Maximal(tokens: string -> nat, maxTokens: int, cs: seq<seq<Segment>>) {
    forall k | 0 < k < |cs| :: cs[k] != [] && Tokens(tokens, cs[k - 1]) + tokens(cs[k][0].text) > maxTokens
  }

  lemma {:induction false} PackFromMaximal(rest: seq<Segment>, tokens: string -> nat, maxTokens: int, current: seq<Segment>)
    ensures Maximal(tokens, maxTokens, PackFrom(rest, tokens, maxTokens, current))
    decreases |rest|
  {
    if rest == [] {
    } else if Tokens(tokens, current) + tokens(rest[0].text) > maxTokens && current != [] {
      var tail := PackFrom(rest[1..], tokens, maxTokens, [rest[0]]);
      PackFromMaximal(rest[1..], tokens, maxTokens, [rest[0]]);
      PackFromFirst(rest[1..], tokens, maxTokens, [rest[0]]);
      var all: seq<seq<Segment>> := [current] + tail;
      assert PackFrom(rest, tokens, maxTokens, current) == all;
      forall k | 0 < k < |all|
        ensures all[k] != [] && Tokens(tokens, all[k - 1]) + tokens(all[k][0].text) > maxTokens
      {
        assert all[k] == tail[k - 1];
        if k > 1 {
          assert all[k - 1] == tail[k - 2];
        }
      }
    } else {
      PackFromMaximal(rest[1..], tokens, maxTokens, current + [rest[0]]);
    }
  }

  lemma ChunksMaximal(segments: seq<Segment>, tokens: string -> nat, maxTokens: int)
    ensures Maximal(tokens, maxTokens, Chunks(segments, tokens, maxTokens))
  {
    PackFromMaximal(Aggregated(segments, DefaultMinDuration), tokens, maxTokens, []);
  }
}
