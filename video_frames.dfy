/** The video frame extractor: ffmpeg writes one frame per interval into a temporary folder,
  * and the extractor then walks the frames in name order, deletes each frame whose content
  * hash it has already seen and moves the others to the output folder under consecutive
  * names. The ffmpeg run is represented by its exit code, the frame contents by their hash
  * (None when hashing fails) and the clock by the timestamp text. */
module VideoFrames {
  import opened Wrappers
  import opened Text
  import opened Paths
  import OptionMaps

  const MinIntervalSeconds: int := 1
  const MaxIntervalSeconds: int := 20
  const DefaultFfmpegPath := "ffmpeg"

  /** The extractor's readonly fields. */
  datatype ExtractorConfig = ExtractorConfig(ffmpegPath: string, intervalSeconds: int, tempDir: string, outputDir: string)

  /** The reasons a call fails: the constructor's range check, a missing video, and a
    * failing ffmpeg run. */
  datatype ExtractError = IntervalOutOfRange | VideoNotFound | FfmpegFailed(exitCode: int, stdErr: string)

  /** The constructor's checks: the interval must lie in 1..20 seconds, and a blank ffmpeg
    * path means "ffmpeg" on the search path. */
  function NewExtractorConfig(ffmpegPath: string, intervalSeconds: int, tempDir: string, outputDir: string): (r: Result<ExtractorConfig, ExtractError>)
    ensures r.Ok? <==> MinIntervalSeconds <= intervalSeconds <= MaxIntervalSeconds
    ensures r.Err? ==> r.error == IntervalOutOfRange
    ensures r.Ok? ==> && r.value.intervalSeconds == intervalSeconds
                      && r.value.tempDir == tempDir && r.value.outputDir == outputDir
                      && !IsBlank(r.value.ffmpegPath)
                      && (IsBlank(ffmpegPath) ==> r.value.ffmpegPath == DefaultFfmpegPath)
                      && (!IsBlank(ffmpegPath) ==> r.value.ffmpegPath == ffmpegPath)
  {
    if intervalSeconds < MinIntervalSeconds || intervalSeconds > MaxIntervalSeconds then Err(IntervalOutOfRange)
    else
      assert DefaultFfmpegPath[0] == 'f';
      Ok(ExtractorConfig(if IsBlank(ffmpegPath) then DefaultFfmpegPath else ffmpegPath, intervalSeconds, tempDir, outputDir))
  }

  // ---------------------------------------------------------------------------
  // Names of the kept frames
  // ---------------------------------------------------------------------------

  /** $"capture_video_{ts}_{k:000000}.png" */
  function FrameName(ts: string, k: nat): string {
    "capture_video_" + ts + "_" + PadZeros(k, 6) + ".png"
  }

  /** Different counters give different names, whatever the timestamp. */
  lemma FrameNamesDistinct(ts: string, j: nat, k: nat)
    requires j != k
    ensures FrameName(ts, j) != FrameName(ts, k)
  {
    var a, b := FrameName(ts, j), FrameName(ts, k);
    var p := |"capture_video_" + ts + "_"|;
    if |a| == |b| {
      assert a[p..|a| - 4] == PadZeros(j, 6);
      assert b[p..|b| - 4] == PadZeros(k, 6);
    }
  }

  /** The path of the k-th kept frame in the output folder. */
  function FramePath(outputDir: string, ts: string): nat -> string {
    (k: nat) => Combine(outputDir, FrameName(ts, k))
  }

  /** Each kept frame paired with the destination its position (from 1) gives it. */
  function MovesTo(kept: seq<string>, path: nat -> string): (r: seq<(string, string)>)
    ensures |r| == |kept|
  {
    seq(|kept|, k requires 0 <= k < |kept| => (kept[k], path(k + 1)))
  }

  /** The moves of the kept frames: the k-th kept frame (from 1) goes to the output folder
    * under the k-th name. */
  function Renames(outputDir: string, ts: string, kept: seq<string>): (r: seq<(string, string)>)
    ensures |r| == |kept|
  {
    MovesTo(kept, FramePath(outputDir, ts))
  }

  /** The moved frames keep their listing order and are numbered 1, 2, ... without gaps;
    * no two of them get the same name. */
  lemma RenamesShape(outputDir: string, ts: string, kept: seq<string>)
    ensures var r := Renames(outputDir, ts, kept);
      && (forall k :: 0 <= k < |r| ==> r[k].0 == kept[k] && r[k].1 == Combine(outputDir, FrameName(ts, k + 1)))
      && (forall j, k :: 0 <= j < k < |r| ==> r[j].1 != r[k].1)
  {
    var path := FramePath(outputDir, ts);
    forall j, k | 0 < j < k <= |kept| ensures path(j) != path(k) {
      FramePathsDistinct(outputDir, ts, j, k);
    }
    MovesToShape(kept, path);
  }

  /** Moves to pairwise different destinations keep the frames' order and never share one. */
  lemma MovesToShape(kept: seq<string>, path: nat -> string)
    requires forall j, k :: 0 < j < k <= |kept| ==> path(j) != path(k)
    ensures var r := MovesTo(kept, path);
      && (forall k :: 0 <= k < |r| ==> r[k].0 == kept[k] && r[k].1 == path(k + 1))
      && (forall j, k :: 0 <= j < k < |r| ==> r[j].1 != r[k].1)
  {
    var r := MovesTo(kept, path);
    forall j, k | 0 <= j < k < |r| ensures r[j].1 != r[k].1 {
      assert r[j].1 == path(j + 1) && r[k].1 == path(k + 1);
    }
  }

  /** Two counters give two paths in the output folder. */
  lemma FramePathsDistinct(outputDir: string, ts: string, j: nat, k: nat)
    requires j != k
    ensures Combine(outputDir, FrameName(ts, j)) != Combine(outputDir, FrameName(ts, k))
  {
    FrameNamesDistinct(ts, j, k);
    FrameNameRelative(ts, j);
    FrameNameRelative(ts, k);
    RelativeCombineDistinct(outputDir, FrameName(ts, j), FrameName(ts, k));
  }

  lemma FrameNameRelative(ts: string, k: nat)
    ensures !IsRooted(FrameName(ts, k))
  {
    var a := FrameName(ts, k);
    assert a[0] == 'c' && a[1] == 'a';
  }

  lemma MovesToSnoc(kept: seq<string>, f: string, path: nat -> string)
    ensures MovesTo(kept + [f], path) == MovesTo(kept, path) + [(f, path(|kept| + 1))]
  {
    var a, b := MovesTo(kept + [f], path), MovesTo(kept, path) + [(f, path(|kept| + 1))];
    forall k | 0 <= k < |a| ensures a[k] == b[k] {
      if k < |kept| {
        assert (kept + [f])[k] == kept[k];
      }
    }
  }

  /** One more kept frame adds one move, to the next name. */
  lemma RenamesSnoc(outputDir: string, ts: string, kept: seq<string>, f: string)
    ensures Renames(outputDir, ts, kept + [f]) == Renames(outputDir, ts, kept) + [(f, Combine(outputDir, FrameName(ts, |kept| + 1)))]
  {
    MovesToSnoc(kept, f, FramePath(outputDir, ts));
  }

  // ---------------------------------------------------------------------------
  // The duplicate check and the sweep over the frames
  // ---------------------------------------------------------------------------

  /** _hashes compares ignoring case: a hash is kept by its upper-case form. */
  function HashKey(hash: string): string { Upper(hash) }

  /** IsDuplicate: a frame whose hash is known; a frame that cannot be hashed is new. */
  predicate IsDuplicateHash(hashes: set<string>, hash: Option<string>) {
    hash.Some? && HashKey(hash.value) in hashes
  }

  /** The hash set after IsDuplicate: a new hash is added. */
  function Remember(hashes: set<string>, hash: Option<string>): set<string> {
    if hash.Some? then hashes + {HashKey(hash.value)} else hashes
  }

  /** What the loop has done so far: the frames moved and deleted, in order, and the hashes
    * the extractor knows. */
  datatype Sweep = Sweep(kept: seq<string>, dropped: seq<string>, hashes: set<string>)

  /** The loop over the ordered frames, from the extractor's hash set. */
  function SweepFrames(hashes: set<string>, frames: seq<string>, hashOf: string -> Option<string>): Sweep {
    if frames == [] then Sweep([], [], hashes)
    else
      var s := SweepFrames(hashes, frames[..|frames| - 1], hashOf);
      var f := frames[|frames| - 1];
      if IsDuplicateHash(s.hashes, hashOf(f)) then s.(dropped := s.dropped + [f])
      else Sweep(s.kept + [f], s.dropped, Remember(s.hashes, hashOf(f)))
  }

  /** The hash keys of the frames that could be hashed. */
  function KeysOf(frames: seq<string>, hashOf: string -> Option<string>): set<string> {
    set i | 0 <= i < |frames| && hashOf(frames[i]).Some? :: HashKey(hashOf(frames[i]).value)
  }

  /** The sweep splits the frames into moved and deleted ones: every frame is one or the
    * other; the moved frames' hashes are new to the extractor and distinct from each other;
    * every deleted frame has a hash the extractor knew or a moved frame had; the extractor
    * then knows its old hashes and those of the moved frames; and a frame that cannot be
    * hashed is always moved. */
  lemma SweepShape(hashes: set<string>, frames: seq<string>, hashOf: string -> Option<string>)
    ensures var s := SweepFrames(hashes, frames, hashOf);
      && multiset(s.kept) + multiset(s.dropped) == multiset(frames)
      && s.hashes == hashes + KeysOf(s.kept, hashOf)
      && (forall i :: 0 <= i < |s.kept| ==> !IsDuplicateHash(hashes, hashOf(s.kept[i])))
      && (forall i, j :: 0 <= i < j < |s.kept| && hashOf(s.kept[i]).Some? && hashOf(s.kept[j]).Some?
            ==> HashKey(hashOf(s.kept[i]).value) != HashKey(hashOf(s.kept[j]).value))
      && (forall i :: 0 <= i < |s.dropped| ==> IsDuplicateHash(s.hashes, hashOf(s.dropped[i])))
      && (forall i :: 0 <= i < |frames| && hashOf(frames[i]).None? ==> frames[i] in s.kept)
  {
    SweepPartition(hashes, frames, hashOf);
    SweepHashes(hashes, frames, hashOf);
    SweepDecisions(hashes, frames, hashOf);
  }

  /** Every frame is moved or deleted, and one that cannot be hashed is moved. */
  lemma SweepPartition(hashes: set<string>, frames: seq<string>, hashOf: string -> Option<string>)
    ensures var s := SweepFrames(hashes, frames, hashOf);
      && multiset(s.kept) + multiset(s.dropped) == multiset(frames)
      && (forall i :: 0 <= i < |frames| && hashOf(frames[i]).None? ==> frames[i] in s.kept)
  {
    SweepCounts(hashes, frames, hashOf);
    SweepKeepsUnhashed(hashes, frames, hashOf);
  }

  /** The last frame is either moved or deleted, and moved when it cannot be hashed. */
  lemma SweepLast(hashes: set<string>, frames: seq<string>, hashOf: string -> Option<string>)
    requires frames != []
    ensures var s, p, f := SweepFrames(hashes, frames, hashOf), SweepFrames(hashes, frames[..|frames| - 1], hashOf), frames[|frames| - 1];
      && ((s.kept == p.kept + [f] && s.dropped == p.dropped) || (s.kept == p.kept && s.dropped == p.dropped + [f]))
      && (hashOf(f).None? ==> s.kept == p.kept + [f])
  {
  }

  /** The moved and the deleted frames together are the frames. */
  lemma {:induction false} SweepCounts(hashes: set<string>, frames: seq<string>, hashOf: string -> Option<string>)
    ensures var s := SweepFrames(hashes, frames, hashOf);
      multiset(s.kept) + multiset(s.dropped) == multiset(frames)
  {
    if frames != [] {
      var p := frames[..|frames| - 1];
      var f := frames[|frames| - 1];
      SweepCounts(hashes, p, hashOf);
      SweepLast(hashes, frames, hashOf);
      var s, sp := SweepFrames(hashes, frames, hashOf), SweepFrames(hashes, p, hashOf);
      assert frames == p + [f];
      assert multiset(frames) == multiset(p) + multiset{f};
      if s.kept == sp.kept + [f] && s.dropped == sp.dropped {
        assert multiset(s.kept) == multiset(sp.kept) + multiset{f};
      } else {
        assert multiset(s.dropped) == multiset(sp.dropped) + multiset{f};
      }
    }
  }

  /** A frame that cannot be hashed is moved. */
  lemma {:induction false} SweepKeepsUnhashed(hashes: set<string>, frames: seq<string>, hashOf: string -> Option<string>)
    ensures var s := SweepFrames(hashes, frames, hashOf);
      forall i :: 0 <= i < |frames| && hashOf(frames[i]).None? ==> frames[i] in s.kept
  {
    if frames != [] {
      var p := frames[..|frames| - 1];
      SweepKeepsUnhashed(hashes, p, hashOf);
      SweepLast(hashes, frames, hashOf);
      assert forall i :: 0 <= i < |p| ==> frames[i] == p[i];
    }
  }

  /** The extractor ends up knowing its old hashes and those of the moved frames. */
  lemma {:induction false} SweepHashes(hashes: set<string>, frames: seq<string>, hashOf: string -> Option<string>)
    ensures var s := SweepFrames(hashes, frames, hashOf);
      s.hashes == hashes + KeysOf(s.kept, hashOf)
  {
    if frames != [] {
      var p := frames[..|frames| - 1];
      var f := frames[|frames| - 1];
      SweepHashes(hashes, p, hashOf);
      var s := SweepFrames(hashes, p, hashOf);
      if !IsDuplicateHash(s.hashes, hashOf(f)) {
        KeysSnoc(s.kept, f, hashOf);
      }
    }
  }

  /** The moved frames' hashes are new and distinct; the deleted frames' hashes were known. */
  lemma {:induction false} SweepDecisions(hashes: set<string>, frames: seq<string>, hashOf: string -> Option<string>)
    ensures var s := SweepFrames(hashes, frames, hashOf);
      && (forall i :: 0 <= i < |s.kept| ==> !IsDuplicateHash(hashes, hashOf(s.kept[i])))
      && (forall i, j :: 0 <= i < j < |s.kept| && hashOf(s.kept[i]).Some? && hashOf(s.kept[j]).Some?
            ==> HashKey(hashOf(s.kept[i]).value) != HashKey(hashOf(s.kept[j]).value))
      && (forall i :: 0 <= i < |s.dropped| ==> IsDuplicateHash(s.hashes, hashOf(s.dropped[i])))
  {
    if frames != [] {
      var p := frames[..|frames| - 1];
      var f := frames[|frames| - 1];
      SweepDecisions(hashes, p, hashOf);
      SweepHashes(hashes, p, hashOf);
      var s := SweepFrames(hashes, p, hashOf);
      if !IsDuplicateHash(s.hashes, hashOf(f)) {
        var kept := s.kept + [f];
        assert forall i :: 0 <= i < |s.kept| ==> kept[i] == s.kept[i];
        KeysMember(s.kept, hashOf);
      }
    }
  }

  lemma KeysSnoc(frames: seq<string>, f: string, hashOf: string -> Option<string>)
    ensures KeysOf(frames + [f], hashOf) == KeysOf(frames, hashOf) + (if hashOf(f).Some? then {HashKey(hashOf(f).value)} else {})
  {
    var g := frames + [f];
    forall x | x in KeysOf(g, hashOf) ensures x in KeysOf(frames, hashOf) + (if hashOf(f).Some? then {HashKey(hashOf(f).value)} else {}) {
      var i :| 0 <= i < |g| && hashOf(g[i]).Some? && x == HashKey(hashOf(g[i]).value);
      if i < |frames| { assert g[i] == frames[i]; }
    }
    forall x | x in KeysOf(frames, hashOf) ensures x in KeysOf(g, hashOf) {
      var i :| 0 <= i < |frames| && hashOf(frames[i]).Some? && x == HashKey(hashOf(frames[i]).value);
      assert g[i] == frames[i];
    }
    if hashOf(f).Some? {
      assert g[|frames|] == f;
    }
  }

  lemma KeysMember(frames: seq<string>, hashOf: string -> Option<string>)
    ensures forall i :: 0 <= i < |frames| && hashOf(frames[i]).Some? ==> HashKey(hashOf(frames[i]).value) in KeysOf(frames, hashOf)
  {
  }

  // ---------------------------------------------------------------------------
  // The extractor
  // ---------------------------------------------------------------------------

  /** OrderBy(f => f, StringComparer.OrdinalIgnoreCase): a stable sort by the upper-case
    * form of the names. */
  function FrameOrder(listing: seq<string>): (r: seq<string>)
    ensures OptionMaps.SortedBy(r, f => f) && multiset(r) == multiset(listing)
  {
    OptionMaps.SortBy(listing, f => f)
  }

  /** A VideoFrameExtractor: its configuration and the hashes of every frame it has kept,
    * across all its calls. */
  class VideoFrameExtractor {
    const config: ExtractorConfig
    var hashes: set<string>

    constructor(config: ExtractorConfig)
      ensures this.config == config && hashes == {}
    {
      this.config := config;
      hashes := {};
    }

    /** IsDuplicate(file): true for a known hash; otherwise the hash is remembered, and a
      * hashing error counts as new. */
    method IsDuplicate(hash: Option<string>) returns (duplicate: bool)
      modifies this
      ensures duplicate == IsDuplicateHash(old(hashes), hash)
      ensures hashes == if duplicate then old(hashes) else Remember(old(hashes), hash)
    {
      if hash.None? {
        return false;
      }
      var key := HashKey(hash.value);
      if key in hashes {
        return true;
      }
      hashes := hashes + {key};
      return false;
    }

    /** ExtractAsync after ffmpeg: a missing video and a failing ffmpeg are errors that leave
      * the hashes alone; otherwise the frames are visited in name order, duplicates deleted
      * and the others moved under consecutive names, and the count of moved frames is
      * returned. */
    method Extract(videoExists: bool, ffmpegExitCode: int, stdErr: string, listing: seq<string>,
                   ts: string, hashOf: string -> Option<string>)
      returns (r: Result<nat, ExtractError>, moves: seq<(string, string)>, deletes: seq<string>)
      modifies this
      ensures !videoExists ==> r == Err(VideoNotFound) && moves == [] && deletes == [] && hashes == old(hashes)
      ensures videoExists && ffmpegExitCode != 0 ==>
        r == Err(FfmpegFailed(ffmpegExitCode, stdErr)) && moves == [] && deletes == [] && hashes == old(hashes)
      ensures videoExists && ffmpegExitCode == 0 ==>
        var s := SweepFrames(old(hashes), FrameOrder(listing), hashOf);
        && r == Ok(|s.kept|) && hashes == s.hashes && deletes == s.dropped
        && moves == Renames(config.outputDir, ts, s.kept)
    {
      moves, deletes := [], [];
      if !videoExists {
        return Err(VideoNotFound), moves, deletes;
      }
      if ffmpegExitCode != 0 {
        return Err(FfmpegFailed(ffmpegExitCode, stdErr)), moves, deletes;
      }
      var kept := MoveFrames(FrameOrder(listing), ts, hashOf);
      moves, deletes := kept.0, kept.1;
      r := Ok(|kept.0|);
    }

    /** The foreach over the ordered frames. */
    method MoveFrames(frames: seq<string>, ts: string, hashOf: string -> Option<string>)
      returns (done: (seq<(string, string)>, seq<string>))
      modifies this
      ensures var s := SweepFrames(old(hashes), frames, hashOf);
        && hashes == s.hashes && done.1 == s.dropped
        && done.0 == Renames(config.outputDir, ts, s.kept) && |done.0| == |s.kept|
    {
      var moves: seq<(string, string)> := [];
      var deletes: seq<string> := [];
      var kept: nat := 0;
      ghost var start := hashes;
      ghost var movedFrames: seq<string> := [];
      for i := 0 to |frames|
        invariant SweepFrames(start, frames[..i], hashOf) == Sweep(movedFrames, deletes, hashes)
        invariant kept == |movedFrames| && moves == Renames(config.outputDir, ts, movedFrames)
      {
        assert frames[..i + 1][..i] == frames[..i];
        var file := frames[i];
        var duplicate := IsDuplicate(hashOf(file));
        if duplicate {
          deletes := deletes + [file];
          continue;
        }
        var dest := Combine(config.outputDir, FrameName(ts, kept + 1));
        RenamesSnoc(config.outputDir, ts, movedFrames, file);
        moves := moves + [(file, dest)];
        movedFrames := movedFrames + [file];
        kept := kept + 1;
      }
      assert frames[..|frames|] == frames;
      done := (moves, deletes);
    }
  }
}
