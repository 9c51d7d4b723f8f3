/** The pending-file watcher: on every timer tick it lists the capture folder and hands each
  * PNG that has neither an answer record nor a processed marker to the pipeline, once per
  * watcher. The directory listing and the set of existing files are inputs of a tick; the
  * pipeline call is represented by the sequence of submitted paths. */
module Watcher {
  import opened Wrappers
  import opened Text
  import Pipeline

  /** The default tick interval, TimeSpan.FromSeconds(5), in milliseconds. */
  const DefaultIntervalMs: nat := 5000

  /** The images the preprocessing step writes beside the captures. */
  const OcrPrepSuffix := "_ocrprep.png"

  /** string.EndsWith(suffix, StringComparison.OrdinalIgnoreCase) */
  predicate EndsWithIgnoreCase(s: string, suffix: string) {
    |suffix| <= |s| && EqualsIgnoreCase(s[|s| - |suffix|..], suffix)
  }

  /** The files a tick considers at all: not a preprocessing image, and with neither the
    * answer record nor the processed marker that the pipeline writes for it. */
  predicate IsPending(resultDir: string, files: set<string>, file: string) {
    && !EndsWithIgnoreCase(file, OcrPrepSuffix)
    && Pipeline.ResultPath(resultDir, file) !in files
    && Pipeline.MarkerPath(resultDir, file) !in files
  }

  /** IsPending for one tick's folder state, as a predicate on paths. */
  function PendingIn(resultDir: string, files: set<string>): string -> bool {
    file => IsPending(resultDir, files, file)
  }

  /** The paths a file submits when it is visited with this in-flight set: itself when it is
    * pending and _inFlight.TryAdd accepts it. */
  function Accepted(pending: string -> bool, inFlight: set<string>, file: string): seq<string> {
    if pending(file) && file !in inFlight then [file] else []
  }

  /** The in-flight set after visiting a file. */
  function FlightAfter(pending: string -> bool, inFlight: set<string>, file: string): set<string> {
    if Accepted(pending, inFlight, file) == [] then inFlight else inFlight + {file}
  }

  /** The paths one tick submits, in listing order: the pending files that _inFlight.TryAdd
    * accepts, each accepted path joining _inFlight for the rest of the listing. */
  function TickSubmits(pending: string -> bool, inFlight: set<string>, listing: seq<string>): seq<string>
    decreases |listing|
  {
    if listing == [] then []
    else
      (Accepted(pending, inFlight, listing[0])
       + TickSubmits(pending, FlightAfter(pending, inFlight, listing[0]), listing[1..]))
  }

  predicate Distinct(s: seq<string>) {
    forall i, j :: 0 <= i < j < |s| ==> s[i] != s[j]
  }

  /** A tick submits exactly the pending listed files not yet in flight, each once: what it
    * submits is listed, pending, new and without repeats, and every listed pending file that
    * was not in flight is submitted. */
  lemma {:induction false} TickSubmitsShape(pending: string -> bool, inFlight: set<string>, listing: seq<string>)
    ensures var r := TickSubmits(pending, inFlight, listing);
      && Distinct(r)
      && (forall k :: 0 <= k < |r| ==> r[k] in listing && r[k] !in inFlight && pending(r[k]))
      && (forall k :: 0 <= k < |listing| && pending(listing[k]) && listing[k] !in inFlight ==> listing[k] in r)
    decreases |listing|
  {
    if listing != [] {
      var f := listing[0];
      var rest := listing[1..];
      var f1 := FlightAfter(pending, inFlight, f);
      TickSubmitsShape(pending, f1, rest);
      var t := TickSubmits(pending, f1, rest);
      assert forall k :: 0 < k < |listing| ==> listing[k] == rest[k - 1];
      assert inFlight <= f1;
    }
  }

  /** The step the loop takes at position i: visiting listing[i] moves its submission from
    * what is left to do into what was done. */
  lemma TickSubmitsStep(pending: string -> bool, listing: seq<string>, i: nat,
                        s0: seq<string>, f0: set<string>, s1: seq<string>, f1: set<string>)
    requires i < |listing|
    requires s1 == s0 + Accepted(pending, f0, listing[i])
    requires f1 == FlightAfter(pending, f0, listing[i])
    ensures s0 + TickSubmits(pending, f0, listing[i..]) == s1 + TickSubmits(pending, f1, listing[i + 1..])
  {
    assert listing[i..][1..] == listing[i + 1..];
  }

  lemma SetOfConcat(a: seq<string>, b: seq<string>)
    ensures (set p | p in a + b) == (set p | p in a) + (set p | p in b)
  {
  }

  /** Preprocessing images are never submitted, whatever their case, and neither is a file
    * whose answer record or processed marker exists. */
  lemma SkippedNeverSubmitted(resultDir: string, files: set<string>, inFlight: set<string>, listing: seq<string>, file: string)
    requires || EndsWithIgnoreCase(file, OcrPrepSuffix)
             || Pipeline.ResultPath(resultDir, file) in files
             || Pipeline.MarkerPath(resultDir, file) in files
    ensures file !in TickSubmits(PendingIn(resultDir, files), inFlight, listing)
  {
    TickSubmitsShape(PendingIn(resultDir, files), inFlight, listing);
  }

  /** The watcher: its folders and interval, the in-flight set, the paths handed to the
    * pipeline, whether its timer runs and whether it was disposed. */
  class PendingWatcher {
    const captureDir: string
    const resultDir: string
    const intervalMs: nat
    var inFlight: set<string>
    var submitted: seq<string>
    var timerRunning: bool
    var disposed: bool

    /** Each path is handed to the pipeline at most once, and the in-flight set is exactly
      * the paths handed over: entries are never removed. */
    predicate Valid()
      reads this
    {
      Distinct(submitted) && inFlight == set p | p in submitted
    }

    constructor(captureDir: string, resultDir: string, intervalMs: Option<nat>)
      ensures Valid()
      ensures this.captureDir == captureDir && this.resultDir == resultDir
      ensures this.intervalMs == if intervalMs.Some? then intervalMs.value else DefaultIntervalMs
      ensures inFlight == {} && submitted == [] && !timerRunning && !disposed
    {
      this.captureDir := captureDir;
      this.resultDir := resultDir;
      this.intervalMs := if intervalMs.Some? then intervalMs.value else DefaultIntervalMs;
      inFlight := {};
      submitted := [];
      timerRunning := false;
      disposed := false;
    }

    /** Start: the timer starts ticking. */
    method Start()
      modifies this
      ensures timerRunning
      ensures inFlight == old(inFlight) && submitted == old(submitted) && disposed == old(disposed)
    {
      timerRunning := true;
    }

    /** OnTickAsync: nothing after Dispose or when the folder cannot be listed; otherwise every
      * pending listed file that TryAdd accepts is handed to the pipeline. */
    method Tick(listing: Option<seq<string>>, files: set<string>)
      requires Valid()
      modifies this
      ensures Valid()
      ensures old(disposed) || listing.None? ==> inFlight == old(inFlight) && submitted == old(submitted)
      ensures !old(disposed) && listing.Some? ==>
        var added := TickSubmits(PendingIn(resultDir, files), old(inFlight), listing.value);
        submitted == old(submitted) + added && inFlight == old(inFlight) + set p | p in added
      ensures timerRunning == old(timerRunning) && disposed == old(disposed)
    {
      if disposed || listing.None? {
        return;
      }
      VisitAll(listing.value, files);
      SetOfConcat(old(submitted), TickSubmits(PendingIn(resultDir, files), old(inFlight), listing.value));
    }

    /** The foreach over the listing. */
    method VisitAll(names: seq<string>, files: set<string>)
      requires Valid()
      modifies this
      ensures Valid()
      ensures submitted == old(submitted) + TickSubmits(PendingIn(resultDir, files), old(inFlight), names)
      ensures timerRunning == old(timerRunning) && disposed == old(disposed)
    {
      ghost var total := TickSubmits(PendingIn(resultDir, files), inFlight, names);
      ghost var before := submitted;
      for i := 0 to |names|
        invariant Valid()
        invariant before + total == submitted + TickSubmits(PendingIn(resultDir, files), inFlight, names[i..])
        invariant timerRunning == old(timerRunning) && disposed == old(disposed)
      {
        ghost var s0, f0 := submitted, inFlight;
        Visit(names[i], files);
        TickSubmitsStep(PendingIn(resultDir, files), names, i, s0, f0, submitted, inFlight);
      }
      assert names[|names|..] == [];
    }

    /** One listed file: skipped unless pending, and handed over when TryAdd accepts it. */
    method Visit(file: string, files: set<string>)
      requires Valid()
      modifies this
      ensures Valid()
      ensures submitted == old(submitted) + Accepted(PendingIn(resultDir, files), old(inFlight), file)
      ensures inFlight == FlightAfter(PendingIn(resultDir, files), old(inFlight), file)
      ensures timerRunning == old(timerRunning) && disposed == old(disposed)
    {
      assert PendingIn(resultDir, files)(file) == IsPending(resultDir, files, file);
      if EndsWithIgnoreCase(file, OcrPrepSuffix) {
        return;
      }
      var resultPath, markerPath := Pipeline.ResultPath(resultDir, file), Pipeline.MarkerPath(resultDir, file);
      if resultPath in files || markerPath in files {
        return;
      }
      var added := TryAdd(file);
      if added {
        submitted := submitted + [file];
      }
    }

    /** _inFlight.TryAdd(file, 0) */
    method TryAdd(file: string) returns (added: bool)
      modifies this
      ensures added == (file !in old(inFlight)) && inFlight == old(inFlight) + {file}
      ensures submitted == old(submitted) && timerRunning == old(timerRunning) && disposed == old(disposed)
    {
      added := file !in inFlight;
      inFlight := inFlight + {file};
    }

    /** Dispose: the first call stops the timer and marks the watcher disposed; later calls
      * change nothing. */
    method Dispose()
      modifies this
      ensures disposed
      ensures old(disposed) ==> timerRunning == old(timerRunning)
      ensures !old(disposed) ==> !timerRunning
      ensures inFlight == old(inFlight) && submitted == old(submitted)
    {
      if disposed {
        return;
      }
      disposed := true;
      timerRunning := false;
    }
  }
}
