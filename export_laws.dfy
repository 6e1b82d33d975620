/**
 * What an export run leaves behind, stated without the loops and for any
 * per-sample step: every sample before the first failing one gets its wav
 * file and its transcript line, in index order, and nothing after it does.
 */
module ExportLaws {
  import opened Wrappers
  import opened Seqs
  import opened Chunking
  import opened ExportNaming
  import opened AudioSource
  import opened Exporter

  /** The first sample in `[lo, hi)` whose export fails, or `hi` when none does. */
  function FirstFailure(lo: nat, hi: nat, data: seq<Sample>, step: SampleStep): (f: nat)
    requires lo <= hi <= |data|
    ensures lo <= f <= hi
    ensures forall idx :: lo <= idx < f ==> step(idx, data[idx]).Ok?
    ensures f < hi ==> step(f, data[f]).Err?
    decreases hi - lo
  {
    if lo == hi then hi
    else if step(lo, data[lo]).Err? then lo
    else FirstFailure(lo + 1, hi, data, step)
  }

  /** Every sample in `[lo, hi)` exports. */
  predicate Exports(data: seq<Sample>, lo: nat, hi: nat, step: SampleStep)
    requires lo <= hi <= |data|
  {
    forall idx :: lo <= idx < hi ==> step(idx, data[idx]).Ok?
  }

  /** The transcript lines of samples `lo .. hi - 1`, all of which export, in index order. */
  function Lines(data: seq<Sample>, lo: nat, hi: nat, step: SampleStep): (ls: seq<string>)
    requires lo <= hi <= |data| && Exports(data, lo, hi, step)
    ensures |ls| == hi - lo
    decreases hi - lo
  {
    if lo == hi then [] else [step(lo, data[lo]).value.1] + Lines(data, lo + 1, hi, step)
  }

  /** The wav files of samples `lo .. hi - 1`, all of which export, in index order. */
  function Wavs(data: seq<Sample>, lo: nat, hi: nat, step: SampleStep): (ws: seq<WavFile>)
    requires lo <= hi <= |data| && Exports(data, lo, hi, step)
    ensures |ws| == hi - lo
    decreases hi - lo
  {
    if lo == hi then [] else [step(lo, data[lo]).value.0] + Wavs(data, lo + 1, hi, step)
  }

  /** Entry `j` of `Lines` and of `Wavs` comes from sample `lo + j`. */
  lemma {:induction false} OutputsAt(data: seq<Sample>, lo: nat, hi: nat, j: nat, step: SampleStep)
    requires lo <= hi <= |data| && Exports(data, lo, hi, step) && j < hi - lo
    ensures Lines(data, lo, hi, step)[j] == step(lo + j, data[lo + j]).value.1
    ensures Wavs(data, lo, hi, step)[j] == step(lo + j, data[lo + j]).value.0
    decreases j
  {
    if j > 0 {
      OutputsAt(data, lo + 1, hi, j - 1, step);
    }
  }

  function Transcripts(dirs: seq<ChunkDir>): (t: seq<seq<string>>)
    ensures |t| == |dirs| && forall j :: 0 <= j < |dirs| ==> t[j] == dirs[j].transcript
  {
    seq(|dirs|, j requires 0 <= j < |dirs| => dirs[j].transcript)
  }

  function WavsWritten(dirs: seq<ChunkDir>): (w: seq<seq<WavFile>>)
    ensures |w| == |dirs| && forall j :: 0 <= j < |dirs| ==> w[j] == dirs[j].wavs
  {
    seq(|dirs|, j requires 0 <= j < |dirs| => dirs[j].wavs)
  }

  lemma DirsCons(dir: ChunkDir, rest: seq<ChunkDir>)
    ensures Transcripts([dir] + rest) == [dir.transcript] + Transcripts(rest)
    ensures WavsWritten([dir] + rest) == [dir.wavs] + WavsWritten(rest)
  {
  }

  /** The first failure is the one index before which everything exports and which itself fails. */
  lemma FirstFailureUnique(lo: nat, hi: nat, g: nat, data: seq<Sample>, step: SampleStep)
    requires lo <= g <= hi <= |data|
    requires forall idx :: lo <= idx < g ==> step(idx, data[idx]).Ok?
    requires g < hi ==> step(g, data[g]).Err?
    ensures FirstFailure(lo, hi, data, step) == g
  {
  }

  /**
   * One chunk's loop writes the wav files and transcript lines of every
   * sample before the first failing one, and stops with that sample's error.
   */
  lemma {:induction false} ExportRangeSpec(lo: nat, hi: nat, data: seq<Sample>, step: SampleStep)
    requires lo <= hi <= |data|
    ensures var run := ExportRange(lo, hi, data, step);
            var f := FirstFailure(lo, hi, data, step);
            && run.lines == Lines(data, lo, f, step)
            && run.wavs == Wavs(data, lo, f, step)
            && run.error == if f < hi then Some(step(f, data[f]).error) else None
    decreases hi - lo
  {
    if lo < hi && step(lo, data[lo]).Ok? {
      ExportRangeSpec(lo + 1, hi, data, step);
    }
  }

  /**
   * Running over `[lo, hi)` is running over `[lo, mid)` and then, unless
   * that failed, over `[mid, hi)`: chunking a range changes nothing of what
   * is written.
   */
  lemma {:induction false} ExportRangeSplit(lo: int, mid: int, hi: int, data: seq<Sample>, step: SampleStep)
    requires 0 <= lo <= mid <= hi <= |data|
    ensures var a := ExportRange(lo, mid, data, step);
            var b := ExportRange(mid, hi, data, step);
            var w := ExportRange(lo, hi, data, step);
            && (a.error.Some? ==> w == a)
            && (a.error.None? ==> w == ChunkRun(a.wavs + b.wavs, a.lines + b.lines, b.error))
    decreases mid - lo
  {
    if lo < mid {
      var r := step(lo, data[lo]);
      if r.Ok? {
        ExportRangeSplit(lo + 1, mid, hi, data, step);
        var a := ExportRange(lo + 1, mid, data, step);
        var b := ExportRange(mid, hi, data, step);
        AppendAssoc([r.value.0], a.wavs, b.wavs);
        AppendAssoc([r.value.1], a.lines, b.lines);
      }
    }
  }

  /** Where chunk `i` of `bs` starts; one past the last chunk, the end of the split. */
  function ChunkFrom(i: nat, bs: seq<(int, int)>, m: nat): int
  {
    if i < |bs| then bs[i].0 else m
  }

  /** Directory `j` of `dirs` is `data{j+1}` of the right split. */
  predicate Named(dirs: seq<ChunkDir>, outputDir: string, outputSplit: string)
  {
    forall j :: 0 <= j < |dirs| ==> dirs[j].path == ChunkPath(outputDir, outputSplit, j)
  }

  /** Directory `j` of `dirs` holds exactly the transcript lines of chunk `j` of `bs`, all of whose samples export. */
  predicate Transcribed(dirs: seq<ChunkDir>, data: seq<Sample>, bs: seq<(int, int)>, step: SampleStep)
  {
    forall j :: 0 <= j < |dirs| ==>
      && j < |bs|
      && 0 <= bs[j].0 <= bs[j].1 <= |data|
      && Exports(data, bs[j].0, bs[j].1, step)
      && dirs[j].transcript == Lines(data, bs[j].0, bs[j].1, step)
  }

  /** Every directory of `dirs` is empty. */
  predicate AllEmpty(dirs: seq<ChunkDir>)
  {
    forall j :: 0 <= j < |dirs| ==> dirs[j].wavs == [] && dirs[j].transcript == []
  }

  /** The run from chunk `i` creates at most one directory per remaining chunk, and exactly that many unless it fails. */
  lemma {:induction false} ExportChunksCount(outputDir: string, outputSplit: string, i: nat, data: seq<Sample>, bs: seq<(int, int)>, step: SampleStep)
    requires Fits(bs, |data|) && i <= |bs|
    ensures var r := ExportChunks(outputDir, outputSplit, i, data, bs, step);
            && |r.dirs| <= |bs| - i
            && (r.error.None? ==> |r.dirs| == |bs| - i)
    decreases |bs| - i
  {
    if i < |bs| {
      ExportChunksCount(outputDir, outputSplit, i + 1, data, bs, step);
    }
  }

  /** Directory `j` of the run from chunk `i` is `data{i+j+1}` and holds what the inner loop wrote for chunk `i + j`. */
  lemma {:induction false} ExportChunksAt(outputDir: string, outputSplit: string, i: nat, j: nat, data: seq<Sample>, bs: seq<(int, int)>, step: SampleStep)
    requires Fits(bs, |data|) && i <= |bs|
    requires j < |ExportChunks(outputDir, outputSplit, i, data, bs, step).dirs|
    ensures i + j < |bs|
    ensures var run := ExportRange(bs[i + j].0, bs[i + j].1, data, step);
            ExportChunks(outputDir, outputSplit, i, data, bs, step).dirs[j]
              == ChunkDir(ChunkPath(outputDir, outputSplit, i + j), run.wavs, run.lines)
    decreases j
  {
    ExportChunksCount(outputDir, outputSplit, i, data, bs, step);
    if j > 0 {
      ExportChunksAt(outputDir, outputSplit, i + 1, j - 1, data, bs, step);
      assert (i + 1) + (j - 1) == i + j;
    }
  }

  /** The lines and wav files of a run that stops in its first directory. */
  lemma FlattenOne(dirs: seq<ChunkDir>, dir: ChunkDir)
    requires dirs == [dir]
    ensures Flatten(Transcripts(dirs)) == dir.transcript
    ensures Flatten(WavsWritten(dirs)) == dir.wavs
  {
    DirsCons(dir, []);
    FlattenSingleton(dir.transcript);
    FlattenSingleton(dir.wavs);
  }

  /** The lines and wav files of a run are its first directory's followed by the rest's. */
  lemma FlattenStep(dirs: seq<ChunkDir>, dir: ChunkDir, rest: seq<ChunkDir>)
    requires dirs == [dir] + rest
    ensures Flatten(Transcripts(dirs)) == dir.transcript + Flatten(Transcripts(rest))
    ensures Flatten(WavsWritten(dirs)) == dir.wavs + Flatten(WavsWritten(rest))
  {
    DirsCons(dir, rest);
    FlattenCons(dir.transcript, Transcripts(rest));
    FlattenCons(dir.wavs, WavsWritten(rest));
  }

  /**
   * Over ranges that tile the split, the run from chunk `i` on writes, across
   * its directories and in order, exactly what one loop over all the
   * remaining samples would write, and stops with the same error.
   */
  lemma {:induction false} ExportChunksFrom(outputDir: string, outputSplit: string, i: nat, data: seq<Sample>, bs: seq<(int, int)>, step: SampleStep)
    requires Tiled(bs, |data|) && i <= |bs|
    ensures 0 <= ChunkFrom(i, bs, |data|) <= |data|
    ensures var w := ExportRange(ChunkFrom(i, bs, |data|), |data|, data, step);
            var r := ExportChunks(outputDir, outputSplit, i, data, bs, step);
            && r.error == w.error
            && Flatten(Transcripts(r.dirs)) == w.lines
            && Flatten(WavsWritten(r.dirs)) == w.wavs
    decreases |bs| - i
  {
    var m := |data|;
    var r := ExportChunks(outputDir, outputSplit, i, data, bs, step);
    if i < |bs| {
      var lo, mid := bs[i].0, bs[i].1;
      assert mid == ChunkFrom(i + 1, bs, m);
      ExportRangeSplit(lo, mid, m, data, step);
      var run := ExportRange(lo, mid, data, step);
      var dir := ChunkDir(ChunkPath(outputDir, outputSplit, i), run.wavs, run.lines);
      if run.error.Some? {
        FlattenOne(r.dirs, dir);
      } else {
        ExportChunksFrom(outputDir, outputSplit, i + 1, data, bs, step);
        FlattenStep(r.dirs, dir, ExportChunks(outputDir, outputSplit, i + 1, data, bs, step).dirs);
      }
    }
  }

  /**
   * Unless the chunk size is negative, exporting a split writes the
   * transcript lines and wav files of samples `0, 1, ...` up to, and not
   * including, the first sample whose step fails, in index order across all
   * chunk directories; it fails exactly when such a sample exists, with its
   * error.
   */
  lemma SplitRunOutcome(outputDir: string, outputSplit: string, data: seq<Sample>, k: Option<int>, step: SampleStep)
    requires !NegativeSize(k)
    ensures var m := |data|;
            var f := FirstFailure(0, m, data, step);
            var r := ExportChunks(outputDir, outputSplit, 0, data, Bounds(m, k), step);
            && (r.error.None? <==> Exports(data, 0, m, step))
            && (f < m ==> r.error == Some(step(f, data[f]).error))
            && Flatten(Transcripts(r.dirs)) == Lines(data, 0, f, step)
            && Flatten(WavsWritten(r.dirs)) == Wavs(data, 0, f, step)
  {
    BoundsTiled(|data|, k);
    ExportChunksFrom(outputDir, outputSplit, 0, data, Bounds(|data|, k), step);
    ExportRangeSpec(0, |data|, data, step);
  }

  /**
   * When every sample exports, directory `j` of the split is
   * `{output_dir}/{split}/data{j+1}` and holds exactly the lines of chunk `j`.
   */
  lemma ChunkComplete(outputDir: string, outputSplit: string, data: seq<Sample>, bs: seq<(int, int)>, j: nat, step: SampleStep)
    requires Fits(bs, |data|) && j < |ExportChunks(outputDir, outputSplit, 0, data, bs, step).dirs|
    requires Tiled(bs, |data|) && Exports(data, 0, |data|, step)
    ensures var dir := ExportChunks(outputDir, outputSplit, 0, data, bs, step).dirs[j];
            && j < |bs|
            && dir.path == ChunkPath(outputDir, outputSplit, j)
            && 0 <= bs[j].0 <= bs[j].1 <= |data|
            && Exports(data, bs[j].0, bs[j].1, step)
            && dir.transcript == Lines(data, bs[j].0, bs[j].1, step)
  {
    ExportChunksAt(outputDir, outputSplit, 0, j, data, bs, step);
    ExportRangeSpec(bs[j].0, bs[j].1, data, step);
    FirstFailureUnique(bs[j].0, bs[j].1, bs[j].1, data, step);
  }

  /**
   * When every sample exports, the split has one directory per chunk,
   * `{output_dir}/{split}/data{i+1}`, whose transcript holds exactly the lines
   * of that chunk's samples, and together they hold one line per sample.
   */
  lemma SplitRunComplete(outputDir: string, outputSplit: string, data: seq<Sample>, k: Option<int>, step: SampleStep)
    requires !NegativeSize(k) && Exports(data, 0, |data|, step)
    ensures var bs := Bounds(|data|, k);
            var r := ExportChunks(outputDir, outputSplit, 0, data, bs, step);
            && r.error.None?
            && |r.dirs| == ChunkCount(|data|, k)
            && Named(r.dirs, outputDir, outputSplit)
            && Transcribed(r.dirs, data, bs, step)
            && Flatten(Transcripts(r.dirs)) == Lines(data, 0, |data|, step)
  {
    var bs := Bounds(|data|, k);
    SplitRunOutcome(outputDir, outputSplit, data, k, step);
    FirstFailureUnique(0, |data|, |data|, data, step);
    BoundsTiled(|data|, k);
    ExportChunksCount(outputDir, outputSplit, 0, data, bs, step);
    var r := ExportChunks(outputDir, outputSplit, 0, data, bs, step);
    forall j | 0 <= j < |r.dirs|
      ensures j < |bs| && r.dirs[j].path == ChunkPath(outputDir, outputSplit, j)
      ensures 0 <= bs[j].0 <= bs[j].1 <= |data| && Exports(data, bs[j].0, bs[j].1, step)
      ensures r.dirs[j].transcript == Lines(data, bs[j].0, bs[j].1, step)
    {
      ChunkComplete(outputDir, outputSplit, data, bs, j, step);
    }
  }

  /** No range of `bs` holds an index. */
  predicate NoneCovered(bs: seq<(int, int)>)
  {
    forall j :: 0 <= j < |bs| ==> bs[j].1 <= bs[j].0
  }

  lemma {:induction false} ExportChunksEmpty(outputDir: string, outputSplit: string, i: nat, data: seq<Sample>, bs: seq<(int, int)>, step: SampleStep)
    requires Fits(bs, |data|) && NoneCovered(bs) && i <= |bs|
    ensures var r := ExportChunks(outputDir, outputSplit, i, data, bs, step);
            r.error.None? && |r.dirs| == |bs| - i && AllEmpty(r.dirs)
    decreases |bs| - i
  {
    if i < |bs| {
      ExportChunksEmpty(outputDir, outputSplit, i + 1, data, bs, step);
      var rest := ExportChunks(outputDir, outputSplit, i + 1, data, bs, step);
      var r := ExportChunks(outputDir, outputSplit, i, data, bs, step);
      forall j | 0 <= j < |r.dirs|
        ensures r.dirs[j].wavs == [] && r.dirs[j].transcript == []
      {
        if j > 0 {
          assert r.dirs[j] == rest.dirs[j - 1];
        }
      }
    }
  }

  /**
   * With a negative chunk size every one of the `ChunkCount` chunk
   * directories is created empty, and nothing fails, whatever the samples.
   */
  lemma SplitRunNegativeSize(outputDir: string, outputSplit: string, data: seq<Sample>, k: Option<int>, step: SampleStep)
    requires NegativeSize(k)
    ensures var r := ExportChunks(outputDir, outputSplit, 0, data, Bounds(|data|, k), step);
            r.error.None? && |r.dirs| == ChunkCount(|data|, k) && AllEmpty(r.dirs)
  {
    BoundsEmptyWhenNegative(|data|, k);
    ExportChunksEmpty(outputDir, outputSplit, 0, data, Bounds(|data|, k), step);
  }

  /**
   * The loop over the splits creates at most one run per split, exactly
   * that many unless one fails; a failure is the error of the last run, and
   * a loop that reports no error has no failed run.
   */
  lemma {:induction false} ExportSplitsCount(outputDir: string, splits: seq<(string, seq<Sample>)>, k: Option<int>, step: SampleStep)
    ensures var r := ExportSplits(outputDir, splits, k, step);
            && |r.splits| <= |splits|
            && (r.error.None? ==> |r.splits| == |splits|)
            && (r.error.Some? ==> |r.splits| > 0 && r.splits[|r.splits| - 1].error == r.error)
            && (r.error.None? ==> forall n :: 0 <= n < |r.splits| ==> r.splits[n].error.None?)
  {
    if splits != [] {
      var r := ExportSplits(outputDir, splits, k, step);
      var rest := ExportSplits(outputDir, splits[1..], k, step);
      ExportSplitsCount(outputDir, splits[1..], k, step);
      if r.error.None? {
        forall n | 0 <= n < |r.splits|
          ensures r.splits[n].error.None?
        {
          if n > 0 {
            assert r.splits[n] == rest.splits[n - 1];
          }
        }
      }
    }
  }

  /** Run `n` of the loop over the splits is the export of split `n`, and every run but the last succeeded. */
  lemma {:induction false} ExportSplitsAt(outputDir: string, splits: seq<(string, seq<Sample>)>, n: nat, k: Option<int>, step: SampleStep)
    requires n < |ExportSplits(outputDir, splits, k, step).splits|
    ensures n < |splits|
    ensures var r := ExportSplits(outputDir, splits, k, step);
            && r.splits[n] == ExportSplitRun(outputDir, splits[n], k, step)
            && (n + 1 < |r.splits| ==> r.splits[n].error.None?)
    decreases n
  {
    ExportSplitsCount(outputDir, splits, k, step);
    if n > 0 {
      ExportSplitsAt(outputDir, splits[1..], n - 1, k, step);
    }
  }
}
