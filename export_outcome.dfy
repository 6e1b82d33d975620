/**
 * The laws of `ExportLaws` for the exporter's own per-sample step: which
 * samples fail, and which lines and wav files the transcript files and chunk
 * directories end up holding.
 */
module ExportOutcome {
  import opened Wrappers
  import opened Seqs
  import opened Chunking
  import opened ExportNaming
  import opened AudioSource
  import opened Exporter
  import opened ExportLaws

  /** The lines `audio_{idx:06d} {text}\n` of samples `lo .. hi - 1`, in index order. */
  function TranscriptLines(data: seq<Sample>, lo: nat, hi: nat): seq<string>
    requires lo <= hi <= |data|
  {
    seq(hi - lo, j requires 0 <= j < hi - lo => TranscriptLine(AudioFilename(lo + j), data[lo + j].text))
  }

  /** Every sample in `[lo, hi)` has an audio source that `sf.read` decodes, or a decoded array and rate. */
  predicate Readable(data: seq<Sample>, lo: nat, hi: nat, env: Env)
    requires lo <= hi <= |data|
  {
    forall idx :: lo <= idx < hi ==> ReadAudio(idx, data[idx].audio, env).Ok?
  }

  /**
   * The wav files of samples `lo .. hi - 1`, all readable: `audio_{idx:06d}.wav`
   * holding the selected audio, decoded, squeezed as written at lines 84-85.
   */
  function ReadableWavs(data: seq<Sample>, lo: nat, hi: nat, env: Env): seq<WavFile>
    requires lo <= hi <= |data| && Readable(data, lo, hi, env)
  {
    seq(hi - lo, j requires 0 <= j < hi - lo =>
      var decoded := ReadAudio(lo + j, data[lo + j].audio, env).value;
      WavFile(WavName(lo + j), decoded.0.(shape := SqueezeAsWritten(decoded.0.shape)), decoded.1))
  }

  /** The exporter's step succeeds on a range exactly when every sample in it has readable audio. */
  lemma ExportsIffReadable(data: seq<Sample>, lo: nat, hi: nat, env: Env)
    requires lo <= hi <= |data|
    ensures Exports(data, lo, hi, SampleExport(env)) <==> Readable(data, lo, hi, env)
  {
    forall idx | lo <= idx < hi
      ensures SampleExport(env)(idx, data[idx]).Ok? <==> ReadAudio(idx, data[idx].audio, env).Ok?
    {
    }
  }

  /** Over readable samples the exporter's step yields exactly their transcript lines and wav files. */
  lemma ReadableOutputs(data: seq<Sample>, lo: nat, hi: nat, env: Env)
    requires lo <= hi <= |data| && Readable(data, lo, hi, env)
    ensures Exports(data, lo, hi, SampleExport(env))
    ensures Lines(data, lo, hi, SampleExport(env)) == TranscriptLines(data, lo, hi)
    ensures Wavs(data, lo, hi, SampleExport(env)) == ReadableWavs(data, lo, hi, env)
  {
    var step := SampleExport(env);
    ExportsIffReadable(data, lo, hi, env);
    forall j | 0 <= j < hi - lo
      ensures Lines(data, lo, hi, step)[j] == TranscriptLines(data, lo, hi)[j]
      ensures Wavs(data, lo, hi, step)[j] == ReadableWavs(data, lo, hi, env)[j]
    {
      OutputsAt(data, lo, hi, j, step);
    }
  }

  /**
   * Unless the chunk size is negative, exporting a split writes, in index
   * order across its chunk directories, the transcript lines and wav files of
   * samples `0, 1, ...` up to the first sample `f` with no readable audio; it
   * fails exactly when there is such a sample, with the error naming it:
   * no source, a missing rate, or a source `sf.read` rejects.
   */
  lemma ExportSplitOutcome(outputDir: string, outputSplit: string, data: seq<Sample>, k: Option<int>, env: Env)
    requires !NegativeSize(k)
    ensures var m := |data|;
            var f := FirstFailure(0, m, data, SampleExport(env));
            var r := ExportChunks(outputDir, outputSplit, 0, data, Bounds(m, k), SampleExport(env));
            && Readable(data, 0, f, env)
            && (f < m ==> ReadAudio(f, data[f].audio, env).Err?)
            && (r.error.None? <==> f == m)
            && (f < m ==> r.error == Some(ReadAudio(f, data[f].audio, env).error))
            && Flatten(Transcripts(r.dirs)) == TranscriptLines(data, 0, f)
            && Flatten(WavsWritten(r.dirs)) == ReadableWavs(data, 0, f, env)
  {
    var m := |data|;
    var f := FirstFailure(0, m, data, SampleExport(env));
    SplitRunOutcome(outputDir, outputSplit, data, k, SampleExport(env));
    ExportsIffReadable(data, 0, f, env);
    ReadableOutputs(data, 0, f, env);
    if f == m {
      ExportsIffReadable(data, 0, m, env);
    }
  }

  /** A transcript holding the step's lines for chunk `j` holds that chunk's transcript lines. */
  lemma ChunkTranscript(dir: ChunkDir, data: seq<Sample>, k: Option<int>, j: nat, env: Env)
    requires j < |Bounds(|data|, k)|
    requires var b := Bounds(|data|, k)[j];
             && 0 <= b.0 <= b.1 <= |data|
             && Exports(data, b.0, b.1, SampleExport(env))
             && dir.transcript == Lines(data, b.0, b.1, SampleExport(env))
    ensures 0 <= ChunkStart(j, k) <= ChunkEnd(j, |data|, k) <= |data|
    ensures dir.transcript == TranscriptLines(data, ChunkStart(j, k), ChunkEnd(j, |data|, k))
  {
    var b := Bounds(|data|, k)[j];
    assert b == (ChunkStart(j, k), ChunkEnd(j, |data|, k));
    ExportsIffReadable(data, b.0, b.1, env);
    ReadableOutputs(data, b.0, b.1, env);
  }

  /**
   * When every sample has readable audio, the split has `ChunkCount` chunk
   * directories; directory `j` is `{output_dir}/{split}/data{j+1}` and its
   * transcript holds exactly the lines of samples `ChunkStart(j)` up to
   * `ChunkEnd(j)`; together they hold one line per sample, in order.
   */
  lemma ExportSplitComplete(outputDir: string, outputSplit: string, data: seq<Sample>, k: Option<int>, env: Env)
    requires !NegativeSize(k) && Readable(data, 0, |data|, env)
    ensures var m := |data|;
            var r := ExportChunks(outputDir, outputSplit, 0, data, Bounds(m, k), SampleExport(env));
            && r.error.None?
            && |r.dirs| == ChunkCount(m, k)
            && (forall j :: 0 <= j < |r.dirs| ==>
                  && r.dirs[j].path == [outputDir, outputSplit, SubdirName(j)]
                  && 0 <= ChunkStart(j, k) <= ChunkEnd(j, m, k) <= m
                  && r.dirs[j].transcript == TranscriptLines(data, ChunkStart(j, k), ChunkEnd(j, m, k)))
            && Flatten(Transcripts(r.dirs)) == TranscriptLines(data, 0, m)
  {
    var m := |data|;
    var step := SampleExport(env);
    var bs := Bounds(m, k);
    ExportsIffReadable(data, 0, m, env);
    SplitRunComplete(outputDir, outputSplit, data, k, step);
    var r := ExportChunks(outputDir, outputSplit, 0, data, bs, step);
    forall j | 0 <= j < |r.dirs|
      ensures 0 <= ChunkStart(j, k) <= ChunkEnd(j, m, k) <= m
      ensures r.dirs[j].transcript == TranscriptLines(data, ChunkStart(j, k), ChunkEnd(j, m, k))
    {
      ChunkTranscript(r.dirs[j], data, k, j, env);
    }
    ReadableOutputs(data, 0, m, env);
  }

  /**
   * Exporting the dataset exports its splits in order, each under its renamed
   * directory; every split before the last one attempted succeeded, the
   * export fails exactly when some split run failed, which is then the last
   * one attempted, with its error; otherwise every split was exported.
   */
  lemma ExportDatasetOutcome(outputDir: string, splits: seq<(string, seq<Sample>)>, k: Option<int>, env: Env)
    ensures var r := ExportSplits(outputDir, splits, k, SampleExport(env));
            && |r.splits| <= |splits|
            && (r.error.None? ==> |r.splits| == |splits|)
            && (r.error.Some? ==> |r.splits| > 0 && r.splits[|r.splits| - 1].error == r.error)
            && (r.error.None? <==> forall n :: 0 <= n < |r.splits| ==> r.splits[n].error.None?)
            && forall n :: 0 <= n < |r.splits| ==>
                 && r.splits[n] == ExportSplitRun(outputDir, splits[n], k, SampleExport(env))
                 && (n + 1 < |r.splits| ==> r.splits[n].error.None?)
  {
    var r := ExportSplits(outputDir, splits, k, SampleExport(env));
    ExportSplitsCount(outputDir, splits, k, SampleExport(env));
    forall n | 0 <= n < |r.splits|
      ensures r.splits[n] == ExportSplitRun(outputDir, splits[n], k, SampleExport(env))
      ensures n + 1 < |r.splits| ==> r.splits[n].error.None?
    {
      ExportSplitsAt(outputDir, splits, n, k, SampleExport(env));
    }
  }
}
