/**
 * `convert_hf_dataset_to_supervised`: every split is written as chunk
 * directories `{output_dir}/{split}/data{N}`, each holding one `.wav` per
 * sample and one transcript file. The file system is modelled as the
 * directories the run leaves behind, in creation order; the decoder and the
 * existence check are parameters.
 */
module Exporter {
  import opened Wrappers
  import opened Seqs
  import opened Chunking
  import opened ExportNaming
  import opened AudioSource

  /** One dataset row: its audio column and its text column. */
  datatype Sample = Sample(audio: AudioField, text: string)

  /**
   * What the exporter asks of the outside world: `os.path.exists` and
   * `soundfile.read` on a file or on bytes, `None` where `sf.read` raises.
   */
  datatype Env = Env(
    fileExists: string -> bool,
    readFile: string -> Option<(AudioArray, int)>,
    readBytes: seq<bv8> -> Option<(AudioArray, int)>)

  /** A written `.wav`: file name, array, sampling rate. */
  datatype WavFile = WavFile(name: string, audio: AudioArray, rate: int)

  /**
   * A chunk directory as the run leaves it: path components, wav files, and
   * the lines of its one transcript file `filename.trans.txt`.
   */
  datatype ChunkDir = ChunkDir(path: seq<string>, wavs: seq<WavFile>, transcript: seq<string>)

  /** What the loop over one chunk produced, and the error that stopped it, if any. */
  datatype ChunkRun = ChunkRun(wavs: seq<WavFile>, lines: seq<string>, error: Option<ExportError>)

  /** What the export of one split left on disk, and the error that stopped it, if any. */
  datatype SplitRun = SplitRun(dirs: seq<ChunkDir>, error: Option<ExportError>)

  /** What the export of the dataset's splits left on disk, split by split, and the error that stopped it, if any. */
  datatype DatasetRun = DatasetRun(splits: seq<SplitRun>, error: Option<ExportError>)

  /** `Path(output_dir) / output_split / subdir_name` for chunk `i`. */
  function ChunkPath(outputDir: string, outputSplit: string, i: nat): seq<string>
  {
    [outputDir, outputSplit, SubdirName(i)]
  }

  /**
   * The array and sampling rate of sample `idx`: the selected source, read
   * with `sf.read` unless it is an already decoded array.
   */
  function ReadAudio(idx: nat, field: AudioField, env: Env): Result<(AudioArray, int), ExportError>
  {
    match SelectSource(idx, field, env.fileExists)
    case Err(e) => Err(e)
    case Ok(FromArray(a, rate)) => Ok((a, rate))
    case Ok(FromFile(p)) =>
      if env.readFile(p).Some? then Ok(env.readFile(p).value) else Err(Undecodable(idx))
    case Ok(FromBytes(b)) =>
      if env.readBytes(b).Some? then Ok(env.readBytes(b).value) else Err(Undecodable(idx))
  }

  /**
   * One iteration of the inner loop, with `squeeze` as the mono
   * normalisation of lines 84-85: the wav file and the transcript line of
   * sample `idx`, or the error that aborts the whole export.
   */
  function ExportSample(idx: nat, sample: Sample, env: Env, squeeze: seq<nat> -> seq<nat>): Result<(WavFile, string), ExportError>
  {
    match ReadAudio(idx, sample.audio, env)
    case Err(e) => Err(e)
    case Ok((a, rate)) =>
      Ok((WavFile(WavName(idx), a.(shape := squeeze(a.shape)), rate), TranscriptLine(AudioFilename(idx), sample.text)))
  }

  /**
   * What the program writes for one sample, case by case on its audio field:
   * a decoded array is written at its own rate whatever the path, the bytes
   * and the file system say, or fails with the `KeyError` when the rate is
   * missing; an existing file, else non-empty bytes, is written as `sf.read`
   * decodes it, or fails when `sf.read` does; with none of these the sample
   * fails with the `ValueError` naming it. A written sample is
   * `audio_{idx:06d}.wav`, squeezed as written, and the line
   * `audio_{idx:06d} {text}`.
   */
  lemma ExportSampleSpec(idx: nat, sample: Sample, env: Env)
    ensures var r := ExportSample(idx, sample, env, SqueezeAsWritten);
            var f := sample.audio;
            && (r.Ok? ==> r.value.0.name == WavName(idx) && r.value.1 == TranscriptLine(AudioFilename(idx), sample.text))
            && (r.Ok? ==> r.value.0.audio.shape == SqueezeAsWritten(ReadAudio(idx, f, env).value.0.shape))
            && (f.decoded.Some? && f.samplingRate.Some? ==>
                  r.Ok? && r.value.0.audio.payload == f.decoded.value.payload
                  && r.value.0.audio.shape == SqueezeAsWritten(f.decoded.value.shape)
                  && r.value.0.rate == f.samplingRate.value)
            && (f.decoded.Some? && f.samplingRate.None? ==> r == Err(MissingSamplingRate(idx)))
            && (f.decoded.None? && PathUsable(f.path, env.fileExists) ==>
                  && (r.Ok? <==> env.readFile(f.path.value).Some?)
                  && (r.Ok? ==> r.value.0.audio.payload == env.readFile(f.path.value).value.0.payload
                                && r.value.0.rate == env.readFile(f.path.value).value.1)
                  && (r.Err? ==> r.error == Undecodable(idx)))
            && (f.decoded.None? && !PathUsable(f.path, env.fileExists) && BytesUsable(f.bytes) ==>
                  && (r.Ok? <==> env.readBytes(f.bytes.value).Some?)
                  && (r.Ok? ==> r.value.0.audio.payload == env.readBytes(f.bytes.value).value.0.payload
                                && r.value.0.rate == env.readBytes(f.bytes.value).value.1)
                  && (r.Err? ==> r.error == Undecodable(idx)))
            && (f.decoded.None? && !PathUsable(f.path, env.fileExists) && !BytesUsable(f.bytes) ==>
                  r == Err(NoReadableAudio(idx, f.path, f.bytes.Some?)))
  {
  }

  /** The per-sample step of the inner loop, as the loops below take it. */
  type SampleStep = (nat, Sample) -> Result<(WavFile, string), ExportError>

  /** The exporter's own per-sample step under `env`, with `squeeze()` as written. */
  function SampleExport(env: Env): SampleStep
  {
    (idx: nat, sample: Sample) => ExportSample(idx, sample, env, SqueezeAsWritten)
  }

  /** The per-sample step with the corrected mono normalisation, which drops only the channel axis. */
  function CorrectedSampleExport(env: Env): SampleStep
  {
    (idx: nat, sample: Sample) => ExportSample(idx, sample, env, MonoSqueeze)
  }

  /**
   * The corrected step fails exactly where the program's step fails, with
   * the same error, and writes the same file name, values, rate and line;
   * only the shape differs, and it never loses the frame axis of an array
   * that has one.
   */
  lemma CorrectedStepDiffersOnlyInShape(idx: nat, sample: Sample, env: Env)
    ensures var w := SampleExport(env)(idx, sample);
            var c := CorrectedSampleExport(env)(idx, sample);
            && (c.Ok? <==> w.Ok?)
            && (c.Err? ==> c.error == w.error)
            && (c.Ok? ==> && c.value.1 == w.value.1
                          && c.value.0.name == w.value.0.name
                          && c.value.0.rate == w.value.0.rate
                          && c.value.0.audio.payload == w.value.0.audio.payload
                          && Product(c.value.0.audio.shape) == Product(w.value.0.audio.shape)
                          && (|ReadAudio(idx, sample.audio, env).value.0.shape| >= 1 ==> |c.value.0.audio.shape| >= 1))
  {
    var r := ReadAudio(idx, sample.audio, env);
    if r.Ok? {
      var shape := r.value.0.shape;
      MonoSqueezeSpec(shape);
    }
  }

  /** The inner loop `for idx in range(lo, hi)`, stopping at the first sample that fails. */
  function ExportRange(lo: int, hi: int, data: seq<Sample>, step: SampleStep): ChunkRun
    requires lo < hi ==> 0 <= lo && hi <= |data|
    decreases hi - lo
  {
    if lo >= hi then ChunkRun([], [], None)
    else
      match step(lo, data[lo])
      case Err(e) => ChunkRun([], [], Some(e))
      case Ok(out) =>
        var rest := ExportRange(lo + 1, hi, data, step);
        ChunkRun([out.0] + rest.wavs, [out.1] + rest.lines, rest.error)
  }

  /**
   * The outer loop from chunk `i` on, over the chunk ranges `bs`
   * (`Bounds(|data|, samples_per_subdir)` for a real run); a failing chunk is
   * the last directory created.
   */
  function ExportChunks(outputDir: string, outputSplit: string, i: nat, data: seq<Sample>, bs: seq<(int, int)>, step: SampleStep): SplitRun
    requires Fits(bs, |data|)
    decreases |bs| - i
  {
    if i >= |bs| then SplitRun([], None)
    else
      var run := ExportRange(bs[i].0, bs[i].1, data, step);
      var dir := ChunkDir(ChunkPath(outputDir, outputSplit, i), run.wavs, run.lines);
      if run.error.Some? then SplitRun([dir], run.error)
      else
        var rest := ExportChunks(outputDir, outputSplit, i + 1, data, bs, step);
        SplitRun([dir] + rest.dirs, rest.error)
  }

  /** The inner loop over the samples of one chunk, writing each sample's wav file and transcript line. */
  method ExportChunk(start: int, end: int, data: seq<Sample>, step: SampleStep)
    returns (wavs: seq<WavFile>, lines: seq<string>, error: Option<ExportError>)
    requires start < end ==> 0 <= start && end <= |data|
    ensures ChunkRun(wavs, lines, error) == ExportRange(start, end, data, step)
  {
    wavs, lines, error := [], [], None;
    var idx := start;
    while idx < end
      invariant idx == start || start < idx <= end
      invariant ExportRange(start, end, data, step) ==
        var rest := ExportRange(idx, end, data, step);
        ChunkRun(wavs + rest.wavs, lines + rest.lines, rest.error)
    {
      var r := step(idx, data[idx]);
      ExportRangeStep(wavs, lines, idx, end, data, step);
      if r.Err? {
        error := Some(r.error);
        return;
      }
      wavs, lines := wavs + [r.value.0], lines + [r.value.1];
      idx := idx + 1;
    }
  }

  /**
   * One step of the inner loop: a failing sample ends the chunk with its
   * error; otherwise its outputs move from what is left to what is written.
   */
  lemma ExportRangeStep(wavs: seq<WavFile>, lines: seq<string>, lo: int, hi: int, data: seq<Sample>, step: SampleStep)
    requires 0 <= lo < hi <= |data|
    ensures var r := step(lo, data[lo]);
            var run := ExportRange(lo, hi, data, step);
            var rest := ExportRange(lo + 1, hi, data, step);
            && (r.Err? ==> run == ChunkRun([], [], Some(r.error)))
            && (r.Ok? ==> ChunkRun(wavs + run.wavs, lines + run.lines, run.error)
                          == ChunkRun((wavs + [r.value.0]) + rest.wavs, (lines + [r.value.1]) + rest.lines, rest.error))
  {
    var r := step(lo, data[lo]);
    if r.Ok? {
      var rest := ExportRange(lo + 1, hi, data, step);
      AppendAssoc(wavs, [r.value.0], rest.wavs);
      AppendAssoc(lines, [r.value.1], rest.lines);
    }
  }

  /**
   * Export of one split: the chunk directories in order, stopping at the
   * first failing sample. Chunk `i` covers `Bounds(|data|, k)[i]`, that is
   * `[ChunkStart(i, k), ChunkEnd(i, |data|, k))`.
   */
  method ExportSplit(outputDir: string, outputSplit: string, data: seq<Sample>, k: Option<int>, step: SampleStep)
    returns (dirs: seq<ChunkDir>, error: Option<ExportError>)
    ensures SplitRun(dirs, error) == ExportChunks(outputDir, outputSplit, 0, data, Bounds(|data|, k), step)
  {
    var bs := Bounds(|data|, k);
    BoundsFit(|data|, k);
    dirs, error := [], None;
    var i := 0;
    while i < |bs|
      invariant 0 <= i <= |bs|
      invariant ExportChunks(outputDir, outputSplit, 0, data, bs, step) ==
        var rest := ExportChunks(outputDir, outputSplit, i, data, bs, step);
        SplitRun(dirs + rest.dirs, rest.error)
    {
      var (start, end) := bs[i];
      var wavs, lines, chunkError := ExportChunk(start, end, data, step);
      ExportChunksStep(dirs, outputDir, outputSplit, i, data, bs, step);
      dirs := dirs + [ChunkDir(ChunkPath(outputDir, outputSplit, i), wavs, lines)];
      if chunkError.Some? {
        error := chunkError;
        return;
      }
      i := i + 1;
    }
  }

  /**
   * One step of the outer loop: chunk `i`'s directory is appended to those
   * already written, and the run stops there if the chunk failed.
   */
  lemma ExportChunksStep(dirs: seq<ChunkDir>, outputDir: string, outputSplit: string, i: nat, data: seq<Sample>, bs: seq<(int, int)>, step: SampleStep)
    requires Fits(bs, |data|) && i < |bs|
    ensures var run := ExportRange(bs[i].0, bs[i].1, data, step);
            var dir := ChunkDir(ChunkPath(outputDir, outputSplit, i), run.wavs, run.lines);
            var r := ExportChunks(outputDir, outputSplit, i, data, bs, step);
            var rest := ExportChunks(outputDir, outputSplit, i + 1, data, bs, step);
            && (run.error.Some? ==> SplitRun(dirs + r.dirs, r.error) == SplitRun(dirs + [dir], run.error))
            && (run.error.None? ==> SplitRun(dirs + r.dirs, r.error) == SplitRun((dirs + [dir]) + rest.dirs, rest.error))
  {
    var run := ExportRange(bs[i].0, bs[i].1, data, step);
    var dir := ChunkDir(ChunkPath(outputDir, outputSplit, i), run.wavs, run.lines);
    AppendAssoc(dirs, [dir], ExportChunks(outputDir, outputSplit, i + 1, data, bs, step).dirs);
  }

  /**
   * The loop over the splits `splits`: each is written under its renamed
   * directory with chunk size `k`, and an error in one split ends the whole
   * export.
   */
  function ExportSplits(outputDir: string, splits: seq<(string, seq<Sample>)>, k: Option<int>, step: SampleStep): DatasetRun
  {
    if splits == [] then DatasetRun([], None)
    else
      var run := ExportSplitRun(outputDir, splits[0], k, step);
      if run.error.Some? then DatasetRun([run], run.error)
      else
        var rest := ExportSplits(outputDir, splits[1..], k, step);
        DatasetRun([run] + rest.splits, rest.error)
  }

  /** The export of one `(name, rows)` split under its renamed directory, with chunk size `k`. */
  function ExportSplitRun(outputDir: string, split: (string, seq<Sample>), k: Option<int>, step: SampleStep): SplitRun
  {
    BoundsFit(|split.1|, k);
    ExportChunks(outputDir, OutputSplit(split.0), 0, split.1, Bounds(|split.1|, k), step)
  }

  /**
   * `convert_hf_dataset_to_supervised` on a dataset whose splits, in
   * iteration order, are `splits` (name and rows), with chunk size `k`.
   */
  method ExportDataset(outputDir: string, splits: seq<(string, seq<Sample>)>, k: Option<int>, env: Env)
    returns (runs: seq<SplitRun>, error: Option<ExportError>)
    ensures DatasetRun(runs, error) == ExportSplits(outputDir, splits, k, SampleExport(env))
  {
    var step := SampleExport(env);
    runs, error := [], None;
    var j := 0;
    while j < |splits|
      invariant 0 <= j <= |splits|
      invariant ExportSplits(outputDir, splits, k, step) ==
        var rest := ExportSplits(outputDir, splits[j..], k, step);
        DatasetRun(runs + rest.splits, rest.error)
    {
      var (splitName, data) := splits[j];
      var outputSplit := OutputSplit(splitName);
      var dirs, splitError := ExportSplit(outputDir, outputSplit, data, k, step);
      ExportSplitsStep(runs, outputDir, splits[j..], k, step);
      assert splits[j..][1..] == splits[j + 1..];
      runs := runs + [SplitRun(dirs, splitError)];
      if splitError.Some? {
        error := splitError;
        return;
      }
      j := j + 1;
    }
  }

  /** One step of the loop over the splits, as `ExportChunksStep` is for chunks. */
  lemma ExportSplitsStep(runs: seq<SplitRun>, outputDir: string, splits: seq<(string, seq<Sample>)>, k: Option<int>, step: SampleStep)
    requires splits != []
    ensures var run := ExportSplitRun(outputDir, splits[0], k, step);
            var r := ExportSplits(outputDir, splits, k, step);
            var rest := ExportSplits(outputDir, splits[1..], k, step);
            && (run.error.Some? ==> DatasetRun(runs + r.splits, r.error) == DatasetRun(runs + [run], run.error))
            && (run.error.None? ==> DatasetRun(runs + r.splits, r.error) == DatasetRun((runs + [run]) + rest.splits, rest.error))
  {
    AppendAssoc(runs, [ExportSplitRun(outputDir, splits[0], k, step)], ExportSplits(outputDir, splits[1..], k, step).splits);
  }
}
