# VietASR data preparation: dataset export and manifest merge

This project models two data-preparation scripts of the VietASR self-supervised
recipe and proves properties of them in Dafny.

`convert_hf_dataset_to_supervised` exports a dataset to a supervised layout:

- The dataset is a sequence of named splits of samples.
- A split named `validation` is written under `dev`.
- A split is cut into chunks of `samples_per_subdir` samples. A chunk count of
  `(len + k - 1) // k` applies when the size is truthy; when it is not, the
  whole split is one chunk.
- Chunk `i` goes to `{output_dir}/{split}/data{i+1}`.
- For each sample, the chunk gets a wav file `audio_{idx:06d}.wav` and a
  transcript line `audio_{idx:06d} {text}`.
- The audio comes from a decoded array, an existing file, or non-empty bytes,
  in that order. When the second axis of the array has length 1, numpy's
  `squeeze()` removes every axis of length 1.
- Unless the chunk size is negative, the first sample with no usable audio,
  or whose audio `sf.read` cannot decode, stops the whole export with an
  error. With a negative size every chunk's index range is empty, so no
  sample is read and the export never fails.

`merge_manifests` merges manifests across volumes:

- It visits volumes `1 .. num_volumes`.
- It keeps the volumes whose recordings manifest and supervisions manifest both
  exist.
- It fails when no volume is kept.
- Otherwise it writes, under the output name, the concatenation in volume order
  of the kept volumes' recordings, and the same for their supervisions.

Modules:

- `Wrappers`: `Option` and `Result`.
- `Seqs`: flattening of nested sequences and integer ranges.
- `Decimal`: the decimal numerals of `str(n)` and `f"{n:06d}"`, their values and
  uniqueness.
- `Chunking`: Python truthiness and floor division for the chunk size; the
  chunk count; each chunk's `start_idx`/`end_idx`; the partition laws.
- `ExportNaming`: the renamed split, the directory, file and transcript-line
  names, and parsing a transcript line back.
- `AudioSource`: the audio source priority with its errors, and the squeeze of
  a single-channel array.
- `Exporter`: the three nested loops as methods. Each is proved equal to a
  recursive specification function over the per-sample step. The program's
  step squeezes as written; a second step with the corrected squeeze is kept
  beside it.
- `ExportLaws`: laws of these functions for any per-sample step. They cover
  where the run stops, what each chunk directory holds, and the split and
  dataset structure.
- `ExportOutcome`: the same laws for the exporter's own per-sample step,
  stated in terms of transcript lines and readable audio.
- `ManifestMerge`: the volume loop and the two fold loops, as methods against
  specification functions, plus the file-name laws.

Outside facts are parameters:

- the file system's existence checks;
- what `soundfile` decodes from a file or from bytes;
- the contents of the manifests.

## Model

| member | source | states |
|---|---|---|
| ExportNaming.OutputSplitCollision | SSL/local/convert_hf_vietasr.py:31 | two different split names get the same output directory exactly when they are `validation` and `dev` |
| Chunking.FloorDivSpec | SSL/local/convert_hf_vietasr.py:37 | the chunk count uses Python floor division: the quotient rounds towards minus infinity for either sign of divisor |
| Chunking.ChunkCountSpec | SSL/local/convert_hf_vietasr.py:36-39 | a falsy size (absent or 0) gives one chunk; a positive size gives the least `n` with `m <= n*k`, so zero chunks exactly for an empty split |
| Chunking.ChunkEnd | SSL/local/convert_hf_vietasr.py:46-47 | `end_idx` never passes the split's length, and a non-empty chunk starts at a non-negative index |
| Chunking.ChunkBounds | SSL/local/convert_hf_vietasr.py:41-47 | with a positive size every chunk in the loop is a non-empty range inside the split of at most `k` samples |
| Chunking.ChunksContiguous | SSL/local/convert_hf_vietasr.py:41-47 | unless the size is negative, each chunk ends where the next starts and the last ends at the split's length |
| Chunking.LastChunkSize | SSL/local/convert_hf_vietasr.py:37-47 | with a positive size, the last chunk of a non-empty split holds the `m - (n-1)*k` samples left after the full chunks |
| Chunking.ChunksDisjoint | SSL/local/convert_hf_vietasr.py:41-52 | two different chunks never visit the same sample index |
| Chunking.NegativeSizeVisitsNothing | SSL/local/convert_hf_vietasr.py:46-52 | with a negative size every chunk's index range is empty, so no sample is written |
| Chunking.ChunksPartition | SSL/local/convert_hf_vietasr.py:41-52 | unless the size is negative, the chunks' index ranges together are `0 .. m-1` in order: each sample is visited exactly once |
| Chunking.PartitionPrefix | SSL/local/convert_hf_vietasr.py:41-52 | the first `j` chunks together visit exactly `0 .. end_idx(j-1) - 1` |
| Chunking.BoundsTiled | SSL/local/convert_hf_vietasr.py:41-47 | the table of `(start_idx, end_idx)` pairs tiles `[0, m)` from index 0 and is empty only for an empty split |
| Decimal.DigitsSpec | SSL/local/convert_hf_vietasr.py:42 | `str(n)` is a non-empty string of digits without a leading zero, and is `0` exactly for zero |
| Decimal.ValueOfDigits | SSL/local/convert_hf_vietasr.py:42 | the numeral `str(n)` denotes `n` |
| Decimal.PaddedSpec | SSL/local/convert_hf_vietasr.py:58 | `f"{n:06d}"` is all digits, has `max(6, len(str(n)))` characters and denotes `n` |
| Decimal.PaddedInjective | SSL/local/convert_hf_vietasr.py:58 | different numbers give different zero-padded numerals |
| ExportNaming.SubdirNameFormat | SSL/local/convert_hf_vietasr.py:42 | `data{i+1}` is `data` followed by a digit string without a leading zero that denotes `i + 1` |
| ExportNaming.SubdirNameInjective | SSL/local/convert_hf_vietasr.py:42-43 | different chunks get different directories |
| ExportNaming.AudioFilenameFormat | SSL/local/convert_hf_vietasr.py:58 | `audio_{idx:06d}` is `audio_` followed by digits that denote `idx`; it is exactly 12 characters when `idx` is below one million |
| ExportNaming.AudioFilenameInjective | SSL/local/convert_hf_vietasr.py:58-59 | different samples of a split never share a wav file name |
| ExportNaming.TranscriptLineRoundTrip | SSL/local/convert_hf_vietasr.py:58-89 | splitting one transcript line at its first space gives back the sample's file name and its text, whatever the text holds (per line, not per file) |
| ExportNaming.TranscriptLineOneLine | SSL/local/convert_hf_vietasr.py:89 | a transcript line ends with a newline, which is its only newline exactly when the text has none; otherwise the sample spreads over several lines of the file |
| AudioSource.SelectSourceCases | SSL/local/convert_hf_vietasr.py:65-80 | the decoded array is used iff present (a missing rate is an error); the file is used iff there is no array and the path is non-empty and exists; the bytes are used iff neither of those applies and the bytes are non-empty; otherwise the error names the index, the path and whether `bytes` was present |
| AudioSource.ArrayTakesPriority | SSL/local/convert_hf_vietasr.py:65-67 | with an array present, neither the path, the bytes nor the file system affects the choice |
| AudioSource.FileTakesPriorityOverBytes | SSL/local/convert_hf_vietasr.py:72-75 | an existing file makes the bytes irrelevant |
| AudioSource.EmptyBytesReportedAsPresent | SSL/local/convert_hf_vietasr.py:74-80 | empty bytes are not used, yet the error reports `has_bytes=True` |
| AudioSource.DropUnitAxes | SSL/local/convert_hf_vietasr.py:85 | numpy's `squeeze()` never adds axes, keeps exactly the axis lengths other than 1, and keeps the number of values |
| AudioSource.DropUnitAxesSingle | SSL/local/convert_hf_vietasr.py:85 | a single axis is removed iff its length is 1 |
| AudioSource.DropUnitAxesAppend | SSL/local/convert_hf_vietasr.py:85 | squeezing a concatenation of shapes squeezes each part, so the kept axes stay in order and each is kept once |
| AudioSource.SqueezeAsWrittenLosesOneFrame | SSL/local/convert_hf_vietasr.py:84-85 | as written, a one-frame mono array of shape (1, 1) becomes zero-dimensional instead of shape (1,) |
| AudioSource.MonoSqueezeSpec | SSL/local/convert_hf_vietasr.py:82-85 | the corrected normalisation drops only axis 1 when it has length 1; it keeps at least one axis and every value, and leaves every other shape unchanged |
| AudioSource.MonoSqueezeFlattensColumn | SSL/local/convert_hf_vietasr.py:83-85 | a mono column of `n` frames becomes a flat array of `n` frames, including for `n = 1` |
| AudioSource.SqueezeAgreesOnTwoDimensions | SSL/local/convert_hf_vietasr.py:84-85 | on a 2-D array the corrected normalisation agrees with the squeeze as written unless the array has one frame |
| Exporter.ExportSampleSpec | SSL/local/convert_hf_vietasr.py:58-89 | by the sample's audio field: a decoded array is written with its rate whatever the path, bytes and file system, or fails with the `KeyError` without a rate; else an existing file, else non-empty bytes, is written as `sf.read` decodes it, failing iff `sf.read` fails; else the `ValueError` naming `idx`, path and `has_bytes`; a written sample is `audio_{idx:06d}.wav`, squeezed as written, and the line `audio_{idx:06d} {text}` |
| Exporter.CorrectedStepDiffersOnlyInShape | SSL/local/convert_hf_vietasr.py:82-85 | the step with the corrected squeeze fails exactly where the program's step does, with the same error, and writes the same name, values, rate and line; only the shape differs, and it keeps a frame axis whenever the decoded array has one |
| Exporter.ExportChunk | SSL/local/convert_hf_vietasr.py:51-89 | the sample loop of one chunk writes exactly what the range specification says: the outputs of the samples before the first failure, and that failure |
| Exporter.ExportSplit | SSL/local/convert_hf_vietasr.py:36-89 | the chunk loop of one split yields exactly the chunk directories of the chunk specification over the `(start_idx, end_idx)` table, and the error that stopped it |
| Exporter.ExportDataset | SSL/local/convert_hf_vietasr.py:30-89 | the split loop yields exactly the dataset specification over the program's own step: the splits in order, each under its renamed directory, stopping at the first failed split |
| ExportLaws.FirstFailure | SSL/local/convert_hf_vietasr.py:52-80 | the first index of a range at which the per-sample step fails, or the range's end |
| ExportLaws.OutputsAt | SSL/local/convert_hf_vietasr.py:52-89 | the `j`-th line and wav file of a successful range are those of sample `lo + j` |
| ExportLaws.FirstFailureUnique | SSL/local/convert_hf_vietasr.py:52-80 | an index before which every sample exports, and which either fails or is the end of the range, is the first failure |
| ExportLaws.ExportRangeSpec | SSL/local/convert_hf_vietasr.py:52-89 | a chunk's loop writes the lines and wav files of every sample before the first failure; it fails iff there is a failure, and then with that sample's error |
| ExportLaws.ExportRangeSplit | SSL/local/convert_hf_vietasr.py:46-52 | running a range is running its prefix and then, unless the prefix failed, its suffix |
| ExportLaws.ExportChunksCount | SSL/local/convert_hf_vietasr.py:41 | the chunk loop writes at most one directory per chunk, and one for every chunk when nothing fails |
| ExportLaws.ExportChunksAt | SSL/local/convert_hf_vietasr.py:41-52 | directory `j` is `{output_dir}/{split}/data{i+j+1}`, holding exactly the run of its chunk's range |
| ExportLaws.ExportChunksFrom | SSL/local/convert_hf_vietasr.py:41-52 | over tiled ranges, the directories' transcripts and wav files concatenated equal one run over all the remaining samples, with the same error |
| ExportLaws.SplitRunOutcome | SSL/local/convert_hf_vietasr.py:36-89 | unless the size is negative, a split's export fails iff some sample fails, and then with the first failure's error; across its directories it holds the outputs of every sample before that failure, in order |
| ExportLaws.ChunkComplete | SSL/local/convert_hf_vietasr.py:42-52 | when nothing fails, directory `j` is named `data{j+1}` under the split and its transcript holds the lines of its chunk's range |
| ExportLaws.SplitRunComplete | SSL/local/convert_hf_vietasr.py:36-89 | when nothing fails, the split has one directory per chunk, each named and filled from its range, and together they hold every sample's line in order |
| ExportLaws.ExportChunksEmpty | SSL/local/convert_hf_vietasr.py:46-52 | ranges without indexes yield directories with empty transcripts and no wav files, and no error |
| ExportLaws.SplitRunNegativeSize | SSL/local/convert_hf_vietasr.py:36-52 | with a negative chunk size each of the `ChunkCount` directories is created with an empty transcript and no wav file, and the split succeeds whatever the samples are |
| ExportLaws.ExportSplitsCount | SSL/local/convert_hf_vietasr.py:30 | the split loop runs at most every split and all of them when none fails; a failure is the last split run's error, and when the loop reports no error no split run failed |
| ExportLaws.ExportSplitsAt | SSL/local/convert_hf_vietasr.py:30-31 | split run `n` is the export of split `n` under its renamed directory, and every split run before the last succeeded |
| ExportOutcome.ExportsIffReadable | SSL/local/convert_hf_vietasr.py:65-80 | the exporter's step succeeds on a range exactly when every sample in it has an audio source that is a decoded array with a rate or that `sf.read` decodes |
| ExportOutcome.ReadableOutputs | SSL/local/convert_hf_vietasr.py:58-89 | over readable samples the step yields exactly their `audio_{idx:06d} {text}` lines and their wav files, squeezed as written |
| ExportOutcome.ExportSplitOutcome | SSL/local/convert_hf_vietasr.py:36-89 | unless the chunk size is negative, a split's export writes the lines and wav files (squeezed as written) of samples `0 ..` up to the first sample without readable audio; it fails exactly when such a sample exists, with the `ValueError`, `KeyError` or `sf.read` failure of that sample |
| ExportOutcome.ChunkTranscript | SSL/local/convert_hf_vietasr.py:46-89 | a transcript holding a chunk's step lines holds the transcript lines of samples `start_idx .. end_idx - 1` |
| ExportOutcome.ExportSplitComplete | SSL/local/convert_hf_vietasr.py:36-89 | with all audio readable and a chunk size that is not negative, directory `j` is `{output_dir}/{split}/data{j+1}` and its `filename.trans.txt` holds exactly the lines of samples `start_idx .. end_idx - 1`; there is one directory per chunk, and together they hold one line per sample in order |
| ExportOutcome.ExportDatasetOutcome | SSL/local/convert_hf_vietasr.py:30-31 | the dataset export runs the splits in order, each under its renamed directory; every split before the last one attempted succeeded; the export fails exactly when some split run failed, and then with the error of the last one attempted |
| ManifestMerge.KeptMember | SSL/local/merge_manifests.py:33-43 | a volume is kept iff it lies in `1 .. num_volumes` and is present |
| ManifestMerge.KeptIncreasing | SSL/local/merge_manifests.py:33 | the kept volumes are in strictly increasing order |
| ManifestMerge.KeptVolumesSpec | SSL/local/merge_manifests.py:33-43 | volume `v` is kept iff `1 <= v <= num_volumes` and both its recordings and supervisions manifests exist; kept volumes are strictly increasing; none for `num_volumes <= 0` |
| ManifestMerge.CollectVolumes | SSL/local/merge_manifests.py:29-50 | the volume loop collects the recordings and supervisions of exactly the kept volumes, in volume order, as two lists of equal length |
| ManifestMerge.LoadedAppend | SSL/local/merge_manifests.py:46-50 | keeping one more volume appends its two manifests to the collected lists |
| ManifestMerge.Concatenate | SSL/local/merge_manifests.py:57-68 | the fold from the first manifest over the rest yields the concatenation of all manifests in order |
| ManifestMerge.MergeManifests | SSL/local/merge_manifests.py:29-78 | the merge fails iff no volume was kept; otherwise it writes `vietASR-ssl_recordings_{output_name}.jsonl.gz` and `vietASR-ssl_supervisions_{output_name}.jsonl.gz`, holding the kept volumes' manifests concatenated in volume order |
| ManifestMerge.MergedSizes | SSL/local/merge_manifests.py:57-80 | the merged manifests hold as many items as the kept volumes' manifests together |
| ManifestMerge.SingleVolumeUnchanged | SSL/local/merge_manifests.py:57-64 | with exactly one kept volume, its manifests are written unchanged |
| ManifestMerge.VolumeTagFormat | SSL/local/merge_manifests.py:34-35 | the volume tag is `vol` followed by a digit string without a leading zero that denotes the volume number |
| ManifestMerge.VolumeTagInjective | SSL/local/merge_manifests.py:34-35 | different volumes have different manifest files |
| ManifestMerge.FileNamesDistinct | SSL/local/merge_manifests.py:34-35 | the file names are injective in their tag, and a recordings file is never a supervisions file |
| ManifestMerge.OutputOverwritesVolume | SSL/local/merge_manifests.py:71-72 | the merged output overwrites volume `v`'s manifests exactly when `output_name` is `vol{v}` |

## Left out

- Loading the dataset from the hub and casting its audio column (lines 19-27 of
  convert_hf_vietasr.py): the model starts from the splits as a sequence of
  `(name, samples)` pairs, in the order the dataset lists them.
- Decoding audio with `soundfile`: this is the `readFile`/`readBytes`
  parameters, which may fail. A failure is the `Undecodable` error of that
  sample; the exception's type and message are not modelled. The float32
  sample values are an opaque token with a shape.
- Writing wav files: each is recorded as a `(name, array, rate)` value. The
  byte layout `sf.write` produces is not modelled.
- Exporter.ExportDataset: `sf.write` is taken to accept every shape. On the
  zero-dimensional array that `squeeze()` makes of a (1, 1) array it most
  likely raises, aborting the run; the model writes that array and goes on.
- `os.path.exists` and `Path.exists`: these are parameters. Creating
  directories and opening files are not modelled. The file system is the
  returned record of directories, transcripts and wav files, plus the error.
- Outputs of one run overwriting another's:
  - A dataset with both `validation` and `dev` splits writes both into `dev/`.
    The model keeps the two split runs separate, and `OutputSplitCollision`
    states when this happens.
  - A merged output named like a volume replaces that volume's manifests.
    `OutputOverwritesVolume` states when this happens.
- Paths are joined as component sequences (`[output_dir, split, subdir]`).
  Manifest file names are relative to `manifest_dir`.
- Progress prints and logging lines (convert_hf_vietasr.py lines 33, 91-98;
  merge_manifests.py lines 27, 38, 42, 45, 56, 63, 74, 77, 80): they do not
  affect the outputs. The skip warnings are modelled only as the skip itself.
- lhotse's `RecordingSet`/`SupervisionSet`, their lazy loading, `from_items`,
  `from_segments` and `to_file` are plain sequences and concatenation. Item ids
  are not de-duplicated or checked.
- Command-line parsing and the `__main__` blocks of both scripts.
- Exporter.ExportSampleSpec: a missing `sampling_rate` key and a `None` rate are
  the same `MissingSamplingRate` error. With a `None` value, Python fails later
  in `sf.write`, with a different exception.
- Non-integer `samples_per_subdir` values such as floats are not modelled; the
  size is an optional integer. Text values that are not strings are taken as
  strings.
- Exporter.ExportChunk, Exporter.ExportSplit: the range and chunk loops are
  proved for any per-sample step. Exporter.ExportDataset fixes the step to the
  program's own (`SampleExport`, squeeze as written), and the ExportOutcome
  lemmas specialise the laws to it. The laws hold unchanged for the corrected
  step `CorrectedSampleExport`.

## Findings

| source | as written | input that shows it | evidently intended | confidence | as-written member | corrected member |
|---|---|---|---|---|---|---|
| SSL/local/convert_hf_vietasr.py:84-85 | `audio_array.squeeze()` removes every axis of length 1 once the second axis has length 1 | a decoded single-channel array of one frame, shape (1, 1), is squeezed to a zero-dimensional array, which is not the `(num_samples,)` shape the comment on line 83 asks for | remove only the channel axis (`squeeze(axis=1)`), giving shape (1,) | low, not executed; latent: the `Audio(decode=False)` cast of lines 25-26 leaves no `array` entry, and `sf.read` returns a 1-D array for a mono file, so no input reaches line 85 as the program is configured | AudioSource.SqueezeAsWrittenLosesOneFrame | AudioSource.MonoSqueezeSpec |
