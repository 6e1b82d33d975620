/**
 * Per-sample audio handling of the exporter: which of the audio field's
 * entries is decoded, and how an array whose second axis has length 1 is squeezed.
 * Decoded sample values are not modelled; an array is an opaque token with a shape.
 */
module AudioSource {
  import opened Wrappers

  /** A decoded numeric array: `payload` stands for its (unmodelled) values. */
  datatype AudioArray = AudioArray(payload: nat, shape: seq<nat>)

  /**
   * The audio column of one sample: `array` (here `decoded`) and `sampling_rate` when the
   * dataset already decoded it, otherwise a local `path` and/or raw `bytes`.
   * `None` is a missing key or a Python `None` value.
   */
  datatype AudioField = AudioField(
    decoded: Option<AudioArray>,
    samplingRate: Option<int>,
    path: Option<string>,
    bytes: Option<seq<bv8>>)

  /** Where the audio of a sample is taken from. */
  datatype Source = FromArray(decoded: AudioArray, rate: int) | FromFile(path: string) | FromBytes(bytes: seq<bv8>)

  /**
   * Fatal export errors. `NoReadableAudio` is the `ValueError` naming the
   * sample index, the path and whether `bytes` was present at all;
   * `MissingSamplingRate` is the `KeyError` of `audio_data["sampling_rate"]`;
   * `Undecodable` is the exception `sf.read` raises on the selected file or
   * bytes of that sample (its message is not modelled).
   */
  datatype ExportError =
    | NoReadableAudio(index: nat, path: Option<string>, hasBytes: bool)
    | MissingSamplingRate(index: nat)
    | Undecodable(index: nat)

  /** `audio_path and os.path.exists(audio_path)`: a non-empty path that exists. */
  predicate PathUsable(path: Option<string>, fileExists: string -> bool)
  {
    path.Some? && path.value != "" && fileExists(path.value)
  }

  /** Truthiness of `audio_bytes`: present and non-empty. */
  predicate BytesUsable(bytes: Option<seq<bv8>>)
  {
    bytes.Some? && |bytes.value| > 0
  }

  /**
   * Source priority: a decoded array (with its rate) first, then an existing
   * file, then non-empty bytes; otherwise an error naming the sample.
   */
  function SelectSource(idx: nat, field: AudioField, fileExists: string -> bool): Result<Source, ExportError>
  {
    if field.decoded.Some? then
      if field.samplingRate.Some? then Ok(FromArray(field.decoded.value, field.samplingRate.value))
      else Err(MissingSamplingRate(idx))
    else if PathUsable(field.path, fileExists) then Ok(FromFile(field.path.value))
    else if BytesUsable(field.bytes) then Ok(FromBytes(field.bytes.value))
    else Err(NoReadableAudio(idx, field.path, field.bytes.Some?))
  }

  /**
   * Each source is taken exactly when every source before it in the priority
   * order is unavailable, and selection fails exactly when none is available.
   */
  lemma SelectSourceCases(idx: nat, field: AudioField, fileExists: string -> bool)
    ensures var r := SelectSource(idx, field, fileExists);
            && (r.Ok? && r.value.FromArray? <==> field.decoded.Some? && field.samplingRate.Some?)
            && (r.Ok? && r.value.FromArray? ==> r.value == FromArray(field.decoded.value, field.samplingRate.value))
            && (r.Ok? && r.value.FromFile? <==> field.decoded.None? && PathUsable(field.path, fileExists))
            && (r.Ok? && r.value.FromFile? ==> r.value.path == field.path.value)
            && (r.Ok? && r.value.FromBytes? <==>
                  field.decoded.None? && !PathUsable(field.path, fileExists) && BytesUsable(field.bytes))
            && (r.Ok? && r.value.FromBytes? ==> r.value.bytes == field.bytes.value)
            && (r.Err? <==> (field.decoded.Some? && field.samplingRate.None?) ||
                            (field.decoded.None? && !PathUsable(field.path, fileExists) && !BytesUsable(field.bytes)))
            && (r.Err? && field.decoded.Some? ==> r.error == MissingSamplingRate(idx))
            && (r.Err? && field.decoded.None? ==> r.error == NoReadableAudio(idx, field.path, field.bytes.Some?))
  {
  }

  /** A present array makes the path, the bytes and the file system irrelevant. */
  lemma ArrayTakesPriority(idx: nat, field: AudioField, path: Option<string>, bytes: Option<seq<bv8>>,
                           fileExists: string -> bool, otherExists: string -> bool)
    requires field.decoded.Some?
    ensures SelectSource(idx, field, fileExists) == SelectSource(idx, field.(path := path, bytes := bytes), otherExists)
  {
  }

  /** An existing file makes the bytes irrelevant. */
  lemma FileTakesPriorityOverBytes(idx: nat, field: AudioField, bytes: Option<seq<bv8>>, fileExists: string -> bool)
    requires field.decoded.None? && PathUsable(field.path, fileExists)
    ensures SelectSource(idx, field, fileExists) == SelectSource(idx, field.(bytes := bytes), fileExists)
  {
  }

  /** Empty bytes are not used, yet the error reports `has_bytes` as true. */
  lemma EmptyBytesReportedAsPresent(idx: nat, path: Option<string>, fileExists: string -> bool)
    requires !PathUsable(path, fileExists)
    ensures SelectSource(idx, AudioField(None, None, path, Some([])), fileExists) == Err(NoReadableAudio(idx, path, true))
  {
  }

  /** Number of values an array of this shape holds. */
  function Product(shape: seq<nat>): nat
  {
    if |shape| == 0 then 1 else shape[0] * Product(shape[1..])
  }

  /** numpy's `squeeze()`: every axis of length 1 removed, the others kept in order. */
  function DropUnitAxes(shape: seq<nat>): (r: seq<nat>)
    ensures |r| <= |shape|
    ensures forall d :: d in r <==> d in shape && d != 1
    ensures Product(r) == Product(shape)
  {
    if |shape| == 0 then []
    else if shape[0] == 1 then DropUnitAxes(shape[1..])
    else [shape[0]] + DropUnitAxes(shape[1..])
  }

  /** A single axis is dropped exactly when it has length 1. */
  lemma DropUnitAxesSingle(d: nat)
    ensures DropUnitAxes([d]) == if d == 1 then [] else [d]
  {
    assert [d][1..] == [];
  }

  /**
   * Squeezing distributes over concatenation of shapes: the kept axes stay in
   * their order and each is kept once, so with `DropUnitAxesSingle` this fixes
   * the squeezed shape of every shape.
   */
  lemma {:induction false} DropUnitAxesAppend(a: seq<nat>, b: seq<nat>)
    ensures DropUnitAxes(a + b) == DropUnitAxes(a) + DropUnitAxes(b)
  {
    if |a| > 0 {
      assert (a + b)[1..] == a[1..] + b;
      DropUnitAxesAppend(a[1..], b);
    } else {
      assert a + b == b;
    }
  }

  /** The mono normalisation as written: squeeze every unit axis when the second axis has length 1. */
  function SqueezeAsWritten(shape: seq<nat>): seq<nat>
  {
    if |shape| > 1 && shape[1] == 1 then DropUnitAxes(shape) else shape
  }

  /** A one-frame single-channel array, shape (1, 1), is squeezed to a zero-dimensional array. */
  lemma SqueezeAsWrittenLosesOneFrame()
    ensures SqueezeAsWritten([1, 1]) == []
  {
    assert [1, 1][1..] == [1];
    assert [1][1..] == [];
  }

  /** The intended mono normalisation: only the channel axis (axis 1) is removed. */
  function MonoSqueeze(shape: seq<nat>): seq<nat>
  {
    if |shape| > 1 && shape[1] == 1 then [shape[0]] + shape[2..] else shape
  }

  /**
   * The intended normalisation keeps at least one axis and every value, and
   * leaves every shape without a unit second axis alone.
   */
  lemma MonoSqueezeSpec(shape: seq<nat>)
    ensures var r := MonoSqueeze(shape);
            && (|shape| > 1 && shape[1] == 1 ==> |r| == |shape| - 1 >= 1 && r[0] == shape[0] && r[1..] == shape[2..])
            && (!(|shape| > 1 && shape[1] == 1) ==> r == shape)
            && Product(r) == Product(shape)
  {
    if |shape| > 1 && shape[1] == 1 {
      assert shape[1..] == [shape[1]] + shape[2..];
      assert MonoSqueeze(shape)[1..] == shape[2..];
    }
  }

  /** A mono column of `n` frames becomes a flat array of `n` frames, also for `n == 1`. */
  lemma MonoSqueezeFlattensColumn(n: nat)
    ensures MonoSqueeze([n, 1]) == [n]
  {
  }

  /** On two-dimensional arrays the two agree unless the array has a single frame. */
  lemma SqueezeAgreesOnTwoDimensions(shape: seq<nat>)
    requires |shape| == 2 && shape[0] != 1
    ensures SqueezeAsWritten(shape) == MonoSqueeze(shape)
  {
    if shape[1] == 1 {
      assert shape[1..] == [1];
      assert [1][1..] == [];
      assert DropUnitAxes([1]) == [];
      assert DropUnitAxes(shape) == [shape[0]];
    }
  }
}
