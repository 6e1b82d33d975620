/**
 * `merge_manifests`: the recording and supervision manifests of volumes
 * `1 .. N` in one manifest directory are merged into one pair of manifests.
 * A volume takes part only when both of its files exist; the manifests'
 * items are opaque, and loading a file yields its items in order.
 */
module ManifestMerge {
  import opened Wrappers
  import opened Seqs
  import opened Decimal

  /**
   * The manifest directory as the merge sees it, by file name: whether a
   * file exists, and the items of a recording or supervision manifest.
   */
  datatype Store<R, S> = Store(
    fileExists: string -> bool,
    recordings: string -> seq<R>,
    supervisions: string -> seq<S>)

  /** The two files a successful merge writes, with their contents. */
  datatype Merged<R, S> = Merged(
    recordingsFile: string,
    recordings: seq<R>,
    supervisionsFile: string,
    supervisions: seq<S>)

  /** The `ValueError` raised when no volume has both manifests. */
  datatype MergeError = NoValidManifests

  /** `vietASR-ssl_recordings_{tag}.jsonl.gz`. */
  function RecordingsFile(tag: string): string
  {
    "vietASR-ssl_recordings_" + tag + ".jsonl.gz"
  }

  /** `vietASR-ssl_supervisions_{tag}.jsonl.gz`. */
  function SupervisionsFile(tag: string): string
  {
    "vietASR-ssl_supervisions_" + tag + ".jsonl.gz"
  }

  /** The tag of volume `v` in its file names: `vol` followed by `v` in decimal. */
  function VolumeTag(v: nat): string
  {
    "vol" + Digits(v)
  }

  /** Both manifests of volume `v` are present. */
  predicate VolumePresent<R, S>(v: nat, store: Store<R, S>)
  {
    store.fileExists(RecordingsFile(VolumeTag(v))) && store.fileExists(SupervisionsFile(VolumeTag(v)))
  }

  /** The numbers among `1 .. n` for which `present` holds, in increasing order. */
  function Kept(n: int, present: nat -> bool): seq<nat>
    decreases n
  {
    if n <= 0 then []
    else Kept(n - 1, present) + (if present(n) then [n] else [])
  }

  /** The volumes among `1 .. n` that are merged. */
  function KeptVolumes<R, S>(n: int, store: Store<R, S>): seq<nat>
  {
    Kept(n, (v: nat) => VolumePresent(v, store))
  }

  /** The recording manifests of volumes `vols`, loaded in that order. */
  function RecordingsOf<R, S>(vols: seq<nat>, store: Store<R, S>): seq<seq<R>>
  {
    seq(|vols|, i requires 0 <= i < |vols| => store.recordings(RecordingsFile(VolumeTag(vols[i]))))
  }

  /** The supervision manifests of volumes `vols`, loaded in that order. */
  function SupervisionsOf<R, S>(vols: seq<nat>, store: Store<R, S>): seq<seq<S>>
  {
    seq(|vols|, i requires 0 <= i < |vols| => store.supervisions(SupervisionsFile(VolumeTag(vols[i]))))
  }

  /** `v` is kept exactly when it is one of `1 .. n` and `present` holds for it. */
  lemma {:induction false} KeptMember(n: int, v: nat, present: nat -> bool)
    ensures v in Kept(n, present) <==> 1 <= v <= n && present(v)
    decreases n
  {
    if n > 0 {
      KeptMember(n - 1, v, present);
    }
  }

  /** The kept numbers are in strictly increasing order. */
  lemma {:induction false} KeptIncreasing(n: int, present: nat -> bool)
    ensures forall i, j :: 0 <= i < j < |Kept(n, present)| ==> Kept(n, present)[i] < Kept(n, present)[j]
    decreases n
  {
    if n > 0 {
      KeptIncreasing(n - 1, present);
      var prev := Kept(n - 1, present);
      var kept := Kept(n, present);
      forall i, j | 0 <= i < j < |kept|
        ensures kept[i] < kept[j]
      {
        assert kept[i] == prev[i];
        if j >= |prev| {
          assert kept[j] == n && prev[i] in prev;
          KeptMember(n - 1, prev[i], present);
        } else {
          assert kept[j] == prev[j];
        }
      }
    }
  }

  /**
   * A volume is merged exactly when it is one of `1 .. n` and both of its
   * files exist; the merged volumes come in strictly increasing order, and
   * none is merged when `n <= 0`.
   */
  lemma KeptVolumesSpec<R, S>(n: int, store: Store<R, S>)
    ensures forall v: nat :: v in KeptVolumes(n, store) <==> 1 <= v <= n && VolumePresent(v, store)
    ensures forall i, j :: 0 <= i < j < |KeptVolumes(n, store)| ==> KeptVolumes(n, store)[i] < KeptVolumes(n, store)[j]
    ensures n <= 0 ==> KeptVolumes(n, store) == []
  {
    var present := (v: nat) => VolumePresent(v, store);
    forall v: nat
      ensures v in KeptVolumes(n, store) <==> 1 <= v <= n && VolumePresent(v, store)
    {
      KeptMember(n, v, present);
    }
    KeptIncreasing(n, present);
  }

  /**
   * The volume loop `for vol_num in range(1, num_volumes + 1)`: a volume
   * whose recording or supervision manifest is missing is skipped, otherwise
   * both manifests are loaded and appended.
   */
  method CollectVolumes<R, S>(n: int, store: Store<R, S>) returns (recs: seq<seq<R>>, sups: seq<seq<S>>)
    ensures recs == RecordingsOf(KeptVolumes(n, store), store)
    ensures sups == SupervisionsOf(KeptVolumes(n, store), store)
    ensures |recs| == |sups| == |KeptVolumes(n, store)|
  {
    recs, sups := [], [];
    var vol := 1;
    while vol <= n
      invariant 1 <= vol <= (if n < 0 then 0 else n) + 1
      invariant recs == RecordingsOf(KeptVolumes(vol - 1, store), store)
      invariant sups == SupervisionsOf(KeptVolumes(vol - 1, store), store)
    {
      var tag := VolumeTag(vol);
      var recordingPath := RecordingsFile(tag);
      var supervisionPath := SupervisionsFile(tag);
      if !store.fileExists(recordingPath) {
        vol := vol + 1;
        continue;
      }
      if !store.fileExists(supervisionPath) {
        vol := vol + 1;
        continue;
      }
      LoadedAppend(KeptVolumes(vol - 1, store), vol, store);
      recs := recs + [store.recordings(recordingPath)];
      sups := sups + [store.supervisions(supervisionPath)];
      vol := vol + 1;
    }
    if n < 1 {
      assert KeptVolumes(n, store) == [];
    }
  }

  /** Loading one more volume appends its two manifests. */
  lemma LoadedAppend<R, S>(vols: seq<nat>, v: nat, store: Store<R, S>)
    ensures RecordingsOf(vols + [v], store) == RecordingsOf(vols, store) + [store.recordings(RecordingsFile(VolumeTag(v)))]
    ensures SupervisionsOf(vols + [v], store) == SupervisionsOf(vols, store) + [store.supervisions(SupervisionsFile(VolumeTag(v)))]
  {
  }

  /**
   * The fold `merged = parts[0]; for p in parts[1:]: merged = list(merged) + list(p)`:
   * all parts concatenated in order, nothing dropped or merged.
   */
  method Concatenate<T>(parts: seq<seq<T>>) returns (merged: seq<T>)
    requires |parts| > 0
    ensures merged == Flatten(parts)
  {
    merged := parts[0];
    assert parts[..1][..0] == [];
    var i := 1;
    while i < |parts|
      invariant 1 <= i <= |parts|
      invariant merged == Flatten(parts[..i])
    {
      assert parts[..i + 1][..i] == parts[..i];
      merged := merged + parts[i];
      i := i + 1;
    }
    assert parts[..i] == parts;
  }

  /**
   * `merge_manifests(manifest_dir, output_name, num_volumes)`: fails exactly
   * when no volume has both manifests; otherwise writes the recordings and
   * the supervisions of the kept volumes, each concatenated in volume order,
   * to the files tagged `output_name`.
   */
  method MergeManifests<R, S>(outputName: string, n: int, store: Store<R, S>) returns (result: Result<Merged<R, S>, MergeError>)
    ensures var kept := KeptVolumes(n, store);
            && (result.Err? <==> kept == [])
            && (result.Ok? ==> result.value == Merged(
                  RecordingsFile(outputName), Flatten(RecordingsOf(kept, store)),
                  SupervisionsFile(outputName), Flatten(SupervisionsOf(kept, store))))
  {
    var recs, sups := CollectVolumes(n, store);
    if |recs| == 0 {
      return Err(NoValidManifests);
    }
    var mergedRecordings := Concatenate(recs);
    var mergedSupervisions := Concatenate(sups);
    result := Ok(Merged(RecordingsFile(outputName), mergedRecordings, SupervisionsFile(outputName), mergedSupervisions));
  }

  /**
   * The merged recordings and supervisions hold as many items as the kept
   * volumes' manifests together: the merge neither drops nor de-duplicates.
   */
  lemma MergedSizes<R, S>(n: int, store: Store<R, S>)
    ensures var kept := KeptVolumes(n, store);
            && |Flatten(RecordingsOf(kept, store))| == TotalLength(RecordingsOf(kept, store))
            && |Flatten(SupervisionsOf(kept, store))| == TotalLength(SupervisionsOf(kept, store))
  {
    var kept := KeptVolumes(n, store);
    FlattenLength(RecordingsOf(kept, store));
    FlattenLength(SupervisionsOf(kept, store));
  }

  /** With exactly one kept volume, its manifests are written unchanged. */
  lemma SingleVolumeUnchanged<R, S>(n: int, store: Store<R, S>)
    requires |KeptVolumes(n, store)| == 1
    ensures var v := KeptVolumes(n, store)[0];
            && Flatten(RecordingsOf(KeptVolumes(n, store), store)) == store.recordings(RecordingsFile(VolumeTag(v)))
            && Flatten(SupervisionsOf(KeptVolumes(n, store), store)) == store.supervisions(SupervisionsFile(VolumeTag(v)))
  {
    var kept := KeptVolumes(n, store);
    var v := kept[0];
    assert RecordingsOf(kept, store) == [store.recordings(RecordingsFile(VolumeTag(v)))];
    assert SupervisionsOf(kept, store) == [store.supervisions(SupervisionsFile(VolumeTag(v)))];
    FlattenSingleton(store.recordings(RecordingsFile(VolumeTag(v))));
    FlattenSingleton(store.supervisions(SupervisionsFile(VolumeTag(v))));
  }

  /** A volume tag is `vol` and the volume number, without leading zeros. */
  lemma VolumeTagFormat(v: nat)
    ensures var t := VolumeTag(v);
            |t| > 3 && t[..3] == "vol" && AllDigits(t[3..]) && Value(t[3..]) == v && (v > 0 ==> t[3] != '0')
  {
    DigitsSpec(v);
    ValueOfDigits(v);
    assert VolumeTag(v)[3..] == Digits(v);
  }

  lemma VolumeTagInjective(v: nat, w: nat)
    requires VolumeTag(v) == VolumeTag(w)
    ensures v == w
  {
    VolumeTagFormat(v);
    VolumeTagFormat(w);
  }

  /** The file names determine their tag, and a recording manifest is never a supervision manifest. */
  lemma FileNamesDistinct(a: string, b: string)
    ensures RecordingsFile(a) == RecordingsFile(b) <==> a == b
    ensures SupervisionsFile(a) == SupervisionsFile(b) <==> a == b
    ensures RecordingsFile(a) != SupervisionsFile(b)
  {
    if RecordingsFile(a) == RecordingsFile(b) {
      SameFrame("vietASR-ssl_recordings_", a, b, ".jsonl.gz");
    }
    if SupervisionsFile(a) == SupervisionsFile(b) {
      SameFrame("vietASR-ssl_supervisions_", a, b, ".jsonl.gz");
    }
    assert RecordingsFile(a)[12] == 'r';
    assert SupervisionsFile(b)[12] == 's';
  }

  /** Two strings with the same prefix and suffix around them are equal when the framed strings are. */
  lemma SameFrame(p: string, a: string, b: string, q: string)
    requires p + a + q == p + b + q
    ensures a == b
  {
    var s, t := p + a + q, p + b + q;
    assert |a| == |b|;
    forall i | 0 <= i < |a|
      ensures a[i] == b[i]
    {
      assert s[|p| + i] == a[i];
      assert t[|p| + i] == b[i];
    }
  }

  /**
   * The merged files overwrite the manifests of volume `v` exactly when
   * `output_name` is that volume's tag, e.g. `vol1`.
   */
  lemma OutputOverwritesVolume(outputName: string, v: nat)
    ensures RecordingsFile(outputName) == RecordingsFile(VolumeTag(v)) <==> outputName == VolumeTag(v)
    ensures SupervisionsFile(outputName) == SupervisionsFile(VolumeTag(v)) <==> outputName == VolumeTag(v)
  {
    FileNamesDistinct(outputName, VolumeTag(v));
  }
}
