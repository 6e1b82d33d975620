/** Names the exporter gives to split directories, chunk directories, audio files and transcript lines. */
module ExportNaming {
  import opened Wrappers
  import opened Decimal

  /** The output directory of a split: `validation` is written as `dev`, every other name is kept. */
  function OutputSplit(split: string): string
  {
    if split == "validation" then "dev" else split
  }

  /** Two different splits share an output directory only when they are `validation` and `dev`. */
  lemma OutputSplitCollision(a: string, b: string)
    requires a != b
    ensures OutputSplit(a) == OutputSplit(b) <==> (a == "validation" && b == "dev") || (a == "dev" && b == "validation")
  {
  }

  /** Directory of chunk `i` (counted from 0): `data` followed by `i + 1`. */
  function SubdirName(i: nat): string
  {
    "data" + Digits(i + 1)
  }

  /** A chunk directory name is `data` and the chunk's 1-based number, without leading zeros. */
  lemma SubdirNameFormat(i: nat)
    ensures var r := SubdirName(i);
            |r| > 4 && r[..4] == "data" && AllDigits(r[4..]) && Value(r[4..]) == i + 1 && r[4] != '0'
  {
    var d := Digits(i + 1);
    DigitsSpec(i + 1);
    ValueOfDigits(i + 1);
    assert SubdirName(i)[4..] == d;
  }

  lemma SubdirNameInjective(i: nat, j: nat)
    requires SubdirName(i) == SubdirName(j)
    ensures i == j
  {
    SubdirNameFormat(i);
    SubdirNameFormat(j);
  }

  /** `audio_{idx:06d}`: the global sample index, zero-padded to at least six digits. */
  function AudioFilename(idx: nat): string
  {
    "audio_" + Padded(idx, 6)
  }

  /**
   * An audio file name is `audio_` and a numeral denoting the sample's index,
   * of at least six digits; exactly twelve characters while the index is below one million.
   */
  lemma AudioFilenameFormat(idx: nat)
    ensures var r := AudioFilename(idx);
            && |r| >= 12 && r[..6] == "audio_" && AllDigits(r[6..]) && Value(r[6..]) == idx
            && (|r| == 12 <==> idx < 1000000)
  {
    var p := Padded(idx, 6);
    PaddedSpec(idx, 6);
    assert AudioFilename(idx)[6..] == p;
    DigitsLength(idx, 6);
    assert Pow10(6) == 1000000;
  }

  /** Different samples of a split never get the same audio file name. */
  lemma AudioFilenameInjective(a: nat, b: nat)
    requires AudioFilename(a) == AudioFilename(b)
    ensures a == b
  {
    AudioFilenameFormat(a);
    AudioFilenameFormat(b);
  }

  /** The audio file itself: the base name with `.wav`. */
  function WavName(idx: nat): string
  {
    AudioFilename(idx) + ".wav"
  }

  /** One transcript line: the base name, one space, the text, a newline. */
  function TranscriptLine(name: string, text: string): string
  {
    name + " " + text + "\n"
  }

  /** Position of the first space in `s`, or `|s|` when there is none. */
  function FirstSpace(s: string): (r: nat)
    ensures r <= |s|
    ensures forall j :: 0 <= j < r ==> s[j] != ' '
    ensures r < |s| ==> s[r] == ' '
  {
    if |s| == 0 || s[0] == ' ' then 0 else 1 + FirstSpace(s[1..])
  }

  /** How a reader splits a transcript line: the name is everything up to the first space. */
  function ParseTranscriptLine(line: string): Option<(string, string)>
  {
    if |line| == 0 || line[|line| - 1] != '\n' then None
    else
      var body := line[..|line| - 1];
      var sp := FirstSpace(body);
      if sp == |body| then None else Some((body[..sp], body[sp + 1..]))
  }

  /**
   * Audio file names contain no space, so every transcript line, taken on its
   * own, reads back as its name and text whatever the text holds. Read back
   * from the transcript file it is one line only when the text has no newline
   * (`TranscriptLineOneLine`).
   */
  lemma TranscriptLineRoundTrip(idx: nat, text: string)
    ensures ParseTranscriptLine(TranscriptLine(AudioFilename(idx), text)) == Some((AudioFilename(idx), text))
  {
    var name := AudioFilename(idx);
    AudioFilenameFormat(idx);
    var line := TranscriptLine(name, text);
    var body := line[..|line| - 1];
    assert body == name + " " + text;
    forall j | 0 <= j < |name|
      ensures body[j] != ' '
    {
      if j >= 6 {
        assert name[j] == name[6..][j - 6];
      } else {
        assert name[j] == name[..6][j];
      }
    }
    NoSpaceBefore(body, |name|);
    assert body[..|name|] == name;
    assert body[|name| + 1..] == text;
  }

  /**
   * A transcript line ends with its newline, and that is its only newline
   * exactly when the text holds none: a text with a newline spreads over
   * several lines of the transcript file.
   */
  lemma TranscriptLineOneLine(idx: nat, text: string)
    ensures var line := TranscriptLine(AudioFilename(idx), text);
            && line[|line| - 1] == '\n'
            && ((forall j :: 0 <= j < |line| - 1 ==> line[j] != '\n') <==> '\n' !in text)
  {
    var name := AudioFilename(idx);
    AudioFilenameFormat(idx);
    var line := TranscriptLine(name, text);
    assert line == name + " " + text + "\n";
    if '\n' in text {
      var t :| 0 <= t < |text| && text[t] == '\n';
      assert line[|name| + 1 + t] == text[t];
    } else {
      forall j | 0 <= j < |line| - 1
        ensures line[j] != '\n'
      {
        if j < 6 {
          assert line[j] == name[..6][j];
        } else if j < |name| {
          assert line[j] == name[6..][j - 6];
        } else if j > |name| {
          assert line[j] == text[j - |name| - 1];
        }
      }
    }
  }

  lemma {:induction false} NoSpaceBefore(s: string, p: nat)
    requires p < |s| && s[p] == ' '
    requires forall j :: 0 <= j < p ==> s[j] != ' '
    ensures FirstSpace(s) == p
  {
    if p > 0 {
      NoSpaceBefore(s[1..], p - 1);
    }
  }
}
