/**
 * The utterance gate and the phrase filter of `handleInputAudio` (main.go:124-146)
 * and `calculateAudioLength` (main.go:170-177): the frames of an utterance are
 * merged into one sample sequence, utterances shorter than 0.40 s are dropped
 * before transcription, and three known spurious transcripts are dropped before
 * the dialogue call.
 */
module Gate {
  import opened Pcm
  import opened Segmentation

  /** `sampleRate` (main.go:22), in samples per second. */
  const SampleRate: nat := 16000

  /** The minimum utterance duration in seconds (main.go:131). */
  const MinDuration: real := 0.40

  /** The transcripts that never reach the dialogue stage (main.go:140). */
  const ExcludedWords: seq<string> := [
    "Продолжение следует...",
    "Субтитры сделал DimaTorzok",
    "Субтитры создавал DimaTorzok"
  ]

  /** Reference concatenation of an utterance's frames. */
  function Concat(frames: seq<Frame>): seq<Normalized>
    decreases |frames|
  {
    if frames == [] then [] else Concat(frames[..|frames| - 1]) + frames[|frames| - 1]
  }

  /** Reference sum of the frame lengths. */
  function TotalSamples(frames: seq<Frame>): nat
    decreases |frames|
  {
    if frames == [] then 0 else TotalSamples(frames[..|frames| - 1]) + |frames[|frames| - 1]|
  }

  /** The merged buffer holds as many samples as the frames together. */
  lemma {:induction false} ConcatLength(frames: seq<Frame>)
    ensures |Concat(frames)| == TotalSamples(frames)
    decreases |frames|
  {
    if frames != [] {
      ConcatLength(frames[..|frames| - 1]);
    }
  }

  /** Sample j of frame i sits after all samples of the frames before it. */
  lemma {:induction false} ConcatAt(frames: seq<Frame>, i: nat, j: nat)
    requires i < |frames| && j < |frames[i]|
    ensures TotalSamples(frames[..i]) + j < |Concat(frames)|
    ensures Concat(frames)[TotalSamples(frames[..i]) + j] == frames[i][j]
    decreases |frames|
  {
    var n := |frames|;
    var init := frames[..n - 1];
    ConcatLength(init);
    ConcatLength(frames);
    if i == n - 1 {
      assert frames[..i] == init;
    } else {
      assert init[..i] == frames[..i];
      ConcatAt(init, i, j);
    }
  }

  /** The merge loop of `handleInputAudio` (main.go:125-128). */
  method MergeFrames(buffer: seq<Frame>) returns (merged: seq<Normalized>)
    ensures merged == Concat(buffer)
    ensures |merged| == TotalSamples(buffer)
  {
    merged := [];
    for i := 0 to |buffer|
      invariant merged == Concat(buffer[..i])
    {
      assert buffer[..i + 1][..i] == buffer[..i];
      merged := merged + buffer[i];
    }
    assert buffer[..|buffer|] == buffer;
    ConcatLength(buffer);
  }

  /** `calculateAudioLength` (main.go:170-177): the total sample count over the rate. */
  method CalculateAudioLength(buffer: seq<Frame>, sampleRate: nat) returns (seconds: real)
    requires sampleRate > 0
    ensures seconds == TotalSamples(buffer) as real / sampleRate as real
    ensures seconds * sampleRate as real == |Concat(buffer)| as real
  {
    var totalSamples := 0;
    for i := 0 to |buffer|
      invariant totalSamples == TotalSamples(buffer[..i])
    {
      assert buffer[..i + 1][..i] == buffer[..i];
      totalSamples := totalSamples + |buffer[i]|;
    }
    assert buffer[..|buffer|] == buffer;
    seconds := totalSamples as real / sampleRate as real;
    ConcatLength(buffer);
  }

  /** At 16000 samples per second, "shorter than 0.40 s" means fewer than 6400 samples. */
  lemma GateThreshold(n: nat)
    ensures n as real / SampleRate as real < MinDuration <==> n < 6400
  {
  }

  /** The exclusion scan of `handleInputAudio` (main.go:140-146), an exact comparison with each phrase. */
  method IsExcluded(transcription: string) returns (excluded: bool)
    ensures excluded <==> transcription in ExcludedWords
    ensures excluded <==> exists i :: 0 <= i < |ExcludedWords| && transcription == ExcludedWords[i]
  {
    for i := 0 to |ExcludedWords|
      invariant forall j :: 0 <= j < i ==> transcription != ExcludedWords[j]
    {
      if transcription == ExcludedWords[i] {
        return true;
      }
    }
    return false;
  }

  /** A phrase with text added in front, behind or both is not excluded: the match is exact. */
  lemma SurroundedNotExcluded(word: string, before: string, after: string)
    requires word in ExcludedWords && before + after != []
    ensures before + word + after !in ExcludedWords
  {
    var w := before + word + after;
    var k := |before|;
    assert |word| > 10;
    assert w[k] == word[0] && w[k + 10] == word[10] && w[k + |word| - 1] == word[|word| - 1];
  }

  /** A proper part of a phrase, cut anywhere, is not excluded either. */
  lemma PartNotExcluded(word: string, i: nat, j: nat)
    requires word in ExcludedWords && i <= j <= |word| && j - i < |word|
    ensures word[i..j] !in ExcludedWords
  {
    var part, before, after := word[i..j], word[..i], word[j..];
    SplitThree(word, i, j);
    assert |before + after| == |word| - |part|;
    if part in ExcludedWords {
      SurroundedNotExcluded(part, before, after);
    }
  }

  lemma SplitThree<T>(s: seq<T>, i: nat, j: nat)
    requires i <= j <= |s|
    ensures s[..i] + s[i..j] + s[j..] == s
  {
  }
}
