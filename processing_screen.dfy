/** The processing overlay of frontend/src/components/ProcessingScreen.jsx:
    the clip index that loops through the clips as each one ends, and the
    status line for the processing stage. */
module ProcessingScreen {
  import opened Outcomes
  import VideoModels

  /** A clip index as JavaScript holds it: a whole number, or NaN once it is
      computed modulo an empty list. */
  datatype Index = At(i: nat) | NotANumber

  /** `(currentVideoIndex + 1) % videos.length`: NaN for an empty list, and
      NaN stays NaN. */
  function Next(index: Index, count: nat): (n: Index)
    ensures count > 0 && index.At? ==> n == At((index.i + 1) % count)
    ensures count == 0 || index.NotANumber? ==> n == NotANumber
  {
    match index
    case At(i) => if count == 0 then NotANumber else At((i + 1) % count)
    case NotANumber => NotANumber
  }

  /** The index after k clips have ended, from the first clip. */
  function AfterEnds(count: nat, k: nat): Index {
    if k == 0 then At(0) else Next(AfterEnds(count, k - 1), count)
  }

  /** After k ends the k-th clip modulo the list's length plays; with no
      clips the index is NaN after the first end. */
  lemma {:induction false} AfterEndsCycles(count: nat, k: nat)
    ensures count > 0 ==> AfterEnds(count, k) == At(k % count)
    ensures count == 0 && k > 0 ==> AfterEnds(count, k) == NotANumber
  {
    if k > 0 {
      AfterEndsCycles(count, k - 1);
      if count > 0 {
        SuccessorModulo(k - 1, count);
      }
    }
  }

  lemma SuccessorModulo(k: nat, count: nat)
    requires count > 0
    ensures ((k % count) + 1) % count == (k + 1) % count
  {
    var q := k / count;
    var r := k % count;
    if r + 1 < count {
      ModuloIs(k + 1, count, q, r + 1);
      ModuloIs(r + 1, count, 0, r + 1);
    } else {
      ModuloIs(k + 1, count, q + 1, 0);
      ModuloIs(r + 1, count, 1, 0);
    }
  }

  /** The remainder is r when x is q·n + r with r in [0, n). */
  lemma ModuloIs(x: int, n: int, q: int, r: int)
    requires n > 0 && 0 <= r < n && x == q * n + r
    ensures x % n == r
  {
    var q2 := x / n;
    var r2 := x % n;
    assert x == q2 * n + r2;
    var dq := q - q2;
    assert dq * n == q * n - q2 * n;
    assert dq * n == r2 - r;
    assert -n < dq * n < n;
  }

  /** The loop comes back to the first clip after as many ends as there are
      clips. */
  lemma FullCycleReturns(count: nat)
    requires count > 0
    ensures AfterEnds(count, count) == At(0)
  {
    AfterEndsCycles(count, count);
  }

  /** The component's clip state. */
  class Player {
    const videos: seq<string>
    var index: Index

    constructor (videos: seq<string>)
      ensures this.videos == videos && index == At(0)
    {
      this.videos := videos;
      index := At(0);
    }

    /** The index names a clip of the list. */
    predicate Valid()
      reads this
    {
      index.At? && index.i < |videos|
    }

    /** The source of the video element: `videos[currentVideoIndex]`,
        undefined outside the list. */
    function Source(): (src: Option<string>)
      reads this
      ensures Valid() ==> src == Some(videos[index.i])
      ensures !Valid() ==> src.None?
    {
      if index.At? && index.i < |videos| then Some(videos[index.i]) else None
    }

    /** handleVideoEnd. A nonempty list keeps the index on a clip. */
    method VideoEnded()
      modifies this
      ensures index == Next(old(index), |videos|)
      ensures old(Valid()) ==> Valid()
    {
      index := Next(index, |videos|);
    }
  }

  /** A fresh player on a nonempty list plays a clip, and so does every
      later state. */
  lemma FreshPlayerValid(videos: seq<string>, k: nat)
    requires |videos| > 0
    ensures AfterEnds(|videos|, k).At? && AfterEnds(|videos|, k).i < |videos|
  {
    AfterEndsCycles(|videos|, k);
  }

  // ---------------------------------------------------------------------------
  // getStatusText

  const DefaultStage: string := "uploaded"

  /** The `processingStage = 'uploaded'` default: it applies when the prop is
      not passed. */
  function StageOrDefault(given: Option<string>): (stage: string)
    ensures given.None? ==> stage == DefaultStage
    ensures given.Some? ==> stage == given.value
  {
    given.GetOr(DefaultStage)
  }

  function StageText(stage: string): (text: string)
    ensures stage == "uploaded" ==> text == "Converting video to audio..."
    ensures stage == "audio_converted" ==> text == "Transcribing audio to text..."
    ensures stage == "transcribed" ==> text == "Generating embeddings..."
    ensures stage == "embedded" || stage == "pdf_generated" ==> text == "Finalizing..."
    ensures stage !in VideoModels.StageCodes ==> text == "Processing..."
  {
    match stage
    case "uploaded" => "Converting video to audio..."
    case "audio_converted" => "Transcribing audio to text..."
    case "transcribed" => "Generating embeddings..."
    case "embedded" => "Finalizing..."
    case "pdf_generated" => "Finalizing..."
    case _ => "Processing..."
  }

  /** Each stage the pipeline records has its own line but the last two,
      which share "Finalizing..."; the generic line is for unknown codes
      only, and the overlay without a stage shows the first line. */
  lemma StageTextsOfPipeline(s: VideoModels.ProcessingStage, t: VideoModels.ProcessingStage)
    ensures StageText(VideoModels.StageCode(s)) != "Processing..."
    ensures StageText(VideoModels.StageCode(s)) == StageText(VideoModels.StageCode(t)) <==>
      s == t || (VideoModels.StageIndex(s) >= 3 && VideoModels.StageIndex(t) >= 3)
    ensures StageText(StageOrDefault(None)) == StageText(VideoModels.StageCode(VideoModels.Uploaded))
  {
  }
}
