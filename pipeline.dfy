/** The processing run of backend/video_processor/pipeline.py (_process_video_sync):
    the Video's status and processing stage are assigned and saved step by
    step (uploaded, audio_converted, transcribed, embedded, pdf_generated),
    then the video is marked completed, or failed with the exception's
    message. The external work of each step (ffmpeg, the transcription
    service, the embedding service, PDF generation) is given as inputs. */
module Pipeline {
  import opened Outcomes
  import opened VideoModels
  import opened EmbeddingStore

  /** What one call of video.save() writes. */
  datatype Snapshot = Snapshot(status: VideoStatus, stage: ProcessingStage, errorMessage: Option<string>)

  /** The Video row being processed. `saved` is the sequence of rows that
      video.save() has written, oldest first. */
  class Video {
    var status: VideoStatus
    var stage: ProcessingStage
    var errorMessage: Option<string>
    var saved: seq<Snapshot>

    constructor (status0: VideoStatus, stage0: ProcessingStage, error0: Option<string>)
      ensures status == status0 && stage == stage0 && errorMessage == error0 && saved == []
    {
      status, stage, errorMessage, saved := status0, stage0, error0, [];
    }

    method Save()
      modifies this
      ensures saved == old(saved) + [Snapshot(status, stage, errorMessage)]
      ensures status == old(status) && stage == old(stage) && errorMessage == old(errorMessage)
    {
      saved := saved + [Snapshot(status, stage, errorMessage)];
    }
  }

  /** The external steps of a run, in the order they are attempted. */
  datatype Step = Prepare | ConvertAudio | Transcribe | Embed | GeneratePdf

  /** What the outside world does during a run: whether the audio and the
      transcript files already exist, which steps raise (and with what
      message), the transcript's chunks, and the embedding service. */
  datatype Env = Env(
    audioExists: bool,
    jsonExists: bool,
    raises: map<Step, string>,
    chunks: seq<Chunk>,
    embed: seq<string> -> Result<seq<Embedding>, string>)

  /** The step run in phase p (the phase that follows the p-th stage save). */
  function StepOf(p: nat): Step
    requires p < 5
  {
    if p == 0 then Prepare
    else if p == 1 then ConvertAudio
    else if p == 2 then Transcribe
    else if p == 3 then Embed
    else GeneratePdf
  }

  /** Whether phase p runs its step: conversion is skipped when the audio file
      exists, transcription when the transcript file exists. */
  predicate Runs(env: Env, p: nat)
    requires p < 5
  {
    (p == 1 ==> !env.audioExists) && (p == 2 ==> !env.jsonExists)
  }

  /** The exception raised in phase p, if any. In the embedding phase it is a
      raise of the phase itself or a failed embedding request. */
  function RaisedIn(env: Env, file: Option<seq<Row>>, p: nat): Option<string>
    requires p < 5
  {
    if !Runs(env, p) then None
    else if StepOf(p) in env.raises then Some(env.raises[StepOf(p)])
    else if p == 3 then UpdateError(file, env.chunks, env.embed)
    else None
  }

  /** The first phase at or after `from` that raises, with its message. */
  function FirstFailure(env: Env, file: Option<seq<Row>>, from: nat): (f: Option<(nat, string)>)
    requires from <= 5
    ensures f.Some? ==> from <= f.value.0 < 5 && RaisedIn(env, file, f.value.0) == Some(f.value.1)
    ensures f.Some? ==> forall q :: from <= q < f.value.0 ==> RaisedIn(env, file, q).None?
    ensures f.None? ==> forall q :: from <= q < 5 ==> RaisedIn(env, file, q).None?
    decreases 5 - from
  {
    if from == 5 then None
    else if RaisedIn(env, file, from).Some? then Some((from, RaisedIn(env, file, from).value))
    else FirstFailure(env, file, from + 1)
  }

  /** The phase a run stops in with an exception, if any. */
  function Failure(env: Env, file: Option<seq<Row>>): Option<(nat, string)> {
    FirstFailure(env, file, 0)
  }

  /** The number of stage saves a run makes: one per phase entered. */
  function StagesSaved(f: Option<(nat, string)>): (k: nat)
    ensures 1 <= k <= 5
  {
    if f.None? || f.value.0 >= 5 then 5 else f.value.0 + 1
  }

  /** The first k processing rows of a run: (processing, stage i) for each
      i < k, with the error message column as it was before the run. */
  function StageSaves(k: nat, error0: Option<string>): (s: seq<Snapshot>)
    requires k <= 5
    ensures |s| == k
  {
    if k == 0 then [] else StageSaves(k - 1, error0) + [Snapshot(Processing, StageAt(k - 1), error0)]
  }

  /** The rows a run writes: a processing row per stage reached, in stage
      order, then the completed row or the failed row with the message. The
      error message column keeps its old value until a failure. */
  function ExpectedSaves(f: Option<(nat, string)>, error0: Option<string>): (s: seq<Snapshot>)
    ensures |s| == StagesSaved(f) + 1
  {
    var k := StagesSaved(f);
    StageSaves(k, error0)
      + [if f.None? then Snapshot(Completed, PdfGenerated, error0) else Snapshot(Failed, StageAt(k - 1), Some(f.value.1))]
  }

  /** The external steps a run performs: those of the phases it enters, minus
      the skipped ones. */
  function StepsRun(env: Env, f: Option<(nat, string)>): seq<Step> {
    StepsFrom(env, 0, StagesSaved(f))
  }

  function StepsFrom(env: Env, p: nat, k: nat): (r: seq<Step>)
    requires p <= k <= 5
    ensures |r| <= k - p
    decreases k - p
  {
    if p == k then []
    else (if Runs(env, p) then [StepOf(p)] else []) + StepsFrom(env, p + 1, k)
  }

  /** A step is performed exactly when some phase of the range runs it. */
  lemma {:induction false} StepsFromMembers(env: Env, p: nat, k: nat)
    requires p <= k <= 5
    ensures forall s :: s in StepsFrom(env, p, k) <==> exists q :: p <= q < k && Runs(env, q) && StepOf(q) == s
    decreases k - p
  {
    if p < k {
      StepsFromMembers(env, p + 1, k);
    }
  }

  // ---------------------------------------------------------------------------
  // The run

  /** A processing run. `video` is null when the lookup by id raised: then
      nothing is written. The embeddings file is rewritten only when the
      embedding phase completes with new chunks. */
  method ProcessVideo(video: Video?, env: Env, store: EmbeddingFile) returns (ran: seq<Step>)
    modifies video, store
    ensures video == null ==> ran == [] && store.rows == old(store.rows)
    ensures video != null ==>
      var f := Failure(env, old(store.rows));
      && video.saved == old(video.saved) + ExpectedSaves(f, old(video.errorMessage))
      && video.status == (if f.None? then Completed else Failed)
      && video.stage == StageAt(StagesSaved(f) - 1)
      && video.errorMessage == (if f.None? then old(video.errorMessage) else Some(f.value.1))
      && ran == StepsRun(env, f)
      && store.rows == (if f.None? || f.value.0 == 4 then FileAfter(old(store.rows), env.chunks, env.embed)
                        else old(store.rows))
  {
    if video == null {
      return [];
    }
    ghost var file := store.rows;
    ghost var error0 := video.errorMessage;
    ghost var saved0 := video.saved;

    video.status := Processing;
    video.stage := Uploaded;
    video.Save();
    ran := [Prepare];
    assert video.saved == saved0 + StageSaves(1, error0);
    assert ran == StepsFrom(env, 0, 1);
    if Prepare in env.raises {
      assert FirstFailure(env, file, 0) == Some((0, env.raises[Prepare]));
      MarkFailed(video, env.raises[Prepare]);
      return;
    }
    assert FirstFailure(env, file, 0) == FirstFailure(env, file, 1);
    var stopped;
    ran, stopped := ConvertAndTranscribe(video, env, file, ran, saved0, error0);
    if stopped {
      return;
    }
    ran := EmbedAndPublish(video, env, store, ran, saved0, error0);
  }

  /** The conversion and transcription phases of a run whose preparation
      raised nothing. `stopped` tells whether one of them raised. */
  method ConvertAndTranscribe(video: Video, env: Env, ghost file: Option<seq<Row>>, ran0: seq<Step>,
                              ghost saved0: seq<Snapshot>, ghost error0: Option<string>)
      returns (ran: seq<Step>, stopped: bool)
    modifies video
    requires video.saved == saved0 + StageSaves(1, error0)
    requires video.status == Processing && video.errorMessage == error0
    requires ran0 == StepsFrom(env, 0, 1)
    requires FirstFailure(env, file, 0) == FirstFailure(env, file, 1)
    ensures var f := Failure(env, file);
      && (stopped <==> f.Some? && f.value.0 < 3)
      && (stopped ==>
            && video.saved == saved0 + ExpectedSaves(f, error0)
            && video.status == Failed
            && video.stage == StageAt(StagesSaved(f) - 1)
            && video.errorMessage == Some(f.value.1)
            && ran == StepsRun(env, f))
      && (!stopped ==>
            && video.saved == saved0 + StageSaves(3, error0)
            && video.status == Processing && video.errorMessage == error0
            && ran == StepsFrom(env, 0, 3)
            && FirstFailure(env, file, 0) == FirstFailure(env, file, 3))
  {
    ran, stopped := SkippablePhase(video, env, file, 1, ran0, saved0, error0);
    if stopped {
      return;
    }
    ran, stopped := SkippablePhase(video, env, file, 2, ran, saved0, error0);
  }

  /** Phase 1 (audio conversion) or phase 2 (transcription): the stage is
      saved, then the step runs only when its output file is missing. */
  method SkippablePhase(video: Video, env: Env, ghost file: Option<seq<Row>>, p: nat, ran0: seq<Step>,
                        ghost saved0: seq<Snapshot>, ghost error0: Option<string>)
      returns (ran: seq<Step>, stopped: bool)
    modifies video
    requires p == 1 || p == 2
    requires video.saved == saved0 + StageSaves(p, error0)
    requires video.status == Processing && video.errorMessage == error0
    requires ran0 == StepsFrom(env, 0, p)
    requires FirstFailure(env, file, 0) == FirstFailure(env, file, p)
    ensures var f := Failure(env, file);
      && (stopped <==> f.Some? && f.value.0 == p)
      && (stopped ==>
            && video.saved == saved0 + ExpectedSaves(f, error0)
            && video.status == Failed
            && video.stage == StageAt(p)
            && video.errorMessage == Some(f.value.1)
            && ran == StepsRun(env, f))
      && (!stopped ==>
            && video.saved == saved0 + StageSaves(p + 1, error0)
            && video.status == Processing && video.errorMessage == error0
            && ran == StepsFrom(env, 0, p + 1)
            && FirstFailure(env, file, 0) == FirstFailure(env, file, p + 1))
  {
    ran := ran0;
    video.stage := StageAt(p);
    video.Save();
    assert video.saved == saved0 + StageSaves(p + 1, error0);
    StepsFromSnoc(env, 0, p);
    if Runs(env, p) {
      var step := if p == 1 then ConvertAudio else Transcribe;
      assert step == StepOf(p);
      ran := ran + [step];
      if step in env.raises {
        assert FirstFailure(env, file, p) == Some((p, env.raises[step]));
        FailedIn(env, Failure(env, file), p, env.raises[step], error0);
        MarkFailed(video, env.raises[step]);
        return ran, true;
      }
    }
    assert FirstFailure(env, file, p) == FirstFailure(env, file, p + 1);
    stopped := false;
  }

  /** The embedding and PDF phases of a run whose first three phases raised
      nothing. */
  method EmbedAndPublish(video: Video, env: Env, store: EmbeddingFile, ran0: seq<Step>,
                         ghost saved0: seq<Snapshot>, ghost error0: Option<string>) returns (ran: seq<Step>)
    modifies video, store
    requires video.saved == saved0 + StageSaves(3, error0)
    requires video.status == Processing && video.errorMessage == error0
    requires ran0 == StepsFrom(env, 0, 3)
    requires FirstFailure(env, store.rows, 0) == FirstFailure(env, store.rows, 3)
    ensures var f := Failure(env, old(store.rows));
      && video.saved == saved0 + ExpectedSaves(f, error0)
      && video.status == (if f.None? then Completed else Failed)
      && video.stage == StageAt(StagesSaved(f) - 1)
      && video.errorMessage == (if f.None? then error0 else Some(f.value.1))
      && ran == StepsRun(env, f)
      && store.rows == (if f.None? || f.value.0 == 4 then FileAfter(old(store.rows), env.chunks, env.embed)
                        else old(store.rows))
  {
    ghost var file := store.rows;
    video.stage := Embedded;
    video.Save();
    assert video.saved == saved0 + StageSaves(4, error0);
    ran := ran0 + [Embed];
    assert ran == StepsFrom(env, 0, 4) by { StepsFromSnoc(env, 0, 3); }
    if Embed in env.raises {
      assert FirstFailure(env, file, 3) == Some((3, env.raises[Embed]));
      FailedIn(env, Failure(env, file), 3, env.raises[Embed], error0);
      MarkFailed(video, env.raises[Embed]);
      return;
    }
    var updated := store.Update(env.chunks, env.embed);
    if updated.Err? {
      assert FirstFailure(env, file, 3) == Some((3, updated.error));
      FailedIn(env, Failure(env, file), 3, updated.error, error0);
      MarkFailed(video, updated.error);
      return;
    }
    assert FirstFailure(env, file, 3) == FirstFailure(env, file, 4);
    assert store.rows == FileAfter(file, env.chunks, env.embed);
    ran := Publish(video, env, file, ran, saved0, error0);
  }

  /** The PDF phase and the completed row of a run whose first four phases
      raised nothing. */
  method Publish(video: Video, env: Env, ghost file: Option<seq<Row>>, ran0: seq<Step>,
                 ghost saved0: seq<Snapshot>, ghost error0: Option<string>) returns (ran: seq<Step>)
    modifies video
    requires video.saved == saved0 + StageSaves(4, error0)
    requires video.status == Processing && video.errorMessage == error0
    requires ran0 == StepsFrom(env, 0, 4)
    requires FirstFailure(env, file, 0) == FirstFailure(env, file, 4)
    ensures var f := Failure(env, file);
      && (f.None? || f.value.0 == 4)
      && video.saved == saved0 + ExpectedSaves(f, error0)
      && video.status == (if f.None? then Completed else Failed)
      && video.stage == StageAt(StagesSaved(f) - 1)
      && video.errorMessage == (if f.None? then error0 else Some(f.value.1))
      && ran == StepsRun(env, f)
  {
    video.stage := PdfGenerated;
    video.Save();
    assert video.saved == saved0 + StageSaves(5, error0);
    ran := ran0 + [GeneratePdf];
    assert ran == StepsFrom(env, 0, 5) by { StepsFromSnoc(env, 0, 4); }
    if GeneratePdf in env.raises {
      assert FirstFailure(env, file, 4) == Some((4, env.raises[GeneratePdf]));
      FailedIn(env, Failure(env, file), 4, env.raises[GeneratePdf], error0);
      MarkFailed(video, env.raises[GeneratePdf]);
      return;
    }
    assert FirstFailure(env, file, 4) == None by {
      assert FirstFailure(env, file, 5) == None;
    }
    Succeeded(env, Failure(env, file), error0);

    video.status := Completed;
    video.Save();
  }

  /** The except-branch: status failed, error_message = str(e), saved. */
  method MarkFailed(video: Video, message: string)
    modifies video
    ensures video.status == Failed && video.errorMessage == Some(message) && video.stage == old(video.stage)
    ensures video.saved == old(video.saved) + [Snapshot(Failed, old(video.stage), Some(message))]
  {
    video.status := Failed;
    video.errorMessage := Some(message);
    video.Save();
  }

  /** What a run that fails in phase p writes and performs. */
  lemma FailedIn(env: Env, f: Option<(nat, string)>, p: nat, message: string, error0: Option<string>)
    requires p < 5 && f == Some((p, message))
    ensures StagesSaved(f) == p + 1
    ensures ExpectedSaves(f, error0) == StageSaves(p + 1, error0) + [Snapshot(Failed, StageAt(p), Some(message))]
    ensures StepsRun(env, f) == StepsFrom(env, 0, p + 1)
  {
  }

  /** What a run in which no step raises writes and performs. */
  lemma Succeeded(env: Env, f: Option<(nat, string)>, error0: Option<string>)
    requires f == None
    ensures StagesSaved(f) == 5 && StageAt(4) == PdfGenerated
    ensures ExpectedSaves(f, error0) == StageSaves(5, error0) + [Snapshot(Completed, PdfGenerated, error0)]
    ensures StepsRun(env, f) == StepsFrom(env, 0, 5)
  {
  }

  /** One more phase adds its step, when it runs, at the end. */
  lemma {:induction false} StepsFromSnoc(env: Env, p: nat, k: nat)
    requires p <= k < 5
    ensures StepsFrom(env, p, k + 1) == StepsFrom(env, p, k) + (if Runs(env, k) then [StepOf(k)] else [])
    decreases k - p
  {
    if p < k {
      StepsFromSnoc(env, p + 1, k);
    }
  }

  // ---------------------------------------------------------------------------
  // Properties of a run

  /** The processing rows come in stage order, starting with (processing,
      uploaded), and the final row keeps the last stage reached: stages
      never go backwards. */
  lemma {:induction false} SavesFollowStageOrder(f: Option<(nat, string)>, error0: Option<string>)
    ensures var s := ExpectedSaves(f, error0);
      && s[0] == Snapshot(Processing, Uploaded, error0)
      && forall i, j :: 0 <= i <= j < |s| ==> StageIndex(s[i].stage) <= StageIndex(s[j].stage)
  {
    var s := ExpectedSaves(f, error0);
    var k := StagesSaved(f);
    forall i | 0 <= i < k ensures StageIndex(s[i].stage) == i {
      StageSavesAt(k, error0, i);
    }
    StageSavesAt(k, error0, 0);
    assert StageIndex(s[k].stage) == k - 1;
  }

  /** Row i of the first k processing rows is (processing, stage i). */
  lemma {:induction false} StageSavesAt(k: nat, error0: Option<string>, i: nat)
    requires i < k <= 5
    ensures StageSaves(k, error0)[i] == Snapshot(Processing, StageAt(i), error0)
  {
    if i < k - 1 {
      StageSavesAt(k - 1, error0, i);
    }
  }

  /** completed is written once, as the last row, and only by a run in which
      no step raised, i.e. after PDF generation returned. */
  lemma {:induction false} CompletedOnlyAfterPdf(env: Env, file: Option<seq<Row>>, error0: Option<string>)
    ensures var f := Failure(env, file);
      var s := ExpectedSaves(f, error0);
      && (forall i :: 0 <= i < |s| && s[i].status == Completed ==> i == |s| - 1 && f.None?)
      && (f.None? ==> s[|s| - 1].status == Completed && s[|s| - 2].stage == PdfGenerated
                      && GeneratePdf in StepsRun(env, f))
  {
    var f := Failure(env, file);
    var s := ExpectedSaves(f, error0);
    var k := StagesSaved(f);
    forall i | 0 <= i < k ensures s[i].status == Processing {
      StageSavesAt(k, error0, i);
    }
    if f.None? {
      StageSavesAt(5, error0, 4);
      StepsFromMembers(env, 0, 5);
      assert Runs(env, 4) && StepOf(4) == GeneratePdf;
    }
  }

  /** A run fails exactly when some step it performs raises, and then the
      failed row carries that exception's message and the stage reached. */
  lemma {:induction false} FailedCarriesMessage(env: Env, file: Option<seq<Row>>, error0: Option<string>)
    ensures var f := Failure(env, file);
      var s := ExpectedSaves(f, error0);
      && (s[|s| - 1].status == Failed <==> exists p :: 0 <= p < 5 && RaisedIn(env, file, p).Some?)
      && (f.Some? ==> s[|s| - 1] == Snapshot(Failed, StageAt(f.value.0), Some(f.value.1))
                      && StepOf(f.value.0) in StepsRun(env, f))
  {
    var f := Failure(env, file);
    if f.Some? {
      StepsFromMembers(env, 0, StagesSaved(f));
      assert RaisedIn(env, file, f.value.0).Some?;
      assert Runs(env, f.value.0);
    }
  }

  /** Conversion and transcription run only when their output file is
      missing, and a run that never reaches the embedding step stopped in
      an earlier phase. */
  lemma {:induction false} SkipsExistingOutputs(env: Env, f: Option<(nat, string)>)
    ensures ConvertAudio in StepsRun(env, f) ==> !env.audioExists
    ensures Transcribe in StepsRun(env, f) ==> !env.jsonExists
    ensures Embed !in StepsRun(env, f) ==> f.Some? && f.value.0 < 3
  {
    StepsFromMembers(env, 0, StagesSaved(f));
    if ConvertAudio in StepsRun(env, f) {
      var q :| 0 <= q < StagesSaved(f) && Runs(env, q) && StepOf(q) == ConvertAudio;
      assert q == 1;
    }
    if Transcribe in StepsRun(env, f) {
      var q :| 0 <= q < StagesSaved(f) && Runs(env, q) && StepOf(q) == Transcribe;
      assert q == 2;
    }
    if StagesSaved(f) > 3 {
      assert Runs(env, 3) && StepOf(3) == Embed;
    }
  }
}
