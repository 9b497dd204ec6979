/** The status and processing-stage vocabularies of the Video model
    (backend/api/models.py, STATUS_CHOICES and PROCESSING_STAGE_CHOICES) and
    the database codes they are stored and sent as. */
module VideoModels {
  import opened Outcomes

  datatype VideoStatus = Uploading | Processing | Completed | Failed

  /** The stages in the order the pipeline reaches them. */
  datatype ProcessingStage = Uploaded | AudioConverted | Transcribed | Embedded | PdfGenerated

  function StatusCode(s: VideoStatus): string {
    match s
    case Uploading => "uploading"
    case Processing => "processing"
    case Completed => "completed"
    case Failed => "failed"
  }

  const StatusCodes: set<string> := {"uploading", "processing", "completed", "failed"}

  /** Reads a status code back; anything outside the choices is None. */
  function ParseStatus(code: string): (r: Option<VideoStatus>)
    ensures r.Some? <==> code in StatusCodes
    ensures r.Some? ==> StatusCode(r.value) == code
  {
    if code == "uploading" then Some(Uploading)
    else if code == "processing" then Some(Processing)
    else if code == "completed" then Some(Completed)
    else if code == "failed" then Some(Failed)
    else None
  }

  function StageCode(s: ProcessingStage): string {
    match s
    case Uploaded => "uploaded"
    case AudioConverted => "audio_converted"
    case Transcribed => "transcribed"
    case Embedded => "embedded"
    case PdfGenerated => "pdf_generated"
  }

  const StageCodes: set<string> := {"uploaded", "audio_converted", "transcribed", "embedded", "pdf_generated"}

  /** Reads a stage code back; anything outside the choices is None. */
  function ParseStage(code: string): (r: Option<ProcessingStage>)
    ensures r.Some? <==> code in StageCodes
    ensures r.Some? ==> StageCode(r.value) == code
  {
    if code == "uploaded" then Some(Uploaded)
    else if code == "audio_converted" then Some(AudioConverted)
    else if code == "transcribed" then Some(Transcribed)
    else if code == "embedded" then Some(Embedded)
    else if code == "pdf_generated" then Some(PdfGenerated)
    else None
  }

  /** Position of a stage in PROCESSING_STAGE_CHOICES. */
  function StageIndex(s: ProcessingStage): (i: nat)
    ensures i < 5
  {
    match s
    case Uploaded => 0
    case AudioConverted => 1
    case Transcribed => 2
    case Embedded => 3
    case PdfGenerated => 4
  }

  /** The stage at a given position of PROCESSING_STAGE_CHOICES. */
  function StageAt(i: nat): (s: ProcessingStage)
    requires i < 5
    ensures StageIndex(s) == i
  {
    if i == 0 then Uploaded
    else if i == 1 then AudioConverted
    else if i == 2 then Transcribed
    else if i == 3 then Embedded
    else PdfGenerated
  }
}
