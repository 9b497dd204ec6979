/** The YouTube download tasks of backend/api/views.py: the shared table
    YOUTUBE_DOWNLOAD_TASKS, its guarded update (_update_youtube_task), the
    endpoints that add and read records (upload_youtube, youtube_status) and
    the writes a download task makes (_run_youtube_download_task). The thread
    and the lock are left out: each call runs to completion before the next. */
module YoutubeTasks {
  import opened Outcomes
  import opened Text
  import opened Numeric
  import opened UploadChecks

  datatype TaskStatus = Queued | Downloading | Downloaded | Processing | Failed

  /** One record of the table. */
  datatype TaskRecord = TaskRecord(
    taskId: string,
    status: TaskStatus,
    message: string,
    progress: int,
    videoId: Option<int>,
    title: string,
    error: Option<string>,
    createdAt: string)

  /** The keyword arguments of one _update_youtube_task call; None leaves the
      key out of the call. */
  datatype TaskUpdate = TaskUpdate(
    status: Option<TaskStatus>,
    message: Option<string>,
    progress: Option<int>,
    videoId: Option<int>,
    title: Option<string>,
    error: Option<string>)

  /** dict.update: the given keys take the given values, the others keep theirs. */
  function Apply(rec: TaskRecord, u: TaskUpdate): (r: TaskRecord)
    ensures r.taskId == rec.taskId && r.createdAt == rec.createdAt
    ensures r.status == u.status.GetOr(rec.status) && r.message == u.message.GetOr(rec.message)
    ensures r.progress == u.progress.GetOr(rec.progress) && r.title == u.title.GetOr(rec.title)
    ensures r.videoId == (if u.videoId.Some? then u.videoId else rec.videoId)
    ensures r.error == (if u.error.Some? then u.error else rec.error)
  {
    TaskRecord(rec.taskId, u.status.GetOr(rec.status), u.message.GetOr(rec.message),
               u.progress.GetOr(rec.progress),
               if u.videoId.Some? then u.videoId else rec.videoId,
               u.title.GetOr(rec.title),
               if u.error.Some? then u.error else rec.error,
               rec.createdAt)
  }

  const NoChange: TaskUpdate := TaskUpdate(None, None, None, None, None, None)

  /** The table after an update: an unknown id leaves it as it was. */
  function Updated(tasks: map<string, TaskRecord>, id: string, u: TaskUpdate): map<string, TaskRecord> {
    if id in tasks then tasks[id := Apply(tasks[id], u)] else tasks
  }

  /** An update changes at most the record it names; the set of ids never
      changes, and an update with no keys changes nothing. */
  lemma UpdateTouchesOnlyItsTask(tasks: map<string, TaskRecord>, id: string, u: TaskUpdate)
    ensures Updated(tasks, id, u).Keys == tasks.Keys
    ensures forall other :: other in tasks && other != id ==> Updated(tasks, id, u)[other] == tasks[other]
    ensures id !in tasks ==> Updated(tasks, id, u) == tasks
    ensures Updated(tasks, id, NoChange) == tasks
  {
  }

  // ---------------------------------------------------------------------------
  // Progress hook

  /** A progress_hook call. `percentText` is '_percent_str'; the byte counts
      are None when the key is missing or null. Other statuses do nothing. */
  datatype HookEvent =
    | DownloadingEvent(percentText: ProgressValue, totalBytes: Option<int>, totalEstimate: Option<int>, downloaded: Option<int>)
    | FinishedEvent(fileName: Option<string>)
    | OtherEvent

  /** The percent written for a 'downloading' event: the parsed text, else
      the byte ratio truncated, else 0. The ratio is not clamped. */
  function DownloadPercent(e: HookEvent): (p: int)
    requires e.DownloadingEvent?
    ensures ParsePercentOf(e).Some? ==> p == ParsePercentOf(e).value
    ensures ParsePercentOf(e).None? && TotalOf(e) == 0 ==> p == 0
    ensures ParsePercentOf(e).None? && e.downloaded.None? ==> p == 0
  {
    var parsed := ParsePercentOf(e);
    if parsed.Some? then parsed.value
    else
      var total := TotalOf(e);
      if total != 0 && e.downloaded.Some? then Truncate((e.downloaded.value as real / total as real) * 100.0)
      else 0
  }

  function ParsePercentOf(e: HookEvent): Option<int>
    requires e.DownloadingEvent?
  {
    ParseProgressPercent(e.percentText)
  }

  /** `total_bytes or total_bytes_estimate`, with a missing value as 0. */
  function TotalOf(e: HookEvent): int
    requires e.DownloadingEvent?
  {
    if e.totalBytes.Some? && e.totalBytes.value != 0 then e.totalBytes.value else e.totalEstimate.GetOr(0)
  }

  /** The update a hook event makes. */
  function HookUpdate(e: HookEvent): TaskUpdate {
    match e
    case DownloadingEvent(_, _, _, _) =>
      TaskUpdate(Some(Downloading), Some("Downloading from YouTube..."), Some(DownloadPercent(e)), None, None, None)
    case FinishedEvent(_) =>
      TaskUpdate(Some(Downloaded), Some("Download complete. Uploading to application..."), Some(100), None, None, None)
    case OtherEvent => NoChange
  }

  /** info_ref['downloaded_path'] after the events: the last non-empty file
      name of a 'finished' event. */
  function FinishedPath(events: seq<HookEvent>): (r: Option<string>)
    ensures r.Some? ==> r.value != []
    decreases |events|
  {
    if events == [] then None
    else
      var last := events[|events| - 1];
      if last.FinishedEvent? && last.fileName.Some? && last.fileName.value != [] then last.fileName
      else FinishedPath(events[..|events| - 1])
  }

  // ---------------------------------------------------------------------------
  // The download task

  /** An exception raised by a step of the task: an ImportError, or any
      other exception with its message. */
  datatype Raised = ImportFailure | Failure(message: string)

  /** How a download attempt went. `imported` is false when `import yt_dlp`
      raises ImportError. `extraction` is the outcome of extract_info: an
      exception's message, or the info title and prepare_filename's name.
      `pathExists` is os.path.exists on the candidate path, `listed` is the
      temporary directory's regular files (os.path.isfile) in listing order,
      `sizeOf` gives file sizes. `creation` is what the steps after validation
      raise, if anything: getting the default user, saving the file and the
      Video row, importing and starting the pipeline. `newVideoId` is the id
      the new Video row receives. */
  datatype Attempt = Attempt(
    imported: bool,
    events: seq<HookEvent>,
    extraction: Result<(Option<string>, string), string>,
    pathExists: string -> bool,
    listed: seq<string>,
    sizeOf: string -> int,
    creation: Option<Raised>,
    newVideoId: int)

  /** Where the downloaded file is taken from: the finished hook's name or
      the prepared name if it exists, else the first listed file, else the
      ValueError 'Failed to download video from YouTube'. */
  function ResolvePath(candidate: string, pathExists: string -> bool, listed: seq<string>): (r: Result<string, string>)
    ensures r.Ok? && candidate != [] && pathExists(candidate) ==> r.value == candidate
    ensures r.Ok? && !(candidate != [] && pathExists(candidate)) ==> listed != [] && r.value == listed[0]
    ensures r.Err? <==> !(candidate != [] && pathExists(candidate)) && listed == []
  {
    if candidate != [] && pathExists(candidate) then Ok(candidate)
    else if listed == [] then Err("Failed to download video from YouTube")
    else Ok(listed[0])
  }

  /** `custom_title or info.get('title') or os.path.splitext(file_name)[0]`. */
  function FinalTitle(custom: string, infoTitle: Option<string>, fileName: string): (t: string)
    ensures custom != [] ==> t == custom
    ensures custom == [] && infoTitle.Some? && infoTitle.value != [] ==> t == infoTitle.value
    ensures custom == [] && (infoTitle.None? || infoTitle.value == []) ==> t + SplitExt(fileName).1 == fileName
  {
    if custom != [] then custom
    else if infoTitle.Some? && infoTitle.value != [] then infoTitle.value
    else SplitExt(fileName).0
  }

  const MissingDependencyMessage: string := "YouTube downloader dependency is missing on server"

  /** The message a task fails with for an exception: the dependency message
      for an ImportError, str(e) for any other. */
  function FailureMessage(e: Raised): (m: string)
    ensures e.ImportFailure? ==> m == MissingDependencyMessage
    ensures e.Failure? ==> m == e.message
  {
    match e
    case ImportFailure => MissingDependencyMessage
    case Failure(message) => message
  }

  /** The created video's id and title, or the message the task fails with. */
  function DownloadOutcome(a: Attempt, custom: string): (r: Result<(int, string), string>)
    ensures !a.imported ==> r == Err(MissingDependencyMessage)
    ensures a.imported && a.extraction.Err? ==> r == Err(a.extraction.error)
    ensures r.Ok? ==> a.imported && a.extraction.Ok? && a.creation.None? && r.value.0 == a.newVideoId
    ensures r.Ok? && custom != [] ==> r.value.1 == custom
  {
    if !a.imported then Err(MissingDependencyMessage)
    else if a.extraction.Err? then Err(a.extraction.error)
    else
      var (infoTitle, prepared) := a.extraction.value;
      var candidate := FinishedPath(a.events).GetOr(prepared);
      var path := ResolvePath(candidate, a.pathExists, a.listed);
      if path.Err? then Err(path.error)
      else
        var fileName := Basename(path.value);
        var invalid := ValidateVideoFile(fileName, a.sizeOf(path.value));
        if invalid.Some? then Err(invalid.value)
        else if a.creation.Some? then Err(FailureMessage(a.creation.value))
        else Ok((a.newVideoId, FinalTitle(custom, infoTitle, fileName)))
  }

  /** The last update of a task: failed with progress 0 and the message as
      both message and error, or processing with the new video's id and title. */
  function FinalUpdate(outcome: Result<(int, string), string>): (u: TaskUpdate)
    ensures outcome.Err? ==> u == TaskUpdate(Some(Failed), Some(outcome.error), Some(0), None, None, Some(outcome.error))
    ensures outcome.Ok? ==>
      (u.status == Some(Processing) && u.progress == Some(100)
       && u.videoId == Some(outcome.value.0) && u.title == Some(outcome.value.1))
  {
    match outcome
    case Err(m) => TaskUpdate(Some(Failed), Some(m), Some(0), None, None, Some(m))
    case Ok((id, title)) => TaskUpdate(Some(Processing), Some("Uploaded. Processing video..."), Some(100), Some(id), Some(title), None)
  }

  /** The events a task applies: those of yt-dlp, none when the import failed. */
  function AppliedEvents(a: Attempt): seq<HookEvent> {
    if a.imported then a.events else []
  }

  /** The table after a sequence of hook events. */
  function AfterEvents(tasks: map<string, TaskRecord>, id: string, events: seq<HookEvent>): map<string, TaskRecord>
    decreases |events|
  {
    if events == [] then tasks
    else Updated(AfterEvents(tasks, id, events[..|events| - 1]), id, HookUpdate(events[|events| - 1]))
  }

  // ---------------------------------------------------------------------------
  // Request replies

  datatype Reply =
    | ErrorReply(code: int, error: string)
    | Accepted(taskId: string)
    | TaskReply(task: TaskRecord)

  /** upload_youtube's checks on the stripped URL, in order: blank, then host. */
  function YoutubeRequestError(url: string, netlocOf: string -> Option<string>): (r: Option<string>)
    ensures AllIn(url, PyWhitespace) ==> r == Some("youtube_url is required")
    ensures r.None? <==> !AllIn(url, PyWhitespace) && IsYoutubeUrl(netlocOf(Strip(url, PyWhitespace)))
  {
    StripEmptyIffBlank(url, PyWhitespace);
    var u := Strip(url, PyWhitespace);
    if u == [] then Some("youtube_url is required")
    else if !IsYoutubeUrl(netlocOf(u)) then Some("Only YouTube links are supported")
    else None
  }

  /** The queued record upload_youtube adds. */
  function QueuedRecord(id: string, title: Option<string>, createdAt: string): (r: TaskRecord)
    ensures r.status == Queued && r.progress == 0 && r.videoId.None? && r.error.None? && r.taskId == id
    ensures r.title == Strip(title.GetOr(""), PyWhitespace)
  {
    TaskRecord(id, Queued, "Queued for download...", 0, None, Strip(title.GetOr(""), PyWhitespace), None, createdAt)
  }

  /** YOUTUBE_DOWNLOAD_TASKS. */
  class TaskTable {
    var tasks: map<string, TaskRecord>

    constructor ()
      ensures tasks == map[]
    {
      tasks := map[];
    }

    /** _update_youtube_task. */
    method UpdateTask(id: string, u: TaskUpdate)
      modifies this
      ensures tasks == Updated(old(tasks), id, u)
    {
      if id in tasks {
        tasks := tasks[id := Apply(tasks[id], u)];
      }
    }

    /** upload_youtube. `url` and `title` are the request fields (None when
        missing or null), `newId` is the fresh uuid4 text and `now` the
        creation time. The download itself runs later, as RunDownloadTask. */
    method UploadYoutube(url: Option<string>, title: Option<string>, netlocOf: string -> Option<string>,
                         newId: string, now: string) returns (reply: Reply)
      modifies this
      ensures var err := YoutubeRequestError(url.GetOr(""), netlocOf);
        && (err.Some? ==> reply == ErrorReply(400, err.value) && tasks == old(tasks))
        && (err.None? ==> reply == Accepted(newId) && tasks == old(tasks)[newId := QueuedRecord(newId, title, now)])
    {
      var err := YoutubeRequestError(url.GetOr(""), netlocOf);
      if err.Some? {
        return ErrorReply(400, err.value);
      }
      tasks := tasks[newId := QueuedRecord(newId, title, now)];
      reply := Accepted(newId);
    }

    /** youtube_status. */
    function YoutubeStatus(taskIdParam: Option<string>): (reply: Reply)
      reads this
      ensures var id := Strip(taskIdParam.GetOr(""), PyWhitespace);
        && (id == [] ==> reply == ErrorReply(400, "task_id is required"))
        && (id != [] && id !in tasks ==> reply == ErrorReply(404, "Task not found"))
        && (id != [] && id in tasks ==> reply == TaskReply(tasks[id]))
    {
      var id := Strip(taskIdParam.GetOr(""), PyWhitespace);
      if id == [] then ErrorReply(400, "task_id is required")
      else if id !in tasks then ErrorReply(404, "Task not found")
      else TaskReply(tasks[id])
    }

    /** _run_youtube_download_task: the hook's updates in order, then the
        final update. */
    method RunDownloadTask(id: string, custom: string, a: Attempt)
      modifies this
      ensures tasks == Updated(AfterEvents(old(tasks), id, AppliedEvents(a)), id,
                               FinalUpdate(DownloadOutcome(a, custom)))
    {
      var events := AppliedEvents(a);
      var i := 0;
      while i < |events|
        invariant 0 <= i <= |events|
        invariant tasks == AfterEvents(old(tasks), id, events[..i])
      {
        assert events[..i + 1][..i] == events[..i];
        UpdateTask(id, HookUpdate(events[i]));
        i := i + 1;
      }
      assert events[..i] == events;
      UpdateTask(id, FinalUpdate(DownloadOutcome(a, custom)));
    }
  }

  // ---------------------------------------------------------------------------
  // Properties of the task lifecycle

  /** Replaying events never adds or removes a task and never touches
      another task's record. */
  lemma {:induction false} EventsTouchOnlyTheirTask(tasks: map<string, TaskRecord>, id: string, events: seq<HookEvent>)
    ensures AfterEvents(tasks, id, events).Keys == tasks.Keys
    ensures forall other :: other in tasks && other != id ==> AfterEvents(tasks, id, events)[other] == tasks[other]
    decreases |events|
  {
    if events != [] {
      EventsTouchOnlyTheirTask(tasks, id, events[..|events| - 1]);
    }
  }

  /** After a download task ends, a known task is failed with progress 0 and
      its message as error, or processing at 100 with the new video's id. A
      created video carries the custom title when one was given. */
  lemma DownloadEndState(tasks: map<string, TaskRecord>, id: string, custom: string, a: Attempt)
    requires id in tasks
    ensures var after := Updated(AfterEvents(tasks, id, AppliedEvents(a)), id, FinalUpdate(DownloadOutcome(a, custom)));
      var out := DownloadOutcome(a, custom);
      && id in after
      && (out.Err? ==> after[id].status == Failed && after[id].progress == 0
                       && after[id].error == Some(out.error) && after[id].message == out.error)
      && (out.Ok? ==> after[id].status == Processing && after[id].progress == 100
                      && after[id].videoId == Some(a.newVideoId)
                      && (custom != [] ==> after[id].title == custom))
  {
    EventsTouchOnlyTheirTask(tasks, id, AppliedEvents(a));
  }

  /** A missing yt-dlp fails the task before any progress is written. */
  lemma MissingDependencySkipsEvents(tasks: map<string, TaskRecord>, id: string, custom: string, a: Attempt)
    requires !a.imported && id in tasks
    ensures var after := Updated(AfterEvents(tasks, id, AppliedEvents(a)), id, FinalUpdate(DownloadOutcome(a, custom)));
      after[id] == tasks[id].(status := Failed, message := MissingDependencyMessage, progress := 0,
                              error := Some(MissingDependencyMessage))
  {
  }

  /** The steps after validation only run once the file is valid: an
      attempt that fails earlier fails the same way whatever they would
      raise, and one that gets through fails with their exception's message
      (the dependency message for a late ImportError) when they raise one. */
  lemma CreationFailsAfterValidation(a: Attempt, custom: string, e: Raised)
    ensures var before := DownloadOutcome(a.(creation := None), custom);
      var after := DownloadOutcome(a.(creation := Some(e)), custom);
      && (before.Err? ==> after == before)
      && (before.Ok? ==> after == Err(FailureMessage(e)))
      && (before.Ok? && e.ImportFailure? ==> after == Err(MissingDependencyMessage))
  {
  }

  /** The progress a downloading event writes from its text is within 0..100. */
  lemma HookProgressInRange(e: HookEvent)
    requires e.DownloadingEvent? && ParsePercentOf(e).Some?
    ensures 0 <= HookUpdate(e).progress.value <= 100
  {
  }
}
