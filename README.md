# Video RAG — a verified model of its core logic

The repository is a video question-answering application. A Django backend
accepts uploaded videos and YouTube links. It runs each video through a
processing pipeline: audio conversion, transcription, embedding and PDF
generation. It answers questions about a video from the stored embeddings
and offers an AI chat over the transcript. A React frontend lists the
videos, groups them by day, shows the processing progress and holds the
two chat conversations of a video.

This project models the self-contained logic of that system in Dafny and
proves properties of the model. The model covers:

- the status and stage vocabularies of a video (`VideoModels`);
- the processing pipeline's sequence of saved rows (`Pipeline`);
- the append-only embeddings table (`EmbeddingStore`);
- the upload and YouTube-link checks (`UploadChecks`);
- the in-memory table of YouTube download tasks (`YoutubeTasks`);
- the grouping of videos by upload day (`VideosByDate`);
- the status guards of the query, pdf and ai_chat actions, and the
  ai_chat message list (`VideoActions`);
- the one-entry embeddings cache of the query path (`QueryCache`);
- the management command that backfills YouTube URLs from file names
  (`Backfill`);
- the admin question preview (`Admin`).

On the frontend it covers:

- the upload queue (`UploadPage`);
- the two stored conversations and their send rules (`ChatSession`,
  `ChatPage`, `AiChatPanel`);
- the markdown-to-HTML transform of the AI panel (`Markdown`);
- the date filter and the query string it produces (`DateNavigator`,
  `ApiClient`);
- the pages' small formatters and state handlers (`History`, `Dashboard`,
  `DailyBucket`, `ProcessingScreen`, `Profile`).

Outside events are parameters of the operations that meet them: HTTP
responses, file-system facts, the clock, the result of `window.confirm`,
the contents of `localStorage` and the results of external services. State
that the source updates in place becomes a class: the task table, the
embeddings file, the cache, the upload queue, the chat sessions, the date
navigator and the pages. `Text`, `Numeric` and `Outcomes` hold the shared
string, number and result helpers.

## Model

| member | source | states |
|---|---|---|
| VideoModels.ParseStatus | backend/api/models.py:11-16 | a status code is read back to a status exactly when it is one of the four choices, and the status's code is that code |
| VideoModels.ParseStage | backend/api/models.py:18-24 | a stage code is read back exactly when it is one of the five choices, and the stage's code is that code |
| VideoModels.StageIndex | backend/api/models.py:18-24 | each stage has a position below 5 in the choice list |
| VideoModels.StageAt | backend/api/models.py:18-24 | the stage at a position has that position, so position and stage are inverse |
| Pipeline.Video.Save | backend/video_processor/pipeline.py:50 | `video.save()` appends a snapshot of the status, stage and error message, and changes none of them |
| Pipeline.FirstFailure | backend/video_processor/pipeline.py:43-234 | the first phase from a given one whose step raises, with that step's message; no earlier phase raises, and None means that no phase raises |
| Pipeline.StagesSaved | backend/video_processor/pipeline.py:48-214 | a run saves between one and five stage rows, one for each phase it enters |
| Pipeline.ExpectedSaves | backend/video_processor/pipeline.py:43-234 | the rows a run writes: one processing row for each stage reached, then one final row |
| Pipeline.StepsFrom | backend/video_processor/pipeline.py:80-94 | the phases of a range perform at most one step each |
| Pipeline.StepsFromMembers | backend/video_processor/pipeline.py:80-94 | a step is performed exactly when some phase in the range runs it |
| Pipeline.ProcessVideo | backend/video_processor/pipeline.py:32-234 | a failed lookup writes nothing and runs nothing; otherwise the saved rows are the expected rows of the first failure, the steps are those of the phases entered, and the embeddings file is updated only when the embedding phase is reached |
| Pipeline.ConvertAndTranscribe | backend/video_processor/pipeline.py:75-157 | the conversion and transcription phases: stages audio_converted and transcribed are saved, each step runs only when its output file is missing, and the run stops failed exactly when one of them raises |
| Pipeline.SkippablePhase | backend/video_processor/pipeline.py:76-94 | one of those two phases: its stage is saved; the step runs only when its output file is missing; the run stops failed, with the step's message and the rows and steps of a run failing there, exactly when that phase is where the run fails |
| Pipeline.EmbedAndPublish | backend/video_processor/pipeline.py:160-213 | the embedding phase: stage embedded, then the table update; a raise or a failed embedding request fails the run, otherwise the PDF phase follows and the embeddings file holds the appended rows |
| Pipeline.Publish | backend/video_processor/pipeline.py:212-224 | the PDF phase: stage pdf_generated, then completed, or failed with the message when PDF generation raises |
| Pipeline.MarkFailed | backend/video_processor/pipeline.py:227-234 | the except branch sets status failed and error_message to the message, keeps the stage and saves once |
| Pipeline.SavesFollowStageOrder | backend/video_processor/pipeline.py:48-214 | the saved rows are (processing, uploaded), (processing, audio_converted), … in stage order, up to the stage where the run stops |
| Pipeline.CompletedOnlyAfterPdf | backend/video_processor/pipeline.py:219-224 | completed is written once, as the last row, and only by a run in which no step raised, after the pdf_generated row |
| Pipeline.FailedCarriesMessage | backend/video_processor/pipeline.py:227-234 | a run ends failed exactly when some step it performs raises, and the last row then carries that step's message |
| Pipeline.SkipsExistingOutputs | backend/video_processor/pipeline.py:80-94 | conversion runs only when the audio file is missing and transcription only when the transcript file is missing; embedding is skipped only by a run that failed before it |
| EmbeddingStore.Keys | backend/video_processor/pipeline.py:170 | the set of (title, start) keys already embedded: every stored row's key, and nothing else |
| EmbeddingStore.MaxChunkId | backend/video_processor/pipeline.py:172-173 | the largest chunk id of a non-empty table: every id is at most it, and some row has it |
| EmbeddingStore.NextId | backend/video_processor/pipeline.py:166-174 | the first new id is 0 for a missing or empty table, otherwise one past the largest stored id |
| EmbeddingStore.NewChunks | backend/video_processor/pipeline.py:181 | exactly the transcript chunks, in order, whose key is not stored |
| EmbeddingStore.Texts | backend/video_processor/pipeline.py:185 | one text per new chunk, in chunk order |
| EmbeddingStore.Stamp | backend/video_processor/pipeline.py:196-201 | the zip of chunks and vectors: the i-th row holds the i-th chunk, id first + i and the i-th vector |
| EmbeddingStore.StampRows | backend/video_processor/pipeline.py:196-201 | the row-building loop produces exactly that zip |
| EmbeddingStore.EmbeddingFile.Update | backend/video_processor/pipeline.py:166-208 | reports whether there were new chunks; fails exactly when the embedding request fails; the file is rewritten, with the new rows appended, only when there were new chunks |
| EmbeddingStore.AppendedIds | backend/video_processor/pipeline.py:183-208 | the stored rows stay in front unchanged; the new rows get consecutive ids from next_id, each above every stored id |
| EmbeddingStore.AppendedKeepsIdsUnique | backend/video_processor/pipeline.py:183-208 | pairwise distinct stored ids stay pairwise distinct after the append |
| EmbeddingStore.AppendedStoresEveryKey | backend/video_processor/pipeline.py:183-208 | after an update in which every new chunk got a vector, every chunk of the transcript has its key stored |
| EmbeddingStore.SecondUpdateFindsNothingNew | backend/video_processor/pipeline.py:183-208 | running the update again on the same transcript finds no new chunk |
| EmbeddingStore.NewChunksConcat | backend/video_processor/pipeline.py:181 | the new-chunk filter distributes over concatenation, so it keeps the transcript order |
| UploadChecks.ValidateVideoFile | backend/api/views.py:53-62 | a file above 500·1024·1024 bytes is too large; otherwise the lower-cased extension must be .mp4/.mov/.avi/.mkv/.webm; the size is checked first |
| UploadChecks.AcceptedNameHasAllowedSuffix | backend/api/views.py:59-62 | an accepted file is at most the size bound and its lower-cased name ends with an allowed extension |
| UploadChecks.SizeBoundIsInclusive | backend/api/views.py:55-57 | exactly 500 MB is not too large, and one byte more is |
| UploadChecks.UpperCaseExtensionAccepted | backend/api/views.py:60-61 | the extension test ignores case and the directory part ("clips/Talk.MP4" is accepted) |
| UploadChecks.CreateError | backend/api/views.py:210-215 | no file part gives "No file provided"; otherwise the file validation's error |
| UploadChecks.YoutubeHostIgnoresCase | backend/api/views.py:76-77 | the host test gives the same answer for an upper-cased host |
| UploadChecks.EmptyHostRefused | backend/api/views.py:72-79 | an empty host and an unparsable URL are refused |
| UploadChecks.SubdomainAccepted | backend/api/views.py:76-77 | any host ending in youtube.com is accepted |
| UploadChecks.Clamp | backend/api/views.py:93-100 | the clamp lies within 0..100 and leaves values in that range unchanged |
| UploadChecks.MatchAt | backend/api/views.py:96 | a match of `(\d+(?:\.\d+)?)%` can start only at a digit |
| UploadChecks.Search | backend/api/views.py:96-98 | `re.search` finds the leftmost match; with no result no position matches |
| UploadChecks.ParseProgressPercent | backend/api/views.py:87-100 | None for a missing value and for a text without a match; a number is truncated and clamped; the result always lies within 0..100 |
| UploadChecks.PercentTextRoundTrip | backend/api/views.py:96-100 | the text "n%" reads back as n, capped at 100 |
| UploadChecks.NoPercentSignNoValue | backend/api/views.py:96-98 | a text without '%' gives no percent |
| YoutubeTasks.Apply | backend/api/views.py:85 | `dict.update`: the given keys take the given values, the others keep theirs; the id and creation time never change |
| YoutubeTasks.UpdateTouchesOnlyItsTask | backend/api/views.py:81-85 | an update keeps the set of ids, leaves every other task as it was, and leaves the table unchanged for an unknown id or an empty update |
| YoutubeTasks.DownloadPercent | backend/api/views.py:116-129 | a downloading event writes the parsed percent, or 0 when nothing can be parsed and the byte counts are missing or zero |
| YoutubeTasks.FinishedPath | backend/api/views.py:131-134 | the path recorded by the finished events is never empty |
| YoutubeTasks.ResolvePath | backend/api/views.py:154-164 | the recorded path when it names a file; otherwise the first file listed; an error exactly when neither exists |
| YoutubeTasks.FinalTitle | backend/api/views.py:171 | the custom title, else the info title, else the file name without its extension |
| YoutubeTasks.DownloadOutcome | backend/api/views.py:107-201 | a missing yt-dlp gives the dependency message; an extraction error gives its message; a created video needs every step to succeed and carries the new id and the custom title when one was given |
| YoutubeTasks.CreationFailsAfterValidation | backend/api/views.py:166-201 | the creation steps only run on a valid file; an exception there fails the task with its message, a late ImportError with the dependency message |
| YoutubeTasks.FinalUpdate | backend/api/views.py:181-201 | a failure sets failed, progress 0 and the message as both message and error; success sets processing, progress 100, the video id and the title |
| YoutubeTasks.YoutubeRequestError | backend/api/views.py:241-248 | a blank URL is refused first; otherwise a URL passes exactly when its host is a YouTube host |
| YoutubeTasks.QueuedRecord | backend/api/views.py:252-261 | the new record is queued with progress 0, no video id and no error, and titled with the stripped title |
| YoutubeTasks.TaskTable.constructor | backend/api/views.py:33 | the table starts empty |
| YoutubeTasks.TaskTable.UpdateTask | backend/api/views.py:81-85 | the table becomes the updated table |
| YoutubeTasks.TaskTable.UploadYoutube | backend/api/views.py:239-278 | a refused request gives 400 and changes nothing; an accepted one gives 202 and adds the queued record under the new id |
| YoutubeTasks.TaskTable.YoutubeStatus | backend/api/views.py:280-293 | 400 for a blank id, 404 for an unknown id, otherwise the task record |
| YoutubeTasks.TaskTable.RunDownloadTask | backend/api/views.py:102-201 | the table after the hook's updates, in order, followed by the final update |
| YoutubeTasks.EventsTouchOnlyTheirTask | backend/api/views.py:113-141 | replaying hook events keeps the set of ids and every other task |
| YoutubeTasks.DownloadEndState | backend/api/views.py:181-201 | after the task, a known task is failed with progress 0 and the error, or processing with progress 100 and the video id |
| YoutubeTasks.MissingDependencySkipsEvents | backend/api/views.py:195-198 | a missing yt-dlp fails the task with the dependency message and writes no progress |
| YoutubeTasks.HookProgressInRange | backend/api/views.py:116-129 | the progress parsed from an event's text lies within 0..100 |
| VideosByDate.WindowOf | backend/api/views.py:299-313 | start and end give [start, end]; a start alone gives [start, …); otherwise the last `days` days, 30 by default |
| VideosByDate.Selected | backend/api/views.py:304-313 | exactly the listed videos inside the window |
| VideosByDate.DistinctDays | backend/api/views.py:316-321 | the keys of the dict in insertion order: no day appears twice |
| VideosByDate.DistinctDaysMembers | backend/api/views.py:316-321 | the keys are exactly the days some video was uploaded on |
| VideosByDate.OnDay | backend/api/views.py:316-321 | every video in a day's list was uploaded on that day, and the list is no longer than the listing |
| VideosByDate.OnDayMembers | backend/api/views.py:316-321 | a day's list holds exactly the videos uploaded on it |
| VideosByDate.Label | backend/api/views.py:325-337 | "Today" exactly for today, "Yesterday" exactly for the day before, otherwise the date itself |
| VideosByDate.BucketsFor | backend/api/views.py:324-344 | one bucket per key, in key order |
| VideosByDate.ByDate | backend/api/views.py:295-346 | the response is the grouping of the selected videos |
| VideosByDate.GroupByDate | backend/api/views.py:316-344 | the two loops produce the buckets of the distinct days |
| VideosByDate.CollectGroups | backend/api/views.py:316-321 | the dict's keys are the distinct days in insertion order, and each key holds the videos of its day |
| VideosByDate.EmitBuckets | backend/api/views.py:324-344 | one response entry per dict item, in dict order |
| VideosByDate.EachVideoInOneBucket | backend/api/views.py:316-344 | every selected video lands in exactly one bucket, the one of its day; bucket dates are distinct and each count is the bucket's length |
| VideosByDate.CountsAddUp | backend/api/views.py:342 | the counts add up to the number of selected videos |
| VideosByDate.BucketsDescend | backend/api/views.py:317-328 | with the listing newest first, the buckets come in strictly descending date order |
| VideosByDate.WindowRule | backend/api/views.py:299-313 | the window keeps exactly the videos of its days; without a start it is open-ended |
| VideoActions.QueryGuard | backend/api/views.py:469-480 | a video that is not completed gets the not-complete error; a completed one passes exactly when the question is present and non-empty |
| VideoActions.AiChatGuard | backend/api/views.py:549-562 | the same two checks for ai_chat's message |
| VideoActions.StatusCheckedFirst | backend/api/views.py:469-480 | the status check comes before the text check, whatever the text |
| VideoActions.PdfDecision | backend/api/views.py:516-530 | refused exactly when not completed; the PDF is generated exactly when refresh is set or none is stored |
| VideoActions.RefreshIgnoresCase | backend/api/views.py:522 | refresh ignores case, is off when missing, and accepts only 1/true/yes |
| VideoActions.CutTranscript | backend/api/views.py:588-590 | a transcript of at most 12000 characters is kept; a longer one is cut to 12000 and the marker is appended |
| VideoActions.Kept | backend/api/views.py:604 | the number of history entries kept is at most 10 and at most the history's length |
| VideoActions.RecentHistory | backend/api/views.py:604 | `history[-10:]`: the last kept entries, in order |
| VideoActions.AsMessages | backend/api/views.py:604-608 | one message per entry, role defaulting to user and content to '' |
| VideoActions.AppendHistory | backend/api/views.py:604-608 | the loop over the history appends one message per entry, in order, after the messages already there |
| VideoActions.BuildMessages | backend/api/views.py:578-611 | the system prompt with the cut transcript, then the recent history, then the user's message |
| VideoActions.MessageOrder | backend/api/views.py:601-611 | system prompt first, user message last, at most 10 history messages between them, the latest ones, in order |
| QueryCache.Stem | backend/video_processor/query.py:55 | `rsplit('.', 1)[0]`: the name unchanged exactly when it has no '.', otherwise the part before the last '.' |
| QueryCache.BaseNameIgnoresDirectory | backend/video_processor/query.py:54-55 | the directory part of the stored path never affects the base name |
| QueryCache.FilterTitle | backend/video_processor/query.py:58 | every kept row has the title, and no row is added |
| QueryCache.FilterTitleMembers | backend/video_processor/query.py:58 | exactly the rows with the title are kept |
| QueryCache.FilterTitleConcat | backend/video_processor/query.py:58 | the filter distributes over concatenation, so it keeps table order |
| QueryCache.ScopeChoice | backend/video_processor/query.py:58-62 | the video's rows when some exist, otherwise the whole table; the search sees rows whenever the table has any |
| QueryCache.FilterTitleIdempotent | backend/video_processor/query.py:58 | filtering twice is filtering once |
| QueryCache.Timestamps | backend/video_processor/query.py:74-75 | the first result's start and end, or None exactly when there are no results |
| QueryCache.AnswerFrom | backend/video_processor/query.py:58-82 | the answer formats the search of the scope, and the span is that of the top result |
| QueryCache.EmbeddingsCache.constructor | backend/video_processor/query.py:17-18 | the cache and the stored mtime start empty |
| QueryCache.EmbeddingsCache.Fetch | backend/video_processor/query.py:38-51 | on a miss (no cache, or another mtime) the file is loaded: a successful load becomes the cache and its mtime is stored, a failed one leaves both as they were; on a hit the cached table is used and nothing is loaded |
| QueryCache.EmbeddingsCache.QueryVideo | backend/video_processor/query.py:21-82 | a video that is not completed is refused before the cache is touched; the file is loaded exactly when the cache is empty or the mtime differs, and the mtime is then stored; on a hit the cached table is used |
| Backfill.FirstMatch | backend/api/management/commands/backfill_youtube_urls.py:37-43 | `re.search`: the leftmost matching position; none before it; None means no position matches |
| Backfill.SearchGroup | backend/api/management/commands/backfill_youtube_urls.py:28-29 | a group found is 11 characters over [A-Za-z0-9_-] |
| Backfill.LastQualifying | backend/api/management/commands/backfill_youtube_urls.py:51-54 | a qualifying part of the list, and None only when no part qualifies |
| Backfill.ScanParts | backend/api/management/commands/backfill_youtube_urls.py:51-54 | the reversed scan with early return gives the last qualifying part |
| Backfill.Cascade | backend/api/management/commands/backfill_youtube_urls.py:36-54 | the three steps give None or an 11-character id |
| Backfill.ExtractYoutubeId | backend/api/management/commands/backfill_youtube_urls.py:32-56 | the function as written (step 2 searched on `name_no_ext + '.'`) or corrected (searched on `name_no_ext`), by the version chosen |
| Backfill.ResultShape | backend/api/management/commands/backfill_youtube_urls.py:28-53 | the result is None or an 11-character string over [A-Za-z0-9_-]; steps 2 and 3 never return an all-digit id |
| Backfill.DirectoriesIgnored | backend/api/management/commands/backfill_youtube_urls.py:34 | directories in front of the name change nothing |
| Backfill.StepTwoAsWrittenNeverMatches | backend/api/management/commands/backfill_youtube_urls.py:29-43 | the underscore pattern never matches a text that ends in '.' |
| Backfill.BracketedFormFound | backend/api/management/commands/backfill_youtube_urls.py:36-39 | "Title [ID].ext" gives ID, both as written and corrected |
| Backfill.UnderscoreFormFound | backend/api/management/commands/backfill_youtube_urls.py:11-48 | "Title_ID.ext" gives ID in the corrected function |
| Backfill.UnderscoreIdMissedAsWritten | backend/api/management/commands/backfill_youtube_urls.py:42-54 | for an id containing '_', the code as written finds nothing and the corrected function finds the id |
| Backfill.AsWrittenMisses | backend/api/management/commands/backfill_youtube_urls.py:42-54 | as written, such a name gives None |
| Backfill.NoPieceQualifies | backend/api/management/commands/backfill_youtube_urls.py:51-54 | step 3 finds no piece for a title that is not 11 long followed by an id containing '_' |
| Backfill.UnderscoreIdExample | backend/api/management/commands/backfill_youtube_urls.py:11-12 | "Talk_abc_defghij.mp4" has that shape |
| Backfill.Backfilled | backend/api/management/commands/backfill_youtube_urls.py:94-119 | a row changes only when it is selected, the chosen version of the extractor finds an id and the run is not dry; it then gets the watch URL of that id |
| Backfill.BackfilledAll | backend/api/management/commands/backfill_youtube_urls.py:94-119 | the rows are processed one by one |
| Backfill.PointwiseBackfilled | backend/api/management/commands/backfill_youtube_urls.py:94-119 | a table that agrees with the backfill row by row is the backfilled table |
| Backfill.HandleRow | backend/api/management/commands/backfill_youtube_urls.py:94-119 | one loop iteration, for either version of the extractor: the new row, whether the row was selected, and whether an id was found for it |
| Backfill.VideoTable.Handle | backend/api/management/commands/backfill_youtube_urls.py:74-127 | for the command as written and for the corrected one: updated counts the selected rows whose id that extractor finds; updated + skipped counts the selected rows; the rows become the backfilled rows |
| Backfill.BackfillRules | backend/api/management/commands/backfill_youtube_urls.py:80-117 | for either extractor: a dry run changes no row; without --all a row with a URL is never touched; a changed row has the watch URL of the id that extractor finds |
| Backfill.CountsSplitSelection | backend/api/management/commands/backfill_youtube_urls.py:80-91 | found ≤ selected ≤ iterated, and with --all every row is selected |
| Backfill.CommandSkipsUnderscoreId | backend/api/management/commands/backfill_youtube_urls.py:94-119 | a selected row named "Title_ID.ext" whose id has an '_' is not found and not changed by the command as written; the corrected command finds it and writes its watch URL |
| Admin.QuestionPreview | backend/api/admin.py:23-24 | at most 50 characters are shown whole; a longer question is cut to 50 and '...' is appended; the preview starts with the first min(50, len) characters and has at most 53 |
| Admin.PreviewIdempotent | backend/api/admin.py:23-24 | previewing a preview changes nothing |
| Admin.LongPreviewsAgreeOnPrefix | backend/api/admin.py:23-24 | two long questions share a preview exactly when their first 50 characters agree |
| Admin.PreviewFixedPoints | backend/api/admin.py:23-24 | the preview is the question itself exactly when the question has at most 50 characters, or ends in '...' after 50 |
| UploadPage.NewItem | frontend/src/pages/Upload.jsx:15-21 | a new item has its id and file, progress 0, status uploading and message 'Uploading...' |
| UploadPage.Apply | frontend/src/pages/Upload.jsx:26-43 | progress sets only the progress; success sets processing, 'Processing...' and 100; failure sets failed and the error, keeping the progress |
| UploadPage.MapId | frontend/src/pages/Upload.jsx:27-39 | the map keeps the length and changes exactly the items with the id |
| UploadPage.Without | frontend/src/pages/Upload.jsx:56 | no remaining item has the id, and no item is added |
| UploadPage.WithoutMembers | frontend/src/pages/Upload.jsx:56 | exactly the items without the id remain |
| UploadPage.WithoutConcat | frontend/src/pages/Upload.jsx:56 | removal keeps the order of the remaining items |
| UploadPage.WithoutAbsent | frontend/src/pages/Upload.jsx:56 | removing an id no item has changes nothing |
| UploadPage.WithoutIdempotent | frontend/src/pages/Upload.jsx:56 | removing twice is removing once |
| UploadPage.MapIdTouchesOnlyItsItems | frontend/src/pages/Upload.jsx:27-39 | items with another id are unchanged, no item moves, and an absent id changes nothing |
| UploadPage.RoundedPercent | frontend/src/pages/Upload.jsx:26 | `Math.round(loaded·100/total)`: the nearest whole percent, halves rounded up |
| UploadPage.RoundedPercentRange | frontend/src/pages/Upload.jsx:26 | for loaded ≤ total the percent lies within 0..100; it is 100 at the end and 0 at the start |
| UploadPage.BadgeVariant | frontend/src/pages/Upload.jsx:87-90 | error exactly for failed, warning exactly for processing, info exactly for uploading |
| UploadPage.Queue.constructor | frontend/src/pages/Upload.jsx:11 | the queue starts empty |
| UploadPage.Queue.Enqueue | frontend/src/pages/Upload.jsx:23 | one new item is appended |
| UploadPage.Queue.Drop | frontend/src/pages/Upload.jsx:13-23 | each dropped file appends one new item, in order, after the existing items |
| UploadPage.Queue.Progress | frontend/src/pages/Upload.jsx:25-29 | the rounded percent is written on the items with the id only |
| UploadPage.Queue.Succeed | frontend/src/pages/Upload.jsx:31-36 | the success update is applied to the items with the id only |
| UploadPage.Queue.Fail | frontend/src/pages/Upload.jsx:38-43 | the failure update is applied to the items with the id only |
| UploadPage.Queue.Remove | frontend/src/pages/Upload.jsx:55-57 | the queue loses exactly the items with the id |
| ChatSession.Restored | frontend/src/pages/Chat.jsx:29-48 | the stored array when the key holds one, otherwise the empty list |
| ChatSession.Session.constructor | frontend/src/pages/Chat.jsx:16-19 | empty list, not hydrated, empty input, not loading |
| ChatSession.Session.Hydrate | frontend/src/pages/Chat.jsx:29-48 | the list becomes the restored list and hydration is marked done, whatever is stored |
| ChatSession.Session.Persist | frontend/src/pages/Chat.jsx:51-61 | the list is written under the key only after hydration; before it storage is unchanged |
| ChatSession.Session.BeginSend | frontend/src/pages/Chat.jsx:96-102 | a blank input or a request in flight changes nothing; otherwise the user's message is appended, the input cleared and loading set |
| ChatSession.Session.FinishSend | frontend/src/pages/Chat.jsx:112-120 | exactly one reply is appended and loading ends |
| ChatSession.Session.Clear | frontend/src/pages/Chat.jsx:123-130 | only a confirmed clear empties the list and removes the key |
| ChatSession.Mount | frontend/src/pages/Chat.jsx:29-61 | after mounting the list is the restored one and hydration is done; a stored array is left as it was |
| ChatSession.Send | frontend/src/pages/Chat.jsx:96-121 | a send appends the user's message and exactly one reply; a refused send changes nothing |
| ChatSession.BlankIffTrimEmpty | frontend/src/pages/Chat.jsx:97 | `trim()` gives '' exactly when the input is whitespace only |
| ChatPage.ChatKey | frontend/src/pages/Chat.jsx:14 | the key is the prefix followed by the video id |
| ChatPage.ChatKeyInjective | frontend/src/pages/Chat.jsx:14 | two videos share a key exactly when they are the same video |
| ChatPage.Clock | frontend/src/pages/Chat.jsx:67-71 | minutes, ':' and two digits of the seconds |
| ChatPage.FormatTimeIsClock | frontend/src/pages/Chat.jsx:67-71 | for a nonnegative time, formatTime shows floor(s/60), ':' and the two-digit zero-padded floor(s mod 60) |
| ChatPage.TimestampLabel | frontend/src/pages/Chat.jsx:187 | a missing (null) end time shows as "0:00" |
| ChatPage.TimestampLabelClocks | frontend/src/pages/Chat.jsx:67-71 | for non-negative times the label is the start's and the end's minutes:two-digit seconds, the end "0:00" when missing |
| ChatPage.TimestampAsWritten | frontend/src/pages/Chat.jsx:180-190 | the rendering as written: nothing for a missing start, the text "0" for a start of 0, otherwise the time label |
| ChatPage.TimestampText | frontend/src/pages/Chat.jsx:180-190 | the time label shown whenever the answer has a start, 0 included |
| ChatPage.ZeroStartShowsZero | frontend/src/pages/Chat.jsx:180-190 | an answer starting at 0 s shows a stray "0" as written and "0:00 – …" when corrected |
| ChatPage.TimestampTextShownIffStart | frontend/src/pages/Chat.jsx:180-190 | the corrected label is shown exactly when a start exists, and matches the rendering as written for every start other than 0 |
| ChatPage.PdfUrl | frontend/src/pages/Chat.jsx:73-77 | '' for a missing or empty path; an http URL unchanged; otherwise prefixed with the backend origin |
| ChatPage.PdfUrlAbsolute | frontend/src/pages/Chat.jsx:73-77 | every link is '' or starts with http, and resolving twice is resolving once |
| ChatPage.OpenPdf | frontend/src/pages/Chat.jsx:79-94 | a failed request gives the could-not-open alert; a missing file gives the not-available alert; otherwise an absolute URL is opened |
| ChatPage.QueryReply | frontend/src/pages/Chat.jsx:104-117 | the answer with its timestamps, or the fixed apology without timestamps |
| ChatPage.ApologyHasNoTimestamp | frontend/src/pages/Chat.jsx:113-117 | a failed query never shows a timestamp |
| ChatPage.HandleSend | frontend/src/pages/Chat.jsx:96-121 | a send posts the typed text to the query route and appends the user's message and the reply; a refused send posts nothing and changes nothing |
| AiChatPanel.AiKey | frontend/src/components/AIChatPanel.jsx:45 | the key is the panel's prefix followed by the video id |
| AiChatPanel.KeysNeverShared | frontend/src/components/AIChatPanel.jsx:45 | the panel's key never equals any chat page key |
| AiChatPanel.HistoryOf | frontend/src/components/AIChatPanel.jsx:101-104 | the {role, content} of each message, in order |
| AiChatPanel.SentHistoryIsEarlierMessages | frontend/src/components/AIChatPanel.jsx:94-106 | the history sent is every earlier message, without the one just typed |
| AiChatPanel.HistoryReadBack | frontend/src/components/AIChatPanel.jsx:101-106 | the backend reads each sent entry back as the same role and content |
| AiChatPanel.AssistantText | frontend/src/components/AIChatPanel.jsx:108-117 | the reply, or the warning sign with the server's error, or the warning sign with the default text |
| AiChatPanel.AssistantMessage | frontend/src/components/AIChatPanel.jsx:108-117 | an assistant message with that text and no timestamps |
| AiChatPanel.CallAiChat | frontend/src/components/AIChatPanel.jsx:106 | calling a member the object lacks throws before any request, so the server's outcome is replaced by no response |
| AiChatPanel.AiChatAlwaysFailsAsWritten | frontend/src/components/AIChatPanel.jsx:106 | as written, every send ends with the default error text, whatever the backend would answer |
| AiChatPanel.AiChatRepaired | frontend/src/components/AIChatPanel.jsx:106-111 | with aiChat defined, the backend's reply reaches the panel |
| AiChatPanel.HandleSend | frontend/src/components/AIChatPanel.jsx:90-121 | a send appends the user's message and exactly one assistant message, and sends the earlier history when aiChat exists; a refused send changes nothing |
| Markdown.LineLen | frontend/src/components/AIChatPanel.jsx:21-31 | the length of the first line, which a line terminator follows |
| Markdown.ReplaceChar | frontend/src/components/AIChatPanel.jsx:17-19 | a replaced character no longer occurs when the replacement lacks it |
| Markdown.ReplaceCharConcat | frontend/src/components/AIChatPanel.jsx:17-19 | the replacement distributes over concatenation |
| Markdown.ReplaceCharAbsent | frontend/src/components/AIChatPanel.jsx:17-19 | a character that does not occur is not replaced |
| Markdown.EscapeChar | frontend/src/components/AIChatPanel.jsx:17-19 | the escape of one character contains no '<' and no '>' |
| Markdown.Escape | frontend/src/components/AIChatPanel.jsx:17-19 | the escaped text contains no '<' and no '>' |
| Markdown.EscapeHtmlIsEscape | frontend/src/components/AIChatPanel.jsx:17-19 | because '&' is replaced first, the three replacements escape each character once |
| Markdown.UnescapeEscape | frontend/src/components/AIChatPanel.jsx:17-19 | the escaped text decodes back to the reply's text |
| Markdown.DigitRun | frontend/src/components/AIChatPanel.jsx:31 | the leading run of decimal digits |
| Markdown.Marker | frontend/src/components/AIChatPanel.jsx:21-31 | the length of a line rule's marker at a line start |
| Markdown.Attempt | frontend/src/components/AIChatPanel.jsx:21-31 | a line rule's match ends at the end of the line |
| Markdown.Find | frontend/src/components/AIChatPanel.jsx:25-27 | the lazy `(.+?)` stops at the first closing delimiter within the line |
| Markdown.Item | frontend/src/components/AIChatPanel.jsx:36 | one `<li>…</li>(<br/>)?` repetition has at least 9 characters |
| Markdown.Run | frontend/src/components/AIChatPanel.jsx:36 | the run of items at the start of the text |
| Markdown.FormatMarkdown | frontend/src/components/AIChatPanel.jsx:12-42 | a falsy input gives '' |
| Markdown.LinePassOneLine | frontend/src/components/AIChatPanel.jsx:21-31 | on one line a line rule rewrites the whole line or leaves it |
| Markdown.LinePassSplit | frontend/src/components/AIChatPanel.jsx:21-31 | a line rule rewrites each side of a line terminator on its own |
| Markdown.DelimitedMatches | frontend/src/components/AIChatPanel.jsx:25-27 | a delimited run whose content has no delimiter is replaced |
| Markdown.HeadingLevels | frontend/src/components/AIChatPanel.jsx:21-23 | "### ", "## " and "# " lines become h4, h3 and h2; the rules are tried longest first |
| Markdown.SmallHeading | frontend/src/components/AIChatPanel.jsx:21 | a "### " line becomes an h4, which the shorter rules leave |
| Markdown.MiddleHeading | frontend/src/components/AIChatPanel.jsx:22 | a "## " line is passed by the "### " rule and becomes an h3, which the "# " rule leaves |
| Markdown.LargeHeading | frontend/src/components/AIChatPanel.jsx:23 | a "# " line is passed by the two longer rules and becomes an h2 |
| Markdown.BoldItalicFirst | frontend/src/components/AIChatPanel.jsx:25-27 | `***x***` becomes bold italic, because the triple rule runs first |
| Markdown.BoldNotItalic | frontend/src/components/AIChatPanel.jsx:25-27 | `**x**` becomes bold |
| Markdown.PlainPassesThrough | frontend/src/components/AIChatPanel.jsx:12-42 | a one-line reply without markup is shown as it is |
| Markdown.BulletLine | frontend/src/components/AIChatPanel.jsx:29 | a bullet line becomes one item |
| Markdown.BulletsToItems | frontend/src/components/AIChatPanel.jsx:29 | two bullet lines become two items |
| Markdown.ItemsNotNumbered | frontend/src/components/AIChatPanel.jsx:31 | list items do not start with a digit, so the numbered rule leaves them |
| Markdown.LineBreakBetween | frontend/src/components/AIChatPanel.jsx:33 | the line break between two lines becomes `<br/>` |
| Markdown.TwoItemsWrapped | frontend/src/components/AIChatPanel.jsx:36-39 | two items separated by `<br/>` become one list, without the `<br/>` |
| Markdown.BulletRun | frontend/src/components/AIChatPanel.jsx:12-42 | consecutive bullet lines become one list of their items |
| Markdown.NumberedMarkerTakesNextLine | frontend/src/components/AIChatPanel.jsx:31 | the `\s` after a numbered marker also matches a line break, so "1." followed by a newline and a line makes that line an item |
| DateNavigator.QuickDays | frontend/src/components/DateNavigator.jsx:17-37 | today 1, yesterday 2, week 7, month 30, all 365, anything else 1 |
| DateNavigator.QuickParams | frontend/src/components/DateNavigator.jsx:39 | a quick filter emits exactly {days, filter} |
| DateNavigator.SubmitParams | frontend/src/components/DateNavigator.jsx:47-57 | the single date when set, otherwise the range when both ends are set, otherwise nothing |
| DateNavigator.Navigator.constructor | frontend/src/components/DateNavigator.jsx:7-10 | month active, panel closed, no date and no range |
| DateNavigator.Navigator.QuickFilter | frontend/src/components/DateNavigator.jsx:12-40 | the filter becomes active, the panel closes, the dates stay, and the quick params are emitted |
| DateNavigator.Navigator.ToggleCustom | frontend/src/components/DateNavigator.jsx:42-45 | the panel toggles and custom becomes active |
| DateNavigator.Navigator.SetCustomDate | frontend/src/components/DateNavigator.jsx:99-102 | setting the single date clears the range |
| DateNavigator.Navigator.SetRangeStart | frontend/src/components/DateNavigator.jsx:116-119 | setting the start clears the single date |
| DateNavigator.Navigator.SetRangeEnd | frontend/src/components/DateNavigator.jsx:128-131 | setting the end clears the single date |
| DateNavigator.Navigator.Submit | frontend/src/components/DateNavigator.jsx:47-57 | Apply emits the submit params, and emits exactly when the button is enabled |
| DateNavigator.ReceivedQuery | backend/api/views.py:299-313 | how by_date reads the query string: no start and no days give the default window |
| DateNavigator.QuickFilterWindow | frontend/src/components/DateNavigator.jsx:12-39 | a quick filter reaches the server as the window of its last days |
| DateNavigator.SingleDateDroppedAsWritten | frontend/src/components/DateNavigator.jsx:49 | as written, a single date reaches by_date as the default 30-day window |
| DateNavigator.SingleDateForwardedRepaired | frontend/src/components/DateNavigator.jsx:49 | with the date forwarded as a one-day range, by_date selects exactly that day's videos |
| ApiClient.ByDatePairs | frontend/src/services/api.js:46-51 | the appends produce the query entries |
| ApiClient.ByDateEntries | frontend/src/services/api.js:46-51 | at most three entries |
| ApiClient.Lookup | frontend/src/services/api.js:51 | the first value under a key, and None only when no entry has the key |
| ApiClient.ByDateEntriesRule | frontend/src/services/api.js:46-51 | start_date, end_date and days are each sent exactly when truthy, in that order; date and filter are never sent |
| ApiClient.LookupConcat | frontend/src/services/api.js:51 | a key is looked up in the first part of a concatenation, then in the second |
| ApiClient.ByDateEntriesForwardingDate | frontend/src/services/api.js:46-51 | the repaired builder is unchanged when no single date is set without a start |
| ApiClient.ForwardedDateIsRange | frontend/src/services/api.js:46-51 | the repaired builder sends the single date as both start_date and end_date |
| ApiClient.DailyStatsPath | frontend/src/services/api.js:54 | days defaults to 30 |
| ApiClient.UploadForm | frontend/src/services/api.js:20-23 | exactly two fields: the file, then its name as the title |
| History.TotalVideos | frontend/src/pages/History.jsx:59 | the reduce gives the sum of the days' counts |
| History.ReduceAddsCounts | frontend/src/pages/History.jsx:59 | the reduce from an accumulator adds the counts to it |
| History.TotalIsVideoCount | frontend/src/pages/History.jsx:59 | on by_date's buckets the total is the number of videos |
| History.ReplaceFirst | frontend/src/pages/History.jsx:93 | the replacement keeps the length and leaves a string without the pattern unchanged |
| History.ReplaceFirstOnlyFirst | frontend/src/pages/History.jsx:93 | only the first '_' is replaced; every other character is kept, later '_' included |
| History.SummaryText | frontend/src/pages/History.jsx:92-93 | "Showing N video(s)", with " from <filter>" only for a truthy filter |
| History.NavigatorFiltersShownVerbatim | frontend/src/pages/History.jsx:93 | the navigator's filters contain no '_', so the summary names them as they are |
| History.Loaded | frontend/src/pages/History.jsx:19-23 | the response's data, or [] when it is falsy or the request failed |
| History.HistoryPage.constructor | frontend/src/pages/History.jsx:11-14 | no days, loading, the 30-day month filter, not refreshing |
| History.HistoryPage.Load | frontend/src/pages/History.jsx:16-27 | requests the params' path; the list becomes the loaded days; loading ends either way |
| History.HistoryPage.DateChange | frontend/src/pages/History.jsx:33-36 | the selection becomes the current filter and is loaded |
| History.HistoryPage.Refresh | frontend/src/pages/History.jsx:38-42 | the current filter is loaded again and refreshing ends off |
| History.HistoryPage.Delete | frontend/src/pages/History.jsx:44-57 | a declined delete does nothing; a failed one alerts and keeps the list; a successful one reloads the current filter |
| History.Open | frontend/src/pages/History.jsx:29-31 | the first load is for the initial 30-day filter |
| History.FailedLoadShowsNone | frontend/src/pages/History.jsx:16-27 | a failed load shows "Showing 0 videos" |
| Dashboard.StatusVariant | frontend/src/pages/Dashboard.jsx:57-65 | completed success, processing warning, failed error, anything else info |
| Dashboard.VariantNamesStatus | frontend/src/pages/Dashboard.jsx:57-65 | success, warning and error each belong to exactly one status |
| Dashboard.ActionsExclusive | frontend/src/pages/Dashboard.jsx:128-146 | Chat/PDF only for completed, Delete only for failed, never both, neither while uploading or processing |
| Dashboard.Recent | frontend/src/pages/Dashboard.jsx:117 | at most the first five videos, in order |
| Dashboard.RecentOfLonger | frontend/src/pages/Dashboard.jsx:117 | the slice is idempotent and keeps its cards when videos are appended |
| Dashboard.WithoutId | frontend/src/pages/Dashboard.jsx:47 | no remaining card has the id, and no card is added |
| Dashboard.WithoutIdMembers | frontend/src/pages/Dashboard.jsx:47 | exactly the videos with another id remain |
| Dashboard.WithoutIdConcat | frontend/src/pages/Dashboard.jsx:47 | the filter keeps the order of what remains |
| Dashboard.WithoutIdAbsent | frontend/src/pages/Dashboard.jsx:47 | a list without the id stays as it is |
| Dashboard.WithoutIdRemovesOne | frontend/src/pages/Dashboard.jsx:47 | removing the single card with an id closes the list up around it |
| Dashboard.PayloadVideos | frontend/src/pages/Dashboard.jsx:29 | the paginated results, or the bare list |
| Dashboard.DashboardPage.constructor | frontend/src/pages/Dashboard.jsx:13-20 | zero stats, no videos, loading |
| Dashboard.DashboardPage.Load | frontend/src/pages/Dashboard.jsx:22-33 | each present part of the response is taken; a failure changes nothing; loading ends |
| Dashboard.DashboardPage.Delete | frontend/src/pages/Dashboard.jsx:39-55 | a declined or failed delete keeps the list; a successful one drops the id and takes the reloaded stats; the alert shows when the delete or the reload fails |
| DailyBucket.StatusVariant | frontend/src/components/DailyBucket.jsx:12-19 | completed success, processing warning, failed error, anything else info |
| DailyBucket.SameVariantsAsDashboard | frontend/src/components/DailyBucket.jsx:12-19 | the day view and the dashboard badge every status alike |
| DailyBucket.VideoNoun | frontend/src/components/DailyBucket.jsx:39 | "video" or "videos" |
| DailyBucket.NounSingularIffOne | frontend/src/components/DailyBucket.jsx:39 | "video" exactly for a count of 1 |
| DailyBucket.CountLabel | frontend/src/components/DailyBucket.jsx:39 | the count, a space and the noun, ending in 's' exactly when the count is not 1 |
| DailyBucket.DeleteOfferedWider | frontend/src/components/DailyBucket.jsx:72-92 | Chat/PDF only for completed; Delete for failed or completed |
| DailyBucket.DeleteCall | frontend/src/components/DailyBucket.jsx:22-26 | the page's handler gets the id and title exactly when one was given |
| DailyBucket.DurationAsWritten | frontend/src/components/DailyBucket.jsx:63-67 | the rendering as written: nothing when missing, the text "0" for 0, otherwise minutes and seconds |
| DailyBucket.ZeroDurationShowsZero | frontend/src/components/DailyBucket.jsx:63-67 | a zero duration shows a stray "0" as written and nothing when corrected |
| DailyBucket.DurationText | frontend/src/components/DailyBucket.jsx:63-66 | the duration shown only when truthy |
| DailyBucket.DurationReadsMinutesSeconds | frontend/src/components/DailyBucket.jsx:63-66 | nothing exactly for a missing or zero duration; n seconds read as n/60 "m " n%60 "s", the seconds below 60 |
| ProcessingScreen.Next | frontend/src/components/ProcessingScreen.jsx:8-12 | (i+1) mod len, and NaN for an empty list or a NaN index |
| ProcessingScreen.AfterEndsCycles | frontend/src/components/ProcessingScreen.jsx:5-12 | after k ends the clip at k mod len plays; with no clips the index is NaN after the first end |
| ProcessingScreen.FullCycleReturns | frontend/src/components/ProcessingScreen.jsx:8-12 | len ends bring the loop back to the first clip |
| ProcessingScreen.Player.constructor | frontend/src/components/ProcessingScreen.jsx:5 | the index starts at 0 |
| ProcessingScreen.Player.Source | frontend/src/components/ProcessingScreen.jsx:48 | the clip at the index, or undefined outside the list |
| ProcessingScreen.Player.VideoEnded | frontend/src/components/ProcessingScreen.jsx:8-12 | the index advances, and stays on a clip once it is on one |
| ProcessingScreen.FreshPlayerValid | frontend/src/components/ProcessingScreen.jsx:5-12 | with a nonempty list every later index is below len |
| ProcessingScreen.StageOrDefault | frontend/src/components/ProcessingScreen.jsx:4 | the stage defaults to 'uploaded' |
| ProcessingScreen.StageText | frontend/src/components/ProcessingScreen.jsx:21-35 | the line for each stage code; embedded and pdf_generated share "Finalizing..."; any other code gives "Processing..." |
| ProcessingScreen.StageTextsOfPipeline | frontend/src/components/ProcessingScreen.jsx:21-35 | no pipeline stage shows the generic line; two stages share a line exactly when they are equal or both are past transcribed; the default shows the uploaded line |
| Profile.Firsts | frontend/src/pages/Profile.jsx:25 | at most one character per piece |
| Profile.FirstsConcat | frontend/src/pages/Profile.jsx:25 | first characters distribute over concatenation |
| Profile.NoWordsNoInitials | frontend/src/pages/Profile.jsx:25 | '' and names of spaces only have no initials |
| Profile.OneWord | frontend/src/pages/Profile.jsx:25 | a single word gives its first character upper-cased |
| Profile.WordThenRest | frontend/src/pages/Profile.jsx:25 | a word contributes its first character before the rest's initials; an empty segment contributes nothing |
| Profile.InitialsOfWords | frontend/src/pages/Profile.jsx:25 | words joined by spaces give the upper-cased first characters of the nonempty words, in order |
| Profile.FirstsOfWords | frontend/src/pages/Profile.jsx:25 | with no empty word there is one initial per word, the k-th being the k-th word's first character |
| Profile.InitialsUpperCase | frontend/src/pages/Profile.jsx:25 | the result is already upper-case |

## Left out

- The background threads and the lock are left out: `process_video_async` and the download thread with `YOUTUBE_DOWNLOAD_LOCK`. Task updates and pipeline runs are sequential calls.
- ffmpeg, ffprobe, Groq, Ollama, yt-dlp, joblib and pandas are not modelled. Their results are parameters: raised messages, chunk lists, embedding results and extraction results.
- `clean_filename`, `search_chunks`, `format_chat_answer` and `urlparse` are function-typed parameters. Their own behaviour is not modelled.
- `localStorage`, `window.confirm`, `alert` and `window.open` are inputs or outputs of the handlers. `JSON.parse` is an input classifying what is stored.
- Dates are day numbers, and the clock is a parameter. Time zones, `strftime`, `toLocaleDateString` and `toLocaleTimeString` are not modelled, and neither is the Dashboard's "Today's Conversions" count.
- Floating-point numbers are `real`. Rounding errors, NaN arithmetic beyond the processing-screen index, and `toFixed` are not modelled.
- The segment offsets and processing hours of the pipeline and the stats view are left out, because they are floating-point bookkeeping.
- YoutubeTasks.DownloadPercent: the byte-ratio fallback of views.py:122 is not clamped and is computed with floats. The contract states only the parsed case and the zero cases.
- by_date with a `days` value that `int()` cannot read (views.py:312) raises, and the resulting server error is not modelled: the window takes `days` already parsed.
- URL encoding by `URLSearchParams` is not modelled. Values are dates and numbers, which need no escaping.
- Upper- and lower-casing are ASCII only. JavaScript's full Unicode `toUpperCase` and UTF-16 code units are not modelled.
- The variants lookup `variants[status]` is modelled for string statuses only. Inherited object keys such as "constructor" are not modelled.
- UploadPage.Queue.Progress: requires a nonzero total. A ProgressEvent with total 0 makes the source compute NaN or Infinity, which the model does not represent.
- ChatPage.FormatTimeIsClock: proved for nonnegative times only. For negative times JavaScript's `%` gives a negative remainder, which the model computes but does not characterise.
- The markdown transform is proved on whole shapes: plain text, headings, emphasis, bullet runs and the numbered-marker case. Its behaviour on arbitrary mixed input is defined but not characterised.
- History's `loadData` default `{ days: 1 }` is never used, because every call passes a filter, so it is not modelled.
- PDFViewer.jsx is not part of this model. Its fetch and save logic is browser I/O, and its URL helper repeats `getPdfUrl`.
- The remaining backend views are not modelled: listing, destroy with file deletion, daily_stats and profile stats. The declarative files (serializers, URLs, settings) are not modelled either.
- The Dashboard alerts "Failed to delete video" when the delete succeeded but the stats reload failed. The model states this as the source does it (Dashboard.DashboardPage.Delete); it is not listed as a finding.

## Findings

| source | as written | input that shows it | evidently intended | confidence | as-written member | corrected member |
|---|---|---|---|---|---|---|
| backend/api/management/commands/backfill_youtube_urls.py:42-48 | step 2 searches `_([A-Za-z0-9_-]{11})(?:\.[^.]+)?$` on `name_no_ext + '.'`, which ends in '.', so it never matches; step 3 splits on '_' and misses ids that contain '_' | "Talk_abc_defghij.mp4" gives None | "Title_ID.ext" gives ID, as the module's doc comment says | not executed | Backfill.UnderscoreIdMissedAsWritten | Backfill.UnderscoreFormFound |
| frontend/src/services/api.js:46-51 | `getVideosByDate` forwards only start_date, end_date and days, so the `{date, filter}` that Apply emits for a single date reaches by_date as the default 30-day window | a single date "2024-05-01" picked in the custom panel | the chosen day alone is shown | not executed | DateNavigator.SingleDateDroppedAsWritten | DateNavigator.SingleDateForwardedRepaired |
| frontend/src/components/AIChatPanel.jsx:106 | `videoAPI.aiChat` is called but api.js defines no such member, so the call throws and every send shows the default error | any message sent in the AI panel | the message and history are posted to the ai_chat action and its reply is shown | not executed | AiChatPanel.AiChatAlwaysFailsAsWritten | AiChatPanel.AiChatRepaired |
| frontend/src/components/DailyBucket.jsx:63-67 | `{video.duration_seconds && …}` renders the number 0 when the duration is 0 | a video with duration_seconds 0 shows "0" beside its badge | nothing is shown for a zero duration | not executed | DailyBucket.ZeroDurationShowsZero | DailyBucket.DurationReadsMinutesSeconds |
| frontend/src/pages/Chat.jsx:180-190 | `{msg.timestamp_start && …}` renders the number 0 when the answer's top result starts at 0 s, and hides its timestamp | an answer drawn from a transcript's first chunk, whose start is 0 (backend/video_processor/query.py:74) | the label "0:00 – …" is shown for every answer that has a start | not executed | ChatPage.ZeroStartShowsZero | ChatPage.TimestampTextShownIffStart |
