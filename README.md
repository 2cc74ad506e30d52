# YouTube downloader: a verified model of its download core

This project models, in Dafny, the core of a Python YouTube downloader:

- the error classifier, the retry policy and the retry wrapper (`downloader/error_handling.py`);
- the per-download progress records, the tracker that maps URLs to records, the resume store and the history ledger (`downloader/progress.py`);
- the configuration, its profiles, the environment overrides, the yt-dlp format selector and the yt-dlp option set (`downloader/config.py`);
- the download manager: the priority queue, the admission of tasks, the completion handler, pause, resume and cancel, and the flow of one download (`downloader/core.py`);
- the file-name and URL helpers (`downloader/utils.py`, repeated in `youtube.py`);
- the pure helpers of the interactive downloader (`youtube.py`): the quality parser, its format selector, the codec partition of formats, the height de-duplication, the archive reader and the playlist sync report.

The model and its proofs are organized in these modules:

| file | module | models |
|---|---|---|
| wrappers.dfy | Wrappers | `Option`, `Result` |
| text.dfy | Text | ASCII `lower`, `in` on strings, `replace`, `lstrip`, `split()[-1]`, `join`, `str(int)`, `int(str)` on ASCII text |
| lists.dfy | Lists | list comprehensions with a condition, Python slice ends |
| sorting.dfy | Sorting | `sort(key=..., reverse=True)` on (number, number) keys |
| formats.dfy | FormatSelectors | the `^(\d{3,4})p$` height pattern and the shared selector texts |
| config.dfy | Config | `DownloadConfig`, `DownloadProfile`, `ConfigManager` |
| query.dfy | QueryStrings | `parse_qs`, `quote_plus`, `urlencode` on the pairs the URL helper uses |
| urls.dfy | Urls | `sanitize_filename`, `normalize_youtube_url`, `is_valid_youtube_url`, `is_playlist_url` |
| error_handling.dfy | ErrorHandling | `ErrorCategory`, `ErrorClassifier`, `RetryStrategy`, `ErrorHandler`, `with_retry`, `FallbackExtractor` |
| progress.dfy | Progress | `DownloadState`, `DownloadProgress`, `ProgressTracker`, `StateManager`, `DownloadHistory` |
| tasks.dfy | DownloadTasks | `DownloadPriority`, `DownloadTask`, its order, the batch of tasks |
| core.dfy | Core | `DownloadManager` |
| youtube.dfy | Youtube | quality, selector, formats, archive, sync |

The model takes the source's own form:

- Objects whose fields the source updates in place are classes: `DownloadProgress`, `ProgressTracker`, `StateManager`, `DownloadHistory`, `ErrorHandler`, `FallbackExtractor`, `ConfigManager` and `DownloadManager`.
- Each method of these classes states its new state in terms of specification functions, and lemmas prove the promised properties about those functions.
- Loops in the source are loops here, with their invariants. These include the `with_retry` loop, the selector's nested loops, the environment scan, `add_batch_downloads`, the format partition, the height de-duplication, the archive reader and the sync count.
- Time, the jitter draws, `urlparse`, the yt-dlp engine and the metadata lookup are parameters.

A `DownloadProgress` keeps all its fields in one record value `fields`. The tracker maps URLs to these objects, so setting a field of a record (for example `cancel_download` setting the state) updates the object the tracker shares.

The download manager is a sequential state machine. Its steps are:

- `AddDownload` and `AddBatchDownloads` submit tasks;
- `ProcessQueueStep` admits one;
- `DownloadSingle` runs a download;
- `Complete(task, result)` files the task once its download has ended.

## Model

| member | source | states |
|---|---|---|
| ErrorHandling.FirstMatchFrom | downloader/error_handling.py:84-86 | the scan over the keyword table yields the first row with a keyword in the text, or none when no row has one |
| ErrorHandling.ClassifyErrorSpec | downloader/error_handling.py:79-96 | the category is that of the first table row, in declaration order, with a keyword in the lower-cased text; the class fallback applies only when no row matched |
| ErrorHandling.TableRanks | downloader/error_handling.py:47-76 | the table has seven rows, and each category's rank is its row |
| ErrorHandling.KeywordBound | downloader/error_handling.py:84-86 | a keyword of row i in the text makes the result come from row i or an earlier one |
| ErrorHandling.PrivateVideoShadowed | downloader/error_handling.py:52-86 | text with "private video" is a network or authentication error, never content-unavailable: "private" of the authentication row is found first |
| ErrorHandling.AccessDeniedShadowed | downloader/error_handling.py:52-86 | text with "access denied" is a network or authentication error, never a file-system one: the authentication row lists it first |
| ErrorHandling.FormatNotAvailableShadowed | downloader/error_handling.py:56-86 | text with "format not available" is a network, authentication or unavailable-content error, never a format one |
| ErrorHandling.FallbackOnlyWithoutKeyword | downloader/error_handling.py:83-96 | the class fallback applies exactly when no keyword occurs; with a keyword the result is never UNKNOWN |
| ErrorHandling.NetworkKeywordWins | downloader/error_handling.py:47-86 | any network keyword in the text makes the error a network error |
| ErrorHandling.AccessDeniedIsAuthentication | downloader/error_handling.py:52-86 | "access denied" without a network keyword is AUTHENTICATION, whatever the exception class |
| ErrorHandling.AccessDeniedPermissionError | downloader/error_handling.py:273-286 | `PermissionError("Access denied")` is AUTHENTICATION, because the keyword row wins over the class |
| ErrorHandling.ShouldRetry | downloader/error_handling.py:114-128 | false once retry_count reaches max_retries, false for CONTENT_UNAVAILABLE and AUTHENTICATION, true otherwise |
| ErrorHandling.CappedDelay | downloader/error_handling.py:137-138 | the delay is the smaller of the uncapped delay and max_delay |
| ErrorHandling.JitterNonNegative | downloader/error_handling.py:140-142 | jitter scales a non-negative delay into [delay/2, delay] |
| ErrorHandling.DelayBounds | downloader/error_handling.py:130-144 | without jitter the delay is the capped one; with jitter a non-negative capped delay shrinks to between its half and itself, a negative one to between itself and its half; it never exceeds max_delay when jitter is off or max_delay is non-negative |
| ErrorHandling.DelayMonotone | downloader/error_handling.py:130-144 | without jitter and with a non-negative base, a later attempt never waits less |
| ErrorHandling.CountCategoryBound | downloader/error_handling.py:201-204 | a category's count is at most the history length and positive exactly when some error has that category |
| ErrorHandling.CountsSumToTotal | downloader/error_handling.py:201-207 | the per-category counts add up to the number of errors |
| ErrorHandling.ErrorHandler.constructor | downloader/error_handling.py:150-152 | the given strategy or the default one (3 retries, 1 s base, 60 s cap, backoff and jitter), and an empty history |
| ErrorHandling.ErrorHandler.HandleError | downloader/error_handling.py:165-179 | the error is classified, carries the text, the exception, the URL, retry count 0 and the clock, and is appended to the history |
| ErrorHandling.ErrorHandler.SetLastRetryCount | downloader/error_handling.py:229-230 | sets the retry count of the error just recorded, which the history shares, and changes nothing else |
| ErrorHandling.ErrorHandler.GetErrorSummary | downloader/error_handling.py:196-210 | only a zero total for an empty history; otherwise total = history length, the last message, and for each category that occurs, its count |
| ErrorHandling.RetryFrom | downloader/error_handling.py:225-240 | from iteration k the loop makes more than k and at most max_retries + 1 calls and ends with a result or a re-raise |
| ErrorHandling.RetryFromEnds | downloader/error_handling.py:225-246 | the loop goes on only past calls that raised a retryable error and whose sleep did not raise; it returns the last call's own value; it re-raises the last call's own exception once that is not retryable or the retries are used up, and otherwise the `ValueError` of a negative sleep |
| ErrorHandling.RetryRun | downloader/error_handling.py:219-246 | at most max_retries + 1 calls, and no call at all exactly when max_retries is negative |
| ErrorHandling.SleepScheduleEntries | downloader/error_handling.py:233-238 | the k-th sleep is get_delay(k) with the k-th jitter draw |
| ErrorHandling.FailureLogEntries | downloader/error_handling.py:228-231 | when the first n calls raised, the history gains one error per call in call order, each with its attempt number as retry_count |
| ErrorHandling.FirstSuccessReturned | downloader/error_handling.py:225-227 | when the earlier calls raised retryable errors and call j returns, the wrapper returns that value unchanged after j + 1 calls |
| ErrorHandling.NegativeDelayRaises | downloader/error_handling.py:233-238 | when the first call raises a retryable error and its delay is negative, `time.sleep` raises `ValueError`, which leaves the wrapper after one call |
| ErrorHandling.SleepRaisesIffNegative | downloader/error_handling.py:130-144 | with a jitter draw in [0, 1) the sleep raises exactly when the capped delay is negative, and it always does for a negative base delay |
| ErrorHandling.RetryAttempt | downloader/error_handling.py:226-240 | one pass of the loop: the call, the recorded error with its retry count, and the sleep, keeping the loop's remaining trace; a negative delay stops the loop with the `ValueError` and nothing slept |
| ErrorHandling.WithRetry | downloader/error_handling.py:213-249 | the outcome and number of calls are those of `RetryRun`, the sleeps those of `SleepSchedule`, and the history gains exactly the errors of the failed calls |
| ErrorHandling.AlwaysFailingFrom | downloader/error_handling.py:225-240 | from any iteration, a call that always raises a retryable error runs until max_retries + 1 calls and its exception is re-raised |
| ErrorHandling.AlwaysFailing | downloader/error_handling.py:294-302 | a call that always raises a retryable error is called max_retries + 1 times and its own exception is re-raised |
| ErrorHandling.ExampleSchedule | downloader/error_handling.py:295-297 | the module's example with 2 retries and a 0.1 s base sleeps 0.1 s and then 0.2 s, each scaled by its jitter factor |
| ErrorHandling.FallbackExtractor.constructor | downloader/error_handling.py:255-257 | the cursor starts at yt-dlp, then pytube |
| ErrorHandling.FallbackExtractor.GetNextExtractor | downloader/error_handling.py:259-265 | the extractor under the cursor, which then advances; none once the list is used up, with the cursor unchanged |
| ErrorHandling.FallbackExtractor.Reset | downloader/error_handling.py:267-269 | the cursor goes back to the first extractor |
| ErrorHandling.FallbackSequence | downloader/error_handling.py:252-269 | a fresh cursor yields yt-dlp, pytube, then none on each further call; after reset it yields yt-dlp again |
| Progress.UpdateStoresCounts | downloader/progress.py:73-95 | downloaded bytes stored as given; total replaced only when given; elapsed time and last update from the clock; state, end time, error and identity fields kept |
| Progress.UpdatePercentIsShare | downloader/progress.py:79-80 | with a positive total the percent is downloaded/total·100, within [0, 100] while the download does not overshoot, and 100 exactly at the total |
| Progress.UpdatePercentNotClamped | downloader/progress.py:79-80 | a download beyond its total shows more than 100 percent |
| Progress.UpdateKeepsPercent | downloader/progress.py:79-80 | without a positive total the percent is left as it was |
| Progress.UpdateSpeed | downloader/progress.py:82-88 | a supplied speed is stored; otherwise bytes over elapsed time when time has passed, else unchanged |
| Progress.UpdateEta | downloader/progress.py:90-93 | with positive speed and total, the remaining bytes take exactly the ETA at that speed; otherwise the ETA is unchanged |
| Progress.CompletedShowsFull | downloader/progress.py:97-101 | COMPLETED at 100 percent whatever the percent was; completing again changes only the end time |
| Progress.FailedKeepsMessage | downloader/progress.py:103-107 | FAILED with the message verbatim; the progress fields are unchanged |
| Progress.EtaBreakdown | downloader/progress.py:128-142 | unknown unless the ETA is positive; whole seconds below a minute, minutes and seconds below an hour, hours and minutes above, each the floor of the ETA |
| Progress.DownloadProgress.constructor | downloader/progress.py:68-71 | an unset start time becomes the clock, and the last update always does |
| Progress.DownloadProgress.UpdateProgress | downloader/progress.py:73-95 | the new fields are `Updated` of the old ones, whose properties the lemmas above state |
| Progress.DownloadProgress.MarkCompleted | downloader/progress.py:97-101 | the new fields are `CompletedAt` of the old ones |
| Progress.DownloadProgress.MarkFailed | downloader/progress.py:103-107 | the new fields are `FailedAt` of the old ones |
| Progress.StepUnknownUrl | downloader/progress.py:202-276 | every transition on a URL without a record changes nothing |
| Progress.StepTouchesOneRecord | downloader/progress.py:202-276 | a transition keeps the URL set and the other URLs' records, and moves the record to its target state whatever it was, so a completed record goes back to DOWNLOADING on an update |
| Progress.StartedIsFresh | downloader/progress.py:183-188 | a started record is STARTING, with nothing downloaded, no error, and start and last-update times from the clock |
| Progress.ProgressTracker.constructor | downloader/progress.py:177-181 | no records |
| Progress.ProgressTracker.StartDownload | downloader/progress.py:183-200 | a fresh record object replaces whatever the URL had |
| Progress.ProgressTracker.UpdateDownload | downloader/progress.py:202-223 | the update transition on the URL's record; the callbacks run exactly when the URL is tracked |
| Progress.ProgressTracker.CompleteDownload | downloader/progress.py:225-242 | the completion transition; the callbacks run exactly when the URL is tracked |
| Progress.ProgressTracker.FailDownload | downloader/progress.py:244-260 | the failure transition with the message; the callbacks run exactly when the URL is tracked |
| Progress.ProgressTracker.PauseDownload | downloader/progress.py:262-268 | the record, if any, becomes PAUSED |
| Progress.ProgressTracker.ResumeDownload | downloader/progress.py:270-276 | the record, if any, becomes DOWNLOADING |
| Progress.ProgressTracker.GetProgress | downloader/progress.py:278-280 | the live record object of a tracked URL, none otherwise |
| Progress.SaveThenLoad | downloader/progress.py:332-345 | loading a just-saved record gives it back in every field but the last-update time, which comes from the clock, and a zero start time, which also becomes the clock; other URLs load as before |
| Progress.ResumableIffLoaded | downloader/progress.py:356-361 | resumable exactly when a record loads and it is PAUSED or DOWNLOADING |
| Progress.RemoveAndResume | downloader/progress.py:350-361 | removing is idempotent and a no-op on an absent URL, and leaves nothing to resume; a saved record is resumable exactly when its state is |
| Progress.StateManager.constructor | downloader/progress.py:309-322 | the store holds what was persisted |
| Progress.StateManager.SaveDownloadState | downloader/progress.py:332-338 | the URL's entry becomes the record's fields with the clock |
| Progress.StateManager.GetDownloadState | downloader/progress.py:340-348 | none exactly when nothing is saved; otherwise a new object holding the loaded record |
| Progress.StateManager.RemoveDownloadState | downloader/progress.py:350-354 | the URL's entry is gone and nothing else changes |
| Progress.StateManager.CanResumeDownload | downloader/progress.py:356-361 | true exactly when the saved record is resumable |
| Progress.RecentAreNewest | downloader/progress.py:411-413 | the slice's length (at most `limit` for a non-negative limit), newest first, drawn from the ledger, and nothing left out is newer than what is shown |
| Progress.RecentTiesInLedgerOrder | downloader/progress.py:411-413 | the slice is a prefix of the sorted ledger, and entries with the same timestamp keep their ledger order |
| Progress.SearchDownloads | downloader/progress.py:415-421 | an entry is listed exactly when its title or URL contains the query, ignoring ASCII case |
| Progress.FailedDownloads | downloader/progress.py:423-425 | an entry is listed exactly when it did not succeed |
| Progress.StatisticsSpec | downloader/progress.py:427-445 | only a zero total for an empty ledger; otherwise failed = total − successful, the success rate successful/total·100, within [0, 100], and average speed = size/time, or 0 without time |
| Progress.StatisticsAfterAdd | downloader/progress.py:392-445 | an added entry adds one to the total, and to the successes, and its size and time to the totals, only when it succeeded |
| Progress.DownloadHistory.constructor | downloader/progress.py:367-381 | the ledger holds what was persisted |
| Progress.DownloadHistory.AddEntry | downloader/progress.py:392-409 | exactly one entry appended, a success exactly when the record is COMPLETED, with the record's total bytes as size |
| Config.ProfileNamed | downloader/config.py:167-172 | the profile with that value, or none when no profile has it |
| Config.ProfileNamedValue | downloader/config.py:15-22 | each profile is found by its own value |
| Config.DefaultSelector | downloader/config.py:242-255 | the dataclass defaults (quality `best`, downloader/config.py:26-69) select the best merged video and audio |
| Config.FieldNamed | downloader/config.py:108-110 | the attribute with that name, or none when the configuration has none |
| Config.SetGet | downloader/config.py:108-110 | setting a field stores the value there (an integer delay as a real) and changes no other field; a value of the wrong shape changes nothing |
| Config.UnknownKeysIgnored | downloader/config.py:108-110 | keys that name no attribute are skipped |
| Config.ApplyItemsAppend | downloader/config.py:108-110 | applying items in two runs is applying them in one |
| Config.LaterItemsKeep | downloader/config.py:108-110 | a field keeps the value the earlier items left in it unless a later item names it |
| Config.EnvIndex | downloader/config.py:120-134 | the position of each mapped attribute in the scan order; none for an unmapped one |
| Config.EnvFlagIgnoresCase | downloader/config.py:138-139 | the flag reading ignores case |
| Config.ConvertEnv | downloader/config.py:137-143 | a flag for boolean fields, a parsed integer for integer fields (failing exactly when `Text.ParseInt` rejects the text), the text itself otherwise |
| Text.ParseIntRendered | downloader/config.py:141 | `int` reads back every rendered integer, negative ones included |
| Text.ParseIntUnderscore | downloader/config.py:141 | `int` skips one underscore between two runs of digits, as in `int("1_000") == 1000` |
| Config.EnvLoadConverted | downloader/config.py:134-145 | after a scan without error every variable read converted |
| Config.EnvLoadFields | downloader/config.py:134-145 | after a scan without error each field holds its variable's converted text when set, and its old value otherwise |
| Config.EnvConversions | downloader/config.py:120-145 | a boolean field is true exactly when its variable lower-cases to true, 1, yes or on; integer fields hold the parsed number; unset or unmapped fields keep their values |
| Config.EnvErrorCause | downloader/config.py:140-141 | a scan stops only at an integer field whose variable does not parse, and reports that variable |
| Config.EnvOnlyMapped | downloader/config.py:120-136 | environments that agree on the mapped variables load the same settings |
| Config.EnvErrorStays | downloader/config.py:134-145 | once the scan has stopped, later variables change nothing |
| Config.ProfileTouchesOnlyItsFields | downloader/config.py:174-213 | a profile records its name and changes only the fields it lists; CUSTOM lists none |
| Config.MobileSettings | downloader/config.py:177-182 | MOBILE sets 480p, mp4, no subtitles or thumbnail, and the chain 480p, 360p, worst |
| Config.ProfileIdempotent | downloader/config.py:165-213 | applying a profile twice is applying it once |
| Config.AudioOnlySelector | downloader/config.py:244-245 | the audio-only profile selects `bestaudio[ext=<audio format>]/bestaudio/best` whatever the quality, chain or formats |
| Config.HeightQualitySelector | downloader/config.py:262-273 | a quality of 3-4 digits and `p`, in any case, gives the selector ending in `/best[height<=H]` |
| Config.FallbackSelector | downloader/config.py:281-305 | any other quality joins the chain's parts, chain-major and format-minor, then `best` and `worst` |
| Config.ChainPartsAppend | downloader/config.py:283-300 | a longer chain's parts are those of its first entries followed by those of the rest |
| Config.RowPartsAppend | downloader/config.py:284-300 | within one chain entry the parts come format by format |
| Config.UnknownEntryDropped | downloader/config.py:291-300 | a chain entry that is neither a keyword nor a height contributes nothing |
| Config.HeightEntryParts | downloader/config.py:292-298 | a height entry contributes two parts per preferred format |
| Config.OptionsFor | downloader/config.py:215-240 | fixed options copy their settings and retries/socket_timeout; archive, user agent and proxy are present exactly when truthy, the cookie file also only when it exists |
| Config.ConfigManager.constructor | downloader/config.py:91-93 | the default settings |
| Config.ConfigManager.LoadConfig | downloader/config.py:96-116 | the file's items when a file was read, then the environment scan |
| Config.ConfigManager.LoadConfigData | downloader/config.py:107-110 | the settings after the file's items, each applied when its key names an attribute |
| Config.ConfigManager.LoadEnvVariables | downloader/config.py:118-145 | the settings and the conversion error are those of the environment scan |
| Config.ConfigManager.ApplyProfile | downloader/config.py:165-213 | an unknown name changes nothing and reports false; a known one applies that profile |
| Config.ConfigManager.GetFormatSelector | downloader/config.py:242-305 | the nested loops build `FormatSelector` of the settings |
| Config.ConfigManager.GetYtDlpOptions | downloader/config.py:215-240 | `OptionsFor` of the settings and their selector |
| FormatSelectors.MatchHeightSpec | downloader/config.py:264-266 | a match exactly when the text is three or four digits and `p`, with at most one final newline (which `$` lets through), and then the height is those digits' value |
| FormatSelectors.MatchHeightLeadingZero | downloader/config.py:264-266 | `0720p` matches with height 720: `int` reads the leading zero |
| FormatSelectors.MatchHeightRendered | downloader/config.py:264-266 | every height from 100 to 9999 followed by `p` reads back as itself |
| FormatSelectors.MatchHeightTrailingNewline | downloader/config.py:264 | one final newline does not change the match |
| FormatSelectors.HeightSelector | youtube.py:968-982 | with ffmpeg it starts with the exact-height merge and ends with `/best[height<=H]`; without, it starts with the exact-height single file and ends with `/best` |
| Urls.SanitizeFilename | downloader/utils.py:9-13 | the loop over the nine characters yields `Sanitized` |
| Urls.SanitizedSpec | downloader/utils.py:9-13 | none of `<>:"/\|?*` left, length min(n, 200), other characters in place, replaced ones as `_` (also youtube.py:1003-1008) |
| Urls.SanitizedIdempotent | downloader/utils.py:10-13 | sanitising twice is sanitising once |
| Urls.NormalizeYoutubeUrl | downloader/utils.py:27-45 | the text `Normalize` gives for the parsed URL (also youtube.py:129-152) |
| Urls.FlattenQuery | downloader/utils.py:35-38 | every value of every parsed parameter, name by name |
| Urls.NormalizeKeeps | downloader/utils.py:30-31 | hosts ending in youtube.com or in neither suffix, and text urlparse rejects, are kept |
| Urls.NormalizeShortLink | downloader/utils.py:32-39 | a youtu.be link becomes a watch URL with `v` = the path without leading slashes first, then the original parameters grouped by name |
| Urls.NormalizeShortLinkText | downloader/utils.py:32-42 | the rewritten text starts with `https://www.youtube.com/watch?v=` and the encoded id |
| Urls.SearchHasLiteral | downloader/utils.py:56 | text in which a pattern occurs holds each of the pattern's literal pieces |
| Urls.PlaylistIffList | downloader/utils.py:58-65 | a URL is a playlist URL exactly when it contains `list=` |
| Urls.ValidHasScheme | downloader/utils.py:47-56 | a valid URL contains `http` and `://` |
| Urls.WatchUrlValid | downloader/utils.py:47-56 | text starting with the watch address, `?v=` and an id character is valid |
| Urls.NormalizedShortLinkValid | downloader/utils.py:32-56 | a short link with an id is normalized into a valid YouTube URL |
| QueryStrings.ParseQsDistinct | downloader/utils.py:34 | parsed parameter names are distinct |
| QueryStrings.ParseQsMultiset | downloader/utils.py:34-38 | grouping by name loses and adds no pair |
| QueryStrings.ParseQsValues | downloader/utils.py:34-38 | each name's values keep their original order |
| QueryStrings.ParseQsUnrepeated | downloader/utils.py:34-38 | with no repeated name the flattened pairs are the original ones |
| QueryStrings.QuotePlusFirst | downloader/utils.py:40 | a safe first character is kept |
| QueryStrings.UrlEncodeHead | downloader/utils.py:40 | the encoding starts with its first pair |
| Sorting.SortDesc | youtube.py:303-305 | same length, descending by key, a permutation of the input; its stability is `Sorting.SortDescStable` |
| Sorting.SortDescStable | youtube.py:303-305 | the sort is stable: for each key, the elements with that key keep their input order |
| Sorting.PrefixIsTop | downloader/progress.py:413 | a prefix of a descending list is descending, drawn from it, and no element left out has a higher key |
| DownloadTasks.TaskIdAt | downloader/core.py:45-47 | the id starts with `task_` |
| DownloadTasks.TaskIdInjective | downloader/core.py:45-47 | two ids are equal exactly when the clock readings are |
| DownloadTasks.TaskLessOrder | downloader/core.py:49-51 | a strict order by priority value alone; equal priorities are tied whatever else differs |
| DownloadTasks.NextExists | downloader/core.py:159-162 | a non-empty queue has a task that no queued task precedes |
| DownloadTasks.NextIsAnyBest | downloader/core.py:49-51 | any task of the best priority may come next: no tie-break |
| DownloadTasks.NextHasBestPriority | downloader/core.py:28-33 | the next task has the smallest priority value in the queue |
| DownloadTasks.RemoveAt | downloader/core.py:161 | taking a task out removes exactly that task |
| DownloadTasks.Queued | downloader/core.py:115-127 | a valid URL yields exactly one task, carrying the normalized URL and the clock's id; an invalid one yields none |
| DownloadTasks.BatchTasksCount | downloader/core.py:136-148 | one task per valid URL, none per invalid one |
| DownloadTasks.BatchTasksFrom | downloader/core.py:136-148 | each task has the batch's priority and overrides, no callback, and the normalized form of a valid URL of the batch |
| DownloadTasks.BatchAllOrNothing | downloader/core.py:141-148 | all-valid batches queue every URL, all-invalid ones nothing |
| Core.AfterHooksTouchOneRecord | downloader/core.py:269-281 | the hooks change only the URL's own record and track no new URL |
| Core.FinishedCompletes | downloader/core.py:280-281 | after a `finished` event the record is COMPLETED at 100 percent |
| Core.NotifyNeverSaves | downloader/core.py:283-288 | every notification follows a transition that set the last update to the clock or left the record not DOWNLOADING, so the periodic save never happens |
| Core.ResumeIsOverwritten | downloader/core.py:201-219 | the saved record put back for a resume is replaced at once by the started one, so resuming leaves the same state as not resuming |
| Core.FinishedOutcome | downloader/core.py:249-267 | a successful download's record is COMPLETED, with a successful history entry and no saved state; a failed one's is FAILED, saved, with no entry |
| Core.NegativeRetryDelayFails | downloader/core.py:235-267 | a negative `retry_delay` with retries left makes the first retryable failure end the download: one call, a `ValueError` from the sleep, a FAILED record |
| Core.OnCompleteAsWritten | downloader/core.py:170-190 | the closure files and removes from the active table the task admitted last, not the one that finished |
| Core.LateBindingFilesWrongTask | downloader/core.py:159-190 | with two admitted tasks, the first one's completion leaves it active for good and files the second as completed |
| Core.DownloadManager.constructor | downloader/core.py:57-88 | empty queue and tables, zero counters, the persisted resume store and history, an empty error history |
| Core.DownloadManager.AddDownload | downloader/core.py:107-134 | an invalid URL is refused with nothing changed; a valid one queues one task with the normalized URL, adds one to total_queued, and returns the task's id |
| Core.DownloadManager.AddBatchDownloads | downloader/core.py:136-148 | the queue gains `BatchTasks` and the result is their ids; rejected URLs are skipped |
| Core.DownloadManager.AddBatchItem | downloader/core.py:142-147 | one URL of the batch is added; the queue, the kept ids and total_queued grow by exactly that URL's task, if any |
| Core.DownloadManager.ProcessQueueStep | downloader/core.py:150-168 | only with a free slot and a waiting task: a task no queued task precedes leaves the queue and becomes active; the active count stays within the maximum |
| Core.DownloadManager.Complete | downloader/core.py:170-190 | the task leaves the active table and enters exactly one of completed or failed, one counter rises, and the callback gets the task and the result |
| Core.DownloadManager.OnProgressUpdate | downloader/core.py:283-288 | saves the record exactly when it is DOWNLOADING and its last update is over five seconds old |
| Core.DownloadManager.ProgressHook | downloader/core.py:269-281 | `downloading` updates with the total or the estimate and the speed; `finished` completes; other statuses do nothing |
| Core.DownloadManager.RunHooks | downloader/core.py:229-231 | the records after the hook has seen every event in order |
| Core.DownloadManager.ResumeSaved | downloader/core.py:201-206 | a resumable saved record is put in the tracker without notification |
| Core.DownloadManager.StartTracking | downloader/core.py:213-219 | the record is started with the format and quality set before the overrides |
| Core.DownloadManager.FinishSuccess | downloader/core.py:249-254 | the record is completed, the history gains its entry, and the saved state is dropped |
| Core.DownloadManager.FinishFailure | downloader/core.py:256-267 | the error is recorded with the URL, and the record is failed with the exception's text and saved |
| Core.DownloadManager.DownloadSingle | downloader/core.py:198-267 | missing metadata returns false after only the resume step, with no record started; otherwise the resume, start, overrides, retries and end happen as `Downloaded` states |
| Core.DownloadManager.Transfer | downloader/core.py:213-267 | starting, overriding, retrying and ending as `Concluded` of `StartedFor` states |
| Core.DownloadManager.RunAndFinish | downloader/core.py:227-267 | the retries and their end as `Concluded` states |
| Core.DownloadManager.RunAttempts | downloader/core.py:227-247 | the wrapper's outcome for the settings' strategy and options, the hooks of the calls made, and the errors they recorded |
| Core.DownloadManager.FinishWith | downloader/core.py:249-267 | the success path unless the wrapper re-raised, then the failure path with that exception |
| Core.DownloadManager.PauseDownload | downloader/core.py:356-362 | true exactly when the task is active, and then its record, if any, is PAUSED |
| Core.DownloadManager.ResumeDownload | downloader/core.py:364-370 | true exactly when the task is active, and then its record, if any, is DOWNLOADING |
| Core.DownloadManager.CancelDownload | downloader/core.py:372-383 | true exactly when the task is active, and then its record, if any, is CANCELLED; no table changes |
| Core.DownloadManager.GetQueueStatus | downloader/core.py:385-393 | the queue and table sizes and the counters; under the invariant, total_queued is the queue size plus the tasks admitted so far, and no more tasks are active than were admitted |
| Core.DownloadManager.GetDownloadProgress | downloader/core.py:395-400 | the live record of an active task's URL, none otherwise |
| Core.DownloadManager.ClearCompleted | downloader/core.py:402-405 | the completed and failed tables are emptied |
| Youtube.ParseQualityHeight | youtube.py:887-895 | none for empty, `best` or `worst` in any case; otherwise the height pattern on the lower-cased text, whose exact condition and value `Youtube.ParseQualityHeightSpec` states |
| Youtube.ParseQualityHeightSpec | youtube.py:887-895 | a height exactly when the lower-cased quality is three or four digits and `p`, with at most one final newline, and then the height is those digits' value |
| Youtube.ParseQualityHeightRendered | youtube.py:887-895 | a rendered height followed by `p` or `P` reads back as itself |
| Youtube.ParseQualityHeightIgnoresCase | youtube.py:887-895 | case does not matter |
| Youtube.YtSelectorFallbacks | youtube.py:955-985 | audio gives `bestaudio/best` whatever the quality; an unrecognised quality gives `best[ext=mp4]/best` |
| Youtube.YtSelectorBest | youtube.py:960-962 | for `best` or no quality the selector depends only on the ffmpeg flag |
| Youtube.YtSelectorHeight | youtube.py:966-982 | a quality parsing to H gives the height selector, ending `/best[height<=H]` with ffmpeg and `/best` without |
| Youtube.PartitionFormats | youtube.py:268-305 | the loop sends each format to the first list whose test it passes, then sorts the lists; the audio sort key uses the listed size (`filesize`, else `filesize_approx`) |
| Youtube.SplitByCodec | youtube.py:273-297 | the row loop leaves in each list exactly the formats, in input order, that pass that list's codec test |
| Youtube.PartitionExclusive | youtube.py:292-297 | no format passes two tests, and a format passes one exactly when it has some codec |
| Youtube.PartitionKeepsFormats | youtube.py:273-305 | together the lists hold each format with a codec exactly as often as the input does, and nothing else |
| Youtube.PartitionCounts | youtube.py:292-297 | the codec tests split the formats with some codec among the three lists, counting each once |
| Youtube.PartitionSorted | youtube.py:279-305 | combined and video-only lists run from the tallest format down; the audio list runs from the highest bitrate down, and at equal bitrates from the largest size down, the size being `filesize`, or `filesize_approx` when that is missing or zero |
| Youtube.PartitionStable | youtube.py:299-305 | formats with equal sort keys stay in the order yt-dlp listed them |
| Youtube.AvailableFormats | youtube.py:208-226 | the loop with the seen set yields `AvailableFormatsOf` |
| Youtube.FirstPerHeightSpec | youtube.py:210-223 | the kept rows have distinct heights, cover every input height, and come from input formats; which format each row comes from is `Youtube.FirstPerHeightFirst` |
| Youtube.FirstPerHeightFirst | youtube.py:210-223 | a row is kept exactly when it is the row of the first format of its height |
| Youtube.AvailableFormatsSpec | youtube.py:208-226 | distinct heights, strictly tallest first, every input height present, and exactly the rows of the first formats of each height |
| Youtube.ArchivePath | youtube.py:448-451 | a custom archive when one is named, else the hidden archive file of the playlist folder |
| Youtube.LastToken | youtube.py:458-460 | a non-blank line's last token, non-empty and without whitespace |
| Youtube.ReadArchiveIds | youtube.py:453-463 | the loop yields `ArchiveIds` of the lines |
| Youtube.ArchiveIdsSpec | youtube.py:457-460 | an id is in the archive exactly when some line's last token is that id |
| Youtube.ArchiveLineId | youtube.py:460 | the line `<extractor> <id>` yields the id |
| Youtube.CountArchived | youtube.py:474-477 | no more archived entries than entries |
| Youtube.PlaylistSyncStatus | youtube.py:465-479 | the loop yields `SyncOf` |
| Youtube.SyncSpec | youtube.py:465-479 | archived ≤ entries; archived + missing = total when the count matches the entries; without an archive nothing is archived and missing = max(total, 0) |
| Youtube.AllArchived | youtube.py:474-478 | every entry archived means every entry counted |

## Left out

- Threads: `ThreadPoolExecutor`, the queue thread, `start_queue_processing`, `stop_queue_processing`, `is_running`, locks, `time.sleep`, the `get(timeout=1)` retry and `shutdown`. The manager takes one step at a time.
- Interleaving: the hook events of the engine's calls are applied after the retry loop. Within one download, the hooks touch only the tracker and the resume store, and the retry loop only the error history, so the end state is the same.
- The yt-dlp calls (`extract_info`, `download`) are an `Engine` parameter. `get_video_info`, `get_playlist_info` and `get_available_formats` become their results: a title option, a `PlaylistInfo` record and a list of formats. The error that `get_video_info` records on failure is not modelled.
- `time.time()` and `random.random()` are parameters: a clock value per step, a clock per recorded error, and a jitter draw in [0, 1).
- Files: YAML and JSON reading become a list of items, or none when unreadable. The pickle state becomes an in-memory map. The persisted history becomes a list. The cookie file's existence becomes a flag. `save_config`, `save_state`, `save_history`, `create_default_config_file`, `to_dict` and `from_dict` are left out, since they only do I/O.
- `get_config_manager`, the constructor followed by `apply_profile`, is not modelled separately.
- Platform lookups: `get_default_download_path` and `_get_default_download_path` (winreg, home folder) are a `defaultPath` parameter.
- Display: tqdm progress bars, `cleanup`, `print`, the logging levels of `_log_error`, `get_human_readable_size`, `get_human_readable_speed` and the `.1f` texts are left out. The whole-unit breakdown of `get_human_readable_eta` is modelled.
- Callbacks: `add_callback` and the callback list. The manager's own `_on_progress_update` is the only callback, and the manager calls it after each notifying transition. An exception a callback raises is swallowed, so only whether a callback exists is modelled.
- The `YouTubeDownloader` subclass in `downloader/core.py` only forwards to the helpers.
- `youtube.py` beyond the named helpers: the subprocess probes, the interactive menus, `download_playlist`, `download_video`, `verify_download_quality`, the local-file height checks, `print_format_table` and the printing in `select_format_manually`. All are I/O.
- Regular expressions are hand-written matchers for the fixed patterns, with ASCII `\w`, `\d` and whitespace.
- `urlparse` is a parameter yielding a parsed-URL record, or none where it raises. `parse_qs` works on the (name, value) pairs of the query. Percent-decoding and `+` handling in `parse_qs` are not modelled.
- Strings: `lower()` is ASCII-only, and no Unicode case folding is modelled.
- Dictionary reads: an absent key and a `None` value are one case (`Option`). The model does not distinguish `filesize=None` from a missing `filesize` in `get_available_formats`.
- `_read_archive_ids`: the archive's text is given as its lines, which stand for `splitlines()`. A read error is modelled as no lines.
- `_get_archive_path`: the custom path is not normalised by `Path`.
- `get_playlist_sync_status`: a `None` entry in the playlist's entries list is not modelled, though the source would raise on it.
- Core.DownloadManager.AddDownload: the task id comes from the microsecond clock, so two tasks created in the same microsecond share an id. The table then holds only one of them. The model takes the clock reading as given and does not rule this out.
- Config.ConfigManager.LoadConfigData: the file's keys pass the `hasattr` guard (downloader/config.py:109), so a key that names no attribute is skipped, as modelled. A value of a shape the field does not hold is ignored rather than stored.
- Core.DownloadManager.Transfer: a task override is applied by a bare `setattr` (downloader/core.py:225). A key that names no attribute then adds an attribute that nothing reads, so the modelled fields are unchanged. A value of a shape the field does not hold is ignored rather than stored.
- ErrorHandling.WithRetry: with a negative `max_retries` the wrapper never calls the action and returns `None`. `_download_single` then takes the success path, and the model does the same. A negative delay stops the wrapper with `time.sleep`'s `ValueError`, as modelled; the log line before the sleep is left out.
- Text.ParseInt: `int()` also accepts non-ASCII decimal digits (Arabic-Indic digits, for example) and strips Unicode whitespace. The model accepts only ASCII digits and ASCII whitespace, so such texts are conversion errors here.
- `DownloadProgress.resume_data` (downloader/progress.py:66) is always an empty dictionary and nothing in the core reads it, so the record has no such field.
- Floating point is exact `real` arithmetic: no IEEE rounding, infinities or NaN. `int(...)` of the ETA is modelled as the floor of a non-negative number.

## Findings

| source | as written | input that shows it | evidently intended | confidence | as-written member | corrected member |
|---|---|---|---|---|---|---|
| downloader/core.py:170-190 | `on_complete` reads the loop variable `task` when the download finishes. By then it may hold a task admitted later. | Admit task a, then task b; a's download finishes while b's runs. b is filed as completed and leaves the active table; a stays active forever. | The finished task is filed and removed from the active table. | not executed | Core.OnCompleteAsWritten, Core.LateBindingFilesWrongTask | Core.DownloadManager.Complete |

## Where the code and its comments disagree

- Classification of "Access denied": the module's example lists `PermissionError("Access denied")` with the expected category FILESYSTEM (downloader/error_handling.py:281). The keyword table reaches the AUTHENTICATION row first, so the code yields AUTHENTICATION. The model follows the code (`ErrorHandling.AccessDeniedPermissionError`).
- Resuming a download: `_download_single` says it resumes a saved download (downloader/core.py:201-206). `start_download` then replaces the resumed record at once, and the model follows the code (`Core.ResumeIsOverwritten`).
- Periodic saving: `_on_progress_update` promises a save every five seconds (downloader/core.py:285-288). It always runs right after the tracker set the record's last update to the clock, so it never saves. The model follows the code (`Core.NotifyNeverSaves`).
