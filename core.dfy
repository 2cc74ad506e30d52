/** The download manager: the priority queue, the active, completed and
    failed tables, the statistics, and the flow of one download through
    the progress tracker, the resume store, the history and the retry
    wrapper. Threads are not modelled: each method is one step the
    manager takes, and the yt-dlp engine, the clock and `urlparse` are
    parameters. */
module Core {
  import opened Wrappers
  import opened DownloadTasks
  import Urls
  import Progress
  import ErrorHandling
  import Config

  /** The manager's `stats` dictionary. */
  datatype Statistics = Statistics(
    totalQueued: nat,
    totalCompleted: nat,
    totalFailed: nat,
    bytesDownloaded: int,
    startTime: real)

  /** What `get_queue_status` reports. */
  datatype QueueStatus = QueueStatus(
    queueSize: nat,
    activeDownloads: nat,
    completedDownloads: nat,
    failedDownloads: nat,
    statistics: Statistics)

  /** `add_download`'s `ValueError`. */
  datatype AddError = InvalidUrl(url: string)

  // ---------------------------------------------------------------------
  // yt-dlp progress hooks

  /** A progress dictionary yt-dlp passes to the hook, by status. A total
      or estimate that is absent is `None`; `speed` is `None` when yt-dlp
      reports no speed. */
  datatype HookEvent =
    | Downloading(downloaded: int, totalBytes: Option<int>, totalBytesEstimate: Option<int>,
                  speed: Option<real>, at: real)
    | Finished(at: real)
    | OtherStatus

  /** `d.get('total_bytes') or d.get('total_bytes_estimate', 0)`. */
  function HookTotal(totalBytes: Option<int>, estimate: Option<int>): int {
    if totalBytes.Some? && totalBytes.value != 0 then totalBytes.value
    else if estimate.Some? then estimate.value
    else 0
  }

  /** The tracker call `_progress_hook` makes for an event, if any. */
  function HookTransition(e: HookEvent): Option<Progress.Transition> {
    match e
    case Downloading(d, total, estimate, speed, at) =>
      Some(Progress.Update(d, Some(HookTotal(total, estimate)), speed, at))
    case Finished(at) => Some(Progress.Complete(at))
    case OtherStatus => None
  }

  function AfterHook(records: map<string, Progress.ProgressRecord>, url: string, e: HookEvent)
    : map<string, Progress.ProgressRecord>
  {
    match HookTransition(e)
    case Some(t) => Progress.Step(records, url, t)
    case None => records
  }

  /** The records after the hook has seen `events` for `url`. */
  function AfterHooks(records: map<string, Progress.ProgressRecord>, url: string, events: seq<HookEvent>)
    : map<string, Progress.ProgressRecord>
    decreases |events|
  {
    if events == [] then records
    else AfterHook(AfterHooks(records, url, events[..|events| - 1]), url, events[|events| - 1])
  }

  /** The hooks change only the URL's own record and track no new URL. */
  lemma {:induction false} AfterHooksTouchOneRecord(records: map<string, Progress.ProgressRecord>, url: string,
                                                    events: seq<HookEvent>)
    ensures AfterHooks(records, url, events).Keys == records.Keys
    ensures forall u :: u in records && u != url ==> AfterHooks(records, url, events)[u] == records[u]
    decreases |events|
  {
    if events != [] {
      var before := AfterHooks(records, url, events[..|events| - 1]);
      AfterHooksTouchOneRecord(records, url, events[..|events| - 1]);
      var t := HookTransition(events[|events| - 1]);
      if t.Some? {
        Progress.StepTouchesOneRecord(before, url, t.value);
      }
    }
  }

  /** After a `finished` event the record is COMPLETED at full percent. */
  lemma FinishedCompletes(records: map<string, Progress.ProgressRecord>, url: string, events: seq<HookEvent>, at: real)
    requires url in records
    ensures var after := AfterHooks(records, url, events + [Finished(at)]);
      url in after && after[url].state == Progress.Completed && after[url].progressPercent == 100.0
  {
    AfterHooksTouchOneRecord(records, url, events);
    assert (events + [Finished(at)])[..|events|] == events;
  }

  /** `_on_progress_update`'s test: save when the record is DOWNLOADING and
      its last update is more than five seconds before the clock. */
  predicate SavesOnNotify(r: Progress.ProgressRecord, now: real) {
    r.state == Progress.Downloading && now - r.lastUpdate > 5.0
  }

  /** Every notification comes right after the tracker sets the record's
      last update to the clock, or leaves it in a state other than
      DOWNLOADING, so the periodic save never happens. */
  lemma NotifyNeverSaves(r: Progress.ProgressRecord, t: Progress.Transition, url: string, title: string,
                         format: string, quality: string, now: real)
    ensures t.Update? ==> !SavesOnNotify(Progress.Applied(r, t), t.now)
    ensures t.Complete? || t.Fail? ==> !SavesOnNotify(Progress.Applied(r, t), now)
    ensures !SavesOnNotify(Progress.Started(url, title, format, quality, now), now)
  {
  }

  // ---------------------------------------------------------------------
  // The transfer engine and the retry strategy

  /** What one call of `ydl.download([url])` did: the hook events it
      emitted and whether it returned or raised. */
  datatype Attempt = Attempt(events: seq<HookEvent>, outcome: ErrorHandling.CallOutcome<()>)

  /** The k-th call of the engine with the given options. */
  type Engine = (Config.YdlOptions, nat) -> Attempt

  function Outcomes(engine: Engine, options: Config.YdlOptions): nat -> ErrorHandling.CallOutcome<()> {
    (k: nat) => engine(options, k).outcome
  }

  /** The hook events of the first `n` calls, in order. */
  function AttemptEvents(engine: Engine, options: Config.YdlOptions, n: nat): seq<HookEvent> {
    if n == 0 then [] else AttemptEvents(engine, options, n - 1) + engine(options, n - 1).events
  }

  /** The retry strategy `_download_single` builds from the settings; the
      maximum delay and jitter keep their defaults. */
  function StrategyFor(c: Config.DownloadConfig): ErrorHandling.RetryStrategy {
    ErrorHandling.RetryStrategy(c.maxRetries, c.retryDelay, 60.0, c.exponentialBackoff, true)
  }

  /** The settings after the task's overrides. */
  function Overridden(c: Config.DownloadConfig, task: DownloadTask): Config.DownloadConfig {
    Config.ApplyItems(c, task.overrides)
  }

  /** The options yt-dlp gets for the settings. */
  function OptionsOf(c: Config.DownloadConfig, cookiesFileExists: bool): Config.YdlOptions {
    Config.OptionsFor(c, Config.FormatSelector(c), cookiesFileExists)
  }

  /** The tracker's records once a saved, resumable record has been put
      back for the URL. */
  function Resumed(records: map<string, Progress.ProgressRecord>, data: map<string, Progress.SavedState>,
                   url: string, now: real): map<string, Progress.ProgressRecord> {
    if Progress.Resumable(data, url) then records[url := Progress.Loaded(data, url, now).value] else records
  }

  function Cancelled(records: map<string, Progress.ProgressRecord>, url: string): map<string, Progress.ProgressRecord> {
    if url in records then records[url := records[url].(state := Progress.Cancelled)] else records
  }

  /** Snapshot of the manager's collaborators: the settings, the tracker's
      records, the resume store, the history and the error history. */
  datatype Snapshot = Snapshot(
    config: Config.DownloadConfig,
    records: map<string, Progress.ProgressRecord>,
    saved: map<string, Progress.SavedState>,
    entries: seq<Progress.HistoryEntry>,
    errors: seq<ErrorHandling.DownloadError>)

  /** How the retries and the end of `_download_single` leave things, from
      the state `before` just after the record was started and the task's
      overrides applied, so that `before.config` is the overridden
      settings: the retry wrapper calls the engine with their options and
      the hooks see the events of the calls it made. Then either the
      wrapper returned (also when it never called the engine): the record
      is completed, its entry added to the history and the saved state
      dropped; or it re-raised `e`: the error is recorded with the URL, the
      record failed with `e`'s text and saved. */
  ghost predicate Concluded(before: Snapshot, after: Snapshot, classify: ErrorHandling.Exception -> ErrorHandling.ErrorCategory,
                            url: string, engine: Engine, cookiesFileExists: bool,
                            draws: nat -> real, clock: nat -> real, now: real, ok: bool)
  {
    var run := RunOf(before.config, classify, engine, cookiesFileExists, draws, clock);
    var hooked := AfterHooks(before.records, url, EventsOf(before.config, classify, engine, cookiesFileExists, draws, clock));
    var errors := before.errors + ErrorsOf(before.config, classify, engine, cookiesFileExists, draws, clock);
    && after.config == before.config
    && (ok <==> !run.outcome.Reraise?)
    && url in after.records
    && (ok ==>
      && after.records == Progress.Step(hooked, url, Progress.Complete(now))
      && after.entries == before.entries + [Progress.EntryOf(after.records[url])]
      && after.saved == before.saved - {url}
      && after.errors == errors)
    && (!ok ==>
      var e := run.outcome.exception;
      && after.records == Progress.Step(hooked, url, Progress.Fail(e.text, now))
      && after.entries == before.entries
      && after.saved == before.saved[url := Progress.SavedState(after.records[url], now)]
      && after.errors == errors + [ErrorHandling.DownloadError(classify(e), e.text, Some(e), Some(url), 0, now)])
  }

  /** How the retry wrapper runs the engine for settings `c`. */
  function RunOf(c: Config.DownloadConfig, classify: ErrorHandling.Exception -> ErrorHandling.ErrorCategory,
                 engine: Engine, cookiesFileExists: bool, draws: nat -> real, clock: nat -> real): ErrorHandling.RetryTrace<()> {
    ErrorHandling.RetryRun(StrategyFor(c), classify, Outcomes(engine, OptionsOf(c, cookiesFileExists)), draws, clock)
  }

  /** The errors the wrapper records for settings `c`. */
  function ErrorsOf(c: Config.DownloadConfig, classify: ErrorHandling.Exception -> ErrorHandling.ErrorCategory,
                    engine: Engine, cookiesFileExists: bool, draws: nat -> real, clock: nat -> real): seq<ErrorHandling.DownloadError> {
    ErrorHandling.FailureLog(classify, Outcomes(engine, OptionsOf(c, cookiesFileExists)), clock,
                             RunOf(c, classify, engine, cookiesFileExists, draws, clock).calls)
  }

  /** The hook events of the calls the wrapper makes for settings `c`. */
  function EventsOf(c: Config.DownloadConfig, classify: ErrorHandling.Exception -> ErrorHandling.ErrorCategory,
                    engine: Engine, cookiesFileExists: bool, draws: nat -> real, clock: nat -> real): seq<HookEvent> {
    AttemptEvents(engine, OptionsOf(c, cookiesFileExists), RunOf(c, classify, engine, cookiesFileExists, draws, clock).calls)
  }

  /** The state once the record is started with the format and quality
      set before the overrides, and the task's overrides are applied to the
      shared settings, where they stay. */
  function StartedFor(before: Snapshot, task: DownloadTask, title: string, now: real): Snapshot {
    before.(config := Overridden(before.config, task),
            records := before.records[task.url :=
              Progress.Started(task.url, title, before.config.format, before.config.quality, now)])
  }

  /** How `_download_single` leaves things when the video's metadata was
      found, with title `title`: a resumable saved record is put back, the
      record is started, the overrides applied, and the retries run and
      end as `Concluded` says. */
  ghost predicate Downloaded(before: Snapshot, after: Snapshot, classify: ErrorHandling.Exception -> ErrorHandling.ErrorCategory,
                             task: DownloadTask, title: string, engine: Engine, cookiesFileExists: bool,
                             draws: nat -> real, clock: nat -> real, now: real, ok: bool)
  {
    var resumed := before.(records := Resumed(before.records, before.saved, task.url, now));
    Concluded(StartedFor(resumed, task, title, now), after, classify, task.url, engine, cookiesFileExists, draws, clock, now, ok)
  }

  /** The record put back for a resumable download is replaced at once by
      the freshly started one, so resuming leaves the same state as not
      resuming; the saved entry itself stays in the store. */
  lemma ResumeIsOverwritten(before: Snapshot, task: DownloadTask, title: string, now: real)
    ensures var resumed := before.(records := Resumed(before.records, before.saved, task.url, now));
      StartedFor(resumed, task, title, now) == StartedFor(before, task, title, now)
  {
  }

  /** A completed download's record is COMPLETED with its history entry a
      success; a failed one's is FAILED with the exception's text, saved
      for a resume, and no history entry. */
  lemma FinishedOutcome(before: Snapshot, after: Snapshot, classify: ErrorHandling.Exception -> ErrorHandling.ErrorCategory,
                        url: string, engine: Engine, cookiesFileExists: bool,
                        draws: nat -> real, clock: nat -> real, now: real, ok: bool)
    requires Concluded(before, after, classify, url, engine, cookiesFileExists, draws, clock, now, ok)
    ensures url in after.records
    ensures ok ==>
      && after.records[url].state == Progress.Completed
      && |after.entries| == |before.entries| + 1 && after.entries[|before.entries|].success
      && url !in after.saved
    ensures !ok ==>
      && after.records[url].state == Progress.Failed
      && after.entries == before.entries
      && url in after.saved && after.saved[url].progress.state == Progress.Failed
  {
  }

  /** With a negative `retry_delay`, a first call that raises a retryable
      error makes the sleep raise `ValueError`, and the download fails with
      that exception's text after that one call. */
  lemma NegativeRetryDelayFails(before: Snapshot, after: Snapshot,
                                classify: ErrorHandling.Exception -> ErrorHandling.ErrorCategory,
                                url: string, engine: Engine, cookiesFileExists: bool,
                                draws: nat -> real, clock: nat -> real, now: real, ok: bool)
    requires before.config.retryDelay < 0.0 && before.config.maxRetries >= 1 && 0.0 <= draws(0) < 1.0
    requires engine(OptionsOf(before.config, cookiesFileExists), 0).outcome.Raised?
    requires classify(engine(OptionsOf(before.config, cookiesFileExists), 0).outcome.exception)
      !in {ErrorHandling.ContentUnavailable, ErrorHandling.Authentication}
    requires Concluded(before, after, classify, url, engine, cookiesFileExists, draws, clock, now, ok)
    ensures RunOf(before.config, classify, engine, cookiesFileExists, draws, clock)
      == ErrorHandling.RetryTrace(ErrorHandling.Reraise(ErrorHandling.SleepLengthError), 1)
    ensures !ok && url in after.records && after.records[url].state == Progress.Failed
  {
    var s := StrategyFor(before.config);
    ErrorHandling.SleepRaisesIffNegative(s, draws, 0);
    ErrorHandling.NegativeDelayRaises(s, classify, Outcomes(engine, OptionsOf(before.config, cookiesFileExists)), draws, clock);
    FinishedOutcome(before, after, classify, url, engine, cookiesFileExists, draws, clock, now, ok);
  }

  /** Setting a key adds at most one entry. */
  lemma UpdateCard<K, V>(m: map<K, V>, k: K, v: V)
    ensures |m[k := v]| <= |m| + 1
  {
    if k in m {
      assert m[k := v].Keys == m.Keys;
    } else {
      assert m[k := v].Keys == m.Keys + {k};
    }
  }

  /** Removing a key takes away at most one entry. */
  lemma RemoveCard<K, V>(m: map<K, V>, k: K)
    ensures |m - {k}| <= |m|
  {
    if k in m {
      assert (m - {k}).Keys == m.Keys - {k};
    } else {
      assert m - {k} == m;
    }
  }

  // ---------------------------------------------------------------------
  // The manager

  /** The manager's task tables and counters, as values. */
  datatype Tables = Tables(
    active: map<string, DownloadTask>,
    completed: map<string, DownloadTask>,
    failed: map<string, DownloadTask>,
    stats: Statistics)

  /** `on_complete` as written: the closure reads the loop variable `task`
      when the download finishes, by which time it holds the task admitted
      last (`admittedSoFar`'s last element), not necessarily the one that
      finished. That task is filed and removed from the active table. */
  function OnCompleteAsWritten(t: Tables, admittedSoFar: seq<DownloadTask>, result: ErrorHandling.CallOutcome<bool>)
    : (r: Tables)
    requires admittedSoFar != []
    ensures var bound := admittedSoFar[|admittedSoFar| - 1];
      && r.active == t.active - {bound.taskId}
      && (result == ErrorHandling.Returned(true) ==> r.completed == t.completed[bound.taskId := bound])
      && (result != ErrorHandling.Returned(true) ==> r.failed == t.failed[bound.taskId := bound])
  {
    var bound := admittedSoFar[|admittedSoFar| - 1];
    if result == ErrorHandling.Returned(true)
    then t.(active := t.active - {bound.taskId}, completed := t.completed[bound.taskId := bound],
            stats := t.stats.(totalCompleted := t.stats.totalCompleted + 1))
    else t.(active := t.active - {bound.taskId}, failed := t.failed[bound.taskId := bound],
            stats := t.stats.(totalFailed := t.stats.totalFailed + 1))
  }

  /** Task `a` is admitted, then task `b`; `a` finishes first while `b` is
      still running. As written, `b` is filed as completed and leaves the
      active table, while `a`, which did finish, stays active for good. */
  lemma LateBindingFilesWrongTask(a: DownloadTask, b: DownloadTask, stats: Statistics)
    requires a.taskId != b.taskId
    ensures var t := Tables(map[a.taskId := a, b.taskId := b], map[], map[], stats);
      var r := OnCompleteAsWritten(t, [a, b], ErrorHandling.Returned(true));
      && a.taskId in r.active && a.taskId !in r.completed
      && b.taskId !in r.active && r.completed == map[b.taskId := b]
  {
    var t := Tables(map[a.taskId := a, b.taskId := b], map[], map[], stats);
    var r := OnCompleteAsWritten(t, [a, b], ErrorHandling.Returned(true));
    assert r.active == t.active - {b.taskId};
    assert r.active[a.taskId] == a;
  }

  class DownloadManager {
    const configManager: Config.ConfigManager
    const tracker: Progress.ProgressTracker
    const stateManager: Progress.StateManager
    const history: Progress.DownloadHistory
    const errorHandler: ErrorHandling.ErrorHandler

    /** The tasks waiting in the priority queue, in no particular order. */
    var queue: seq<DownloadTask>
    var active: map<string, DownloadTask>
    var completed: map<string, DownloadTask>
    var failed: map<string, DownloadTask>
    var stats: Statistics
    /** How many tasks have left the queue for the active table. */
    ghost var admitted: nat

    /** The tracker's records are unshared, every task counted as queued is
        still queued or was admitted, and no more tasks are active than were
        admitted. */
    ghost predicate Valid()
      reads this, tracker
    {
      tracker.Valid() && stats.totalQueued == |queue| + admitted && |active| <= admitted
    }

    /** The state `_download_single` works on. */
    function Snap(): Snapshot
      reads this, configManager, tracker, tracker.downloads.Values, stateManager, history, errorHandler
    {
      Snapshot(configManager.config, tracker.Records(), stateManager.stateData, history.entries,
               errorHandler.errorHistory)
    }

    /** `DownloadManager(config_manager)`: empty tables and zero counts;
        `persistedState` and `persistedHistory` are what the resume store and
        the history load from disk, `now` the clock. */
    constructor (configManager: Config.ConfigManager, persistedState: map<string, Progress.SavedState>,
                 persistedHistory: seq<Progress.HistoryEntry>, now: real)
      ensures Valid()
      ensures this.configManager == configManager
      ensures tracker.downloads == map[] && stateManager.stateData == persistedState
      ensures history.entries == persistedHistory && errorHandler.errorHistory == []
      ensures errorHandler.classify == ErrorHandling.ClassifyError
      ensures queue == [] && active == map[] && completed == map[] && failed == map[]
      ensures stats == Statistics(0, 0, 0, 0, now)
    {
      this.configManager := configManager;
      tracker := new Progress.ProgressTracker();
      stateManager := new Progress.StateManager(persistedState);
      history := new Progress.DownloadHistory(persistedHistory);
      errorHandler := new ErrorHandling.ErrorHandler(None);
      queue := [];
      active := map[];
      completed := map[];
      failed := map[];
      stats := Statistics(0, 0, 0, 0, now);
      admitted := 0;
    }

    /** `add_download`: an invalid URL is refused with nothing changed;
        a valid one is normalized and queued as a new task whose id comes
        from the clock reading `micros`. */
    method AddDownload(url: string, parse: string -> Option<Urls.ParsedUrl>, priority: DownloadPriority,
                       overrides: seq<(string, Config.ConfigValue)>, hasCallback: bool, micros: nat)
      returns (r: Result<string, AddError>)
      requires Valid()
      modifies this`queue, this`stats
      ensures Valid()
      ensures r == if Urls.IsValidYoutubeUrl(url) then Ok(TaskIdAt(micros)) else Err(InvalidUrl(url))
      ensures queue == old(queue) + Queued(url, parse, priority, overrides, hasCallback, micros)
      ensures stats == old(stats).(totalQueued := old(stats).totalQueued + |Queued(url, parse, priority, overrides, hasCallback, micros)|)
    {
      if !Urls.IsValidYoutubeUrl(url) {
        return Err(InvalidUrl(url));
      }
      var normalized := Urls.NormalizeYoutubeUrl(url, parse(url));
      var task := NewTask(normalized, priority, overrides, hasCallback, micros);
      queue := queue + [task];
      stats := stats.(totalQueued := stats.totalQueued + 1);
      return Ok(task.taskId);
    }

    /** `add_batch_downloads`: each URL in turn, keeping the ids of the ones
        accepted and skipping the rest; `clock(k)` is the microsecond clock
        when the k-th URL is added. */
    method AddBatchDownloads(urls: seq<string>, parse: string -> Option<Urls.ParsedUrl>,
                             priority: DownloadPriority, overrides: seq<(string, Config.ConfigValue)>,
                             clock: nat -> nat)
      returns (taskIds: seq<string>)
      requires Valid()
      modifies this`queue, this`stats
      ensures Valid()
      ensures queue == old(queue) + BatchTasks(urls, parse, priority, overrides, clock)
      ensures taskIds == Ids(BatchTasks(urls, parse, priority, overrides, clock))
      ensures stats == old(stats).(totalQueued := old(stats).totalQueued + |BatchTasks(urls, parse, priority, overrides, clock)|)
    {
      taskIds := [];
      var i := 0;
      while i < |urls|
        invariant 0 <= i <= |urls|
        invariant Valid()
        invariant queue == old(queue) + BatchTasks(urls[..i], parse, priority, overrides, clock)
        invariant taskIds == Ids(BatchTasks(urls[..i], parse, priority, overrides, clock))
        invariant stats == old(stats).(totalQueued := old(stats).totalQueued + |BatchTasks(urls[..i], parse, priority, overrides, clock)|)
      {
        taskIds := AddBatchItem(urls, i, parse, priority, overrides, clock, taskIds, old(queue), old(stats));
        i := i + 1;
      }
      assert urls[..i] == urls;
    }

    /** One pass of `add_batch_downloads`' loop: the i-th URL is added and
        its id kept if it was accepted. `queue0` and `stats0` are the state
        the batch started from. */
    method AddBatchItem(urls: seq<string>, i: nat, parse: string -> Option<Urls.ParsedUrl>,
                        priority: DownloadPriority, overrides: seq<(string, Config.ConfigValue)>,
                        clock: nat -> nat, taskIds: seq<string>, ghost queue0: seq<DownloadTask>, ghost stats0: Statistics)
      returns (taskIds': seq<string>)
      requires Valid() && i < |urls|
      requires queue == queue0 + BatchTasks(urls[..i], parse, priority, overrides, clock)
      requires taskIds == Ids(BatchTasks(urls[..i], parse, priority, overrides, clock))
      requires stats == stats0.(totalQueued := stats0.totalQueued + |BatchTasks(urls[..i], parse, priority, overrides, clock)|)
      modifies this`queue, this`stats
      ensures Valid()
      ensures queue == queue0 + BatchTasks(urls[..i + 1], parse, priority, overrides, clock)
      ensures taskIds' == Ids(BatchTasks(urls[..i + 1], parse, priority, overrides, clock))
      ensures stats == stats0.(totalQueued := stats0.totalQueued + |BatchTasks(urls[..i + 1], parse, priority, overrides, clock)|)
    {
      ghost var before := BatchTasks(urls[..i], parse, priority, overrides, clock);
      ghost var step := Queued(urls[i], parse, priority, overrides, false, clock(i));
      BatchTasksSnoc(urls, i, parse, priority, overrides, clock);
      IdsAppend(before, step);
      var r := AddDownload(urls[i], parse, priority, overrides, false, clock(i));
      taskIds' := taskIds;
      if r.Ok? {
        taskIds' := taskIds + [r.value];
      }
      assert queue0 + before + step == queue0 + (before + step);
    }

    /** One pass of `_process_queue`'s loop: when a slot is free and a task
        is waiting, a task no other queued task precedes leaves the queue
        and becomes active (its download is then handed to a worker, which
        runs `DownloadSingle`). Otherwise nothing changes. */
    method ProcessQueueStep() returns (started: Option<DownloadTask>)
      requires Valid()
      modifies this`queue, this`active, this`admitted
      ensures Valid()
      ensures started.None? ==>
        && queue == old(queue) && active == old(active)
        && (|old(active)| >= configManager.config.maxConcurrentDownloads || old(queue) == [])
      ensures started.Some? ==>
        && |old(active)| < configManager.config.maxConcurrentDownloads
        && started.value in old(queue)
        && (forall t :: t in old(queue) ==> !TaskLess(t, started.value))
        && multiset(queue) == multiset(old(queue)) - multiset{started.value}
        && active == old(active)[started.value.taskId := started.value]
      ensures |old(active)| <= configManager.config.maxConcurrentDownloads ==>
        |active| <= configManager.config.maxConcurrentDownloads
    {
      if |active| >= configManager.config.maxConcurrentDownloads {
        return None;
      }
      if queue == [] {
        return None;
      }
      var _ := NextExists(queue);
      var i :| 0 <= i < |queue| && IsNext(queue, i);
      var task := queue[i];
      assert IsNext(queue, i);
      assert forall j :: 0 <= j < |queue| ==> !TaskLess(queue[j], queue[i]);
      forall t | t in queue
        ensures !TaskLess(t, task)
      {
        var j :| 0 <= j < |queue| && queue[j] == t;
        assert !TaskLess(queue[j], queue[i]);
      }
      queue := RemoveAt(queue, i);
      admitted := admitted + 1;
      UpdateCard(active, task.taskId, task);
      active := active[task.taskId := task];
      return Some(task);
    }

    /** `on_complete` for the task whose download finished with `result`
        (`Raised` when the worker raised): the task moves from the active
        table to the completed or the failed one, that one counter rises,
        and the task's callback, if any, is called with the task and the
        result; an exception in the callback is swallowed. */
    method Complete(task: DownloadTask, result: ErrorHandling.CallOutcome<bool>)
      returns (callbackCall: Option<(DownloadTask, bool)>)
      requires Valid()
      modifies this`active, this`completed, this`failed, this`stats
      ensures Valid()
      ensures var ok := result == ErrorHandling.Returned(true);
        && active == old(active) - {task.taskId}
        && (ok ==> completed == old(completed)[task.taskId := task] && failed == old(failed)
                   && stats == old(stats).(totalCompleted := old(stats).totalCompleted + 1))
        && (!ok ==> failed == old(failed)[task.taskId := task] && completed == old(completed)
                    && stats == old(stats).(totalFailed := old(stats).totalFailed + 1))
        && callbackCall == if task.hasCallback then Some((task, ok)) else None
    {
      var ok := false;
      match result {
        case Returned(b) =>
          ok := b;
          if b {
            completed := completed[task.taskId := task];
            stats := stats.(totalCompleted := stats.totalCompleted + 1);
          } else {
            failed := failed[task.taskId := task];
            stats := stats.(totalFailed := stats.totalFailed + 1);
          }
        case Raised(_) =>
          failed := failed[task.taskId := task];
          stats := stats.(totalFailed := stats.totalFailed + 1);
      }
      assert ok <==> result == ErrorHandling.Returned(true);
      RemoveCard(active, task.taskId);
      active := active - {task.taskId};
      callbackCall := if task.hasCallback then Some((task, ok)) else None;
    }

    /** `_on_progress_update`, the tracker's callback, at clock `now`. */
    method OnProgressUpdate(url: string, progress: Progress.DownloadProgress, now: real)
      modifies stateManager
      ensures stateManager.stateData ==
        if SavesOnNotify(progress.fields, now)
        then old(stateManager.stateData)[url := Progress.SavedState(progress.fields, now)]
        else old(stateManager.stateData)
    {
      if progress.fields.state == Progress.Downloading {
        if now - progress.fields.lastUpdate > 5.0 {
          stateManager.SaveDownloadState(url, progress, now);
        }
      }
    }

    /** `_progress_hook(d, url)`: a `downloading` event updates the record
        with the bytes so far, the total or its estimate and the speed; a
        `finished` event completes it; the tracker's callback never saves. */
    method ProgressHook(d: HookEvent, url: string)
      requires tracker.Valid()
      modifies tracker.downloads.Values, stateManager
      ensures tracker.Valid() && tracker.downloads == old(tracker.downloads)
      ensures tracker.Records() == AfterHook(old(tracker.Records()), url, d)
      ensures stateManager.stateData == old(stateManager.stateData)
    {
      match d {
        case Downloading(downloaded, total, estimate, speed, at) =>
          var notified := tracker.UpdateDownload(url, downloaded, Some(HookTotal(total, estimate)), speed, at);
          if notified {
            OnProgressUpdate(url, tracker.downloads[url], at);
          }
        case Finished(at) =>
          var notified := tracker.CompleteDownload(url, at);
          if notified {
            OnProgressUpdate(url, tracker.downloads[url], at);
          }
        case OtherStatus =>
      }
    }

    /** The hook called for each event in turn. */
    method RunHooks(events: seq<HookEvent>, url: string)
      requires tracker.Valid()
      modifies tracker.downloads.Values, stateManager
      ensures tracker.Valid() && tracker.downloads == old(tracker.downloads)
      ensures tracker.Records() == AfterHooks(old(tracker.Records()), url, events)
      ensures stateManager.stateData == old(stateManager.stateData)
    {
      var i := 0;
      while i < |events|
        invariant 0 <= i <= |events|
        invariant tracker.Valid() && tracker.downloads == old(tracker.downloads)
        invariant tracker.Records() == AfterHooks(old(tracker.Records()), url, events[..i])
        invariant stateManager.stateData == old(stateManager.stateData)
      {
        assert events[..i + 1][..i] == events[..i];
        ProgressHook(events[i], url);
        i := i + 1;
      }
      assert events[..i] == events;
    }

    /** The resume step of `_download_single`: a saved record that can be
        resumed is loaded and put in the tracker directly, without
        notifying anyone. */
    method ResumeSaved(url: string, now: real)
      requires tracker.Valid()
      modifies tracker
      ensures tracker.Valid()
      ensures tracker.Records() == Resumed(old(tracker.Records()), stateManager.stateData, url, now)
      ensures forall p :: p in tracker.downloads.Values ==> p in old(tracker.downloads.Values) || fresh(p)
    {
      var resumable := stateManager.CanResumeDownload(url, now);
      if resumable {
        var saved := stateManager.GetDownloadState(url, now);
        if saved.Some? {
          tracker.downloads := tracker.downloads[url := saved.value];
        }
      }
    }

    /** Starting the record and the tracker's notification. */
    method StartTracking(url: string, title: string, now: real) returns (progress: Progress.DownloadProgress)
      requires tracker.Valid()
      modifies tracker, stateManager
      ensures tracker.Valid() && fresh(progress)
      ensures tracker.downloads == old(tracker.downloads)[url := progress]
      ensures tracker.Records() == old(tracker.Records())[url :=
        Progress.Started(url, title, configManager.config.format, configManager.config.quality, now)]
      ensures stateManager.stateData == old(stateManager.stateData)
    {
      var config := configManager.config;
      progress := tracker.StartDownload(url, title, config.format, config.quality, now);
      assert progress.fields == tracker.Records()[url];
      OnProgressUpdate(url, progress, now);
    }

    /** The success path: the record is completed, the history gains its
        entry and the saved state is dropped. */
    method FinishSuccess(url: string, progress: Progress.DownloadProgress, now: real)
      requires tracker.Valid() && url in tracker.downloads && tracker.downloads[url] == progress
      modifies tracker.downloads.Values, stateManager, history
      ensures tracker.Valid() && tracker.downloads == old(tracker.downloads)
      ensures tracker.Records() == Progress.Step(old(tracker.Records()), url, Progress.Complete(now))
      ensures history.entries == old(history.entries) + [Progress.EntryOf(tracker.Records()[url])]
      ensures stateManager.stateData == old(stateManager.stateData) - {url}
    {
      var notified := tracker.CompleteDownload(url, now);
      OnProgressUpdate(url, progress, now);
      history.AddEntry(progress);
      stateManager.RemoveDownloadState(url);
    }

    /** The failure path: the error is recorded with the URL, the record is
        failed with the exception's text and saved for a later resume. */
    method FinishFailure(url: string, e: ErrorHandling.Exception, now: real)
      requires tracker.Valid()
      modifies tracker.downloads.Values, stateManager, errorHandler`errorHistory
      ensures tracker.Valid() && tracker.downloads == old(tracker.downloads)
      ensures tracker.Records() == Progress.Step(old(tracker.Records()), url, Progress.Fail(e.text, now))
      ensures errorHandler.errorHistory == old(errorHandler.errorHistory)
        + [ErrorHandling.DownloadError(errorHandler.classify(e), e.text, Some(e), Some(url), 0, now)]
      ensures stateManager.stateData == if url in tracker.downloads
        then old(stateManager.stateData)[url := Progress.SavedState(tracker.Records()[url], now)]
        else old(stateManager.stateData)
    {
      var error := errorHandler.HandleError(e, Some(url), now);
      var notified := tracker.FailDownload(url, e.text, now);
      if notified {
        OnProgressUpdate(url, tracker.downloads[url], now);
      }
      if url in tracker.downloads {
        stateManager.SaveDownloadState(url, tracker.downloads[url], now);
      }
    }

    /** `_download_single(task)` given what the metadata lookup found (the
        video's title, or `None` when there is no metadata) and the engine;
        `draws` and `clock` feed the retry wrapper's jitter and error times
        and `now` is the clock of the other steps. It reports whether the
        download succeeded. */
    method DownloadSingle(task: DownloadTask, title: Option<string>, engine: Engine, cookiesFileExists: bool,
                          draws: nat -> real, clock: nat -> real, now: real) returns (ok: bool)
      requires tracker.Valid()
      modifies tracker, tracker.downloads.Values, stateManager, history, errorHandler`errorHistory, configManager
      ensures tracker.Valid()
      ensures title.None? ==> !ok && Snap() == old(Snap()).(records :=
        Resumed(old(tracker.Records()), old(stateManager.stateData), task.url, now))
      ensures title.Some? ==>
        Downloaded(old(Snap()), Snap(), errorHandler.classify, task, title.value, engine, cookiesFileExists, draws, clock, now, ok)
    {
      ResumeSaved(task.url, now);
      if title.None? {
        return false;
      }
      ok := Transfer(task, title.value, engine, cookiesFileExists, draws, clock, now);
    }

    /** `_download_single` from the start of tracking on. */
    method Transfer(task: DownloadTask, title: string, engine: Engine, cookiesFileExists: bool,
                    draws: nat -> real, clock: nat -> real, now: real) returns (ok: bool)
      requires tracker.Valid()
      modifies tracker, tracker.downloads.Values, stateManager, history, errorHandler`errorHistory, configManager
      ensures tracker.Valid()
      ensures Concluded(StartedFor(old(Snap()), task, title, now), Snap(), errorHandler.classify, task.url, engine,
                        cookiesFileExists, draws, clock, now, ok)
    {
      var progress := StartTracking(task.url, title, now);
      configManager.LoadConfigData(task.overrides);
      ghost var mid := Snap();
      assert mid == StartedFor(old(Snap()), task, title, now);
      ok := RunAndFinish(task.url, progress, engine, cookiesFileExists, draws, clock, now);
    }

    /** The retry wrapper around the engine, the hooks for the calls it
        made, and the success or failure path. */
    method RunAndFinish(url: string, progress: Progress.DownloadProgress, engine: Engine, cookiesFileExists: bool,
                        draws: nat -> real, clock: nat -> real, now: real) returns (ok: bool)
      requires tracker.Valid() && url in tracker.downloads && tracker.downloads[url] == progress
      modifies tracker.downloads.Values, stateManager, history, errorHandler`errorHistory
      ensures tracker.Valid()
      ensures Concluded(old(Snap()), Snap(), errorHandler.classify, url, engine, cookiesFileExists, draws, clock, now, ok)
    {
      var outcome := RunAttempts(url, engine, cookiesFileExists, draws, clock);
      ok := FinishWith(url, progress, outcome, now);
    }

    /** The retry wrapper with the strategy the settings give, calling the
        engine with their options, and the hooks for the calls it made. */
    method RunAttempts(url: string, engine: Engine, cookiesFileExists: bool, draws: nat -> real, clock: nat -> real)
      returns (outcome: ErrorHandling.RetryOutcome<()>)
      requires tracker.Valid()
      modifies tracker.downloads.Values, stateManager, errorHandler`errorHistory
      ensures tracker.Valid() && tracker.downloads == old(tracker.downloads)
      ensures var c := configManager.config;
        && outcome == RunOf(c, errorHandler.classify, engine, cookiesFileExists, draws, clock).outcome
        && tracker.Records() == AfterHooks(old(tracker.Records()), url, EventsOf(c, errorHandler.classify, engine, cookiesFileExists, draws, clock))
        && errorHandler.errorHistory == old(errorHandler.errorHistory) + ErrorsOf(c, errorHandler.classify, engine, cookiesFileExists, draws, clock)
      ensures stateManager.stateData == old(stateManager.stateData)
    {
      var options := configManager.GetYtDlpOptions(cookiesFileExists);
      var config := configManager.config;
      var strategy := ErrorHandling.RetryStrategy(config.maxRetries, config.retryDelay, 60.0, config.exponentialBackoff, true);
      assert strategy == StrategyFor(config);
      ghost var records := tracker.Records();
      assert records == old(tracker.Records());
      ghost var run := RunOf(config, errorHandler.classify, engine, cookiesFileExists, draws, clock);
      var calls, delays;
      outcome, calls, delays := ErrorHandling.WithRetry(Some(strategy), errorHandler, Outcomes(engine, options), draws, clock);
      assert outcome == run.outcome && calls == run.calls;
      assert tracker.Records() == records;
      ghost var events := EventsOf(config, errorHandler.classify, engine, cookiesFileExists, draws, clock);
      assert events == AttemptEvents(engine, options, calls);
      RunHooks(AttemptEvents(engine, options, calls), url);
      assert tracker.Records() == AfterHooks(records, url, events);
      assert configManager.config == config;
    }

    /** The end of `_download_single`: the failure path when the wrapper
        re-raised, the success path otherwise. */
    method FinishWith(url: string, progress: Progress.DownloadProgress, outcome: ErrorHandling.RetryOutcome<()>, now: real)
      returns (ok: bool)
      requires tracker.Valid() && url in tracker.downloads && tracker.downloads[url] == progress
      modifies tracker.downloads.Values, stateManager, history, errorHandler`errorHistory
      ensures tracker.Valid() && tracker.downloads == old(tracker.downloads)
      ensures ok <==> !outcome.Reraise?
      ensures ok ==>
        && tracker.Records() == Progress.Step(old(tracker.Records()), url, Progress.Complete(now))
        && history.entries == old(history.entries) + [Progress.EntryOf(tracker.Records()[url])]
        && stateManager.stateData == old(stateManager.stateData) - {url}
        && errorHandler.errorHistory == old(errorHandler.errorHistory)
      ensures !ok ==>
        var e := outcome.exception;
        && tracker.Records() == Progress.Step(old(tracker.Records()), url, Progress.Fail(e.text, now))
        && history.entries == old(history.entries)
        && stateManager.stateData == old(stateManager.stateData)[url := Progress.SavedState(tracker.Records()[url], now)]
        && errorHandler.errorHistory == old(errorHandler.errorHistory)
          + [ErrorHandling.DownloadError(errorHandler.classify(e), e.text, Some(e), Some(url), 0, now)]
    {
      if outcome.Reraise? {
        FinishFailure(url, outcome.exception, now);
        return false;
      }
      FinishSuccess(url, progress, now);
      return true;
    }

    /** `pause_download`: true exactly when the task is active, and then its
        record, if any, is PAUSED. */
    method PauseDownload(taskId: string) returns (found: bool)
      requires tracker.Valid()
      modifies tracker.downloads.Values
      ensures tracker.Valid() && tracker.downloads == old(tracker.downloads)
      ensures found <==> taskId in active
      ensures tracker.Records() == if found
        then Progress.Step(old(tracker.Records()), active[taskId].url, Progress.Pause)
        else old(tracker.Records())
    {
      if taskId in active {
        tracker.PauseDownload(active[taskId].url);
        return true;
      }
      return false;
    }

    /** `resume_download`: true exactly when the task is active, and then
        its record, if any, is DOWNLOADING. */
    method ResumeDownload(taskId: string) returns (found: bool)
      requires tracker.Valid()
      modifies tracker.downloads.Values
      ensures tracker.Valid() && tracker.downloads == old(tracker.downloads)
      ensures found <==> taskId in active
      ensures tracker.Records() == if found
        then Progress.Step(old(tracker.Records()), active[taskId].url, Progress.Resume)
        else old(tracker.Records())
    {
      if taskId in active {
        tracker.ResumeDownload(active[taskId].url);
        return true;
      }
      return false;
    }

    /** `cancel_download`: true exactly when the task is active, and then
        its record, if any, is CANCELLED; the task stays active and the
        transfer goes on. */
    method CancelDownload(taskId: string) returns (found: bool)
      requires tracker.Valid()
      modifies tracker.downloads.Values
      ensures tracker.Valid() && tracker.downloads == old(tracker.downloads)
      ensures found <==> taskId in active
      ensures tracker.Records() == if found
        then Cancelled(old(tracker.Records()), active[taskId].url)
        else old(tracker.Records())
    {
      if taskId in active {
        var task := active[taskId];
        var progress := tracker.GetProgress(task.url);
        if progress.Some? {
          var p := progress.value;
          assert forall u :: u in tracker.downloads && u != task.url ==> tracker.downloads[u] != p;
          p.fields := p.fields.(state := Progress.Cancelled);
        }
        return true;
      }
      return false;
    }

    /** `get_queue_status`: the sizes of the queue and the three tables and
        the counters; every task ever queued is still waiting or was
        admitted. */
    function GetQueueStatus(): (s: QueueStatus)
      reads this, tracker
      ensures s.queueSize == |queue| && s.activeDownloads == |active|
      ensures s.completedDownloads == |completed| && s.failedDownloads == |failed|
      ensures s.statistics == stats
      ensures Valid() ==> s.statistics.totalQueued == s.queueSize + admitted && s.activeDownloads <= admitted
    {
      QueueStatus(|queue|, |active|, |completed|, |failed|, stats)
    }

    /** `get_download_progress`: the live record of an active task. */
    function GetDownloadProgress(taskId: string): (p: Option<Progress.DownloadProgress>)
      reads this, tracker
      ensures p.Some? <==> taskId in active && active[taskId].url in tracker.downloads
      ensures p.Some? ==> p.value == tracker.downloads[active[taskId].url]
    {
      if taskId in active then tracker.GetProgress(active[taskId].url) else None
    }

    /** `clear_completed`: empties the completed and failed tables only. */
    method ClearCompleted()
      modifies this`completed, this`failed
      ensures completed == map[] && failed == map[]
    {
      completed := map[];
      failed := map[];
    }
  }
}
