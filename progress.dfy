/** Progress records and their state machine, the tracker that maps each URL
    to its live record, the resume store of saved records, and the ledger of
    finished downloads with its queries. Every clock reading is a `now`
    parameter. */
module Progress {
  import opened Wrappers
  import opened Text
  import opened Lists
  import Sorting

  datatype DownloadState =
    | Pending | Starting | Downloading | Paused | Completed | Failed | Cancelled
  {
    /** The enum member's value string. */
    function Value(): string {
      match this
      case Pending => "pending"
      case Starting => "starting"
      case Downloading => "downloading"
      case Paused => "paused"
      case Completed => "completed"
      case Failed => "failed"
      case Cancelled => "cancelled"
    }
  }

  /** The value of every field of a progress record (`asdict`). Byte counts
      are integers; speed, ETA, times and percent are exact reals. The
      `resume_data` dictionary is not a field here: it is always empty and
      nothing reads it. */
  datatype ProgressRecord = ProgressRecord(
    url: string,
    title: string,
    state: DownloadState,
    totalBytes: int,
    downloadedBytes: int,
    speed: real,
    eta: real,
    elapsedTime: real,
    progressPercent: real,
    filename: string,
    outputPath: string,
    format: string,
    quality: string,
    startTime: real,
    endTime: real,
    lastUpdate: real,
    errorMessage: string,
    retryCount: int)

  /** The dataclass defaults for a record of `url`. */
  function Defaults(url: string): ProgressRecord {
    ProgressRecord(url, "", Pending, 0, 0, 0.0, 0.0, 0.0, 0.0,
                   "", "", "", "", 0.0, 0.0, 0.0, "", 0)
  }

  /** `__post_init__`: an unset start time becomes the clock, and the last
      update time always does. */
  function PostInit(r: ProgressRecord, now: real): ProgressRecord {
    r.(startTime := if r.startTime == 0.0 then now else r.startTime, lastUpdate := now)
  }

  /** `downloaded / total * 100`. */
  function Percent(downloaded: int, total: int): real
    requires total > 0
  {
    (downloaded as real / total as real) * 100.0
  }

  /** Bytes per second over a positive time span. */
  function Rate(bytes: int, seconds: real): real
    requires seconds > 0.0
  {
    bytes as real / seconds
  }

  /** Seconds that `remaining` bytes take at a positive speed. */
  function TimeLeft(remaining: int, speed: real): real
    requires speed > 0.0
  {
    remaining as real / speed
  }

  /** The record `update_progress(downloaded, total, speed)` leaves at clock
      `now`. */
  function Updated(r: ProgressRecord, downloaded: int, total: Option<int>, speed: Option<real>,
                   now: real): ProgressRecord
  {
    var totalBytes := if total.Some? then total.value else r.totalBytes;
    var percent :=
      if totalBytes > 0 then Percent(downloaded, totalBytes) else r.progressPercent;
    var elapsed := now - r.startTime;
    var newSpeed :=
      if speed.Some? then speed.value
      else if elapsed > 0.0 then Rate(downloaded, elapsed)
      else r.speed;
    var eta :=
      if newSpeed > 0.0 && totalBytes > 0 then TimeLeft(totalBytes - downloaded, newSpeed)
      else r.eta;
    r.(downloadedBytes := downloaded, totalBytes := totalBytes, progressPercent := percent,
       elapsedTime := elapsed, speed := newSpeed, eta := eta, lastUpdate := now)
  }

  /** The record `mark_completed` leaves. */
  function CompletedAt(r: ProgressRecord, now: real): ProgressRecord {
    r.(state := Completed, endTime := now, progressPercent := 100.0)
  }

  /** The record `mark_failed(message)` leaves. */
  function FailedAt(r: ProgressRecord, message: string, now: real): ProgressRecord {
    r.(state := Failed, errorMessage := message, endTime := now)
  }

  /** The fields that describe the download rather than its progress. */
  predicate SameIdentity(a: ProgressRecord, b: ProgressRecord) {
    a.url == b.url && a.title == b.title && a.filename == b.filename
    && a.outputPath == b.outputPath && a.format == b.format && a.quality == b.quality
    && a.startTime == b.startTime && a.retryCount == b.retryCount
  }

  /** A part over a positive whole is a share between 0 and 100 percent. */
  lemma {:induction false} ShareBound(part: real, whole: real)
    requires 0.0 <= part <= whole && whole > 0.0
    ensures 0.0 <= (part / whole) * 100.0 <= 100.0
  {
    var q := part / whole;
    assert q * whole == part;
  }

  /** Dividing by a positive number and multiplying back gives the start. */
  lemma QuotientTimes(a: real, b: real)
    requires b > 0.0
    ensures (a / b) * b == a
  {
  }

  /** The byte counts are stored as given, a total replaces the old one only
      when one is given, and progress fields are all the update touches. */
  lemma UpdateStoresCounts(r: ProgressRecord, downloaded: int, total: Option<int>,
                           speed: Option<real>, now: real)
    ensures var u := Updated(r, downloaded, total, speed, now);
      && u.downloadedBytes == downloaded
      && u.totalBytes == (if total.Some? then total.value else r.totalBytes)
      && u.state == r.state && u.endTime == r.endTime && u.errorMessage == r.errorMessage
      && u.lastUpdate == now && u.elapsedTime == now - r.startTime
      && SameIdentity(u, r)
  {
  }

  /** With a positive total the percent is the downloaded share of it: within
      [0, 100] while the download does not overshoot the total, and 100
      exactly when it has reached the total. */
  lemma {:induction false} UpdatePercentIsShare(r: ProgressRecord, downloaded: int, total: Option<int>,
                                               speed: Option<real>, now: real)
    requires (if total.Some? then total.value else r.totalBytes) > 0
    ensures var u := Updated(r, downloaded, total, speed, now);
      && u.progressPercent * u.totalBytes as real == downloaded as real * 100.0
      && (0 <= downloaded <= u.totalBytes ==> 0.0 <= u.progressPercent <= 100.0)
      && (u.progressPercent == 100.0 <==> downloaded == u.totalBytes)
  {
    var u := Updated(r, downloaded, total, speed, now);
    var t := u.totalBytes as real;
    assert u.progressPercent == (downloaded as real / t) * 100.0;
    assert u.progressPercent * t == downloaded as real * 100.0;
    if 0 <= downloaded <= u.totalBytes {
      ShareBound(downloaded as real, t);
    }
  }

  /** The percent is not clamped: a download that overshoots its total shows
      more than 100. */
  lemma {:induction false} UpdatePercentNotClamped(r: ProgressRecord, downloaded: int, total: int,
                                                  speed: Option<real>, now: real)
    requires 0 < total < downloaded
    ensures Updated(r, downloaded, Some(total), speed, now).progressPercent > 100.0
  {
    assert downloaded as real / total as real > 1.0;
  }

  /** Without a positive total the percent is left as it was. */
  lemma UpdateKeepsPercent(r: ProgressRecord, downloaded: int, total: Option<int>,
                           speed: Option<real>, now: real)
    requires (if total.Some? then total.value else r.totalBytes) <= 0
    ensures Updated(r, downloaded, total, speed, now).progressPercent == r.progressPercent
  {
  }

  /** A supplied speed is stored as given; otherwise the speed is the average
      since the start when time has passed, and unchanged when none has. */
  lemma {:induction false} UpdateSpeed(r: ProgressRecord, downloaded: int, total: Option<int>,
                                      speed: Option<real>, now: real)
    ensures var u := Updated(r, downloaded, total, speed, now);
      && (speed.Some? ==> u.speed == speed.value)
      && (speed.None? && now - r.startTime > 0.0 ==> u.speed * u.elapsedTime == downloaded as real)
      && (speed.None? && now - r.startTime <= 0.0 ==> u.speed == r.speed)
  {
    var u := Updated(r, downloaded, total, speed, now);
    if speed.None? && now - r.startTime > 0.0 {
      assert u.speed == downloaded as real / u.elapsedTime;
    }
  }

  /** When both the speed and the total are positive, the ETA is the time the
      remaining bytes take at that speed; otherwise it is left as it was. */
  lemma {:induction false} UpdateEta(r: ProgressRecord, downloaded: int, total: Option<int>,
                                    speed: Option<real>, now: real)
    ensures var u := Updated(r, downloaded, total, speed, now);
      && (u.speed > 0.0 && u.totalBytes > 0 ==>
            downloaded as real + u.eta * u.speed == u.totalBytes as real)
      && (!(u.speed > 0.0 && u.totalBytes > 0) ==> u.eta == r.eta)
  {
    var u := Updated(r, downloaded, total, speed, now);
    if u.speed > 0.0 && u.totalBytes > 0 {
      assert u.eta == (u.totalBytes - downloaded) as real / u.speed;
    }
  }

  /** Completion shows 100 percent whatever the percent was, and completing
      twice differs from completing once only in the end time. */
  lemma CompletedShowsFull(r: ProgressRecord, now: real, later: real)
    ensures CompletedAt(r, now).progressPercent == 100.0
    ensures CompletedAt(r, now).state == Completed
    ensures CompletedAt(CompletedAt(r, now), later) == CompletedAt(r, later)
    ensures SameIdentity(CompletedAt(r, now), r)
  {
  }

  /** Failure keeps the message verbatim and leaves the progress fields. */
  lemma FailedKeepsMessage(r: ProgressRecord, message: string, now: real)
    ensures FailedAt(r, message, now).errorMessage == message
    ensures FailedAt(r, message, now).state == Failed
    ensures FailedAt(r, message, now).progressPercent == r.progressPercent
    ensures FailedAt(r, message, now).downloadedBytes == r.downloadedBytes
    ensures SameIdentity(FailedAt(r, message, now), r)
  {
  }

  /** How `get_human_readable_eta` splits an ETA into whole units. */
  datatype EtaParts =
    | UnknownEta
    | Secs(secs: int)
    | MinSecs(mins: int, secs: int)
    | HourMins(hours: int, mins: int)

  /** The whole units shown for `eta`: unknown unless positive, then whole
      seconds below a minute, minutes and seconds below an hour, and hours
      and minutes above. Each figure is the floor of the ETA in that unit
      system. */
  function EtaBreakdown(eta: real): (p: EtaParts)
    ensures p.UnknownEta? <==> eta <= 0.0
    ensures p.Secs? ==> 0 <= p.secs < 60 && p.secs as real <= eta < (p.secs + 1) as real
    ensures p.MinSecs? ==>
      1 <= p.mins < 60 && 0 <= p.secs < 60
      && (p.mins * 60 + p.secs) as real <= eta < (p.mins * 60 + p.secs + 1) as real
    ensures p.HourMins? ==>
      1 <= p.hours && 0 <= p.mins < 60
      && (p.hours * 3600 + p.mins * 60) as real <= eta < (p.hours * 3600 + p.mins * 60 + 60) as real
  {
    if eta <= 0.0 then UnknownEta
    else if eta < 60.0 then Secs(eta.Floor)
    else if eta < 3600.0 then
      var m := (eta / 60.0).Floor;
      MinSecs(m, (eta - 60.0 * m as real).Floor)
    else
      var h := (eta / 3600.0).Floor;
      HourMins(h, ((eta - 3600.0 * h as real) / 60.0).Floor)
  }

  /** `get_human_readable_eta`. */
  function EtaText(eta: real): string {
    match EtaBreakdown(eta)
    case UnknownEta => "Unknown"
    case Secs(s) => IntToString(s) + "s"
    case MinSecs(m, s) => IntToString(m) + "m " + IntToString(s) + "s"
    case HourMins(h, m) => IntToString(h) + "h " + IntToString(m) + "m"
  }

  /** A live progress record, updated in place and shared by everyone who
      holds it. The dataclass's fields are kept together as one record
      value. */
  class DownloadProgress {
    var fields: ProgressRecord

    /** `DownloadProgress(**given)` at clock `now`. */
    constructor (given: ProgressRecord, now: real)
      ensures fields == PostInit(given, now)
    {
      var r := given;
      if r.startTime == 0.0 {
        r := r.(startTime := now);
      }
      fields := r.(lastUpdate := now);
    }

    /** `update_progress` at clock `now`. */
    method UpdateProgress(downloaded: int, total: Option<int>, speedGiven: Option<real>, now: real)
      modifies this
      ensures fields == Updated(old(fields), downloaded, total, speedGiven, now)
    {
      var r := fields;
      r := r.(downloadedBytes := downloaded);
      if total.Some? {
        r := r.(totalBytes := total.value);
      }
      if r.totalBytes > 0 {
        r := r.(progressPercent := Percent(r.downloadedBytes, r.totalBytes));
      }
      r := r.(elapsedTime := now - r.startTime);
      if speedGiven.Some? {
        r := r.(speed := speedGiven.value);
      } else if r.elapsedTime > 0.0 {
        r := r.(speed := Rate(r.downloadedBytes, r.elapsedTime));
      }
      if r.speed > 0.0 && r.totalBytes > 0 {
        r := r.(eta := TimeLeft(r.totalBytes - r.downloadedBytes, r.speed));
      }
      fields := r.(lastUpdate := now);
    }

    /** `mark_completed` at clock `now`. */
    method MarkCompleted(now: real)
      modifies this
      ensures fields == CompletedAt(old(fields), now)
    {
      fields := fields.(state := Completed);
      fields := fields.(endTime := now);
      fields := fields.(progressPercent := 100.0);
    }

    /** `mark_failed(message)` at clock `now`. */
    method MarkFailed(message: string, now: real)
      modifies this
      ensures fields == FailedAt(old(fields), message, now)
    {
      fields := fields.(state := Failed);
      fields := fields.(errorMessage := message);
      fields := fields.(endTime := now);
    }
  }

  /** A tracker transition on one URL's record. */
  datatype Transition =
    | Update(downloaded: int, total: Option<int>, speed: Option<real>, now: real)
    | Complete(now: real)
    | Fail(message: string, now: real)
    | Pause
    | Resume

  /** The record a transition leaves. */
  function Applied(r: ProgressRecord, t: Transition): ProgressRecord {
    match t
    case Update(d, total, speed, now) => Updated(r, d, total, speed, now).(state := Downloading)
    case Complete(now) => CompletedAt(r, now)
    case Fail(message, now) => FailedAt(r, message, now)
    case Pause => r.(state := Paused)
    case Resume => r.(state := Downloading)
  }

  /** The state each transition moves to. */
  function TargetState(t: Transition): DownloadState {
    match t
    case Update(_, _, _, _) => Downloading
    case Complete(_) => Completed
    case Fail(_, _) => Failed
    case Pause => Paused
    case Resume => Downloading
  }

  /** A transition on the tracker's records: the URL's record changes if
      there is one, and nothing changes otherwise. */
  function Step(records: map<string, ProgressRecord>, url: string, t: Transition): map<string, ProgressRecord> {
    if url in records then records[url := Applied(records[url], t)] else records
  }

  /** The record `start_download(url, title, format=..., quality=...)`
      creates at clock `now`. */
  function Started(url: string, title: string, format: string, quality: string, now: real): ProgressRecord {
    PostInit(Defaults(url).(title := title, format := format, quality := quality), now).(state := Starting)
  }

  /** A transition on a URL the tracker does not know changes nothing. */
  lemma StepUnknownUrl(records: map<string, ProgressRecord>, url: string, t: Transition)
    requires url !in records
    ensures Step(records, url, t) == records
  {
  }

  /** A transition changes only its own URL's record, and moves it to the
      transition's state whatever state it was in: a completed or failed
      record goes back to downloading on an update or a resume. */
  lemma StepTouchesOneRecord(records: map<string, ProgressRecord>, url: string, t: Transition)
    ensures Step(records, url, t).Keys == records.Keys
    ensures forall u :: u in records && u != url ==> Step(records, url, t)[u] == records[u]
    ensures url in records ==> Step(records, url, t)[url].state == TargetState(t)
    ensures url in records ==> SameIdentity(Step(records, url, t)[url], records[url])
  {
  }

  /** A started record is fresh: STARTING, nothing downloaded, no error, and
      its start and last-update times both the clock. */
  lemma StartedIsFresh(url: string, title: string, format: string, quality: string, now: real)
    ensures var r := Started(url, title, format, quality, now);
      && r.url == url && r.title == title && r.format == format && r.quality == quality
      && r.state == Starting && r.downloadedBytes == 0 && r.totalBytes == 0
      && r.progressPercent == 0.0 && r.errorMessage == "" && r.retryCount == 0
      && r.startTime == now && r.lastUpdate == now
  {
  }

  /** The tracker of live records, one per URL. */
  class ProgressTracker {
    var downloads: map<string, DownloadProgress>

    /** No two URLs share a record object. */
    ghost predicate Valid()
      reads this
    {
      forall u, v :: u in downloads && v in downloads && u != v ==> downloads[u] != downloads[v]
    }

    /** The field values of every tracked record. */
    function Records(): map<string, ProgressRecord>
      reads this, downloads.Values
    {
      map u | u in downloads :: downloads[u].fields
    }

    constructor ()
      ensures Valid() && downloads == map[]
    {
      downloads := map[];
    }

    /** `start_download`: a fresh STARTING record replaces whatever the URL
        had; the callbacks are then notified with it. */
    method StartDownload(url: string, title: string, format: string, quality: string, now: real)
      returns (progress: DownloadProgress)
      requires Valid()
      modifies this
      ensures Valid() && fresh(progress)
      ensures downloads == old(downloads)[url := progress]
      ensures Records() == old(Records())[url := Started(url, title, format, quality, now)]
    {
      progress := new DownloadProgress(Defaults(url).(title := title, format := format, quality := quality), now);
      progress.fields := progress.fields.(state := Starting);
      downloads := downloads[url := progress];
    }

    /** `update_download`: unknown URLs are ignored; otherwise the record is
        updated and set to DOWNLOADING, and `notified` says the callbacks ran. */
    method UpdateDownload(url: string, downloaded: int, total: Option<int>, speed: Option<real>, now: real)
      returns (notified: bool)
      requires Valid()
      modifies downloads.Values
      ensures Valid() && downloads == old(downloads)
      ensures notified <==> url in downloads
      ensures Records() == Step(old(Records()), url, Update(downloaded, total, speed, now))
    {
      if url !in downloads {
        return false;
      }
      var progress := downloads[url];
      progress.UpdateProgress(downloaded, total, speed, now);
      progress.fields := progress.fields.(state := Downloading);
      notified := true;
      assert forall u :: u in downloads && u != url ==> downloads[u] != progress;
    }

    /** `complete_download`. */
    method CompleteDownload(url: string, now: real) returns (notified: bool)
      requires Valid()
      modifies downloads.Values
      ensures Valid() && downloads == old(downloads)
      ensures notified <==> url in downloads
      ensures Records() == Step(old(Records()), url, Complete(now))
    {
      if url !in downloads {
        return false;
      }
      var progress := downloads[url];
      progress.MarkCompleted(now);
      notified := true;
      assert forall u :: u in downloads && u != url ==> downloads[u] != progress;
    }

    /** `fail_download`. */
    method FailDownload(url: string, message: string, now: real) returns (notified: bool)
      requires Valid()
      modifies downloads.Values
      ensures Valid() && downloads == old(downloads)
      ensures notified <==> url in downloads
      ensures Records() == Step(old(Records()), url, Fail(message, now))
    {
      if url !in downloads {
        return false;
      }
      var progress := downloads[url];
      progress.MarkFailed(message, now);
      notified := true;
      assert forall u :: u in downloads && u != url ==> downloads[u] != progress;
    }

    /** `pause_download`; no callbacks run. */
    method PauseDownload(url: string)
      requires Valid()
      modifies downloads.Values
      ensures Valid() && downloads == old(downloads)
      ensures Records() == Step(old(Records()), url, Pause)
    {
      if url in downloads {
        var progress := downloads[url];
        progress.fields := progress.fields.(state := Paused);
        assert forall u :: u in downloads && u != url ==> downloads[u] != progress;
      }
    }

    /** `resume_download`; no callbacks run. */
    method ResumeDownload(url: string)
      requires Valid()
      modifies downloads.Values
      ensures Valid() && downloads == old(downloads)
      ensures Records() == Step(old(Records()), url, Resume)
    {
      if url in downloads {
        var progress := downloads[url];
        progress.fields := progress.fields.(state := Downloading);
        assert forall u :: u in downloads && u != url ==> downloads[u] != progress;
      }
    }

    /** `get_progress`: the live record itself, not a copy. */
    function GetProgress(url: string): (p: Option<DownloadProgress>)
      reads this
      ensures p.Some? <==> url in downloads
      ensures p.Some? ==> p.value == downloads[url]
    {
      if url in downloads then Some(downloads[url]) else None
    }
  }

  /** A saved entry of the resume store: the record's fields and the time
      they were saved. */
  datatype SavedState = SavedState(progress: ProgressRecord, timestamp: real)

  /** What `get_download_state` rebuilds from the store at clock `now`. */
  function Loaded(data: map<string, SavedState>, url: string, now: real): Option<ProgressRecord> {
    if url in data then Some(PostInit(data[url].progress, now)) else None
  }

  predicate ResumableState(s: DownloadState) {
    s == Paused || s == Downloading
  }

  /** `can_resume_download`: a saved record exists and it was paused or
      downloading. */
  predicate Resumable(data: map<string, SavedState>, url: string) {
    url in data && ResumableState(data[url].progress.state)
  }

  /** Saving and then loading gives back the saved record in every field but
      the last-update time, which the rebuilt record takes from the clock
      (and a start time of 0, which it also takes from the clock). Other URLs
      load as before. */
  lemma SaveThenLoad(data: map<string, SavedState>, url: string, r: ProgressRecord, saved: real, now: real)
    ensures var l := Loaded(data[url := SavedState(r, saved)], url, now);
      && l.Some?
      && l.value.(lastUpdate := r.lastUpdate, startTime := r.startTime) == r
      && l.value.lastUpdate == now
      && (r.startTime == 0.0 ==> l.value.startTime == now)
      && (r.startTime != 0.0 ==> l.value == r.(lastUpdate := now))
    ensures forall u :: u != url ==> Loaded(data[url := SavedState(r, saved)], u, now) == Loaded(data, u, now)
  {
  }

  /** Resumability is whether a record can be loaded and what state it holds. */
  lemma ResumableIffLoaded(data: map<string, SavedState>, url: string, now: real)
    ensures Resumable(data, url) <==> Loaded(data, url, now).Some? && ResumableState(Loaded(data, url, now).value.state)
  {
  }

  /** Removing is idempotent, a no-op on an absent URL, and leaves nothing to
      resume; saving a paused or downloading record makes the URL resumable. */
  lemma RemoveAndResume(data: map<string, SavedState>, url: string, r: ProgressRecord, saved: real)
    ensures (data - {url}) - {url} == data - {url}
    ensures url !in data ==> data - {url} == data
    ensures !Resumable(data - {url}, url)
    ensures Resumable(data[url := SavedState(r, saved)], url) <==> ResumableState(r.state)
  {
  }

  /** The resume store, from URL to saved record. The file it is read from
      and written to is not modelled: `persisted` is what was loaded. */
  class StateManager {
    var stateData: map<string, SavedState>

    constructor (persisted: map<string, SavedState>)
      ensures stateData == persisted
    {
      stateData := persisted;
    }

    /** `save_download_state` at clock `now`. */
    method SaveDownloadState(url: string, progress: DownloadProgress, now: real)
      modifies this
      ensures stateData == old(stateData)[url := SavedState(progress.fields, now)]
    {
      stateData := stateData[url := SavedState(progress.fields, now)];
    }

    /** `get_download_state` at clock `now`: a new record object built from
        the saved fields. */
    method GetDownloadState(url: string, now: real) returns (p: Option<DownloadProgress>)
      ensures p.None? <==> Loaded(stateData, url, now).None?
      ensures p.Some? ==> fresh(p.value) && p.value.fields == Loaded(stateData, url, now).value
    {
      if url in stateData {
        var progress := new DownloadProgress(stateData[url].progress, now);
        return Some(progress);
      }
      return None;
    }

    /** `remove_download_state`. */
    method RemoveDownloadState(url: string)
      modifies this
      ensures stateData == old(stateData) - {url}
    {
      if url in stateData {
        stateData := stateData - {url};
      }
    }

    /** `can_resume_download`, which loads the record at clock `now`. */
    method CanResumeDownload(url: string, now: real) returns (b: bool)
      ensures b == Resumable(stateData, url)
    {
      var state := GetDownloadState(url, now);
      if state.Some? {
        return state.value.fields.state == Paused || state.value.fields.state == Downloading;
      }
      return false;
    }
  }

  /** An entry of the download ledger; the timestamp is the end time, in
      seconds. */
  datatype HistoryEntry = HistoryEntry(
    url: string,
    title: string,
    filename: string,
    outputPath: string,
    fileSize: int,
    format: string,
    quality: string,
    downloadTime: real,
    timestamp: real,
    success: bool,
    errorMessage: string)

  /** The entry `add_entry` makes of a record. */
  function EntryOf(r: ProgressRecord): HistoryEntry {
    HistoryEntry(r.url, r.title, r.filename, r.outputPath, r.totalBytes, r.format, r.quality,
                 r.elapsedTime, r.endTime, r.state == Completed, r.errorMessage)
  }

  predicate IsSuccess(e: HistoryEntry) { e.success }

  predicate IsFailure(e: HistoryEntry) { !e.success }

  function TimestampKey(e: HistoryEntry): Sorting.Key {
    Sorting.Key(e.timestamp, 0.0)
  }

  /** `get_recent_downloads(limit)`: newest first, cut at `limit` as a Python
      slice cuts (a negative limit drops that many from the end). */
  function RecentDownloads(entries: seq<HistoryEntry>, limit: int): seq<HistoryEntry> {
    Take(Sorting.SortDesc(entries, TimestampKey), limit)
  }

  /** The recent list has the slice's length, is newest first, is drawn from
      the ledger, and every entry it leaves out is no newer than every entry
      it shows. */
  lemma {:induction false} RecentAreNewest(entries: seq<HistoryEntry>, limit: int)
    ensures var r := RecentDownloads(entries, limit);
      && |r| == SliceEnd(|entries|, limit)
      && (limit >= 0 ==> |r| <= limit)
      && Sorting.SortedDesc(r, TimestampKey)
      && multiset(r) <= multiset(entries)
      && forall x, i :: x in multiset(entries) - multiset(r) && 0 <= i < |r| ==> x.timestamp <= r[i].timestamp
  {
    var s := Sorting.SortDesc(entries, TimestampKey);
    var k := SliceEnd(|entries|, limit);
    Sorting.PrefixIsTop(s, TimestampKey, k);
    assert RecentDownloads(entries, limit) == s[..k];
  }

  /** Entries with the same timestamp are listed in ledger order: the
      sort is stable, and the slice keeps a prefix of its result. */
  lemma RecentTiesInLedgerOrder(entries: seq<HistoryEntry>, limit: int, t: real)
    ensures RecentDownloads(entries, limit)
      == Sorting.SortDesc(entries, TimestampKey)[..SliceEnd(|entries|, limit)]
    ensures Sorting.WithKey(Sorting.SortDesc(entries, TimestampKey), TimestampKey, Sorting.Key(t, 0.0))
      == Sorting.WithKey(entries, TimestampKey, Sorting.Key(t, 0.0))
  {
    Sorting.SortDescStable(entries, TimestampKey, Sorting.Key(t, 0.0));
  }

  /** `query in entry.title.lower() or query in entry.url.lower()` for a
      lower-cased query. */
  predicate MatchesQuery(e: HistoryEntry, query: string) {
    Contains(Lower(e.title), query) || Contains(Lower(e.url), query)
  }

  /** `search_downloads(query)`: the entries whose title or URL holds the
      query, ignoring ASCII case, in ledger order. */
  function SearchDownloads(entries: seq<HistoryEntry>, query: string): (r: seq<HistoryEntry>)
    ensures forall e :: e in r <==> e in entries && MatchesQuery(e, Lower(query))
  {
    var q := Lower(query);
    Filter(entries, (e: HistoryEntry) => MatchesQuery(e, q))
  }

  /** `get_failed_downloads`. */
  function FailedDownloads(entries: seq<HistoryEntry>): (r: seq<HistoryEntry>)
    ensures forall e :: e in r <==> e in entries && !e.success
  {
    Filter(entries, IsFailure)
  }

  function SizeSum(entries: seq<HistoryEntry>): int
    decreases |entries|
  {
    if entries == [] then 0 else SizeSum(entries[..|entries| - 1]) + entries[|entries| - 1].fileSize
  }

  function TimeSum(entries: seq<HistoryEntry>): real
    decreases |entries|
  {
    if entries == [] then 0.0 else TimeSum(entries[..|entries| - 1]) + entries[|entries| - 1].downloadTime
  }

  /** What `get_statistics` reports: only the total for an empty ledger. */
  datatype HistoryStats =
    | TotalOnly(totalDownloads: int)
    | Stats(totalDownloads: int, successfulDownloads: int, failedDownloads: int,
            successRate: real, totalSizeBytes: int, totalDownloadTime: real, averageSpeed: real)

  /** `get_statistics`. */
  function Statistics(entries: seq<HistoryEntry>): HistoryStats {
    if entries == [] then TotalOnly(0)
    else
      var total := |entries|;
      var successful := |Filter(entries, IsSuccess)|;
      var size := SizeSum(Filter(entries, IsSuccess));
      var time := TimeSum(Filter(entries, IsSuccess));
      Stats(total, successful, total - successful,
            (successful as real / total as real) * 100.0,
            size, time, if time > 0.0 then size as real / time else 0.0)
  }

  /** The failed count is the number of failed entries, the two counts add up
      to the total, the success rate is a percentage, and the average speed
      is total size over total time, or 0 when no time was spent. */
  lemma {:induction false} StatisticsSpec(entries: seq<HistoryEntry>)
    ensures entries == [] <==> Statistics(entries) == TotalOnly(0)
    ensures entries != [] ==> var st := Statistics(entries);
      && st.Stats?
      && st.totalDownloads == |entries|
      && st.failedDownloads == |FailedDownloads(entries)|
      && st.successfulDownloads + st.failedDownloads == st.totalDownloads
      && st.successRate == (st.successfulDownloads as real / st.totalDownloads as real) * 100.0
      && 0.0 <= st.successRate <= 100.0
      && (st.totalDownloadTime == 0.0 ==> st.averageSpeed == 0.0)
      && (st.totalDownloadTime > 0.0 ==> st.averageSpeed * st.totalDownloadTime == st.totalSizeBytes as real)
  {
    if entries != [] {
      FilterSplit(entries, IsSuccess, IsFailure);
      var st := Statistics(entries);
      ShareBound(|Filter(entries, IsSuccess)| as real, |entries| as real);
      if st.totalDownloadTime > 0.0 {
        QuotientTimes(st.totalSizeBytes as real, st.totalDownloadTime);
      }
    }
  }

  /** Adding an entry adds one to the total, and to the successes, size and
      time only when it succeeded. */
  lemma {:induction false} StatisticsAfterAdd(entries: seq<HistoryEntry>, e: HistoryEntry)
    ensures var before := Statistics(entries);
      var after := Statistics(entries + [e]);
      && after.Stats?
      && after.totalDownloads == |entries| + 1
      && after.successfulDownloads == (if before.Stats? then before.successfulDownloads else 0) + (if e.success then 1 else 0)
      && after.totalSizeBytes == (if before.Stats? then before.totalSizeBytes else 0) + (if e.success then e.fileSize else 0)
      && after.totalDownloadTime == (if before.Stats? then before.totalDownloadTime else 0.0) + (if e.success then e.downloadTime else 0.0)
  {
    FilterAppend(entries, [e], IsSuccess);
    var ok := Filter(entries, IsSuccess);
    if e.success {
      assert Filter([e], IsSuccess) == [e];
      assert (ok + [e])[..|ok|] == ok;
    } else {
      assert Filter([e], IsSuccess) == [];
      assert ok + [] == ok;
    }
  }

  /** The ledger. The file it is read from and written to is not modelled:
      `persisted` is what was loaded. */
  class DownloadHistory {
    var entries: seq<HistoryEntry>

    constructor (persisted: seq<HistoryEntry>)
      ensures entries == persisted
    {
      entries := persisted;
    }

    /** `add_entry`: appends exactly one entry, which succeeded iff the record
        is COMPLETED and whose size is the record's total bytes. */
    method AddEntry(progress: DownloadProgress)
      modifies this
      ensures entries == old(entries) + [EntryOf(progress.fields)]
      ensures entries[|old(entries)|].success <==> progress.fields.state == Completed
      ensures entries[|old(entries)|].fileSize == progress.fields.totalBytes
    {
      entries := entries + [EntryOf(progress.fields)];
    }
  }
}
