/** Download configuration: the settings record and its defaults, the
    download profiles, loading settings from a parsed config file and from
    environment variables, the yt-dlp format selector and the yt-dlp option
    map (downloader/config.py). */
module Config {
  import opened Wrappers
  import opened Text
  import opened FormatSelectors
  import opened Lists

  /** The predefined profiles and the strings that name them. */
  datatype DownloadProfile = Mobile | Desktop | HighQuality | Archive | AudioOnly | Custom
  {
    function Value(): string {
      match this
      case Mobile => "mobile"
      case Desktop => "desktop"
      case HighQuality => "high_quality"
      case Archive => "archive"
      case AudioOnly => "audio_only"
      case Custom => "custom"
    }
  }

  /** `DownloadProfile(name)`: the profile whose value is `name`, if any. */
  function ProfileNamed(name: string): (p: Option<DownloadProfile>)
    ensures p.Some? ==> p.value.Value() == name
    ensures p.None? ==> forall q: DownloadProfile :: q.Value() != name
  {
    if name == "mobile" then Some(Mobile)
    else if name == "desktop" then Some(Desktop)
    else if name == "high_quality" then Some(HighQuality)
    else if name == "archive" then Some(Archive)
    else if name == "audio_only" then Some(AudioOnly)
    else if name == "custom" then Some(Custom)
    else None
  }

  /** Looking a profile up by its own value finds it. */
  lemma ProfileNamedValue(p: DownloadProfile)
    ensures ProfileNamed(p.Value()) == Some(p)
  {
    var q := ProfileNamed(p.Value());
    assert q.Some? && q.value.Value() == p.Value();
  }

  /** The settings; `Option` fields are the ones that may be `None`. */
  datatype DownloadConfig = DownloadConfig(
    outputDir: string,
    quality: string,
    format: string,
    audioFormat: string,
    writeSubtitles: bool,
    writeThumbnail: bool,
    writeMetadata: bool,
    writeDescription: bool,
    archiveFile: Option<string>,
    enableResume: bool,
    maxConcurrentDownloads: int,
    downloadTimeout: int,
    maxRetries: int,
    retryDelay: real,
    exponentialBackoff: bool,
    qualityFallbackChain: seq<string>,
    formatPreference: seq<string>,
    profile: string,
    userAgent: Option<string>,
    proxy: Option<string>,
    cookiesFile: Option<string>)

  const DesktopChain: seq<string> := ["best", "2160p", "1440p", "1080p", "720p", "480p"]

  /** `DownloadConfig()`: the dataclass defaults, with the empty output
      directory replaced by the platform's default download folder. */
  function DefaultConfig(defaultPath: string): DownloadConfig {
    DownloadConfig(defaultPath, "best", "mp4", "m4a", false, false, true, false, None, true,
                   3, 300, 3, 1.0, true, DesktopChain, ["mp4", "webm", "mkv"], "desktop",
                   None, None, None)
  }

  /** The default configuration downloads the best quality, merging video
      and audio. */
  lemma DefaultSelector(defaultPath: string)
    ensures FormatSelector(DefaultConfig(defaultPath)) == BestMergeSelector
  {
    var c := DefaultConfig(defaultPath);
    assert c.profile != "audio_only";
    assert Lower(c.quality) == "best" by {
      assert Lower("best") == [LowerChar('b')] + Lower("est");
    }
  }

  // ---------------------------------------------------------------------
  // Field access by attribute name (`hasattr` / `setattr`)
  // ---------------------------------------------------------------------

  /** The config's attributes. */
  datatype Field =
    | OutputDir | Quality | Format | AudioFormat
    | WriteSubtitles | WriteThumbnail | WriteMetadata | WriteDescription
    | ArchiveFile | EnableResume | MaxConcurrentDownloads | DownloadTimeout
    | MaxRetries | RetryDelay | ExponentialBackoff
    | QualityFallbackChain | FormatPreference | Profile
    | UserAgent | Proxy | CookiesFile

  /** The attribute's Python name. */
  function FieldName(f: Field): string {
    match f
    case OutputDir => "output_dir"
    case Quality => "quality"
    case Format => "format"
    case AudioFormat => "audio_format"
    case WriteSubtitles => "write_subtitles"
    case WriteThumbnail => "write_thumbnail"
    case WriteMetadata => "write_metadata"
    case WriteDescription => "write_description"
    case ArchiveFile => "archive_file"
    case EnableResume => "enable_resume"
    case MaxConcurrentDownloads => "max_concurrent_downloads"
    case DownloadTimeout => "download_timeout"
    case MaxRetries => "max_retries"
    case RetryDelay => "retry_delay"
    case ExponentialBackoff => "exponential_backoff"
    case QualityFallbackChain => "quality_fallback_chain"
    case FormatPreference => "format_preference"
    case Profile => "profile"
    case UserAgent => "user_agent"
    case Proxy => "proxy"
    case CookiesFile => "cookies_file"
  }

  /** `hasattr(config, name)`: the attribute called `name`, if any. */
  function FieldNamed(name: string): (f: Option<Field>)
    ensures f.Some? ==> FieldName(f.value) == name
    ensures f.None? ==> forall g :: FieldName(g) != name
  {
    if name == "output_dir" then Some(OutputDir)
    else if name == "quality" then Some(Quality)
    else if name == "format" then Some(Format)
    else if name == "audio_format" then Some(AudioFormat)
    else if name == "write_subtitles" then Some(WriteSubtitles)
    else if name == "write_thumbnail" then Some(WriteThumbnail)
    else if name == "write_metadata" then Some(WriteMetadata)
    else if name == "write_description" then Some(WriteDescription)
    else if name == "archive_file" then Some(ArchiveFile)
    else if name == "enable_resume" then Some(EnableResume)
    else if name == "max_concurrent_downloads" then Some(MaxConcurrentDownloads)
    else if name == "download_timeout" then Some(DownloadTimeout)
    else if name == "max_retries" then Some(MaxRetries)
    else if name == "retry_delay" then Some(RetryDelay)
    else if name == "exponential_backoff" then Some(ExponentialBackoff)
    else if name == "quality_fallback_chain" then Some(QualityFallbackChain)
    else if name == "format_preference" then Some(FormatPreference)
    else if name == "profile" then Some(Profile)
    else if name == "user_agent" then Some(UserAgent)
    else if name == "proxy" then Some(Proxy)
    else if name == "cookies_file" then Some(CookiesFile)
    else None
  }

  /** A value as it appears in a parsed config file or after conversion. */
  datatype ConfigValue =
    | VStr(s: string)
    | VBool(b: bool)
    | VInt(i: int)
    | VReal(r: real)
    | VList(items: seq<string>)
    | VNull

  /** `getattr(config, f)`. */
  function Get(c: DownloadConfig, f: Field): ConfigValue {
    match f
    case OutputDir => VStr(c.outputDir)
    case Quality => VStr(c.quality)
    case Format => VStr(c.format)
    case AudioFormat => VStr(c.audioFormat)
    case WriteSubtitles => VBool(c.writeSubtitles)
    case WriteThumbnail => VBool(c.writeThumbnail)
    case WriteMetadata => VBool(c.writeMetadata)
    case WriteDescription => VBool(c.writeDescription)
    case ArchiveFile => OptionalText(c.archiveFile)
    case EnableResume => VBool(c.enableResume)
    case MaxConcurrentDownloads => VInt(c.maxConcurrentDownloads)
    case DownloadTimeout => VInt(c.downloadTimeout)
    case MaxRetries => VInt(c.maxRetries)
    case RetryDelay => VReal(c.retryDelay)
    case ExponentialBackoff => VBool(c.exponentialBackoff)
    case QualityFallbackChain => VList(c.qualityFallbackChain)
    case FormatPreference => VList(c.formatPreference)
    case Profile => VStr(c.profile)
    case UserAgent => OptionalText(c.userAgent)
    case Proxy => OptionalText(c.proxy)
    case CookiesFile => OptionalText(c.cookiesFile)
  }

  function OptionalText(o: Option<string>): ConfigValue {
    if o.Some? then VStr(o.value) else VNull
  }

  /** The value shape the field holds. */
  predicate Canonical(f: Field, v: ConfigValue) {
    match f
    case OutputDir | Quality | Format | AudioFormat | Profile => v.VStr?
    case WriteSubtitles | WriteThumbnail | WriteMetadata | WriteDescription
      | EnableResume | ExponentialBackoff => v.VBool?
    case MaxConcurrentDownloads | DownloadTimeout | MaxRetries => v.VInt?
    case RetryDelay => v.VReal?
    case QualityFallbackChain | FormatPreference => v.VList?
    case ArchiveFile | UserAgent | Proxy | CookiesFile => v.VStr? || v.VNull?
  }

  /** The values a field takes: its own shape, and an integer for the
      delay. */
  predicate Accepts(f: Field, v: ConfigValue) {
    Canonical(f, v) || (f == RetryDelay && v.VInt?)
  }

  /** The optional string a text or null value stands for. */
  function TextOf(v: ConfigValue): Option<string> {
    if v.VStr? then Some(v.s) else None
  }

  /** The number a real or integer value stands for. */
  function RealOf(v: ConfigValue): real
    requires v.VReal? || v.VInt?
  {
    if v.VReal? then v.r else v.i as real
  }

  /** `setattr(config, f, v)` for a value the field accepts. */
  function Set(c: DownloadConfig, f: Field, v: ConfigValue): DownloadConfig {
    if !Accepts(f, v) then c
    else match f
      case OutputDir => c.(outputDir := v.s)
      case Quality => c.(quality := v.s)
      case Format => c.(format := v.s)
      case AudioFormat => c.(audioFormat := v.s)
      case WriteSubtitles => c.(writeSubtitles := v.b)
      case WriteThumbnail => c.(writeThumbnail := v.b)
      case WriteMetadata => c.(writeMetadata := v.b)
      case WriteDescription => c.(writeDescription := v.b)
      case ArchiveFile => c.(archiveFile := TextOf(v))
      case EnableResume => c.(enableResume := v.b)
      case MaxConcurrentDownloads => c.(maxConcurrentDownloads := v.i)
      case DownloadTimeout => c.(downloadTimeout := v.i)
      case MaxRetries => c.(maxRetries := v.i)
      case RetryDelay => c.(retryDelay := RealOf(v))
      case ExponentialBackoff => c.(exponentialBackoff := v.b)
      case QualityFallbackChain => c.(qualityFallbackChain := v.items)
      case FormatPreference => c.(formatPreference := v.items)
      case Profile => c.(profile := v.s)
      case UserAgent => c.(userAgent := TextOf(v))
      case Proxy => c.(proxy := TextOf(v))
      case CookiesFile => c.(cookiesFile := TextOf(v))
  }

  /** `a` and `b` hold the same value in every attribute outside `fs`. */
  predicate AgreeOutside(a: DownloadConfig, b: DownloadConfig, fs: set<Field>) {
    (OutputDir !in fs ==> a.outputDir == b.outputDir) &&
    (Quality !in fs ==> a.quality == b.quality) &&
    (Format !in fs ==> a.format == b.format) &&
    (AudioFormat !in fs ==> a.audioFormat == b.audioFormat) &&
    (WriteSubtitles !in fs ==> a.writeSubtitles == b.writeSubtitles) &&
    (WriteThumbnail !in fs ==> a.writeThumbnail == b.writeThumbnail) &&
    (WriteMetadata !in fs ==> a.writeMetadata == b.writeMetadata) &&
    (WriteDescription !in fs ==> a.writeDescription == b.writeDescription) &&
    (ArchiveFile !in fs ==> a.archiveFile == b.archiveFile) &&
    (EnableResume !in fs ==> a.enableResume == b.enableResume) &&
    (MaxConcurrentDownloads !in fs ==> a.maxConcurrentDownloads == b.maxConcurrentDownloads) &&
    (DownloadTimeout !in fs ==> a.downloadTimeout == b.downloadTimeout) &&
    (MaxRetries !in fs ==> a.maxRetries == b.maxRetries) &&
    (RetryDelay !in fs ==> a.retryDelay == b.retryDelay) &&
    (ExponentialBackoff !in fs ==> a.exponentialBackoff == b.exponentialBackoff) &&
    (QualityFallbackChain !in fs ==> a.qualityFallbackChain == b.qualityFallbackChain) &&
    (FormatPreference !in fs ==> a.formatPreference == b.formatPreference) &&
    (Profile !in fs ==> a.profile == b.profile) &&
    (UserAgent !in fs ==> a.userAgent == b.userAgent) &&
    (Proxy !in fs ==> a.proxy == b.proxy) &&
    (CookiesFile !in fs ==> a.cookiesFile == b.cookiesFile)
  }

  /** Setting a field stores the value there and changes no other field; a
      value of the wrong shape changes nothing. */
  lemma SetGet(c: DownloadConfig, f: Field, v: ConfigValue)
    ensures Canonical(f, v) ==> Get(Set(c, f, v), f) == v
    ensures f == RetryDelay && v.VInt? ==> Get(Set(c, f, v), f) == VReal(v.i as real)
    ensures !Accepts(f, v) ==> Set(c, f, v) == c
    ensures AgreeOutside(Set(c, f, v), c, {f})
  {
    SetKeepsOthers(c, f, v);
  }

  /** Setting an accepted value rewrites that one attribute alone. */
  lemma SetKeepsOthers(c: DownloadConfig, f: Field, v: ConfigValue)
    ensures AgreeOutside(Set(c, f, v), c, {f})
  {
    if Accepts(f, v) {
      match f
      case OutputDir => assert Set(c, f, v) == c.(outputDir := v.s);
      case Quality => assert Set(c, f, v) == c.(quality := v.s);
      case Format => assert Set(c, f, v) == c.(format := v.s);
      case AudioFormat => assert Set(c, f, v) == c.(audioFormat := v.s);
      case WriteSubtitles => assert Set(c, f, v) == c.(writeSubtitles := v.b);
      case WriteThumbnail => assert Set(c, f, v) == c.(writeThumbnail := v.b);
      case WriteMetadata => assert Set(c, f, v) == c.(writeMetadata := v.b);
      case WriteDescription => assert Set(c, f, v) == c.(writeDescription := v.b);
      case ArchiveFile => assert Set(c, f, v) == c.(archiveFile := TextOf(v));
      case EnableResume => assert Set(c, f, v) == c.(enableResume := v.b);
      case MaxConcurrentDownloads => assert Set(c, f, v) == c.(maxConcurrentDownloads := v.i);
      case DownloadTimeout => assert Set(c, f, v) == c.(downloadTimeout := v.i);
      case MaxRetries => assert Set(c, f, v) == c.(maxRetries := v.i);
      case RetryDelay => assert Set(c, f, v) == c.(retryDelay := RealOf(v));
      case ExponentialBackoff => assert Set(c, f, v) == c.(exponentialBackoff := v.b);
      case QualityFallbackChain => assert Set(c, f, v) == c.(qualityFallbackChain := v.items);
      case FormatPreference => assert Set(c, f, v) == c.(formatPreference := v.items);
      case Profile => assert Set(c, f, v) == c.(profile := v.s);
      case UserAgent => assert Set(c, f, v) == c.(userAgent := TextOf(v));
      case Proxy => assert Set(c, f, v) == c.(proxy := TextOf(v));
      case CookiesFile => assert Set(c, f, v) == c.(cookiesFile := TextOf(v));
    }
  }

  /** Agreement outside `fs` means equal values for each field outside. */
  lemma AgreeOutsideGet(a: DownloadConfig, b: DownloadConfig, fs: set<Field>, g: Field)
    requires AgreeOutside(a, b, fs) && g !in fs
    ensures Get(a, g) == Get(b, g)
  {
  }

  /** `if hasattr(config, key): setattr(config, key, value)`. */
  function SetNamed(c: DownloadConfig, name: string, v: ConfigValue): DownloadConfig {
    match FieldNamed(name)
    case None => c
    case Some(f) => Set(c, f, v)
  }

  /** The items of a parsed config file applied in order. */
  function ApplyItems(c: DownloadConfig, items: seq<(string, ConfigValue)>): DownloadConfig
    decreases |items|
  {
    if items == [] then c
    else
      var last := items[|items| - 1];
      SetNamed(ApplyItems(c, items[..|items| - 1]), last.0, last.1)
  }

  /** Applying one more item sets its key on the result of the others. */
  lemma ApplyItemsSnoc(c: DownloadConfig, items: seq<(string, ConfigValue)>, i: nat)
    requires i < |items|
    ensures ApplyItems(c, items[..i + 1]) == SetNamed(ApplyItems(c, items[..i]), items[i].0, items[i].1)
  {
    assert items[..i + 1][..i] == items[..i];
  }

  /** Keys that name no attribute are skipped. */
  lemma {:induction false} UnknownKeysIgnored(c: DownloadConfig, items: seq<(string, ConfigValue)>)
    requires forall i :: 0 <= i < |items| ==> FieldNamed(items[i].0).None?
    ensures ApplyItems(c, items) == c
    decreases |items|
  {
    if items != [] {
      var init := items[..|items| - 1];
      assert forall i :: 0 <= i < |init| ==> init[i] == items[i];
      UnknownKeysIgnored(c, init);
    }
  }

  /** Applying a file's items in two runs is applying them in one. */
  lemma {:induction false} ApplyItemsAppend(c: DownloadConfig, a: seq<(string, ConfigValue)>, b: seq<(string, ConfigValue)>)
    ensures ApplyItems(c, a + b) == ApplyItems(ApplyItems(c, a), b)
    decreases |b|
  {
    if b == [] {
      assert a + b == a;
    } else {
      assert (a + b)[..|a + b| - 1] == a + b[..|b| - 1];
      ApplyItemsAppend(c, a, b[..|b| - 1]);
    }
  }

  /** A file item whose key names an attribute and whose value has the
      attribute's shape is stored unless a later item sets the same
      attribute. */
  lemma {:induction false} LaterItemsKeep(c: DownloadConfig, a: seq<(string, ConfigValue)>, b: seq<(string, ConfigValue)>, f: Field)
    requires forall i :: 0 <= i < |b| ==> FieldNamed(b[i].0) != Some(f)
    ensures Get(ApplyItems(c, a + b), f) == Get(ApplyItems(c, a), f)
    decreases |b|
  {
    ApplyItemsAppend(c, a, b);
    if b != [] {
      var init := b[..|b| - 1];
      assert forall i :: 0 <= i < |init| ==> init[i] == b[i];
      LaterItemsKeep(c, a, init, f);
      ApplyItemsAppend(c, a, init);
      var last := b[|b| - 1];
      var before := ApplyItems(ApplyItems(c, a), init);
      match FieldNamed(last.0)
      case None =>
      case Some(g) =>
        if g != f {
          SetOther(before, g, last.1, f);
        }
    }
  }

  // ---------------------------------------------------------------------
  // Environment variables
  // ---------------------------------------------------------------------

  /** The attributes set from environment variables, in the order the
      variables are read. */
  const EnvOrder: seq<Field> := [OutputDir, Quality, Format, WriteSubtitles, WriteThumbnail, ArchiveFile,
                                 MaxConcurrentDownloads, MaxRetries, Profile, Proxy, UserAgent]

  /** The attributes that have an environment variable: those of
      `EnvOrder`. */
  predicate IsEnvField(f: Field) {
    match f
    case OutputDir | Quality | Format | WriteSubtitles | WriteThumbnail | ArchiveFile
      | MaxConcurrentDownloads | MaxRetries | Profile | Proxy | UserAgent => true
    case _ => false
  }

  /** The environment variable that sets attribute `f`. */
  function EnvVariable(f: Field): string
    requires IsEnvField(f)
  {
    match f
    case OutputDir => "YT_DL_OUTPUT_DIR"
    case Quality => "YT_DL_QUALITY"
    case Format => "YT_DL_FORMAT"
    case WriteSubtitles => "YT_DL_WRITE_SUBS"
    case WriteThumbnail => "YT_DL_WRITE_THUMBNAIL"
    case ArchiveFile => "YT_DL_ARCHIVE_FILE"
    case MaxConcurrentDownloads => "YT_DL_MAX_CONCURRENT"
    case MaxRetries => "YT_DL_MAX_RETRIES"
    case Profile => "YT_DL_PROFILE"
    case Proxy => "YT_DL_PROXY"
    case UserAgent => "YT_DL_USER_AGENT"
  }

  /** The position of attribute `f` in `EnvOrder`. */
  function EnvIndex(f: Field): (r: Option<nat>)
    ensures r.Some? <==> IsEnvField(f)
    ensures r.Some? ==> r.value < |EnvOrder| && EnvOrder[r.value] == f
    ensures forall i :: 0 <= i < |EnvOrder| && EnvOrder[i] == f ==> r == Some(i)
  {
    match f
    case OutputDir => Some(0)
    case Quality => Some(1)
    case Format => Some(2)
    case WriteSubtitles => Some(3)
    case WriteThumbnail => Some(4)
    case ArchiveFile => Some(5)
    case MaxConcurrentDownloads => Some(6)
    case MaxRetries => Some(7)
    case Profile => Some(8)
    case Proxy => Some(9)
    case UserAgent => Some(10)
    case _ => None
  }

  /** The attributes converted to bool and to int. */
  predicate IsBoolField(f: Field) {
    match f
    case WriteSubtitles | WriteThumbnail | WriteMetadata | EnableResume | ExponentialBackoff => true
    case _ => false
  }

  predicate IsIntField(f: Field) {
    match f
    case MaxConcurrentDownloads | MaxRetries | DownloadTimeout => true
    case _ => false
  }

  /** The text a bool setting reads as true. */
  predicate EnvFlag(value: string) {
    var l := Lower(value);
    l == "true" || l == "1" || l == "yes" || l == "on"
  }

  /** The flag ignores letter case. */
  lemma EnvFlagIgnoresCase(value: string)
    ensures EnvFlag(Lower(value)) == EnvFlag(value)
  {
    LowerIdempotent(value);
  }

  /** The integer value of a parsed number, none when it did not parse. */
  function IntValue(parsed: Option<int>): (r: Option<ConfigValue>)
    ensures r.None? <==> parsed.None?
    ensures r.Some? ==> r.value == VInt(parsed.value)
  {
    if parsed.None? then None else Some(VInt(parsed.value))
  }

  /** The conversion of a variable's text for the attribute it sets:
      `None` is the `ValueError` of `int()`. */
  function ConvertEnv(f: Field, value: string): (r: Option<ConfigValue>)
    requires IsEnvField(f)
    ensures r.None? <==> IsIntField(f) && ParseInt(value).None?
    ensures r.Some? ==> Canonical(f, r.value)
    ensures IsBoolField(f) ==> r == Some(VBool(EnvFlag(value)))
    ensures IsIntField(f) && r.Some? ==> r.value == VInt(ParseInt(value).value)
    ensures !IsBoolField(f) && !IsIntField(f) ==> r == Some(VStr(value))
  {
    if IsBoolField(f) then Some(VBool(EnvFlag(value)))
    else if IsIntField(f) then IntValue(ParseInt(value))
    else Some(VStr(value))
  }

  /** The `ValueError` raised for a variable whose text is not an integer. */
  datatype EnvError = EnvError(variable: string, value: string)

  /** The config after some of the variables, and the error that stopped
      the scan, if any. */
  datatype EnvLoaded = EnvLoaded(config: DownloadConfig, error: Option<EnvError>)

  /** The first `k` variables applied in order; the scan stops at the first
      conversion error, keeping what was set before it. */
  function EnvLoad(c: DownloadConfig, env: map<string, string>, k: nat): EnvLoaded
    requires k <= |EnvOrder|
  {
    if k == 0 then EnvLoaded(c, None)
    else
      var before := EnvLoad(c, env, k - 1);
      var f := EnvOrder[k - 1];
      var variable := EnvVariable(f);
      if before.error.Some? || variable !in env then before
      else
        match ConvertEnv(f, env[variable])
        case None => EnvLoaded(before.config, Some(EnvError(variable, env[variable])))
        case Some(v) => EnvLoaded(Set(before.config, f, v), None)
  }

  /** What a field holds after the first `k` variables were applied: the
      converted text of its variable when that was one of them and is set,
      and its old value otherwise. */
  function EnvExpected(c: DownloadConfig, env: map<string, string>, k: nat, f: Field): ConfigValue {
    match EnvIndex(f)
    case None => Get(c, f)
    case Some(i) =>
      var variable := EnvVariable(f);
      if i < k && variable in env && ConvertEnv(f, env[variable]).Some? then
        ConvertEnv(f, env[variable]).value
      else Get(c, f)
  }

  /** Setting one field leaves every other field's value. */
  lemma SetOther(c: DownloadConfig, f: Field, v: ConfigValue, g: Field)
    requires g != f
    ensures Get(Set(c, f, v), g) == Get(c, g)
  {
    SetGet(c, f, v);
    AgreeOutsideGet(Set(c, f, v), c, {f}, g);
  }

  /** After a scan without error every variable that was read converted. */
  lemma {:induction false} EnvLoadConverted(c: DownloadConfig, env: map<string, string>, k: nat)
    requires k <= |EnvOrder|
    requires EnvLoad(c, env, k).error.None?
    ensures forall i :: 0 <= i < k && EnvVariable(EnvOrder[i]) in env ==>
      ConvertEnv(EnvOrder[i], env[EnvVariable(EnvOrder[i])]).Some?
  {
    if k > 0 {
      assert EnvLoad(c, env, k - 1).error.None?;
      EnvLoadConverted(c, env, k - 1);
      forall i | 0 <= i < k && EnvVariable(EnvOrder[i]) in env
        ensures ConvertEnv(EnvOrder[i], env[EnvVariable(EnvOrder[i])]).Some?
      {
        if i == k - 1 {
          var f := EnvOrder[i];
          assert ConvertEnv(f, env[EnvVariable(f)]).Some? by {
            if ConvertEnv(f, env[EnvVariable(f)]).None? {
              assert EnvLoad(c, env, k).error.Some?;
            }
          }
        }
      }
    }
  }

  /** After a scan without error every field holds what `EnvExpected`
      says. */
  lemma {:induction false} EnvLoadFields(c: DownloadConfig, env: map<string, string>, k: nat)
    requires k <= |EnvOrder|
    requires EnvLoad(c, env, k).error.None?
    ensures forall g :: Get(EnvLoad(c, env, k).config, g) == EnvExpected(c, env, k, g)
  {
    if k > 0 {
      var before := EnvLoad(c, env, k - 1);
      var f := EnvOrder[k - 1];
      assert before.error.None?;
      EnvLoadFields(c, env, k - 1);
      var variable := EnvVariable(f);
      if variable !in env {
        assert EnvLoad(c, env, k) == before;
        forall g ensures Get(EnvLoad(c, env, k).config, g) == EnvExpected(c, env, k, g) {
          EnvExpectedStep(c, env, k, g);
        }
      } else {
        assert ConvertEnv(f, env[variable]).Some? by {
          if ConvertEnv(f, env[variable]).None? {
            assert EnvLoad(c, env, k).error.Some?;
          }
        }
        var v := ConvertEnv(f, env[variable]).value;
        assert EnvLoad(c, env, k).config == Set(before.config, f, v);
        forall g ensures Get(EnvLoad(c, env, k).config, g) == EnvExpected(c, env, k, g) {
          if g == f {
            SetGet(before.config, f, v);
            EnvExpectedLast(c, env, k);
          } else {
            SetOther(before.config, f, v, g);
            EnvExpectedStep(c, env, k, g);
          }
        }
      }
    }
  }

  /** Taking one more variable changes the expectation only for its own
      field, and only when it is set. */
  lemma EnvExpectedStep(c: DownloadConfig, env: map<string, string>, k: nat, g: Field)
    requires 0 < k <= |EnvOrder|
    requires g != EnvOrder[k - 1] || EnvVariable(g) !in env
    ensures EnvExpected(c, env, k, g) == EnvExpected(c, env, k - 1, g)
  {
    if EnvIndex(g).Some? {
      assert EnvIndex(g) != Some(k - 1) || EnvVariable(g) !in env;
    }
  }

  /** The field of a set variable is expected to hold its conversion. */
  lemma EnvExpectedLast(c: DownloadConfig, env: map<string, string>, k: nat)
    requires 0 < k <= |EnvOrder|
    requires EnvVariable(EnvOrder[k - 1]) in env
    requires ConvertEnv(EnvOrder[k - 1], env[EnvVariable(EnvOrder[k - 1])]).Some?
    ensures EnvExpected(c, env, k, EnvOrder[k - 1]) == ConvertEnv(EnvOrder[k - 1], env[EnvVariable(EnvOrder[k - 1])]).value
  {
    assert EnvIndex(EnvOrder[k - 1]) == Some(k - 1);
  }

  /** After a scan without error, a boolean attribute whose variable is set
      is true exactly when the text's lower-case form is true, 1, yes or
      on; an integer attribute holds the parsed number; every attribute
      whose variable is unset or which has none keeps its value. */
  lemma EnvConversions(c: DownloadConfig, env: map<string, string>, f: Field)
    requires EnvLoad(c, env, |EnvOrder|).error.None?
    ensures var r := EnvLoad(c, env, |EnvOrder|).config;
      (IsEnvField(f) && IsBoolField(f) && EnvVariable(f) in env ==>
         Get(r, f) == VBool(EnvFlag(env[EnvVariable(f)]))) &&
      (IsEnvField(f) && IsIntField(f) && EnvVariable(f) in env ==>
         ParseInt(env[EnvVariable(f)]).Some? && Get(r, f) == VInt(ParseInt(env[EnvVariable(f)]).value)) &&
      (IsEnvField(f) && !IsBoolField(f) && !IsIntField(f) && EnvVariable(f) in env ==>
         Get(r, f) == VStr(env[EnvVariable(f)])) &&
      (!IsEnvField(f) || EnvVariable(f) !in env ==> Get(r, f) == Get(c, f))
  {
    EnvLoadFields(c, env, |EnvOrder|);
    EnvLoadConverted(c, env, |EnvOrder|);
    if IsEnvField(f) {
      var i := EnvIndex(f).value;
      assert EnvOrder[i] == f;
    }
  }

  /** A scan stops only at an integer attribute whose variable's text does
      not parse. */
  lemma {:induction false} EnvErrorCause(c: DownloadConfig, env: map<string, string>, k: nat)
    requires k <= |EnvOrder|
    requires EnvLoad(c, env, k).error.Some?
    ensures exists i :: (0 <= i < k && EnvVariable(EnvOrder[i]) in env && IsIntField(EnvOrder[i])
      && ParseInt(env[EnvVariable(EnvOrder[i])]).None?
      && EnvLoad(c, env, k).error == Some(EnvError(EnvVariable(EnvOrder[i]), env[EnvVariable(EnvOrder[i])])))
  {
    if EnvLoad(c, env, k - 1).error.Some? {
      EnvErrorCause(c, env, k - 1);
      assert EnvLoad(c, env, k) == EnvLoad(c, env, k - 1);
    } else {
      EnvOrderField(k - 1);
      EnvErrorAtLast(c, env, k);
    }
  }

  /** Every attribute of `EnvOrder` has an environment variable. */
  lemma EnvOrderField(i: nat)
    requires i < |EnvOrder|
    ensures IsEnvField(EnvOrder[i])
  {
  }

  /** A scan that first fails at variable `k - 1` fails at an integer
      attribute whose text does not parse. */
  lemma EnvErrorAtLast(c: DownloadConfig, env: map<string, string>, k: nat)
    requires 0 < k <= |EnvOrder| && IsEnvField(EnvOrder[k - 1])
    requires EnvLoad(c, env, k - 1).error.None? && EnvLoad(c, env, k).error.Some?
    ensures var variable := EnvVariable(EnvOrder[k - 1]);
      && variable in env && IsIntField(EnvOrder[k - 1]) && ParseInt(env[variable]).None?
      && EnvLoad(c, env, k).error == Some(EnvError(variable, env[variable]))
  {
    var f := EnvOrder[k - 1];
    var variable := EnvVariable(f);
    assert variable in env && ConvertEnv(f, env[variable]).None?;
  }

  /** Only the mapped variables matter: two environments that agree on
      them load the same configuration. */
  lemma {:induction false} EnvOnlyMapped(c: DownloadConfig, env: map<string, string>, env': map<string, string>, k: nat)
    requires k <= |EnvOrder|
    requires forall f :: IsEnvField(f) ==>
      (EnvVariable(f) in env <==> EnvVariable(f) in env') &&
      (EnvVariable(f) in env ==> env[EnvVariable(f)] == env'[EnvVariable(f)])
    ensures EnvLoad(c, env, k) == EnvLoad(c, env', k)
  {
    if k > 0 {
      EnvOnlyMapped(c, env, env', k - 1);
      var f := EnvOrder[k - 1];
      assert IsEnvField(f);
      var variable := EnvVariable(f);
      assert (variable in env <==> variable in env') && (variable in env ==> env[variable] == env'[variable]);
    }
  }

  /** Once the scan has stopped, later variables change nothing. */
  lemma {:induction false} EnvErrorStays(c: DownloadConfig, env: map<string, string>, j: nat, k: nat)
    requires j <= k <= |EnvOrder|
    requires EnvLoad(c, env, j).error.Some?
    ensures EnvLoad(c, env, k) == EnvLoad(c, env, j)
    decreases k
  {
    if j < k {
      EnvErrorStays(c, env, j, k - 1);
    }
  }

  // ---------------------------------------------------------------------
  // Profiles
  // ---------------------------------------------------------------------

  /** The attributes a profile writes besides `profile`. */
  function ProfileFields(p: DownloadProfile): set<Field> {
    match p
    case Mobile | Desktop | AudioOnly => {Quality, Format, WriteSubtitles, WriteThumbnail, QualityFallbackChain}
    case HighQuality => {Quality, Format, WriteSubtitles, WriteThumbnail, WriteMetadata, QualityFallbackChain}
    case Archive => {Quality, Format, WriteSubtitles, WriteThumbnail, WriteMetadata, WriteDescription, QualityFallbackChain}
    case Custom => {}
  }

  /** The configuration after applying profile `p`. */
  function WithProfile(c: DownloadConfig, p: DownloadProfile): DownloadConfig {
    var named := c.(profile := p.Value());
    match p
    case Mobile =>
      named.(quality := "480p", format := "mp4", writeSubtitles := false, writeThumbnail := false,
             qualityFallbackChain := ["480p", "360p", "worst"])
    case Desktop =>
      named.(quality := "best", format := "mp4", writeSubtitles := true, writeThumbnail := true,
             qualityFallbackChain := DesktopChain)
    case HighQuality =>
      named.(quality := "best", format := "mp4", writeSubtitles := true, writeThumbnail := true,
             writeMetadata := true, qualityFallbackChain := ["best", "4320p", "2880p", "2160p", "1440p"])
    case Archive =>
      named.(quality := "best", format := "mkv", writeSubtitles := true, writeThumbnail := true,
             writeMetadata := true, writeDescription := true, qualityFallbackChain := ["best"])
    case AudioOnly =>
      named.(quality := "bestaudio", format := "m4a", writeSubtitles := false, writeThumbnail := true,
             qualityFallbackChain := ["bestaudio", "worst"])
    case Custom => named
  }

  /** A profile records its name and touches only the attributes it
      lists; the custom profile lists none. */
  lemma ProfileTouchesOnlyItsFields(c: DownloadConfig, p: DownloadProfile)
    ensures WithProfile(c, p).profile == p.Value()
    ensures AgreeOutside(WithProfile(c, p), c, ProfileFields(p) + {Profile})
    ensures ProfileFields(Custom) == {}
  {
  }

  /** The mobile profile: 480p mp4 without subtitles or thumbnail, falling
      back to 360p and then the worst format. */
  lemma MobileSettings(c: DownloadConfig)
    ensures var m := WithProfile(c, Mobile);
      m.profile == "mobile" && m.quality == "480p" && m.format == "mp4" &&
      !m.writeSubtitles && !m.writeThumbnail && m.qualityFallbackChain == ["480p", "360p", "worst"] &&
      AgreeOutside(m, c, {Profile, Quality, Format, WriteSubtitles, WriteThumbnail, QualityFallbackChain})
  {
  }

  /** Applying a profile twice is applying it once. */
  lemma ProfileIdempotent(c: DownloadConfig, p: DownloadProfile)
    ensures WithProfile(WithProfile(c, p), p) == WithProfile(c, p)
  {
  }

  // ---------------------------------------------------------------------
  // Format selector
  // ---------------------------------------------------------------------

  /** The selector parts one fallback entry contributes for one container
      format: "best", "worst" and "bestaudio" name themselves, a height
      gives a merged and a single-file alternative, and any other entry
      contributes nothing. */
  function OptionParts(entry: string, fmt: string, audio: string): seq<string> {
    if entry == "best" then ["best[ext=" + fmt + "]"]
    else if entry == "worst" then ["worst[ext=" + fmt + "]"]
    else if entry == "bestaudio" then ["bestaudio[ext=" + audio + "]"]
    else match MatchHeight(entry)
      case Some(h) =>
        ["bestvideo[height=" + NatToString(h) + "][ext=" + fmt + "]+bestaudio[ext=m4a]",
         "best[height=" + NatToString(h) + "][ext=" + fmt + "]"]
      case None => []
  }

  /** `OptionParts` of one entry, as a function of the format. */
  function OptionPartsFor(entry: string, audio: string): string -> seq<string> {
    (fmt: string) => OptionParts(entry, fmt, audio)
  }

  /** One fallback entry across all preferred formats, in their order. */
  function RowParts(entry: string, prefs: seq<string>, audio: string): seq<string> {
    FlatMap(prefs, OptionPartsFor(entry, audio))
  }

  /** `RowParts` for the given formats, as a function of the entry. */
  function RowPartsFor(prefs: seq<string>, audio: string): string -> seq<string> {
    (entry: string) => RowParts(entry, prefs, audio)
  }

  /** All fallback entries in order, each across all formats. */
  function ChainParts(chain: seq<string>, prefs: seq<string>, audio: string): seq<string> {
    FlatMap(chain, RowPartsFor(prefs, audio))
  }

  /** The yt-dlp format selector for a configuration (merging is always
      taken to be available). */
  function FormatSelector(c: DownloadConfig): string {
    if c.profile == "audio_only" then "bestaudio[ext=" + c.audioFormat + "]/bestaudio/best"
    else
      var q := Lower(c.quality);
      if q == "best" || q == "" then BestSelector(true)
      else if q == "worst" then WorstSelector
      else match MatchHeight(q)
        case Some(h) => HeightSelector(h, true)
        case None =>
          Join("/", ChainParts(c.qualityFallbackChain, c.formatPreference, c.audioFormat) + ["best", "worst"])
  }

  /** The audio-only profile selects audio whatever the quality, chain or
      formats. */
  lemma AudioOnlySelector(c: DownloadConfig, quality: string, chain: seq<string>, prefs: seq<string>)
    requires c.profile == "audio_only"
    ensures FormatSelector(c.(quality := quality, qualityFallbackChain := chain, formatPreference := prefs))
         == "bestaudio[ext=" + c.audioFormat + "]/bestaudio/best"
  {
  }

  /** A quality of three or four digits and `p`, in any case, selects
      that height and finally anything not taller. */
  lemma HeightQualitySelector(c: DownloadConfig, h: nat)
    requires c.profile != "audio_only" && MatchHeight(Lower(c.quality)) == Some(h)
    ensures EndsWith(FormatSelector(c), "/best[height<=" + NatToString(h) + "]")
  {
    var q := Lower(c.quality);
    assert q != "best" && q != "" && q != "worst" by {
      assert IsAsciiDigit(q[0]);
    }
  }

  /** Any other quality falls back through the chain and ends with the
      plain best and worst formats. */
  lemma FallbackSelector(c: DownloadConfig)
    requires c.profile != "audio_only"
    requires var q := Lower(c.quality); q != "best" && q != "" && q != "worst" && MatchHeight(q).None?
    ensures FormatSelector(c) == Join("/", ChainParts(c.qualityFallbackChain, c.formatPreference, c.audioFormat) + ["best", "worst"])
    ensures EndsWith(FormatSelector(c), "best" + "/" + "worst")
  {
    JoinEndsWith("/", ChainParts(c.qualityFallbackChain, c.formatPreference, c.audioFormat), "best", "worst");
  }

  /** The parts come chain-major: the parts of a longer chain are those of
      its first entries followed by those of the rest. */
  lemma ChainPartsAppend(a: seq<string>, b: seq<string>, prefs: seq<string>, audio: string)
    ensures ChainParts(a + b, prefs, audio) == ChainParts(a, prefs, audio) + ChainParts(b, prefs, audio)
  {
    FlatMapAppend(a, b, RowPartsFor(prefs, audio));
  }

  /** Within one chain entry the parts come format by format. */
  lemma RowPartsAppend(entry: string, p: seq<string>, q: seq<string>, audio: string)
    ensures RowParts(entry, p + q, audio) == RowParts(entry, p, audio) + RowParts(entry, q, audio)
  {
    FlatMapAppend(p, q, OptionPartsFor(entry, audio));
  }

  /** A chain entry that is neither a keyword nor a height contributes no
      part. */
  lemma {:induction false} UnknownEntryDropped(entry: string, prefs: seq<string>, audio: string)
    requires entry != "best" && entry != "worst" && entry != "bestaudio" && MatchHeight(entry).None?
    ensures RowParts(entry, prefs, audio) == []
    decreases |prefs|
  {
    if prefs != [] {
      UnknownEntryDropped(entry, prefs[..|prefs| - 1], audio);
    }
  }

  /** A height entry contributes two parts per preferred format. */
  lemma {:induction false} HeightEntryParts(entry: string, prefs: seq<string>, audio: string)
    requires MatchHeight(entry).Some?
    ensures |RowParts(entry, prefs, audio)| == 2 * |prefs|
    decreases |prefs|
  {
    if prefs != [] {
      assert entry != "best" && entry != "worst" && entry != "bestaudio" by {
        assert IsAsciiDigit(entry[0]);
      }
      HeightEntryParts(entry, prefs[..|prefs| - 1], audio);
    }
  }

  // ---------------------------------------------------------------------
  // yt-dlp options
  // ---------------------------------------------------------------------

  /** Python truthiness of an optional string. */
  predicate Truthy(o: Option<string>) {
    o.Some? && o.value != ""
  }

  /** The output template: the title and extension under the output
      directory. */
  function OutputTemplate(c: DownloadConfig): string {
    PathJoin(c.outputDir, "%(title)s.%(ext)s")
  }

  /** The options yt-dlp is called with. The four that are only sometimes
      present are `None` when absent. */
  datatype YdlOptions = YdlOptions(
    outtmpl: string,
    format: string,
    writesubtitles: bool,
    writethumbnail: bool,
    writeinfojson: bool,
    writedescription: bool,
    retries: int,
    socketTimeout: int,
    downloadArchive: Option<string>,
    userAgent: Option<string>,
    proxy: Option<string>,
    cookiefile: Option<string>)

  /** An optional option that is set only when `present` holds. */
  function KeptIf(o: Option<string>, present: bool): Option<string> {
    if present then o else None
  }

  /** The option record for configuration `c` and format selector
      `selector`: the fixed options copy their settings, and each optional one
      is present exactly when its setting is a non-empty string (the cookie
      file also only when it exists). */
  function OptionsFor(c: DownloadConfig, selector: string, cookiesFileExists: bool): (o: YdlOptions)
    ensures o.outtmpl == OutputTemplate(c) && o.format == selector
    ensures o.writesubtitles == c.writeSubtitles && o.writethumbnail == c.writeThumbnail
    ensures o.writeinfojson == c.writeMetadata && o.writedescription == c.writeDescription
    ensures o.retries == c.maxRetries && o.socketTimeout == c.downloadTimeout
    ensures o.downloadArchive.Some? <==> Truthy(c.archiveFile)
    ensures o.userAgent.Some? <==> Truthy(c.userAgent)
    ensures o.proxy.Some? <==> Truthy(c.proxy)
    ensures o.cookiefile.Some? <==> Truthy(c.cookiesFile) && cookiesFileExists
    ensures o.downloadArchive.Some? ==> o.downloadArchive == c.archiveFile
    ensures o.userAgent.Some? ==> o.userAgent == c.userAgent
    ensures o.proxy.Some? ==> o.proxy == c.proxy
    ensures o.cookiefile.Some? ==> o.cookiefile == c.cookiesFile
  {
    YdlOptions(
      OutputTemplate(c), selector,
      c.writeSubtitles, c.writeThumbnail, c.writeMetadata, c.writeDescription,
      c.maxRetries, c.downloadTimeout,
      KeptIf(c.archiveFile, Truthy(c.archiveFile)),
      KeptIf(c.userAgent, Truthy(c.userAgent)),
      KeptIf(c.proxy, Truthy(c.proxy)),
      KeptIf(c.cookiesFile, Truthy(c.cookiesFile) && cookiesFileExists))
  }

  /** Manages one configuration. */
  class ConfigManager {
    var config: DownloadConfig

    /** `ConfigManager()` before loading: the defaults. */
    constructor(defaultPath: string)
      ensures config == DefaultConfig(defaultPath)
    {
      config := DefaultConfig(defaultPath);
    }

    /** `_load_config`: the parsed config file's items if one was read
        (`None` when the file is missing or cannot be parsed), then the
        environment. A conversion error is raised to the caller. */
    method LoadConfig(file: Option<seq<(string, ConfigValue)>>, env: map<string, string>)
      returns (raised: Option<EnvError>)
      modifies this
      ensures var fromFile := if file.Some? then ApplyItems(old(config), file.value) else old(config);
        EnvLoaded(config, raised) == EnvLoad(fromFile, env, |EnvOrder|)
    {
      if file.Some? {
        LoadConfigData(file.value);
      }
      raised := LoadEnvVariables(env);
    }

    /** The key filter applied to a parsed file: each key that names an
        attribute sets it. */
    method LoadConfigData(items: seq<(string, ConfigValue)>)
      modifies this
      ensures config == ApplyItems(old(config), items)
    {
      var i := 0;
      while i < |items|
        invariant 0 <= i <= |items|
        invariant config == ApplyItems(old(config), items[..i])
      {
        var (key, value) := items[i];
        ApplyItemsSnoc(old(config), items, i);
        var f := FieldNamed(key);
        if f.Some? {
          config := Set(config, f.value, value);
        }
        i := i + 1;
      }
      assert items[..i] == items;
    }

    /** `_load_env_variables`: each mapped variable that is set is
        converted and stored; an integer that does not parse stops the scan,
        keeping the settings already made. */
    method LoadEnvVariables(env: map<string, string>) returns (raised: Option<EnvError>)
      modifies this
      ensures EnvLoaded(config, raised) == EnvLoad(old(config), env, |EnvOrder|)
    {
      ghost var start := config;
      var k := 0;
      while k < |EnvOrder|
        invariant 0 <= k <= |EnvOrder|
        invariant EnvLoad(start, env, k) == EnvLoaded(config, None)
      {
        var f := EnvOrder[k];
        var variable := EnvVariable(f);
        if variable in env {
          var value := env[variable];
          var converted := ConvertEnv(f, value);
          if converted.None? {
            raised := Some(EnvError(variable, value));
            assert EnvLoad(start, env, k + 1) == EnvLoaded(config, raised);
            EnvErrorStays(start, env, k + 1, |EnvOrder|);
            return;
          }
          assert EnvLoad(start, env, k + 1) == EnvLoaded(Set(config, f, converted.value), None);
          config := Set(config, f, converted.value);
        } else {
          assert EnvLoad(start, env, k + 1) == EnvLoaded(config, None);
        }
        k := k + 1;
      }
      raised := None;
    }

    /** `apply_profile(name)`: an unknown name changes nothing; a known one
        applies that profile. */
    method ApplyProfile(name: string) returns (known: bool)
      modifies this
      ensures known <==> ProfileNamed(name).Some?
      ensures config == if known then WithProfile(old(config), ProfileNamed(name).value) else old(config)
    {
      var p := ProfileNamed(name);
      if p.None? {
        return false;
      }
      known := true;
      config := WithProfile(config, p.value);
    }

    /** `_get_format_selector`, building the fallback parts with nested
        loops. */
    method GetFormatSelector() returns (selector: string)
      ensures selector == FormatSelector(config)
    {
      if config.profile == "audio_only" {
        return "bestaudio[ext=" + config.audioFormat + "]/bestaudio/best";
      }
      var quality := Lower(config.quality);
      var ffmpegAvailable := true;
      if quality == "best" || quality == "" {
        return BestSelector(ffmpegAvailable);
      }
      if quality == "worst" {
        return WorstSelector;
      }
      var height := MatchHeight(quality);
      if height.Some? {
        return HeightSelector(height.value, ffmpegAvailable);
      }
      var parts := FallbackParts(config.qualityFallbackChain, config.formatPreference, config.audioFormat);
      parts := parts + ["best", "worst"];
      selector := Join("/", parts);
    }

    /** The fallback parts of `_get_format_selector`: for each chain entry
        and then each preferred format, the parts that pair contributes. */
    static method FallbackParts(chain: seq<string>, prefs: seq<string>, audio: string) returns (parts: seq<string>)
      ensures parts == ChainParts(chain, prefs, audio)
    {
      parts := [];
      var i := 0;
      while i < |chain|
        invariant 0 <= i <= |chain|
        invariant parts == ChainParts(chain[..i], prefs, audio)
      {
        var entry := chain[i];
        var j := 0;
        while j < |prefs|
          invariant 0 <= j <= |prefs|
          invariant parts == ChainParts(chain[..i], prefs, audio) + RowParts(entry, prefs[..j], audio)
        {
          var fmt := prefs[j];
          assert prefs[..j + 1][..j] == prefs[..j];
          parts := parts + OptionParts(entry, fmt, audio);
          j := j + 1;
        }
        assert prefs[..j] == prefs;
        assert chain[..i + 1][..i] == chain[..i];
        i := i + 1;
      }
      assert chain[..i] == chain;
    }

    /** `get_yt_dlp_options`. `cookiesFileExists` says whether the cookie
        file is on disk. */
    method GetYtDlpOptions(cookiesFileExists: bool) returns (options: YdlOptions)
      ensures options == OptionsFor(config, FormatSelector(config), cookiesFileExists)
    {
      var selector := GetFormatSelector();
      options := OptionsFor(config, selector, cookiesFileExists);
    }
  }
}

