/** Error classification, the retry policy with capped exponential backoff,
    the error handler's history and summary, the retry loop around an
    action, and the fallback extractor cursor. */
module ErrorHandling {
  import opened Wrappers
  import opened Text

  datatype ErrorCategory =
    | Network | Authentication | ContentUnavailable | QuotaExceeded
    | FormatError | Filesystem | Extractor | Unknown
  {
    /** The enum member's value string. */
    function Value(): string {
      match this
      case Network => "network"
      case Authentication => "authentication"
      case ContentUnavailable => "content_unavailable"
      case QuotaExceeded => "quota_exceeded"
      case FormatError => "format_error"
      case Filesystem => "filesystem"
      case Extractor => "extractor"
      case Unknown => "unknown"
    }
  }

  /** The exception classes the classifier tells apart by type. */
  datatype ExceptionKind =
    ConnectionError | TimeoutError | PermissionError | FileNotFoundError | ValueError | OtherException

  /** A raised exception: its class and the text `str(e)` gives. */
  datatype Exception = Exception(kind: ExceptionKind, text: string)

  datatype DownloadError = DownloadError(
    category: ErrorCategory,
    message: string,
    originalException: Option<Exception>,
    url: Option<string>,
    retryCount: int,
    timestamp: real)

  const NetworkKeywords: seq<string> :=
    ["network", "connection", "timeout", "unreachable", "dns",
     "socket", "http", "ssl", "certificate", "proxy"]
  const AuthenticationKeywords: seq<string> :=
    ["authentication", "login", "password", "credentials", "unauthorized",
     "forbidden", "access denied", "private", "members only"]
  const ContentUnavailableKeywords: seq<string> :=
    ["not available", "removed", "deleted", "blocked", "restricted",
     "copyright", "unavailable", "private video", "video does not exist"]
  const QuotaKeywords: seq<string> :=
    ["quota", "rate limit", "too many requests", "daily limit",
     "exceeded", "throttled"]
  const FormatKeywords: seq<string> :=
    ["format", "codec", "encoding", "unsupported", "invalid format",
     "no suitable formats", "format not available"]
  const FilesystemKeywords: seq<string> :=
    ["permission", "disk", "space", "directory", "file", "path",
     "access denied", "read-only", "filesystem"]
  const ExtractorKeywords: seq<string> :=
    ["extractor", "parser", "regex", "extraction", "youtube",
     "unable to extract", "no video found"]

  /** The keyword table, in declaration order. */
  const ErrorPatterns: seq<(ErrorCategory, seq<string>)> := [
    (Network, NetworkKeywords),
    (Authentication, AuthenticationKeywords),
    (ContentUnavailable, ContentUnavailableKeywords),
    (QuotaExceeded, QuotaKeywords),
    (FormatError, FormatKeywords),
    (Filesystem, FilesystemKeywords),
    (Extractor, ExtractorKeywords)
  ]

  /** `any(pattern in text for pattern in row)`. */
  predicate KeywordIn(row: seq<string>, text: string) {
    exists p :: p in row && Contains(text, p)
  }

  predicate NoKeyword(text: string) {
    forall j :: 0 <= j < |ErrorPatterns| ==> !KeywordIn(ErrorPatterns[j].1, text)
  }

  /** Row `i` is the first row of `table` with a keyword in `text`. */
  predicate IsFirstMatch(table: seq<(ErrorCategory, seq<string>)>, text: string, i: int) {
    0 <= i < |table| && KeywordIn(table[i].1, text)
    && forall j :: 0 <= j < i ==> !KeywordIn(table[j].1, text)
  }

  /** The scan over the table from row `from`, earlier rows having failed. */
  function FirstMatchFrom(table: seq<(ErrorCategory, seq<string>)>, text: string, from: nat): (r: Option<nat>)
    requires from <= |table|
    requires forall j :: 0 <= j < from ==> !KeywordIn(table[j].1, text)
    ensures r.Some? ==> IsFirstMatch(table, text, r.value)
    ensures r.None? ==> forall j :: 0 <= j < |table| ==> !KeywordIn(table[j].1, text)
    decreases |table| - from
  {
    if from == |table| then None
    else if KeywordIn(table[from].1, text) then Some(from)
    else FirstMatchFrom(table, text, from + 1)
  }

  /** The category chosen by exception class once no keyword matched. */
  function TypeFallback(kind: ExceptionKind): ErrorCategory {
    match kind
    case ConnectionError => Network
    case TimeoutError => Network
    case PermissionError => Filesystem
    case FileNotFoundError => Filesystem
    case ValueError => Unknown
    case OtherException => Unknown
  }

  /** `ErrorClassifier.classify_error`: the category of the first table row
      with a keyword in the lower-cased text, else the class fallback. */
  function ClassifyError(e: Exception): ErrorCategory {
    var t := Lower(e.text);
    match FirstMatchFrom(ErrorPatterns, t, 0)
    case Some(i) => ErrorPatterns[i].0
    case None => TypeFallback(e.kind)
  }

  /** What `classify_error` promises: the first row with a keyword decides,
      and the class decides only when no row has one. */
  lemma ClassifyErrorSpec(e: Exception)
    ensures var t := Lower(e.text);
      forall i :: IsFirstMatch(ErrorPatterns, t, i) ==> ClassifyError(e) == ErrorPatterns[i].0
    ensures NoKeyword(Lower(e.text)) ==> ClassifyError(e) == TypeFallback(e.kind)
  {
  }

  /** The position of a category in the table; `Unknown` comes after every row. */
  function CategoryRank(c: ErrorCategory): nat {
    match c
    case Network => 0
    case Authentication => 1
    case ContentUnavailable => 2
    case QuotaExceeded => 3
    case FormatError => 4
    case Filesystem => 5
    case Extractor => 6
    case Unknown => 7
  }

  lemma TableRanks()
    ensures |ErrorPatterns| == 7
    ensures forall i :: 0 <= i < |ErrorPatterns| ==> CategoryRank(ErrorPatterns[i].0) == i
  {
  }

  /** A keyword of row `i` in the lower-cased text makes the result come
      from row `i` or an earlier row. */
  lemma KeywordBound(e: Exception, i: nat, p: string)
    requires i < |ErrorPatterns| && p in ErrorPatterns[i].1
    requires Contains(Lower(e.text), p)
    ensures CategoryRank(ClassifyError(e)) <= i
  {
    var t := Lower(e.text);
    assert KeywordIn(ErrorPatterns[i].1, t);
    var r := FirstMatchFrom(ErrorPatterns, t, 0);
    assert r.Some?;
    TableRanks();
  }

  lemma {:induction false} ContainsWithin(s: string, p: string, q: string)
    requires Contains(s, p) && Contains(p, q)
    ensures Contains(s, q)
  {
    var i := ContainsHasPosition(s, p);
    var j := ContainsHasPosition(p, q);
    forall k | 0 <= k < |q| ensures s[i + j + k] == q[k] {
      assert s[i..i + |p|][j + k] == s[i + j + k];
      assert p[j..j + |q|][k] == p[j + k];
    }
    assert s[i + j..i + j + |q|] == q;
    ContainsAt(s, q, i + j);
  }

  /** "private video" never decides: the authentication keyword "private"
      inside it is found first. */
  lemma PrivateVideoShadowed(e: Exception)
    requires Contains(Lower(e.text), "private video")
    ensures ClassifyError(e) in {Network, Authentication}
  {
    assert StartsWith("private video", "private");
    ContainsWithin(Lower(e.text), "private video", "private");
    KeywordBound(e, 1, "private");
  }

  /** "access denied" never yields the file-system category: the
      authentication row lists it too and comes first. */
  lemma AccessDeniedShadowed(e: Exception)
    requires Contains(Lower(e.text), "access denied")
    ensures ClassifyError(e) in {Network, Authentication}
  {
    KeywordBound(e, 1, "access denied");
  }

  lemma NotAvailableInFormat()
    ensures Contains("format not available", "not available")
  {
    assert "format not available"[7..20] == "not available";
    ContainsAt("format not available", "not available", 7);
  }

  /** "format not available" never yields the format category: "not
      available" of the unavailable row is found first. */
  lemma FormatNotAvailableShadowed(e: Exception)
    requires Contains(Lower(e.text), "format not available")
    ensures ClassifyError(e) in {Network, Authentication, ContentUnavailable}
  {
    NotAvailableInFormat();
    ContainsWithin(Lower(e.text), "format not available", "not available");
    KeywordBound(e, 2, "not available");
  }

  /** The class fallback applies exactly when no keyword occurs. */
  lemma FallbackOnlyWithoutKeyword(e: Exception)
    ensures NoKeyword(Lower(e.text)) ==> ClassifyError(e) == TypeFallback(e.kind)
    ensures !NoKeyword(Lower(e.text)) ==> ClassifyError(e) != Unknown
  {
    ClassifyErrorSpec(e);
    var t := Lower(e.text);
    if !NoKeyword(t) {
      var j :| 0 <= j < |ErrorPatterns| && KeywordIn(ErrorPatterns[j].1, t);
      var p :| p in ErrorPatterns[j].1 && Contains(t, p);
      KeywordBound(e, j, p);
    }
  }

  /** A network keyword anywhere in the text makes the error a network error. */
  lemma NetworkKeywordWins(e: Exception, p: string)
    requires p in NetworkKeywords && Contains(Lower(e.text), p)
    ensures ClassifyError(e) == Network
  {
    KeywordBound(e, 0, p);
  }

  /** Every character of `s` is in `cs`. */
  predicate CharsIn(s: string, cs: set<char>) {
    forall i :: 0 <= i < |s| ==> s[i] in cs
  }

  lemma NotContainsOutside(s: string, pat: string, cs: set<char>, c: char)
    requires CharsIn(s, cs) && c in pat && c !in cs
    ensures !Contains(s, pat)
  {
    NotContainsMissingChar(s, pat, c);
  }

  lemma NoNetworkKeywordInAccessDenied(t: string)
    requires t == "access denied"
    ensures !KeywordIn(NetworkKeywords, t)
  {
    var cs := {'a', 'c', 'e', 's', ' ', 'd', 'n', 'i'};
    assert CharsIn(t, cs);
    var w := "wotu?ohlrp";
    forall i | 0 <= i < |NetworkKeywords| && i != 4
      ensures !Contains(t, NetworkKeywords[i])
    {
      assert w[i] in NetworkKeywords[i] && w[i] !in cs;
      NotContainsOutside(t, NetworkKeywords[i], cs, w[i]);
    }
    NotContainsAfter(t, "dns", 7, 's');
  }

  /** Text with "access denied" and no network keyword is an authentication
      error, whatever the exception's class. */
  lemma AccessDeniedIsAuthentication(e: Exception)
    requires Contains(Lower(e.text), "access denied")
    requires !KeywordIn(NetworkKeywords, Lower(e.text))
    ensures ClassifyError(e) == Authentication
  {
    var t := Lower(e.text);
    assert KeywordIn(ErrorPatterns[1].1, t);
    assert !KeywordIn(ErrorPatterns[0].1, t);
    var r := FirstMatchFrom(ErrorPatterns, t, 0);
    assert r == Some(1);
  }

  /** `PermissionError("Access denied")` is an authentication error: the
      keyword row wins over the class. */
  lemma AccessDeniedPermissionError(s: string)
    requires s == "Access denied"
    ensures ClassifyError(Exception(PermissionError, s)) == Authentication
  {
    var t := Lower(s);
    assert t == "access denied";
    NoNetworkKeywordInAccessDenied(t);
    assert StartsWith(t, "access denied");
    AccessDeniedIsAuthentication(Exception(PermissionError, s));
  }

  /** `RetryStrategy`; its fields are fixed when it is built. */
  datatype RetryStrategy = RetryStrategy(
    maxRetries: int,
    baseDelay: real,
    maxDelay: real,
    exponentialBackoff: bool,
    jitter: bool)

  const DefaultRetryStrategy := RetryStrategy(3, 1.0, 60.0, true, true)

  /** `RetryStrategy.should_retry`. */
  function ShouldRetry(s: RetryStrategy, error: DownloadError): (b: bool)
    ensures error.retryCount >= s.maxRetries ==> !b
    ensures error.category == ContentUnavailable || error.category == Authentication ==> !b
    ensures (error.retryCount < s.maxRetries
             && error.category != ContentUnavailable && error.category != Authentication) ==> b
  {
    if error.retryCount >= s.maxRetries then false
    else error.category !in {ContentUnavailable, Authentication}
  }

  function PowTwo(n: nat): (r: real)
    ensures r >= 1.0
  {
    if n == 0 then 1.0 else 2.0 * PowTwo(n - 1)
  }

  /** `2 ** n` for any integer `n`. */
  function Pow2(n: int): (r: real)
    ensures r > 0.0
    ensures n >= 0 ==> r >= 1.0
    ensures n < 0 ==> r <= 1.0
  {
    if n >= 0 then PowTwo(n) else 1.0 / PowTwo(-n)
  }

  lemma {:induction false} PowTwoMonotone(n: nat, m: nat)
    requires n <= m
    ensures PowTwo(n) <= PowTwo(m)
    decreases m - n
  {
    if n < m {
      PowTwoMonotone(n, m - 1);
    }
  }

  lemma Pow2Monotone(n: int, m: int)
    requires n <= m
    ensures Pow2(n) <= Pow2(m)
  {
    if 0 <= n {
      PowTwoMonotone(n, m);
    } else if m < 0 {
      PowTwoMonotone(-m, -n);
      var a, b := PowTwo(-m), PowTwo(-n);
      assert a <= b;
      assert 1.0 / b <= 1.0 / a by {
        assert 1.0 / b * b == 1.0 && 1.0 / a * a == 1.0;
        assert (1.0 / b) * a <= (1.0 / b) * b;
      }
    }
  }

  /** The delay before the cap. */
  function UncappedDelay(s: RetryStrategy, n: int): real {
    if s.exponentialBackoff then s.baseDelay * Pow2(n) else s.baseDelay
  }

  /** `min(delay, max_delay)`. */
  function CappedDelay(s: RetryStrategy, n: int): (r: real)
    ensures r <= s.maxDelay && r <= UncappedDelay(s, n)
    ensures r == s.maxDelay || r == UncappedDelay(s, n)
  {
    var delay := UncappedDelay(s, n);
    if s.maxDelay < delay then s.maxDelay else delay
  }

  /** The jitter step: `delay *= (0.5 + draw * 0.5)` when jitter is on. */
  function Jittered(delay: real, jitter: bool, draw: real): real {
    if jitter then delay * (0.5 + draw * 0.5) else delay
  }

  /** Jitter moves a delay toward zero by at most half. */
  lemma JitterNonNegative(delay: real, draw: real)
    requires 0.0 <= draw < 1.0 && delay >= 0.0
    ensures delay * 0.5 <= Jittered(delay, true, draw) <= delay
  {
    var f := 0.5 + draw * 0.5;
    assert Jittered(delay, true, draw) == delay * f;
    ScaleNonNegative(delay, f);
  }

  lemma JitterNegative(delay: real, draw: real)
    requires 0.0 <= draw < 1.0 && delay < 0.0
    ensures delay < Jittered(delay, true, draw) <= delay * 0.5
  {
    var f := 0.5 + draw * 0.5;
    assert Jittered(delay, true, draw) == delay * f;
    ScaleNegative(delay, f);
  }

  lemma ScaleNonNegative(x: real, f: real)
    requires 0.5 <= f < 1.0 && x >= 0.0
    ensures x * 0.5 <= x * f
    ensures x * f <= x
  {
    assert x * f - x * 0.5 == x * (f - 0.5);
    assert x - x * f == x * (1.0 - f);
  }

  lemma ScaleNegative(x: real, f: real)
    requires 0.5 <= f < 1.0 && x < 0.0
    ensures x < x * f
    ensures x * f <= x * 0.5
  {
    assert x * f - x == (-x) * (1.0 - f);
    assert x * 0.5 - x * f == (-x) * (f - 0.5);
  }

  /** `RetryStrategy.get_delay(n)`, with `draw` the value `random.random()`
      returned. */
  function GetDelay(s: RetryStrategy, n: int, draw: real): real {
    Jittered(CappedDelay(s, n), s.jitter, draw)
  }

  /** The delay is the capped one without jitter; jitter moves it toward
      zero by at most half; it never exceeds `max_delay` unless jitter
      scales a negative cap. */
  lemma DelayBounds(s: RetryStrategy, n: int, draw: real)
    requires 0.0 <= draw < 1.0
    ensures !s.jitter ==> GetDelay(s, n, draw) == CappedDelay(s, n)
    ensures s.jitter && CappedDelay(s, n) >= 0.0 ==>
      CappedDelay(s, n) * 0.5 <= GetDelay(s, n, draw) <= CappedDelay(s, n)
    ensures s.jitter && CappedDelay(s, n) < 0.0 ==>
      CappedDelay(s, n) < GetDelay(s, n, draw) <= CappedDelay(s, n) * 0.5
    ensures !s.jitter || s.maxDelay >= 0.0 ==> GetDelay(s, n, draw) <= s.maxDelay
  {
    var capped := CappedDelay(s, n);
    if s.jitter {
      if capped < 0.0 {
        JitterNegative(capped, draw);
      } else {
        JitterNonNegative(capped, draw);
      }
    }
  }

  /** Without jitter and with a non-negative base, later attempts never wait
      less. */
  lemma DelayMonotone(s: RetryStrategy, n: int, m: int, dn: real, dm: real)
    requires !s.jitter && s.baseDelay >= 0.0 && n <= m
    requires 0.0 <= dn < 1.0 && 0.0 <= dm < 1.0
    ensures GetDelay(s, n, dn) <= GetDelay(s, m, dm)
  {
    if s.exponentialBackoff {
      Pow2Monotone(n, m);
      ScaleMonotone(s.baseDelay, Pow2(n), Pow2(m));
    }
    CappedMonotone(s, n, m);
  }

  lemma CappedMonotone(s: RetryStrategy, n: int, m: int)
    requires UncappedDelay(s, n) <= UncappedDelay(s, m)
    ensures CappedDelay(s, n) <= CappedDelay(s, m)
  {
    var un, um := UncappedDelay(s, n), UncappedDelay(s, m);
    assert CappedDelay(s, n) == if s.maxDelay < un then s.maxDelay else un;
    assert CappedDelay(s, m) == if s.maxDelay < um then s.maxDelay else um;
  }

  /** A negative base gives a negative delay before and after the cap. */
  lemma NegativeBaseCapped(s: RetryStrategy, n: int)
    requires s.baseDelay < 0.0
    ensures CappedDelay(s, n) < 0.0
  {
    if s.exponentialBackoff {
      NegativeScaled(s.baseDelay, Pow2(n));
    }
  }

  lemma NegativeScaled(x: real, p: real)
    requires x < 0.0 && p > 0.0
    ensures x * p < 0.0
  {
    assert (-x) * p > 0.0;
  }

  lemma ScaleMonotone(x: real, a: real, b: real)
    requires x >= 0.0 && a <= b
    ensures x * a <= x * b
  {
    var d := b - a;
    assert x * d >= 0.0;
    assert x * b == x * a + x * d;
  }

  datatype ErrorSummary =
    | NoErrors
    | Summary(totalErrors: nat, byCategory: map<ErrorCategory, nat>, mostRecent: string)

  /** How many errors in `h` have category `c`. */
  function CountCategory(h: seq<DownloadError>, c: ErrorCategory): nat
    decreases |h|
  {
    if h == [] then 0
    else CountCategory(h[..|h| - 1], c) + (if h[|h| - 1].category == c then 1 else 0)
  }

  lemma {:induction false} CountCategoryBound(h: seq<DownloadError>, c: ErrorCategory)
    ensures CountCategory(h, c) <= |h|
    ensures CountCategory(h, c) > 0 <==> exists k :: 0 <= k < |h| && h[k].category == c
    decreases |h|
  {
    if h != [] {
      var init := h[..|h| - 1];
      CountCategoryBound(init, c);
      if exists k :: 0 <= k < |init| && init[k].category == c {
        var k :| 0 <= k < |init| && init[k].category == c;
        assert h[k] == init[k];
      }
      if exists k :: 0 <= k < |h| && h[k].category == c {
        var k :| 0 <= k < |h| && h[k].category == c;
        if k < |init| {
          assert init[k] == h[k];
        }
      }
    }
  }

  function CountAll(h: seq<DownloadError>): nat {
    CountCategory(h, Network) + CountCategory(h, Authentication)
    + CountCategory(h, ContentUnavailable) + CountCategory(h, QuotaExceeded)
    + CountCategory(h, FormatError) + CountCategory(h, Filesystem)
    + CountCategory(h, Extractor) + CountCategory(h, Unknown)
  }

  /** The per-category counts add up to the number of errors. */
  lemma {:induction false} CountsSumToTotal(h: seq<DownloadError>)
    ensures CountAll(h) == |h|
    decreases |h|
  {
    if h != [] {
      CountsSumToTotal(h[..|h| - 1]);
    }
  }

  /** `ErrorHandler`: classifies exceptions and keeps their history. */
  class ErrorHandler {
    /** The classifier's `classify_error`. */
    const classify: Exception -> ErrorCategory
    var retryStrategy: RetryStrategy
    var errorHistory: seq<DownloadError>

    constructor (strategy: Option<RetryStrategy>)
      ensures classify == ClassifyError
      ensures retryStrategy == strategy.GetOr(DefaultRetryStrategy)
      ensures errorHistory == []
    {
      classify := ClassifyError;
      retryStrategy := strategy.GetOr(DefaultRetryStrategy);
      errorHistory := [];
    }

    /** `handle_error`: records and returns the classified error; `now` is
        the clock value `__post_init__` reads. */
    method HandleError(e: Exception, url: Option<string>, now: real) returns (error: DownloadError)
      modifies this`errorHistory
      ensures error == DownloadError(classify(e), e.text, Some(e), url, 0, now)
      ensures errorHistory == old(errorHistory) + [error]
    {
      error := DownloadError(classify(e), e.text, Some(e), url, 0, now);
      errorHistory := errorHistory + [error];
    }

    /** `error.retry_count = n` on the error just recorded, which the history
        shares. */
    method SetLastRetryCount(n: int)
      requires errorHistory != []
      modifies this`errorHistory
      ensures var last := |old(errorHistory)| - 1;
        errorHistory == old(errorHistory)[..last] + [old(errorHistory)[last].(retryCount := n)]
    {
      var last := |errorHistory| - 1;
      errorHistory := errorHistory[..last] + [errorHistory[last].(retryCount := n)];
    }

    /** `get_error_summary`. */
    method GetErrorSummary() returns (r: ErrorSummary)
      ensures r.NoErrors? <==> errorHistory == []
      ensures r.Summary? ==>
        r.totalErrors == |errorHistory|
        && r.mostRecent == errorHistory[|errorHistory| - 1].message
        && (forall c :: c in r.byCategory <==> exists k :: 0 <= k < |errorHistory| && errorHistory[k].category == c)
        && (forall c :: c in r.byCategory ==> r.byCategory[c] == CountCategory(errorHistory, c))
    {
      if errorHistory == [] {
        return NoErrors;
      }
      var counts: map<ErrorCategory, nat> := map[];
      var i := 0;
      while i < |errorHistory|
        invariant 0 <= i <= |errorHistory|
        invariant forall c :: c in counts <==> CountCategory(errorHistory[..i], c) > 0
        invariant forall c :: c in counts ==> counts[c] == CountCategory(errorHistory[..i], c)
      {
        var c := errorHistory[i].category;
        assert errorHistory[..i + 1][..i] == errorHistory[..i];
        counts := counts[c := (if c in counts then counts[c] else 0) + 1];
        i := i + 1;
      }
      assert errorHistory[..i] == errorHistory;
      forall c ensures CountCategory(errorHistory, c) > 0 <==>
        exists k :: 0 <= k < |errorHistory| && errorHistory[k].category == c
      {
        CountCategoryBound(errorHistory, c);
      }
      r := Summary(|errorHistory|, counts, errorHistory[|errorHistory| - 1].message);
    }
  }

  /** What one call of the wrapped function did. */
  datatype CallOutcome<T> = Returned(value: T) | Raised(exception: Exception)

  /** How `with_retry`'s wrapper ended: the first result, the last exception
      re-raised, or `None` when the loop never ran. */
  datatype RetryOutcome<T> = Success(value: T) | Reraise(exception: Exception) | NoAttempt

  /** How the loop ended and how many calls it made. */
  datatype RetryTrace<T> = RetryTrace(outcome: RetryOutcome<T>, calls: nat)

  /** The error recorded when call `attempt` raised `e`, once its
      `retry_count` is set; `clock(attempt)` is the time it was recorded. */
  function RecordedError(classify: Exception -> ErrorCategory, e: Exception, attempt: nat,
                         clock: nat -> real): DownloadError {
    DownloadError(classify(e), e.text, Some(e), None, attempt, clock(attempt))
  }

  /** The loop's test for sleeping and going on after call `attempt` raised
      `e`. */
  predicate RetriesAfter(s: RetryStrategy, classify: Exception -> ErrorCategory, e: Exception,
                         attempt: nat, clock: nat -> real) {
    attempt < s.maxRetries && ShouldRetry(s, RecordedError(classify, e, attempt, clock))
  }

  /** What `time.sleep` raises for a negative length. */
  const SleepLengthError := Exception(ValueError, "sleep length must be non-negative")

  /** `time.sleep(get_delay(attempt))` raises: the delay is negative. */
  predicate SleepRaises(s: RetryStrategy, draws: nat -> real, attempt: nat) {
    GetDelay(s, attempt, draws(attempt)) < 0.0
  }

  /** The loop of `with_retry` from iteration `attempt` on, where call
      number k returns `action(k)` and `draws(k)` is the jitter draw of the
      sleep after it. A sleep of negative length raises `ValueError` from
      inside the handler, which ends the wrapper with that exception. */
  function RetryFrom<T>(s: RetryStrategy, classify: Exception -> ErrorCategory,
                        action: nat -> CallOutcome<T>, draws: nat -> real, clock: nat -> real,
                        attempt: nat): (t: RetryTrace<T>)
    requires attempt <= s.maxRetries
    ensures attempt < t.calls <= s.maxRetries + 1
    ensures !t.outcome.NoAttempt?
    decreases s.maxRetries - attempt
  {
    match action(attempt)
    case Returned(v) => RetryTrace(Success(v), attempt + 1)
    case Raised(e) =>
      if !RetriesAfter(s, classify, e, attempt, clock) then RetryTrace(Reraise(e), attempt + 1)
      else if SleepRaises(s, draws, attempt) then RetryTrace(Reraise(SleepLengthError), attempt + 1)
      else RetryFrom(s, classify, action, draws, clock, attempt + 1)
  }

  /** The loop goes on only past calls that raised a retryable error and
      slept a non-negative delay, and it stops with the last call's own
      result or exception: that exception is re-raised once it is not
      retryable or the retries are used up, and the sleep's `ValueError`
      takes its place when the delay after it is negative. */
  lemma {:induction false} RetryFromEnds<T>(s: RetryStrategy, classify: Exception -> ErrorCategory,
                                            action: nat -> CallOutcome<T>, draws: nat -> real,
                                            clock: nat -> real, attempt: nat)
    requires attempt <= s.maxRetries
    ensures var t := RetryFrom(s, classify, action, draws, clock, attempt);
      (forall k :: attempt <= k < t.calls - 1 ==>
        action(k).Raised? && RetriesAfter(s, classify, action(k).exception, k, clock) && !SleepRaises(s, draws, k))
      && (t.outcome.Success? ==> action(t.calls - 1) == Returned(t.outcome.value))
      && (t.outcome.Reraise? ==>
        action(t.calls - 1).Raised?
        && var e := action(t.calls - 1).exception;
        if RetriesAfter(s, classify, e, t.calls - 1, clock)
        then SleepRaises(s, draws, t.calls - 1) && t.outcome.exception == SleepLengthError
        else t.outcome.exception == e)
    decreases s.maxRetries - attempt
  {
    if action(attempt).Raised? && RetriesAfter(s, classify, action(attempt).exception, attempt, clock)
       && !SleepRaises(s, draws, attempt) {
      RetryFromEnds(s, classify, action, draws, clock, attempt + 1);
    }
  }

  /** The whole loop; it never runs when `max_retries` is negative. */
  function RetryRun<T>(s: RetryStrategy, classify: Exception -> ErrorCategory,
                       action: nat -> CallOutcome<T>, draws: nat -> real, clock: nat -> real): (t: RetryTrace<T>)
    ensures t.calls <= if s.maxRetries < 0 then 0 else s.maxRetries + 1
    ensures t.outcome.NoAttempt? <==> s.maxRetries < 0
  {
    if s.maxRetries < 0 then RetryTrace(NoAttempt, 0)
    else RetryFrom(s, classify, action, draws, clock, 0)
  }

  /** The delays slept before calls 1 to n: `get_delay(k)` after call k. */
  function SleepSchedule(s: RetryStrategy, draws: nat -> real, n: nat): seq<real> {
    if n == 0 then [] else SleepSchedule(s, draws, n - 1) + [GetDelay(s, n - 1, draws(n - 1))]
  }

  /** Sleep k is `get_delay(k)` with the k-th jitter draw. */
  lemma {:induction false} SleepScheduleEntries(s: RetryStrategy, draws: nat -> real, n: nat)
    ensures |SleepSchedule(s, draws, n)| == n
    ensures forall k :: 0 <= k < n ==> SleepSchedule(s, draws, n)[k] == GetDelay(s, k, draws(k))
  {
    if n > 0 {
      SleepScheduleEntries(s, draws, n - 1);
    }
  }

  /** What call `k` adds to the history: its error, if it raised. */
  function Logged<T>(classify: Exception -> ErrorCategory, outcome: CallOutcome<T>, k: nat,
                     clock: nat -> real): seq<DownloadError> {
    match outcome
    case Returned(_) => []
    case Raised(e) => [RecordedError(classify, e, k, clock)]
  }

  /** The errors recorded by the first n calls. */
  function FailureLog<T>(classify: Exception -> ErrorCategory, action: nat -> CallOutcome<T>,
                         clock: nat -> real, n: nat): seq<DownloadError> {
    if n == 0 then []
    else FailureLog(classify, action, clock, n - 1) + Logged(classify, action(n - 1), n - 1, clock)
  }

  /** Appending call `k`'s entry to a history ending in the log of the first
      `k` calls gives the log of the first `k + 1`. */
  lemma HistoryStep<T>(h: seq<DownloadError>, classify: Exception -> ErrorCategory,
                       action: nat -> CallOutcome<T>, clock: nat -> real, k: nat)
    ensures h + FailureLog(classify, action, clock, k) + Logged(classify, action(k), k, clock)
      == h + FailureLog(classify, action, clock, k + 1)
  {
  }

  /** When the first n calls all raised, the log holds one error per call,
      in call order, each with its attempt number as `retry_count`. */
  lemma {:induction false} FailureLogEntries<T>(classify: Exception -> ErrorCategory,
                                                action: nat -> CallOutcome<T>, clock: nat -> real,
                                                n: nat)
    requires forall k :: 0 <= k < n ==> action(k).Raised?
    ensures |FailureLog(classify, action, clock, n)| == n
    ensures forall k :: 0 <= k < n ==>
      FailureLog(classify, action, clock, n)[k] == RecordedError(classify, action(k).exception, k, clock)
  {
    if n > 0 {
      FailureLogEntries(classify, action, clock, n - 1);
    }
  }

  /** When every call before call `j` raises a retryable error, each sleep
      after them has a non-negative length and call `j` returns, the wrapper
      returns that value unchanged after `j + 1` calls. */
  lemma FirstSuccessReturned<T>(s: RetryStrategy, classify: Exception -> ErrorCategory,
                                action: nat -> CallOutcome<T>, draws: nat -> real, clock: nat -> real, j: nat)
    requires j <= s.maxRetries && action(j).Returned?
    requires forall k :: 0 <= k < j ==>
      action(k).Raised? && classify(action(k).exception) !in {ContentUnavailable, Authentication}
      && !SleepRaises(s, draws, k)
    ensures RetryRun(s, classify, action, draws, clock) == RetryTrace(Success(action(j).value), j + 1)
  {
    RetryFromEnds(s, classify, action, draws, clock, 0);
  }

  /** A retryable first failure followed by a negative delay ends the
      wrapper at once with the sleep's `ValueError`, whatever later calls
      would have done. */
  lemma NegativeDelayRaises<T>(s: RetryStrategy, classify: Exception -> ErrorCategory,
                               action: nat -> CallOutcome<T>, draws: nat -> real, clock: nat -> real)
    requires s.maxRetries >= 1 && action(0).Raised?
    requires classify(action(0).exception) !in {ContentUnavailable, Authentication}
    requires SleepRaises(s, draws, 0)
    ensures RetryRun(s, classify, action, draws, clock) == RetryTrace(Reraise(SleepLengthError), 1)
  {
    assert RetriesAfter(s, classify, action(0).exception, 0, clock);
  }

  /** With a jitter draw from [0, 1) the sleep raises exactly when the
      capped delay is negative, as it is for every attempt once
      `base_delay` is negative. */
  lemma SleepRaisesIffNegative(s: RetryStrategy, draws: nat -> real, attempt: nat)
    requires 0.0 <= draws(attempt) < 1.0
    ensures SleepRaises(s, draws, attempt) <==> CappedDelay(s, attempt) < 0.0
    ensures s.baseDelay < 0.0 ==> SleepRaises(s, draws, attempt)
  {
    DelayBounds(s, attempt, draws(attempt));
    if s.baseDelay < 0.0 {
      NegativeBaseCapped(s, attempt);
    }
  }

  /** One pass of the wrapper's loop, given the sleeps so far: call the
      action; on an exception the handler records the error, whose
      `retry_count` becomes `attempt`, and the loop either stops or sleeps
      `get_delay(attempt)` and goes on; a negative delay makes the sleep
      raise, which stops the wrapper with that `ValueError`. */
  method RetryAttempt<T>(s: RetryStrategy, handler: ErrorHandler, action: nat -> CallOutcome<T>,
                         draws: nat -> real, clock: nat -> real, attempt: nat, slept: seq<real>)
    returns (stop: bool, outcome: RetryOutcome<T>, delays: seq<real>)
    requires attempt <= s.maxRetries
    requires slept == SleepSchedule(s, draws, attempt)
    modifies handler`errorHistory
    ensures var classify := handler.classify;
      if stop then
        RetryFrom(s, classify, action, draws, clock, attempt) == RetryTrace(outcome, attempt + 1)
        && delays == slept
      else
        attempt < s.maxRetries
        && RetryFrom(s, classify, action, draws, clock, attempt) == RetryFrom(s, classify, action, draws, clock, attempt + 1)
        && delays == SleepSchedule(s, draws, attempt + 1)
    ensures handler.errorHistory
      == old(handler.errorHistory) + Logged(handler.classify, action(attempt), attempt, clock)
  {
    delays := slept;
    match action(attempt)
    case Returned(v) =>
      stop, outcome := true, Success(v);
    case Raised(e) =>
      ghost var history := handler.errorHistory;
      var error := handler.HandleError(e, None, clock(attempt));
      assert (history + [error])[..|history|] == history;
      handler.SetLastRetryCount(attempt);
      error := error.(retryCount := attempt);
      assert error == RecordedError(handler.classify, e, attempt, clock);
      if attempt < s.maxRetries && ShouldRetry(s, error) {
        var delay := GetDelay(s, attempt, draws(attempt));
        if delay < 0.0 {
          stop, outcome := true, Reraise(SleepLengthError);
        } else {
          stop, outcome := false, NoAttempt;
          delays := slept + [delay];
        }
      } else {
        stop, outcome := true, Reraise(e);
      }
  }

  /** `with_retry(strategy, handler)(action)()`: how the wrapper ended, how
      often it called the action and the delays it slept (`draws(k)` is the
      jitter draw after call k, `clock(k)` the time call k's error was
      recorded); the handler's history gains one error per failed call. */
  method WithRetry<T>(strategy: Option<RetryStrategy>, handler: ErrorHandler,
                      action: nat -> CallOutcome<T>, draws: nat -> real, clock: nat -> real)
    returns (outcome: RetryOutcome<T>, calls: nat, delays: seq<real>)
    modifies handler`errorHistory
    ensures RetryTrace(outcome, calls) == RetryRun(strategy.GetOr(DefaultRetryStrategy), handler.classify, action, draws, clock)
    ensures delays == SleepSchedule(strategy.GetOr(DefaultRetryStrategy), draws, if calls == 0 then 0 else calls - 1)
    ensures handler.errorHistory == old(handler.errorHistory) + FailureLog(handler.classify, action, clock, calls)
  {
    var s := strategy.GetOr(DefaultRetryStrategy);
    var classify := handler.classify;
    delays := [];
    if s.maxRetries < 0 {
      return NoAttempt, 0, delays;
    }
    ghost var run := RetryFrom(s, classify, action, draws, clock, 0);
    assert run == RetryRun(s, classify, action, draws, clock);
    ghost var h0 := handler.errorHistory;
    var attempt: nat := 0;
    while true
      invariant attempt <= s.maxRetries
      invariant run == RetryFrom(s, classify, action, draws, clock, attempt)
      invariant delays == SleepSchedule(s, draws, attempt)
      invariant handler.errorHistory == h0 + FailureLog(classify, action, clock, attempt)
      decreases s.maxRetries - attempt
    {
      var stop, result;
      stop, result, delays := RetryAttempt(s, handler, action, draws, clock, attempt, delays);
      HistoryStep(h0, classify, action, clock, attempt);
      if stop {
        assert run == RetryTrace(result, attempt + 1);
        assert delays == SleepSchedule(s, draws, (attempt + 1) - 1);
        assert handler.errorHistory == h0 + FailureLog(classify, action, clock, attempt + 1);
        return result, attempt + 1, delays;
      }
      attempt := attempt + 1;
    }
  }

  /** A call that keeps raising a retryable error, with sleeps of
      non-negative length between, is retried until the retries are used
      up, and its exception is re-raised after `max_retries + 1` calls. */
  lemma {:induction false} AlwaysFailingFrom<T>(s: RetryStrategy, classify: Exception -> ErrorCategory,
                                                e: Exception, draws: nat -> real, clock: nat -> real,
                                                attempt: nat)
    requires attempt <= s.maxRetries
    requires classify(e) !in {ContentUnavailable, Authentication}
    requires forall k :: attempt <= k < s.maxRetries ==> !SleepRaises(s, draws, k)
    ensures RetryFrom<T>(s, classify, (k: nat) => Raised(e), draws, clock, attempt)
      == RetryTrace(Reraise(e), s.maxRetries + 1)
    decreases s.maxRetries - attempt
  {
    if attempt < s.maxRetries {
      AlwaysFailingFrom<T>(s, classify, e, draws, clock, attempt + 1);
    }
  }

  /** The whole loop around such a call, as in the module's own example of a
      call that always raises `ConnectionError`. */
  lemma AlwaysFailing<T>(s: RetryStrategy, classify: Exception -> ErrorCategory, e: Exception,
                         draws: nat -> real, clock: nat -> real)
    requires s.maxRetries >= 0
    requires classify(e) !in {ContentUnavailable, Authentication}
    requires forall k :: 0 <= k < s.maxRetries ==> !SleepRaises(s, draws, k)
    ensures RetryRun<T>(s, classify, (k: nat) => Raised(e), draws, clock) == RetryTrace(Reraise(e), s.maxRetries + 1)
  {
    AlwaysFailingFrom<T>(s, classify, e, draws, clock, 0);
  }

  /** The example's sleeps: 0.1 s and then 0.2 s, each scaled by its jitter
      factor. */
  lemma ExampleSchedule(draws: nat -> real)
    ensures SleepSchedule(RetryStrategy(2, 0.1, 60.0, true, true), draws, 2)
      == [0.1 * (0.5 + draws(0) * 0.5), 0.2 * (0.5 + draws(1) * 0.5)]
  {
    assert Pow2(0) == 1.0 && Pow2(1) == 2.0;
  }

  /** `FallbackExtractor`: a cursor over the extractor names. */
  class FallbackExtractor {
    const extractors: seq<string>
    var currentExtractor: nat

    constructor ()
      ensures extractors == ["yt-dlp", "pytube"] && currentExtractor == 0
    {
      extractors := ["yt-dlp", "pytube"];
      currentExtractor := 0;
    }

    /** `get_next_extractor`. */
    method GetNextExtractor() returns (r: Option<string>)
      modifies this
      ensures old(currentExtractor) < |extractors| ==>
        r == Some(extractors[old(currentExtractor)]) && currentExtractor == old(currentExtractor) + 1
      ensures old(currentExtractor) >= |extractors| ==>
        r == None && currentExtractor == old(currentExtractor)
    {
      if currentExtractor < |extractors| {
        r := Some(extractors[currentExtractor]);
        currentExtractor := currentExtractor + 1;
      } else {
        r := None;
      }
    }

    /** `reset`. */
    method Reset()
      modifies this
      ensures currentExtractor == 0
    {
      currentExtractor := 0;
    }
  }

  /** A fresh cursor yields the extractors in list order, then nothing; after
      `reset` it yields the first one again. */
  method FallbackSequence() returns (a: Option<string>, b: Option<string>, c: Option<string>,
                                      d: Option<string>, e: Option<string>)
    ensures a == Some("yt-dlp") && b == Some("pytube") && c == None && d == None
    ensures e == Some("yt-dlp")
  {
    var f := new FallbackExtractor();
    a := f.GetNextExtractor();
    b := f.GetNextExtractor();
    c := f.GetNextExtractor();
    d := f.GetNextExtractor();
    f.Reset();
    e := f.GetNextExtractor();
  }
}
