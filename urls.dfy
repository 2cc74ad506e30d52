/** The string and URL helpers of downloader/utils.py (repeated as methods
    in youtube.py): file-name sanitising, rewriting youtu.be short links to
    watch URLs, and the YouTube URL recognisers. */
module Urls {
  import opened Wrappers
  import opened Text
  import opened QueryStrings

  // ---------------------------------------------------------------------
  // sanitize_filename

  /** The nine characters that may not appear in a file name. */
  const InvalidChars := "<>:\"/\\|?*"

  /** The longest file name kept. */
  const MaxFilenameLength := 200

  function SafeChar(c: char): char {
    if c in InvalidChars then '_' else c
  }

  function Min(a: int, b: int): int {
    if a <= b then a else b
  }

  /** The sanitised name: each invalid character becomes `_`, then the text
      is cut to its first 200 characters. */
  function Sanitized(s: string): string {
    seq(Min(|s|, MaxFilenameLength), i requires 0 <= i < Min(|s|, MaxFilenameLength) => SafeChar(s[i]))
  }

  /** Replaces each invalid character in turn, then truncates. */
  method SanitizeFilename(filename: string) returns (r: string)
    ensures r == Sanitized(filename)
  {
    var name := filename;
    var k := 0;
    while k < |InvalidChars|
      invariant 0 <= k <= |InvalidChars|
      invariant |name| == |filename|
      invariant forall i :: 0 <= i < |name| ==>
        name[i] == (if filename[i] in InvalidChars[..k] then '_' else filename[i])
    {
      name := ReplaceChar(name, InvalidChars[k], '_');
      k := k + 1;
    }
    assert InvalidChars[..k] == InvalidChars;
    r := name[..Min(|name|, MaxFilenameLength)];
  }

  /** None of the nine characters is left, the length is the smaller of the
      input's and 200, and every other character keeps its place. */
  lemma SanitizedSpec(s: string)
    ensures forall c :: c in InvalidChars ==> c !in Sanitized(s)
    ensures |Sanitized(s)| == Min(|s|, MaxFilenameLength)
    ensures forall i :: 0 <= i < |Sanitized(s)| && s[i] !in InvalidChars ==> Sanitized(s)[i] == s[i]
    ensures forall i :: 0 <= i < |Sanitized(s)| && s[i] in InvalidChars ==> Sanitized(s)[i] == '_'
  {
    assert '_' !in InvalidChars;
  }

  /** Sanitising a sanitised name changes nothing. */
  lemma SanitizedIdempotent(s: string)
    ensures Sanitized(Sanitized(s)) == Sanitized(s)
  {
    assert '_' !in InvalidChars;
  }

  // ---------------------------------------------------------------------
  // normalize_youtube_url

  /** What `urlparse` yields that the rewrite reads: the network location,
      the path, and the name-value pairs `parse_qsl` finds in the query,
      already decoded and in order. */
  datatype ParsedUrl = ParsedUrl(netloc: string, path: string, query: seq<(string, string)>)

  const WatchPrefix := "https://www.youtube.com/watch"

  /** The decision of the rewrite: keep the text, or build a watch URL
      with these query pairs. */
  datatype Normalization = Unchanged | Watch(params: seq<(string, string)>)

  /** A host ending in `youtube.com` is kept, a host ending in `youtu.be`
      becomes a watch URL whose first parameter `v` is the path without
      its leading slashes, and anything else, including a URL `urlparse`
      rejects (`None`), is kept. */
  function Normalize(p: Option<ParsedUrl>): Normalization {
    if p.None? || EndsWith(p.value.netloc, "youtube.com") then Unchanged
    else if EndsWith(p.value.netloc, "youtu.be") then
      Watch([("v", LStrip(p.value.path, '/'))] + Flatten(ParseQs(p.value.query)))
    else Unchanged
  }

  /** The text the rewrite returns. */
  function NormalizedText(url: string, n: Normalization): string {
    match n
    case Unchanged => url
    case Watch(ps) => WatchPrefix + "?" + UrlEncode(ps)
  }

  /** `normalize_youtube_url(url)`, given what `urlparse(url)` yields. */
  method NormalizeYoutubeUrl(url: string, parsed: Option<ParsedUrl>) returns (r: string)
    ensures r == NormalizedText(url, Normalize(parsed))
  {
    if parsed.None? {
      return url;
    }
    var p := parsed.value;
    if EndsWith(p.netloc, "youtube.com") {
      return url;
    }
    if EndsWith(p.netloc, "youtu.be") {
      var videoId := LStrip(p.path, '/');
      var qs := ParseQs(p.query);
      var qsFlat := FlattenQuery(qs);
      qsFlat := [("v", videoId)] + qsFlat;
      return WatchPrefix + "?" + UrlEncode(qsFlat);
    }
    return url;
  }

  /** The nested loops that list every value of every entry. */
  method FlattenQuery(qs: QueryDict) returns (qsFlat: seq<(string, string)>)
    ensures qsFlat == Flatten(qs)
  {
    qsFlat := [];
    var i := 0;
    while i < |qs|
      invariant 0 <= i <= |qs|
      invariant qsFlat == Flatten(qs[..i])
    {
      var (k, vals) := qs[i];
      var j := 0;
      while j < |vals|
        invariant 0 <= j <= |vals|
        invariant qsFlat == Flatten(qs[..i]) + Pairs(k, vals[..j])
      {
        assert Pairs(k, vals[..j + 1]) == Pairs(k, vals[..j]) + [(k, vals[j])];
        qsFlat := qsFlat + [(k, vals[j])];
        j := j + 1;
      }
      assert vals[..j] == vals;
      assert qs[..i + 1] == qs[..i] + [qs[i]];
      FlattenAppend(qs[..i], [qs[i]]);
      assert Flatten([qs[i]]) == Pairs(k, vals) + [];
      i := i + 1;
    }
    assert qs[..i] == qs;
  }

  /** Hosts ending in `youtube.com` and hosts ending in neither suffix are
      left alone, as is text `urlparse` rejects. */
  lemma NormalizeKeeps(p: Option<ParsedUrl>)
    requires p.None? || EndsWith(p.value.netloc, "youtube.com") || !EndsWith(p.value.netloc, "youtu.be")
    ensures forall url :: NormalizedText(url, Normalize(p)) == url
  {
  }

  /** A short link becomes a watch URL whose first parameter is `v` with
      the path stripped of leading slashes, followed by the original
      pairs grouped by name. */
  lemma NormalizeShortLink(p: ParsedUrl)
    requires EndsWith(p.netloc, "youtu.be")
    ensures Normalize(Some(p)).Watch?
    ensures Normalize(Some(p)).params[0] == ("v", LStrip(p.path, '/'))
    ensures Normalize(Some(p)).params[1..] == Flatten(ParseQs(p.query))
  {
    ShortHostIsNotYoutube(p.netloc);
  }

  /** The text of a rewritten short link starts with the watch address,
      `?v=` and the encoded video id. */
  lemma NormalizeShortLinkText(url: string, p: ParsedUrl)
    requires EndsWith(p.netloc, "youtu.be")
    ensures StartsWith(NormalizedText(url, Normalize(Some(p))), WatchPrefix + "?v=" + QuotePlus(LStrip(p.path, '/')))
  {
    NormalizeShortLink(p);
    WatchText(Normalize(Some(p)).params, LStrip(p.path, '/'));
  }

  lemma WatchText(ps: seq<(string, string)>, id: string)
    requires ps != [] && ps[0] == ("v", id)
    ensures StartsWith(WatchPrefix + "?" + UrlEncode(ps), WatchPrefix + "?v=" + QuotePlus(id))
  {
    UrlEncodeHead(ps);
    assert QuotePlus("v") == "v";
    assert EncodePair(ps[0]) == "v=" + QuotePlus(id);
    StartsWithPrepend(WatchPrefix + "?", UrlEncode(ps), "v=" + QuotePlus(id));
    Regroup(WatchPrefix, "?", "v=", QuotePlus(id));
    assert "?" + "v=" == "?v=";
  }

  lemma Regroup(a: string, b: string, c: string, d: string)
    ensures a + b + (c + d) == a + (b + c) + d
  {
  }

  lemma ShortHostIsNotYoutube(netloc: string)
    requires EndsWith(netloc, "youtu.be")
    ensures !EndsWith(netloc, "youtube.com")
  {
    assert netloc[|netloc| - 1] == 'e';
  }

  // ---------------------------------------------------------------------
  // is_valid_youtube_url and is_playlist_url

  /** The pieces the fixed URL patterns are made of: literal text, optional
      literal text (`s?`, `(?:www\.)?`), a run of one or more `[\w-]`, a
      run of any characters but a newline (`.*`), and one character of a
      class (`[&?]`). */
  datatype Token = Lit(text: string) | Opt(text: string) | IdRun | AnyRun | OneOf(chars: string)

  predicate IsIdChar(c: char) {
    IsWordChar(c) || c == '-'
  }

  /** The tokens match some prefix of `s[i..]`. */
  predicate MatchAt(s: string, i: nat, toks: seq<Token>)
    requires i <= |s|
    decreases |toks|, |s| - i
  {
    if toks == [] then true
    else match toks[0]
      case Lit(t) => StartsWith(s[i..], t) && MatchAt(s, i + |t|, toks[1..])
      case Opt(t) => (StartsWith(s[i..], t) && MatchAt(s, i + |t|, toks[1..])) || MatchAt(s, i, toks[1..])
      case IdRun => i < |s| && IsIdChar(s[i]) && (MatchAt(s, i + 1, toks[1..]) || MatchAt(s, i + 1, toks))
      case AnyRun => MatchAt(s, i, toks[1..]) || (i < |s| && s[i] != '\n' && MatchAt(s, i + 1, toks))
      case OneOf(cs) => i < |s| && s[i] in cs && MatchAt(s, i + 1, toks[1..])
  }

  /** `re.search`: the pattern matches starting somewhere in `s`. */
  predicate Search(s: string, toks: seq<Token>) {
    exists i :: 0 <= i <= |s| && MatchAt(s, i, toks)
  }

  /** `https?://` */
  const Scheme := [Lit("http"), Opt("s"), Lit("://")]

  const WatchPattern := Scheme + [Opt("www."), Lit("youtube.com/watch?v="), IdRun]
  const ShortsPattern := Scheme + [Opt("www."), Lit("youtube.com/shorts/"), IdRun]
  const ShortLinkPattern := Scheme + [Lit("youtu.be/"), IdRun]
  const MobilePattern := Scheme + [Lit("m.youtube.com/watch?v="), IdRun]
  const PlaylistPattern := Scheme + [Opt("www."), Lit("youtube.com/playlist?"), Lit("list="), IdRun]
  const WatchListPattern := Scheme + [Opt("www."), Lit("youtube.com/watch?"), AnyRun, OneOf("&?"), Lit("list="), IdRun]

  /** One of the six YouTube URL patterns occurs in the text. */
  predicate IsValidYoutubeUrl(url: string) {
    Search(url, WatchPattern) || Search(url, ShortsPattern) || Search(url, ShortLinkPattern)
    || Search(url, MobilePattern) || Search(url, PlaylistPattern) || Search(url, WatchListPattern)
  }

  /** The text holds `list=`, or one of the two playlist patterns occurs. */
  predicate IsPlaylistUrl(url: string) {
    Contains(url, "list=") || Search(url, PlaylistPattern) || Search(url, WatchListPattern)
  }

  /** An occurrence in a suffix is an occurrence. */
  lemma ContainsLater(s: string, i: nat, j: nat, t: string)
    requires i <= j <= |s| && Contains(s[j..], t)
    ensures Contains(s[i..], t)
  {
    var k := ContainsHasPosition(s[j..], t);
    assert s[i..][j - i + k..j - i + k + |t|] == s[j..][k..k + |t|];
    ContainsAt(s[i..], t, j - i + k);
  }

  /** Whatever matches a pattern holds each of its literal pieces. */
  lemma {:induction false} MatchHasLiteral(s: string, i: nat, toks: seq<Token>, t: string)
    requires i <= |s| && MatchAt(s, i, toks) && Lit(t) in toks
    ensures Contains(s[i..], t)
    decreases |toks|, |s| - i, 1
  {
    var rest := toks[1..];
    assert toks[0] != Lit(t) ==> Lit(t) in rest;
    match toks[0]
    case Lit(_) => MatchHasLiteralText(s, i, toks, t);
    case Opt(_) => MatchHasLiteralText(s, i, toks, t);
    case IdRun =>
      if MatchAt(s, i + 1, rest) {
        MatchHasLiteral(s, i + 1, rest, t);
      } else {
        MatchHasLiteral(s, i + 1, toks, t);
      }
      ContainsLater(s, i, i + 1, t);
    case AnyRun =>
      if MatchAt(s, i, rest) {
        MatchHasLiteral(s, i, rest, t);
      } else {
        MatchHasLiteral(s, i + 1, toks, t);
        ContainsLater(s, i, i + 1, t);
      }
    case OneOf(cs) =>
      MatchHasLiteral(s, i + 1, rest, t);
      ContainsLater(s, i, i + 1, t);
  }

  /** `MatchHasLiteral` for a pattern that starts with a literal or an
      optional literal. */
  lemma {:induction false} MatchHasLiteralText(s: string, i: nat, toks: seq<Token>, t: string)
    requires i <= |s| && MatchAt(s, i, toks) && Lit(t) in toks
    requires toks[0].Lit? || toks[0].Opt?
    ensures Contains(s[i..], t)
    decreases |toks|, |s| - i, 0
  {
    var rest := toks[1..];
    assert toks[0] != Lit(t) ==> Lit(t) in rest;
    match toks[0]
    case Lit(u) =>
      if u == t {
        assert s[i..][0..|t|] == t;
        ContainsAt(s[i..], t, 0);
      } else {
        MatchHasLiteral(s, i + |u|, rest, t);
        ContainsLater(s, i, i + |u|, t);
      }
    case Opt(u) =>
      if StartsWith(s[i..], u) && MatchAt(s, i + |u|, rest) {
        MatchHasLiteral(s, i + |u|, rest, t);
        ContainsLater(s, i, i + |u|, t);
      } else {
        MatchHasLiteral(s, i, rest, t);
      }
  }

  /** A text in which a pattern occurs holds each of its literal pieces. */
  lemma SearchHasLiteral(url: string, toks: seq<Token>, t: string)
    requires Lit(t) in toks && Search(url, toks)
    ensures Contains(url, t)
  {
    var i :| 0 <= i <= |url| && MatchAt(url, i, toks);
    MatchHasLiteral(url, i, toks, t);
    ContainsLater(url, 0, i, t);
    assert url[0..] == url;
  }

  /** Both playlist patterns need the literal `list=`, so a URL is a
      playlist URL exactly when it holds `list=`. */
  lemma PlaylistIffList(url: string)
    ensures IsPlaylistUrl(url) <==> Contains(url, "list=")
  {
    if Search(url, PlaylistPattern) {
      assert PlaylistPattern[5] == Lit("list=");
      SearchHasLiteral(url, PlaylistPattern, "list=");
    }
    if Search(url, WatchListPattern) {
      assert WatchListPattern[7] == Lit("list=");
      SearchHasLiteral(url, WatchListPattern, "list=");
    }
  }

  /** The watch address, cut where the watch pattern's pieces meet. */
  lemma WatchPrefixPieces()
    ensures WatchPrefix + "?v=" == "http" + "s" + "://" + "www." + "youtube.com/watch?v="
  {
  }

  /** Every pattern starts with `http` and holds `://`, so text lacking
      either is not a valid YouTube URL. */
  lemma ValidHasScheme(url: string)
    requires IsValidYoutubeUrl(url)
    ensures Contains(url, "http") && Contains(url, "://")
  {
    var toks :| toks in [WatchPattern, ShortsPattern, ShortLinkPattern, MobilePattern, PlaylistPattern, WatchListPattern]
      && Search(url, toks);
    assert toks[0] == Lit("http") && toks[2] == Lit("://");
    SearchHasLiteral(url, toks, "http");
    SearchHasLiteral(url, toks, "://");
  }

  /** Text that starts with the watch address, `?v=` and an id character is
      a valid YouTube URL. */
  lemma WatchUrlValid(s: string, id: string)
    requires StartsWith(s, WatchPrefix + "?v=" + id) && id != [] && IsIdChar(id[0])
    ensures IsValidYoutubeUrl(s)
  {
    StartsWithDrop(s, WatchPrefix + "?v=", id);
    WatchPrefixPieces();
    StartsWithDrop(s, "http" + "s" + "://" + "www.", "youtube.com/watch?v=");
    StartsWithDrop(s, "http" + "s" + "://", "www.");
    StartsWithDrop(s, "http" + "s", "://");
    StartsWithDrop(s, "http", "s");
    assert s[0..] == s;
    assert s[32] == s[32..][0] == id[0];
    assert MatchAt(s, 33, WatchPattern[6..]);
    assert MatchAt(s, 32, WatchPattern[5..]);
    assert MatchAt(s, 12, WatchPattern[4..]);
    assert MatchAt(s, 8, WatchPattern[3..]);
    assert MatchAt(s, 5, WatchPattern[2..]);
    assert MatchAt(s, 4, WatchPattern[1..]);
    assert MatchAt(s, 0, WatchPattern);
  }

  /** A short link whose video id starts with an id character becomes a
      valid YouTube URL. */
  lemma NormalizedShortLinkValid(url: string, p: ParsedUrl)
    requires EndsWith(p.netloc, "youtu.be")
    requires LStrip(p.path, '/') != [] && IsIdChar(LStrip(p.path, '/')[0])
    ensures IsValidYoutubeUrl(NormalizedText(url, Normalize(Some(p))))
  {
    var id := LStrip(p.path, '/');
    NormalizeShortLinkText(url, p);
    QuotePlusFirst(id);
    WatchUrlValid(NormalizedText(url, Normalize(Some(p))), QuotePlus(id));
  }
}
