/** The pure helpers of the interactive downloader in youtube.py: reading a
    quality such as `1080p`, choosing a yt-dlp format selector, sorting the
    format list into combined, video-only and audio-only formats, keeping
    one format per height, and the playlist archive bookkeeping. */
module Youtube {
  import opened Wrappers
  import opened Text
  import opened Lists
  import opened FormatSelectors
  import Sorting

  // ---------------------------------------------------------------------
  // _parse_quality_height and _get_format_selector

  /** The height a quality asks for: none for an empty quality, `best` or
      `worst` in any case, or text that is not three or four digits and
      `p`. */
  function ParseQualityHeight(quality: string): (h: Option<nat>)
    ensures quality == [] ==> h.None?
    ensures Lower(quality) == "best" || Lower(quality) == "worst" ==> h.None?
    ensures quality != [] && Lower(quality) != "best" && Lower(quality) != "worst" ==> h == MatchHeight(Lower(quality))
  {
    if quality == [] then None
    else
      var q := Lower(quality);
      if q == "best" || q == "worst" then None else MatchHeight(q)
  }

  /** `_parse_quality_height` gives a height exactly when the lower-cased
      quality is three or four digits and `p` (with `$`'s one optional
      final newline), and the height is those digits' value. */
  lemma ParseQualityHeightSpec(quality: string)
    ensures ParseQualityHeight(quality).Some? <==>
      exists d :: HeightDigits(d) && (Lower(quality) == d + "p" || Lower(quality) == d + "p\n")
    ensures forall d :: HeightDigits(d) && (Lower(quality) == d + "p" || Lower(quality) == d + "p\n") ==>
      ParseQualityHeight(quality) == Some(DigitsValue(d))
  {
    var q := Lower(quality);
    MatchHeightSpec(q);
    forall d | HeightDigits(d) && (q == d + "p" || q == d + "p\n")
      ensures quality != [] && q != "best" && q != "worst"
    {
      assert q[0] == d[0];
      DigitFirstNotWord(q);
    }
  }

  /** A rendered height with `p` reads back as that height, in either case. */
  lemma ParseQualityHeightRendered(h: nat)
    requires 100 <= h < 10000
    ensures ParseQualityHeight(NatToString(h) + "p") == Some(h)
    ensures ParseQualityHeight(NatToString(h) + "P") == Some(h)
  {
    LowerRendered(h, "p");
    LowerRendered(h, "P");
  }

  /** A rendered height followed by `p` or `P` lower-cases to the height
      and `p`, which reads back as the height. */
  lemma LowerRendered(h: nat, p: string)
    requires 100 <= h < 10000 && (p == "p" || p == "P")
    ensures ParseQualityHeight(NatToString(h) + p) == Some(h)
  {
    var n := NatToString(h);
    LowerDigitsThenP(n, p);
    MatchHeightRendered(h);
    DigitFirstNotWord(n + "p");
  }

  /** Digits followed by `p` or `P` lower-case to the digits and `p`. */
  lemma LowerDigitsThenP(n: string, p: string)
    requires AllDigits(n) && (p == "p" || p == "P")
    ensures Lower(n + p) == n + "p"
  {
    LowerAppend(n, p);
    LowerDigits(n);
  }

  /** Text that starts with a digit is neither `best` nor `worst`. */
  lemma DigitFirstNotWord(q: string)
    requires q != [] && '0' <= q[0] <= '9'
    ensures q != "best" && q != "worst"
  {
    assert "best"[0] == 'b' && "worst"[0] == 'w';
  }

  /** Case does not matter. */
  lemma ParseQualityHeightIgnoresCase(quality: string)
    ensures ParseQualityHeight(Lower(quality)) == ParseQualityHeight(quality)
  {
    LowerIdempotent(quality);
  }

  const AudioSelector := "bestaudio/best"

  /** The selector for a quality: `bestaudio/best` for audio, the fixed
      selectors for `best` (or no quality) and `worst`, the height selector
      for `<height>p`, and the best single file for anything else. */
  function YtFormatSelector(quality: string, audioOnly: bool, ffmpeg: bool): string {
    if audioOnly then AudioSelector
    else
      var q := Lower(quality);
      if q == "best" || q == "" then BestSelector(ffmpeg)
      else if q == "worst" then WorstSelector
      else match MatchHeight(q)
        case Some(h) => HeightSelector(h, ffmpeg)
        case None => BestSingleSelector
  }

  /** Audio wins over any quality; a quality that is not recognised falls
      back to the best single file. */
  lemma YtSelectorFallbacks(quality: string, ffmpeg: bool)
    ensures YtFormatSelector(quality, true, ffmpeg) == AudioSelector
    ensures var q := Lower(quality);
      q != "best" && q != "" && q != "worst" && MatchHeight(q).None? ==>
        YtFormatSelector(quality, false, ffmpeg) == BestSingleSelector
  {
  }

  /** For `best` the selector depends on the ffmpeg flag only. */
  lemma YtSelectorBest(quality: string, ffmpeg: bool)
    requires Lower(quality) == "best" || quality == []
    ensures YtFormatSelector(quality, false, ffmpeg) == YtFormatSelector("best", false, ffmpeg)
    ensures YtFormatSelector(quality, false, ffmpeg) == if ffmpeg then BestMergeSelector else BestSingleSelector
  {
    assert Lower("best") == "best";
  }

  /** The selector asks for height `h` exactly when the quality parses to
      `h`; it then ends in `best[height<=h]` with ffmpeg and in `/best`
      without. */
  lemma YtSelectorHeight(quality: string, ffmpeg: bool, h: nat)
    requires ParseQualityHeight(quality) == Some(h)
    ensures YtFormatSelector(quality, false, ffmpeg) == HeightSelector(h, ffmpeg)
    ensures ffmpeg ==> EndsWith(YtFormatSelector(quality, false, ffmpeg), "/best[height<=" + NatToString(h) + "]")
    ensures !ffmpeg ==> EndsWith(YtFormatSelector(quality, false, ffmpeg), "/best")
  {
    var q := Lower(quality);
    assert |q| == |quality| > 0;
  }

  // ---------------------------------------------------------------------
  // The format list of select_format_manually and get_available_formats

  /** One entry of yt-dlp's format list; an absent key and a `None` value
      are both `None`. */
  datatype Format = Format(
    formatId: Option<string>,
    height: Option<int>,
    ext: Option<string>,
    filesize: Option<int>,
    filesizeApprox: Option<int>,
    tbr: Option<real>,
    vcodec: Option<string>,
    acodec: Option<string>)

  /** `c and c != 'none'`: a codec is present. */
  predicate HasCodec(c: Option<string>) {
    c.Some? && c.value != "" && c.value != "none"
  }

  predicate IsCombined(f: Format) { HasCodec(f.vcodec) && HasCodec(f.acodec) }
  predicate IsVideoOnly(f: Format) { HasCodec(f.vcodec) && !HasCodec(f.acodec) }
  predicate IsAudioOnly(f: Format) { !HasCodec(f.vcodec) && HasCodec(f.acodec) }

  function IntOrZero(o: Option<int>): int { if o.Some? then o.value else 0 }
  function RealOrZero(o: Option<real>): real { if o.Some? then o.value else 0.0 }

  /** `(height or 0, tbr or 0)`. */
  function VideoKey(f: Format): Sorting.Key {
    Sorting.Key(IntOrZero(f.height) as real, RealOrZero(f.tbr))
  }

  /** The row's `filesize`: `f.get('filesize') or f.get('filesize_approx')`,
      so a missing or zero size falls through to the estimate. */
  function ListedSize(f: Format): (r: Option<int>)
    ensures f.filesize.Some? && f.filesize.value != 0 ==> r == f.filesize
    ensures f.filesize.None? || f.filesize == Some(0) ==> r == f.filesizeApprox
  {
    if f.filesize.Some? && f.filesize.value != 0 then f.filesize else f.filesizeApprox
  }

  /** `(tbr or 0, filesize or 0)` on the row. */
  function AudioKey(f: Format): Sorting.Key {
    Sorting.Key(RealOrZero(f.tbr), IntOrZero(ListedSize(f)) as real)
  }

  /** The three lists select_format_manually offers, each sorted in
      descending key order. */
  datatype FormatLists = FormatLists(combined: seq<Format>, videoOnly: seq<Format>, audioOnly: seq<Format>)

  function PartitionOf(formats: seq<Format>): FormatLists {
    FormatLists(
      Sorting.SortDesc(Filter(formats, IsCombined), VideoKey),
      Sorting.SortDesc(Filter(formats, IsVideoOnly), VideoKey),
      Sorting.SortDesc(Filter(formats, IsAudioOnly), AudioKey))
  }

  /** Sends each format to the first list whose test it passes, then sorts
      the lists. */
  method PartitionFormats(formats: seq<Format>) returns (lists: FormatLists)
    ensures lists == PartitionOf(formats)
  {
    var combined, videoOnly, audioOnly := SplitByCodec(formats);
    lists := FormatLists(
      Sorting.SortDesc(combined, VideoKey),
      Sorting.SortDesc(videoOnly, VideoKey),
      Sorting.SortDesc(audioOnly, AudioKey));
  }

  /** The loop of select_format_manually that files each format by its
      codecs. */
  method SplitByCodec(formats: seq<Format>) returns (combined: seq<Format>, videoOnly: seq<Format>, audioOnly: seq<Format>)
    ensures combined == Filter(formats, IsCombined)
    ensures videoOnly == Filter(formats, IsVideoOnly)
    ensures audioOnly == Filter(formats, IsAudioOnly)
  {
    combined, videoOnly, audioOnly := [], [], [];
    var i := 0;
    while i < |formats|
      invariant 0 <= i <= |formats|
      invariant combined == Filter(formats[..i], IsCombined)
      invariant videoOnly == Filter(formats[..i], IsVideoOnly)
      invariant audioOnly == Filter(formats[..i], IsAudioOnly)
    {
      var f := formats[i];
      assert formats[..i + 1] == formats[..i] + [f];
      FilterSnoc(formats[..i], f, IsCombined);
      FilterSnoc(formats[..i], f, IsVideoOnly);
      FilterSnoc(formats[..i], f, IsAudioOnly);
      if HasCodec(f.vcodec) && HasCodec(f.acodec) {
        combined := combined + [f];
      } else if HasCodec(f.vcodec) && !HasCodec(f.acodec) {
        videoOnly := videoOnly + [f];
      } else if !HasCodec(f.vcodec) && HasCodec(f.acodec) {
        audioOnly := audioOnly + [f];
      }
      i := i + 1;
    }
    assert formats[..i] == formats;
  }

  predicate HasSomeCodec(f: Format) { HasCodec(f.vcodec) || HasCodec(f.acodec) }

  /** No format passes two of the tests. */
  lemma PartitionExclusive(f: Format)
    ensures !(IsCombined(f) && IsVideoOnly(f))
    ensures !(IsCombined(f) && IsAudioOnly(f))
    ensures !(IsVideoOnly(f) && IsAudioOnly(f))
    ensures IsCombined(f) || IsVideoOnly(f) || IsAudioOnly(f) <==> HasSomeCodec(f)
  {
  }

  /** Together the three lists hold each format with some codec exactly as
      often as the input does, and nothing else: a format with neither
      codec is dropped and none lands in two lists. */
  lemma {:induction false} PartitionKeepsFormats(formats: seq<Format>)
    ensures var l := PartitionOf(formats);
      multiset(l.combined) + multiset(l.videoOnly) + multiset(l.audioOnly) == multiset(Filter(formats, HasSomeCodec))
  {
    PartitionCounts(formats);
  }

  lemma {:induction false} PartitionCounts(formats: seq<Format>)
    ensures multiset(Filter(formats, IsCombined)) + multiset(Filter(formats, IsVideoOnly)) + multiset(Filter(formats, IsAudioOnly))
      == multiset(Filter(formats, HasSomeCodec))
    decreases |formats|
  {
    if formats != [] {
      PartitionCounts(formats[1..]);
    }
  }

  /** Combined and video-only lists run from the tallest format down, and
      the audio list from the highest bitrate down, with the listed size
      (`filesize`, else `filesize_approx`) deciding between equal bitrates. */
  lemma PartitionSorted(formats: seq<Format>)
    ensures var l := PartitionOf(formats);
      forall i, j :: 0 <= i < j < |l.combined| ==> IntOrZero(l.combined[j].height) <= IntOrZero(l.combined[i].height)
    ensures var l := PartitionOf(formats);
      forall i, j :: 0 <= i < j < |l.videoOnly| ==> IntOrZero(l.videoOnly[j].height) <= IntOrZero(l.videoOnly[i].height)
    ensures var l := PartitionOf(formats);
      forall i, j :: 0 <= i < j < |l.audioOnly| ==> RealOrZero(l.audioOnly[j].tbr) <= RealOrZero(l.audioOnly[i].tbr)
    ensures var l := PartitionOf(formats);
      forall i, j :: 0 <= i < j < |l.audioOnly| && RealOrZero(l.audioOnly[j].tbr) == RealOrZero(l.audioOnly[i].tbr) ==>
        IntOrZero(ListedSize(l.audioOnly[j])) <= IntOrZero(ListedSize(l.audioOnly[i]))
  {
    var l := PartitionOf(formats);
    TallestFirst(l.combined);
    TallestFirst(l.videoOnly);
    var a := l.audioOnly;
    assert Sorting.SortedDesc(a, AudioKey);
    forall i, j | 0 <= i < j < |a|
      ensures RealOrZero(a[j].tbr) <= RealOrZero(a[i].tbr)
    {
      assert Sorting.KeyLe(AudioKey(a[j]), AudioKey(a[i]));
    }
  }

  /** Formats with equal sort keys stay in the order yt-dlp listed them,
      since `list.sort` is stable. */
  lemma PartitionStable(formats: seq<Format>, k: Sorting.Key)
    ensures var l := PartitionOf(formats);
      && Sorting.WithKey(l.combined, VideoKey, k) == Sorting.WithKey(Filter(formats, IsCombined), VideoKey, k)
      && Sorting.WithKey(l.videoOnly, VideoKey, k) == Sorting.WithKey(Filter(formats, IsVideoOnly), VideoKey, k)
      && Sorting.WithKey(l.audioOnly, AudioKey, k) == Sorting.WithKey(Filter(formats, IsAudioOnly), AudioKey, k)
  {
    Sorting.SortDescStable(Filter(formats, IsCombined), VideoKey, k);
    Sorting.SortDescStable(Filter(formats, IsVideoOnly), VideoKey, k);
    Sorting.SortDescStable(Filter(formats, IsAudioOnly), AudioKey, k);
  }

  /** A list sorted by the video key runs from the tallest format down. */
  lemma TallestFirst(c: seq<Format>)
    requires Sorting.SortedDesc(c, VideoKey)
    ensures forall i, j :: 0 <= i < j < |c| ==> IntOrZero(c[j].height) <= IntOrZero(c[i].height)
  {
    forall i, j | 0 <= i < j < |c|
      ensures IntOrZero(c[j].height) <= IntOrZero(c[i].height)
    {
      assert Sorting.KeyLe(VideoKey(c[j]), VideoKey(c[i]));
    }
  }

  // ---------------------------------------------------------------------
  // Height de-duplication in get_available_formats

  /** The row get_available_formats keeps for a format. */
  datatype FormatRow = FormatRow(
    formatId: Option<string>,
    height: int,
    ext: string,
    filesize: Option<int>,
    vcodec: string,
    acodec: string)

  /** A height that is present and not zero. */
  predicate HasHeight(f: Format) {
    f.height.Some? && f.height.value != 0
  }

  function RowOf(f: Format): FormatRow
    requires HasHeight(f)
  {
    FormatRow(f.formatId, f.height.value,
      if f.ext.Some? then f.ext.value else "unknown",
      f.filesize,
      if f.vcodec.Some? then f.vcodec.value else "none",
      if f.acodec.Some? then f.acodec.value else "none")
  }

  function Heights(rows: seq<FormatRow>): set<int> {
    set r | r in rows :: r.height
  }

  /** The rows for the first format of each height, in input order. */
  function FirstPerHeight(formats: seq<Format>): seq<FormatRow>
    decreases |formats|
  {
    if formats == [] then []
    else
      var rows := FirstPerHeight(formats[..|formats| - 1]);
      var f := formats[|formats| - 1];
      if HasHeight(f) && f.height.value !in Heights(rows) then rows + [RowOf(f)] else rows
  }

  function HeightKey(r: FormatRow): Sorting.Key {
    Sorting.Key(r.height as real, 0.0)
  }

  /** The rows of get_available_formats, tallest first. */
  function AvailableFormatsOf(formats: seq<Format>): seq<FormatRow> {
    Sorting.SortDesc(FirstPerHeight(formats), HeightKey)
  }

  /** Keeps the first format seen for each height, then sorts by height,
      tallest first. */
  method AvailableFormats(formats: seq<Format>) returns (rows: seq<FormatRow>)
    ensures rows == AvailableFormatsOf(formats)
  {
    rows := [];
    var seen: set<int> := {};
    var i := 0;
    while i < |formats|
      invariant 0 <= i <= |formats|
      invariant rows == FirstPerHeight(formats[..i])
      invariant seen == Heights(rows)
    {
      var f := formats[i];
      assert formats[..i + 1][..i] == formats[..i];
      if f.height.Some? && f.height.value != 0 && f.height.value !in seen {
        rows := rows + [RowOf(f)];
        seen := seen + {f.height.value};
      }
      i := i + 1;
    }
    assert formats[..i] == formats;
    rows := Sorting.SortDesc(rows, HeightKey);
  }

  predicate DistinctHeights(rows: seq<FormatRow>) {
    forall i, j :: 0 <= i < j < |rows| ==> rows[i].height != rows[j].height
  }

  /** The kept rows have distinct heights, and every height of the input
      is kept. */
  lemma {:induction false} FirstPerHeightSpec(formats: seq<Format>)
    ensures DistinctHeights(FirstPerHeight(formats))
    ensures forall f :: f in formats && HasHeight(f) ==> f.height.value in Heights(FirstPerHeight(formats))
    ensures forall r :: r in FirstPerHeight(formats) ==> exists f :: f in formats && HasHeight(f) && r == RowOf(f)
    decreases |formats|
  {
    if formats != [] {
      var front := formats[..|formats| - 1];
      FirstPerHeightSpec(front);
      assert formats == front + [formats[|formats| - 1]];
      forall r | r in FirstPerHeight(formats)
        ensures exists f :: f in formats && HasHeight(f) && r == RowOf(f)
      {
        if r in FirstPerHeight(front) {
          var f :| f in front && HasHeight(f) && r == RowOf(f);
          assert f in formats;
        }
      }
    }
  }

  /** Format `i` is the first of the list to have its height. */
  predicate FirstOfHeight(formats: seq<Format>, i: nat)
    requires i < |formats|
  {
    HasHeight(formats[i])
    && forall j :: 0 <= j < i ==> !(HasHeight(formats[j]) && formats[j].height == formats[i].height)
  }

  /** The rows kept are exactly those of the formats that are the first of
      their height: a later format of a height already seen never replaces
      the earlier one. */
  lemma {:induction false} FirstPerHeightFirst(formats: seq<Format>)
    ensures forall r :: r in FirstPerHeight(formats) ==>
      exists i :: 0 <= i < |formats| && FirstOfHeight(formats, i) && r == RowOf(formats[i])
    ensures forall i :: 0 <= i < |formats| && FirstOfHeight(formats, i) ==> RowOf(formats[i]) in FirstPerHeight(formats)
    decreases |formats|
  {
    if formats != [] {
      var n := |formats| - 1;
      var front := formats[..n];
      var rows := FirstPerHeight(front);
      FirstPerHeightFirst(front);
      FirstPerHeightSpec(front);
      forall i | 0 <= i < n ensures FirstOfHeight(formats, i) <==> FirstOfHeight(front, i) {
        assert forall j :: 0 <= j <= i ==> formats[j] == front[j];
      }
      forall r | r in FirstPerHeight(formats)
        ensures exists i :: 0 <= i < |formats| && FirstOfHeight(formats, i) && r == RowOf(formats[i])
      {
        if r in rows {
          var i :| 0 <= i < n && FirstOfHeight(front, i) && r == RowOf(front[i]);
          assert FirstOfHeight(formats, i) && r == RowOf(formats[i]);
        } else {
          LastIsFirst(formats);
        }
      }
      forall i | 0 <= i < |formats| && FirstOfHeight(formats, i)
        ensures RowOf(formats[i]) in FirstPerHeight(formats)
      {
        if i < n {
          assert FirstOfHeight(front, i) && formats[i] == front[i];
        } else {
          LastKeptWhenFirst(formats);
        }
      }
    }
  }

  /** A row added for the last format makes that format the first of its
      height. */
  lemma LastIsFirst(formats: seq<Format>)
    requires formats != []
    requires FirstPerHeight(formats) != FirstPerHeight(formats[..|formats| - 1])
    ensures FirstOfHeight(formats, |formats| - 1)
    ensures FirstPerHeight(formats) == FirstPerHeight(formats[..|formats| - 1]) + [RowOf(formats[|formats| - 1])]
  {
    var n := |formats| - 1;
    var front := formats[..n];
    FirstPerHeightSpec(front);
    forall j | 0 <= j < n && HasHeight(formats[j])
      ensures formats[j].height != formats[n].height
    {
      assert formats[j] in front;
    }
  }

  /** The last format, when first of its height, adds its row. */
  lemma LastKeptWhenFirst(formats: seq<Format>)
    requires formats != [] && FirstOfHeight(formats, |formats| - 1)
    ensures RowOf(formats[|formats| - 1]) in FirstPerHeight(formats)
  {
    var n := |formats| - 1;
    var front := formats[..n];
    FirstPerHeightSpec(front);
    forall r | r in FirstPerHeight(front)
      ensures r.height != formats[n].height.value
    {
      var f :| f in front && HasHeight(f) && r == RowOf(f);
      var j :| 0 <= j < n && front[j] == f;
      assert formats[j] == f;
    }
  }

  /** No two rows of get_available_formats share a height; they run from
      the tallest down and cover every height of the input. */
  lemma AvailableFormatsSpec(formats: seq<Format>)
    ensures DistinctHeights(AvailableFormatsOf(formats))
    ensures forall i, j :: 0 <= i < j < |AvailableFormatsOf(formats)| ==>
      AvailableFormatsOf(formats)[j].height < AvailableFormatsOf(formats)[i].height
    ensures forall f :: f in formats && HasHeight(f) ==> f.height.value in Heights(AvailableFormatsOf(formats))
    ensures forall r :: r in AvailableFormatsOf(formats) ==>
      exists i :: 0 <= i < |formats| && FirstOfHeight(formats, i) && r == RowOf(formats[i])
    ensures forall i :: 0 <= i < |formats| && FirstOfHeight(formats, i) ==> RowOf(formats[i]) in AvailableFormatsOf(formats)
  {
    var kept := FirstPerHeight(formats);
    var rows := AvailableFormatsOf(formats);
    FirstPerHeightSpec(formats);
    FirstPerHeightFirst(formats);
    SortedSameRows(formats);
    forall i, j | 0 <= i < j < |rows|
      ensures rows[j].height < rows[i].height
    {
      assert Sorting.KeyLe(HeightKey(rows[j]), HeightKey(rows[i]));
      if rows[i].height == rows[j].height {
        SameHeightSameRow(kept, rows[i], rows[j]);
        MultisetTwice(rows, i, j);
        assert multiset(rows)[rows[i]] >= 2;
        assert multiset(kept)[rows[i]] >= 2;
        DistinctRowsOnce(kept, rows[i]);
      }
    }
  }

  /** Sorting keeps the same rows. */
  lemma SortedSameRows(formats: seq<Format>)
    ensures forall r :: r in AvailableFormatsOf(formats) <==> r in FirstPerHeight(formats)
  {
    var kept := FirstPerHeight(formats);
    var rows := AvailableFormatsOf(formats);
    assert multiset(rows) == multiset(kept);
    forall r ensures r in rows <==> r in kept {
      assert r in rows <==> r in multiset(rows);
      assert r in kept <==> r in multiset(kept);
    }
  }

  /** Two rows of a list with distinct heights that share a height are the
      same row. */
  lemma SameHeightSameRow(kept: seq<FormatRow>, a: FormatRow, b: FormatRow)
    requires DistinctHeights(kept) && a in kept && b in kept && a.height == b.height
    ensures a == b
  {
  }

  /** An element at two positions occurs at least twice. */
  lemma MultisetTwice(s: seq<FormatRow>, i: nat, j: nat)
    requires i < j < |s| && s[i] == s[j]
    ensures multiset(s)[s[i]] >= 2
  {
    assert s == s[..j] + [s[j]] + s[j + 1..];
    assert s[i] in s[..j];
  }

  /** In a list with distinct heights each row occurs once. */
  lemma {:induction false} DistinctRowsOnce(s: seq<FormatRow>, r: FormatRow)
    requires DistinctHeights(s)
    ensures multiset(s)[r] <= 1
    decreases |s|
  {
    if s != [] {
      var front := s[..|s| - 1];
      assert s == front + [s[|s| - 1]];
      assert DistinctHeights(front);
      DistinctRowsOnce(front, r);
      if s[|s| - 1] == r {
        assert r !in front;
      }
    }
  }

  // ---------------------------------------------------------------------
  // Playlist archive

  const ArchiveFileName := ".download-archive.txt"

  /** The custom archive when one is named, else the hidden file in the
      playlist folder. */
  function ArchivePath(folder: string, custom: Option<string>): (p: string)
    ensures custom.Some? && custom.value != [] ==> p == custom.value
    ensures custom.None? || custom.value == [] ==> EndsWith(p, ArchiveFileName)
  {
    if custom.Some? && custom.value != [] then custom.value else PathJoin(folder, ArchiveFileName)
  }

  /** The characters after the last whitespace of `s`. */
  function TrailingWord(s: string): (w: string)
    ensures EndsWith(s, w)
    ensures forall i :: 0 <= i < |w| ==> !IsSpace(w[i])
    ensures |w| < |s| ==> IsSpace(s[|s| - |w| - 1])
    decreases |s|
  {
    if s == [] || IsSpace(s[|s| - 1]) then []
    else
      var w := TrailingWord(s[..|s| - 1]);
      assert s[..|s| - 1][|s| - 1 - |w|..] == w;
      assert s[|s| - |w| - 1..] == w + [s[|s| - 1]];
      w + [s[|s| - 1]]
  }

  /** `line.strip().split()[-1]`, or none for a blank line. */
  function LastToken(line: string): (t: Option<string>)
    ensures t.Some? ==> t.value != [] && forall i :: 0 <= i < |t.value| ==> !IsSpace(t.value[i])
  {
    var s := StripEnd(line);
    if s == [] then None else Some(TrailingWord(s))
  }

  /** The ids of an archive: the last token of each non-blank line. */
  function ArchiveIds(lines: seq<string>): set<string>
    decreases |lines|
  {
    if lines == [] then {}
    else
      var t := LastToken(lines[|lines| - 1]);
      ArchiveIds(lines[..|lines| - 1]) + (if t.Some? then {t.value} else {})
  }

  /** Collects the last token of each non-blank line. */
  method ReadArchiveIds(lines: seq<string>) returns (ids: set<string>)
    ensures ids == ArchiveIds(lines)
  {
    ids := {};
    var i := 0;
    while i < |lines|
      invariant 0 <= i <= |lines|
      invariant ids == ArchiveIds(lines[..i])
    {
      assert lines[..i + 1][..i] == lines[..i];
      var parts := LastToken(lines[i]);
      if parts.Some? {
        ids := ids + {parts.value};
      }
      i := i + 1;
    }
    assert lines[..i] == lines;
  }

  /** An id is in the archive exactly when some line ends in it. */
  lemma {:induction false} ArchiveIdsSpec(lines: seq<string>, id: string)
    ensures id in ArchiveIds(lines) <==> exists i :: 0 <= i < |lines| && LastToken(lines[i]) == Some(id)
    decreases |lines|
  {
    if lines != [] {
      var front := lines[..|lines| - 1];
      ArchiveIdsSpec(front, id);
      if exists i :: 0 <= i < |lines| && LastToken(lines[i]) == Some(id) {
        var i :| 0 <= i < |lines| && LastToken(lines[i]) == Some(id);
        if i < |lines| - 1 {
          assert front[i] == lines[i];
        }
      }
      if exists i :: 0 <= i < |front| && LastToken(front[i]) == Some(id) {
        var i :| 0 <= i < |front| && LastToken(front[i]) == Some(id);
        assert lines[i] == front[i];
      }
    }
  }

  /** The line yt-dlp writes, `<extractor> <id>`, yields the id. */
  lemma ArchiveLineId(extractor: string, id: string)
    requires id != [] && forall i :: 0 <= i < |id| ==> !IsSpace(id[i])
    ensures LastToken(extractor + " " + id) == Some(id)
  {
    var line := extractor + " " + id;
    assert StripEnd(line) == line;
    TrailingWordAfterSpace(extractor, id);
  }

  lemma {:induction false} TrailingWordAfterSpace(prefix: string, id: string)
    requires forall i :: 0 <= i < |id| ==> !IsSpace(id[i])
    ensures TrailingWord(prefix + " " + id) == id
    decreases |id|
  {
    var s := prefix + " " + id;
    if id == [] {
      assert s[|s| - 1] == ' ';
    } else {
      assert s[..|s| - 1] == prefix + " " + id[..|id| - 1];
      TrailingWordAfterSpace(prefix, id[..|id| - 1]);
      assert id == id[..|id| - 1] + [id[|id| - 1]];
    }
  }

  /** A playlist entry as the sync check reads it. */
  datatype PlaylistEntry = PlaylistEntry(id: Option<string>)

  /** What get_playlist_info yields that the sync check reads. */
  datatype PlaylistInfo = PlaylistInfo(entries: seq<PlaylistEntry>, entryCount: int)

  datatype SyncStatus = SyncStatus(total: int, archive: int, missing: int)

  predicate IsArchived(e: PlaylistEntry, ids: set<string>) {
    e.id.Some? && e.id.value != [] && e.id.value in ids
  }

  /** The entries whose id is in the archive. */
  function CountArchived(entries: seq<PlaylistEntry>, ids: set<string>): (n: nat)
    ensures n <= |entries|
    decreases |entries|
  {
    if entries == [] then 0
    else CountArchived(entries[..|entries| - 1], ids) + (if IsArchived(entries[|entries| - 1], ids) then 1 else 0)
  }

  function Max(a: int, b: int): int { if a >= b then a else b }

  /** The sync report: zeros when there is no playlist or it has no entries;
      otherwise the entry count, the archived entries (none without an
      archive) and `max(total - archived, 0)` missing. */
  function SyncOf(info: Option<PlaylistInfo>, archive: Option<set<string>>): SyncStatus {
    if info.None? || info.value.entries == [] then SyncStatus(0, 0, 0)
    else
      var archived := if archive.Some? then CountArchived(info.value.entries, archive.value) else 0;
      SyncStatus(info.value.entryCount, archived, Max(info.value.entryCount - archived, 0))
  }

  /** get_playlist_sync_status, given the playlist information and the ids
      read from the archive, if any. */
  method PlaylistSyncStatus(info: Option<PlaylistInfo>, archive: Option<set<string>>) returns (status: SyncStatus)
    ensures status == SyncOf(info, archive)
  {
    if info.None? || info.value.entries == [] {
      return SyncStatus(0, 0, 0);
    }
    var total := info.value.entryCount;
    var archived := 0;
    if archive.Some? {
      var ids := archive.value;
      var entries := info.value.entries;
      var i := 0;
      while i < |entries|
        invariant 0 <= i <= |entries|
        invariant archived == CountArchived(entries[..i], ids)
      {
        assert entries[..i + 1][..i] == entries[..i];
        var vid := entries[i].id;
        if vid.Some? && vid.value != [] && vid.value in ids {
          archived := archived + 1;
        }
        i := i + 1;
      }
      assert entries[..i] == entries;
    }
    var missing := Max(total - archived, 0);
    return SyncStatus(total, archived, missing);
  }

  /** No more entries are archived than there are, nothing is missing below
      zero, and when the count matches the entries the archived and missing
      entries make up the playlist. */
  lemma SyncSpec(info: Option<PlaylistInfo>, archive: Option<set<string>>)
    ensures var s := SyncOf(info, archive);
      0 <= s.archive && s.missing >= 0 && s.missing >= s.total - s.archive
      && (info.Some? ==> s.archive <= |info.value.entries|)
      && (info.Some? && info.value.entryCount == |info.value.entries| ==> s.archive + s.missing == s.total)
      && (archive.None? ==> s.archive == 0 && s.missing == Max(s.total, 0))
  {
  }

  /** Every entry archived means nothing missing. */
  lemma {:induction false} AllArchived(entries: seq<PlaylistEntry>, ids: set<string>)
    requires forall i :: 0 <= i < |entries| ==> IsArchived(entries[i], ids)
    ensures CountArchived(entries, ids) == |entries|
    decreases |entries|
  {
    if entries != [] {
      AllArchived(entries[..|entries| - 1], ids);
    }
  }
}
