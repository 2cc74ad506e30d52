/** The yt-dlp format-selector pieces that both selector builders share:
    the `^(\d{3,4})p$` height pattern and the fixed selectors for "best",
    "worst" and an exact height. */
module FormatSelectors {
  import opened Wrappers
  import opened Text

  /** `re.match(r'^(\d{3,4})p$', q)` and `int(m.group(1))`: three or four
      digits, then `p`. Python's `$` also matches just before a final
      newline, so one trailing `\n` is accepted. */
  function MatchHeight(q: string): (h: Option<nat>)
    ensures h.Some? ==> 4 <= |q| <= 6 && IsAsciiDigit(q[0]) && IsAsciiDigit(q[1]) && IsAsciiDigit(q[2])
    ensures h.Some? ==> 'p' in q
  {
    var body := if |q| > 0 && q[|q| - 1] == '\n' then q[..|q| - 1] else q;
    if (|body| == 4 || |body| == 5) && body[|body| - 1] == 'p' && AllDigits(body[..|body| - 1]) then
      assert body == q[..|body|];
      assert forall i :: 0 <= i < |body| - 1 ==> body[..|body| - 1][i] == q[i];
      Some(DigitsValue(body[..|body| - 1]))
    else
      None
  }

  /** The group `\d{3,4}`: three or four decimal digits. */
  predicate HeightDigits(d: string) {
    (|d| == 3 || |d| == 4) && AllDigits(d)
  }

  /** The pattern matches exactly the texts made of three or four digits
      and `p`, optionally followed by one newline, and the height is the
      value of those digits, leading zeros included. */
  lemma MatchHeightSpec(q: string)
    ensures MatchHeight(q).Some? <==> exists d :: HeightDigits(d) && (q == d + "p" || q == d + "p\n")
    ensures forall d :: HeightDigits(d) && (q == d + "p" || q == d + "p\n") ==> MatchHeight(q) == Some(DigitsValue(d))
  {
    var body := if |q| > 0 && q[|q| - 1] == '\n' then q[..|q| - 1] else q;
    if MatchHeight(q).Some? {
      var d := body[..|body| - 1];
      assert body == d + "p";
      assert HeightDigits(d) && (q == d + "p" || q == d + "p\n");
    }
    forall d | HeightDigits(d) && (q == d + "p" || q == d + "p\n")
      ensures MatchHeight(q) == Some(DigitsValue(d))
    {
      assert body == d + "p";
      assert body[..|body| - 1] == d;
    }
  }

  /** Leading zeros are read as `int()` reads them. */
  lemma MatchHeightLeadingZero()
    ensures MatchHeight("0720p") == Some(720)
  {
    var d := "0720";
    assert HeightDigits(d) && "0720p" == d + "p";
    MatchHeightSpec("0720p");
    assert d[..1][..0] == [] && d[..2][..1] == d[..1] && d[..3][..2] == d[..2];
    assert DigitsValue(d[..1]) == 0;
    assert DigitsValue(d[..2]) == 7;
    assert DigitsValue(d[..3]) == 72;
  }

  /** Every height from 100 to 9999, written out and followed by `p`,
      matches the pattern and reads back as itself. */
  lemma MatchHeightRendered(h: nat)
    requires 100 <= h < 10000
    ensures MatchHeight(NatToString(h) + "p") == Some(h)
  {
    var q := NatToString(h) + "p";
    NatToStringWidth(h);
    DigitsOfNat(h);
    assert q[..|q| - 1] == NatToString(h);
  }

  /** The same text with one newline appended matches the same way. */
  lemma MatchHeightTrailingNewline(q: string)
    requires q == [] || q[|q| - 1] != '\n'
    ensures MatchHeight(q + "\n") == MatchHeight(q)
  {
    assert (q + "\n")[..|q|] == q;
  }

  /** Merge the best mp4 video with the best m4a audio, then looser merges,
      then the best single file. */
  const BestMergeSelector := "bestvideo[ext=mp4]+bestaudio[ext=m4a]/bestvideo+bestaudio/best[ext=mp4]/best"

  /** The best single file, preferring mp4. */
  const BestSingleSelector := "best[ext=mp4]/best"

  const WorstSelector := "worst[ext=mp4]/worst"

  /** The selector for quality "best": merging needs ffmpeg. */
  function BestSelector(ffmpeg: bool): string {
    if ffmpeg then BestMergeSelector else BestSingleSelector
  }

  /** The selector for an exact height `h`. With ffmpeg it tries merged
      streams of exactly that height, then any single file of that height,
      then the best single file not taller; without ffmpeg only files that
      carry both codecs, then anything. */
  function HeightSelector(h: nat, ffmpeg: bool): (s: string)
    ensures ffmpeg ==> StartsWith(s, "bestvideo[height=" + NatToString(h) + "]")
    ensures ffmpeg ==> EndsWith(s, "/best[height<=" + NatToString(h) + "]")
    ensures !ffmpeg ==> StartsWith(s, "best[height=" + NatToString(h) + "]")
    ensures !ffmpeg ==> EndsWith(s, "/best")
  {
    var n := NatToString(h);
    if ffmpeg then
      var head := "bestvideo[height=" + n + "]";
      var tail := "/best[height<=" + n + "]";
      var s := head + "[ext=mp4]+bestaudio[ext=m4a]/bestvideo[height=" + n + "]+bestaudio/best[height=" + n + "]" + tail;
      assert s[..|head|] == head;
      assert s[|s| - |tail|..] == tail;
      s
    else
      var head := "best[height=" + n + "]";
      var s := head + "[vcodec!=none][acodec!=none]/best[height<=" + n + "][vcodec!=none][acodec!=none]/best";
      assert s[..|head|] == head;
      s
  }
}
