/** Character and string helpers shared by the model: ASCII case folding,
    the substring test behind Python's `in`, prefix and suffix tests,
    single-character replacement, joining, and decimal rendering of
    non-negative integers. */
module Text {
  import opened Wrappers

  predicate IsUpper(c: char) { 'A' <= c <= 'Z' }

  predicate IsAsciiDigit(c: char) { '0' <= c <= '9' }

  /** Python's `\w` restricted to ASCII: letters, digits and underscore. */
  predicate IsWordChar(c: char) { 'a' <= c <= 'z' || IsUpper(c) || IsAsciiDigit(c) || c == '_' }

  /** The ASCII characters for which Python's `str.isspace` holds. */
  predicate IsSpace(c: char) {
    c == ' ' || c == '\t' || c == '\n' || c == '\r' || c == '\U{B}' || c == '\U{C}'
    || c == '\U{1C}' || c == '\U{1D}' || c == '\U{1E}' || c == '\U{1F}'
  }

  function LowerChar(c: char): char {
    if IsUpper(c) then (c as int + 32) as char else c
  }

  /** `str.lower()` on the ASCII range. */
  function Lower(s: string): (r: string)
    ensures |r| == |s|
    ensures forall i :: 0 <= i < |s| ==> r[i] == LowerChar(s[i])
  {
    if s == [] then [] else [LowerChar(s[0])] + Lower(s[1..])
  }

  /** Lower-casing commutes with taking a prefix. */
  lemma LowerPrefix(s: string, n: nat)
    requires n <= |s|
    ensures Lower(s)[..n] == Lower(s[..n])
  {
  }

  predicate StartsWith(s: string, prefix: string) {
    |prefix| <= |s| && s[..|prefix|] == prefix
  }

  predicate EndsWith(s: string, suffix: string) {
    |suffix| <= |s| && s[|s| - |suffix|..] == suffix
  }

  /** Python's `pat in s` for strings. */
  predicate Contains(s: string, pat: string)
    decreases |s|
  {
    StartsWith(s, pat) || (|s| > |pat| && Contains(s[1..], pat))
  }

  /** A pattern holding a character that the text lacks does not occur in it. */
  lemma {:induction false} NotContainsMissingChar(s: string, pat: string, c: char)
    requires c in pat && c !in s
    ensures !Contains(s, pat)
    decreases |s|
  {
    if |s| > |pat| {
      NotContainsMissingChar(s[1..], pat, c);
    }
  }

  /** A pattern whose first character is absent from the first `k` characters
      of the text, and which holds a character absent from the rest, does not
      occur in the text. */
  lemma {:induction false} NotContainsAfter(s: string, pat: string, k: nat, c: char)
    requires |pat| > 0 && k <= |s|
    requires pat[0] !in s[..k]
    requires c in pat && c !in s[k..]
    ensures !Contains(s, pat)
    decreases k
  {
    if k == 0 {
      assert s[0..] == s;
      NotContainsMissingChar(s, pat, c);
    } else {
      assert s[0] != pat[0];
      assert s[1..][..k - 1] == s[1..k];
      assert s[1..][k - 1..] == s[k..];
      assert forall x :: x in s[1..k] ==> x in s[..k];
      NotContainsAfter(s[1..], pat, k - 1, c);
    }
  }

  /** An occurrence at position `i` makes the pattern occur. */
  lemma {:induction false} ContainsAt(s: string, pat: string, i: nat)
    requires i + |pat| <= |s| && s[i..i + |pat|] == pat
    ensures Contains(s, pat)
    decreases i
  {
    if i > 0 {
      assert s[1..][i - 1..i - 1 + |pat|] == s[i..i + |pat|];
      ContainsAt(s[1..], pat, i - 1);
    }
  }

  /** Every occurrence has a position. */
  lemma {:induction false} ContainsHasPosition(s: string, pat: string) returns (i: nat)
    requires Contains(s, pat)
    ensures i + |pat| <= |s| && s[i..i + |pat|] == pat
    decreases |s|
  {
    if StartsWith(s, pat) {
      i := 0;
    } else {
      var j := ContainsHasPosition(s[1..], pat);
      assert s[1..][j..j + |pat|] == s[j + 1..j + 1 + |pat|];
      i := j + 1;
    }
  }

  /** `s.replace(c, d)` for single characters `c` and `d`. */
  function ReplaceChar(s: string, c: char, d: char): (r: string)
    ensures |r| == |s|
    ensures forall i :: 0 <= i < |s| ==> r[i] == (if s[i] == c then d else s[i])
  {
    if s == [] then [] else [if s[0] == c then d else s[0]] + ReplaceChar(s[1..], c, d)
  }

  /** `sep.join(parts)`. */
  function Join(sep: string, parts: seq<string>): string
    decreases |parts|
  {
    if |parts| == 0 then ""
    else if |parts| == 1 then parts[0]
    else parts[0] + sep + Join(sep, parts[1..])
  }

  function DigitChar(d: nat): char
    requires d < 10
  {
    ('0' as int + d) as char
  }

  /** `str(n)` for a non-negative integer. */
  function NatToString(n: nat): (r: string)
    ensures |r| > 0
    ensures forall i :: 0 <= i < |r| ==> IsAsciiDigit(r[i])
    decreases n
  {
    if n < 10 then [DigitChar(n)] else NatToString(n / 10) + [DigitChar(n % 10)]
  }

  /** `str(i)` for any integer. */
  function IntToString(i: int): string {
    if i < 0 then "-" + NatToString(-i) else NatToString(i)
  }

  function DigitValue(c: char): nat
    requires IsAsciiDigit(c)
  {
    c as int - '0' as int
  }

  predicate AllDigits(s: string) {
    forall i :: 0 <= i < |s| ==> IsAsciiDigit(s[i])
  }

  /** The value of a run of decimal digits, as `int()` reads it. */
  function DigitsValue(s: string): nat
    requires AllDigits(s)
    decreases |s|
  {
    if s == [] then 0 else DigitsValue(s[..|s| - 1]) * 10 + DigitValue(s[|s| - 1])
  }

  /** `s.lstrip(c)` for a single character. */
  function LStrip(s: string, c: char): (r: string)
    ensures |r| <= |s| && r == s[|s| - |r|..]
    ensures r == [] || r[0] != c
    ensures forall i :: 0 <= i < |s| - |r| ==> s[i] == c
    decreases |s|
  {
    if s != [] && s[0] == c then LStrip(s[1..], c) else s
  }

  /** The position of the first character of `s` that is in `cs`, or `|s|`. */
  function FindAny(s: string, cs: set<char>): (k: nat)
    ensures k <= |s|
    ensures k < |s| ==> s[k] in cs
    ensures forall i :: 0 <= i < k ==> s[i] !in cs
    decreases |s|
  {
    if s == [] then 0 else if s[0] in cs then 0 else 1 + FindAny(s[1..], cs)
  }

  /** Rendering then reading back a natural number gives the number. */
  lemma {:induction false} DigitsOfNat(n: nat)
    ensures AllDigits(NatToString(n)) && DigitsValue(NatToString(n)) == n
    decreases n
  {
    var s := NatToString(n);
    if n >= 10 {
      DigitsOfNat(n / 10);
      assert s[..|s| - 1] == NatToString(n / 10);
    }
  }

  /** Three- and four-digit numbers render as three and four digits. */
  lemma NatToStringWidth(n: nat)
    ensures 100 <= n < 1000 ==> |NatToString(n)| == 3
    ensures 1000 <= n < 10000 ==> |NatToString(n)| == 4
  {
    if n >= 100 {
      assert |NatToString(n / 10 / 10)| == 1 || n >= 1000;
    }
  }

  /** `s.lstrip()`, removing leading whitespace. */
  function StripStart(s: string): (r: string)
    ensures |r| <= |s| && r == s[|s| - |r|..]
    ensures r == [] || !IsSpace(r[0])
    decreases |s|
  {
    if s != [] && IsSpace(s[0]) then StripStart(s[1..]) else s
  }

  /** `s.rstrip()`, removing trailing whitespace. */
  function StripEnd(s: string): (r: string)
    ensures |r| <= |s| && r == s[..|r|]
    ensures r == [] || !IsSpace(r[|r| - 1])
    decreases |s|
  {
    if s != [] && IsSpace(s[|s| - 1]) then StripEnd(s[..|s| - 1]) else s
  }

  /** `s.strip()`. */
  function Strip(s: string): string {
    StripEnd(StripStart(s))
  }

  /** The digits `int()` accepts: decimal digits, where single underscores
      may separate two of them. */
  predicate GroupedDigits(s: string) {
    && s != [] && IsAsciiDigit(s[0]) && IsAsciiDigit(s[|s| - 1])
    && (forall i :: 0 <= i < |s| ==> IsAsciiDigit(s[i]) || s[i] == '_')
    && (forall i :: 0 < i < |s| && s[i] == '_' ==> s[i - 1] != '_')
  }

  /** The digits of `s`, in order, without the underscores. */
  function WithoutUnderscores(s: string): (r: string)
    requires forall i :: 0 <= i < |s| ==> IsAsciiDigit(s[i]) || s[i] == '_'
    ensures AllDigits(r)
    ensures AllDigits(s) ==> r == s
    decreases |s|
  {
    if s == [] then []
    else
      var front := s[..|s| - 1];
      assert forall i :: 0 <= i < |front| ==> front[i] == s[i];
      WithoutUnderscores(front) + (if s[|s| - 1] == '_' then [] else [s[|s| - 1]])
  }

  /** The value of grouped digits. */
  function GroupedValue(s: string): nat
    requires GroupedDigits(s)
  {
    DigitsValue(WithoutUnderscores(s))
  }

  /** `int(s)` on ASCII text: surrounding whitespace, an optional sign and
      digits grouped as `GroupedDigits` allows; anything else is a
      `ValueError`, here `None`. */
  function ParseInt(s: string): (r: Option<int>)
    ensures r.Some? ==> Strip(s) != []
  {
    ParseStripped(Strip(s))
  }

  /** `int()` once the whitespace is stripped. */
  function ParseStripped(t: string): (r: Option<int>)
    ensures r.Some? ==> t != []
  {
    if |t| > 1 && (t[0] == '+' || t[0] == '-') && GroupedDigits(t[1..]) then
      Some(if t[0] == '-' then -(GroupedValue(t[1..]) as int) else GroupedValue(t[1..]))
    else if GroupedDigits(t) then
      Some(GroupedValue(t))
    else
      None
  }

  /** Text without surrounding whitespace is its own strip. */
  lemma StripNoSpace(s: string)
    requires s != [] && !IsSpace(s[0]) && !IsSpace(s[|s| - 1])
    ensures Strip(s) == s
  {
  }

  /** Plain digits are grouped digits with nothing to drop. */
  lemma GroupedPlain(n: string)
    requires n != [] && AllDigits(n)
    ensures GroupedDigits(n) && GroupedValue(n) == DigitsValue(n)
  {
  }

  /** `int(str(i)) == i`: reading back a rendered integer gives it. */
  lemma ParseIntRendered(i: int)
    ensures ParseInt(IntToString(i)) == Some(i)
  {
    var k := if i < 0 then -i else i;
    var n := NatToString(k);
    DigitsOfNat(k);
    GroupedPlain(n);
    assert GroupedValue(n) == k;
    if i < 0 {
      var t := "-" + n;
      assert t[0] == '-' && t[1..] == n;
      assert t[|t| - 1] == n[|n| - 1];
      NoSpaceEnds(t);
      StrippedNegative(t);
      assert ParseInt(t) == Some(-k);
    } else {
      assert IsAsciiDigit(n[0]) && IsAsciiDigit(n[|n| - 1]);
      NoSpaceEnds(n);
      assert ParseStripped(n) == Some(k);
    }
  }

  lemma NoSpaceEnds(t: string)
    requires t != [] && (t[0] == '-' || IsAsciiDigit(t[0])) && IsAsciiDigit(t[|t| - 1])
    ensures ParseInt(t) == ParseStripped(t)
  {
    StripNoSpace(t);
  }

  lemma StrippedNegative(t: string)
    requires |t| > 1 && t[0] == '-' && GroupedDigits(t[1..])
    ensures ParseStripped(t) == Some(-(GroupedValue(t[1..]) as int))
  {
  }

  /** Dropping underscores works piece by piece. */
  lemma {:induction false} WithoutUnderscoresAppend(x: string, y: string)
    requires forall i :: 0 <= i < |x| ==> IsAsciiDigit(x[i]) || x[i] == '_'
    requires forall i :: 0 <= i < |y| ==> IsAsciiDigit(y[i]) || y[i] == '_'
    ensures forall i :: 0 <= i < |x + y| ==> IsAsciiDigit((x + y)[i]) || (x + y)[i] == '_'
    ensures WithoutUnderscores(x + y) == WithoutUnderscores(x) + WithoutUnderscores(y)
    decreases |y|
  {
    if y != [] {
      var y' := y[..|y| - 1];
      assert (x + y)[..|x + y| - 1] == x + y';
      WithoutUnderscoresAppend(x, y');
    } else {
      assert x + y == x;
    }
  }

  /** Two runs of digits joined by one underscore are grouped digits whose
      value is that of the runs written together. */
  lemma GroupedJoin(a: string, b: string)
    requires a != [] && AllDigits(a) && b != [] && AllDigits(b)
    ensures GroupedDigits(a + "_" + b) && GroupedValue(a + "_" + b) == DigitsValue(a + b)
  {
    var u := a + "_";
    var t := u + b;
    JoinChars(a, b);
    assert t[0] == a[0] && t[|t| - 1] == b[|b| - 1];
    assert GroupedDigits(t);
    WithoutUnderscoresAppend(a, "_");
    WithoutUnderscoresAppend(u, b);
    assert WithoutUnderscores(u) == a;
  }

  /** The characters of `a + "_" + b`: an underscore at `|a|` and digits
      everywhere else. */
  lemma JoinChars(a: string, b: string)
    requires AllDigits(a) && AllDigits(b)
    ensures forall i :: 0 <= i < |a + "_" + b| && i != |a| ==> IsAsciiDigit((a + "_" + b)[i])
    ensures (a + "_" + b)[|a|] == '_'
  {
    var t := a + "_" + b;
    forall i | 0 <= i < |t| && i != |a| ensures IsAsciiDigit(t[i]) {
      if i < |a| {
        assert t[i] == a[i];
      } else {
        assert t[i] == b[i - |a| - 1];
      }
    }
  }

  /** An underscore between two runs of digits is skipped, as in
      `int("1_000") == 1000`. */
  lemma ParseIntUnderscore(a: string, b: string)
    requires a != [] && AllDigits(a) && b != [] && AllDigits(b)
    ensures ParseInt(a + "_" + b) == Some(DigitsValue(a + b))
  {
    var t := a + "_" + b;
    GroupedJoin(a, b);
    NoSpaceEnds(t);
    StrippedPlain(t);
  }

  lemma StrippedPlain(t: string)
    requires GroupedDigits(t)
    ensures ParseStripped(t) == Some(GroupedValue(t))
  {
  }

  /** Lower-casing twice is lower-casing once. */
  lemma LowerIdempotent(s: string)
    ensures Lower(Lower(s)) == Lower(s)
  {
  }

  /** Lower-casing works character by character, so it distributes over
      concatenation. */
  lemma LowerAppend(a: string, b: string)
    ensures Lower(a + b) == Lower(a) + Lower(b)
  {
    assert forall i :: 0 <= i < |a + b| ==> (Lower(a) + Lower(b))[i] == LowerChar((a + b)[i]);
  }

  /** Digits have no case. */
  lemma LowerDigits(s: string)
    requires AllDigits(s)
    ensures Lower(s) == s
  {
  }

  /** `posixpath.join(a, b)` for two parts. */
  function PathJoin(a: string, b: string): (r: string)
    ensures EndsWith(r, b)
    ensures !StartsWith(b, "/") ==> StartsWith(r, a)
  {
    if StartsWith(b, "/") then b
    else if a == [] || EndsWith(a, "/") then
      assert (a + b)[..|a|] == a && (a + b)[|a|..] == b;
      a + b
    else
      assert (a + "/" + b)[..|a|] == a && (a + "/" + b)[|a| + 1..] == b;
      a + "/" + b
  }

  /** Putting text in front keeps a suffix. */
  lemma EndsWithPrepend(u: string, t: string, x: string)
    requires EndsWith(t, x)
    ensures EndsWith(u + t, x)
  {
    assert (u + t)[|u + t| - |x|..] == t[|t| - |x|..];
  }

  /** Putting the same text in front keeps a prefix. */
  lemma StartsWithPrepend(u: string, t: string, x: string)
    requires StartsWith(t, x)
    ensures StartsWith(u + t, u + x)
  {
    assert (u + t)[..|u + x|] == u + t[..|x|];
  }

  /** A text that starts with `a + b` starts with `a`, and after `a` it
      starts with `b`. */
  lemma StartsWithDrop(s: string, a: string, b: string)
    requires StartsWith(s, a + b)
    ensures StartsWith(s, a) && StartsWith(s[|a|..], b)
  {
    assert s[..|a|] == (a + b)[..|a|];
    assert s[|a|..][..|b|] == (a + b)[|a|..];
  }

  /** A join whose last two parts are `a` and `b` ends with `a`, the
      separator and `b`. */
  lemma {:induction false} JoinEndsWith(sep: string, parts: seq<string>, a: string, b: string)
    ensures EndsWith(Join(sep, parts + [a, b]), a + sep + b)
    decreases |parts|
  {
    var all := parts + [a, b];
    if parts == [] {
      assert all == [a, b];
      assert Join(sep, all) == a + sep + Join(sep, [b]);
    } else {
      assert all[1..] == parts[1..] + [a, b];
      JoinEndsWith(sep, parts[1..], a, b);
      EndsWithPrepend(parts[0] + sep, Join(sep, all[1..]), a + sep + b);
    }
  }
}
