/** The pieces of Python's urllib.parse that the short-link rewrite relies
    on: `parse_qs`, which groups decoded name-value pairs into a dictionary
    of lists, and `urlencode` with `quote_plus`, which writes pairs back as
    a query string. */
module QueryStrings {
  import opened Text

  /** A dictionary from names to lists of values, in insertion order. */
  type QueryDict = seq<(string, seq<string>)>

  /** The names of the entries, in order. */
  function Keys(d: QueryDict): (ks: seq<string>)
    ensures |ks| == |d|
    decreases |d|
  {
    if d == [] then [] else [d[0].0] + Keys(d[1..])
  }

  /** No name has two entries. */
  predicate DistinctKeys(d: QueryDict)
    decreases |d|
  {
    d == [] || (d[0].0 !in Keys(d[1..]) && DistinctKeys(d[1..]))
  }

  /** Appends `v` to the list of `k`, creating an entry at the end when
      `k` is new. */
  function AddPair(d: QueryDict, k: string, v: string): (r: QueryDict)
    decreases |d|
  {
    if d == [] then [(k, [v])]
    else if d[0].0 == k then [(k, d[0].1 + [v])] + d[1..]
    else [d[0]] + AddPair(d[1..], k, v)
  }

  /** `parse_qs` of the pairs `parse_qsl` yields: names in order of first
      appearance, each with its values in order. */
  function ParseQs(q: seq<(string, string)>): QueryDict
    decreases |q|
  {
    if q == [] then [] else AddPair(ParseQs(q[..|q| - 1]), q[|q| - 1].0, q[|q| - 1].1)
  }

  /** The pairs of one entry. */
  function Pairs(k: string, vs: seq<string>): (r: seq<(string, string)>)
    ensures |r| == |vs|
    ensures forall i :: 0 <= i < |vs| ==> r[i] == (k, vs[i])
  {
    seq(|vs|, i requires 0 <= i < |vs| => (k, vs[i]))
  }

  /** Every value of every entry, entry by entry. */
  function Flatten(d: QueryDict): seq<(string, string)>
    decreases |d|
  {
    if d == [] then [] else Pairs(d[0].0, d[0].1) + Flatten(d[1..])
  }

  /** The values paired with `k`, in order. */
  function ValuesFor(q: seq<(string, string)>, k: string): seq<string>
    decreases |q|
  {
    if q == [] then [] else (if q[0].0 == k then [q[0].1] else []) + ValuesFor(q[1..], k)
  }

  lemma {:induction false} FlattenAppend(a: QueryDict, b: QueryDict)
    ensures Flatten(a + b) == Flatten(a) + Flatten(b)
    decreases |a|
  {
    if a == [] {
      assert a + b == b;
    } else {
      assert (a + b)[1..] == a[1..] + b;
      FlattenAppend(a[1..], b);
    }
  }

  lemma {:induction false} ValuesForAppend(a: seq<(string, string)>, b: seq<(string, string)>, k: string)
    ensures ValuesFor(a + b, k) == ValuesFor(a, k) + ValuesFor(b, k)
    decreases |a|
  {
    if a == [] {
      assert a + b == b;
    } else {
      assert (a + b)[1..] == a[1..] + b;
      ValuesForAppend(a[1..], b, k);
    }
  }

  lemma {:induction false} ValuesForPairs(k: string, vs: seq<string>, j: string)
    ensures ValuesFor(Pairs(k, vs), j) == if j == k then vs else []
    decreases |vs|
  {
    if vs != [] {
      assert Pairs(k, vs)[1..] == Pairs(k, vs[1..]);
      ValuesForPairs(k, vs[1..], j);
    }
  }

  lemma {:induction false} ValuesForAbsent(d: QueryDict, j: string)
    requires j !in Keys(d)
    ensures ValuesFor(Flatten(d), j) == []
    decreases |d|
  {
    if d != [] {
      ValuesForAbsent(d[1..], j);
      ValuesForAppend(Pairs(d[0].0, d[0].1), Flatten(d[1..]), j);
      ValuesForPairs(d[0].0, d[0].1, j);
    }
  }

  /** Adding a pair adds its name at the end when it is new and keeps the
      names otherwise, so names stay distinct. */
  lemma {:induction false} AddPairKeys(d: QueryDict, k: string, v: string)
    ensures Keys(AddPair(d, k, v)) == if k in Keys(d) then Keys(d) else Keys(d) + [k]
    ensures DistinctKeys(d) ==> DistinctKeys(AddPair(d, k, v))
    decreases |d|
  {
    if d != [] && d[0].0 != k {
      AddPairKeys(d[1..], k, v);
      assert Keys(d) == [d[0].0] + Keys(d[1..]);
    }
  }

  /** Adding a pair adds exactly that pair. */
  lemma {:induction false} AddPairMultiset(d: QueryDict, k: string, v: string)
    ensures multiset(Flatten(AddPair(d, k, v))) == multiset(Flatten(d)) + multiset{(k, v)}
    decreases |d|
  {
    if d == [] {
      assert Flatten([(k, [v])]) == Pairs(k, [v]) + Flatten([]);
    } else if d[0].0 == k {
      assert Pairs(k, d[0].1 + [v]) == Pairs(k, d[0].1) + [(k, v)];
      assert ([(k, d[0].1 + [v])] + d[1..])[1..] == d[1..];
    } else {
      AddPairMultiset(d[1..], k, v);
      assert ([d[0]] + AddPair(d[1..], k, v))[1..] == AddPair(d[1..], k, v);
    }
  }

  /** Adding a pair puts its value after the earlier values of its name and
      leaves every other name's values alone. */
  lemma {:induction false} AddPairValues(d: QueryDict, k: string, v: string, j: string)
    requires DistinctKeys(d)
    ensures ValuesFor(Flatten(AddPair(d, k, v)), j) == ValuesFor(Flatten(d), j) + (if j == k then [v] else [])
    decreases |d|
  {
    if d == [] {
      ValuesForPairs(k, [v], j);
      assert Flatten([(k, [v])]) == Pairs(k, [v]);
    } else if d[0].0 == k {
      AddPairValuesFirst(d, k, v, j);
    } else {
      var d' := AddPair(d, k, v);
      assert d'[1..] == AddPair(d[1..], k, v);
      AddPairValues(d[1..], k, v, j);
      ValuesForAppend(Pairs(d[0].0, d[0].1), Flatten(AddPair(d[1..], k, v)), j);
      ValuesForAppend(Pairs(d[0].0, d[0].1), Flatten(d[1..]), j);
    }
  }

  lemma AddPairValuesFirst(d: QueryDict, k: string, v: string, j: string)
    requires DistinctKeys(d) && d != [] && d[0].0 == k
    ensures ValuesFor(Flatten(AddPair(d, k, v)), j) == ValuesFor(Flatten(d), j) + (if j == k then [v] else [])
  {
    var vs, rest := d[0].1, Flatten(d[1..]);
    assert AddPair(d, k, v)[1..] == d[1..];
    ValuesForAppend(Pairs(k, vs + [v]), rest, j);
    ValuesForAppend(Pairs(k, vs), rest, j);
    ValuesForPairs(k, vs + [v], j);
    ValuesForPairs(k, vs, j);
    if j == k {
      ValuesForAbsent(d[1..], j);
    }
  }

  lemma {:induction false} ParseQsDistinct(q: seq<(string, string)>)
    ensures DistinctKeys(ParseQs(q))
    decreases |q|
  {
    if q != [] {
      ParseQsDistinct(q[..|q| - 1]);
      AddPairKeys(ParseQs(q[..|q| - 1]), q[|q| - 1].0, q[|q| - 1].1);
    }
  }

  /** Grouping by name loses and adds no pair. */
  lemma {:induction false} ParseQsMultiset(q: seq<(string, string)>)
    ensures multiset(Flatten(ParseQs(q))) == multiset(q)
    decreases |q|
  {
    if q != [] {
      var front, last := q[..|q| - 1], q[|q| - 1];
      ParseQsMultiset(front);
      AddPairMultiset(ParseQs(front), last.0, last.1);
      assert front + [last] == q;
    }
  }

  /** Grouping by name keeps the values of each name in their original
      order. */
  lemma {:induction false} ParseQsValues(q: seq<(string, string)>, k: string)
    ensures ValuesFor(Flatten(ParseQs(q)), k) == ValuesFor(q, k)
    decreases |q|
  {
    if q != [] {
      var front, last := q[..|q| - 1], q[|q| - 1];
      ParseQsValues(front, k);
      ParseQsDistinct(front);
      AddPairValues(ParseQs(front), last.0, last.1, k);
      ValuesForAppend(front, [last], k);
      assert front + [last] == q;
    }
  }

  /** No name occurs twice. */
  predicate UniqueNames(q: seq<(string, string)>) {
    forall i, j :: 0 <= i < j < |q| ==> q[i].0 != q[j].0
  }

  /** One entry per pair. */
  function Singletons(q: seq<(string, string)>): (d: QueryDict)
    ensures |d| == |q|
  {
    seq(|q|, i requires 0 <= i < |q| => (q[i].0, [q[i].1]))
  }

  lemma {:induction false} KeysOfSingletons(q: seq<(string, string)>)
    ensures Keys(Singletons(q)) == seq(|q|, i requires 0 <= i < |q| => q[i].0)
    decreases |q|
  {
    if q != [] {
      assert Singletons(q)[1..] == Singletons(q[1..]);
      KeysOfSingletons(q[1..]);
    }
  }

  lemma {:induction false} FlattenSingletons(q: seq<(string, string)>)
    ensures Flatten(Singletons(q)) == q
    decreases |q|
  {
    if q != [] {
      assert Singletons(q)[1..] == Singletons(q[1..]);
      FlattenSingletons(q[1..]);
      assert Pairs(q[0].0, [q[0].1]) == [q[0]];
    }
  }

  /** A new name gets a new entry at the end. */
  lemma {:induction false} AddPairNew(d: QueryDict, k: string, v: string)
    requires k !in Keys(d)
    ensures AddPair(d, k, v) == d + [(k, [v])]
    decreases |d|
  {
    if d != [] {
      AddPairNew(d[1..], k, v);
      assert d == [d[0]] + d[1..];
    }
  }

  /** When no name repeats, grouping keeps the pairs exactly as they were. */
  lemma {:induction false} ParseQsUnrepeated(q: seq<(string, string)>)
    requires UniqueNames(q)
    ensures ParseQs(q) == Singletons(q)
    ensures Flatten(ParseQs(q)) == q
    decreases |q|
  {
    if q != [] {
      var front, last := q[..|q| - 1], q[|q| - 1];
      ParseQsUnrepeated(front);
      KeysOfSingletons(front);
      assert last.0 !in Keys(Singletons(front));
      AddPairNew(Singletons(front), last.0, last.1);
      assert Singletons(front) + [(last.0, [last.1])] == Singletons(q);
    }
    FlattenSingletons(q);
  }

  /** The characters `quote_plus` never escapes. */
  predicate AlwaysSafe(c: char) {
    'a' <= c <= 'z' || IsUpper(c) || IsAsciiDigit(c) || c == '_' || c == '.' || c == '-' || c == '~'
  }

  function HexDigit(d: nat): char
    requires d < 16
  {
    if d < 10 then DigitChar(d) else ('A' as int + d - 10) as char
  }

  /** The UTF-8 encoding of one character. */
  function Utf8(c: char): (bytes: seq<nat>)
    ensures 1 <= |bytes| <= 4
    ensures forall i :: 0 <= i < |bytes| ==> bytes[i] < 256
  {
    var n := c as int;
    if n < 0x80 then [n]
    else if n < 0x800 then [0xC0 + n / 64, 0x80 + n % 64]
    else if n < 0x10000 then [0xE0 + n / 4096, 0x80 + n / 64 % 64, 0x80 + n % 64]
    else [0xF0 + n / 262144 % 8, 0x80 + n / 4096 % 64, 0x80 + n / 64 % 64, 0x80 + n % 64]
  }

  /** `%XX` for each byte, with upper-case hexadecimal digits. */
  function PercentBytes(bytes: seq<nat>): string
    requires forall i :: 0 <= i < |bytes| ==> bytes[i] < 256
    decreases |bytes|
  {
    if bytes == [] then ""
    else ['%', HexDigit(bytes[0] / 16), HexDigit(bytes[0] % 16)] + PercentBytes(bytes[1..])
  }

  function QuoteChar(c: char): string {
    if AlwaysSafe(c) then [c] else if c == ' ' then "+" else PercentBytes(Utf8(c))
  }

  /** `quote_plus(s, safe='')`. */
  function QuotePlus(s: string): string
    decreases |s|
  {
    if s == [] then "" else QuoteChar(s[0]) + QuotePlus(s[1..])
  }

  /** A safe first character is kept as the first character. */
  lemma QuotePlusFirst(s: string)
    requires s != [] && AlwaysSafe(s[0])
    ensures QuotePlus(s) != [] && QuotePlus(s)[0] == s[0]
  {
  }

  /** One pair as `urlencode` writes it. */
  function EncodePair(p: (string, string)): string {
    QuotePlus(p.0) + "=" + QuotePlus(p.1)
  }

  /** `urlencode` of a list of pairs: the encoded pairs joined by `&`. */
  function UrlEncode(ps: seq<(string, string)>): string
    decreases |ps|
  {
    if ps == [] then ""
    else if |ps| == 1 then EncodePair(ps[0])
    else EncodePair(ps[0]) + "&" + UrlEncode(ps[1..])
  }

  /** An encoding starts with its first pair, encoded. */
  lemma UrlEncodeHead(ps: seq<(string, string)>)
    requires ps != []
    ensures StartsWith(UrlEncode(ps), EncodePair(ps[0]))
  {
    var head := EncodePair(ps[0]);
    if |ps| > 1 {
      var tail := "&" + UrlEncode(ps[1..]);
      assert UrlEncode(ps) == head + tail;
      assert (head + tail)[..|head|] == head;
    }
  }
}
