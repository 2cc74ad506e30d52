/** List helpers shared by the model: Python's list comprehension with a
    condition (`[x for x in s if p(x)]`) and the slice `s[:stop]`. */
module Lists {

  /** `[x for x in s if p(x)]`. */
  function Filter<T>(s: seq<T>, p: T -> bool): (r: seq<T>)
    ensures |r| <= |s|
    ensures forall x :: x in r ==> x in s && p(x)
    ensures forall x :: x in s && p(x) ==> x in r
    decreases |s|
  {
    if s == [] then []
    else if p(s[0]) then [s[0]] + Filter(s[1..], p)
    else Filter(s[1..], p)
  }

  /** Every element is kept by exactly one of a condition and its negation. */
  lemma {:induction false} FilterSplit<T>(s: seq<T>, p: T -> bool, q: T -> bool)
    requires forall x :: q(x) == !p(x)
    ensures |Filter(s, p)| + |Filter(s, q)| == |s|
    decreases |s|
  {
    if s != [] {
      FilterSplit(s[1..], p, q);
    }
  }

  /** A condition every element meets keeps the whole list. */
  lemma {:induction false} FilterAll<T>(s: seq<T>, p: T -> bool)
    requires forall x :: x in s ==> p(x)
    ensures Filter(s, p) == s
    decreases |s|
  {
    if s != [] {
      assert s[0] in s;
      assert forall x :: x in s[1..] ==> x in s;
      FilterAll(s[1..], p);
      assert [s[0]] + s[1..] == s;
    }
  }

  /** Filtering distributes over concatenation. */
  lemma {:induction false} FilterAppend<T>(s: seq<T>, t: seq<T>, p: T -> bool)
    ensures Filter(s + t, p) == Filter(s, p) + Filter(t, p)
    decreases |s|
  {
    if s == [] {
      assert s + t == t;
    } else {
      var c, x, rest := s + t, s[0], s[1..];
      assert c[0] == x && c[1..] == rest + t;
      FilterAppend(rest, t, p);
      assert Filter(c, p) == (if p(x) then [x] else []) + Filter(rest + t, p);
      assert Filter(s, p) == (if p(x) then [x] else []) + Filter(rest, p);
    }
  }

  /** Filtering a list with one more element at the end. */
  lemma FilterSnoc<T>(s: seq<T>, x: T, p: T -> bool)
    ensures Filter(s + [x], p) == Filter(s, p) + if p(x) then [x] else []
  {
    FilterAppend(s, [x], p);
    assert Filter([x], p) == if p(x) then [x] else [] by {
      assert [x][1..] == [];
    }
  }

  /** The kept elements of a non-empty list: those of all but its last,
      then the last if it is kept. */
  lemma FilterLast<T>(s: seq<T>, p: T -> bool)
    requires s != []
    ensures Filter(s, p) == Filter(s[..|s| - 1], p) + if p(s[|s| - 1]) then [s[|s| - 1]] else []
  {
    var k := |s| - 1;
    assert s == s[..k] + [s[k]];
    FilterSnoc(s[..k], s[k], p);
  }

  /** The lists `f(x)` for the elements `x` of `s`, concatenated in
      order: a nested loop that appends what each pair contributes. */
  function FlatMap<T, U>(s: seq<T>, f: T -> seq<U>): seq<U>
    decreases |s|
  {
    if s == [] then [] else FlatMap(s[..|s| - 1], f) + f(s[|s| - 1])
  }

  /** Mapping a concatenation concatenates the mapped parts. */
  lemma {:induction false} FlatMapAppend<T, U>(s: seq<T>, t: seq<T>, f: T -> seq<U>)
    ensures FlatMap(s + t, f) == FlatMap(s, f) + FlatMap(t, f)
    decreases |t|
  {
    if t == [] {
      assert s + t == s;
    } else {
      var c, front, last := s + t, t[..|t| - 1], t[|t| - 1];
      assert c[..|c| - 1] == s + front && c[|c| - 1] == last;
      FlatMapAppend(s, front, f);
    }
  }

  /** The length of `s[:stop]` for a list of length `n`: a negative `stop`
      counts from the end. */
  function SliceEnd(n: nat, stop: int): (k: nat)
    ensures k <= n
  {
    if stop >= 0 then (if stop < n then stop else n)
    else if n + stop > 0 then n + stop else 0
  }

  /** `s[:stop]`. */
  function Take<T>(s: seq<T>, stop: int): seq<T> {
    s[..SliceEnd(|s|, stop)]
  }
}
