/**
 * The subset of Python's `str` methods the packager relies on: `split` on one
 * character, `join`, `in` (substring), `replace`, `strip` of one character and
 * `rfind`, together with small list searches.  Strings are sequences of
 * characters; there is no Unicode normalisation.
 */
module Strings {
  import opened Wrappers

  /** `sub` occurs in `s` starting at index `i`. */
  predicate OccursAt(s: string, sub: string, i: int) {
    0 <= i <= |s| - |sub| && s[i..i + |sub|] == sub
  }

  /** Python's `sub in s`. */
  predicate Contains(s: string, sub: string) {
    exists i | 0 <= i <= |s| - |sub| :: OccursAt(s, sub, i)
  }

  predicate EndsWith(s: string, suffix: string) {
    |suffix| <= |s| && s[|s| - |suffix|..] == suffix
  }

  /** Python's `s.split(sep)` for a one-character separator (empty pieces are kept). */
  function Split(s: string, sep: char): (parts: seq<string>)
    ensures |parts| >= 1
    ensures forall i :: 0 <= i < |parts| ==> sep !in parts[i]
    decreases |s|
  {
    if |s| == 0 then [""]
    else if s[0] == sep then [""] + Split(s[1..], sep)
    else
      var rest := Split(s[1..], sep);
      [[s[0]] + rest[0]] + rest[1..]
  }

  /** Python's `sep.join(xs)`. */
  function Join(xs: seq<string>, sep: string): string
    decreases |xs|
  {
    if |xs| == 0 then ""
    else if |xs| == 1 then xs[0]
    else xs[0] + sep + Join(xs[1..], sep)
  }

  /** `sep.join(s.split(sep)) == s`. */
  lemma {:induction false} JoinOfSplit(s: string, sep: char)
    ensures Join(Split(s, sep), [sep]) == s
    decreases |s|
  {
    if |s| == 0 {
    } else if s[0] == sep {
      JoinOfSplit(s[1..], sep);
      var rest := Split(s[1..], sep);
      assert Split(s, sep) == [""] + rest;
      assert ([""] + rest)[1..] == rest;
      assert s == [sep] + s[1..];
    } else {
      JoinOfSplit(s[1..], sep);
      var rest := Split(s[1..], sep);
      assert s == [s[0]] + s[1..];
      if |rest| == 1 {
        assert Split(s, sep) == [[s[0]] + rest[0]];
      } else {
        var parts := Split(s, sep);
        assert parts[1..] == rest[1..];
        assert Join(rest, [sep]) == rest[0] + [sep] + Join(rest[1..], [sep]);
      }
    }
  }

  /** Splitting a word that holds no separator only extends the first piece. */
  lemma {:induction false} SplitAfterWord(w: string, rest: string, sep: char)
    requires sep !in w
    ensures Split(w + rest, sep) == [w + Split(rest, sep)[0]] + Split(rest, sep)[1..]
    decreases |w|
  {
    if |w| > 0 {
      SplitAfterWord(w[1..], rest, sep);
      assert (w + rest)[1..] == w[1..] + rest;
      assert [w[0]] + (w[1..] + Split(rest, sep)[0]) == w + Split(rest, sep)[0];
    } else {
      assert w + rest == rest;
      var parts := Split(rest, sep);
      assert parts == [parts[0]] + parts[1..];
      assert w + parts[0] == parts[0];
    }
  }

  /** A word without the separator, then the separator, splits off as the first piece. */
  lemma SplitAfterName(w: string, rest: string, sep: char)
    requires sep !in w
    ensures Split(w + [sep] + rest, sep) == [w] + Split(rest, sep)
  {
    SplitAfterWord(w, [sep] + rest, sep);
    assert w + [sep] + rest == w + ([sep] + rest);
    assert ([sep] + rest)[1..] == rest;
    assert w + "" == w;
  }

  /** Splitting at a separator splits each side on its own. */
  lemma {:induction false} SplitConcat(a: string, b: string, sep: char)
    ensures Split(a + [sep] + b, sep) == Split(a, sep) + Split(b, sep)
    decreases |a|
  {
    var s := a + [sep] + b;
    if |a| == 0 {
      assert s[0] == sep && s[1..] == b;
    } else {
      assert s[0] == a[0] && s[1..] == a[1..] + [sep] + b;
      SplitConcat(a[1..], b, sep);
      if a[0] != sep {
        GlueFirst(a[0], Split(s[1..], sep), Split(a[1..], sep), Split(b, sep));
      }
    }
  }

  /** Gluing a character onto the first piece commutes with appending pieces. */
  lemma GlueFirst(c: char, rest: seq<string>, left: seq<string>, tail: seq<string>)
    requires |left| >= 1 && rest == left + tail
    ensures [[c] + rest[0]] + rest[1..] == [[c] + left[0]] + left[1..] + tail
  {
    assert rest[1..] == left[1..] + tail;
  }

  /** `(sep.join(xs)).split(sep) == xs` when no element holds the separator. */
  lemma {:induction false} SplitOfJoin(xs: seq<string>, sep: char)
    requires |xs| >= 1
    requires forall i :: 0 <= i < |xs| ==> sep !in xs[i]
    ensures Split(Join(xs, [sep]), sep) == xs
    decreases |xs|
  {
    if |xs| == 1 {
      SplitAfterWord(xs[0], "", sep);
      assert xs[0] + "" == xs[0];
    } else {
      var tail := Join(xs[1..], [sep]);
      SplitOfJoin(xs[1..], sep);
      assert Join(xs, [sep]) == xs[0] + ([sep] + tail);
      SplitAfterWord(xs[0], [sep] + tail, sep);
      assert ([sep] + tail)[1..] == tail;
      assert Split([sep] + tail, sep) == [""] + xs[1..];
      assert xs[0] + "" == xs[0];
    }
  }

  /** Joining one more element appends the separator and that element. */
  lemma {:induction false} JoinSnoc(xs: seq<string>, y: string, sep: string)
    requires |xs| >= 1
    ensures Join(xs + [y], sep) == Join(xs, sep) + sep + y
    decreases |xs|
  {
    if |xs| == 1 {
      assert xs + [y] == [xs[0], y];
      assert [xs[0], y][1..] == [y];
    } else {
      JoinSnoc(xs[1..], y, sep);
      assert (xs + [y])[1..] == xs[1..] + [y];
    }
  }

  /** No element occurs twice. */
  predicate NoDuplicates<T(==)>(xs: seq<T>) {
    forall i, j :: 0 <= i < j < |xs| ==> xs[i] != xs[j]
  }

  /** `a + x + b` holds `x`. */
  lemma ContainsMiddle(a: string, x: string, b: string)
    ensures Contains(a + x + b, x)
  {
    assert (a + x + b)[|a|..|a| + |x|] == x;
    assert OccursAt(a + x + b, x, |a|);
  }

  /** `a + x + b + y + c` holds both `x` and `y`. */
  lemma ContainsBoth(a: string, x: string, b: string, y: string, c: string)
    ensures Contains(a + x + b + y + c, x) && Contains(a + x + b + y + c, y)
  {
    ContainsMiddle(a, x, b + y + c);
    assert a + x + (b + y + c) == a + x + b + y + c;
    ContainsMiddle(a + x + b, y, c);
  }

  /** `f` applied to the first `n` elements of `xs`, in order. */
  function MapPrefix<T, U>(xs: seq<T>, n: nat, f: T --> U): (r: seq<U>)
    requires n <= |xs| && forall k :: 0 <= k < n ==> f.requires(xs[k])
    ensures |r| == n
  {
    if n == 0 then [] else MapPrefix(xs, n - 1, f) + [f(xs[n - 1])]
  }

  lemma {:induction false} MapPrefixAt<T, U>(xs: seq<T>, n: nat, f: T --> U, k: nat)
    requires n <= |xs| && forall j :: 0 <= j < n ==> f.requires(xs[j])
    requires k < n
    ensures MapPrefix(xs, n, f)[k] == f(xs[k])
    decreases n
  {
    if k < n - 1 {
      MapPrefixAt(xs, n - 1, f, k);
    }
  }

  /** The elements of `xs` that `keep` accepts, in order (a list comprehension with a filter). */
  function Filter<T>(xs: seq<T>, keep: T -> bool): (r: seq<T>)
    decreases |xs|
  {
    if |xs| == 0 then []
    else
      var init := Filter(xs[..|xs| - 1], keep);
      if keep(xs[|xs| - 1]) then init + [xs[|xs| - 1]] else init
  }

  lemma {:induction false} FilterCharacterised<T>(xs: seq<T>, keep: T -> bool)
    ensures forall x :: x in Filter(xs, keep) <==> x in xs && keep(x)
    decreases |xs|
  {
    if |xs| > 0 {
      var n := |xs| - 1;
      FilterCharacterised(xs[..n], keep);
      assert xs == xs[..n] + [xs[n]];
    }
  }

  /** `xs` written `k` times in a row. */
  function RepeatSeq<T>(xs: seq<T>, k: nat): (r: seq<T>)
    ensures |r| == k * |xs|
  {
    if k == 0 then [] else RepeatSeq(xs, k - 1) + xs
  }

  lemma {:induction false} RepeatSeqCommutes<T>(xs: seq<T>, k: nat)
    ensures xs + RepeatSeq(xs, k) == RepeatSeq(xs, k) + xs
    decreases k
  {
    if k > 0 {
      RepeatSeqCommutes(xs, k - 1);
      calc {
        xs + RepeatSeq(xs, k);
        xs + (RepeatSeq(xs, k - 1) + xs);
        (xs + RepeatSeq(xs, k - 1)) + xs;
        (RepeatSeq(xs, k - 1) + xs) + xs;
        RepeatSeq(xs, k) + xs;
      }
    }
  }

  /** Python's `s.replace(pattern, replacement)`: every non-overlapping occurrence, left to right. */
  function Replace(s: string, pattern: string, replacement: string): string
    decreases |s|
  {
    if |pattern| == 0 then
      // Python inserts `replacement` before every character and at the end.
      if |s| == 0 then replacement else replacement + [s[0]] + Replace(s[1..], pattern, replacement)
    else if |pattern| <= |s| && s[..|pattern|] == pattern then replacement + Replace(s[|pattern|..], pattern, replacement)
    else if |s| == 0 then ""
    else [s[0]] + Replace(s[1..], pattern, replacement)
  }

  /** Replacing a non-empty pattern that does not occur changes nothing. */
  lemma {:induction false} ReplaceAbsent(s: string, pattern: string, replacement: string)
    requires |pattern| > 0 && !Contains(s, pattern)
    ensures Replace(s, pattern, replacement) == s
    decreases |s|
  {
    if |s| > 0 {
      assert !OccursAt(s, pattern, 0);
      if Contains(s[1..], pattern) {
        var i :| 0 <= i <= |s[1..]| - |pattern| && OccursAt(s[1..], pattern, i);
        assert s[1..][i..i + |pattern|] == s[i + 1..i + 1 + |pattern|];
        assert OccursAt(s, pattern, i + 1);
        assert false;
      }
      ReplaceAbsent(s[1..], pattern, replacement);
      assert s == [s[0]] + s[1..];
    }
  }

  function StripLeft(s: string, c: char): string
    decreases |s|
  {
    if |s| > 0 && s[0] == c then StripLeft(s[1..], c) else s
  }

  function StripRight(s: string, c: char): string
    decreases |s|
  {
    if |s| > 0 && s[|s| - 1] == c then StripRight(s[..|s| - 1], c) else s
  }

  /** Python's `s.strip(c)` for a single character. */
  function Strip(s: string, c: char): (r: string)
  {
    StripRight(StripLeft(s, c), c)
  }

  /** `Strip` removes exactly the leading and trailing run of `c` and keeps the middle. */
  lemma {:induction false} StripKeepsMiddle(s: string, c: char)
    ensures |Strip(s, c)| <= |s|
    ensures Strip(s, c) != "" ==> Strip(s, c)[0] != c && Strip(s, c)[|Strip(s, c)| - 1] != c
    ensures Contains(s, Strip(s, c))
  {
    StripLeftIsSuffix(s, c);
    var l := StripLeft(s, c);
    StripRightIsPrefix(l, c);
    var r := StripRight(l, c);
    var k := |s| - |l|;
    assert s[k..k + |r|] == r;
    assert OccursAt(s, r, k);
  }

  lemma {:induction false} StripLeftIsSuffix(s: string, c: char)
    ensures |StripLeft(s, c)| <= |s| && StripLeft(s, c) == s[|s| - |StripLeft(s, c)|..]
    ensures StripLeft(s, c) != "" ==> StripLeft(s, c)[0] != c
    decreases |s|
  {
    if |s| > 0 && s[0] == c {
      StripLeftIsSuffix(s[1..], c);
    }
  }

  lemma {:induction false} StripRightIsPrefix(s: string, c: char)
    ensures |StripRight(s, c)| <= |s| && StripRight(s, c) == s[..|StripRight(s, c)|]
    ensures StripRight(s, c) != "" ==> StripRight(s, c)[|StripRight(s, c)| - 1] != c
    ensures StripRight(s, c) != "" && s != "" && s[0] != c ==> StripRight(s, c)[0] == s[0]
    decreases |s|
  {
    if |s| > 0 && s[|s| - 1] == c {
      StripRightIsPrefix(s[..|s| - 1], c);
      var r := StripRight(s[..|s| - 1], c);
      assert s[..|s| - 1][..|r|] == s[..|r|];
    }
  }

  /** Python's `s.rfind(c)`: the last index of `c`, or -1. */
  function LastIndexOf(s: string, c: char): (i: int)
    ensures -1 <= i < |s|
    ensures i >= 0 ==> s[i] == c
    ensures forall j :: i < j < |s| ==> s[j] != c
    decreases |s|
  {
    if |s| == 0 then -1
    else if s[|s| - 1] == c then |s| - 1
    else LastIndexOf(s[..|s| - 1], c)
  }

  /** The first index at which `x` occurs in `xs` (Python's `xs.index(x)`, None for its ValueError). */
  function FirstIndex<T(==)>(xs: seq<T>, x: T): (r: Option<nat>)
    ensures r.None? <==> x !in xs
    ensures r.Some? ==> r.value < |xs| && xs[r.value] == x && x !in xs[..r.value]
    decreases |xs|
  {
    if |xs| == 0 then None
    else if xs[0] == x then Some(0)
    else
      var r := FirstIndex(xs[1..], x);
      assert xs == [xs[0]] + xs[1..];
      if r.None? then None
      else
        assert xs[..r.value + 1] == [xs[0]] + xs[1..][..r.value];
        Some(r.value + 1)
  }

  /** The longest common prefix of two strings. */
  function CommonPrefix2(a: string, b: string): (r: string)
    ensures r <= a && r <= b
    ensures |r| == |a| || |r| == |b| || a[|r|] != b[|r|]
    decreases |a|
  {
    if |a| == 0 || |b| == 0 || a[0] != b[0] then ""
    else [a[0]] + CommonPrefix2(a[1..], b[1..])
  }
}
