/**
 * The POSIX flavour of the path operations the packager calls: `pathlib`'s
 * `parts`, `name`, `suffix`, `stem`, `with_suffix` and `str()`, and
 * `os.path`'s `join`, `dirname`, `relpath` and `commonprefix`.
 * Paths are strings with '/' as the only separator.
 */
module PyPath {
  import opened Wrappers
  import opened Strings

  /** A single path component as `pathlib` keeps it. */
  predicate IsName(x: string) {
    x != "" && x != "." && '/' !in x
  }

  /** Parts as `pathlib` produces them: an optional root "/" first, then names. */
  predicate WellFormedParts(ps: seq<string>) {
    forall i :: 0 <= i < |ps| ==> IsName(ps[i]) || (i == 0 && ps[i] == "/")
  }

  predicate IsAbsolute(p: string) {
    |p| > 0 && p[0] == '/'
  }

  /** The pieces of a split path that `pathlib` keeps: empty pieces and "." are dropped. */
  function Components(pieces: seq<string>): (r: seq<string>)
    ensures |r| <= |pieces|
    ensures forall i :: 0 <= i < |r| ==> r[i] != "" && r[i] != "." && r[i] in pieces
    decreases |pieces|
  {
    if |pieces| == 0 then []
    else
      var rest := Components(pieces[1..]);
      if pieces[0] == "" || pieces[0] == "." then rest else [pieces[0]] + rest
  }

  lemma {:induction false} ComponentsOfNames(xs: seq<string>)
    requires forall i :: 0 <= i < |xs| ==> IsName(xs[i])
    ensures Components(xs) == xs
    decreases |xs|
  {
    if |xs| > 0 {
      ComponentsOfNames(xs[1..]);
      assert xs == [xs[0]] + xs[1..];
    }
  }

  /** `pathlib.PurePosixPath(p).parts`. */
  function Parts(p: string): (ps: seq<string>)
    ensures WellFormedParts(ps)
  {
    var comps := Components(Split(p, '/'));
    if |p| > 0 && p[0] == '/' then ["/"] + comps else comps
  }

  /** `str(pathlib.PurePosixPath(...))` rebuilt from its parts. */
  function StrOf(ps: seq<string>): string {
    if |ps| == 0 then "."
    else if ps[0] == "/" then "/" + Join(ps[1..], "/")
    else Join(ps, "/")
  }

  /** The text of a path as `str(Path(p))` normalises it. */
  function Normalised(p: string): string {
    StrOf(Parts(p))
  }

  lemma {:induction false} JoinStartsWithFirst(xs: seq<string>, sep: string)
    requires |xs| >= 1
    ensures xs[0] <= Join(xs, sep)
  {
  }

  /** Parsing the text of well-formed parts gives the same parts back. */
  lemma {:induction false} PartsOfStrOf(ps: seq<string>)
    requires WellFormedParts(ps)
    ensures Parts(StrOf(ps)) == ps
  {
    if |ps| == 0 {
      PartsOfDot();
    } else if ps == ["/"] {
      PartsOfRoot();
    } else if ps[0] == "/" {
      var tail := ps[1..];
      assert forall i :: 0 <= i < |tail| ==> IsName(tail[i]) by {
        forall i | 0 <= i < |tail| ensures IsName(tail[i]) {
          assert tail[i] == ps[i + 1];
        }
      }
      PartsOfRootedNames(tail);
      assert ps == ["/"] + tail;
    } else {
      assert forall i :: 0 <= i < |ps| ==> IsName(ps[i]);
      PartsOfNames(ps);
    }
  }

  /** `Path(".").parts` is empty. */
  lemma PartsOfDot()
    ensures Parts(StrOf([])) == []
  {
    assert StrOf([]) == ".";
    assert "."[1..] == "";
    var rest := Split("."[1..], '/');
    assert rest == [""];
    assert Split(".", '/') == [['.'] + rest[0]] + rest[1..];
    assert ['.'] + rest[0] == ".";
    assert Components(["."]) == [];
  }

  /** `Path("/").parts` is the root alone. */
  lemma PartsOfRoot()
    ensures Parts(StrOf(["/"])) == ["/"]
  {
    assert ["/"][1..] == [];
    assert StrOf(["/"]) == "/";
    assert "/"[1..] == "";
    assert Split("", '/') == [""];
    assert Split("/", '/') == ["", ""];
    assert Components(["", ""]) == [];
  }

  /** A root followed by names parses back to those parts. */
  lemma PartsOfRootedNames(names: seq<string>)
    requires |names| > 0 && forall i :: 0 <= i < |names| ==> IsName(names[i])
    ensures Parts(StrOf(["/"] + names)) == ["/"] + names
  {
    var ps := ["/"] + names;
    assert ps[0] == "/" && ps[1..] == names;
    var j := Join(names, "/");
    assert StrOf(ps) == "/" + j;
    assert ("/" + j)[1..] == j;
    SplitOfJoin(names, '/');
    assert Split("/" + j, '/') == [""] + names;
    ComponentsOfNames(names);
    assert Components([""] + names) == Components(names);
  }

  /** Names alone parse back to themselves. */
  lemma PartsOfNames(names: seq<string>)
    requires |names| > 0 && forall i :: 0 <= i < |names| ==> IsName(names[i])
    ensures Parts(StrOf(names)) == names
  {
    assert names[0] != "/";
    SplitOfJoin(names, '/');
    ComponentsOfNames(names);
    JoinStartsWithFirst(names, "/");
    assert StrOf(names)[0] == names[0][0];
    assert names[0][0] in names[0];
  }

  lemma {:induction false} PartsOfNormalised(p: string)
    ensures Parts(Normalised(p)) == Parts(p)
  {
    PartsOfStrOf(Parts(p));
  }

  /** `PurePath.name`: the last part, or "" for "/" and for the empty path. */
  function Name(p: string): (n: string)
    ensures n == "" || IsName(n)
  {
    var ps := Parts(p);
    if |ps| == 0 || ps == ["/"] then "" else ps[|ps| - 1]
  }

  /** `PurePath.suffix` of a name: from its last '.', unless that dot is first or last. */
  function SuffixOf(name: string): (s: string)
    ensures s == "" || (s[0] == '.' && '.' !in s[1..] && |s| >= 2 && EndsWith(name, s))
  {
    var i := LastIndexOf(name, '.');
    if 0 < i < |name| - 1 then
      name[i..]
    else ""
  }

  /** `PurePath.stem` of a name: the name without its suffix. */
  function StemOf(name: string): (s: string)
    ensures name == s + SuffixOf(name)
  {
    var i := LastIndexOf(name, '.');
    if 0 < i < |name| - 1 then name[..i] else name
  }

  function Suffix(p: string): string {
    SuffixOf(Name(p))
  }

  function Stem(p: string): string {
    StemOf(Name(p))
  }

  /** A plain name is its own last part, and its stem and suffix make it up again. */
  lemma NameOfName(f: string)
    requires IsName(f)
    ensures Name(f) == f && Stem(f) + Suffix(f) == f
  {
    PartsOfNames([f]);
    assert StrOf([f]) == f;
  }

  /** A suffix `with_suffix` accepts and `suffix` reads back: a dot, then at least one character, no other dot or separator. */
  predicate IsSuffix(s: string) {
    |s| >= 2 && s[0] == '.' && '.' !in s[1..] && '/' !in s
  }

  /** `str(PurePath(p).with_suffix(s))`; the source raises ValueError when the name is empty. */
  function WithSuffix(p: string, s: string): string
    requires Name(p) != ""
  {
    var ps := Parts(p);
    StrOf(ps[..|ps| - 1] + [Stem(p) + s])
  }

  /** `rfind` on a word followed by a suffix finds the suffix's dot. */
  lemma {:induction false} LastDotOfStemAndSuffix(stem: string, s: string)
    requires IsSuffix(s)
    ensures LastIndexOf(stem + s, '.') == |stem|
  {
    var w := stem + s;
    var i := LastIndexOf(w, '.');
    assert w[|stem|] == '.';
    assert forall k :: |stem| < k < |w| ==> w[k] == s[1..][k - |stem| - 1];
  }

  /**
   * Replacing the suffix keeps the directory and the stem and puts the new
   * suffix in place: what turns `m.pyd` into `m.so` next to it.
   */
  lemma {:induction false} WithSuffixReplacesSuffix(p: string, s: string)
    requires Name(p) != "" && Stem(p) != "" && IsSuffix(s)
    ensures Suffix(WithSuffix(p, s)) == s
    ensures Stem(WithSuffix(p, s)) == Stem(p)
    ensures |Parts(WithSuffix(p, s))| == |Parts(p)|
    ensures Parts(WithSuffix(p, s))[..|Parts(p)| - 1] == Parts(p)[..|Parts(p)| - 1]
  {
    var ps := Parts(p);
    var stem := Stem(p);
    var name := Name(p);
    assert name == ps[|ps| - 1];
    var newName := stem + s;
    assert '/' !in stem by {
      assert name == stem + SuffixOf(name);
      forall k | 0 <= k < |stem| ensures stem[k] != '/' {
        assert stem[k] == name[k];
      }
    }
    assert IsName(newName) by {
      assert newName[|newName| - 1] == s[|s| - 1];
      forall k | 0 <= k < |newName| ensures newName[k] != '/' {
        if k < |stem| { assert newName[k] == stem[k]; } else { assert newName[k] == s[k - |stem|]; }
      }
      assert newName != "." by { assert |newName| >= 2; }
    }
    var qs := ps[..|ps| - 1] + [newName];
    assert WellFormedParts(qs) by {
      forall i | 0 <= i < |qs| ensures IsName(qs[i]) || (i == 0 && qs[i] == "/") {
        if i < |ps| - 1 { assert qs[i] == ps[i]; }
      }
    }
    PartsOfStrOf(qs);
    assert Parts(WithSuffix(p, s)) == qs;
    assert qs != ["/"];
    assert Name(WithSuffix(p, s)) == newName;
    LastDotOfStemAndSuffix(stem, s);
    assert newName[|stem|..] == s;
    assert newName[..|stem|] == stem;
    assert qs[..|ps| - 1] == ps[..|ps| - 1];
  }

  /** `os.path.dirname` (posixpath): the text before the last '/', with trailing slashes dropped unless it is all slashes. */
  function Dirname(p: string): string {
    var i := LastIndexOf(p, '/') + 1;
    var head := p[..i];
    if head != "" && exists k | 0 <= k < |head| :: head[k] != '/' then StripRight(head, '/') else head
  }

  /** `os.path.join(a, b)` (posixpath): an absolute `b` replaces `a`. */
  function PathJoin(a: string, b: string): string {
    if |b| > 0 && b[0] == '/' then b
    else if a == "" || a[|a| - 1] == '/' then a + b
    else a + "/" + b
  }

  /** `os.path.join(*xs)`: `PathJoin` folded from the left. */
  function JoinAll(xs: seq<string>): string
    requires |xs| >= 1
    decreases |xs|
  {
    if |xs| == 1 then xs[0] else PathJoin(JoinAll(xs[..|xs| - 1]), xs[|xs| - 1])
  }

  /** A joined list of names ends with its last name. */
  lemma {:induction false} JoinEndsWithLast(xs: seq<string>, sep: string)
    requires |xs| >= 1
    ensures EndsWith(Join(xs, sep), xs[|xs| - 1])
  {
    if |xs| > 1 {
      JoinSnoc(xs[..|xs| - 1], xs[|xs| - 1], sep);
      assert xs[..|xs| - 1] + [xs[|xs| - 1]] == xs;
    }
  }

  /** `os.path.join(*parts)` rebuilds the text of well-formed parts. */
  lemma {:induction false} JoinAllIsStrOf(ps: seq<string>)
    requires |ps| >= 1 && WellFormedParts(ps)
    ensures JoinAll(ps) == StrOf(ps)
    decreases |ps|
  {
    if |ps| > 1 {
      var init := ps[..|ps| - 1];
      var last := ps[|ps| - 1];
      assert WellFormedParts(init) by {
        forall i | 0 <= i < |init| ensures IsName(init[i]) || (i == 0 && init[i] == "/") {
          assert init[i] == ps[i];
        }
      }
      JoinAllIsStrOf(init);
      assert ps == init + [last];
      StrOfSnoc(init, last);
    }
  }

  /** Appending a name to well-formed parts is `os.path.join` on their text. */
  lemma StrOfSnoc(init: seq<string>, last: string)
    requires |init| >= 1 && WellFormedParts(init) && IsName(last)
    ensures StrOf(init + [last]) == PathJoin(StrOf(init), last)
  {
    var ps := init + [last];
    assert ps[0] == init[0];
    assert IsName(init[|init| - 1]) || init == ["/"];
    if init[0] == "/" {
      var names := init[1..];
      assert ps[1..] == names + [last];
      if |names| == 0 {
        assert ps[1..] == [last] && Join([last], "/") == last;
        assert StrOf(init) == "/";
      } else {
        assert names[|names| - 1] == init[|init| - 1];
        JoinNamesThenName(names, last);
        var j := Join(names, "/");
        var n := names[|names| - 1];
        JoinEndsWithLast(names, "/");
        assert j[|j| - 1] == n[|n| - 1] && n[|n| - 1] in n;
        PathJoinUnderRoot(j, last);
      }
    } else {
      JoinNamesThenName(init, last);
    }
  }

  /** Joining a name onto a rooted text that ends in a name is joining it under the root. */
  lemma PathJoinUnderRoot(j: string, last: string)
    requires j != "" && j[|j| - 1] != '/' && IsName(last)
    ensures PathJoin("/" + j, last) == "/" + PathJoin(j, last)
  {
    assert ("/" + j)[|j|] == j[|j| - 1];
    assert last[0] in last;
  }

  /** `os.path.join` of a '/'-joined list of names and one more name is the longer list joined. */
  lemma JoinNamesThenName(names: seq<string>, last: string)
    requires |names| >= 1 && IsName(names[|names| - 1]) && IsName(last)
    ensures PathJoin(Join(names, "/"), last) == Join(names + [last], "/")
  {
    JoinSnoc(names, last, "/");
    JoinEndsWithLast(names, "/");
    var j := Join(names, "/");
    var n := names[|names| - 1];
    assert j[|j| - 1] == n[|n| - 1];
  }

  /** Joining well-formed parts with `os.path.join` and parsing the result gives the parts back. */
  lemma {:induction false} PartsOfJoinAll(ps: seq<string>)
    requires |ps| >= 1 && WellFormedParts(ps)
    ensures Parts(JoinAll(ps)) == ps
  {
    JoinAllIsStrOf(ps);
    PartsOfStrOf(ps);
  }

  /** The path text normalisation keeps the name, hence the suffix and the stem. */
  lemma {:induction false} NormalisedKeepsName(p: string)
    ensures Name(Normalised(p)) == Name(p)
  {
    PartsOfNormalised(p);
  }

  /** The number of leading elements two lists share. */
  function CommonLength(a: seq<string>, b: seq<string>): (n: nat)
    ensures n <= |a| && n <= |b| && a[..n] == b[..n]
    ensures n == |a| || n == |b| || a[n] != b[n]
    decreases |a|
  {
    if |a| == 0 || |b| == 0 || a[0] != b[0] then 0
    else
      var n := 1 + CommonLength(a[1..], b[1..]);
      assert a == [a[0]] + a[1..] && b == [b[0]] + b[1..];
      n
  }

  function Repeat(x: string, n: nat): (r: seq<string>)
    ensures |r| == n && forall i :: 0 <= i < n ==> r[i] == x
  {
    seq(n, _ => x)
  }

  /**
   * `os.path.relpath(path, start)` for absolute paths: climb with ".." out of
   * the part of `start` that `path` does not share, then descend.
   */
  function RelPath(path: string, start: string): (r: string)
    requires IsAbsolute(path) && IsAbsolute(start)
  {
    var startList := Components(Split(start, '/'));
    var pathList := Components(Split(path, '/'));
    var i := CommonLength(startList, pathList);
    var relList := Repeat("..", |startList| - i) + pathList[i..];
    if |relList| == 0 then "." else Join(relList, "/")
  }

  /** A relative path never starts at the root. */
  lemma {:induction false} RelPathIsRelative(path: string, start: string)
    requires IsAbsolute(path) && IsAbsolute(start)
    ensures RelPath(path, start) != "" && RelPath(path, start)[0] != '/'
  {
    var startList := Components(Split(start, '/'));
    var pathList := Components(Split(path, '/'));
    var i := CommonLength(startList, pathList);
    var relList := Repeat("..", |startList| - i) + pathList[i..];
    if |relList| > 0 {
      JoinStartsWithFirst(relList, "/");
      if |startList| - i > 0 {
        assert relList[0] == "..";
      } else {
        assert relList[0] == pathList[i];
        assert pathList[i] in Split(path, '/');
      }
    }
  }

  /** `q` is a prefix of every string of `xs`. */
  predicate IsCommonPrefix(q: string, xs: seq<string>) {
    forall i :: 0 <= i < |xs| ==> q <= xs[i]
  }

  /** `os.path.commonprefix(xs)`: the longest common prefix, character by character. */
  function CommonPrefix(xs: seq<string>): (r: string)
    ensures IsCommonPrefix(r, xs)
    ensures |xs| > 0 ==> forall q :: IsCommonPrefix(q, xs) ==> q <= r
    decreases |xs|
  {
    if |xs| == 0 then ""
    else if |xs| == 1 then xs[0]
    else
      var rest := CommonPrefix(xs[1..]);
      var r := CommonPrefix2(xs[0], rest);
      assert forall i :: 1 <= i < |xs| ==> xs[i] == xs[1..][i - 1];
      assert forall q :: IsCommonPrefix(q, xs) ==> q <= xs[0] && IsCommonPrefix(q, xs[1..]);
      LongestIsMaximal(xs[0], rest, r);
      assert forall q :: IsCommonPrefix(q, xs) ==> IsCommonPrefix(q, [xs[0], rest]);
      r
  }

  lemma {:induction false} LongestIsMaximal(a: string, b: string, r: string)
    requires r <= a && r <= b
    requires |r| == |a| || |r| == |b| || a[|r|] != b[|r|]
    ensures forall q :: IsCommonPrefix(q, [a, b]) ==> q <= r
  {
    forall q | IsCommonPrefix(q, [a, b]) ensures q <= r {
      assert [a, b][0] == a && [a, b][1] == b;
      assert q <= a && q <= b;
    }
  }

  /**
   * The prefix is taken character by character, not at a separator: for
   * "/app/foo.py" and "/app/fob.py" it is "/app/fo".
   */
  lemma CommonPrefixIsCharacterWise(shared: string, x: char, y: char, restA: string, restB: string)
    requires x != y
    ensures CommonPrefix([shared + [x] + restA, shared + [y] + restB]) == shared
  {
    var a, b := shared + [x] + restA, shared + [y] + restB;
    assert [a, b][1..] == [b];
    assert CommonPrefix([a, b]) == CommonPrefix2(a, b);
    assert a == shared + ([x] + restA) && b == shared + ([y] + restB);
    CommonPrefix2OfShared(shared, [x] + restA, [y] + restB);
    assert CommonPrefix2([x] + restA, [y] + restB) == "";
  }

  /** A shared beginning is always part of the common prefix. */
  lemma {:induction false} CommonPrefix2OfShared(shared: string, a: string, b: string)
    ensures CommonPrefix2(shared + a, shared + b) == shared + CommonPrefix2(a, b)
    decreases |shared|
  {
    if |shared| > 0 {
      assert (shared + a)[1..] == shared[1..] + a;
      assert (shared + b)[1..] == shared[1..] + b;
      CommonPrefix2OfShared(shared[1..], a, b);
      assert shared == [shared[0]] + shared[1..];
    } else {
      assert shared + a == a && shared + b == b;
    }
  }

  /** The folder of a relative path is relative. */
  lemma DirnameOfRelative(p: string)
    requires !IsAbsolute(p)
    ensures !IsAbsolute(Dirname(p))
  {
    var i := LastIndexOf(p, '/') + 1;
    var head := p[..i];
    if head != "" && exists k | 0 <= k < |head| :: head[k] != '/' {
      StripRightIsPrefix(head, '/');
    }
  }

  /** A relative path has no root part: all its parts are names. */
  lemma PartsOfRelative(p: string)
    requires !IsAbsolute(p)
    ensures forall i :: 0 <= i < |Parts(p)| ==> IsName(Parts(p)[i])
  {
    var pieces := Split(p, '/');
    var ps := Parts(p);
    forall i | 0 <= i < |ps| ensures IsName(ps[i]) {
      assert ps[i] in pieces;
      var j :| 0 <= j < |pieces| && pieces[j] == ps[i];
    }
  }

  /** Joining onto an absolute path gives an absolute path. */
  lemma JoinOntoAbsolute(a: string, b: string)
    requires IsAbsolute(a)
    ensures IsAbsolute(PathJoin(a, b))
  {
  }

  /** `os.path.join(*names)` of names is a relative path starting with the first name. */
  lemma JoinAllOfNames(names: seq<string>)
    requires |names| >= 1 && forall i :: 0 <= i < |names| ==> IsName(names[i])
    ensures JoinAll(names) == Join(names, "/") && names[0] <= JoinAll(names) && !IsAbsolute(JoinAll(names))
  {
    JoinAllIsStrOf(names);
    JoinStartsWithFirst(names, "/");
    assert names[0][0] in names[0];
  }
}
