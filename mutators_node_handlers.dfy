/**
 * The legacy source rewriter's per-statement handlers.  `rel_module_path`
 * re-expresses a dotted module path relative to a filesystem prefix; an
 * `ImportFrom` becomes a rewritten `from … import …` line and container
 * statements hand back their body for further rewriting.
 */
module MutatorsNodeHandlers {
  import opened Wrappers
  import opened Strings
  import opened PyPath
  import opened Syntax

  /**
   * The scan of `rel_module_path` from prefix index `t` on: the first segment
   * that runs past the prefix starts the answer, a mismatch gives None, and
   * running out of segments falls through to None.
   */
  function Align(segments: seq<string>, prefixParts: seq<string>, t: nat): Option<string>
    decreases |segments|
  {
    if |segments| == 0 then None
    else if t >= |prefixParts| then Some(Join(segments, "."))
    else if segments[0] != prefixParts[t] then None
    else Align(segments[1..], prefixParts, t + 1)
  }

  /**
   * `rel_module_path(common_prefix, module_path)`: align the first dotted
   * segment with its first occurrence among the prefix's parts (None when it
   * does not occur, the source's ValueError branch), then scan the rest.
   */
  function RelModulePath(commonPrefix: string, modulePath: string): Option<string> {
    Relativised(Split(modulePath, '.'), Parts(commonPrefix))
  }

  /** `rel_module_path` on the dotted segments and the prefix's parts. */
  function Relativised(segments: seq<string>, prefixParts: seq<string>): Option<string>
    requires |segments| > 0
  {
    match FirstIndex(prefixParts, segments[0])
    case None => None
    case Some(m) => Align(segments[1..], prefixParts, m + 1)
  }

  /** `Align` answers exactly when the segments match the rest of the prefix and go past its end. */
  lemma {:induction false} AlignCharacterised(segments: seq<string>, prefixParts: seq<string>, t: nat)
    requires t <= |prefixParts|
    ensures var k := |prefixParts| - t;
      Align(segments, prefixParts, t) ==
        if |segments| > k && segments[..k] == prefixParts[t..] then Some(Join(segments[k..], ".")) else None
    decreases |segments|
  {
    var k := |prefixParts| - t;
    if |segments| > 0 && t == |prefixParts| {
      assert segments[k..] == segments;
    } else if |segments| > 0 {
      if segments[0] == prefixParts[t] {
        AlignCharacterised(segments[1..], prefixParts, t + 1);
        if |segments| > k {
          assert segments[1..][k - 1..] == segments[k..];
          assert segments[..k] == [segments[0]] + segments[1..][..k - 1];
          assert prefixParts[t..] == [prefixParts[t]] + prefixParts[t + 1..];
        }
      } else if |segments| > k {
        assert segments[..k][0] != prefixParts[t..][0];
      }
    }
  }

  /**
   * The cases of `rel_module_path`, both directions: with `m` the first index
   * of the first segment among the prefix parts and `k` the number of parts
   * from `m` to the end, the answer is the segments from index `k` on, joined
   * by '.', exactly when segments 1 .. k-1 match the parts after `m` and at
   * least one segment is left over; otherwise (first segment absent, a
   * mismatch, or every segment matched within the prefix) it is None.
   * `segments` is the module path split on '.', `prefixParts` the parts of
   * the common prefix.
   */
  lemma RelModulePathCases(segments: seq<string>, prefixParts: seq<string>)
    requires |segments| > 0
    ensures match FirstIndex(prefixParts, segments[0])
      case None => Relativised(segments, prefixParts).None?
      case Some(m) =>
        var k := |prefixParts| - m;
        Relativised(segments, prefixParts) ==
          if |segments| > k && segments[1..k] == prefixParts[m + 1..] then Some(Join(segments[k..], ".")) else None
  {
    var found := FirstIndex(prefixParts, segments[0]);
    if found.Some? {
      var m := found.value;
      assert Relativised(segments, prefixParts) == Align(segments[1..], prefixParts, m + 1);
      AlignAfterFirst(segments, prefixParts, m);
    }
  }

  /** `AlignCharacterised` restated for the segments after the first one, with `m` the first segment's index. */
  lemma AlignAfterFirst(segments: seq<string>, prefixParts: seq<string>, m: nat)
    requires |segments| > 0 && m < |prefixParts|
    ensures var k := |prefixParts| - m;
      Align(segments[1..], prefixParts, m + 1) ==
        if |segments| > k && segments[1..k] == prefixParts[m + 1..] then Some(Join(segments[k..], ".")) else None
  {
    AlignCharacterised(segments[1..], prefixParts, m + 1);
    var k := |prefixParts| - m;
    if |segments| > k {
      assert segments[1..][k - 1..] == segments[k..];
      assert segments[1..][..k - 1] == segments[1..k];
    }
  }

  /** The `for`/`return` scan of `rel_module_path`, step by step. */
  method ComputeRelModulePath(commonPrefix: string, modulePath: string) returns (r: Option<string>)
    ensures r == RelModulePath(commonPrefix, modulePath)
  {
    var segments := Split(modulePath, '.');
    var prefixParts := Parts(commonPrefix);
    var found := FirstIndex(prefixParts, segments[0]);
    if found.None? {
      return None;
    }
    var m := found.value;
    var i := 0;
    while i < |segments| - 1
      invariant 0 <= i <= |segments| - 1
      invariant Relativised(segments, prefixParts) == Align(segments[1 + i..], prefixParts, m + 1 + i)
    {
      var t := m + 1 + i;
      if t >= |prefixParts| {
        return Some(Join(segments[i + 1..], "."));
      }
      if segments[i + 1] != prefixParts[t] {
        return None;
      }
      assert segments[1 + i..][1..] == segments[1 + (i + 1)..];
      i := i + 1;
    }
    return None;
  }

  /** What a handler hands back: a rewritten line, the statements to rewrite next, or nothing. */
  datatype Rewrite = Line(text: Option<string>) | Children(nodes: seq<Node>) | Nothing

  /** Reading `.split` of a missing module name (`from . import x`) raises AttributeError. */
  datatype RewriteError = ModuleNameMissing

  /** `handle_import_from`: the line importing the same names from the relativised module. */
  function HandleImportFrom(commonPrefix: string, moduleName: Option<string>, names: seq<Alias>): (r: Result<Option<string>, RewriteError>)
    ensures r.Failure? <==> moduleName.None?
    ensures r.Success? ==> (r.value.Some? <==> RelModulePath(commonPrefix, moduleName.value).Some?)
    ensures r.Success? && r.value.Some? ==>
      r.value.value == "from " + RelModulePath(commonPrefix, moduleName.value).value + " import "
        + Join(AliasNames(names), ", ")
  {
    match moduleName
    case None => Failure(ModuleNameMissing)
    case Some(m) =>
      match RelModulePath(commonPrefix, m)
      case None => Success(None)
      case Some(rel) =>
        Success(Some("from " + rel + " import " + Join(AliasNames(names), ", ")))
  }

  /**
   * `mutators_node_handlers_switch` applied to a statement: None when the
   * statement's kind has no entry.
   */
  function Mutate(commonPrefix: string, n: Node): Option<Result<Rewrite, RewriteError>> {
    match n
    case ImportFrom(moduleName, names) =>
      Some(match HandleImportFrom(commonPrefix, moduleName, names)
        case Failure(e) => Failure(e)
        case Success(line) => Success(Line(line)))
    case Import(_) => Some(Success(Nothing))
    case FunctionDef(_, body) => Some(Success(Children(body)))
    case ClassDef(_, body) => Some(Success(Children(body)))
    case Try(body, _, _, _) => Some(Success(Children(body)))
    case If(body, _) => Some(Success(Children(body)))
    case For(body, _) => Some(Success(Children(body)))
    case While(body, _) => Some(Success(Children(body)))
    case With(body) => Some(Success(Children(body)))
    case Global(_) => Some(Success(Nothing))
    case Leaf(k) => if k == Unlisted then None else Some(Success(Nothing))
  }

  /** Only a rewritten `from … import` ever produces text. */
  lemma {:induction false} OnlyImportFromWritesLines(commonPrefix: string, n: Node)
    requires Mutate(commonPrefix, n).Some? && Mutate(commonPrefix, n).value.Success?
    ensures Mutate(commonPrefix, n).value.value.Line? <==> n.ImportFrom?
    ensures n.Import? ==> Mutate(commonPrefix, n).value.value == Nothing
  {
  }

  /**
   * Definitions and control-flow statements hand back their main body
   * unchanged; the `else`, `except` and `finally` parts are not included.
   */
  lemma ContainersReturnTheirBody(commonPrefix: string, n: Node)
    requires n.FunctionDef? || n.ClassDef? || n.Try? || n.If? || n.For? || n.While? || n.With?
    ensures Mutate(commonPrefix, n) == Some(Success(Children(n.body)))
  {
  }

  /** Every statement kind of the model except the unlisted ones has an entry in the table. */
  lemma TableCoversListedKinds(commonPrefix: string, n: Node)
    ensures Mutate(commonPrefix, n).None? <==> n == Leaf(Unlisted)
  {
  }
}
