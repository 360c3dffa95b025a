/**
 * The statements of Python's `ast` module that the import walkers look at.
 * Only the fields they read are kept: names, bodies and imported aliases.
 */
module Syntax {
  import opened Wrappers

  /** `ast.alias`: an imported name and its optional `as` name. */
  datatype Alias = Alias(name: string, asname: Option<string>)

  /** Statement kinds the walkers treat as leaves. */
  datatype LeafKind =
    | Return | Assign | AnnAssign | AugAssign | Call | Pass | Raise
    | Delete | Expr | Continue | Break | Assert
    | Unlisted  // any other statement kind, such as `Nonlocal`, `AsyncFor` or `Match`

  datatype Node =
    | ImportFrom(moduleName: Option<string>, names: seq<Alias>)
    | Import(names: seq<Alias>)
    | FunctionDef(name: string, body: seq<Node>)
    | ClassDef(name: string, body: seq<Node>)
    | If(body: seq<Node>, orelse: seq<Node>)
    | For(body: seq<Node>, orelse: seq<Node>)
    | While(body: seq<Node>, orelse: seq<Node>)
    | With(body: seq<Node>)
    | Try(body: seq<Node>, handlers: seq<Node>, orelse: seq<Node>, finalbody: seq<Node>)
    | Global(identifiers: seq<string>)
    | Leaf(kind: LeafKind)

  /** Python's `x or default` on an optional string: None and "" are falsy. */
  function Or(x: Option<string>, default: string): (r: string)
    ensures x.Some? && x.value != "" ==> r == x.value
    ensures x.None? || x.value == "" ==> r == default
  {
    if x.Some? && x.value != "" then x.value else default
  }

  /** `getattr(node, 'name', None)`: only definitions carry a single name. */
  function SingleName(n: Node): Option<string> {
    match n
    case FunctionDef(name, _) => Some(name)
    case ClassDef(name, _) => Some(name)
    case _ => None
  }

  /**
   * `getattr(node, 'names', None)`, each item read with `getattr(item, 'name', None)`:
   * import aliases have a name; the identifiers of `global` are plain strings and have none.
   */
  function NamesOf(n: Node): Option<seq<Option<string>>> {
    match n
    case ImportFrom(_, names) => Some(seq(|names|, i requires 0 <= i < |names| => Some(names[i].name)))
    case Import(names) => Some(seq(|names|, i requires 0 <= i < |names| => Some(names[i].name)))
    case Global(identifiers) => Some(seq(|identifiers|, _ => None))
    case _ => None
  }

  /** `f"{module}.{name_item.name}"` for every imported alias. */
  function QualifiedNames(base: string, names: seq<Alias>): (r: seq<string>)
    ensures |r| == |names| && forall i :: 0 <= i < |names| ==> r[i] == base + "." + names[i].name
  {
    seq(|names|, i requires 0 <= i < |names| => base + "." + names[i].name)
  }

  function AliasNames(names: seq<Alias>): (r: seq<string>)
    ensures |r| == |names| && forall i :: 0 <= i < |names| ==> r[i] == names[i].name
  {
    seq(|names|, i requires 0 <= i < |names| => names[i].name)
  }
}
