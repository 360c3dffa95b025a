/**
 * The table of syntax-tree handlers that decides which `add_package_by_name`
 * calls a statement produces and into which bodies the walk descends.  The
 * handlers only issue calls on the resolver, so a statement's effect is the
 * ordered list of module names it hands over: `Calls`.
 */
module ProcessNodeHandlers {
  import opened Wrappers
  import opened Strings
  import opened Syntax

  datatype Handler = HandleImportFrom | HandleImport | HandleFunctionDef | HandleClassDef | HandleIf | DoNothing

  /** `process_node_handlers_switch`: the handler registered for a statement's kind, if any. */
  function HandlerFor(n: Node): (h: Option<Handler>)
    ensures h == Some(HandleImportFrom) <==> n.ImportFrom?
    ensures h == Some(HandleImport) <==> n.Import?
    ensures h == Some(HandleFunctionDef) <==> n.FunctionDef?
    ensures h == Some(HandleClassDef) <==> n.ClassDef?
    ensures h == Some(HandleIf) <==> n.If?
    ensures h == Some(DoNothing) <==> (n.For? || (n.Leaf? && n.kind in [Return, Assign, AnnAssign, Call, Pass, Raise]))
  {
    match n
    case ImportFrom(_, _) => Some(HandleImportFrom)
    case Import(_) => Some(HandleImport)
    case FunctionDef(_, _) => Some(HandleFunctionDef)
    case ClassDef(_, _) => Some(HandleClassDef)
    case If(_, _) => Some(HandleIf)
    case For(_, _) => Some(DoNothing)
    case Leaf(k) =>
      if k == Return || k == Assign || k == AnnAssign || k == Call || k == Pass || k == Raise then Some(DoNothing)
      else None
    case _ => None
  }

  /**
   * The names `process_node(n, current_module)` adds, in order.  The
   * dispatcher's handling of a kind with no registered handler is not part
   * of this model; such a statement is taken to add nothing.
   */
  function Calls(n: Node, currentModule: string): seq<string>
    decreases n, 1
  {
    match HandlerFor(n)
    case None => []
    case Some(h) => Dispatch(h, n, currentModule)
  }

  function Dispatch(h: Handler, n: Node, currentModule: string): seq<string>
    requires HandlerFor(n) == Some(h)
    decreases n, 0
  {
    match h
    case HandleImportFrom =>
      var resolved := Or(n.moduleName, currentModule);
      [resolved] + QualifiedNames(resolved, n.names)
    case HandleImport => AliasNames(n.names)
    case HandleFunctionDef => FunctionBodyCalls(n.body, currentModule)
    case HandleClassDef => BodyCalls(n.body, currentModule)
    case HandleIf => BodyCalls(n.body, currentModule)
    case DoNothing => []
  }

  /** The module name a child is processed under: its own name, else the inherited one. */
  function ChildModule(child: Node, currentModule: string): string {
    Or(SingleName(child), currentModule)
  }

  /** `handle_class_def` / `handle_if`: every child of the body, once, in order. */
  function BodyCalls(body: seq<Node>, currentModule: string): seq<string>
    decreases body
  {
    if |body| == 0 then []
    else
      var c := body[|body| - 1];
      BodyCalls(body[..|body| - 1], currentModule) + Calls(c, ChildModule(c, currentModule))
  }

  /**
   * `handle_function_def`: every child once under its own or the inherited
   * name, and a child with `names` once more per item, under that item's name.
   */
  function FunctionBodyCalls(body: seq<Node>, currentModule: string): seq<string>
    decreases body
  {
    if |body| == 0 then []
    else
      var c := body[|body| - 1];
      var again := match NamesOf(c) case None => [] case Some(items) => NamedCalls(c, items, currentModule);
      FunctionBodyCalls(body[..|body| - 1], currentModule) + Calls(c, ChildModule(c, currentModule)) + again
  }

  function NamedCalls(c: Node, items: seq<Option<string>>, currentModule: string): seq<string>
    decreases c, 2, |items|
  {
    if |items| == 0 then []
    else NamedCalls(c, items[..|items| - 1], currentModule) + Calls(c, Or(items[|items| - 1], currentModule))
  }

  /**
   * Some `import` or `from … import` statement is reached by the walk from
   * `n`: `n` is one, or `n` is a function, class or `if` whose body reaches
   * one.  Other bodies (`for`, `while`, `try`, `with`, the `else` of an `if`)
   * are never entered.
   */
  predicate ReachesImport(n: Node)
    decreases n, 1
  {
    match HandlerFor(n)
    case None => false
    case Some(h) =>
      h == HandleImportFrom || h == HandleImport ||
      ((h == HandleFunctionDef || h == HandleClassDef || h == HandleIf) && BodyReachesImport(n.body))
  }

  predicate BodyReachesImport(body: seq<Node>)
    decreases body
  {
    |body| > 0 && (BodyReachesImport(body[..|body| - 1]) || ReachesImport(body[|body| - 1]))
  }

  /**
   * Only `import` and `from … import` add names themselves; every other
   * handler only forwards what its children add.  So a statement from which
   * the walk reaches no import adds nothing, under any module name.
   */
  lemma {:induction false} NoImportNoCalls(n: Node, currentModule: string)
    requires !ReachesImport(n)
    ensures Calls(n, currentModule) == []
    decreases n, 1
  {
    match HandlerFor(n)
    case None =>
    case Some(h) =>
      if h == HandleFunctionDef {
        FunctionBodyNoCalls(n.body, currentModule);
      } else if h == HandleClassDef || h == HandleIf {
        BodyNoCalls(n.body, currentModule);
      }
  }

  lemma {:induction false} BodyNoCalls(body: seq<Node>, currentModule: string)
    requires !BodyReachesImport(body)
    ensures BodyCalls(body, currentModule) == []
    decreases body
  {
    if |body| > 0 {
      var c := body[|body| - 1];
      BodyNoCalls(body[..|body| - 1], currentModule);
      NoImportNoCalls(c, ChildModule(c, currentModule));
    }
  }

  lemma {:induction false} FunctionBodyNoCalls(body: seq<Node>, currentModule: string)
    requires !BodyReachesImport(body)
    ensures FunctionBodyCalls(body, currentModule) == []
    decreases body
  {
    if |body| > 0 {
      var c := body[|body| - 1];
      FunctionBodyNoCalls(body[..|body| - 1], currentModule);
      NoImportNoCalls(c, ChildModule(c, currentModule));
      if NamesOf(c).Some? {
        NamedNoCalls(c, NamesOf(c).value, currentModule);
      }
    }
  }

  lemma {:induction false} NamedNoCalls(c: Node, items: seq<Option<string>>, currentModule: string)
    requires !ReachesImport(c)
    ensures NamedCalls(c, items, currentModule) == []
    decreases c, 2, |items|
  {
    if |items| > 0 {
      NamedNoCalls(c, items[..|items| - 1], currentModule);
      NoImportNoCalls(c, Or(items[|items| - 1], currentModule));
    }
  }

  /** `from M import a, b` hands over `M`, then `M.a`, `M.b`, in order. */
  lemma ImportFromTrace(moduleName: Option<string>, names: seq<Alias>, currentModule: string)
    ensures var r := Calls(ImportFrom(moduleName, names), currentModule);
      |r| == |names| + 1 &&
      r[0] == Or(moduleName, currentModule) &&
      forall i :: 0 <= i < |names| ==> r[i + 1] == r[0] + "." + names[i].name
  {
  }

  /** `import a, b as c` hands over `a` then `b`; the `as` names play no part. */
  lemma ImportTrace(names: seq<Alias>, currentModule: string)
    ensures var r := Calls(Import(names), currentModule);
      |r| == |names| && forall i :: 0 <= i < |names| ==> r[i] == names[i].name
  {
  }

  /** Names-carrying children are processed again once per item. */
  lemma {:induction false} NamedCallsRepeat(c: Node, items: seq<Option<string>>, currentModule: string)
    requires forall x :: Calls(c, x) == Calls(c, currentModule)
    ensures NamedCalls(c, items, currentModule) == RepeatSeq(Calls(c, currentModule), |items|)
    decreases |items|
  {
    if |items| > 0 {
      NamedCallsRepeat(c, items[..|items| - 1], currentModule);
    }
  }

  /**
   * An `import` of k names inside a function is processed k + 1 times: the
   * call list is the import's own list repeated k + 1 times.
   */
  lemma {:induction false} ImportInFunctionRepeated(fname: string, names: seq<Alias>, currentModule: string)
    ensures Calls(FunctionDef(fname, [Import(names)]), currentModule) == RepeatSeq(AliasNames(names), |names| + 1)
  {
    var c := Import(names);
    var body := [c];
    assert body[..0] == [];
    NamedCallsRepeat(c, NamesOf(c).value, currentModule);
    var once := Calls(c, currentModule);
    assert FunctionBodyCalls(body, currentModule) == once + RepeatSeq(once, |names|);
    assert RepeatSeq(once, |names| + 1) == RepeatSeq(once, |names|) + once;
    RepeatSeqCommutes(once, |names|);
  }

  /** `BodyCalls` of a concatenation is the concatenation of the two call lists. */
  lemma {:induction false} BodyCallsAppend(a: seq<Node>, b: seq<Node>, currentModule: string)
    ensures BodyCalls(a + b, currentModule) == BodyCalls(a, currentModule) + BodyCalls(b, currentModule)
    decreases |b|
  {
    if |b| > 0 {
      var c := b[|b| - 1];
      BodyCallsAppend(a, b[..|b| - 1], currentModule);
      assert (a + b)[..|a + b| - 1] == a + b[..|b| - 1];
    } else {
      assert a + b == a;
    }
  }

  /** A class body is walked child by child, each child exactly once, in order. */
  lemma {:induction false} ClassBodyEachChildOnce(name: string, c: Node, rest: seq<Node>, currentModule: string)
    ensures Calls(ClassDef(name, [c] + rest), currentModule)
         == Calls(c, ChildModule(c, currentModule)) + Calls(ClassDef(name, rest), currentModule)
  {
    BodyCallsAppend([c], rest, currentModule);
    assert [c][..0] == [];
  }

  /** `handle_if` never looks at the `else` branch. */
  lemma IfElseBranchIgnored(body: seq<Node>, orelse: seq<Node>, currentModule: string)
    ensures Calls(If(body, orelse), currentModule) == Calls(If(body, []), currentModule)
  {
  }

  /** `for` loops are registered to `do_nothing`: an import inside one is never handed over. */
  lemma ForLoopAddsNothing(body: seq<Node>, orelse: seq<Node>, currentModule: string)
    ensures Calls(For(body, orelse), currentModule) == []
  {
  }

  /** A `from m import a` with an explicit module hands over `m` and `m.a`, whatever module it sits in. */
  lemma {:induction false} SingleImportFromTrace(m: string, a: string, currentModule: string)
    requires m != ""
    ensures Calls(ImportFrom(Some(m), [Alias(a, None)]), currentModule) == [m, m + "." + a]
  {
    var n := ImportFrom(Some(m), [Alias(a, None)]);
    assert HandlerFor(n) == Some(HandleImportFrom);
    assert QualifiedNames(m, n.names) == [m + "." + a];
  }

  /**
   * The nested-function scenario `def parent(): def inner(): from P import a;
   * if ...: from L import O`.  Both imports are reached through two function
   * levels and an `if`; the first one twice, because `inner` processes a child
   * that carries `names` once more per name.
   */
  lemma {:induction false} NestedImportsReached(p: string, a: string, l: string, o: string, file: string)
    requires p != "" && l != ""
    ensures
      var inner := FunctionDef("inner", [ImportFrom(Some(p), [Alias(a, None)]), If([ImportFrom(Some(l), [Alias(o, None)])], [])]);
      Calls(FunctionDef("parent", [inner]), file) == [p, p + "." + a, p, p + "." + a, l, l + "." + o]
  {
    var first := ImportFrom(Some(p), [Alias(a, None)]);
    var second := ImportFrom(Some(l), [Alias(o, None)]);
    var ifStmt := If([second], []);
    var inner := FunctionDef("inner", [first, ifStmt]);
    SingleImportFromTrace(p, a, "inner");
    SingleImportFromTrace(p, a, a);
    SingleImportFromTrace(l, o, "inner");
    var x := Calls(first, "inner");
    assert NamesOf(first).value[0] == Some(a);
    assert NamesOf(first).value == [Some(a)];
    assert [Some(a)][..0] == [];
    assert NamedCalls(first, [Some(a)], "inner") == x;
    assert [second][..0] == [];
    assert BodyCalls([second], "inner") == Calls(second, "inner");
    var y := Calls(ifStmt, "inner");
    assert [first, ifStmt][..1] == [first];
    assert [first][..0] == [];
    assert FunctionBodyCalls([first], "inner") == x + x;
    assert FunctionBodyCalls([first, ifStmt], "inner") == x + x + y;
    assert Calls(inner, "inner") == x + x + y;
    assert [inner][..0] == [];
    assert ChildModule(inner, file) == "inner";
    assert FunctionBodyCalls([inner], file) == Calls(inner, "inner");
    assert Calls(FunctionDef("parent", [inner]), file) == x + x + y;
    assert HandlerFor(ifStmt) == Some(HandleIf);
    assert y == Dispatch(HandleIf, ifStmt, "inner") == BodyCalls([second], "inner");
    assert y == [l, l + "." + o];
    assert x + x + y == [p, p + "." + a, p, p + "." + a, l, l + "." + o];
  }
}
