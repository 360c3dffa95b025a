/**
 * The resolver that finds every module a program imports and records it,
 * either as a third-party distribution (`packages`, keyed by distribution
 * name) or as a standalone file (`files`, keyed by module name plus file
 * suffix).  The interpreter's module lookup, the filesystem and the parser
 * are parameters (`Env`); interpreter recursion depth is `fuel`.
 */
module ImportsResolver {
  import opened Wrappers
  import opened Strings
  import opened PyPath
  import opened Host
  import opened Syntax

  const WindowsKey: string := "windows"
  const LinuxKey: string := "linux"
  const SitePackages: string := "site-packages"

  /** `Resolver.TARGETS_OS`. */
  predicate IsTargetOs(os: string) {
    os == WindowsKey || os == LinuxKey
  }

  /* ---------------------------------------------------------------------- */
  /* Path helpers                                                           */
  /* ---------------------------------------------------------------------- */

  /**
   * `get_distribution_name_of_package`: the component right after the first
   * "site-packages" component, provided that component is not the last one.
   * The components are those of `Path(p).parents._parts`, which is the whole
   * parts list of the path.
   */
  function DistributionNameOf(path: string): Option<string> {
    var parts := Parts(path);
    match FirstIndex(parts, SitePackages)
    case None => None
    case Some(i) => if |parts| - 1 > i + 1 then Some(parts[i + 1]) else None
  }

  /**
   * The distribution is the component right after the first "site-packages"
   * one, and there is one exactly when that component exists and is not the
   * last.
   */
  lemma DistributionNameCharacterised(path: string)
    ensures var r := DistributionNameOf(path);
      var parts := Parts(path);
      (r.None? <==> SitePackages !in parts || FirstIndex(parts, SitePackages).value + 2 >= |parts|) &&
      (r.Some? ==> exists i :: 0 <= i < |parts| - 2 && parts[i] == SitePackages && SitePackages !in parts[..i] && parts[i + 1] == r.value)
  {
  }

  /** The `enumerate` scan of `get_distribution_name_of_package`, returning at the first match. */
  method GetDistributionNameOfPackage(packageFilepath: string) returns (r: Option<string>)
    ensures r == DistributionNameOf(packageFilepath)
  {
    var parts := Parts(packageFilepath);
    var i := 0;
    while i < |parts|
      invariant 0 <= i <= |parts|
      invariant SitePackages !in parts[..i]
    {
      if parts[i] == SitePackages {
        FirstIndexAt(parts, SitePackages, i);
        return if |parts| - 1 > i + 1 then Some(parts[i + 1]) else None;
      }
      assert parts[..i + 1] == parts[..i] + [parts[i]];
      i := i + 1;
    }
    assert parts[..i] == parts;
    return None;
  }

  /** An index where `x` occurs, with no earlier occurrence, is the first index. */
  lemma FirstIndexAt(xs: seq<string>, x: string, i: nat)
    requires i < |xs| && xs[i] == x && x !in xs[..i]
    ensures FirstIndex(xs, x) == Some(i)
  {
  }

  /** The first dotted segment of a module name (`name.split(".", 1)[0]`). */
  function TopLevelName(packageName: string): string {
    Split(packageName, '.')[0]
  }

  /**
   * `get_package_relative_filepath`: the path from the first component equal
   * to the package's top-level name onwards, re-joined with `os.path.join`.
   */
  function PackageRelativeFilepath(absoluteFilepath: string, packageName: string): Option<string> {
    var parts := Parts(absoluteFilepath);
    match FirstIndex(parts, TopLevelName(packageName))
    case None => None
    case Some(i) => Some(JoinAll(parts[i..]))
  }

  /**
   * There is a relative path exactly when the package's top-level name is a
   * component; it is the path from the first such component on, so it
   * starts with that name.
   */
  lemma PackageRelativeFilepathCharacterised(absoluteFilepath: string, packageName: string)
    ensures var r := PackageRelativeFilepath(absoluteFilepath, packageName);
      var parts := Parts(absoluteFilepath);
      var head := TopLevelName(packageName);
      (r.None? <==> head !in parts) &&
      (r.Some? ==> exists i :: 0 <= i < |parts| && parts[i] == head && head !in parts[..i] && Parts(r.value) == parts[i..])
  {
    var parts := Parts(absoluteFilepath);
    var r := PackageRelativeFilepath(absoluteFilepath, packageName);
    if r.Some? {
      var i := FirstIndex(parts, TopLevelName(packageName)).value;
      var tail := parts[i..];
      assert WellFormedParts(tail) by {
        forall k | 0 <= k < |tail| ensures IsName(tail[k]) || (k == 0 && tail[k] == "/") {
          assert tail[k] == parts[i + k];
        }
      }
      PartsOfJoinAll(tail);
    }
  }

  /** The `enumerate` scan of `get_package_relative_filepath`. */
  method GetPackageRelativeFilepath(absoluteFilepath: string, packageName: string) returns (r: Option<string>)
    ensures r == PackageRelativeFilepath(absoluteFilepath, packageName)
  {
    var head := Split(packageName, '.')[0];
    var parts := Parts(absoluteFilepath);
    var i := 0;
    while i < |parts|
      invariant 0 <= i <= |parts|
      invariant head !in parts[..i]
    {
      if parts[i] == head {
        FirstIndexAt(parts, head, i);
        return Some(JoinAll(parts[i..]));
      }
      assert parts[..i + 1] == parts[..i] + [parts[i]];
      i := i + 1;
    }
    assert parts[..i] == parts;
    return None;
  }

  /* ---------------------------------------------------------------------- */
  /* Errors and the error message                                           */
  /* ---------------------------------------------------------------------- */

  /** The exceptions that escape the resolver's operations. */
  datatype Error =
    | ImportRaised(name: string)          // `import_module` raised something other than ModuleNotFoundError
    | NoOsMatchingFile(message: string)   // no compiled file for the target OS next to the host's one
    | UnknownOs(os: string)               // KeyError in `OS_TO_COMPILED_EXTENSIONS`
    | EmptyName(path: string)             // ValueError of `with_suffix` on a path with an empty name
    | FilepathDoesNotExist(path: string)
    | CannotParse(path: string)           // reading or `ast.parse` failed
    | RecursionLimitExceeded              // RecursionError: the interpreter's depth ran out
    | OsNotSupported(os: string)
    | ExclusionsMissing                   // TypeError: `x not in None`

  /** `Resolver.OS_TO_COMPILED_EXTENSIONS[os]`. */
  function CompiledExtension(os: string): (r: Result<string, Error>)
    ensures r.Success? <==> IsTargetOs(os)
    ensures os == WindowsKey ==> r == Success("pyd")
    ensures os == LinuxKey ==> r == Success("so")
  {
    if os == WindowsKey then Success("pyd")
    else if os == LinuxKey then Success("so")
    else Failure(UnknownOs(os))
  }

  /**
   * `make_no_os_matching_file_error_message`: the text names both extensions,
   * the offending path and the target OS; an OS outside the table raises KeyError.
   */
  function MakeNoOsMatchingFileErrorMessage(systemOs: string, targetOs: string, sourceFilepath: string): (r: Result<string, Error>)
    ensures r.Success? <==> IsTargetOs(systemOs) && IsTargetOs(targetOs)
    ensures r.Failure? ==> r.error == UnknownOs(if IsTargetOs(systemOs) then targetOs else systemOs)
    ensures r.Success? ==> r.value == NoOsMatchingFileMessage(CompiledExtension(systemOs).value, CompiledExtension(targetOs).value, sourceFilepath, targetOs)
  {
    match CompiledExtension(systemOs)
    case Failure(e) => Failure(e)
    case Success(source) =>
      match CompiledExtension(targetOs)
      case Failure(e) => Failure(e)
      case Success(target) => Success(NoOsMatchingFileMessage(source, target, sourceFilepath, targetOs))
  }

  function NoOsMatchingFileMessage(source: string, target: string, sourceFilepath: string, targetOs: string): string {
    MessageHead(source, target) + sourceFilepath + MessageMiddle(source, target) + targetOs + MessageTail()
  }

  function MessageHead(source: string, target: string): string {
    "No matching ." + source + " file found to replace a ." + target + " file at "
  }

  function MessageMiddle(source: string, target: string): string {
    ". Make sure that you both have a compiled ." + source + " and ." + target
    + " file with the same names and paths. Otherwise, try to compile your application on a "
  }

  function MessageTail(): string {
    " computer or virtual machine."
  }

  /**
   * The message names the host's compiled extension, the target's compiled
   * extension (each after a dot), the offending path and the target OS.
   */
  lemma MessageNamesPathAndTarget(systemOs: string, targetOs: string, sourceFilepath: string)
    requires IsTargetOs(systemOs) && IsTargetOs(targetOs)
    ensures var msg := MakeNoOsMatchingFileErrorMessage(systemOs, targetOs, sourceFilepath).value;
      Contains(msg, "." + CompiledExtension(systemOs).value) && Contains(msg, "." + CompiledExtension(targetOs).value)
      && Contains(msg, sourceFilepath) && Contains(msg, targetOs)
  {
    var source := CompiledExtension(systemOs).value;
    var target := CompiledExtension(targetOs).value;
    MessageHoldsItsArguments(source, target, sourceFilepath, targetOs);
    MessageHoldsExtensions(source, target, sourceFilepath, targetOs);
  }

  lemma MessageHoldsItsArguments(source: string, target: string, sourceFilepath: string, targetOs: string)
    ensures Contains(NoOsMatchingFileMessage(source, target, sourceFilepath, targetOs), sourceFilepath)
    ensures Contains(NoOsMatchingFileMessage(source, target, sourceFilepath, targetOs), targetOs)
  {
    ContainsBoth(MessageHead(source, target), sourceFilepath, MessageMiddle(source, target), targetOs, MessageTail());
  }

  lemma MessageHoldsExtensions(source: string, target: string, sourceFilepath: string, targetOs: string)
    ensures Contains(NoOsMatchingFileMessage(source, target, sourceFilepath, targetOs), "." + source)
    ensures Contains(NoOsMatchingFileMessage(source, target, sourceFilepath, targetOs), "." + target)
  {
    var rest := sourceFilepath + MessageMiddle(source, target) + targetOs + MessageTail();
    assert "No matching ." == "No matching " + ".";
    assert " file found to replace a ." == " file found to replace a " + ".";
    GroupExtensions("No matching ", source, " file found to replace a ", target, " file at ",
      sourceFilepath, MessageMiddle(source, target), targetOs, MessageTail());
    ContainsBoth("No matching ", "." + source, " file found to replace a ", "." + target, " file at " + rest);
  }

  lemma GroupExtensions(p: string, s: string, q: string, t: string, u: string, a: string, b: string, c: string, d: string)
    ensures (p + "." + s + (q + ".") + t + u) + a + b + c + d == p + ("." + s) + q + ("." + t) + (u + (a + b + c + d))
  {
  }

  /* ---------------------------------------------------------------------- */
  /* The environment and the resolver's state                               */
  /* ---------------------------------------------------------------------- */

  /** What `importlib.import_module(name)` does: not found, raises otherwise, or gives a module with an optional `__file__`. */
  datatype ImportOutcome = ModuleNotFound | ImportFailed | Imported(file: Option<string>)

  /** Reading and parsing a source file: its top-level statements, or a failure. */
  datatype Source = Parsed(nodes: seq<Node>) | Unparsable

  /**
   * Everything outside the resolver: module lookup, the standard-library
   * folder (`Path(os.__file__).parent`), the filesystem and the parser.
   */
  datatype Env = Env(importModule: string -> ImportOutcome, stdlibFolder: string, fs: FileSystem, source: string -> Source)

  /** The OS the resolver runs on (`platform.system().lower()`) and the one it builds for. */
  datatype Platform = Platform(systemOs: string, targetOs: string)

  datatype PackageItem = PackageItem(absoluteFilepath: string, relativeFilepath: Option<string>)

  datatype State = State(files: map<string, PackageItem>, packages: map<string, PackageItem>)

  /**
   * How many more nested `gen` calls the interpreter's stack allows; the
   * recursion limit is hit when a module is about to be processed with none
   * left.
   */
  datatype Depth = Exhausted | Deeper(rest: Depth)

  /** The state after an operation and the exception it raised, if any. */
  datatype Outcome = Outcome(state: State, raised: Option<Error>)

  /**
   * The target OS chosen by `Resolver.__init__`: the given one, else the
   * host's; anything other than windows or linux raises.
   */
  function ChooseTargetOs(systemOs: string, targetOs: Option<string>): (r: Result<string, Error>)
    ensures r.Success? <==> IsTargetOs(targetOs.GetOr(systemOs))
    ensures r.Success? ==> r.value == targetOs.GetOr(systemOs)
    ensures r.Failure? ==> r.error == OsNotSupported(targetOs.GetOr(systemOs))
  {
    var chosen := match targetOs case Some(t) => t case None => systemOs;
    if chosen in [WindowsKey, LinuxKey] then Success(chosen) else Failure(OsNotSupported(chosen))
  }

  /** The state right after construction: only the root file, under `__root__`. */
  function InitialState(rootFilepath: string): State {
    State(map["__root__" := PackageItem(rootFilepath, Some(Name(rootFilepath)))], map[])
  }

  /* ---------------------------------------------------------------------- */
  /* Compiled-extension substitution                                        */
  /* ---------------------------------------------------------------------- */

  /**
   * `path == '.so'` compares a `Path` with a `str`: both sides answer
   * NotImplemented, so Python falls back to identity and the result is False.
   */
  predicate PathEqualsText(path: string, text: string) {
    false
  }

  /** `path.with_suffix(suffix)`, then the `is_file` check and its exception. */
  function SwapCompiledSuffix(env: Env, platform: Platform, path: string, suffix: string): Result<string, Error> {
    if Name(path) == "" then Failure(EmptyName(path))
    else
      var swapped := WithSuffix(path, suffix);
      if env.fs.isFile(swapped) then Success(swapped)
      else
        match MakeNoOsMatchingFileErrorMessage(platform.systemOs, platform.targetOs, swapped)
        case Failure(e) => Failure(e)
        case Success(message) => Failure(NoOsMatchingFile(message))
  }

  /**
   * The compiled-extension swap of `add_package_by_name`: on a windows host
   * building for linux a `.pyd` is replaced by the `.so` next to it.  The
   * branch for a linux host tests `PathEqualsText`, which never holds.
   */
  function Substitute(env: Env, platform: Platform, file: string): Result<string, Error> {
    if platform.systemOs == WindowsKey && Suffix(file) == ".pyd" then
      if platform.targetOs == LinuxKey then SwapCompiledSuffix(env, platform, file, ".so") else Success(file)
    else if platform.systemOs == LinuxKey && PathEqualsText(file, ".so") then
      if platform.targetOs == WindowsKey then SwapCompiledSuffix(env, platform, file, ".pyd") else Success(file)
    else Success(file)
  }

  /**
   * On a windows host building for linux, a `.pyd` module is taken as the
   * `.so` file named by `PydSwapPath` when that file exists; otherwise the
   * no-matching-file exception is raised.
   */
  lemma WindowsToLinuxSwapsPydForSo(env: Env, file: string)
    requires Suffix(file) == ".pyd"
    ensures Name(file) != "" &&
      Substitute(env, Platform(WindowsKey, LinuxKey), file) ==
        if env.fs.isFile(WithSuffix(file, ".so")) then Success(WithSuffix(file, ".so"))
        else Failure(NoOsMatchingFile(MakeNoOsMatchingFileErrorMessage(WindowsKey, LinuxKey, WithSuffix(file, ".so")).value))
  {
    PydHasStem(file);
  }

  /** The `.so` looked for has the `.pyd`'s stem and lies in the same directory. */
  lemma PydSwapPath(file: string)
    requires Suffix(file) == ".pyd"
    ensures Name(file) != "" && Suffix(WithSuffix(file, ".so")) == ".so" && Stem(WithSuffix(file, ".so")) == Stem(file)
    ensures |Parts(WithSuffix(file, ".so"))| == |Parts(file)|
    ensures Parts(WithSuffix(file, ".so"))[..|Parts(file)| - 1] == Parts(file)[..|Parts(file)| - 1]
  {
    PydHasStem(file);
    assert IsSuffix(".so");
    WithSuffixReplacesSuffix(file, ".so");
  }

  lemma PydHasStem(file: string)
    requires Suffix(file) == ".pyd"
    ensures Name(file) != "" && Stem(file) != ""
  {
    var name := Name(file);
    var i := LastIndexOf(name, '.');
    assert 0 < i;
    assert |StemOf(name)| == i;
  }

  /** On a linux host the located file is always kept as it is. */
  lemma LinuxHostNeverSubstitutes(env: Env, targetOs: string, file: string)
    ensures Substitute(env, Platform(LinuxKey, targetOs), file) == Success(file)
  {
  }

  /* ---------------------------------------------------------------------- */
  /* The names `process_node` adds                                          */
  /* ---------------------------------------------------------------------- */

  /**
   * The names `Resolver.process_node(n, current_module)` hands to
   * `add_package_by_name`, in order.  A function body is searched only for
   * direct children that carry `names`; each is processed once per named item,
   * under that item's name.  No other statement is looked into.
   */
  function ProcessNodeCalls(n: Node, currentModule: string): seq<string>
    decreases n, 0
  {
    match n
    case ImportFrom(moduleName, names) =>
      var resolved := Or(moduleName, currentModule);
      [resolved] + QualifiedNames(resolved, names)
    case Import(names) => AliasNames(names)
    case FunctionDef(_, body) => FunctionDefCalls(body)
    case _ => []
  }

  function FunctionDefCalls(body: seq<Node>): seq<string>
    decreases body
  {
    if |body| == 0 then []
    else FunctionDefCalls(body[..|body| - 1]) + ChildCalls(body[|body| - 1])
  }

  function ChildCalls(child: Node): seq<string>
    decreases child, 3
  {
    match NamesOf(child)
    case None => []
    case Some(items) => ItemCalls(child, items)
  }

  function ItemCalls(child: Node, items: seq<Option<string>>): seq<string>
    decreases child, 2, |items|
  {
    if |items| == 0 then []
    else ItemCalls(child, items[..|items| - 1]) + ItemCall(child, items[|items| - 1])
  }

  /** One named item of a child: the child processed under that name; an item without a name adds nothing. */
  function ItemCall(child: Node, item: Option<string>): seq<string>
    decreases child, 1
  {
    match item
    case None => []
    case Some(name) => ProcessNodeCalls(child, name)
  }

  /** The names `gen` hands over for the top-level statements of a module. */
  function ModuleCalls(nodes: seq<Node>, currentModule: string): seq<string>
    decreases |nodes|
  {
    if |nodes| == 0 then []
    else ModuleCalls(nodes[..|nodes| - 1], currentModule) + ProcessNodeCalls(nodes[|nodes| - 1], currentModule)
  }

  /** An import inside a function is processed once per imported name. */
  lemma {:induction false} ImportInFunctionOncePerName(fname: string, names: seq<Alias>, currentModule: string)
    ensures ProcessNodeCalls(FunctionDef(fname, [Import(names)]), currentModule) == RepeatSeq(AliasNames(names), |names|)
  {
    var c := Import(names);
    assert [c][..0] == [];
    var items := NamesOf(c).value;
    assert FunctionDefCalls([c]) == ChildCalls(c) == ItemCalls(c, items);
    ImportItemCallsRepeat(names, items);
  }

  lemma {:induction false} ImportItemCallsRepeat(names: seq<Alias>, items: seq<Option<string>>)
    requires forall k :: 0 <= k < |items| ==> items[k].Some?
    ensures ItemCalls(Import(names), items) == RepeatSeq(AliasNames(names), |items|)
    decreases |items|
  {
    if |items| > 0 {
      ImportItemCallsRepeat(names, items[..|items| - 1]);
      assert ItemCall(Import(names), items[|items| - 1]) == AliasNames(names);
    }
  }

  /**
   * The resolver's own walk does not look into nested definitions or `if`
   * statements inside a function: imports there are never reached.
   */
  lemma {:induction false} NestedStatementsNotReached(fname: string, inner: Node, currentModule: string)
    requires inner.FunctionDef? || inner.ClassDef? || inner.If? || inner.For? || inner.While? || inner.With? || inner.Try?
    ensures ProcessNodeCalls(FunctionDef(fname, [inner]), currentModule) == []
  {
    assert [inner][..0] == [];
    assert NamesOf(inner).None?;
    assert FunctionDefCalls([inner]) == FunctionDefCalls([]) + ChildCalls(inner);
  }

  /** `ModuleCalls` splits over a split list of statements. */
  lemma {:induction false} ModuleCallsAppend(a: seq<Node>, b: seq<Node>, currentModule: string)
    ensures ModuleCalls(a + b, currentModule) == ModuleCalls(a, currentModule) + ModuleCalls(b, currentModule)
    decreases |b|
  {
    if |b| == 0 {
      assert a + b == a;
    } else {
      var init := b[..|b| - 1];
      var x := b[|b| - 1];
      var ab := a + b;
      assert ab[..|ab| - 1] == a + init && ab[|ab| - 1] == x;
      ModuleCallsAppend(a, init, currentModule);
      assert ModuleCalls(ab, currentModule) == ModuleCalls(a + init, currentModule) + ProcessNodeCalls(x, currentModule);
      assert ModuleCalls(b, currentModule) == ModuleCalls(init, currentModule) + ProcessNodeCalls(x, currentModule);
    }
  }


  lemma {:induction false} FunctionDefCallsAppend(a: seq<Node>, b: seq<Node>)
    ensures FunctionDefCalls(a + b) == FunctionDefCalls(a) + FunctionDefCalls(b)
    decreases |b|
  {
    if |b| == 0 {
      assert a + b == a;
    } else {
      var init := b[..|b| - 1];
      var x := b[|b| - 1];
      var ab := a + b;
      assert ab[..|ab| - 1] == a + init && ab[|ab| - 1] == x;
      FunctionDefCallsAppend(a, init);
      assert FunctionDefCalls(ab) == FunctionDefCalls(a + init) + ChildCalls(x);
      assert FunctionDefCalls(b) == FunctionDefCalls(init) + ChildCalls(x);
    }
  }


  lemma {:induction false} ItemCallsAppend(child: Node, a: seq<Option<string>>, b: seq<Option<string>>)
    ensures ItemCalls(child, a + b) == ItemCalls(child, a) + ItemCalls(child, b)
    decreases |b|
  {
    if |b| == 0 {
      assert a + b == a;
    } else {
      var init := b[..|b| - 1];
      var x := b[|b| - 1];
      var ab := a + b;
      assert ab[..|ab| - 1] == a + init && ab[|ab| - 1] == x;
      ItemCallsAppend(child, a, init);
      assert ItemCalls(child, ab) == ItemCalls(child, a + init) + ItemCall(child, x);
      assert ItemCalls(child, b) == ItemCalls(child, init) + ItemCall(child, x);
    }
  }


  /* ---------------------------------------------------------------------- */
  /* add_package_by_name, gen and their sequencing                          */
  /* ---------------------------------------------------------------------- */

  /**
   * `add_package_by_name(name)` from state `st`: stdlib modules, modules
   * without `__file__` and modules that are not found change nothing; a
   * distribution is recorded and generated only the first time; a standalone
   * file is recorded (again) under `name + suffix` and generated every time.
   * `fuel` is the interpreter depth left: a module's statements are only
   * processed while some is left.
   */
  function Add(env: Env, platform: Platform, st: State, name: string, fuel: Depth): Outcome
    decreases fuel, 2
  {
    match env.importModule(name)
    case ModuleNotFound => Outcome(st, None)
    case ImportFailed => Outcome(st, Some(ImportRaised(name)))
    case Imported(file) =>
      if file.None? || Contains(file.value, env.stdlibFolder) then Outcome(st, None)
      else
        match Substitute(env, platform, file.value)
        case Failure(e) => Outcome(st, Some(e))
        case Success(path) => Record(env, platform, st, name, path, fuel)
  }

  /**
   * The entry `add_package_by_name` writes for a located file: under its
   * distribution in `packages` when it lies in site-packages, else under
   * `name + suffix` in `files`.
   */
  function Recorded(st: State, name: string, path: string): (r: State)
    ensures DistributionNameOf(path).Some? ==>
      r.files == st.files && r.packages == st.packages[DistributionNameOf(path).value := PackageItem(path, PackageRelativeFilepath(path, name))]
    ensures DistributionNameOf(path).None? ==>
      r.packages == st.packages && r.files == st.files[name + Suffix(path) := PackageItem(path, PackageRelativeFilepath(path, name))]
  {
    var item := PackageItem(path, PackageRelativeFilepath(path, name));
    match DistributionNameOf(path)
    case Some(distribution) => st.(packages := st.packages[distribution := item])
    case None => st.(files := st.files[name + Suffix(path) := item])
  }

  /** The located file belongs to a distribution that is already recorded. */
  predicate AlreadyRecorded(st: State, path: string) {
    DistributionNameOf(path).Some? && DistributionNameOf(path).value in st.packages
  }

  /** The part of `add_package_by_name` after the module's file is known. */
  function Record(env: Env, platform: Platform, st: State, name: string, path: string, fuel: Depth): Outcome
    decreases fuel, 1
  {
    if AlreadyRecorded(st, path) then Outcome(st, None)
    else Gen(env, platform, Recorded(st, name, path), path, Some(name), fuel)
  }

  /** `add_package_by_name` for each name in turn, stopping at the first exception. */
  function AddAll(env: Env, platform: Platform, st: State, names: seq<string>, fuel: Depth): Outcome
    decreases fuel, 3, |names|
  {
    if |names| == 0 then Outcome(st, None)
    else
      var o := Add(env, platform, st, names[0], fuel);
      if o.raised.Some? then o else AddAll(env, platform, o.state, names[1..], fuel)
  }

  /**
   * `gen(filepath, base_package_name)`: a missing path raises; a `.py` file is
   * parsed and its top-level statements processed with the path as current
   * module, one level deeper (with no depth left the interpreter's recursion
   * limit is hit); any other file is recorded under `(base or stem) + suffix`.
   */
  function Gen(env: Env, platform: Platform, st: State, filepath: string, basePackageName: Option<string>, fuel: Depth): Outcome
    decreases fuel, 0
  {
    var path := Normalised(filepath);
    if !env.fs.pathExists(path) then Outcome(st, Some(FilepathDoesNotExist(path)))
    else if Suffix(path) == ".py" then
      match env.source(path)
      case Unparsable => Outcome(st, Some(CannotParse(path)))
      case Parsed(nodes) =>
        match fuel
        case Exhausted => Outcome(st, Some(RecursionLimitExceeded))
        case Deeper(rest) => AddAll(env, platform, st, ModuleCalls(nodes, path), rest)
    else
      var key := Or(basePackageName, Stem(path));
      Outcome(st.(files := st.files[key + Suffix(path) := PackageItem(path, PackageRelativeFilepath(path, key))]), None)
  }

  lemma {:induction false} AddAllSingle(env: Env, platform: Platform, st: State, name: string, fuel: Depth)
    ensures AddAll(env, platform, st, [name], fuel) == Add(env, platform, st, name, fuel)
  {
    assert [name][1..] == [];
  }

  /** Adding `xs + ys` is adding `xs`, then `ys` unless `xs` raised. */
  lemma {:induction false} AddAllAppend(env: Env, platform: Platform, st: State, xs: seq<string>, ys: seq<string>, fuel: Depth)
    ensures var o := AddAll(env, platform, st, xs, fuel);
      AddAll(env, platform, st, xs + ys, fuel) == if o.raised.Some? then o else AddAll(env, platform, o.state, ys, fuel)
    decreases |xs|
  {
    if |xs| == 0 {
      assert xs + ys == ys;
    } else {
      var o := Add(env, platform, st, xs[0], fuel);
      assert (xs + ys)[0] == xs[0];
      assert (xs + ys)[1..] == xs[1..] + ys;
      if o.raised.None? {
        AddAllAppend(env, platform, o.state, xs[1..], ys, fuel);
      }
    }
  }

  /* ---------------------------------------------------------------------- */
  /* Properties                                                             */
  /* ---------------------------------------------------------------------- */

  /** Recorded distributions are never removed or overwritten. */
  predicate KeepsPackages(before: State, after: State) {
    forall d :: d in before.packages ==> d in after.packages && after.packages[d] == before.packages[d]
  }

  /** `after` is `before` with exactly the file id `id` set to an item for `path`, and no other change. */
  predicate AddsOneFile(before: State, after: State, id: string, path: string) {
    after.packages == before.packages &&
    after.files.Keys == before.files.Keys + {id} && after.files[id].absoluteFilepath == path &&
    forall k :: k in before.files && k != id ==> after.files[k] == before.files[k]
  }

  lemma {:induction false} AddKeepsPackages(env: Env, platform: Platform, st: State, name: string, fuel: Depth)
    ensures KeepsPackages(st, Add(env, platform, st, name, fuel).state)
    decreases fuel, 2
  {
    var o := env.importModule(name);
    if o.Imported? && o.file.Some? && !Contains(o.file.value, env.stdlibFolder) {
      var s := Substitute(env, platform, o.file.value);
      if s.Success? {
        RecordKeepsPackages(env, platform, st, name, s.value, fuel);
        AddThenRecord(env, platform, st, name, o.file.value, s.value, fuel);
      }
    }
  }

  /** A located non-stdlib module whose file survives substitution is recorded. */
  lemma AddThenRecord(env: Env, platform: Platform, st: State, name: string, file: string, path: string, fuel: Depth)
    requires env.importModule(name) == Imported(Some(file)) && !Contains(file, env.stdlibFolder)
    requires Substitute(env, platform, file) == Success(path)
    ensures Add(env, platform, st, name, fuel) == Record(env, platform, st, name, path, fuel)
  {
  }

  lemma AddRaisesSubstituteError(env: Env, platform: Platform, st: State, name: string, file: string, fuel: Depth)
    requires env.importModule(name) == Imported(Some(file)) && !Contains(file, env.stdlibFolder)
    requires Substitute(env, platform, file).Failure?
    ensures Add(env, platform, st, name, fuel) == Outcome(st, Some(Substitute(env, platform, file).error))
  {
  }

  lemma {:induction false} RecordKeepsPackages(env: Env, platform: Platform, st: State, name: string, path: string, fuel: Depth)
    ensures KeepsPackages(st, Record(env, platform, st, name, path, fuel).state)
    decreases fuel, 1
  {
    if !AlreadyRecorded(st, path) {
      var next := Recorded(st, name, path);
      assert KeepsPackages(st, next);
      GenKeepsPackages(env, platform, next, path, Some(name), fuel);
      KeepsPackagesTransitive(st, next, Gen(env, platform, next, path, Some(name), fuel).state);
    }
  }

  lemma KeepsPackagesTransitive(a: State, b: State, c: State)
    requires KeepsPackages(a, b) && KeepsPackages(b, c)
    ensures KeepsPackages(a, c)
  {
  }

  lemma {:induction false} AddAllKeepsPackages(env: Env, platform: Platform, st: State, names: seq<string>, fuel: Depth)
    ensures KeepsPackages(st, AddAll(env, platform, st, names, fuel).state)
    decreases fuel, 3, |names|
  {
    if |names| > 0 {
      AddKeepsPackages(env, platform, st, names[0], fuel);
      var o := Add(env, platform, st, names[0], fuel);
      if o.raised.None? {
        AddAllKeepsPackages(env, platform, o.state, names[1..], fuel);
      }
    }
  }

  lemma {:induction false} GenKeepsPackages(env: Env, platform: Platform, st: State, filepath: string, basePackageName: Option<string>, fuel: Depth)
    ensures KeepsPackages(st, Gen(env, platform, st, filepath, basePackageName, fuel).state)
    decreases fuel, 0
  {
    var path := Normalised(filepath);
    if env.fs.pathExists(path) && Suffix(path) == ".py" && env.source(path).Parsed? && fuel.Deeper? {
      AddAllKeepsPackages(env, platform, st, ModuleCalls(env.source(path).nodes, path), fuel.rest);
    }
  }

  /**
   * A distribution already recorded is not recorded again and not generated
   * again: the call changes nothing.
   */
  lemma KnownDistributionChangesNothing(env: Env, platform: Platform, st: State, name: string, fuel: Depth, file: string)
    requires env.importModule(name) == Imported(Some(file)) && !Contains(file, env.stdlibFolder)
    requires Substitute(env, platform, file).Success?
    requires var path := Substitute(env, platform, file).value;
      DistributionNameOf(path).Some? && DistributionNameOf(path).value in st.packages
    ensures Add(env, platform, st, name, fuel) == Outcome(st, None)
  {
  }

  /**
   * Module lookups that find nothing, find a module without `__file__`, or
   * find a standard-library module leave both dictionaries as they were.
   */
  lemma NothingFoundChangesNothing(env: Env, platform: Platform, st: State, name: string, fuel: Depth)
    requires env.importModule(name) == ModuleNotFound || env.importModule(name) == Imported(None)
      || (env.importModule(name).Imported? && env.importModule(name).file.Some?
          && Contains(env.importModule(name).file.value, env.stdlibFolder))
    ensures Add(env, platform, st, name, fuel) == Outcome(st, None)
  {
  }

  /**
   * A missing `.so` next to a `.pyd` (windows host, linux target) is raised
   * out of `add_package_by_name`, not swallowed, and nothing is recorded.
   */
  lemma {:induction false} MissingCompiledFileEscapes(env: Env, st: State, name: string, fuel: Depth, file: string)
    requires env.importModule(name) == Imported(Some(file)) && !Contains(file, env.stdlibFolder)
    requires Suffix(file) == ".pyd" && !env.fs.isFile(WithSuffix(file, ".so"))
    ensures var o := Add(env, Platform(WindowsKey, LinuxKey), st, name, fuel);
      o.state == st && o.raised.Some? && o.raised.value.NoOsMatchingFile?
  {
    var platform := Platform(WindowsKey, LinuxKey);
    WindowsToLinuxSwapsPydForSo(env, file);
    assert Substitute(env, platform, file).Failure? && Substitute(env, platform, file).error.NoOsMatchingFile?;
    AddRaisesSubstituteError(env, platform, st, name, file, fuel);
  }

  /**
   * A compiled module found outside any site-packages folder is recorded
   * under its module name followed by its suffix, pointing at the normalised
   * path (the `gen` call records the same id once more).
   */
  lemma {:induction false} StandaloneCompiledModuleRecorded(env: Env, platform: Platform, st: State, name: string, fuel: Depth, file: string)
    requires env.importModule(name) == Imported(Some(file)) && !Contains(file, env.stdlibFolder)
    requires Substitute(env, platform, file) == Success(file)
    requires DistributionNameOf(file).None? && Suffix(file) != ".py" && env.fs.pathExists(Normalised(file))
    requires name != ""
    ensures var o := Add(env, platform, st, name, fuel);
      o.raised.None? && name + Suffix(file) in o.state.files
      && o.state.files[name + Suffix(file)].absoluteFilepath == Normalised(file)
      && o.state.packages == st.packages
  {
    NormalisedKeepsName(file);
    AddThenRecord(env, platform, st, name, file, file, fuel);
    var next := Recorded(st, name, file);
    assert Record(env, platform, st, name, file, fuel) == Gen(env, platform, next, file, Some(name), fuel);
    assert Or(Some(name), Stem(Normalised(file))) + Suffix(Normalised(file)) == name + Suffix(file);
  }

  /**
   * Files have no visited check: a standalone module that imports itself is
   * generated again and again until the interpreter's depth runs out, for any
   * depth.
   */
  lemma {:induction false} SelfImportExhaustsRecursion(env: Env, platform: Platform, st: State, name: string, fuel: Depth, file: string)
    requires env.importModule(name) == Imported(Some(file)) && !Contains(file, env.stdlibFolder)
    requires Substitute(env, platform, file) == Success(file) && DistributionNameOf(file).None?
    requires Suffix(file) == ".py" && env.fs.pathExists(Normalised(file))
    requires env.source(Normalised(file)) == Parsed([Import([Alias(name, None)])])
    ensures Add(env, platform, st, name, fuel).raised == Some(RecursionLimitExceeded)
    decreases fuel
  {
    NormalisedKeepsName(file);
    AddThenRecord(env, platform, st, name, file, file, fuel);
    var next := Recorded(st, name, file);
    var path := Normalised(file);
    assert Record(env, platform, st, name, file, fuel) == Gen(env, platform, next, file, Some(name), fuel);
    if fuel.Deeper? {
      var nodes := [Import([Alias(name, None)])];
      SingleImportCalls(name, path);
      GenProcessesModule(env, platform, next, file, Some(name), fuel, nodes);
      assert Gen(env, platform, next, file, Some(name), fuel) == AddAll(env, platform, next, [name], fuel.rest);
      SelfImportExhaustsRecursion(env, platform, next, name, fuel.rest, file);
      AddAllSingle(env, platform, next, name, fuel.rest);
    }
  }

  /** A module made of one `import name` hands over `name` once. */
  lemma SingleImportCalls(name: string, path: string)
    ensures ModuleCalls([Import([Alias(name, None)])], path) == [name]
  {
    var nodes := [Import([Alias(name, None)])];
    assert nodes[..0] == [];
    assert ProcessNodeCalls(nodes[0], path) == [name];
  }

  /** `gen` on an existing, parsable `.py` file processes its statements one level deeper. */
  lemma GenProcessesModule(env: Env, platform: Platform, st: State, filepath: string, basePackageName: Option<string>, fuel: Depth, nodes: seq<Node>)
    requires env.fs.pathExists(Normalised(filepath)) && Suffix(Normalised(filepath)) == ".py"
    requires env.source(Normalised(filepath)) == Parsed(nodes) && fuel.Deeper?
    ensures Gen(env, platform, st, filepath, basePackageName, fuel) == AddAll(env, platform, st, ModuleCalls(nodes, Normalised(filepath)), fuel.rest)
  {
  }

  /** `gen` on a path that does not exist raises and changes nothing. */
  lemma GenOnMissingPath(env: Env, platform: Platform, st: State, filepath: string, basePackageName: Option<string>, fuel: Depth)
    requires !env.fs.pathExists(Normalised(filepath))
    ensures Gen(env, platform, st, filepath, basePackageName, fuel) == Outcome(st, Some(FilepathDoesNotExist(Normalised(filepath))))
  {
  }

  /**
   * `gen` on an existing non-Python file records exactly one file id,
   * `(base or stem) + suffix`, leaves the distributions alone and raises nothing.
   */
  lemma GenOnNonPythonFile(env: Env, platform: Platform, st: State, filepath: string, basePackageName: Option<string>, fuel: Depth)
    requires env.fs.pathExists(Normalised(filepath)) && Suffix(Normalised(filepath)) != ".py"
    ensures var o := Gen(env, platform, st, filepath, basePackageName, fuel);
      var path := Normalised(filepath);
      o.raised.None? && AddsOneFile(st, o.state, Or(basePackageName, Stem(path)) + Suffix(path), path)
  {
    var path := Normalised(filepath);
    var key := Or(basePackageName, Stem(path));
    GenNonPythonStep(env, platform, st, filepath, basePackageName, fuel);
    SettingOneFile(st, key + Suffix(path), PackageItem(path, PackageRelativeFilepath(path, key)));
  }

  lemma SettingOneFile(st: State, id: string, item: PackageItem)
    ensures AddsOneFile(st, st.(files := st.files[id := item]), id, item.absoluteFilepath)
  {
  }

  lemma GenNonPythonStep(env: Env, platform: Platform, st: State, filepath: string, basePackageName: Option<string>, fuel: Depth)
    requires env.fs.pathExists(Normalised(filepath)) && Suffix(Normalised(filepath)) != ".py"
    ensures var path := Normalised(filepath);
      var key := Or(basePackageName, Stem(path));
      Gen(env, platform, st, filepath, basePackageName, fuel)
      == Outcome(st.(files := st.files[key + Suffix(path) := PackageItem(path, PackageRelativeFilepath(path, key))]), None)
  {
  }

  /** Adding one more name after a prefix that raised nothing is one more `Add`. */
  lemma AddAllStep(env: Env, platform: Platform, st: State, xs: seq<string>, x: string, fuel: Depth)
    requires AddAll(env, platform, st, xs, fuel).raised.None?
    ensures AddAll(env, platform, st, xs + [x], fuel) == Add(env, platform, AddAll(env, platform, st, xs, fuel).state, x, fuel)
  {
    AddAllAppend(env, platform, st, xs, [x], fuel);
    AddAllSingle(env, platform, AddAll(env, platform, st, xs, fuel).state, x, fuel);
  }

  /** Once a prefix raised, the names after it are never added. */
  lemma AddAllStops(env: Env, platform: Platform, st: State, xs: seq<string>, ys: seq<string>, fuel: Depth)
    requires AddAll(env, platform, st, xs, fuel).raised.Some?
    ensures AddAll(env, platform, st, xs + ys, fuel) == AddAll(env, platform, st, xs, fuel)
  {
    AddAllAppend(env, platform, st, xs, ys, fuel);
  }

  /** Following a prefix by a whole group of names. */
  lemma AddAllThen(env: Env, platform: Platform, st: State, xs: seq<string>, ys: seq<string>, fuel: Depth)
    requires AddAll(env, platform, st, xs, fuel).raised.None?
    ensures AddAll(env, platform, st, xs + ys, fuel) == AddAll(env, platform, AddAll(env, platform, st, xs, fuel).state, ys, fuel)
  {
    AddAllAppend(env, platform, st, xs, ys, fuel);
  }

  /* ---------------------------------------------------------------------- */
  /* import_folder                                                          */
  /* ---------------------------------------------------------------------- */

  /**
   * `dirs[:] = [d for d in dirs if Path(d).name not in excluded]`: the
   * sub-directories the walk descends into, in their listed order.  With no
   * exclusion list the first test raises TypeError, so only an empty listing
   * gets through.
   */
  function KeptSubdirs(subdirs: seq<Dir>, excluded: Option<seq<string>>): (r: Result<seq<Dir>, Error>) {
    if |subdirs| == 0 then Success([])
    else if excluded.None? then Failure(ExclusionsMissing)
    else Success(Filter(subdirs, (d: Dir) => Name(d.name) !in excluded.value))
  }

  /** A folder is kept exactly when its name is not excluded; a missing exclusion list fails any non-empty listing. */
  lemma KeptSubdirsCharacterised(subdirs: seq<Dir>, excluded: Option<seq<string>>)
    ensures KeptSubdirs(subdirs, excluded).Failure? <==> excluded.None? && |subdirs| > 0
    ensures KeptSubdirs(subdirs, excluded).Failure? ==> KeptSubdirs(subdirs, excluded).error == ExclusionsMissing
    ensures KeptSubdirs(subdirs, excluded).Success? ==>
      forall d :: d in KeptSubdirs(subdirs, excluded).value <==> d in subdirs && Name(d.name) !in excluded.GetOr([])
  {
    if |subdirs| > 0 && excluded.Some? {
      FilterCharacterised(subdirs, (d: Dir) => Name(d.name) !in excluded.value);
    }
  }

  /** Every kept folder is one of the listed ones. */
  lemma {:induction false} KeptSubdirsAreSubdirs(subdirs: seq<Dir>, excluded: Option<seq<string>>)
    requires KeptSubdirs(subdirs, excluded).Success?
    ensures forall d :: d in KeptSubdirs(subdirs, excluded).value ==> d in subdirs
  {
    KeptSubdirsCharacterised(subdirs, excluded);
  }

  /**
   * `relative_root_dirpath`: the folder's stem joined with what is left of the
   * walked directory once the folder path is cut out and '\' then '/' are stripped.
   */
  function RelativeRoot(folderpath: string, root: string): string {
    PathJoin(Stem(folderpath), Strip(Strip(Replace(root, folderpath, ""), '\\'), '/'))
  }

  /** `module_key`: backslashes of the relative root become dots, then ".stem" of the file. */
  function ModuleKey(relativeRoot: string, filename: string): string {
    Replace(relativeRoot, "\\", ".") + "." + Stem(filename)
  }

  /** `file_id`: the module key followed by the file's suffix. */
  function FileId(relativeRoot: string, filename: string): string {
    ModuleKey(relativeRoot, filename) + Suffix(filename)
  }

  /** The `PackageItem` recorded for a file found in the walked directory `root`. */
  function FolderFileItem(root: string, relativeRoot: string, filename: string): PackageItem {
    var modulePath := PathJoin(root, Normalised(filename));
    PackageItem(modulePath, PackageRelativeFilepath(modulePath, ModuleKey(relativeRoot, filename)))
  }

  /** Stores `item(x)` under `id(x)` for every `x` of `xs` that `keep` accepts, in order. */
  function StoreEach(files: map<string, PackageItem>, xs: seq<string>, id: string -> string, item: string -> PackageItem, keep: string -> bool)
    : map<string, PackageItem>
    decreases |xs|
  {
    if |xs| == 0 then files
    else
      var before := StoreEach(files, xs[..|xs| - 1], id, item, keep);
      var x := xs[|xs| - 1];
      if keep(x) then before[id(x) := item(x)] else before
  }

  /** Entries are only added or overwritten; every accepted element's entry is there, and every new key is one. */
  lemma {:induction false} StoreEachRecords(files: map<string, PackageItem>, xs: seq<string>, id: string -> string, item: string -> PackageItem, keep: string -> bool)
    ensures files.Keys <= StoreEach(files, xs, id, item, keep).Keys
    ensures forall x :: x in xs && keep(x) ==> id(x) in StoreEach(files, xs, id, item, keep)
    ensures forall k :: k in StoreEach(files, xs, id, item, keep) && k !in files ==> exists x :: x in xs && keep(x) && k == id(x)
    decreases |xs|
  {
    if |xs| > 0 {
      var n := |xs| - 1;
      StoreEachRecords(files, xs[..n], id, item, keep);
      assert forall x :: x in xs <==> x in xs[..n] || x == xs[n] by {
        assert xs == xs[..n] + [xs[n]];
      }
    }
  }

  /** An accepted element that no later accepted element shares an id with keeps its own item. */
  lemma {:induction false} StoreEachValue(files: map<string, PackageItem>, xs: seq<string>, id: string -> string, item: string -> PackageItem, keep: string -> bool, i: nat)
    requires i < |xs| && keep(xs[i])
    requires forall j :: i < j < |xs| && keep(xs[j]) ==> id(xs[j]) != id(xs[i])
    ensures id(xs[i]) in StoreEach(files, xs, id, item, keep)
    ensures StoreEach(files, xs, id, item, keep)[id(xs[i])] == item(xs[i])
    decreases |xs|
  {
    var n := |xs| - 1;
    if i < n {
      StoreEachValue(files, xs[..n], id, item, keep, i);
    }
  }

  /** The inner loop of `import_folder` over one directory's files: `files[key + suffix] = item` unless the suffix is excluded. */
  function ImportFiles(files: map<string, PackageItem>, root: string, relativeRoot: string, filenames: seq<string>, excluded: seq<string>): map<string, PackageItem> {
    StoreEach(files, filenames, f => FileId(relativeRoot, f), f => FolderFileItem(root, relativeRoot, f), f => Suffix(f) !in excluded)
  }

  /** Files are only added or overwritten; every file whose suffix is not excluded ends up recorded. */
  lemma ImportFilesRecordsEachFile(files: map<string, PackageItem>, root: string, relativeRoot: string, filenames: seq<string>, excluded: seq<string>)
    ensures files.Keys <= ImportFiles(files, root, relativeRoot, filenames, excluded).Keys
    ensures forall f :: f in filenames && Suffix(f) !in excluded ==>
      FileId(relativeRoot, f) in ImportFiles(files, root, relativeRoot, filenames, excluded)
    ensures forall k :: k in ImportFiles(files, root, relativeRoot, filenames, excluded) && k !in files ==>
      exists f :: f in filenames && Suffix(f) !in excluded && k == FileId(relativeRoot, f)
  {
    StoreEachRecords(files, filenames, f => FileId(relativeRoot, f), f => FolderFileItem(root, relativeRoot, f), f => Suffix(f) !in excluded);
  }

  /**
   * One step of `os.walk(folderpath, topdown=True)` at directory `d`, reached
   * as `root`: prune the sub-directories, record the files, then walk the kept
   * sub-directories in order.  A TypeError stops the walk with the files
   * recorded so far.
   */
  function WalkDir(st: State, folderpath: string, root: string, d: Dir, excludedFolders: Option<seq<string>>, excludedExtensions: Option<seq<string>>): Outcome
    decreases d, 1
  {
    match KeptSubdirs(d.subdirs, excludedFolders)
    case Failure(e) => Outcome(st, Some(e))
    case Success(kept) =>
      if |d.filenames| > 0 && excludedExtensions.None? then Outcome(st, Some(ExclusionsMissing))
      else
        KeptSubdirsAreSubdirs(d.subdirs, excludedFolders);
        var files := ImportFiles(st.files, root, RelativeRoot(folderpath, root), d.filenames, excludedExtensions.GetOr([]));
        WalkSubdirs(st.(files := files), folderpath, root, d, kept, excludedFolders, excludedExtensions)
  }

  function WalkSubdirs(st: State, folderpath: string, root: string, d: Dir, kept: seq<Dir>, excludedFolders: Option<seq<string>>, excludedExtensions: Option<seq<string>>): Outcome
    requires forall k :: k in kept ==> k in d.subdirs
    decreases d, 0, |kept|
  {
    if |kept| == 0 then Outcome(st, None)
    else
      var o := WalkSubdirs(st, folderpath, root, d, kept[..|kept| - 1], excludedFolders, excludedExtensions);
      var sub := kept[|kept| - 1];
      assert sub in d.subdirs;
      if o.raised.Some? then o
      else WalkDir(o.state, folderpath, PathJoin(root, sub.name), sub, excludedFolders, excludedExtensions)
  }

  /**
   * The entry stored under a file's id is that file's `PackageItem`: the path
   * joined onto the walked directory and its package-relative path.  A
   * directory listing holds distinct names.
   */
  lemma ImportFilesStoresItem(files: map<string, PackageItem>, root: string, relativeRoot: string, filenames: seq<string>, excluded: seq<string>, i: nat)
    requires i < |filenames| && Suffix(filenames[i]) !in excluded
    requires NoDuplicates(filenames) && forall j :: 0 <= j < |filenames| ==> IsName(filenames[j])
    ensures FileId(relativeRoot, filenames[i]) in ImportFiles(files, root, relativeRoot, filenames, excluded)
    ensures ImportFiles(files, root, relativeRoot, filenames, excluded)[FileId(relativeRoot, filenames[i])]
      == FolderFileItem(root, relativeRoot, filenames[i])
  {
    forall j | i < j < |filenames|
      ensures FileId(relativeRoot, filenames[j]) != FileId(relativeRoot, filenames[i])
    {
      if FileId(relativeRoot, filenames[j]) == FileId(relativeRoot, filenames[i]) {
        FileIdInjective(relativeRoot, filenames[j], filenames[i]);
      }
    }
    StoreEachValue(files, filenames, f => FileId(relativeRoot, f), f => FolderFileItem(root, relativeRoot, f), f => Suffix(f) !in excluded, i);
  }

  /** Under one relative root, distinct file names get distinct file ids. */
  lemma FileIdInjective(relativeRoot: string, f: string, g: string)
    requires IsName(f) && IsName(g) && FileId(relativeRoot, f) == FileId(relativeRoot, g)
    ensures f == g
  {
    FileIdOfName(relativeRoot, f);
    FileIdOfName(relativeRoot, g);
    PrefixCancels(Replace(relativeRoot, "\\", ".") + ".", f, g);
  }

  /** The file id of a plain name is the dotted relative root, a dot and the whole name. */
  lemma FileIdOfName(relativeRoot: string, f: string)
    requires IsName(f)
    ensures FileId(relativeRoot, f) == Replace(relativeRoot, "\\", ".") + "." + f
  {
    NameOfName(f);
    Regrouped(Replace(relativeRoot, "\\", ".") + ".", Stem(f), Suffix(f));
  }

  lemma Regrouped(a: string, b: string, c: string)
    ensures a + b + c == a + (b + c)
  {
  }

  lemma PrefixCancels(k: string, a: string, b: string)
    requires k + a == k + b
    ensures a == b
  {
    assert a == (k + a)[|k|..];
    assert b == (k + b)[|k|..];
  }

  /** One more file whose suffix is not excluded is stored under its file id. */
  lemma ImportFilesStored(files: map<string, PackageItem>, root: string, relativeRoot: string, filenames: seq<string>, i: nat, excluded: seq<string>)
    requires i < |filenames| && Suffix(filenames[i]) !in excluded
    ensures ImportFiles(files, root, relativeRoot, filenames[..i + 1], excluded)
      == ImportFiles(files, root, relativeRoot, filenames[..i], excluded)[FileId(relativeRoot, filenames[i]) := FolderFileItem(root, relativeRoot, filenames[i])]
  {
    StoreEachSnoc(files, filenames, f => FileId(relativeRoot, f), f => FolderFileItem(root, relativeRoot, f), f => Suffix(f) !in excluded, i);
  }

  /** One more file whose suffix is excluded changes nothing. */
  lemma ImportFilesSkipped(files: map<string, PackageItem>, root: string, relativeRoot: string, filenames: seq<string>, i: nat, excluded: seq<string>)
    requires i < |filenames| && Suffix(filenames[i]) in excluded
    ensures ImportFiles(files, root, relativeRoot, filenames[..i + 1], excluded) == ImportFiles(files, root, relativeRoot, filenames[..i], excluded)
  {
    StoreEachSnoc(files, filenames, f => FileId(relativeRoot, f), f => FolderFileItem(root, relativeRoot, f), f => Suffix(f) !in excluded, i);
  }

  /** `StoreEach` over one more element handles that element last. */
  lemma StoreEachSnoc(files: map<string, PackageItem>, xs: seq<string>, id: string -> string, item: string -> PackageItem, keep: string -> bool, i: nat)
    requires i < |xs|
    ensures StoreEach(files, xs[..i + 1], id, item, keep)
      == if keep(xs[i]) then StoreEach(files, xs[..i], id, item, keep)[id(xs[i]) := item(xs[i])] else StoreEach(files, xs[..i], id, item, keep)
  {
    assert xs[..i + 1][..i] == xs[..i];
  }

  /** One more kept sub-directory, after a prefix that raised nothing, is one more `WalkDir`. */
  lemma WalkSubdirsStep(st: State, folderpath: string, root: string, d: Dir, kept: seq<Dir>, j: nat, excludedFolders: Option<seq<string>>, excludedExtensions: Option<seq<string>>)
    requires forall k :: k in kept ==> k in d.subdirs
    requires j < |kept| && WalkSubdirs(st, folderpath, root, d, kept[..j], excludedFolders, excludedExtensions).raised.None?
    ensures WalkSubdirs(st, folderpath, root, d, kept[..j + 1], excludedFolders, excludedExtensions)
      == WalkDir(WalkSubdirs(st, folderpath, root, d, kept[..j], excludedFolders, excludedExtensions).state,
                 folderpath, PathJoin(root, kept[j].name), kept[j], excludedFolders, excludedExtensions)
  {
    assert kept[..j + 1][..j] == kept[..j];
  }

  /** Once a sub-directory raised, the remaining ones are not walked. */
  lemma {:induction false} WalkSubdirsStops(st: State, folderpath: string, root: string, d: Dir, kept: seq<Dir>, j: nat, excludedFolders: Option<seq<string>>, excludedExtensions: Option<seq<string>>)
    requires forall k :: k in kept ==> k in d.subdirs
    requires j <= |kept| && WalkSubdirs(st, folderpath, root, d, kept[..j], excludedFolders, excludedExtensions).raised.Some?
    ensures WalkSubdirs(st, folderpath, root, d, kept, excludedFolders, excludedExtensions)
      == WalkSubdirs(st, folderpath, root, d, kept[..j], excludedFolders, excludedExtensions)
    decreases |kept|
  {
    if j == |kept| {
      assert kept[..j] == kept;
    } else {
      var init := kept[..|kept| - 1];
      assert init[..j] == kept[..j];
      WalkSubdirsStops(st, folderpath, root, d, init, j, excludedFolders, excludedExtensions);
    }
  }

  /** `import_folder`: a folder `os.walk` cannot list yields nothing and changes nothing. */
  function ImportFolderOutcome(env: Env, st: State, folderpath: string, excludedFolders: Option<seq<string>>, excludedExtensions: Option<seq<string>>): Outcome {
    match env.fs.tree(folderpath)
    case None => Outcome(st, None)
    case Some(d) => WalkDir(st, folderpath, folderpath, d, excludedFolders, excludedExtensions)
  }

  /** `after` holds every file id of `before`, and the same distributions. */
  predicate OnlyAddsFiles(before: State, after: State) {
    after.packages == before.packages && before.files.Keys <= after.files.Keys
  }

  lemma OnlyAddsFilesTransitive(a: State, b: State, c: State)
    requires OnlyAddsFiles(a, b) && OnlyAddsFiles(b, c)
    ensures OnlyAddsFiles(a, c)
  {
  }

  /** Walking a directory never touches the distributions and never drops a file id. */
  lemma {:induction false} WalkDirOnlyAddsFiles(st: State, folderpath: string, root: string, d: Dir, excludedFolders: Option<seq<string>>, excludedExtensions: Option<seq<string>>)
    ensures OnlyAddsFiles(st, WalkDir(st, folderpath, root, d, excludedFolders, excludedExtensions).state)
    decreases d, 1
  {
    var r := KeptSubdirs(d.subdirs, excludedFolders);
    if r.Success? && !(|d.filenames| > 0 && excludedExtensions.None?) {
      KeptSubdirsAreSubdirs(d.subdirs, excludedFolders);
      var relativeRoot := RelativeRoot(folderpath, root);
      var files := ImportFiles(st.files, root, relativeRoot, d.filenames, excludedExtensions.GetOr([]));
      ImportFilesRecordsEachFile(st.files, root, relativeRoot, d.filenames, excludedExtensions.GetOr([]));
      var next := st.(files := files);
      WalkSubdirsOnlyAddsFiles(next, folderpath, root, d, r.value, excludedFolders, excludedExtensions);
      WalkDirStep(st, folderpath, root, d, excludedFolders, excludedExtensions);
      OnlyAddsFilesTransitive(st, next, WalkDir(st, folderpath, root, d, excludedFolders, excludedExtensions).state);
    }
  }

  /** The walk at `d` once pruning and the file check have passed. */
  lemma WalkDirStep(st: State, folderpath: string, root: string, d: Dir, excludedFolders: Option<seq<string>>, excludedExtensions: Option<seq<string>>)
    requires KeptSubdirs(d.subdirs, excludedFolders).Success? && !(|d.filenames| > 0 && excludedExtensions.None?)
    requires forall k :: k in KeptSubdirs(d.subdirs, excludedFolders).value ==> k in d.subdirs
    ensures WalkDir(st, folderpath, root, d, excludedFolders, excludedExtensions)
      == WalkSubdirs(st.(files := ImportFiles(st.files, root, RelativeRoot(folderpath, root), d.filenames, excludedExtensions.GetOr([]))),
                     folderpath, root, d, KeptSubdirs(d.subdirs, excludedFolders).value, excludedFolders, excludedExtensions)
  {
  }

  lemma {:induction false} WalkSubdirsOnlyAddsFiles(st: State, folderpath: string, root: string, d: Dir, kept: seq<Dir>, excludedFolders: Option<seq<string>>, excludedExtensions: Option<seq<string>>)
    requires forall k :: k in kept ==> k in d.subdirs
    ensures OnlyAddsFiles(st, WalkSubdirs(st, folderpath, root, d, kept, excludedFolders, excludedExtensions).state)
    decreases d, 0, |kept|
  {
    if |kept| > 0 {
      var init := kept[..|kept| - 1];
      var sub := kept[|kept| - 1];
      WalkSubdirsOnlyAddsFiles(st, folderpath, root, d, init, excludedFolders, excludedExtensions);
      var o := WalkSubdirs(st, folderpath, root, d, init, excludedFolders, excludedExtensions);
      if o.raised.None? {
        assert sub in d.subdirs;
        WalkDirOnlyAddsFiles(o.state, folderpath, PathJoin(root, sub.name), sub, excludedFolders, excludedExtensions);
        OnlyAddsFilesTransitive(st, o.state, WalkDir(o.state, folderpath, PathJoin(root, sub.name), sub, excludedFolders, excludedExtensions).state);
      }
    }
  }

  /**
   * `import_folder` never changes the distributions and keeps every file id
   * already recorded; a file of the top folder whose suffix is not excluded
   * is recorded under its module key.
   */
  lemma ImportFolderRecordsTopLevelFiles(env: Env, st: State, folderpath: string, excludedFolders: Option<seq<string>>, excludedExtensions: seq<string>, d: Dir, f: string)
    requires env.fs.tree(folderpath) == Some(d)
    requires f in d.filenames && Suffix(f) !in excludedExtensions
    requires KeptSubdirs(d.subdirs, excludedFolders).Success?
    ensures var o := ImportFolderOutcome(env, st, folderpath, excludedFolders, Some(excludedExtensions));
      OnlyAddsFiles(st, o.state) && FileId(RelativeRoot(folderpath, folderpath), f) in o.state.files
  {
    var relativeRoot := RelativeRoot(folderpath, folderpath);
    KeptSubdirsAreSubdirs(d.subdirs, excludedFolders);
    ImportFilesRecordsEachFile(st.files, folderpath, relativeRoot, d.filenames, excludedExtensions);
    var next := st.(files := ImportFiles(st.files, folderpath, relativeRoot, d.filenames, excludedExtensions));
    WalkDirStep(st, folderpath, folderpath, d, excludedFolders, Some(excludedExtensions));
    WalkSubdirsOnlyAddsFiles(next, folderpath, folderpath, d, KeptSubdirs(d.subdirs, excludedFolders).value, excludedFolders, Some(excludedExtensions));
    WalkDirOnlyAddsFiles(st, folderpath, folderpath, d, excludedFolders, Some(excludedExtensions));
  }

  /**
   * Without a folder exclusion list, a folder that has sub-directories raises
   * TypeError before recording anything; without an extension list, so does
   * one that has files.
   */
  lemma ImportFolderWithoutExclusions(env: Env, st: State, folderpath: string, excludedFolders: Option<seq<string>>, excludedExtensions: Option<seq<string>>, d: Dir)
    requires env.fs.tree(folderpath) == Some(d)
    requires (excludedFolders.None? && |d.subdirs| > 0) || (excludedExtensions.None? && |d.filenames| > 0)
    ensures ImportFolderOutcome(env, st, folderpath, excludedFolders, excludedExtensions) == Outcome(st, Some(ExclusionsMissing))
  {
    KeptSubdirsCharacterised(d.subdirs, excludedFolders);
  }

  /** A stem holds no '/'. */
  lemma StemHasNoSlash(p: string)
    ensures '/' !in Stem(p)
  {
    var n := Name(p);
    assert n == Stem(p) + SuffixOf(n);
  }

  /** A string without '\' is left alone by replacing '\'. */
  lemma NoBackslashReplace(s: string)
    requires '\\' !in s
    ensures Replace(s, "\\", ".") == s
  {
    forall i | 0 <= i <= |s| - 1
      ensures !OccursAt(s, "\\", i)
    {
      assert s[i..i + 1] == [s[i]];
    }
    ReplaceAbsent(s, "\\", ".");
  }

  /**
   * The files of the top folder itself get the key `stem + "/." + file stem`
   * on a POSIX host: `os.path.join(stem, "")` leaves a trailing separator
   * that is not a backslash, so it is not turned into a dot.
   */
  lemma TopLevelModuleKey(folderpath: string, filename: string)
    requires folderpath != "" && Stem(folderpath) != "" && '\\' !in Stem(folderpath)
    ensures ModuleKey(RelativeRoot(folderpath, folderpath), filename) == Stem(folderpath) + "/." + Stem(filename)
  {
    var stem := Stem(folderpath);
    var rr := RelativeRoot(folderpath, folderpath);
    ReplaceItself(folderpath);
    assert rr == PathJoin(stem, "");
    StemHasNoSlash(folderpath);
    JoinEmpty(stem);
    ModuleKeyUnderFolder(rr, stem, filename);
  }

  /** The module key of a file under the relative root `stem + "/"`, for a stem without backslashes. */
  lemma ModuleKeyUnderFolder(relativeRoot: string, stem: string, filename: string)
    requires relativeRoot == stem + "/" && '\\' !in stem
    ensures ModuleKey(relativeRoot, filename) == stem + "/." + Stem(filename)
  {
    assert '\\' !in relativeRoot;
    ModuleKeyWithoutBackslash(relativeRoot, filename);
    SlashDot(stem, Stem(filename));
  }

  /** Without backslashes the relative root is kept as it is in the module key. */
  lemma ModuleKeyWithoutBackslash(relativeRoot: string, filename: string)
    requires '\\' !in relativeRoot
    ensures ModuleKey(relativeRoot, filename) == relativeRoot + "." + Stem(filename)
  {
    NoBackslashReplace(relativeRoot);
  }

  lemma SlashDot(a: string, b: string)
    ensures (a + "/") + "." + b == a + "/." + b
  {
    assert "/." == "/" + ".";
  }

  /** `os.path.join(a, "")` ends `a` with one separator. */
  lemma JoinEmpty(a: string)
    requires a != "" && '/' !in a
    ensures PathJoin(a, "") == a + "/"
  {
    assert a[|a| - 1] in a;
  }

  /** Cutting a non-empty string out of itself leaves nothing, before and after stripping. */
  lemma ReplaceItself(s: string)
    requires s != ""
    ensures Strip(Strip(Replace(s, s, ""), '\\'), '/') == ""
  {
    assert s[|s|..] == [];
  }

  /* ---------------------------------------------------------------------- */
  /* The Resolver object                                                    */
  /* ---------------------------------------------------------------------- */

  /**
   * `Resolver`: the host and target OS fixed at construction, and the two
   * dictionaries its operations update in place.  Every operation is proved
   * to leave the dictionaries as the functions above say, and to raise what
   * they raise.
   */
  class Resolver {
    const env: Env
    const rootFilepath: string
    const systemOs: string
    const targetOs: string
    var files: map<string, PackageItem>
    var packages: map<string, PackageItem>

    function Snapshot(): State
      reads this
    {
      State(files, packages)
    }

    function Target(): Platform {
      Platform(systemOs, targetOs)
    }

    /** `Resolver.__init__` once the target OS is known to be supported. */
    constructor(env: Env, systemOs: string, rootFilepath: string, targetOs: string)
      requires IsTargetOs(targetOs)
      ensures this.env == env && this.systemOs == systemOs && this.rootFilepath == rootFilepath && this.targetOs == targetOs
      ensures Snapshot() == InitialState(rootFilepath)
      ensures files.Keys == {"__root__"} && files["__root__"].relativeFilepath == Some(Name(rootFilepath)) && packages == map[]
    {
      this.env := env;
      this.rootFilepath := rootFilepath;
      this.systemOs := systemOs;
      this.targetOs := targetOs;
      packages := map[];
      files := map["__root__" := PackageItem(rootFilepath, Some(Name(rootFilepath)))];
    }

    /** `Resolver(root_filepath, target_os)`: the target defaults to the host, and an unsupported one raises. */
    static method Create(env: Env, systemOs: string, rootFilepath: string, targetOs: Option<string>) returns (r: Result<Resolver, Error>)
      ensures r.Success? <==> IsTargetOs(targetOs.GetOr(systemOs))
      ensures r.Failure? ==> r.error == OsNotSupported(targetOs.GetOr(systemOs))
      ensures r.Success? ==>
        fresh(r.value) && r.value.env == env && r.value.systemOs == systemOs
        && r.value.targetOs == targetOs.GetOr(systemOs) && r.value.Snapshot() == InitialState(rootFilepath)
    {
      match ChooseTargetOs(systemOs, targetOs)
      case Failure(e) => r := Failure(e);
      case Success(chosen) =>
        var resolver := new Resolver(env, systemOs, rootFilepath, chosen);
        r := Success(resolver);
    }

    /** `add_package_by_name`; ModuleNotFoundError is swallowed, anything else is returned as raised. */
    method AddPackageByName(name: string, fuel: Depth) returns (raised: Option<Error>)
      modifies this
      ensures Outcome(Snapshot(), raised) == Add(env, Target(), old(Snapshot()), name, fuel)
      decreases fuel, 2
    {
      match env.importModule(name)
      case ModuleNotFound =>
        raised := None;
      case ImportFailed =>
        raised := Some(ImportRaised(name));
      case Imported(file) =>
        if file.None? || Contains(file.value, env.stdlibFolder) {
          raised := None;
          return;
        }
        match Substitute(env, Target(), file.value)
        case Failure(e) =>
          raised := Some(e);
        case Success(path) =>
          AddThenRecord(env, Target(), Snapshot(), name, file.value, path, fuel);
          var relativeFilepath := GetPackageRelativeFilepath(path, name);
          var distribution := GetDistributionNameOfPackage(path);
          if distribution.Some? {
            if distribution.value in packages {
              raised := None;
              return;
            }
            packages := packages[distribution.value := PackageItem(path, relativeFilepath)];
          } else {
            files := files[name + Suffix(path) := PackageItem(path, relativeFilepath)];
          }
          raised := GenFile(path, Some(name), fuel);
    }

    /** `gen`: a missing path raises; a `.py` file has its statements processed, any other file is recorded. */
    method GenFile(filepath: string, basePackageName: Option<string>, fuel: Depth) returns (raised: Option<Error>)
      modifies this
      ensures Outcome(Snapshot(), raised) == Gen(env, Target(), old(Snapshot()), filepath, basePackageName, fuel)
      decreases fuel, 0
    {
      var path := Normalised(filepath);
      if !env.fs.pathExists(path) {
        return Some(FilepathDoesNotExist(path));
      }
      if Suffix(path) == ".py" {
        match env.source(path)
        case Unparsable =>
          raised := Some(CannotParse(path));
        case Parsed(nodes) =>
          if fuel.Exhausted? {
            return Some(RecursionLimitExceeded);
          }
          GenProcessesModule(env, Target(), Snapshot(), filepath, basePackageName, fuel, nodes);
          raised := ProcessModule(nodes, path, fuel.rest);
      } else {
        var key := Or(basePackageName, Stem(path));
        var relativeFilepath := GetPackageRelativeFilepath(path, key);
        files := files[key + Suffix(path) := PackageItem(path, relativeFilepath)];
        raised := None;
      }
    }

    /** The statement loop of `gen`: each top-level statement in turn, with the file's path as current module. */
    method ProcessModule(nodes: seq<Node>, path: string, fuel: Depth) returns (raised: Option<Error>)
      modifies this
      ensures Outcome(Snapshot(), raised) == AddAll(env, Target(), old(Snapshot()), ModuleCalls(nodes, path), fuel)
      decreases fuel, 5
    {
      ghost var st0 := Snapshot();
      var i := 0;
      raised := None;
      while i < |nodes| && raised.None?
        invariant 0 <= i <= |nodes|
        invariant Outcome(Snapshot(), raised) == AddAll(env, Target(), st0, ModuleCalls(nodes[..i], path), fuel)
      {
        AddAllThen(env, Target(), st0, ModuleCalls(nodes[..i], path), ProcessNodeCalls(nodes[i], path), fuel);
        assert nodes[..i + 1][..i] == nodes[..i];
        raised := ProcessNode(nodes[i], path, fuel);
        i := i + 1;
      }
      if i < |nodes| {
        ModuleCallsAppend(nodes[..i], nodes[i..], path);
        AddAllStops(env, Target(), st0, ModuleCalls(nodes[..i], path), ModuleCalls(nodes[i..], path), fuel);
        assert nodes[..i] + nodes[i..] == nodes;
      } else {
        assert nodes[..i] == nodes;
      }
    }

    /** `process_node`: the `add_package_by_name` calls of `ProcessNodeCalls`, in order, stopping at the first exception. */
    method ProcessNode(node: Node, currentModule: string, fuel: Depth) returns (raised: Option<Error>)
      modifies this
      ensures Outcome(Snapshot(), raised) == AddAll(env, Target(), old(Snapshot()), ProcessNodeCalls(node, currentModule), fuel)
      decreases fuel, 4, node
    {
      ghost var st0 := Snapshot();
      raised := None;
      match node
      case ImportFrom(moduleName, names) =>
        raised := ProcessImportFrom(Or(moduleName, currentModule), names, fuel);
      case Import(names) =>
        raised := ProcessImport(names, fuel);
      case FunctionDef(_, body) =>
        assert ProcessNodeCalls(node, currentModule) == FunctionDefCalls(body);
        raised := ProcessFunctionBody(node, body, fuel);
      case _ =>
        assert ProcessNodeCalls(node, currentModule) == [];
    }

    /** The `ImportFrom` branch of `process_node`: the module itself, then each `module.name`, in order. */
    method ProcessImportFrom(resolved: string, names: seq<Alias>, fuel: Depth) returns (raised: Option<Error>)
      modifies this
      ensures Outcome(Snapshot(), raised) == AddAll(env, Target(), old(Snapshot()), [resolved] + QualifiedNames(resolved, names), fuel)
      decreases fuel, 3
    {
      ghost var st0 := Snapshot();
      var calls := [resolved] + QualifiedNames(resolved, names);
      assert [resolved] == [] + [resolved];
      AddAllStep(env, Target(), st0, [], resolved, fuel);
      raised := AddPackageByName(resolved, fuel);
      var i := 0;
      while i < |names| && raised.None?
        invariant 0 <= i <= |names|
        invariant Outcome(Snapshot(), raised) == AddAll(env, Target(), st0, calls[..i + 1], fuel)
      {
        assert calls[..i + 2] == calls[..i + 1] + [resolved + "." + names[i].name];
        AddAllStep(env, Target(), st0, calls[..i + 1], resolved + "." + names[i].name, fuel);
        raised := AddPackageByName(resolved + "." + names[i].name, fuel);
        i := i + 1;
      }
      if i < |names| {
        AddAllStops(env, Target(), st0, calls[..i + 1], calls[i + 1..], fuel);
        assert calls[..i + 1] + calls[i + 1..] == calls;
      } else {
        assert calls[..i + 1] == calls;
      }
    }

    /** The `Import` branch of `process_node`: each imported name, in order. */
    method ProcessImport(names: seq<Alias>, fuel: Depth) returns (raised: Option<Error>)
      modifies this
      ensures Outcome(Snapshot(), raised) == AddAll(env, Target(), old(Snapshot()), AliasNames(names), fuel)
      decreases fuel, 3
    {
      ghost var st0 := Snapshot();
      raised := None;
      var calls := AliasNames(names);
      var i := 0;
      while i < |names| && raised.None?
        invariant 0 <= i <= |names|
        invariant Outcome(Snapshot(), raised) == AddAll(env, Target(), st0, calls[..i], fuel)
      {
        assert calls[..i + 1] == calls[..i] + [names[i].name];
        AddAllStep(env, Target(), st0, calls[..i], names[i].name, fuel);
        raised := AddPackageByName(names[i].name, fuel);
        i := i + 1;
      }
      if i < |names| {
        AddAllStops(env, Target(), st0, calls[..i], calls[i..], fuel);
        assert calls[..i] + calls[i..] == calls;
      } else {
        assert calls[..i] == calls;
      }
    }

    /** The `FunctionDef` branch of `process_node`: every direct child with `names`, once per named item. */
    method ProcessFunctionBody(node: Node, body: seq<Node>, fuel: Depth) returns (raised: Option<Error>)
      requires node.FunctionDef? && node.body == body
      modifies this
      ensures Outcome(Snapshot(), raised) == AddAll(env, Target(), old(Snapshot()), FunctionDefCalls(body), fuel)
      decreases fuel, 4, node, 1
    {
      ghost var st0 := Snapshot();
      raised := None;
      var i := 0;
      while i < |body| && raised.None?
        invariant 0 <= i <= |body|
        invariant Outcome(Snapshot(), raised) == AddAll(env, Target(), st0, FunctionDefCalls(body[..i]), fuel)
      {
        assert body[..i + 1][..i] == body[..i];
        AddAllThen(env, Target(), st0, FunctionDefCalls(body[..i]), ChildCalls(body[i]), fuel);
        match NamesOf(body[i]) {
          case None =>
          case Some(items) =>
            raised := ProcessChildItems(node, body[i], items, fuel);
        }
        i := i + 1;
      }
      if i < |body| {
        assert body[..i] + body[i..] == body;
        FunctionDefCallsAppend(body[..i], body[i..]);
        AddAllStops(env, Target(), st0, FunctionDefCalls(body[..i]), FunctionDefCalls(body[i..]), fuel);
      } else {
        assert body[..i] == body;
      }
    }

    /** The inner loop of the `FunctionDef` branch: the child processed under each of its item names. */
    method ProcessChildItems(node: Node, child: Node, items: seq<Option<string>>, fuel: Depth) returns (raised: Option<Error>)
      requires node.FunctionDef? && child in node.body
      modifies this
      ensures Outcome(Snapshot(), raised) == AddAll(env, Target(), old(Snapshot()), ItemCalls(child, items), fuel)
      decreases fuel, 4, node, 0
    {
      ghost var st0 := Snapshot();
      raised := None;
      var j := 0;
      while j < |items| && raised.None?
        invariant 0 <= j <= |items|
        invariant Outcome(Snapshot(), raised) == AddAll(env, Target(), st0, ItemCalls(child, items[..j]), fuel)
      {
        assert items[..j + 1][..j] == items[..j];
        AddAllThen(env, Target(), st0, ItemCalls(child, items[..j]), ItemCall(child, items[j]), fuel);
        if items[j].Some? {
          raised := ProcessNode(child, items[j].value, fuel);
        }
        j := j + 1;
      }
      if j < |items| {
        assert items[..j] + items[j..] == items;
        ItemCallsAppend(child, items[..j], items[j..]);
        AddAllStops(env, Target(), st0, ItemCalls(child, items[..j]), ItemCalls(child, items[j..]), fuel);
      } else {
        assert items[..j] == items;
      }
    }

    /** `import_folder`: walks the folder top-down and records every file whose suffix is not excluded. */
    method ImportFolder(folderpath: string, excludedFolders: Option<seq<string>>, excludedExtensions: Option<seq<string>>) returns (raised: Option<Error>)
      modifies this
      ensures Outcome(Snapshot(), raised) == ImportFolderOutcome(env, old(Snapshot()), folderpath, excludedFolders, excludedExtensions)
    {
      match env.fs.tree(folderpath) {
        case None =>
          raised := None;
        case Some(d) =>
          raised := WalkFrom(folderpath, folderpath, d, excludedFolders, excludedExtensions);
      }
    }

    /** The body of the `os.walk` loop for directory `d` reached as `root`, followed by the walk into its kept sub-directories. */
    method WalkFrom(folderpath: string, root: string, d: Dir, excludedFolders: Option<seq<string>>, excludedExtensions: Option<seq<string>>) returns (raised: Option<Error>)
      modifies this
      ensures Outcome(Snapshot(), raised) == WalkDir(old(Snapshot()), folderpath, root, d, excludedFolders, excludedExtensions)
      decreases d, 1
    {
      ghost var st0 := Snapshot();
      var kept := KeptSubdirs(d.subdirs, excludedFolders);
      if kept.Failure? {
        return Some(kept.error);
      }
      if |d.filenames| > 0 && excludedExtensions.None? {
        return Some(ExclusionsMissing);
      }
      KeptSubdirsAreSubdirs(d.subdirs, excludedFolders);
      ImportDirFiles(root, RelativeRoot(folderpath, root), d.filenames, excludedExtensions.GetOr([]));
      WalkDirStep(st0, folderpath, root, d, excludedFolders, excludedExtensions);
      raised := WalkSubdirsFrom(folderpath, root, d, kept.value, excludedFolders, excludedExtensions);
    }

    /** The loop over one directory's files in `import_folder`. */
    method ImportDirFiles(root: string, relativeRoot: string, filenames: seq<string>, excluded: seq<string>)
      modifies this
      ensures packages == old(packages)
      ensures files == ImportFiles(old(files), root, relativeRoot, filenames, excluded)
    {
      ghost var files0 := files;
      var i := 0;
      while i < |filenames|
        invariant 0 <= i <= |filenames|
        invariant packages == old(packages)
        invariant files == ImportFiles(files0, root, relativeRoot, filenames[..i], excluded)
      {
        var f := filenames[i];
        if Suffix(f) !in excluded {
          ImportFilesStored(files0, root, relativeRoot, filenames, i, excluded);
          files := files[FileId(relativeRoot, f) := FolderFileItem(root, relativeRoot, f)];
        } else {
          ImportFilesSkipped(files0, root, relativeRoot, filenames, i, excluded);
        }
        i := i + 1;
      }
      assert filenames[..i] == filenames;
    }

    /** `os.walk` descending into the kept sub-directories of `d`, in order, until one raises. */
    method WalkSubdirsFrom(folderpath: string, root: string, d: Dir, kept: seq<Dir>, excludedFolders: Option<seq<string>>, excludedExtensions: Option<seq<string>>) returns (raised: Option<Error>)
      requires forall k :: k in kept ==> k in d.subdirs
      modifies this
      ensures Outcome(Snapshot(), raised) == WalkSubdirs(old(Snapshot()), folderpath, root, d, kept, excludedFolders, excludedExtensions)
      decreases d, 0
    {
      ghost var st0 := Snapshot();
      raised := None;
      var j := 0;
      while j < |kept| && raised.None?
        invariant 0 <= j <= |kept|
        invariant Outcome(Snapshot(), raised) == WalkSubdirs(st0, folderpath, root, d, kept[..j], excludedFolders, excludedExtensions)
      {
        WalkSubdirsStep(st0, folderpath, root, d, kept, j, excludedFolders, excludedExtensions);
        var sub := kept[j];
        assert sub in d.subdirs;
        raised := WalkFrom(folderpath, PathJoin(root, sub.name), sub, excludedFolders, excludedExtensions);
        j := j + 1;
      }
      if j < |kept| {
        WalkSubdirsStops(st0, folderpath, root, d, kept, j, excludedFolders, excludedExtensions);
      } else {
        assert kept[..j] == kept;
      }
    }
  }
}
