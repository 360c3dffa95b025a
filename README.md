# serverlesspack core, modelled in Dafny

serverlesspack packages a Python entry file for serverless deployment.

1. The `Resolver` starts from a root file. It follows every import it can find, one `add_package_by_name` at a time. It classifies each located module three ways:
   - a standard-library module is skipped;
   - a module inside a distribution folder under `site-packages` (the component after `site-packages` is not the last one) is recorded once per distribution, in `packages`; a single-file module lying directly in `site-packages` gets no distribution name and is recorded as a file;
   - any other module is recorded as a standalone file, in `files`.
2. On a windows host building for linux, a compiled `.pyd` extension is swapped for the `.so` file of the same stem. The linux-host branch compares the whole path with `'.so'`, so a linux host never swaps.
3. `import_folder` adds whole folders, pruning excluded folder names and file extensions.
4. `package_files` lays the chosen files out in an archive:
   - paths are made relative to the files' common prefix;
   - an empty `__init__.py` is synthesised for every directory level that lacks one;
   - an optional archive prefix is applied.
5. `resolve_already_installed_dependencies` decides which distributions still need a `pip install`.
6. The configuration client renders a YAML config for a target OS. It resolves the root file and the included folders against the config file's directory. When the target OS has a block of its own in an include, that block's exclusion lists are appended to the base ones; when it has none, both exclusion lists of the rendered include stay unset and the base lists are dropped.
7. The legacy mutator rewrites `from X import …` lines relative to a common prefix.

The model has one module per source file, plus shared helper modules:

- `wrappers.dfy`: `Option`, `Result`.
- `strings.dfy`: `split`, `join`, `replace`, `strip` and substrings.
- `pypath.dfy`: the POSIX subset of `pathlib`/`os.path`:
  - `parts`, `name`, `suffix`, `stem`, `with_suffix`;
  - `dirname`, `join`, `relpath`, `commonprefix`.
- `host.dfy`: the filesystem as a value:
  - `exists`, `is_file`, `abspath`;
  - the directory tree that `os.walk` visits.
- `syntax.dfy`: the subset of Python's `ast` that the handlers look at.
- `imports_resolver.dfy`, `process_node_handlers.dfy`, `mutators_node_handlers.dfy`, `packager.dfy`, `configuration_client.dfy`: one module per source file.

The source mutates its state in three places, and the model follows it:

- **The `Resolver`.** It is a class whose `files` and `packages` dictionaries are `map` fields. Each method's postcondition ties the new state, and whether something was raised, to a functional specification of the old state: `Add`, `Gen`, `AddAll`, `ImportFolderOutcome` and `WalkDir`. The lemmas are proved about that specification.
- **`package_files`.** It is a method with the source's nested loops. It is proved against `LocalItems` and `MarkerKeys`, which the lemmas characterise.
- **`_render_config`.** It is a loop proved equal to `RenderedConfig`.

The outside world becomes parameters:

- `importlib.import_module`, `ast.parse` of a file, the filesystem predicates and `platform.system()` are fields of `Env` / `FileSystem` or plain arguments.
- The interpreter's recursion limit is a `Depth` value. It decreases on every nested `gen`; running out is `RecursionLimitExceeded`, the `RecursionError` Python would raise.

## Model

| member | source | states |
|---|---|---|
| ImportsResolver.DistributionNameCharacterised | imports_resolver.py:21-28 | the distribution is the component right after the first `site-packages`, only when that component is not the last one; None when `site-packages` is absent or too close to the end |
| ImportsResolver.GetDistributionNameOfPackage | imports_resolver.py:21-28 | the early-return scan returns exactly the characterised distribution name |
| ImportsResolver.PackageRelativeFilepathCharacterised | imports_resolver.py:30-37 | None iff no component equals the first dotted segment of the package name; otherwise the result's parts are the path's parts from the first such component on |
| ImportsResolver.GetPackageRelativeFilepath | imports_resolver.py:30-37 | the early-return scan returns exactly the characterised relative path |
| ImportsResolver.CompiledExtension | imports_resolver.py:44 | only "windows" and "linux" have an extension, "pyd" and "so" respectively |
| ImportsResolver.MakeNoOsMatchingFileErrorMessage | imports_resolver.py:182-189 | fails (KeyError) unless both OS names are supported, naming the unsupported one; otherwise yields the three-sentence message built from the host OS's compiled extension, the target OS's compiled extension, the path and the target OS |
| ImportsResolver.MessageNamesPathAndTarget | imports_resolver.py:183-188 | the message contains "." followed by the host's compiled extension, "." followed by the target's, the source file path and the target OS name |
| ImportsResolver.ChooseTargetOs | imports_resolver.py:49-58 | the target defaults to the host OS; it is accepted iff it is "windows" or "linux", otherwise the "OS not supported" error names it |
| ImportsResolver.Resolver.constructor | imports_resolver.py:46-67 | `files` holds exactly the `__root__` entry whose relative path is the root file's name; `packages` is empty |
| ImportsResolver.Resolver.Create | imports_resolver.py:46-67 | construction succeeds iff the (defaulted) target OS is supported, and then starts from the initial state; otherwise it raises OsNotSupported |
| ImportsResolver.WindowsToLinuxSwapsPydForSo | imports_resolver.py:84-92 | on a windows host building for linux, a located `.pyd` becomes the same-stem `.so` in the same folder when that file exists, and raises NoOsMatchingFile otherwise |
| ImportsResolver.PydSwapPath | imports_resolver.py:86 | `with_suffix('.so')` keeps the stem and every folder component and only changes the suffix |
| ImportsResolver.LinuxHostNeverSubstitutes | imports_resolver.py:93-101 | on a linux host the located path is never changed, whatever the target, because the guard compares a Path with a string |
| ImportsResolver.MissingCompiledFileEscapes | imports_resolver.py:84-127 | a missing `.so` counterpart raises NoOsMatchingFile out of `add_package_by_name` (it is not swallowed like ModuleNotFoundError) and leaves the state unchanged |
| ImportsResolver.NothingFoundChangesNothing | imports_resolver.py:77-127 | ModuleNotFoundError, a module without `__file__`, or a path inside the standard-library folder leaves `files` and `packages` unchanged and raises nothing |
| ImportsResolver.KnownDistributionChangesNothing | imports_resolver.py:105-117 | a module of a distribution already in `packages` changes nothing: no overwrite and no `gen` |
| ImportsResolver.Recorded | imports_resolver.py:103-125 | a site-packages module is stored under its distribution in `packages`; any other module under module name + suffix in `files`, with the other dictionary untouched |
| ImportsResolver.AddKeepsPackages | imports_resolver.py:105-117 | one `add_package_by_name` never overwrites or removes a recorded distribution |
| ImportsResolver.RecordKeepsPackages | imports_resolver.py:113-125 | recording a located module followed by its `gen` never overwrites or removes a recorded distribution |
| ImportsResolver.AddAllKeepsPackages | imports_resolver.py:129-146 | a whole sequence of adds keeps every recorded distribution |
| ImportsResolver.GenKeepsPackages | imports_resolver.py:148-163 | `gen` keeps every recorded distribution |
| ImportsResolver.StandaloneCompiledModuleRecorded | imports_resolver.py:118-125 | a compiled module outside site-packages ends up in `files` under module name + suffix, pointing at its normalised path, with `packages` unchanged |
| ImportsResolver.SelfImportExhaustsRecursion | imports_resolver.py:118-125 | files have no visited check: a standalone module that imports itself recurses until the depth runs out, for every depth |
| ImportsResolver.AddThenRecord | imports_resolver.py:84-125 | a located non-stdlib module whose suffix substitution succeeds is recorded at the substituted path |
| ImportsResolver.AddRaisesSubstituteError | imports_resolver.py:84-101 | a failing suffix substitution is raised unchanged and leaves the state as it was |
| ImportsResolver.ImportInFunctionOncePerName | imports_resolver.py:138-146 | an `import` of k names inside a function is processed once per name, so each name is added k times |
| ImportsResolver.ImportItemCallsRepeat | imports_resolver.py:139-146 | each named item of a child re-processes that child, so the child's adds repeat once per item |
| ImportsResolver.NestedStatementsNotReached | imports_resolver.py:138-146 | a function body statement without `names` (a nested def, class, if, loop, with or try) produces no add at all |
| ImportsResolver.ModuleCallsAppend | imports_resolver.py:157-158 | the adds of a module's statements are the concatenation of each statement's adds, in order |
| ImportsResolver.AddAllAppend | imports_resolver.py:129-137 | a sequence of adds runs each add on the state left by the previous ones, stopping at the first raise |
| ImportsResolver.GenProcessesModule | imports_resolver.py:154-158 | `gen` of an existing `.py` file processes the adds of its top-level statements in order, one level deeper |
| ImportsResolver.GenOnMissingPath | imports_resolver.py:149-151 | `gen` of a path that does not exist raises FilepathDoesNotExist with that path and changes nothing |
| ImportsResolver.GenOnNonPythonFile | imports_resolver.py:159-163 | `gen` of another existing file adds exactly one `files` entry, keyed by (base name or stem) + suffix, and leaves `packages` alone |
| ImportsResolver.KeptSubdirsCharacterised | imports_resolver.py:169 | a subfolder is kept iff its name is not excluded; a missing exclusion list fails any non-empty listing |
| ImportsResolver.KeptSubdirsAreSubdirs | imports_resolver.py:169 | pruning only removes subfolders |
| ImportsResolver.ImportFilesRecordsEachFile | imports_resolver.py:171-180 | every file whose suffix is not excluded is recorded under its module key + suffix; existing keys stay, and every new key comes from such a file |
| ImportsResolver.ImportFilesStoresItem | imports_resolver.py:171-180 | in a listing of distinct names, the entry under a kept file's id is that file's `PackageItem`: its path joined onto the walked directory, with its package-relative path |
| ImportsResolver.FileIdInjective | imports_resolver.py:175-179 | under one relative root, distinct file names give distinct file ids, so no file of a directory overwrites another |
| ImportsResolver.WalkDirOnlyAddsFiles | imports_resolver.py:165-180 | walking a folder only adds or overwrites `files` entries; `packages` is untouched |
| ImportsResolver.WalkSubdirsOnlyAddsFiles | imports_resolver.py:167-180 | walking the kept subfolders only adds or overwrites `files` entries |
| ImportsResolver.WalkSubdirsStops | imports_resolver.py:167-180 | once walking a subfolder raises, the remaining subfolders are not visited |
| ImportsResolver.ImportFolderRecordsTopLevelFiles | imports_resolver.py:165-180 | every non-excluded file of the folder itself ends up in `files`, and nothing but `files` changes |
| ImportsResolver.ImportFolderWithoutExclusions | imports_resolver.py:165-173 | omitting an exclusion list raises (the `not in None` TypeError) as soon as there is something to filter, changing nothing |
| ImportsResolver.TopLevelModuleKey | imports_resolver.py:170-175 | files directly inside the folder get the key "stem/." + file stem, since joining an empty relative root leaves a trailing separator |
| ImportsResolver.Resolver.AddPackageByName | imports_resolver.py:76-127 | the new `files`/`packages` and the raised error are those of the specification `Add` on the old state |
| ImportsResolver.Resolver.GenFile | imports_resolver.py:148-163 | the new state and raised error are those of `Gen` on the old state |
| ImportsResolver.Resolver.ProcessModule | imports_resolver.py:157-158 | processing a parsed module's top-level statements equals `AddAll` of their adds |
| ImportsResolver.Resolver.ProcessNode | imports_resolver.py:129-146 | processing a node equals `AddAll` of the node's add trace |
| ImportsResolver.Resolver.ProcessImportFrom | imports_resolver.py:130-134 | adds the module (or the current module), then module + "." + name for each name |
| ImportsResolver.Resolver.ProcessImport | imports_resolver.py:135-137 | adds each imported name, in order |
| ImportsResolver.Resolver.ProcessFunctionBody | imports_resolver.py:138-146 | the function-body loop equals `AddAll` of the function's add trace |
| ImportsResolver.Resolver.ProcessChildItems | imports_resolver.py:142-146 | the per-name loop equals `AddAll` of the child's adds, once per named item |
| ImportsResolver.Resolver.ImportFolder | imports_resolver.py:165-180 | the walk's new state and raised error are those of `ImportFolderOutcome` on the old state |
| ImportsResolver.Resolver.WalkFrom | imports_resolver.py:167-180 | walking one folder equals `WalkDir` of the old state |
| ImportsResolver.Resolver.ImportDirFiles | imports_resolver.py:171-180 | the files loop updates `files` as `ImportFiles` and keeps `packages` |
| ImportsResolver.Resolver.WalkSubdirsFrom | imports_resolver.py:167-169 | walking the kept subfolders in order equals `WalkSubdirs` of the old state |
| ProcessNodeHandlers.HandlerFor | process_node_handlers.py:46-59 | the five specific handlers are chosen exactly for their five node kinds; the listed statement kinds get `do_nothing`, unlisted kinds no handler |
| ProcessNodeHandlers.ImportFromTrace | process_node_handlers.py:7-11 | adds the module (or the current module when absent), then module + "." + name for each name, in order |
| ProcessNodeHandlers.ImportTrace | process_node_handlers.py:13-15 | adds each imported name exactly once, in order, ignoring aliases |
| ProcessNodeHandlers.NamedCallsRepeat | process_node_handlers.py:22-26 | a child re-processed once per named item repeats its adds once per item |
| ProcessNodeHandlers.ImportInFunctionRepeated | process_node_handlers.py:17-26 | an import of k names inside a function is processed k+1 times |
| ProcessNodeHandlers.BodyCallsAppend | process_node_handlers.py:28-36 | the adds of a body are the adds of its parts in order |
| ProcessNodeHandlers.ClassBodyEachChildOnce | process_node_handlers.py:28-31 | a class body processes each child exactly once, in order, under the child's own name or the inherited one |
| ProcessNodeHandlers.IfElseBranchIgnored | process_node_handlers.py:33-36 | the `else` branch of an `if` never contributes |
| ProcessNodeHandlers.ForLoopAddsNothing | process_node_handlers.py:57 | a `for` loop maps to `do_nothing`, so imports inside it produce no add |
| ProcessNodeHandlers.SingleImportFromTrace | process_node_handlers.py:7-11 | `from m import a` adds exactly `m` then `m.a` |
| ProcessNodeHandlers.NestedImportsReached | process_node_handlers.py:17-36 | imports nested function → function → if are reached, the directly nested one twice |
| ProcessNodeHandlers.NoImportNoCalls | process_node_handlers.py:7-59 | only `import` and `from … import` add names; the other handlers only forward their children's adds, so a statement from which the walk (function, class and `if` bodies only) reaches no import adds nothing |
| MutatorsNodeHandlers.AlignCharacterised | serverlesspack/legacy/mutators_node_handlers.py:15-20 | the scan returns the overflowing segments joined by "." iff the segments match every remaining prefix component and run past them; otherwise None |
| MutatorsNodeHandlers.RelModulePathCases | serverlesspack/legacy/mutators_node_handlers.py:7-23 | None when the first segment is not a prefix component; otherwise aligned at its first occurrence: the overflow joined by "." when the later segments match up to the end of the prefix, else None (mismatch or fall-through) |
| MutatorsNodeHandlers.ComputeRelModulePath | serverlesspack/legacy/mutators_node_handlers.py:7-23 | the loop with early returns computes exactly `RelModulePath` |
| MutatorsNodeHandlers.HandleImportFrom | serverlesspack/legacy/mutators_node_handlers.py:26-31 | "from rel import n1, n2, …" exactly when the relative path exists, None otherwise; a relative import without module fails |
| MutatorsNodeHandlers.OnlyImportFromWritesLines | serverlesspack/legacy/mutators_node_handlers.py:26-37 | only `ImportFrom` produces a line; `Import` produces nothing |
| MutatorsNodeHandlers.ContainersReturnTheirBody | serverlesspack/legacy/mutators_node_handlers.py:39-46 | function definitions and the container statements return their body unchanged |
| MutatorsNodeHandlers.TableCoversListedKinds | serverlesspack/legacy/mutators_node_handlers.py:69-92 | the table has an entry for every listed statement kind and none for the others |
| Packager.ArchivePathRoundTrip | packager.py:15-17 | stripping the archive prefix from the prefixed path gives back the relative path |
| Packager.ArchivePathInjective | packager.py:15-17 | distinct relative paths stay distinct under the same prefix |
| Packager.FileItemsFactory.MakeLocalFileItem | packager.py:33-38 | the item carries the absolute path and the (prefixed) relative path |
| Packager.FileItemsFactory.MakeContentFileItem | packager.py:40-45 | the item carries the content and the (prefixed) relative path |
| Packager.LayerDirComponents | packager.py:48-49 | the layer packages dir is exactly the components python / lib / python{v} / site-packages |
| Packager.AbsoluteLayerDirComponents | packager.py:51-52 | the absolute layer dir is the base dir's components followed by those four |
| Packager.CommonPrefixOfAbsolute | packager.py:66 | the common prefix of absolute paths is itself absolute |
| PyPath.CommonPrefix | packager.py:66 | the longest string that prefixes every path, character by character |
| PyPath.CommonPrefixIsCharacterWise | packager.py:66 | two paths that differ inside a name share a prefix that ends mid-name |
| PyPath.LongestIsMaximal | packager.py:66 | no longer common prefix exists than the first mismatch |
| PyPath.RelPathIsRelative | packager.py:70 | a path made relative to the common prefix is non-empty and relative |
| Packager.LocalItemsAt | packager.py:69-71 | the k-th local item is the item of the k-th input path in iteration order |
| Packager.LocalItemPlaced | packager.py:70-71 | each local item keeps its absolute path and has the path relative to the common prefix as its archive path |
| Packager.FileAtPrefixLevel | packager.py:73-74 | a file directly at the common-prefix level has no folder levels, so it needs no marker |
| Packager.MarkersForLevelsStep | packager.py:78 | the check against the relative keys never matches an absolute path, so only the input-paths check decides |
| Packager.MarkersForLevelsWellFormed | packager.py:73-81 | the synthesised `__init__.py` keys are relative and never repeat |
| Packager.MarkersForLevelsCharacterised | packager.py:73-81 | a key is present iff it was already there or is the `__init__.py` of one of this file's folder levels whose absolute path is not an input |
| Packager.MarkerKeysWellFormed | packager.py:65-81 | the keys over all files are relative and never repeat |
| Packager.MarkerKeysCharacterised | packager.py:69-81 | a key is present iff it is the `__init__.py` of some file's folder level and that marker, joined onto the common prefix, is not an input |
| Packager.PackageFilesMarkers | packager.py:63-83 | the markers `package_files` returns are unique, relative, and exactly the missing `__init__.py` files of every folder level |
| Packager.DictValues | packager.py:83 | the content items are the empty-content items of the keys, in insertion order |
| Packager.PackageFiles | packager.py:63-83 | one local item per input path, in order, relative to the common prefix; one empty content item per synthesised key, in insertion order; nothing for no input |
| Packager.StoreMarkers | packager.py:73-81 | the level loop stores the markers `MarkersForLevels` describes and keeps the dict consistent with the key order |
| Packager.ResolveAlreadyInstalledDependencies | packager.py:102-129 | a subset of the input names, holding exactly the names with no distribution or with some declared module missing under the search folder |
| Packager.InstallRequest | packager.py:131-140 | pip is asked to install iff some dependency needs it, and then with the full list of included names |
| ConfigurationClient.RenderFolderIncludeItem | configuration_client.py:52-59 | without an OS block the item is unchanged; with one, each exclusion list is the base list followed by the block's list (or []), failing when a base list is missing |
| ConfigurationClient.BaseExclusionsDroppedWithoutBlock | configuration_client.py:51-64 | with no block for the target OS, or an OS other than windows/linux, both output lists stay unset: the base exclusions are dropped |
| ConfigurationClient.RenderConfig | configuration_client.py:43-71 | the loop computes exactly `RenderedConfig` |
| ConfigurationClient.LoadRenderConfigFile | configuration_client.py:30-40 | a missing config file fails before parsing; an invalid one fails with InvalidConfig; otherwise the rendered config |
| ConfigurationClient.MissingRootFileReported | configuration_client.py:44-46 | a resolved root that is not an existing file fails with its absolute path |
| ConfigurationClient.MissingFolderReported | configuration_client.py:66-68 | the first folder include whose resolved folder does not exist fails with that absolute path |
| ConfigurationClient.FailureEndsRendering | configuration_client.py:50-70 | once a folder include fails, later includes change nothing: the first error is the result |
| ConfigurationClient.RenderedFoldersSucceeds | configuration_client.py:50-70 | rendering succeeds iff every include renders and every resolved folder exists |
| ConfigurationClient.RenderedFoldersSnoc | configuration_client.py:66-70 | one more successful include stores its item under its absolute path |
| ConfigurationClient.RenderedFoldersKeys | configuration_client.py:48-70 | the output has one key per folder include: its absolute path |
| ConfigurationClient.RenderedFoldersLastWins | configuration_client.py:50-70 | each key holds the rendering of the last include resolving to it |
| ConfigurationClient.RenderedConfigChecksPaths | configuration_client.py:44-70 | a successful rendering has the resolved root, an existing root file and only existing folders |

## Left out

- ImportFolderRecordsTopLevelFiles: states that a top-level file's id is present after the whole walk, not which item it holds, because the model does not prove that the ids of files in sub-folders never coincide with it; the stored item is stated per directory by ImportFilesStoresItem.
- `files_to_zip` / `files_to_folder`: filesystem and zip writing only, with no logic to prove.
- `install_packages_to_dir` / `package_lambda_layer`: they run `pip` in a subprocess. InstallRequest returns the names pip would be given instead of running it.
- `recursive_get_files_in_layer_folder` and the layer listing at the end of `resolve_install_and_get_dependencies_files`: `os.walk` listings of what pip wrote. They are not modelled.
- `os.walk` in `import_folder` is a finite `Dir` tree. Symbolic links, and listing order beyond the tree's own order, are not modelled.
- Paths are POSIX:
  - Windows drive letters and backslash separators are not modelled;
  - `abspath` is a parameter of the filesystem;
  - `..` is kept as a name rather than collapsed by `normpath`.
- DistributionNameCharacterised: `parents._parts` is modelled as on Python 3.8–3.11, where it holds all parts of the path. On Python 3.12 the attribute is gone and the function always returns None.
- `importlib.import_module`, `ast.parse`, `distlib.database.DistributionPath` and `platform.system()` are parameters.
  - The distribution lookup and `run_requires` have no effect on the state, so they are left out.
- The interpreter's recursion limit is a `Depth` value. The exact default limit of 1000 frames is not modelled.
- `Resolver.from_code`, `cli.py`, `serverlesspack/legacy/file_mutator.py`, the visualizer and the `__main__` blocks are not part of this model.
- Every `print` and the "Re-used packages" tree print are left out.
- The handlers in `process_node_handlers.py` pass `current_filepath`, which the resolver's `add_package_by_name` does not accept. Their traces are modelled as the names they would add. The dispatcher that looks up the table is not in the source, so a node kind missing from the table contributes no adds.
- InstallRequest: the resolver attributes `included_dependencies_distributions` and `included_dependencies_names` are not defined by the resolver shown, so they are parameters.
- `included_files_absolute_paths` is a set in the source but a sequence in the model. Its iteration order is the sequence order.
- PackageFiles: requires absolute input paths, as the parameter's name promises. `relpath` of relative inputs, which resolves against the working directory, is not modelled.
- RenderedFoldersLastWins: `Config.folders_includes` is a `map`, so the dictionary's insertion order is not modelled. Only which item each key holds is stated.
- RenderFolderIncludeItem: the closure assigns fields of one shared output item. It is modelled as a fresh value per folder, which is what each iteration builds.
- LoadRenderConfigFile:
  - YAML and pydantic parsing are a `load` parameter that may fail with InvalidConfig;
  - an empty YAML document and `open()` on a directory are not distinguished from other parse results.
- TopLevelModuleKey: the key "stem/.name" that `import_folder` gives top-level files is modelled as written. `os.path.join` with an empty second part leaves a trailing separator.
