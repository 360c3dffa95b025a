/**
 * `configuration_client.py`: reading the packager's configuration file and
 * rendering it for one target OS.  Paths named in the file are resolved
 * against the directory of the file itself.  A folder include whose target
 * OS has a block gets that block's exclusion lists appended to its base
 * lists; one without such a block keeps both exclusion lists unset, so its
 * base lists are dropped.
 * Reading and validating the YAML text is left to the host (`load`).
 */
module ConfigurationClient {
  import opened Wrappers
  import opened PyPath
  import opened Host

  /** `BaseFolderIncludeItem`: the exclusion lists of one folder, each optional. */
  datatype BaseFolderIncludeItem = BaseFolderIncludeItem(
    excludedFilesExtensions: Option<seq<string>>,
    excludedFoldersNames: Option<seq<string>>)

  /** `SourceConfig.FolderIncludeItem`: base exclusion lists plus an optional block per OS. */
  datatype FolderIncludeItem = FolderIncludeItem(
    excludedFilesExtensions: Option<seq<string>>,
    excludedFoldersNames: Option<seq<string>>,
    additionalLinux: Option<BaseFolderIncludeItem>,
    additionalWindows: Option<BaseFolderIncludeItem>)

  /** `SourceConfig`: the file as validated; `foldersIncludes` lists the dict's items in insertion order. */
  datatype SourceConfig = SourceConfig(rootFile: string, foldersIncludes: Option<seq<(string, FolderIncludeItem)>>)

  /** `Config`: the rendered configuration, folders keyed by absolute path. */
  datatype Config = Config(rootFilepath: string, foldersIncludes: map<string, BaseFolderIncludeItem>)

  /** The exceptions that escape `load_render_config_file`. */
  datatype ConfigError =
    | ConfigFileNotFound(filepath: string)    // "Config file not found at : …"
    | InvalidConfig                           // pydantic's ValidationError, re-raised
    | NoFileFound(path: string)               // the root file is not a file
    | NoFolderFound(path: string)             // an included folder does not exist
    | FoldersIncludesMissing                  // `None.items()`: AttributeError
    | ExclusionsNotIterable                   // `[*None, …]`: TypeError

  /** A fresh `BaseFolderIncludeItem()`: both lists unset. */
  const EmptyItem := BaseFolderIncludeItem(None, None)

  /** Python's `xs or []`. */
  function OrEmpty(xs: Option<seq<string>>): (r: seq<string>)
    ensures xs.Some? ==> r == xs.value
    ensures xs.None? ==> r == []
  {
    if xs.Some? then xs.value else []
  }

  /** `os.path.abspath(os.path.join(os.path.dirname(config_filepath), p))`. */
  function ResolvePath(configFilepath: string, p: string, fs: FileSystem): string {
    fs.absPath(PathJoin(Dirname(configFilepath), p))
  }

  /**
   * The inner `render_folder_include_item`: with an OS block, both lists of
   * `outputItem` become the base list followed by the block's list; without
   * one, `outputItem` is left as it is.
   */
  function RenderFolderIncludeItem(outputItem: BaseFolderIncludeItem, folderConfig: FolderIncludeItem, additional: Option<BaseFolderIncludeItem>)
    : (r: Result<BaseFolderIncludeItem, ConfigError>)
    ensures additional.None? ==> r == Success(outputItem)
    ensures additional.Some? ==> (r.Success? <==> folderConfig.excludedFoldersNames.Some? && folderConfig.excludedFilesExtensions.Some?)
    ensures additional.Some? && r.Success? ==>
      var names := folderConfig.excludedFoldersNames.value;
      var extensions := folderConfig.excludedFilesExtensions.value;
      r.value.excludedFoldersNames.Some? && r.value.excludedFilesExtensions.Some? &&
      |names| <= |r.value.excludedFoldersNames.value| && |extensions| <= |r.value.excludedFilesExtensions.value| &&
      r.value.excludedFoldersNames.value[..|names|] == names &&
      r.value.excludedFoldersNames.value[|names|..] == OrEmpty(additional.value.excludedFoldersNames) &&
      r.value.excludedFilesExtensions.value[..|extensions|] == extensions &&
      r.value.excludedFilesExtensions.value[|extensions|..] == OrEmpty(additional.value.excludedFilesExtensions)
  {
    match additional
    case None => Success(outputItem)
    case Some(block) =>
      if folderConfig.excludedFoldersNames.None? then Failure(ExclusionsNotIterable)
      else
        var names := folderConfig.excludedFoldersNames.value + OrEmpty(block.excludedFoldersNames);
        if folderConfig.excludedFilesExtensions.None? then Failure(ExclusionsNotIterable)
        else
          var extensions := folderConfig.excludedFilesExtensions.value + OrEmpty(block.excludedFilesExtensions);
          Success(BaseFolderIncludeItem(Some(extensions), Some(names)))
  }

  /** The rendered item of one folder for `targetOs`: only "windows" and "linux" read a block. */
  function RenderForOs(folderConfig: FolderIncludeItem, targetOs: string): Result<BaseFolderIncludeItem, ConfigError> {
    if targetOs == "windows" then RenderFolderIncludeItem(EmptyItem, folderConfig, folderConfig.additionalWindows)
    else if targetOs == "linux" then RenderFolderIncludeItem(EmptyItem, folderConfig, folderConfig.additionalLinux)
    else Success(EmptyItem)
  }

  /** The folders dict once the given folder includes have been rendered, in order, or the first error met. */
  function RenderedFolders(entries: seq<(string, FolderIncludeItem)>, configFilepath: string, targetOs: string, fs: FileSystem)
    : Result<map<string, BaseFolderIncludeItem>, ConfigError>
    decreases |entries|
  {
    if |entries| == 0 then Success(map[])
    else
      var before := RenderedFolders(entries[..|entries| - 1], configFilepath, targetOs, fs);
      var folderpath := entries[|entries| - 1].0;
      var item := RenderForOs(entries[|entries| - 1].1, targetOs);
      var absolute := ResolvePath(configFilepath, folderpath, fs);
      if before.Failure? then before
      else if item.Failure? then Failure(item.error)
      else if !fs.pathExists(absolute) then Failure(NoFolderFound(absolute))
      else Success(before.value[absolute := item.value])
  }

  /** `ConfigClient._render_config`. */
  function RenderedConfig(sourceConfig: SourceConfig, configFilepath: string, targetOs: string, fs: FileSystem): Result<Config, ConfigError> {
    var root := ResolvePath(configFilepath, sourceConfig.rootFile, fs);
    if !fs.isFile(root) then Failure(NoFileFound(root))
    else if sourceConfig.foldersIncludes.None? then Failure(FoldersIncludesMissing)
    else
      match RenderedFolders(sourceConfig.foldersIncludes.value, configFilepath, targetOs, fs)
      case Failure(e) => Failure(e)
      case Success(folders) => Success(Config(root, folders))
  }

  /* ---------------------------------------------------------------------- */
  /* Imperative rendering                                                   */
  /* ---------------------------------------------------------------------- */

  /** `_render_config`: the loop over the folder includes, filling the output dict. */
  method RenderConfig(sourceConfig: SourceConfig, configFilepath: string, targetOs: string, fs: FileSystem) returns (r: Result<Config, ConfigError>)
    ensures r == RenderedConfig(sourceConfig, configFilepath, targetOs, fs)
  {
    var renderedAbsoluteRootFilepath := ResolvePath(configFilepath, sourceConfig.rootFile, fs);
    if !fs.isFile(renderedAbsoluteRootFilepath) {
      return Failure(NoFileFound(renderedAbsoluteRootFilepath));
    }
    if sourceConfig.foldersIncludes.None? {
      return Failure(FoldersIncludesMissing);
    }
    var entries := sourceConfig.foldersIncludes.value;
    var foldersIncludes: map<string, BaseFolderIncludeItem> := map[];
    var i := 0;
    while i < |entries|
      invariant 0 <= i <= |entries|
      invariant RenderedFolders(entries[..i], configFilepath, targetOs, fs) == Success(foldersIncludes)
    {
      var (folderpath, folderConfig) := entries[i];
      assert entries[..i + 1][..i] == entries[..i];
      var outputItem := EmptyItem;
      if targetOs == "windows" {
        var rendered := RenderFolderIncludeItem(outputItem, folderConfig, folderConfig.additionalWindows);
        if rendered.Failure? {
          FailureEndsRendering(entries, i + 1, configFilepath, targetOs, fs);
          return Failure(rendered.error);
        }
        outputItem := rendered.value;
      } else if targetOs == "linux" {
        var rendered := RenderFolderIncludeItem(outputItem, folderConfig, folderConfig.additionalLinux);
        if rendered.Failure? {
          FailureEndsRendering(entries, i + 1, configFilepath, targetOs, fs);
          return Failure(rendered.error);
        }
        outputItem := rendered.value;
      }
      var renderedAbsoluteFolderPath := ResolvePath(configFilepath, folderpath, fs);
      if !fs.pathExists(renderedAbsoluteFolderPath) {
        FailureEndsRendering(entries, i + 1, configFilepath, targetOs, fs);
        return Failure(NoFolderFound(renderedAbsoluteFolderPath));
      }
      foldersIncludes := foldersIncludes[renderedAbsoluteFolderPath := outputItem];
      i := i + 1;
    }
    assert entries[..i] == entries;
    return Success(Config(renderedAbsoluteRootFilepath, foldersIncludes));
  }

  /**
   * `load_render_config_file`.  `load(filepath)` is the file's YAML validated
   * as a `SourceConfig`, or None when validation fails.
   */
  method LoadRenderConfigFile(filepath: string, targetOs: string, fs: FileSystem, load: string -> Option<SourceConfig>)
    returns (r: Result<Config, ConfigError>)
    ensures !fs.pathExists(filepath) ==> r == Failure(ConfigFileNotFound(filepath))
    ensures fs.pathExists(filepath) && load(filepath).None? ==> r == Failure(InvalidConfig)
    ensures fs.pathExists(filepath) && load(filepath).Some? ==> r == RenderedConfig(load(filepath).value, filepath, targetOs, fs)
  {
    if !fs.pathExists(filepath) {
      return Failure(ConfigFileNotFound(filepath));
    }
    var config := load(filepath);
    if config.None? {
      return Failure(InvalidConfig);
    }
    r := RenderConfig(config.value, filepath, targetOs, fs);
  }

  /* ---------------------------------------------------------------------- */
  /* Properties                                                             */
  /* ---------------------------------------------------------------------- */

  /** Once one folder include fails, rendering the rest changes nothing: the first error is the one raised. */
  lemma {:induction false} FailureEndsRendering(entries: seq<(string, FolderIncludeItem)>, n: nat, configFilepath: string, targetOs: string, fs: FileSystem)
    requires n <= |entries| && RenderedFolders(entries[..n], configFilepath, targetOs, fs).Failure?
    ensures RenderedFolders(entries, configFilepath, targetOs, fs) == RenderedFolders(entries[..n], configFilepath, targetOs, fs)
    decreases |entries| - n
  {
    if n < |entries| {
      assert entries[..n + 1][..n] == entries[..n];
      FailureEndsRendering(entries, n + 1, configFilepath, targetOs, fs);
    } else {
      assert entries[..n] == entries;
    }
  }

  /** Without a block for the target OS, or for any OS other than windows and linux, the base exclusions are dropped. */
  lemma BaseExclusionsDroppedWithoutBlock(folderConfig: FolderIncludeItem, targetOs: string)
    requires (targetOs == "windows" && folderConfig.additionalWindows.None?)
      || (targetOs == "linux" && folderConfig.additionalLinux.None?)
      || (targetOs != "windows" && targetOs != "linux")
    ensures RenderForOs(folderConfig, targetOs) == Success(BaseFolderIncludeItem(None, None))
  {
  }

  /** Rendering succeeds exactly when every folder include renders and every folder exists. */
  lemma {:induction false} RenderedFoldersSucceeds(entries: seq<(string, FolderIncludeItem)>, configFilepath: string, targetOs: string, fs: FileSystem)
    ensures RenderedFolders(entries, configFilepath, targetOs, fs).Success? <==>
      forall i :: 0 <= i < |entries| ==>
        RenderForOs(entries[i].1, targetOs).Success? && fs.pathExists(ResolvePath(configFilepath, entries[i].0, fs))
    decreases |entries|
  {
    if |entries| > 0 {
      var init := entries[..|entries| - 1];
      RenderedFoldersSucceeds(init, configFilepath, targetOs, fs);
      assert forall i :: 0 <= i < |init| ==> init[i] == entries[i];
    }
  }

  /** The absolute paths of the folder includes, in order. */
  function ResolvedPaths(entries: seq<(string, FolderIncludeItem)>, configFilepath: string, fs: FileSystem): (r: seq<string>)
    ensures |r| == |entries|
  {
    seq(|entries|, i requires 0 <= i < |entries| => ResolvePath(configFilepath, entries[i].0, fs))
  }

  /** A successful rendering of one more include stores its item under its absolute path. */
  lemma RenderedFoldersSnoc(entries: seq<(string, FolderIncludeItem)>, configFilepath: string, targetOs: string, fs: FileSystem)
    requires |entries| > 0 && RenderedFolders(entries, configFilepath, targetOs, fs).Success?
    ensures var n := |entries| - 1;
      var before := RenderedFolders(entries[..n], configFilepath, targetOs, fs);
      before.Success? && RenderForOs(entries[n].1, targetOs).Success? &&
      ResolvedPaths(entries, configFilepath, fs) == ResolvedPaths(entries[..n], configFilepath, fs) + [ResolvePath(configFilepath, entries[n].0, fs)] &&
      RenderedFolders(entries, configFilepath, targetOs, fs).value
        == before.value[ResolvePath(configFilepath, entries[n].0, fs) := RenderForOs(entries[n].1, targetOs).value]
  {
  }

  /** The output dict has one key per folder include: its absolute path. */
  lemma {:induction false} RenderedFoldersKeys(entries: seq<(string, FolderIncludeItem)>, configFilepath: string, targetOs: string, fs: FileSystem)
    requires RenderedFolders(entries, configFilepath, targetOs, fs).Success?
    ensures forall k :: k in RenderedFolders(entries, configFilepath, targetOs, fs).value <==> k in ResolvedPaths(entries, configFilepath, fs)
    decreases |entries|
  {
    if |entries| > 0 {
      RenderedFoldersSnoc(entries, configFilepath, targetOs, fs);
      RenderedFoldersKeys(entries[..|entries| - 1], configFilepath, targetOs, fs);
    }
  }

  /** The rendering of each folder include, in order. */
  function RenderedItems(entries: seq<(string, FolderIncludeItem)>, targetOs: string): (r: seq<Result<BaseFolderIncludeItem, ConfigError>>)
    ensures |r| == |entries|
    ensures forall i :: 0 <= i < |entries| ==> r[i] == RenderForOs(entries[i].1, targetOs)
  {
    seq(|entries|, i requires 0 <= i < |entries| => RenderForOs(entries[i].1, targetOs))
  }

  /** Each key holds the rendering of the last folder include that resolves to it. */
  lemma {:induction false} RenderedFoldersLastWins(entries: seq<(string, FolderIncludeItem)>, configFilepath: string, targetOs: string, fs: FileSystem)
    requires RenderedFolders(entries, configFilepath, targetOs, fs).Success?
    ensures var paths := ResolvedPaths(entries, configFilepath, fs);
      var items := RenderedItems(entries, targetOs);
      var folders := RenderedFolders(entries, configFilepath, targetOs, fs).value;
      forall i :: 0 <= i < |entries| && paths[i] !in paths[i + 1..] ==>
        items[i].Success? && paths[i] in folders && folders[paths[i]] == items[i].value
    decreases |entries|
  {
    if |entries| > 0 {
      var n := |entries| - 1;
      RenderedFoldersSnoc(entries, configFilepath, targetOs, fs);
      RenderedFoldersLastWins(entries[..n], configFilepath, targetOs, fs);
      var items := RenderedItems(entries, targetOs);
      assert RenderedItems(entries[..n], targetOs) == items[..n];
      LastWinsStep(RenderedFolders(entries[..n], configFilepath, targetOs, fs).value,
        RenderedFolders(entries, configFilepath, targetOs, fs).value,
        ResolvedPaths(entries, configFilepath, fs), items);
    }
  }

  /** Storing the last value under the last path keeps every earlier path that is not stored again. */
  lemma LastWinsStep<V, E>(before: map<string, V>, after: map<string, V>, paths: seq<string>, items: seq<Result<V, E>>)
    requires |paths| == |items| > 0
    requires items[|items| - 1].Success?
    requires after == before[paths[|paths| - 1] := items[|items| - 1].value]
    requires var n := |paths| - 1;
      forall i :: 0 <= i < n && paths[..n][i] !in paths[..n][i + 1..] ==>
        items[..n][i].Success? && paths[..n][i] in before && before[paths[..n][i]] == items[..n][i].value
    ensures forall i :: 0 <= i < |paths| && paths[i] !in paths[i + 1..] ==>
      items[i].Success? && paths[i] in after && after[paths[i]] == items[i].value
  {
    var n := |paths| - 1;
    forall i | 0 <= i < |paths| && paths[i] !in paths[i + 1..]
      ensures items[i].Success? && paths[i] in after && after[paths[i]] == items[i].value
    {
      if i < n {
        assert paths[n] == paths[i + 1..][n - i - 1];
        assert paths[..n][i + 1..] == paths[i + 1..n];
        assert paths[..n][i] == paths[i] && items[..n][i] == items[i];
      }
    }
  }

  /** The folder includes before `i` all render and exist. */
  predicate FoldersFoundBefore(entries: seq<(string, FolderIncludeItem)>, i: nat, configFilepath: string, targetOs: string, fs: FileSystem)
    requires i <= |entries|
  {
    forall j :: 0 <= j < i ==>
      RenderForOs(entries[j].1, targetOs).Success? && fs.pathExists(ResolvePath(configFilepath, entries[j].0, fs))
  }

  /** A root file that is not an existing file stops the rendering before any folder is looked at. */
  lemma MissingRootFileReported(sourceConfig: SourceConfig, configFilepath: string, targetOs: string, fs: FileSystem)
    requires !fs.isFile(ResolvePath(configFilepath, sourceConfig.rootFile, fs))
    ensures RenderedConfig(sourceConfig, configFilepath, targetOs, fs)
      == Failure(NoFileFound(ResolvePath(configFilepath, sourceConfig.rootFile, fs)))
  {
  }

  /** The first folder include whose folder is missing stops the rendering with its absolute path. */
  lemma MissingFolderReported(entries: seq<(string, FolderIncludeItem)>, i: nat, configFilepath: string, targetOs: string, fs: FileSystem)
    requires i < |entries| && FoldersFoundBefore(entries, i, configFilepath, targetOs, fs)
    requires RenderForOs(entries[i].1, targetOs).Success?
    requires !fs.pathExists(ResolvePath(configFilepath, entries[i].0, fs))
    ensures RenderedFolders(entries, configFilepath, targetOs, fs)
      == Failure(NoFolderFound(ResolvePath(configFilepath, entries[i].0, fs)))
  {
    var prefix := entries[..i + 1];
    assert prefix[..i] == entries[..i];
    RenderedFoldersSucceeds(entries[..i], configFilepath, targetOs, fs);
    FailureEndsRendering(entries, i + 1, configFilepath, targetOs, fs);
  }

  /** A successful rendering names an existing root file and existing folders only. */
  lemma RenderedConfigChecksPaths(sourceConfig: SourceConfig, configFilepath: string, targetOs: string, fs: FileSystem)
    requires RenderedConfig(sourceConfig, configFilepath, targetOs, fs).Success?
    ensures var config := RenderedConfig(sourceConfig, configFilepath, targetOs, fs).value;
      config.rootFilepath == ResolvePath(configFilepath, sourceConfig.rootFile, fs) && fs.isFile(config.rootFilepath) &&
      sourceConfig.foldersIncludes.Some? &&
      forall k :: k in config.foldersIncludes ==> fs.pathExists(k)
  {
    var entries := sourceConfig.foldersIncludes.value;
    RenderedFoldersKeys(entries, configFilepath, targetOs, fs);
    RenderedFoldersSucceeds(entries, configFilepath, targetOs, fs);
    forall k | k in RenderedConfig(sourceConfig, configFilepath, targetOs, fs).value.foldersIncludes ensures fs.pathExists(k) {
      var paths := ResolvedPaths(entries, configFilepath, fs);
      var i :| 0 <= i < |paths| && paths[i] == k;
    }
  }
}
