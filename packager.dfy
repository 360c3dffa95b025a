/**
 * The archive layout of `packager.py`: where each file goes inside the zip
 * (an optional archive prefix in front of its path), the lambda-layer
 * directory names, the `__init__.py` markers `package_files` synthesises for
 * every folder level, and which dependencies still have to be installed.
 * Copying, zipping and running pip are left to the host.
 */
module Packager {
  import opened Wrappers
  import opened Strings
  import opened PyPath
  import opened Host
  import ImportsResolver

  /* ---------------------------------------------------------------------- */
  /* File items                                                             */
  /* ---------------------------------------------------------------------- */

  /** `BaseFileItem.relative_filepath`: `"{prefix}/{relative}"` when an archive prefix is given. */
  function ArchivePath(archivePrefix: Option<string>, relativeFilepath: string): string {
    match archivePrefix
    case None => relativeFilepath
    case Some(prefix) => prefix + "/" + relativeFilepath
  }

  /** Reads back the relative path from a path inside the archive, if it lies under the prefix. */
  function ArchiveRelative(archivePrefix: Option<string>, path: string): Option<string> {
    match archivePrefix
    case None => Some(path)
    case Some(prefix) =>
      if |prefix| + 1 <= |path| && path[..|prefix| + 1] == prefix + "/" then Some(path[|prefix| + 1..]) else None
  }

  /** The prefix can always be taken off again. */
  lemma ArchivePathRoundTrip(archivePrefix: Option<string>, relativeFilepath: string)
    ensures ArchiveRelative(archivePrefix, ArchivePath(archivePrefix, relativeFilepath)) == Some(relativeFilepath)
  {
    if archivePrefix.Some? {
      var prefix := archivePrefix.value;
      var path := prefix + "/" + relativeFilepath;
      assert path[..|prefix| + 1] == prefix + "/";
      assert path[|prefix| + 1..] == relativeFilepath;
    }
  }

  /** Two files with different relative paths never collide in the archive. */
  lemma ArchivePathInjective(archivePrefix: Option<string>, a: string, b: string)
    requires ArchivePath(archivePrefix, a) == ArchivePath(archivePrefix, b)
    ensures a == b
  {
    ArchivePathRoundTrip(archivePrefix, a);
    ArchivePathRoundTrip(archivePrefix, b);
  }

  /** `LocalFileItem`: a file copied from disk. */
  datatype LocalFileItem = LocalFileItem(relativeFilepath: string, absoluteFilepath: string)

  /** `ContentFileItem`: a file written from a string. */
  datatype ContentFileItem = ContentFileItem(relativeFilepath: string, content: string)

  /** `FileItemsFactory`: every item it makes is placed under the same archive prefix. */
  datatype FileItemsFactory = FileItemsFactory(archivePrefix: Option<string>) {
    function MakeLocalFileItem(relativeFilepath: string, absoluteFilepath: string): (r: LocalFileItem)
      ensures r.absoluteFilepath == absoluteFilepath
      ensures ArchiveRelative(archivePrefix, r.relativeFilepath) == Some(relativeFilepath)
    {
      ArchivePathRoundTrip(archivePrefix, relativeFilepath);
      LocalFileItem(ArchivePath(archivePrefix, relativeFilepath), absoluteFilepath)
    }

    function MakeContentFileItem(relativeFilepath: string, content: string): (r: ContentFileItem)
      ensures r.content == content
      ensures ArchiveRelative(archivePrefix, r.relativeFilepath) == Some(relativeFilepath)
    {
      ArchivePathRoundTrip(archivePrefix, relativeFilepath);
      ContentFileItem(ArchivePath(archivePrefix, relativeFilepath), content)
    }
  }

  /* ---------------------------------------------------------------------- */
  /* Lambda layer directories                                               */
  /* ---------------------------------------------------------------------- */

  /** `make_base_python_layer_packages_dir`. */
  function MakeBasePythonLayerPackagesDir(pythonVersion: string): string {
    "python/lib/python" + pythonVersion + "/site-packages"
  }

  /** `make_absolute_python_layer_packages_dirpath`. */
  function MakeAbsolutePythonLayerPackagesDirpath(baseTargetDirpath: string, pythonVersion: string): string {
    baseTargetDirpath + "/" + MakeBasePythonLayerPackagesDir(pythonVersion)
  }

  /** The layer directory is four folders deep and ends in "site-packages". */
  lemma LayerDirComponents(pythonVersion: string)
    requires '/' !in pythonVersion
    ensures Split(MakeBasePythonLayerPackagesDir(pythonVersion), '/') == ["python", "lib", "python" + pythonVersion, ImportsResolver.SitePackages]
  {
    LayerDirSpelled(pythonVersion);
    LayerNamesHaveNoSlash(pythonVersion);
    SplitFour("python", "lib", "python" + pythonVersion, ImportsResolver.SitePackages);
  }

  lemma LayerDirSpelled(pythonVersion: string)
    ensures MakeBasePythonLayerPackagesDir(pythonVersion)
      == "python" + "/" + ("lib" + "/" + (("python" + pythonVersion) + "/" + ImportsResolver.SitePackages))
  {
    assert "python/lib/python" == "python" + "/" + "lib" + "/" + "python";
    assert "/site-packages" == "/" + ImportsResolver.SitePackages;
    Regroup("python", "lib", "python", pythonVersion, ImportsResolver.SitePackages);
  }

  lemma Regroup(a: string, b: string, c: string, v: string, d: string)
    ensures (a + "/" + b + "/" + c) + v + ("/" + d) == a + "/" + (b + "/" + ((c + v) + "/" + d))
  {
  }

  lemma LayerNamesHaveNoSlash(pythonVersion: string)
    requires '/' !in pythonVersion
    ensures '/' !in "python" && '/' !in "lib" && '/' !in "python" + pythonVersion && '/' !in ImportsResolver.SitePackages
  {
  }

  /** The absolute layer directory is the base path followed by the four layer folders. */
  lemma AbsoluteLayerDirComponents(baseTargetDirpath: string, pythonVersion: string)
    requires '/' !in pythonVersion
    ensures Split(MakeAbsolutePythonLayerPackagesDirpath(baseTargetDirpath, pythonVersion), '/')
      == Split(baseTargetDirpath, '/') + ["python", "lib", "python" + pythonVersion, ImportsResolver.SitePackages]
  {
    assert MakeAbsolutePythonLayerPackagesDirpath(baseTargetDirpath, pythonVersion)
      == baseTargetDirpath + ['/'] + MakeBasePythonLayerPackagesDir(pythonVersion);
    SplitConcat(baseTargetDirpath, MakeBasePythonLayerPackagesDir(pythonVersion), '/');
    LayerDirComponents(pythonVersion);
  }

  lemma SplitFour(a: string, b: string, c: string, d: string)
    requires '/' !in a && '/' !in b && '/' !in c && '/' !in d
    ensures Split(a + "/" + (b + "/" + (c + "/" + d)), '/') == [a, b, c, d]
  {
    SplitAfterWord(d, "", '/');
    assert d + "" == d;
    SplitAfterName(c, d, '/');
    SplitAfterName(b, c + "/" + d, '/');
    SplitAfterName(a, b + "/" + (c + "/" + d), '/');
  }

  /* ---------------------------------------------------------------------- */
  /* package_files                                                          */
  /* ---------------------------------------------------------------------- */

  /** The folders of a file's path relative to the common prefix (`Path(os.path.dirname(rel)).parts`). */
  function InitFolderParts(absoluteFilepath: string, commonPrefix: string): seq<string>
    requires IsAbsolute(absoluteFilepath) && IsAbsolute(commonPrefix)
  {
    Parts(Dirname(RelPath(absoluteFilepath, commonPrefix)))
  }

  /** `os.path.join(os.path.join(*parts[0:i + 1]), "__init__.py")`: the marker expected at folder level `i`. */
  function InitFileRelativePath(folderParts: seq<string>, i: nat): string
    requires i < |folderParts|
  {
    PathJoin(JoinAll(folderParts[..i + 1]), "__init__.py")
  }

  /** Storing a key in a dict: a new key goes last, an existing one keeps its place. */
  function StoreKey(keys: seq<string>, k: string): (r: seq<string>)
    ensures k in r && forall x :: x in r <==> x in keys || x == k
  {
    if k in keys then keys else keys + [k]
  }

  /** The dict keys in insertion order after the marker loop has looked at the first `n` folder levels of one file. */
  function MarkersForLevels(keys: seq<string>, paths: seq<string>, commonPrefix: string, folderParts: seq<string>, n: nat): seq<string>
    requires n <= |folderParts|
  {
    if n == 0 then keys
    else
      var before := MarkersForLevels(keys, paths, commonPrefix, folderParts, n - 1);
      var relative := InitFileRelativePath(folderParts, n - 1);
      var absolute := PathJoin(commonPrefix, relative);
      if absolute !in paths && absolute !in before then StoreKey(before, relative) else before
  }

  lemma MarkersForLevelsUnfold(keys: seq<string>, paths: seq<string>, commonPrefix: string, folderParts: seq<string>, n: nat)
    requires n < |folderParts|
    ensures var before := MarkersForLevels(keys, paths, commonPrefix, folderParts, n);
      var relative := InitFileRelativePath(folderParts, n);
      MarkersForLevels(keys, paths, commonPrefix, folderParts, n + 1)
      == if PathJoin(commonPrefix, relative) !in paths && PathJoin(commonPrefix, relative) !in before then StoreKey(before, relative) else before
  {
  }

  /** The folder levels of every input file, relative to the common prefix, in iteration order. */
  function FoldersOf(paths: seq<string>, commonPrefix: string): (r: seq<seq<string>>)
    requires IsAbsolute(commonPrefix) && forall p :: p in paths ==> IsAbsolute(p)
    ensures |r| == |paths|
  {
    seq(|paths|, j requires 0 <= j < |paths| => assert paths[j] in paths; InitFolderParts(paths[j], commonPrefix))
  }

  /** Handling one more input file runs the marker loop over its folder levels. */
  lemma MarkerKeysStep(paths: seq<string>, commonPrefix: string, i: nat)
    requires IsAbsolute(commonPrefix) && forall p :: p in paths ==> IsAbsolute(p)
    requires i < |paths|
    ensures paths[i] in paths
    ensures var folders := FoldersOf(paths, commonPrefix);
      var parts := InitFolderParts(paths[i], commonPrefix);
      MarkerKeys(paths, commonPrefix, folders, i + 1) == MarkersForLevels(MarkerKeys(paths, commonPrefix, folders, i), paths, commonPrefix, parts, |parts|)
  {
    assert paths[i] in paths;
    assert FoldersOf(paths, commonPrefix)[i] == InitFolderParts(paths[i], commonPrefix);
  }

  /** The marker keys, in insertion order, once the files whose folder levels are `folders[..n]` have been handled. */
  function MarkerKeys(paths: seq<string>, commonPrefix: string, folders: seq<seq<string>>, n: nat): seq<string>
    requires n <= |folders|
  {
    if n == 0 then []
    else MarkersForLevels(MarkerKeys(paths, commonPrefix, folders, n - 1), paths, commonPrefix, folders[n - 1], |folders[n - 1]|)
  }

  /** The common prefix of absolute paths starts at the root. */
  lemma CommonPrefixOfAbsolute(paths: seq<string>)
    requires |paths| > 0 && forall p :: p in paths ==> IsAbsolute(p)
    ensures IsAbsolute(CommonPrefix(paths))
  {
    assert forall i :: 0 <= i < |paths| ==> "/" <= paths[i] by {
      forall i | 0 <= i < |paths| ensures "/" <= paths[i] {
        assert paths[i] in paths;
      }
    }
    assert IsCommonPrefix("/", paths);
  }

  /** The local item of an input file: its absolute path, placed at its path relative to the common prefix. */
  function LocalItem(factory: FileItemsFactory, absoluteFilepath: string, commonPrefix: string): LocalFileItem
    requires IsAbsolute(absoluteFilepath) && IsAbsolute(commonPrefix)
  {
    factory.MakeLocalFileItem(RelPath(absoluteFilepath, commonPrefix), absoluteFilepath)
  }

  /** The local items of the first `n` input files, in iteration order. */
  function LocalItems(factory: FileItemsFactory, paths: seq<string>, commonPrefix: string, n: nat): (r: seq<LocalFileItem>)
    requires n <= |paths| && IsAbsolute(commonPrefix) && forall p :: p in paths ==> IsAbsolute(p)
    ensures |r| == n
  {
    assert forall k :: 0 <= k < n ==> paths[k] in paths;
    MapPrefix(paths, n, p requires IsAbsolute(p) => LocalItem(factory, p, commonPrefix))
  }

  /** The `k`-th local item belongs to the `k`-th input file. */
  lemma LocalItemsAt(factory: FileItemsFactory, paths: seq<string>, commonPrefix: string, n: nat, k: nat)
    requires n <= |paths| && IsAbsolute(commonPrefix) && forall p :: p in paths ==> IsAbsolute(p)
    requires k < n
    ensures paths[k] in paths
    ensures LocalItems(factory, paths, commonPrefix, n)[k] == LocalItem(factory, paths[k], commonPrefix)
  {
    assert forall j :: 0 <= j < n ==> paths[j] in paths;
    MapPrefixAt(paths, n, p requires IsAbsolute(p) => LocalItem(factory, p, commonPrefix), k);
  }

  /** The local item keeps the absolute path to copy from and is placed at the path relative to the common prefix. */
  lemma LocalItemPlaced(factory: FileItemsFactory, absoluteFilepath: string, commonPrefix: string)
    requires IsAbsolute(absoluteFilepath) && IsAbsolute(commonPrefix)
    ensures LocalItem(factory, absoluteFilepath, commonPrefix).absoluteFilepath == absoluteFilepath
    ensures ArchiveRelative(factory.archivePrefix, LocalItem(factory, absoluteFilepath, commonPrefix).relativeFilepath)
      == Some(RelPath(absoluteFilepath, commonPrefix))
  {
  }

  /** The marker dict holds exactly `keys`, each mapped to an empty `__init__.py` placed by `factory`. */
  predicate MarkerDict(items: map<string, ContentFileItem>, keys: seq<string>, factory: FileItemsFactory) {
    items.Keys == (set k | k in keys) && forall k :: k in items ==> items[k] == factory.MakeContentFileItem(k, "")
  }

  /**
   * `package_files`: one local item per input path, relative to the common
   * prefix, then the content items of the marker dict in insertion order.
   * `paths` is the input set in its iteration order.
   */
  method PackageFiles(paths: seq<string>, archivePrefix: Option<string>) returns (local: seq<LocalFileItem>, content: seq<ContentFileItem>)
    requires forall p :: p in paths ==> IsAbsolute(p)
    ensures |local| == |paths|
    ensures |paths| > 0 ==> IsAbsolute(CommonPrefix(paths))
    ensures |paths| > 0 ==> local == LocalItems(FileItemsFactory(archivePrefix), paths, CommonPrefix(paths), |paths|)
    ensures |paths| > 0 ==> (
      var keys := MarkerKeys(paths, CommonPrefix(paths), FoldersOf(paths, CommonPrefix(paths)), |paths|);
      |content| == |keys| && forall i :: 0 <= i < |keys| ==> content[i] == FileItemsFactory(archivePrefix).MakeContentFileItem(keys[i], ""))
    ensures |paths| == 0 ==> content == []
  {
    local := [];
    content := [];
    if |paths| == 0 {
      return;
    }
    var commonPrefix := CommonPrefix(paths);
    CommonPrefixOfAbsolute(paths);
    var factory := FileItemsFactory(archivePrefix);
    var keys: seq<string> := [];
    var items: map<string, ContentFileItem> := map[];
    var i := 0;
    while i < |paths|
      invariant 0 <= i <= |paths|
      invariant local == LocalItems(factory, paths, commonPrefix, i)
      invariant keys == MarkerKeys(paths, commonPrefix, FoldersOf(paths, commonPrefix), i)
      invariant MarkerDict(items, keys, factory)
    {
      var absoluteFilepath := paths[i];
      assert absoluteFilepath in paths;
      local := local + [LocalItem(factory, absoluteFilepath, commonPrefix)];
      MarkerKeysStep(paths, commonPrefix, i);
      keys, items := StoreMarkers(paths, commonPrefix, InitFolderParts(absoluteFilepath, commonPrefix), factory, keys, items);
      i := i + 1;
    }
    content := DictValues(items, keys, factory);
  }

  /** `list(d.values())` for the marker dict, in key insertion order. */
  function DictValues(items: map<string, ContentFileItem>, keys: seq<string>, factory: FileItemsFactory): (r: seq<ContentFileItem>)
    requires MarkerDict(items, keys, factory)
    ensures |r| == |keys| && forall i :: 0 <= i < |keys| ==> r[i] == factory.MakeContentFileItem(keys[i], "")
  {
    seq(|keys|, k requires 0 <= k < |keys| => items[keys[k]])
  }

  /** The inner loop of `package_files`: stores the missing `__init__.py` of every folder level of one file. */
  method StoreMarkers(paths: seq<string>, commonPrefix: string, folderParts: seq<string>, factory: FileItemsFactory,
                      keys0: seq<string>, items0: map<string, ContentFileItem>) returns (keys: seq<string>, items: map<string, ContentFileItem>)
    requires MarkerDict(items0, keys0, factory)
    ensures keys == MarkersForLevels(keys0, paths, commonPrefix, folderParts, |folderParts|)
    ensures MarkerDict(items, keys, factory)
  {
    keys, items := keys0, items0;
    var j := 0;
    while j < |folderParts|
      invariant 0 <= j <= |folderParts|
      invariant keys == MarkersForLevels(keys0, paths, commonPrefix, folderParts, j)
      invariant MarkerDict(items, keys, factory)
    {
      var expectedRelative := InitFileRelativePath(folderParts, j);
      var expectedAbsolute := PathJoin(commonPrefix, expectedRelative);
      MarkersForLevelsUnfold(keys0, paths, commonPrefix, folderParts, j);
      if expectedAbsolute !in paths && expectedAbsolute !in items {
        items := items[expectedRelative := factory.MakeContentFileItem(expectedRelative, "")];
        keys := StoreKey(keys, expectedRelative);
      }
      j := j + 1;
    }
  }

  /* Properties of the markers */

  predicate AllRelative(xs: seq<string>) {
    forall k :: k in xs ==> !IsAbsolute(k)
  }

  /** A marker path is relative, so joined onto the (absolute) common prefix it is never a key of the dict. */
  lemma MarkerIsRelative(folderParts: seq<string>, i: nat)
    requires i < |folderParts| && forall j :: 0 <= j < |folderParts| ==> IsName(folderParts[j])
    ensures !IsAbsolute(InitFileRelativePath(folderParts, i))
  {
    var prefix := folderParts[..i + 1];
    assert forall j :: 0 <= j < |prefix| ==> IsName(prefix[j]);
    JoinAllOfNames(prefix);
  }

  /** Storing a relative key keeps the keys relative and distinct. */
  lemma StoreKeyWellFormed(keys: seq<string>, k: string)
    requires AllRelative(keys) && NoDuplicates(keys) && !IsAbsolute(k)
    ensures AllRelative(StoreKey(keys, k)) && NoDuplicates(StoreKey(keys, k))
  {
  }

  /** One folder level: the marker is stored unless it is an input file (the dict test never holds). */
  lemma MarkersForLevelsStep(keys: seq<string>, paths: seq<string>, commonPrefix: string, folderParts: seq<string>, n: nat)
    requires 0 < n <= |folderParts| && IsAbsolute(commonPrefix)
    requires AllRelative(MarkersForLevels(keys, paths, commonPrefix, folderParts, n - 1))
    ensures var before := MarkersForLevels(keys, paths, commonPrefix, folderParts, n - 1);
      var relative := InitFileRelativePath(folderParts, n - 1);
      MarkersForLevels(keys, paths, commonPrefix, folderParts, n)
      == if PathJoin(commonPrefix, relative) !in paths then StoreKey(before, relative) else before
  {
    var before := MarkersForLevels(keys, paths, commonPrefix, folderParts, n - 1);
    var relative := InitFileRelativePath(folderParts, n - 1);
    JoinOntoAbsolute(commonPrefix, relative);
    assert PathJoin(commonPrefix, relative) !in before;
  }

  /** The keys stay relative and distinct through the folder levels of one file. */
  lemma {:induction false} MarkersForLevelsWellFormed(keys: seq<string>, paths: seq<string>, commonPrefix: string, folderParts: seq<string>, n: nat)
    requires n <= |folderParts| && IsAbsolute(commonPrefix) && AllRelative(keys) && NoDuplicates(keys)
    requires forall j :: 0 <= j < |folderParts| ==> IsName(folderParts[j])
    ensures AllRelative(MarkersForLevels(keys, paths, commonPrefix, folderParts, n))
    ensures NoDuplicates(MarkersForLevels(keys, paths, commonPrefix, folderParts, n))
    decreases n
  {
    if n > 0 {
      var before := MarkersForLevels(keys, paths, commonPrefix, folderParts, n - 1);
      var relative := InitFileRelativePath(folderParts, n - 1);
      MarkersForLevelsWellFormed(keys, paths, commonPrefix, folderParts, n - 1);
      MarkersForLevelsStep(keys, paths, commonPrefix, folderParts, n);
      if PathJoin(commonPrefix, relative) !in paths {
        MarkerIsRelative(folderParts, n - 1);
        StoreKeyWellFormed(before, relative);
      }
    }
  }

  /** `k` is the marker of one of the first `n` folder levels of a file. */
  predicate LevelMarker(folderParts: seq<string>, n: nat, k: string)
    requires n <= |folderParts|
  {
    exists i :: 0 <= i < n && k == InitFileRelativePath(folderParts, i)
  }

  /** `k` is the marker of some folder level of one of the first `n` files. */
  predicate FileMarker(folders: seq<seq<string>>, n: nat, k: string)
    requires n <= |folders|
  {
    exists j :: 0 <= j < n && LevelMarker(folders[j], |folders[j]|, k)
  }

  lemma LevelMarkerStep(folderParts: seq<string>, n: nat, k: string)
    requires 0 < n <= |folderParts|
    ensures LevelMarker(folderParts, n, k) <==> LevelMarker(folderParts, n - 1, k) || k == InitFileRelativePath(folderParts, n - 1)
  {
    if LevelMarker(folderParts, n, k) && k != InitFileRelativePath(folderParts, n - 1) {
      var i :| 0 <= i < n && k == InitFileRelativePath(folderParts, i);
      assert i < n - 1;
    }
  }

  lemma FileMarkerStep(folders: seq<seq<string>>, n: nat, k: string)
    requires 0 < n <= |folders|
    ensures FileMarker(folders, n, k) <==> FileMarker(folders, n - 1, k) || LevelMarker(folders[n - 1], |folders[n - 1]|, k)
  {
    if FileMarker(folders, n, k) && !LevelMarker(folders[n - 1], |folders[n - 1]|, k) {
      var j :| 0 <= j < n && LevelMarker(folders[j], |folders[j]|, k);
      assert j < n - 1;
    }
  }

  /** The folder levels of one file add exactly the markers that are not input files themselves. */
  lemma {:induction false} MarkersForLevelsCharacterised(keys: seq<string>, paths: seq<string>, commonPrefix: string, folderParts: seq<string>, n: nat)
    requires n <= |folderParts| && IsAbsolute(commonPrefix) && AllRelative(keys) && NoDuplicates(keys)
    requires forall j :: 0 <= j < |folderParts| ==> IsName(folderParts[j])
    ensures forall k :: k in MarkersForLevels(keys, paths, commonPrefix, folderParts, n) <==>
      k in keys || (LevelMarker(folderParts, n, k) && PathJoin(commonPrefix, k) !in paths)
    decreases n
  {
    if n > 0 {
      var before := MarkersForLevels(keys, paths, commonPrefix, folderParts, n - 1);
      var after := MarkersForLevels(keys, paths, commonPrefix, folderParts, n);
      var relative := InitFileRelativePath(folderParts, n - 1);
      MarkersForLevelsCharacterised(keys, paths, commonPrefix, folderParts, n - 1);
      MarkersForLevelsWellFormed(keys, paths, commonPrefix, folderParts, n - 1);
      MarkersForLevelsStep(keys, paths, commonPrefix, folderParts, n);
      forall k
        ensures k in after <==> k in keys || (LevelMarker(folderParts, n, k) && PathJoin(commonPrefix, k) !in paths)
      {
        LevelMarkerStep(folderParts, n, k);
        assert k in after <==> k in before || (k == relative && PathJoin(commonPrefix, relative) !in paths);
        assert k in before <==> k in keys || (LevelMarker(folderParts, n - 1, k) && PathJoin(commonPrefix, k) !in paths);
      }
    }
  }

  /** Every folder level of every file is a plain name. */
  predicate AllNames(folders: seq<seq<string>>) {
    forall j, i :: 0 <= j < |folders| && 0 <= i < |folders[j]| ==> IsName(folders[j][i])
  }

  /** The marker keys are relative and distinct. */
  lemma {:induction false} MarkerKeysWellFormed(paths: seq<string>, commonPrefix: string, folders: seq<seq<string>>, n: nat)
    requires n <= |folders| && IsAbsolute(commonPrefix) && AllNames(folders)
    ensures AllRelative(MarkerKeys(paths, commonPrefix, folders, n)) && NoDuplicates(MarkerKeys(paths, commonPrefix, folders, n))
    decreases n
  {
    if n > 0 {
      MarkerKeysWellFormed(paths, commonPrefix, folders, n - 1);
      MarkersForLevelsWellFormed(MarkerKeys(paths, commonPrefix, folders, n - 1), paths, commonPrefix, folders[n - 1], |folders[n - 1]|);
    }
  }

  /** The markers of the files handled so far: those of their folder levels that are not input files. */
  lemma {:induction false} MarkerKeysCharacterised(paths: seq<string>, commonPrefix: string, folders: seq<seq<string>>, n: nat)
    requires n <= |folders| && IsAbsolute(commonPrefix) && AllNames(folders)
    ensures forall k :: k in MarkerKeys(paths, commonPrefix, folders, n) <==> FileMarker(folders, n, k) && PathJoin(commonPrefix, k) !in paths
    decreases n
  {
    if n > 0 {
      var before := MarkerKeys(paths, commonPrefix, folders, n - 1);
      var parts := folders[n - 1];
      MarkerKeysCharacterised(paths, commonPrefix, folders, n - 1);
      MarkerKeysWellFormed(paths, commonPrefix, folders, n - 1);
      assert forall i :: 0 <= i < |parts| ==> IsName(parts[i]);
      MarkersForLevelsCharacterised(before, paths, commonPrefix, parts, |parts|);
      var after := MarkerKeys(paths, commonPrefix, folders, n);
      assert after == MarkersForLevels(before, paths, commonPrefix, parts, |parts|);
      forall k
        ensures k in after <==> FileMarker(folders, n, k) && PathJoin(commonPrefix, k) !in paths
      {
        FileMarkerStep(folders, n, k);
        assert k in after <==> k in before || (LevelMarker(parts, |parts|, k) && PathJoin(commonPrefix, k) !in paths);
        assert k in before <==> FileMarker(folders, n - 1, k) && PathJoin(commonPrefix, k) !in paths;
      }
    }
  }

  /** The folders of a path relative to the common prefix are plain names. */
  lemma FolderPartsAreNames(p: string, commonPrefix: string)
    requires IsAbsolute(p) && IsAbsolute(commonPrefix)
    ensures forall j :: 0 <= j < |InitFolderParts(p, commonPrefix)| ==> IsName(InitFolderParts(p, commonPrefix)[j])
  {
    RelPathIsRelative(p, commonPrefix);
    DirnameOfRelative(RelPath(p, commonPrefix));
    PartsOfRelative(Dirname(RelPath(p, commonPrefix)));
  }

  lemma FoldersOfAreNames(paths: seq<string>, commonPrefix: string)
    requires IsAbsolute(commonPrefix) && forall p :: p in paths ==> IsAbsolute(p)
    ensures AllNames(FoldersOf(paths, commonPrefix))
  {
    forall j | 0 <= j < |paths| ensures forall i :: 0 <= i < |FoldersOf(paths, commonPrefix)[j]| ==> IsName(FoldersOf(paths, commonPrefix)[j][i]) {
      assert paths[j] in paths;
      FolderPartsAreNames(paths[j], commonPrefix);
    }
  }

  /**
   * The marker dict of `package_files` holds, without duplicates, exactly
   * the `__init__.py` of every folder level of every input file's path
   * relative to the common prefix, except those that are input files
   * themselves.
   */
  lemma PackageFilesMarkers(paths: seq<string>)
    requires |paths| > 0 && forall p :: p in paths ==> IsAbsolute(p)
    ensures IsAbsolute(CommonPrefix(paths))
    ensures var commonPrefix := CommonPrefix(paths);
      var folders := FoldersOf(paths, commonPrefix);
      var keys := MarkerKeys(paths, commonPrefix, folders, |paths|);
      NoDuplicates(keys) && AllRelative(keys) &&
      forall k :: k in keys <==> FileMarker(folders, |paths|, k) && PathJoin(commonPrefix, k) !in paths
  {
    CommonPrefixOfAbsolute(paths);
    var commonPrefix := CommonPrefix(paths);
    FoldersOfAreNames(paths, commonPrefix);
    MarkerKeysWellFormed(paths, commonPrefix, FoldersOf(paths, commonPrefix), |paths|);
    MarkerKeysCharacterised(paths, commonPrefix, FoldersOf(paths, commonPrefix), |paths|);
  }

  /** A file lying directly under the common prefix has no folder level and so asks for no marker. */
  lemma FileAtPrefixLevel(absoluteFilepath: string, commonPrefix: string)
    requires IsAbsolute(absoluteFilepath) && IsAbsolute(commonPrefix)
    requires '/' !in RelPath(absoluteFilepath, commonPrefix)
    ensures InitFolderParts(absoluteFilepath, commonPrefix) == []
  {
    var r := RelPath(absoluteFilepath, commonPrefix);
    assert LastIndexOf(r, '/') == -1;
    assert Dirname(r) == "";
    assert Split("", '/') == [""];
  }

  /* ---------------------------------------------------------------------- */
  /* Dependencies already installed in the layer folder                    */
  /* ---------------------------------------------------------------------- */

  /** An installed distribution, as far as the packager looks at it: the paths of its top-level modules. */
  datatype Distribution = Distribution(modules: seq<string>)

  /**
   * A dependency must be installed when no distribution was found for it, or
   * when one of its modules is missing from the searched folder.
   */
  predicate NeedsInstall(distribution: Option<Distribution>, dirpathToSearchInto: string, fs: FileSystem) {
    distribution.None? ||
    exists m :: m in distribution.value.modules && !fs.pathExists(PathJoin(dirpathToSearchInto, m))
  }

  /**
   * `resolve_already_installed_dependencies`: the names of the dependencies
   * that are not fully present under `dirpathToSearchInto`.
   */
  method ResolveAlreadyInstalledDependencies(dependenciesDistributions: map<string, Option<Distribution>>, dirpathToSearchInto: string, fs: FileSystem)
    returns (missing: set<string>)
    ensures missing <= dependenciesDistributions.Keys
    ensures forall name :: name in dependenciesDistributions ==>
      (name in missing <==> NeedsInstall(dependenciesDistributions[name], dirpathToSearchInto, fs))
  {
    missing := {};
    var remaining := dependenciesDistributions.Keys;
    while remaining != {}
      invariant remaining <= dependenciesDistributions.Keys
      invariant missing <= dependenciesDistributions.Keys - remaining
      invariant forall name :: name in dependenciesDistributions && name !in remaining ==>
        (name in missing <==> NeedsInstall(dependenciesDistributions[name], dirpathToSearchInto, fs))
      decreases remaining
    {
      var name :| name in remaining;
      var distribution := dependenciesDistributions[name];
      if distribution.None? {
        missing := missing + {name};
      } else {
        var modules := distribution.value.modules;
        var notFullyInstalled := false;
        var i := 0;
        while i < |modules|
          invariant 0 <= i <= |modules|
          invariant forall k :: 0 <= k < i ==> fs.pathExists(PathJoin(dirpathToSearchInto, modules[k]))
        {
          if !fs.pathExists(PathJoin(dirpathToSearchInto, modules[i])) {
            assert modules[i] in modules;
            notFullyInstalled := true;
            break;
          }
          i := i + 1;
        }
        if notFullyInstalled {
          missing := missing + {name};
        } else {
          assert forall m :: m in modules ==> fs.pathExists(PathJoin(dirpathToSearchInto, m));
        }
      }
      remaining := remaining - {name};
    }
  }

  /**
   * The install decision of `resolve_install_and_get_dependencies_files`: pip
   * is asked to install something only when some dependency is missing, and
   * then it is given every included dependency name, not only the missing ones.
   */
  method InstallRequest(dependenciesDistributions: map<string, Option<Distribution>>, includedDependenciesNames: seq<string>,
                        lambdaLayerDirpath: string, fs: FileSystem) returns (install: Option<seq<string>>)
    ensures install.Some? <==> exists name :: name in dependenciesDistributions && NeedsInstall(dependenciesDistributions[name], lambdaLayerDirpath, fs)
    ensures install.Some? ==> install.value == includedDependenciesNames
  {
    var requiringInstallation := ResolveAlreadyInstalledDependencies(dependenciesDistributions, lambdaLayerDirpath, fs);
    if |requiringInstallation| > 0 {
      // A non-empty set has a member, which witnesses the existential in the first ensures.
      assert exists name :: name in requiringInstallation;
      install := Some(includedDependenciesNames);
    } else {
      install := None;
    }
  }
}
