/** Locating an application's executable on Windows from its newest
    registry entry (automarkerQt.py `_get_last_exe_windows`, automarker.py
    `_get_last_premiere_exe_windows`). The registry entries, the newest
    version string and file existence are inputs. */
module ExeSearch {
  import opened Outcomes
  import opened Text

  /** The registry values read for one installed version. */
  datatype Install = Install(displayName: string, displayVersion: string, installLocation: string)

  datatype SearchError =
    | NotInstalled(app: string)          // OSError: no registry entry for the application
    | VersionNotListed(version: string)  // IndexError: no entry carries the newest version string
    | ExeNotFound(tried: seq<string>)    // IOError listing every path that was tried

  /** The three folder layouts under the install location, in the order
      they are tried. */
  function FolderNames(app: string, year: string): seq<string> {
    [app + " CC " + year, app + " " + year, ""]
  }

  function CandidatePath(base: string, folder: string, app: string): string {
    Join(Join(base, folder), app + ".exe")
  }

  /** The three executable paths, in the order they are tried. */
  function CandidatePaths(base: string, app: string, year: string): (r: seq<string>)
    ensures |r| == 3
  {
    var folders := FolderNames(app, year);
    seq(3, i requires 0 <= i < 3 => CandidatePath(base, folders[i], app))
  }

  /** The first entry whose version string is the newest one. */
  function FirstWithVersion(installs: seq<Install>, version: string): (r: Option<Install>)
    ensures r.Some? ==> r.value.displayVersion == version
    ensures r.Some? ==> exists i :: 0 <= i < |installs| && installs[i] == r.value
                                  && forall j :: 0 <= j < i ==> installs[j].displayVersion != version
    ensures r.None? <==> forall v :: v in installs ==> v.displayVersion != version
  {
    if installs == [] then None
    else if installs[0].displayVersion == version then Some(installs[0])
    else FirstWithVersion(installs[1..], version)
  }

  /** The index of the first path that is a file; `|paths|` when none is. */
  function FirstFile(paths: seq<string>, isFile: string -> bool): (k: nat)
    ensures k <= |paths|
    ensures k < |paths| ==> isFile(paths[k])
    ensures forall i :: 0 <= i < k ==> !isFile(paths[i])
  {
    if paths == [] then 0
    else if isFile(paths[0]) then 0
    else 1 + FirstFile(paths[1..], isFile)
  }

  /** The result of trying `paths` in order: the first that is a file, or
      the error listing all of them. */
  function FolderOutcome(paths: seq<string>, isFile: string -> bool): Result<string, SearchError> {
    var k := FirstFile(paths, isFile);
    if k < |paths| then Ok(paths[k]) else Err(ExeNotFound(paths))
  }

  /** The paths are tried in order: path `j` is returned when it is a file
      and no earlier one is; any returned path is such a one; the search
      fails, listing every path, exactly when none is a file. */
  lemma FolderOutcomeSpec(paths: seq<string>, isFile: string -> bool, j: nat)
    ensures j < |paths| && isFile(paths[j]) && (forall i :: 0 <= i < j ==> !isFile(paths[i]))
            ==> FolderOutcome(paths, isFile) == Ok(paths[j])
    ensures FolderOutcome(paths, isFile).Ok?
            ==> exists k :: 0 <= k < |paths| && FolderOutcome(paths, isFile) == Ok(paths[k])
                            && isFile(paths[k]) && forall i :: 0 <= i < k ==> !isFile(paths[i])
    ensures FolderOutcome(paths, isFile) == Err(ExeNotFound(paths))
            <==> forall i :: 0 <= i < |paths| ==> !isFile(paths[i])
  {
  }

  /** A returned path is the first that is a file; the error lists all the
      paths exactly when none is. */
  lemma FolderOutcomeFirst(paths: seq<string>, isFile: string -> bool)
    ensures FolderOutcome(paths, isFile).Ok? ==>
              isFile(FolderOutcome(paths, isFile).value) && FirstFile(paths, isFile) < |paths|
              && FolderOutcome(paths, isFile).value == paths[FirstFile(paths, isFile)]
    ensures FolderOutcome(paths, isFile) == Err(ExeNotFound(paths))
            <==> forall k :: 0 <= k < |paths| ==> !isFile(paths[k])
  {
    FolderOutcomeSpec(paths, isFile, 0);
  }

  /** What the search returns. */
  function SearchOutcome(app: string, installs: seq<Install>, newest: string, isFile: string -> bool)
    : Result<string, SearchError>
  {
    if installs == [] then Err(NotInstalled(app))
    else match FirstWithVersion(installs, newest)
      case None => Err(VersionNotListed(newest))
      case Some(info) =>
        FolderOutcome(CandidatePaths(info.installLocation, app, LastToken(info.displayName)), isFile)
  }

  /** The search fails for a missing application exactly when there is no
      entry, and for a missing version exactly when no entry lists it. */
  lemma SearchOutcomeSpec(app: string, installs: seq<Install>, newest: string, isFile: string -> bool)
    ensures SearchOutcome(app, installs, newest, isFile) == Err(NotInstalled(app)) <==> installs == []
    ensures SearchOutcome(app, installs, newest, isFile) == Err(VersionNotListed(newest))
            <==> installs != [] && forall v :: v in installs ==> v.displayVersion != newest
  {
  }

  /** Otherwise the search uses the folders of the first entry `i` that
      lists the newest version: it returns a path or the error listing that
      entry's candidates; a returned path is the first of its candidates
      that is a file, and the search fails exactly when none of them is. */
  lemma SearchOutcomeFirstEntry(app: string, installs: seq<Install>, newest: string, isFile: string -> bool, i: nat)
    ensures i < |installs| && installs[i].displayVersion == newest
            && (forall j :: 0 <= j < i ==> installs[j].displayVersion != newest) ==>
              var ps := CandidatePaths(installs[i].installLocation, app, LastToken(installs[i].displayName));
              var r := SearchOutcome(app, installs, newest, isFile);
              && r == FolderOutcome(ps, isFile)
              && (r.Ok? || r == Err(ExeNotFound(ps)))
              && (r.Ok? ==> isFile(r.value) && FirstFile(ps, isFile) < |ps| && r.value == ps[FirstFile(ps, isFile)])
              && (r == Err(ExeNotFound(ps)) <==> forall k :: 0 <= k < |ps| ==> !isFile(ps[k]))
  {
    if i < |installs| && installs[i].displayVersion == newest
       && (forall j :: 0 <= j < i ==> installs[j].displayVersion != newest) {
      FirstWithVersionIsFirst(installs, newest, i);
      var ps := CandidatePaths(installs[i].installLocation, app, LastToken(installs[i].displayName));
      assert SearchOutcome(app, installs, newest, isFile) == FolderOutcome(ps, isFile);
      FolderOutcomeFirst(ps, isFile);
    }
  }

  /** The entry found is the first one listing the version. */
  lemma FirstWithVersionIsFirst(installs: seq<Install>, version: string, i: nat)
    requires i < |installs| && installs[i].displayVersion == version
    requires forall j :: 0 <= j < i ==> installs[j].displayVersion != version
    ensures FirstWithVersion(installs, version) == Some(installs[i])
  {
    assert installs[i] in installs;
    var r := FirstWithVersion(installs, version);
    var m :| 0 <= m < |installs| && installs[m] == r.value
             && forall j :: 0 <= j < m ==> installs[j].displayVersion != version;
    assert installs[m].displayVersion == version && installs[i].displayVersion == version;
    assert m == i;
  }

  /** Every candidate lies under the install location and names the
      application's executable. */
  lemma CandidatePathsSpec(base: string, app: string, year: string, i: nat)
    requires i < 3
    ensures StartsWith(CandidatePaths(base, app, year)[i], base)
    ensures var p := CandidatePaths(base, app, year)[i];
            |app + ".exe"| <= |p| && p[|p| - |app + ".exe"|..] == app + ".exe"
  {
    var folder := FolderNames(app, year)[i];
    var dir := Join(base, folder);
    JoinSpec(base, folder);
    JoinSpec(dir, app + ".exe");
    var p := Join(dir, app + ".exe");
    assert p[..|dir|] == dir;
    assert p[..|base|] == dir[..|base|];
  }

  /** `_get_last_exe_windows(app_name)`: the registry entry of the newest
      version, then the search of its folder layouts. */
  method LastExeWindows(app: string, installs: seq<Install>, newest: string, isFile: string -> bool)
    returns (r: Result<string, SearchError>)
    ensures r == SearchOutcome(app, installs, newest, isFile)
  {
    if |installs| == 0 {
      return Err(NotInstalled(app));
    }
    var found := FirstWithVersion(installs, newest);
    if found.None? {
      return Err(VersionNotListed(newest));
    }
    var info := found.value;
    r := SearchFolders(info.installLocation, app, LastToken(info.displayName), isFile);
  }

  /** The loop of `_get_last_exe_windows` over the folder layouts, with its
      `wrong_paths` list: cleared and left on the first path that is a
      file, reported when none is. */
  method SearchFolders(basePath: string, app: string, buildYear: string, isFile: string -> bool)
    returns (r: Result<string, SearchError>)
    ensures r == FolderOutcome(CandidatePaths(basePath, app, buildYear), isFile)
  {
    ghost var paths := CandidatePaths(basePath, app, buildYear);
    var folders := FolderNames(app, buildYear);
    var wrongPaths: seq<string> := [];
    var exePath := "";
    var i := 0;
    while i < |folders|
      invariant 0 <= i <= |folders|
      invariant |wrongPaths| == i
      invariant forall j :: 0 <= j < i ==> wrongPaths[j] == paths[j]
      invariant forall j :: 0 <= j < i ==> !isFile(paths[j])
    {
      exePath := CandidatePath(basePath, folders[i], app);
      assert exePath == paths[i];
      if !isFile(exePath) {
        wrongPaths := wrongPaths + [exePath];
        i := i + 1;
        continue;
      }
      assert FirstFile(paths, isFile) == i;
      wrongPaths := [];
      break;
    }
    if |wrongPaths| != 0 {
      assert wrongPaths == paths;
      assert FirstFile(paths, isFile) == 3;
      return Err(ExeNotFound(wrongPaths));
    }
    return Ok(exePath);
  }

  /** `_get_last_premiere_exe_windows()` of the Tk version: the same search
      with the Premiere names written in. */
  method LastPremiereExeWindows(installs: seq<Install>, newest: string, isFile: string -> bool)
    returns (r: Result<string, SearchError>)
    ensures r == SearchOutcome("Adobe Premiere Pro", installs, newest, isFile)
  {
    r := LastExeWindows("Adobe Premiere Pro", installs, newest, isFile);
  }
}
