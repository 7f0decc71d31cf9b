/** Resolution of the two native engine libraries, `fmod.dll` and `fmodstudio.dll`.

    `preInit` tries the libraries bundled in the mod jar first; failing that,
    `loadSystemLibraries` walks a fallback chain: the configured custom directory,
    then the operating system's library search path, then six well-known install
    directories. The first tier that loads both libraries wins. Each directory tier
    tries the directory itself and then a depth-first scan of its sub-directories,
    at most four levels down.

    The file system is a map from a directory path (as the code spells it) to a
    directory tree; whether `System.load` accepts a file is recorded on the file. */
module NativeLibraries {
  import opened Wrappers
  import opened Text

  /** A directory: its files, each mapped to whether the native loader accepts it,
      and its sub-directories in the order `File.listFiles` returns them. */
  datatype Dir = Dir(files: map<string, bool>, subdirs: seq<Dir>)

  const FmodLibrary: string := "fmod.dll"
  const StudioLibrary: string := "fmodstudio.dll"

  /** The depth bound `loadLibrariesFromPath` passes to the scan. */
  const MaxScanDepth: int := 4

  predicate HasBoth(d: Dir) {
    FmodLibrary in d.files && StudioLibrary in d.files
  }

  /** Both libraries are present and both load (`fmod.dll` first, then `fmodstudio.dll`). */
  predicate LoadsBoth(d: Dir) {
    HasBoth(d) && d.files[FmodLibrary] && d.files[StudioLibrary]
  }

  /** The directory reached from `d` by descending into the sub-directories at the positions in `path`. */
  function Locate(d: Dir, path: seq<nat>): Option<Dir>
    decreases path
  {
    if path == [] then Some(d)
    else if path[0] < |d.subdirs| then Locate(d.subdirs[path[0]], path[1..])
    else None
  }

  /** A directory where the scan stops: at most `budget` levels below `d` and holding both libraries. */
  predicate IsHit(d: Dir, path: seq<nat>, budget: int) {
    |path| <= budget && Locate(d, path).Some? && HasBoth(Locate(d, path).value)
  }

  /** `scanForFMODLibrariesRecursive`: nothing beyond `maxDepth`; this directory when it holds both
      libraries; otherwise the first hit among the sub-directories, taken in listing order. */
  function Scan(d: Dir, maxDepth: int, depth: int): (r: Option<seq<nat>>)
    decreases d, |d.subdirs| + 1
    ensures r.Some? ==> IsHit(d, r.value, maxDepth - depth)
  {
    if depth > maxDepth then None
    else if HasBoth(d) then Some([])
    else ScanFrom(d, 0, maxDepth, depth)
  }

  /** The loop over sub-directories `i..` of `d`, which sits at `depth`. */
  function ScanFrom(d: Dir, i: nat, maxDepth: int, depth: int): (r: Option<seq<nat>>)
    requires i <= |d.subdirs|
    decreases d, |d.subdirs| - i
    ensures r.Some? ==> |r.value| > 0 && i <= r.value[0] && IsHit(d, r.value, maxDepth - depth)
  {
    if i == |d.subdirs| then None
    else match Scan(d.subdirs[i], maxDepth, depth + 1)
      case Some(p) =>
        assert ([i] + p)[1..] == p;
        Some([i] + p)
      case None => ScanFrom(d, i + 1, maxDepth, depth)
  }

  // A reference definition of the scan: the first hit in the pre-order listing of all directories.

  /** Every directory under `d` as a path: `d` itself first, then each sub-tree in listing order. */
  function Preorder(d: Dir): seq<seq<nat>>
    decreases d, |d.subdirs| + 1
  {
    [[]] + PreorderFrom(d, 0)
  }

  function PreorderFrom(d: Dir, i: nat): seq<seq<nat>>
    requires i <= |d.subdirs|
    decreases d, |d.subdirs| - i
  {
    if i == |d.subdirs| then [] else Under(i, Preorder(d.subdirs[i])) + PreorderFrom(d, i + 1)
  }

  /** The paths of a sub-tree, seen from its parent. */
  function Under(i: nat, paths: seq<seq<nat>>): (r: seq<seq<nat>>)
    ensures |r| == |paths|
    ensures forall k :: 0 <= k < |paths| ==> r[k] == [i] + paths[k]
  {
    seq(|paths|, k requires 0 <= k < |paths| => [i] + paths[k])
  }

  /** The first of `paths` that is a hit. */
  function FirstHit(d: Dir, paths: seq<seq<nat>>, budget: int): (r: Option<seq<nat>>)
    ensures r.None? <==> forall k :: 0 <= k < |paths| ==> !IsHit(d, paths[k], budget)
    ensures r.Some? ==> exists k :: 0 <= k < |paths| && paths[k] == r.value && IsHit(d, r.value, budget)
                                    && forall j :: 0 <= j < k ==> !IsHit(d, paths[j], budget)
  {
    if paths == [] then None
    else if IsHit(d, paths[0], budget) then Some(paths[0])
    else
      var r := FirstHit(d, paths[1..], budget);
      assert forall k :: 1 <= k < |paths| ==> paths[k] == paths[1..][k - 1];
      r
  }

  lemma {:induction false} FirstHitAppend(d: Dir, a: seq<seq<nat>>, b: seq<seq<nat>>, budget: int)
    ensures FirstHit(d, a + b, budget) == if FirstHit(d, a, budget).Some? then FirstHit(d, a, budget) else FirstHit(d, b, budget)
  {
    if a != [] {
      assert (a + b)[0] == a[0];
      assert (a + b)[1..] == a[1..] + b;
      FirstHitAppend(d, a[1..], b, budget);
    } else {
      assert a + b == b;
    }
  }

  lemma HitUnder(d: Dir, i: nat, p: seq<nat>, budget: int)
    requires i < |d.subdirs|
    ensures IsHit(d, [i] + p, budget) == IsHit(d.subdirs[i], p, budget - 1)
  {
    assert ([i] + p)[1..] == p;
  }

  lemma {:induction false} FirstHitUnder(d: Dir, i: nat, paths: seq<seq<nat>>, budget: int)
    requires i < |d.subdirs|
    ensures FirstHit(d, Under(i, paths), budget)
         == match FirstHit(d.subdirs[i], paths, budget - 1)
            case Some(p) => Some([i] + p)
            case None => None
  {
    if paths != [] {
      HitUnder(d, i, paths[0], budget);
      assert Under(i, paths)[1..] == Under(i, paths[1..]);
      FirstHitUnder(d, i, paths[1..], budget);
    }
  }

  /** The scan returns exactly the first directory, in depth-first listing order, that lies within
      the depth bound and holds both libraries; it returns nothing when there is none. */
  lemma {:induction false} ScanIsFirstHit(d: Dir, maxDepth: int, depth: int)
    decreases d, |d.subdirs| + 1
    ensures Scan(d, maxDepth, depth) == FirstHit(d, Preorder(d), maxDepth - depth)
  {
    var rest := PreorderFrom(d, 0);
    assert Preorder(d) == [[]] + rest;
    FirstHitAppend(d, [[]], rest, maxDepth - depth);
    ScanFromIsFirstHit(d, 0, maxDepth, depth);
  }

  lemma {:induction false} ScanFromIsFirstHit(d: Dir, i: nat, maxDepth: int, depth: int)
    requires i <= |d.subdirs|
    decreases d, |d.subdirs| - i
    ensures ScanFrom(d, i, maxDepth, depth) == FirstHit(d, PreorderFrom(d, i), maxDepth - depth)
  {
    if i < |d.subdirs| {
      var sub := d.subdirs[i];
      var budget := maxDepth - depth;
      var head := Under(i, Preorder(sub));
      var tail := PreorderFrom(d, i + 1);
      assert PreorderFrom(d, i) == head + tail;
      ScanIsFirstHit(sub, maxDepth, depth + 1);
      assert Scan(sub, maxDepth, depth + 1) == FirstHit(sub, Preorder(sub), budget - 1);
      FirstHitUnder(d, i, Preorder(sub), budget);
      FirstHitAppend(d, head, tail, budget);
      ScanFromIsFirstHit(d, i + 1, maxDepth, depth);
      match Scan(sub, maxDepth, depth + 1)
      case Some(p) =>
        assert FirstHit(d, head, budget) == Some([i] + p);
      case None =>
        assert FirstHit(d, head, budget) == None;
    }
  }

  /** `loadLibrariesFromPath`: the directory itself first, then the scan; the result is where both
      libraries loaded, `[]` being `base` itself. A scan hit that does not load is a failure. */
  function LoadFromPath(fs: map<string, Dir>, base: string): (r: Option<seq<nat>>)
    ensures r.Some? ==> base in fs && Locate(fs[base], r.value).Some? && LoadsBoth(Locate(fs[base], r.value).value)
    ensures r.Some? ==> |r.value| <= MaxScanDepth
    // The direct attempt never changes the outcome: it looks at the same directory as the scan's first step.
    ensures r.Some? <==> base in fs && match Scan(fs[base], MaxScanDepth, 0)
                                       case Some(p) => LoadsBoth(Locate(fs[base], p).value)
                                       case None => false
  {
    if base !in fs then None
    else
      var d := fs[base];
      if LoadsBoth(d) then Some([])
      else match Scan(d, MaxScanDepth, 0)
        case Some(p) => if LoadsBoth(Locate(d, p).value) then Some(p) else None
        case None => None
  }

  /** Where the libraries were loaded from. */
  datatype Source =
    | Bundled
    | CustomPath(dir: string, sub: seq<nat>)
    | SystemPath
    | CommonPath(dir: string, sub: seq<nat>)

  /** What becomes of one library bundled in the jar: it loads; its resource is missing or cannot be
      extracted, which is an `Exception`; or the loader rejects the extracted file, which is an
      `UnsatisfiedLinkError` and so an `Error`, not an `Exception`. */
  datatype JarOutcome = JarLoads | JarMissing | JarLinkFails

  /** What the host answers while the libraries are resolved: the bundled fmod and fmodstudio in
      that order, the custom directory setting (`None` when reading it throws because the
      configuration is not loaded yet), the system search path, and the file system. */
  datatype LibraryEnv = LibraryEnv(
    bundledFmod: JarOutcome,
    bundledStudio: JarOutcome,
    customPath: Option<string>,
    systemPathLoads: bool,
    fs: map<string, Dir>)

  /** The well-known install directories, in the order they are tried. */
  const CommonPaths: seq<string> := [
    "C:\\Program Files (x86)\\FMOD SoundSystem\\FMOD Studio API Windows\\api\\core\\lib\\x64\\",
    "C:\\Program Files\\FMOD SoundSystem\\FMOD Studio API Windows\\api\\core\\lib\\x64\\",
    "C:\\Program Files (x86)\\FMOD\\api\\core\\lib\\x64\\",
    "C:\\Program Files\\FMOD\\api\\core\\lib\\x64\\",
    ".\\fmod\\",
    ".\\libraries\\"
  ]

  /** A configured directory gets a trailing backslash unless it already ends in a separator. */
  function NormalizeDir(path: string): (r: string)
    ensures EndsWith(r, "\\") || EndsWith(r, "/")
    ensures StartsWith(r, path) && |r| <= |path| + 1
    ensures r == path <==> EndsWith(path, "\\") || EndsWith(path, "/")
    // A directory without a trailing separator gets a backslash, never a forward slash.
    ensures !(EndsWith(path, "\\") || EndsWith(path, "/")) ==> EndsWith(r, "\\")
  {
    if EndsWith(path, "\\") || EndsWith(path, "/") then path else path + "\\"
  }

  /** `tryLoadFromCustomPath`: nothing when the setting is unreadable or blank after trimming;
      otherwise the trimmed directory, with a separator appended, is searched. */
  function TryCustomPath(env: LibraryEnv): (r: Option<Source>)
    ensures r.Some? ==> r.value.CustomPath? && env.customPath.Some?
                        && r.value.dir == NormalizeDir(Trim(env.customPath.value))
    ensures env.customPath.Some? && Trim(env.customPath.value) == [] ==> r.None?
    ensures r.Some? <==> && env.customPath.Some? && Trim(env.customPath.value) != []
                         && LoadFromPath(env.fs, NormalizeDir(Trim(env.customPath.value))).Some?
    ensures r.Some? ==> r.value.sub == LoadFromPath(env.fs, r.value.dir).value
  {
    match env.customPath
    case None => None
    case Some(raw) =>
      var trimmed := Trim(raw);
      if trimmed == [] then None
      else
        var dir := NormalizeDir(trimmed);
        match LoadFromPath(env.fs, dir)
        case Some(p) => Some(CustomPath(dir, p))
        case None => None
  }

  /** `tryLoadFromCommonPaths`, from the `i`-th directory on: the first directory, in order, that
      loads; nothing only when every remaining one fails. */
  function TryCommonPaths(fs: map<string, Dir>, i: nat): (r: Option<Source>)
    requires i <= |CommonPaths|
    decreases |CommonPaths| - i
    ensures r.None? <==> forall k :: i <= k < |CommonPaths| ==> LoadFromPath(fs, CommonPaths[k]).None?
    ensures r.Some? ==> exists k :: i <= k < |CommonPaths| && LoadFromPath(fs, CommonPaths[k]).Some?
                                   && r == Some(CommonPath(CommonPaths[k], LoadFromPath(fs, CommonPaths[k]).value))
                                   && forall j :: i <= j < k ==> LoadFromPath(fs, CommonPaths[j]).None?
  {
    if i == |CommonPaths| then None
    else match LoadFromPath(fs, CommonPaths[i])
      case Some(p) => Some(CommonPath(CommonPaths[i], p))
      case None => TryCommonPaths(fs, i + 1)
  }

  /** `loadSystemLibraries`: custom directory, then the system search path, then the common
      directories; `None` stands for the exception thrown when all of them fail. */
  function LoadSystemLibraries(env: LibraryEnv): (r: Option<Source>)
    ensures r != Some(Bundled)
    ensures r.None? <==> && TryCustomPath(env).None? && !env.systemPathLoads
                         && forall k :: 0 <= k < |CommonPaths| ==> LoadFromPath(env.fs, CommonPaths[k]).None?
    ensures r == Some(SystemPath) <==> TryCustomPath(env).None? && env.systemPathLoads
    ensures TryCustomPath(env).Some? ==> r == TryCustomPath(env)
  {
    var custom := TryCustomPath(env);
    if custom.Some? then custom
    else if env.systemPathLoads then Some(SystemPath)
    else TryCommonPaths(env.fs, 0)
  }

  /** `loadNativeLibraries`: fmod, then fmodstudio; the first that does not load decides the outcome,
      and fmodstudio is not tried once fmod has failed. */
  function BundledOutcome(env: LibraryEnv): (r: JarOutcome)
    ensures r == JarLoads <==> env.bundledFmod == JarLoads && env.bundledStudio == JarLoads
    ensures r in {env.bundledFmod, env.bundledStudio}
    ensures env.bundledFmod != JarLoads ==> r == env.bundledFmod
  {
    if env.bundledFmod != JarLoads then env.bundledFmod else env.bundledStudio
  }

  /** How `preInit` as written ends: the libraries resolved, or not (the failure flag is set), or
      with a link error from the jar tier that no `catch (Exception)` stops. */
  datatype Resolution = Resolved(source: Option<Source>) | LinkError

  /** `preInit` as written: only an `Exception` from the jar tier reaches the system fallback. */
  function PreInitAsWritten(env: LibraryEnv): (r: Resolution)
    ensures r.LinkError? <==> BundledOutcome(env) == JarLinkFails
    ensures r.Resolved? ==> r.source == PreInit(env)
  {
    match BundledOutcome(env)
    case JarLoads => Resolved(Some(Bundled))
    case JarMissing => Resolved(LoadSystemLibraries(env))
    case JarLinkFails => LinkError
  }

  /** `preInit` with a rejected bundled library treated like a missing one, as every other tier treats
      a link error: the bundled libraries first, then the system fallback; `None` when every tier failed. */
  function PreInit(env: LibraryEnv): (r: Option<Source>)
    ensures r == Some(Bundled) <==> BundledOutcome(env) == JarLoads
    ensures r.None? <==> BundledOutcome(env) != JarLoads && LoadSystemLibraries(env).None?
  {
    if BundledOutcome(env) == JarLoads then Some(Bundled) else LoadSystemLibraries(env)
  }

  /** A rejected bundled library ends library resolution as written, even when a later tier would
      have loaded, where the corrected resolution goes on to that tier. */
  lemma LinkErrorSkipsFallback(env: LibraryEnv)
    requires env.bundledFmod == JarLinkFails && env.systemPathLoads
    ensures PreInitAsWritten(env) == LinkError
    ensures PreInit(env).Some? && PreInit(env) != Some(Bundled)
  {
  }

  // A reference definition of the fallback chain: a list of tiers, the first success wins.

  datatype Tier = FromJar | FromCustomPath | FromSystemPath | FromCommonPath(dir: string)

  function Tiers(): seq<Tier> {
    [FromJar, FromCustomPath, FromSystemPath] + CommonTiers(0)
  }

  /** One tier per common directory, from the `i`-th on. */
  function CommonTiers(i: nat): seq<Tier>
    requires i <= |CommonPaths|
    decreases |CommonPaths| - i
  {
    if i == |CommonPaths| then [] else [FromCommonPath(CommonPaths[i])] + CommonTiers(i + 1)
  }

  /** One tier on its own. */
  function Attempt(env: LibraryEnv, tier: Tier): Option<Source> {
    match tier
    case FromJar => if BundledOutcome(env) == JarLoads then Some(Bundled) else None
    case FromCustomPath => TryCustomPath(env)
    case FromSystemPath => if env.systemPathLoads then Some(SystemPath) else None
    case FromCommonPath(dir) =>
      match LoadFromPath(env.fs, dir)
      case Some(p) => Some(CommonPath(dir, p))
      case None => None
  }

  /** The first tier, in order, whose attempt succeeds. */
  function FirstSuccess(env: LibraryEnv, tiers: seq<Tier>): Option<Source> {
    if tiers == [] then None
    else if Attempt(env, tiers[0]).Some? then Attempt(env, tiers[0])
    else FirstSuccess(env, tiers[1..])
  }

  /** The first success is nothing exactly when every tier fails, and otherwise is the attempt of a
      tier that every earlier tier failed before. */
  lemma {:induction false} FirstSuccessIsFirst(env: LibraryEnv, tiers: seq<Tier>)
    ensures FirstSuccess(env, tiers).None? <==> forall k :: 0 <= k < |tiers| ==> Attempt(env, tiers[k]).None?
    ensures FirstSuccess(env, tiers).Some? ==>
              exists k :: 0 <= k < |tiers| && Attempt(env, tiers[k]) == FirstSuccess(env, tiers)
                          && forall j :: 0 <= j < k ==> Attempt(env, tiers[j]).None?
  {
    if tiers != [] && Attempt(env, tiers[0]).None? {
      FirstSuccessIsFirst(env, tiers[1..]);
      assert forall k :: 1 <= k < |tiers| ==> tiers[k] == tiers[1..][k - 1];
      if FirstSuccess(env, tiers).Some? {
        var k :| 0 <= k < |tiers[1..]| && Attempt(env, tiers[1..][k]) == FirstSuccess(env, tiers[1..])
                 && forall j :: 0 <= j < k ==> Attempt(env, tiers[1..][j]).None?;
        assert Attempt(env, tiers[k + 1]) == FirstSuccess(env, tiers);
      }
    }
  }

  lemma {:induction false} CommonPathsAreFirstSuccess(env: LibraryEnv, i: nat)
    requires i <= |CommonPaths|
    decreases |CommonPaths| - i
    ensures TryCommonPaths(env.fs, i) == FirstSuccess(env, CommonTiers(i))
  {
    if i < |CommonPaths| {
      var t := CommonTiers(i);
      assert t[0] == FromCommonPath(CommonPaths[i]) && t[1..] == CommonTiers(i + 1);
      CommonPathsAreFirstSuccess(env, i + 1);
      assert FirstSuccess(env, t) == if Attempt(env, t[0]).Some? then Attempt(env, t[0]) else FirstSuccess(env, t[1..]);
    }
  }

  /** Library resolution is the first success along jar, custom directory, system search path and
      the common directories in order: a later tier is tried only when every earlier one failed. */
  lemma PreInitIsFirstSuccess(env: LibraryEnv)
    ensures PreInit(env) == FirstSuccess(env, Tiers())
  {
    var t := Tiers();
    assert t[0] == FromJar && t[1..][0] == FromCustomPath && t[1..][1..][0] == FromSystemPath;
    assert t[1..][1..][1..] == CommonTiers(0);
    CommonPathsAreFirstSuccess(env, 0);
    assert FirstSuccess(env, t[1..][1..]) == LoadSystemLibraries(env.(customPath := None));
    assert FirstSuccess(env, t[1..]) == LoadSystemLibraries(env);
  }
}
