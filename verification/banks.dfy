/** Loading one sound bank from a mod's resources (`FMODAPI.loadBankFromResource` and
    `loadBankFromStream`). The bytes are always kept for later reloads, under the
    resource's file name, before the engine is asked to load them. */
module Banks {
  import opened Wrappers
  import opened Text
  import opened EngineState

  /** What the host answers while a bank loads: the mod resources, keyed by the class and the path
      exactly as requested, and the storage names whose temporary-file extraction or native load fails. */
  datatype BankEnv = BankEnv(resources: map<(string, string), Bytes>, rejected: set<string>)

  /** The second spelling tried for a missing resource: the leading slash removed if present, added if not. */
  function AltPath(path: string): (r: string)
    ensures r != path
    ensures StartsWith(path, "/") ==> "/" + r == path
    ensures !StartsWith(path, "/") ==> r == "/" + path
  {
    if StartsWith(path, "/") then path[1..] else "/" + path
  }

  /** Toggling the slash twice gives the path back exactly when it does not start with two slashes. */
  lemma AltPathInvolution(path: string)
    ensures AltPath(AltPath(path)) == path <==> !StartsWith(path, "//")
  {
    if StartsWith(path, "//") {
      assert |AltPath(AltPath(path))| == |path| - 2;
    } else if StartsWith(path, "/") {
      assert path[1..] == AltPath(path);
      assert "/" + path[1..] == path;
    } else {
      assert ("/" + path)[1..] == path;
    }
  }

  /** The storage key: what follows the last '/' of the resource path. */
  function BankFileName(path: string): (r: string)
    ensures '/' !in r && EndsWith(path, r)
    ensures '/' !in path ==> r == path
    ensures '/' in path ==> EndsWith(path, "/" + r)
  {
    var r := AfterLast(path, '/');
    assert '/' in path ==> path[|path| - |r| - 1..] == [path[|path| - |r| - 1]] + path[|path| - |r|..];
    r
  }

  /** The resource lookup: the path as given, then its alternative spelling. */
  function FindResource(env: BankEnv, modClass: string, path: string): (r: Option<Bytes>)
    ensures (modClass, path) in env.resources ==> r == Some(env.resources[(modClass, path)])
    ensures (modClass, path) !in env.resources && (modClass, AltPath(path)) in env.resources
            ==> r == Some(env.resources[(modClass, AltPath(path))])
    ensures r.None? <==> (modClass, path) !in env.resources && (modClass, AltPath(path)) !in env.resources
  {
    if (modClass, path) in env.resources then Some(env.resources[(modClass, path)])
    else if (modClass, AltPath(path)) in env.resources then Some(env.resources[(modClass, AltPath(path))])
    else None
  }

  /** The engine after a bank attempt and whether the engine loaded the bank. */
  datatype Loaded = Loaded(engine: Engine, success: bool)

  /** `loadBankFromStream`: store a copy first, then ask the engine (which needs it to be available). */
  function LoadBankFromStream(e: Engine, data: Bytes, path: string, env: BankEnv): (r: Loaded)
    ensures r.engine == e.(loadedBanks := r.engine.loadedBanks)
    ensures BankFileName(path) in r.engine.loadedBanks && r.engine.loadedBanks[BankFileName(path)] == data
    ensures r.engine.loadedBanks.Keys == e.loadedBanks.Keys + {BankFileName(path)}
    ensures r.success <==> IsAvailable(e) && BankFileName(path) !in env.rejected
  {
    var name := BankFileName(path);
    var stored := StoreBankData(e, name, data);
    Loaded(stored, IsAvailable(stored) && name !in env.rejected)
  }

  /** Whether `loadBankFromResource` succeeds, stated without following the code. */
  predicate Loadable(e: Engine, modClass: string, path: string, env: BankEnv) {
    && IsAvailable(e)
    && ((modClass, path) in env.resources || (modClass, AltPath(path)) in env.resources)
    && BankFileName(path) !in env.rejected
  }

  /** `loadBankFromResource`: nothing when unavailable or when neither spelling of the path exists;
      otherwise the bytes are stored under the file name of the path as given, whichever spelling was
      found, and the engine load decides the result. */
  function LoadBankFromResource(e: Engine, modClass: string, path: string, env: BankEnv): (r: Loaded)
    ensures r.success <==> Loadable(e, modClass, path, env)
    ensures r.engine == e.(loadedBanks := r.engine.loadedBanks)
    ensures !IsAvailable(e) ==> r.engine == e
    ensures FindResource(env, modClass, path).None? ==> r.engine == e
    ensures IsAvailable(e) && FindResource(env, modClass, path).Some?
            ==> r.engine.loadedBanks == e.loadedBanks[BankFileName(path) := FindResource(env, modClass, path).value]
  {
    if !IsAvailable(e) then Loaded(e, false)
    else match FindResource(env, modClass, path)
      case None => Loaded(e, false)
      case Some(data) => LoadBankFromStream(e, data, path, env)
  }
}
