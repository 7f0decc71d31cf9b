/** The engine lifecycle of `FMODSystem`: `init`, `shutdown`, the per-tick `update` with
    its cleanup of finished instances, `checkConfigAndInit`, bank registration and the
    reload of registered banks, and the status-listener list.

    Each operation takes the engine record and the answers of the outside world (host,
    configuration, native calls) and returns the next record. */
module Lifecycle {
  import opened Wrappers
  import opened Text
  import opened EngineState
  import opened Banks
  import NativeLibraries

  /** What `init` learns from outside: whether this is the client process, the `fmodEnabled`
      setting (`None` when reading it throws because the configuration is not loaded yet), the
      library environment, and the native calls' outcomes. `configure3D` is an exception thrown
      while the 3D settings are applied; their result codes are only logged. */
  datatype InitEnv = InitEnv(
    clientSide: bool,
    enabledSetting: Option<bool>,
    libraries: NativeLibraries.LibraryEnv,
    create: Call,
    createdHandle: Handle,
    initialize: Call,
    configure3D: Option<string>,
    banks: BankEnv)

  /** `init` gets past the server-side and configuration checks. */
  predicate Proceeds(env: InitEnv) {
    env.clientSide && env.enabledSetting != Some(false)
  }

  /** Every native step of `init` answers with success. */
  predicate NativeSucceeds(env: InitEnv) {
    env.create == Returned(FmodOk) && env.initialize == Returned(FmodOk) && env.configure3D.None?
  }

  /** The engine after a batch of bank loads, and each bank's outcome in the order attempted. */
  datatype Batch = Batch(engine: Engine, outcomes: seq<bool>)

  function Count(outcomes: seq<bool>): (n: nat)
    ensures n <= |outcomes|
  {
    if outcomes == [] then 0 else (if outcomes[0] then 1 else 0) + Count(outcomes[1..])
  }

  /** The loop of `loadRegisteredBanks` over `regs`: every registration is attempted once, in order,
      and a failure does not stop the rest. */
  function LoadBanksFrom(e: Engine, regs: seq<BankRegistration>, env: BankEnv): (r: Batch)
    decreases |regs|
    ensures r.engine == e.(loadedBanks := r.engine.loadedBanks)
    ensures |r.outcomes| == |regs|
    ensures !IsAvailable(e) ==> r.engine == e
  {
    if regs == [] then Batch(e, [])
    else
      var first := LoadBankFromResource(e, regs[0].modClass, regs[0].resourcePath, env);
      var rest := LoadBanksFrom(first.engine, regs[1..], env);
      Batch(rest.engine, [first.success] + rest.outcomes)
  }

  /** Each registration's outcome is decided on its own: it succeeds exactly when it is loadable
      against the engine the batch started from, so a failure never stops the rest. */
  lemma {:induction false} LoadBanksFromOutcomes(e: Engine, regs: seq<BankRegistration>, env: BankEnv)
    decreases |regs|
    ensures var r := LoadBanksFrom(e, regs, env);
            forall i :: 0 <= i < |regs| ==> (r.outcomes[i] <==> Loadable(e, regs[i].modClass, regs[i].resourcePath, env))
  {
    if regs != [] {
      var first := LoadBankFromResource(e, regs[0].modClass, regs[0].resourcePath, env);
      var rest := LoadBanksFrom(first.engine, regs[1..], env);
      var r := LoadBanksFrom(e, regs, env);
      FirstOutcome(e, regs, env);
      LoadBanksFromOutcomes(first.engine, regs[1..], env);
      forall i | 0 <= i < |regs|
        ensures r.outcomes[i] <==> Loadable(e, regs[i].modClass, regs[i].resourcePath, env)
      {
        if i > 0 {
          var reg := regs[1..][i - 1];
          assert regs[i] == reg;
          assert r.outcomes[i] == rest.outcomes[i - 1];
          assert rest.outcomes[i - 1] <==> Loadable(first.engine, reg.modClass, reg.resourcePath, env);
        }
      }
    }
  }

  /** The first step of a batch: its outcome is the first registration's, judged against `e`, and
      the rest are the outcomes of the batch over the tail. */
  lemma FirstOutcome(e: Engine, regs: seq<BankRegistration>, env: BankEnv)
    requires regs != []
    ensures var first := LoadBankFromResource(e, regs[0].modClass, regs[0].resourcePath, env);
            && IsAvailable(first.engine) == IsAvailable(e)
            && (first.success <==> Loadable(e, regs[0].modClass, regs[0].resourcePath, env))
            && LoadBanksFrom(e, regs, env).outcomes == [first.success] + LoadBanksFrom(first.engine, regs[1..], env).outcomes
  {
  }

  /** No stored bank is lost, and every registration whose resource is found leaves its bytes stored,
      even when the engine then rejects the bank. */
  lemma {:induction false} LoadBanksFromStoresFound(e: Engine, regs: seq<BankRegistration>, env: BankEnv)
    decreases |regs|
    ensures e.loadedBanks.Keys <= LoadBanksFrom(e, regs, env).engine.loadedBanks.Keys
    ensures forall i :: 0 <= i < |regs| && IsAvailable(e) && FindResource(env, regs[i].modClass, regs[i].resourcePath).Some?
              ==> BankFileName(regs[i].resourcePath) in LoadBanksFrom(e, regs, env).engine.loadedBanks
  {
    if regs != [] {
      var first := LoadBankFromResource(e, regs[0].modClass, regs[0].resourcePath, env);
      var after := LoadBanksFrom(e, regs, env).engine.loadedBanks;
      FirstStores(e, regs, env);
      LoadBanksFromStoresFound(first.engine, regs[1..], env);
      forall i | 0 <= i < |regs| && IsAvailable(e) && FindResource(env, regs[i].modClass, regs[i].resourcePath).Some?
        ensures BankFileName(regs[i].resourcePath) in after
      {
        if i > 0 {
          assert regs[i] == regs[1..][i - 1];
        }
      }
    }
  }

  /** The first step of a batch keeps every stored bank's name, adds the first registration's file
      name when its resource is found on an available engine, and hands over to the tail. */
  lemma FirstStores(e: Engine, regs: seq<BankRegistration>, env: BankEnv)
    requires regs != []
    ensures var first := LoadBankFromResource(e, regs[0].modClass, regs[0].resourcePath, env);
            && IsAvailable(first.engine) == IsAvailable(e)
            && e.loadedBanks.Keys <= first.engine.loadedBanks.Keys
            && (var found := FindResource(env, regs[0].modClass, regs[0].resourcePath).Some?;
                IsAvailable(e) && found ==> BankFileName(regs[0].resourcePath) in first.engine.loadedBanks)
            && LoadBanksFrom(e, regs, env).engine == LoadBanksFrom(first.engine, regs[1..], env).engine
  {
  }

  /** Registration `i` of `regs` leaves bytes under `name` when the engine is available: its resource
      is found, and `name` is its file name. */
  predicate StoresUnder(regs: seq<BankRegistration>, i: int, env: BankEnv, name: string) {
    && 0 <= i < |regs|
    && FindResource(env, regs[i].modClass, regs[i].resourcePath).Some?
    && BankFileName(regs[i].resourcePath) == name
  }

  /** `after` is what a batch over `regs` leaves of the stored banks `before` on an available engine:
      the file names of found registrations are added and no other name; a name holds the bytes of the
      last found registration with that name; every other bank keeps its bytes. */
  ghost predicate BatchStores(before: map<string, Bytes>, regs: seq<BankRegistration>, env: BankEnv, after: map<string, Bytes>) {
    && (forall name :: name in after <==> name in before || exists i :: StoresUnder(regs, i, env, name))
    && (forall name, i :: StoresUnder(regs, i, env, name) && (forall j :: i < j ==> !StoresUnder(regs, j, env, name))
          ==> name in after && after[name] == FindResource(env, regs[i].modClass, regs[i].resourcePath).value)
    && (forall name :: name in before && (forall i :: !StoresUnder(regs, i, env, name))
          ==> name in after && after[name] == before[name])
  }

  /** On an available engine a batch stores exactly what `BatchStores` describes: later registrations
      overwrite earlier ones with the same file name, and no other bank is touched. */
  lemma LoadBanksFromStoresLast(e: Engine, regs: seq<BankRegistration>, env: BankEnv)
    requires IsAvailable(e)
    ensures BatchStores(e.loadedBanks, regs, env, LoadBanksFrom(e, regs, env).engine.loadedBanks)
  {
    BatchKeys(e, regs, env);
    BatchKeepsUntouched(e, regs, env);
    BatchKeepsLast(e, regs, env);
  }

  /** One step of a batch: the first registration's effect on the stored banks, and the rest of the
      batch starting from there. */
  lemma BatchStep(e: Engine, regs: seq<BankRegistration>, env: BankEnv)
    requires IsAvailable(e) && regs != []
    ensures var first := LoadBankFromResource(e, regs[0].modClass, regs[0].resourcePath, env);
            && IsAvailable(first.engine)
            && first.engine.loadedBanks == (if StoresUnder(regs, 0, env, BankFileName(regs[0].resourcePath))
                                            then e.loadedBanks[BankFileName(regs[0].resourcePath) := FindResource(env, regs[0].modClass, regs[0].resourcePath).value]
                                            else e.loadedBanks)
            && LoadBanksFrom(e, regs, env).engine == LoadBanksFrom(first.engine, regs[1..], env).engine
    ensures forall k, name :: StoresUnder(regs[1..], k, env, name) <==> 0 <= k && StoresUnder(regs, k + 1, env, name)
  {
    var first := LoadBankFromResource(e, regs[0].modClass, regs[0].resourcePath, env);
    var rest := LoadBanksFrom(first.engine, regs[1..], env);
    assert LoadBanksFrom(e, regs, env) == Batch(rest.engine, [first.success] + rest.outcomes);
    forall k, name
      ensures StoresUnder(regs[1..], k, env, name) <==> 0 <= k && StoresUnder(regs, k + 1, env, name)
    {
      if 0 <= k < |regs| - 1 {
        assert regs[1..][k] == regs[k + 1];
      }
    }
  }

  lemma {:induction false} BatchKeys(e: Engine, regs: seq<BankRegistration>, env: BankEnv)
    requires IsAvailable(e)
    decreases |regs|
    ensures var after := LoadBanksFrom(e, regs, env).engine.loadedBanks;
            forall name :: name in after <==> name in e.loadedBanks || exists i :: StoresUnder(regs, i, env, name)
  {
    if regs != [] {
      var first := LoadBankFromResource(e, regs[0].modClass, regs[0].resourcePath, env);
      var tail := regs[1..];
      BatchStep(e, regs, env);
      BatchKeys(first.engine, tail, env);
      var after := LoadBanksFrom(e, regs, env).engine.loadedBanks;
      forall name
        ensures name in after <==> name in e.loadedBanks || exists i :: StoresUnder(regs, i, env, name)
      {
        if exists i :: StoresUnder(regs, i, env, name) {
          var i :| StoresUnder(regs, i, env, name);
          if i > 0 {
            assert StoresUnder(tail, i - 1, env, name);
          }
        }
        if exists k :: StoresUnder(tail, k, env, name) {
          var k :| StoresUnder(tail, k, env, name);
          assert StoresUnder(regs, k + 1, env, name);
        }
      }
    }
  }

  lemma {:induction false} BatchKeepsUntouched(e: Engine, regs: seq<BankRegistration>, env: BankEnv)
    requires IsAvailable(e)
    decreases |regs|
    ensures var after := LoadBanksFrom(e, regs, env).engine.loadedBanks;
            forall name :: name in e.loadedBanks && (forall i :: !StoresUnder(regs, i, env, name))
              ==> name in after && after[name] == e.loadedBanks[name]
  {
    if regs != [] {
      var first := LoadBankFromResource(e, regs[0].modClass, regs[0].resourcePath, env);
      BatchStep(e, regs, env);
      BatchKeepsUntouched(first.engine, regs[1..], env);
      forall name | name in e.loadedBanks && (forall i :: !StoresUnder(regs, i, env, name))
        ensures forall k :: !StoresUnder(regs[1..], k, env, name)
      {
      }
    }
  }

  lemma {:induction false} BatchKeepsLast(e: Engine, regs: seq<BankRegistration>, env: BankEnv)
    requires IsAvailable(e)
    decreases |regs|
    ensures var after := LoadBanksFrom(e, regs, env).engine.loadedBanks;
            forall name, i :: StoresUnder(regs, i, env, name) && (forall j :: i < j ==> !StoresUnder(regs, j, env, name))
              ==> name in after && after[name] == FindResource(env, regs[i].modClass, regs[i].resourcePath).value
  {
    if regs != [] {
      var first := LoadBankFromResource(e, regs[0].modClass, regs[0].resourcePath, env);
      var tail := regs[1..];
      BatchStep(e, regs, env);
      BatchKeepsLast(first.engine, tail, env);
      BatchKeepsUntouched(first.engine, tail, env);
      var after := LoadBanksFrom(e, regs, env).engine.loadedBanks;
      forall name, i | StoresUnder(regs, i, env, name) && (forall j :: i < j ==> !StoresUnder(regs, j, env, name))
        ensures name in after && after[name] == FindResource(env, regs[i].modClass, regs[i].resourcePath).value
      {
        if i == 0 {
          assert forall k :: !StoresUnder(tail, k, env, name);
        } else {
          assert StoresUnder(tail, i - 1, env, name);
          assert forall k :: i - 1 < k ==> !StoresUnder(tail, k, env, name);
        }
      }
    }
  }

  /** Reloading after a batch stores nothing new: a second batch over the same registrations leaves
      exactly what the first one left. */
  lemma BatchStoresTwice(before: map<string, Bytes>, regs: seq<BankRegistration>, env: BankEnv,
                         middle: map<string, Bytes>, after: map<string, Bytes>)
    ensures BatchStores(before, regs, env, middle) && BatchStores(middle, regs, env, after)
            ==> BatchStores(before, regs, env, after)
  {
  }

  /** `loadRegisteredBanks`: every registration is tried in order; the number of banks loaded,
      `Count(outcomes)`, is the number of registrations loadable on their own, and on an available
      engine every registration whose resource is found leaves its bytes stored. */
  function LoadRegisteredBanks(e: Engine, env: BankEnv): (r: Batch)
    ensures r.engine == e.(loadedBanks := r.engine.loadedBanks) && |r.outcomes| == |e.registeredBanks|
    ensures Count(r.outcomes) == CountLoadable(e, e.registeredBanks, env)
    ensures e.loadedBanks.Keys <= r.engine.loadedBanks.Keys
    ensures IsAvailable(e) ==> forall reg :: reg in e.registeredBanks && FindResource(env, reg.modClass, reg.resourcePath).Some?
                                  ==> BankFileName(reg.resourcePath) in r.engine.loadedBanks
    ensures !IsAvailable(e) ==> r.engine.loadedBanks == e.loadedBanks
    ensures IsAvailable(e) ==> BatchStores(e.loadedBanks, e.registeredBanks, env, r.engine.loadedBanks)
  {
    BatchCountsLoadable(e, e.registeredBanks, env);
    StoresFoundRegistrations(e, e.registeredBanks, env);
    if IsAvailable(e) then
      LoadBanksFromStoresLast(e, e.registeredBanks, env);
      LoadBanksFrom(e, e.registeredBanks, env)
    else
      LoadBanksFrom(e, e.registeredBanks, env)
  }

  /** `LoadBanksFromStoresFound`, stated per registration rather than per position. */
  lemma StoresFoundRegistrations(e: Engine, regs: seq<BankRegistration>, env: BankEnv)
    ensures e.loadedBanks.Keys <= LoadBanksFrom(e, regs, env).engine.loadedBanks.Keys
    ensures IsAvailable(e) ==> forall reg :: reg in regs && FindResource(env, reg.modClass, reg.resourcePath).Some?
                                  ==> BankFileName(reg.resourcePath) in LoadBanksFrom(e, regs, env).engine.loadedBanks
  {
    LoadBanksFromStoresFound(e, regs, env);
    forall reg | IsAvailable(e) && reg in regs && FindResource(env, reg.modClass, reg.resourcePath).Some?
      ensures BankFileName(reg.resourcePath) in LoadBanksFrom(e, regs, env).engine.loadedBanks
    {
      var i :| 0 <= i < |regs| && regs[i] == reg;
    }
  }

  /** How many of `regs` a bank load would accept, judged against `e` alone. */
  function CountLoadable(e: Engine, regs: seq<BankRegistration>, env: BankEnv): (n: nat)
    ensures n <= |regs|
  {
    if regs == [] then 0
    else (if Loadable(e, regs[0].modClass, regs[0].resourcePath, env) then 1 else 0) + CountLoadable(e, regs[1..], env)
  }

  lemma {:induction false} CountLoadableDependsOnAvailability(e1: Engine, e2: Engine, regs: seq<BankRegistration>, env: BankEnv)
    requires IsAvailable(e1) == IsAvailable(e2)
    ensures CountLoadable(e1, regs, env) == CountLoadable(e2, regs, env)
  {
    if regs != [] {
      CountLoadableDependsOnAvailability(e1, e2, regs[1..], env);
    }
  }

  /** The number of banks a batch loads is the number of registrations that are loadable on their
      own: storing bank copies along the way never changes another bank's outcome. */
  lemma {:induction false} BatchCountsLoadable(e: Engine, regs: seq<BankRegistration>, env: BankEnv)
    decreases |regs|
    ensures Count(LoadBanksFrom(e, regs, env).outcomes) == CountLoadable(e, regs, env)
  {
    if regs != [] {
      var first := LoadBankFromResource(e, regs[0].modClass, regs[0].resourcePath, env);
      var rest := LoadBanksFrom(first.engine, regs[1..], env);
      assert LoadBanksFrom(e, regs, env).outcomes == [first.success] + rest.outcomes;
      assert ([first.success] + rest.outcomes)[1..] == rest.outcomes;
      BatchCountsLoadable(first.engine, regs[1..], env);
      CountLoadableDependsOnAvailability(first.engine, e, regs[1..], env);
    }
  }

  /** The `catch` branch of `init`: any exception leaves the engine failed with no handle. */
  function InitException(e: Engine, message: string): Engine {
    e.(status := "Exception: " + message, audioSystem := "None", errorCode := -1,
       initializationFailed := true, systemHandle := 0)
  }

  /** `init`. Library loading (`preInit`) never aborts it: a failure only sets the failure flag and
      the native create is attempted anyway. */
  function Init(e: Engine, env: InitEnv): (r: Engine)
    ensures e.isInitialized ==> r == e
    ensures r.registeredBanks == e.registeredBanks && r.statusListeners == e.statusListeners
    ensures r.activeInstances == e.activeInstances
    ensures Valid(e) ==> Valid(r)
    ensures !e.isInitialized && r.isInitialized ==> r.systemHandle == env.createdHandle
    // Stored banks are kept for reloading: init only adds to them, and only on an available engine.
    ensures e.loadedBanks.Keys <= r.loadedBanks.Keys
    ensures !IsAvailable(r) ==> r.loadedBanks == e.loadedBanks
    ensures !e.isInitialized && IsAvailable(r) ==> BatchStores(e.loadedBanks, e.registeredBanks, env.banks, r.loadedBanks)
  {
    InitWith(e, env, NativeLibraries.PreInit(env.libraries).Some?)
  }

  /** `init` once `preInit` has answered whether the libraries loaded. */
  function InitWith(e: Engine, env: InitEnv, librariesLoaded: bool): (r: Engine)
    ensures e.isInitialized ==> r == e
    ensures r.registeredBanks == e.registeredBanks && r.statusListeners == e.statusListeners
    ensures r.activeInstances == e.activeInstances
    ensures Valid(e) ==> Valid(r)
    ensures !e.isInitialized && r.isInitialized ==> r.systemHandle == env.createdHandle
    // Stored banks are kept for reloading: init only adds to them, and only on an available engine.
    ensures e.loadedBanks.Keys <= r.loadedBanks.Keys
    ensures !IsAvailable(r) ==> r.loadedBanks == e.loadedBanks
    ensures !e.isInitialized && IsAvailable(r) ==> BatchStores(e.loadedBanks, e.registeredBanks, env.banks, r.loadedBanks)
  {
    if e.isInitialized then e
    else
      var reset := e.(initializationFailed := false);
      if !env.clientSide then
        reset.(status := "Skipped (server side)", audioSystem := "None", errorCode := 0)
      else if env.enabledSetting == Some(false) then
        reset.(status := "Disabled in config", audioSystem := "OpenAL", errorCode := 0, initializationFailed := true)
      else
        StartSystem(if librariesLoaded then reset else reset.(initializationFailed := true), env)
  }

  /** The native part of `init`: create the system, initialize it, apply the 3D settings, then load
      the registered banks. Whatever fails, the engine is left without a handle or on the old one. */
  function StartSystem(base: Engine, env: InitEnv): (r: Engine)
    requires !base.isInitialized
    ensures r.registeredBanks == base.registeredBanks && r.statusListeners == base.statusListeners
    ensures r.activeInstances == base.activeInstances
    ensures Valid(base) ==> Valid(r)
    ensures r.isInitialized ==> r.systemHandle == env.createdHandle && r.status == "Successfully initialized"
    ensures !r.isInitialized ==> r.initializationFailed
    ensures base.loadedBanks.Keys <= r.loadedBanks.Keys
    ensures !IsAvailable(r) ==> r.loadedBanks == base.loadedBanks
    ensures IsAvailable(r) ==> BatchStores(base.loadedBanks, base.registeredBanks, env.banks, r.loadedBanks)
  {
    match env.create
    case Threw(message) => InitException(base, message)
    case Returned(createCode) =>
      if createCode != FmodOk then
        base.(status := "Create failed", audioSystem := "None", errorCode := createCode, initializationFailed := true)
      else
        var created := base.(systemHandle := env.createdHandle);
        match env.initialize
        case Threw(message) => InitException(created, message)
        case Returned(initCode) =>
          if initCode != FmodOk then
            created.(status := "Initialize failed", audioSystem := "None", errorCode := initCode,
                     initializationFailed := true, systemHandle := 0)
          else if env.configure3D.Some? then InitException(created, env.configure3D.value)
          else
            var ready := created.(isInitialized := true, status := "Successfully initialized",
                                  audioSystem := "FMOD", errorCode := 0);
            LoadRegisteredBanks(ready, env.banks).engine
  }

  lemma InitSkipsServerSide(e: Engine, env: InitEnv)
    requires !e.isInitialized && !env.clientSide
    ensures var r := Init(e, env);
            && !r.isInitialized && !r.initializationFailed && r.systemHandle == e.systemHandle
            && GetStatus(r) == Status("Skipped (server side)", "None", 0, false)
  {
  }

  lemma InitDisabledInConfig(e: Engine, env: InitEnv)
    requires !e.isInitialized && env.clientSide && env.enabledSetting == Some(false)
    ensures var r := Init(e, env);
            && !r.isInitialized && r.initializationFailed && !IsAvailable(r)
            && GetStatus(r) == Status("Disabled in config", "OpenAL", 0, false)
  {
  }

  lemma InitCreateFails(e: Engine, env: InitEnv, code: int)
    requires !e.isInitialized && Proceeds(env) && env.create == Returned(code) && code != FmodOk
    ensures var r := Init(e, env);
            && !r.isInitialized && r.initializationFailed && r.systemHandle == e.systemHandle
            && GetStatus(r) == Status("Create failed", "None", code, false)
  {
  }

  lemma InitInitializeFails(e: Engine, env: InitEnv, code: int)
    requires !e.isInitialized && Proceeds(env) && env.create == Returned(FmodOk)
    requires env.initialize == Returned(code) && code != FmodOk
    ensures var r := Init(e, env);
            && !r.isInitialized && r.initializationFailed && r.systemHandle == 0
            && GetStatus(r) == Status("Initialize failed", "None", code, false)
  {
  }

  /** An exception from the create call, the initialize call or the 3D configuration. */
  lemma InitThrows(e: Engine, env: InitEnv, message: string)
    requires !e.isInitialized && Proceeds(env)
    requires || env.create == Threw(message)
             || (env.create == Returned(FmodOk) && env.initialize == Threw(message))
             || (env.create == Returned(FmodOk) && env.initialize == Returned(FmodOk) && env.configure3D == Some(message))
    ensures var r := Init(e, env);
            && !r.isInitialized && r.initializationFailed && r.systemHandle == 0
            && GetStatus(r) == Status("Exception: " + message, "None", -1, false)
  {
  }

  /** Success: the engine is initialized with the created handle and every registered bank has been
      tried. It is available exactly when the libraries resolved: a library failure is recorded but
      does not stop the native calls, so the engine can report "Successfully initialized" and still
      refuse all playback. */
  lemma InitSucceeds(e: Engine, env: InitEnv)
    requires !e.isInitialized && Proceeds(env) && NativeSucceeds(env)
    ensures var r := Init(e, env);
            && r.isInitialized && r.systemHandle == env.createdHandle
            && GetStatus(r) == Status("Successfully initialized", "FMOD", 0, true)
            && (IsAvailable(r) <==> NativeLibraries.PreInit(env.libraries).Some?)
            && e.loadedBanks.Keys <= r.loadedBanks.Keys
            && (IsAvailable(r) ==> forall reg :: reg in e.registeredBanks && FindResource(env.banks, reg.modClass, reg.resourcePath).Some?
                                    ==> BankFileName(reg.resourcePath) in r.loadedBanks)
  {
    InitWithSucceeds(e, env, NativeLibraries.PreInit(env.libraries).Some?);
  }

  lemma InitWithSucceeds(e: Engine, env: InitEnv, librariesLoaded: bool)
    requires !e.isInitialized && Proceeds(env) && NativeSucceeds(env)
    ensures var r := InitWith(e, env, librariesLoaded);
            && r.isInitialized && r.systemHandle == env.createdHandle
            && GetStatus(r) == Status("Successfully initialized", "FMOD", 0, true)
            && (IsAvailable(r) <==> librariesLoaded)
            && e.loadedBanks.Keys <= r.loadedBanks.Keys
            && (IsAvailable(r) ==> forall reg :: reg in e.registeredBanks && FindResource(env.banks, reg.modClass, reg.resourcePath).Some?
                                    ==> BankFileName(reg.resourcePath) in r.loadedBanks)
  {
    var r := InitWith(e, env, librariesLoaded);
    var ready := e.(initializationFailed := !librariesLoaded, systemHandle := env.createdHandle, isInitialized := true,
                    status := "Successfully initialized", audioSystem := "FMOD", errorCode := 0);
    assert r == LoadRegisteredBanks(ready, env.banks).engine;
  }

  /** How an entry point as written ends: normally, or by letting an `Error` out to the host. */
  datatype Outcome = Completed(engine: Engine) | Escaped(engine: Engine)

  /** `init` as written. A bundled library the loader rejects throws an `UnsatisfiedLinkError` out of
      `preInit` that neither `preInit` nor init catches: the error reaches the caller with the engine
      as it was, except for the cleared failure flag. Every other run is the corrected `Init`. */
  function InitAsWritten(e: Engine, env: InitEnv): (r: Outcome)
    ensures r.Escaped? <==> && !e.isInitialized && Proceeds(env)
                            && NativeLibraries.BundledOutcome(env.libraries) == NativeLibraries.JarLinkFails
    ensures r.Escaped? ==> r.engine == e.(initializationFailed := false)
    ensures r.Completed? ==> r.engine == Init(e, env)
  {
    if e.isInitialized || !Proceeds(env) then Completed(Init(e, env))
    else match NativeLibraries.PreInitAsWritten(env.libraries)
      case LinkError => Escaped(e.(initializationFailed := false))
      case Resolved(source) => Completed(InitWith(e, env, source.Some?))
  }

  /** A rejected bundled library aborts init as written even when the system search path and every
      native call would succeed: the engine stays down, unflagged and with its old status, while the
      corrected init comes up available from the fallback. */
  lemma LinkErrorEscapesInit(e: Engine, env: InitEnv)
    requires Valid(e) && !e.isInitialized && Proceeds(env) && NativeSucceeds(env)
    requires env.libraries.bundledFmod == NativeLibraries.JarLinkFails && env.libraries.systemPathLoads
    ensures var r := InitAsWritten(e, env);
            && r.Escaped? && !r.engine.isInitialized && !r.engine.initializationFailed
            && GetStatus(r.engine) == GetStatus(e)
    ensures IsAvailable(Init(e, env))
  {
    NativeLibraries.LinkErrorSkipsFallback(env.libraries);
    InitSucceeds(e, env);
  }

  /** `shutdown`: nothing unless initialized with a live handle; otherwise the pool is emptied and the
      handle dropped whatever the native release answers. Registrations and stored banks survive. */
  function Shutdown(e: Engine): (r: Engine)
    ensures !e.isInitialized || e.systemHandle == 0 ==> r == e
    ensures Valid(e) ==> Valid(r) && !r.isInitialized
    ensures r.activeInstances == map[] || r == e
    ensures r.registeredBanks == e.registeredBanks && r.loadedBanks == e.loadedBanks
    ensures r.statusListeners == e.statusListeners
    ensures r.initializationFailed == e.initializationFailed && r.errorCode == e.errorCode
    ensures e.isInitialized && e.systemHandle != 0 ==> GetStatus(r) == Status("Shutdown", "None", e.errorCode, false)
  {
    if !e.isInitialized || e.systemHandle == 0 then e
    else e.(activeInstances := map[], systemHandle := 0, isInitialized := false,
            status := "Shutdown", audioSystem := "None")
  }

  /** `checkConfigAndInit`: initialize once if needed, then set routing from the setting. Disabling
      routing here only changes the status fields; the engine stays up. An unreadable setting
      aborts the whole call. */
  function CheckConfigAndInit(e: Engine, env: InitEnv): (r: Engine)
    ensures env.enabledSetting.None? ==> r == e
    ensures r.registeredBanks == e.registeredBanks && r.statusListeners == e.statusListeners
    ensures r.activeInstances == e.activeInstances
    ensures Valid(e) ==> Valid(r)
    ensures env.enabledSetting == Some(true) ==> r.audioSystem == "FMOD"
    ensures env.enabledSetting == Some(false) ==> r.audioSystem == "OpenAL" && r.status == "Routing disabled"
    ensures env.enabledSetting == Some(false) && e.isInitialized
            ==> r.isInitialized && r.systemHandle == e.systemHandle && r.loadedBanks == e.loadedBanks
    // A stopped engine is initialized first, with the failure flag cleared; routing never changes liveness.
    ensures env.enabledSetting.Some? && !e.isInitialized
            ==> var started := Init(e.(initializationFailed := false), env);
                && r.isInitialized == started.isInitialized && r.systemHandle == started.systemHandle
                && r.initializationFailed == started.initializationFailed
    ensures env.enabledSetting.Some? && e.isInitialized ==> r.isInitialized && r.systemHandle == e.systemHandle
    // Enabling routing on a running engine reloads every registered bank.
    ensures env.enabledSetting == Some(true) && IsAvailable(r)
            ==> forall reg :: reg in r.registeredBanks && FindResource(env.banks, reg.modClass, reg.resourcePath).Some?
                  ==> BankFileName(reg.resourcePath) in r.loadedBanks
    // On a running engine routing touches only the audio system, the status when disabling, and the
    // stored banks when enabling; a reload on an available engine stores exactly what a batch stores.
    ensures env.enabledSetting == Some(true) && e.isInitialized ==> r == e.(audioSystem := "FMOD", loadedBanks := r.loadedBanks)
    ensures env.enabledSetting == Some(true) && e.isInitialized && IsAvailable(e)
            ==> BatchStores(e.loadedBanks, e.registeredBanks, env.banks, r.loadedBanks)
    ensures env.enabledSetting == Some(true) && !IsAvailable(r) ==> r.loadedBanks == e.loadedBanks
    ensures env.enabledSetting == Some(false) && e.isInitialized ==> r == e.(audioSystem := "OpenAL", status := "Routing disabled")
    // A stopped engine ends as the init leaves it, apart from the routing fields and the reload.
    ensures env.enabledSetting == Some(true) && !e.isInitialized
            ==> var started := Init(e.(initializationFailed := false), env);
                r == started.(audioSystem := "FMOD", loadedBanks := r.loadedBanks)
    ensures env.enabledSetting == Some(false) && !e.isInitialized
            ==> r == Init(e.(initializationFailed := false), env).(audioSystem := "OpenAL", status := "Routing disabled")
    // Stored banks are never dropped. Re-enabling a stopped engine reloads what its init stored, and
    // the two batches together store exactly what one batch over the registrations stores.
    ensures e.loadedBanks.Keys <= r.loadedBanks.Keys
    ensures env.enabledSetting == Some(true) && !e.isInitialized && IsAvailable(r)
            ==> BatchStores(Init(e.(initializationFailed := false), env).loadedBanks, e.registeredBanks, env.banks, r.loadedBanks)
    ensures env.enabledSetting == Some(true) && IsAvailable(r)
            ==> BatchStores(e.loadedBanks, e.registeredBanks, env.banks, r.loadedBanks)
  {
    match env.enabledSetting
    case None => e
    case Some(enabled) =>
      var started := if !e.isInitialized then Init(e.(initializationFailed := false), env) else e;
      if enabled then
        var routed := started.(audioSystem := "FMOD");
        if routed.isInitialized then
          var reloaded := LoadRegisteredBanks(routed, env.banks).engine;
          BatchStoresTwice(e.loadedBanks, e.registeredBanks, env.banks, started.loadedBanks, reloaded.loadedBanks);
          reloaded
        else routed
      else
        started.(audioSystem := "OpenAL", status := "Routing disabled")
  }

  /** `checkConfigAndInit` as written: an `Error` escaping the init of a stopped engine passes its
      `catch (Exception)` too, before any routing is set. Every other run is `CheckConfigAndInit`. */
  function CheckConfigAndInitAsWritten(e: Engine, env: InitEnv): (r: Outcome)
    ensures r.Escaped? <==> && env.enabledSetting.Some? && !e.isInitialized
                            && InitAsWritten(e.(initializationFailed := false), env).Escaped?
    ensures r.Escaped? ==> r.engine == e.(initializationFailed := false)
    ensures r.Completed? ==> r.engine == CheckConfigAndInit(e, env)
  {
    if env.enabledSetting.None? || e.isInitialized then Completed(CheckConfigAndInit(e, env))
    else match InitAsWritten(e.(initializationFailed := false), env)
      case Escaped(stopped) => Escaped(stopped)
      case Completed(_) => Completed(CheckConfigAndInit(e, env))
  }

  /** `registerBank`: always answers true and appends exactly one registration, duplicates included;
      the bank is loaded at once only when the engine is initialized. */
  function RegisterBank(e: Engine, modClass: string, path: string, env: BankEnv): (r: Loaded)
    ensures r.success
    ensures r.engine.registeredBanks == e.registeredBanks + [BankRegistration(modClass, path)]
    ensures r.engine == e.(registeredBanks := r.engine.registeredBanks, loadedBanks := r.engine.loadedBanks)
    ensures !e.isInitialized ==> r.engine.loadedBanks == e.loadedBanks
    ensures IsAvailable(e) && FindResource(env, modClass, path).Some?
            ==> r.engine.loadedBanks == e.loadedBanks[BankFileName(path) := FindResource(env, modClass, path).value]
    ensures !IsAvailable(e) || FindResource(env, modClass, path).None? ==> r.engine.loadedBanks == e.loadedBanks
  {
    var registered := e.(registeredBanks := e.registeredBanks + [BankRegistration(modClass, path)]);
    if registered.isInitialized then
      Loaded(LoadBankFromResource(registered, modClass, path, env).engine, true)
    else
      Loaded(registered, true)
  }

  /** A bank registered before the engine comes up is stored once `init` succeeds with the libraries
      resolved and the resource present. */
  lemma RegisterThenInitStoresBank(e: Engine, modClass: string, path: string, env: InitEnv)
    requires !e.isInitialized && Proceeds(env) && NativeSucceeds(env)
    requires NativeLibraries.PreInit(env.libraries).Some?
    requires FindResource(env.banks, modClass, path).Some?
    ensures var r := Init(RegisterBank(e, modClass, path, env.banks).engine, env);
            && r.registeredBanks == e.registeredBanks + [BankRegistration(modClass, path)]
            && IsAvailable(r)
            && BankFileName(path) in r.loadedBanks
  {
    var registered := RegisterBank(e, modClass, path, env.banks).engine;
    InitSucceeds(registered, env);
    assert BankRegistration(modClass, path) in registered.registeredBanks;
  }

  /** `addStatusListener`: appends, duplicates included. */
  function AddStatusListener(e: Engine, listener: nat): (r: Engine)
    ensures r.statusListeners == e.statusListeners + [listener]
    ensures r == e.(statusListeners := r.statusListeners)
  {
    e.(statusListeners := e.statusListeners + [listener])
  }

  /** `removeStatusListener`: removes the first registration of `listener`, if any. */
  function RemoveStatusListener(e: Engine, listener: nat): (r: Engine)
    ensures listener !in e.statusListeners ==> r == e
    ensures listener in e.statusListeners ==> |r.statusListeners| == |e.statusListeners| - 1
    ensures listener in e.statusListeners
            ==> var k := FirstIndex(e.statusListeners, listener);
                r.statusListeners == e.statusListeners[..k] + e.statusListeners[k + 1..]
    ensures r == e.(statusListeners := r.statusListeners)
  {
    e.(statusListeners := RemoveFirst(e.statusListeners, listener))
  }

  /** Adding a new listener and removing it again leaves the engine as it was. */
  lemma AddThenRemoveListener(e: Engine, listener: nat)
    requires listener !in e.statusListeners
    ensures RemoveStatusListener(AddStatusListener(e, listener), listener) == e
  {
    RemoveFirstAfterAppend(e.statusListeners, listener);
  }

  datatype PlaybackState = Playing | Sustaining | Stopped | Starting | Stopping

  /** The answer to a playback-state query on one instance: a result code with the state, or an exception. */
  datatype PlaybackQuery = Answered(code: int, state: PlaybackState) | QueryThrew

  /** An instance the cleanup removes: finished, no longer queryable, or throwing. */
  predicate Reclaimed(q: PlaybackQuery) {
    match q
    case QueryThrew => true
    case Answered(code, state) => code != FmodOk || state == Stopped || state == Stopping
  }

  /** `cleanupFinishedInstances`: removes exactly the reclaimed entries and keeps the others as they
      were. Entries whose query answered are released; a throwing one is only dropped. */
  method CleanupFinishedInstances(pool: map<string, int>, query: int -> PlaybackQuery)
    returns (kept: map<string, int>, released: set<int>)
    ensures forall id :: id in kept <==> id in pool && !Reclaimed(query(pool[id]))
    ensures forall id :: id in kept ==> kept[id] == pool[id]
    ensures released == set id | id in pool && Reclaimed(query(pool[id])) && query(pool[id]).Answered? :: pool[id]
  {
    kept := pool;
    released := {};
    var todo := pool.Keys;
    while todo != {}
      invariant todo <= pool.Keys
      invariant forall id :: id in kept <==> id in pool && (id in todo || !Reclaimed(query(pool[id])))
      invariant forall id :: id in kept ==> kept[id] == pool[id]
      invariant released == set id | id in pool && id !in todo && Reclaimed(query(pool[id])) && query(pool[id]).Answered? :: pool[id]
      decreases todo
    {
      var id :| id in todo;
      var q := query(pool[id]);
      if Reclaimed(q) {
        if q.Answered? {
          released := released + {pool[id]};
        }
        kept := kept - {id};
      }
      todo := todo - {id};
    }
  }

  /** `update`: nothing unless initialized with a live handle; otherwise the cleanup runs. The engine's
      own update call only logs its result. */
  method Update(e: Engine, query: int -> PlaybackQuery) returns (r: Engine, released: set<int>)
    ensures !e.isInitialized || e.systemHandle == 0 ==> r == e && released == {}
    ensures r == e.(activeInstances := r.activeInstances)
    ensures e.isInitialized && e.systemHandle != 0 ==>
              forall id :: id in r.activeInstances <==> id in e.activeInstances && !Reclaimed(query(e.activeInstances[id]))
    ensures forall id :: id in r.activeInstances ==> id in e.activeInstances && r.activeInstances[id] == e.activeInstances[id]
  {
    if !e.isInitialized || e.systemHandle == 0 {
      return e, {};
    }
    var kept;
    kept, released := CleanupFinishedInstances(e.activeInstances, query);
    r := e.(activeInstances := kept);
  }
}
