/** `FMODConfig`: the option defaults and ranges, and the reactions to configuration
    events. A configuration load always goes through `checkConfigAndInit`; a runtime
    change starts or stops the engine depending on the setting and on whether the engine
    is running; a manual reinitialization is a shutdown followed by an init. */
module Settings {
  import opened Wrappers
  import opened Text
  import opened EngineState
  import opened Lifecycle

  /** The four options of the configuration file. */
  datatype Options = Options(fmodEnabled: bool, debugLogging: bool, maxInstances: int, customPath: string)

  const MinInstances: int := 32
  const MaxInstances: int := 4096

  predicate InstancesInRange(n: int) {
    MinInstances <= n <= MaxInstances
  }

  /** The defaults: enabled, quiet, 512 instances, no custom library directory. */
  function Defaults(): (o: Options)
    ensures o.fmodEnabled && !o.debugLogging && o.customPath == []
    ensures InstancesInRange(o.maxInstances) && o.maxInstances == 512
  {
    Options(true, false, 512, "")
  }

  /** `onLoad`: a configuration load hands over to `checkConfigAndInit`. From a stopped engine with the
      setting on and every native step answering success, the engine comes up routed to FMOD. */
  function OnLoad(e: Engine, env: InitEnv): (r: Engine)
    ensures env.enabledSetting.None? ==> r == e
    ensures Valid(e) ==> Valid(r)
    ensures !e.isInitialized && env.enabledSetting == Some(true) && env.clientSide && NativeSucceeds(env)
            ==> r.isInitialized && r.systemHandle == env.createdHandle && r.audioSystem == "FMOD"
  {
    CheckConfigAndInit(e, env)
  }

  /** `handleRuntimeConfigChange`: enabled and stopped starts the engine; disabled and running shuts it
      down; every other combination, and an unreadable setting, changes nothing. */
  function HandleRuntimeConfigChange(e: Engine, env: InitEnv): (r: Engine)
    ensures env.enabledSetting.None? ==> r == e
    ensures env.enabledSetting == Some(true) && !e.isInitialized ==> r == CheckConfigAndInit(e, env)
    ensures env.enabledSetting == Some(false) && e.isInitialized ==> r == Shutdown(e)
    ensures env.enabledSetting == Some(true) && e.isInitialized ==> r == e
    ensures env.enabledSetting == Some(false) && !e.isInitialized ==> r == e
    ensures Valid(e) ==> Valid(r)
    ensures Valid(e) && env.enabledSetting == Some(false) ==> !r.isInitialized && r.activeInstances.Keys <= e.activeInstances.Keys
  {
    match env.enabledSetting
    case None => e
    case Some(enabled) =>
      var running := e.isInitialized;
      if enabled && !running then CheckConfigAndInit(e, env)
      else if !enabled && running then Shutdown(e)
      else e
  }

  /** The two entry points disagree about a disabled setting: a configuration load keeps a running
      engine up and only reroutes, while a runtime change tears it down. */
  lemma DisablePolicyDiffersByEntryPoint(e: Engine, env: InitEnv)
    requires Valid(e) && e.isInitialized && env.enabledSetting == Some(false)
    ensures OnLoad(e, env).isInitialized
    ensures !HandleRuntimeConfigChange(e, env).isInitialized
  {
  }

  /** `reinitializeFMOD`: shutdown, then init. */
  function ReinitializeFmod(e: Engine, env: InitEnv): (r: Engine)
    ensures Valid(e) ==> Valid(r)
    ensures r.registeredBanks == e.registeredBanks && r.statusListeners == e.statusListeners
    ensures Valid(e) && e.isInitialized ==> r.activeInstances == map[]
  {
    Init(Shutdown(e), env)
  }

  /** `onLoad` as written: an `Error` escaping `checkConfigAndInit` reaches the host. */
  function OnLoadAsWritten(e: Engine, env: InitEnv): (r: Outcome)
    ensures r.Escaped? <==> CheckConfigAndInitAsWritten(e, env).Escaped?
    ensures r.Completed? ==> r.engine == OnLoad(e, env)
  {
    CheckConfigAndInitAsWritten(e, env)
  }

  /** `handleRuntimeConfigChange` as written: its `catch (Exception)` does not stop an `Error` from the
      start of a stopped engine; a shutdown never escapes. */
  function HandleRuntimeConfigChangeAsWritten(e: Engine, env: InitEnv): (r: Outcome)
    ensures r.Escaped? <==> env.enabledSetting == Some(true) && !e.isInitialized && CheckConfigAndInitAsWritten(e, env).Escaped?
    ensures r.Escaped? ==> r.engine == e.(initializationFailed := false)
    ensures r.Completed? ==> r.engine == HandleRuntimeConfigChange(e, env)
  {
    if env.enabledSetting == Some(true) && !e.isInitialized then CheckConfigAndInitAsWritten(e, env)
    else Completed(HandleRuntimeConfigChange(e, env))
  }

  /** `reinitializeFMOD` as written: the shutdown has happened when the init's `Error` escapes. */
  function ReinitializeFmodAsWritten(e: Engine, env: InitEnv): (r: Outcome)
    ensures r.Escaped? <==> InitAsWritten(Shutdown(e), env).Escaped?
    ensures r.Escaped? ==> r.engine == Shutdown(e).(initializationFailed := false)
    ensures r.Completed? ==> r.engine == ReinitializeFmod(e, env)
  {
    InitAsWritten(Shutdown(e), env)
  }

  /** From the engine as the class loads it, with the setting on and only the jar's fmod rejected by
      the loader, every configuration entry point as written lets the error out to the host, while the
      corrected one comes up available from the system search path. */
  lemma LinkErrorReachesHost(env: InitEnv)
    requires env.clientSide && env.enabledSetting == Some(true) && NativeSucceeds(env)
    requires env.libraries.bundledFmod == NativeLibraries.JarLinkFails && env.libraries.systemPathLoads
    ensures OnLoadAsWritten(Initial(), env).Escaped?
    ensures HandleRuntimeConfigChangeAsWritten(Initial(), env).Escaped?
    ensures ReinitializeFmodAsWritten(Initial(), env).Escaped?
    ensures IsAvailable(OnLoad(Initial(), env)) && IsAvailable(ReinitializeFmod(Initial(), env))
  {
    LinkErrorEscapesInit(Initial(), env);
    InitSucceeds(Initial(), env);
  }

  /** Because shutdown always clears the initialized flag of a valid engine, the init that follows is
      never the early-return no-op: with every native step answering success the engine comes back on
      the new handle, its pool empty and its registrations kept. */
  lemma ReinitializeRestarts(e: Engine, env: InitEnv)
    requires Valid(e) && Proceeds(env) && NativeSucceeds(env)
    ensures !Shutdown(e).isInitialized
    ensures var r := ReinitializeFmod(e, env);
            && r.isInitialized && r.systemHandle == env.createdHandle
            && GetStatus(r) == Status("Successfully initialized", "FMOD", 0, true)
            && (e.isInitialized ==> r.activeInstances == map[])
            && r.registeredBanks == e.registeredBanks
  {
    InitSucceeds(Shutdown(e), env);
  }
}
