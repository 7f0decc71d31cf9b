# FMOD API engine lifecycle: a Dafny model

This project models the core of the FMOD API mod for Minecraft (NeoForge). The core is the
engine lifecycle kept in `FMODSystem`, the public entry points of `FMODAPI`, and the
configuration reactions of `FMODConfig`. The model covers:

- native-library resolution: the bundled jar, the custom directory, the system search path,
  the six common install directories, and the bounded depth-first scan;
- `init`, with its early exits and failure statuses;
- `shutdown`;
- the per-tick `update`, with its cleanup of finished instances;
- `checkConfigAndInit`, the runtime configuration change and the manual reinitialization;
- bank registration, and the stored-bytes bookkeeping of bank loading;
- the `playEvent` abort ladder and its overloads, and `stopAllSounds`.

The engine's static fields are one immutable record, `EngineState.Engine`. Every operation is
a pure function, or a method in the case of the cleanup loop. It takes the record and the
answers of the outside world, and returns the next record. The outside world covers the
host, the configuration, the file system and the native FMOD calls. Native calls are never
executed. Each is represented by the result code it returned, by the fact that it threw, or
by a plain boolean for "the native loader accepted this file". The record's invariant
`EngineState.Valid` says that the system handle is non-zero exactly while the engine is
initialized. It rests on the assumption that a successful native create never hands back a
null handle.

Two places where the code does not do what its documentation and design say are modelled
twice, as written and corrected (see "## Findings"): the ignored `pitch` argument of
`playEvent`, and a bundled library rejected by the loader, whose `UnsatisfiedLinkError`
escapes every `catch (Exception)` on its way to the host. The corrected library resolution
is the one the rest of the lifecycle is built on; the public play overloads forward to
`playEvent` as written.

Modules:

- `Wrappers`: the optional value standing for Java's nullable references.
- `Text`: the `java.lang.String` behaviour relied on: `trim`, `lastIndexOf`, and `Long.toString`.
- `NativeLibraries`: `preInit` and `loadSystemLibraries` with their helpers.
- `EngineState`: the fields, `isAvailable`, `getStatus`, `storeBankData`, and the list removal used for listeners.
- `Banks`: `loadBankFromResource` and `loadBankFromStream`.
- `Lifecycle`: `init`, `shutdown`, `update`, `checkConfigAndInit`, `loadRegisteredBanks`, `registerBank`, and the status listeners.
- `Playback`: `playEvent` and its overloads, `stopAllSounds`, and `FMODAPI.registerBank`.
- `Settings`: the option defaults, `onLoad`, `handleRuntimeConfigChange` and `reinitializeFMOD`.

## Model

| member | source | states |
|---|---|---|
| Text.Trim | src/main/java/com/fmodapi/FMODSystem.java:296-300 | The trimmed custom path is an infix of the setting, only trimmable characters are cut from either side, and it neither starts nor ends with one. |
| Text.TrimIdempotent | src/main/java/com/fmodapi/FMODSystem.java:296-300 | Trimming the already trimmed path again changes nothing. |
| Text.LastIndexOf | src/main/java/com/fmodapi/FMODAPI.java:300 | The result is -1 exactly when the character is absent; otherwise it holds the character and no later position does. |
| Text.AfterLast | src/main/java/com/fmodapi/FMODAPI.java:300 | The part after the last slash contains no slash, is a suffix of the path, and is either the whole path or preceded by the slash. |
| Text.DecimalString | src/main/java/com/fmodapi/FMODAPI.java:179 | The rendering of the nanoTime stamp is non-empty, starts with '-' exactly for negative values, and is otherwise all digits. |
| Text.DecimalStringInjective | src/main/java/com/fmodapi/FMODAPI.java:179 | Two stamps render to the same text only when they are equal. |
| Playback.InstanceIdInjective | src/main/java/com/fmodapi/FMODAPI.java:179-180 | Two pool keys collide only when they come from the same event name and the same nanoTime reading. |
| NativeLibraries.Scan | src/main/java/com/fmodapi/FMODSystem.java:403-429 | Any directory the scan returns lies at most maxDepth minus the current depth levels below the start, and it holds both fmod.dll and fmodstudio.dll. |
| NativeLibraries.ScanIsFirstHit | src/main/java/com/fmodapi/FMODSystem.java:403-429 | The scan returns exactly the first directory, in depth-first listing order, that is within the depth bound and holds both libraries. It returns nothing when no such directory exists. |
| NativeLibraries.LoadFromPath | src/main/java/com/fmodapi/FMODSystem.java:359-394 | A success names a directory within four levels where both libraries load. It succeeds exactly when the scan's hit loads: the direct attempt never changes the outcome, and a hit that fails to load is not retried further down. |
| NativeLibraries.NormalizeDir | src/main/java/com/fmodapi/FMODSystem.java:300-303 | The custom directory ends in a separator afterwards. It is left alone exactly when it already ended in '\\' or '/'; otherwise exactly one backslash, never a forward slash, is appended. |
| NativeLibraries.TryCustomPath | src/main/java/com/fmodapi/FMODSystem.java:293-313 | An unreadable or blank setting gives no result. Otherwise it succeeds exactly when the trimmed directory, with a separator appended, loads, and the success names that directory and where below it the libraries were found. |
| NativeLibraries.TryCommonPaths | src/main/java/com/fmodapi/FMODSystem.java:333-354 | Nothing is loaded exactly when every remaining common directory fails. Otherwise the result is the first directory, in the listed order, that loads. |
| NativeLibraries.LoadSystemLibraries | src/main/java/com/fmodapi/FMODSystem.java:266-288 | It never reports the bundled libraries. It fails exactly when the custom directory, the system search path and all six common directories fail. The search path is the answer exactly when the custom directory failed and the search path loads, and a custom directory that loads always wins. |
| NativeLibraries.BundledOutcome | src/main/java/com/fmodapi/FMODSystem.java:258-261 | The jar tier loads exactly when both bundled libraries load. A failing fmod decides the outcome and fmodstudio is not tried; otherwise fmodstudio's outcome decides. |
| NativeLibraries.PreInit | src/main/java/com/fmodapi/FMODSystem.java:74-95 | Corrected: the bundled libraries are reported exactly when both bundled libraries load. Resolution fails exactly when the jar tier does not load and the system fallback fails too, whether the jar tier failed with a missing resource or a link error. |
| NativeLibraries.PreInitAsWritten | src/main/java/com/fmodapi/FMODSystem.java:74-95 | As written: the run ends with a link error exactly when the first bundled library that does not load is rejected by the loader. Any other run resolves exactly as the corrected resolution does. |
| NativeLibraries.LinkErrorSkipsFallback | src/main/java/com/fmodapi/FMODSystem.java:74-95 | With the jar's fmod rejected and the system search path loading, the resolution as written ends with the link error, while the corrected one loads from the fallback. |
| NativeLibraries.CommonPathsAreFirstSuccess | src/main/java/com/fmodapi/FMODSystem.java:333-354 | Trying the common directories in order is the first success over the remaining directory tiers. |
| NativeLibraries.FirstSuccessIsFirst | src/main/java/com/fmodapi/FMODSystem.java:266-288 | The reference chain gives nothing exactly when every tier fails. Otherwise it gives the attempt of a tier that every earlier tier failed before. |
| NativeLibraries.PreInitIsFirstSuccess | src/main/java/com/fmodapi/FMODSystem.java:266-288 | The corrected library resolution returns the first tier that succeeds, in the order jar, custom directory, system path, then the six common directories. A later tier is tried only after every earlier one failed. |
| EngineState.Initial | src/main/java/com/fmodapi/FMODSystem.java:25-33 | The engine starts down, not flagged failed, unavailable and valid, with the status "Not initialized", "Pending", -1, and with nothing pooled, stored, registered or listening. |
| EngineState.IsAvailable | src/main/java/com/fmodapi/FMODAPI.java:25-27 | An available engine reports itself initialized and, under the handle invariant, holds a live handle. |
| EngineState.GetStatus | src/main/java/com/fmodapi/FMODAPI.java:32-39 | The snapshot carries the status text, the audio system, the error code and whether the engine is initialized. |
| EngineState.StatusHidesFailure | src/main/java/com/fmodapi/FMODAPI.java:25-39 | The snapshot does not show a recorded failure: an initialized engine reports the same status whether or not it is available. |
| EngineState.StoreBankData | src/main/java/com/fmodapi/FMODSystem.java:641-646 | The new bytes sit under the name, every other stored bank is untouched, and no other field changes. |
| EngineState.RemoveFirst | src/main/java/com/fmodapi/FMODSystem.java:659-661 | Removing a listener drops only its first registration and leaves the list as it was when the listener is absent. |
| EngineState.RemoveFirstAfterAppend | src/main/java/com/fmodapi/FMODSystem.java:652-661 | Adding a new listener and then removing it restores the list. |
| Banks.AltPath | src/main/java/com/fmodapi/FMODAPI.java:273 | The alternative spelling differs from the path: the leading slash is removed if present and added if absent. |
| Banks.AltPathInvolution | src/main/java/com/fmodapi/FMODAPI.java:273 | Toggling the slash twice gives the path back exactly when the path does not start with two slashes. |
| Banks.BankFileName | src/main/java/com/fmodapi/FMODAPI.java:300 | The storage key has no slash, is a suffix of the resource path, and is the whole path when the path has no slash. |
| Banks.FindResource | src/main/java/com/fmodapi/FMODAPI.java:270-281 | The path as given wins over its alternative spelling. Nothing is found only when neither spelling exists. |
| Banks.LoadBankFromStream | src/main/java/com/fmodapi/FMODAPI.java:293-326 | The bytes are always stored under the file name, whatever the engine answers. The load succeeds exactly when the engine is available and accepts the bank. |
| Banks.LoadBankFromResource | src/main/java/com/fmodapi/FMODAPI.java:265-288 | It succeeds exactly when the engine is available, one spelling exists, and the bank is accepted. Nothing changes when the engine is unavailable or the resource is missing. Otherwise the bytes are stored under the file name of the path as requested, whichever spelling was found. |
| Lifecycle.LoadRegisteredBanks | src/main/java/com/fmodapi/FMODSystem.java:667-691 | Every registration gets one outcome and only stored banks change. The success count is the number of registrations loadable on their own. An unavailable engine keeps its stored banks exactly. On an available engine the stored banks gain exactly the file names of the found registrations, each holding the bytes of the last found registration with that name, and every other bank keeps its bytes. |
| Lifecycle.LoadBanksFromStoresLast | src/main/java/com/fmodapi/FMODSystem.java:674-686 | On an available engine a batch adds exactly the file names of found registrations. A later registration with the same file name overwrites an earlier one, even if the engine then rejects it, and no other stored bank changes. |
| Lifecycle.BatchStoresTwice | src/main/java/com/fmodapi/FMODSystem.java:511-526 | A second batch over the same registrations, as the enabling branch runs after init, leaves exactly what one batch leaves. |
| Lifecycle.LoadBanksFrom | src/main/java/com/fmodapi/FMODSystem.java:667-691 | Each registration gets exactly one outcome. Only stored banks change, and nothing changes when the engine is unavailable. |
| Lifecycle.LoadBanksFromOutcomes | src/main/java/com/fmodapi/FMODSystem.java:674-686 | Outcome i is true exactly when registration i is loadable against the starting engine, so a failure never stops the rest. |
| Lifecycle.LoadBanksFromStoresFound | src/main/java/com/fmodapi/FMODSystem.java:674-686 | No stored bank name disappears. When the engine is available, the file name of every registration whose resource is found is among the stored banks afterwards, even if the engine then rejects the bank. |
| Lifecycle.BatchCountsLoadable | src/main/java/com/fmodapi/FMODSystem.java:674-690 | The success count is the number of registrations loadable on their own: storing banks along the way never changes another bank's outcome. |
| Lifecycle.Init | src/main/java/com/fmodapi/FMODSystem.java:100-229 | Corrected library resolution. It is a no-op when already initialized. It keeps the handle invariant. It never touches registrations, listeners or the instance pool. A newly initialized engine holds the created handle. Stored banks are only ever added to, and an engine that ends unavailable keeps them exactly. When a stopped engine comes up available, its stored banks are exactly what one batch over its registrations stores. |
| Lifecycle.InitWith | src/main/java/com/fmodapi/FMODSystem.java:100-146 | Given the library outcome, init has the same frame, stored-bank and handle guarantees as init itself, including the exact bytes a batch stores when the engine comes up available. |
| Lifecycle.StartSystem | src/main/java/com/fmodapi/FMODSystem.java:146-228 | The native part never touches registrations, listeners or the pool. It keeps the handle invariant. An engine it leaves down is flagged failed, and one it brings up holds the created handle with "Successfully initialized". Stored banks are only added to, and are unchanged whenever the engine ends unavailable. An engine it brings up available holds exactly what one batch over the registrations stores. |
| Lifecycle.InitAsWritten | src/main/java/com/fmodapi/FMODSystem.java:100-146 | As written: init lets an error out exactly when it gets past the server-side and configuration checks and a bundled library is rejected by the loader. The escaped engine is the one it started from with the failure flag cleared. Every other run ends as the corrected init. |
| Lifecycle.LinkErrorEscapesInit | src/main/java/com/fmodapi/FMODSystem.java:100-146 | With the jar's fmod rejected, the system search path loading and every native call succeeding, init as written escapes and leaves the engine down, unflagged and with its old status. The corrected init comes up available. |
| Lifecycle.InitSkipsServerSide | src/main/java/com/fmodapi/FMODSystem.java:108-115 | On the server the engine stays down with the status "Skipped (server side)", "None", 0 and the failure flag cleared. |
| Lifecycle.InitDisabledInConfig | src/main/java/com/fmodapi/FMODSystem.java:117-127 | A disabled setting leaves the engine down, unavailable and flagged failed, with the status "Disabled in config", "OpenAL", 0. |
| Lifecycle.InitCreateFails | src/main/java/com/fmodapi/FMODSystem.java:148-160 | A failing create code leaves the engine down and failed, with the status "Create failed", "None" and that code. |
| Lifecycle.InitInitializeFails | src/main/java/com/fmodapi/FMODSystem.java:172-183 | A failing initialize code leaves the engine down and failed, with the handle zeroed and the status "Initialize failed", "None" and that code. |
| Lifecycle.InitThrows | src/main/java/com/fmodapi/FMODSystem.java:221-228 | An exception from create, initialize or the 3D setup leaves the engine down and failed, with the handle zeroed and the status "Exception: " plus the message, "None", -1. |
| Lifecycle.InitSucceeds | src/main/java/com/fmodapi/FMODSystem.java:136-219 | When every native call succeeds, the engine is up on the created handle with the status "Successfully initialized", "FMOD", 0. It is available exactly when the libraries resolved, because a library failure does not stop init. When available, every registered bank that is found gets stored. |
| Lifecycle.Shutdown | src/main/java/com/fmodapi/FMODSystem.java:540-565 | It is a no-op unless the engine is initialized with a live handle. Otherwise the pool is emptied and the handle dropped whatever the release answers, with the status "Shutdown", "None". Registrations, stored banks, listeners, the failure flag and the error code survive. |
| Lifecycle.CheckConfigAndInit | src/main/java/com/fmodapi/FMODSystem.java:506-535 | An unreadable setting changes nothing. A stopped engine ends as the init with its failure flag cleared leaves it, except for the routing fields and the reload. On a running engine, enabling changes only the audio system to "FMOD" and the stored banks, which an available engine reloads exactly as a batch stores them. Disabling changes only the audio system to "OpenAL" and the status to "Routing disabled". An unavailable result keeps the stored banks. No stored bank is ever dropped. Whenever enabling leaves the engine available, the stored banks are exactly what one batch over the registrations stores, starting from the banks stored before the call; for a stopped engine this holds also against what its init stored. |
| Lifecycle.CheckConfigAndInitAsWritten | src/main/java/com/fmodapi/FMODSystem.java:506-535 | As written: it lets an error out exactly when the setting is readable and the init of a stopped engine as written escapes, leaving the engine with only the failure flag cleared and no routing set. Every other run ends as the corrected one. |
| Lifecycle.RegisterBank | src/main/java/com/fmodapi/FMODSystem.java:701-717 | It always answers true and appends exactly one registration, duplicates included. Stored banks change only when the engine is available and the resource is found, and then exactly the found bank is stored under its file name. |
| Lifecycle.RegisterThenInitStoresBank | src/main/java/com/fmodapi/FMODSystem.java:701-717 | A bank registered before the engine comes up is stored by the following successful init when the libraries resolved and the resource exists. |
| Lifecycle.AddStatusListener | src/main/java/com/fmodapi/FMODSystem.java:652-654 | The listener is appended and nothing else changes. |
| Lifecycle.RemoveStatusListener | src/main/java/com/fmodapi/FMODSystem.java:659-661 | An absent listener changes nothing. A present one loses exactly its first registration, the list keeping its order otherwise, and nothing else changes. |
| Lifecycle.AddThenRemoveListener | src/main/java/com/fmodapi/FMODSystem.java:652-661 | Adding a new listener and removing it again gives back the same engine. |
| Lifecycle.CleanupFinishedInstances | src/main/java/com/fmodapi/FMODSystem.java:571-609 | An entry is kept exactly when its playback query answered OK with a state other than stopped or stopping, and kept entries keep their instance. The released set is exactly the removed instances whose query answered; a throwing query is dropped without a release. |
| Lifecycle.Update | src/main/java/com/fmodapi/FMODSystem.java:483-500 | It is a no-op unless initialized with a live handle. Otherwise the pool keeps exactly the entries that are not reclaimed, and no other field changes. |
| Playback.Play | src/main/java/com/fmodapi/FMODAPI.java:91-189 | An id comes back exactly when routing is not disabled, the engine is available, the event exists, the instance is created, and the start succeeds. Otherwise the engine is unchanged. On success the pool maps the key made of the event name, "_" and the stamp to the new instance, replacing an entry with the same key, and is otherwise unchanged. Disabled routing or an unavailable engine issue no native call. |
| Playback.Configure | src/main/java/com/fmodapi/FMODAPI.java:143-168 | Before the start, a position call is issued exactly when a position is given, a volume call exactly when the volume is not 1, and a pitch call exactly when a step is given, each on the created instance with the given value. They come in the order position, volume, pitch, each at most once. |
| Playback.PlayCalls | src/main/java/com/fmodapi/FMODAPI.java:111-176 | A ladder that stops early issues at most the lookup and the creation. One that reaches an instance issues the lookup, the creation, the configuration and the start, plus a release exactly when the start fails. |
| Playback.PlayTrace | src/main/java/com/fmodapi/FMODAPI.java:111-176 | A reached instance is looked up by its full "event:/" path first, gets the position when one is given, and is started. A failed start ends with its release, and no release is issued when an id comes back. |
| Playback.PlayPitchCalls | src/main/java/com/fmodapi/FMODAPI.java:143-168 | Every pitch call the ladder issues is the given pitch step, on a created instance the ladder reached, and a reached instance always gets that step. |
| Playback.PlayEventAsWritten | src/main/java/com/fmodapi/FMODAPI.java:91-189 | The method as written never issues a pitch call. It returns an id exactly when the ladder succeeds; the id is the event name with the stamp, and the pool gains exactly that entry; otherwise the engine is unchanged. |
| Playback.PitchHasNoEffect | src/main/java/com/fmodapi/FMODAPI.java:91-189 | The method as written returns the same engine, id and calls for every pitch argument. |
| Playback.PlayEvent | src/main/java/com/fmodapi/FMODAPI.java:83-91 | Corrected per the documented pitch parameter: a reached instance gets a pitch call exactly when the pitch is not 1, and no pitch call is issued at pitch 1. Success is still decided by the same ladder, with the same id and pool effect as the call as written. |
| Playback.UnitPitchAgreesWithAsWritten | src/main/java/com/fmodapi/FMODAPI.java:47-49 | At pitch 1, which `playEvent(eventName, position)` and `playEventSimple` pass, the corrected method is identical to the one as written. |
| Playback.PlayEventDefault | src/main/java/com/fmodapi/FMODAPI.java:47-49 | It forwards to `playEvent` as written. With unit volume and pitch, neither a volume nor a pitch call is issued, and success is the ladder's. A returned id is the event name with the stamp, and the pool gains exactly that entry; on failure the engine is unchanged. |
| Playback.PlayEventAt | src/main/java/com/fmodapi/FMODAPI.java:61-63 | It forwards to `playEvent` as written: a reached instance always gets the 3D position (x, y, z) and the volume when it is not 1, no pitch call is ever issued, and success is the ladder's. A returned id is the event name with the stamp, and the pool gains exactly that entry; on failure the engine is unchanged. |
| Playback.PlayEventAtDropsPitch | src/main/java/com/fmodapi/FMODAPI.java:61-63 | A pitch other than 1 requested through `playEventAt` never reaches the instance, where the corrected `playEvent` applies it. |
| Playback.InstanceId | src/main/java/com/fmodapi/FMODAPI.java:179 | The pool key starts with the event name and an underscore and has at least one character after them. |
| Playback.PlayEventSimple | src/main/java/com/fmodapi/FMODAPI.java:73-81 | It is true exactly when the ladder succeeds, and then exactly the new instance is pooled under its id; when false, nothing changes. |
| Playback.StopAllSounds | src/main/java/com/fmodapi/FMODAPI.java:409-426 | It is a no-op when unavailable; otherwise the pool ends empty. Only the pool changes. |
| Playback.RegisterBank | src/main/java/com/fmodapi/FMODAPI.java:436-438 | It always answers true and appends exactly the one registration. Only registrations and stored banks change. The bank is stored under its file name exactly when the engine is available and the resource is found; otherwise the stored banks are unchanged. |
| Settings.Defaults | src/main/java/com/fmodapi/FMODConfig.java:22-44 | Enabled, no debug logging, an empty custom path, and 512 instances, which lies within the allowed 32 to 4096. |
| Settings.OnLoad | src/main/java/com/fmodapi/FMODConfig.java:48-52 | A configuration load is checkConfigAndInit. An unreadable setting changes nothing. An enabled load on a stopped engine, with every native step succeeding, brings it up on the created handle, routed to FMOD. |
| Settings.HandleRuntimeConfigChange | src/main/java/com/fmodapi/FMODConfig.java:67-93 | Enabled and stopped runs checkConfigAndInit; disabled and running shuts down; every other combination and an unreadable setting change nothing. After a disable the engine is down and the pool only shrank. |
| Settings.OnLoadAsWritten | src/main/java/com/fmodapi/FMODConfig.java:48-52 | As written: a configuration load lets an error out exactly when `checkConfigAndInit` as written does, and otherwise ends as the corrected load. |
| Settings.HandleRuntimeConfigChangeAsWritten | src/main/java/com/fmodapi/FMODConfig.java:67-93 | As written: a runtime change lets an error out exactly when the setting is on, the engine is stopped and `checkConfigAndInit` as written escapes; a shutdown never escapes. Otherwise it ends as the corrected change. |
| Settings.DisablePolicyDiffersByEntryPoint | src/main/java/com/fmodapi/FMODConfig.java:74-83 | For a running engine and a disabled setting, a configuration load keeps the engine initialized while a runtime change shuts it down. |
| Settings.ReinitializeFmod | src/main/java/com/fmodapi/FMODConfig.java:98-107 | It keeps the handle invariant, registrations and listeners, and it empties the pool of a running engine. |
| Settings.ReinitializeFmodAsWritten | src/main/java/com/fmodapi/FMODConfig.java:98-107 | As written: the init after the shutdown lets an error out exactly when init as written escapes from the shut-down engine, which is left down with its failure flag cleared. Otherwise it ends as the corrected reinitialization. |
| Settings.LinkErrorReachesHost | src/main/java/com/fmodapi/FMODConfig.java:48-107 | From the engine as the class loads it, with the setting on, the jar's fmod rejected and the system search path loading, the configuration load, the runtime change and the reinitialization as written all let the error out, while the corrected load and reinitialization come up available. |
| Settings.ReinitializeRestarts | src/main/java/com/fmodapi/FMODConfig.java:98-103 | The shutdown always clears the initialized flag, so the init that follows is never the early-return no-op. With native success the engine comes back on the new handle with "Successfully initialized", an emptied pool and its registrations. |

## Left out

- Native calls are not executed. Each one is an answer in an environment record, and the native-call trace is modelled only for `playEvent`.
- Loading each library bundled in the jar is one of three answers, `JarOutcome`: it loads, its resource is missing or cannot be extracted, or the loader rejects it. The temporary-file copy of `loadLibraryFromResource` is not modelled. The system search path is a single boolean, `systemPathLoads`.
- NativeLibraries.PreInitIsFirstSuccess: states the corrected resolution, in which a rejected bundled library falls through to the system fallback. As written the rejection escapes instead; `PreInitAsWritten` and the as-written entry points model that.
- Lifecycle.Init: built on the corrected resolution. The as-written escape is modelled by `InitAsWritten`, `CheckConfigAndInitAsWritten` and the as-written configuration entry points, and only for a rejected bundled library. Any other `Error` is not modelled.
- Lifecycle.StartSystem: a successful create is assumed to hand back a non-null handle (the `Handle` type). The code stores whatever pointer it receives. A null one would leave the engine initialized on handle 0, and `update` and `shutdown` would then do nothing; the invariant `Valid` does not cover that case.
- A library that loaded before its partner failed stays loaded in the JVM; the model records only whether a directory loads both.
- The file system is a map from a path string to a directory tree. There is no canonicalisation, no case folding and no symbolic links. The sub-directory order is whatever the listing gives.
- `configureLowLevelSystem` (WASAPI output selection) only logs and swallows its errors. It is left out.
- The result codes of `GetCoreSystem`, `Set3DSettings` and `Set3DNumListeners` are only logged. Only an exception thrown while applying them is modelled.
- Lifecycle.InitInitializeFails: states that the handle is zeroed, but not that the created system is never released, because init's native calls are not traced.
- Lifecycle.CheckConfigAndInit: a fresh enabled load tries every registration twice, once inside init and once more for routing. The contract states the resulting stored banks, which equal a single batch's, but does not count the attempts.
- Lifecycle.Update: the result of the engine's own `FMOD_Studio_System_Update` call is only logged and is not modelled.
- Lifecycle.Shutdown: the per-instance stop and release calls of `cleanupAllInstances` and the system release are not traced; only their effect on the fields is.
- Playback.StopAllSounds: the per-instance stop and release calls are not traced; only the emptied pool is stated.
- Playback.Play: an exception thrown by a native call inside `playEvent` is not modelled. It would return null with the pool unchanged, like a failure code, but possibly without releasing a created instance.
- Playback.Play: the float rounding of the position, volume and pitch is not modelled (positions and factors are reals). Neither is the float comparison `volume != 1.0f`.
- Playback.InstanceIdInjective: `System.nanoTime` is a parameter. Two calls in the same nanosecond for the same event collide, and the model does not claim that pool keys are unique.
- Banks.LoadBankFromStream: failures of `readAllBytes`, of temporary-file creation and of the engine's own bank load are folded into one oracle, the set of rejected file names. A stream read failure before storing is not modelled.
- `loadBank(String)` and `loadBankWithName` are reduced to the availability test and the oracle above. The temporary file's name and deletion are left out.
- `setListenerPosition`, `FMODListenerTracker`, the commands, the configuration screen and the Minecraft sound routing are outside the lifecycle core.
- Status listeners are kept as a list of identities; the source never notifies them.
- `MAX_INSTANCES` (128) and the `maxInstances` setting are never enforced by the source, so the pool has no size bound.
- Concurrency is not modelled: the pool, the bank map and the lists are concurrent collections, and the model treats every operation as atomic.
- Settings.ReinitializeFmod: the half-second sleep is left out, and so is its interruption, which would skip the init.
- Settings.OnLoad: the host's configuration library clamps `maxInstances` into range; the model only states the defaults and the range.
- Logging and console output are left out.
- Whether the process is the client (`isClientSide`) is the `clientSide` parameter.

## Findings

| source | as written | input that shows it | evidently intended | confidence | as-written member | corrected member |
|---|---|---|---|---|---|---|
| src/main/java/com/fmodapi/FMODAPI.java:91-189 | The `pitch` argument, documented as a pitch multiplier, is never passed to the engine; only the volume is applied before the start. | `playEvent("x", null, 1.0f, 2.0f)` issues the same native calls and returns the same result as with pitch 1.0. | A pitch other than 1 is applied to the instance before it starts, and its failure is non-fatal like the volume's. | not executed | Playback.PlayEventAsWritten (shown by Playback.PitchHasNoEffect and Playback.PlayEventAtDropsPitch) | Playback.PlayEvent |
| src/main/java/com/fmodapi/FMODSystem.java:74-95 | A bundled library rejected by `System.load` throws `UnsatisfiedLinkError`, an `Error`. No `catch (Exception)` stops it, in `preInit`, `init`, `checkConfigAndInit` or the configuration handlers, so no fallback tier is tried and the error reaches the host. | The jar holds both libraries, the loader rejects fmod.dll, and fmod is installed on the system search path: init ends abruptly with the failure flag cleared and the status unchanged. | The rejection is a failed jar tier, converted like the link errors of every other tier, and the system fallback is tried. | not executed | NativeLibraries.PreInitAsWritten, Lifecycle.InitAsWritten (shown by Lifecycle.LinkErrorEscapesInit and Settings.LinkErrorReachesHost) | NativeLibraries.PreInit, Lifecycle.Init |
