/** Playback through `FMODAPI`: `playEvent` and its overloads, `stopAllSounds`, and bank
    registration through the public API.

    `playEvent` is an abort ladder: the routing setting, availability, the event lookup
    under "event:/", instance creation and the start call can each end it with no id and
    the pool untouched; the 3D-attribute and volume calls only log their failures. The
    native calls issued are returned in order so that releases can be stated. */
module Playback {
  import opened Wrappers
  import opened Text
  import opened EngineState
  import opened Banks
  import Lifecycle

  /** A world position. The engine receives it as three floats; the rounding is not modelled. */
  datatype Vec3 = Vec3(x: real, y: real, z: real)

  /** The native calls `playEvent` can issue. */
  datatype NativeCall =
    | GetEvent(path: string)
    | CreateInstance(description: int)
    | Set3DAttributes(instance: int, position: Vec3)
    | SetVolume(instance: int, volume: real)
    | SetPitch(instance: int, pitch: real)
    | Start(instance: int)
    | Release(instance: int)

  /** What the outside world answers to one `playEvent`: the `fmodEnabled` setting (`None` when
      unreadable), the event descriptions by full path, the created instance (`None` when creation
      fails), and the result code of the start. The codes of the 3D-attribute and volume calls are
      only logged, so they are not part of the answer. */
  datatype PlayEnv = PlayEnv(
    enabledSetting: Option<bool>,
    events: map<string, int>,
    createdInstance: Option<int>,
    startCode: int)

  /** The engine afterwards, the instance id returned (`None` for Java's null), and the calls issued. */
  datatype Played = Played(engine: Engine, id: Option<string>, calls: seq<NativeCall>)

  const EventPrefix: string := "event:/"

  /** The pool key of a started instance: the event name, an underscore and the `System.nanoTime` reading. */
  function InstanceId(eventName: string, stamp: int64): (id: string)
    ensures StartsWith(id, eventName + "_")
    ensures |id| > |eventName| + 1
  {
    eventName + "_" + DecimalString(stamp)
  }

  /** Two pool keys collide only when they were made for the same event name at the same
      `nanoTime` reading: the key splits uniquely at its last underscore. */
  lemma InstanceIdInjective(name1: string, stamp1: int64, name2: string, stamp2: int64)
    requires InstanceId(name1, stamp1) == InstanceId(name2, stamp2)
    ensures name1 == name2 && stamp1 == stamp2
  {
    var id := InstanceId(name1, stamp1);
    UnderscoreSplits(name1, stamp1);
    UnderscoreSplits(name2, stamp2);
    assert name1 == id[..|name1|] == name2;
    assert DecimalString(stamp1) == id[|name1| + 1..] == DecimalString(stamp2);
    DecimalStringInjective(stamp1, stamp2);
  }

  lemma UnderscoreSplits(name: string, stamp: int64)
    ensures LastIndexOf(InstanceId(name, stamp), '_') == |name|
    ensures InstanceId(name, stamp)[..|name|] == name
    ensures InstanceId(name, stamp)[|name| + 1..] == DecimalString(stamp)
  {
    var id := InstanceId(name, stamp);
    var digits := DecimalString(stamp);
    assert id == name + "_" + digits;
    assert forall k :: |name| < k < |id| ==> id[k] == digits[k - |name| - 1];
    assert forall k :: 0 <= k < |digits| ==> digits[k] != '_' by {
      forall k | 0 <= k < |digits|
        ensures digits[k] != '_'
      {
        if k == 0 && stamp < 0 {
          assert digits[k] == '-';
        } else {
          assert IsDigit(digits[k]);
        }
      }
    }
    assert id[|name|] == '_';
  }

  /** `playEvent` gets as far as starting an instance. */
  predicate Reaches(e: Engine, eventName: string, env: PlayEnv) {
    && env.enabledSetting != Some(false)
    && IsAvailable(e)
    && EventPrefix + eventName in env.events
    && env.createdInstance.Some?
  }

  /** `playEvent` returns an id. */
  predicate Succeeds(e: Engine, eventName: string, env: PlayEnv) {
    Reaches(e, eventName, env) && env.startCode == FmodOk
  }

  /** Where a configuration call comes in the order they are issued: position, volume, pitch. */
  function ConfigureRank(call: NativeCall): nat {
    match call
    case Set3DAttributes(_, _) => 0
    case SetVolume(_, _) => 1
    case SetPitch(_, _) => 2
    case _ => 3
  }

  /** The calls issued on a created instance before it is started: the position when given, the
      volume unless it is 1, the pitch step when there is one, in that order, each at most once;
      never a start or a release. */
  function Configure(instance: int, position: Option<Vec3>, volume: real, pitchStep: Option<real>): (c: seq<NativeCall>)
    ensures forall k :: 0 <= k < |c| ==>
              || (position.Some? && c[k] == Set3DAttributes(instance, position.value))
              || (volume != 1.0 && c[k] == SetVolume(instance, volume))
              || (pitchStep.Some? && c[k] == SetPitch(instance, pitchStep.value))
    ensures position.Some? ==> Set3DAttributes(instance, position.value) in c
    ensures volume != 1.0 ==> SetVolume(instance, volume) in c
    ensures pitchStep.Some? ==> SetPitch(instance, pitchStep.value) in c
    ensures forall i, j :: 0 <= i < j < |c| ==> ConfigureRank(c[i]) < ConfigureRank(c[j])
  {
    var located := if position.Some? then [Set3DAttributes(instance, position.value)] else [];
    var scaled := if volume != 1.0 then [SetVolume(instance, volume)] else [];
    var pitched := if pitchStep.Some? then [SetPitch(instance, pitchStep.value)] else [];
    assert volume != 1.0 ==> (located + scaled + pitched)[|located|] == SetVolume(instance, volume);
    assert pitchStep.Some? ==> (located + scaled + pitched)[|located| + |scaled|] == SetPitch(instance, pitchStep.value);
    located + scaled + pitched
  }

  /** The ladder shared by the as-written `playEvent` and the corrected one; `pitchStep` is the
      pitch to apply before starting, if any. */
  function Play(e: Engine, eventName: string, position: Option<Vec3>, volume: real, pitchStep: Option<real>,
                env: PlayEnv, stamp: int64): (r: Played)
    ensures r.id.Some? <==> Succeeds(e, eventName, env)
    ensures r.id.None? ==> r.engine == e
    ensures r.id.Some? ==> r.id.value == InstanceId(eventName, stamp)
                           && r.engine == e.(activeInstances := e.activeInstances[r.id.value := env.createdInstance.value])
    ensures env.enabledSetting == Some(false) || !IsAvailable(e) ==> r.calls == []
  {
    if env.enabledSetting == Some(false) || !IsAvailable(e) then Played(e, None, [])
    else
      var path := EventPrefix + eventName;
      if path !in env.events then Played(e, None, [GetEvent(path)])
      else
        var description := env.events[path];
        match env.createdInstance
        case None => Played(e, None, [GetEvent(path), CreateInstance(description)])
        case Some(instance) =>
          var prepared := [GetEvent(path), CreateInstance(description)] + Configure(instance, position, volume, pitchStep)
                          + [Start(instance)];
          if env.startCode != FmodOk then
            Played(e, None, prepared + [Release(instance)])
          else
            var id := InstanceId(eventName, stamp);
            Played(e.(activeInstances := e.activeInstances[id := instance]), Some(id), prepared)
  }

  /** The shape of the call sequence: a ladder that stops early issues only the lookup and the
      creation; one that reaches the instance configures it, starts it, and releases it when the
      start fails. */
  lemma PlayCalls(e: Engine, eventName: string, position: Option<Vec3>, volume: real, pitchStep: Option<real>,
                  env: PlayEnv, stamp: int64)
    ensures var r := Play(e, eventName, position, volume, pitchStep, env, stamp);
            if Reaches(e, eventName, env) then
              var instance := env.createdInstance.value;
              r.calls == [GetEvent(EventPrefix + eventName), CreateInstance(env.events[EventPrefix + eventName])]
                         + Configure(instance, position, volume, pitchStep) + [Start(instance)]
                         + (if env.startCode != FmodOk then [Release(instance)] else [])
            else
              |r.calls| <= 2 && forall k :: 0 <= k < |r.calls| ==> r.calls[k].GetEvent? || r.calls[k].CreateInstance?
  {
  }

  /** What `playEvent` asks of the engine: a reached instance is looked up by its full path first,
      gets the position when one is given, and is started; a failed start ends with its release,
      and nothing is released when an id comes back. */
  lemma PlayTrace(e: Engine, eventName: string, position: Option<Vec3>, volume: real, pitchStep: Option<real>,
                  env: PlayEnv, stamp: int64)
    ensures var r := Play(e, eventName, position, volume, pitchStep, env, stamp);
            && (Reaches(e, eventName, env) ==>
                  && |r.calls| > 2 && r.calls[0] == GetEvent(EventPrefix + eventName)
                  && Start(env.createdInstance.value) in r.calls
                  && (position.Some? ==> Set3DAttributes(env.createdInstance.value, position.value) in r.calls))
            && (Reaches(e, eventName, env) && env.startCode != FmodOk ==> r.calls[|r.calls| - 1] == Release(env.createdInstance.value))
            && (forall k :: 0 <= k < |r.calls| ==> !r.calls[k].Release? || r.id.None?)
  {
    PlayCalls(e, eventName, position, volume, pitchStep, env, stamp);
    var r := Play(e, eventName, position, volume, pitchStep, env, stamp);
    if Reaches(e, eventName, env) {
      var instance := env.createdInstance.value;
      var head := [GetEvent(EventPrefix + eventName), CreateInstance(env.events[EventPrefix + eventName])];
      var middle := Configure(instance, position, volume, pitchStep);
      var prepared := head + middle + [Start(instance)];
      assert prepared[|prepared| - 1] == Start(instance);
      assert r.calls[..|prepared|] == prepared;
      assert forall k :: 0 <= k < |prepared| ==> !prepared[k].Release? by {
        forall k | 0 <= k < |prepared|
          ensures !prepared[k].Release?
        {
          if 2 <= k < 2 + |middle| {
            assert prepared[k] == middle[k - 2];
          }
        }
      }
      if position.Some? {
        var j :| 0 <= j < |middle| && middle[j] == Set3DAttributes(instance, position.value);
        assert r.calls[2 + j] == middle[j];
      }
    }
  }

  /** The only pitch call the ladder issues is the pitch step, on the created instance. */
  lemma PlayPitchCalls(e: Engine, eventName: string, position: Option<Vec3>, volume: real, pitchStep: Option<real>,
                       env: PlayEnv, stamp: int64)
    ensures var r := Play(e, eventName, position, volume, pitchStep, env, stamp);
            forall k :: 0 <= k < |r.calls| && r.calls[k].SetPitch? ==>
              Reaches(e, eventName, env) && pitchStep.Some? && r.calls[k] == SetPitch(env.createdInstance.value, pitchStep.value)
    ensures Reaches(e, eventName, env) && pitchStep.Some?
            ==> SetPitch(env.createdInstance.value, pitchStep.value) in Play(e, eventName, position, volume, pitchStep, env, stamp).calls
  {
    PlayCalls(e, eventName, position, volume, pitchStep, env, stamp);
    var r := Play(e, eventName, position, volume, pitchStep, env, stamp);
    if Reaches(e, eventName, env) {
      var middle := Configure(env.createdInstance.value, position, volume, pitchStep);
      forall k | 0 <= k < |r.calls| && r.calls[k].SetPitch?
        ensures pitchStep.Some? && r.calls[k] == SetPitch(env.createdInstance.value, pitchStep.value)
      {
        assert 2 <= k < 2 + |middle| && r.calls[k] == middle[k - 2];
      }
      if pitchStep.Some? {
        var j :| 0 <= j < |middle| && middle[j] == SetPitch(env.createdInstance.value, pitchStep.value);
        assert r.calls[2 + j] == middle[j];
      }
    }
  }

  /** `playEvent(eventName, position, volume, pitch)` as written: `pitch` is accepted and never used. */
  function PlayEventAsWritten(e: Engine, eventName: string, position: Option<Vec3>, volume: real, pitch: real,
                              env: PlayEnv, stamp: int64): (r: Played)
    ensures forall k :: 0 <= k < |r.calls| ==> !r.calls[k].SetPitch?
    ensures r.id.Some? <==> Succeeds(e, eventName, env)
    ensures r.id.None? ==> r.engine == e
    ensures r.id.Some? ==> r.id.value == InstanceId(eventName, stamp)
                           && r.engine == e.(activeInstances := e.activeInstances[r.id.value := env.createdInstance.value])
  {
    PlayPitchCalls(e, eventName, position, volume, None, env, stamp);
    Play(e, eventName, position, volume, None, env, stamp)
  }

  /** Whatever pitch is requested, the as-written call behaves the same. */
  lemma PitchHasNoEffect(e: Engine, eventName: string, position: Option<Vec3>, volume: real,
                         pitch1: real, pitch2: real, env: PlayEnv, stamp: int64)
    ensures PlayEventAsWritten(e, eventName, position, volume, pitch1, env, stamp)
         == PlayEventAsWritten(e, eventName, position, volume, pitch2, env, stamp)
  {
  }

  /** The pitch step the corrected `playEvent` applies: none at the unit pitch. */
  function PitchStep(pitch: real): Option<real> {
    if pitch != 1.0 then Some(pitch) else None
  }

  /** `playEvent` with the documented pitch control: a pitch other than 1 is applied before the start,
      and, like the volume, a failure to apply it is not fatal. */
  function PlayEvent(e: Engine, eventName: string, position: Option<Vec3>, volume: real, pitch: real,
                     env: PlayEnv, stamp: int64): (r: Played)
    ensures Reaches(e, eventName, env) ==> (SetPitch(env.createdInstance.value, pitch) in r.calls <==> pitch != 1.0)
    ensures forall k :: 0 <= k < |r.calls| && r.calls[k].SetPitch? ==> pitch != 1.0
    ensures r.id.Some? <==> Succeeds(e, eventName, env)
    ensures r.id.None? ==> r.engine == e
    ensures r.id.Some? ==> r.id.value == InstanceId(eventName, stamp)
                           && r.engine == e.(activeInstances := e.activeInstances[r.id.value := env.createdInstance.value])
  {
    PlayPitchCalls(e, eventName, position, volume, PitchStep(pitch), env, stamp);
    Play(e, eventName, position, volume, PitchStep(pitch), env, stamp)
  }

  /** At the unit pitch the corrected call is the call as written, so only callers passing another
      pitch are affected by the correction. */
  lemma UnitPitchAgreesWithAsWritten(e: Engine, eventName: string, position: Option<Vec3>, volume: real,
                                     env: PlayEnv, stamp: int64)
    ensures PlayEvent(e, eventName, position, volume, 1.0, env, stamp)
         == PlayEventAsWritten(e, eventName, position, volume, 1.0, env, stamp)
  {
  }

  /** `playEvent(eventName, position)`: unit volume and pitch, so no volume or pitch call is issued. */
  function PlayEventDefault(e: Engine, eventName: string, position: Option<Vec3>, env: PlayEnv, stamp: int64): (r: Played)
    ensures forall k :: 0 <= k < |r.calls| ==> !r.calls[k].SetVolume? && !r.calls[k].SetPitch?
    ensures r.id.Some? <==> Succeeds(e, eventName, env)
    ensures r.id.None? ==> r.engine == e
    ensures r.id.Some? ==> r.id.value == InstanceId(eventName, stamp)
                           && r.engine == e.(activeInstances := e.activeInstances[r.id.value := env.createdInstance.value])
  {
    PlayCalls(e, eventName, position, 1.0, None, env, stamp);
    var r := PlayEventAsWritten(e, eventName, position, 1.0, 1.0, env, stamp);
    assert Reaches(e, eventName, env) ==>
             (forall k :: 2 <= k < 2 + |Configure(env.createdInstance.value, position, 1.0, None)|
                ==> r.calls[k] == Configure(env.createdInstance.value, position, 1.0, None)[k - 2]);
    r
  }

  /** `playEventAt`: a 3D sound at (x, y, z), forwarded to the four-argument `playEvent` as written,
      so the volume is applied and the pitch is not. */
  function PlayEventAt(e: Engine, eventName: string, x: real, y: real, z: real, volume: real, pitch: real,
                       env: PlayEnv, stamp: int64): (r: Played)
    ensures Reaches(e, eventName, env) ==> Set3DAttributes(env.createdInstance.value, Vec3(x, y, z)) in r.calls
    ensures Reaches(e, eventName, env) && volume != 1.0 ==> SetVolume(env.createdInstance.value, volume) in r.calls
    ensures forall k :: 0 <= k < |r.calls| ==> !r.calls[k].SetPitch?
    ensures r.id.Some? <==> Succeeds(e, eventName, env)
    ensures r.id.None? ==> r.engine == e
    ensures r.id.Some? ==> r.id.value == InstanceId(eventName, stamp)
                           && r.engine == e.(activeInstances := e.activeInstances[r.id.value := env.createdInstance.value])
  {
    PlayTrace(e, eventName, Some(Vec3(x, y, z)), volume, None, env, stamp);
    PlayCalls(e, eventName, Some(Vec3(x, y, z)), volume, None, env, stamp);
    var r := PlayEventAsWritten(e, eventName, Some(Vec3(x, y, z)), volume, pitch, env, stamp);
    assert Reaches(e, eventName, env) && volume != 1.0 ==>
             var configured := Configure(env.createdInstance.value, Some(Vec3(x, y, z)), volume, None);
             configured[1] == SetVolume(env.createdInstance.value, volume) && r.calls[3] == configured[1];
    r
  }

  /** Through `playEventAt`, a requested pitch other than 1 never reaches a started instance, where the
      corrected `playEvent` applies it. */
  lemma PlayEventAtDropsPitch(e: Engine, eventName: string, x: real, y: real, z: real, volume: real, pitch: real,
                              env: PlayEnv, stamp: int64)
    requires Reaches(e, eventName, env) && pitch != 1.0
    ensures SetPitch(env.createdInstance.value, pitch) !in PlayEventAt(e, eventName, x, y, z, volume, pitch, env, stamp).calls
    ensures SetPitch(env.createdInstance.value, pitch) in PlayEvent(e, eventName, Some(Vec3(x, y, z)), volume, pitch, env, stamp).calls
  {
  }

  /** The outcome of `playEventSimple`: the engine afterwards and whether an id came back. */
  datatype Fired = Fired(engine: Engine, played: bool)

  /** `playEventSimple`: true exactly when the sound was started and pooled. */
  function PlayEventSimple(e: Engine, eventName: string, x: real, y: real, z: real, env: PlayEnv, stamp: int64): (r: Fired)
    ensures r.played <==> Succeeds(e, eventName, env)
    ensures r.played ==> InstanceId(eventName, stamp) in r.engine.activeInstances
    ensures !r.played ==> r.engine == e
    ensures r.played ==> r.engine == e.(activeInstances := e.activeInstances[InstanceId(eventName, stamp) := env.createdInstance.value])
  {
    var p := PlayEventAt(e, eventName, x, y, z, 1.0, 1.0, env, stamp);
    Fired(p.engine, p.id.Some?)
  }

  /** `stopAllSounds`: nothing when unavailable; otherwise every pooled instance is stopped, released
      and removed. */
  function StopAllSounds(e: Engine): (r: Engine)
    ensures !IsAvailable(e) ==> r == e
    ensures IsAvailable(e) ==> |r.activeInstances| == 0
    ensures r == e.(activeInstances := r.activeInstances)
  {
    if !IsAvailable(e) then e else e.(activeInstances := map[])
  }

  /** `FMODAPI.registerBank` delegates to the lifecycle's registration. */
  function RegisterBank(e: Engine, modClass: string, path: string, env: BankEnv): (r: Loaded)
    ensures r.success
    ensures r.engine.registeredBanks == e.registeredBanks + [BankRegistration(modClass, path)]
    ensures r.engine == e.(registeredBanks := r.engine.registeredBanks, loadedBanks := r.engine.loadedBanks)
    ensures !e.isInitialized ==> r.engine.loadedBanks == e.loadedBanks
    ensures IsAvailable(e) && FindResource(env, modClass, path).Some?
            ==> r.engine.loadedBanks == e.loadedBanks[BankFileName(path) := FindResource(env, modClass, path).value]
    ensures !IsAvailable(e) || FindResource(env, modClass, path).None? ==> r.engine.loadedBanks == e.loadedBanks
  {
    Lifecycle.RegisterBank(e, modClass, path, env)
  }
}
