/** The process-wide engine bookkeeping held in `FMODSystem`'s static fields, as one
    immutable record, together with the shapes of the native engine's answers.

    Native calls are not executed: every call the engine makes is represented by the
    result it returned (`Returned(code)`) or by the fact that it threw. */
module EngineState {
  import opened Text

  newtype byte = b: int | 0 <= b < 256
  type Bytes = seq<byte>

  /** The engine's success code. */
  const FmodOk: int := 0

  /** A system handle returned by a successful native create call, assumed never null. */
  type Handle = h: int | h != 0 witness 1

  /** The outcome of one native call. */
  datatype Call = Returned(code: int) | Threw(message: string)

  /** `BankRegistration`: the mod class whose resources hold the bank, and the path inside them. */
  datatype BankRegistration = BankRegistration(modClass: string, resourcePath: string)

  /** The fields of `FMODSystem`. Listeners are identified by a number; their callbacks are never invoked. */
  datatype Engine = Engine(
    systemHandle: int,
    isInitialized: bool,
    initializationFailed: bool,
    status: string,
    audioSystem: string,
    errorCode: int,
    activeInstances: map<string, int>,
    loadedBanks: map<string, Bytes>,
    registeredBanks: seq<BankRegistration>,
    statusListeners: seq<nat>)

  /** The state when the class is loaded: down, not yet flagged failed, and with nothing pooled,
      stored or registered. */
  function Initial(): (r: Engine)
    ensures Valid(r) && !r.isInitialized && !r.initializationFailed && !IsAvailable(r)
    ensures GetStatus(r) == Status("Not initialized", "Pending", -1, false)
    ensures r.activeInstances == map[] && r.loadedBanks == map[]
    ensures r.registeredBanks == [] && r.statusListeners == []
  {
    Engine(0, false, false, "Not initialized", "Pending", -1, map[], map[], [], [])
  }

  /** The invariant every transition keeps: a live system handle exactly while initialized. */
  predicate Valid(e: Engine) {
    e.isInitialized <==> e.systemHandle != 0
  }

  /** `FMODAPI.isAvailable`: initialized, and no failure recorded since the last explicit init. An
      available engine reports itself initialized and, under the invariant, holds a live handle. */
  predicate IsAvailable(e: Engine)
    ensures IsAvailable(e) ==> GetStatus(e).isInitialized
    ensures IsAvailable(e) && Valid(e) ==> e.systemHandle != 0
  {
    e.isInitialized && !e.initializationFailed
  }

  /** `FMODAPI.FMODStatus`. */
  datatype Status = Status(status: string, audioSystem: string, errorCode: int, isInitialized: bool)

  /** `FMODAPI.getStatus`: a snapshot of the status fields. It does not show a recorded failure: an
      initialized engine reports itself initialized whether or not it is available. */
  function GetStatus(e: Engine): (r: Status)
    ensures r.status == e.status && r.audioSystem == e.audioSystem && r.errorCode == e.errorCode
    ensures r.isInitialized <==> e.isInitialized
  {
    Status(e.status, e.audioSystem, e.errorCode, e.isInitialized)
  }

  /** Two engines that differ only in the failure flag give the same status, though only one of
      them can be available. */
  lemma StatusHidesFailure(e: Engine)
    requires e.isInitialized
    ensures GetStatus(e.(initializationFailed := true)) == GetStatus(e.(initializationFailed := false))
    ensures IsAvailable(e.(initializationFailed := false)) && !IsAvailable(e.(initializationFailed := true))
  {
  }

  /** `FMODSystem.storeBankData`: keeps a copy of the bank bytes under `name`, replacing any earlier copy. */
  function StoreBankData(e: Engine, name: string, data: Bytes): (r: Engine)
    ensures name in r.loadedBanks && r.loadedBanks[name] == data
    ensures r.loadedBanks.Keys == e.loadedBanks.Keys + {name}
    ensures forall other :: other in e.loadedBanks && other != name ==> r.loadedBanks[other] == e.loadedBanks[other]
    ensures r == e.(loadedBanks := r.loadedBanks)
  {
    e.(loadedBanks := e.loadedBanks[name := data])
  }

  /** The position of the first occurrence of `x`. */
  function FirstIndex(s: seq<nat>, x: nat): (k: nat)
    requires x in s
    ensures k < |s| && s[k] == x && x !in s[..k]
  {
    if s[0] == x then 0
    else
      var k := 1 + FirstIndex(s[1..], x);
      assert s[..k] == [s[0]] + s[1..][..k - 1];
      k
  }

  /** Removes the first occurrence of `x`, as `List.remove(Object)` does; no change when absent. */
  function RemoveFirst(s: seq<nat>, x: nat): (r: seq<nat>)
    ensures x !in s ==> r == s
    ensures x in s ==> r == s[..FirstIndex(s, x)] + s[FirstIndex(s, x) + 1..]
  {
    if s == [] then []
    else if s[0] == x then s[1..]
    else
      var r := [s[0]] + RemoveFirst(s[1..], x);
      assert x !in s[1..] ==> s == [s[0]] + s[1..];
      assert x in s[1..] ==> FirstIndex(s, x) == 1 + FirstIndex(s[1..], x);
      assert x in s[1..] ==> s[..FirstIndex(s, x)] == [s[0]] + s[1..][..FirstIndex(s[1..], x)];
      assert x in s[1..] ==> s[FirstIndex(s, x) + 1..] == s[1..][FirstIndex(s[1..], x) + 1..];
      r
  }

  /** Removing what was just appended restores the list, provided it was not already there. */
  lemma {:induction false} RemoveFirstAfterAppend(s: seq<nat>, x: nat)
    requires x !in s
    ensures RemoveFirst(s + [x], x) == s
  {
    if s != [] {
      assert (s + [x])[1..] == s[1..] + [x];
      RemoveFirstAfterAppend(s[1..], x);
    }
  }
}
