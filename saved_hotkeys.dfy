/**
 * Start-up hotkey application in the main window's preload script
 * (preload.js:3-6, 50-87): choose the mute and deafen bindings from local
 * storage or the host's cache, mirror cached values back, then clear the
 * host's shortcuts and register the bindings in order.
 */
module SavedHotkeys {
  import opened Wrappers
  import opened JsValues
  import opened Accelerators
  import opened GlobalShortcuts

  const MuteStorageKey := "sharkord_hotkey_mute"
  const DeafenStorageKey := "sharkord_hotkey_deafen"

  const MuteKeyEvent: JsValue := Object(map["key" := Str("m"), "keyCode" := Str("M"), "modifiers" := ControlModifier])
  const DeafenKeyEvent: JsValue := Object(map["key" := Str("d"), "keyCode" := Str("D"), "modifiers" := ControlModifier])

  /** The window's local storage; when it is not `writable`, every write throws. */
  class LocalStorage {
    var items: map<string, string>
    const writable: bool

    constructor (items: map<string, string>, writable: bool)
      ensures this.items == items && this.writable == writable
    {
      this.items := items;
      this.writable := writable;
    }

    /** `localStorage.getItem(key) || ''` */
    function Stored(key: string): string
      reads this
    {
      if key in items then items[key] else ""
    }

    /** `localStorage.setItem(key, value)`; `threw` when the write throws. */
    method SetItem(key: string, value: string) returns (threw: bool)
      modifies this
      ensures threw <==> !writable
      ensures items == if writable then old(items)[key := value] else old(items)
    {
      threw := !writable;
      if writable {
        items := items[key := value];
      }
    }
  }

  /** What asking the host for its cached hotkeys yields, seen from the preload. */
  datatype CachedHotkeys =
    | NoCacheApi
      // `window.electronAPI?.getCachedHotkeys` is not there
    | CacheRejected
      // the invoke rejects, for instance because the host has no handler for it
    | CacheReply(mute: Option<string>, deafen: Option<string>)
      // `None`: the reply (or its field) is missing or falsy

  /** `x || ''` */
  function TextOr(v: Option<string>): string {
    if v.Some? then v.value else ""
  }

  datatype Bindings = Bindings(mute: string, deafen: string, fromCache: bool)

  /**
   * The bindings to apply (preload.js:52-59); `None` when the cache request
   * rejects, which ends the whole routine in its `catch`.
   */
  function ChooseBindings(localMute: string, localDeafen: string, cache: CachedHotkeys): (r: Option<Bindings>)
    ensures localMute != "" || localDeafen != "" ==> r == Some(Bindings(localMute, localDeafen, false))
    ensures r.None? <==> localMute == "" && localDeafen == "" && cache.CacheRejected?
    ensures r.Some? && r.value.fromCache <==> localMute == "" && localDeafen == "" && cache.CacheReply?
    ensures r.Some? && r.value.fromCache ==> r.value.mute == TextOr(cache.mute) && r.value.deafen == TextOr(cache.deafen)
    ensures r.Some? && !r.value.fromCache ==> r.value.mute == localMute && r.value.deafen == localDeafen
  {
    if localMute != "" || localDeafen != "" || cache.NoCacheApi? then Some(Bindings(localMute, localDeafen, false))
    else if cache.CacheRejected? then None
    else Some(Bindings(TextOr(cache.mute), TextOr(cache.deafen), true))
  }

  /**
   * Local storage after the mirror of cached values (preload.js:60-65): only
   * non-empty cached values are written, and a failing write is ignored.
   */
  function MirroredStorage(items: map<string, string>, b: Bindings, writable: bool): (r: map<string, string>)
    ensures !b.fromCache || !writable ==> r == items
    ensures items.Keys <= r.Keys
    ensures forall k | k in r && k != MuteStorageKey && k != DeafenStorageKey :: k in items && r[k] == items[k]
    ensures b.mute == "" ==> (MuteStorageKey in r <==> MuteStorageKey in items)
    ensures b.mute == "" && MuteStorageKey in items ==> r[MuteStorageKey] == items[MuteStorageKey]
    ensures b.deafen == "" ==> (DeafenStorageKey in r <==> DeafenStorageKey in items)
    ensures b.deafen == "" && DeafenStorageKey in items ==> r[DeafenStorageKey] == items[DeafenStorageKey]
    ensures b.fromCache && writable && b.mute != "" ==> MuteStorageKey in r && r[MuteStorageKey] == b.mute
    ensures b.fromCache && writable && b.deafen != "" ==> DeafenStorageKey in r && r[DeafenStorageKey] == b.deafen
  {
    if !b.fromCache || !writable then items
    else
      var withMute := if b.mute != "" then items[MuteStorageKey := b.mute] else items;
      if b.deafen != "" then withMute[DeafenStorageKey := b.deafen] else withMute
  }

  /** One call the preload makes on the host, in order. */
  datatype HostCall = UnregisterAllCall | RegisterCall(accelerator: string, keyEvent: JsValue)

  /** Whether the host's 'register-global-shortcut' handler answers `true`. */
  predicate HostAccepts(registered: set<string>, refused: set<string>, malformed: set<string>, accel: string) {
    accel !in malformed && accel !in registered && accel !in refused
  }

  datatype Startup = Startup(calls: seq<HostCall>, registered: map<string, Handler>, success: bool)

  /** Clearing the host's shortcuts and registering the chosen bindings (preload.js:71-79). */
  function ApplyBindings(mute: string, deafen: string, refused: set<string>, malformed: set<string>): (r: Startup)
    ensures |r.calls| >= 1 && r.calls[0] == UnregisterAllCall
    ensures forall i :: 1 <= i < |r.calls| ==> r.calls[i].RegisterCall? && r.calls[i].accelerator != ""
    ensures forall i :: 1 <= i < |r.calls| ==>
      r.calls[i] == RegisterCall(mute, MuteKeyEvent) || r.calls[i] == RegisterCall(deafen, DeafenKeyEvent)
    ensures (exists i :: 1 <= i < |r.calls| && r.calls[i] == RegisterCall(mute, MuteKeyEvent)) <==> mute != ""
    ensures (exists i :: 1 <= i < |r.calls| && r.calls[i] == RegisterCall(deafen, DeafenKeyEvent)) <==>
            deafen != "" && (mute == "" || HostAccepts({}, refused, malformed, mute))
    ensures forall i, j :: 1 <= i < j < |r.calls| ==> r.calls[i].keyEvent == MuteKeyEvent && r.calls[j].keyEvent == DeafenKeyEvent
    ensures var muteRegistered := mute != "" && HostAccepts({}, refused, malformed, mute);
      var deafenRegistered := deafen != "" && (mute == "" || muteRegistered) &&
                              HostAccepts(if mute == "" then {} else {mute}, refused, malformed, deafen);
      && (muteRegistered ==> mute in r.registered && r.registered[mute] == Requested(MuteKeyEvent))
      && (deafenRegistered ==> deafen in r.registered && r.registered[deafen] == Requested(DeafenKeyEvent))
      && (forall a | a in r.registered :: (a == mute && muteRegistered) || (a == deafen && deafenRegistered))
    ensures r.registered.Keys <= {mute, deafen} - {""}
    ensures forall a | a in r.registered :: r.registered[a].Requested?
    ensures mute == "" && deafen == "" ==> r.calls == [UnregisterAllCall] && r.success
    ensures r.success <==>
      && (mute == "" || HostAccepts({}, refused, malformed, mute))
      && (deafen == "" || HostAccepts(if mute == "" then {} else {mute}, refused, malformed, deafen))
  {
    var muteOk := mute == "" || HostAccepts({}, refused, malformed, mute);
    var afterMute: map<string, Handler> := if mute != "" && muteOk then map[mute := Requested(MuteKeyEvent)] else map[];
    var muteCalls := if mute != "" then [RegisterCall(mute, MuteKeyEvent)] else [];
    assert MuteKeyEvent.fields["key"] != DeafenKeyEvent.fields["key"];
    if deafen != "" && muteOk then
      var deafenOk := HostAccepts(afterMute.Keys, refused, malformed, deafen);
      var calls := [UnregisterAllCall] + muteCalls + [RegisterCall(deafen, DeafenKeyEvent)];
      assert calls[|calls| - 1] == RegisterCall(deafen, DeafenKeyEvent);
      assert mute != "" ==> calls[1] == RegisterCall(mute, MuteKeyEvent);
      Startup(calls, if deafenOk then afterMute[deafen := Requested(DeafenKeyEvent)] else afterMute, deafenOk)
    else
      var calls := [UnregisterAllCall] + muteCalls;
      assert mute != "" ==> calls[1] == RegisterCall(mute, MuteKeyEvent);
      Startup(calls, afterMute, muteOk)
  }

  /** A mute binding the host refuses skips the deafen registration altogether. */
  lemma FailedMuteSkipsDeafen(mute: string, deafen: string, refused: set<string>, malformed: set<string>)
    requires mute != "" && !HostAccepts({}, refused, malformed, mute)
    ensures ApplyBindings(mute, deafen, refused, malformed).calls == [UnregisterAllCall, RegisterCall(mute, MuteKeyEvent)]
    ensures !ApplyBindings(mute, deafen, refused, malformed).success
    ensures ApplyBindings(mute, deafen, refused, malformed).registered == map[]
  {
  }

  /** The same accelerator for both actions: deafen is tried and refused, since mute already holds it. */
  lemma SameBindingForBothFails(accel: string, refused: set<string>, malformed: set<string>)
    requires accel != "" && HostAccepts({}, refused, malformed, accel)
    ensures var r := ApplyBindings(accel, accel, refused, malformed);
      && |r.calls| == 3 && !r.success
      && r.registered == map[accel := Requested(MuteKeyEvent)]
  {
  }

  /**
   * A restored mute binding forwards the key code "m": the key event's `key`
   * takes precedence over its `keyCode` "M".
   */
  lemma RestoredMuteForwardsLowerCase(mute: string)
    ensures var pair := RequestedPair(mute, MuteKeyEvent);
      pair[0].keyCode == Str("m") && pair[1].keyCode == Str("m") && pair[0].modifiers == ControlModifier
  {
    assert Get(MuteKeyEvent, "key") == Str("m");
    assert Get(MuteKeyEvent, "modifiers") == ControlModifier;
  }

  datatype StartupOutcome = Applied(success: bool) | Failed

  /**
   * The storage half of `applySavedHotkeysFromStorage` (preload.js:52-65):
   * read both bindings, fall back to the host's cache when both are empty,
   * and mirror non-empty cached values; when the mute write throws, the
   * deafen write is skipped.
   */
  method RestoreBindings(storage: LocalStorage, cache: CachedHotkeys) returns (b: Option<Bindings>)
    modifies storage
    ensures b == ChooseBindings(old(storage.Stored(MuteStorageKey)), old(storage.Stored(DeafenStorageKey)), cache)
    ensures b.None? ==> storage.items == old(storage.items)
    ensures b.Some? ==> storage.items == MirroredStorage(old(storage.items), b.value, storage.writable)
  {
    var mute := storage.Stored(MuteStorageKey);
    var deafen := storage.Stored(DeafenStorageKey);
    if mute == "" && deafen == "" && !cache.NoCacheApi? {
      if cache.CacheRejected? {
        return None;
      }
      mute := TextOr(cache.mute);
      deafen := TextOr(cache.deafen);
      if mute != "" || deafen != "" {
        var threw := false;
        if mute != "" {
          threw := storage.SetItem(MuteStorageKey, mute);
        }
        if !threw && deafen != "" {
          threw := storage.SetItem(DeafenStorageKey, deafen);
        }
      }
      return Some(Bindings(mute, deafen, true));
    }
    return Some(Bindings(mute, deafen, false));
  }

  /**
   * The host half (preload.js:71-79): clear every shortcut, register mute
   * when it is bound, then deafen when it is bound and mute did not fail.
   */
  method ApplyToHost(host: ShortcutRegistry, mute: string, deafen: string) returns (calls: seq<HostCall>, success: bool)
    modifies host
    ensures var plan := ApplyBindings(mute, deafen, host.refused, host.malformed);
      calls == plan.calls && host.registered == plan.registered && success == plan.success
    ensures host.forwarded == old(host.forwarded)
  {
    var cleared := host.HandleUnregisterAll();
    calls := [UnregisterAllCall];
    success := true;
    if mute != "" {
      success := host.HandleRegister(mute, MuteKeyEvent);
      calls := calls + [RegisterCall(mute, MuteKeyEvent)];
    }
    if deafen != "" && success {
      var ok := host.HandleRegister(deafen, DeafenKeyEvent);
      success := ok && success;
      calls := calls + [RegisterCall(deafen, DeafenKeyEvent)];
    }
  }

  /**
   * `applySavedHotkeysFromStorage`.  It never throws: a rejected cache
   * request ends it in its `catch` (`Failed`), before any host call.
   */
  method ApplySavedHotkeysFromStorage(storage: LocalStorage, cache: CachedHotkeys, host: ShortcutRegistry)
    returns (calls: seq<HostCall>, outcome: StartupOutcome)
    modifies storage, host
    ensures var b := ChooseBindings(old(storage.Stored(MuteStorageKey)), old(storage.Stored(DeafenStorageKey)), cache);
      && (b.None? ==>
            && outcome == Failed && calls == []
            && host.registered == old(host.registered) && storage.items == old(storage.items))
      && (b.Some? ==>
            var plan := ApplyBindings(b.value.mute, b.value.deafen, host.refused, host.malformed);
            && storage.items == MirroredStorage(old(storage.items), b.value, storage.writable)
            && calls == plan.calls && host.registered == plan.registered
            && outcome == Applied(plan.success))
    ensures host.forwarded == old(host.forwarded)
  {
    var b := RestoreBindings(storage, cache);
    if b.None? {
      return [], Failed;
    }
    var success;
    calls, success := ApplyToHost(host, b.value.mute, b.value.deafen);
    outcome := Applied(success);
  }

  /**
   * A normal start-up: the host sets up its built-in hotkeys while creating
   * the main window (main.js:137, 289-294), and the main window's preload
   * then applies the saved bindings.  Its unregister-all also removes the
   * built-in forwarders, so once the bindings are applied no registration
   * is a debounced built-in; only a rejected cache request leaves them.
   */
  method StartUp(host: ShortcutRegistry, storage: LocalStorage, cache: CachedHotkeys) returns (outcome: StartupOutcome)
    modifies host, storage
    ensures outcome.Applied? ==> forall a | a in host.registered :: host.registered[a].Requested?
    ensures outcome.Failed? ==>
      var afterMute := AfterRegisterAndForward(old(host.registered), host.refused, host.malformed, MuteSpellings, "M");
      host.registered == AfterRegisterAndForward(afterMute, host.refused, host.malformed, DeafenSpellings, "D")
    ensures var b := ChooseBindings(old(storage.Stored(MuteStorageKey)), old(storage.Stored(DeafenStorageKey)), cache);
      && (b.None? ==> outcome == Failed && storage.items == old(storage.items))
      && (b.Some? ==>
            var plan := ApplyBindings(b.value.mute, b.value.deafen, host.refused, host.malformed);
            && outcome == Applied(plan.success)
            && storage.items == MirroredStorage(old(storage.items), b.value, storage.writable)
            && host.registered == plan.registered)
    ensures host.forwarded == old(host.forwarded)
  {
    var mute, deafen := host.SetupBuiltInHotkeys();
    var calls;
    calls, outcome := ApplySavedHotkeysFromStorage(storage, cache, host);
  }
}
