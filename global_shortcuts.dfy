/**
 * The OS global-shortcut registrar as the host process sees it, and the
 * host's shortcut handlers (main.js:157-163, 191-294).  The registrar's
 * state is the map from registered accelerators to what they run; the
 * spellings another application holds and the spellings the accelerator
 * parser rejects are fixed for the life of an instance.
 */
module GlobalShortcuts {
  import opened Wrappers
  import opened JsValues
  import opened Accelerators

  /** What a registered accelerator runs when the OS fires it. */
  datatype Handler =
    | Requested(keyEvent: JsValue)
      // registered through 'register-global-shortcut' with the renderer's key event
    | BuiltIn(key: string, lastTriggered: map<string, int>)
      // registered by `registerAndForward`, with the debounce map of that call

  /** A registrar call either returns a boolean or throws. */
  datatype Reply = Returned(value: bool) | Thrown

  const MuteSpellings: seq<string> := ["Control+M", "Ctrl+M", "CommandOrControl+M"]
  const DeafenSpellings: seq<string> := ["Control+D", "Ctrl+D", "CommandOrControl+D"]

  /** The spelling `registerAndForward` settles on, if any. */
  function ChosenSpelling(registered: map<string, Handler>, refused: set<string>, malformed: set<string>,
                          cands: seq<string>): (r: Option<string>)
    ensures r.Some? ==> r.value in cands
    ensures r.Some? ==> exists i ::
      && 0 <= i < |cands| && r.value == cands[i]
      && Chosen(AttemptOf(registered.Keys, refused, malformed, cands[i]))
      && forall j :: 0 <= j < i ==> !Chosen(AttemptOf(registered.Keys, refused, malformed, cands[j]))
    ensures r.None? ==> forall a | a in cands :: a in malformed || (a !in registered && a in refused)
  {
    var pick := FirstAccepted(cands, registered.Keys, refused, malformed);
    if pick.Some? then Some(cands[pick.value]) else None
  }

  /** The registrar after `registerAndForward`: a forwarder only for a newly accepted spelling. */
  function AfterRegisterAndForward(registered: map<string, Handler>, refused: set<string>, malformed: set<string>,
                                   cands: seq<string>, key: string): (r: map<string, Handler>)
    ensures registered.Keys <= r.Keys && |r.Keys - registered.Keys| <= 1
    ensures forall a | a in registered :: r[a] == registered[a]
    ensures forall a | a in r && a !in registered :: r[a] == BuiltIn(key, map[])
    ensures forall a :: (a in r && a !in registered) <==>
      (ChosenSpelling(registered, refused, malformed, cands) == Some(a) && a !in registered)
  {
    var c := ChosenSpelling(registered, refused, malformed, cands);
    if c.Some? && c.value !in registered then registered[c.value := BuiltIn(key, map[])] else registered
  }

  /**
   * An accelerator this process already holds counts as the chosen one, and
   * no forwarder is attached to it.
   */
  lemma AlreadyRegisteredAttachesNothing(registered: map<string, Handler>, refused: set<string>, malformed: set<string>,
                                         cands: seq<string>, key: string)
    requires cands != [] && cands[0] in registered && cands[0] !in malformed
    ensures ChosenSpelling(registered, refused, malformed, cands) == Some(cands[0])
    ensures AfterRegisterAndForward(registered, refused, malformed, cands, key) == registered
  {
  }

  /** A freely available first spelling is the one registered, with an empty debounce map. */
  lemma FreeFirstSpellingRegistered(registered: map<string, Handler>, refused: set<string>, malformed: set<string>,
                                    cands: seq<string>, key: string)
    requires cands != [] && cands[0] !in registered && cands[0] !in refused && cands[0] !in malformed
    ensures AfterRegisterAndForward(registered, refused, malformed, cands, key) == registered[cands[0] := BuiltIn(key, map[])]
  {
  }

  class ShortcutRegistry {
    var registered: map<string, Handler>
    const refused: set<string>
    const malformed: set<string>
    /** Input events sent into the main window, in order. */
    var forwarded: seq<InputEvent>

    constructor (refused: set<string>, malformed: set<string>)
      ensures registered == map[] && forwarded == []
      ensures this.refused == refused && this.malformed == malformed
    {
      registered := map[];
      forwarded := [];
      this.refused := refused;
      this.malformed := malformed;
    }

    /** `globalShortcut.isRegistered(accel)` */
    method IsRegistered(accel: string) returns (reply: Reply)
      ensures reply.Thrown? <==> accel in malformed
      ensures reply.Returned? ==> (reply.value <==> accel in registered)
    {
      if accel in malformed {
        reply := Thrown;
      } else {
        reply := Returned(accel in registered);
      }
    }

    /** `globalShortcut.register(accel, h)`: refused when taken elsewhere or already held. */
    method Register(accel: string, h: Handler) returns (reply: Reply)
      modifies this
      ensures reply.Thrown? <==> accel in malformed
      ensures reply.Returned? ==> (reply.value <==> AttemptOf(old(registered).Keys, refused, malformed, accel).Accepted?)
      ensures registered == if reply == Returned(true) then old(registered)[accel := h] else old(registered)
      ensures forwarded == old(forwarded)
    {
      if accel in malformed {
        reply := Thrown;
      } else if accel in registered || accel in refused {
        reply := Returned(false);
      } else {
        registered := registered[accel := h];
        reply := Returned(true);
      }
    }

    /** The 'register-global-shortcut' handler: the registrar's answer, `false` when it throws. */
    method HandleRegister(accelerator: string, keyEvent: JsValue) returns (ok: bool)
      modifies this
      ensures ok <==> accelerator !in malformed && accelerator !in old(registered) && accelerator !in refused
      ensures registered == if ok then old(registered)[accelerator := Requested(keyEvent)] else old(registered)
      ensures forwarded == old(forwarded)
    {
      var reply := Register(accelerator, Requested(keyEvent));
      ok := reply == Returned(true);
    }

    /** The 'unregister-global-shortcut' handler. */
    method HandleUnregister(accelerator: string) returns (ok: bool)
      modifies this
      ensures ok <==> accelerator !in malformed
      ensures registered == if ok then old(registered) - {accelerator} else old(registered)
      ensures forwarded == old(forwarded)
    {
      if accelerator in malformed {
        ok := false;
      } else {
        registered := registered - {accelerator};
        ok := true;
      }
    }

    /** The 'unregister-all-global-shortcuts' handler. */
    method HandleUnregisterAll() returns (ok: bool)
      modifies this
      ensures ok && registered == map[]
      ensures forwarded == old(forwarded)
    {
      registered := map[];
      ok := true;
    }

    /** The application's 'will-quit' handler: no hook outlives the process. */
    method WillQuit()
      modifies this
      ensures registered == map[]
      ensures forwarded == old(forwarded)
    {
      registered := map[];
    }

    /**
     * `registerAndForward(accelerators, key)`: tries the spellings in order
     * and stops at the first one that is already registered or is accepted;
     * `tried` is every spelling it asked about.
     */
    method RegisterAndForward(accelerators: AcceleratorArg, key: string)
      returns (registeredAccel: Option<string>, tried: seq<string>)
      modifies this
      ensures var cands := Candidates(accelerators);
              var pick := FirstAccepted(cands, old(registered).Keys, refused, malformed);
        && (pick.None? ==> tried == cands)
        && (pick.Some? ==> tried == cands[..pick.value + 1])
      ensures registeredAccel == ChosenSpelling(old(registered), refused, malformed, Candidates(accelerators))
      ensures registered == AfterRegisterAndForward(old(registered), refused, malformed, Candidates(accelerators), key)
      ensures forwarded == old(forwarded)
    {
      var cands := Candidates(accelerators);
      ghost var before := registered;
      registeredAccel := None;
      tried := [];
      var i := 0;
      while i < |cands|
        invariant 0 <= i <= |cands|
        invariant tried == cands[..i]
        invariant registered == before && forwarded == old(forwarded)
        invariant forall j :: 0 <= j < i ==> !Chosen(AttemptOf(before.Keys, refused, malformed, cands[j]))
      {
        var accel := cands[i];
        tried := tried + [accel];
        assert tried == cands[..i + 1];
        var known := IsRegistered(accel);
        if known == Returned(true) {
          FirstAcceptedAt(cands, before.Keys, refused, malformed, i);
          assert ChosenSpelling(before, refused, malformed, cands) == Some(accel);
          registeredAccel := Some(accel);
          break;
        }
        if known.Returned? {
          var ok := Register(accel, BuiltIn(key, map[]));
          if ok == Returned(true) {
            FirstAcceptedAt(cands, before.Keys, refused, malformed, i);
            assert ChosenSpelling(before, refused, malformed, cands) == Some(accel);
            registeredAccel := Some(accel);
            break;
          }
        }
        i := i + 1;
      }
      if registeredAccel.None? {
        assert FirstAccepted(cands, before.Keys, refused, malformed).None?;
      }
    }

    /** The two built-in hotkeys the host registers at start-up (main.js:289-294). */
    method SetupBuiltInHotkeys() returns (mute: Option<string>, deafen: Option<string>)
      modifies this
      ensures mute == ChosenSpelling(old(registered), refused, malformed, MuteSpellings)
      ensures var afterMute := AfterRegisterAndForward(old(registered), refused, malformed, MuteSpellings, "M");
        && deafen == ChosenSpelling(afterMute, refused, malformed, DeafenSpellings)
        && registered == AfterRegisterAndForward(afterMute, refused, malformed, DeafenSpellings, "D")
      ensures forwarded == old(forwarded)
    {
      var triedMute, triedDeafen;
      mute, triedMute := RegisterAndForward(Spellings(MuteSpellings), "M");
      deafen, triedDeafen := RegisterAndForward(Spellings(DeafenSpellings), "D");
    }

    /**
     * The OS fires `accel` at time `now`; `windowOpen` says whether the main
     * window and its web contents still exist.  A built-in forwarder records
     * an accepted trigger before it looks for the window.
     */
    method Trigger(accel: string, now: int, windowOpen: bool)
      modifies this
      ensures accel !in old(registered) ==> registered == old(registered) && forwarded == old(forwarded)
      ensures accel in old(registered) && old(registered)[accel].Requested? ==>
        && registered == old(registered)
        && forwarded == old(forwarded) + (if windowOpen then RequestedPair(accel, old(registered)[accel].keyEvent) else [])
      ensures accel in old(registered) && old(registered)[accel].BuiltIn? ==>
        var h := old(registered)[accel];
        && registered == old(registered)[accel := h.(lastTriggered := AfterTrigger(h.lastTriggered, accel, now))]
        && forwarded == old(forwarded) +
             (if Accepts(h.lastTriggered, accel, now) && windowOpen then BuiltInPair(h.key) else [])
    {
      if accel !in registered {
        return;
      }
      var h := registered[accel];
      match h
      case Requested(keyEvent) =>
        if windowOpen {
          var pair := RequestedPair(accel, keyEvent);
          forwarded := forwarded + [pair[0]];
          forwarded := forwarded + [pair[1]];
        }
      case BuiltIn(key, lastTriggered) =>
        var last := LastTriggered(lastTriggered, accel);
        if now - last < MinIntervalMs {
          return;
        }
        registered := registered[accel := BuiltIn(key, lastTriggered[accel := now])];
        if !windowOpen {
          return;
        }
        var pair := BuiltInPair(key);
        forwarded := forwarded + [pair[0]];
        forwarded := forwarded + [pair[1]];
    }
  }
}
