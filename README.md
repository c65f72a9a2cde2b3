# sharkord-client: capture negotiation and global hotkeys

A Dafny model of the two pieces of logic in the Sharkord desktop shell (an
Electron wrapper around the Sharkord web client) that do more than wire
windows together:

- **Screen-capture negotiation.**
  - The host answers a page's display-media request. It enumerates screens and windows, serialises them, and opens a hidden modal chooser window. It sends the chooser the catalog once the chooser page has loaded.
  - It then calls the request's callback when the chooser sends a selection or a cancellation, when the page fails to load, or when the chooser window closes.
  - The chooser's preload bridge normalises the catalog it receives and sends the two reply messages.
- **Global hotkeys.**
  - The host registers OS-wide accelerators: on demand from the renderer, and for two built-in hotkeys (mute and deafen) tried across several spellings.
  - It forwards their triggers into the main window as synthetic key events, and debounces held keys for the built-ins.
  - At start-up, the main window's preload restores the user's saved bindings from local storage, and registers them. When both are empty, it asks the host's cache.
  - The cache is reached through `window.electronAPI`. The main window runs with context isolation (main.js:18), so the preload's own `window` most likely lacks what `contextBridge.exposeInMainWorld` installs (preload.js:8). If so, that branch is never taken. The model keeps the cache's answer as an input, and the missing API is one of its cases (`NoCacheApi`).

The model follows the code as written, including four behaviours that a
reader might not expect:

- **A chooser selection never matches.** The chooser sends `{ sourceId, audioProcessId }`, but the host compares each source id against that whole object. So every selection made through the bridge denies the request (`ChooserSelectionNeverMatches`). A bare id string would be granted (`BareIdSelectionGrants`).
- **The callback can be called twice.**
  - A failed page load removes the listeners and denies, but does not set `handled`. The later 'closed' event then denies a second time (`LoadFailureThenCloseResolvesTwice`).
  - The cancel listener survives a selection until the window's 'closed' event, so a cancel in between calls back again (`SelectThenCancelResolvesTwice`). The select listener likewise survives a cancellation: a bare-id selection after a cancel grants the source after the request was already denied (`CancelThenSelectResolvesTwice`). The selection the chooser bridge actually sends would deny a second time instead.
  - The load's `.catch` has no `handled` guard either. When the window closes before the page load settles, the 'closed' handler denies. The load then denies again, whether it rejects or resolves: sending to the destroyed window throws into the `.catch` (`CloseThenLoadResolvesTwice`).
  - A selection that arrives before the page has loaded resolves and closes the chooser. If the window is then destroyed before the load settles, the load denies a second time (`SelectBeforeLoadResolvesTwice`). If the load resolves first, it sends the catalog and shows the closing window, and the callback is not called again.
  - If the page load is the first event and at most one chooser message arrives, the callback is called at most once. It has been called exactly once as soon as the request is handled or the window is gone (`ResolvedAtMostOnce`).
- **Already registered counts as success.** When this process already holds an accelerator, `registerAndForward` settles on it and attaches no forwarder.
- **The debounce time is recorded first.** A built-in forwarder records the trigger time before it checks that the main window still exists.
- **The built-in hotkeys do not survive start-up.** The host registers the built-in mute and deafen forwarders while it creates the main window (main.js:137, 289-294). The main window's preload then unregisters every shortcut before applying the saved bindings (preload.js:71). So after a normal start-up, every registration is a renderer-style one, which the host forwards without the 300 ms debounce. Only a rejected cache request, which ends the routine before it touches the host, leaves the built-ins in place (`StartUp`).

Modules, one per concern:

| file | module | models |
|---|---|---|
| `js_values.dfy` | `JsValues` | the JavaScript values crossing IPC: truthiness, `a \|\| b`, `v?.key` |
| `capture_catalog.dfy` | `CaptureCatalog` | capture sources and their serialised, transport-safe form |
| `chooser_bridge.dfy` | `ChooserBridge` | the chooser's preload: the payload it reads, the messages it sends |
| `negotiation.dfy` | `CaptureNegotiation` | the negotiation as a state machine over events, with its invariant and the exactly-once theorem |
| `display_media_handler.dfy` | `DisplayMediaHandler` | the same handler as an object whose methods update its fields, each tied to one step of the state machine |
| `accelerators.dfy` | `Accelerators` | forwarded key events, the 300 ms debounce, first-accepted-wins over spellings |
| `global_shortcuts.dfy` | `GlobalShortcuts` | the OS registrar and the host's shortcut handlers, as a class |
| `saved_hotkeys.dfy` | `SavedHotkeys` | the start-up restoration of saved hotkeys, with local storage as a class |

Effects the host has on the outside world appear in the model as explicit traces:

- In the negotiation, the `effects` sequence records callback calls, listener changes, the catalog send, and showing and closing the chooser.
- In the registrar, the `forwarded` sequence records the synthetic key events sent into the main window.

## Model

| member | source | states |
|---|---|---|
| CaptureCatalog.Serialize | main.js:36-40 | one entry per enumerated source, in order and with the same id; the name falls back to the id exactly when it is empty; a thumbnail data URL is present exactly when a non-empty thumbnail exists, and is that thumbnail's URL |
| CaptureCatalog.CatalogPayload | main.js:90 | the 'capture-sources' payload is a bare array holding one plain object per serialised source, in order |
| CaptureCatalog.SourceRoundTrip | main.js:36-40 | a serialised source reads back from its IPC object unchanged; nothing but plain data crosses the boundary |
| ChooserBridge.ReceivedSources | chooser-preload.js:6 | a truthy `sources` field wins; otherwise any truthy payload (an array, another object, a non-empty string or a non-zero number) is taken as is; a falsy payload becomes `[]`; the result is never falsy |
| ChooserBridge.ReceivedProcesses | chooser-preload.js:7 | a truthy `processes` field, otherwise `[]`; anything but an object yields `[]` |
| ChooserBridge.BareArrayPayload | chooser-preload.js:5-8 | a bare array payload is received as the sources, with no processes |
| ChooserBridge.CatalogArrivesIntact | chooser-preload.js:5-8 | the catalog the host sends (main.js:90) arrives with as many items as there were sources, each reading back as the serialised source at its position, and with no processes |
| ChooserBridge.SelectMessage | chooser-preload.js:11 | a selection is one message on 'capture-source-selected' whose only argument is an object (never a string) carrying `sourceId` and `audioProcessId` |
| ChooserBridge.CancelMessage | chooser-preload.js:12 | a cancellation is a message on 'capture-source-canceled' with no argument |
| CaptureNegotiation.Start | main.js:28-100 | a missing or empty catalog denies at once and creates nothing; otherwise the chooser is created hidden and the set-up is recorded in order (both listeners, the page load, the 'closed' handler), with nothing resolved |
| CaptureNegotiation.Find | main.js:64 | a match has the selected id and comes from the catalog; there is no match exactly when no source's id equals the selected value; a match is the first such source |
| CaptureNegotiation.StepKeepsInv | main.js:58-105 | `Step`, which routes each event to its handler: every event preserves the invariant: set-up effects first, the catalog serialised, a callback call whenever handled, closed or failed, none while an unhandled chooser is open and loading, grants only of enumerated sources with loopback audio, and catalog sends and shows only after a successful load |
| CaptureNegotiation.ReachableInv | main.js:25-112 | every state any sequence of events reaches satisfies the invariant |
| CaptureNegotiation.StaleEventsIgnored | main.js:75-105 | the handlers' guards: a message whose `once` listener is gone, a message on another channel, a settled load and a second 'closed' event change nothing, and neither does closing a destroyed chooser (the `isDestroyed` check of main.js:75 and 82); a load that resolves after the window is destroyed runs the `.catch` |
| CaptureNegotiation.EmptyCatalogDeniesAtOnce | main.js:30-33 | an empty or missing catalog is denied exactly once, with no chooser and no listener, and no later event changes anything |
| CaptureNegotiation.SelectionResolvesAndCloses | main.js:61-77 | `OnSelection`, the selection handler: a selection sets `handled`, consumes its own listener only, leaves the load as it is, and appends exactly a callback call with the lookup's outcome followed by a close of the chooser |
| CaptureNegotiation.ChooserSelectionNeverMatches | main.js:61-70 | the message the chooser bridge sends denies the request whatever source it names, since an object never equals a source id |
| CaptureNegotiation.BareIdSelectionGrants | main.js:64-69 | a selection carrying a source's bare id grants that source with loopback audio |
| CaptureNegotiation.CancelDeniesThenCloses | main.js:79-83 | `OnCancel`, the cancel handler: a cancellation sets `handled`, consumes its listener, denies, and only then asks the chooser to close |
| CaptureNegotiation.LoadSuccessSendsThenShows | main.js:88-92 | `OnLoadResolved`, the load's `.then`: a successful load sends the serialised catalog and then shows the chooser, resolving nothing and keeping the listeners |
| CaptureNegotiation.LoadedState | main.js:88-92 | once the page has loaded, the chooser is shown, both listeners are waiting and nothing is resolved |
| CaptureNegotiation.LoadFailureDenies | main.js:93-98 | `OnLoadRejected` and `LoadCatch`, the load's `.catch`: a failed load removes both listeners and denies once, leaves `handled` and the chooser as they were, and the catalog was never sent nor the chooser shown |
| CaptureNegotiation.ClosedAfterHandledAddsNothing | main.js:100-105 | `OnClosed`, the 'closed' handler: after a selection or cancellation the 'closed' handler adds no callback call and leaves no listener |
| CaptureNegotiation.ClosedUnhandledDenies | main.js:100-105 | `OnClosed`: closing an unhandled chooser denies once, removes both listeners and destroys the window |
| CaptureNegotiation.ResolvedAtMostOnce | main.js:58-105 | when the page loads first and at most one chooser message arrives, the callback is called at most once, exactly once as soon as the request is handled or the window is gone, and no listener outlives the window |
| CaptureNegotiation.LoadFailureThenCloseResolvesTwice | main.js:93-105 | a failed load followed by the window closing calls the callback twice, both times denying |
| CaptureNegotiation.CloseThenLoadResolvesTwice | main.js:88-105 | the window closing before the page load settles, then the load rejecting or resolving: the callback is called twice, both times denying |
| CaptureNegotiation.ClosedDuringLoadDeniesAgain | main.js:88-105 | once a handled request's chooser closes while its page still loads, the load's settling adds one more denial |
| CaptureNegotiation.SelectBeforeLoadResolvesTwice | main.js:61-105 | a selection before the page load, then the close, then the load: the callback is called with the selection's outcome and then again with a denial |
| CaptureNegotiation.CancelThenSelectionResolves | main.js:61-86 | from any state where both listeners wait and the chooser is not destroyed, a cancel then a selection call back twice: a denial, then the selection's outcome |
| CaptureNegotiation.CancelThenSelectResolvesTwice | main.js:61-86 | load, a cancellation, then a selection carrying the first source's bare id: the callback denies and then grants that source with loopback audio |
| CaptureNegotiation.SelectThenCancelResolvesTwice | main.js:74-86 | load, a chooser selection, then a cancellation: the callback is called twice, both times denying |
| DisplayMediaHandler.DisplayMediaRequest.constructor | main.js:28-100 | the handler's synchronous part leaves the fields equal to the negotiation's start state, which satisfies the invariant |
| DisplayMediaHandler.DisplayMediaRequest.Deliver | main.js:85-86 | a message on an IPC channel updates the fields exactly as one negotiation step does, keeping the invariant |
| DisplayMediaHandler.DisplayMediaRequest.CloseChooser | main.js:75 | closes the chooser unless it is already destroyed, recording the close (also main.js:82) |
| DisplayMediaHandler.DisplayMediaRequest.Selected | main.js:61-77 | the selection handler's update of the fields, equal to the selection step and keeping the invariant |
| DisplayMediaHandler.DisplayMediaRequest.Canceled | main.js:79-83 | the cancel handler's update, equal to the cancel step and keeping the invariant |
| DisplayMediaHandler.DisplayMediaRequest.LoadCatch | main.js:93-98 | the load's `.catch` update, keeping the invariant |
| DisplayMediaHandler.DisplayMediaRequest.LoadResolved | main.js:88-92 | the load's `.then` update, including the throwing send to a destroyed window that falls to the `.catch`, keeping the invariant |
| DisplayMediaHandler.DisplayMediaRequest.LoadRejected | main.js:93-98 | a rejected load runs the `.catch`, keeping the invariant |
| DisplayMediaHandler.DisplayMediaRequest.Closed | main.js:100-105 | the 'closed' handler's update, keeping the invariant |
| Accelerators.Upper | main.js:257 | uppercasing keeps the length, maps every character, and leaves no lower-case ASCII letter |
| Accelerators.BuiltInPair | main.js:257-271 | a built-in hotkey forwards a key-down then a key-up, each with the uppercased key as `key` and `keyCode` and the control modifier |
| Accelerators.ForwardedKeyCode | main.js:195-196 | the forwarded key code is the key event's truthy `key`, else its truthy `keyCode`, else the accelerator itself; without a key event object it is the accelerator |
| Accelerators.RequestedPair | main.js:195-202 | a renderer-registered shortcut forwards key-down then key-up with no `key` property, the forwarded key code, and the key event's modifiers exactly when they are truthy |
| Accelerators.AfterTrigger | main.js:251-254 | an accepted trigger records its time for that accelerator only; a dropped trigger changes nothing |
| Accelerators.HeldKeyFiresOnce | main.js:237-254 | after an accepted trigger, every trigger less than 300 ms after it is dropped and the recorded time stays put |
| Accelerators.SpacedTriggersAllFire | main.js:251-254 | triggers at least 300 ms apart are all accepted, and the last one is recorded |
| Accelerators.FirstTriggerNeedsClockPast | main.js:252-253 | with nothing recorded, a trigger is accepted exactly when the clock reads at least 300 |
| Accelerators.Candidates | main.js:234 | a non-array argument is wrapped into a one-element list; an array is used as is |
| Accelerators.FirstAccepted | main.js:242-281 | finds the first spelling that is already registered or is accepted, every earlier one being neither; none exactly when no spelling qualifies |
| Accelerators.ThirdSpellingChosen | main.js:289-293 | with the first two mute spellings refused, the third is the one chosen |
| GlobalShortcuts.ChosenSpelling | main.js:241-283 | the chosen spelling is the first candidate that is already held or is accepted, every earlier one being neither; when none is chosen, every candidate either throws or is free but refused |
| GlobalShortcuts.AfterRegisterAndForward | main.js:241-281 | existing registrations are kept unchanged; a registration is added exactly when the chosen spelling was not already held, it is that spelling, and it is a built-in forwarder with an empty debounce map |
| GlobalShortcuts.AlreadyRegisteredAttachesNothing | main.js:244-248 | a first spelling this process already holds is chosen, and the registrar is left unchanged |
| GlobalShortcuts.FreeFirstSpellingRegistered | main.js:249-277 | a free first spelling is the one registered, with a fresh forwarder, and nothing else changes |
| GlobalShortcuts.ShortcutRegistry.IsRegistered | main.js:244 | throws exactly on a malformed accelerator, otherwise reports whether this process holds it |
| GlobalShortcuts.ShortcutRegistry.Register | main.js:249 | throws on a malformed accelerator; succeeds exactly when it is neither held by this process nor refused, and only then records the handler |
| GlobalShortcuts.ShortcutRegistry.HandleRegister | main.js:191-209 | the 'register-global-shortcut' handler answers `true` exactly for a well-formed, unheld, unrefused accelerator and then records the renderer's key event; a throw answers `false` |
| GlobalShortcuts.ShortcutRegistry.HandleUnregister | main.js:211-219 | removes the accelerator and answers `true`, or answers `false` when it throws |
| GlobalShortcuts.ShortcutRegistry.HandleUnregisterAll | main.js:221-229 | clears every registration and answers `true` |
| GlobalShortcuts.ShortcutRegistry.WillQuit | main.js:157-163 | on quit no registration is left |
| GlobalShortcuts.ShortcutRegistry.RegisterAndForward | main.js:233-285 | tries the candidates in order up to and including the chosen one (all of them when none is chosen), returns the chosen spelling, and leaves the registrar as the first-accepted-wins function says |
| GlobalShortcuts.ShortcutRegistry.SetupBuiltInHotkeys | main.js:289-294 | mute's spellings are tried first with key 'M', then deafen's with key 'D' against the registrar mute left |
| GlobalShortcuts.ShortcutRegistry.Trigger | main.js:249-275 | an unregistered accelerator does nothing; a renderer shortcut forwards its pair when the window is open; a built-in records an accepted trigger even when the window is gone, and forwards only when accepted and the window is open |
| SavedHotkeys.LocalStorage.SetItem | preload.js:62-63 | a write stores the value, or throws and changes nothing when storage is not writable |
| SavedHotkeys.ChooseBindings | preload.js:52-59 | any locally saved binding wins over the cache; only when both are empty is the cache asked, its missing values becoming empty; a rejected cache request ends the routine |
| SavedHotkeys.MirroredStorage | preload.js:60-65 | only cached, non-empty values are written back; other keys are untouched; storage whose writes throw is left as it was |
| SavedHotkeys.ApplyBindings | preload.js:71-79 | unregister-all comes first; every later call registers mute with its key event or deafen with its key event, mute's before deafen's; the mute call is made exactly when mute is bound, the deafen call exactly when deafen is bound and mute was unbound or accepted; mute ends up registered with its key event exactly when bound and accepted, deafen exactly when attempted and accepted against the registrar mute left, and nothing else is registered; success exactly when every attempted registration was accepted |
| SavedHotkeys.FailedMuteSkipsDeafen | preload.js:74-79 | a mute binding the host refuses makes the routine fail and deafen is never attempted |
| SavedHotkeys.SameBindingForBothFails | preload.js:74-79 | the same accelerator for both: mute is registered, deafen is tried and refused, and the routine fails |
| SavedHotkeys.RestoredMuteForwardsLowerCase | preload.js:75 | a restored mute shortcut forwards key code "m" with the control modifier, since its `key` wins over its `keyCode` "M" (main.js:195) |
| SavedHotkeys.RestoreBindings | preload.js:52-65 | returns the chosen bindings and leaves storage mirrored; when the mute write throws, the deafen write is skipped |
| SavedHotkeys.ApplyToHost | preload.js:71-79 | makes exactly the host calls, and leaves exactly the registrations and success flag, that `ApplyBindings` gives |
| SavedHotkeys.ApplySavedHotkeysFromStorage | preload.js:50-87 | a rejected cache request makes no host call and changes nothing; otherwise storage is mirrored and the host calls, registrations and success match the plan |
| SavedHotkeys.StartUp | preload.js:50-87 | after the host's built-in set-up (main.js:137, 289-294) and the preload's routine, a rejected cache request ends in `Failed` with storage unchanged and the built-ins as set up; otherwise storage is mirrored, the registrations are exactly those of the `ApplyBindings` plan whatever the set-up left, all of them renderer-registered with no debounced built-in, and the outcome carries the plan's success; nothing is forwarded |

## Left out

- Window creation, the application menu, icon loading, drag and drop, the file dialog, the Ctrl+Q quit shortcut and the settings-button injection: none of it takes part in negotiation or hotkey logic.
- The Electron APIs (`desktopCapturer`, `BrowserWindow`, `ipcMain`, `globalShortcut`), `Date.now()` and `localStorage` sit behind parameters and fields. The enumerated catalog, the clock reading, whether the main window is open, the spellings the OS refuses or cannot parse, whether storage is writable, and the cache's answer are inputs.
- Promise scheduling is not modelled as such. Each continuation (the load's `.then`/`.catch`, the 'closed' event, an IPC message) is an event, and events may arrive in any order.
- Several display-media requests at the same time: each negotiation is modelled on its own. Two chooser windows would share the same IPC channels.
- The catch of the selection handler (main.js:71-73): it only runs when the callback itself throws. The callback is the host's own and is taken not to throw.
- The catch of the whole display-media handler (main.js:106-109) is modelled only for a failing enumeration, as a missing catalog. No later step throws synchronously.
- The 'persist-hotkeys' and 'get-cached-hotkeys' handlers: main.js does not define them, so the cache's answer is an input. It includes the rejection that a missing handler produces.
- Per-process audio: `processes` is read by the chooser bridge and never used by the host.
- Upper: only ASCII letters are uppercased. The full Unicode case mapping of `toUpperCase` is not modelled.
- BuiltInPair: the `String(key)` conversion of a non-string key is not modelled. The host only passes the strings 'M' and 'D'.
- JavaScript numbers are modelled as unbounded integers: the clock and the debounce arithmetic are in integral milliseconds.
- HandleUnregisterAll and WillQuit: `unregisterAll` is taken never to throw, so the `false` answer and the logged error of those handlers are not modelled.
- ShortcutRegistry: the registrar keys accelerators by their spelling. Electron parses accelerators, so "Control+M", "Ctrl+M" and, outside macOS, "CommandOrControl+M" name one key combination. Once one of them is held, the OS reports the others as held too. The model treats spellings as distinct. So `ApplyBindings` accepting mute "Ctrl+Shift+M" with deafen "Control+Shift+M" exists only in the model. Outside macOS the same holds for `ThirdSpellingChosen`'s scenario; on macOS, "CommandOrControl+M" is Command+M, a different combination, so that scenario can occur there.
- LocalStorage: whether writes throw is fixed per storage instance. A mute write that succeeds followed by a deafen write that throws (a full quota, say) is not represented. In that case the source keeps the mute value, and `MirroredStorage` does not describe it.
- Console logging, including the failure warning at the end of the start-up routine.
