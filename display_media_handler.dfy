/**
 * The display-media request handler of main.js:25-112 as an object: one
 * instance per request, whose fields are the closure's variables and the
 * state of the chooser window, and one method per event that can reach it.
 * Each method is tied to the matching step of `CaptureNegotiation`, where
 * the properties are proved.
 */
module DisplayMediaHandler {
  import opened Wrappers
  import opened JsValues
  import opened CaptureCatalog
  import ChooserBridge
  import opened CaptureNegotiation

  class DisplayMediaRequest {
    var sources: seq<CaptureSource>
    var serializable: seq<SerializedSource>
    var handled: bool
    var listeners: set<Listener>
    var chooser: Chooser
    var load: Load
    var effects: seq<Effect>

    /** The fields as a negotiation state. */
    function Snapshot(): State
      reads this
    {
      State(sources, serializable, handled, listeners, chooser, load, effects)
    }

    ghost predicate Valid()
      reads this
    {
      Inv(Snapshot())
    }

    /** The handler's synchronous part, given what `getSources` produced (`None`: nothing, or it failed). */
    constructor (enumerated: Option<seq<CaptureSource>>)
      ensures Snapshot() == Start(enumerated)
      ensures Valid()
    {
      handled := false;
      if enumerated.None? || enumerated.value == [] {
        sources, serializable := [], [];
        listeners := {};
        chooser, load := NotCreated, NoLoad;
        effects := [Resolve(Deny)];
      } else {
        sources := enumerated.value;
        serializable := Serialize(enumerated.value);
        chooser := Hidden;
        listeners := {OnSelected};
        effects := [Listen(OnSelected)];
        listeners := listeners + {OnCanceled};
        effects := effects + [Listen(OnCanceled)];
        load := Loading;
        effects := effects + [StartLoad];
        effects := effects + [WatchClosed];
      }
      new;
      StartInv(enumerated);
    }

    /** A message on an `ipcMain` channel. */
    method Deliver(msg: IpcMessage)
      requires Valid()
      modifies this
      ensures Valid()
      ensures Snapshot() == Step(old(Snapshot()), Message(msg))
    {
      if msg.channel == ChooserBridge.SelectedChannel {
        Selected(FirstArg(msg));
      } else if msg.channel == ChooserBridge.CanceledChannel {
        Canceled();
      }
    }

    /** `if (!chooser.isDestroyed()) chooser.close()` */
    method CloseChooser()
      modifies this
      ensures Snapshot() == CaptureNegotiation.CloseChooser(old(Snapshot()))
    {
      if !chooser.Destroyed? {
        chooser := Closing;
        effects := effects + [Close];
      }
    }

    /** `selectionHandler`, reached only while its `once` listener is attached. */
    method Selected(selectedId: JsValue)
      requires Valid()
      modifies this
      ensures Valid()
      ensures Snapshot() == OnSelection(old(Snapshot()), selectedId)
    {
      ghost var before := Snapshot();
      if OnSelected !in listeners {
        return;
      }
      listeners := listeners - {OnSelected};
      handled := true;
      var selected := Find(sources, selectedId);
      if selected.None? {
        effects := effects + [Resolve(Deny)];
      } else {
        effects := effects + [Resolve(Grant(selected.value, LoopbackAudio))];
      }
      CloseChooser();
      StepKeepsInv(before, Message(IpcMessage(ChooserBridge.SelectedChannel, [selectedId])));
    }

    /** `cancelHandler`, reached only while its `once` listener is attached. */
    method Canceled()
      requires Valid()
      modifies this
      ensures Valid()
      ensures Snapshot() == OnCancel(old(Snapshot()))
    {
      ghost var before := Snapshot();
      if OnCanceled !in listeners {
        return;
      }
      listeners := listeners - {OnCanceled};
      handled := true;
      effects := effects + [Resolve(Deny)];
      CloseChooser();
      CancelKeepsInv(before);
    }

    /** The load's `.catch`. */
    method LoadCatch()
      requires Valid() && load.Loading?
      modifies this
      ensures Valid()
      ensures Snapshot() == CaptureNegotiation.LoadCatch(old(Snapshot()))
    {
      ghost var before := Snapshot();
      load := LoadFailed;
      listeners := listeners - {OnSelected};
      effects := effects + [Unlisten(OnSelected)];
      listeners := listeners - {OnCanceled};
      effects := effects + [Unlisten(OnCanceled)];
      effects := effects + [Resolve(Deny)];
      RemovingBothLeavesNone(before.listeners);
      assert Snapshot() == CaptureNegotiation.LoadCatch(before);
      LoadCatchKeepsInv(before);
    }

    /** The chooser page finished loading: the load's `.then`. */
    method LoadResolved()
      requires Valid()
      modifies this
      ensures Valid()
      ensures Snapshot() == OnLoadResolved(old(Snapshot()))
    {
      ghost var before := Snapshot();
      if !load.Loading? {
        return;
      }
      if chooser.Destroyed? {
        LoadCatch();
        return;
      }
      load := Loaded;
      effects := effects + [SendSources(CatalogPayload(serializable))];
      if chooser.Hidden? {
        chooser := Shown;
      }
      effects := effects + [Show];
      assert Snapshot() == OnLoadResolved(before);
      LoadResolvedKeepsInv(before);
    }

    /** The chooser page failed to load. */
    method LoadRejected()
      requires Valid()
      modifies this
      ensures Valid()
      ensures Snapshot() == OnLoadRejected(old(Snapshot()))
    {
      if load.Loading? {
        LoadCatch();
      }
    }

    /** The chooser window's 'closed' event. */
    method Closed()
      requires Valid()
      modifies this
      ensures Valid()
      ensures Snapshot() == OnClosed(old(Snapshot()))
    {
      ghost var before := Snapshot();
      if !IsOpen(chooser) {
        return;
      }
      chooser := Destroyed;
      if !handled {
        effects := effects + [Resolve(Deny)];
      }
      listeners := listeners - {OnSelected};
      effects := effects + [Unlisten(OnSelected)];
      listeners := listeners - {OnCanceled};
      effects := effects + [Unlisten(OnCanceled)];
      RemovingBothLeavesNone(before.listeners);
      assert Snapshot() == OnClosed(before);
      ClosedKeepsInv(before);
    }
  }
}
