/**
 * The capture-source negotiation of the display-media request handler
 * (main.js:25-112) as a state machine over explicit events.  `Start` is the
 * synchronous part of the handler; every later event (a chooser message, the
 * chooser page's load settling, the chooser window's 'closed' event) is one
 * `Step`, and events may arrive in any order.
 */
module CaptureNegotiation {
  import opened Wrappers
  import opened JsValues
  import opened CaptureCatalog
  import ChooserBridge

  const LoopbackAudio := "loopback"

  /** The argument of the display-media callback: none (deny), or a video source with its audio. */
  datatype Outcome = Deny | Grant(video: CaptureSource, audio: string)

  /** The chooser window; `Closing` is after `close()` and before its 'closed' event. */
  datatype Chooser = NotCreated | Hidden | Shown | Closing | Destroyed

  /** The promise returned by `chooser.loadFile(...)`. */
  datatype Load = NoLoad | Loading | Loaded | LoadFailed

  /** The two `ipcMain.once` listeners. */
  datatype Listener = OnSelected | OnCanceled

  /** Removing both listeners leaves none. */
  lemma RemovingBothLeavesNone(ls: set<Listener>)
    ensures ls - {OnSelected} - {OnCanceled} == {}
  {
    forall l | l in ls ensures l == OnSelected || l == OnCanceled {
    }
  }

  /** What the handler does to the outside world, in order. */
  datatype Effect =
    | Resolve(outcome: Outcome)
    | Listen(listener: Listener)
    | Unlisten(listener: Listener)
    | StartLoad
    | WatchClosed
    | SendSources(payload: JsValue)
    | Show
    | Close

  datatype State = State(
    sources: seq<CaptureSource>,
    serializable: seq<SerializedSource>,
    handled: bool,
    listeners: set<Listener>,
    chooser: Chooser,
    load: Load,
    effects: seq<Effect>)

  datatype Event = Message(msg: IpcMessage) | LoadResolved | LoadRejected | WindowClosed

  /** The chooser exists and its 'closed' handler has not run yet. */
  predicate IsOpen(c: Chooser) {
    c.Hidden? || c.Shown? || c.Closing?
  }

  /** The synchronous set-up: both listeners, then the load, then the 'closed' handler. */
  const Opening: seq<Effect> := [Listen(OnSelected), Listen(OnCanceled), StartLoad, WatchClosed]

  /** Every call of the display-media callback, in order. */
  function Resolutions(effects: seq<Effect>): seq<Outcome>
    decreases |effects|
  {
    if effects == [] then []
    else Resolutions(effects[..|effects| - 1]) +
         (if effects[|effects| - 1].Resolve? then [effects[|effects| - 1].outcome] else [])
  }

  lemma {:induction false} ResolutionsAppend(a: seq<Effect>, b: seq<Effect>)
    ensures Resolutions(a + b) == Resolutions(a) + Resolutions(b)
    decreases |b|
  {
    if b == [] {
      assert a + b == a;
    } else {
      var b' := b[..|b| - 1];
      assert (a + b)[..|a + b| - 1] == a + b';
      ResolutionsAppend(a, b');
    }
  }

  /**
   * The handler up to its first `await`-free suspension: an empty or missing
   * catalog denies at once; otherwise the chooser is created hidden and the
   * listeners are attached before its page starts loading.
   */
  function Start(enumerated: Option<seq<CaptureSource>>): (s: State)
    ensures s.chooser.NotCreated? <==> enumerated.None? || enumerated.value == []
    ensures s.chooser.NotCreated? ==> s.effects == [Resolve(Deny)] && s.listeners == {}
    ensures !s.chooser.NotCreated? ==>
      && s.sources == enumerated.value
      && s.listeners == {OnSelected, OnCanceled}
      && s.effects == Opening
      && !s.handled && s.load.Loading? && s.chooser.Hidden?
  {
    if enumerated.None? || enumerated.value == [] then
      State([], [], false, {}, NotCreated, NoLoad, [Resolve(Deny)])
    else
      State(enumerated.value, Serialize(enumerated.value), false, {OnSelected, OnCanceled}, Hidden, Loading, Opening)
  }

  /** `sources.find(s => s.id === selectedId)` */
  function Find(sources: seq<CaptureSource>, selectedId: JsValue): (r: Option<CaptureSource>)
    ensures r.Some? ==> r.value in sources && selectedId == Str(r.value.id)
    ensures r.None? <==> forall i :: 0 <= i < |sources| ==> selectedId != Str(sources[i].id)
    ensures r.Some? ==> exists i :: 0 <= i < |sources| && sources[i] == r.value &&
                                    forall j :: 0 <= j < i ==> selectedId != Str(sources[j].id)
  {
    if sources == [] then None
    else if selectedId == Str(sources[0].id) then Some(sources[0])
    else
      var r := Find(sources[1..], selectedId);
      if r.Some? then
        var i :| 0 <= i < |sources[1..]| && sources[1..][i] == r.value &&
                 forall j :: 0 <= j < i ==> selectedId != Str(sources[1..][j].id);
        assert sources[i + 1] == r.value;
        r
      else r
  }

  function SelectionOutcome(sources: seq<CaptureSource>, selectedId: JsValue): Outcome {
    var found := Find(sources, selectedId);
    if found.Some? then Grant(found.value, LoopbackAudio) else Deny
  }

  /** `if (!chooser.isDestroyed()) chooser.close()` */
  function CloseChooser(s: State): State {
    if s.chooser.Destroyed? then s else s.(chooser := Closing, effects := s.effects + [Close])
  }

  /** `selectionHandler`; the `once` listener is gone after it runs. */
  function OnSelection(s: State, selectedId: JsValue): State {
    if OnSelected !in s.listeners then s
    else CloseChooser(s.(handled := true, listeners := s.listeners - {OnSelected},
                         effects := s.effects + [Resolve(SelectionOutcome(s.sources, selectedId))]))
  }

  /** `cancelHandler` */
  function OnCancel(s: State): State {
    if OnCanceled !in s.listeners then s
    else CloseChooser(s.(handled := true, listeners := s.listeners - {OnCanceled},
                         effects := s.effects + [Resolve(Deny)]))
  }

  /** The `.catch` of the load: both listeners removed and the request denied; `handled` stays as it is. */
  function LoadCatch(s: State): State {
    s.(load := LoadFailed, listeners := {},
       effects := s.effects + [Unlisten(OnSelected), Unlisten(OnCanceled), Resolve(Deny)])
  }

  /**
   * The `.then` of the load.  Sending to a destroyed window throws, and the
   * promise chain hands that error to the `.catch`.
   */
  function OnLoadResolved(s: State): State {
    if !s.load.Loading? then s
    else if s.chooser.Destroyed? then LoadCatch(s)
    else s.(load := Loaded, chooser := if s.chooser.Hidden? then Shown else s.chooser,
            effects := s.effects + [SendSources(CatalogPayload(s.serializable)), Show])
  }

  function OnLoadRejected(s: State): State {
    if !s.load.Loading? then s else LoadCatch(s)
  }

  /** The chooser's 'closed' handler: denies only when unhandled, always removes both listeners. */
  function OnClosed(s: State): State {
    if !IsOpen(s.chooser) then s
    else s.(chooser := Destroyed, listeners := {},
            effects := s.effects + (if s.handled then [] else [Resolve(Deny)]) + [Unlisten(OnSelected), Unlisten(OnCanceled)])
  }

  /** One event; messages on other channels reach no listener of this handler. */
  function Step(s: State, e: Event): State {
    match e
    case Message(m) =>
      if m.channel == ChooserBridge.SelectedChannel then OnSelection(s, FirstArg(m))
      else if m.channel == ChooserBridge.CanceledChannel then OnCancel(s)
      else s
    case LoadResolved => OnLoadResolved(s)
    case LoadRejected => OnLoadRejected(s)
    case WindowClosed => OnClosed(s)
  }

  function Run(s: State, events: seq<Event>): State
    decreases |events|
  {
    if events == [] then s else Step(Run(s, events[..|events| - 1]), events[|events| - 1])
  }

  /** A message the chooser sends: a selection or a cancellation. */
  predicate IsSignal(e: Event) {
    e.Message? && (e.msg.channel == ChooserBridge.SelectedChannel || e.msg.channel == ChooserBridge.CanceledChannel)
  }

  function Signals(events: seq<Event>): nat
    decreases |events|
  {
    if events == [] then 0
    else Signals(events[..|events| - 1]) + (if IsSignal(events[|events| - 1]) then 1 else 0)
  }

  /** A grant names an enumerated source with loopback audio; the catalog is sent, and the chooser shown, only after a successful load. */
  predicate EffectFits(sources: seq<CaptureSource>, load: Load, e: Effect) {
    && (e.Resolve? && e.outcome.Grant? ==> e.outcome.video in sources && e.outcome.audio == LoopbackAudio)
    && (e.SendSources? ==> load.Loaded? && e.payload == CatalogPayload(Serialize(sources)))
    && (e.Show? ==> load.Loaded?)
  }

  /** The set-up effects come first and the serialised catalog matches the enumerated one. */
  ghost predicate InvShape(s: State) {
    && (s.chooser.NotCreated? ==> s.effects == [Resolve(Deny)] && s.listeners == {} && s.load.NoLoad?)
    && (!s.chooser.NotCreated? ==>
          && |s.effects| >= 4 && s.effects[..4] == Opening && !s.load.NoLoad?
          && s.serializable == Serialize(s.sources))
  }

  /**
   * The callback has been called once the request is handled, the chooser is
   * gone or the load failed; an open, unhandled chooser has been called back
   * only by a failed load.
   */
  ghost predicate InvCount(s: State) {
    && (s.chooser.Destroyed? || s.load.LoadFailed? ==> s.listeners == {} && |Resolutions(s.effects)| >= 1)
    && (s.handled ==> |Resolutions(s.effects)| >= 1)
    && (!s.handled && IsOpen(s.chooser) ==> |Resolutions(s.effects)| == if s.load.LoadFailed? then 1 else 0)
  }

  ghost predicate InvFits(s: State) {
    forall e | e in s.effects :: EffectFits(s.sources, s.load, e)
  }

  /** What holds in every state a negotiation can reach. */
  ghost predicate Inv(s: State) {
    InvShape(s) && InvCount(s) && InvFits(s)
  }

  lemma PrefixKept(a: seq<Effect>, b: seq<Effect>)
    requires |a| >= 4
    ensures (a + b)[..4] == a[..4]
  {
    assert forall k :: 0 <= k < 4 ==> (a + b)[k] == a[k];
  }

  lemma ResolutionsOfOne(x: Effect)
    ensures Resolutions([x]) == if x.Resolve? then [x.outcome] else []
  {
    assert [x][..0] == [];
  }

  lemma ResolutionsOfTwo(x: Effect, y: Effect)
    ensures Resolutions([x, y]) == Resolutions([x]) + Resolutions([y])
  {
    ResolutionsAppend([x], [y]);
    assert [x] + [y] == [x, y];
  }

  /** What the load's `.catch` appends: both listeners removed, then one denial. */
  lemma CatchAppends(sources: seq<CaptureSource>, load: Load)
    ensures var extra := [Unlisten(OnSelected), Unlisten(OnCanceled), Resolve(Deny)];
      && Resolutions(extra) == [Deny]
      && (forall e | e in extra :: EffectFits(sources, load, e) && !e.SendSources? && !e.Show?)
  {
    var extra := [Unlisten(OnSelected), Unlisten(OnCanceled), Resolve(Deny)];
    ResolutionsAppend([Unlisten(OnSelected), Unlisten(OnCanceled)], [Resolve(Deny)]);
    assert [Unlisten(OnSelected), Unlisten(OnCanceled)] + [Resolve(Deny)] == extra;
    ResolutionsOfTwo(Unlisten(OnSelected), Unlisten(OnCanceled));
    ResolutionsOfOne(Unlisten(OnSelected));
    ResolutionsOfOne(Unlisten(OnCanceled));
    ResolutionsOfOne(Resolve(Deny));
  }

  /** What the 'closed' handler appends: a denial unless handled, then both listeners removed. */
  lemma ClosingAppends(handled: bool, sources: seq<CaptureSource>, load: Load)
    ensures var extra := (if handled then [] else [Resolve(Deny)]) + [Unlisten(OnSelected), Unlisten(OnCanceled)];
      && Resolutions(extra) == (if handled then [] else [Deny])
      && (forall e | e in extra :: EffectFits(sources, load, e))
  {
    var tail := [Unlisten(OnSelected), Unlisten(OnCanceled)];
    var extra := (if handled then [] else [Resolve(Deny)]) + tail;
    ResolutionsOfTwo(Unlisten(OnSelected), Unlisten(OnCanceled));
    ResolutionsOfOne(Unlisten(OnSelected));
    ResolutionsOfOne(Unlisten(OnCanceled));
    assert Resolutions(tail) == [];
    if handled {
      assert extra == tail;
    } else {
      assert extra == [Resolve(Deny)] + tail;
      ResolutionsAppend([Resolve(Deny)], tail);
      ResolutionsOfOne(Resolve(Deny));
    }
    forall e | e in extra
      ensures EffectFits(sources, load, e)
    {
      assert e == Resolve(Deny) || e == Unlisten(OnSelected) || e == Unlisten(OnCanceled);
    }
  }

  /**
   * A transition that appends `extra` to the effects, leaves the catalog
   * alone and never undoes a successful load keeps the shape and the fit of
   * every effect.
   */
  lemma AppendKeepsShapeAndFits(s: State, t: State, extra: seq<Effect>)
    requires InvShape(s) && InvFits(s) && !s.chooser.NotCreated?
    requires t.sources == s.sources && t.serializable == s.serializable && t.effects == s.effects + extra
    requires !t.chooser.NotCreated? && !t.load.NoLoad? && (s.load.Loaded? ==> t.load.Loaded?)
    requires forall e | e in extra :: EffectFits(t.sources, t.load, e)
    ensures InvShape(t) && InvFits(t)
  {
    PrefixKept(s.effects, extra);
    forall e | e in t.effects
      ensures EffectFits(t.sources, t.load, e)
    {
      if e !in extra {
        assert e in s.effects;
      }
    }
  }

  lemma SelectionKeepsCount(s: State, selectedId: JsValue)
    requires InvCount(s)
    ensures InvCount(OnSelection(s, selectedId))
  {
    if OnSelected in s.listeners {
      SelectionResolvesAndCloses(s, selectedId);
    }
  }

  lemma CancelKeepsCount(s: State)
    requires InvCount(s)
    ensures InvCount(OnCancel(s))
  {
    if OnCanceled in s.listeners {
      CancelDeniesThenCloses(s);
    }
  }

  lemma LoadCatchKeepsCount(s: State)
    requires InvCount(s) && s.load.Loading?
    ensures InvCount(LoadCatch(s))
  {
    var extra := [Unlisten(OnSelected), Unlisten(OnCanceled), Resolve(Deny)];
    CatchAppends(s.sources, s.load);
    assert LoadCatch(s).effects == s.effects + extra;
    ResolutionsAppend(s.effects, extra);
  }

  lemma LoadResolvedKeepsCount(s: State)
    requires InvCount(s)
    ensures InvCount(OnLoadResolved(s))
  {
    if s.load.Loading? {
      if s.chooser.Destroyed? {
        LoadCatchKeepsCount(s);
      } else {
        var payload := CatalogPayload(s.serializable);
        var extra := [SendSources(payload), Show];
        assert OnLoadResolved(s).effects == s.effects + extra;
        ResolutionsAppend(s.effects, extra);
        ResolutionsOfTwo(SendSources(payload), Show);
        ResolutionsOfOne(SendSources(payload));
        ResolutionsOfOne(Show);
      }
    }
  }

  lemma ClosedKeepsCount(s: State)
    requires InvCount(s)
    ensures InvCount(OnClosed(s))
  {
    if IsOpen(s.chooser) {
      var extra := (if s.handled then [] else [Resolve(Deny)]) + [Unlisten(OnSelected), Unlisten(OnCanceled)];
      ClosingAppends(s.handled, s.sources, s.load);
      assert OnClosed(s).effects == s.effects + extra;
      ResolutionsAppend(s.effects, extra);
    }
  }

  lemma SelectionKeepsInv(s: State, selectedId: JsValue)
    requires Inv(s)
    ensures Inv(OnSelection(s, selectedId))
  {
    SelectionKeepsCount(s, selectedId);
    if OnSelected in s.listeners {
      var o := SelectionOutcome(s.sources, selectedId);
      assert EffectFits(s.sources, s.load, Resolve(o));
      var extra := [Resolve(o), Close];
      var t := s.(handled := true, listeners := s.listeners - {OnSelected}, chooser := Closing, effects := s.effects + extra);
      assert OnSelection(s, selectedId) == t;
      AppendKeepsShapeAndFits(s, t, extra);
    }
  }

  lemma CancelKeepsInv(s: State)
    requires Inv(s)
    ensures Inv(OnCancel(s))
  {
    CancelKeepsCount(s);
    if OnCanceled in s.listeners {
      var extra := [Resolve(Deny), Close];
      var t := s.(handled := true, listeners := s.listeners - {OnCanceled}, chooser := Closing, effects := s.effects + extra);
      assert OnCancel(s) == t;
      AppendKeepsShapeAndFits(s, t, extra);
    }
  }

  lemma LoadCatchKeepsInv(s: State)
    requires Inv(s) && s.load.Loading?
    ensures Inv(LoadCatch(s))
  {
    LoadCatchKeepsCount(s);
    CatchAppends(s.sources, LoadFailed);
    AppendKeepsShapeAndFits(s, LoadCatch(s), [Unlisten(OnSelected), Unlisten(OnCanceled), Resolve(Deny)]);
  }

  lemma LoadResolvedKeepsInv(s: State)
    requires Inv(s)
    ensures Inv(OnLoadResolved(s))
  {
    if s.load.Loading? {
      if s.chooser.Destroyed? {
        LoadCatchKeepsInv(s);
      } else {
        LoadResolvedKeepsCount(s);
        AppendKeepsShapeAndFits(s, OnLoadResolved(s), [SendSources(CatalogPayload(s.serializable)), Show]);
      }
    }
  }

  lemma ClosedKeepsInv(s: State)
    requires Inv(s)
    ensures Inv(OnClosed(s))
  {
    ClosedKeepsCount(s);
    if IsOpen(s.chooser) {
      var extra := (if s.handled then [] else [Resolve(Deny)]) + [Unlisten(OnSelected), Unlisten(OnCanceled)];
      ClosingAppends(s.handled, s.sources, s.load);
      var t := s.(chooser := Destroyed, listeners := {}, effects := s.effects + extra);
      assert OnClosed(s) == t;
      AppendKeepsShapeAndFits(s, t, extra);
    }
  }

  lemma StepKeepsInv(s: State, e: Event)
    requires Inv(s)
    ensures Inv(Step(s, e))
  {
    match e
    case Message(m) =>
      if m.channel == ChooserBridge.SelectedChannel {
        SelectionKeepsInv(s, FirstArg(m));
      } else if m.channel == ChooserBridge.CanceledChannel {
        CancelKeepsInv(s);
      }
    case LoadResolved => LoadResolvedKeepsInv(s);
    case LoadRejected => if s.load.Loading? { LoadCatchKeepsInv(s); }
    case WindowClosed => ClosedKeepsInv(s);
  }

  lemma OpeningResolvesNothing()
    ensures Resolutions(Opening) == []
  {
    var a, b, c, d := Listen(OnSelected), Listen(OnCanceled), StartLoad, WatchClosed;
    assert Opening == [a] + [b] + [c] + [d];
    ResolutionsAppend([a] + [b] + [c], [d]);
    ResolutionsAppend([a] + [b], [c]);
    ResolutionsAppend([a], [b]);
    ResolutionsOfOne(a);
    ResolutionsOfOne(b);
    ResolutionsOfOne(c);
    ResolutionsOfOne(d);
  }

  /** Every state any sequence of events leads to satisfies `Inv`. */
  lemma StartInv(enumerated: Option<seq<CaptureSource>>)
    ensures Inv(Start(enumerated))
  {
    if enumerated.None? || enumerated.value == [] {
      ResolutionsOfOne(Resolve(Deny));
      assert Start(enumerated) == State([], [], false, {}, NotCreated, NoLoad, [Resolve(Deny)]);
    } else {
      var s0 := State(enumerated.value, Serialize(enumerated.value), false, {OnSelected, OnCanceled}, Hidden, Loading, Opening);
      assert Start(enumerated) == s0;
      assert Opening[..4] == Opening;
      assert InvShape(s0);
      OpeningResolvesNothing();
      assert InvCount(s0);
      forall e | e in Opening
        ensures EffectFits(s0.sources, s0.load, e)
      {
        assert e == Listen(OnSelected) || e == Listen(OnCanceled) || e == StartLoad || e == WatchClosed;
      }
      assert InvFits(s0);
    }
  }

  lemma {:induction false} ReachableInv(enumerated: Option<seq<CaptureSource>>, events: seq<Event>)
    ensures Inv(Run(Start(enumerated), events))
    decreases |events|
  {
    var s0 := Start(enumerated);
    if events == [] {
      StartInv(enumerated);
    } else {
      var prefix := events[..|events| - 1];
      ReachableInv(enumerated, prefix);
      RunLast(s0, events);
      StepKeepsInv(Run(s0, prefix), events[|events| - 1]);
    }
  }

  /**
   * The guards of each handler: a consumed `once` listener, a settled load,
   * a chooser whose 'closed' event has run, and a message on another channel
   * change nothing; a load that resolves after the window is destroyed runs
   * the `.catch`.
   */
  lemma StaleEventsIgnored(s: State, m: IpcMessage)
    ensures OnSelected !in s.listeners ==> Step(s, Message(IpcMessage(ChooserBridge.SelectedChannel, m.args))) == s
    ensures OnCanceled !in s.listeners ==> Step(s, Message(IpcMessage(ChooserBridge.CanceledChannel, m.args))) == s
    ensures m.channel != ChooserBridge.SelectedChannel && m.channel != ChooserBridge.CanceledChannel ==>
      Step(s, Message(m)) == s
    ensures !s.load.Loading? ==> Step(s, LoadResolved) == s && Step(s, LoadRejected) == s
    ensures !IsOpen(s.chooser) ==> Step(s, WindowClosed) == s
    ensures s.load.Loading? && s.chooser.Destroyed? ==> Step(s, LoadResolved) == Step(s, LoadRejected) == LoadCatch(s)
    ensures s.chooser.Destroyed? ==> CloseChooser(s) == s
  {
  }

  /** Without a chooser, no listener and no load, every event leaves the state as it is. */
  lemma IdleIgnores(s: State, e: Event)
    requires s.chooser.NotCreated? && s.listeners == {} && s.load.NoLoad?
    ensures Step(s, e) == s
  {
  }

  /**
   * An empty or missing catalog is denied once, before anything else: no
   * chooser, no listener, and no later event changes that.
   */
  lemma {:induction false} EmptyCatalogDeniesAtOnce(enumerated: Option<seq<CaptureSource>>, events: seq<Event>)
    requires enumerated.None? || enumerated.value == []
    ensures Run(Start(enumerated), events) == Start(enumerated)
    ensures Resolutions(Start(enumerated).effects) == [Deny]
    ensures Start(enumerated).chooser.NotCreated? && Start(enumerated).listeners == {}
    decreases |events|
  {
    var s0 := Start(enumerated);
    assert s0 == State([], [], false, {}, NotCreated, NoLoad, [Resolve(Deny)]);
    ResolutionsOfOne(Resolve(Deny));
    if events != [] {
      EmptyCatalogDeniesAtOnce(enumerated, events[..|events| - 1]);
      RunLast(s0, events);
      IdleIgnores(s0, events[|events| - 1]);
    }
  }

  /** A selection marks the request handled, resolves it once and asks the chooser to close. */
  lemma SelectionResolvesAndCloses(s: State, selectedId: JsValue)
    requires InvCount(s) && OnSelected in s.listeners
    ensures var t := OnSelection(s, selectedId);
      && t.handled && t.listeners == s.listeners - {OnSelected} && t.chooser.Closing?
      && t.effects == s.effects + [Resolve(SelectionOutcome(s.sources, selectedId)), Close]
      && t.load == s.load
      && Resolutions(t.effects) == Resolutions(s.effects) + [SelectionOutcome(s.sources, selectedId)]
  {
    var o := SelectionOutcome(s.sources, selectedId);
    assert !s.chooser.Destroyed?;
    var t := s.(handled := true, listeners := s.listeners - {OnSelected}, chooser := Closing, effects := s.effects + [Resolve(o), Close]);
    assert OnSelection(s, selectedId) == t;
    ResolutionsAppend(s.effects, [Resolve(o), Close]);
    ResolutionsOfTwo(Resolve(o), Close);
    ResolutionsOfOne(Resolve(o));
    ResolutionsOfOne(Close);
  }

  /**
   * What the chooser actually sends never matches: its select message carries
   * an object, the host compares source ids against that whole object, so the
   * request is denied whatever was chosen.
   */
  lemma ChooserSelectionNeverMatches(s: State, sourceId: JsValue, audioProcessId: JsValue)
    requires InvCount(s) && OnSelected in s.listeners
    ensures var t := Step(s, Message(ChooserBridge.SelectMessage(sourceId, audioProcessId)));
      && Resolutions(t.effects) == Resolutions(s.effects) + [Deny]
      && t.handled && t.listeners == s.listeners - {OnSelected} && t.chooser.Closing?
  {
    var m := ChooserBridge.SelectMessage(sourceId, audioProcessId);
    assert Find(s.sources, FirstArg(m)).None?;
    SelectionResolvesAndCloses(s, FirstArg(m));
  }

  /** The bare id string the host compares against would be granted, with loopback audio. */
  lemma BareIdSelectionGrants(s: State, i: nat)
    requires InvCount(s) && OnSelected in s.listeners && i < |s.sources|
    ensures var t := Step(s, Message(IpcMessage(ChooserBridge.SelectedChannel, [Str(s.sources[i].id)])));
      var r := Resolutions(t.effects);
      && |r| == |Resolutions(s.effects)| + 1
      && r[|r| - 1].Grant? && r[|r| - 1].video.id == s.sources[i].id && r[|r| - 1].audio == LoopbackAudio
  {
    var m := IpcMessage(ChooserBridge.SelectedChannel, [Str(s.sources[i].id)]);
    assert FirstArg(m) == Str(s.sources[i].id);
    SelectionResolvesAndCloses(s, FirstArg(m));
  }

  /** A cancellation marks the request handled, denies it, and only then closes the chooser. */
  lemma CancelDeniesThenCloses(s: State)
    requires InvCount(s) && OnCanceled in s.listeners
    ensures var t := OnCancel(s);
      && t.handled && t.listeners == s.listeners - {OnCanceled} && t.chooser.Closing?
      && t.effects == s.effects + [Resolve(Deny), Close]
      && Resolutions(t.effects) == Resolutions(s.effects) + [Deny]
  {
    assert !s.chooser.Destroyed?;
    var t := s.(handled := true, listeners := s.listeners - {OnCanceled}, chooser := Closing, effects := s.effects + [Resolve(Deny), Close]);
    assert OnCancel(s) == t;
    ResolutionsAppend(s.effects, [Resolve(Deny), Close]);
    ResolutionsOfTwo(Resolve(Deny), Close);
    ResolutionsOfOne(Resolve(Deny));
    ResolutionsOfOne(Close);
  }

  /** Only a successful load sends the catalog, and then shows the chooser. */
  lemma LoadSuccessSendsThenShows(s: State)
    requires InvShape(s) && s.load.Loading? && !s.chooser.Destroyed? && !s.chooser.NotCreated?
    ensures var t := OnLoadResolved(s);
      && t.effects == s.effects + [SendSources(CatalogPayload(Serialize(s.sources))), Show]
      && Resolutions(t.effects) == Resolutions(s.effects)
      && t.listeners == s.listeners && t.load.Loaded?
      && (s.chooser.Hidden? ==> t.chooser.Shown?)
  {
    var payload := CatalogPayload(s.serializable);
    ResolutionsAppend(s.effects, [SendSources(payload), Show]);
    ResolutionsOfTwo(SendSources(payload), Show);
    ResolutionsOfOne(SendSources(payload));
    ResolutionsOfOne(Show);
  }

  /**
   * A failed load removes both listeners and denies, without sending the
   * catalog or showing the chooser, and leaves `handled` alone.
   */
  lemma LoadFailureDenies(s: State)
    requires InvFits(s) && s.load.Loading?
    ensures var t := OnLoadRejected(s);
      && t.listeners == {} && t.handled == s.handled && t.chooser == s.chooser
      && Resolutions(t.effects) == Resolutions(s.effects) + [Deny]
      && (forall e | e in t.effects :: !e.SendSources? && !e.Show?)
  {
    var extra := [Unlisten(OnSelected), Unlisten(OnCanceled), Resolve(Deny)];
    var t := LoadCatch(s);
    assert OnLoadRejected(s) == t;
    CatchAppends(s.sources, s.load);
    ResolutionsAppend(s.effects, extra);
    forall e | e in t.effects
      ensures !e.SendSources? && !e.Show?
    {
      if e !in extra {
        assert e in s.effects;
        assert EffectFits(s.sources, s.load, e);
      }
    }
  }

  /** After a selection or a cancellation the 'closed' handler adds no second resolution. */
  lemma ClosedAfterHandledAddsNothing(s: State)
    requires InvShape(s) && InvCount(s) && s.handled
    ensures Resolutions(OnClosed(s).effects) == Resolutions(s.effects)
    ensures OnClosed(s).listeners == {}
  {
    if IsOpen(s.chooser) {
      var extra := [] + [Unlisten(OnSelected), Unlisten(OnCanceled)];
      ClosingAppends(true, s.sources, s.load);
      assert OnClosed(s).effects == s.effects + extra;
      ResolutionsAppend(s.effects, extra);
    }
  }

  /** Closing an unhandled chooser denies the request and removes both listeners. */
  lemma ClosedUnhandledDenies(s: State)
    requires !s.handled && IsOpen(s.chooser)
    ensures Resolutions(OnClosed(s).effects) == Resolutions(s.effects) + [Deny]
    ensures OnClosed(s).listeners == {} && OnClosed(s).chooser.Destroyed?
  {
    var extra := [Resolve(Deny)] + [Unlisten(OnSelected), Unlisten(OnCanceled)];
    ClosingAppends(false, s.sources, s.load);
    assert OnClosed(s).effects == s.effects + extra;
    ResolutionsAppend(s.effects, extra);
  }

  /** The facts the exactly-once theorem carries from one event to the next. */
  ghost predicate OnceSoFar(s: State, signals: nat) {
    && Inv(s) && s.load.Loaded?
    && |Resolutions(s.effects)| <= 1
    && (|Resolutions(s.effects)| == 1 <==> s.handled || s.chooser.Destroyed?)
    && (s.handled ==> signals == 1)
  }

  lemma OnceStep(p: State, signals: nat, e: Event)
    requires OnceSoFar(p, signals)
    requires signals + (if IsSignal(e) then 1 else 0) <= 1
    ensures OnceSoFar(Step(p, e), signals + if IsSignal(e) then 1 else 0)
  {
    StepKeepsInv(p, e);
    match e
    case Message(m) =>
      if m.channel == ChooserBridge.SelectedChannel && OnSelected in p.listeners {
        SelectionResolvesAndCloses(p, FirstArg(m));
      } else if m.channel == ChooserBridge.CanceledChannel && OnCanceled in p.listeners {
        CancelDeniesThenCloses(p);
      }
    case LoadResolved =>
    case LoadRejected =>
    case WindowClosed =>
      if p.handled {
        ClosedAfterHandledAddsNothing(p);
      } else if IsOpen(p.chooser) {
        ClosedUnhandledDenies(p);
      }
  }

  lemma RunLast(s: State, events: seq<Event>)
    requires events != []
    ensures Run(s, events) == Step(Run(s, events[..|events| - 1]), events[|events| - 1])
    ensures Signals(events) == Signals(events[..|events| - 1]) + if IsSignal(events[|events| - 1]) then 1 else 0
  {
  }

  lemma RunThree(s: State, a: Event, b: Event, c: Event)
    ensures Run(s, [a]) == Step(s, a)
    ensures Run(s, [a, b]) == Step(Step(s, a), b)
    ensures Run(s, [a, b, c]) == Step(Step(Step(s, a), b), c)
  {
    RunLast(s, [a]);
    assert [a][..0] == [];
    RunLast(s, [a, b]);
    assert [a, b][..1] == [a];
    RunLast(s, [a, b, c]);
    assert [a, b, c][..2] == [a, b];
  }

  lemma {:induction false} OnceAlongRun(sources: seq<CaptureSource>, events: seq<Event>)
    requires sources != [] && events != [] && events[0] == LoadResolved
    requires Signals(events) <= 1
    ensures OnceSoFar(Run(Start(Some(sources)), events), Signals(events))
    decreases |events|
  {
    var s0 := Start(Some(sources));
    RunLast(s0, events);
    var prefix := events[..|events| - 1];
    if |events| == 1 {
      assert prefix == [];
      assert Run(s0, prefix) == s0;
      OpeningResolvesNothing();
      ReachableInv(Some(sources), events);
      LoadSuccessSendsThenShows(s0);
    } else {
      assert prefix[0] == LoadResolved;
      OnceAlongRun(sources, prefix);
      OnceStep(Run(s0, prefix), Signals(prefix), events[|events| - 1]);
    }
  }

  /**
   * Exactly once on the select, cancel and close paths: when the page loads
   * and the chooser sends at most one signal, the callback is called at most
   * once, and exactly once as soon as the request is handled or the chooser
   * has closed; no listener outlives the chooser.
   */
  lemma ResolvedAtMostOnce(sources: seq<CaptureSource>, events: seq<Event>)
    requires sources != [] && events != [] && events[0] == LoadResolved
    requires Signals(events) <= 1
    ensures var s := Run(Start(Some(sources)), events);
      && |Resolutions(s.effects)| <= 1
      && (|Resolutions(s.effects)| == 1 <==> s.handled || s.chooser.Destroyed?)
      && (s.chooser.Destroyed? ==> s.listeners == {})
  {
    OnceAlongRun(sources, events);
  }

  /** Once the page has loaded the chooser is shown, both listeners wait, and nothing is resolved yet. */
  lemma LoadedState(sources: seq<CaptureSource>)
    requires sources != []
    ensures var s1 := Step(Start(Some(sources)), LoadResolved);
      && InvCount(s1) && s1.listeners == {OnSelected, OnCanceled} && !s1.handled
      && s1.chooser.Shown? && Resolutions(s1.effects) == []
  {
    var s0 := Start(Some(sources));
    OpeningResolvesNothing();
    assert Opening[..4] == Opening;
    LoadSuccessSendsThenShows(s0);
  }

  /** Without the guard of `handled`: a failed load followed by the 'closed' event calls back twice. */
  lemma LoadFailureThenCloseResolvesTwice(sources: seq<CaptureSource>)
    requires sources != []
    ensures Resolutions(Run(Start(Some(sources)), [LoadRejected, WindowClosed]).effects) == [Deny, Deny]
  {
    var s0 := Start(Some(sources));
    var s1 := Step(s0, LoadRejected);
    RunThree(s0, LoadRejected, WindowClosed, WindowClosed);
    OpeningResolvesNothing();
    assert InvFits(s0);
    LoadFailureDenies(s0);
    ClosedUnhandledDenies(s1);
  }

  /**
   * The load's `.catch` has no guard of `handled` either: when the window
   * closes before the page load settles, the 'closed' handler denies, and
   * then the load denies again, whether it rejects or resolves (its send to
   * the destroyed window throws into the `.catch`).
   */
  lemma CloseThenLoadResolvesTwice(sources: seq<CaptureSource>)
    requires sources != []
    ensures Resolutions(Run(Start(Some(sources)), [WindowClosed, LoadRejected]).effects) == [Deny, Deny]
    ensures Resolutions(Run(Start(Some(sources)), [WindowClosed, LoadResolved]).effects) == [Deny, Deny]
  {
    var s0 := Start(Some(sources));
    var s1 := Step(s0, WindowClosed);
    RunThree(s0, WindowClosed, LoadRejected, LoadResolved);
    RunThree(s0, WindowClosed, LoadResolved, LoadRejected);
    OpeningResolvesNothing();
    ClosedUnhandledDenies(s0);
    var extra := [Unlisten(OnSelected), Unlisten(OnCanceled), Resolve(Deny)];
    assert LoadCatch(s1).effects == s1.effects + extra;
    CatchAppends(s1.sources, s1.load);
    ResolutionsAppend(s1.effects, extra);
  }

  /** A handled request whose chooser closes while its page still loads is denied again by the load. */
  lemma ClosedDuringLoadDeniesAgain(s: State)
    requires s.handled && s.chooser.Closing? && s.load.Loading?
    ensures Resolutions(Step(Step(s, WindowClosed), LoadResolved).effects) == Resolutions(s.effects) + [Deny]
  {
    var unlisten := [Unlisten(OnSelected), Unlisten(OnCanceled)];
    var s2 := s.(chooser := Destroyed, listeners := {}, effects := s.effects + unlisten);
    assert Step(s, WindowClosed) == s2;
    var extra := [Unlisten(OnSelected), Unlisten(OnCanceled), Resolve(Deny)];
    assert Step(s2, LoadResolved).effects == s.effects + (unlisten + extra);
    CatchAppends(s.sources, s.load);
    ResolutionsAppend(unlisten, extra);
    ResolutionsOfTwo(Unlisten(OnSelected), Unlisten(OnCanceled));
    ResolutionsOfOne(Unlisten(OnSelected));
    ResolutionsOfOne(Unlisten(OnCanceled));
    ResolutionsAppend(s.effects, unlisten + extra);
  }

  /**
   * A selection that arrives before the page has loaded (any renderer may
   * send on the channel) resolves, the chooser closes, and the load then
   * finds the window destroyed and denies a second time.
   */
  lemma SelectBeforeLoadResolvesTwice(sources: seq<CaptureSource>, selectedId: JsValue)
    requires sources != []
    ensures var sel := Message(IpcMessage(ChooserBridge.SelectedChannel, [selectedId]));
      Resolutions(Run(Start(Some(sources)), [sel, WindowClosed, LoadResolved]).effects) ==
        [SelectionOutcome(sources, selectedId), Deny]
  {
    var sel := Message(IpcMessage(ChooserBridge.SelectedChannel, [selectedId]));
    var s0 := Start(Some(sources));
    OpeningResolvesNothing();
    assert InvCount(s0);
    assert FirstArg(IpcMessage(ChooserBridge.SelectedChannel, [selectedId])) == selectedId;
    SelectionResolvesAndCloses(s0, selectedId);
    ClosedDuringLoadDeniesAgain(Step(s0, sel));
    RunThree(s0, sel, WindowClosed, LoadResolved);
  }

  /** A callback call followed by a close adds exactly that call. */
  lemma ResolveThenClose(effects: seq<Effect>, o: Outcome)
    ensures Resolutions(effects + [Resolve(o), Close]) == Resolutions(effects) + [o]
  {
    ResolutionsAppend(effects, [Resolve(o), Close]);
    ResolutionsOfTwo(Resolve(o), Close);
    ResolutionsOfOne(Resolve(o));
    ResolutionsOfOne(Close);
  }

  /** After a cancel, the select listener is still attached and resolves the request again. */
  lemma CancelThenSelectionResolves(s: State, selectedId: JsValue)
    requires OnSelected in s.listeners && OnCanceled in s.listeners && !s.chooser.Destroyed?
    ensures Resolutions(OnSelection(OnCancel(s), selectedId).effects) ==
            Resolutions(s.effects) + [Deny, SelectionOutcome(s.sources, selectedId)]
  {
    var t := OnCancel(s);
    var o := SelectionOutcome(s.sources, selectedId);
    assert Resolutions(t.effects) == Resolutions(s.effects) + [Deny] by {
      assert t.effects == s.effects + [Resolve(Deny), Close];
      ResolveThenClose(s.effects, Deny);
    }
    assert Resolutions(OnSelection(t, selectedId).effects) == Resolutions(t.effects) + [o] by {
      assert OnSelected in t.listeners && t.sources == s.sources && !t.chooser.Destroyed?;
      assert OnSelection(t, selectedId).effects == t.effects + [Resolve(o), Close];
      ResolveThenClose(t.effects, o);
    }
  }

  /**
   * The select listener likewise outlives a cancellation: a bare-id selection
   * that arrives after a cancel, before the 'closed' event, grants the source
   * after the request was already denied.
   */
  lemma CancelThenSelectResolvesTwice(sources: seq<CaptureSource>)
    requires sources != []
    ensures var events := [LoadResolved, Message(ChooserBridge.CancelMessage()),
                           Message(IpcMessage(ChooserBridge.SelectedChannel, [Str(sources[0].id)]))];
      Resolutions(Run(Start(Some(sources)), events).effects) == [Deny, Grant(sources[0], LoopbackAudio)]
  {
    var id := Str(sources[0].id);
    var can := Message(ChooserBridge.CancelMessage());
    var sel := Message(IpcMessage(ChooserBridge.SelectedChannel, [id]));
    var s0 := Start(Some(sources));
    var s1 := Step(s0, LoadResolved);
    LoadedState(sources);
    assert Step(s1, can) == OnCancel(s1);
    assert FirstArg(IpcMessage(ChooserBridge.SelectedChannel, [id])) == id;
    assert Step(OnCancel(s1), sel) == OnSelection(OnCancel(s1), id);
    assert Find(sources, id) == Some(sources[0]);
    CancelThenSelectionResolves(s1, id);
    RunThree(s0, LoadResolved, can, sel);
  }

  /**
   * The cancel listener outlives a selection until the chooser closes, so a
   * cancel that arrives in between calls back a second time.
   */
  lemma SelectThenCancelResolvesTwice(sources: seq<CaptureSource>, sourceId: JsValue, audioProcessId: JsValue)
    requires sources != []
    ensures var events := [LoadResolved, Message(ChooserBridge.SelectMessage(sourceId, audioProcessId)),
                           Message(ChooserBridge.CancelMessage())];
      Resolutions(Run(Start(Some(sources)), events).effects) == [Deny, Deny]
  {
    var sel := Message(ChooserBridge.SelectMessage(sourceId, audioProcessId));
    var can := Message(ChooserBridge.CancelMessage());
    var s0 := Start(Some(sources));
    var s1 := Step(s0, LoadResolved);
    var s2 := Step(s1, sel);
    RunThree(s0, LoadResolved, sel, can);
    LoadedState(sources);
    ChooserSelectionNeverMatches(s1, sourceId, audioProcessId);
    assert InvCount(s2);
    CancelDeniesThenCloses(s2);
  }
}
