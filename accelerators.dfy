/**
 * The pure parts of the host's global-shortcut handling (main.js:191-285):
 * the synthetic key events it forwards, the 300 ms debounce, and the
 * first-accepted-wins choice among accelerator spellings.
 */
module Accelerators {
  import opened Wrappers
  import opened JsValues

  // ---------------------------------------------------------------- key events

  datatype EventType = KeyDown | KeyUp

  /** An input event sent into the main window; `Undefined` stands for a property the object lacks. */
  datatype InputEvent = InputEvent(kind: EventType, key: JsValue, keyCode: JsValue, modifiers: JsValue)

  function UpperChar(c: char): char {
    if 'a' <= c <= 'z' then (c as int - 32) as char else c
  }

  /** `toUpperCase()` on the ASCII letters. */
  function Upper(s: string): (r: string)
    ensures |r| == |s|
    ensures forall i :: 0 <= i < |s| ==> r[i] == UpperChar(s[i])
    ensures forall i :: 0 <= i < |r| ==> !('a' <= r[i] <= 'z')
  {
    if s == [] then [] else [UpperChar(s[0])] + Upper(s[1..])
  }

  /** The modifier list both built-in forwarders attach. */
  const ControlModifier: JsValue := Array([Str("control")])

  /**
   * The pair a built-in hotkey forwards (main.js:257-271): the key uppercased
   * as both `key` and `keyCode`, with the control modifier.
   */
  function BuiltInPair(key: string): (r: seq<InputEvent>)
    ensures |r| == 2 && r[0].kind == KeyDown && r[1].kind == KeyUp
    ensures forall i :: 0 <= i < 2 ==>
      r[i].key == Str(Upper(key)) && r[i].keyCode == Str(Upper(key)) && r[i].modifiers == ControlModifier
  {
    var k := Str(Upper(key));
    [InputEvent(KeyDown, k, k, ControlModifier), InputEvent(KeyUp, k, k, ControlModifier)]
  }

  /** `keyEvent?.key || keyEvent?.keyCode || accelerator` */
  function ForwardedKeyCode(accelerator: string, keyEvent: JsValue): (r: JsValue)
    ensures Truthy(Get(keyEvent, "key")) ==> r == Get(keyEvent, "key")
    ensures !Truthy(Get(keyEvent, "key")) && Truthy(Get(keyEvent, "keyCode")) ==> r == Get(keyEvent, "keyCode")
    ensures !Truthy(Get(keyEvent, "key")) && !Truthy(Get(keyEvent, "keyCode")) ==> r == Str(accelerator)
    ensures !keyEvent.Object? ==> r == Str(accelerator)
  {
    Or(Or(Get(keyEvent, "key"), Get(keyEvent, "keyCode")), Str(accelerator))
  }

  /** The pair a renderer-registered shortcut forwards (main.js:195-202); no `key` property. */
  function RequestedPair(accelerator: string, keyEvent: JsValue): (r: seq<InputEvent>)
    ensures |r| == 2 && r[0].kind == KeyDown && r[1].kind == KeyUp
    ensures forall i :: 0 <= i < 2 ==>
      && r[i].key == Undefined
      && r[i].keyCode == ForwardedKeyCode(accelerator, keyEvent)
      && (Truthy(Get(keyEvent, "modifiers")) ==> r[i].modifiers == Get(keyEvent, "modifiers"))
      && (!Truthy(Get(keyEvent, "modifiers")) ==> r[i].modifiers == Undefined)
  {
    var code := ForwardedKeyCode(accelerator, keyEvent);
    var mods := if Truthy(Get(keyEvent, "modifiers")) then Get(keyEvent, "modifiers") else Undefined;
    [InputEvent(KeyDown, Undefined, code, mods), InputEvent(KeyUp, Undefined, code, mods)]
  }

  // ---------------------------------------------------------------- debounce

  const MinIntervalMs := 300

  /** `lastTriggered.get(accel) || 0` */
  function LastTriggered(last: map<string, int>, accel: string): int {
    if accel in last then last[accel] else 0
  }

  predicate Accepts(last: map<string, int>, accel: string, now: int) {
    now - LastTriggered(last, accel) >= MinIntervalMs
  }

  /** The map after one trigger: an accepted trigger records `now`, a dropped one changes nothing. */
  function AfterTrigger(last: map<string, int>, accel: string, now: int): (r: map<string, int>)
    ensures Accepts(last, accel, now) ==> r == last[accel := now]
    ensures !Accepts(last, accel, now) ==> r == last
    ensures forall a | a != accel :: LastTriggered(r, a) == LastTriggered(last, a)
  {
    if Accepts(last, accel, now) then last[accel := now] else last
  }

  /** How many of a series of triggers of one accelerator are accepted. */
  function AcceptedCount(last: map<string, int>, accel: string, times: seq<int>): nat
    decreases |times|
  {
    if times == [] then 0
    else (if Accepts(last, accel, times[0]) then 1 else 0) +
         AcceptedCount(AfterTrigger(last, accel, times[0]), accel, times[1..])
  }

  function AfterTriggers(last: map<string, int>, accel: string, times: seq<int>): map<string, int>
    decreases |times|
  {
    if times == [] then last else AfterTriggers(AfterTrigger(last, accel, times[0]), accel, times[1..])
  }

  /**
   * Key repeat collapses: after an accepted trigger at `t0`, every trigger
   * less than 300 ms later is dropped and the recorded time stays `t0`.
   */
  lemma {:induction false} HeldKeyFiresOnce(last: map<string, int>, accel: string, t0: int, times: seq<int>)
    requires LastTriggered(last, accel) == t0
    requires forall i :: 0 <= i < |times| ==> times[i] - t0 < MinIntervalMs
    ensures AcceptedCount(last, accel, times) == 0
    ensures AfterTriggers(last, accel, times) == last
    decreases |times|
  {
    if times != [] {
      assert !Accepts(last, accel, times[0]);
      HeldKeyFiresOnce(last, accel, t0, times[1..]);
    }
  }

  /** Triggers at least 300 ms apart are all accepted, and the last one is recorded. */
  lemma {:induction false} SpacedTriggersAllFire(last: map<string, int>, accel: string, times: seq<int>)
    requires times != [] ==> times[0] - LastTriggered(last, accel) >= MinIntervalMs
    requires forall i :: 0 <= i < |times| - 1 ==> times[i + 1] - times[i] >= MinIntervalMs
    ensures AcceptedCount(last, accel, times) == |times|
    ensures times != [] ==> LastTriggered(AfterTriggers(last, accel, times), accel) == times[|times| - 1]
    decreases |times|
  {
    if times != [] {
      var next := AfterTrigger(last, accel, times[0]);
      assert LastTriggered(next, accel) == times[0];
      SpacedTriggersAllFire(next, accel, times[1..]);
    }
  }

  /**
   * The 0 default: with no recorded trigger, a trigger is accepted only from
   * 300 ms after the clock's zero.
   */
  lemma FirstTriggerNeedsClockPast(last: map<string, int>, accel: string, now: int)
    requires accel !in last
    ensures Accepts(last, accel, now) <==> now >= MinIntervalMs
  {
  }

  // ---------------------------------------------------------------- spellings

  /** The `accelerators` argument: an array of spellings, or anything else, which is wrapped. */
  datatype AcceleratorArg = Spellings(list: seq<string>) | Single(spelling: string)

  /** `if (!Array.isArray(accelerators)) accelerators = [accelerators]` */
  function Candidates(arg: AcceleratorArg): (r: seq<string>)
    ensures arg.Single? ==> r == [arg.spelling]
    ensures arg.Spellings? ==> r == arg.list
  {
    match arg
    case Spellings(list) => list
    case Single(a) => [a]
  }

  /** How one candidate fares against the registrar, in the order the loop asks. */
  datatype Attempt = AlreadyRegistered | Accepted | Declined | Threw

  function AttemptOf(registered: set<string>, refused: set<string>, malformed: set<string>, a: string): Attempt {
    if a in malformed then Threw
    else if a in registered then AlreadyRegistered
    else if a in refused then Declined
    else Accepted
  }

  predicate Chosen(t: Attempt) {
    t.AlreadyRegistered? || t.Accepted?
  }

  /** The index of the first candidate that is already registered or is accepted. */
  function FirstAccepted(cands: seq<string>, registered: set<string>, refused: set<string>, malformed: set<string>): (r: Option<nat>)
    ensures r.Some? ==> r.value < |cands| && Chosen(AttemptOf(registered, refused, malformed, cands[r.value]))
    ensures r.Some? ==> forall j :: 0 <= j < r.value ==> !Chosen(AttemptOf(registered, refused, malformed, cands[j]))
    ensures r.None? <==> forall j :: 0 <= j < |cands| ==> !Chosen(AttemptOf(registered, refused, malformed, cands[j]))
    decreases |cands|
  {
    if cands == [] then None
    else if Chosen(AttemptOf(registered, refused, malformed, cands[0])) then Some(0)
    else
      var rest := FirstAccepted(cands[1..], registered, refused, malformed);
      if rest.None? then None else Some(rest.value + 1)
  }

  /** A chosen candidate with none chosen before it is the one `FirstAccepted` finds. */
  lemma FirstAcceptedAt(cands: seq<string>, registered: set<string>, refused: set<string>, malformed: set<string>, i: nat)
    requires i < |cands| && Chosen(AttemptOf(registered, refused, malformed, cands[i]))
    requires forall j :: 0 <= j < i ==> !Chosen(AttemptOf(registered, refused, malformed, cands[j]))
    ensures FirstAccepted(cands, registered, refused, malformed) == Some(i)
  {
    var r := FirstAccepted(cands, registered, refused, malformed);
    assert r.Some?;
  }

  /** With only the third of the built-in mute spellings free, the third is chosen. */
  lemma ThirdSpellingChosen()
    ensures FirstAccepted(["Control+M", "Ctrl+M", "CommandOrControl+M"], {}, {"Control+M", "Ctrl+M"}, {}) == Some(2)
  {
    var cands := ["Control+M", "Ctrl+M", "CommandOrControl+M"];
    assert cands[1..][1..] == ["CommandOrControl+M"];
  }
}
