/**
 * The chooser window's preload bridge (chooser-preload.js): how it reads the
 * catalog it is sent, and the two messages it sends back to the host.
 */
module ChooserBridge {
  import opened Wrappers
  import opened JsValues
  import opened CaptureCatalog

  const SourcesChannel := "capture-sources"
  const SelectedChannel := "capture-source-selected"
  const CanceledChannel := "capture-source-canceled"

  /** `payload?.sources || payload || []` */
  function ReceivedSources(payload: JsValue): (r: JsValue)
    ensures Truthy(Get(payload, "sources")) ==> r == Get(payload, "sources")
    ensures !Truthy(Get(payload, "sources")) && Truthy(payload) ==> r == payload
    ensures !Truthy(payload) ==> r == Array([])
    ensures Truthy(r)
  {
    Or(Or(Get(payload, "sources"), payload), Array([]))
  }

  /** `payload?.processes || []` */
  function ReceivedProcesses(payload: JsValue): (r: JsValue)
    ensures Truthy(Get(payload, "processes")) ==> r == Get(payload, "processes")
    ensures !Truthy(Get(payload, "processes")) ==> r == Array([])
    ensures !payload.Object? ==> r == Array([])
  {
    Or(Get(payload, "processes"), Array([]))
  }

  /** The bare array the host sends arrives as the sources, with no processes. */
  lemma BareArrayPayload(items: seq<JsValue>)
    ensures ReceivedSources(Array(items)) == Array(items)
    ensures ReceivedProcesses(Array(items)) == Array([])
  {
  }

  /**
   * The catalog the host sends reaches the chooser unchanged: each received
   * item reads back as the serialised source at that position, and no
   * processes come with it.
   */
  lemma CatalogArrivesIntact(sources: seq<CaptureSource>)
    ensures var received := ReceivedSources(CatalogPayload(Serialize(sources)));
      && received.Array? && |received.items| == |sources|
      && (forall i :: 0 <= i < |sources| ==> SourceFromJs(received.items[i]) == Some(Serialize(sources)[i]))
    ensures ReceivedProcesses(CatalogPayload(Serialize(sources))) == Array([])
  {
    var serialized := Serialize(sources);
    forall i | 0 <= i < |sources|
      ensures SourceFromJs(CatalogPayload(serialized).items[i]) == Some(serialized[i])
    {
      SourceRoundTrip(serialized[i]);
    }
  }

  /** `select(sourceId, audioProcessId)`: sends the object `{ sourceId, audioProcessId }`. */
  function SelectMessage(sourceId: JsValue, audioProcessId: JsValue): (m: IpcMessage)
    ensures m.channel == SelectedChannel && |m.args| == 1
    ensures FirstArg(m).Object? && !FirstArg(m).Str?
    ensures Get(FirstArg(m), "sourceId") == sourceId
    ensures Get(FirstArg(m), "audioProcessId") == audioProcessId
  {
    IpcMessage(SelectedChannel, [Object(map["sourceId" := sourceId, "audioProcessId" := audioProcessId])])
  }

  /** `cancel()`: sends on the cancel channel with no payload at all. */
  function CancelMessage(): (m: IpcMessage)
    ensures m.channel == CanceledChannel && m.args == []
    ensures FirstArg(m) == Undefined
  {
    IpcMessage(CanceledChannel, [])
  }
}
