/**
 * The capture sources the desktop capturer enumerates, and the
 * transport-safe form the host sends to the chooser window (main.js:36-40).
 */
module CaptureCatalog {
  import opened Wrappers
  import opened JsValues

  /** A thumbnail image; `dataUrl` is what converting it to an inline data URL yields. */
  datatype Thumbnail = Thumbnail(isEmpty: bool, dataUrl: string)

  /** A capture source (a screen or a window); an empty `name` stands for a missing one. */
  datatype CaptureSource = CaptureSource(id: string, name: string, thumbnail: Option<Thumbnail>)

  /** What the chooser receives for one source: no live image handle crosses the boundary. */
  datatype SerializedSource = SerializedSource(id: string, name: string, thumbnailDataUrl: Option<string>)

  /** `s.name || s.id` */
  function DisplayName(s: CaptureSource): string {
    if s.name != "" then s.name else s.id
  }

  /** `s.thumbnail && !s.thumbnail.isEmpty() ? s.thumbnail.toDataURL() : null` */
  function ThumbnailUrl(s: CaptureSource): Option<string> {
    if s.thumbnail.Some? && !s.thumbnail.value.isEmpty then Some(s.thumbnail.value.dataUrl) else None
  }

  /** The `sources.map(...)` that prepares the chooser's catalog. */
  function Serialize(sources: seq<CaptureSource>): (r: seq<SerializedSource>)
    ensures |r| == |sources|
    ensures forall i :: 0 <= i < |r| ==> r[i].id == sources[i].id
    ensures forall i :: 0 <= i < |r| ==>
      (sources[i].name != "" ==> r[i].name == sources[i].name) &&
      (sources[i].name == "" ==> r[i].name == sources[i].id)
    ensures forall i :: 0 <= i < |r| ==>
      (r[i].thumbnailDataUrl.None? <==> sources[i].thumbnail.None? || sources[i].thumbnail.value.isEmpty)
    ensures forall i :: 0 <= i < |r| && r[i].thumbnailDataUrl.Some? ==>
      r[i].thumbnailDataUrl.value == sources[i].thumbnail.value.dataUrl
  {
    if sources == [] then []
    else [SerializedSource(sources[0].id, DisplayName(sources[0]), ThumbnailUrl(sources[0]))] + Serialize(sources[1..])
  }

  /** A serialized source as the plain object the IPC layer carries. */
  function SourceToJs(s: SerializedSource): JsValue {
    Object(map[
      "id" := Str(s.id),
      "name" := Str(s.name),
      "thumbnailDataUrl" := if s.thumbnailDataUrl.Some? then Str(s.thumbnailDataUrl.value) else Null])
  }

  /** The payload of the 'capture-sources' message: a bare array of source objects. */
  function CatalogPayload(serialized: seq<SerializedSource>): (r: JsValue)
    ensures r.Array? && |r.items| == |serialized|
    ensures forall i :: 0 <= i < |serialized| ==> r.items[i] == SourceToJs(serialized[i])
  {
    Array(seq(|serialized|, i requires 0 <= i < |serialized| => SourceToJs(serialized[i])))
  }

  /** How the chooser reads one source object back. */
  function SourceFromJs(v: JsValue): Option<SerializedSource> {
    var id := Get(v, "id");
    var name := Get(v, "name");
    var thumb := Get(v, "thumbnailDataUrl");
    if id.Str? && name.Str? && (thumb.Str? || thumb.Null?) then
      Some(SerializedSource(id.s, name.s, if thumb.Str? then Some(thumb.s) else None))
    else None
  }

  /** Nothing is lost on the way to the chooser: every source reads back as sent. */
  lemma SourceRoundTrip(s: SerializedSource)
    ensures SourceFromJs(SourceToJs(s)) == Some(s)
  {
  }
}
