/** The records that the parser, the formatter, the proxifier and the orchestrator
    share: an addon instance, the metadata a filename parser reports, and the
    structured `ParsedStream` that one upstream stream record becomes. */
module Types {
  import opened Wrappers

  /** One configured addon instance (the fields of `Addon` the core reads). */
  datatype Addon = Addon(
    instanceId: string,
    presetInstanceId: string,
    presetType: string,
    name: string,
    manifestUrl: string,
    library: Option<bool>,
    /** the user's restriction of the addon's resources ("stream", "catalog", ...) */
    resources: Option<seq<string>>,
    identifier: Option<string>)

  /** The classification of a parsed stream. */
  datatype StreamType = P2P | Http | Usenet | Debrid | Live | YouTube | External | ErrorType

  /** The text of `ParsedStream.type`. */
  function StreamTypeName(t: StreamType): string {
    match t
    case P2P => "p2p"
    case Http => "http"
    case Usenet => "usenet"
    case Debrid => "debrid"
    case Live => "live"
    case YouTube => "youtube"
    case External => "external"
    case ErrorType => "error"
  }

  /** A debrid or usenet backing service and whether the content is ready to play. */
  datatype ServiceInfo = ServiceInfo(id: string, cached: bool)

  /** One entry of the service table: its id, the names it is recognised by, and
      its display names. */
  datatype ServiceDetail = ServiceDetail(id: string, knownNames: seq<string>, name: string, shortName: string)

  /** A JavaScript `number | undefined` as the size extraction produces it:
      `NaN` is possible (for example `parseInt("")`). */
  datatype JsNumber = Undefined | NaN | Finite(n: int) {
    /** JavaScript truthiness: `undefined`, `NaN` and `0` are falsy. */
    predicate Truthy() { Finite? && n != 0 }
  }

  /** What the filename parser reports about one filename-like string, and the
      merged metadata of a parsed stream.  Absent fields are `None`. */
  datatype ParsedFile = ParsedFile(
    title: Option<string>,
    year: Option<string>,
    season: Option<int>,
    episode: Option<int>,
    seasons: Option<seq<int>>,
    resolution: Option<string>,
    quality: Option<string>,
    encode: Option<string>,
    releaseGroup: Option<string>,
    seasonEpisode: Option<seq<string>>,
    visualTags: seq<string>,
    audioTags: seq<string>,
    audioChannels: seq<string>,
    languages: seq<string>)

  datatype Torrent = Torrent(
    infoHash: Option<string>,
    seeders: JsNumber,
    sources: Option<seq<string>>,
    fileIdx: Option<int>)

  /** The structured record derived from one upstream stream. */
  datatype ParsedStream = ParsedStream(
    id: string,
    addon: Addon,
    streamType: StreamType,
    url: Option<string>,
    externalUrl: Option<string>,
    ytId: Option<string>,
    notWebReady: Option<bool>,
    videoHash: Option<string>,
    originalName: Option<string>,
    originalDescription: Option<string>,
    error: Option<string>,
    filename: Option<string>,
    folderName: Option<string>,
    size: JsNumber,
    folderSize: JsNumber,
    indexer: Option<string>,
    service: Option<ServiceInfo>,
    duration: Option<int>,
    library: Option<bool>,
    age: Option<string>,
    message: Option<string>,
    parsedFile: Option<ParsedFile>,
    torrent: Option<Torrent>,
    proxied: Option<bool>,
    regexMatched: Option<string>)

  /** JavaScript truthiness of an optional string: `undefined` and `""` are falsy. */
  predicate Present(s: Option<string>) { s.Some? && s.value != "" }
}
