/** The notification record that travels from the page to the observers: built by
    the interceptor, annotated by the bridge, stored and fanned out by the hub,
    filtered and rendered by the popup and the panel. */
module Events {
  import opened Wrappers

  /** The tag every interceptor notification carries in its `source` field. */
  const SNIFFER_TAG: string := "WS_SNIFFER"

  /** The `type` field of a notification. */
  datatype Kind = Connect | Send | Receive | Close | Error

  /** The string the `type` field holds. */
  function KindName(k: Kind): string {
    match k
    case Connect => "CONNECT"
    case Send => "SEND"
    case Receive => "RECEIVE"
    case Close => "CLOSE"
    case Error => "ERROR"
  }

  /** A `payload` field: a string, or some other JSON value that survived the
      structured copy (a typed-array view, say), known here only by its `String(...)`
      text and by whether JavaScript treats it as truthy. */
  datatype Payload = Text(s: string) | NonText(shown: string, truthy: bool)

  /** `String(payload)`. */
  function Shown(p: Payload): string {
    match p
    case Text(s) => s
    case NonText(shown, _) => shown
  }

  /** JavaScript truthiness of an optional payload (`if (msg.payload)`). */
  predicate Truthy(p: Option<Payload>) {
    match p
    case None => false
    case Some(Text(s)) => s != ""
    case Some(NonText(_, t)) => t
  }

  /** One notification: `source`, `type`, `id`, `url`, `payload`, `code`, `reason`,
      `timestamp`, and the `frameUrl` the bridge adds. */
  datatype Record = Record(
    source: string,
    kind: Kind,
    id: int,
    url: Option<string>,
    payload: Option<Payload>,
    code: Option<int>,
    reason: Option<string>,
    timestamp: int,
    frameUrl: Option<string>)
}
