/** How the popup and the panel classify a payload before showing it (JSON when
    `JSON.parse` accepts it, XML when it looks like markup and `DOMParser` reports no
    `parsererror`, TEXT otherwise), what the popup's copy button puts on the
    clipboard, and what the panel's detail view shows for a selected message. */
module Classifier {
  import opened Wrappers
  import opened Text
  import opened Events
  import opened JsonView
  import opened XmlFormat
  import XmlLayout

  datatype Format = JSON | XML | TEXT

  function FormatName(f: Format): string {
    match f
    case JSON => "JSON"
    case XML => "XML"
    case TEXT => "TEXT"
  }

  /** The browser's parsers, which the model does not look inside: the value
      `JSON.parse` returns, or `None` when it throws; and whether
      `DOMParser.parseFromString(s, 'text/xml')` yields a document without a
      `parsererror` element (and does not throw). */
  datatype Parsers = Parsers(json: string -> Option<Json>, xmlOk: string -> bool)

  /** The `parsed` field: a JSON value, the XML document parsed from the given text,
      or a string. */
  datatype Value = JsonValue(v: Json) | XmlDocument(source: string) | Str(s: string)

  /** popup.js's classification `{format, parsed, raw}`. */
  datatype PopupParsed = PopupParsed(format: Format, parsed: Value, raw: string)

  /** panel.js's classification `{format, parsed}`; on XML, `parsed` is the payload
      text itself. */
  datatype PanelParsed = PanelParsed(format: Format, parsed: Value)

  /** The popup's XML gate: the trimmed payload starts with `<`. */
  predicate PopupLooksXml(s: string) {
    StartsWith(Trim(s), "<")
  }

  /** The panel's XML gate: the trimmed payload also ends with `>`. */
  predicate PanelLooksXml(s: string) {
    StartsWith(Trim(s), "<") && EndsWith(Trim(s), ">")
  }

  /** popup.js `parsePayload`. */
  function ParsePopup(p: Payload, ps: Parsers): (r: PopupParsed)
    ensures p.NonText? ==> r.format == TEXT && r.parsed == Str(p.shown)
    ensures r.raw == Shown(p)
    ensures r.format == JSON <==> p.Text? && ps.json(p.s).Some?
    ensures r.format == JSON ==> r.parsed == JsonValue(ps.json(p.s).value)
    ensures r.format == XML <==> p.Text? && ps.json(p.s).None? && PopupLooksXml(p.s) && ps.xmlOk(p.s)
    ensures r.format == XML ==> r.parsed == XmlDocument(p.s)
    ensures r.format == TEXT ==> r.parsed == Str(Shown(p))
  {
    match p
    case NonText(shown, _) => PopupParsed(TEXT, Str(shown), shown)
    case Text(s) =>
      if ps.json(s).Some? then PopupParsed(JSON, JsonValue(ps.json(s).value), s)
      else if PopupLooksXml(s) && ps.xmlOk(s) then PopupParsed(XML, XmlDocument(s), s)
      else PopupParsed(TEXT, Str(s), s)
  }

  /** panel.js `parsePayload`. It agrees with the popup except in one case: a payload
      that is not JSON, that the XML parser accepts, and whose trimmed text starts
      with `<` but does not end with `>` is XML to the popup and TEXT to the panel. */
  function ParsePanel(p: Payload, ps: Parsers): (r: PanelParsed)
    ensures p.NonText? ==> r == PanelParsed(TEXT, Str(p.shown))
    ensures r.format == JSON <==> p.Text? && ps.json(p.s).Some?
    ensures r.format == XML <==> p.Text? && ps.json(p.s).None? && PanelLooksXml(p.s) && ps.xmlOk(p.s)
    ensures r.format == XML ==> r.parsed == Str(p.s)
    ensures r.format == JSON ==> r.parsed == JsonValue(ps.json(p.s).value)
    ensures r.format == TEXT ==> r.parsed == Str(Shown(p))
    ensures r.format != ParsePopup(p, ps).format
      <==> && p.Text? && ps.json(p.s).None? && ps.xmlOk(p.s)
           && StartsWith(Trim(p.s), "<") && !EndsWith(Trim(p.s), ">")
    ensures r.format != ParsePopup(p, ps).format ==> r.format == TEXT
  {
    match p
    case NonText(shown, _) => PanelParsed(TEXT, Str(shown))
    case Text(s) =>
      if ps.json(s).Some? then PanelParsed(JSON, JsonValue(ps.json(s).value))
      else if PanelLooksXml(s) && ps.xmlOk(s) then PanelParsed(XML, Str(s))
      else PanelParsed(TEXT, Str(s))
  }

  /** The popup's "copy formatted" button: `getFormattedText` on the classification
      made when the message was selected, or `''` when there was none. `quote` is
      `JSON.stringify` on a single string. */
  function CopiedText(payload: Option<Payload>, ps: Parsers, quote: string -> string): (r: string)
    ensures !Truthy(payload) ==> r == ""
    ensures Truthy(payload) && ParsePopup(payload.value, ps).format == TEXT ==> r == Shown(payload.value)
    ensures Truthy(payload) && ParsePopup(payload.value, ps).format == JSON
      ==> r == Stringify(ps.json(payload.value.s).value, quote)
  {
    if !Truthy(payload) then ""
    else
      var c := ParsePopup(payload.value, ps);
      match c.parsed
      case JsonValue(v) => Stringify(v, quote)
      case XmlDocument(_) => FormatXmlRaw(c.raw)
      case Str(_) => c.raw
  }

  /** Copying a well-formed XML message written without whitespace between its tags
      gives the document one tag per line, two spaces deeper per enclosing element. */
  lemma CopiedXmlTree(n: XmlLayout.Node, ps: Parsers, quote: string -> string)
    requires XmlLayout.Good(n)
    requires ps.json(XmlLayout.Compact(n)).None? && ps.xmlOk(XmlLayout.Compact(n))
    ensures CopiedText(Some(Text(XmlLayout.Compact(n))), ps, quote)
      == Join("\n", XmlLayout.Layout(n, 0))
  {
    var s := XmlLayout.Compact(n);
    XmlLayout.CompactTrimmed(n);
    assert PopupLooksXml(s);
    CopiedXml(s, ps, quote);
    XmlLayout.FormatXmlRawOfTree(n);
  }

  /** Copying a payload the popup classified as XML gives `formatXmlRaw` of it. */
  lemma CopiedXml(s: string, ps: Parsers, quote: string -> string)
    requires s != "" && ps.json(s).None? && ps.xmlOk(s) && PopupLooksXml(s)
    ensures CopiedText(Some(Text(s)), ps, quote) == FormatXmlRaw(s)
  {
    assert ParsePopup(Text(s), ps) == PopupParsed(XML, XmlDocument(s), s);
  }

  // ---------------------------------------------------------------------------
  // panel.js `selectMessage`: what the detail view shows.

  /** `'' + msg.code`: the code in decimal, or `undefined` when it is absent. */
  function CodeText(code: Option<int>): string {
    match code
    case Some(c) => IntToString(c)
    case None => "undefined"
  }

  /** `msg.reason || '(none)'`. */
  function ReasonText(reason: Option<string>): string {
    if reason == None || reason == Some("") then "(none)" else reason.value
  }

  /** `msg.url` as string concatenation renders it. */
  function UrlText(url: Option<string>): string {
    url.GetOr("undefined")
  }

  /** The three outcomes of selecting a message in the panel: a message without a
      payload (other than CONNECT) shows its type, URL and, for CLOSE, the code and
      reason; CONNECT shows its URL; anything else is classified. */
  datatype PanelDetail =
    | NoPayload(title: string, content: string)
    | ConnectDetail(url: string)
    | PayloadDetail(title: string, parsed: PanelParsed)

  function SelectInPanel(m: Record, ps: Parsers): (r: PanelDetail)
    ensures r.NoPayload? <==> !Truthy(m.payload) && m.kind != Connect
    ensures r.ConnectDetail? <==> m.kind == Connect
    ensures r.NoPayload? ==> StartsWith(r.title, KindName(m.kind) + " - ")
    ensures r.NoPayload? && m.kind != Close ==> r.content == "No payload data"
    ensures r.NoPayload? && m.kind == Close ==> StartsWith(r.content, "Code: ")
    ensures r.PayloadDetail? ==> r.parsed == ParsePanel(m.payload.value, ps)
    ensures r.PayloadDetail? ==> StartsWith(r.title, KindName(m.kind) + " [" + FormatName(r.parsed.format) + "]")
  {
    if !Truthy(m.payload) && m.kind != Connect then
      NoPayload(
        KindName(m.kind) + " - " + m.url.GetOr(""),
        if m.kind == Close then "Code: " + CodeText(m.code) + "\nReason: " + ReasonText(m.reason)
        else "No payload data")
    else if m.kind == Connect then
      ConnectDetail(m.url.GetOr(""))
    else
      var parsed := ParsePanel(m.payload.value, ps);
      PayloadDetail(KindName(m.kind) + " [" + FormatName(parsed.format) + "] - " + UrlText(m.url), parsed)
  }

  /** The CLOSE detail can be read back: the digits after `Code: ` are the close code,
      and the reason follows the line break; an empty or missing reason shows as
      `(none)`. */
  lemma CloseDetailReadsBack(m: Record, ps: Parsers, c: nat)
    requires !Truthy(m.payload) && m.kind == Close
    requires m.code == Some(c)
    ensures var content := SelectInPanel(m, ps).content;
      var k := |NatToString(c)|;
      && 6 + k <= |content|
      && ReadDigits(content[6..6 + k]) == c
      && (m.reason.Some? && m.reason.value != "" ==> content[6 + k..] == "\nReason: " + m.reason.value)
      && (m.reason == None || m.reason == Some("") ==> content[6 + k..] == "\nReason: (none)")
  {
    var digits := NatToString(c);
    var tail := "\nReason: " + ReasonText(m.reason);
    assert CodeText(m.code) == digits;
    assert SelectInPanel(m, ps).content == "Code: " + digits + tail;
    ThreeParts("Code: ", digits, tail);
    ReadNatToString(c);
  }

  lemma ThreeParts(a: string, b: string, c: string)
    ensures (a + b + c)[|a|..|a| + |b|] == b && (a + b + c)[|a| + |b|..] == c
  { }
}
