/** The isolated-world listener for `__WS_SNIFFER__` events (content.js): it keeps
    only events tagged by the interceptor, stamps them with the frame's URL, and
    hands them to the extension runtime, ignoring any failure to do so. */
module Bridge {
  import opened Wrappers
  import opened Events

  /** The action name background.js listens for. */
  const WS_MESSAGE: string := "ws_message"

  /** The object given to `chrome.runtime.sendMessage`. */
  datatype Envelope = Envelope(action: string, data: Record)

  /** What one `__WS_SNIFFER__` event turns into: dropped by the tag filter, or an
      envelope that `sendMessage` accepted or threw on. Both outcomes of the send end
      the listener normally; nothing reaches the page. */
  datatype Outcome = Ignored | Forwarded(envelope: Envelope) | SendFailed(envelope: Envelope)

  /** The listener. `detail` is the event's `detail` (None when it is falsy), `href`
      is the frame's `location.href`, and `runtimeUp` says whether `sendMessage`
      returns instead of throwing. */
  function OnSnifferEvent(detail: Option<Record>, href: string, runtimeUp: bool): (r: Outcome)
    ensures r.Ignored? <==> detail.None? || detail.value.source != SNIFFER_TAG
    ensures !r.Ignored? ==> r.envelope.action == WS_MESSAGE
    ensures !r.Ignored? ==> r.envelope.data.frameUrl == Some(href)
    ensures !r.Ignored? ==> r.envelope.data.(frameUrl := detail.value.frameUrl) == detail.value
    ensures r.Forwarded? <==> !r.Ignored? && runtimeUp
  {
    if detail.None? || detail.value.source != SNIFFER_TAG then Ignored
    else
      var data := detail.value.(frameUrl := Some(href));
      var env := Envelope(WS_MESSAGE, data);
      if runtimeUp then Forwarded(env) else SendFailed(env)
  }

  /** The envelope the extension receives, if any. */
  function Delivered(o: Outcome): Option<Envelope> {
    if o.Forwarded? then Some(o.envelope) else None
  }

  /** The availability of the runtime decides only whether the envelope arrives,
      never what it holds. */
  lemma SendFailureOnlyLosesTheEnvelope(detail: Option<Record>, href: string)
    ensures OnSnifferEvent(detail, href, false).Ignored? == OnSnifferEvent(detail, href, true).Ignored?
    ensures !OnSnifferEvent(detail, href, true).Ignored? ==>
      && OnSnifferEvent(detail, href, false).envelope == OnSnifferEvent(detail, href, true).envelope
      && Delivered(OnSnifferEvent(detail, href, false)) == None
      && Delivered(OnSnifferEvent(detail, href, true)) == Some(OnSnifferEvent(detail, href, true).envelope)
  {
  }
}
