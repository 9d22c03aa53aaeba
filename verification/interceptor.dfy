/** The page-side wrapper of the `WebSocket` constructor (inject.js): every socket
    the page builds gets the next connection id of its execution context and reports
    CONNECT, SEND, RECEIVE, CLOSE and ERROR notifications. The execution context is a
    value: the id counter, the URL of every socket handed out, and the trace of
    observable effects in the order they happen. */
module Interceptor {
  import opened Wrappers
  import opened Text
  import opened Events

  /** What `send` is given, or what a `message` event carries. */
  datatype Frame =
    | StringFrame(s: string)
    | ArrayBufferFrame(byteLength: nat)
    | BlobFrame(size: nat)
    | OtherFrame(shown: string, truthy: bool)

  const ARRAY_BUFFER_PREFIX: string := "[ArrayBuffer] length="
  const BLOB_PREFIX: string := "[Blob] size="

  /** The binary-payload rule shared by `send` and `message`. */
  function Placeholder(f: Frame): Payload {
    match f
    case StringFrame(s) => Text(s)
    case ArrayBufferFrame(n) => Text(ARRAY_BUFFER_PREFIX + NatToString(n))
    case BlobFrame(n) => Text(BLOB_PREFIX + NatToString(n))
    case OtherFrame(shown, truthy) => NonText(shown, truthy)
  }

  /** A binary frame is reported as a string from which its size can be read back;
      anything else is passed through with its content intact. */
  lemma PlaceholderRule(f: Frame)
    ensures f.ArrayBufferFrame? ==>
      var p := Placeholder(f);
      && p.Text? && StartsWith(p.s, ARRAY_BUFFER_PREFIX)
      && CanonicalDigits(p.s[|ARRAY_BUFFER_PREFIX|..]) && ReadDigits(p.s[|ARRAY_BUFFER_PREFIX|..]) == f.byteLength
    ensures f.BlobFrame? ==>
      var p := Placeholder(f);
      && p.Text? && StartsWith(p.s, BLOB_PREFIX)
      && CanonicalDigits(p.s[|BLOB_PREFIX|..]) && ReadDigits(p.s[|BLOB_PREFIX|..]) == f.size
    ensures f.StringFrame? ==> Placeholder(f) == Text(f.s)
    ensures f.OtherFrame? ==> Placeholder(f) == NonText(f.shown, f.truthy)
  {
    match f
    case ArrayBufferFrame(n) =>
      assert Placeholder(f).s[|ARRAY_BUFFER_PREFIX|..] == NatToString(n);
      ReadNatToString(n);
    case BlobFrame(n) =>
      assert Placeholder(f).s[|BLOB_PREFIX|..] == NatToString(n);
      ReadNatToString(n);
    case _ =>
  }

  /** The wrapped socket as the page sees it: its id and target URL. */
  datatype Socket = Socket(id: int, url: string)

  /** Observable effects, in the order they happen. */
  datatype Effect =
    | Notified(rec: Record)           // a `__WS_SNIFFER__` event was dispatched
    | OriginalSend(id: int, data: Frame)  // the real `send` was called
    | Returned(sock: Socket)          // the constructor returned the socket to the page

  /** One execution context (a frame's `window`): the `connectionId` counter, the URL
      of every socket it handed out, and everything observed so far. */
  datatype Context = Context(lastId: nat, urls: map<int, string>, trace: seq<Effect>)

  /** A context in which inject.js has just run. */
  const Fresh: Context := Context(0, map[], [])

  function Note(kind: Kind, sock: Socket, payload: Option<Payload>, code: Option<int>,
                reason: Option<string>, now: int): Record
  {
    Record(SNIFFER_TAG, kind, sock.id, Some(sock.url), payload, code, reason, now, None)
  }

  /** The socket was handed out by this context. */
  predicate Opened(ctx: Context, sock: Socket) {
    sock.id in ctx.urls && ctx.urls[sock.id] == sock.url
  }

  /** The connection id an effect is about. */
  function IdOf(e: Effect): int {
    match e
    case Notified(rec) => rec.id
    case OriginalSend(id, _) => id
    case Returned(sock) => sock.id
  }

  /** The kinds of the notifications about connection `k`, in trace order. */
  function KindsOf(t: seq<Effect>, k: int): seq<Kind> {
    if |t| == 0 then []
    else
      var e := t[|t| - 1];
      KindsOf(t[..|t| - 1], k) + (if e.Notified? && e.rec.id == k then [e.rec.kind] else [])
  }

  lemma KindsOfAppend(t: seq<Effect>, e: Effect, k: int)
    ensures KindsOf(t + [e], k) ==
      KindsOf(t, k) + (if e.Notified? && e.rec.id == k then [e.rec.kind] else [])
  {
    assert (t + [e])[..|t|] == t;
  }

  /** Every connection's notifications begin with its one CONNECT. */
  predicate ConnectFirst(kinds: seq<Kind>) {
    |kinds| >= 1 && kinds[0] == Connect && forall i :: 1 <= i < |kinds| ==> kinds[i] != Connect
  }

  /** Ids 1..lastId are exactly the ones handed out. */
  ghost predicate IdsDense(ctx: Context) {
    forall k :: k in ctx.urls <==> 1 <= k <= ctx.lastId
  }

  /** Every effect is about a socket of this context, and every notification carries
      the sniffer tag and that socket's URL, and no frame annotation yet. */
  ghost predicate Tagged(ctx: Context) {
    forall j :: 0 <= j < |ctx.trace| ==>
      && IdOf(ctx.trace[j]) in ctx.urls
      && (ctx.trace[j].Notified? ==>
            var rec := ctx.trace[j].rec;
            rec.source == SNIFFER_TAG && rec.url == Some(ctx.urls[rec.id]) && rec.frameUrl == None)
  }

  /** A socket reaches the page only right after its CONNECT. */
  ghost predicate ReturnsAnnounced(t: seq<Effect>) {
    forall j :: 0 <= j < |t| && t[j].Returned? ==>
      j >= 1 && t[j - 1].Notified? && t[j - 1].rec.kind == Connect && t[j - 1].rec.id == t[j].sock.id
  }

  /** The real `send` runs only right after the SEND carrying the placeholder of its data. */
  ghost predicate SendsAnnounced(t: seq<Effect>) {
    forall j :: 0 <= j < |t| && t[j].OriginalSend? ==>
      && j >= 1 && t[j - 1].Notified? && t[j - 1].rec.kind == Send
      && t[j - 1].rec.id == t[j].id && t[j - 1].rec.payload == Some(Placeholder(t[j].data))
  }

  /** Per connection, the notifications begin with CONNECT and hold no other CONNECT;
      ids never handed out have no notifications. */
  ghost predicate PerConnection(ctx: Context) {
    && (forall k :: k in ctx.urls ==> ConnectFirst(KindsOf(ctx.trace, k)))
    && (forall k :: k !in ctx.urls ==> KindsOf(ctx.trace, k) == [])
  }

  /** What holds of every context at every point of the page's life. */
  ghost predicate Valid(ctx: Context) {
    IdsDense(ctx) && Tagged(ctx) && ReturnsAnnounced(ctx.trace) && SendsAnnounced(ctx.trace)
    && PerConnection(ctx)
  }

  lemma FreshIsValid()
    ensures Valid(Fresh)
  {
  }

  lemma ReturnsAnnouncedAppend(t: seq<Effect>, e: Effect)
    requires ReturnsAnnounced(t)
    requires e.Returned? ==>
      |t| >= 1 && t[|t| - 1].Notified? && t[|t| - 1].rec.kind == Connect && t[|t| - 1].rec.id == e.sock.id
    ensures ReturnsAnnounced(t + [e])
  {
    var u := t + [e];
    forall j | 0 <= j < |u| && u[j].Returned?
      ensures j >= 1 && u[j - 1].Notified? && u[j - 1].rec.kind == Connect && u[j - 1].rec.id == u[j].sock.id
    {
      if j < |t| {
        assert u[j] == t[j] && u[j - 1] == t[j - 1];
      }
    }
  }

  lemma SendsAnnouncedAppend(t: seq<Effect>, e: Effect)
    requires SendsAnnounced(t)
    requires e.OriginalSend? ==>
      && |t| >= 1 && t[|t| - 1].Notified? && t[|t| - 1].rec.kind == Send
      && t[|t| - 1].rec.id == e.id && t[|t| - 1].rec.payload == Some(Placeholder(e.data))
    ensures SendsAnnounced(t + [e])
  {
    var u := t + [e];
    forall j | 0 <= j < |u| && u[j].OriginalSend?
      ensures && j >= 1 && u[j - 1].Notified? && u[j - 1].rec.kind == Send
              && u[j - 1].rec.id == u[j].id && u[j - 1].rec.payload == Some(Placeholder(u[j].data))
    {
      if j < |t| {
        assert u[j] == t[j] && u[j - 1] == t[j - 1];
      }
    }
  }

  lemma TaggedAppend(ctx: Context, r: Context, e: Effect)
    requires Tagged(ctx)
    requires r.trace == ctx.trace + [e]
    requires forall k :: k in ctx.urls ==> k in r.urls && r.urls[k] == ctx.urls[k]
    requires IdOf(e) in r.urls
    requires e.Notified? ==>
      e.rec.source == SNIFFER_TAG && e.rec.url == Some(r.urls[e.rec.id]) && e.rec.frameUrl == None
    ensures Tagged(r)
  {
    forall j | 0 <= j < |r.trace|
      ensures IdOf(r.trace[j]) in r.urls
      ensures r.trace[j].Notified? ==>
        var rec := r.trace[j].rec;
        rec.source == SNIFFER_TAG && rec.url == Some(r.urls[rec.id]) && rec.frameUrl == None
    {
      if j < |ctx.trace| {
        assert r.trace[j] == ctx.trace[j];
      }
    }
  }

  /** Step 1 of the constructor: a new id is taken and CONNECT reported. */
  lemma AppendConnect(ctx: Context, url: string, now: int)
    requires Valid(ctx)
    ensures var sock := Socket(ctx.lastId + 1, url);
      Valid(Context(sock.id, ctx.urls[sock.id := url],
                    ctx.trace + [Notified(Note(Connect, sock, None, None, None, now))]))
  {
    var sock := Socket(ctx.lastId + 1, url);
    var e := Notified(Note(Connect, sock, None, None, None, now));
    var r := Context(sock.id, ctx.urls[sock.id := url], ctx.trace + [e]);
    assert sock.id !in ctx.urls;
    assert IdsDense(r);
    PerConnectionConnect(ctx, r, e.rec);
    TaggedAppend(ctx, r, e);
    ReturnsAnnouncedAppend(ctx.trace, e);
    SendsAnnouncedAppend(ctx.trace, e);
  }

  /** A CONNECT for a fresh id starts that id's notifications and leaves the others. */
  lemma PerConnectionConnect(ctx: Context, r: Context, rec: Record)
    requires PerConnection(ctx)
    requires rec.kind == Connect && rec.id !in ctx.urls
    requires rec.id in r.urls && r.urls == ctx.urls[rec.id := r.urls[rec.id]]
    requires r.trace == ctx.trace + [Notified(rec)]
    ensures PerConnection(r)
  {
    forall k | k in r.urls
      ensures ConnectFirst(KindsOf(r.trace, k))
    {
      KindsOfAppend(ctx.trace, Notified(rec), k);
      if k == rec.id {
        assert KindsOf(ctx.trace, k) == [];
        assert KindsOf(r.trace, k) == [Connect];
      } else {
        assert KindsOf(r.trace, k) == KindsOf(ctx.trace, k);
      }
    }
    forall k | k !in r.urls
      ensures KindsOf(r.trace, k) == []
    {
      KindsOfAppend(ctx.trace, Notified(rec), k);
    }
  }

  /** A later notification about a socket of the context keeps its CONNECT first. */
  lemma PerConnectionNote(ctx: Context, r: Context, rec: Record)
    requires PerConnection(ctx)
    requires rec.kind != Connect && rec.id in ctx.urls
    requires r.urls == ctx.urls && r.trace == ctx.trace + [Notified(rec)]
    ensures PerConnection(r)
  {
    forall k | k in r.urls
      ensures ConnectFirst(KindsOf(r.trace, k))
    {
      KindsOfAppend(ctx.trace, Notified(rec), k);
      if k == rec.id {
        ConnectFirstAppend(KindsOf(ctx.trace, k), rec.kind);
      }
    }
    forall k | k !in r.urls
      ensures KindsOf(r.trace, k) == []
    {
      KindsOfAppend(ctx.trace, Notified(rec), k);
    }
  }

  /** An effect that is not a notification changes no connection's kinds. */
  lemma PerConnectionSilent(ctx: Context, r: Context, e: Effect)
    requires PerConnection(ctx) && !e.Notified?
    requires r.urls == ctx.urls && r.trace == ctx.trace + [e]
    ensures PerConnection(r)
    ensures forall k :: KindsOf(r.trace, k) == KindsOf(ctx.trace, k)
  {
    forall k
      ensures KindsOf(r.trace, k) == KindsOf(ctx.trace, k)
    {
      KindsOfAppend(ctx.trace, e, k);
    }
  }

  lemma ConnectFirstAppend(ks: seq<Kind>, x: Kind)
    requires ConnectFirst(ks) && x != Connect
    ensures ConnectFirst(ks + [x])
  {
    var u := ks + [x];
    forall i | 1 <= i < |u|
      ensures u[i] != Connect
    {
      if i < |ks| {
        assert u[i] == ks[i];
      }
    }
  }

  /** Step 2 of the constructor: the socket is returned right after its CONNECT. */
  lemma AppendReturned(ctx: Context, sock: Socket)
    requires Valid(ctx) && Opened(ctx, sock)
    requires |ctx.trace| >= 1
    requires var e := ctx.trace[|ctx.trace| - 1]; e.Notified? && e.rec.kind == Connect && e.rec.id == sock.id
    ensures Valid(Context(ctx.lastId, ctx.urls, ctx.trace + [Returned(sock)]))
  {
    var r := Context(ctx.lastId, ctx.urls, ctx.trace + [Returned(sock)]);
    PerConnectionSilent(ctx, r, Returned(sock));
    TaggedAppend(ctx, r, Returned(sock));
    ReturnsAnnouncedAppend(ctx.trace, Returned(sock));
    SendsAnnouncedAppend(ctx.trace, Returned(sock));
  }

  /** A SEND, RECEIVE, CLOSE or ERROR about a socket of this context. */
  lemma AppendNote(ctx: Context, sock: Socket, rec: Record)
    requires Valid(ctx) && Opened(ctx, sock)
    requires rec.kind != Connect && rec.id == sock.id && rec.source == SNIFFER_TAG
    requires rec.url == Some(sock.url) && rec.frameUrl == None
    ensures Valid(Context(ctx.lastId, ctx.urls, ctx.trace + [Notified(rec)]))
    ensures KindsOf(ctx.trace + [Notified(rec)], sock.id) == KindsOf(ctx.trace, sock.id) + [rec.kind]
  {
    var r := Context(ctx.lastId, ctx.urls, ctx.trace + [Notified(rec)]);
    KindsOfAppend(ctx.trace, Notified(rec), sock.id);
    PerConnectionNote(ctx, r, rec);
    TaggedAppend(ctx, r, Notified(rec));
    ReturnsAnnouncedAppend(ctx.trace, Notified(rec));
    SendsAnnouncedAppend(ctx.trace, Notified(rec));
  }

  /** The real `send`, right after its SEND. */
  lemma AppendOriginalSend(ctx: Context, sock: Socket, data: Frame)
    requires Valid(ctx) && Opened(ctx, sock)
    requires |ctx.trace| >= 1
    requires var e := ctx.trace[|ctx.trace| - 1];
      e.Notified? && e.rec.kind == Send && e.rec.id == sock.id && e.rec.payload == Some(Placeholder(data))
    ensures Valid(Context(ctx.lastId, ctx.urls, ctx.trace + [OriginalSend(sock.id, data)]))
  {
    var e := OriginalSend(sock.id, data);
    var r := Context(ctx.lastId, ctx.urls, ctx.trace + [e]);
    PerConnectionSilent(ctx, r, e);
    TaggedAppend(ctx, r, e);
    ReturnsAnnouncedAppend(ctx.trace, e);
    SendsAnnouncedAppend(ctx.trace, e);
  }

  datatype Constructed = Constructed(ctx: Context, sock: Option<Socket>)

  /** `new WebSocket(url)` through the wrapper at time `now`. When the real constructor
      throws (a malformed URL, say) the exception reaches the page before any id is
      taken or anything is reported. Otherwise the next id is taken, CONNECT is
      reported, and only then is the socket returned. */
  function Construct(ctx: Context, url: string, now: int, realThrows: bool): (r: Constructed)
    requires Valid(ctx)
    ensures Valid(r.ctx)
    ensures realThrows <==> r.sock == None
    ensures realThrows ==> r.ctx == ctx
    ensures r.sock.Some? ==>
      && r.sock.value == Socket(ctx.lastId + 1, url)
      && r.ctx.lastId == ctx.lastId + 1
      && ctx.lastId + 1 !in ctx.urls
      && Opened(r.ctx, r.sock.value)
      && KindsOf(r.ctx.trace, r.sock.value.id) == [Connect]
      && |r.ctx.trace| == |ctx.trace| + 2 && r.ctx.trace[..|ctx.trace|] == ctx.trace
      && r.ctx.trace[|r.ctx.trace| - 1] == Returned(r.sock.value)
  {
    if realThrows then Constructed(ctx, None)
    else
      var sock := Socket(ctx.lastId + 1, url);
      ConnectThenReturn(ctx, url, now);
      Constructed(Context(sock.id, ctx.urls[sock.id := url], ctx.trace + [Connected(sock, now), Returned(sock)]),
                  Some(sock))
  }

  function Connected(sock: Socket, now: int): Effect {
    Notified(Note(Connect, sock, None, None, None, now))
  }

  /** The two steps of a successful construction keep the context valid. */
  lemma ConnectThenReturn(ctx: Context, url: string, now: int)
    requires Valid(ctx)
    ensures var sock := Socket(ctx.lastId + 1, url);
      var r := Context(sock.id, ctx.urls[sock.id := url], ctx.trace + [Connected(sock, now), Returned(sock)]);
      && Valid(r)
      && sock.id !in ctx.urls
      && KindsOf(r.trace, sock.id) == [Connect]
  {
    var sock := Socket(ctx.lastId + 1, url);
    var e := Connected(sock, now);
    var c1 := Context(sock.id, ctx.urls[sock.id := url], ctx.trace + [e]);
    AppendConnect(ctx, url, now);
    AppendReturned(c1, sock);
    KindsOfAppend(ctx.trace, e, sock.id);
    KindsOfAppend(c1.trace, Returned(sock), sock.id);
    assert c1.trace + [Returned(sock)] == ctx.trace + [e, Returned(sock)];
  }

  /** The wrapped `send(data)`: the SEND notification goes out first, carrying the
      placeholder of `data`, then the real `send` receives `data` itself. */
  function SendOn(ctx: Context, sock: Socket, data: Frame, now: int): (r: Context)
    requires Valid(ctx) && Opened(ctx, sock)
    ensures Valid(r)
    ensures r.lastId == ctx.lastId && r.urls == ctx.urls
    ensures |r.trace| == |ctx.trace| + 2 && r.trace[..|ctx.trace|] == ctx.trace
    ensures r.trace[|r.trace| - 1] == OriginalSend(sock.id, data)
    ensures KindsOf(r.trace, sock.id) == KindsOf(ctx.trace, sock.id) + [Send]
  {
    var rec := Note(Send, sock, Some(Placeholder(data)), None, None, now);
    NoteThenSend(ctx, sock, data, rec);
    Context(ctx.lastId, ctx.urls, ctx.trace + [Notified(rec), OriginalSend(sock.id, data)])
  }

  /** The two steps of a send keep the context valid and add one SEND to the socket's
      notifications. */
  lemma NoteThenSend(ctx: Context, sock: Socket, data: Frame, rec: Record)
    requires Valid(ctx) && Opened(ctx, sock)
    requires rec.kind == Send && rec.id == sock.id && rec.source == SNIFFER_TAG
    requires rec.url == Some(sock.url) && rec.frameUrl == None
    requires rec.payload == Some(Placeholder(data))
    ensures var t := ctx.trace + [Notified(rec), OriginalSend(sock.id, data)];
      && Valid(Context(ctx.lastId, ctx.urls, t))
      && t[..|ctx.trace|] == ctx.trace
      && KindsOf(t, sock.id) == KindsOf(ctx.trace, sock.id) + [Send]
  {
    var t1 := ctx.trace + [Notified(rec)];
    var c1 := Context(ctx.lastId, ctx.urls, t1);
    AppendNote(ctx, sock, rec);
    assert Opened(c1, sock);
    AppendOriginalSend(c1, sock, data);
    KindsOfAppend(t1, OriginalSend(sock.id, data), sock.id);
    var t := ctx.trace + [Notified(rec), OriginalSend(sock.id, data)];
    assert t1 + [OriginalSend(sock.id, data)] == t;
    assert t[..|ctx.trace|] == ctx.trace;
  }

  /** The `message` listener: RECEIVE with the same placeholder rule. */
  function ReceiveOn(ctx: Context, sock: Socket, data: Frame, now: int): (r: Context)
    requires Valid(ctx) && Opened(ctx, sock)
    ensures Valid(r)
    ensures r.lastId == ctx.lastId && r.urls == ctx.urls
    ensures KindsOf(r.trace, sock.id) == KindsOf(ctx.trace, sock.id) + [Receive]
    ensures |r.trace| == |ctx.trace| + 1 && r.trace[..|ctx.trace|] == ctx.trace
    ensures r.trace[|ctx.trace|].Notified? && r.trace[|ctx.trace|].rec.payload == Some(Placeholder(data))
  {
    var rec := Note(Receive, sock, Some(Placeholder(data)), None, None, now);
    AppendNote(ctx, sock, rec);
    var r := Context(ctx.lastId, ctx.urls, ctx.trace + [Notified(rec)]);
    assert r.trace[..|ctx.trace|] == ctx.trace;
    r
  }

  /** The `close` listener: CLOSE with the event's code and reason as they are. */
  function CloseOn(ctx: Context, sock: Socket, code: int, reason: string, now: int): (r: Context)
    requires Valid(ctx) && Opened(ctx, sock)
    ensures Valid(r)
    ensures r.lastId == ctx.lastId && r.urls == ctx.urls
    ensures KindsOf(r.trace, sock.id) == KindsOf(ctx.trace, sock.id) + [Close]
    ensures |r.trace| == |ctx.trace| + 1 && r.trace[..|ctx.trace|] == ctx.trace
    ensures r.trace[|ctx.trace|].Notified?
    ensures var rec := r.trace[|ctx.trace|].rec;
      rec.code == Some(code) && rec.reason == Some(reason) && rec.payload == None
  {
    var rec := Note(Close, sock, None, Some(code), Some(reason), now);
    AppendNote(ctx, sock, rec);
    var r := Context(ctx.lastId, ctx.urls, ctx.trace + [Notified(rec)]);
    assert r.trace[..|ctx.trace|] == ctx.trace;
    r
  }

  /** The `error` listener: ERROR, with neither payload nor close details. */
  function ErrorOn(ctx: Context, sock: Socket, now: int): (r: Context)
    requires Valid(ctx) && Opened(ctx, sock)
    ensures Valid(r)
    ensures r.lastId == ctx.lastId && r.urls == ctx.urls
    ensures KindsOf(r.trace, sock.id) == KindsOf(ctx.trace, sock.id) + [Error]
    ensures |r.trace| == |ctx.trace| + 1 && r.trace[..|ctx.trace|] == ctx.trace
    ensures r.trace[|ctx.trace|].Notified?
    ensures var rec := r.trace[|ctx.trace|].rec;
      rec.payload == None && rec.code == None && rec.reason == None
  {
    var rec := Note(Error, sock, None, None, None, now);
    AppendNote(ctx, sock, rec);
    var r := Context(ctx.lastId, ctx.urls, ctx.trace + [Notified(rec)]);
    assert r.trace[..|ctx.trace|] == ctx.trace;
    r
  }

  /** A socket's id and URL never change: every notification about connection `k`
      names the URL that socket was built with, and carries the sniffer tag. */
  lemma NotificationsNameTheirSocket(ctx: Context, j: nat)
    requires Valid(ctx)
    requires j < |ctx.trace| && ctx.trace[j].Notified?
    ensures var rec := ctx.trace[j].rec;
      && 1 <= rec.id <= ctx.lastId
      && rec.url == Some(ctx.urls[rec.id])
      && rec.source == SNIFFER_TAG
  {
  }

  /** The socket is never handed to the page before its CONNECT was reported,
      and the real `send` never runs before its SEND was reported. */
  lemma ReportsPrecedeEffects(ctx: Context, j: nat)
    requires Valid(ctx)
    requires j < |ctx.trace|
    ensures ctx.trace[j].Returned? ==>
      j >= 1 && ctx.trace[j - 1].Notified? && ctx.trace[j - 1].rec.kind == Connect
      && ctx.trace[j - 1].rec.id == ctx.trace[j].sock.id
    ensures ctx.trace[j].OriginalSend? ==>
      j >= 1 && ctx.trace[j - 1].Notified? && ctx.trace[j - 1].rec.kind == Send
      && ctx.trace[j - 1].rec.payload == Some(Placeholder(ctx.trace[j].data))
  {
  }

  /** Ids are handed out 1, 2, 3, ... : the n-th socket a fresh context builds has id n. */
  lemma {:induction false} IdsCountFromOne(urls: seq<string>, now: int)
    ensures var r := BuildAll(Fresh, urls, now);
      && Valid(r.ctx)
      && |r.socks| == |urls|
      && forall i :: 0 <= i < |urls| ==> r.socks[i] == Socket(i + 1, urls[i])
  {
    BuildAllIds(Fresh, urls, now);
  }

  datatype Built = Built(ctx: Context, socks: seq<Socket>)

  /** Builds one socket per URL, in order (no constructor throws). */
  function BuildAll(ctx: Context, urls: seq<string>, now: int): (r: Built)
    requires Valid(ctx)
    ensures Valid(r.ctx)
    decreases |urls|
  {
    if |urls| == 0 then Built(ctx, [])
    else
      var c := Construct(ctx, urls[0], now, false);
      var rest := BuildAll(c.ctx, urls[1..], now);
      Built(rest.ctx, [c.sock.value] + rest.socks)
  }

  lemma {:induction false} BuildAllIds(ctx: Context, urls: seq<string>, now: int)
    requires Valid(ctx)
    ensures var r := BuildAll(ctx, urls, now);
      && |r.socks| == |urls|
      && r.ctx.lastId == ctx.lastId + |urls|
      && forall i :: 0 <= i < |urls| ==> r.socks[i] == Socket(ctx.lastId + i + 1, urls[i])
    decreases |urls|
  {
    if |urls| > 0 {
      var c := Construct(ctx, urls[0], now, false);
      BuildAllIds(c.ctx, urls[1..], now);
    }
  }
}
