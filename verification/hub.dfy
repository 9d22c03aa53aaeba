/** The extension's service worker (background.js) as a state machine: per tab a
    bounded FIFO store of records, one devtools-port slot and one popup-port slot,
    and the set of tabs the scripts were injected into. Every handler maps a state
    and one runtime event to the next state and the calls it makes on the outside
    world, in order: posts to ports, badge updates and script injections. */
module Hub {
  import opened Wrappers
  import opened Text
  import opened Events
  import opened Bridge

  const MAX_STORE: nat := 500
  const DEVTOOLS_PORT: string := "devtools-page"
  const POPUP_PORT: string := "popup"
  const INIT: string := "init"
  const LOADING: string := "loading"
  const BADGE_COLOR: string := "#4caf50"
  const BADGE_ON: string := "ON"

  type TabId = nat
  /** The identity of one `runtime.Port` object (what `===` compares). */
  type PortId = nat

  datatype Port = Port(id: PortId, name: string)

  /** A message an observer posts on its port: `{name, tabId}`. */
  datatype PortMessage = PortMessage(name: string, tabId: TabId)

  datatype World = MainWorld | IsolatedWorld

  /** Calls the worker makes on the outside world. */
  datatype Output =
    | Post(port: PortId, msg: Record)
    | SetBadgeText(tab: TabId, text: string)
    | SetBadgeColor(tab: TabId, color: string)
    | ExecuteScript(tab: TabId, file: string, world: World)

  datatype State = State(
    store: map<TabId, seq<Record>>,
    devtools: map<TabId, PortId>,
    popups: map<TabId, PortId>,
    injected: set<TabId>)

  datatype Step = Step(state: State, out: seq<Output>)

  /** The worker as it starts. */
  const Start: State := State(map[], map[], map[], {})

  /** The records kept for a tab; a tab without a store has none. */
  function StoreOf(h: State, tab: TabId): seq<Record> {
    if tab in h.store then h.store[tab] else []
  }

  /** The posts to one port, in order. */
  function PostsTo(out: seq<Output>, p: PortId): seq<Record> {
    if |out| == 0 then []
    else (if out[0].Post? && out[0].port == p then [out[0].msg] else []) + PostsTo(out[1..], p)
  }

  lemma {:induction false} PostsToAppend(a: seq<Output>, b: seq<Output>, p: PortId)
    ensures PostsTo(a + b, p) == PostsTo(a, p) + PostsTo(b, p)
  {
    if |a| > 0 {
      assert (a + b)[0] == a[0];
      assert (a + b)[1..] == a[1..] + b;
      PostsToAppend(a[1..], b, p);
    } else {
      assert a + b == b;
    }
  }

  predicate IsSuffix<T(==)>(a: seq<T>, b: seq<T>) {
    |a| <= |b| && b[|b| - |a|..] == a
  }

  // ---------------------------------------------------------------------------
  // The store of one tab.

  /** `push` then, past `MAX_STORE`, `shift`: the newest `MAX_STORE` records at most. */
  function Push(s: seq<Record>, d: Record): (r: seq<Record>)
    requires |s| <= MAX_STORE
    ensures |r| == if |s| < MAX_STORE then |s| + 1 else MAX_STORE
  {
    var grown := s + [d];
    if |grown| > MAX_STORE then grown[1..] else grown
  }

  /** Pushing keeps the newest record last and drops at most the oldest one; the
      survivors keep their order. */
  lemma PushFifo(s: seq<Record>, d: Record)
    requires |s| <= MAX_STORE
    ensures IsSuffix(Push(s, d), s + [d])
    ensures Push(s, d)[|Push(s, d)| - 1] == d
    ensures |s| < MAX_STORE ==> Push(s, d) == s + [d]
    ensures |s| == MAX_STORE ==> Push(s, d) == s[1..] + [d]
  {
    var r := Push(s, d);
    if |s| == MAX_STORE {
      assert (s + [d])[1..] == s[1..] + [d];
    }
  }

  /** The badge: the count, or `99+` past 99. */
  function BadgeText(count: nat): (r: string)
    ensures count > 99 <==> r == "99+"
    ensures count <= 99 ==>
      && 1 <= |r| <= 2 && (|r| > 1 ==> r[0] != '0')
      && (forall i :: 0 <= i < |r| ==> IsDigit(r[i])) && ReadDigits(r) == count
  {
    ReadNatToString(count);
    if count > 99 then "99+" else NatToString(count)
  }

  /** The badge text determines the count up to 99. */
  lemma BadgeTextInjective(m: nat, n: nat)
    requires m <= 99 && n <= 99
    requires BadgeText(m) == BadgeText(n)
    ensures m == n
  {
  }

  // ---------------------------------------------------------------------------
  // Handlers.

  /** The calls `runtime.onMessage` makes once the record is stored and the tab
      holds `count` records: the badge, then the devtools port, then the popup port. */
  function FanOut(h: State, tab: TabId, d: Record, count: nat): (out: seq<Output>)
    ensures |out| >= 2 && out[0] == SetBadgeText(tab, BadgeText(count))
    ensures forall p :: PostsTo(out, p) == SlotPosts(h, tab, d, p)
  {
    FanOutPosts(h, tab, d, count);
    [SetBadgeText(tab, BadgeText(count)), SetBadgeColor(tab, BADGE_COLOR)]
    + (if tab in h.devtools then [Post(h.devtools[tab], d)] else [])
    + (if tab in h.popups then [Post(h.popups[tab], d)] else [])
  }

  /** What port `p` is owed when record `d` arrives for tab `tab`: one copy per slot
      of that tab that `p` holds. */
  function SlotPosts(h: State, tab: TabId, d: Record, p: PortId): seq<Record> {
    (if tab in h.devtools && h.devtools[tab] == p then [d] else [])
    + (if tab in h.popups && h.popups[tab] == p then [d] else [])
  }

  lemma FanOutPosts(h: State, tab: TabId, d: Record, count: nat)
    ensures forall p ::
      PostsTo([SetBadgeText(tab, BadgeText(count)), SetBadgeColor(tab, BADGE_COLOR)]
              + (if tab in h.devtools then [Post(h.devtools[tab], d)] else [])
              + (if tab in h.popups then [Post(h.popups[tab], d)] else []), p)
      == SlotPosts(h, tab, d, p)
  {
    var badges := [SetBadgeText(tab, BadgeText(count)), SetBadgeColor(tab, BADGE_COLOR)];
    var toDevtools := if tab in h.devtools then [Post(h.devtools[tab], d)] else [];
    var toPopup := if tab in h.popups then [Post(h.popups[tab], d)] else [];
    forall p
      ensures PostsTo(badges + toDevtools + toPopup, p) == SlotPosts(h, tab, d, p)
    {
      PostsToAppend(badges + toDevtools, toPopup, p);
      PostsToAppend(badges, toDevtools, p);
      NoPosts(badges, p);
      if tab in h.devtools {
        SinglePost(h.devtools[tab], d, p);
      }
      if tab in h.popups {
        SinglePost(h.popups[tab], d, p);
      }
    }
  }

  lemma SinglePost(q: PortId, d: Record, p: PortId)
    ensures PostsTo([Post(q, d)], p) == if q == p then [d] else []
  {
    assert [Post(q, d)][1..] == [];
  }

  lemma {:induction false} NoPosts(out: seq<Output>, p: PortId)
    requires forall i :: 0 <= i < |out| ==> !out[i].Post?
    ensures PostsTo(out, p) == []
  {
    if |out| > 0 {
      NoPosts(out[1..], p);
    }
  }

  /** `runtime.onMessage`: a record from the bridge of tab `sender`. */
  function OnMessage(h: State, sender: Option<TabId>, req: Envelope): (r: Step)
    requires Bounded(h)
    ensures Bounded(r.state)
    ensures sender.None? || req.action != WS_MESSAGE ==> r == Step(h, [])
    ensures sender.Some? && req.action == WS_MESSAGE ==>
      var tab := sender.value;
      && r.state.store == h.store[tab := Push(StoreOf(h, tab), req.data)]
      && r.state.devtools == h.devtools && r.state.popups == h.popups && r.state.injected == h.injected
      && |r.out| >= 2 && r.out[0] == SetBadgeText(tab, BadgeText(|r.state.store[tab]|))
      && (forall p :: PostsTo(r.out, p) == SlotPosts(h, tab, req.data, p))
  {
    if sender.None? || req.action != WS_MESSAGE then Step(h, [])
    else
      var tab := sender.value;
      var kept := Push(StoreOf(h, tab), req.data);
      Step(h.(store := h.store[tab := kept]), FanOut(h, tab, req.data, |kept|))
  }

  /** Only the sending tab's store changes. */
  lemma OnMessageTouchesOneTab(h: State, tab: TabId, req: Envelope, t: TabId)
    requires Bounded(h) && req.action == WS_MESSAGE && t != tab
    ensures StoreOf(OnMessage(h, Some(tab), req).state, t) == StoreOf(h, t)
    ensures StoreOf(OnMessage(h, Some(tab), req).state, tab) == Push(StoreOf(h, tab), req.data)
  {
  }

  /** The posts replaying a store to one port, oldest first. */
  function Replay(p: PortId, s: seq<Record>): (r: seq<Output>)
    ensures PostsTo(r, p) == s
    ensures forall q :: q != p ==> PostsTo(r, q) == []
  {
    if |s| == 0 then [] else
      var r := [Post(p, s[0])] + Replay(p, s[1..]);
      assert r[1..] == Replay(p, s[1..]);
      r
  }

  /** A message on an observer port. On `init`, the port takes the tab's slot of its
      kind (replacing whatever port was there), then every stored record of that tab
      is posted to it, oldest first. The injection that `init` also starts completes
      later and is the separate `InjectScripts` step. */
  function OnPortMessage(h: State, port: Port, msg: PortMessage): (r: Step)
    ensures msg.name != INIT || (port.name != DEVTOOLS_PORT && port.name != POPUP_PORT) ==> r == Step(h, [])
    ensures msg.name == INIT && port.name == DEVTOOLS_PORT ==>
      r.state == h.(devtools := h.devtools[msg.tabId := port.id])
    ensures msg.name == INIT && port.name == POPUP_PORT ==>
      r.state == h.(popups := h.popups[msg.tabId := port.id])
    ensures msg.name == INIT && (port.name == DEVTOOLS_PORT || port.name == POPUP_PORT) ==>
      && PostsTo(r.out, port.id) == StoreOf(h, msg.tabId)
      && forall q :: q != port.id ==> PostsTo(r.out, q) == []
  {
    if msg.name != INIT then Step(h, [])
    else if port.name == DEVTOOLS_PORT then
      Step(h.(devtools := h.devtools[msg.tabId := port.id]), Replay(port.id, StoreOf(h, msg.tabId)))
    else if port.name == POPUP_PORT then
      Step(h.(popups := h.popups[msg.tabId := port.id]), Replay(port.id, StoreOf(h, msg.tabId)))
    else Step(h, [])
  }

  /** The tab ids whose slot holds port `p`. */
  function Holders(m: map<TabId, PortId>, p: PortId): set<TabId> {
    set t | t in m && m[t] == p
  }

  lemma {:induction false} HasLeast(s: set<TabId>)
    requires s != {}
    ensures exists k :: k in s && forall j :: j in s ==> k <= j
    decreases |s|
  {
    var x :| x in s;
    if s != {x} {
      var rest := s - {x};
      HasLeast(rest);
      var k :| k in rest && forall j :: j in rest ==> k <= j;
      var m := if x < k then x else k;
      forall j | j in s
        ensures m <= j
      {
        if j != x {
          assert j in rest;
        }
      }
      assert m in s;
    } else {
      forall j | j in s
        ensures x <= j
      {
      }
    }
  }

  /** The `for ... in` scan of `onDisconnect`: integer keys are visited in ascending
      order and the scan stops at the first slot holding the port, so exactly that
      one slot is removed. */
  function RemoveFirstHolder(m: map<TabId, PortId>, p: PortId): (r: map<TabId, PortId>)
    ensures Holders(m, p) == {} ==> r == m
    ensures Holders(m, p) != {} ==>
      exists k :: k in Holders(m, p) && (forall j :: j in Holders(m, p) ==> k <= j) && r == m - {k}
  {
    var hs := Holders(m, p);
    if hs == {} then m
    else
      HasLeast(hs);
      var k :| k in hs && forall j :: j in hs ==> k <= j;
      m - {k}
  }

  /** `port.onDisconnect`: the first slot of the port's kind holding this port is emptied. */
  function OnDisconnect(h: State, port: Port): (r: State)
    ensures r.store == h.store && r.injected == h.injected
    ensures port.name == DEVTOOLS_PORT ==> r.popups == h.popups
    ensures port.name == POPUP_PORT ==> r.devtools == h.devtools
    ensures port.name != DEVTOOLS_PORT && port.name != POPUP_PORT ==> r == h
    // other ports keep their slots
    ensures forall q :: q != port.id ==> Holders(r.devtools, q) == Holders(h.devtools, q)
    ensures forall q :: q != port.id ==> Holders(r.popups, q) == Holders(h.popups, q)
    // a port that held at most one slot holds none afterwards
    ensures port.name == DEVTOOLS_PORT && |Holders(h.devtools, port.id)| <= 1 ==> Holders(r.devtools, port.id) == {}
    ensures port.name == POPUP_PORT && |Holders(h.popups, port.id)| <= 1 ==> Holders(r.popups, port.id) == {}
  {
    if port.name == DEVTOOLS_PORT then
      var m := RemoveFirstHolder(h.devtools, port.id);
      SingleHolderRemoved(h.devtools, port.id);
      h.(devtools := m)
    else if port.name == POPUP_PORT then
      var m := RemoveFirstHolder(h.popups, port.id);
      SingleHolderRemoved(h.popups, port.id);
      h.(popups := m)
    else h
  }

  lemma SingleHolderRemoved(m: map<TabId, PortId>, p: PortId)
    ensures |Holders(m, p)| <= 1 ==> Holders(RemoveFirstHolder(m, p), p) == {}
  {
    var hs := Holders(m, p);
    if |hs| == 1 {
      var k :| k in hs;
      assert |hs - {k}| == 0;
      assert hs - {k} == {};
      assert hs == {k} by {
        forall j | j in hs ensures j == k {
          assert j !in hs - {k};
        }
      }
    }
  }

  /** Disconnecting twice is disconnecting once, for a port holding at most one slot. */
  lemma DisconnectIdempotent(h: State, port: Port)
    requires |Holders(h.devtools, port.id)| <= 1 && |Holders(h.popups, port.id)| <= 1
    ensures OnDisconnect(OnDisconnect(h, port), port) == OnDisconnect(h, port)
  {
    var r := OnDisconnect(h, port);
    if port.name == DEVTOOLS_PORT {
      assert Holders(r.devtools, port.id) == {};
    } else if port.name == POPUP_PORT {
      assert Holders(r.popups, port.id) == {};
    }
  }

  /** `tabs.onRemoved`: the tab's store and injected mark go; its port slots stay. */
  function OnRemoved(h: State, tab: TabId): (r: State)
    ensures tab !in r.store && tab !in r.injected
    ensures forall t :: t != tab ==> StoreOf(r, t) == StoreOf(h, t) && (t in r.injected <==> t in h.injected)
    ensures r.devtools == h.devtools && r.popups == h.popups
  {
    h.(store := h.store - {tab}, injected := h.injected - {tab})
  }

  /** `tabs.onUpdated`: a tab starting to load is forgotten as on removal; any other
      update changes nothing. */
  function OnUpdated(h: State, tab: TabId, status: Option<string>): (r: State)
    ensures status == Some(LOADING) ==> r == OnRemoved(h, tab)
    ensures status != Some(LOADING) ==> r == h
  {
    if status == Some(LOADING) then OnRemoved(h, tab) else h
  }

  /** `injectScripts(tabId)`, with the outcome of the two `executeScript` calls given:
      nothing for a tab already injected; otherwise inject.js into the page's world,
      then (only if that succeeded) content.js into the isolated world, and only when
      both succeeded is the tab marked and its badge set to ON. Failures are swallowed. */
  function InjectScripts(h: State, tab: TabId, mainOk: bool, isolatedOk: bool): (r: Step)
    ensures tab in h.injected ==> r == Step(h, [])
    ensures r.state.store == h.store && r.state.devtools == h.devtools && r.state.popups == h.popups
    ensures tab !in h.injected ==>
      && (r.state.injected == if mainOk && isolatedOk then h.injected + {tab} else h.injected)
      && |r.out| >= 1 && r.out[0] == ExecuteScript(tab, "inject.js", MainWorld)
      && (ExecuteScript(tab, "content.js", IsolatedWorld) in r.out <==> mainOk)
      && (SetBadgeText(tab, BADGE_ON) in r.out <==> mainOk && isolatedOk)
    ensures forall i :: 0 <= i < |r.out| ==> !r.out[i].Post?
  {
    if tab in h.injected then Step(h, [])
    else
      var first := [ExecuteScript(tab, "inject.js", MainWorld)];
      if !mainOk then Step(h, first)
      else
        var both := first + [ExecuteScript(tab, "content.js", IsolatedWorld)];
        if !isolatedOk then Step(h, both)
        else Step(h.(injected := h.injected + {tab}), both + [SetBadgeText(tab, BADGE_ON), SetBadgeColor(tab, BADGE_COLOR)])
  }

  /** Injecting into a tab already injected does nothing, and a successful injection
      makes the next one do nothing. */
  lemma InjectIdempotent(h: State, tab: TabId, a: bool, b: bool, c: bool, d: bool)
    ensures InjectScripts(InjectScripts(h, tab, a, b).state, tab, c, d).out ==
      (if a && b then [] else InjectScripts(h, tab, c, d).out)
  {
  }

  // ---------------------------------------------------------------------------
  // Runs of events.

  datatype Event =
    | Message(sender: Option<TabId>, req: Envelope)
    | PortMsg(port: Port, msg: PortMessage)
    | Disconnect(port: Port)
    | TabRemoved(tab: TabId)
    | TabUpdated(tab: TabId, status: Option<string>)
    | Injection(tab: TabId, mainOk: bool, isolatedOk: bool)

  /** Every store of a tab holds at most `MAX_STORE` records. */
  predicate Bounded(h: State) {
    forall t :: t in h.store ==> |h.store[t]| <= MAX_STORE
  }

  function Apply(h: State, e: Event): (r: Step)
    requires Bounded(h)
    ensures Bounded(r.state)
    // only observer ports and their disconnects move port slots
    ensures e.Message? || e.TabRemoved? || e.TabUpdated? || e.Injection? ==>
      r.state.devtools == h.devtools && r.state.popups == h.popups
    // only records and observer messages post to ports
    ensures !e.Message? && !e.PortMsg? ==> forall i :: 0 <= i < |r.out| ==> !r.out[i].Post?
    ensures e.Disconnect? || e.TabRemoved? || e.TabUpdated? ==> r.out == []
  {
    match e
    case Message(sender, req) => OnMessage(h, sender, req)
    case PortMsg(port, msg) => OnPortMessage(h, port, msg)
    case Disconnect(port) => Step(OnDisconnect(h, port), [])
    case TabRemoved(tab) => Step(OnRemoved(h, tab), [])
    case TabUpdated(tab, status) => Step(OnUpdated(h, tab, status), [])
    case Injection(tab, mainOk, isolatedOk) => InjectScripts(h, tab, mainOk, isolatedOk)
  }

  /** Handles the events in order; the outputs of each follow those of the previous. */
  function Run(h: State, es: seq<Event>): (r: Step)
    requires Bounded(h)
    ensures Bounded(r.state)
    decreases |es|
  {
    if |es| == 0 then Step(h, [])
    else
      var first := Apply(h, es[0]);
      var rest := Run(first.state, es[1..]);
      Step(rest.state, first.out + rest.out)
  }

  /** Running two lists of events in a row is running the second from the state the
      first leaves, with the outputs of the first coming first. */
  lemma {:induction false} RunAppend(h: State, a: seq<Event>, b: seq<Event>)
    requires Bounded(h)
    ensures var ra := Run(h, a);
      var rb := Run(ra.state, b);
      Run(h, a + b) == Step(rb.state, ra.out + rb.out)
    decreases |a|
  {
    if |a| == 0 {
      assert a + b == b;
    } else {
      var first := Apply(h, a[0]);
      var ab := a + b;
      assert ab[0] == a[0];
      assert ab[1..] == a[1..] + b;
      RunAppend(first.state, a[1..], b);
      var mid := Run(first.state, a[1..]);
      ConcatAssoc(first.out, mid.out, Run(mid.state, b).out);
    }
  }

  /** No store ever exceeds `MAX_STORE`, whatever happens from the start. */
  lemma StoresStayBounded(es: seq<Event>)
    ensures forall t :: t in Run(Start, es).state.store ==> |Run(Start, es).state.store[t]| <= MAX_STORE
  {
  }

  /** The records a run delivers to tab `tab`: the accepted `ws_message` requests of that tab. */
  function Accepted(es: seq<Event>, tab: TabId): seq<Record> {
    if |es| == 0 then [] else AcceptedBy(es[0], tab) + Accepted(es[1..], tab)
  }

  /** The record one event has accepted for tab `tab`, if any. */
  function AcceptedBy(e: Event, tab: TabId): seq<Record> {
    if e.Message? && e.sender == Some(tab) && e.req.action == WS_MESSAGE then [e.req.data] else []
  }

  /** Port `p` holds exactly one slot, that of kind `kind` for tab `tab`. */
  predicate SoleSlot(h: State, p: PortId, kind: string, tab: TabId) {
    || (kind == DEVTOOLS_PORT && Holders(h.devtools, p) == {tab} && Holders(h.popups, p) == {})
    || (kind == POPUP_PORT && Holders(h.popups, p) == {tab} && Holders(h.devtools, p) == {})
  }

  /** Events that leave port `p`'s slot (kind `kind`, tab `tab`) where it is and replay
      nothing to it: anything except an `init` from `p` itself, an `init` of another
      port for that very slot, or the disconnect of `p`. Other observers may attach,
      re-attach and leave. */
  predicate KeepsSlotOf(e: Event, p: PortId, kind: string, tab: TabId) {
    match e
    case PortMsg(port, msg) => msg.name != INIT || (port.id != p && (port.name != kind || msg.tabId != tab))
    case Disconnect(port) => port.id != p
    case _ => true
  }

  /** Live delivery: while no event takes its slot away, a port holding one slot
      receives exactly the accepted records of that slot's tab, in order. */
  lemma {:induction false} LiveDelivery(h: State, es: seq<Event>, p: PortId, kind: string, tab: TabId)
    requires Bounded(h)
    requires SoleSlot(h, p, kind, tab)
    requires forall i :: 0 <= i < |es| ==> KeepsSlotOf(es[i], p, kind, tab)
    ensures PostsTo(Run(h, es).out, p) == Accepted(es, tab)
    decreases |es|
  {
    if |es| > 0 {
      var e := es[0];
      var first := Apply(h, e);
      var rest := Run(first.state, es[1..]);
      assert Run(h, es) == Step(rest.state, first.out + rest.out);
      assert Accepted(es, tab) ==
        (if e.Message? && e.sender == Some(tab) && e.req.action == WS_MESSAGE then [e.req.data] else [])
        + Accepted(es[1..], tab);
      StepKeepsSole(h, e, p, kind, tab);
      StepPosts(h, e, p, kind, tab);
      LiveDelivery(first.state, es[1..], p, kind, tab);
      PostsToAppend(first.out, rest.out, p);
    }
  }

  /** Handing slot `t` to another port takes at most that slot from `p`. */
  lemma HoldersAfterAssign(m: map<TabId, PortId>, t: TabId, q: PortId, p: PortId)
    requires q != p
    ensures Holders(m[t := q], p) == Holders(m, p) - {t}
  {
  }

  /** One event that keeps `p`'s slot keeps `p` the sole holder of it. */
  lemma StepKeepsSole(h: State, e: Event, p: PortId, kind: string, tab: TabId)
    requires Bounded(h) && SoleSlot(h, p, kind, tab) && KeepsSlotOf(e, p, kind, tab)
    ensures SoleSlot(Apply(h, e).state, p, kind, tab)
  {
    match e
    case PortMsg(port, msg) =>
      if msg.name == INIT && port.name == DEVTOOLS_PORT {
        HoldersAfterAssign(h.devtools, msg.tabId, port.id, p);
      } else if msg.name == INIT && port.name == POPUP_PORT {
        HoldersAfterAssign(h.popups, msg.tabId, port.id, p);
      }
    case Disconnect(port) =>
      var r := OnDisconnect(h, port);
      assert Holders(r.devtools, p) == Holders(h.devtools, p);
      assert Holders(r.popups, p) == Holders(h.popups, p);
    case _ =>
  }

  /** One event that keeps the slot posts to its sole holder exactly the record it
      accepts for that slot's tab. */
  lemma StepPosts(h: State, e: Event, p: PortId, kind: string, tab: TabId)
    requires Bounded(h) && SoleSlot(h, p, kind, tab) && KeepsSlotOf(e, p, kind, tab)
    ensures PostsTo(Apply(h, e).out, p) ==
      if e.Message? && e.sender == Some(tab) && e.req.action == WS_MESSAGE then [e.req.data] else []
  {
    match e
    case Message(sender, req) =>
      if sender.Some? && req.action == WS_MESSAGE {
        var t := sender.value;
        assert PostsTo(Apply(h, e).out, p) == SlotPosts(h, t, req.data, p);
        assert t in h.devtools && h.devtools[t] == p ==> t in Holders(h.devtools, p);
        assert t in h.popups && h.popups[t] == p ==> t in Holders(h.popups, p);
      }
    case PortMsg(port, msg) =>
      if msg.name == INIT && (port.name == DEVTOOLS_PORT || port.name == POPUP_PORT) {
        assert port.id != p;
      }
    case Injection(t, a, b) =>
      NoPosts(Apply(h, e).out, p);
    case _ =>
  }

  /** Replay then live: an observer attaching with `init` for tab `tab` receives every
      record stored for that tab at that moment, oldest first, and then every record
      accepted for the tab afterwards, with nothing missing and nothing repeated, for
      as long as it keeps its slot, whatever other observers do meanwhile. */
  lemma ReplayThenLive(h: State, port: Port, tab: TabId, es: seq<Event>)
    requires Bounded(h)
    requires port.name == DEVTOOLS_PORT || port.name == POPUP_PORT
    requires Holders(h.devtools, port.id) == {} && Holders(h.popups, port.id) == {}
    requires forall i :: 0 <= i < |es| ==> KeepsSlotOf(es[i], port.id, port.name, tab)
    ensures PostsTo(Run(h, [PortMsg(port, PortMessage(INIT, tab))] + es).out, port.id)
            == StoreOf(h, tab) + Accepted(es, tab)
  {
    var attach := PortMsg(port, PortMessage(INIT, tab));
    var first := Apply(h, attach);
    RunCons(h, attach, es);
    if port.name == DEVTOOLS_PORT {
      assert Holders(first.state.devtools, port.id) == {tab};
      assert Holders(first.state.popups, port.id) == {};
    } else {
      assert Holders(first.state.popups, port.id) == {tab};
      assert Holders(first.state.devtools, port.id) == {};
    }
    LiveDelivery(first.state, es, port.id, port.name, tab);
    PostsToAppend(first.out, Run(first.state, es).out, port.id);
  }

  /** Unfolds a run whose first event is `e`. */
  lemma RunCons(h: State, e: Event, es: seq<Event>)
    requires Bounded(h)
    ensures var first := Apply(h, e);
      var rest := Run(first.state, es);
      Run(h, [e] + es) == Step(rest.state, first.out + rest.out)
  {
    assert ([e] + es)[0] == e;
    assert ([e] + es)[1..] == es;
  }

  /** What one event does to one tab's store: the accepted record is pushed, the
      store is dropped, or nothing changes. */
  lemma StepStore(h: State, e: Event, tab: TabId)
    requires Bounded(h)
    ensures e.Message? && e.sender == Some(tab) && e.req.action == WS_MESSAGE ==>
      StoreOf(Apply(h, e).state, tab) == Push(StoreOf(h, tab), e.req.data)
    ensures !(e.Message? && e.sender == Some(tab) && e.req.action == WS_MESSAGE) ==>
      StoreOf(Apply(h, e).state, tab) in {StoreOf(h, tab), []}
  {
    match e
    case Message(sender, req) =>
      if sender.Some? && req.action == WS_MESSAGE && sender.value != tab {
        OnMessageTouchesOneTab(h, sender.value, req, tab);
      }
    case _ =>
  }

  /** Whatever happens, a tab's store is the most recent part of what it held plus
      what was accepted for it since. */
  lemma {:induction false} StoreIsRecentSuffix(h: State, es: seq<Event>, tab: TabId)
    requires Bounded(h)
    ensures IsSuffix(StoreOf(Run(h, es).state, tab), StoreOf(h, tab) + Accepted(es, tab))
    decreases |es|
  {
    if |es| == 0 {
      assert StoreOf(h, tab) + Accepted(es, tab) == StoreOf(h, tab);
    } else {
      var e := es[0];
      var first := Apply(h, e);
      assert es == [e] + es[1..];
      RunCons(h, e, es[1..]);
      StepStore(h, e, tab);
      StoreIsRecentSuffix(first.state, es[1..], tab);
      var old0 := StoreOf(h, tab);
      var mid := StoreOf(first.state, tab);
      var acc := Accepted(es[1..], tab);
      var fin := StoreOf(Run(h, es).state, tab);
      assert fin == StoreOf(Run(first.state, es[1..]).state, tab);
      if e.Message? && e.sender == Some(tab) && e.req.action == WS_MESSAGE {
        assert Accepted(es, tab) == [e.req.data] + acc;
        SuffixAfterPush(fin, old0, e.req.data, acc);
      } else {
        assert Accepted(es, tab) == acc;
        SuffixAfterOther(fin, old0, mid, acc);
      }
    }
  }

  lemma SuffixAfterPush(fin: seq<Record>, old0: seq<Record>, d: Record, acc: seq<Record>)
    requires |old0| <= MAX_STORE
    requires IsSuffix(fin, Push(old0, d) + acc)
    ensures IsSuffix(fin, old0 + ([d] + acc))
  {
    var g := old0 + [d];
    var p := Push(old0, d);
    if |g| > MAX_STORE {
      assert p == g[1..];
      SuffixOfTail(g);
    } else {
      assert p == g;
    }
    SuffixThenAppend(p, g, acc);
    assert old0 + ([d] + acc) == (old0 + [d]) + acc;
    SuffixTransitive(fin, Push(old0, d) + acc, old0 + ([d] + acc));
  }

  lemma SuffixAfterOther(fin: seq<Record>, old0: seq<Record>, mid: seq<Record>, acc: seq<Record>)
    requires mid == old0 || mid == []
    requires IsSuffix(fin, mid + acc)
    ensures IsSuffix(fin, old0 + acc)
  {
    if mid == [] {
      assert mid + acc == acc;
      assert IsSuffix(acc, old0 + acc);
      SuffixTransitive(fin, acc, old0 + acc);
    }
  }

  lemma SuffixOfTail<T>(a: seq<T>)
    requires |a| >= 1
    ensures IsSuffix(a[1..], a)
  {
  }

  lemma SuffixThenAppend<T>(a: seq<T>, b: seq<T>, c: seq<T>)
    requires IsSuffix(a, b)
    ensures IsSuffix(a + c, b + c)
  {
    assert (b + c)[|b + c| - |a + c|..] == b[|b| - |a|..] + c;
  }

  lemma SuffixTransitive<T>(a: seq<T>, b: seq<T>, c: seq<T>)
    requires IsSuffix(a, b) && IsSuffix(b, c)
    ensures IsSuffix(a, c)
  {
    assert c[|c| - |a|..] == c[|c| - |b|..][|b| - |a|..];
  }

  /** After a tab is removed or starts loading, an observer attaching to it is
      replayed nothing. */
  lemma DropThenAttachReplaysNothing(h: State, tab: TabId, port: Port, status: Option<string>)
    requires Bounded(h)
    requires status == Some(LOADING)
    ensures Run(h, [TabUpdated(tab, status), PortMsg(port, PortMessage(INIT, tab))]).out == []
    ensures Run(h, [TabRemoved(tab), PortMsg(port, PortMessage(INIT, tab))]).out == []
  {
    var attach := PortMsg(port, PortMessage(INIT, tab));
    assert Apply(h, TabUpdated(tab, status)) == Step(OnRemoved(h, tab), []);
    DropThenAttach(h, TabUpdated(tab, status), tab, port);
    RunPair(h, TabUpdated(tab, status), attach);
    ApplyRemoved(h, tab);
    DropThenAttach(h, TabRemoved(tab), tab, port);
    RunPair(h, TabRemoved(tab), attach);
  }

  lemma ApplyRemoved(h: State, tab: TabId)
    requires Bounded(h)
    ensures Apply(h, TabRemoved(tab)) == Step(OnRemoved(h, tab), [])
  { }

  lemma RunPair(h: State, e1: Event, e2: Event)
    requires Bounded(h)
    ensures Run(h, [e1, e2]) == Run(h, [e1] + [e2])
  {
    assert [e1, e2] == [e1] + [e2];
  }

  /** An event that forgets `tab` and posts nothing, then an INIT for `tab`. */
  lemma DropThenAttach(h: State, e: Event, tab: TabId, port: Port)
    requires Bounded(h)
    requires Apply(h, e) == Step(OnRemoved(h, tab), [])
    ensures Run(h, [e] + [PortMsg(port, PortMessage(INIT, tab))]).out == []
  {
    var attach := PortMsg(port, PortMessage(INIT, tab));
    var h1 := OnRemoved(h, tab);
    AttachToEmpty(h1, tab, port);
    RunCons(h, e, [attach]);
  }

  /** An INIT for a tab with nothing stored posts nothing. */
  lemma AttachToEmpty(h: State, tab: TabId, port: Port)
    requires Bounded(h) && StoreOf(h, tab) == []
    ensures Run(h, [PortMsg(port, PortMessage(INIT, tab))]).out == []
  {
    var attach := PortMsg(port, PortMessage(INIT, tab));
    assert Apply(h, attach).out == [];
    RunCons(h, attach, []);
    assert [attach] + [] == [attach];
  }

  /** Detaching one observer never disturbs another: inserting the disconnect of
      another port anywhere into a run changes nothing of what a port holding a slot
      receives, which is every record accepted for its tab. */
  lemma DetachIsolated(h: State, stay: PortId, kind: string, tab: TabId, leave: Port, es: seq<Event>, i: nat)
    requires Bounded(h)
    requires stay != leave.id
    requires SoleSlot(h, stay, kind, tab)
    requires i <= |es|
    requires forall j :: 0 <= j < |es| ==> KeepsSlotOf(es[j], stay, kind, tab)
    ensures PostsTo(Run(h, es[..i] + [Disconnect(leave)] + es[i..]).out, stay)
            == PostsTo(Run(h, es).out, stay) == Accepted(es, tab)
  {
    var es' := es[..i] + [Disconnect(leave)] + es[i..];
    InsertKeepsSlot(es, i, Disconnect(leave), stay, kind, tab);
    LiveDelivery(h, es', stay, kind, tab);
    LiveDelivery(h, es, stay, kind, tab);
    AcceptedInsert(es, i, Disconnect(leave), tab);
  }

  lemma InsertKeepsSlot(es: seq<Event>, i: nat, e: Event, p: PortId, kind: string, tab: TabId)
    requires i <= |es| && KeepsSlotOf(e, p, kind, tab)
    requires forall j :: 0 <= j < |es| ==> KeepsSlotOf(es[j], p, kind, tab)
    ensures var es' := es[..i] + [e] + es[i..];
      forall j :: 0 <= j < |es'| ==> KeepsSlotOf(es'[j], p, kind, tab)
  {
    var es' := es[..i] + [e] + es[i..];
    forall j | 0 <= j < |es'|
      ensures KeepsSlotOf(es'[j], p, kind, tab)
    {
      if j < i {
        assert es'[j] == es[j];
      } else if j > i {
        assert es'[j] == es[j - 1];
      }
    }
  }

  /** Inserting an event that accepts nothing leaves the accepted records as they are. */
  lemma AcceptedInsert(es: seq<Event>, i: nat, e: Event, tab: TabId)
    requires i <= |es| && AcceptedBy(e, tab) == []
    ensures Accepted(es[..i] + [e] + es[i..], tab) == Accepted(es, tab)
  {
    var a, b := es[..i], es[i..];
    AcceptedMiddle(a, e, b, tab);
    AcceptedAppend(a, b, tab);
    assert a + b == es;
  }

  lemma AcceptedMiddle(a: seq<Event>, e: Event, b: seq<Event>, tab: TabId)
    requires AcceptedBy(e, tab) == []
    ensures Accepted(a + [e] + b, tab) == Accepted(a, tab) + Accepted(b, tab)
  {
    AcceptedOne(e, tab);
    AcceptedAppend(a, [e], tab);
    AcceptedAppend(a + [e], b, tab);
    assert Accepted(a, tab) + [] == Accepted(a, tab);
  }

  lemma AcceptedOne(e: Event, tab: TabId)
    ensures Accepted([e], tab) == AcceptedBy(e, tab)
  {
    assert [e][0] == e && [e][1..] == [];
  }

  /** The records accepted over two runs in a row are those of the first, then those
      of the second. */
  lemma {:induction false} AcceptedAppend(a: seq<Event>, b: seq<Event>, tab: TabId)
    ensures Accepted(a + b, tab) == Accepted(a, tab) + Accepted(b, tab)
    decreases |a|
  {
    if |a| == 0 {
      assert a + b == b;
    } else {
      var ab := a + b;
      assert ab[0] == a[0];
      assert ab[1..] == a[1..] + b;
      AcceptedAppend(a[1..], b, tab);
      assert Accepted(ab, tab) == AcceptedBy(a[0], tab) + Accepted(a[1..] + b, tab);
      ConcatAssoc(AcceptedBy(a[0], tab), Accepted(a[1..], tab), Accepted(b, tab));
    }
  }
}
