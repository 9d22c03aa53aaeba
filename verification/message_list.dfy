/** The message list each observer keeps: every record it has been sent, the type
    filter and search text chosen by the user, the list items on screen, the "no
    messages" placeholder, the count label and the selection. The popup and the
    panel run the same machine; only their count labels differ. */
module MessageList {
  import opened Wrappers
  import opened Text
  import opened Events

  datatype Observer = Popup | Panel

  /** The type filter: `'ALL'` or one notification type. */
  datatype Filter = All | Only(kind: Kind)

  /** `msg.url || ''`. */
  function UrlOrEmpty(m: Record): string {
    m.url.GetOr("")
  }

  /** `msg.payload || ''`, read through `String(...)` when it is not a string. */
  function PayloadOrEmpty(m: Record): string {
    if Truthy(m.payload) then Shown(m.payload.value) else ""
  }

  /** `shouldShow`: the filter admits the message's type, and the search text is
      empty or occurs, ignoring case, in its URL or its payload. */
  function ShouldShow(m: Record, f: Filter, search: string): (r: bool)
    // the type filter always applies
    ensures r ==> f.All? || f.kind == m.kind
    // the empty search admits every message the type filter lets through
    ensures search == "" ==> (r <==> f.All? || f.kind == m.kind)
  {
    && (f.All? || f.kind == m.kind)
    && (search == ""
        || Contains(Lower(UrlOrEmpty(m)), Lower(search))
        || Contains(Lower(PayloadOrEmpty(m)), Lower(search)))
  }

  /** Only the empty string occurs in the empty string. */
  lemma ContainsInEmpty(t: string)
    requires Contains("", t)
    ensures t == ""
  {
  }

  /** Narrowing the search never brings a hidden message back: whatever a longer
      search shows, any part of it shows too. */
  lemma SearchNarrows(m: Record, f: Filter, wide: string, narrow: string)
    requires ShouldShow(m, f, narrow)
    requires Contains(narrow, wide)
    ensures ShouldShow(m, f, wide)
  {
    if wide != "" {
      if narrow == "" {
        ContainsInEmpty(wide);
      }
      ContainsLower(narrow, wide);
      if Contains(Lower(UrlOrEmpty(m)), Lower(narrow)) {
        ContainsTransitive(Lower(UrlOrEmpty(m)), Lower(narrow), Lower(wide));
      } else {
        ContainsTransitive(Lower(PayloadOrEmpty(m)), Lower(narrow), Lower(wide));
      }
    }
  }

  lemma LowerTwice(s: string)
    ensures Lower(Lower(s)) == Lower(s)
  {
    assert forall i :: 0 <= i < |s| ==> Lower(Lower(s))[i] == Lower(s)[i];
  }

  /** The search ignores case: searching for the lower-cased text shows the same
      messages. */
  lemma SearchIgnoresCase(m: Record, f: Filter, search: string)
    ensures ShouldShow(m, f, Lower(search)) == ShouldShow(m, f, search)
  {
    LowerTwice(search);
  }

  /** A message without URL and payload matches no search text but the empty one. */
  lemma BareMessageMatchesNoSearch(m: Record, f: Filter, search: string)
    requires UrlOrEmpty(m) == "" && !Truthy(m.payload)
    ensures ShouldShow(m, f, search) <==> (f.All? || f.kind == m.kind) && search == ""
  {
    if ShouldShow(m, f, search) && search != "" {
      ContainsInEmpty(Lower(search));
    }
  }

  /** Which messages `shouldShow` admits. */
  function Flags(ms: seq<Record>, f: Filter, search: string): (r: seq<bool>)
    ensures |r| == |ms|
    ensures forall i :: 0 <= i < |ms| ==> r[i] == ShouldShow(ms[i], f, search)
  {
    seq(|ms|, i requires 0 <= i < |ms| => ShouldShow(ms[i], f, search))
  }

  /** The positions holding `true`, in order. */
  function Indices(flags: seq<bool>): seq<nat>
    decreases |flags|
  {
    if |flags| == 0 then []
    else
      var rest := Indices(flags[..|flags| - 1]);
      if flags[|flags| - 1] then rest + [|flags| - 1] else rest
  }

  /** One step of `Indices`. */
  lemma IndicesStep(flags: seq<bool>)
    requires |flags| > 0
    ensures Indices(flags) == Indices(flags[..|flags| - 1]) + (if flags[|flags| - 1] then [|flags| - 1] else [])
  {
  }

  /** `Indices` lists only positions holding `true`. */
  lemma {:induction false} IndicesSound(flags: seq<bool>)
    ensures forall j :: 0 <= j < |Indices(flags)| ==> Indices(flags)[j] < |flags| && flags[Indices(flags)[j]]
    decreases |flags|
  {
    if |flags| > 0 {
      var last := |flags| - 1;
      var init := flags[..last];
      IndicesSound(init);
      var rest := Indices(init);
      var r := Indices(flags);
      IndicesStep(flags);
      forall j | 0 <= j < |r|
        ensures r[j] < |flags| && flags[r[j]]
      {
        if j < |rest| {
          assert r[j] == rest[j];
          assert init[rest[j]] == flags[rest[j]];
        }
      }
    }
  }

  /** `Indices` lists every position holding `true`. */
  lemma {:induction false} IndicesComplete(flags: seq<bool>)
    ensures forall i :: 0 <= i < |flags| && flags[i] ==> i in Indices(flags)
    decreases |flags|
  {
    if |flags| > 0 {
      var last := |flags| - 1;
      var init := flags[..last];
      IndicesComplete(init);
      var r := Indices(flags);
      IndicesStep(flags);
      forall i | 0 <= i < |flags| && flags[i]
        ensures i in r
      {
        if i < last {
          assert init[i] == flags[i];
        }
      }
    }
  }

  /** `Indices` lists positions in increasing order, so each at most once. */
  lemma {:induction false} IndicesSorted(flags: seq<bool>)
    ensures forall j, k :: 0 <= j < k < |Indices(flags)| ==> Indices(flags)[j] < Indices(flags)[k]
    decreases |flags|
  {
    if |flags| > 0 {
      var last := |flags| - 1;
      var init := flags[..last];
      IndicesSorted(init);
      IndicesSound(init);
      var rest := Indices(init);
      var r := Indices(flags);
      IndicesStep(flags);
      forall j, k | 0 <= j < k < |r|
        ensures r[j] < r[k]
      {
        assert r[j] == rest[j];
        if k < |rest| {
          assert r[k] == rest[k];
        }
      }
    }
  }

  /** The indices of the messages `shouldShow` admits, in order: what
      `renderMessages` puts on screen. */
  function Visible(ms: seq<Record>, f: Filter, search: string): seq<nat> {
    Indices(Flags(ms, f, search))
  }

  /** The items on screen are exactly the admitted messages, each once and in
      message order. */
  lemma VisibleExact(ms: seq<Record>, f: Filter, search: string)
    ensures forall j :: 0 <= j < |Visible(ms, f, search)| ==>
      Visible(ms, f, search)[j] < |ms| && ShouldShow(ms[Visible(ms, f, search)[j]], f, search)
    ensures forall i :: 0 <= i < |ms| && ShouldShow(ms[i], f, search) ==> i in Visible(ms, f, search)
    ensures forall j, k :: 0 <= j < k < |Visible(ms, f, search)| ==>
      Visible(ms, f, search)[j] < Visible(ms, f, search)[k]
  {
    var flags := Flags(ms, f, search);
    IndicesSound(flags);
    IndicesComplete(flags);
    IndicesSorted(flags);
  }

  lemma VisibleAppend(ms: seq<Record>, m: Record, f: Filter, search: string)
    ensures Visible(ms + [m], f, search)
      == Visible(ms, f, search) + (if ShouldShow(m, f, search) then [|ms|] else [])
  {
    var flags := Flags(ms + [m], f, search);
    assert flags[..|ms|] == Flags(ms, f, search);
  }

  /** The count label: `count + ' / ' + messages.length` in the popup, followed by
      `' messages'` in the panel. */
  function CountLabel(o: Observer, visible: nat, total: nat): string {
    NatToString(visible) + " / " + NatToString(total) + (if o == Panel then " messages" else "")
  }

  /** The label can be read back: the digits before ` / ` are the visible count and
      the digits after it the total. */
  lemma CountLabelReadsBack(o: Observer, visible: nat, total: nat)
    ensures var l := CountLabel(o, visible, total);
      var v := |NatToString(visible)|;
      var t := |NatToString(total)|;
      && v + 3 + t <= |l|
      && ReadDigits(l[..v]) == visible
      && l[v..v + 3] == " / "
      && ReadDigits(l[v + 3..v + 3 + t]) == total
      && (o == Panel <==> l[v + 3 + t..] == " messages")
  {
    var l := CountLabel(o, visible, total);
    var v := |NatToString(visible)|;
    var t := |NatToString(total)|;
    assert l[..v] == NatToString(visible);
    assert l[v + 3..v + 3 + t] == NatToString(total);
    ReadNatToString(visible);
    ReadNatToString(total);
  }

  /** The observer's state: `messages`, `currentFilter`, `searchText`, the message
      indices of the list items on screen in screen order, whether the placeholder
      is displayed, the count label, `selectedIndex`, and whether the detail panel
      is open. */
  datatype List = List(
    observer: Observer,
    messages: seq<Record>,
    filter: Filter,
    search: string,
    items: seq<nat>,
    placeholder: bool,
    countLabel: string,
    selected: int,
    detailOpen: bool)

  /** What the user and the hub can do to the list. */
  datatype Event =
    | Arrive(m: Record)
    | ClearAll
    | ChooseFilter(f: Filter)
    | Type(search: string)
    | Click(index: nat)
    | CloseDetail

  /** The screen agrees with the data: the items on screen are exactly the messages
      the current filter and search admit, the label counts them, the placeholder
      never covers an item, and the detail panel is open exactly when a message is
      selected, which is always one that exists. */
  predicate Valid(v: List) {
    && v.items == Visible(v.messages, v.filter, v.search)
    && v.countLabel == CountLabel(v.observer, |v.items|, |v.messages|)
    && (v.placeholder ==> v.items == [])
    && -1 <= v.selected < |v.messages|
    && (v.detailOpen <==> v.selected >= 0)
  }

  /** `renderMessages`: rebuild the items from the messages. */
  function Render(v: List): (r: List)
    ensures r.messages == v.messages && r.filter == v.filter && r.search == v.search
    ensures r.selected == v.selected && r.detailOpen == v.detailOpen
    ensures forall i :: 0 <= i < |v.messages| ==> (i in r.items <==> ShouldShow(v.messages[i], v.filter, v.search))
    ensures r.placeholder <==> forall i :: 0 <= i < |v.messages| ==> !ShouldShow(v.messages[i], v.filter, v.search)
    ensures -1 <= v.selected < |v.messages| && (v.detailOpen <==> v.selected >= 0) ==> Valid(r)
  {
    var items := Visible(v.messages, v.filter, v.search);
    VisibleExact(v.messages, v.filter, v.search);
    assert forall i | i in items :: i < |v.messages| && ShouldShow(v.messages[i], v.filter, v.search);
    assert items != [] ==> items[0] in items;
    v.(items := items, placeholder := items == [],
       countLabel := CountLabel(v.observer, |items|, |v.messages|))
  }

  /** The state before any message arrives. */
  function Initial(o: Observer): (r: List)
    ensures Valid(r) && r.messages == [] && r.placeholder && r.selected == -1
    ensures r.filter == All && r.search == "" && r.items == [] && !r.detailOpen
  {
    Render(List(o, [], All, "", [], true, "", -1, false))
  }

  /** `addMessage`: append the record, hide the placeholder, append an item when the
      record is shown, and recount the items on screen. */
  function AddMessage(v: List, m: Record): (r: List)
    requires Valid(v)
    ensures Valid(r)
    ensures r.messages == v.messages + [m]
    ensures !r.placeholder
    ensures r.(placeholder := Render(r).placeholder) == Render(r)
  {
    var items := if ShouldShow(m, v.filter, v.search) then v.items + [|v.messages|] else v.items;
    VisibleAppend(v.messages, m, v.filter, v.search);
    v.(messages := v.messages + [m], placeholder := false, items := items,
       countLabel := CountLabel(v.observer, |items|, |v.messages| + 1))
  }

  /** The clear button: forget every message and the selection, close the detail,
      re-render. */
  function Clear(v: List): (r: List)
    ensures Valid(r)
    ensures r.messages == [] && r.items == [] && r.placeholder
    ensures r.selected == -1 && !r.detailOpen
    ensures r.filter == v.filter && r.search == v.search
    ensures r.countLabel == CountLabel(v.observer, 0, 0)
  {
    Render(v.(messages := [], selected := -1, detailOpen := false))
  }

  /** A filter button: remember the filter, re-render. */
  function SetFilter(v: List, f: Filter): (r: List)
    requires Valid(v)
    ensures Valid(r) && r.filter == f
    ensures r.messages == v.messages && r.search == v.search && r.selected == v.selected
  {
    Render(v.(filter := f))
  }

  /** Typing in the search box: remember the text, re-render. */
  function SetSearch(v: List, search: string): (r: List)
    requires Valid(v)
    ensures Valid(r) && r.search == search
    ensures r.messages == v.messages && r.filter == v.filter && r.selected == v.selected
  {
    Render(v.(search := search))
  }

  /** `selectMessage`: remember the index and open the detail panel. */
  function Select(v: List, index: nat): (r: List)
    requires Valid(v)
    requires index < |v.messages|
    ensures Valid(r) && r.selected == index && r.detailOpen
    ensures r.(selected := v.selected, detailOpen := v.detailOpen) == v
  {
    v.(selected := index, detailOpen := true)
  }

  /** The close button of the detail panel. */
  function Unselect(v: List): (r: List)
    requires Valid(v)
    ensures Valid(r) && r.selected == -1 && !r.detailOpen
    ensures r.(selected := v.selected, detailOpen := v.detailOpen) == v
  {
    v.(selected := -1, detailOpen := false)
  }

  /** An event the page can deliver: an item can only be clicked for a message that
      exists. */
  predicate Enabled(v: List, e: Event) {
    e.Click? ==> e.index < |v.messages|
  }

  function Step(v: List, e: Event): (r: List)
    requires Valid(v) && Enabled(v, e)
    ensures Valid(r)
    ensures r.observer == v.observer
    ensures !e.ClearAll? ==> r.messages == v.messages + (if e.Arrive? then [e.m] else [])
  {
    match e
    case Arrive(m) => AddMessage(v, m)
    case ClearAll => Clear(v)
    case ChooseFilter(f) => SetFilter(v, f)
    case Type(search) => SetSearch(v, search)
    case Click(index) => Select(v, index)
    case CloseDetail => Unselect(v)
  }

  /** Runs events from a state for as long as each one is enabled. */
  function Run(v: List, es: seq<Event>): (r: List)
    requires Valid(v)
    ensures Valid(r)
    decreases |es|
  {
    if |es| == 0 || !Enabled(v, es[0]) then v else Run(Step(v, es[0]), es[1..])
  }

  /** Every message that arrives is kept, in arrival order, until the list is cleared:
      with no clear among the events, the messages are the old ones followed by the
      arrivals. */
  function Arrivals(es: seq<Event>): seq<Record> {
    if |es| == 0 then []
    else (if es[0].Arrive? then [es[0].m] else []) + Arrivals(es[1..])
  }

  /** No clear among the events, and every click names a message among the first
      `n`. */
  predicate Growing(es: seq<Event>, n: nat) {
    forall j :: 0 <= j < |es| ==> !es[j].ClearAll? && (es[j].Click? ==> es[j].index < n)
  }

  lemma GrowingTail(es: seq<Event>, n: nat, m: nat)
    requires |es| > 0 && Growing(es, n) && n <= m
    ensures Growing(es[1..], m)
  {
    forall j | 0 <= j < |es[1..]|
      ensures !es[1..][j].ClearAll? && (es[1..][j].Click? ==> es[1..][j].index < m)
    {
      assert es[1..][j] == es[j + 1];
    }
  }

  lemma RunUnfold(v: List, es: seq<Event>)
    requires Valid(v) && |es| > 0 && Enabled(v, es[0])
    ensures Run(v, es) == Run(Step(v, es[0]), es[1..])
  {
  }

  lemma {:induction false} RunKeepsArrivals(v: List, es: seq<Event>)
    requires Valid(v)
    requires Growing(es, |v.messages|)
    ensures Run(v, es).messages == v.messages + Arrivals(es)
    decreases |es|
  {
    if |es| > 0 {
      assert Enabled(v, es[0]) && !es[0].ClearAll?;
      var w := Step(v, es[0]);
      var now := if es[0].Arrive? then [es[0].m] else [];
      assert w.messages == v.messages + now;
      GrowingTail(es, |v.messages|, |w.messages|);
      RunKeepsArrivals(w, es[1..]);
      RunUnfold(v, es);
      var tail := Arrivals(es[1..]);
      assert Arrivals(es) == now + tail;
      assert Run(v, es).messages == (v.messages + now) + tail;
      ConcatAssoc(v.messages, now, tail);
    }
  }
}
