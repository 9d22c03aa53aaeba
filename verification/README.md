# websocket-sniffer, modelled in Dafny

websocket-sniffer is a browser extension that records the WebSocket traffic of a
page. It has five parts, each modelled here as pure functions over immutable values:

- **Interceptor** (`inject.js`, module `Interceptor`). It runs in the page. It wraps
  the `WebSocket` constructor and gives every socket the next connection id of its
  execution context. It reports CONNECT, SEND, RECEIVE, CLOSE and ERROR
  notifications, and replaces binary frames by size placeholders.
- **Bridge** (`content.js`, module `Bridge`). It runs in the isolated world. It keeps
  the events that carry the sniffer tag, stamps them with the frame's URL, and hands
  them to the extension runtime. It swallows any failure to do so.
- **Hub** (`background.js`, module `Hub`). It is the service worker. It keeps a
  bounded FIFO history per tab, sets the badge, and fans each record out to the
  tab's devtools port and popup port. When an observer sends `init`, it replays the
  history to that observer. It forgets a tab's history when the tab closes or starts
  loading.
- **Observers** (`popup.js`, `panel.js`). Five modules model them:
  - `Classifier`: payload classification.
  - `JsonView`: the JSON highlighters.
  - `XmlFormat` and `XmlLayout`: the XML re-indenters.
  - `MessageList`: the message-list state machine with its filter and search.
- **Pipeline**: one notification followed end to end.

Supporting modules:
- `Wrappers`: `Option`.
- `Text`: JavaScript string operations over `seq<char>`.
- `Events`: the notification record.

The outside world is a set of parameters:
- `JSON.parse` and `DOMParser` are oracle functions in `Classifier.Parsers`.
- `escapeHtml` and the string quoting of `JSON.stringify` are abstract functions.
- Each `executeScript` outcome is a boolean.
- Clocks become a timestamp argument.
- Everything the hub sends becomes an `Output` list: port posts, badge calls and
  script injections.

The XML layout results are stated for `Good` trees (`XmlLayout.Good`):
- elements with child elements, elements holding only text, and empty elements written `<name/>`;
- every element name is one or more of `A-Z`, `a-z`, `0-9` and `_`;
- inline text is non-empty, does not start with whitespace, and holds no `<`, `>` or line terminator;
- no attributes, processing instructions or comments;
- the compact form has no whitespace between tags.

Where the extension's design description and its code differ, the model follows
the code:
- When a `postMessage` fails, the code does not remove the port.
- Tab removal and navigation drop the tab's history and injected mark, but leave
  its port slots in place (background.js:41-51).
- Nothing in the interceptor stops a CLOSE from following an ERROR on the same socket.

## Model

| member | source | states |
|---|---|---|
| Hub.Push | background.js:121-123 | the store grows by one until it holds 500 records, then stays at 500 |
| Hub.PushFifo | background.js:121-123 | the new record is last; below the bound nothing is dropped; at the bound exactly the oldest is dropped; the survivors keep their order |
| Hub.BadgeText | background.js:126-127 | the badge reads `99+` exactly when the count exceeds 99; otherwise it is the count's decimal digits: one or two of them, no leading zero, reading back as the count |
| Hub.FanOut | background.js:127-135 | the badge is set first; each port receives one copy of the record per slot of the sending tab that it holds, and no other port receives anything |
| Hub.OnMessage | background.js:115-136 | a request without a tab, or with an action other than `ws_message`, changes nothing and outputs nothing; otherwise only the sender's store changes, by `Push`, the slots are untouched, and the posts are those of `FanOut` |
| Hub.OnMessageTouchesOneTab | background.js:118-123 | another tab's store is unchanged; the sending tab's store is pushed |
| Hub.Replay | background.js:64-68 | the replay posts exactly the store, oldest first, to the given port and nothing to any other port |
| Hub.OnPortMessage | background.js:54-111 | `init` on a devtools or popup port overwrites that kind's slot for the tab and replays the tab's store (nothing if there is none) to that port only; any other message or port name changes nothing |
| Hub.RemoveFirstHolder | background.js:75-80 | the disconnect scan removes the holding slot with the smallest tab id, and nothing when the port holds no slot |
| Hub.OnDisconnect | background.js:73-81 | only the slots of the port's kind can change; the slots of every other port are unchanged; a port that held at most one slot holds none afterwards |
| Hub.SingleHolderRemoved | background.js:75-80 | when the port holds at most one slot, the scan leaves it holding none |
| Hub.DisconnectIdempotent | background.js:73-81 | for a port holding at most one slot of each kind, disconnecting it a second time changes nothing |
| Hub.OnRemoved | background.js:41-44 | the tab's store and injected mark are gone; other tabs and all port slots are unchanged |
| Hub.OnUpdated | background.js:46-51 | status `loading` acts as tab removal; any other update changes nothing |
| Hub.InjectScripts | background.js:10-38 | an injected tab is left alone; otherwise inject.js goes into the page's world first, content.js is attempted only if that succeeded, and the tab is marked and badged ON only if both succeeded |
| Hub.InjectIdempotent | background.js:10-29 | after a successful injection the next one outputs nothing; after a failed one it behaves as the first |
| Hub.Apply | background.js:41-136 | every handler keeps each store within 500 records; only observer-port messages and disconnects move port slots; only records and observer messages post to ports; disconnects and tab removals or updates output nothing |
| Hub.Run | background.js:41-136 | through any sequence of events, each store stays within 500 records |
| Hub.RunAppend | background.js:41-136 | handling two sequences of events in a row is handling the second from the state the first leaves, with the first's outputs first |
| Hub.StoresStayBounded | background.js:121-123 | from the start, no store ever exceeds 500 records |
| Hub.LiveDelivery | background.js:54-135 | a port holding exactly one slot receives exactly the records accepted for that slot's tab, in order, for as long as it keeps the slot; other observers may attach, re-attach and disconnect meanwhile |
| Hub.ReplayThenLive | background.js:54-135 | an observer attaching with `init` receives the stored history, then every later accepted record, with nothing missing or repeated, for as long as it keeps its slot, whatever other observers do meanwhile |
| Hub.StoreIsRecentSuffix | background.js:121-123 | after any run, a tab's store is a suffix of its old store followed by the records accepted for it |
| Hub.DropThenAttachReplaysNothing | background.js:41-68 | after tab removal or a `loading` update, an attaching observer is replayed nothing |
| Hub.DetachIsolated | background.js:73-110 | inserting another port's disconnect anywhere into a run leaves what a slot-holding port receives unchanged: every record accepted for its tab |
| Interceptor.PlaceholderRule | inject.js:34-39 | an ArrayBuffer is reported as `[ArrayBuffer] length=` and a Blob as `[Blob] size=`, each followed by the size's decimal digits, with no leading zero, reading back as the size; other data passes through unchanged |
| Interceptor.Construct | inject.js:15-29 | if the real constructor throws, nothing is reported and no id is taken; otherwise the socket takes id `lastId + 1`, never used before, and its CONNECT is reported just before the socket is returned |
| Interceptor.SendOn | inject.js:33-50 | SEND carrying the placeholder is reported, then the real `send` is called with the unmodified data |
| Interceptor.ReceiveOn | inject.js:53-69 | RECEIVE is reported with the same placeholder rule |
| Interceptor.CloseOn | inject.js:72-82 | CLOSE carries the event's code and reason as given, and no payload |
| Interceptor.ErrorOn | inject.js:85-93 | ERROR carries no payload, code or reason |
| Interceptor.NotificationsNameTheirSocket | inject.js:20-29 | every notification carries the sniffer tag, an id that was handed out, and that socket's URL |
| Interceptor.ReportsPrecedeEffects | inject.js:23-49 | a socket reaches the page only right after its CONNECT; the real `send` runs only right after the SEND for the same data |
| Interceptor.IdsCountFromOne | inject.js:6-20 | the n-th socket a fresh context builds has id n |
| Interceptor.BuildAllIds | inject.js:20 | ids go up by exactly one per constructed socket |
| Bridge.OnSnifferEvent | content.js:5-22 | a falsy detail or a wrong tag is dropped; any other record is forwarded as `ws_message` with `frameUrl` set to the frame's URL and no other field changed; a failing send is swallowed |
| Bridge.SendFailureOnlyLosesTheEnvelope | content.js:14-21 | whether the runtime is up decides only whether the envelope arrives, never its contents |
| Classifier.ParsePopup | popup.js:24-48 | a non-string payload is TEXT of its `String` form; JSON exactly when `JSON.parse` accepts, even for markup; XML exactly when the payload is not JSON, its trimmed text starts with `<`, and the parser reports no error; `raw` is always the payload |
| Classifier.ParsePanel | panel.js:22-46 | panel classification: the XML gate also needs the trimmed text to end with `>`, and XML keeps the payload string as `parsed`; it differs from the popup exactly on non-JSON, parser-accepted payloads whose trimmed text starts with `<` but does not end with `>`, which it calls TEXT |
| Classifier.CopiedText | popup.js:167-177 | an empty payload copies `''`; TEXT copies the raw payload; JSON copies `JSON.stringify(value, null, 2)` |
| Classifier.CopiedXmlTree | popup.js:167-198 | copying the compact form of a `Good` tree gives one tag per line, two spaces deeper per enclosing element |
| Classifier.SelectInPanel | panel.js:222-264 | the no-payload view is chosen exactly for a message without a payload that is not CONNECT; it shows `No payload data` unless the message is CLOSE, which shows the code; no classification happens there; a payload view is labelled with the panel's classification |
| Classifier.CloseDetailReadsBack | panel.js:235-242 | in the CLOSE detail, the digits after `Code: ` read back as the close code, and the reason follows the line break; an empty or missing reason shows as `(none)` |
| JsonView.ContainerShape | popup.js:77-91 | an empty array renders as `[]` and an empty object as `{}`; other containers open with the bracket and a line break, and close on their own line at the container's indentation |
| JsonView.Highlight | popup.js:63-91 | a top-level array or object starts with its opening bracket and ends with its closing bracket; unless empty, a line break follows the opening bracket and the closing bracket starts the last line, unindented |
| JsonView.Stringify | popup.js:167-171 | the copied JSON of an array or object has the same bracket layout as its highlighted form |
| JsonView.PrettyShift | panel.js:60-94 | for a value none of whose leaves or keys prints a line break, each level of nesting adds two spaces: rendering at depth d + k is rendering at depth d with 2k more spaces after every line break |
| JsonView.ObjectLines | popup.js:81-89 | an object whose keys and values each print on one line renders as `{`, then one line per entry in the order `Object.keys` lists them, `key: value` two spaces deeper with a `,` after every entry but the last, then `}` at the object's own indentation |
| JsonView.ArrayLines | popup.js:73-79 | an array whose items each print on one line renders as `[`, one line per item in order, two spaces deeper with a `,` after every item but the last, then `]` at the array's own indentation |
| XmlFormat.FormatXmlRaw | popup.js:179-198 | the copied XML never ends in whitespace |
| XmlFormat.FormatXml | panel.js:104-114 | the panel's formatted XML neither starts nor ends with whitespace |
| XmlFormat.IndentOfLine | popup.js:182-196 | closed form of the indenter: each line's indent is two spaces times the running level, clamped at zero, so no indent is ever negative |
| XmlFormat.IndentedAppend | panel.js:108-112 | indenting a concatenation indents the second part from the level the first part leaves |
| XmlFormat.BreakAdjacentInsertsBreaks | panel.js:107 | the panel's replacement inserts one line break between every `>` and an immediately following `<`, keeping any slashes |
| XmlFormat.FormatXmlRawOnlyWhitespace | popup.js:179-198 | `formatXmlRaw` keeps every non-whitespace character of the input, in order, and adds none |
| XmlFormat.FormatXmlOnlyWhitespace | panel.js:104-114 | `formatXml` keeps every non-whitespace character of the input, in order, and adds none |
| XmlFormat.InsertBreaksSeparates | panel.js:107 | after the replacement, a `>` is never immediately followed by `<` |
| XmlFormat.KeptTrimmed | popup.js:184-186 | every line the popup goes on to indent is non-empty and trimmed at both ends: blank lines are skipped |
| XmlFormat.SpaceRunIsMaximal | popup.js:183 | the `\s*` between `>` and `<` in the popup's break pattern is greedy: it takes every leading whitespace character and stops at the first other one |
| XmlFormat.SlashRunIsMaximal | panel.js:107 | the `\/*` after `<` in the panel's break pattern is greedy: it takes every leading slash and stops at the first other character |
| XmlLayout.LaysOut | popup.js:186-195 | for any line rule under which every tag of a tree opens or closes as it should, the indenter produces the intended layout and returns to the starting level |
| XmlLayout.PopupLaysOut | popup.js:186-195 | the popup's line rule fits every `Good` tree |
| XmlLayout.FormatXmlRawOfTree | popup.js:179-198 | `formatXmlRaw` of the compact form of a `Good` tree is the intended layout: one tag per line, two spaces per enclosing element |
| XmlLayout.FormatXmlOfTree | panel.js:104-114 | `formatXml` of the compact form of a `Good` tree splits it one tag per line and indents by the panel's line rule |
| XmlLayout.PanelDriftsAfterInlineText | panel.js:111 | as written, two sibling elements with inline text drift right; the corrected rule lays them out flat |
| XmlLayout.PanelIgnoresOneLetterTags | panel.js:111 | as written, a one-letter element does not indent its child; the corrected rule does |
| XmlLayout.FixedFormatXmlOfTree | panel.js:104-114 | with the corrected opening rule, `formatXml` of the compact form of a `Good` tree is the intended layout, the same as `formatXmlRaw` |
| MessageList.ShouldShow | popup.js:214-222 | a message outside the chosen type is never shown; with an empty search, every message of the chosen type is shown |
| MessageList.Initial | popup.js:5-8 | before any message the list is empty, unfiltered, unsearched and consistent, with the placeholder shown, no item listed, nothing selected and the detail closed |
| MessageList.SearchNarrows | popup.js:214-222 | if a message is shown for a search text, it is shown for every part of that text |
| MessageList.SearchIgnoresCase | panel.js:118-129 | searching for the lower-cased text shows the same messages |
| MessageList.BareMessageMatchesNoSearch | popup.js:217-220 | a missing URL or payload counts as `''`, so a message with neither matches only the empty search |
| MessageList.VisibleExact | popup.js:271-277 | the rendered items are exactly the messages `shouldShow` admits, each once, in message order |
| MessageList.CountLabelReadsBack | panel.js:202 | the count label reads back as the visible count, ` / `, the total, and ` messages` in the panel only |
| MessageList.Render | popup.js:268-281 | after rendering, an index is listed exactly when its message is admitted, and the placeholder shows exactly when none is |
| MessageList.AddMessage | popup.js:283-294 | appending keeps the screen consistent; the placeholder is hidden even if the new message is filtered out; the rest equals a full re-render |
| MessageList.Clear | popup.js:370-377 | clear empties the messages, resets the selection, closes the detail, shows the placeholder, and labels `0 / 0` |
| MessageList.SetFilter | popup.js:380-387 | a filter change re-renders with the new filter and keeps messages, search and selection |
| MessageList.SetSearch | panel.js:289-292 | a search change re-renders with the new text and keeps messages, filter and selection |
| MessageList.Select | popup.js:344-365 | selecting opens the detail on an existing message and changes nothing else |
| MessageList.Unselect | panel.js:295-301 | closing the detail clears the selection and changes nothing else |
| MessageList.Step | panel.js:205-301 | every user or hub event keeps the screen consistent with the data; only arrivals add messages and only clear removes them |
| MessageList.RunKeepsArrivals | panel.js:205-220 | without a clear, the messages are the earlier ones followed by every arrival, in order |
| Pipeline.NotificationReachesPanel | content.js:5-22 | a notification the interceptor dispatched passes the bridge, reaches the tab's devtools port first among that port's posts with only `frameUrl` added, and is listed by a panel with no filter and no search |

## Left out

- Browser and extension APIs are outputs or parameters, not calls. This covers `chrome.scripting`, `chrome.action`, `chrome.runtime` and `chrome.tabs`.
- Hub.InjectScripts: the `await`s are collapsed into one atomic step. That step happens after the `init` that starts it, so other events cannot interleave with the two injections. The code marks the tab only after both awaits (background.js:29) and inject.js has no re-entry guard, so a devtools `init` and a popup `init` for the same tab arriving before the first injection finishes would inject both scripts twice and double every notification; the model's single `Injection` event does not show this.
- A `postMessage` to a dead port is assumed to succeed. The code neither catches nor removes such a port.
- `JSON.parse`, `DOMParser`, `escapeHtml` and the string quoting of `JSON.stringify` are foreign code, so they stay abstract.
- The printed text of JSON numbers is a float formatting, so each number carries its text.
- The `JSON.parse(JSON.stringify(...))` copy in the interceptor's `notify` is taken as the identity on plain records.
- `highlightXmlNode`/`highlightXmlDoc` (popup) and `syntaxHighlightXml` (panel) walk the DOM or rewrite escaped HTML, so they are left out.
- DOM rendering is left out: list-item markup, previews, direction labels, detail tabs, the popup's detail pane, scrolling, clipboard and timers.
- The panel's content for CONNECT and payload messages is left out. Only which view is chosen, and the classification behind it, are kept.
- `formatTime` depends on `Date` and locale, so it is left out.
- The interceptor's prototype and static-constant copying is left out. So are the `protocols` argument and the extra socket methods.
- The test server is left out.
- JsonView.PrettyShift: a string or key whose spelled form holds a line break (`escapeHtml` passes `\n` through) is not covered. The break is printed raw, so the lines after it are not re-indented at a deeper level; `{"a":"x\ny"}` is such a value.
- JsonView.ObjectLines: covers objects whose keys and values print on one line each. A value that is itself a non-empty container spans several lines; `ContainerShape` and `PrettyShift` describe those.
- Hub.LiveDelivery: covers a port holding exactly one slot. A port that re-sent `init` for a second tab, or holds slots of both kinds, is not covered; its disconnect empties only one of its slots.
- Strings are sequences of Unicode scalar values, whereas JavaScript strings are UTF-16 code units. Lengths and indices in `trim`, `includes` and `toLowerCase` therefore differ on characters outside the Basic Multilingual Plane.
- MessageList.ShouldShow: `toLowerCase` maps only ASCII letters here.
- MessageList.ShouldShow: a non-string truthy payload is searched through its `String` text. The code calls `toLowerCase` on it and would throw.
- MessageList.Initial: the observers' HTML page is not part of this model. The state before the first message is taken to be the rendering of an empty list.
- MessageList.Select: the popup's `currentMsg`/`currentParsed` are the selected message and its classification. They are not kept as separate fields.
- XmlLayout.FormatXmlRawOfTree: covers `Good` trees only. Element names holding `:`, `-` or `.` (such as `<ns:x>` or `<a-b>`) and inline text that is empty or starts with whitespace are not covered. The whitespace-preservation lemmas cover every input.
- XmlLayout.FormatXmlRawOfTree: inline text holding a line break really lays out differently. On `<r><a>x\ny</a></r>` the popup splits the text and prints `y</a>` as a line of its own, indented, which the one-line-per-element layout does not describe.
- XmlLayout.PopupLaysOut: covers `Good` trees only, for the same name and text restrictions.
- XmlLayout.FormatXmlOfTree: covers `Good` trees only, for the same name and text restrictions; the panel also splits inline text at its line breaks.
- XmlLayout.FixedFormatXmlOfTree: covers `Good` trees only, for the same name and text restrictions.
- Classifier.CopiedXmlTree: covers the compact form of `Good` trees only, for the same name and text restrictions.

## Findings

| source | as written | input that shows it | evidently intended | confidence | as-written member | corrected member |
|---|---|---|---|---|---|---|
| panel.js:111 | a line holding an element with inline text, such as `<ii>1</ii>`, matches the opening pattern `^<\w[^>]*[^/]>.*$` and raises the level, and nothing lowers it again | `<rr><ii>1</ii><ii>2</ii></rr>` is laid out as `<rr>`, `  <ii>1</ii>`, `    <ii>2</ii>`, `    </rr>` | siblings at one depth and the closing tag under its opening tag, as popup.js's `formatXmlRaw` does it: `<rr>`, `  <ii>1</ii>`, `  <ii>2</ii>`, `</rr>` | high (proved on the model; not executed) | XmlLayout.PanelDriftsAfterInlineText | XmlLayout.FixedFormatXmlOfTree |
| panel.js:111 | the opening pattern needs at least two characters between `<` and `>`, so `<a>` does not raise the level, while `</a>` still lowers it | `<a><bb/></a>` is laid out as `<a>`, `<bb/>`, `</a>` | the child indented under its parent: `<a>`, `  <bb/>`, `</a>` | high (proved on the model; not executed) | XmlLayout.PanelIgnoresOneLetterTags | XmlLayout.FixedFormatXmlOfTree |
