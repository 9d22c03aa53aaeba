/** The recursive JSON pretty-printer of the observers: `highlightJson` (popup.js),
    `syntaxHighlightJson` (panel.js) and the layout of `JSON.stringify(v, null, 2)`
    share one shape, written once here and parametrised by how leaves and keys are
    spelled. Numbers stay abstract: a number carries the text JavaScript prints for it. */
module JsonView {
  import opened Text

  /** A value `JSON.parse` can return. Object entries are held in the order
      `Object.keys` lists them: integer-like keys first in ascending order, then the
      others in order of first appearance; a repeated key keeps only its last value. */
  datatype Json =
    | JNull
    | JBool(b: bool)
    | JNumber(shown: string)
    | JString(s: string)
    | JArray(items: seq<Json>)
    | JObject(entries: seq<(string, Json)>)

  /** How leaves and keys are spelled. */
  datatype Style = Style(
    nullText: string,
    boolText: bool -> string,
    numberText: string -> string,
    stringText: string -> string,
    keyText: string -> string)

  function BoolName(b: bool): string {
    if b then "true" else "false"
  }

  /** The spans of the observers' highlighters; `escape` is `escapeHtml`. */
  function HtmlStyle(escape: string -> string): Style {
    Style(
      "<span class=\"json-null\">null</span>",
      b => "<span class=\"json-boolean\">" + BoolName(b) + "</span>",
      n => "<span class=\"json-number\">" + n + "</span>",
      s => "<span class=\"json-string\">\"" + escape(s) + "\"</span>",
      k => "<span class=\"json-key\">\"" + escape(k) + "\"</span>")
  }

  /** The spelling of `JSON.stringify`; `quote` is its string quoting. */
  function PlainStyle(quote: string -> string): Style {
    Style("null", BoolName, n => n, quote, quote)
  }

  /** `highlightJson(obj, indent)`: scalars as one token, an empty array or object as
      `[]` or `{}`, and otherwise one child per line, two spaces deeper than the
      closing bracket, separated by `,` and a line break. */
  function Pretty(v: Json, depth: nat, st: Style): string
    decreases v, 1
  {
    match v
    case JNull => st.nullText
    case JBool(b) => st.boolText(b)
    case JNumber(n) => st.numberText(n)
    case JString(s) => st.stringText(s)
    case JArray(items) =>
      if |items| == 0 then "[]"
      else "[\n" + Join(",\n", ItemLines(items, depth + 1, st)) + "\n" + Pad(depth) + "]"
    case JObject(es) =>
      if |es| == 0 then "{}"
      else "{\n" + Join(",\n", EntryLines(es, depth + 1, st)) + "\n" + Pad(depth) + "}"
  }

  /** The element lines of an array, each value indented to `depth`. */
  function ItemLines(items: seq<Json>, depth: nat, st: Style): (r: seq<string>)
    ensures |r| == |items|
    decreases JArray(items), 0
  {
    seq(|items|, i requires 0 <= i < |items| => Pad(depth) + Pretty(items[i], depth, st))
  }

  /** The entry lines of an object, `key: value` indented to `depth`. */
  function EntryLines(es: seq<(string, Json)>, depth: nat, st: Style): (r: seq<string>)
    ensures |r| == |es|
    decreases JObject(es), 0
  {
    seq(|es|, i requires 0 <= i < |es| => Pad(depth) + st.keyText(es[i].0) + ": " + Pretty(es[i].1, depth, st))
  }

  /** popup.js `highlightJson(obj)` and panel.js `syntaxHighlightJson(obj)`. */
  function Highlight(v: Json, escape: string -> string): (r: string)
    ensures v.JArray? || v.JObject? ==> TopLevelShape(v, r)
  {
    TopShape(v, HtmlStyle(escape));
    Pretty(v, 0, HtmlStyle(escape))
  }

  /** `JSON.stringify(v, null, 2)` for a parsed value. */
  function Stringify(v: Json, quote: string -> string): (r: string)
    ensures v.JArray? || v.JObject? ==> TopLevelShape(v, r)
  {
    TopShape(v, PlainStyle(quote));
    Pretty(v, 0, PlainStyle(quote))
  }

  /** The text of a top-level container: its opening bracket first and its closing
      bracket last; unless empty, a line break follows the opening bracket and the
      closing bracket starts the last line, unindented. */
  predicate TopLevelShape(v: Json, r: string)
    requires v.JArray? || v.JObject?
  {
    var open := if v.JArray? then '[' else '{';
    var close := if v.JArray? then ']' else '}';
    && |r| >= 2 && r[0] == open && r[|r| - 1] == close
    && (|r| > 2 ==> r[1] == '\n' && r[|r| - 2] == '\n')
  }

  lemma TopShape(v: Json, st: Style)
    ensures v.JArray? || v.JObject? ==> TopLevelShape(v, Pretty(v, 0, st))
  {
    if v.JArray? || v.JObject? {
      var r := Pretty(v, 0, st);
      ContainerShape(v, 0, st);
      SmallPads();
      if |r| > 2 {
        var close := if v.JArray? then ']' else '}';
        assert r[|r| - 2..] == "\n" + Pad(0) + [close];
      }
    }
  }

  /** Containers open with their bracket and close with the bracket alone on the last
      line at the container's own indentation; empty ones are just the two brackets. */
  lemma ContainerShape(v: Json, depth: nat, st: Style)
    requires v.JArray? || v.JObject?
    ensures var r := Pretty(v, depth, st);
      var open := if v.JArray? then '[' else '{';
      var close := if v.JArray? then ']' else '}';
      && |r| >= 2 && r[0] == open && r[|r| - 1] == close
      && ((v.JArray? && v.items == []) || (v.JObject? && v.entries == []) <==> |r| == 2)
      && (|r| > 2 ==> r[1] == '\n' && EndsWith(r, "\n" + Pad(depth) + [close]))
  {
    match v
    case JArray(items) =>
      if |items| > 0 {
        BracketedShape('[', ']', Join(",\n", ItemLines(items, depth + 1, st)), depth);
      }
    case JObject(es) =>
      if |es| > 0 {
        BracketedShape('{', '}', Join(",\n", EntryLines(es, depth + 1, st)), depth);
      }
  }

  /** The layout of a non-empty container around its joined children. */
  lemma BracketedShape(open: char, close: char, body: string, depth: nat)
    ensures var r := [open, '\n'] + body + "\n" + Pad(depth) + [close];
      && |r| > 2 && r[0] == open && r[1] == '\n' && r[|r| - 1] == close
      && EndsWith(r, "\n" + Pad(depth) + [close])
  {
    var head := [open, '\n'] + body;
    var tail := "\n" + Pad(depth) + [close];
    var r := head + "\n" + Pad(depth) + [close];
    assert r == head + tail;
    assert r[|r| - |tail|..] == tail;
  }

  // ---------------------------------------------------------------------------
  // Indentation: each level of nesting adds two spaces to every following line.

  /** Inserts `Pad(k)` after every line break. */
  function Shift(s: string, k: nat): string {
    if |s| == 0 then ""
    else (if s[0] == '\n' then "\n" + Pad(k) else [s[0]]) + Shift(s[1..], k)
  }

  predicate NoBreak(s: string) {
    forall i :: 0 <= i < |s| ==> s[i] != '\n'
  }

  /** The leaves and keys of `v`, spelled in style `st`, hold no line break. */
  predicate FlatLeaves(v: Json, st: Style)
    decreases v
  {
    match v
    case JNull => NoBreak(st.nullText)
    case JBool(b) => NoBreak(st.boolText(b))
    case JNumber(n) => NoBreak(st.numberText(n))
    case JString(s) => NoBreak(st.stringText(s))
    case JArray(items) => forall i :: 0 <= i < |items| ==> FlatLeaves(items[i], st)
    case JObject(es) => forall i :: 0 <= i < |es| ==> NoBreak(st.keyText(es[i].0)) && FlatLeaves(es[i].1, st)
  }

  lemma {:induction false} ShiftAppend(a: string, b: string, k: nat)
    ensures Shift(a + b, k) == Shift(a, k) + Shift(b, k)
  {
    if |a| == 0 {
      assert a + b == b;
    } else {
      assert (a + b)[0] == a[0];
      assert (a + b)[1..] == a[1..] + b;
      ShiftAppend(a[1..], b, k);
    }
  }

  lemma {:induction false} ShiftFlat(s: string, k: nat)
    requires NoBreak(s)
    ensures Shift(s, k) == s
  {
    if |s| > 0 {
      ShiftFlat(s[1..], k);
    }
  }

  lemma {:induction false} PadAdd(a: nat, b: nat)
    ensures Pad(a) + Pad(b) == Pad(a + b)
  {
    if a > 0 {
      PadAdd(a - 1, b);
      assert Pad(a) + Pad(b) == "  " + (Pad(a - 1) + Pad(b));
    }
  }

  /** Shifting a list of lines joined by `,` and a break indents each element. */
  lemma {:induction false} ShiftJoin(xs: seq<string>, ys: seq<string>, k: nat)
    requires |xs| == |ys|
    requires forall i :: 0 <= i < |xs| ==> ys[i] == Pad(k) + Shift(xs[i], k)
    ensures |xs| > 0 ==> Pad(k) + Shift(Join(",\n", xs), k) == Join(",\n", ys)
  {
    if |xs| == 1 {
    } else if |xs| > 1 {
      ShiftJoin(xs[1..], ys[1..], k);
      JoinCons(",\n", xs);
      JoinCons(",\n", ys);
      ShiftJoinStep(xs[0], Join(",\n", xs[1..]), ys[0], Join(",\n", ys[1..]), k);
    }
  }

  /** One step of `ShiftJoin`: the separator's line break takes the shift. */
  lemma ShiftJoinStep(x: string, rest: string, y: string, restY: string, k: nat)
    requires y == Pad(k) + Shift(x, k)
    requires restY == Pad(k) + Shift(rest, k)
    ensures Pad(k) + Shift(x + ",\n" + rest, k) == y + ",\n" + restY
  {
    ShiftAppend(x + ",\n", rest, k);
    ShiftAppend(x, ",\n", k);
    ShiftComma(k);
    CommaRegroup(Pad(k), Shift(x, k), Shift(rest, k));
  }

  lemma ShiftComma(k: nat)
    ensures Shift(",\n", k) == "," + ("\n" + Pad(k))
  {
    ShiftBreak(k);
    assert ",\n"[1..] == "\n";
  }

  lemma CommaRegroup(p: string, a: string, b: string)
    ensures p + (a + ("," + ("\n" + p)) + b) == (p + a) + ",\n" + (p + b)
  {
    assert "," + ("\n" + p) == ",\n" + p;
  }

  /** Rendering one level deeper shifts every line after the first by two more spaces:
      `highlightJson(v, d + k)` is `highlightJson(v, d)` with `2k` spaces added after
      each line break (when no leaf or key spells a line break itself). */
  lemma {:induction false} PrettyShift(v: Json, d: nat, k: nat, st: Style)
    requires FlatLeaves(v, st)
    ensures Pretty(v, d + k, st) == Shift(Pretty(v, d, st), k)
    decreases v, 2
  {
    match v
    case JNull => ShiftFlat(st.nullText, k);
    case JBool(b) => ShiftFlat(st.boolText(b), k);
    case JNumber(n) => ShiftFlat(st.numberText(n), k);
    case JString(s) => ShiftFlat(st.stringText(s), k);
    case JArray(items) => ArrayShift(items, d, k, st);
    case JObject(es) => ObjectShift(es, d, k, st);
  }

  lemma {:induction false} ArrayShift(items: seq<Json>, d: nat, k: nat, st: Style)
    requires FlatLeaves(JArray(items), st)
    ensures Pretty(JArray(items), d + k, st) == Shift(Pretty(JArray(items), d, st), k)
    decreases JArray(items), 1
  {
    if |items| == 0 {
      ShiftFlat("[]", k);
    } else {
      var xs := ItemLines(items, d + 1, st);
      var ys := ItemLines(items, d + k + 1, st);
      forall i | 0 <= i < |items|
        ensures ys[i] == Pad(k) + Shift(xs[i], k)
      {
        ItemLineShift(items, i, d, k, st);
      }
      ContainerShift(xs, ys, d, k, '[', ']');
    }
  }

  lemma {:induction false} ObjectShift(es: seq<(string, Json)>, d: nat, k: nat, st: Style)
    requires FlatLeaves(JObject(es), st)
    ensures Pretty(JObject(es), d + k, st) == Shift(Pretty(JObject(es), d, st), k)
    decreases JObject(es), 1
  {
    if |es| == 0 {
      ShiftFlat("{}", k);
    } else {
      var xs := EntryLines(es, d + 1, st);
      var ys := EntryLines(es, d + k + 1, st);
      forall i | 0 <= i < |es|
        ensures ys[i] == Pad(k) + Shift(xs[i], k)
      {
        EntryLineShift(es, i, d, k, st);
      }
      ContainerShift(xs, ys, d, k, '{', '}');
    }
  }

  /** Item `i` of an array, one level deeper, once its value is known to shift. */
  lemma {:induction false} ItemLineShift(items: seq<Json>, i: nat, d: nat, k: nat, st: Style)
    requires i < |items|
    requires FlatLeaves(JArray(items), st)
    ensures ItemLines(items, d + k + 1, st)[i] == Pad(k) + Shift(ItemLines(items, d + 1, st)[i], k)
    decreases JArray(items), 0
  {
    assert FlatLeaves(items[i], st);
    ChildShift(items[i], d, k, st);
    var x := Pretty(items[i], d + 1, st);
    var y := Pretty(items[i], d + k + 1, st);
    assert ItemLines(items, d + 1, st)[i] == Pad(d + 1) + "" + x;
    assert ItemLines(items, d + k + 1, st)[i] == Pad(d + k + 1) + "" + y;
    ShiftedLine(ItemLines(items, d + 1, st)[i], ItemLines(items, d + k + 1, st)[i], d, "", x, y, k);
  }

  /** Entry `i` of an object, one level deeper, once its value is known to shift. */
  lemma {:induction false} EntryLineShift(es: seq<(string, Json)>, i: nat, d: nat, k: nat, st: Style)
    requires i < |es|
    requires FlatLeaves(JObject(es), st)
    ensures EntryLines(es, d + k + 1, st)[i] == Pad(k) + Shift(EntryLines(es, d + 1, st)[i], k)
    decreases JObject(es), 0
  {
    assert NoBreak(st.keyText(es[i].0)) && FlatLeaves(es[i].1, st);
    ChildShift(es[i].1, d, k, st);
    var mid := st.keyText(es[i].0) + ": ";
    var x := Pretty(es[i].1, d + 1, st);
    var y := Pretty(es[i].1, d + k + 1, st);
    EntryLineAt(es, i, d + 1, st);
    EntryLineAt(es, i, d + k + 1, st);
    KeyNoBreak(st.keyText(es[i].0));
    ShiftedLine(EntryLines(es, d + 1, st)[i], EntryLines(es, d + k + 1, st)[i], d, mid, x, y, k);
  }

  /** `PrettyShift` for a child rendered one level below `d`. */
  lemma {:induction false} ChildShift(v: Json, d: nat, k: nat, st: Style)
    requires FlatLeaves(v, st)
    ensures Pretty(v, d + k + 1, st) == Shift(Pretty(v, d + 1, st), k)
    decreases v, 3
  {
    PrettyShift(v, d + 1, k, st);
    assert d + 1 + k == d + k + 1;
  }

  lemma EntryLineAt(es: seq<(string, Json)>, i: nat, depth: nat, st: Style)
    requires i < |es|
    ensures EntryLines(es, depth, st)[i] == Pad(depth) + (st.keyText(es[i].0) + ": ") + Pretty(es[i].1, depth, st)
  {
    assert Pad(depth) + st.keyText(es[i].0) + ": " == Pad(depth) + (st.keyText(es[i].0) + ": ");
  }

  lemma KeyNoBreak(key: string)
    requires NoBreak(key)
    ensures NoBreak(key + ": ")
  { }

  /** `LineShift` for a line known by its parts. */
  lemma ShiftedLine(line: string, deeper: string, d: nat, mid: string, x: string, y: string, k: nat)
    requires NoBreak(mid)
    requires y == Shift(x, k)
    requires line == Pad(d + 1) + mid + x
    requires deeper == Pad(d + k + 1) + mid + y
    ensures deeper == Pad(k) + Shift(line, k)
  {
    LineShift(d, mid, x, y, k);
  }

  /** One child line, `mid` and `x` after the child's indentation, shifted by `k`. */
  lemma LineShift(d: nat, mid: string, x: string, y: string, k: nat)
    requires NoBreak(mid)
    requires y == Shift(x, k)
    ensures Pad(d + k + 1) + mid + y == Pad(k) + Shift(Pad(d + 1) + mid + x, k)
  {
    var head := Pad(d + 1) + mid;
    assert NoBreak(head);
    ShiftFlat(head, k);
    ShiftAppend(head, x, k);
    PadAdd(k, d + 1);
  }

  /** The shift of a non-empty container from its shifted children. */
  lemma ContainerShift(xs: seq<string>, ys: seq<string>, d: nat, k: nat, open: char, close: char)
    requires open != '\n' && close != '\n'
    requires 0 < |xs| == |ys|
    requires forall i :: 0 <= i < |xs| ==> ys[i] == Pad(k) + Shift(xs[i], k)
    ensures Shift([open, '\n'] + Join(",\n", xs) + "\n" + Pad(d) + [close], k)
      == [open, '\n'] + Join(",\n", ys) + "\n" + Pad(d + k) + [close]
  {
    var head: string := [open, '\n'];
    var body := Join(",\n", xs);
    var tail := Pad(d) + [close];
    var p := Pad(k);
    ShiftJoin(xs, ys, k);
    assert Join(",\n", ys) == p + Shift(body, k);
    ShiftHead(open, k);
    ShiftBreak(k);
    assert NoBreak(tail);
    ShiftFlat(tail, k);
    PadAdd(k, d);
    assert p + tail == Pad(d + k) + [close];
    assert [open, '\n'] + body + "\n" + Pad(d) + [close] == ((head + body) + "\n") + tail;
    ShiftAppend((head + body) + "\n", tail, k);
    ShiftAppend(head + body, "\n", k);
    ShiftAppend(head, body, k);
    ShiftOfFour(head, Shift(body, k), p, tail);
  }

  /** The regrouping that closes a container's shift. */
  lemma ShiftOfFour(head: string, b: string, p: string, tail: string)
    ensures ((head + p) + b) + ("\n" + p) + tail == head + (p + b) + "\n" + (p + tail)
  { }

  lemma ShiftHead(open: char, k: nat)
    requires open != '\n'
    ensures Shift([open, '\n'], k) == [open, '\n'] + Pad(k)
  {
    assert [open, '\n'][1..] == "\n";
    ShiftBreak(k);
  }

  lemma ShiftBreak(k: nat)
    ensures Shift("\n", k) == "\n" + Pad(k)
  {
    assert "\n"[1..] == "";
  }

  // ---------------------------------------------------------------------------
  // The rendered lines of a container whose children print on one line each.

  /** The children's lines as printed: every one but the last carries the `,`. */
  function Commas(xs: seq<string>): (r: seq<string>)
    ensures |r| == |xs|
  {
    seq(|xs|, i requires 0 <= i < |xs| => xs[i] + (if i < |xs| - 1 then "," else ""))
  }

  /** An object whose keys and values each print on one line renders as `{`, then one
      line per entry in the order of `es` (the order `Object.keys` lists them),
      `key: value` two spaces deeper than the object with a `,` after every entry but
      the last, then `}` at the object's own indentation. */
  lemma ObjectLines(es: seq<(string, Json)>, depth: nat, st: Style)
    requires |es| > 0
    requires forall i :: 0 <= i < |es| ==>
      NoBreak(st.keyText(es[i].0)) && NoBreak(Pretty(es[i].1, depth + 1, st))
    ensures var lines := Split(Pretty(JObject(es), depth, st), '\n');
      && |lines| == |es| + 2
      && lines[0] == "{" && lines[|es| + 1] == Pad(depth) + "}"
      && forall i :: 0 <= i < |es| ==>
           (lines[i + 1] == Pad(depth + 1) + st.keyText(es[i].0) + ": " + Pretty(es[i].1, depth + 1, st)
                            + (if i < |es| - 1 then "," else ""))
  {
    var xs := EntryLines(es, depth + 1, st);
    forall i | 0 <= i < |xs|
      ensures NoBreak(xs[i])
    {
      EntryLineAt(es, i, depth + 1, st);
      KeyNoBreak(st.keyText(es[i].0));
      NoBreakAppend(Pad(depth + 1), st.keyText(es[i].0) + ": ");
      NoBreakAppend(Pad(depth + 1) + (st.keyText(es[i].0) + ": "), Pretty(es[i].1, depth + 1, st));
    }
    ContainerLines('{', '}', xs, depth);
  }

  /** An array whose items each print on one line renders as `[`, then one line per
      item in order, two spaces deeper than the array with a `,` after every item but
      the last, then `]` at the array's own indentation. */
  lemma ArrayLines(items: seq<Json>, depth: nat, st: Style)
    requires |items| > 0
    requires forall i :: 0 <= i < |items| ==> NoBreak(Pretty(items[i], depth + 1, st))
    ensures var lines := Split(Pretty(JArray(items), depth, st), '\n');
      && |lines| == |items| + 2
      && lines[0] == "[" && lines[|items| + 1] == Pad(depth) + "]"
      && forall i :: 0 <= i < |items| ==>
           (lines[i + 1] == Pad(depth + 1) + Pretty(items[i], depth + 1, st) + (if i < |items| - 1 then "," else ""))
  {
    var xs := ItemLines(items, depth + 1, st);
    forall i | 0 <= i < |xs|
      ensures NoBreak(xs[i])
    {
      NoBreakAppend(Pad(depth + 1), Pretty(items[i], depth + 1, st));
    }
    ContainerLines('[', ']', xs, depth);
  }

  lemma NoBreakAppend(a: string, b: string)
    requires NoBreak(a) && NoBreak(b)
    ensures NoBreak(a + b)
  {
    forall i | 0 <= i < |a + b|
      ensures (a + b)[i] != '\n'
    {
      if i >= |a| {
        assert (a + b)[i] == b[i - |a|];
      }
    }
  }

  /** The lines of a non-empty container, from the lines of its children. */
  lemma ContainerLines(open: char, close: char, xs: seq<string>, depth: nat)
    requires open != '\n' && close != '\n'
    requires |xs| > 0
    requires forall i :: 0 <= i < |xs| ==> NoBreak(xs[i])
    ensures Split([open, '\n'] + Join(",\n", xs) + "\n" + Pad(depth) + [close], '\n')
      == [[open]] + Commas(xs) + [Pad(depth) + [close]]
  {
    var lines := [[open]] + (Commas(xs) + [Pad(depth) + [close]]);
    assert lines == [[open]] + Commas(xs) + [Pad(depth) + [close]];
    ContainerText(open, close, xs, depth);
    LinesNoBreak(open, close, xs, depth);
    JoinSplit(lines, '\n');
  }

  lemma ContainerText(open: char, close: char, xs: seq<string>, depth: nat)
    requires |xs| > 0
    ensures [open, '\n'] + Join(",\n", xs) + "\n" + Pad(depth) + [close]
      == Join("\n", [[open]] + (Commas(xs) + [Pad(depth) + [close]]))
  {
    var body := Join(",\n", xs);
    var last := Pad(depth) + [close];
    CommaJoin(xs);
    JoinFrame([open], Commas(xs), last);
    FrameText(open, body, last);
  }

  lemma FrameText(open: char, body: string, last: string)
    ensures [open] + "\n" + (body + "\n" + last) == [open, '\n'] + body + "\n" + last
  {
    assert [open] + "\n" == [open, '\n'];
  }

  lemma LinesNoBreak(open: char, close: char, xs: seq<string>, depth: nat)
    requires open != '\n' && close != '\n'
    requires forall i :: 0 <= i < |xs| ==> NoBreak(xs[i])
    ensures var lines := [[open]] + (Commas(xs) + [Pad(depth) + [close]]);
      forall j, k :: 0 <= j < |lines| && 0 <= k < |lines[j]| ==> lines[j][k] != '\n'
  {
    var cs := Commas(xs);
    var lines := [[open]] + (cs + [Pad(depth) + [close]]);
    forall j | 0 <= j < |lines|
      ensures NoBreak(lines[j])
    {
      if 0 < j <= |cs| {
        assert lines[j] == cs[j - 1];
        NoBreakAppend(xs[j - 1], if j - 1 < |xs| - 1 then "," else "");
      } else if j == |cs| + 1 {
        NoBreakAppend(Pad(depth), [close]);
      }
    }
  }

  /** Joining by `,` and a break is joining the comma-ended lines by a break. */
  lemma {:induction false} CommaJoin(xs: seq<string>)
    requires |xs| > 0
    ensures Join(",\n", xs) == Join("\n", Commas(xs))
  {
    if |xs| == 1 {
      assert Commas(xs)[0] == xs[0];
    } else {
      var cs := Commas(xs);
      CommaJoin(xs[1..]);
      assert cs[1..] == Commas(xs[1..]);
      JoinCons(",\n", xs);
      JoinCons("\n", cs);
      assert cs[0] == xs[0] + ",";
      assert xs[0] + ",\n" == (xs[0] + ",") + "\n";
    }
  }

  /** A first line, the middle lines and a last line joined by breaks. */
  lemma JoinFrame(first: string, mid: seq<string>, last: string)
    requires |mid| > 0
    ensures Join("\n", [first] + (mid + [last])) == first + "\n" + (Join("\n", mid) + "\n" + last)
  {
    JoinFront("\n", first, mid + [last]);
    JoinSnoc("\n", mid, last);
  }

  lemma JoinFront(sep: string, x: string, rest: seq<string>)
    requires |rest| > 0
    ensures Join(sep, [x] + rest) == x + sep + Join(sep, rest)
  {
    var all := [x] + rest;
    assert all[0] == x;
    assert all[1..] == rest;
    JoinCons(sep, all);
  }

  lemma {:induction false} JoinSnoc(sep: string, xs: seq<string>, last: string)
    requires |xs| > 0
    ensures Join(sep, xs + [last]) == Join(sep, xs) + sep + last
  {
    var all := xs + [last];
    JoinCons(sep, all);
    assert all[0] == xs[0];
    if |xs| > 1 {
      assert all[1..] == xs[1..] + [last];
      JoinSnoc(sep, xs[1..], last);
      JoinCons(sep, xs);
    } else {
      assert all[1..] == [last];
    }
  }
}
