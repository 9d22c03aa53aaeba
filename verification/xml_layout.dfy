/** What the XML re-indenters do with a well-formed document written without
    whitespace between its tags: the popup's `formatXmlRaw` puts every tag on its own
    line, two spaces deeper per enclosing element, while the panel's `formatXml`
    drifts to the right after an element with inline text, and does not indent
    inside an element whose name is one character long. */
module XmlLayout {
  import opened Text
  import opened XmlFormat

  /** An element with child elements, an element holding only text, or an empty
      element written as `<name/>`. Attributes are not modelled. */
  datatype Node =
    | Element(name: string, children: seq<Node>)
    | Inline(name: string, text: string)
    | Leaf(name: string)

  function OpenTag(name: string): string { "<" + name + ">" }
  function CloseTag(name: string): string { "</" + name + ">" }
  function LeafTag(name: string): string { "<" + name + "/>" }

  /** The tree one tag per line: an element's opening tag, its children, its closing
      tag; an element with text and an empty element on one line each. */
  function Lines(n: Node): seq<string>
    decreases n
  {
    match n
    case Element(name, kids) => [OpenTag(name)] + LinesOf(kids) + [CloseTag(name)]
    case Inline(name, text) => [OpenTag(name) + text + CloseTag(name)]
    case Leaf(name) => [LeafTag(name)]
  }

  function LinesOf(kids: seq<Node>): seq<string>
    decreases kids
  {
    if |kids| == 0 then [] else Lines(kids[0]) + LinesOf(kids[1..])
  }

  /** The document written without whitespace between tags. */
  function Compact(n: Node): string {
    Join("", Lines(n))
  }

  /** The intended layout: every line of `Lines` behind two spaces per enclosing
      element, starting at depth `d`. */
  function Layout(n: Node, d: nat): seq<string>
    decreases n
  {
    match n
    case Element(name, kids) => [Pad(d) + OpenTag(name)] + LayoutOf(kids, d + 1) + [Pad(d) + CloseTag(name)]
    case Inline(name, text) => [Pad(d) + OpenTag(name) + text + CloseTag(name)]
    case Leaf(name) => [Pad(d) + LeafTag(name)]
  }

  function LayoutOf(kids: seq<Node>, d: nat): seq<string>
    decreases kids
  {
    if |kids| == 0 then [] else Layout(kids[0], d) + LayoutOf(kids[1..], d)
  }

  predicate GoodName(name: string) {
    |name| >= 1 && forall i :: 0 <= i < |name| ==> IsWord(name[i])
  }

  /** Text content: not empty, not starting with whitespace, and holding no angle
      bracket and no line terminator. */
  predicate GoodText(text: string) {
    && |text| >= 1 && !IsSpace(text[0])
    && forall i :: 0 <= i < |text| ==> text[i] != '<' && text[i] != '>' && !IsLineTerminator(text[i])
  }

  predicate Good(n: Node)
    decreases n
  {
    match n
    case Element(name, kids) => GoodName(name) && forall i :: 0 <= i < |kids| ==> Good(kids[i])
    case Inline(name, text) => GoodName(name) && GoodText(text)
    case Leaf(name) => GoodName(name)
  }

  // ---------------------------------------------------------------------------
  // Any rule that reads tags as tags lays the tree out.

  /** `rule` opens on opening tags, closes on closing tags and leaves one-line
      elements alone, on every line of `n`. */
  predicate Fits(rule: Rule, n: Node)
    decreases n
  {
    match n
    case Element(name, kids) =>
      && !rule.closes(OpenTag(name)) && rule.opens(OpenTag(name))
      && rule.closes(CloseTag(name)) && !rule.opens(CloseTag(name))
      && forall i :: 0 <= i < |kids| ==> Fits(rule, kids[i])
    case Inline(name, text) =>
      !rule.closes(OpenTag(name) + text + CloseTag(name)) && !rule.opens(OpenTag(name) + text + CloseTag(name))
    case Leaf(name) => !rule.closes(LeafTag(name)) && !rule.opens(LeafTag(name))
  }

  lemma {:induction false} LaysOut(rule: Rule, n: Node, d: nat)
    requires Fits(rule, n)
    ensures Indented(Lines(n), d, rule) == Layout(n, d)
    ensures LevelAfter(Lines(n), d, rule) == d
    decreases n
  {
    match n
    case Element(name, kids) =>
      LaysOutAll(rule, kids, d + 1);
      ElementLaysOut(rule, name, kids, d);
    case Inline(name, text) =>
      var line := OpenTag(name) + text + CloseTag(name);
      OneLine(rule, line, d);
      ConcatAssoc(Pad(d), OpenTag(name) + text, CloseTag(name));
      ConcatAssoc(Pad(d), OpenTag(name), text);
    case Leaf(name) =>
      OneLine(rule, LeafTag(name), d);
  }

  /** An element is laid out once its children are. */
  lemma ElementLaysOut(rule: Rule, name: string, kids: seq<Node>, d: nat)
    requires Fits(rule, Element(name, kids))
    requires Indented(LinesOf(kids), d + 1, rule) == LayoutOf(kids, d + 1)
    requires LevelAfter(LinesOf(kids), d + 1, rule) == d + 1
    ensures Indented(Lines(Element(name, kids)), d, rule) == Layout(Element(name, kids), d)
    ensures LevelAfter(Lines(Element(name, kids)), d, rule) == d
  {
    var open := [OpenTag(name)];
    var inner := LinesOf(kids);
    var close := [CloseTag(name)];
    OneLine(rule, OpenTag(name), d);
    OneLine(rule, CloseTag(name), d + 1);
    IndentedAppend(open, inner, d, rule);
    LevelAfterAppend(open, inner, d, rule);
    IndentedAppend(open + inner, close, d, rule);
    LevelAfterAppend(open + inner, close, d, rule);
  }

  /** A single line is printed at the level the rule gives it. */
  lemma OneLine(rule: Rule, line: string, level: int)
    ensures var at := if rule.closes(line) then level - 1 else level;
      && Indented([line], level, rule) == [Pad(Clamp(at)) + line]
      && LevelAfter([line], level, rule) == if rule.opens(line) then at + 1 else at
  {
    IndentedHead([line], level, rule);
    LevelAfterHead([line], level, rule);
    assert [line][1..] == [];
  }

  lemma {:induction false} LaysOutAll(rule: Rule, kids: seq<Node>, d: nat)
    requires forall i :: 0 <= i < |kids| ==> Fits(rule, kids[i])
    ensures Indented(LinesOf(kids), d, rule) == LayoutOf(kids, d)
    ensures LevelAfter(LinesOf(kids), d, rule) == d
    decreases kids
  {
    if |kids| > 0 {
      LaysOut(rule, kids[0], d);
      LaysOutAll(rule, kids[1..], d);
      IndentedAppend(Lines(kids[0]), LinesOf(kids[1..]), d, rule);
      LevelAfterAppend(Lines(kids[0]), LinesOf(kids[1..]), d, rule);
    }
  }

  // ---------------------------------------------------------------------------
  // The popup's rule reads tags as tags.

  lemma NoCloseTagWithoutSlash(t: string)
    requires forall j :: 0 <= j < |t| ==> t[j] != '/'
    ensures !HasCloseTag(t)
  {
  }

  lemma PopupOpenTag(name: string)
    requires GoodName(name)
    ensures !PopupCloses(OpenTag(name)) && PopupOpens(OpenTag(name))
  {
    var t := OpenTag(name);
    assert t[1] == name[0];
    assert t[|t| - 2] == name[|name| - 1];
    assert t[|t| - 1..] == ">";
    forall j | 0 <= j < |t|
      ensures t[j] != '/'
    {
      if 1 <= j <= |name| {
        assert t[j] == name[j - 1];
      }
    }
    NoCloseTagWithoutSlash(t);
  }

  lemma PopupCloseTag(name: string)
    requires GoodName(name)
    ensures PopupCloses(CloseTag(name)) && !PopupOpens(CloseTag(name))
  {
    assert CloseTag(name)[..2] == "</";
  }

  lemma PopupInline(name: string, text: string)
    requires GoodName(name) && GoodText(text)
    ensures var line := OpenTag(name) + text + CloseTag(name);
      !PopupCloses(line) && !PopupOpens(line)
  {
    var line := OpenTag(name) + text + CloseTag(name);
    var i := |name| + 2 + |text|;
    assert line[1] == name[0];
    assert line[i] == '<' && line[i + 1] == '/' && line[i + 2] == name[0];
    assert HasCloseTag(line);
  }

  lemma PopupLeaf(name: string)
    requires GoodName(name)
    ensures !PopupCloses(LeafTag(name)) && !PopupOpens(LeafTag(name))
  {
    var t := LeafTag(name);
    assert t[1] == name[0];
    assert t[|t| - 2..] == "/>";
  }

  lemma {:induction false} PopupFits(n: Node)
    requires Good(n)
    ensures Fits(PopupRule, n)
    decreases n
  {
    match n
    case Element(name, kids) =>
      PopupOpenTag(name);
      PopupCloseTag(name);
      forall i | 0 <= i < |kids|
        ensures Fits(PopupRule, kids[i])
      {
        PopupFits(kids[i]);
      }
    case Inline(name, text) => PopupInline(name, text);
    case Leaf(name) => PopupLeaf(name);
  }

  /** popup.js `formatXmlRaw`'s line rule indents every line of a well-formed tree
      by its depth. */
  lemma PopupLaysOut(n: Node, d: nat)
    requires Good(n)
    ensures Indented(Lines(n), d, PopupRule) == Layout(n, d)
  {
    PopupFits(n);
    LaysOut(PopupRule, n, d);
  }

  // ---------------------------------------------------------------------------
  // The compact text breaks back into the lines of the tree.

  /** Every `>` before the end of `l` is followed by a character that is neither
      whitespace nor `<`. */
  predicate GtFollowed(l: string)
    decreases |l|
  {
    |l| < 2 || ((l[0] != '>' || (!IsSpace(l[1]) && l[1] != '<')) && GtFollowed(l[1..]))
  }

  /** The shape of one line of `Lines`. */
  predicate LineOk(l: string) {
    && |l| >= 1 && l[0] == '<' && l[|l| - 1] == '>' && GtFollowed(l)
    && forall i :: 0 <= i < |l| ==> l[i] != '\n'
  }

  lemma {:induction false} GtFollowedAppend(a: string, b: string)
    requires GtFollowed(a) && GtFollowed(b)
    requires |a| > 0 && |b| > 0 && a[|a| - 1] == '>' ==> !IsSpace(b[0]) && b[0] != '<'
    ensures GtFollowed(a + b)
    decreases |a|
  {
    if |a| == 0 {
      assert a + b == b;
    } else {
      assert (a + b)[1..] == a[1..] + b;
      GtFollowedAppend(a[1..], b);
    }
  }

  lemma {:induction false} GtFollowedNoGt(a: string)
    requires forall i :: 0 <= i < |a| ==> a[i] != '>'
    ensures GtFollowed(a)
    decreases |a|
  {
    if |a| >= 2 {
      GtFollowedNoGt(a[1..]);
    }
  }

  /** `x` then `>` is fine when `x` holds no `>`. */
  lemma ClosedBy(x: string)
    requires forall i :: 0 <= i < |x| ==> x[i] != '>'
    ensures GtFollowed(x + ">")
  {
    GtFollowedNoGt(x);
    GtFollowedAppend(x, ">");
  }

  lemma OpenTagOk(name: string)
    requires GoodName(name)
    ensures LineOk(OpenTag(name))
  {
    ClosedBy("<" + name);
    assert OpenTag(name) == ("<" + name) + ">";
  }

  lemma CloseTagOk(name: string)
    requires GoodName(name)
    ensures LineOk(CloseTag(name))
  {
    ClosedBy("</" + name);
    assert CloseTag(name) == ("</" + name) + ">";
  }

  lemma LeafTagOk(name: string)
    requires GoodName(name)
    ensures LineOk(LeafTag(name))
  {
    ClosedBy("<" + name + "/");
    assert LeafTag(name) == ("<" + name + "/") + ">";
  }

  lemma InlineOk(name: string, text: string)
    requires GoodName(name) && GoodText(text)
    ensures LineOk(OpenTag(name) + text + CloseTag(name))
  {
    OpenTagOk(name);
    CloseTagOk(name);
    GtFollowedNoGt(text);
    GtFollowedAppend(text, CloseTag(name));
    GtFollowedAppend(OpenTag(name), text + CloseTag(name));
    assert OpenTag(name) + text + CloseTag(name) == OpenTag(name) + (text + CloseTag(name));
  }

  lemma {:induction false} LinesOk(n: Node)
    requires Good(n)
    ensures |Lines(n)| >= 1
    ensures forall i :: 0 <= i < |Lines(n)| ==> LineOk(Lines(n)[i])
    decreases n
  {
    match n
    case Element(name, kids) =>
      OpenTagOk(name);
      CloseTagOk(name);
      LinesOfOk(kids);
    case Inline(name, text) => InlineOk(name, text);
    case Leaf(name) => LeafTagOk(name);
  }

  lemma {:induction false} LinesOfOk(kids: seq<Node>)
    requires forall i :: 0 <= i < |kids| ==> Good(kids[i])
    ensures forall i :: 0 <= i < |LinesOf(kids)| ==> LineOk(LinesOf(kids)[i])
    decreases kids
  {
    if |kids| > 0 {
      LinesOk(kids[0]);
      LinesOfOk(kids[1..]);
    }
  }

  /** popup.js's replacement on a line ending in `>` and whatever follows it. */
  lemma {:induction false} BreakGapsAppend(x: string, y: string)
    requires |x| >= 1 && x[|x| - 1] == '>' && GtFollowed(x)
    requires y == [] || y[0] == '<'
    ensures BreakGaps(x + y) == x + (if y == [] then "" else "\n") + BreakGaps(y)
    decreases |x|
  {
    var s := x + y;
    assert s[0] == x[0];
    if |x| == 1 {
      if y != [] {
        assert s[1..] == y;
        assert SpaceRun(y) == 0;
        assert s[2..] == y[1..];
      } else {
        assert s == ">";
      }
    } else {
      assert s[1..] == x[1..] + y;
      assert s[1] == x[1];
      BreakGapsAppend(x[1..], y);
      assert [x[0]] + x[1..] == x;
    }
  }

  /** panel.js's replacement on a line ending in `>` and whatever follows it. */
  lemma {:induction false} InsertBreaksAppend(x: string, y: string)
    requires |x| >= 1 && x[|x| - 1] == '>' && GtFollowed(x)
    requires y == [] || y[0] == '<'
    ensures InsertBreaks(x + y) == x + (if y == [] then "" else "\n") + InsertBreaks(y)
    decreases |x|
  {
    var s := x + y;
    assert s[0] == x[0];
    if |x| == 1 {
      if y != [] {
        assert s[1..] == y;
      } else {
        assert s == ">";
      }
    } else {
      assert s[1..] == x[1..] + y;
      assert s[1] == x[1];
      InsertBreaksAppend(x[1..], y);
      assert [x[0]] + x[1..] == x;
    }
  }

  lemma JoinHead(sep: string, parts: seq<string>)
    requires |parts| >= 1 && |parts[0]| >= 1
    ensures |Join(sep, parts)| >= 1 && Join(sep, parts)[0] == parts[0][0]
  {
  }

  lemma {:induction false} BreakGapsJoin(lines: seq<string>)
    requires |lines| >= 1
    requires forall i :: 0 <= i < |lines| ==> LineOk(lines[i])
    ensures BreakGaps(Join("", lines)) == Join("\n", lines)
  {
    var first := lines[0];
    assert LineOk(first);
    if |lines| == 1 {
      BreakGapsAppend(first, "");
      assert first + "" == first;
    } else {
      var rest := Join("", lines[1..]);
      BreakGapsJoin(lines[1..]);
      JoinHead("", lines[1..]);
      BreakGapsAppend(first, rest);
      JoinCons("", lines);
      assert first + "" == first;
      JoinCons("\n", lines);
    }
  }

  lemma {:induction false} InsertBreaksJoin(lines: seq<string>)
    requires |lines| >= 1
    requires forall i :: 0 <= i < |lines| ==> LineOk(lines[i])
    ensures InsertBreaks(Join("", lines)) == Join("\n", lines)
  {
    if |lines| == 1 {
      InsertBreaksAppend(lines[0], "");
      assert lines[0] + "" == lines[0];
    } else {
      var rest := Join("", lines[1..]);
      InsertBreaksJoin(lines[1..]);
      JoinHead("", lines[1..]);
      InsertBreaksAppend(lines[0], rest);
      assert Join("", lines) == lines[0] + rest;
    }
  }

  // ---------------------------------------------------------------------------
  // From the compact text to the printed result.

  lemma {:induction false} EmitJoin(lines: seq<string>)
    requires |lines| >= 1
    ensures Emit(lines) == Join("\n", lines) + "\n"
  {
    if |lines| > 1 {
      EmitJoin(lines[1..]);
    }
  }

  /** The printed lines of `lines`, joined by line breaks, start and end where the
      first and the last line do. */
  lemma PrintedEnds(lines: seq<string>, rule: Rule)
    requires |lines| >= 1
    requires forall i :: 0 <= i < |lines| ==> LineOk(lines[i])
    ensures var out := Join("\n", Indented(lines, 0, rule));
      |out| >= 1 && out[0] == '<' && out[|out| - 1] == '>'
  {
    var printed := Indented(lines, 0, rule);
    var last := |lines| - 1;
    IndentOfLine(lines, 0, rule, 0);
    IndentOfLine(lines, 0, rule, last);
    assert lines[..0] == [];
    assert printed[0] == "" + lines[0];
    JoinHead("\n", printed);
    JoinLast("\n", printed);
  }

  lemma {:induction false} JoinLast(sep: string, parts: seq<string>)
    requires |parts| >= 1 && |parts[|parts| - 1]| >= 1
    ensures var j := Join(sep, parts);
      |j| >= 1 && j[|j| - 1] == parts[|parts| - 1][|parts[|parts| - 1]| - 1]
  {
    if |parts| > 1 {
      JoinLast(sep, parts[1..]);
    }
  }

  lemma TrimEndBreak(out: string)
    requires |out| >= 1 && !IsSpace(out[|out| - 1])
    ensures TrimEnd(out + "\n") == out
  {
    assert (out + "\n")[..|out|] == out;
  }

  lemma TrimStartOf(out: string)
    requires |out| >= 1 && !IsSpace(out[0])
    ensures TrimStart(out) == out
  {
  }

  /** Whatever the line rule, panel `formatXml` on the compact text of a
      well-formed tree prints exactly the tree's lines as the rule indents them. */
  lemma FormatXmlOfTree(n: Node, rule: Rule)
    requires Good(n)
    ensures FormatXmlWith(Compact(n), rule) == Join("\n", Indented(Lines(n), 0, rule))
  {
    var lines := Lines(n);
    LinesOk(n);
    SplitAdjacentLines(lines);
    PanelPipeline(Compact(n), lines, rule);
    var printed := Indented(lines, 0, rule);
    var out := Join("\n", printed);
    EmitJoin(printed);
    PrintedEnds(lines, rule);
    TrimBracketedBreak(out);
  }

  /** `trim` drops only the final line break of a printed document. */
  lemma TrimBracketedBreak(out: string)
    requires |out| >= 1 && out[0] == '<' && out[|out| - 1] == '>'
    ensures Trim(out + "\n") == out
  {
    assert (out + "\n")[0] == '<';
    TrimStartOf(out + "\n");
    TrimEndBreak(out);
  }

  /** The panel's replacement on joined lines, split at the breaks, recovers them. */
  lemma SplitAdjacentLines(lines: seq<string>)
    requires |lines| >= 1
    requires forall i :: 0 <= i < |lines| ==> LineOk(lines[i])
    ensures Split(BreakAdjacent(Join("", lines)), '\n') == lines
  {
    InsertBreaksJoin(lines);
    BreakAdjacentInsertsBreaks(Join("", lines));
    NoBreaksInLines(lines);
    JoinSplit(lines, '\n');
  }

  /** The panel's formatter, once splitting is known. */
  lemma PanelPipeline(xml: string, lines: seq<string>, rule: Rule)
    requires Split(BreakAdjacent(xml), '\n') == lines
    ensures FormatXmlWith(xml, rule) == Trim(Emit(Indented(lines, 0, rule)))
  { }

  lemma {:induction false} KeptLines(lines: seq<string>)
    requires forall i :: 0 <= i < |lines| ==> LineOk(lines[i])
    ensures Kept(lines) == lines
  {
    if |lines| > 0 {
      KeptLines(lines[1..]);
      KeptLineStep(lines);
    }
  }

  /** One step of `KeptLines`: a well-formed first line is kept as it is. */
  lemma KeptLineStep(lines: seq<string>)
    requires |lines| > 0 && LineOk(lines[0]) && Kept(lines[1..]) == lines[1..]
    ensures Kept(lines) == lines
  {
    LineTrimmed(lines[0]);
    KeptKeeps(lines);
    assert [lines[0]] + lines[1..] == lines;
  }

  lemma LineTrimmed(l: string)
    requires LineOk(l)
    ensures Trim(l) == l
  {
    TrimTrimmed(l);
  }

  /** popup.js `formatXmlRaw` on lines of the tree's shape written one after the
      other prints them as its rule indents them. */
  lemma FormatXmlRawOfLines(lines: seq<string>)
    requires |lines| >= 1
    requires forall i :: 0 <= i < |lines| ==> LineOk(lines[i])
    ensures FormatXmlRaw(Join("", lines)) == Join("\n", Indented(lines, 0, PopupRule))
  {
    SplitBrokenLines(lines);
    KeptLines(lines);
    assert Kept(Split(BreakGaps(Join("", lines)), '\n')) == lines;
    var printed := Indented(lines, 0, PopupRule);
    assert FormatXmlRaw(Join("", lines)) == TrimEnd(Emit(printed));
    EmitJoin(printed);
    PrintedEnds(lines, PopupRule);
    TrimEndBreak(Join("\n", printed));
  }

  /** Breaking the joined lines apart and splitting at the breaks recovers them. */
  lemma SplitBrokenLines(lines: seq<string>)
    requires |lines| >= 1
    requires forall i :: 0 <= i < |lines| ==> LineOk(lines[i])
    ensures Split(BreakGaps(Join("", lines)), '\n') == lines
  {
    BreakGapsJoin(lines);
    NoBreaksInLines(lines);
    JoinSplit(lines, '\n');
  }

  lemma NoBreaksInLines(lines: seq<string>)
    requires forall i :: 0 <= i < |lines| ==> LineOk(lines[i])
    ensures forall j, k :: 0 <= j < |lines| && 0 <= k < |lines[j]| ==> lines[j][k] != '\n'
  {
    forall j, k | 0 <= j < |lines| && 0 <= k < |lines[j]|
      ensures lines[j][k] != '\n'
    {
      assert LineOk(lines[j]);
    }
  }

  /** popup.js `formatXmlRaw` on the compact text of a well-formed tree prints
      every tag on its own line, two spaces deeper for each enclosing element. */
  lemma FormatXmlRawOfTree(n: Node)
    requires Good(n)
    ensures FormatXmlRaw(Compact(n)) == Join("\n", Layout(n, 0))
  {
    LinesOk(n);
    FormatXmlRawOfLines(Lines(n));
    PopupLaysOut(n, 0);
  }

  /** The compact document begins with `<` and ends with `>`, so `trim` keeps it. */
  lemma CompactTrimmed(n: Node)
    requires Good(n)
    ensures |Compact(n)| >= 1 && Compact(n)[0] == '<' && Compact(n)[|Compact(n)| - 1] == '>'
    ensures Trim(Compact(n)) == Compact(n)
  {
    CompactEnds(n);
    BracketedTrimmed(Compact(n));
  }

  lemma CompactEnds(n: Node)
    requires Good(n)
    ensures |Compact(n)| >= 1 && Compact(n)[0] == '<' && Compact(n)[|Compact(n)| - 1] == '>'
  {
    LinesOk(n);
    var lines := Lines(n);
    assert LineOk(lines[0]) && LineOk(lines[|lines| - 1]);
    JoinHead("", lines);
    JoinLast("", lines);
  }

  lemma BracketedTrimmed(s: string)
    requires |s| >= 1 && s[0] == '<' && s[|s| - 1] == '>'
    ensures Trim(s) == s
  {
    TrimTrimmed(s);
  }

  // ---------------------------------------------------------------------------
  // panel.js `formatXml` as written, against the corrected rule.

  /** The regular expression `^<\w>.*$`: a bare tag whose name is one character. */
  predicate ShortTag(p: string) {
    && |p| >= 3 && p[0] == '<' && IsWord(p[1]) && p[2] == '>'
    && forall j :: 3 <= j < |p| ==> !IsLineTerminator(p[j])
  }

  /** The corrected opening test: `^<\w([^>]*[^/])?>.*$`, so that a bare tag with a
      one-character name opens too, and, as in popup.js, no closing tag on the line. */
  predicate FixedPanelOpens(p: string) {
    (PanelOpens(p) || ShortTag(p)) && !HasCloseTag(p)
  }

  const FixedPanelRule := Rule(PanelCloses, FixedPanelOpens)

  /** `formatXml` with the corrected opening test. */
  function FormatXmlFixed(xml: string): string {
    FormatXmlWith(xml, FixedPanelRule)
  }

  lemma FixedOpenTag(name: string)
    requires GoodName(name)
    ensures !PanelCloses(OpenTag(name)) && FixedPanelOpens(OpenTag(name))
  {
    var t := OpenTag(name);
    assert t[1] == name[0];
    forall j | 0 <= j < |t|
      ensures t[j] != '/'
    {
      if 1 <= j <= |name| {
        assert t[j] == name[j - 1];
      }
    }
    NoCloseTagWithoutSlash(t);
    if |name| == 1 {
      assert ShortTag(t);
    } else {
      var k := |name|;
      forall j | 2 <= j < k
        ensures t[j] != '>'
      {
        assert t[j] == name[j - 1];
      }
      assert t[k] == name[k - 1];
      assert TagEndsAt(t, k);
    }
  }

  lemma FixedCloseTag(name: string)
    requires GoodName(name)
    ensures PanelCloses(CloseTag(name)) && !FixedPanelOpens(CloseTag(name))
  {
    assert CloseTag(name)[2] == name[0];
  }

  lemma FixedInline(name: string, text: string)
    requires GoodName(name) && GoodText(text)
    ensures var line := OpenTag(name) + text + CloseTag(name);
      !PanelCloses(line) && !FixedPanelOpens(line)
  {
    var line := OpenTag(name) + text + CloseTag(name);
    var i := |name| + 2 + |text|;
    assert line[1] == name[0];
    assert line[i] == '<' && line[i + 1] == '/' && line[i + 2] == name[0];
    assert HasCloseTag(line);
  }

  lemma FixedLeaf(name: string)
    requires GoodName(name)
    ensures !PanelCloses(LeafTag(name)) && !FixedPanelOpens(LeafTag(name))
  {
    var t := LeafTag(name);
    assert t[1] == name[0];
    assert t[2] != '>' by {
      if |name| > 1 {
        assert t[2] == name[1];
      }
    }
    forall k | 2 <= k < |t| - 1
      ensures !TagEndsAt(t, k)
    {
      if k + 1 < |t| - 1 {
        if k <= |name| - 1 {
          assert t[k + 1] == name[k];
        } else {
          assert t[k + 1] == '/';
        }
      } else {
        assert t[k] == '/';
      }
    }
  }

  lemma {:induction false} FixedFits(n: Node)
    requires Good(n)
    ensures Fits(FixedPanelRule, n)
    decreases n
  {
    match n
    case Element(name, kids) =>
      FixedOpenTag(name);
      FixedCloseTag(name);
      forall i | 0 <= i < |kids|
        ensures Fits(FixedPanelRule, kids[i])
      {
        FixedFits(kids[i]);
      }
    case Inline(name, text) => FixedInline(name, text);
    case Leaf(name) => FixedLeaf(name);
  }

  /** With the corrected opening test, `formatXml` lays out every well-formed
      compact document as popup.js does. */
  lemma FixedFormatXmlOfTree(n: Node)
    requires Good(n)
    ensures FormatXmlFixed(Compact(n)) == Join("\n", Layout(n, 0))
    ensures FormatXmlFixed(Compact(n)) == FormatXmlRaw(Compact(n))
  {
    FormatXmlOfTree(n, FixedPanelRule);
    FixedFits(n);
    LaysOut(FixedPanelRule, n, 0);
    FormatXmlRawOfTree(n);
  }

  /** One step of the indentation machine. */
  lemma IndentedCons(x: string, rest: seq<string>, level: int, rule: Rule)
    ensures var at := if rule.closes(x) then level - 1 else level;
      Indented([x] + rest, level, rule)
      == [Pad(Clamp(at)) + x] + Indented(rest, if rule.opens(x) then at + 1 else at, rule)
  {
    assert ([x] + rest)[1..] == rest;
  }

  /** Two sibling elements with inline text. */
  const Siblings := Element("rr", [Inline("ii", "1"), Inline("ii", "2")])
  const SiblingLines := ["<rr>", "<ii>1</ii>", "<ii>2</ii>", "</rr>"]

  lemma SiblingsGood()
    ensures Good(Siblings)
  {
    assert GoodText("1") && GoodText("2");
    assert GoodName("rr") && GoodName("ii");
    var kids := [Inline("ii", "1"), Inline("ii", "2")];
    assert Good(kids[0]) && Good(kids[1]);
  }

  lemma SiblingsLines()
    ensures Lines(Siblings) == SiblingLines
  {
    var kids := [Inline("ii", "1"), Inline("ii", "2")];
    assert kids[1..] == [Inline("ii", "2")] && kids[1..][1..] == [];
    assert Lines(kids[0]) == ["<ii>1</ii>"] by {
      assert OpenTag("ii") + "1" + CloseTag("ii") == "<ii>1</ii>";
    }
    assert Lines(kids[1]) == ["<ii>2</ii>"] by {
      assert OpenTag("ii") + "2" + CloseTag("ii") == "<ii>2</ii>";
    }
    assert LinesOf(kids[1..]) == ["<ii>2</ii>"];
    assert LinesOf(kids) == ["<ii>1</ii>", "<ii>2</ii>"];
    assert OpenTag("rr") == "<rr>" && CloseTag("rr") == "</rr>";
    assert SiblingLines == ["<rr>"] + ["<ii>1</ii>", "<ii>2</ii>"] + ["</rr>"];
  }

  lemma SiblingsCompact()
    ensures Join("", SiblingLines) == "<rr><ii>1</ii><ii>2</ii></rr>"
  {
    SiblingsCompactTail();
    var lines := SiblingLines;
    JoinCons("", lines);
    assert lines[1..] == ["<ii>1</ii>", "<ii>2</ii>", "</rr>"];
    assert "<rr>" + "" == "<rr>";
    SiblingsText();
  }

  lemma SiblingsText()
    ensures "<rr>" + "<ii>1</ii><ii>2</ii></rr>" == "<rr><ii>1</ii><ii>2</ii></rr>"
  { }

  lemma SiblingsCompactTail()
    ensures Join("", ["<ii>1</ii>", "<ii>2</ii>", "</rr>"]) == "<ii>1</ii><ii>2</ii></rr>"
  {
    var lines := ["<ii>1</ii>", "<ii>2</ii>", "</rr>"];
    JoinCons("", lines);
    JoinCons("", lines[1..]);
    assert lines[1..] == ["<ii>2</ii>", "</rr>"];
    assert lines[1..][1..] == ["</rr>"];
    assert "<ii>2</ii>" + "" + "</rr>" == "<ii>2</ii></rr>";
    assert "<ii>1</ii>" + "" + "<ii>2</ii></rr>" == "<ii>1</ii><ii>2</ii></rr>";
  }

  lemma SiblingsLayout()
    ensures Layout(Siblings, 0) == ["<rr>", "  <ii>1</ii>", "  <ii>2</ii>", "</rr>"]
  {
    var kids := [Inline("ii", "1"), Inline("ii", "2")];
    assert kids[1..] == [Inline("ii", "2")] && kids[1..][1..] == [];
    assert Layout(kids[0], 1) == ["  <ii>1</ii>"] by {
      assert Pad(1) + OpenTag("ii") + "1" + CloseTag("ii") == "  <ii>1</ii>";
    }
    assert Layout(kids[1], 1) == ["  <ii>2</ii>"] by {
      assert Pad(1) + OpenTag("ii") + "2" + CloseTag("ii") == "  <ii>2</ii>";
    }
    assert LayoutOf(kids[1..], 1) == ["  <ii>2</ii>"];
    assert LayoutOf(kids, 1) == ["  <ii>1</ii>", "  <ii>2</ii>"];
    assert Pad(0) + OpenTag("rr") == "<rr>" && Pad(0) + CloseTag("rr") == "</rr>";
  }

  lemma SiblingsRules()
    ensures PanelOpens("<rr>") && PanelOpens("<ii>1</ii>") && PanelOpens("<ii>2</ii>")
    ensures !PanelCloses("<rr>") && !PanelCloses("<ii>1</ii>") && !PanelCloses("<ii>2</ii>")
    ensures PanelCloses("</rr>") && !PanelOpens("</rr>")
  {
    RootTagRules();
    ItemTagRules();
  }

  lemma RootTagRules()
    ensures PanelOpens("<rr>") && !PanelCloses("<rr>")
    ensures PanelCloses("</rr>") && !PanelOpens("</rr>")
  {
    assert PanelOpens("<rr>") by {
      assert TagEndsAt("<rr>", 2);
    }
  }

  lemma ItemTagRules()
    ensures PanelOpens("<ii>1</ii>") && PanelOpens("<ii>2</ii>")
    ensures !PanelCloses("<ii>1</ii>") && !PanelCloses("<ii>2</ii>")
  {
    assert PanelOpens("<ii>1</ii>") by {
      assert TagEndsAt("<ii>1</ii>", 2);
    }
    assert PanelOpens("<ii>2</ii>") by {
      assert TagEndsAt("<ii>2</ii>", 2);
    }
  }

  lemma SiblingsAsWritten()
    ensures Indented(SiblingLines, 0, PanelRule) == ["<rr>", "  <ii>1</ii>", "    <ii>2</ii>", "    </rr>"]
  {
    RootTagRules();
    SiblingsAsWrittenBody();
    IndentedCons("<rr>", ["<ii>1</ii>", "<ii>2</ii>", "</rr>"], 0, PanelRule);
    assert SiblingLines == ["<rr>"] + ["<ii>1</ii>", "<ii>2</ii>", "</rr>"];
    assert Pad(Clamp(0)) + "<rr>" == "<rr>";
  }

  lemma SiblingsAsWrittenBody()
    ensures Indented(["<ii>1</ii>", "<ii>2</ii>", "</rr>"], 1, PanelRule) == ["  <ii>1</ii>", "    <ii>2</ii>", "    </rr>"]
  {
    ItemTagRules();
    SiblingsAsWrittenTail();
    IndentedCons("<ii>1</ii>", ["<ii>2</ii>", "</rr>"], 1, PanelRule);
    assert ["<ii>1</ii>", "<ii>2</ii>", "</rr>"] == ["<ii>1</ii>"] + ["<ii>2</ii>", "</rr>"];
    SmallPads();
    assert Pad(Clamp(1)) + "<ii>1</ii>" == "  <ii>1</ii>";
  }

  lemma SiblingsAsWrittenTail()
    ensures Indented(["<ii>2</ii>", "</rr>"], 2, PanelRule) == ["    <ii>2</ii>", "    </rr>"]
  {
    SiblingsRules();
    SmallPads();
    IndentedCons("</rr>", [], 3, PanelRule);
    assert Indented(["</rr>"], 3, PanelRule) == ["    </rr>"] by {
      assert ["</rr>"] == ["</rr>"] + [];
      assert Pad(Clamp(2)) + "</rr>" == "    </rr>";
    }
    IndentedCons("<ii>2</ii>", ["</rr>"], 2, PanelRule);
    assert ["<ii>2</ii>", "</rr>"] == ["<ii>2</ii>"] + ["</rr>"];
    assert Pad(Clamp(2)) + "<ii>2</ii>" == "    <ii>2</ii>";
  }

  /** As written, two sibling elements with inline text drift right: each opens a
      level that nothing closes. */
  lemma PanelDriftsAfterInlineText()
    ensures FormatXml("<rr><ii>1</ii><ii>2</ii></rr>")
      == Join("\n", ["<rr>", "  <ii>1</ii>", "    <ii>2</ii>", "    </rr>"])
    ensures FormatXmlFixed("<rr><ii>1</ii><ii>2</ii></rr>")
      == Join("\n", ["<rr>", "  <ii>1</ii>", "  <ii>2</ii>", "</rr>"])
  {
    SiblingsGood();
    SiblingsLines();
    SiblingsCompact();
    SiblingsLayout();
    FormatXmlOfTree(Siblings, PanelRule);
    SiblingsAsWritten();
    FixedFormatXmlOfTree(Siblings);
  }

  /** An element with a one-character name holding an empty element. */
  const OneLetter := Element("a", [Leaf("bb")])
  const OneLetterLines := ["<a>", "<bb/>", "</a>"]

  lemma OneLetterShape()
    ensures Good(OneLetter)
    ensures Lines(OneLetter) == OneLetterLines
    ensures Compact(OneLetter) == "<a><bb/></a>"
  {
    var kids := [Leaf("bb")];
    assert kids[1..] == [];
    assert OpenTag("a") == "<a>" && CloseTag("a") == "</a>";
    assert Lines(kids[0]) == ["<bb/>"] by {
      assert LeafTag("bb") == "<bb/>";
    }
    assert LinesOf(kids) == ["<bb/>"];
    var lines := OneLetterLines;
    assert lines == ["<a>"] + ["<bb/>"] + ["</a>"];
    assert lines[1..] == ["<bb/>", "</a>"];
    assert lines[1..][1..] == ["</a>"];
    assert Join("", lines[1..]) == "<bb/></a>";
  }

  lemma OneLetterLayout()
    ensures Layout(OneLetter, 0) == ["<a>", "  <bb/>", "</a>"]
  {
    var kids := [Leaf("bb")];
    assert kids[1..] == [];
    assert Layout(kids[0], 1) == ["  <bb/>"] by {
      assert Pad(1) + LeafTag("bb") == "  <bb/>";
    }
    assert LayoutOf(kids, 1) == ["  <bb/>"];
    assert Pad(0) + OpenTag("a") == "<a>" && Pad(0) + CloseTag("a") == "</a>";
  }

  lemma OneLetterAsWritten()
    ensures Indented(OneLetterLines, 0, PanelRule) == ["<a>", "<bb/>", "</a>"]
  {
    OneLetterRules();
    OneLetterAsWrittenTail();
    IndentedCons("<a>", ["<bb/>", "</a>"], 0, PanelRule);
    assert OneLetterLines == ["<a>"] + ["<bb/>", "</a>"];
    assert Pad(Clamp(0)) + "<a>" == "<a>";
  }

  lemma OneLetterRules()
    ensures !PanelOpens("<a>") && !PanelCloses("<a>")
    ensures !PanelOpens("<bb/>") && !PanelCloses("<bb/>")
    ensures PanelCloses("</a>")
  {
    assert !PanelOpens("<bb/>") by {
      assert !TagEndsAt("<bb/>", 2);
    }
  }

  lemma OneLetterAsWrittenTail()
    ensures Indented(["<bb/>", "</a>"], 0, PanelRule) == ["<bb/>", "</a>"]
  {
    OneLetterRules();
    IndentedCons("</a>", [], 0, PanelRule);
    assert Indented(["</a>"], 0, PanelRule) == ["</a>"] by {
      assert ["</a>"] == ["</a>"] + [];
      assert Pad(Clamp(-1)) + "</a>" == "</a>";
    }
    IndentedCons("<bb/>", ["</a>"], 0, PanelRule);
    assert ["<bb/>", "</a>"] == ["<bb/>"] + ["</a>"];
    assert Pad(Clamp(0)) + "<bb/>" == "<bb/>";
  }

  /** As written, a bare tag with a one-character name does not open a level while
      its closing tag still closes one. */
  lemma PanelIgnoresOneLetterTags()
    ensures FormatXml("<a><bb/></a>") == Join("\n", ["<a>", "<bb/>", "</a>"])
    ensures FormatXmlFixed("<a><bb/></a>") == Join("\n", ["<a>", "  <bb/>", "</a>"])
  {
    OneLetterShape();
    OneLetterLayout();
    FormatXmlOfTree(OneLetter, PanelRule);
    OneLetterAsWritten();
    FixedFormatXmlOfTree(OneLetter);
  }
}
