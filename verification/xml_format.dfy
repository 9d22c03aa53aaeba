/** The observers' line-based XML re-indenters: popup.js `formatXmlRaw` (used when
    copying an XML payload) and panel.js `formatXml`. Both first break the text into
    lines at tag boundaries and then print every line behind two spaces per open
    level; they differ in how they break, whether they trim, and which lines open or
    close a level. */
module XmlFormat {
  import opened Text

  // ---------------------------------------------------------------------------
  // Breaking the text into lines.

  /** The length of the leading run of `\s` characters. */
  function SpaceRun(s: string): (n: nat)
    ensures n <= |s|
  {
    if |s| > 0 && IsSpace(s[0]) then 1 + SpaceRun(s[1..]) else 0
  }

  /** `SpaceRun` is the longest run of whitespace at the start of `s`, as `\s*`
      matches greedily. */
  lemma {:induction false} SpaceRunIsMaximal(s: string)
    ensures var n := SpaceRun(s);
      && (forall i :: 0 <= i < n ==> IsSpace(s[i]))
      && (n == |s| || !IsSpace(s[n]))
  {
    if |s| > 0 && IsSpace(s[0]) {
      SpaceRunIsMaximal(s[1..]);
    }
  }

  /** The length of the leading run of `/` characters. */
  function SlashRun(s: string): (n: nat)
    ensures n <= |s|
  {
    if |s| > 0 && s[0] == '/' then 1 + SlashRun(s[1..]) else 0
  }

  /** `SlashRun` is the longest run of slashes at the start of `s`. */
  lemma {:induction false} SlashRunIsMaximal(s: string)
    ensures var n := SlashRun(s);
      && (forall i :: 0 <= i < n ==> s[i] == '/')
      && (n == |s| || s[n] != '/')
  {
    if |s| > 0 && s[0] == '/' {
      SlashRunIsMaximal(s[1..]);
    }
  }

  /** `xml.replace(/(>)\s*(<)/g, '$1\n$2')` (popup.js): every `>` followed, after
      any whitespace, by `<` gets exactly one line break in place of that
      whitespace. The scan resumes after the `<` it consumed. */
  function BreakGaps(s: string): string
    decreases |s|
  {
    if |s| == 0 then ""
    else if GapAt(s) then ">\n<" + BreakGaps(s[GapEnd(s)..])
    else [s[0]] + BreakGaps(s[1..])
  }

  /** `s` starts with a `>`, then whitespace, then a `<`. */
  predicate GapAt(s: string) {
    |s| > 0 && s[0] == '>' && 1 + SpaceRun(s[1..]) < |s| && s[1 + SpaceRun(s[1..])] == '<'
  }

  /** Where the text after the `<` of a gap starts. */
  function GapEnd(s: string): (e: nat)
    requires GapAt(s)
    ensures 2 <= e <= |s|
  {
    2 + SpaceRun(s[1..])
  }

  // panel.js `xml.replace(/(>)(<)(\/*)/g, '$1\n$2$3')`: a line break goes between
  // `>` and `<`; the run of slashes after the `<` is consumed and written back.
  function BreakAdjacent(s: string): string
    decreases |s|
  {
    if |s| == 0 then ""
    else if |s| >= 2 && s[0] == '>' && s[1] == '<' then
      ">\n<" + s[2..2 + SlashRun(s[2..])] + BreakAdjacent(s[2 + SlashRun(s[2..])..])
    else [s[0]] + BreakAdjacent(s[1..])
  }

  /** A break between every adjacent `>` and `<`, and nothing else. */
  function InsertBreaks(s: string): string
    decreases |s|
  {
    if |s| < 2 then s
    else if s[0] == '>' && s[1] == '<' then ">\n" + InsertBreaks(s[1..])
    else [s[0]] + InsertBreaks(s[1..])
  }

  /** The popup's lines: `trim` each, and skip those left empty. */
  function Kept(parts: seq<string>): (r: seq<string>)
    ensures |r| <= |parts|
  {
    if |parts| == 0 then []
    else
      var t := Trim(parts[0]);
      (if t == [] then [] else [t]) + Kept(parts[1..])
  }

  /** Every line the popup keeps is non-empty and has no whitespace at either end. */
  lemma {:induction false} KeptTrimmed(parts: seq<string>)
    ensures forall i :: 0 <= i < |Kept(parts)| ==> Kept(parts)[i] != [] && Trimmed(Kept(parts)[i])
  {
    if |parts| > 0 {
      KeptTrimmed(parts[1..]);
      KeptTrimmedStep(parts);
    }
  }

  lemma KeptTrimmedStep(parts: seq<string>)
    requires |parts| > 0
    requires forall i :: 0 <= i < |Kept(parts[1..])| ==> Kept(parts[1..])[i] != [] && Trimmed(Kept(parts[1..])[i])
    ensures forall i :: 0 <= i < |Kept(parts)| ==> Kept(parts)[i] != [] && Trimmed(Kept(parts)[i])
  {
    var t := Trim(parts[0]);
    var rest := Kept(parts[1..]);
    if t == [] {
      KeptSkips(parts);
    } else {
      TrimIsTrimmed(parts[0]);
      KeptKeeps(parts);
      TrimmedCons(t, rest);
    }
  }

  lemma TrimmedCons(t: string, rest: seq<string>)
    requires t != [] && Trimmed(t)
    requires forall i :: 0 <= i < |rest| ==> rest[i] != [] && Trimmed(rest[i])
    ensures forall i :: 0 <= i < |[t] + rest| ==> ([t] + rest)[i] != [] && Trimmed(([t] + rest)[i])
  {
    forall i | 0 <= i < |[t] + rest|
      ensures ([t] + rest)[i] != [] && Trimmed(([t] + rest)[i])
    {
      if i > 0 {
        assert ([t] + rest)[i] == rest[i - 1];
      }
    }
  }

  // ---------------------------------------------------------------------------
  // Which lines open and close a level.

  /** `/<\/\w/.test(t)`: a closing tag somewhere in `t`. */
  predicate HasCloseTag(t: string) {
    exists i :: 0 <= i < |t| - 2 && t[i] == '<' && t[i + 1] == '/' && IsWord(t[i + 2])
  }

  predicate PopupCloses(t: string) {
    StartsWith(t, "</")
  }

  /** A line that starts a tag which is not a closing tag, a declaration or
      self-closing, ends with `>`, and holds no closing tag. */
  predicate PopupOpens(t: string) {
    && StartsWith(t, "<") && !StartsWith(t, "</") && !StartsWith(t, "<?")
    && !EndsWith(t, "/>") && EndsWith(t, ">") && !HasCloseTag(t)
  }

  /** Characters the regular-expression `.` does not match. */
  predicate IsLineTerminator(c: char) {
    c == '\n' || c == '\r' || c == '\U{2028}' || c == '\U{2029}'
  }

  /** `part.match(/^<\/\w/)`. */
  predicate PanelCloses(p: string) {
    |p| >= 3 && p[0] == '<' && p[1] == '/' && IsWord(p[2])
  }

  /** One way for `/^<\w[^>]*[^/]>.*$/` to match `p`: `[^>]*` covers `p[2..k]`,
      `[^/]` is `p[k]`, the `>` is `p[k + 1]` and `.*` the rest. */
  predicate TagEndsAt(p: string, k: int)
    requires 2 <= k < |p| - 1
  {
    && (forall j :: 2 <= j < k ==> p[j] != '>')
    && p[k] != '/' && p[k + 1] == '>'
    && (forall j :: k + 2 <= j < |p| ==> !IsLineTerminator(p[j]))
  }

  /** `part.match(/^<\w[^>]*[^/]>.*$/)`. */
  predicate PanelOpens(p: string) {
    |p| >= 4 && p[0] == '<' && IsWord(p[1]) && exists k :: 2 <= k < |p| - 1 && TagEndsAt(p, k)
  }

  /** How one formatter treats a line. */
  datatype Rule = Rule(closes: string -> bool, opens: string -> bool)

  const PopupRule := Rule(PopupCloses, PopupOpens)
  const PanelRule := Rule(PanelCloses, PanelOpens)

  // ---------------------------------------------------------------------------
  // The indentation machine shared by both formatters.

  /** `Math.max(0, indentLevel)`. */
  function Clamp(n: int): nat {
    if n < 0 then 0 else n
  }

  /** The lines as printed, starting at level `level`: a closing line steps back
      before it is printed, an opening line steps in after. */
  function Indented(lines: seq<string>, level: int, rule: Rule): (r: seq<string>)
    ensures |r| == |lines|
  {
    if |lines| == 0 then []
    else
      var at := if rule.closes(lines[0]) then level - 1 else level;
      [Pad(Clamp(at)) + lines[0]] + Indented(lines[1..], if rule.opens(lines[0]) then at + 1 else at, rule)
  }

  /** The number of lines `p` holds for. */
  function Count(lines: seq<string>, p: string -> bool): (n: nat)
    ensures n <= |lines|
  {
    if |lines| == 0 then 0 else (if p(lines[0]) then 1 else 0) + Count(lines[1..], p)
  }

  /** The level after `lines`: it is never clamped, only the printed indentation is. */
  function LevelAfter(lines: seq<string>, level: int, rule: Rule): int {
    level + Count(lines, rule.opens) - Count(lines, rule.closes)
  }

  /** Each line followed by a line break: the accumulated `formatted`. */
  function Emit(lines: seq<string>): string {
    if |lines| == 0 then "" else lines[0] + "\n" + Emit(lines[1..])
  }

  /** popup.js `formatXmlRaw`. */
  function FormatXmlRaw(xml: string): (r: string)
    ensures r == [] || !IsSpace(r[|r| - 1])
  {
    TrimEnd(Emit(Indented(Kept(Split(BreakGaps(xml), '\n')), 0, PopupRule)))
  }

  /** panel.js `formatXml` with its line rule made a parameter. */
  function FormatXmlWith(xml: string, rule: Rule): (r: string)
    ensures Trimmed(r)
  {
    var printed := Emit(Indented(Split(BreakAdjacent(xml), '\n'), 0, rule));
    TrimIsTrimmed(printed);
    Trim(printed)
  }

  /** panel.js `formatXml`. */
  function FormatXml(xml: string): (r: string)
    ensures Trimmed(r)
  {
    FormatXmlWith(xml, PanelRule)
  }

  // ---------------------------------------------------------------------------
  // The indentation of every line.

  lemma {:induction false} CountAppend(a: seq<string>, b: seq<string>, p: string -> bool)
    ensures Count(a + b, p) == Count(a, p) + Count(b, p)
  {
    if |a| == 0 {
      assert a + b == b;
    } else {
      assert (a + b)[1..] == a[1..] + b;
      CountAppend(a[1..], b, p);
    }
  }

  /** Line `i` is printed behind two spaces for every opening line before it less
      every closing line up to and including it, and never behind a negative
      number of spaces. */
  lemma {:induction false} IndentOfLine(lines: seq<string>, level: int, rule: Rule, i: nat)
    requires i < |lines|
    ensures Indented(lines, level, rule)[i] ==
      Pad(Clamp(level + Count(lines[..i], rule.opens) - Count(lines[..i + 1], rule.closes))) + lines[i]
  {
    var at := if rule.closes(lines[0]) then level - 1 else level;
    var next := if rule.opens(lines[0]) then at + 1 else at;
    if i == 0 {
      IndentOfFirst(lines, level, rule);
    } else {
      IndentOfLine(lines[1..], next, rule, i - 1);
      IndentOfLineStep(lines, level, rule, i, next);
    }
  }

  lemma IndentOfFirst(lines: seq<string>, level: int, rule: Rule)
    requires 0 < |lines|
    ensures Indented(lines, level, rule)[0] ==
      Pad(Clamp(level + Count(lines[..0], rule.opens) - Count(lines[..1], rule.closes))) + lines[0]
  {
    LevelOfLine(lines, level, rule, 0);
    IndentedHead(lines, level, rule);
  }

  /** The inductive step of `IndentOfLine`, with the first line's level change
      named `next`. */
  lemma IndentOfLineStep(lines: seq<string>, level: int, rule: Rule, i: nat, next: int)
    requires 0 < i < |lines|
    requires next == (var at := if rule.closes(lines[0]) then level - 1 else level;
      if rule.opens(lines[0]) then at + 1 else at)
    requires Indented(lines[1..], next, rule)[i - 1] ==
      Pad(Clamp(next + Count(lines[1..][..i - 1], rule.opens) - Count(lines[1..][..i], rule.closes))) + lines[1..][i - 1]
    ensures Indented(lines, level, rule)[i] ==
      Pad(Clamp(level + Count(lines[..i], rule.opens) - Count(lines[..i + 1], rule.closes))) + lines[i]
  {
    LevelOfLine(lines, level, rule, i);
    IndentStep(lines, level, rule, i);
    var d := level + Count(lines[..i], rule.opens) - Count(lines[..i + 1], rule.closes);
    var e := next + Count(lines[1..][..i - 1], rule.opens) - Count(lines[1..][..i], rule.closes);
    assert d == e;
    assert lines[1..][i - 1] == lines[i];
  }

  /** One step of `IndentOfLine`: line `i` is line `i - 1` of the rest. */
  lemma IndentStep(lines: seq<string>, level: int, rule: Rule, i: nat)
    requires 0 < i < |lines|
    ensures var at := if rule.closes(lines[0]) then level - 1 else level;
      var next := if rule.opens(lines[0]) then at + 1 else at;
      Indented(lines, level, rule)[i] == Indented(lines[1..], next, rule)[i - 1]
  { }

  /** The counting behind `IndentOfLine`: the level of line `i` is the level of line
      `i - 1` of the rest once the first line has been applied. */
  lemma LevelOfLine(lines: seq<string>, level: int, rule: Rule, i: nat)
    requires i < |lines|
    ensures var at := if rule.closes(lines[0]) then level - 1 else level;
      var next := if rule.opens(lines[0]) then at + 1 else at;
      level + Count(lines[..i], rule.opens) - Count(lines[..i + 1], rule.closes)
        == if i == 0 then at
           else next + Count(lines[1..][..i - 1], rule.opens) - Count(lines[1..][..i], rule.closes)
  {
    CountOne(lines[0], rule.closes);
    assert lines[..1] == [lines[0]];
    if i == 0 {
      assert lines[..0] == [];
    } else {
      CountOne(lines[0], rule.opens);
      assert lines[..i] == [lines[0]] + lines[1..][..i - 1];
      assert lines[..i + 1] == [lines[0]] + lines[1..][..i];
      CountAppend([lines[0]], lines[1..][..i - 1], rule.opens);
      CountAppend([lines[0]], lines[1..][..i], rule.closes);
    }
  }

  lemma CountOne(x: string, p: string -> bool)
    ensures Count([x], p) == if p(x) then 1 else 0
  {
    assert [x][1..] == [];
  }

  lemma LevelAfterAppend(a: seq<string>, b: seq<string>, level: int, rule: Rule)
    ensures LevelAfter(a + b, level, rule) == LevelAfter(b, LevelAfter(a, level, rule), rule)
  {
    CountAppend(a, b, rule.opens);
    CountAppend(a, b, rule.closes);
  }

  /** Printing two blocks of lines one after the other: the second starts at the
      level the first leaves. */
  lemma {:induction false} IndentedAppend(a: seq<string>, b: seq<string>, level: int, rule: Rule)
    ensures Indented(a + b, level, rule) == Indented(a, level, rule) + Indented(b, LevelAfter(a, level, rule), rule)
  {
    if |a| == 0 {
      assert a + b == b;
    } else {
      var at := if rule.closes(a[0]) then level - 1 else level;
      var next := if rule.opens(a[0]) then at + 1 else at;
      var head := [Pad(Clamp(at)) + a[0]];
      var ab := a + b;
      ConsAppend(a, b);
      IndentedHead(ab, level, rule);
      IndentedHead(a, level, rule);
      IndentedAppend(a[1..], b, next, rule);
      LevelAfterHead(a, level, rule);
      ConcatAssoc(head, Indented(a[1..], next, rule), Indented(b, LevelAfter(a, level, rule), rule));
    }
  }

  lemma ConsAppend(a: seq<string>, b: seq<string>)
    requires |a| > 0
    ensures (a + b)[0] == a[0] && (a + b)[1..] == a[1..] + b
  { }

  /** The first line of a block, and the rest from the level it leaves. */
  lemma IndentedHead(lines: seq<string>, level: int, rule: Rule)
    requires |lines| > 0
    ensures var at := if rule.closes(lines[0]) then level - 1 else level;
      var next := if rule.opens(lines[0]) then at + 1 else at;
      Indented(lines, level, rule) == [Pad(Clamp(at)) + lines[0]] + Indented(lines[1..], next, rule)
  { }

  lemma LevelAfterHead(lines: seq<string>, level: int, rule: Rule)
    requires |lines| > 0
    ensures var at := if rule.closes(lines[0]) then level - 1 else level;
      var next := if rule.opens(lines[0]) then at + 1 else at;
      LevelAfter(lines, level, rule) == LevelAfter(lines[1..], next, rule)
  { }

  // ---------------------------------------------------------------------------
  // Both formatters change only whitespace.

  /** `s` with its whitespace removed. */
  function NonSpace(s: string): string {
    if |s| == 0 then "" else (if IsSpace(s[0]) then "" else [s[0]]) + NonSpace(s[1..])
  }

  /** The non-whitespace text of several lines, in order. */
  function NonSpaceAll(parts: seq<string>): string {
    if |parts| == 0 then "" else NonSpace(parts[0]) + NonSpaceAll(parts[1..])
  }

  lemma {:induction false} NonSpaceAppend(a: string, b: string)
    ensures NonSpace(a + b) == NonSpace(a) + NonSpace(b)
  {
    if |a| == 0 {
      assert a + b == b;
    } else {
      assert (a + b)[1..] == a[1..] + b;
      NonSpaceAppend(a[1..], b);
    }
  }

  lemma {:induction false} NonSpaceBlank(s: string)
    requires forall i :: 0 <= i < |s| ==> IsSpace(s[i])
    ensures NonSpace(s) == ""
  {
    if |s| > 0 {
      NonSpaceBlank(s[1..]);
    }
  }

  lemma NonSpaceTrim(s: string)
    ensures NonSpace(TrimStart(s)) == NonSpace(s)
    ensures NonSpace(TrimEnd(s)) == NonSpace(s)
    ensures NonSpace(Trim(s)) == NonSpace(s)
  {
    var t := TrimStart(s);
    assert s == s[..|s| - |t|] + t;
    NonSpaceAppend(s[..|s| - |t|], t);
    NonSpaceBlank(s[..|s| - |t|]);
    TrimEndNonSpace(s);
    TrimEndNonSpace(t);
  }

  lemma TrimEndNonSpace(s: string)
    ensures NonSpace(TrimEnd(s)) == NonSpace(s)
  {
    var e := TrimEnd(s);
    assert s == e + s[|e|..];
    NonSpaceAppend(e, s[|e|..]);
    NonSpaceBlank(s[|e|..]);
  }

  lemma NonSpacePadded(n: nat, line: string)
    ensures NonSpace(Pad(n) + line + "\n") == NonSpace(line)
  {
    NonSpaceAppend(Pad(n) + line, "\n");
    NonSpaceAppend(Pad(n), line);
    NonSpaceBlank(Pad(n));
    NonSpaceBlank("\n");
  }

  lemma {:induction false} NonSpaceJoin(parts: seq<string>)
    ensures NonSpace(Join("\n", parts)) == NonSpaceAll(parts)
  {
    if |parts| == 1 {
    } else if |parts| > 1 {
      NonSpaceJoin(parts[1..]);
      NonSpaceAppend(parts[0] + "\n", Join("\n", parts[1..]));
      NonSpaceAppend(parts[0], "\n");
      NonSpaceBlank("\n");
    }
  }

  lemma NonSpaceOfTrim(s: string)
    ensures NonSpace(Trim(s)) == NonSpace(s)
  {
    NonSpaceTrim(s);
  }

  lemma NonSpaceAllCons(t: string, rest: seq<string>)
    ensures NonSpaceAll([t] + rest) == NonSpace(t) + NonSpaceAll(rest)
  {
    assert ([t] + rest)[1..] == rest;
  }

  lemma {:induction false} NonSpaceKept(parts: seq<string>)
    ensures NonSpaceAll(Kept(parts)) == NonSpaceAll(parts)
  {
    if |parts| > 0 {
      NonSpaceKept(parts[1..]);
      KeptStep(parts);
    }
  }

  /** One step of `NonSpaceKept`: the first line, trimmed or skipped, adds the same
      non-whitespace text as before. */
  lemma KeptStep(parts: seq<string>)
    requires |parts| > 0
    ensures NonSpaceAll(Kept(parts)) == NonSpace(parts[0]) + NonSpaceAll(Kept(parts[1..]))
  {
    var t := Trim(parts[0]);
    NonSpaceOfTrim(parts[0]);
    if t == [] {
      KeptSkips(parts);
    } else {
      KeptKeeps(parts);
      NonSpaceAllCons(t, Kept(parts[1..]));
    }
  }

  /** A line that trims to nothing is skipped. */
  lemma KeptSkips(parts: seq<string>)
    requires |parts| > 0 && Trim(parts[0]) == []
    ensures Kept(parts) == Kept(parts[1..])
  { }

  /** Any other line is kept, trimmed. */
  lemma KeptKeeps(parts: seq<string>)
    requires |parts| > 0 && Trim(parts[0]) != []
    ensures Kept(parts) == [Trim(parts[0])] + Kept(parts[1..])
  { }

  lemma {:induction false} NonSpaceEmit(lines: seq<string>, level: int, rule: Rule)
    ensures NonSpace(Emit(Indented(lines, level, rule))) == NonSpaceAll(lines)
  {
    if |lines| > 0 {
      var at := if rule.closes(lines[0]) then level - 1 else level;
      var next := if rule.opens(lines[0]) then at + 1 else at;
      var r := Indented(lines, level, rule);
      NonSpaceEmit(lines[1..], next, rule);
      assert r[1..] == Indented(lines[1..], next, rule);
      NonSpaceAppend(r[0] + "\n", Emit(r[1..]));
      NonSpacePadded(Clamp(at), lines[0]);
    }
  }

  /** The leading whitespace run of `t` has no non-whitespace text. */
  lemma {:induction false} NonSpaceRun(t: string)
    ensures NonSpace(t[..SpaceRun(t)]) == ""
  {
    if |t| > 0 && IsSpace(t[0]) {
      NonSpaceRun(t[1..]);
      assert t[..SpaceRun(t)][1..] == t[1..][..SpaceRun(t[1..])];
    }
  }

  lemma NonSpaceChar(c: char)
    ensures NonSpace([c]) == if IsSpace(c) then "" else [c]
  {
    assert [c][1..] == [];
  }

  lemma NonSpaceBeforeOpen(ws: string, rest: string)
    requires NonSpace(ws) == ""
    ensures NonSpace(ws + ("<" + rest)) == "<" + NonSpace(rest)
  {
    NonSpaceAppend(ws, "<" + rest);
    NonSpaceAppend("<", rest);
    NonSpaceChar('<');
  }

  /** A gap between `>` and `<` that holds only whitespace. */
  lemma NonSpaceGap(ws: string, rest: string)
    requires NonSpace(ws) == ""
    ensures NonSpace(">" + (ws + ("<" + rest))) == "><" + NonSpace(rest)
  {
    NonSpaceBeforeOpen(ws, rest);
    NonSpaceAppend(">", ws + ("<" + rest));
    NonSpaceChar('>');
    assert ">" + ("<" + NonSpace(rest)) == "><" + NonSpace(rest);
  }

  lemma NonSpaceBreak(rest: string)
    ensures NonSpace(">\n<" + rest) == "><" + NonSpace(rest)
  {
    assert ">\n<" + rest == ">" + ("\n" + ("<" + rest));
    NonSpaceAppend(">", "\n" + ("<" + rest));
    NonSpaceAppend("\n", "<" + rest);
    NonSpaceAppend("<", rest);
  }

  lemma {:induction false} NonSpaceBreakGaps(s: string)
    ensures NonSpace(BreakGaps(s)) == NonSpace(s)
    decreases |s|
  {
    if |s| > 0 {
      if GapAt(s) {
        NonSpaceBreakGaps(s[GapEnd(s)..]);
        BreakGapsGapStep(s);
      } else {
        NonSpaceBreakGaps(s[1..]);
        BreakGapsCharStep(s);
      }
    }
  }

  /** A gap `BreakGaps` replaces: the text before the rest is `><` either way. */
  lemma BreakGapsGapStep(s: string)
    requires GapAt(s)
    ensures NonSpace(BreakGaps(s)) == "><" + NonSpace(BreakGaps(s[GapEnd(s)..]))
    ensures NonSpace(s) == "><" + NonSpace(s[GapEnd(s)..])
  {
    var n := SpaceRun(s[1..]);
    var ws := s[1..][..n];
    assert GapEnd(s) == 2 + n;
    NonSpaceRun(s[1..]);
    GapParts(s, n);
    NonSpaceGap(ws, s[2 + n..]);
    BreakGapsAtGap(s);
    NonSpaceBreak(BreakGaps(s[2 + n..]));
  }

  lemma GapParts(s: string, n: nat)
    requires 1 + n < |s| && s[0] == '>' && s[1 + n] == '<'
    ensures s == ">" + (s[1..][..n] + ("<" + s[2 + n..]))
  { }

  lemma BreakGapsAtGap(s: string)
    requires GapAt(s)
    ensures BreakGaps(s) == ">\n<" + BreakGaps(s[GapEnd(s)..])
  { }

  /** A character `BreakGaps` copies. */
  lemma BreakGapsCharStep(s: string)
    requires |s| > 0 && !GapAt(s)
    ensures NonSpace(BreakGaps(s)) == NonSpace([s[0]]) + NonSpace(BreakGaps(s[1..]))
    ensures NonSpace(s) == NonSpace([s[0]]) + NonSpace(s[1..])
  {
    BreakGapsCopies(s);
    NonSpaceAppend([s[0]], BreakGaps(s[1..]));
    HeadTail(s);
    NonSpaceAppend([s[0]], s[1..]);
  }

  lemma BreakGapsCopies(s: string)
    requires |s| > 0 && !GapAt(s)
    ensures BreakGaps(s) == [s[0]] + BreakGaps(s[1..])
  { }

  lemma HeadTail(s: string)
    requires |s| > 0
    ensures s == [s[0]] + s[1..]
  { }

  lemma {:induction false} NonSpaceInsertBreaks(s: string)
    ensures NonSpace(InsertBreaks(s)) == NonSpace(s)
    decreases |s|
  {
    if |s| >= 2 {
      NonSpaceInsertBreaks(s[1..]);
      assert s == [s[0]] + s[1..];
      NonSpaceAppend([s[0]], s[1..]);
      if s[0] == '>' && s[1] == '<' {
        NonSpaceAppend(">\n", InsertBreaks(s[1..]));
        assert ">\n"[1..] == "\n";
      } else {
        NonSpaceAppend([s[0]], InsertBreaks(s[1..]));
      }
    }
  }

  /** `InsertBreaks` copies a leading run of slashes unchanged. */
  lemma {:induction false} InsertBreaksSlashRun(u: string)
    ensures var k := SlashRun(u); InsertBreaks(u) == u[..k] + InsertBreaks(u[k..])
    decreases |u|
  {
    var k := SlashRun(u);
    if k == 0 {
      assert u[..0] == [] && u[0..] == u;
    } else {
      InsertBreaksSlashRun(u[1..]);
      InsertBreaksSlashStep(u, k);
    }
  }

  /** One step of `InsertBreaksSlashRun`: a leading slash is copied. */
  lemma InsertBreaksSlashStep(u: string, k: nat)
    requires 0 < k == SlashRun(u)
    requires InsertBreaks(u[1..]) == u[1..][..SlashRun(u[1..])] + InsertBreaks(u[1..][SlashRun(u[1..])..])
    ensures InsertBreaks(u) == u[..k] + InsertBreaks(u[k..])
  {
    assert u[0] == '/' && SlashRun(u[1..]) == k - 1;
    InsertBreaksCopies(u);
    SliceCons(u, k);
    ConcatAssoc([u[0]], u[1..][..k - 1], InsertBreaks(u[k..]));
  }

  /** Any character but the `>` of an adjacent `><` is copied. */
  lemma InsertBreaksCopies(u: string)
    requires |u| > 0 && !(|u| >= 2 && u[0] == '>' && u[1] == '<')
    ensures InsertBreaks(u) == [u[0]] + InsertBreaks(u[1..])
  {
    if |u| < 2 {
      assert u[1..] == [];
    }
  }

  lemma SliceCons(u: string, k: nat)
    requires 0 < k <= |u|
    ensures u[..k] == [u[0]] + u[1..][..k - 1] && u[k..] == u[1..][k - 1..]
  { }

  /** The panel's replacement, slashes and all, only inserts a line break into every
      adjacent `><`. */
  lemma {:induction false} BreakAdjacentInsertsBreaks(s: string)
    ensures BreakAdjacent(s) == InsertBreaks(s)
    decreases |s|
  {
    if |s| >= 2 && s[0] == '>' && s[1] == '<' {
      var n := SlashRun(s[2..]);
      BreakAdjacentInsertsBreaks(s[2 + n..]);
      AdjacentPairStep(s);
    } else if |s| > 0 {
      BreakAdjacentInsertsBreaks(s[1..]);
      AdjacentCharStep(s);
    }
  }

  /** An adjacent `><` and the slashes after it: both replacements write the same
      text before the rest. */
  lemma AdjacentPairStep(s: string)
    requires |s| >= 2 && s[0] == '>' && s[1] == '<'
    ensures var n := SlashRun(s[2..]);
      && BreakAdjacent(s) == ">\n<" + s[2..2 + n] + BreakAdjacent(s[2 + n..])
      && InsertBreaks(s) == ">\n<" + s[2..2 + n] + InsertBreaks(s[2 + n..])
  {
    InsertBreaksAfterPair(s);
  }

  lemma InsertBreaksAfterPair(s: string)
    requires |s| >= 2 && s[0] == '>' && s[1] == '<'
    ensures var n := SlashRun(s[2..]);
      InsertBreaks(s) == ">\n<" + s[2..2 + n] + InsertBreaks(s[2 + n..])
  {
    var t := s[1..];
    SliceOfTail(s);
    var n := SlashRun(s[2..]);
    assert n == SlashRun(t[1..]);
    InsertBreaksPair(t);
    SliceShift(s, 1, n);
    var run, rest := s[2..2 + n], InsertBreaks(s[2 + n..]);
    assert InsertBreaks(t) == "<" + run + rest;
    InsertBreaksAtPair(s);
    PairText(run, rest);
  }

  lemma InsertBreaksAtPair(s: string)
    requires |s| >= 2 && s[0] == '>' && s[1] == '<'
    ensures InsertBreaks(s) == ">\n" + InsertBreaks(s[1..])
  { }

  lemma SliceOfTail(s: string)
    requires |s| >= 2
    ensures s[1..][1..] == s[2..]
  { }

  lemma SliceShift(s: string, k: nat, n: nat)
    requires k + 1 + n <= |s|
    ensures s[k..][1..1 + n] == s[k + 1..k + 1 + n] && s[k..][1 + n..] == s[k + 1 + n..]
  { }

  lemma PairText(a: string, b: string)
    ensures ">\n" + ("<" + a + b) == ">\n<" + a + b
  { }

  /** `InsertBreaks` copies a `<` and the slashes after it. */
  lemma InsertBreaksPair(t: string)
    requires |t| >= 1 && t[0] == '<'
    ensures var n := SlashRun(t[1..]);
      InsertBreaks(t) == "<" + t[1..1 + n] + InsertBreaks(t[1 + n..])
  {
    var u := t[1..];
    var n := SlashRun(u);
    InsertBreaksCopies(t);
    InsertBreaksSlashRun(u);
    SliceOfSlice(t, 1, n);
    ConcatAssoc("<", t[1..1 + n], InsertBreaks(t[1 + n..]));
  }

  lemma SliceOfSlice(t: string, i: nat, n: nat)
    requires i + n <= |t|
    ensures t[i..][..n] == t[i..i + n] && t[i..][n..] == t[i + n..]
  { }


  /** Any other character: both replacements copy it. */
  lemma AdjacentCharStep(s: string)
    requires |s| > 0 && !(|s| >= 2 && s[0] == '>' && s[1] == '<')
    ensures BreakAdjacent(s) == [s[0]] + BreakAdjacent(s[1..])
    ensures InsertBreaks(s) == [s[0]] + InsertBreaks(s[1..])
  {
    if |s| < 2 {
      assert s[1..] == [];
    }
  }

  /** Whatever the input, `formatXmlRaw` keeps every non-whitespace character, in
      order, and adds none. */
  lemma FormatXmlRawOnlyWhitespace(xml: string)
    ensures NonSpace(FormatXmlRaw(xml)) == NonSpace(xml)
  {
    var broken := BreakGaps(xml);
    var parts := Split(broken, '\n');
    var kept := Kept(parts);
    NonSpaceBreakGaps(xml);
    SplitJoin(broken, '\n');
    NonSpaceJoin(parts);
    NonSpaceKept(parts);
    NonSpaceEmit(kept, 0, PopupRule);
    TrimEndNonSpace(Emit(Indented(kept, 0, PopupRule)));
  }

  /** Whatever the input and the line rule, panel `formatXml` keeps every
      non-whitespace character, in order, and adds none. */
  lemma FormatXmlOnlyWhitespace(xml: string, rule: Rule)
    ensures NonSpace(FormatXmlWith(xml, rule)) == NonSpace(xml)
  {
    var broken := BreakAdjacent(xml);
    var parts := Split(broken, '\n');
    BreakAdjacentInsertsBreaks(xml);
    NonSpaceInsertBreaks(xml);
    SplitJoin(broken, '\n');
    NonSpaceJoin(parts);
    NonSpaceEmit(parts, 0, rule);
    NonSpaceTrim(Emit(Indented(parts, 0, rule)));
  }

  /** After the panel's replacement no `>` is directly followed by `<`. */
  lemma {:induction false} InsertBreaksSeparates(s: string, i: nat)
    requires i + 1 < |InsertBreaks(s)|
    ensures !(InsertBreaks(s)[i] == '>' && InsertBreaks(s)[i + 1] == '<')
    decreases |s|
  {
    if |s| >= 2 {
      var r := InsertBreaks(s);
      var tail := InsertBreaks(s[1..]);
      if s[0] == '>' && s[1] == '<' {
        if i >= 2 {
          InsertBreaksSeparates(s[1..], i - 2);
        }
      } else {
        if i >= 1 {
          InsertBreaksSeparates(s[1..], i - 1);
        } else {
          assert r[0] == s[0];
          if |s[1..]| >= 2 {
            assert tail[0] == s[1];
          } else {
            assert tail == s[1..];
          }
        }
      }
    }
  }
}
