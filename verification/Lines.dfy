/** The line patterns of `renderMarkdown`, and the lines it works on. */
module Lines {
  import opened Text

  const MAX_INPUT := 200_000

  /** The control characters that are stripped: all below U+0020 but tab, line feed, carriage return. */
  predicate IsStripped(c: char) {
    c <= '\U{0008}' || c == '\U{000B}' || c == '\U{000C}' || '\U{000E}' <= c <= '\U{001F}'
  }

  function Strip(s: string): (r: string)
    ensures forall k :: 0 <= k < |r| ==> !IsStripped(r[k])
  {
    if s == "" then ""
    else if IsStripped(s[0]) then Strip(s[1..])
    else [s[0]] + Strip(s[1..])
  }

  /** CR LF and lone CR become LF. */
  function Normalize(s: string): (r: string)
    ensures Lacks(r, '\r')
    ensures Lacks(s, NUL) ==> Lacks(r, NUL)
  {
    if s == "" then ""
    else if Has(s, 0, "\r\n") then ['\n'] + Normalize(s[2..])
    else if s[0] == '\r' then ['\n'] + Normalize(s[1..])
    else [s[0]] + Normalize(s[1..])
  }

  lemma {:induction false} StripCut(a: string, b: string)
    ensures Strip(a + b) == Strip(a) + Strip(b)
  {
    if a == "" {
      assert a + b == b;
    } else {
      StripCut(a[1..], b);
      assert (a + b)[1..] == a[1..] + b;
    }
  }

  /** The control characters but tab, line feed and carriage return are lost; every other character is kept in its place. */
  lemma StripKeeps(a: string, c: char, b: string)
    ensures var lost := c < ' ' && c != '\t' && c != '\n' && c != '\r';
            Strip(a + [c] + b) == Strip(a) + (if lost then "" else [c]) + Strip(b)
  {
    StripCut(a + [c], b);
    StripCut(a, [c]);
    assert [c][1..] == "" && Strip("") == "";
  }

  /** The length of the line break or of the single character that a text begins with. */
  function HeadLength(s: string): (n: nat)
    requires s != ""
    ensures 1 <= n <= |s|
  {
    if |s| >= 2 && s[0] == '\r' && s[1] == '\n' then 2 else 1
  }

  lemma NormalizeUnfold(s: string)
    requires s != ""
    ensures Normalize(s) == [if s[0] == '\r' then '\n' else s[0]] + Normalize(s[HeadLength(s)..])
  {
    assert |s| >= 2 ==> s[0..2] == [s[0], s[1]];
  }

  /** No CR LF spans the point where `a` and `b` meet. */
  predicate NoBreakMeets(a: string, b: string) {
    a != "" && b != "" ==> !(a[|a| - 1] == '\r' && b[0] == '\n')
  }

  lemma HeadCut(a: string, b: string)
    requires a != "" && NoBreakMeets(a, b)
    ensures var n := HeadLength(a);
            HeadLength(a + b) == n && (a + b)[n..] == a[n..] + b && (a + b)[0] == a[0] && NoBreakMeets(a[n..], b)
  {
    assert |a| >= 2 ==> (a + b)[1] == a[1];
    assert |a| == 1 && b != "" ==> (a + b)[1] == b[0];
  }

  /** Texts on both sides of a point inside no CR LF are normalized independently. */
  lemma {:induction false} NormalizeCut(a: string, b: string)
    requires NoBreakMeets(a, b)
    ensures Normalize(a + b) == Normalize(a) + Normalize(b)
    decreases |a|
  {
    if a == "" {
      assert a + b == b && Normalize(a) == "";
    } else {
      NormalizeCutHead(a, b);
    }
  }

  lemma {:induction false} NormalizeCutHead(a: string, b: string)
    requires a != "" && NoBreakMeets(a, b)
    ensures Normalize(a + b) == Normalize(a) + Normalize(b)
    decreases |a|, 0
  {
    hide Normalize, HeadLength, NoBreakMeets;
    var n := HeadLength(a);
    HeadCut(a, b);
    NormalizeUnfold(a);
    NormalizeUnfold(a + b);
    NormalizeCut(a[n..], b);
    Regroup([if a[0] == '\r' then '\n' else a[0]], Normalize(a[n..]), Normalize(b));
  }

  lemma NormalizeOne(s: string)
    requires s != "" && HeadLength(s) == |s|
    ensures Normalize(s) == [if s[0] == '\r' then '\n' else s[0]]
  {
    NormalizeUnfold(s);
    assert s[|s|..] == "";
  }

  /** A character that is no part of a line break is kept in its place. */
  lemma NormalizeKeeps(a: string, c: char, b: string)
    requires c != '\r' && c != '\n'
    ensures Normalize(a + [c] + b) == Normalize(a) + [c] + Normalize(b)
  {
    hide Normalize;
    NormalizeCut(a + [c], b);
    NormalizeCut(a, [c]);
    NormalizeOne([c]);
  }

  /** A whole line break, of whichever kind, becomes one line feed in its place. */
  lemma NormalizeBreak(a: string, line: string, b: string)
    requires line == "\r\n" || line == "\r" || line == "\n"
    requires line == "\r" ==> b == "" || b[0] != '\n'
    requires line == "\n" ==> a == "" || a[|a| - 1] != '\r'
    ensures Normalize(a + line + b) == Normalize(a) + "\n" + Normalize(b)
  {
    hide Normalize;
    NormalizeCut(a + line, b);
    NormalizeCut(a, line);
    NormalizeOne(line);
  }

  ghost predicate CleanLines(lines: seq<string>, c: char) {
    forall k :: 0 <= k < |lines| ==> Lacks(lines[k], c)
  }

  /** `split('\n')`: always at least one line. */
  function SplitLines(s: string): (lines: seq<string>)
    ensures |lines| >= 1
  {
    if s == "" then [""]
    else
      var rest := SplitLines(s[1..]);
      if s[0] == '\n' then [""] + rest else [[s[0]] + rest[0]] + rest[1..]
  }

  /** The lines hold no line feed and join back to the text: none is lost or reordered. */
  lemma {:induction false} SplitLinesRoundTrip(s: string)
    ensures CleanLines(SplitLines(s), '\n') && Join(SplitLines(s), "\n") == s
  {
    if s != "" {
      var rest, lines := SplitLines(s[1..]), SplitLines(s);
      SplitLinesRoundTrip(s[1..]);
      if s[0] == '\n' {
        assert lines[1..] == rest;
      } else {
        assert lines[1..] == rest[1..];
        assert Lacks(rest[0], '\n');
        assert forall k :: 1 <= k < |lines| ==> lines[k] == rest[k];
      }
    }
  }

  lemma {:induction false} SplitLinesClean(s: string, c: char)
    requires Lacks(s, c)
    ensures CleanLines(SplitLines(s), c)
  {
    if s != "" {
      var rest, lines := SplitLines(s[1..]), SplitLines(s);
      SplitLinesClean(s[1..], c);
      assert Lacks(rest[0], c) && s[0] != c;
      assert forall k :: 1 <= k < |lines| ==> lines[k] == if s[0] == '\n' then rest[k - 1] else rest[k];
    }
  }

  /** The lines of a text: cut off, stripped, normalized, split. */
  function SourceLines(text: string): (lines: seq<string>)
    ensures CleanLines(lines, NUL)
  {
    var source := Strip(if |text| > MAX_INPUT then text[..MAX_INPUT] else text);
    assert Lacks(source, NUL);
    SplitLinesClean(Normalize(source), NUL);
    SplitLines(Normalize(source))
  }

  /** The lines are those of the first 200 000 characters, which is the whole of any shorter text. */
  lemma SourceText(text: string)
    ensures |text| <= 200_000 ==> Join(SourceLines(text), "\n") == Normalize(Strip(text))
    ensures |text| > 200_000 ==> SourceLines(text) == SourceLines(text[..200_000])
  {
    hide Strip, Normalize, SplitLines, Join;
    SplitLinesRoundTrip(Normalize(Strip(if |text| > MAX_INPUT then text[..MAX_INPUT] else text)));
  }

  // ----- the line patterns

  /** `(.*)$`: the rest of the line from `m` on, unless a line terminator stands in it. */
  function RestOf(line: string, m: nat): (r: Option<string>)
    requires m <= |line|
    ensures r.Some? ==> r.value == line[m..]
  {
    if exists k :: m <= k < |line| && IsLineEnd(line[k]) then None else Some(line[m..])
  }

  /** /^\s*```\s*([A-Za-z0-9_+-]{0,20})\s*$/ */
  function FenceLanguage(line: string): (r: Option<string>)
    ensures r.Some? ==> forall k :: 0 <= k < |r.value| ==> In(r.value[k], Language)
  {
    var i := RunEnd(line, 0, Space);
    if !Has(line, i, "```") then None
    else
      var j := RunEnd(line, i + 3, Space);
      var k := RunEnd(line, j, Language);
      assert forall n :: 0 <= n < k - j ==> line[j..k][n] == line[j + n] && In(line[j + n], Language);
      if k - j <= 20 && RunEnd(line, k, Space) == |line| then Some(line[j..k]) else None
  }

  /** /^\s*```\s*$/ */
  predicate IsFenceClose(line: string) {
    var i := RunEnd(line, 0, Space);
    Has(line, i, "```") && RunEnd(line, i + 3, Space) == |line|
  }

  /** /^(#{1,6})\s+(.*)$/, with the text trimmed */
  function Heading(line: string): (r: Option<(nat, string)>)
    ensures r.Some? ==> 1 <= r.value.0 <= 6 && (Lacks(line, NUL) ==> Lacks(r.value.1, NUL))
  {
    var h := RunEnd(line, 0, Only('#'));
    var m := RunEnd(line, h, Space);
    if 1 <= h <= 6 && h < m && RestOf(line, m).Some? then Some((h, Trim(line[m..]))) else None
  }

  /** /^\s*(?:---+|\*\*\*+|___+)\s*$/ */
  predicate IsRule(line: string) {
    var i := RunEnd(line, 0, Space);
    && i < |line| && (line[i] == '-' || line[i] == '*' || line[i] == '_')
    && var k := RunEnd(line, i, Only(line[i]));
       k >= i + 3 && RunEnd(line, k, Space) == |line|
  }

  /** /^>\s?(.*)$/ */
  function Quote(line: string): (r: Option<string>)
    ensures r.Some? ==> (Lacks(line, NUL) ==> Lacks(r.value, NUL))
  {
    if line == "" || line[0] != '>' then None
    else RestOf(line, if 1 < |line| && IsSpace(line[1]) then 2 else 1)
  }

  /** /^\s*[-*+]\s+(.*)$/ */
  function Bullet(line: string): (r: Option<string>)
    ensures r.Some? ==> (Lacks(line, NUL) ==> Lacks(r.value, NUL))
  {
    var i := RunEnd(line, 0, Space);
    if i < |line| && (line[i] == '-' || line[i] == '*' || line[i] == '+') then
      var m := RunEnd(line, i + 1, Space);
      if i + 1 < m then RestOf(line, m) else None
    else None
  }

  /** /^\s*\d{1,9}[.)]\s+(.*)$/ */
  function Numbered(line: string): (r: Option<string>)
    ensures r.Some? ==> (Lacks(line, NUL) ==> Lacks(r.value, NUL))
  {
    var i := RunEnd(line, 0, Space);
    var d := RunEnd(line, i, Digit);
    if i + 1 <= d <= i + 9 && d < |line| && (line[d] == '.' || line[d] == ')') then
      var m := RunEnd(line, d + 1, Space);
      if d + 1 < m then RestOf(line, m) else None
    else None
  }

  /** /^\[([ xX])\]\s+(.*)$/: whether the box is checked, and the text */
  function Task(raw: string): (r: Option<(bool, string)>)
    ensures r.Some? ==> (Lacks(raw, NUL) ==> Lacks(r.value.1, NUL))
  {
    if |raw| >= 3 && raw[0] == '[' && (raw[1] == ' ' || raw[1] == 'x' || raw[1] == 'X') && raw[2] == ']' then
      var m := RunEnd(raw, 3, Space);
      if 3 < m && RestOf(raw, m).Some? then Some((raw[1] != ' ', raw[m..])) else None
    else None
  }

  datatype Kind =
    | FenceLine(language: string)
    | BlankLine
    | HeadingLine(level: nat, text: string)
    | RuleLine
    | QuoteLine(text: string)
    | ItemLine(ordered: bool, body: string)
    | ProseLine

  /** What a line is when it stands outside a fence, tried in the order of the source. */
  function Classify(line: string): (kind: Kind)
    ensures Lacks(line, NUL) ==>
              match kind
              case HeadingLine(_, text) => Lacks(text, NUL)
              case QuoteLine(text) => Lacks(text, NUL)
              case ItemLine(_, body) => Lacks(body, NUL)
              case _ => true
    ensures kind.HeadingLine? ==> 1 <= kind.level <= 6
    ensures kind.FenceLine? ==> forall k :: 0 <= k < |kind.language| ==> In(kind.language[k], Language)
  {
    if FenceLanguage(line).Some? then FenceLine(FenceLanguage(line).value)
    else if Trim(line) == "" then BlankLine
    else if Heading(line).Some? then HeadingLine(Heading(line).value.0, Heading(line).value.1)
    else if IsRule(line) then RuleLine
    else if Quote(line).Some? then QuoteLine(Quote(line).value)
    else if Bullet(line).Some? then ItemLine(false, Bullet(line).value)
    else if Numbered(line).Some? then ItemLine(true, Numbered(line).value)
    else ProseLine
  }
}
