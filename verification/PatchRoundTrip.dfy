/** Which patches are read back as they were printed. */
module PatchRoundTrip {
  import opened Text
  import Lines
  import opened SideBySide
  import opened DiffLayout
  import opened PatchParser

  // ----- the text of a patch

  /** A line as git prints it: its mark, and its content. */
  function PrintLine(line: Line): string {
    match line.kind
    case Add => "+" + line.content
    case Delete => "-" + line.content
    case Context => " " + line.content
    case _ => line.content
  }

  /** The start and the count of a side; a count of one is left out. */
  function RangeText(start: nat, count: nat): string {
    if count == 1 then Decimal(start) else Decimal(start) + "," + Decimal(count)
  }

  /** The numbers of a hunk, and behind them the line it stands under in the file. */
  function PrintHeader(h: Header, heading: string): string {
    "@@ -" + RangeText(h.oldStart, h.oldLines) + " +" + RangeText(h.newStart, h.newLines) + " @@" + heading
  }

  function PrintLines(lines: seq<Line>): (text: seq<string>)
    ensures |text| == |lines|
  {
    seq(|lines|, k requires 0 <= k < |lines| => PrintLine(lines[k]))
  }

  /** A hunk with the lines about its file that are printed before it and the heading of its header. */
  datatype Section = Section(before: seq<string>, hunk: Hunk, heading: string)

  function PrintSection(section: Section): seq<string> {
    section.before + ([PrintHeader(section.hunk.header, section.heading)] + PrintLines(section.hunk.lines))
  }

  function PrintPatch(sections: seq<Section>): seq<string> {
    if sections == [] then []
    else PrintPatch(sections[..|sections| - 1]) + PrintSection(sections[|sections| - 1])
  }

  /** What git says about a file: its names, and lines that begin with a word. */
  predicate IsFileLine(raw: string) {
    && (forall k :: 0 <= k < |raw| ==> raw[k] != '\n')
    && (IsFileHeader(raw) || raw == "" || (raw[0] != '@' && raw[0] != '+' && raw[0] != '-' && raw[0] != '\\'))
  }

  predicate HasLineEnd(s: string) { exists k :: 0 <= k < |s| && IsLineEnd(s[k]) }

  function HunksOf(sections: seq<Section>): (hunks: seq<Hunk>)
    ensures |hunks| == |sections|
  {
    seq(|sections|, k requires 0 <= k < |sections| => sections[k].hunk)
  }

  ghost predicate IsPrintable(line: Line) {
    Lacks(line.content, '\n') && (line.kind.Meta? ==> Has(line.content, 0, NO_NEWLINE))
  }

  /** A hunk whose lines are numbered from its header. */
  ghost predicate IsWritten(hunk: Hunk) {
    Counted(hunk) && forall line <- hunk.lines :: IsPrintable(line)
  }

  /** A hunk of git's: it has as many lines as its header declares. */
  ghost predicate IsPrinted(hunk: Hunk) {
    && IsWritten(hunk)
    && Count(hunk.lines, Left) == hunk.header.oldLines && Count(hunk.lines, Right) == hunk.header.newLines
  }

  ghost predicate IsSection(section: Section) {
    && IsWritten(section.hunk) && Lacks(section.heading, '\n')
    && forall raw <- section.before :: IsFileLine(raw)
  }

  /**
   A deleted line that begins with two dashes and a space, or an added one that
   begins with two plus signs and a space, looks like the name of a file.
   */
  predicate IsHidden(line: Line) {
    (line.kind.Add? && Has(line.content, 0, "++ ")) || (line.kind.Delete? && Has(line.content, 0, "-- "))
  }

  // ----- one line

  lemma MarkedLine(mark: char, content: string, lit: string)
    requires lit != ""
    ensures Has([mark] + content, 0, lit) <==> lit[0] == mark && Has(content, 0, lit[1..])
  {
    var raw := [mark] + content;
    if Has(raw, 0, lit) {
      assert lit[0] == raw[..|lit|][0] == mark;
      assert raw[..|lit|][1..] == content[..|lit| - 1];
    }
    if lit[0] == mark && Has(content, 0, lit[1..]) {
      assert raw[..|lit|] == [mark] + content[..|lit| - 1];
      assert lit == [lit[0]] + lit[1..];
    }
  }

  lemma FirstOf(raw: string, lit: string)
    requires lit != "" && Has(raw, 0, lit)
    ensures raw != "" && raw[0] == lit[0]
  {
    assert raw[0] == raw[0..|lit|][0];
  }

  lemma Unread(raw: string)
    requires raw == "" || (raw[0] != '@' && raw[0] != 'd' && raw[0] != 'i' && raw[0] != '-' && raw[0] != '+')
    ensures ParseHeader(raw).None? && !IsSkipped(raw)
  {
    hide RangeAt;
    forall lit: string | lit != "" && Has(raw, 0, lit) ensures raw != "" && raw[0] == lit[0] {
      FirstOf(raw, lit);
    }
  }

  lemma AddSkipped(content: string)
    ensures ParseHeader("+" + content).None?
    ensures IsSkipped("+" + content) <==> Has(content, 0, "++ ")
    ensures !Has("+" + content, 0, NO_NEWLINE)
  {
    hide RangeAt, Has;
    MarkedLine('+', content, "@@ -");
    MarkedLine('+', content, "@@ ");
    MarkedLine('+', content, "diff --git ");
    MarkedLine('+', content, "index ");
    MarkedLine('+', content, "--- ");
    MarkedLine('+', content, "+++ ");
    MarkedLine('+', content, NO_NEWLINE);
    assert "+++ "[1..] == "++ ";
  }

  lemma DeleteSkipped(content: string)
    ensures ParseHeader("-" + content).None?
    ensures IsSkipped("-" + content) <==> Has(content, 0, "-- ")
    ensures !Has("-" + content, 0, NO_NEWLINE)
  {
    hide RangeAt, Has;
    MarkedLine('-', content, "@@ -");
    MarkedLine('-', content, "@@ ");
    MarkedLine('-', content, "diff --git ");
    MarkedLine('-', content, "index ");
    MarkedLine('-', content, "--- ");
    MarkedLine('-', content, "+++ ");
    MarkedLine('-', content, NO_NEWLINE);
    assert "--- "[1..] == "-- ";
  }

  /** A printed line is skipped exactly when it is hidden, and is otherwise read as itself. */
  lemma PrintedLine(line: Line, left: nat, right: nat)
    requires IsPrintable(line) && !line.kind.Other?
    ensures ParseHeader(PrintLine(line)).None?
    ensures IsSkipped(PrintLine(line)) <==> IsHidden(line)
    ensures ReadLine(PrintLine(line), left, right).kind == line.kind
    ensures Fits(line, left, right) ==> ReadLine(PrintLine(line), left, right) == line
  {
    hide ParseHeader, IsSkipped, Has;
    var raw := PrintLine(line);
    match line.kind {
      case Add =>
        AddSkipped(line.content);
        assert raw[1..] == line.content;
      case Delete =>
        DeleteSkipped(line.content);
        assert raw[1..] == line.content;
      case Context =>
        Unread(raw);
        MarkedLine(' ', line.content, NO_NEWLINE);
        assert raw[1..] == line.content;
      case Meta =>
        FirstOf(raw, NO_NEWLINE);
        Unread(raw);
    }
  }

  // ----- the header

  lemma NumberRead(before: string, n: nat, after: string)
    requires after != "" ==> !IsDigit(after[0])
    ensures var s, e := before + Decimal(n) + after, |before| + |Decimal(n)|;
            RunEnd(s, |before|, Digit) == e && s[|before|..e] == Decimal(n)
  {
    var d, s := Decimal(n), before + Decimal(n) + after;
    hide Decimal, RunEnd;
    forall k | |before| <= k < |before| + |d| ensures In(s[k], Digit) {
      assert s[k] == d[k - |before|];
    }
    RunEndsAt(s, |before|, |before| + |d|, Digit);
  }

  lemma RangeOf(s: string, i: nat, a: nat, b: nat, start: nat, count: nat)
    requires i < a < |s| && s[a] == ',' && a + 1 < b <= |s|
    requires RunEnd(s, i, Digit) == a && s[i..a] == Decimal(start)
    requires RunEnd(s, a + 1, Digit) == b && s[a + 1..b] == Decimal(count)
    ensures RangeAt(s, i) == Some((start, count, b))
  {
    hide Decimal, Value, RunEnd;
    ValueOfDecimal(start);
    ValueOfDecimal(count);
  }

  lemma CommaParts(before: string, a: string, c: string, after: string)
    ensures var s := before + (a + "," + c) + after;
            && before + a + ("," + c + after) == s && before + a + "," + c + after == s
            && |before| + |a| < |s| && s[|before| + |a|] == ','
  {
  }

  lemma NumberIn(s: string, before: string, n: nat, after: string)
    requires s == before + Decimal(n) + after && (after != "" ==> !IsDigit(after[0]))
    ensures var e := |before| + |Decimal(n)|; e <= |s| && RunEnd(s, |before|, Digit) == e && s[|before|..e] == Decimal(n)
  {
    hide Decimal, RunEnd;
    NumberRead(before, n, after);
  }

  lemma BothRead(before: string, start: nat, count: nat, after: string)
    requires after != "" && !IsDigit(after[0])
    ensures var range := Decimal(start) + "," + Decimal(count);
            RangeAt(before + range + after, |before|) == Some((start, count, |before| + |range|))
  {
    hide Decimal, RangeAt, RunEnd;
    var a, c := Decimal(start), Decimal(count);
    var s, back := before + (a + "," + c) + after, "," + c + after;
    CommaParts(before, a, c, after);
    assert back[0] == ',';
    NumberIn(s, before, start, back);
    NumberIn(s, before + a + ",", count, after);
    RangeOf(s, |before|, |before| + |a|, |before| + |a| + 1 + |c|, start, count);
  }

  lemma StartRead(before: string, start: nat, after: string)
    requires after != "" && !IsDigit(after[0]) && after[0] != ','
    ensures RangeAt(before + Decimal(start) + after, |before|) == Some((start, 1, |before| + |Decimal(start)|))
  {
    hide Decimal, Value, RunEnd;
    var s := before + Decimal(start) + after;
    NumberRead(before, start, after);
    assert s[|before| + |Decimal(start)|] == after[0];
    ValueOfDecimal(start);
  }

  lemma RangeRead(before: string, start: nat, count: nat, after: string)
    requires after != "" && !IsDigit(after[0]) && after[0] != ','
    ensures RangeAt(before + RangeText(start, count) + after, |before|)
            == Some((start, count, |before| + |RangeText(start, count)|))
  {
    hide RangeAt;
    if count == 1 {
      StartRead(before, start, after);
    } else {
      BothRead(before, start, count, after);
    }
  }

  lemma PartOf(before: string, part: string, after: string)
    ensures Has(before + part + after, |before|, part)
  {
  }

  lemma SixParts(a: string, b: string, c: string, d: string, e: string, f: string)
    ensures var s := a + b + c + d + e + f;
            && s == "" + a + (b + c + d + e + f) && s == a + b + (c + d + e + f) && s == (a + b) + c + (d + e + f)
            && s == (a + b + c) + d + (e + f) && s == (a + b + c + d) + e + f
  {
  }

  lemma HeadingRest(before: string, heading: string)
    ensures Lines.RestOf(before + heading, |before|).Some? <==> !HasLineEnd(heading)
  {
    var s := before + heading;
    if k :| 0 <= k < |heading| && IsLineEnd(heading[k]) {
      assert s[|before| + k] == heading[k];
    }
    if k :| |before| <= k < |s| && IsLineEnd(s[k]) {
      assert s[k] == heading[k - |before|];
    }
  }

  /** A printed header is read as itself, unless a line terminator stands in its heading: then it is none. */
  lemma HeaderRoundTrip(h: Header, heading: string)
    ensures ParseHeader(PrintHeader(h, heading)) == if HasLineEnd(heading) then None else Some(h)
  {
    hide RangeAt, RangeText, Has, HasLineEnd, Lines.RestOf;
    var left, right := RangeText(h.oldStart, h.oldLines), RangeText(h.newStart, h.newLines);
    SixParts("@@ -", left, " +", right, " @@", heading);
    PartOf("", "@@ -", left + " +" + right + " @@" + heading);
    RangeRead("@@ -", h.oldStart, h.oldLines, " +" + right + " @@" + heading);
    PartOf("@@ -" + left, " +", right + " @@" + heading);
    RangeRead("@@ -" + left + " +", h.newStart, h.newLines, " @@" + heading);
    PartOf("@@ -" + left + " +" + right, " @@", heading);
    HeadingRest("@@ -" + left + " +" + right + " @@", heading);
  }

  ghost predicate Digits(s: string, i: nat, j: nat) {
    i < j <= |s| && AllIn(s, i, j, Digit) && (j < |s| ==> !IsDigit(s[j]))
  }

  ghost function NumberAt(s: string, i: nat, j: nat): nat
    requires Digits(s, i, j)
  {
    DigitsOf(s, i, j);
    Value(s[i..j])
  }

  /** A number from `i` to `a`, and with a comma another one behind it: the range ends at `b`. */
  ghost predicate RangeShape(s: string, i: nat, a: nat, b: nat) {
    Digits(s, i, a) && if b == a then !(a < |s| && s[a] == ',') else a < |s| && s[a] == ',' && Digits(s, a + 1, b)
  }

  lemma RangeExact(s: string, i: nat)
    requires i <= |s|
    ensures RangeAt(s, i).Some? <==> exists a: nat, b: nat :: RangeShape(s, i, a, b)
    ensures forall a: nat, b: nat :: RangeShape(s, i, a, b) ==>
              RangeAt(s, i) == Some((NumberAt(s, i, a), if b == a then 1 else NumberAt(s, a + 1, b), b))
  {
    hide Value;
    forall a: nat, b: nat | RangeShape(s, i, a, b)
      ensures RangeAt(s, i) == Some((NumberAt(s, i, a), if b == a then 1 else NumberAt(s, a + 1, b), b))
    {
      RunEndsAt(s, i, a, Digit);
      if b != a { RunEndsAt(s, a + 1, b, Digit); }
    }
    if RangeAt(s, i).Some? {
      var a := RunEnd(s, i, Digit);
      assert RangeShape(s, i, a, RangeAt(s, i).value.2);
    }
  }

  /** `@@ -`, a range to `b`, ` +`, a range to `d`, ` @@`, and no line terminator behind it. */
  ghost predicate HeaderShape(line: string, a: nat, b: nat, c: nat, d: nat) {
    && Has(line, 0, "@@ -") && RangeShape(line, 4, a, b) && Has(line, b, " +") && RangeShape(line, b + 2, c, d)
    && Has(line, d, " @@") && forall k :: d + 3 <= k < |line| ==> !IsLineEnd(line[k])
  }

  /** What is taken for a header, and for which: a count that is missing is one. */
  lemma HeaderExact(line: string)
    ensures ParseHeader(line).Some? <==> exists a: nat, b: nat, c: nat, d: nat :: HeaderShape(line, a, b, c, d)
    ensures forall a: nat, b: nat, c: nat, d: nat :: HeaderShape(line, a, b, c, d) ==>
              ParseHeader(line) == Some(Header(NumberAt(line, 4, a), if b == a then 1 else NumberAt(line, a + 1, b),
                                               NumberAt(line, b + 2, c), if d == c then 1 else NumberAt(line, c + 1, d)))
  {
    hide RangeAt, RangeShape, NumberAt;
    forall i: nat | i <= |line|
      ensures RangeAt(line, i).Some? <==> exists a: nat, b: nat :: RangeShape(line, i, a, b)
      ensures forall a: nat, b: nat :: RangeShape(line, i, a, b) ==> Digits(line, i, a) && (b != a ==> Digits(line, a + 1, b))
      ensures forall a: nat, b: nat :: RangeShape(line, i, a, b) ==>
                RangeAt(line, i) == Some((NumberAt(line, i, a), if b == a then 1 else NumberAt(line, a + 1, b), b))
    {
      RangeExact(line, i);
      RangeDigits(line, i);
    }
    if ParseHeader(line).Some? {
      var a: nat, b: nat :| RangeShape(line, 4, a, b);
      var c: nat, d: nat :| RangeShape(line, b + 2, c, d);
      assert HeaderShape(line, a, b, c, d);
    }
  }

  lemma RangeDigits(s: string, i: nat)
    ensures forall a: nat, b: nat :: RangeShape(s, i, a, b) ==> Digits(s, i, a) && (b != a ==> Digits(s, a + 1, b))
  {
  }

  lemma HeaderSkipped(h: Header, heading: string)
    ensures IsSkipped(PrintHeader(h, heading))
  {
    var rest := RangeText(h.oldStart, h.oldLines) + " +" + RangeText(h.newStart, h.newLines) + " @@" + heading;
    hide RangeText, IsFileHeader;
    assert PrintHeader(h, heading) == "@@ -" + rest;
    assert ("@@ -" + rest)[0..3] == "@@ ";
  }

  // ----- a hunk, and a patch

  lemma {:induction false} FeedJoin(p: Parse, a: seq<string>, b: seq<string>)
    ensures FeedAll(p, a + b) == FeedAll(FeedAll(p, a), b)
  {
    hide Feed;
    if b == [] {
      assert a + b == a;
    } else {
      var init := b[..|b| - 1];
      FeedJoin(p, a, init);
      assert (a + b)[..|a + b| - 1] == a + init;
    }
  }

  lemma PrintedInit(lines: seq<Line>)
    requires lines != []
    ensures PrintLines(lines)[..|lines| - 1] == PrintLines(lines[..|lines| - 1])
    ensures PrintLines(lines)[|lines| - 1] == PrintLine(lines[|lines| - 1])
  {
    hide PrintLine;
  }

  /** The parser stands behind the header of its last hunk. */
  ghost predicate IsFresh(p: Parse) {
    && p.hunks != [] && Last(p).lines == []
    && p.oldLine == Last(p).header.oldStart && p.newLine == Last(p).header.newStart
  }

  function WithLines(p: Parse, lines: seq<Line>): Parse
    requires p.hunks != []
  {
    Parse(p.hunks[..|p.hunks| - 1] + [Last(p).(lines := lines)],
          Last(p).header.oldStart + Count(lines, Left), Last(p).header.newStart + Count(lines, Right))
  }

  lemma NoLines(p: Parse)
    requires IsFresh(p)
    ensures WithLines(p, []) == p
  {
    assert p.hunks[..|p.hunks| - 1] + [Last(p)] == p.hunks;
  }

  lemma GrowLines(p: Parse, lines: seq<Line>, line: Line)
    requires p.hunks != []
    ensures WithLines(p, lines).hunks != [] && Push(WithLines(p, lines), line) == WithLines(p, lines + [line])
    ensures WithLines(p, lines).oldLine == Last(p).header.oldStart + Count(lines, Left)
    ensures WithLines(p, lines).newLine == Last(p).header.newStart + Count(lines, Right)
  {
    hide Count;
    CountPush(lines, line, Left);
    CountPush(lines, line, Right);
    var front, q := p.hunks[..|p.hunks| - 1], WithLines(p, lines);
    assert q.hunks[..|q.hunks| - 1] == front;
  }

  lemma {:induction false} HunkRead(p: Parse, lines: seq<Line>)
    requires IsFresh(p) && Follows(lines, Last(p).header.oldStart, Last(p).header.newStart)
    requires forall line <- lines :: IsPrintable(line) && !IsHidden(line)
    ensures FeedAll(p, PrintLines(lines)) == WithLines(p, lines)
  {
    hide PrintLines, PrintLine, IsPrintable, IsHidden, Feed, WithLines, Push, Count, Fits;
    if lines == [] {
      assert PrintLines(lines) == [];
      NoLines(p);
    } else {
      var init, last := lines[..|lines| - 1], lines[|lines| - 1];
      assert last in lines;
      HunkRead(p, init);
      PrintedInit(lines);
      GrowLines(p, init, last);
      LineRead(WithLines(p, init), last);
      assert init + [last] == lines;
    }
  }

  lemma LineRead(p: Parse, line: Line)
    requires p.hunks != [] && Fits(line, p.oldLine, p.newLine) && IsPrintable(line) && !IsHidden(line)
    ensures Feed(p, PrintLine(line)) == Push(p, line)
  {
    hide ParseHeader, IsSkipped, ReadLine, Push, PrintLine;
    PrintedLine(line, p.oldLine, p.newLine);
  }

  lemma FilledHunk(p: Parse, hunk: Hunk)
    ensures var header := hunk.header;
            WithLines(Parse(p.hunks + [Hunk(header, [])], header.oldStart, header.newStart), hunk.lines).hunks == p.hunks + [hunk]
  {
    hide Count;
  }

  lemma HeaderFed(p: Parse, h: Header, heading: string)
    ensures FeedAll(p, [PrintHeader(h, heading)])
            == if HasLineEnd(heading) then p else Parse(p.hunks + [Hunk(h, [])], h.oldStart, h.newStart)
  {
    hide PrintHeader, ParseHeader, IsSkipped, HasLineEnd;
    HeaderRoundTrip(h, heading);
    HeaderSkipped(h, heading);
    assert [PrintHeader(h, heading)][..0] == [] && FeedAll(p, []) == p;
  }

  lemma HunkPrintRead(p: Parse, hunk: Hunk, heading: string)
    requires IsWritten(hunk) && !HasLineEnd(heading) && forall line <- hunk.lines :: !IsHidden(line)
    ensures FeedAll(p, [PrintHeader(hunk.header, heading)] + PrintLines(hunk.lines)).hunks == p.hunks + [hunk]
  {
    hide PrintLines, IsHidden, IsPrintable, PrintHeader, Count, Follows, WithLines, Feed, HasLineEnd;
    FeedJoin(p, [PrintHeader(hunk.header, heading)], PrintLines(hunk.lines));
    HeaderFed(p, hunk.header, heading);
    HunkRead(FeedAll(p, [PrintHeader(hunk.header, heading)]), hunk.lines);
    FilledHunk(p, hunk);
  }

  // ----- lines about files

  /** The lines of the hunk are read, and behind them only numbered ones. */
  ghost predicate IsPadded(read: Hunk, hunk: Hunk) {
    && read.header == hunk.header && hunk.lines <= read.lines
    && forall line <- read.lines[|hunk.lines|..] :: line.oldLine.Some? || line.newLine.Some?
  }

  ghost predicate ArePadded(read: seq<Hunk>, hunks: seq<Hunk>) {
    |read| == |hunks| && forall k :: 0 <= k < |hunks| ==> IsPadded(read[k], hunks[k])
  }

  lemma PaddedTwice(a: Hunk, b: Hunk, c: Hunk)
    requires IsPadded(a, b) && IsPadded(b, c)
    ensures IsPadded(a, c)
  {
    assert a.lines[|c.lines|..] == b.lines[|c.lines|..] + a.lines[|b.lines|..];
  }

  lemma ArePaddedTwice(a: seq<Hunk>, b: seq<Hunk>, c: seq<Hunk>)
    requires ArePadded(a, b) && ArePadded(b, c)
    ensures ArePadded(a, c)
  {
    hide IsPadded;
    forall k | 0 <= k < |c| ensures IsPadded(a[k], c[k]) {
      PaddedTwice(a[k], b[k], c[k]);
    }
  }

  lemma PushPads(p: Parse, line: Line)
    requires p.hunks != [] && (line.oldLine.Some? || line.newLine.Some?)
    ensures ArePadded(Push(p, line).hunks, p.hunks)
  {
    var n := |p.hunks| - 1;
    forall k | 0 <= k <= n ensures IsPadded(Push(p, line).hunks[k], p.hunks[k]) {
      if k == n {
        assert (Last(p).lines + [line])[|Last(p).lines|..] == [line];
      }
    }
  }

  lemma FileLineRead(raw: string, left: nat, right: nat)
    requires IsFileLine(raw)
    ensures ParseHeader(raw).None?
    ensures IsSkipped(raw) || ReadLine(raw, left, right).kind.Context?
  {
    hide RangeAt, ReadLine;
    if raw != "" && Has(raw, 0, "@@ -") {
      FirstOf(raw, "@@ -");
      FileHeaderStart(raw);
    }
    if !IsSkipped(raw) {
      FileLineContext(raw, left, right);
    }
  }

  lemma FileHeaderStart(raw: string)
    requires IsFileHeader(raw)
    ensures raw != "" && raw[0] != '@'
  {
    hide Has;
    forall lit: string | lit != "" && Has(raw, 0, lit) ensures raw != "" && raw[0] == lit[0] {
      FirstOf(raw, lit);
    }
  }

  lemma FileLineContext(raw: string, left: nat, right: nat)
    requires raw == "" || (raw[0] != '+' && raw[0] != '-' && raw[0] != '\\')
    ensures ReadLine(raw, left, right).kind.Context?
  {
    if Has(raw, 0, NO_NEWLINE) {
      FirstOf(raw, NO_NEWLINE);
    }
  }

  /** A line about a file changes nothing, or pads the hunk before it. */
  lemma FileLineFed(p: Parse, raw: string)
    requires IsFileLine(raw)
    ensures var q := Feed(p, raw);
            ArePadded(q.hunks, p.hunks) && AllChanges(LinesOf(q.hunks)) == AllChanges(LinesOf(p.hunks))
  {
    hide ParseHeader, IsSkipped, Push, LinesOf, AllChanges, ReadLine;
    FileLineRead(raw, p.oldLine, p.newLine);
    ContextNumbered(raw, p.oldLine, p.newLine);
    if p.hunks != [] && !IsSkipped(raw) {
      LinePushed(p, ReadLine(raw, p.oldLine, p.newLine));
      PushPads(p, ReadLine(raw, p.oldLine, p.newLine));
    }
  }

  lemma ContextNumbered(raw: string, left: nat, right: nat)
    ensures ReadLine(raw, left, right).kind.Context? ==> ReadLine(raw, left, right).oldLine.Some?
  {
  }

  lemma {:induction false} FileLinesFed(p: Parse, lines: seq<string>)
    requires forall raw <- lines :: IsFileLine(raw)
    ensures var q := FeedAll(p, lines);
            ArePadded(q.hunks, p.hunks) && AllChanges(LinesOf(q.hunks)) == AllChanges(LinesOf(p.hunks))
  {
    hide Feed, IsFileLine, LinesOf, AllChanges;
    if lines != [] {
      var init, last := lines[..|lines| - 1], lines[|lines| - 1];
      assert last in lines;
      FileLinesFed(p, init);
      FileLineFed(FeedAll(p, init), last);
      ArePaddedTwice(FeedAll(p, lines).hunks, FeedAll(p, init).hunks, p.hunks);
    }
  }

  // ----- a section, and a patch

  ghost predicate HasNoHidden(hunks: seq<Hunk>) {
    forall hunk <- hunks :: forall line <- hunk.lines :: !IsHidden(line)
  }

  ghost predicate AreHeaded(sections: seq<Section>) {
    forall section <- sections :: !HasLineEnd(section.heading)
  }

  lemma SectionRead(p: Parse, section: Section)
    requires IsSection(section) && !HasLineEnd(section.heading) && forall line <- section.hunk.lines :: !IsHidden(line)
    ensures FeedAll(p, PrintSection(section)).hunks == FeedAll(p, section.before).hunks + [section.hunk]
  {
    hide PrintLines, IsHidden, IsWritten, PrintHeader, Feed, HasLineEnd, IsFileLine;
    FeedJoin(p, section.before, [PrintHeader(section.hunk.header, section.heading)] + PrintLines(section.hunk.lines));
    HunkPrintRead(FeedAll(p, section.before), section.hunk, section.heading);
  }

  lemma {:induction false} PatchRead(sections: seq<Section>)
    requires (forall section <- sections :: IsSection(section)) && AreHeaded(sections) && HasNoHidden(HunksOf(sections))
    ensures ArePadded(FeedAll(START, PrintPatch(sections)).hunks, HunksOf(sections))
  {
    hide PrintSection, IsHidden, Feed, IsPadded, HasLineEnd, IsWritten, IsFileLine;
    if sections != [] {
      var n := |sections| - 1;
      var init, last := sections[..n], sections[n];
      assert last in sections && HunksOf(sections)[n] in HunksOf(sections);
      assert HunksOf(sections) == HunksOf(init) + [last.hunk];
      PatchRead(init);
      var p := FeedAll(START, PrintPatch(init));
      FeedJoin(START, PrintPatch(init), PrintSection(last));
      SectionRead(p, last);
      FileLinesFed(p, last.before);
      ArePaddedTwice(FeedAll(p, last.before).hunks, p.hunks, HunksOf(init));
      PaddedSelf(last.hunk);
    }
  }

  lemma PaddedSelf(hunk: Hunk)
    ensures IsPadded(hunk, hunk)
  {
  }

  // ----- what is lost

  predicate IsChange(line: Line) { line.kind.Add? || line.kind.Delete? }

  function Changes(lines: seq<Line>): nat {
    if lines == [] then 0
    else Changes(lines[..|lines| - 1]) + if IsChange(lines[|lines| - 1]) then 1 else 0
  }

  /** The changes that are not hidden. */
  function Visible(lines: seq<Line>): nat {
    if lines == [] then 0
    else
      var last := lines[|lines| - 1];
      Visible(lines[..|lines| - 1]) + if IsChange(last) && !IsHidden(last) then 1 else 0
  }

  lemma {:induction false} VisibleAtMost(lines: seq<Line>)
    ensures Visible(lines) <= Changes(lines)
    ensures Visible(lines) == Changes(lines) <==> forall line <- lines :: !IsHidden(line)
  {
    hide IsHidden;
    if lines != [] {
      var init, last := lines[..|lines| - 1], lines[|lines| - 1];
      VisibleAtMost(init);
      HiddenIsChange(last);
      assert lines == init + [last];
    }
  }

  lemma HiddenIsChange(line: Line)
    ensures IsHidden(line) ==> IsChange(line)
  {
  }

  function LinesOf(hunks: seq<Hunk>): (parts: seq<seq<Line>>)
    ensures |parts| == |hunks|
  {
    seq(|hunks|, k requires 0 <= k < |hunks| => hunks[k].lines)
  }

  function AllChanges(parts: seq<seq<Line>>): nat {
    if parts == [] then 0 else AllChanges(parts[..|parts| - 1]) + Changes(parts[|parts| - 1])
  }

  function AllVisible(hunks: seq<Hunk>): nat {
    if hunks == [] then 0 else AllVisible(hunks[..|hunks| - 1]) + Visible(hunks[|hunks| - 1].lines)
  }

  lemma ChangesPush(parts: seq<seq<Line>>, lines: seq<Line>)
    ensures AllChanges(parts + [lines]) == AllChanges(parts) + Changes(lines)
  {
    assert (parts + [lines])[..|parts|] == parts;
  }

  lemma LinePushed(p: Parse, line: Line)
    requires p.hunks != []
    ensures AllChanges(LinesOf(Push(p, line).hunks)) == AllChanges(LinesOf(p.hunks)) + if IsChange(line) then 1 else 0
  {
    var n := |p.hunks| - 1;
    var front, lines := LinesOf(p.hunks)[..n], Last(p).lines;
    assert LinesOf(p.hunks) == front + [lines];
    assert LinesOf(Push(p, line).hunks) == front + [lines + [line]];
    ChangesPush(front, lines);
    ChangesPush(front, lines + [line]);
    assert (lines + [line])[..|lines|] == lines;
  }

  lemma LineFed(p: Parse, line: Line)
    requires p.hunks != [] && IsPrintable(line) && !line.kind.Other?
    ensures var q := Feed(p, PrintLine(line));
            && |q.hunks| == |p.hunks|
            && AllChanges(LinesOf(q.hunks)) == AllChanges(LinesOf(p.hunks)) + if IsChange(line) && !IsHidden(line) then 1 else 0
  {
    hide ParseHeader, IsSkipped, ReadLine, PrintLine, IsHidden, LinesOf, AllChanges;
    PrintedLine(line, p.oldLine, p.newLine);
    HiddenIsChange(line);
    LinePushed(p, ReadLine(PrintLine(line), p.oldLine, p.newLine));
  }

  lemma {:induction false} LinesFed(p: Parse, lines: seq<Line>)
    requires p.hunks != [] && forall line <- lines :: IsPrintable(line) && !line.kind.Other?
    ensures var q := FeedAll(p, PrintLines(lines));
            |q.hunks| == |p.hunks| && AllChanges(LinesOf(q.hunks)) == AllChanges(LinesOf(p.hunks)) + Visible(lines)
  {
    hide Feed, PrintLine, PrintLines, IsHidden, IsPrintable, LinesOf, AllChanges;
    if lines == [] {
      assert PrintLines(lines) == [];
    } else {
      var init, last := lines[..|lines| - 1], lines[|lines| - 1];
      assert last in lines;
      LinesFed(p, init);
      PrintedInit(lines);
      LineFed(FeedAll(p, PrintLines(init)), last);
    }
  }

  /** Lines in front of the first hunk are not read. */
  lemma {:induction false} LinesUnread(p: Parse, lines: seq<Line>)
    requires p.hunks == [] && forall line <- lines :: IsPrintable(line) && !line.kind.Other?
    ensures FeedAll(p, PrintLines(lines)) == p
  {
    hide ParseHeader, IsSkipped, PrintLine, PrintLines, IsHidden, IsPrintable, ReadLine;
    if lines == [] {
      assert PrintLines(lines) == [];
    } else {
      var init, last := lines[..|lines| - 1], lines[|lines| - 1];
      assert last in lines;
      LinesUnread(p, init);
      PrintedInit(lines);
      PrintedLine(last, p.oldLine, p.newLine);
    }
  }

  /** How many of the headers are read. */
  function ReadHeaders(sections: seq<Section>): nat {
    if sections == [] then 0
    else ReadHeaders(sections[..|sections| - 1]) + if HasLineEnd(sections[|sections| - 1].heading) then 0 else 1
  }

  /** The changes behind the first header that is read and that are not hidden. */
  function Shown(sections: seq<Section>): nat {
    if sections == [] then 0
    else
      Shown(sections[..|sections| - 1])
      + if ReadHeaders(sections) > 0 then Visible(sections[|sections| - 1].hunk.lines) else 0
  }

  lemma SectionFed(p: Parse, section: Section)
    requires IsSection(section)
    ensures var q := FeedAll(p, PrintSection(section));
            && |q.hunks| == |p.hunks| + (if HasLineEnd(section.heading) then 0 else 1)
            && AllChanges(LinesOf(q.hunks))
               == AllChanges(LinesOf(p.hunks)) + if q.hunks != [] then Visible(section.hunk.lines) else 0
  {
    hide PrintLines, IsHidden, IsPrintable, PrintHeader, Count, LinesOf, AllChanges, Visible, Feed, Follows, HasLineEnd, IsFileLine, IsPadded;
    var h, lines := section.hunk.header, section.hunk.lines;
    FeedJoin(p, section.before, [PrintHeader(h, section.heading)] + PrintLines(lines));
    FileLinesFed(p, section.before);
    var t := FeedAll(p, section.before);
    FeedJoin(t, [PrintHeader(h, section.heading)], PrintLines(lines));
    HeaderFed(t, h, section.heading);
    HeaderPushed(t, h);
    CountedIsGit(section.hunk);
    var u := FeedAll(t, [PrintHeader(h, section.heading)]);
    if u.hunks == [] {
      LinesUnread(u, lines);
    } else {
      LinesFed(u, lines);
    }
  }

  /** Reading a printed patch finds one hunk for each header that is read, and exactly the changes behind the first that are not hidden. */
  lemma {:induction false} PatchChanges(sections: seq<Section>)
    requires forall section <- sections :: IsSection(section)
    ensures var q := FeedAll(START, PrintPatch(sections));
            |q.hunks| == ReadHeaders(sections) && AllChanges(LinesOf(q.hunks)) == Shown(sections)
  {
    hide PrintSection, HasLineEnd, IsSection, LinesOf, AllChanges, Visible, Feed;
    if sections == [] {
      NoChanges();
    } else {
      var init, last := sections[..|sections| - 1], sections[|sections| - 1];
      assert last in sections;
      PatchChanges(init);
      FeedJoin(START, PrintPatch(init), PrintSection(last));
      SectionFed(FeedAll(START, PrintPatch(init)), last);
    }
  }

  lemma {:induction false} AllHeadersRead(sections: seq<Section>)
    ensures ReadHeaders(sections) <= |sections|
    ensures ReadHeaders(sections) == |sections| <==> AreHeaded(sections)
    ensures ReadHeaders(sections) == |sections| ==> Shown(sections) == AllVisible(HunksOf(sections))
  {
    hide HasLineEnd, Visible;
    if sections != [] {
      var init, last := sections[..|sections| - 1], sections[|sections| - 1];
      AllHeadersRead(init);
      assert sections == init + [last];
      assert HunksOf(sections) == HunksOf(init) + [last.hunk];
    }
  }

  lemma NoChanges()
    ensures AllChanges(LinesOf([])) == 0
  {
  }

  lemma HeaderPushed(p: Parse, h: Header)
    ensures AllChanges(LinesOf(p.hunks + [Hunk(h, [])])) == AllChanges(LinesOf(p.hunks))
  {
    assert LinesOf(p.hunks + [Hunk(h, [])]) == LinesOf(p.hunks) + [[]];
    ChangesPush(LinesOf(p.hunks), []);
  }

  lemma {:induction false} AllVisibleAtMost(hunks: seq<Hunk>)
    ensures AllVisible(hunks) <= AllChanges(LinesOf(hunks))
    ensures AllVisible(hunks) == AllChanges(LinesOf(hunks)) <==> HasNoHidden(hunks)
  {
    hide IsHidden, Visible, Changes;
    if hunks != [] {
      var init, last := hunks[..|hunks| - 1], hunks[|hunks| - 1];
      AllVisibleAtMost(init);
      VisibleAtMost(last.lines);
      assert LinesOf(hunks) == LinesOf(init) + [last.lines];
      ChangesPush(LinesOf(init), last.lines);
      assert hunks == init + [last];
    }
  }

  lemma {:induction false} SanitizedChanges(lines: seq<Line>, header: Header)
    ensures Changes(Sanitized(lines, header)) <= Changes(lines)
  {
    if lines != [] {
      var init, last := lines[..|lines| - 1], lines[|lines| - 1];
      var kept := Sanitized(init, header);
      SanitizedChanges(init, header);
      assert (kept + [last])[..|kept|] == kept;
    }
  }

  lemma {:induction false} SafeChanges(hunks: seq<Hunk>)
    ensures AllChanges(SafeHunks(hunks)) <= AllChanges(LinesOf(hunks))
  {
    hide Sanitized, Changes;
    if hunks != [] {
      var init, last := hunks[..|hunks| - 1], hunks[|hunks| - 1];
      SafeChanges(init);
      assert LinesOf(hunks) == LinesOf(init) + [last.lines];
      assert SafeHunks(hunks) == SafeHunks(init) + [Sanitized(last.lines, last.header)];
      ChangesPush(LinesOf(init), last.lines);
      ChangesPush(SafeHunks(init), Sanitized(last.lines, last.header));
      SanitizedChanges(last.lines, last.header);
    }
  }

  // ----- the text

  lemma {:induction false} SplitFirst(a: string, rest: string)
    requires Lacks(a, '\n')
    ensures Lines.SplitLines(a + "\n" + rest) == [a] + Lines.SplitLines(rest)
  {
    var s := a + "\n" + rest;
    if a == "" {
      assert s[1..] == rest;
    } else {
      SplitFirst(a[1..], rest);
      assert s[1..] == a[1..] + "\n" + rest;
      assert s[0] == a[0] && a == [a[0]] + a[1..];
    }
  }

  /** Lines, each ended by a line feed. */
  function TextOf(lines: seq<string>): string {
    if lines == [] then "" else lines[0] + "\n" + TextOf(lines[1..])
  }

  /** They come apart again, with an empty line behind the last. */
  lemma {:induction false} SplitOfText(lines: seq<string>)
    requires Lines.CleanLines(lines, '\n')
    ensures Lines.SplitLines(TextOf(lines)) == lines + [""]
  {
    if lines == [] {
      assert Lines.SplitLines("") == [""];
    } else {
      assert Lacks(lines[0], '\n');
      SplitOfText(lines[1..]);
      SplitFirst(lines[0], TextOf(lines[1..]));
      assert lines == [lines[0]] + lines[1..];
    }
  }

  lemma HeaderClean(h: Header, heading: string)
    requires Lacks(heading, '\n')
    ensures Lacks(PrintHeader(h, heading), '\n')
  {
    hide Decimal;
    forall n: nat ensures Lacks(Decimal(n), '\n') {
      assert forall k :: 0 <= k < |Decimal(n)| ==> IsDigit(Decimal(n)[k]);
    }
  }

  lemma SectionClean(section: Section)
    requires IsSection(section)
    ensures Lines.CleanLines(PrintSection(section), '\n')
  {
    hide PrintHeader, Counted, Count;
    HeaderClean(section.hunk.header, section.heading);
    forall k | 0 <= k < |section.before| ensures Lacks(section.before[k], '\n') {
      assert section.before[k] in section.before;
    }
    forall k | 0 <= k < |section.hunk.lines| ensures Lacks(PrintLines(section.hunk.lines)[k], '\n') {
      assert section.hunk.lines[k] in section.hunk.lines;
    }
  }

  lemma {:induction false} PatchClean(sections: seq<Section>)
    requires forall section <- sections :: IsSection(section)
    ensures Lines.CleanLines(PrintPatch(sections), '\n')
  {
    hide PrintSection, IsSection;
    if sections != [] {
      var init, last := sections[..|sections| - 1], sections[|sections| - 1];
      assert last in sections;
      PatchClean(init);
      SectionClean(last);
    }
  }

  /** The patch as one text, with lines about a file that has no hunks behind it. */
  function PatchText(sections: seq<Section>, after: seq<string>): string { TextOf(PrintPatch(sections) + after) }

  /** What stands behind the last hunk, and the empty line that the final line feed leaves, pads it at most. */
  lemma TextFed(sections: seq<Section>, after: seq<string>)
    requires (forall section <- sections :: IsSection(section)) && forall raw <- after :: IsFileLine(raw)
    ensures var p, q := FeedAll(START, PrintPatch(sections)), FeedAll(START, Lines.SplitLines(PatchText(sections, after)));
            ArePadded(q.hunks, p.hunks) && AllChanges(LinesOf(q.hunks)) == AllChanges(LinesOf(p.hunks))
  {
    hide IsSection, PrintPatch, Feed, IsPadded, LinesOf, AllChanges;
    PatchClean(sections);
    forall k | 0 <= k < |after| ensures Lacks(after[k], '\n') {
      assert after[k] in after;
    }
    SplitOfText(PrintPatch(sections) + after);
    Regroup(PrintPatch(sections), after, [""]);
    FeedJoin(START, PrintPatch(sections), after + [""]);
    FileLinesFed(FeedAll(START, PrintPatch(sections)), after + [""]);
  }

  lemma PaddingCut(read: seq<Hunk>, hunks: seq<Hunk>)
    requires ArePadded(read, hunks) && forall hunk <- hunks :: IsPrinted(hunk)
    ensures SafeHunks(read) == LinesOf(hunks)
  {
    hide IsWritten, Count, Sanitized;
    forall k | 0 <= k < |hunks| ensures SafeHunks(read)[k] == hunks[k].lines {
      assert hunks[k] in hunks;
      var n := |hunks[k].lines|;
      assert read[k].lines == hunks[k].lines + read[k].lines[n..];
      PhantomsCut(hunks[k].lines, read[k].lines[n..], hunks[k].header);
    }
  }

  /**
   A patch that git prints, with all it says about files, reaches the browser
   hunk for hunk and line for line, with its numbers, if and only if no deleted
   line begins with two dashes and a space, no added line with two plus signs
   and a space, and no line terminator stands in the heading of a hunk.
   */
  lemma ReadAsPrinted(sections: seq<Section>, after: seq<string>)
    requires forall section <- sections :: IsSection(section) && IsPrinted(section.hunk)
    requires forall raw <- after :: IsFileLine(raw)
    ensures SafeHunks(FeedAll(START, Lines.SplitLines(PatchText(sections, after))).hunks) == LinesOf(HunksOf(sections))
            <==> HasNoHidden(HunksOf(sections)) && AreHeaded(sections)
  {
    hide IsSection, IsPrinted, PrintPatch, FeedAll, LinesOf, AllChanges, AllVisible, Shown, ReadHeaders, HasNoHidden, AreHeaded, SafeHunks, PatchText, IsPadded, IsFileLine;
    var hunks, p := HunksOf(sections), FeedAll(START, PrintPatch(sections));
    var q := FeedAll(START, Lines.SplitLines(PatchText(sections, after)));
    forall hunk <- hunks ensures IsPrinted(hunk) {
      var k :| 0 <= k < |hunks| && hunk == hunks[k];
      assert sections[k] in sections;
    }
    TextFed(sections, after);
    if HasNoHidden(hunks) && AreHeaded(sections) {
      PatchRead(sections);
      ArePaddedTwice(q.hunks, p.hunks, hunks);
      PaddingCut(q.hunks, hunks);
    }
    PatchChanges(sections);
    AllHeadersRead(sections);
    SafeChanges(q.hunks);
    AllVisibleAtMost(hunks);
  }

  // ----- a patch that is not

  lemma OneDigit(n: nat)
    requires n < 10
    ensures Decimal(n) == [('0' as int + n) as char]
  {
  }

  /** A header whose numbers are all digits, and whose counts are not left out. */
  lemma ShortHeader(h: Header)
    requires h.oldStart < 10 && h.oldLines < 10 && h.newStart < 10 && h.newLines < 10
    requires h.oldLines != 1 && h.newLines != 1
    ensures PrintHeader(h, "")
            == "@@ -" + [DigitOf(h.oldStart)] + "," + [DigitOf(h.oldLines)] + " +" + [DigitOf(h.newStart)] + "," + [DigitOf(h.newLines)] + " @@"
  {
    hide Decimal;
    OneDigit(h.oldStart);
    OneDigit(h.oldLines);
    OneDigit(h.newStart);
    OneDigit(h.newLines);
    var a, b, c, d := [DigitOf(h.oldStart)], [DigitOf(h.oldLines)], [DigitOf(h.newStart)], [DigitOf(h.newLines)];
    assert RangeText(h.oldStart, h.oldLines) == a + "," + b && RangeText(h.newStart, h.newLines) == c + "," + d;
    DigitParts(a, b, c, d);
  }

  lemma DigitParts(a: string, b: string, c: string, d: string)
    ensures "@@ -" + (a + "," + b) + " +" + (c + "," + d) + " @@" + ""
            == "@@ -" + a + "," + b + " +" + c + "," + d + " @@"
  {
  }

  function DigitOf(n: nat): char
    requires n < 10
  {
    ('0' as int + n) as char
  }

  /** What is read of a text of one header and the lines behind it. */
  lemma OneHunkFed(h: Header, header: string, rest: string)
    requires header == PrintHeader(h, "") && Lacks(header, '\n')
    ensures FeedAll(START, Lines.SplitLines(header + "\n" + rest))
            == FeedAll(Parse([Hunk(h, [])], h.oldStart, h.newStart), Lines.SplitLines(rest))
  {
    hide PrintHeader, Feed;
    SplitFirst(header, rest);
    FeedJoin(START, [header], Lines.SplitLines(rest));
    HeaderFed(START, h, "");
    assert START.hunks + [Hunk(h, [])] == [Hunk(h, [])];
  }

  /** Three lines, the last of them empty, as a final line feed leaves it. */
  lemma TwoLinesSplit(a: string, b: string)
    requires Lacks(a, '\n') && Lacks(b, '\n')
    ensures Lines.SplitLines(a + "\n" + (b + "\n" + "")) == [a, b, ""]
  {
    SplitFirst(a, b + "\n" + "");
    SplitFirst(b, "");
    assert Lines.SplitLines("") == [""];
  }

  /**
   Of two deleted lines, the first a comment of SQL, the browser is sent one,
   with the number of the other.
   */
  lemma CommentLost()
    ensures SafeHunks(FeedAll(START, Lines.SplitLines("@@ -1,2 +1,0 @@\n--- x\n-y\n")).hunks)
            == [[Line(Delete, Some(1), None, "y")]]
  {
    hide ParseHeader, IsSkipped, FeedAll, Sanitized, PrintHeader, Push, PrintLines, SafeHunks;
    var h, x, y := Header(1, 2, 1, 0), Line(Delete, Some(1), None, "-- x"), Line(Delete, Some(2), None, "y");
    ShortHeader(h);
    assert PrintHeader(h, "") == "@@ -1,2 +1,0 @@";
    assert "@@ -1,2 +1,0 @@\n--- x\n-y\n" == "@@ -1,2 +1,0 @@" + "\n" + ("--- x" + "\n" + ("-y" + "\n" + ""));
    OneHunkFed(h, "@@ -1,2 +1,0 @@", "--- x" + "\n" + ("-y" + "\n" + ""));
    TwoLinesSplit("--- x", "-y");
    CommentRead();
    PhantomCut(h, Line(Delete, Some(1), None, "y"));
  }

  /** An empty line is read as one more line of context. */
  lemma EmptyFed(p: Parse)
    requires p.hunks != []
    ensures Feed(p, "") == Push(p, Line(Context, Some(p.oldLine), Some(p.newLine), ""))
  {
    hide ParseHeader, IsSkipped, Push;
    Unread("");
  }

  lemma CommentRead()
    ensures FeedAll(Parse([Hunk(Header(1, 2, 1, 0), [])], 1, 1), ["--- x", "-y", ""])
            == Push(Parse([Hunk(Header(1, 2, 1, 0), [Line(Delete, Some(1), None, "y")])], 2, 1), Line(Context, Some(2), Some(1), ""))
  {
    hide ParseHeader, IsSkipped;
    var p := Parse([Hunk(Header(1, 2, 1, 0), [])], 1, 1);
    assert ["--- x", "-y", ""][..2] == ["--- x", "-y"] && ["--- x", "-y"][..1] == ["--- x"] && ["--- x"][..0] == [];
    assert "-" + "-- x" == "--- x" && "-" + "y" == "-y" && "-y"[1..] == "y";
    DeleteSkipped("-- x");
    DeleteSkipped("y");
    assert FeedAll(p, []) == p && FeedAll(p, ["--- x"]) == p;
    assert !Has("y", 0, "-- ");
    var read := Line(Delete, Some(1), None, "y");
    assert FeedAll(p, ["--- x", "-y"]) == Feed(p, "-y") == Push(p, read);
    assert p.hunks[..0] == [] && [] + [read] == [read];
    assert Push(p, read) == Parse([Hunk(Header(1, 2, 1, 0), [read])], 2, 1);
    EmptyFed(Push(p, read));
  }

  lemma PhantomCut(h: Header, read: Line)
    requires h == Header(1, 2, 1, 0) && read == Line(Delete, Some(1), None, "y")
    ensures SafeHunks(Push(Parse([Hunk(h, [read])], 2, 1), Line(Context, Some(2), Some(1), "")).hunks) == [[read]]
  {
    var phantom := Line(Context, Some(2), Some(1), "");
    var p := Parse([Hunk(h, [read])], 2, 1);
    assert p.hunks[..0] == [] && [read] + [phantom] == [read, phantom];
    assert Push(p, phantom).hunks == [Hunk(h, [read, phantom])];
    assert [read, phantom][..1] == [read] && [read][..0] == [];
    assert Sanitized([], h) == [] && Sanitized([read], h) == [read];
    assert Sanitized([read, phantom], h) == [read];
  }

  lemma OneChange(hunk: Hunk)
    requires hunk == Hunk(Header(1, 1, 1, 1), [Line(Delete, Some(1), None, "x"), Line(Add, None, Some(1), "y")])
    ensures IsPrinted(hunk) && IsWritten(hunk) && HasNoHidden([hunk])
  {
    var lines := hunk.lines;
    assert lines[..1] == [lines[0]] && lines[..1][..0] == [] && [lines[0]][..0] == [];
    assert Count([], Left) == 0 && Count([], Right) == 0;
    assert Count(lines[..1], Left) == 1 && Count(lines[..1], Right) == 0;
    assert Follows([], 1, 1) && Follows(lines[..1], 1, 1);
  }

  lemma ThreeLines(a: string, b: string, c: string)
    ensures TextOf([a, b, c]) == a + "\n" + (b + "\n" + (c + "\n"))
  {
    assert [a, b, c][1..] == [b, c] && [b, c][1..] == [c] && [c][1..] == [];
    assert TextOf([c]) == c + "\n" + "";
  }

  lemma OneChangeText(section: Section)
    requires section.before == [] && section.heading == " f\U{2028}g"
    requires section.hunk == Hunk(Header(1, 1, 1, 1), [Line(Delete, Some(1), None, "x"), Line(Add, None, Some(1), "y")])
    ensures PatchText([section], []) == "@@ -1 +1 @@ f\U{2028}g\n-x\n+y\n"
  {
    var header := PrintHeader(section.hunk.header, section.heading);
    assert header == "@@ -1 +1 @@ f\U{2028}g" by {
      OneDigit(1);
    }
    assert "-" + "x" == "-x" && "+" + "y" == "+y";
    assert PrintLines(section.hunk.lines) == [PrintLine(section.hunk.lines[0]), PrintLine(section.hunk.lines[1])];
    assert [section][..0] == [] && PrintPatch([]) == [];
    assert PrintPatch([section]) == [] + PrintSection(section);
    var text := PrintPatch([section]) + [];
    assert text == [header, "-x", "+y"];
    ThreeLines(header, "-x", "+y");
  }

  /**
   A patch of which nothing is hidden and nothing is read: the line that the
   hunk stands under in the file holds a line separator.
   */
  lemma HeadingLost()
    ensures var hunk := Hunk(Header(1, 1, 1, 1), [Line(Delete, Some(1), None, "x"), Line(Add, None, Some(1), "y")]);
            var sections := [Section([], hunk, " f\U{2028}g")];
            && IsPrinted(hunk) && HasNoHidden(HunksOf(sections))
            && PatchText(sections, []) == "@@ -1 +1 @@ f\U{2028}g\n-x\n+y\n"
            && FeedAll(START, Lines.SplitLines("@@ -1 +1 @@ f\U{2028}g\n-x\n+y\n")).hunks == []
  {
    hide FeedAll, PatchText, LinesOf, AllChanges, IsPadded, IsPrinted, HasNoHidden;
    var hunk := Hunk(Header(1, 1, 1, 1), [Line(Delete, Some(1), None, "x"), Line(Add, None, Some(1), "y")]);
    var section := Section([], hunk, " f\U{2028}g");
    OneChange(hunk);
    OneChangeText(section);
    assert ReadHeaders([section]) == 0 by {
      assert IsLineEnd(section.heading[2]);
      assert [section][..0] == [];
    }
    assert HunksOf([section]) == [hunk] && Lacks(section.heading, '\n');
    PatchChanges([section]);
    TextFed([section], []);
  }
}
