/**
 The server side of a patch: `parseUnifiedPatch` reads git's text into numbered
 lines, `sanitizeHunk` cuts a hunk down to the counts its header declares.
 */
module PatchParser {
  import opened Text
  import Lines
  import opened SideBySide
  import opened DiffLayout

  datatype Header = Header(oldStart: nat, oldLines: nat, newStart: nat, newLines: nat)

  datatype Hunk = Hunk(header: Header, lines: seq<Line>)

  /** `(\d+)(?:,(\d+))?` at `i`: the start, the count, which is one if it is missing, and the end. */
  function RangeAt(s: string, i: nat): (r: Option<(nat, nat, nat)>)
    requires i <= |s|
    ensures r.Some? ==> i < r.value.2 <= |s|
  {
    var a := RunEnd(s, i, Digit);
    if a == i then None
    else
      DigitsOf(s, i, a);
      if a < |s| && s[a] == ',' then
        var b := RunEnd(s, a + 1, Digit);
        DigitsOf(s, a + 1, b);
        if b == a + 1 then None else Some((Value(s[i..a]), Value(s[a + 1..b]), b))
      else Some((Value(s[i..a]), 1, a))
  }

  /** /^@@ -(\d+)(?:,(\d+))? \+(\d+)(?:,(\d+))? @@(.*)$/ */
  function ParseHeader(line: string): Option<Header> {
    if !Has(line, 0, "@@ -") then None
    else
      match RangeAt(line, 4)
      case None => None
      case Some((oldStart, oldLines, e)) =>
        if !Has(line, e, " +") then None
        else
          match RangeAt(line, e + 2)
          case None => None
          case Some((newStart, newLines, f)) =>
            if Has(line, f, " @@") && Lines.RestOf(line, f + 3).Some?
            then Some(Header(oldStart, oldLines, newStart, newLines)) else None
  }

  const NO_NEWLINE := "\\ No newline at end of file"

  /** The lines of git's own that may stand before a hunk; they are skipped wherever they stand. */
  predicate IsFileHeader(raw: string) {
    Has(raw, 0, "diff --git ") || Has(raw, 0, "index ") || Has(raw, 0, "--- ") || Has(raw, 0, "+++ ")
  }

  datatype Parse = Parse(hunks: seq<Hunk>, oldLine: nat, newLine: nat)

  const START := Parse([], 0, 0)

  function Last(p: Parse): Hunk
    requires p.hunks != []
  {
    p.hunks[|p.hunks| - 1]
  }

  /** The line goes to the last hunk, and the counters of its sides move on. */
  function Push(p: Parse, line: Line): Parse
    requires p.hunks != []
  {
    Parse(p.hunks[..|p.hunks| - 1] + [Last(p).(lines := Last(p).lines + [line])],
          p.oldLine + (if line.oldLine.Some? then 1 else 0), p.newLine + (if line.newLine.Some? then 1 else 0))
  }

  /** The line that `raw` is read as inside a hunk. */
  function ReadLine(raw: string, left: nat, right: nat): Line {
    if Has(raw, 0, NO_NEWLINE) then Line(Meta, None, None, raw)
    else if raw != "" && raw[0] == '+' then Line(Add, None, Some(right), raw[1..])
    else if raw != "" && raw[0] == '-' then Line(Delete, Some(left), None, raw[1..])
    else Line(Context, Some(left), Some(right), if raw != "" && raw[0] == ' ' then raw[1..] else raw)
  }

  predicate IsSkipped(raw: string) { IsFileHeader(raw) || Has(raw, 0, "@@ ") }

  function Feed(p: Parse, raw: string): Parse {
    match ParseHeader(raw)
    case Some(header) => Parse(p.hunks + [Hunk(header, [])], header.oldStart, header.newStart)
    case None => if p.hunks == [] || IsSkipped(raw) then p else Push(p, ReadLine(raw, p.oldLine, p.newLine))
  }

  function FeedAll(p: Parse, lines: seq<string>): Parse {
    if lines == [] then p else Feed(FeedAll(p, lines[..|lines| - 1]), lines[|lines| - 1])
  }

  method ParseUnifiedPatch(rawPatch: string) returns (hunks: seq<Hunk>)
    ensures hunks == FeedAll(START, Lines.SplitLines(rawPatch)).hunks
  {
    hide ParseHeader, IsFileHeader, Has;
    var lines := Lines.SplitLines(rawPatch);
    hunks := [];
    var oldLine, newLine := 0, 0;
    var index := 0;
    while index < |lines|
      invariant 0 <= index <= |lines|
      invariant Parse(hunks, oldLine, newLine) == FeedAll(START, lines[..index])
    {
      var raw := lines[index];
      assert lines[..index + 1][..index] == lines[..index];
      index := index + 1;
      var header := ParseHeader(raw);
      if header.Some? {
        hunks := hunks + [Hunk(header.value, [])];
        oldLine, newLine := header.value.oldStart, header.value.newStart;
        continue;
      }
      if hunks == [] { continue; }
      if IsFileHeader(raw) { continue; }
      if Has(raw, 0, "@@ ") { continue; }
      var line: Line;
      if Has(raw, 0, NO_NEWLINE) {
        line := Line(Meta, None, None, raw);
      } else if raw != "" && raw[0] == '+' {
        line := Line(Add, None, Some(newLine), raw[1..]);
        newLine := newLine + 1;
      } else if raw != "" && raw[0] == '-' {
        line := Line(Delete, Some(oldLine), None, raw[1..]);
        oldLine := oldLine + 1;
      } else {
        line := Line(Context, Some(oldLine), Some(newLine), if raw != "" && raw[0] == ' ' then raw[1..] else raw);
        oldLine, newLine := oldLine + 1, newLine + 1;
      }
      hunks := hunks[..|hunks| - 1] + [hunks[|hunks| - 1].(lines := hunks[|hunks| - 1].lines + [line])];
    }
    assert lines[..index] == lines;
  }

  // ----- numbering

  /** The lines that carry a number on this side. */
  function Count(lines: seq<Line>, side: Side): nat {
    if lines == [] then 0
    else Count(lines[..|lines| - 1], side) + if NumberOn(lines[|lines| - 1], side).Some? then 1 else 0
  }

  /** A line of a known type that carries exactly these numbers on the sides it belongs to. */
  predicate Fits(line: Line, left: nat, right: nat) {
    match line.kind
    case Context => line.oldLine == Some(left) && line.newLine == Some(right)
    case Delete => line.oldLine == Some(left) && line.newLine == None
    case Add => line.oldLine == None && line.newLine == Some(right)
    case Meta => line.oldLine == None && line.newLine == None
    case Other => false
  }

  /** On each side the numbers count up one by one from the start. */
  ghost predicate Follows(lines: seq<Line>, left: nat, right: nat) {
    lines == []
    || var init := lines[..|lines| - 1];
       Follows(init, left, right) && Fits(lines[|lines| - 1], left + Count(init, Left), right + Count(init, Right))
  }

  ghost predicate Counted(hunk: Hunk) { Follows(hunk.lines, hunk.header.oldStart, hunk.header.newStart) }

  ghost predicate ParseInv(p: Parse) {
    && (forall hunk <- p.hunks :: Counted(hunk))
    && (p.hunks != [] ==>
          && p.oldLine == Last(p).header.oldStart + Count(Last(p).lines, Left)
          && p.newLine == Last(p).header.newStart + Count(Last(p).lines, Right))
  }

  lemma PushKeeps(p: Parse, line: Line)
    requires ParseInv(p) && p.hunks != [] && Fits(line, p.oldLine, p.newLine)
    ensures ParseInv(Push(p, line))
  {
    var lines := Last(p).lines;
    assert (lines + [line])[..|lines|] == lines;
    var pushed := Last(p).(lines := lines + [line]);
    assert Last(p) in p.hunks && Counted(pushed);
    assert forall hunk <- Push(p, line).hunks :: hunk in p.hunks || hunk == pushed;
  }

  lemma FeedKeeps(p: Parse, raw: string)
    requires ParseInv(p)
    ensures ParseInv(Feed(p, raw))
  {
    hide ParseHeader, IsSkipped, Push, Has;
    if ParseHeader(raw).None? && p.hunks != [] && !IsSkipped(raw) {
      PushKeeps(p, ReadLine(raw, p.oldLine, p.newLine));
    }
  }

  /** Whatever the text, every hunk that is read is numbered one by one from its header. */
  lemma {:induction false} ParsedCounted(lines: seq<string>)
    ensures ParseInv(FeedAll(START, lines))
  {
    hide Feed;
    if lines != [] {
      ParsedCounted(lines[..|lines| - 1]);
      FeedKeeps(FeedAll(START, lines[..|lines| - 1]), lines[|lines| - 1]);
    }
  }

  /** The line of git's own about a file, or the beginning of a header that is none. */
  predicate IsPassedOver(raw: string) {
    || Has(raw, 0, "diff --git ") || Has(raw, 0, "index ") || Has(raw, 0, "--- ") || Has(raw, 0, "+++ ") || Has(raw, 0, "@@ ")
  }

  lemma PassedOver(raw: string)
    ensures IsSkipped(raw) <==> IsPassedOver(raw)
  {
    hide Has;
  }

  /** `raw` is a line of the hunk that has these numbers next; whatever does not begin with a mark is context as a whole. */
  predicate IsReadAs(line: Line, raw: string, left: nat, right: nat) {
    if Has(raw, 0, "\\ No newline at end of file") then line == Line(Meta, None, None, raw)
    else if raw == "" then line == Line(Context, Some(left), Some(right), "")
    else if raw[0] == '+' then line == Line(Add, None, Some(right), raw[1..])
    else if raw[0] == '-' then line == Line(Delete, Some(left), None, raw[1..])
    else if raw[0] == ' ' then line == Line(Context, Some(left), Some(right), raw[1..])
    else line == Line(Context, Some(left), Some(right), raw)
  }

  lemma ReadAs(raw: string, left: nat, right: nat)
    ensures IsReadAs(ReadLine(raw, left, right), raw, left, right)
  {
    hide Has;
  }

  /**
   What the next line of any text does: a header begins a hunk, a line before the
   first one or about a file is passed over, and every other one goes to the last
   hunk with the numbers that come next there.
   */
  lemma NextLine(lines: seq<string>, raw: string)
    ensures FeedAll(START, []).hunks == []
    ensures var hunks, next := FeedAll(START, lines).hunks, FeedAll(START, lines + [raw]).hunks;
            if ParseHeader(raw).Some? then next == hunks + [Hunk(ParseHeader(raw).value, [])]
            else if hunks == [] || IsPassedOver(raw) then next == hunks
            else
              var last := hunks[|hunks| - 1];
              exists line :: next == hunks[..|hunks| - 1] + [Hunk(last.header, last.lines + [line])]
                && IsReadAs(line, raw, last.header.oldStart + Count(last.lines, Left), last.header.newStart + Count(last.lines, Right))
  {
    hide Feed, ParseHeader, IsPassedOver, IsReadAs, Count, Counted;
    assert (lines + [raw])[..|lines|] == lines;
    ParsedCounted(lines);
    FeedNext(FeedAll(START, lines), raw);
  }

  lemma FeedNext(p: Parse, raw: string)
    ensures var next := Feed(p, raw).hunks;
            if ParseHeader(raw).Some? then next == p.hunks + [Hunk(ParseHeader(raw).value, [])]
            else if p.hunks == [] || IsPassedOver(raw) then next == p.hunks
            else exists line :: next == p.hunks[..|p.hunks| - 1] + [Hunk(Last(p).header, Last(p).lines + [line])]
                   && IsReadAs(line, raw, p.oldLine, p.newLine)
  {
    hide ParseHeader, IsSkipped, IsPassedOver, ReadLine, IsReadAs;
    PassedOver(raw);
    ReadAs(raw, p.oldLine, p.newLine);
  }

  /** On this side later lines carry greater numbers. */
  ghost predicate Increasing(lines: seq<Line>, side: Side) {
    forall i, j :: 0 <= i < j < |lines| && NumberOn(lines[i], side).Some? && NumberOn(lines[j], side).Some?
      ==> NumberOn(lines[i], side).value < NumberOn(lines[j], side).value
  }

  /** The number of a line is the start and the count of the numbered lines before it. */
  lemma {:induction false} NumberIs(lines: seq<Line>, left: nat, right: nat, k: nat, side: Side)
    requires Follows(lines, left, right) && k < |lines|
    ensures Fits(lines[k], left + Count(lines[..k], Left), right + Count(lines[..k], Right))
  {
    var init := lines[..|lines| - 1];
    if k < |init| {
      NumberIs(init, left, right, k, side);
      assert init[..k] == lines[..k];
    }
  }

  lemma {:induction false} CountGrows(lines: seq<Line>, i: nat, j: nat, side: Side)
    requires i < j <= |lines|
    ensures Count(lines[..i], side) + (if NumberOn(lines[i], side).Some? then 1 else 0) <= Count(lines[..j], side)
    ensures j == i + 1 ==> Count(lines[..i], side) + (if NumberOn(lines[i], side).Some? then 1 else 0) == Count(lines[..j], side)
  {
    assert lines[..j][..j - 1] == lines[..j - 1];
    if i < j - 1 {
      CountGrows(lines, i, j - 1, side);
    }
  }

  lemma CountedIncreasing(hunk: Hunk, side: Side)
    requires Counted(hunk)
    ensures Increasing(hunk.lines, side)
  {
    hide Follows, Count;
    var lines := hunk.lines;
    forall i, j | 0 <= i < j < |lines| && NumberOn(lines[i], side).Some? && NumberOn(lines[j], side).Some?
      ensures NumberOn(lines[i], side).value < NumberOn(lines[j], side).value
    {
      NumberIs(lines, hunk.header.oldStart, hunk.header.newStart, i, side);
      NumberIs(lines, hunk.header.oldStart, hunk.header.newStart, j, side);
      CountGrows(lines, i, j, side);
    }
  }

  lemma CountedIsGit(hunk: Hunk)
    requires Counted(hunk)
    ensures IsGitHunk(hunk.lines)
  {
    hide Follows, Count;
    forall line | line in hunk.lines
      ensures !line.kind.Other? && (line.kind.Delete? ==> line.newLine.None?) && (line.kind.Add? ==> line.oldLine.None?)
    {
      var k :| 0 <= k < |hunk.lines| && hunk.lines[k] == line;
      NumberIs(hunk.lines, hunk.header.oldStart, hunk.header.newStart, k, Left);
    }
  }

  // ----- cutting a hunk down

  /** There is room for the line on every side it carries a number on. */
  predicate HasRoom(kept: seq<Line>, line: Line, header: Header) {
    && (line.oldLine.Some? ==> Count(kept, Left) < header.oldLines)
    && (line.newLine.Some? ==> Count(kept, Right) < header.newLines)
  }

  function Sanitized(lines: seq<Line>, header: Header): seq<Line> {
    if lines == [] then []
    else
      var kept := Sanitized(lines[..|lines| - 1], header);
      if HasRoom(kept, lines[|lines| - 1], header) then kept + [lines[|lines| - 1]] else kept
  }

  lemma CountPush(lines: seq<Line>, line: Line, side: Side)
    ensures Count(lines + [line], side) == Count(lines, side) + if NumberOn(line, side).Some? then 1 else 0
  {
    assert (lines + [line])[..|lines|] == lines;
  }

  method SanitizeHunk(hunk: Hunk) returns (result: Hunk)
    ensures result == Hunk(hunk.header, Sanitized(hunk.lines, hunk.header))
  {
    var oldSeen, newSeen := 0, 0;
    var lines: seq<Line> := [];
    var k := 0;
    while k < |hunk.lines|
      invariant 0 <= k <= |hunk.lines|
      invariant lines == Sanitized(hunk.lines[..k], hunk.header)
      invariant oldSeen == Count(lines, Left) && newSeen == Count(lines, Right)
    {
      var line := hunk.lines[k];
      assert hunk.lines[..k + 1][..k] == hunk.lines[..k];
      k := k + 1;
      if line.oldLine.Some? && oldSeen >= hunk.header.oldLines { continue; }
      if line.newLine.Some? && newSeen >= hunk.header.newLines { continue; }
      CountPush(lines, line, Left);
      CountPush(lines, line, Right);
      lines := lines + [line];
      if line.oldLine.Some? { oldSeen := oldSeen + 1; }
      if line.newLine.Some? { newSeen := newSeen + 1; }
    }
    assert hunk.lines[..k] == hunk.lines;
    result := hunk.(lines := lines);
  }

  /** The first text is the second one with some of its lines left out. */
  ghost predicate IsSubsequence(some: seq<Line>, all: seq<Line>) {
    if some == [] then true
    else if all == [] then false
    else
      || (some[|some| - 1] == all[|all| - 1] && IsSubsequence(some[..|some| - 1], all[..|all| - 1]))
      || IsSubsequence(some, all[..|all| - 1])
  }

  /** What is kept are lines of the hunk, each once and in order, and no more than the header declares. */
  lemma {:induction false} SanitizedKeeps(lines: seq<Line>, header: Header)
    ensures var kept := Sanitized(lines, header);
            && IsSubsequence(kept, lines) && (forall line <- kept :: line in lines)
            && Count(kept, Left) <= header.oldLines && Count(kept, Right) <= header.newLines
            && (forall side: Side :: Increasing(lines, side) ==> Increasing(kept, side))
  {
    if lines != [] {
      var init, last := lines[..|lines| - 1], lines[|lines| - 1];
      var before := Sanitized(init, header);
      SanitizedKeeps(init, header);
      CountPush(before, last, Left);
      CountPush(before, last, Right);
      forall side: Side | Increasing(lines, side) ensures Increasing(Sanitized(lines, header), side) {
        IncreasingPush(lines, before, side);
      }
    }
  }

  lemma IncreasingPush(lines: seq<Line>, before: seq<Line>, side: Side)
    requires lines != [] && Increasing(lines, side)
    requires forall line <- before :: line in lines[..|lines| - 1]
    requires Increasing(lines[..|lines| - 1], side) ==> Increasing(before, side)
    ensures Increasing(before, side) && Increasing(before + [lines[|lines| - 1]], side)
  {
    var init, last := lines[..|lines| - 1], lines[|lines| - 1];
    assert Increasing(init, side);
    forall i | 0 <= i < |before| && NumberOn(before[i], side).Some? && NumberOn(last, side).Some?
      ensures NumberOn(before[i], side).value < NumberOn(last, side).value
    {
      assert before[i] in before && before[i] in init;
      var k :| 0 <= k < |init| && init[k] == before[i];
      assert lines[k] == init[k];
    }
  }

  /** The hunk holds no more lines of either side than its header declares. */
  predicate IsDeclared(lines: seq<Line>, header: Header) {
    Count(lines, Left) <= header.oldLines && Count(lines, Right) <= header.newLines
  }

  /** Such a hunk is left as it is. */
  lemma {:induction false} SanitizedWhole(lines: seq<Line>, header: Header)
    requires IsDeclared(lines, header)
    ensures Sanitized(lines, header) == lines
  {
    if lines != [] {
      SanitizedWhole(lines[..|lines| - 1], header);
    }
  }

  /** Lines behind the declared ones, such as the empty line that a final line feed leaves, are cut off. */
  lemma {:induction false} PhantomsCut(lines: seq<Line>, extra: seq<Line>, header: Header)
    requires Count(lines, Left) == header.oldLines && Count(lines, Right) == header.newLines
    requires forall line <- extra :: line.oldLine.Some? || line.newLine.Some?
    ensures Sanitized(lines + extra, header) == lines
  {
    if extra == [] {
      assert lines + extra == lines;
      SanitizedWhole(lines, header);
    } else {
      var init := extra[..|extra| - 1];
      PhantomsCut(lines, init, header);
      assert (lines + extra)[..|lines + extra| - 1] == lines + init;
      assert extra[|extra| - 1] in extra;
    }
  }

  /** The lines that a browser is sent for a patch. */
  function SafeHunks(hunks: seq<Hunk>): (safe: seq<seq<Line>>)
    ensures |safe| == |hunks|
  {
    seq(|hunks|, k requires 0 <= k < |hunks| => Sanitized(hunks[k].lines, hunks[k].header))
  }

  lemma SafeHunkShape(hunk: Hunk)
    requires Counted(hunk)
    ensures var lines := Sanitized(hunk.lines, hunk.header);
            IsGitHunk(lines) && DistinctNumbers(lines, Left) && DistinctNumbers(lines, Right)
  {
    hide Counted, Sanitized;
    CountedIsGit(hunk);
    CountedIncreasing(hunk, Left);
    CountedIncreasing(hunk, Right);
    SanitizedKeeps(hunk.lines, hunk.header);
  }

  lemma ParsedShape(rawPatch: string)
    ensures var hunks := SafeHunks(FeedAll(START, Lines.SplitLines(rawPatch)).hunks);
            forall lines <- hunks :: IsGitHunk(lines) && DistinctNumbers(lines, Left) && DistinctNumbers(lines, Right)
  {
    hide FeedAll, Counted, Sanitized, IsGitHunk, DistinctNumbers;
    var raw := Lines.SplitLines(rawPatch);
    ParsedCounted(raw);
    var hunks := FeedAll(START, raw).hunks;
    forall lines | lines in SafeHunks(hunks) ensures IsGitHunk(lines) && DistinctNumbers(lines, Left) && DistinctNumbers(lines, Right) {
      var k :| 0 <= k < |hunks| && lines == Sanitized(hunks[k].lines, hunks[k].header);
      assert hunks[k] in hunks;
      SafeHunkShape(hunks[k]);
    }
  }

  /**
   Whatever text git prints, the browser is sent hunks for which the two layouts
   hold the same buttons, threads and forms.
   */
  lemma ParsedPatchesAgree(rawPatch: string, view: View)
    requires ArePlaced(view.threads)
    ensures var hunks := SafeHunks(FeedAll(START, Lines.SplitLines(rawPatch)).hunks);
            multiset(Patch(view, hunks, UnifiedMode)) == multiset(Patch(view, hunks, SideMode))
  {
    hide Patch, FeedAll, SafeHunks, IsGitHunk, DistinctNumbers;
    ParsedShape(rawPatch);
    LayoutsAgreeOnGit(view, SafeHunks(FeedAll(START, Lines.SplitLines(rawPatch)).hunks));
  }

  /** And whatever the threads are, either layout shows the review form once if the anchored line is there. */
  lemma ParsedPatchForm(rawPatch: string, view: View, mode: Mode)
    ensures var hunks := SafeHunks(FeedAll(START, Lines.SplitLines(rawPatch)).hunks);
            multiset(Patch(view, hunks, mode))[Form]
            == if view.anchor.Some? && view.anchor.value.hunk < |hunks|
                  && exists line <- hunks[view.anchor.value.hunk] :: IsAt(line, view.anchor.value.side, view.anchor.value.line)
               then 1 else 0
  {
    hide Patch, IsAt, FeedAll, SafeHunks, IsGitHunk, DistinctNumbers;
    ParsedShape(rawPatch);
    OneForm(view, SafeHunks(FeedAll(START, Lines.SplitLines(rawPatch)).hunks), mode);
  }
}
