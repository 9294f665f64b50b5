/** The server's check of a review range against the hunks of the current patch. */
module AnchorValidation {
  import opened Text
  import Lines
  import opened SideBySide
  import opened DiffLayout
  import opened DiffAnchor
  import opened PatchParser
  import opened PatchRoundTrip

  /** `findIndex` over the numbers of one side */
  function IndexOn(lines: seq<Line>, side: Side, number: int, from: nat): (r: Option<nat>)
    requires from <= |lines|
    ensures r.Some? ==> from <= r.value < |lines| && NumberOn(lines[r.value], side) == Some(number)
    ensures forall k :: from <= k < (if r.Some? then r.value else |lines|) ==> NumberOn(lines[k], side) != Some(number)
    decreases |lines| - from
  {
    if from == |lines| then None
    else if NumberOn(lines[from], side) == Some(number) then Some(from)
    else IndexOn(lines, side, number, from + 1)
  }

  /** The set of the numbers that these lines carry. */
  function Numbers(lines: seq<Line>, side: Side): set<int> {
    if lines == [] then {}
    else Numbers(lines[..|lines| - 1], side)
         + match NumberOn(lines[|lines| - 1], side) case None => {} case Some(n) => {n}
  }

  /** The hunk holds both ends, and as many numbers between them as the range is long. */
  predicate HunkAccepts(lines: seq<Line>, side: Side, start: int, end: int) {
    var first, last := IndexOn(lines, side, start, 0), IndexOn(lines, side, end, 0);
    && first.Some? && last.Some? && first.value <= last.value
    && |Numbers(lines[first.value..last.value + 1], side)| == end - start + 1
  }

  /** The side a request names, in any case of its letters; a request that names none means the right one. */
  datatype SideName = Of(side: Side) | WholeFile | Unknown

  /** A field that should hold a line number: missing, null or empty; a whole number; anything else. */
  datatype Field = Absent | Whole(n: int) | Malformed

  datatype Post = Post(side: SideName, lineNumber: Field, startSide: Option<SideName>, startLineNumber: Field)

  datatype FilePatch = FilePatch(tooLarge: bool, binary: bool, hunks: seq<seq<Line>>)

  datatype Refusal = BadSide | TooLarge | FileWithLine | BinaryLine | BadLine | OtherSide | BadRange | NotInPatch

  datatype Verdict = OnFile | OnLines(side: Side, line: int, start: Option<int>) | Refused(why: Refusal)

  /** The checks that come before the patch is searched, in their order. */
  function Precheck(body: Post, patch: FilePatch): Option<Verdict> {
    if body.side.Unknown? then Some(Refused(BadSide))
    else if patch.tooLarge then Some(Refused(TooLarge))
    else if body.side.WholeFile? then Some(if body.lineNumber.Absent? then OnFile else Refused(FileWithLine))
    else if patch.binary then Some(Refused(BinaryLine))
    else if !body.lineNumber.Whole? || body.lineNumber.n < 1 then Some(Refused(BadLine))
    else if body.startSide.Some? && body.startSide.value != body.side then Some(Refused(OtherSide))
    else if body.startLineNumber.Absent? then None
    else if !body.startLineNumber.Whole? || !(1 <= body.startLineNumber.n <= body.lineNumber.n) then Some(Refused(BadRange))
    else None
  }

  /** The first line of the range; a range without one is a single line. */
  function FirstLine(body: Post): int
    requires body.lineNumber.Whole?
  {
    if body.startLineNumber.Whole? then body.startLineNumber.n else body.lineNumber.n
  }

  predicate IsLine(field: Field) { field.Whole? && field.n >= 1 }

  /** The range begins on this side; a request that names none there means its own. */
  predicate StartsOn(body: Post, side: SideName) { body.startSide == None || body.startSide == Some(side) }

  method ValidateAnchor(body: Post, patch: FilePatch) returns (verdict: Verdict)
    ensures verdict == Refused(BadSide) <==> body.side == Unknown
    ensures verdict == Refused(TooLarge) <==> body.side != Unknown && patch.tooLarge
    ensures verdict == OnFile <==> body.side == WholeFile && !patch.tooLarge && body.lineNumber == Absent
    ensures verdict == Refused(FileWithLine) <==> body.side == WholeFile && !patch.tooLarge && body.lineNumber != Absent
    ensures verdict == Refused(BinaryLine) <==> body.side.Of? && !patch.tooLarge && patch.binary
    ensures verdict == Refused(BadLine) <==> body.side.Of? && !patch.tooLarge && !patch.binary && !IsLine(body.lineNumber)
    ensures verdict == Refused(OtherSide) <==>
              body.side.Of? && !patch.tooLarge && !patch.binary && IsLine(body.lineNumber) && !StartsOn(body, body.side)
    ensures verdict == Refused(BadRange) <==>
              && body.side.Of? && !patch.tooLarge && !patch.binary && IsLine(body.lineNumber) && StartsOn(body, body.side)
              && body.startLineNumber != Absent && !(IsLine(body.startLineNumber) && body.startLineNumber.n <= body.lineNumber.n)
    ensures Precheck(body, patch).Some? ==> verdict == Precheck(body, patch).value
    ensures Precheck(body, patch).None? ==>
              var start, end := FirstLine(body), body.lineNumber.n;
              verdict == if exists k :: 0 <= k < |patch.hunks| && HunkAccepts(patch.hunks[k], body.side.side, start, end)
                         then OnLines(body.side.side, end, if start == end then None else Some(start))
                         else Refused(NotInPatch)
  {
    hide HunkAccepts;
    if body.side.Unknown? { return Refused(BadSide); }
    if patch.tooLarge { return Refused(TooLarge); }
    if body.side.WholeFile? {
      if !body.lineNumber.Absent? { return Refused(FileWithLine); }
      return OnFile;
    }
    if patch.binary { return Refused(BinaryLine); }
    if !body.lineNumber.Whole? || body.lineNumber.n < 1 { return Refused(BadLine); }
    var end := body.lineNumber.n;
    var startField := if body.startLineNumber.Absent? then Whole(end) else body.startLineNumber;
    if body.startSide.Some? && body.startSide.value != body.side { return Refused(OtherSide); }
    if !startField.Whole? || startField.n < 1 || startField.n > end { return Refused(BadRange); }
    var start := startField.n;
    var matched := false;
    var k := 0;
    while k < |patch.hunks|
      invariant 0 <= k <= |patch.hunks|
      invariant forall j :: 0 <= j < k ==> !HunkAccepts(patch.hunks[j], body.side.side, start, end)
      invariant !matched
    {
      if HunkAccepts(patch.hunks[k], body.side.side, start, end) {
        matched := true;
        break;
      }
      k := k + 1;
    }
    if !matched { return Refused(NotInPatch); }
    verdict := OnLines(body.side.side, end, if start == end then None else Some(start));
  }

  // ----- what is accepted

  /** Some line carries this number on this side. */
  ghost predicate Carries(lines: seq<Line>, side: Side, number: int) {
    exists k :: 0 <= k < |lines| && NumberOn(lines[k], side) == Some(number)
  }

  ghost predicate CoversRange(lines: seq<Line>, side: Side, start: int, end: int) {
    forall n :: start <= n <= end ==> Carries(lines, side, n)
  }

  lemma {:induction false} NumbersAre(lines: seq<Line>, side: Side)
    ensures forall n :: n in Numbers(lines, side) <==> Carries(lines, side, n)
  {
    if lines != [] {
      var init, last := lines[..|lines| - 1], lines[|lines| - 1];
      NumbersAre(init, side);
      forall n ensures n in Numbers(lines, side) <==> Carries(lines, side, n) {
        if Carries(lines, side, n) {
          var k :| 0 <= k < |lines| && NumberOn(lines[k], side) == Some(n);
          assert k < |init| ==> init[k] == lines[k];
          assert k < |init| ==> Carries(init, side, n);
        }
        if Carries(init, side, n) {
          var k :| 0 <= k < |init| && NumberOn(init[k], side) == Some(n);
          assert lines[k] == init[k];
        }
        if NumberOn(last, side) == Some(n) {
          assert lines[|lines| - 1] == last;
        }
      }
    }
  }

  function Interval(start: int, end: int): set<int>
    decreases end - start + 1
  {
    if start > end then {} else Interval(start, end - 1) + {end}
  }

  lemma {:induction false} IntervalSize(start: int, end: int)
    requires start <= end + 1
    ensures |Interval(start, end)| == end - start + 1
    ensures forall n :: n in Interval(start, end) <==> start <= n <= end
    decreases end - start + 1
  {
    if start <= end {
      IntervalSize(start, end - 1);
    }
  }

  lemma SubsetSize(small: set<int>, large: set<int>)
    requires small <= large
    ensures |small| <= |large| && (|small| == |large| ==> small == large)
  {
    assert large == small + (large - small);
    if |small| == |large| {
      assert |large - small| == 0;
    }
  }

  /** Between two lines of a side stand, in an increasing hunk, exactly the numbers between theirs. */
  lemma SliceNumbers(lines: seq<Line>, side: Side, i: nat, j: nat, n: int)
    requires Increasing(lines, side) && i <= j < |lines|
    requires NumberOn(lines[i], side).Some? && NumberOn(lines[j], side).Some?
    ensures n in Numbers(lines[i..j + 1], side)
            <==> NumberOn(lines[i], side).value <= n <= NumberOn(lines[j], side).value && Carries(lines, side, n)
  {
    var slice := lines[i..j + 1];
    NumbersAre(slice, side);
    if Carries(slice, side, n) {
      var k :| 0 <= k < |slice| && NumberOn(slice[k], side) == Some(n);
      assert lines[i + k] == slice[k];
    }
    if Carries(lines, side, n) && NumberOn(lines[i], side).value <= n <= NumberOn(lines[j], side).value {
      var k :| 0 <= k < |lines| && NumberOn(lines[k], side) == Some(n);
      assert i <= k <= j;
      assert slice[k - i] == lines[k];
    }
  }

  /** As many numbers as the range is long means all of them. */
  lemma FullExactly(numbers: set<int>, lines: seq<Line>, side: Side, start: int, end: int)
    requires start <= end
    requires forall n :: n in numbers <==> start <= n <= end && Carries(lines, side, n)
    ensures |numbers| == end - start + 1 <==> CoversRange(lines, side, start, end)
  {
    hide Interval, Carries;
    var all := Interval(start, end);
    IntervalSize(start, end);
    forall n | n in numbers ensures n in all {
    }
    SubsetSize(numbers, all);
    if CoversRange(lines, side, start, end) {
      forall n | n in all ensures n in numbers {
        assert Carries(lines, side, n);
      }
      assert numbers == all;
    }
  }

  /**
   A hunk whose numbers increase accepts a range if and only if every line of
   the range is in it: no more is let through, and nothing less is refused.
   */
  lemma AcceptedExactly(lines: seq<Line>, side: Side, start: int, end: int)
    requires Increasing(lines, side) && start <= end
    ensures HunkAccepts(lines, side, start, end) <==> CoversRange(lines, side, start, end)
  {
    hide Numbers;
    assert CoversRange(lines, side, start, end) ==> Carries(lines, side, start) && Carries(lines, side, end);
    var first, last := IndexOn(lines, side, start, 0), IndexOn(lines, side, end, 0);
    if first.Some? && last.Some? && first.value <= last.value {
      var numbers := Numbers(lines[first.value..last.value + 1], side);
      forall n ensures n in numbers <==> start <= n <= end && Carries(lines, side, n) {
        SliceNumbers(lines, side, first.value, last.value, n);
      }
      FullExactly(numbers, lines, side, start, end);
    }
  }

  // ----- what the browser sends

  /** A hunk as it is read from a patch has no gaps between two of its lines. */
  lemma CountedCovers(hunk: Hunk, side: Side, start: int, end: int)
    requires Counted(hunk) && start <= end
    requires Carries(hunk.lines, side, start) && Carries(hunk.lines, side, end)
    ensures CoversRange(hunk.lines, side, start, end)
  {
    hide Counted;
    var lines := hunk.lines;
    var i :| 0 <= i < |lines| && NumberOn(lines[i], side) == Some(start);
    var j :| 0 <= j < |lines| && NumberOn(lines[j], side) == Some(end);
    forall n | start <= n <= end ensures Carries(lines, side, n) {
      NumberBetween(hunk, side, i, j, n);
    }
  }

  lemma {:induction false} NumberBetween(hunk: Hunk, side: Side, i: nat, j: nat, n: int)
    requires Counted(hunk) && i < |hunk.lines| && j < |hunk.lines|
    requires NumberOn(hunk.lines[i], side).Some? && NumberOn(hunk.lines[j], side).Some?
    requires NumberOn(hunk.lines[i], side).value <= n <= NumberOn(hunk.lines[j], side).value
    ensures Carries(hunk.lines, side, n)
    decreases j
  {
    hide Follows, Count;
    var lines, left, right := hunk.lines, hunk.header.oldStart, hunk.header.newStart;
    if n < NumberOn(lines[j], side).value {
      CountedIncreasing(hunk, side);
      assert i < j;
      var k := j - 1;
      while NumberOn(lines[k], side).None?
        invariant i <= k < j
        invariant Count(lines[..k + 1], side) == Count(lines[..j], side)
        decreases k
      {
        CountGrows(lines, k, k + 1, side);
        k := k - 1;
      }
      CountGrows(lines, k, k + 1, side);
      NumberIs(lines, left, right, k, side);
      NumberIs(lines, left, right, j, side);
      NumberBetween(hunk, side, i, k, n);
    }
  }

  /** Every click is on a button of one of the hunks. */
  ghost predicate OnButtons(events: seq<Event>, hunks: seq<seq<Line>>) {
    forall e <- events :: e.Click? ==> e.hunk < |hunks| && Carries(hunks[e.hunk], e.side, e.line)
  }

  lemma PickedEnds(events: seq<Event>, hunks: seq<seq<Line>>)
    requires OnButtons(events, hunks) && Run(events).Some?
    ensures var a := Run(events).value;
            && a.hunk < |hunks| && Carries(hunks[a.hunk], a.side, Low(a)) && Carries(hunks[a.hunk], a.side, High(a))
  {
    hide Run, Carries;
    PickedRangeStarts(events);
    var s: nat :| StartsRange(events, s);
    AnchorOfRun(events, s);
    assert events[s] in events && events[|events| - 1] in events;
  }

  /** Lines that were read from a text and cut down, for either side. */
  lemma SearchedIncreasing(patch: string, k: nat, side: Side)
    requires k < |FeedAll(START, Lines.SplitLines(patch)).hunks|
    ensures Increasing(SafeHunks(FeedAll(START, Lines.SplitLines(patch)).hunks)[k], side)
  {
    hide Counted, FeedAll, Sanitized;
    var hunks := FeedAll(START, Lines.SplitLines(patch)).hunks;
    ParsedCounted(Lines.SplitLines(patch));
    assert hunks[k] in hunks;
    CountedIncreasing(hunks[k], side);
    SanitizedKeeps(hunks[k].lines, hunks[k].header);
  }

  /**
   For every patch text that the browser is sent, and every range picked by
   clicks on its buttons: the server, whose own text may be another one because
   it never leaves white space out, finds the range if and only if some hunk
   there holds every line of it. When the texts are the same, the hunk that it
   was picked in accepts it if and only if that hunk has no gap in it.
   */
  lemma PickedRangeChecked(sent: string, searched: string, events: seq<Event>)
    requires OnButtons(events, SafeHunks(FeedAll(START, Lines.SplitLines(sent)).hunks)) && Run(events).Some?
    ensures var hunks, a := SafeHunks(FeedAll(START, Lines.SplitLines(searched)).hunks), Run(events).value;
            && ((exists k :: 0 <= k < |hunks| && HunkAccepts(hunks[k], a.side, Low(a), High(a)))
                <==> (exists k :: 0 <= k < |hunks| && CoversRange(hunks[k], a.side, Low(a), High(a))))
            && (sent == searched ==>
                  a.hunk < |hunks|
                  && (HunkAccepts(hunks[a.hunk], a.side, Low(a), High(a)) <==> CoversRange(hunks[a.hunk], a.side, Low(a), High(a))))
  {
    hide HunkAccepts, Run, CoversRange, FeedAll, Sanitized, Increasing;
    var hunks, a := SafeHunks(FeedAll(START, Lines.SplitLines(searched)).hunks), Run(events).value;
    PickedEnds(events, SafeHunks(FeedAll(START, Lines.SplitLines(sent)).hunks));
    forall k | 0 <= k < |hunks|
      ensures HunkAccepts(hunks[k], a.side, Low(a), High(a)) <==> CoversRange(hunks[k], a.side, Low(a), High(a))
    {
      SearchedIncreasing(searched, k, a.side);
      AcceptedExactly(hunks[k], a.side, Low(a), High(a));
    }
  }

  /** A hunk that holds no more lines than its header declares has none, so every such range is accepted. */
  lemma PickedRangeAccepted(events: seq<Event>, hunks: seq<Hunk>)
    requires (forall hunk <- hunks :: Counted(hunk) && IsDeclared(hunk.lines, hunk.header))
    requires OnButtons(events, SafeHunks(hunks)) && Run(events).Some?
    ensures var a := Run(events).value;
            a.hunk < |hunks| && HunkAccepts(SafeHunks(hunks)[a.hunk], a.side, Low(a), High(a))
  {
    hide Counted, HunkAccepts, Run, Sanitized, IsDeclared;
    PickedEnds(events, SafeHunks(hunks));
    var a := Run(events).value;
    var hunk := hunks[a.hunk];
    assert hunk in hunks;
    SanitizedWhole(hunk.lines, hunk.header);
    CountedCovers(hunk, a.side, Low(a), High(a));
    CountedIncreasing(hunk, a.side);
    AcceptedExactly(hunk.lines, a.side, Low(a), High(a));
  }

  /** What the browser submits, as the server reads it. */
  function AsPost(request: Request): Post {
    Post(Of(request.side), Whole(request.lineNumber), Some(Of(request.startSide)),
         if request.startLineNumber.None? then Absent else Whole(request.startLineNumber.value))
  }

  /** A range that was picked on buttons passes every check but the search of the patch. */
  lemma SubmittedReachesSearch(anchor: Anchor, hunks: seq<seq<Line>>)
    requires Low(anchor) >= 1
    ensures var body := AsPost(Submitted(anchor));
            && Precheck(body, FilePatch(false, false, hunks)).None?
            && FirstLine(body) == Low(anchor) && body.lineNumber.n == High(anchor) && body.side == Of(anchor.side)
  {
  }

  /**
   A patch whose header declares no old line although it holds one: the cut
   leaves a gap among the new lines, which are all that the browser is sent, and
   a range across the gap is refused.
   */
  lemma RangeAcrossGapRefused()
    ensures var hunks := SafeHunks(FeedAll(START, Lines.SplitLines("@@ -1,0 +1,3 @@\n+x\n y\n+z\n")).hunks);
            && |hunks| == 1 && Carries(hunks[0], Right, 1) && Carries(hunks[0], Right, 3)
            && !HunkAccepts(hunks[0], Right, 1, 3)
  {
    hide FeedAll, Sanitized, Push, SafeHunks, HunkAccepts;
    GapFed();
    GapRead();
    GapLeft();
    GapRefused([Line(Add, None, Some(1), "x"), Line(Add, None, Some(3), "z")]);
  }

  lemma GapRefused(lines: seq<Line>)
    requires lines == [Line(Add, None, Some(1), "x"), Line(Add, None, Some(3), "z")]
    ensures Carries(lines, Right, 1) && Carries(lines, Right, 3) && !HunkAccepts(lines, Right, 1, 3)
  {
    hide HunkAccepts;
    assert NumberOn(lines[0], Right) == Some(1) && NumberOn(lines[1], Right) == Some(3);
    assert !Carries(lines, Right, 2);
    AcceptedExactly(lines, Right, 1, 3);
  }

  lemma GapFed()
    ensures FeedAll(START, Lines.SplitLines("@@ -1,0 +1,3 @@\n+x\n y\n+z\n"))
            == FeedAll(Parse([Hunk(Header(1, 0, 1, 3), [])], 1, 1), ["+x", " y", "+z", ""])
  {
    hide FeedAll, PrintHeader, Lines.SplitLines;
    var h := Header(1, 0, 1, 3);
    ShortHeader(h);
    assert PrintHeader(h, "") == "@@ -1,0 +1,3 @@";
    var rest := "+x" + "\n" + (" y" + "\n" + ("+z" + "\n" + ""));
    assert "@@ -1,0 +1,3 @@\n+x\n y\n+z\n" == "@@ -1,0 +1,3 @@" + "\n" + rest;
    OneHunkFed(h, "@@ -1,0 +1,3 @@", rest);
    SplitFirst("+x", " y" + "\n" + ("+z" + "\n" + ""));
    TwoLinesSplit(" y", "+z");
    assert ["+x"] + [" y", "+z", ""] == ["+x", " y", "+z", ""];
  }

  const GAP_LINES: seq<Line> :=
    [Line(Add, None, Some(1), "x"), Line(Context, Some(1), Some(2), "y"), Line(Add, None, Some(3), "z"), Line(Context, Some(2), Some(4), "")]

  lemma FourFed(p: Parse, a: string, b: string, c: string, d: string)
    ensures FeedAll(p, [a, b, c, d]) == Feed(Feed(Feed(Feed(p, a), b), c), d)
  {
    hide Feed;
    assert [a, b, c, d][..3] == [a, b, c] && [a, b, c][..2] == [a, b] && [a, b][..1] == [a] && [a][..0] == [];
    assert FeedAll(p, [a]) == Feed(p, a);
    assert FeedAll(p, [a, b]) == Feed(Feed(p, a), b);
    assert FeedAll(p, [a, b, c]) == Feed(Feed(Feed(p, a), b), c);
  }

  lemma PushOne(h: Header, lines: seq<Line>, left: nat, right: nat, line: Line)
    ensures Push(Parse([Hunk(h, lines)], left, right), line)
            == Parse([Hunk(h, lines + [line])], left + (if line.oldLine.Some? then 1 else 0), right + (if line.newLine.Some? then 1 else 0))
  {
    assert [Hunk(h, lines)][..0] == [] && [] + [Hunk(h, lines + [line])] == [Hunk(h, lines + [line])];
  }

  /** An added line, a context line, an added line, a context line. */
  lemma FourPushed(h: Header, left: nat, right: nat, a: Line, b: Line, c: Line, d: Line)
    requires a.oldLine.None? && a.newLine.Some? && b.oldLine.Some? && b.newLine.Some?
    requires c.oldLine.None? && c.newLine.Some? && d.oldLine.Some? && d.newLine.Some?
    ensures Push(Parse([Hunk(h, [])], left, right), a) == Parse([Hunk(h, [a])], left, right + 1)
    ensures Push(Parse([Hunk(h, [a])], left, right + 1), b) == Parse([Hunk(h, [a, b])], left + 1, right + 2)
    ensures Push(Parse([Hunk(h, [a, b])], left + 1, right + 2), c) == Parse([Hunk(h, [a, b, c])], left + 1, right + 3)
    ensures Push(Parse([Hunk(h, [a, b, c])], left + 1, right + 3), d) == Parse([Hunk(h, [a, b, c, d])], left + 2, right + 4)
  {
    hide Push;
    PushOne(h, [], left, right, a);
    PushOne(h, [a], left, right + 1, b);
    PushOne(h, [a, b], left + 1, right + 2, c);
    PushOne(h, [a, b, c], left + 1, right + 3, d);
    assert [] + [a] == [a] && [a] + [b] == [a, b] && [a, b] + [c] == [a, b, c] && [a, b, c] + [d] == [a, b, c, d];
  }

  lemma GapRead()
    ensures FeedAll(Parse([Hunk(Header(1, 0, 1, 3), [])], 1, 1), ["+x", " y", "+z", ""])
            == Parse([Hunk(Header(1, 0, 1, 3), GAP_LINES)], 3, 5)
  {
    hide Feed, Push;
    var h := Header(1, 0, 1, 3);
    FourFed(Parse([Hunk(h, [])], 1, 1), "+x", " y", "+z", "");
    GapLines();
    FourPushed(h, 1, 1, Line(Add, None, Some(1), "x"), Line(Context, Some(1), Some(2), "y"),
               Line(Add, None, Some(3), "z"), Line(Context, Some(2), Some(4), ""));
  }

  /** How each of the lines is read. */
  lemma GapLines()
    ensures forall p: Parse :: p.hunks != [] ==>
              && Feed(p, "+x") == Push(p, Line(Add, None, Some(p.newLine), "x"))
              && Feed(p, "+z") == Push(p, Line(Add, None, Some(p.newLine), "z"))
              && Feed(p, " y") == Push(p, Line(Context, Some(p.oldLine), Some(p.newLine), "y"))
              && Feed(p, "") == Push(p, Line(Context, Some(p.oldLine), Some(p.newLine), ""))
  {
    hide ParseHeader, IsSkipped, Push;
    assert "+" + "x" == "+x" && "+" + "z" == "+z" && "+x"[1..] == "x" && "+z"[1..] == "z" && " y"[1..] == "y";
    AddSkipped("x");
    AddSkipped("z");
    assert !Has("x", 0, "++ ") && !Has("z", 0, "++ ");
    Unread(" y");
    Unread("");
    assert !Has(" y", 0, NO_NEWLINE) && !Has("", 0, NO_NEWLINE);
  }

  /** When the header declares no old line, the lines that carry one go. */
  lemma GapCut(h: Header, a: Line, b: Line, c: Line, d: Line)
    requires h.oldLines == 0 && h.newLines >= 2
    requires a.oldLine.None? && a.newLine.Some? && b.oldLine.Some?
    requires c.oldLine.None? && c.newLine.Some? && d.oldLine.Some?
    ensures Sanitized([a, b, c, d], h) == [a, c]
  {
    assert [a, b, c, d][..3] == [a, b, c] && [a, b, c][..2] == [a, b] && [a, b][..1] == [a] && [a][..0] == [];
    assert Count([], Right) == 0 && Count([a], Right) == 1;
    assert Sanitized([], h) == [] && Sanitized([a], h) == [a];
    assert Sanitized([a, b], h) == [a];
    assert Sanitized([a, b, c], h) == [a, c];
  }

  lemma GapLeft()
    ensures SafeHunks([Hunk(Header(1, 0, 1, 3), GAP_LINES)])
            == [[Line(Add, None, Some(1), "x"), Line(Add, None, Some(3), "z")]]
  {
    hide Sanitized;
    GapCut(Header(1, 0, 1, 3), Line(Add, None, Some(1), "x"), Line(Context, Some(1), Some(2), "y"),
           Line(Add, None, Some(3), "z"), Line(Context, Some(2), Some(4), ""));
  }
}
