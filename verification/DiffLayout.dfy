/** The two layouts of a file's patch, and what each of them puts on the page. */
module DiffLayout {
  import opened Text
  import opened SideBySide

  /** `side` is None for a thread on the whole file. */
  datatype Thread = Thread(id: nat, side: Option<Side>, lineNumber: Option<int>)

  datatype Anchor = Anchor(hunk: nat, side: Side, line: int, startLine: int)

  /** The part of the page's state that the markup of a patch reads. */
  datatype View = View(threads: seq<Thread>, canComment: bool, anchor: Option<Anchor>)

  /** What a reader can act on or read: a comment button, a thread card, the review form. */
  datatype Item =
    | Button(hunk: nat, buttonSide: Side, line: int, selected: bool)
    | Card(thread: Thread)
    | Form

  function Low(anchor: Anchor): int { if anchor.startLine < anchor.line then anchor.startLine else anchor.line }

  function High(anchor: Anchor): int { if anchor.startLine < anchor.line then anchor.line else anchor.startLine }

  predicate Selected(view: View, hunk: nat, side: Side, line: int) {
    match view.anchor
    case None => false
    case Some(a) => a.hunk == hunk && a.side == side && Low(a) <= line <= High(a)
  }

  /** `Number(lineNumber)`: null counts as zero. */
  function Numeric(line: Option<int>): int { if line.Some? then line.value else 0 }

  function ThreadsFor(threads: seq<Thread>, side: Side, line: Option<int>): seq<Item> {
    if threads == [] then []
    else (if threads[0].side == Some(side) && Numeric(threads[0].lineNumber) == Numeric(line) then [Card(threads[0])] else [])
         + ThreadsFor(threads[1..], side, line)
  }

  function FileThreads(threads: seq<Thread>): seq<Item> {
    if threads == [] then []
    else (if threads[0].side.None? then [Card(threads[0])] else []) + FileThreads(threads[1..])
  }

  function CommentButton(view: View, hunk: nat, side: Side, line: Option<int>): seq<Item> {
    if Numeric(line) == 0 || !view.canComment then []
    else [Button(hunk, side, Numeric(line), Selected(view, hunk, side, Numeric(line)))]
  }

  function NumberOn(line: Line, side: Side): Option<int> { if side.Left? then line.oldLine else line.newLine }

  /** The anchored line of this hunk is this number on this side. */
  predicate Anchors(view: View, hunk: nat, side: Side, number: Option<int>) {
    match view.anchor
    case None => false
    case Some(a) => a.hunk == hunk && a.side == side && number == Some(a.line)
  }

  /** `unifiedLineMarkup` */
  function UnifiedLine(view: View, hunk: nat, line: Line): seq<Item> {
    if line.kind.Meta? then []
    else
      CommentButton(view, hunk, Left, line.oldLine) + CommentButton(view, hunk, Right, line.newLine)
      + ThreadsFor(view.threads, Left, line.oldLine) + ThreadsFor(view.threads, Right, line.newLine)
      + if Anchors(view, hunk, Left, line.oldLine) || Anchors(view, hunk, Right, line.newLine) then [Form] else []
  }

  function Unified(view: View, hunk: nat, lines: seq<Line>): seq<Item> {
    if lines == [] then [] else UnifiedLine(view, hunk, lines[0]) + Unified(view, hunk, lines[1..])
  }

  /** `sideCell`: the button of a cell that holds a line. */
  function CellButton(view: View, hunk: nat, side: Side, cell: Option<Line>): seq<Item> {
    match cell
    case None => []
    case Some(line) => CommentButton(view, hunk, side, NumberOn(line, side))
  }

  function CellThreads(view: View, side: Side, cell: Option<Line>): seq<Item> {
    match cell
    case None => []
    case Some(line) => ThreadsFor(view.threads, side, NumberOn(line, side))
  }

  predicate CellAnchors(view: View, hunk: nat, side: Side, cell: Option<Line>) {
    cell.Some? && Anchors(view, hunk, side, NumberOn(cell.value, side))
  }

  /** `sideRowMarkup` */
  function SideRow(view: View, hunk: nat, row: Row): seq<Item> {
    match row
    case MetaRow(_) => []
    case Pair(left, right) =>
      CellButton(view, hunk, Left, left) + CellButton(view, hunk, Right, right)
      + CellThreads(view, Left, left) + CellThreads(view, Right, right)
      + if CellAnchors(view, hunk, Left, left) || CellAnchors(view, hunk, Right, right) then [Form] else []
  }

  function SideRows(view: View, hunk: nat, rows: seq<Row>): seq<Item> {
    if rows == [] then [] else SideRow(view, hunk, rows[0]) + SideRows(view, hunk, rows[1..])
  }

  /** The hunks of a patch from the `first` on. */
  function UnifiedHunks(view: View, hunks: seq<seq<Line>>, first: nat): seq<Item> {
    if hunks == [] then [] else Unified(view, first, hunks[0]) + UnifiedHunks(view, hunks[1..], first + 1)
  }

  function SideHunks(view: View, hunks: seq<seq<Line>>, first: nat): seq<Item> {
    if hunks == [] then []
    else SideRows(view, first, Rows(hunks[0])) + SideHunks(view, hunks[1..], first + 1)
  }

  datatype Mode = UnifiedMode | SideMode

  /** `patchMarkup` for a text patch. Without a hunk a notice takes the place of everything, of the threads on the file, too. */
  function Patch(view: View, hunks: seq<seq<Line>>, mode: Mode): seq<Item> {
    if hunks == [] then []
    else FileThreads(view.threads) + if mode.UnifiedMode? then UnifiedHunks(view, hunks, 0) else SideHunks(view, hunks, 0)
  }

  // ----- what belongs to one side of one line

  /** Everything that the number of `line` on one side puts on the page. */
  function Belongings(view: View, hunk: nat, side: Side, line: Line): multiset<Item> {
    multiset(CommentButton(view, hunk, side, NumberOn(line, side)))
    + multiset(ThreadsFor(view.threads, side, NumberOn(line, side)))
    + if Anchors(view, hunk, side, NumberOn(line, side)) then multiset{Form} else multiset{}
  }

  function AllBelongings(view: View, hunk: nat, side: Side, lines: seq<Line>): multiset<Item> {
    if lines == [] then multiset{}
    else Belongings(view, hunk, side, lines[0]) + AllBelongings(view, hunk, side, lines[1..])
  }

  /** The number that a line carries on a side it has no cell in. */
  predicate Stray(line: Line, side: Side) { !line.kind.Meta? && !Stands(side, line) }

  function StrayBelongings(view: View, hunk: nat, lines: seq<Line>): multiset<Item> {
    if lines == [] then multiset{}
    else (if Stray(lines[0], Left) then Belongings(view, hunk, Left, lines[0]) else multiset{})
         + (if Stray(lines[0], Right) then Belongings(view, hunk, Right, lines[0]) else multiset{})
         + StrayBelongings(view, hunk, lines[1..])
  }

  lemma UnifiedLineBelongings(view: View, hunk: nat, line: Line)
    ensures multiset(UnifiedLine(view, hunk, line))
            == if line.kind.Meta? then multiset{}
               else Belongings(view, hunk, Left, line) + Belongings(view, hunk, Right, line)
  {
    hide CommentButton, ThreadsFor;
  }

  function CellBelongings(view: View, hunk: nat, side: Side, cell: Option<Line>): multiset<Item> {
    match cell
    case None => multiset{}
    case Some(line) => Belongings(view, hunk, side, line)
  }

  lemma CellItems(view: View, hunk: nat, side: Side, cell: Option<Line>)
    ensures CellBelongings(view, hunk, side, cell)
            == multiset(CellButton(view, hunk, side, cell)) + multiset(CellThreads(view, side, cell))
               + if CellAnchors(view, hunk, side, cell) then multiset{Form} else multiset{}
  {
    hide CommentButton, ThreadsFor;
  }

  /** The sides are told apart by the anchor's own, so one row anchors the form once. */
  lemma OneSideAnchors(view: View, hunk: nat, a: Option<int>, b: Option<int>)
    ensures !(Anchors(view, hunk, Left, a) && Anchors(view, hunk, Right, b))
  {
  }

  lemma SideRowBelongings(view: View, hunk: nat, row: Row)
    ensures multiset(SideRow(view, hunk, row))
            == CellBelongings(view, hunk, Left, Cell(row, Left)) + CellBelongings(view, hunk, Right, Cell(row, Right))
  {
    hide CellButton, CellThreads, Belongings, Anchors;
    CellItems(view, hunk, Left, Cell(row, Left));
    CellItems(view, hunk, Right, Cell(row, Right));
    match row {
      case MetaRow(_) =>
      case Pair(left, right) =>
        if left.Some? && right.Some? {
          OneSideAnchors(view, hunk, NumberOn(left.value, Left), NumberOn(right.value, Right));
        }
    }
  }

  lemma OneCell(view: View, hunk: nat, side: Side, row: Row)
    ensures AllBelongings(view, hunk, side, Cells([row], side)) == CellBelongings(view, hunk, side, Cell(row, side))
  {
    hide Belongings;
    assert [row][1..] == [] && Cells([], side) == [];
  }

  lemma {:induction false} BelongingsJoin(view: View, hunk: nat, side: Side, a: seq<Line>, b: seq<Line>)
    ensures AllBelongings(view, hunk, side, a + b) == AllBelongings(view, hunk, side, a) + AllBelongings(view, hunk, side, b)
  {
    hide Belongings;
    if a == [] {
      assert a + b == b;
    } else {
      assert (a + b)[1..] == a[1..] + b;
      BelongingsJoin(view, hunk, side, a[1..], b);
    }
  }

  /** Side by side, the page holds what belongs to the cells of the two columns. */
  lemma {:induction false} SideRowsBelongings(view: View, hunk: nat, rows: seq<Row>)
    ensures multiset(SideRows(view, hunk, rows))
            == AllBelongings(view, hunk, Left, Cells(rows, Left)) + AllBelongings(view, hunk, Right, Cells(rows, Right))
  {
    hide SideRow, AllBelongings, Belongings, CellBelongings, Cells;
    if rows == [] {
      NoBelongings(view, hunk);
    } else {
      SideRowsBelongings(view, hunk, rows[1..]);
      SideRowBelongings(view, hunk, rows[0]);
      OneCell(view, hunk, Left, rows[0]);
      OneCell(view, hunk, Right, rows[0]);
      assert rows == [rows[0]] + rows[1..];
      CellsJoin([rows[0]], rows[1..], Left);
      CellsJoin([rows[0]], rows[1..], Right);
      BelongingsJoin(view, hunk, Left, Cells([rows[0]], Left), Cells(rows[1..], Left));
      BelongingsJoin(view, hunk, Right, Cells([rows[0]], Right), Cells(rows[1..], Right));
    }
  }

  lemma NoBelongings(view: View, hunk: nat)
    ensures Cells([], Left) == [] && Cells([], Right) == []
    ensures AllBelongings(view, hunk, Left, []) == multiset{} && AllBelongings(view, hunk, Right, []) == multiset{}
  {
  }

  /** Unified, the page holds that and the belongings of the strays. */
  lemma {:induction false} UnifiedBelongings(view: View, hunk: nat, lines: seq<Line>)
    ensures multiset(Unified(view, hunk, lines))
            == AllBelongings(view, hunk, Left, Column(lines, Left)) + AllBelongings(view, hunk, Right, Column(lines, Right))
               + StrayBelongings(view, hunk, lines)
  {
    hide UnifiedLine, Belongings;
    if lines != [] {
      UnifiedBelongings(view, hunk, lines[1..]);
      UnifiedLineBelongings(view, hunk, lines[0]);
      ColumnBelongings(view, hunk, Left, lines);
      ColumnBelongings(view, hunk, Right, lines);
    }
  }

  lemma ColumnBelongings(view: View, hunk: nat, side: Side, lines: seq<Line>)
    requires lines != []
    ensures AllBelongings(view, hunk, side, Column(lines, side))
            == (if Stands(side, lines[0]) then Belongings(view, hunk, side, lines[0]) else multiset{})
               + AllBelongings(view, hunk, side, Column(lines[1..], side))
  {
    hide Belongings;
    var rest := Column(lines[1..], side);
    if Stands(side, lines[0]) {
      assert Column(lines, side)[1..] == rest;
    } else {
      assert Column(lines, side) == rest;
    }
  }

  /** The unified layout of a hunk holds all that the other one holds, and the strays. */
  lemma HunkConserved(view: View, hunk: nat, lines: seq<Line>)
    ensures multiset(Unified(view, hunk, lines))
            == multiset(SideRows(view, hunk, Rows(lines))) + StrayBelongings(view, hunk, lines)
  {
    hide AllBelongings, Column, Cells, Rows, StrayBelongings;
    SideRowsBelongings(view, hunk, Rows(lines));
    UnifiedBelongings(view, hunk, lines);
    RowsKeepColumns(lines, Left);
    RowsKeepColumns(lines, Right);
  }

  // ----- when the two layouts agree

  /** A number that puts nothing on the page: no button, no thread and no form. */
  ghost predicate IsSilent(view: View, hunk: nat, side: Side, number: Option<int>) {
    && (view.canComment ==> Numeric(number) == 0)
    && (forall thread <- view.threads :: thread.side == Some(side) ==> Numeric(thread.lineNumber) != Numeric(number))
    && !Anchors(view, hunk, side, number)
  }

  lemma {:induction false} NoThreadsFor(threads: seq<Thread>, side: Side, line: Option<int>)
    ensures ThreadsFor(threads, side, line) == []
            <==> forall thread <- threads :: thread.side == Some(side) ==> Numeric(thread.lineNumber) != Numeric(line)
  {
    if threads != [] {
      NoThreadsFor(threads[1..], side, line);
      assert threads == [threads[0]] + threads[1..];
    }
  }

  lemma SilentHasNothing(view: View, hunk: nat, side: Side, line: Line)
    ensures Belongings(view, hunk, side, line) == multiset{} <==> IsSilent(view, hunk, side, NumberOn(line, side))
  {
    hide ThreadsFor;
    var number := NumberOn(line, side);
    NoThreadsFor(view.threads, side, number);
    EmptyParts(CommentButton(view, hunk, side, number), ThreadsFor(view.threads, side, number));
  }

  lemma EmptyParts(a: seq<Item>, b: seq<Item>)
    ensures multiset(a) + multiset(b) == multiset{} <==> a == [] && b == []
    ensures multiset(a) + multiset(b) + multiset{Form} != multiset{}
  {
    assert |multiset(a) + multiset(b)| == |a| + |b|;
    assert Form in multiset(a) + multiset(b) + multiset{Form};
  }

  ghost predicate HasNoStray(view: View, hunk: nat, line: Line) {
    forall side: Side :: Stray(line, side) ==> IsSilent(view, hunk, side, NumberOn(line, side))
  }

  ghost predicate NoStrays(view: View, hunk: nat, lines: seq<Line>) {
    forall line <- lines :: HasNoStray(view, hunk, line)
  }

  lemma LineStrays(view: View, hunk: nat, line: Line)
    ensures HasNoStray(view, hunk, line)
            <==> (Stray(line, Left) ==> Belongings(view, hunk, Left, line) == multiset{})
                 && (Stray(line, Right) ==> Belongings(view, hunk, Right, line) == multiset{})
  {
    hide Belongings, IsSilent;
    SilentHasNothing(view, hunk, Left, line);
    SilentHasNothing(view, hunk, Right, line);
  }

  lemma {:induction false} StraysEmpty(view: View, hunk: nat, lines: seq<Line>)
    ensures StrayBelongings(view, hunk, lines) == multiset{} <==> NoStrays(view, hunk, lines)
  {
    hide Belongings, HasNoStray;
    if lines != [] {
      StraysEmpty(view, hunk, lines[1..]);
      LineStrays(view, hunk, lines[0]);
      assert lines == [lines[0]] + lines[1..];
      EmptySum(
        (if Stray(lines[0], Left) then Belongings(view, hunk, Left, lines[0]) else multiset{})
        + (if Stray(lines[0], Right) then Belongings(view, hunk, Right, lines[0]) else multiset{}),
        StrayBelongings(view, hunk, lines[1..]));
      EmptySum(
        if Stray(lines[0], Left) then Belongings(view, hunk, Left, lines[0]) else multiset{},
        if Stray(lines[0], Right) then Belongings(view, hunk, Right, lines[0]) else multiset{});
    }
  }

  lemma EmptySum(a: multiset<Item>, b: multiset<Item>)
    ensures a + b == multiset{} <==> a == multiset{} && b == multiset{}
  {
    assert a <= a + b && b <= a + b;
  }

  /** The belongings of the strays of every hunk. */
  function PatchStrays(view: View, hunks: seq<seq<Line>>, first: nat): multiset<Item> {
    if hunks == [] then multiset{}
    else StrayBelongings(view, first, hunks[0]) + PatchStrays(view, hunks[1..], first + 1)
  }

  lemma {:induction false} HunksConserved(view: View, hunks: seq<seq<Line>>, first: nat)
    ensures multiset(UnifiedHunks(view, hunks, first))
            == multiset(SideHunks(view, hunks, first)) + PatchStrays(view, hunks, first)
  {
    hide Unified, SideRows, Rows, StrayBelongings;
    if hunks != [] {
      HunksConserved(view, hunks[1..], first + 1);
      HunkConserved(view, first, hunks[0]);
    }
  }

  lemma {:induction false} PatchStraysEmpty(view: View, hunks: seq<seq<Line>>, first: nat)
    ensures PatchStrays(view, hunks, first) == multiset{}
            <==> forall k :: 0 <= k < |hunks| ==> NoStrays(view, first + k, hunks[k])
  {
    hide NoStrays, StrayBelongings;
    if hunks != [] {
      var rest := hunks[1..];
      PatchStraysEmpty(view, rest, first + 1);
      StraysEmpty(view, first, hunks[0]);
      EmptySum(StrayBelongings(view, first, hunks[0]), PatchStrays(view, rest, first + 1));
      forall k | 0 <= k < |rest| ensures NoStrays(view, first + 1 + k, rest[k]) <==> NoStrays(view, first + (k + 1), hunks[k + 1]) {
        assert rest[k] == hunks[k + 1] && first + 1 + k == first + (k + 1);
      }
      assert forall k :: 0 < k < |hunks| ==> hunks[k] == rest[k - 1] && first + k == first + 1 + (k - 1);
    }
  }

  /** Switching the layout drops nothing but the belongings of strays. */
  lemma LayoutsConserve(view: View, hunks: seq<seq<Line>>)
    ensures multiset(Patch(view, hunks, UnifiedMode)) == multiset(Patch(view, hunks, SideMode)) + PatchStrays(view, hunks, 0)
  {
    hide UnifiedHunks, SideHunks;
    HunksConserved(view, hunks, 0);
  }

  /**
   The layouts hold the same buttons, threads and forms, each as often, if and
   only if no line carries a number that matters on a side it has no cell in.
   */
  lemma LayoutsAgree(view: View, hunks: seq<seq<Line>>)
    ensures multiset(Patch(view, hunks, UnifiedMode)) == multiset(Patch(view, hunks, SideMode))
            <==> forall k :: 0 <= k < |hunks| ==> NoStrays(view, k, hunks[k])
  {
    hide Patch, PatchStrays, NoStrays;
    LayoutsConserve(view, hunks);
    PatchStraysEmpty(view, hunks, 0);
    forall k | 0 <= k < |hunks| ensures NoStrays(view, k, hunks[k]) <==> NoStrays(view, 0 + k, hunks[k]) {
    }
    var side, strays := multiset(Patch(view, hunks, SideMode)), PatchStrays(view, hunks, 0);
    assert side + strays == side ==> |strays| == 0;
  }

  /**
   A thread on the left side without a line number: its number counts as zero,
   and so does the missing old number of an added line, so the unified layout
   shows the thread there and the other layout shows it nowhere.
   */
  lemma UnplacedThreadStrays()
    ensures var view := View([Thread(1, Some(Left), None)], false, None);
            var hunks := [[Line(Add, None, Some(7), "x")]];
            multiset(Patch(view, hunks, UnifiedMode)) != multiset(Patch(view, hunks, SideMode))
  {
    hide Patch;
    var view := View([Thread(1, Some(Left), None)], false, None);
    var line := Line(Add, None, Some(7), "x");
    assert view.threads[0] in view.threads;
    assert !IsSilent(view, 0, Left, NumberOn(line, Left));
    assert Stray(line, Left) && !HasNoStray(view, 0, line);
    assert line in [[line]][0];
    LayoutsAgree(view, [[line]]);
  }

  /** A hunk as git prints it: known types, and no number on the opposite side. */
  ghost predicate IsGitHunk(lines: seq<Line>) {
    forall line <- lines ::
      !line.kind.Other? && (line.kind.Delete? ==> line.newLine.None?) && (line.kind.Add? ==> line.oldLine.None?)
  }

  ghost predicate ArePlaced(threads: seq<Thread>) {
    forall thread <- threads :: thread.side.Some? ==> Numeric(thread.lineNumber) > 0
  }

  lemma LayoutsAgreeOnGit(view: View, hunks: seq<seq<Line>>)
    requires ArePlaced(view.threads) && forall lines <- hunks :: IsGitHunk(lines)
    ensures multiset(Patch(view, hunks, UnifiedMode)) == multiset(Patch(view, hunks, SideMode))
  {
    hide Patch;
    forall k | 0 <= k < |hunks| ensures NoStrays(view, k, hunks[k]) {
      assert IsGitHunk(hunks[k]);
    }
    LayoutsAgree(view, hunks);
  }

  // ----- the review form

  /** How many lines carry this number on this side. */
  function Matches(lines: seq<Line>, side: Side, number: int): nat {
    if lines == [] then 0
    else (if !lines[0].kind.Meta? && NumberOn(lines[0], side) == Some(number) then 1 else 0) + Matches(lines[1..], side, number)
  }

  lemma {:induction false} ThreadsHoldNoForm(threads: seq<Thread>, side: Side, line: Option<int>)
    ensures Form !in ThreadsFor(threads, side, line)
  {
    if threads != [] {
      ThreadsHoldNoForm(threads[1..], side, line);
    }
  }

  lemma {:induction false} FileThreadsHoldNoForm(threads: seq<Thread>)
    ensures Form !in FileThreads(threads)
  {
    if threads != [] {
      FileThreadsHoldNoForm(threads[1..]);
    }
  }

  lemma LineForms(view: View, hunk: nat, line: Line)
    ensures multiset(UnifiedLine(view, hunk, line))[Form]
            == if !line.kind.Meta? && (Anchors(view, hunk, Left, line.oldLine) || Anchors(view, hunk, Right, line.newLine)) then 1 else 0
  {
    hide ThreadsFor, Anchors;
    ThreadsHoldNoForm(view.threads, Left, line.oldLine);
    ThreadsHoldNoForm(view.threads, Right, line.newLine);
  }

  lemma {:induction false} HunkForms(view: View, hunk: nat, lines: seq<Line>)
    ensures multiset(Unified(view, hunk, lines))[Form]
            == match view.anchor
               case None => 0
               case Some(a) => if a.hunk == hunk then Matches(lines, a.side, a.line) else 0
  {
    hide UnifiedLine;
    if lines != [] {
      HunkForms(view, hunk, lines[1..]);
      LineForms(view, hunk, lines[0]);
    }
  }

  lemma {:induction false} HunksForms(view: View, hunks: seq<seq<Line>>, first: nat)
    ensures multiset(UnifiedHunks(view, hunks, first))[Form]
            == match view.anchor
               case None => 0
               case Some(a) => if first <= a.hunk < first + |hunks| then Matches(hunks[a.hunk - first], a.side, a.line) else 0
  {
    hide Unified, Matches;
    if hunks != [] {
      HunksForms(view, hunks[1..], first + 1);
      HunkForms(view, first, hunks[0]);
    }
  }

  ghost predicate IsAt(line: Line, side: Side, number: int) {
    !line.kind.Meta? && NumberOn(line, side) == Some(number)
  }

  /** No two lines of the hunk carry the same number on this side. */
  ghost predicate DistinctNumbers(lines: seq<Line>, side: Side) {
    forall i, j :: 0 <= i < j < |lines| && !lines[i].kind.Meta? && !lines[j].kind.Meta? && NumberOn(lines[i], side).Some?
      ==> NumberOn(lines[i], side) != NumberOn(lines[j], side)
  }

  lemma {:induction false} MatchesAtMostOnce(lines: seq<Line>, side: Side, number: int)
    requires DistinctNumbers(lines, side)
    ensures Matches(lines, side, number) == if exists line <- lines :: IsAt(line, side, number) then 1 else 0
  {
    if lines != [] {
      MatchesAtMostOnce(lines[1..], side, number);
      assert lines == [lines[0]] + lines[1..];
      assert IsAt(lines[0], side, number) ==> forall k :: 0 < k < |lines| ==> !IsAt(lines[k], side, number);
    }
  }

  /** What the strays of a git hunk put on the page are thread cards: a missing number has no button and no form. */
  lemma {:induction false} GitStraysAreCards(view: View, hunk: nat, lines: seq<Line>, item: Item)
    requires IsGitHunk(lines) && !item.Card?
    ensures item !in StrayBelongings(view, hunk, lines)
  {
    if lines != [] {
      var line := lines[0];
      assert line in lines && IsGitHunk(lines[1..]);
      GitStraysAreCards(view, hunk, lines[1..], item);
      NoNumberIsCards(view, hunk, line, Left, item);
      NoNumberIsCards(view, hunk, line, Right, item);
    }
  }

  lemma {:induction false} ThreadsAreCards(threads: seq<Thread>, side: Side, line: Option<int>, item: Item)
    ensures item in ThreadsFor(threads, side, line) ==> item.Card?
  {
    if threads != [] {
      ThreadsAreCards(threads[1..], side, line, item);
    }
  }

  lemma NoNumberIsCards(view: View, hunk: nat, line: Line, side: Side, item: Item)
    ensures NumberOn(line, side).None? && !item.Card? ==> item !in Belongings(view, hunk, side, line)
  {
    hide ThreadsFor;
    ThreadsAreCards(view.threads, side, NumberOn(line, side), item);
  }

  lemma {:induction false} PatchStraysAreCards(view: View, hunks: seq<seq<Line>>, first: nat, item: Item)
    requires (forall lines <- hunks :: IsGitHunk(lines)) && !item.Card?
    ensures item !in PatchStrays(view, hunks, first)
  {
    hide StrayBelongings, IsGitHunk;
    if hunks != [] {
      assert hunks[0] in hunks;
      GitStraysAreCards(view, first, hunks[0], item);
      PatchStraysAreCards(view, hunks[1..], first + 1, item);
    }
  }

  /** So the layouts agree on everything but cards whatever the threads are. */
  lemma AgreeButForCards(view: View, hunks: seq<seq<Line>>, mode: Mode, item: Item)
    requires (forall lines <- hunks :: IsGitHunk(lines)) && !item.Card?
    ensures multiset(Patch(view, hunks, mode))[item] == multiset(Patch(view, hunks, UnifiedMode))[item]
  {
    hide Patch, PatchStrays, IsGitHunk;
    LayoutsConserve(view, hunks);
    PatchStraysAreCards(view, hunks, 0, item);
  }

  /** Either layout shows the review form once if the anchored line is there, and never otherwise. */
  lemma OneForm(view: View, hunks: seq<seq<Line>>, mode: Mode)
    requires forall lines <- hunks :: IsGitHunk(lines)
    requires forall lines <- hunks :: DistinctNumbers(lines, Left) && DistinctNumbers(lines, Right)
    ensures multiset(Patch(view, hunks, mode))[Form]
            == if view.anchor.Some? && view.anchor.value.hunk < |hunks|
                  && exists line <- hunks[view.anchor.value.hunk] :: IsAt(line, view.anchor.value.side, view.anchor.value.line)
               then 1 else 0
  {
    hide UnifiedHunks, SideHunks, IsAt, DistinctNumbers, IsGitHunk;
    AgreeButForCards(view, hunks, mode, Form);
    FileThreadsHoldNoForm(view.threads);
    HunksForms(view, hunks, 0);
    assert multiset(Patch(view, hunks, mode))[Form] == multiset(UnifiedHunks(view, hunks, 0))[Form];
    match view.anchor {
      case None =>
      case Some(a) =>
        if a.hunk < |hunks| {
          assert hunks[a.hunk] in hunks;
          MatchesAtMostOnce(hunks[a.hunk], a.side, a.line);
        }
    }
  }
}
