/** How often, and in which order, a patch shows its buttons and thread cards, told from its lines and threads. */
module DiffItems {
  import opened Text
  import opened SideBySide
  import opened DiffLayout

  /** How many lines of all hunks carry this number on this side. */
  function LinesAt(hunks: seq<seq<Line>>, side: Side, number: int): nat {
    if hunks == [] then 0 else Matches(hunks[0], side, number) + LinesAt(hunks[1..], side, number)
  }

  lemma {:induction false} NoLineAt(hunks: seq<seq<Line>>, side: Side, number: int)
    requires forall k :: 0 <= k < |hunks| ==> Matches(hunks[k], side, number) == 0
    ensures LinesAt(hunks, side, number) == 0
  {
    hide Matches;
    if hunks != [] {
      NoLineAt(hunks[1..], side, number);
    }
  }

  /** If one hunk alone holds such lines, they are counted there. */
  lemma {:induction false} LinesInOneHunk(hunks: seq<seq<Line>>, side: Side, number: int, only: nat)
    requires only < |hunks| && forall k :: 0 <= k < |hunks| && k != only ==> Matches(hunks[k], side, number) == 0
    ensures LinesAt(hunks, side, number) == Matches(hunks[only], side, number)
  {
    hide Matches;
    if only == 0 {
      NoLineAt(hunks[1..], side, number);
    } else {
      LinesInOneHunk(hunks[1..], side, number, only - 1);
    }
  }

  // ----- cards

  /** How often the thread is among the threads of the page. */
  function Copies(view: View, thread: Thread): nat { multiset(view.threads)[thread] }

  lemma {:induction false} CardsFor(threads: seq<Thread>, side: Side, line: Option<int>, thread: Thread)
    ensures multiset(ThreadsFor(threads, side, line))[Card(thread)]
            == if thread.side == Some(side) && Numeric(thread.lineNumber) == Numeric(line) then multiset(threads)[thread] else 0
  {
    if threads != [] {
      CardsFor(threads[1..], side, line, thread);
      assert threads == [threads[0]] + threads[1..];
    }
  }

  lemma {:induction false} FileCards(threads: seq<Thread>, thread: Thread)
    ensures multiset(FileThreads(threads))[Card(thread)] == if thread.side.None? then multiset(threads)[thread] else 0
  {
    if threads != [] {
      FileCards(threads[1..], thread);
      assert threads == [threads[0]] + threads[1..];
    }
  }

  lemma FiveParts(a: seq<Item>, b: seq<Item>, c: seq<Item>, d: seq<Item>, e: seq<Item>, item: Item)
    ensures multiset(a + b + c + d + e)[item] == multiset(a)[item] + multiset(b)[item] + multiset(c)[item] + multiset(d)[item] + multiset(e)[item]
  {
  }

  lemma NoCardIn(view: View, hunk: nat, side: Side, number: Option<int>, thread: Thread)
    ensures multiset(CommentButton(view, hunk, side, number))[Card(thread)] == 0
  {
  }

  lemma LineCards(view: View, hunk: nat, line: Line, thread: Thread)
    ensures multiset(UnifiedLine(view, hunk, line))[Card(thread)]
            == if !line.kind.Meta? && thread.side.Some? && Numeric(thread.lineNumber) == Numeric(NumberOn(line, thread.side.value))
               then Copies(view, thread) else 0
  {
    hide ThreadsFor, Anchors, CommentButton;
    if !line.kind.Meta? {
      NoCardIn(view, hunk, Left, line.oldLine, thread);
      NoCardIn(view, hunk, Right, line.newLine, thread);
      CardsFor(view.threads, Left, line.oldLine, thread);
      CardsFor(view.threads, Right, line.newLine, thread);
      FiveParts(CommentButton(view, hunk, Left, line.oldLine), CommentButton(view, hunk, Right, line.newLine),
        ThreadsFor(view.threads, Left, line.oldLine), ThreadsFor(view.threads, Right, line.newLine),
        if Anchors(view, hunk, Left, line.oldLine) || Anchors(view, hunk, Right, line.newLine) then [Form] else [], Card(thread));
    }
  }

  lemma CardsAddUp(copies: nat, first: nat, rest: nat)
    ensures copies * (first + rest) == copies * first + copies * rest
  {
  }

  lemma {:induction false} HunkCards(view: View, hunk: nat, lines: seq<Line>, thread: Thread)
    requires thread.side.Some? && Numeric(thread.lineNumber) != 0
    ensures multiset(Unified(view, hunk, lines))[Card(thread)]
            == Copies(view, thread) * Matches(lines, thread.side.value, Numeric(thread.lineNumber))
  {
    hide UnifiedLine, Copies;
    if lines != [] {
      var copies, side, number := Copies(view, thread), thread.side.value, Numeric(thread.lineNumber);
      LineCards(view, hunk, lines[0], thread);
      HunkCards(view, hunk, lines[1..], thread);
      CardsAddUp(copies, if IsAt(lines[0], side, number) then 1 else 0, Matches(lines[1..], side, number));
      assert copies * 1 == copies && copies * 0 == 0;
    }
  }

  lemma {:induction false} HunksCards(view: View, hunks: seq<seq<Line>>, first: nat, thread: Thread)
    requires thread.side.Some? && Numeric(thread.lineNumber) != 0
    ensures multiset(UnifiedHunks(view, hunks, first))[Card(thread)]
            == Copies(view, thread) * LinesAt(hunks, thread.side.value, Numeric(thread.lineNumber))
  {
    hide Unified, Matches, Copies;
    if hunks != [] {
      var side, number := thread.side.value, Numeric(thread.lineNumber);
      HunkCards(view, first, hunks[0], thread);
      HunksCards(view, hunks[1..], first + 1, thread);
      CardsAddUp(Copies(view, thread), Matches(hunks[0], side, number), LinesAt(hunks[1..], side, number));
    }
  }

  /**
   Either layout shows a thread on the file once for each time the page has it, unless
   there is no hunk at all: then it is hidden. It shows a thread on a line once for each
   time the page has it and each line that carries its number on its side.
   */
  lemma CardsCounted(view: View, hunks: seq<seq<Line>>, mode: Mode, thread: Thread)
    requires ArePlaced(view.threads) && forall lines <- hunks :: IsGitHunk(lines)
    ensures multiset(Patch(view, hunks, mode))[Card(thread)]
            == match thread.side
               case None => if hunks == [] then 0 else multiset(view.threads)[thread]
               case Some(side) => multiset(view.threads)[thread] * LinesAt(hunks, side, Numeric(thread.lineNumber))
  {
    hide Patch, LinesAt, IsGitHunk, ArePlaced, FileThreads, UnifiedHunks;
    LayoutsAgreeOnGit(view, hunks);
    PartsOfPatch(view, hunks, Card(thread));
    match thread.side {
      case None =>
        FileCards(view.threads, thread);
        NoCopy(view, hunks, 0, thread);
      case Some(side) => LineCardsCounted(view, hunks, thread);
    }
  }

  lemma LineCardsCounted(view: View, hunks: seq<seq<Line>>, thread: Thread)
    requires ArePlaced(view.threads) && thread.side.Some?
    ensures multiset(FileThreads(view.threads))[Card(thread)] == 0
    ensures multiset(UnifiedHunks(view, hunks, 0))[Card(thread)]
            == multiset(view.threads)[thread] * LinesAt(hunks, thread.side.value, Numeric(thread.lineNumber))
  {
    hide LinesAt, ArePlaced, FileThreads, UnifiedHunks;
    FileCards(view.threads, thread);
    if thread in view.threads {
      IsPlaced(view.threads, thread);
      HunksCards(view, hunks, 0, thread);
    } else {
      NoCopy(view, hunks, 0, thread);
    }
  }

  lemma PartsOfPatch(view: View, hunks: seq<seq<Line>>, item: Item)
    ensures multiset(Patch(view, hunks, UnifiedMode))[item]
            == (if hunks == [] then 0 else multiset(FileThreads(view.threads))[item]) + multiset(UnifiedHunks(view, hunks, 0))[item]
  {
    hide FileThreads;
  }

  lemma IsPlaced(threads: seq<Thread>, thread: Thread)
    requires ArePlaced(threads) && thread in threads && thread.side.Some?
    ensures Numeric(thread.lineNumber) > 0
  {
  }

  lemma {:induction false} NoCopy(view: View, hunks: seq<seq<Line>>, first: nat, thread: Thread)
    requires thread !in view.threads || thread.side.None?
    ensures multiset(UnifiedHunks(view, hunks, first))[Card(thread)] == 0
  {
    hide Unified;
    if hunks != [] {
      NoCopyInHunk(view, first, hunks[0], thread);
      NoCopy(view, hunks[1..], first + 1, thread);
    }
  }

  lemma {:induction false} NoCopyInHunk(view: View, hunk: nat, lines: seq<Line>, thread: Thread)
    requires thread !in view.threads || thread.side.None?
    ensures multiset(Unified(view, hunk, lines))[Card(thread)] == 0
  {
    hide UnifiedLine;
    if lines != [] {
      LineCards(view, hunk, lines[0], thread);
      NoCopyInHunk(view, hunk, lines[1..], thread);
    }
  }

  ghost predicate Distinct(threads: seq<Thread>) {
    forall i, j :: 0 <= i < j < |threads| ==> threads[i] != threads[j]
  }

  lemma {:induction false} OneCopy(threads: seq<Thread>, thread: Thread)
    requires Distinct(threads)
    ensures multiset(threads)[thread] == if thread in threads then 1 else 0
  {
    if threads != [] {
      OneCopy(threads[1..], thread);
      assert threads == [threads[0]] + threads[1..];
    }
  }

  /** A thread of its own on a line of its own has one card in either layout, and so has a thread on the file. */
  lemma OneCard(view: View, hunks: seq<seq<Line>>, mode: Mode, thread: Thread, k: nat)
    requires ArePlaced(view.threads) && Distinct(view.threads) && thread in view.threads && hunks != []
    requires forall lines <- hunks :: IsGitHunk(lines)
    requires thread.side.Some? ==>
               var side, number := thread.side.value, Numeric(thread.lineNumber);
               && k < |hunks| && DistinctNumbers(hunks[k], side) && (exists line <- hunks[k] :: IsAt(line, side, number))
               && forall other :: 0 <= other < |hunks| && other != k ==> forall line <- hunks[other] :: !IsAt(line, side, number)
    ensures multiset(Patch(view, hunks, mode))[Card(thread)] == 1
  {
    hide Patch, IsGitHunk, Distinct, DistinctNumbers, IsAt, Matches;
    CardsCounted(view, hunks, mode, thread);
    OneCopy(view.threads, thread);
    if thread.side.Some? {
      var side, number := thread.side.value, Numeric(thread.lineNumber);
      forall other | 0 <= other < |hunks| && other != k ensures Matches(hunks[other], side, number) == 0 {
        NoMatch(hunks[other], side, number);
      }
      LinesInOneHunk(hunks, side, number, k);
      MatchesAtMostOnce(hunks[k], side, number);
    }
  }

  lemma {:induction false} NoMatch(lines: seq<Line>, side: Side, number: int)
    requires forall line <- lines :: !IsAt(line, side, number)
    ensures Matches(lines, side, number) == 0
  {
    if lines != [] {
      assert lines[0] in lines;
      NoMatch(lines[1..], side, number);
    }
  }

  lemma {:induction false} SomeLine(lines: seq<Line>, side: Side, number: int)
    ensures Matches(lines, side, number) > 0 <==> exists line <- lines :: IsAt(line, side, number)
  {
    if lines != [] {
      SomeLine(lines[1..], side, number);
      assert lines[0] in lines && forall line :: line in lines <==> line == lines[0] || line in lines[1..];
    }
  }

  /** Some line of the patch carries this number on this side. */
  ghost predicate Holds(hunks: seq<seq<Line>>, side: Side, number: int) {
    exists lines <- hunks :: exists line <- lines :: IsAt(line, side, number)
  }

  lemma {:induction false} SomeHunk(hunks: seq<seq<Line>>, side: Side, number: int)
    ensures LinesAt(hunks, side, number) > 0 <==> Holds(hunks, side, number)
  {
    hide Matches, IsAt;
    if hunks != [] {
      SomeHunk(hunks[1..], side, number);
      SomeLine(hunks[0], side, number);
      assert hunks[0] in hunks && forall lines :: lines in hunks <==> lines == hunks[0] || lines in hunks[1..];
    }
  }

  lemma ProductPositive(a: nat, b: nat)
    ensures a * b > 0 <==> a > 0 && b > 0
  {
  }

  /** So it shows exactly the threads on the file and those on a line that the patch holds. */
  lemma CardShown(view: View, hunks: seq<seq<Line>>, mode: Mode, thread: Thread)
    requires ArePlaced(view.threads) && forall lines <- hunks :: IsGitHunk(lines)
    ensures Card(thread) in Patch(view, hunks, mode)
            <==> thread in view.threads && (if thread.side.None? then hunks != [] else Holds(hunks, thread.side.value, Numeric(thread.lineNumber)))
  {
    hide Patch, LinesAt, IsGitHunk, ArePlaced, Holds;
    CardsCounted(view, hunks, mode, thread);
    if thread.side.Some? {
      SomeHunk(hunks, thread.side.value, Numeric(thread.lineNumber));
      ProductPositive(multiset(view.threads)[thread], LinesAt(hunks, thread.side.value, Numeric(thread.lineNumber)));
    }
    assert Card(thread) in Patch(view, hunks, mode) <==> multiset(Patch(view, hunks, mode))[Card(thread)] > 0;
    assert thread in view.threads <==> multiset(view.threads)[thread] > 0;
  }

  // ----- buttons

  lemma {:induction false} NoButtonFor(threads: seq<Thread>, side: Side, line: Option<int>, item: Item)
    ensures item.Button? ==> item !in ThreadsFor(threads, side, line)
  {
    if threads != [] {
      NoButtonFor(threads[1..], side, line, item);
    }
  }

  lemma {:induction false} NoButtonOnFile(threads: seq<Thread>, item: Item)
    ensures item.Button? ==> item !in FileThreads(threads)
  {
    if threads != [] {
      NoButtonOnFile(threads[1..], item);
    }
  }

  /** A button for this number, marked exactly if the anchor covers it. */
  predicate IsOffered(view: View, item: Item)
    requires item.Button?
  {
    && view.canComment && item.line != 0
    && item.selected == match view.anchor
                        case None => false
                        case Some(a) =>
                          && a.hunk == item.hunk && a.side == item.buttonSide
                          && (a.line <= item.line <= a.startLine || a.startLine <= item.line <= a.line)
  }

  lemma NumberOffers(view: View, hunk: nat, side: Side, number: Option<int>, item: Item)
    requires item.Button?
    ensures multiset(CommentButton(view, hunk, side, number))[item]
            == if IsOffered(view, item) && hunk == item.hunk && side == item.buttonSide && number == Some(item.line) then 1 else 0
  {
  }

  lemma LineOffers(view: View, hunk: nat, line: Line, item: Item)
    requires item.Button?
    ensures multiset(UnifiedLine(view, hunk, line))[item]
            == if IsOffered(view, item) && hunk == item.hunk && !line.kind.Meta? && NumberOn(line, item.buttonSide) == Some(item.line)
               then 1 else 0
  {
    hide ThreadsFor, Anchors, CommentButton, IsOffered;
    NumberOffers(view, hunk, Left, line.oldLine, item);
    NumberOffers(view, hunk, Right, line.newLine, item);
    NoButtonFor(view.threads, Left, line.oldLine, item);
    NoButtonFor(view.threads, Right, line.newLine, item);
  }

  lemma {:induction false} HunkOffers(view: View, hunk: nat, lines: seq<Line>, item: Item)
    requires item.Button?
    ensures multiset(Unified(view, hunk, lines))[item]
            == if IsOffered(view, item) && hunk == item.hunk then Matches(lines, item.buttonSide, item.line) else 0
  {
    hide UnifiedLine, IsOffered;
    if lines != [] {
      LineOffers(view, hunk, lines[0], item);
      HunkOffers(view, hunk, lines[1..], item);
    }
  }

  lemma {:induction false} HunksOffer(view: View, hunks: seq<seq<Line>>, first: nat, item: Item)
    requires item.Button?
    ensures multiset(UnifiedHunks(view, hunks, first))[item]
            == if IsOffered(view, item) && first <= item.hunk < first + |hunks|
               then Matches(hunks[item.hunk - first], item.buttonSide, item.line) else 0
  {
    hide Unified, Matches, IsOffered;
    if hunks != [] {
      HunkOffers(view, first, hunks[0], item);
      HunksOffer(view, hunks[1..], first + 1, item);
    }
  }

  /** Either layout offers a comment once for each line of the hunk that carries the number on its side, if comments are allowed. */
  lemma ButtonsCounted(view: View, hunks: seq<seq<Line>>, mode: Mode, item: Item)
    requires (forall lines <- hunks :: IsGitHunk(lines)) && item.Button?
    ensures multiset(Patch(view, hunks, mode))[item]
            == if IsOffered(view, item) && item.hunk < |hunks| then Matches(hunks[item.hunk], item.buttonSide, item.line) else 0
  {
    hide Patch, IsGitHunk, IsOffered, Matches, FileThreads, UnifiedHunks;
    AgreeButForCards(view, hunks, mode, item);
    PartsOfPatch(view, hunks, item);
    NoButtonOnFile(view.threads, item);
    assert multiset(FileThreads(view.threads))[item] == 0;
    HunksOffer(view, hunks, 0, item);
  }

  /** So it offers one on exactly the numbered sides of the lines of the patch. */
  lemma ButtonShown(view: View, hunks: seq<seq<Line>>, mode: Mode, item: Item)
    requires (forall lines <- hunks :: IsGitHunk(lines)) && item.Button?
    ensures item in Patch(view, hunks, mode)
            <==> IsOffered(view, item) && item.hunk < |hunks|
                 && exists line <- hunks[item.hunk] :: IsAt(line, item.buttonSide, item.line)
  {
    hide Patch, IsGitHunk, IsOffered, Matches, IsAt;
    ButtonsCounted(view, hunks, mode, item);
    if item.hunk < |hunks| {
      SomeLine(hunks[item.hunk], item.buttonSide, item.line);
    }
    assert item in Patch(view, hunks, mode) <==> multiset(Patch(view, hunks, mode))[item] > 0;
  }

  /** So a line with its own number has one button on that side, in one state. */
  lemma OneButton(view: View, hunks: seq<seq<Line>>, mode: Mode, item: Item)
    requires (forall lines <- hunks :: IsGitHunk(lines)) && item.Button?
    requires item.hunk < |hunks| && DistinctNumbers(hunks[item.hunk], item.buttonSide)
    ensures multiset(Patch(view, hunks, mode))[item]
            == if IsOffered(view, item) && exists line <- hunks[item.hunk] :: IsAt(line, item.buttonSide, item.line) then 1 else 0
  {
    hide Patch, IsGitHunk, IsOffered, Matches, IsAt, DistinctNumbers;
    ButtonsCounted(view, hunks, mode, item);
    MatchesAtMostOnce(hunks[item.hunk], item.buttonSide, item.line);
  }

  // ----- the order of the items

  lemma {:induction false} UnifiedJoin(view: View, hunk: nat, before: seq<Line>, after: seq<Line>)
    ensures Unified(view, hunk, before + after) == Unified(view, hunk, before) + Unified(view, hunk, after)
  {
    hide UnifiedLine;
    if before == [] {
      assert before + after == after;
    } else {
      assert (before + after)[1..] == before[1..] + after;
      UnifiedJoin(view, hunk, before[1..], after);
    }
  }

  lemma {:induction false} SideRowsJoin(view: View, hunk: nat, before: seq<Row>, after: seq<Row>)
    ensures SideRows(view, hunk, before + after) == SideRows(view, hunk, before) + SideRows(view, hunk, after)
  {
    hide SideRow;
    if before == [] {
      assert before + after == after;
    } else {
      assert (before + after)[1..] == before[1..] + after;
      SideRowsJoin(view, hunk, before[1..], after);
    }
  }

  /**
   What belongs to the earlier lines of a hunk comes first. Side by side this is
   so wherever no run of deletions and additions is cut; within one, by rows.
   */
  lemma EarlierLinesFirst(view: View, hunk: nat, before: seq<Line>, after: seq<Line>)
    ensures Unified(view, hunk, before + after) == Unified(view, hunk, before) + Unified(view, hunk, after)
    ensures (before != [] && after != [] ==> !SameBlock(before[|before| - 1], after[0])) ==>
              SideRows(view, hunk, Rows(before + after)) == SideRows(view, hunk, Rows(before)) + SideRows(view, hunk, Rows(after))
  {
    hide Unified, SideRows, Rows, SameBlock;
    UnifiedJoin(view, hunk, before, after);
    if before != [] && after != [] ==> !SameBlock(before[|before| - 1], after[0]) {
      RowsCut(before, after);
      SideRowsJoin(view, hunk, Rows(before), Rows(after));
    }
  }

  lemma {:induction false} UnifiedHunksJoin(view: View, hunks: seq<seq<Line>>, last: seq<Line>, first: nat)
    ensures UnifiedHunks(view, hunks + [last], first) == UnifiedHunks(view, hunks, first) + Unified(view, first + |hunks|, last)
  {
    hide Unified;
    if hunks == [] {
      assert (hunks + [last])[1..] == [];
    } else {
      assert (hunks + [last])[1..] == hunks[1..] + [last];
      UnifiedHunksJoin(view, hunks[1..], last, first + 1);
    }
  }

  lemma {:induction false} SideHunksJoin(view: View, hunks: seq<seq<Line>>, last: seq<Line>, first: nat)
    ensures SideHunks(view, hunks + [last], first) == SideHunks(view, hunks, first) + SideRows(view, first + |hunks|, Rows(last))
  {
    hide SideRows, Rows;
    if hunks == [] {
      assert (hunks + [last])[1..] == [];
    } else {
      assert (hunks + [last])[1..] == hunks[1..] + [last];
      SideHunksJoin(view, hunks[1..], last, first + 1);
    }
  }

  /** What belongs to the earlier hunks comes first, and the threads on the file before all of them. */
  lemma {:induction false} EarlierHunksFirst(view: View, hunks: seq<seq<Line>>, last: seq<Line>)
    ensures var front := if hunks == [] then FileThreads(view.threads) else Patch(view, hunks, UnifiedMode);
            Patch(view, hunks + [last], UnifiedMode) == front + Unified(view, |hunks|, last)
    ensures var front := if hunks == [] then FileThreads(view.threads) else Patch(view, hunks, SideMode);
            Patch(view, hunks + [last], SideMode) == front + SideRows(view, |hunks|, Rows(last))
    ensures forall item <- FileThreads(view.threads) :: item.Card? && item.thread.side.None?
  {
    hide Patch, SideRows, Unified, Rows, FileThreads;
    UnifiedHunkLast(view, hunks, last);
    SideHunkLast(view, hunks, last);
    FileThreadsAlone(view.threads);
  }

  lemma PatchParts(view: View, hunks: seq<seq<Line>>)
    requires hunks != []
    ensures Patch(view, hunks, UnifiedMode) == FileThreads(view.threads) + UnifiedHunks(view, hunks, 0)
    ensures Patch(view, hunks, SideMode) == FileThreads(view.threads) + SideHunks(view, hunks, 0)
  {
    hide FileThreads, UnifiedHunks, SideHunks;
  }

  lemma LastPart(front: seq<Item>, before: seq<Item>, last: seq<Item>)
    ensures front + (before + last) == (front + before) + last
    ensures before == [] ==> front + (before + last) == front + last
  {
  }

  lemma {:induction false} UnifiedHunkLast(view: View, hunks: seq<seq<Line>>, last: seq<Line>)
    ensures var front := if hunks == [] then FileThreads(view.threads) else Patch(view, hunks, UnifiedMode);
            Patch(view, hunks + [last], UnifiedMode) == front + Unified(view, |hunks|, last)
  {
    hide UnifiedHunks, Unified, FileThreads, Patch;
    PatchParts(view, hunks + [last]);
    UnifiedHunksJoin(view, hunks, last, 0);
    LastPart(FileThreads(view.threads), UnifiedHunks(view, hunks, 0), Unified(view, |hunks|, last));
    if hunks == [] { NoHunks(view); } else { PatchParts(view, hunks); }
  }

  lemma {:induction false} SideHunkLast(view: View, hunks: seq<seq<Line>>, last: seq<Line>)
    ensures var front := if hunks == [] then FileThreads(view.threads) else Patch(view, hunks, SideMode);
            Patch(view, hunks + [last], SideMode) == front + SideRows(view, |hunks|, Rows(last))
  {
    hide SideHunks, SideRows, Rows, FileThreads, Patch;
    PatchParts(view, hunks + [last]);
    SideHunksJoin(view, hunks, last, 0);
    LastPart(FileThreads(view.threads), SideHunks(view, hunks, 0), SideRows(view, |hunks|, Rows(last)));
    if hunks == [] { NoHunks(view); } else { PatchParts(view, hunks); }
  }

  lemma NoHunks(view: View)
    ensures UnifiedHunks(view, [], 0) == [] && SideHunks(view, [], 0) == []
  {
  }

  lemma {:induction false} FileThreadsAlone(threads: seq<Thread>)
    ensures forall item <- FileThreads(threads) :: item.Card? && item.thread.side.None?
  {
    if threads != [] {
      FileThreadsAlone(threads[1..]);
    }
  }

  lemma {:induction false} FileThreadsJoin(before: seq<Thread>, after: seq<Thread>)
    ensures FileThreads(before + after) == FileThreads(before) + FileThreads(after)
  {
    if before == [] {
      assert before + after == after;
    } else {
      assert (before + after)[1..] == before[1..] + after;
      FileThreadsJoin(before[1..], after);
    }
  }

  lemma {:induction false} ThreadsJoin(before: seq<Thread>, after: seq<Thread>, side: Side, line: Option<int>)
    ensures ThreadsFor(before + after, side, line) == ThreadsFor(before, side, line) + ThreadsFor(after, side, line)
  {
    if before == [] {
      assert before + after == after;
    } else {
      assert (before + after)[1..] == before[1..] + after;
      ThreadsJoin(before[1..], after, side, line);
    }
  }

  /** Threads at the same place keep the order in which the page has them. */
  lemma ThreadsInOrder(before: seq<Thread>, thread: Thread, after: seq<Thread>, side: Side, number: int)
    requires thread.side.Some? ==> thread.lineNumber == Some(number)
    ensures FileThreads(before + [thread] + after)
            == FileThreads(before) + (if thread.side == None then [Card(thread)] else []) + FileThreads(after)
    ensures ThreadsFor(before + [thread] + after, side, Some(number))
            == ThreadsFor(before, side, Some(number)) + (if thread.side == Some(side) then [Card(thread)] else [])
               + ThreadsFor(after, side, Some(number))
  {
    hide FileThreads, ThreadsFor;
    FileThreadsJoin(before + [thread], after);
    FileThreadsJoin(before, [thread]);
    ThreadsJoin(before + [thread], after, side, Some(number));
    ThreadsJoin(before, [thread], side, Some(number));
    OneThread(thread, side, number);
  }

  lemma OneThread(thread: Thread, side: Side, number: int)
    requires thread.side.Some? ==> thread.lineNumber == Some(number)
    ensures FileThreads([thread]) == if thread.side == None then [Card(thread)] else []
    ensures ThreadsFor([thread], side, Some(number)) == if thread.side == Some(side) then [Card(thread)] else []
  {
    assert [thread][1..] == [];
  }

  /** The order within a line: its buttons, its cards, the form; old side before new side. */
  function Rank(item: Item): nat {
    match item
    case Button(_, side, _, _) => if side.Left? then 0 else 1
    case Card(thread) => if thread.side == Some(Right) then 3 else 2
    case Form => 4
  }

  ghost predicate IsOrdered(items: seq<Item>) {
    forall p, q :: 0 <= p < q < |items| ==> Rank(items[p]) <= Rank(items[q])
  }

  ghost predicate AllRanked(items: seq<Item>, rank: nat) { forall item <- items :: Rank(item) == rank }

  lemma NothingOrdered()
    ensures IsOrdered([])
  {
  }

  lemma RankedParts(a: seq<Item>, b: seq<Item>, c: seq<Item>, d: seq<Item>, e: seq<Item>)
    requires AllRanked(a, 0) && AllRanked(b, 1) && AllRanked(c, 2) && AllRanked(d, 3) && AllRanked(e, 4)
    ensures IsOrdered(a + b + c + d + e)
  {
    var items := a + b + c + d + e;
    forall p | 0 <= p < |items|
      ensures Rank(items[p]) == if p < |a| then 0 else if p < |a + b| then 1 else if p < |a + b + c| then 2
                                else if p < |a + b + c + d| then 3 else 4
    {
      assert items[p] == if p < |a| then a[p] else if p < |a + b| then b[p - |a|] else if p < |a + b + c| then c[p - |a + b|]
                         else if p < |a + b + c + d| then d[p - |a + b + c|] else e[p - |a + b + c + d|];
    }
  }

  lemma {:induction false} ThreadsRanked(threads: seq<Thread>, side: Side, line: Option<int>)
    ensures AllRanked(ThreadsFor(threads, side, line), if side.Left? then 2 else 3)
  {
    if threads != [] {
      ThreadsRanked(threads[1..], side, line);
    }
  }

  lemma LineOrdered(view: View, hunk: nat, line: Line)
    ensures IsOrdered(UnifiedLine(view, hunk, line))
  {
    hide ThreadsFor, IsOrdered, Selected;
    ThreadsRanked(view.threads, Left, line.oldLine);
    ThreadsRanked(view.threads, Right, line.newLine);
    if line.kind.Meta? {
      NothingOrdered();
    } else {
      RankedParts(CommentButton(view, hunk, Left, line.oldLine), CommentButton(view, hunk, Right, line.newLine),
        ThreadsFor(view.threads, Left, line.oldLine), ThreadsFor(view.threads, Right, line.newLine),
        if Anchors(view, hunk, Left, line.oldLine) || Anchors(view, hunk, Right, line.newLine) then [Form] else []);
    }
  }

  lemma RowOrdered(view: View, hunk: nat, row: Row)
    ensures IsOrdered(SideRow(view, hunk, row))
  {
    hide ThreadsFor, IsOrdered, Selected, Anchors;
    match row {
      case MetaRow(_) => NothingOrdered();
      case Pair(left, right) =>
        CellRanked(view, hunk, Left, left);
        CellRanked(view, hunk, Right, right);
        RankedParts(CellButton(view, hunk, Left, left), CellButton(view, hunk, Right, right),
          CellThreads(view, Left, left), CellThreads(view, Right, right),
          if CellAnchors(view, hunk, Left, left) || CellAnchors(view, hunk, Right, right) then [Form] else []);
    }
  }

  lemma CellRanked(view: View, hunk: nat, side: Side, cell: Option<Line>)
    ensures AllRanked(CellButton(view, hunk, side, cell), if side.Left? then 0 else 1)
    ensures AllRanked(CellThreads(view, side, cell), if side.Left? then 2 else 3)
  {
    hide ThreadsFor, Selected;
    if cell.Some? {
      ThreadsRanked(view.threads, side, NumberOn(cell.value, side));
    }
  }
}
