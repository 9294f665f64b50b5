/** The line range picked by clicks, as it is shown and as it is sent. */
module DiffAnchor {
  import opened Text
  import opened SideBySide
  import opened DiffLayout

  datatype Event = Click(hunk: nat, side: Side, line: int, shift: bool) | Reset

  /** `setAnchor` and `resetAnchor` */
  function Step(anchor: Option<Anchor>, event: Event): Option<Anchor> {
    match event
    case Reset => None
    case Click(hunk, side, line, shift) =>
      var extended := shift && anchor.Some? && anchor.value.hunk == hunk && anchor.value.side == side;
      Some(Anchor(hunk, side, line, if extended then anchor.value.startLine else line))
  }

  function Run(events: seq<Event>): Option<Anchor> {
    if events == [] then None else Step(Run(events[..|events| - 1]), events[|events| - 1])
  }

  class AnchorState {
    var anchor: Option<Anchor>

    constructor ()
      ensures anchor == Run([])
    {
      anchor := None;
    }

    method SetAnchor(hunk: nat, side: Side, line: int, shift: bool)
      modifies this
      ensures anchor == Step(old(anchor), Click(hunk, side, line, shift))
    {
      var next := Anchor(hunk, side, line, line);
      if shift && anchor.Some? && anchor.value.hunk == next.hunk && anchor.value.side == next.side {
        next := next.(startLine := anchor.value.startLine);
      }
      anchor := Some(next);
    }

    method ResetAnchor()
      modifies this
      ensures anchor == Step(old(anchor), Reset)
    {
      anchor := None;
    }
  }

  /** Event `i` is a shift-click on the hunk and side of the click just before it. */
  predicate Extends(events: seq<Event>, i: nat)
    requires i < |events|
  {
    && i > 0 && events[i].Click? && events[i].shift && events[i - 1].Click?
    && events[i - 1].hunk == events[i].hunk && events[i - 1].side == events[i].side
  }

  /** `s` is the last click that starts a range instead of extending one. */
  ghost predicate StartsRange(events: seq<Event>, s: nat) {
    s < |events| && events[s].Click? && !Extends(events, s)
    && forall i :: s < i < |events| ==> Extends(events, i)
  }

  /**
   The anchor runs from the line of the last click that did not extend a range
   to the line of the last click, within one hunk and one side.
   */
  lemma {:induction false} AnchorOfRun(events: seq<Event>, s: nat)
    requires StartsRange(events, s)
    ensures var last := events[|events| - 1];
            && last.Click? && events[s].hunk == last.hunk && events[s].side == last.side
            && Run(events) == Some(Anchor(last.hunk, last.side, last.line, events[s].line))
  {
    var n := |events| - 1;
    var before := events[..n];
    if s < n {
      assert Extends(events, n);
      assert forall i :: s <= i < n ==> Extends(before, i) == Extends(events, i);
      AnchorOfRun(before, s);
    } else if before != [] {
      assert Run(before) == Step(Run(before[..n - 1]), events[n - 1]);
    }
  }

  /** There is such a click whenever a range is picked: unless the last event cancelled it. */
  lemma {:induction false} PickedRangeStarts(events: seq<Event>)
    ensures Run(events).Some? <==> exists s: nat :: StartsRange(events, s)
  {
    forall s: nat | StartsRange(events, s) ensures events[|events| - 1].Click? {
      assert s == |events| - 1 || Extends(events, |events| - 1);
    }
    if events != [] && events[|events| - 1].Click? {
      var n := |events| - 1;
      if Extends(events, n) {
        var before := events[..n];
        PickedRangeStarts(before);
        assert before[n - 1].Click?;
        var s: nat :| StartsRange(before, s);
        assert forall i :: s <= i < n ==> Extends(before, i) == Extends(events, i);
        assert StartsRange(events, s);
      } else {
        assert StartsRange(events, n);
      }
    }
  }

  // ----- the range that is sent

  /** What a submitted review comment says about its place. */
  datatype Request = Request(side: Side, lineNumber: int, startSide: Side, startLineNumber: Option<int>)

  function Submitted(anchor: Anchor): Request {
    var start, end := Low(anchor), High(anchor);
    Request(anchor.side, end, anchor.side, if start == end then None else Some(start))
  }

  /** The lines that a request covers, as whoever receives it reads them. */
  predicate Covers(request: Request, side: Side, line: int) {
    && side == request.side
    && if request.startLineNumber.None? then line == request.lineNumber
       else request.startLineNumber.value <= line <= request.lineNumber
  }

  ghost predicate ButtonsTrue(view: View, items: seq<Item>) {
    forall item <- items :: item.Button? ==> item.selected == Selected(view, item.hunk, item.buttonSide, item.line)
  }

  lemma {:induction false} ThreadButtons(view: View, side: Side, line: Option<int>, threads: seq<Thread>)
    ensures ButtonsTrue(view, ThreadsFor(threads, side, line))
  {
    if threads != [] {
      ThreadButtons(view, side, line, threads[1..]);
    }
  }

  lemma {:induction false} FileButtons(view: View, threads: seq<Thread>)
    ensures ButtonsTrue(view, FileThreads(threads))
  {
    if threads != [] {
      FileButtons(view, threads[1..]);
    }
  }

  lemma LineButtons(view: View, hunk: nat, line: Line)
    ensures ButtonsTrue(view, UnifiedLine(view, hunk, line))
  {
    hide ThreadsFor;
    ThreadButtons(view, Left, line.oldLine, view.threads);
    ThreadButtons(view, Right, line.newLine, view.threads);
  }

  lemma RowButtons(view: View, hunk: nat, row: Row)
    ensures ButtonsTrue(view, SideRow(view, hunk, row))
  {
    hide ThreadsFor;
    forall side: Side, cell: Option<Line> ensures ButtonsTrue(view, CellThreads(view, side, cell)) {
      if cell.Some? {
        ThreadButtons(view, side, NumberOn(cell.value, side), view.threads);
      }
    }
  }

  lemma {:induction false} UnifiedButtons(view: View, hunk: nat, lines: seq<Line>)
    ensures ButtonsTrue(view, Unified(view, hunk, lines))
  {
    hide UnifiedLine;
    if lines != [] {
      LineButtons(view, hunk, lines[0]);
      UnifiedButtons(view, hunk, lines[1..]);
    }
  }

  lemma {:induction false} SideButtons(view: View, hunk: nat, rows: seq<Row>)
    ensures ButtonsTrue(view, SideRows(view, hunk, rows))
  {
    hide SideRow;
    if rows != [] {
      RowButtons(view, hunk, rows[0]);
      SideButtons(view, hunk, rows[1..]);
    }
  }

  lemma {:induction false} HunkButtons(view: View, hunks: seq<seq<Line>>, first: nat)
    ensures ButtonsTrue(view, UnifiedHunks(view, hunks, first)) && ButtonsTrue(view, SideHunks(view, hunks, first))
  {
    hide Unified, SideRows, Rows;
    if hunks != [] {
      UnifiedButtons(view, first, hunks[0]);
      SideButtons(view, first, Rows(hunks[0]));
      HunkButtons(view, hunks[1..], first + 1);
    }
  }

  /** In either layout the highlighted buttons are those of the lines that would be sent. */
  lemma HighlightedIsSubmitted(events: seq<Event>, threads: seq<Thread>, canComment: bool,
                               hunks: seq<seq<Line>>, mode: Mode, item: Item)
    requires item.Button? && item in Patch(View(threads, canComment, Run(events)), hunks, mode)
    ensures item.selected <==> Run(events).Some? && item.hunk == Run(events).value.hunk
                               && Covers(Submitted(Run(events).value), item.buttonSide, item.line)
  {
    hide UnifiedHunks, SideHunks;
    var view := View(threads, canComment, Run(events));
    FileButtons(view, threads);
    HunkButtons(view, hunks, 0);
    assert ButtonsTrue(view, Patch(view, hunks, mode));
  }

  /** The start of a range is sent if and only if the range has more than one line. */
  lemma StartSentForRanges(anchor: Anchor)
    ensures Submitted(anchor).startLineNumber.None?
            <==> forall line: int, other: int ::
                   (Covers(Submitted(anchor), anchor.side, line) && Covers(Submitted(anchor), anchor.side, other))
                   ==> line == other
    ensures Covers(Submitted(anchor), anchor.side, anchor.line) && Covers(Submitted(anchor), anchor.side, anchor.startLine)
  {
    if Submitted(anchor).startLineNumber.Some? {
      assert Covers(Submitted(anchor), anchor.side, anchor.line) && Covers(Submitted(anchor), anchor.side, anchor.startLine);
    }
  }
}
