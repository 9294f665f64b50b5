/** `pairSideRows`: the lines of a unified hunk, regrouped into two columns. */
module SideBySide {
  import opened Text

  /** `Other` is a line whose type is none of the four the layout knows. */
  datatype Kind = Add | Delete | Context | Meta | Other

  /** A line number that is absent is JSON's null. */
  datatype Line = Line(kind: Kind, oldLine: Option<int>, newLine: Option<int>, content: string)

  datatype Side = Left | Right

  datatype Row = MetaRow(meta: Line) | Pair(left: Option<Line>, right: Option<Line>)

  function Max(a: nat, b: nat): nat { if a < b then b else a }

  /** The column a line belongs to; a context line belongs to both. */
  predicate Stands(side: Side, line: Line) {
    line.kind.Context? || (if side.Left? then line.kind.Delete? else line.kind.Add?)
  }

  /** The lines of one column, in the order of the hunk. */
  function Column(lines: seq<Line>, side: Side): seq<Line> {
    if lines == [] then []
    else (if Stands(side, lines[0]) then [lines[0]] else []) + Column(lines[1..], side)
  }

  function Cell(row: Row, side: Side): Option<Line> {
    match row
    case MetaRow(_) => None
    case Pair(left, right) => if side.Left? then left else right
  }

  /** The cells of one column that hold a line, from top to bottom. */
  function Cells(rows: seq<Row>, side: Side): seq<Line> {
    if rows == [] then []
    else (match Cell(rows[0], side) case None => [] case Some(line) => [line]) + Cells(rows[1..], side)
  }

  ghost predicate AllOf(lines: seq<Line>, i: nat, j: nat, kind: Kind)
    requires i <= j <= |lines|
  {
    forall k :: i <= k < j ==> lines[k].kind == kind
  }

  /** The end of the run of one kind that starts at `i`. */
  function KindEnd(lines: seq<Line>, i: nat, kind: Kind): (j: nat)
    requires i <= |lines|
    ensures i <= j <= |lines| && AllOf(lines, i, j, kind)
    ensures j < |lines| ==> lines[j].kind != kind
    decreases |lines| - i
  {
    if i < |lines| && lines[i].kind == kind then KindEnd(lines, i + 1, kind) else i
  }

  lemma {:induction false} KindEndsAt(lines: seq<Line>, i: nat, j: nat, kind: Kind)
    requires i <= j <= |lines| && AllOf(lines, i, j, kind) && (j < |lines| ==> lines[j].kind != kind)
    ensures KindEnd(lines, i, kind) == j
    decreases j - i
  {
    if i < j {
      KindEndsAt(lines, i + 1, j, kind);
    }
  }

  function At(lines: seq<Line>, r: nat): Option<Line> {
    if r < |lines| then Some(lines[r]) else None
  }

  /** The first `n` rows of a block of deletes and adds: row r holds the r-th of each. */
  function Block(deletes: seq<Line>, adds: seq<Line>, n: nat): (rows: seq<Row>)
    ensures |rows| == n
  {
    seq(n, r requires 0 <= r < n => Pair(At(deletes, r), At(adds, r)))
  }

  function BlockRows(deletes: seq<Line>, adds: seq<Line>): (rows: seq<Row>)
    ensures |rows| == Max(|deletes|, |adds|)
  {
    Block(deletes, adds, Max(|deletes|, |adds|))
  }

  /** What `pairSideRows` returns. */
  function Rows(lines: seq<Line>): seq<Row>
    decreases |lines|
  {
    if lines == [] then []
    else match lines[0].kind
      case Context => [Pair(Some(lines[0]), Some(lines[0]))] + Rows(lines[1..])
      case Meta => [MetaRow(lines[0])] + Rows(lines[1..])
      case Other => [Pair(None, None)] + Rows(lines[1..])
      case _ =>
        var d := KindEnd(lines, 0, Delete);
        var a := KindEnd(lines, d, Add);
        BlockRows(lines[..d], lines[d..a]) + Rows(lines[a..])
  }

  /** The row of a line that is in no block. */
  function SingleRow(line: Line): Row {
    match line.kind
    case Context => Pair(Some(line), Some(line))
    case Meta => MetaRow(line)
    case _ => Pair(None, None)
  }

  lemma OneRow(lines: seq<Line>, index: nat)
    requires index < |lines| && !lines[index].kind.Delete? && !lines[index].kind.Add?
    ensures Rows(lines[index..]) == [SingleRow(lines[index])] + Rows(lines[index + 1..])
  {
    assert lines[index..][1..] == lines[index + 1..];
  }

  lemma NoRows(lines: seq<Line>)
    ensures Rows(lines[|lines|..]) == [] && lines[0..] == lines
  {
  }

  lemma FirstBlock(lines: seq<Line>)
    requires lines != [] && (lines[0].kind.Delete? || lines[0].kind.Add?)
    ensures var d := KindEnd(lines, 0, Delete);
            var a := KindEnd(lines, d, Add);
            0 < a && Rows(lines) == BlockRows(lines[..d], lines[d..a]) + Rows(lines[a..])
  {
  }

  lemma SliceRows(lines: seq<Line>, index: nat, d: nat, a: nat)
    requires index <= d <= a <= |lines| && index < a
    requires AllOf(lines, index, d, Delete) && (d < |lines| ==> lines[d].kind != Delete)
    requires AllOf(lines, d, a, Add) && (a < |lines| ==> lines[a].kind != Add)
    ensures Rows(lines[index..]) == BlockRows(lines[index..d], lines[d..a]) + Rows(lines[a..])
  {
    hide BlockRows, KindEnd, Rows;
    var rest := lines[index..];
    KindEndsAt(rest, 0, d - index, Delete);
    KindEndsAt(rest, d - index, a - index, Add);
    assert rest[..d - index] == lines[index..d];
    assert rest[d - index..a - index] == lines[d..a];
    assert rest[a - index..] == lines[a..];
    assert rest[0] == lines[index];
    FirstBlock(rest);
  }

  method PairSideRows(lines: seq<Line>) returns (rows: seq<Row>)
    ensures rows == Rows(lines)
  {
    hide Rows, KindEnd, Block, At;
    NoRows(lines);
    rows := [];
    var index := 0;
    while index < |lines|
      invariant 0 <= index <= |lines|
      invariant rows + Rows(lines[index..]) == Rows(lines)
    {
      var line := lines[index];
      ghost var start, before := index, rows;
      if line.kind.Context? {
        rows := rows + [Pair(Some(line), Some(line))];
        index := index + 1;
        OneRow(lines, start);
        Regroup(before, [SingleRow(line)], Rows(lines[index..]));
        continue;
      }
      if line.kind.Meta? {
        rows := rows + [MetaRow(line)];
        index := index + 1;
        OneRow(lines, start);
        Regroup(before, [SingleRow(line)], Rows(lines[index..]));
        continue;
      }
      var deletes, adds := [], [];
      while index < |lines| && lines[index].kind.Delete?
        invariant start <= index <= |lines|
        invariant deletes == lines[start..index] && AllOf(lines, start, index, Delete)
      {
        deletes := deletes + [lines[index]];
        index := index + 1;
      }
      ghost var middle := index;
      while index < |lines| && lines[index].kind.Add?
        invariant middle <= index <= |lines|
        invariant adds == lines[middle..index] && AllOf(lines, middle, index, Add)
      {
        adds := adds + [lines[index]];
        index := index + 1;
      }
      if |deletes| == 0 && |adds| == 0 {
        rows := rows + [Pair(if line.kind.Delete? then Some(line) else None, if line.kind.Add? then Some(line) else None)];
        index := index + 1;
        OneRow(lines, start);
        Regroup(before, [SingleRow(line)], Rows(lines[index..]));
        continue;
      }
      var row := 0;
      NoBlock(deletes, adds);
      while row < Max(|deletes|, |adds|)
        invariant 0 <= row <= Max(|deletes|, |adds|)
        invariant rows == before + Block(deletes, adds, row)
      {
        GrowBlock(deletes, adds, row);
        rows := rows + [Pair(At(deletes, row), At(adds, row))];
        row := row + 1;
      }
      SliceRows(lines, start, middle, index);
      Regroup(before, BlockRows(deletes, adds), Rows(lines[index..]));
    }
  }

  lemma NoBlock(deletes: seq<Line>, adds: seq<Line>)
    ensures Block(deletes, adds, 0) == []
  {
  }

  lemma GrowBlock(deletes: seq<Line>, adds: seq<Line>, n: nat)
    ensures Block(deletes, adds, n + 1) == Block(deletes, adds, n) + [Pair(At(deletes, n), At(adds, n))]
  {
  }

  // ----- nothing is lost

  lemma {:induction false} CellsJoin(a: seq<Row>, b: seq<Row>, side: Side)
    ensures Cells(a + b, side) == Cells(a, side) + Cells(b, side)
  {
    if a == [] {
      assert a + b == b;
    } else {
      assert (a + b)[1..] == a[1..] + b;
      CellsJoin(a[1..], b, side);
    }
  }

  lemma {:induction false} ColumnJoin(a: seq<Line>, b: seq<Line>, side: Side)
    ensures Column(a + b, side) == Column(a, side) + Column(b, side)
  {
    if a == [] {
      assert a + b == b;
    } else {
      assert (a + b)[1..] == a[1..] + b;
      ColumnJoin(a[1..], b, side);
    }
  }

  lemma {:induction false} ColumnOfKind(lines: seq<Line>, kind: Kind, side: Side)
    requires AllOf(lines, 0, |lines|, kind) && (kind.Delete? || kind.Add?)
    ensures Column(lines, side) == if kind.Delete? == side.Left? then lines else []
  {
    if lines != [] {
      assert lines == [lines[0]] + lines[1..];
      ColumnOfKind(lines[1..], kind, side);
    }
  }

  lemma {:induction false} BlockCells(deletes: seq<Line>, adds: seq<Line>, n: nat, side: Side)
    ensures var own := if side.Left? then deletes else adds;
            Cells(Block(deletes, adds, n), side) == own[..if n < |own| then n else |own|]
  {
    if n > 0 {
      var last := Pair(At(deletes, n - 1), At(adds, n - 1));
      assert Block(deletes, adds, n) == Block(deletes, adds, n - 1) + [last];
      CellsJoin(Block(deletes, adds, n - 1), [last], side);
      BlockCells(deletes, adds, n - 1, side);
      assert Cells([last], side) == match Cell(last, side) case None => [] case Some(line) => [line];
    }
  }

  /**
   Each column shows exactly its lines, in the order of the hunk: the left one
   the deletes and the context, the right one the adds and the context.
   */
  lemma {:induction false} RowsKeepColumns(lines: seq<Line>, side: Side)
    ensures Cells(Rows(lines), side) == Column(lines, side)
    decreases |lines|
  {
    hide BlockRows, KindEnd, Rows;
    assert lines[0..] == lines;
    if lines == [] {
      NoRows(lines);
    } else if lines[0].kind.Delete? || lines[0].kind.Add? {
      FirstBlock(lines);
      var d := KindEnd(lines, 0, Delete);
      var a := KindEnd(lines, d, Add);
      RowsKeepColumns(lines[a..], side);
      CellsJoin(BlockRows(lines[..d], lines[d..a]), Rows(lines[a..]), side);
      BlockColumns(lines, d, a, side);
    } else {
      RowsKeepColumns(lines[1..], side);
      OneRow(lines, 0);
      assert Rows(lines)[1..] == Rows(lines[1..]);
    }
  }

  lemma BlockRowsCells(deletes: seq<Line>, adds: seq<Line>, side: Side)
    ensures Cells(BlockRows(deletes, adds), side) == if side.Left? then deletes else adds
  {
    hide Cells, Block, At;
    BlockCells(deletes, adds, Max(|deletes|, |adds|), side);
  }

  lemma BlockColumns(lines: seq<Line>, d: nat, a: nat, side: Side)
    requires d <= a <= |lines| && AllOf(lines, 0, d, Delete) && AllOf(lines, d, a, Add)
    ensures Column(lines, side) == Cells(BlockRows(lines[..d], lines[d..a]), side) + Column(lines[a..], side)
  {
    hide Cells, BlockRows, Column;
    var deletes, adds := lines[..d], lines[d..a];
    BlockRowsCells(deletes, adds, side);
    ColumnOfKind(deletes, Delete, side);
    ColumnOfKind(adds, Add, side);
    assert lines == deletes + adds + lines[a..];
    ColumnJoin(deletes + adds, lines[a..], side);
    ColumnJoin(deletes, adds, side);
  }

  // ----- what keeps its place

  /** The second line belongs to the block that the first one is in. */
  predicate SameBlock(first: Line, second: Line) {
    || (first.kind.Delete? && (second.kind.Delete? || second.kind.Add?))
    || (first.kind.Add? && second.kind.Add?)
  }

  /** The first block of `before` ends where it would if nothing followed. */
  lemma BlockStays(before: seq<Line>, after: seq<Line>, d: nat, a: nat)
    requires before != [] && (after != [] ==> !SameBlock(before[|before| - 1], after[0]))
    requires d == KindEnd(before, 0, Delete) && a == KindEnd(before, d, Add) && 0 < a
    ensures KindEnd(before + after, 0, Delete) == d && KindEnd(before + after, d, Add) == a
  {
    hide KindEnd;
    var lines := before + after;
    KindEndsAt(lines, 0, d, Delete);
    KindEndsAt(lines, d, a, Add);
  }

  lemma SliceOfJoin(before: seq<Line>, after: seq<Line>, i: nat, j: nat)
    requires i <= j <= |before|
    ensures (before + after)[i..j] == before[i..j] && (before + after)[j..] == before[j..] + after
  {
  }

  /** Rows before and after a point inside no block are paired independently. */
  lemma {:induction false} RowsCut(before: seq<Line>, after: seq<Line>)
    requires before != [] && after != [] ==> !SameBlock(before[|before| - 1], after[0])
    ensures Rows(before + after) == Rows(before) + Rows(after)
    decreases |before|
  {
    hide BlockRows, KindEnd, Rows, AllOf;
    var lines := before + after;
    if before == [] {
      NoRows([]);
      assert lines == after;
    } else if before[0].kind.Delete? || before[0].kind.Add? {
      FirstBlock(before);
      FirstBlock(lines);
      var d := KindEnd(before, 0, Delete);
      var a := KindEnd(before, d, Add);
      BlockStays(before, after, d, a);
      SliceOfJoin(before, after, 0, d);
      SliceOfJoin(before, after, d, a);
      RowsCut(before[a..], after);
      Regroup(BlockRows(before[..d], before[d..a]), Rows(before[a..]), Rows(after));
    } else {
      assert before[0..] == before && lines[0..] == lines;
      OneRow(before, 0);
      OneRow(lines, 0);
      SliceOfJoin(before, after, 0, 1);
      RowsCut(before[1..], after);
      Regroup([SingleRow(before[0])], Rows(before[1..]), Rows(after));
    }
  }

  /** A meta line, like a context line, is one row, between the rows of what precedes and follows it. */
  lemma OwnRow(before: seq<Line>, line: Line, after: seq<Line>)
    requires line.kind.Meta? || line.kind.Context?
    ensures Rows(before + [line] + after)
            == Rows(before) + [if line.kind.Meta? then MetaRow(line) else Pair(Some(line), Some(line))] + Rows(after)
  {
    RowsCut(before + [line], after);
    RowsCut(before, [line]);
    assert [line][1..] == [] && Rows([]) == [];
  }

  lemma BlockAlone(deletes: seq<Line>, adds: seq<Line>)
    requires AllOf(deletes, 0, |deletes|, Delete) && AllOf(adds, 0, |adds|, Add) && deletes + adds != []
    ensures Rows(deletes + adds) == BlockRows(deletes, adds)
  {
    hide BlockRows, Rows;
    var block := deletes + adds;
    assert block[..|deletes|] == deletes && block[|deletes|..|block|] == adds && block[|block|..] == [];
    assert block[0..] == block && block[0..|deletes|] == deletes;
    SliceRows(block, 0, |deletes|, |block|);
    NoRows(block);
  }

  /** A block of d deletes and a adds takes max(d, a) rows; row r pairs the r-th of each. */
  lemma BlockPaired(before: seq<Line>, deletes: seq<Line>, adds: seq<Line>, after: seq<Line>)
    requires AllOf(deletes, 0, |deletes|, Delete) && AllOf(adds, 0, |adds|, Add) && deletes + adds != []
    requires before != [] ==> !SameBlock(before[|before| - 1], (deletes + adds)[0])
    requires after != [] ==> !SameBlock((deletes + adds)[|deletes + adds| - 1], after[0])
    ensures var block := Rows(deletes + adds);
            && Rows(before + (deletes + adds) + after) == Rows(before) + block + Rows(after)
            && |block| == Max(|deletes|, |adds|)
            && forall r :: 0 <= r < |block| ==> block[r] == Pair(At(deletes, r), At(adds, r))
  {
    hide Rows;
    var block := deletes + adds;
    BlockAlone(deletes, adds);
    RowsCut(before + block, after);
    RowsCut(before, block);
  }

  // ----- lines of no known type

  ghost predicate Shows(rows: seq<Row>, line: Line) {
    || line in Cells(rows, Left) || line in Cells(rows, Right) || MetaRow(line) in rows
  }

  lemma {:induction false} InColumn(lines: seq<Line>, side: Side, line: Line)
    ensures line in Column(lines, side) <==> line in lines && Stands(side, line)
  {
    if lines != [] {
      InColumn(lines[1..], side, line);
    }
  }

  lemma {:induction false} InMetaRows(lines: seq<Line>, line: Line)
    ensures MetaRow(line) in Rows(lines) <==> line in lines && line.kind.Meta?
    decreases |lines|
  {
    if lines == [] {
    } else if lines[0].kind.Delete? || lines[0].kind.Add? {
      var d := KindEnd(lines, 0, Delete);
      var a := KindEnd(lines, d, Add);
      InMetaRows(lines[a..], line);
      assert lines == lines[..a] + lines[a..];
      assert line in lines[..a] ==> !line.kind.Meta?;
    } else {
      InMetaRows(lines[1..], line);
    }
  }

  /**
   Side by side, a hunk shows every one of its lines if and only if all have
   one of the four types; a line of any other type becomes an empty row.
   */
  lemma ShowsAllLines(lines: seq<Line>)
    ensures (forall line <- lines :: Shows(Rows(lines), line)) <==> (forall line <- lines :: !line.kind.Other?)
  {
    RowsKeepColumns(lines, Left);
    RowsKeepColumns(lines, Right);
    forall line | line in lines ensures Shows(Rows(lines), line) <==> !line.kind.Other? {
      InColumn(lines, Left, line);
      InColumn(lines, Right, line);
      InMetaRows(lines, line);
    }
  }
}
