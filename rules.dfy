/**
  Win and draw evaluation (`winningCombinationsList`, `checkWinCondition`,
  `checkDrawCondition` in index.js).
 */
module Rules {
  import opened Board

  /** The eight fixed winning lines: three rows, three columns, two diagonals. */
  const WinningLines: seq<seq<int>> :=
    [[0, 1, 2], [3, 4, 5], [6, 7, 8], [0, 3, 6], [1, 4, 7], [2, 5, 8], [0, 4, 8], [2, 4, 6]]

  /** `line.every(index => board[index] === m)`; an index off the board never matches. */
  function AllMarked(b: seq<Cell>, line: seq<int>, m: Cell): (r: bool)
    ensures r <==> forall k :: 0 <= k < |line| ==> 0 <= line[k] < |b| && b[line[k]] == m
  {
    if line == [] then true
    else 0 <= line[0] < |b| && b[line[0]] == m && AllMarked(b, line[1..], m)
  }

  /** `lines.some(line => AllMarked(b, line, m))`. */
  function SomeLineMarked(b: seq<Cell>, lines: seq<seq<int>>, m: Cell): (r: bool)
    ensures r <==> exists k :: 0 <= k < |lines| && AllMarked(b, lines[k], m)
  {
    if lines == [] then false
    else AllMarked(b, lines[0], m) || SomeLineMarked(b, lines[1..], m)
  }

  /**
    `checkWinCondition(m)`: some entry of the line table is entirely `m`; on
    a board of nine cells, exactly when some row, column or diagonal is.
   */
  predicate Wins(b: seq<Cell>, m: Cell)
    ensures |b| == BoardSize ==> (Wins(b, m) <==> ThreeInARow(b, m))
  {
    if |b| == BoardSize then
      TableIsThreeInARow(b, m);
      ThreeInARowIsInTable(b, m);
      SomeLineMarked(b, WinningLines, m)
    else
      SomeLineMarked(b, WinningLines, m)
  }

  /** `checkDrawCondition()` for players holding marks `m0` and `m1`. */
  predicate IsDraw(b: seq<Cell>, m0: Cell, m1: Cell)
  {
    Full(b) && !Wins(b, m0) && !Wins(b, m1)
  }

  // An independent, geometric description of "three in a row" on a 3x3 grid.

  ghost predicate Row(b: seq<Cell>, m: Cell, r: int)
    requires |b| == BoardSize && 0 <= r < 3
  {
    b[3 * r] == m && b[3 * r + 1] == m && b[3 * r + 2] == m
  }

  ghost predicate Column(b: seq<Cell>, m: Cell, c: int)
    requires |b| == BoardSize && 0 <= c < 3
  {
    b[c] == m && b[c + 3] == m && b[c + 6] == m
  }

  ghost predicate ThreeInARow(b: seq<Cell>, m: Cell)
    requires |b| == BoardSize
  {
    || (exists r :: 0 <= r < 3 && Row(b, m, r))
    || (exists c :: 0 <= c < 3 && Column(b, m, c))
    || (b[0] == m && b[4] == m && b[8] == m)
    || (b[2] == m && b[4] == m && b[6] == m)
  }

  /** Each entry of the line table, read off as a triple of cell indices. */
  lemma LineCells(k: int)
    requires 0 <= k < |WinningLines|
    ensures |WinningLines[k]| == 3
    ensures k < 3 ==> WinningLines[k] == [3 * k, 3 * k + 1, 3 * k + 2]
    ensures 3 <= k < 6 ==> WinningLines[k] == [k - 3, k, k + 3]
    ensures k == 6 ==> WinningLines[k] == [0, 4, 8]
    ensures k == 7 ==> WinningLines[k] == [2, 4, 6]
  {
  }

  /** A triple is entirely `m` exactly when its three cells are. */
  lemma TripleMarked(b: seq<Cell>, x: int, y: int, z: int, m: Cell)
    requires 0 <= x < |b| && 0 <= y < |b| && 0 <= z < |b|
    ensures AllMarked(b, [x, y, z], m) <==> b[x] == m && b[y] == m && b[z] == m
  {
    var line := [x, y, z];
    assert line[0] == x && line[1] == y && line[2] == z;
  }

  /** Every complete entry of the line table is a row, a column or a diagonal. */
  lemma TableIsThreeInARow(b: seq<Cell>, m: Cell)
    requires |b| == BoardSize
    ensures SomeLineMarked(b, WinningLines, m) ==> ThreeInARow(b, m)
  {
    if SomeLineMarked(b, WinningLines, m) {
      var k :| 0 <= k < |WinningLines| && AllMarked(b, WinningLines[k], m);
      LineCells(k);
      if k < 3 {
        TripleMarked(b, 3 * k, 3 * k + 1, 3 * k + 2, m);
        assert Row(b, m, k);
      } else if k < 6 {
        TripleMarked(b, k - 3, k, k + 3, m);
        assert Column(b, m, k - 3);
      } else if k == 6 {
        TripleMarked(b, 0, 4, 8, m);
      } else {
        TripleMarked(b, 2, 4, 6, m);
      }
    }
  }

  /** Every complete row, column and diagonal is an entry of the line table. */
  lemma ThreeInARowIsInTable(b: seq<Cell>, m: Cell)
    requires |b| == BoardSize
    ensures ThreeInARow(b, m) ==> SomeLineMarked(b, WinningLines, m)
  {
    if ThreeInARow(b, m) {
      var k: int;
      if exists r :: 0 <= r < 3 && Row(b, m, r) {
        var r :| 0 <= r < 3 && Row(b, m, r);
        k := r;
        LineCells(k);
        TripleMarked(b, 3 * r, 3 * r + 1, 3 * r + 2, m);
      } else if exists c :: 0 <= c < 3 && Column(b, m, c) {
        var c :| 0 <= c < 3 && Column(b, m, c);
        k := c + 3;
        LineCells(k);
        TripleMarked(b, c, c + 3, c + 6, m);
      } else if b[0] == m && b[4] == m && b[8] == m {
        k := 6;
        LineCells(k);
        TripleMarked(b, 0, 4, 8, m);
      } else {
        k := 7;
        LineCells(k);
        TripleMarked(b, 2, 4, 6, m);
      }
      assert AllMarked(b, WinningLines[k], m);
    }
  }

  /** On a board of nine cells, a draw is a full board where neither mark has a row, column or diagonal. */
  lemma DrawIsFullWithoutLine(b: seq<Cell>, m0: Cell, m1: Cell)
    requires |b| == BoardSize
    ensures IsDraw(b, m0, m1) <==>
      && (forall i :: 0 <= i < |b| ==> b[i] != Empty)
      && !ThreeInARow(b, m0) && !ThreeInARow(b, m1)
  {
  }

  /** Writing `x` into one cell cannot complete a line of a different mark `m`. */
  lemma PlacingCompletesOnlyOwnLines(b: seq<Cell>, i: int, x: Cell, m: Cell)
    requires 0 <= i < |b| && x != m
    ensures Wins(b[i := x], m) ==> Wins(b, m)
  {
    if Wins(b[i := x], m) {
      var k :| 0 <= k < |WinningLines| && AllMarked(b[i := x], WinningLines[k], m);
      assert AllMarked(b, WinningLines[k], m);
    }
  }

  /** No line is complete on the empty board. */
  lemma NoWinOnEmptyBoard(m: Cell)
    requires m != Empty
    ensures !Wins(EmptyBoard, m)
  {
    assert !ThreeInARow(EmptyBoard, m);
  }
}
