/**
  The game board (`Gameboard` in index.js): nine cells in row-major order.
  Placing a mark is the only way to write a cell, and it succeeds only on an
  empty cell inside the board.
 */
module Board {

  /** A cell is empty or holds one of the two player marks. */
  datatype Cell = Empty | MarkA | MarkB

  const BoardSize: nat := 9

  /** The board as it is at load time and after every reset. */
  const EmptyBoard: seq<Cell> := [Empty, Empty, Empty, Empty, Empty, Empty, Empty, Empty, Empty]

  /** `every` cell is occupied. */
  function Full(b: seq<Cell>): (r: bool)
    ensures r <==> forall i :: 0 <= i < |b| ==> b[i] != Empty
  {
    if b == [] then true else b[0] != Empty && Full(b[1..])
  }

  /** Whether an attempt to place a mark was accepted, and the board after it. */
  datatype Placement = Placement(accepted: bool, board: seq<Cell>)

  /** The value semantics of `placeMark(index, mark)` on board `b`. */
  function Place(b: seq<Cell>, i: int, m: Cell): (r: Placement)
    ensures r.accepted <==> 0 <= i < |b| && b[i] == Empty
    ensures |r.board| == |b|
    ensures r.accepted ==> r.board[i] == m
    ensures forall j :: 0 <= j < |b| && j != i ==> r.board[j] == b[j]
    ensures !r.accepted ==> r.board == b
    // a cell that holds a mark is never overwritten
    ensures forall j :: 0 <= j < |b| && b[j] != Empty ==> r.board[j] == b[j]
  {
    if 0 <= i < |b| && b[i] == Empty then Placement(true, b[i := m]) else Placement(false, b)
  }

  class Gameboard {
    var cells: array<Cell>

    ghost predicate Valid()
      reads this
    {
      cells.Length == BoardSize
    }

    constructor ()
      ensures Valid() && fresh(cells) && cells[..] == EmptyBoard
    {
      var a := new Cell[BoardSize](_ => Empty);
      assert a[..] == EmptyBoard;
      cells := a;
    }

    /** `getBoard`: a copy of the cells; a sequence is a value, so the caller cannot write through it. */
    function GetBoard(): (r: seq<Cell>)
      reads this, cells
      requires Valid()
      ensures |r| == BoardSize
      ensures forall i :: 0 <= i < BoardSize ==> r[i] == cells[i]
    {
      cells[..]
    }

    /** `placeMark`: writes `mark` into cell `index` only when that cell exists and is empty. */
    method PlaceMark(index: int, mark: Cell) returns (ok: bool)
      requires Valid()
      modifies cells
      ensures Valid()
      ensures ok == Place(old(cells[..]), index, mark).accepted
      ensures cells[..] == Place(old(cells[..]), index, mark).board
    {
      if 0 <= index < cells.Length && cells[index] == Empty {
        cells[index] := mark;
        return true;
      }
      return false;
    }

    /** `resetBoard`: replaces the cells by a new array of nine empty cells. */
    method ResetBoard()
      modifies this
      ensures Valid() && fresh(cells) && cells[..] == EmptyBoard
    {
      cells := new Cell[BoardSize](_ => Empty);
      assert cells[..] == EmptyBoard;
    }

    /** `isFull`: no cell is empty. */
    function IsFull(): (r: bool)
      reads this, cells
      ensures r <==> forall i :: 0 <= i < cells.Length ==> cells[i] != Empty
    {
      Full(cells[..])
    }
  }
}
