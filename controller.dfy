/**
  `GameController` of index.js as an object: it owns the board and updates
  its fields in place.  Each method is proved to do what the corresponding
  rule of module Game says, and to keep Game.Invariant once a game has started.
 */
module Controller {
  import opened Wrappers
  import opened Board
  import opened Rules
  import opened Game

  class GameController {
    const board: Gameboard
    var playersList: seq<Player>
    var currentPlayerIdx: int
    var gameIsOver: bool

    /**
      Nine cells always; once a game has started, the controller is in a state
      that `startGame` and a sequence of `playTurn` calls reach, so every rule
      of Game.Invariant holds (Game.ReachableSatisfiesInvariant).
     */
    ghost predicate Valid()
      reads this, board, board.cells
    {
      board.Valid() && (playersList != [] ==> Reachable(Snapshot()))
    }

    /** The controller's fields and the board, as a value. */
    function Snapshot(): State
      reads this, board, board.cells
    {
      State(playersList, currentPlayerIdx, gameIsOver, board.cells[..])
    }

    /** `startGame` has run: there are two players and the index points at one of them. */
    predicate HasStarted()
      reads this
    {
      |playersList| == 2 && 0 <= currentPlayerIdx < 2
    }

    /** The state at load time: no players yet, an empty board. */
    constructor ()
      ensures Valid() && fresh(board) && fresh(board.cells)
      ensures playersList == [] && !gameIsOver && board.cells[..] == EmptyBoard
    {
      board := new Gameboard();
      playersList := [];
      currentPlayerIdx := 0;
      gameIsOver := false;
    }

    /** `getCurrentPlayer()`: player 0 moves with MarkA, player 1 with MarkB. */
    function GetCurrentPlayer(): (p: Player)
      reads this, board, board.cells
      requires Valid() && HasStarted()
      ensures p in playersList
      ensures p.mark == if currentPlayerIdx == 0 then MarkA else MarkB
    {
      ReachableSatisfiesInvariant(Snapshot());
      playersList[currentPlayerIdx]
    }

    /** `isGameOver()`: once a game has started, it is over exactly when a mark has a line or the board is full. */
    function IsGameOver(): (r: bool)
      reads this, board, board.cells
      requires Valid()
      ensures playersList != [] ==>
        (r <==> ThreeInARow(board.cells[..], MarkA) || ThreeInARow(board.cells[..], MarkB) || Full(board.cells[..]))
    {
      if playersList != [] then
        ReachableSatisfiesInvariant(Snapshot());
        gameIsOver
      else
        gameIsOver
    }

    /** `checkWinCondition(mark)` on the current board: some row, column or diagonal is all `mark`. */
    predicate CheckWinCondition(mark: Cell)
      reads this, board, board.cells
      requires board.Valid()
      ensures CheckWinCondition(mark) <==> ThreeInARow(board.cells[..], mark)
    {
      Wins(board.GetBoard(), mark)
    }

    /** `checkDrawCondition()`: every cell is marked and neither player's mark has a line. */
    predicate CheckDrawCondition()
      reads this, board, board.cells
      requires board.Valid() && |playersList| == 2
      ensures CheckDrawCondition() <==>
        && (forall k :: 0 <= k < board.cells.Length ==> board.cells[k] != Empty)
        && !ThreeInARow(board.cells[..], playersList[0].mark)
        && !ThreeInARow(board.cells[..], playersList[1].mark)
    {
      board.IsFull() && !CheckWinCondition(playersList[0].mark) && !CheckWinCondition(playersList[1].mark)
    }

    /** `switchPlayer()`: the turn passes to the next player in `playersList`. */
    method SwitchPlayer()
      requires |playersList| > 0
      modifies this
      ensures currentPlayerIdx == (old(currentPlayerIdx) + 1) % |old(playersList)|
      ensures playersList == old(playersList) && gameIsOver == old(gameIsOver)
    {
      currentPlayerIdx := (currentPlayerIdx + 1) % |playersList|;
    }

    /**
      `startGame(n1, n2)`: two fresh players, player 0 to move, the board
      cleared, and the turn of player 0 announced.
     */
    method StartGame(n1: Option<string>, n2: Option<string>) returns (e: Event)
      requires Valid()
      modifies this, board
      ensures Valid() && HasStarted() && fresh(board.cells)
      ensures Snapshot() == Start(n1, n2).state && e == Start(n1, n2).event
    {
      playersList := [Player(NameOr(n1, "Player 1"), MarkA), Player(NameOr(n2, "Player 2"), MarkB)];
      currentPlayerIdx := 0;
      gameIsOver := false;
      board.ResetBoard();
      assert Snapshot() == Run(Start(n1, n2).state, []);
      e := Turn(GetCurrentPlayer());
    }

    /**
      `playTurn(i)`: refused while the game is over or when the board refuses
      the mark; otherwise a win is checked, then a draw, and only then does the
      turn pass to the other player.
     */
    method PlayTurn(i: int) returns (ok: bool, e: Option<Event>)
      requires Valid() && HasStarted()
      modifies this, board.cells
      ensures Valid() && HasStarted()
      ensures var r := Play(old(Snapshot()), i);
        Snapshot() == r.state && ok == r.accepted && e == r.event
    {
      ghost var before := Snapshot();
      ghost var r := Play(before, i);
      if gameIsOver {
        ok, e := false, None;
      } else {
        var mover := GetCurrentPlayer();
        var placed := board.PlaceMark(i, mover.mark);
        ghost var p := Place(before.board, i, mover.mark);
        if !placed {
          ok, e := false, None;
          assert Snapshot() == before;
        } else if CheckWinCondition(mover.mark) {
          gameIsOver := true;
          ok, e := true, Some(Victory(mover));
          assert Snapshot() == before.(board := p.board, over := true);
        } else if CheckDrawCondition() {
          gameIsOver := true;
          ok, e := true, Some(Draw);
          assert Snapshot() == before.(board := p.board, over := true);
        } else {
          ghost var next := 1 - currentPlayerIdx;
          assert (currentPlayerIdx + 1) % |playersList| == next by {
            if currentPlayerIdx == 0 { assert (0 + 1) % 2 == 1; } else { assert (1 + 1) % 2 == 0; }
          }
          SwitchPlayer();
          assert Snapshot() == before.(board := p.board, current := next);
          assert Valid() by { PlayStaysReachable(before, i); }
          ok, e := true, Some(Turn(GetCurrentPlayer()));
        }
      }
      assert Snapshot() == r.state && ok == r.accepted && e == r.event;
      assert Reachable(Snapshot()) by { PlayStaysReachable(before, i); }
    }
  }

  /**
    A caller that owns a controller can start a game, play, have a move on an
    occupied cell refused, restart and play again: `startGame` hands over a
    fresh board that `playTurn` may write.
   */
  method StartPlayRestart() returns (first: bool, again: bool, afterRestart: bool)
    ensures first && !again && afterRestart
  {
    var gc := new GameController();
    var opening := gc.StartGame(None, None);
    var event: Option<Event>;
    first, event := gc.PlayTurn(0);
    again, event := gc.PlayTurn(0);
    opening := gc.StartGame(Some("Ann"), None);
    afterRestart, event := gc.PlayTurn(0);
  }
}
