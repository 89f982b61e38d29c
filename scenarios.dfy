/** Concrete games played through the rules of module Game. */
module Scenarios {
  import opened Wrappers
  import opened Board
  import opened Rules
  import opened Game

  const E := Empty
  const A := MarkA
  const B := MarkB

  /** The two players a game started without names has. */
  const DefaultPlayers: seq<Player> := [Player("Player 1", MarkA), Player("Player 2", MarkB)]

  /** No row, column or diagonal of `b` is entirely `m`, checked line by line. */
  predicate NoLine(b: seq<Cell>, m: Cell)
    requires |b| == BoardSize
  {
    && !(b[0] == m && b[1] == m && b[2] == m)
    && !(b[3] == m && b[4] == m && b[5] == m)
    && !(b[6] == m && b[7] == m && b[8] == m)
    && !(b[0] == m && b[3] == m && b[6] == m)
    && !(b[1] == m && b[4] == m && b[7] == m)
    && !(b[2] == m && b[5] == m && b[8] == m)
    && !(b[0] == m && b[4] == m && b[8] == m)
    && !(b[2] == m && b[4] == m && b[6] == m)
  }

  lemma NoLineNoWin(b: seq<Cell>, m: Cell)
    requires |b| == BoardSize && NoLine(b, m)
    ensures !Wins(b, m)
  {
    assert !(exists r :: 0 <= r < 3 && Row(b, m, r));
    assert !(exists c :: 0 <= c < 3 && Column(b, m, c));
  }

  /** A move that neither wins nor fills the board hands the turn to the other player. */
  lemma QuietMove(s: State, i: int, after: seq<Cell>, free: int)
    requires Started(s) && |s.board| == BoardSize && !s.over
    requires 0 <= i < BoardSize && s.board[i] == Empty
    requires after == s.board[i := CurrentPlayer(s).mark]
    requires NoLine(after, CurrentPlayer(s).mark)
    requires 0 <= free < BoardSize && after[free] == Empty
    ensures Play(s, i).accepted
    ensures Play(s, i).state == s.(board := after, current := 1 - s.current)
  {
    NoLineNoWin(after, CurrentPlayer(s).mark);
  }

  /** A move that completes a line ends the game with a victory for the mover, even on a full board. */
  lemma WinningMove(s: State, i: int, after: seq<Cell>)
    requires Started(s) && |s.board| == BoardSize && !s.over
    requires 0 <= i < BoardSize && s.board[i] == Empty
    requires after == s.board[i := CurrentPlayer(s).mark]
    requires ThreeInARow(after, CurrentPlayer(s).mark)
    ensures Play(s, i).accepted
    ensures Play(s, i).state == s.(board := after, over := true)
    ensures Play(s, i).event == Some(Victory(CurrentPlayer(s)))
  {
  }

  /** A move that fills the board without a line for either mark ends the game in a draw. */
  lemma DrawingMove(s: State, i: int, after: seq<Cell>)
    requires Started(s) && |s.board| == BoardSize && !s.over
    requires s.players[0].mark == A && s.players[1].mark == B
    requires 0 <= i < BoardSize && s.board[i] == Empty
    requires after == s.board[i := CurrentPlayer(s).mark]
    requires NoLine(after, A) && NoLine(after, B)
    requires forall j :: 0 <= j < BoardSize ==> after[j] != Empty
    ensures Play(s, i).accepted
    ensures Play(s, i).state == s.(board := after, over := true)
    ensures Play(s, i).event == Some(Draw)
  {
    NoLineNoWin(after, A);
    NoLineNoWin(after, B);
  }

  // The states of the games below, one per accepted move.  Every game starts
  // from NewGame, the state `startGame` produces when no names are given.

  const NewGame := State(DefaultPlayers, 0, false, EmptyBoard)
  const After0 := State(DefaultPlayers, 1, false, [A, E, E, E, E, E, E, E, E])
  const After01 := State(DefaultPlayers, 0, false, [A, B, E, E, E, E, E, E, E])
  const After012 := State(DefaultPlayers, 1, false, [A, B, A, E, E, E, E, E, E])

  const Top2 := State(DefaultPlayers, 0, false, [A, E, E, E, B, E, E, E, E])
  const Top3 := State(DefaultPlayers, 1, false, [A, A, E, E, B, E, E, E, E])
  const Top4 := State(DefaultPlayers, 0, false, [A, A, E, B, B, E, E, E, E])

  const Draw4 := State(DefaultPlayers, 0, false, [A, B, A, E, B, E, E, E, E])
  const Draw5 := State(DefaultPlayers, 1, false, [A, B, A, A, B, E, E, E, E])
  const Draw6 := State(DefaultPlayers, 0, false, [A, B, A, A, B, B, E, E, E])
  const Draw7 := State(DefaultPlayers, 1, false, [A, B, A, A, B, B, E, A, E])
  const Draw8 := State(DefaultPlayers, 0, false, [A, B, A, A, B, B, B, A, E])

  const Diag4 := State(DefaultPlayers, 0, false, [A, B, A, B, E, E, E, E, E])
  const Diag5 := State(DefaultPlayers, 1, false, [A, B, A, B, A, E, E, E, E])
  const Diag6 := State(DefaultPlayers, 0, false, [A, B, A, B, A, B, E, E, E])
  const Diag7 := State(DefaultPlayers, 1, false, [A, B, A, B, A, B, E, A, E])
  const Diag8 := State(DefaultPlayers, 0, false, [A, B, A, B, A, B, B, A, E])

  lemma StartWithoutNames()
    ensures Start(None, None).state == NewGame && Start(None, Some("")).state == NewGame
    ensures Start(Some(""), Some("")).state == NewGame
  {
  }

  lemma Move0() ensures Play(NewGame, 0).state == After0 { QuietMove(NewGame, 0, After0.board, 8); }
  lemma Move01() ensures Play(After0, 1).state == After01 { QuietMove(After0, 1, After01.board, 8); }
  lemma Move012() ensures Play(After01, 2).state == After012 { QuietMove(After01, 2, After012.board, 8); }

  lemma StepTop2() ensures Play(After0, 4).state == Top2 { QuietMove(After0, 4, Top2.board, 8); }
  lemma StepTop3() ensures Play(Top2, 1).state == Top3 { QuietMove(Top2, 1, Top3.board, 8); }
  lemma StepTop4() ensures Play(Top3, 3).state == Top4 { QuietMove(Top3, 3, Top4.board, 8); }

  lemma TopMoves()
    ensures Play(After0, 4).state == Top2 && Play(Top2, 1).state == Top3 && Play(Top3, 3).state == Top4
  {
    StepTop2(); StepTop3(); StepTop4();
  }

  lemma StepDraw4() ensures Play(After012, 4).state == Draw4 { QuietMove(After012, 4, Draw4.board, 8); }
  lemma StepDraw5() ensures Play(Draw4, 3).state == Draw5 { QuietMove(Draw4, 3, Draw5.board, 8); }
  lemma StepDraw6() ensures Play(Draw5, 5).state == Draw6 { QuietMove(Draw5, 5, Draw6.board, 8); }

  lemma DrawMoves1()
    ensures Play(After012, 4).state == Draw4 && Play(Draw4, 3).state == Draw5 && Play(Draw5, 5).state == Draw6
  {
    StepDraw4(); StepDraw5(); StepDraw6();
  }

  lemma StepDraw7() ensures Play(Draw6, 7).state == Draw7 { QuietMove(Draw6, 7, Draw7.board, 8); }
  lemma StepDraw8() ensures Play(Draw7, 6).state == Draw8 { QuietMove(Draw7, 6, Draw8.board, 8); }

  lemma DrawMoves2()
    ensures Play(Draw6, 7).state == Draw7 && Play(Draw7, 6).state == Draw8
  {
    StepDraw7(); StepDraw8();
  }

  lemma StepDiag4() ensures Play(After012, 3).state == Diag4 { QuietMove(After012, 3, Diag4.board, 8); }
  lemma StepDiag5() ensures Play(Diag4, 4).state == Diag5 { QuietMove(Diag4, 4, Diag5.board, 8); }
  lemma StepDiag6() ensures Play(Diag5, 5).state == Diag6 { QuietMove(Diag5, 5, Diag6.board, 8); }

  lemma DiagMoves1()
    ensures Play(After012, 3).state == Diag4 && Play(Diag4, 4).state == Diag5 && Play(Diag5, 5).state == Diag6
  {
    StepDiag4(); StepDiag5(); StepDiag6();
  }

  lemma StepDiag7() ensures Play(Diag6, 7).state == Diag7 { QuietMove(Diag6, 7, Diag7.board, 8); }
  lemma StepDiag8() ensures Play(Diag7, 6).state == Diag8 { QuietMove(Diag7, 6, Diag8.board, 8); }

  lemma DiagMoves2()
    ensures Play(Diag6, 7).state == Diag7 && Play(Diag7, 6).state == Diag8
  {
    StepDiag7(); StepDiag8();
  }

  lemma TopRun()
    ensures Run(NewGame, [0, 4, 1, 3]) == Top4
  {
    Move0();
    TopMoves();
    assert [0, 4, 1, 3][1..] == [4, 1, 3];
    assert [4, 1, 3][1..] == [1, 3];
    assert [1, 3][1..] == [3];
  }

  lemma TopLastMove()
    ensures Play(Top4, 2) == Outcome(Top4.(board := [A, A, A, B, B, E, E, E, E], over := true), true,
                                     Some(Victory(Player("Player 1", MarkA))))
  {
    assert Row([A, A, A, B, B, E, E, E, E], A, 0);
    WinningMove(Top4, 2, [A, A, A, B, B, E, E, E, E]);
  }

  /** Moves 0, 4, 1, 3, 2 without names: "Player 1" completes the top row on the fifth move. */
  lemma TopRowWin()
    ensures var s := Run(Start(None, Some("")).state, [0, 4, 1, 3]);
      var r := Play(s, 2);
      && r.accepted && r.state.over && r.state.current == 0
      && r.event == Some(Victory(Player("Player 1", MarkA)))
      && r.state.board == [A, A, A, B, B, E, E, E, E]
  {
    StartWithoutNames();
    TopRun();
    TopLastMove();
  }

  // Move lists are named constants so that the verifier does not evaluate
  // whole games on its own; each part is computed from the move lemmas above.

  const FirstThree: seq<int> := [0, 1, 2]
  const DrawMiddleMoves: seq<int> := [4, 3, 5]
  const DiagMiddleMoves: seq<int> := [3, 4, 5]
  const LastTwo: seq<int> := [7, 6]
  /** The first eight moves of the drawn game. */
  const DrawOpening: seq<int> := FirstThree + DrawMiddleMoves + LastTwo
  /** The first eight moves of the game won on the diagonal. */
  const DiagOpening: seq<int> := FirstThree + DiagMiddleMoves + LastTwo

  lemma OpeningMoves()
    ensures DrawOpening == [0, 1, 2, 4, 3, 5, 7, 6]
    ensures DiagOpening == [0, 1, 2, 3, 4, 5, 7, 6]
  {
  }

  lemma OpeningRun()
    ensures Run(NewGame, FirstThree) == After012
  {
    Move0(); Move01(); Move012();
    assert FirstThree[1..] == [1, 2];
    assert [1, 2][1..] == [2];
  }

  lemma DrawMiddle()
    ensures Run(After012, DrawMiddleMoves) == Draw6
  {
    DrawMoves1();
    assert DrawMiddleMoves[1..] == [3, 5];
    assert [3, 5][1..] == [5];
  }

  lemma DrawEnd()
    ensures Run(Draw6, LastTwo) == Draw8
  {
    DrawMoves2();
    assert LastTwo[1..] == [6];
  }

  lemma DrawSix()
    ensures Run(NewGame, FirstThree + DrawMiddleMoves) == Draw6
  {
    OpeningRun();
    DrawMiddle();
    RunConcat(NewGame, FirstThree, DrawMiddleMoves);
  }

  lemma DrawRun()
    ensures Run(NewGame, DrawOpening) == Draw8
  {
    DrawSix();
    DrawEnd();
    RunConcat(NewGame, FirstThree + DrawMiddleMoves, LastTwo);
  }

  lemma DrawLastMove()
    ensures Play(Draw8, 8) == Outcome(Draw8.(board := [A, B, A, A, B, B, B, A, A], over := true), true, Some(Draw))
  {
    DrawingMove(Draw8, 8, [A, B, A, A, B, B, B, A, A]);
  }

  /** Moves 0, 1, 2, 4, 3, 5, 7, 6, 8 fill the board with no line for either mark: a draw. */
  lemma FullBoardDraw()
    ensures var s := Run(Start(None, None).state, DrawOpening);
      var r := Play(s, 8);
      && r.accepted && r.state.over && r.state.current == 0
      && r.event == Some(Draw)
      && r.state.board == [A, B, A, A, B, B, B, A, A]
  {
    StartWithoutNames();
    DrawRun();
    DrawLastMove();
  }

  lemma DiagMiddle()
    ensures Run(After012, DiagMiddleMoves) == Diag6
  {
    DiagMoves1();
    assert DiagMiddleMoves[1..] == [4, 5];
    assert [4, 5][1..] == [5];
  }

  lemma DiagEnd()
    ensures Run(Diag6, LastTwo) == Diag8
  {
    DiagMoves2();
    assert LastTwo[1..] == [6];
  }

  lemma DiagSix()
    ensures Run(NewGame, FirstThree + DiagMiddleMoves) == Diag6
  {
    OpeningRun();
    DiagMiddle();
    RunConcat(NewGame, FirstThree, DiagMiddleMoves);
  }

  lemma DiagRun()
    ensures Run(NewGame, DiagOpening) == Diag8
  {
    DiagSix();
    DiagEnd();
    RunConcat(NewGame, FirstThree + DiagMiddleMoves, LastTwo);
  }

  /** The board after the ninth move of the game won on the diagonal. */
  const DiagFinal: seq<Cell> := [A, B, A, B, A, B, B, A, A]

  lemma DiagFinalIsFull()
    ensures Full(DiagFinal)
  {
  }

  lemma DiagLastMove()
    ensures Play(Diag8, 8) == Outcome(Diag8.(board := DiagFinal, over := true), true,
                                      Some(Victory(Player("Player 1", MarkA))))
  {
    WinningMove(Diag8, 8, DiagFinal);
  }

  /**
    Moves 0, 1, 2, 3, 4, 5, 7, 6, 8 also fill the board, but the last move
    completes the diagonal 0, 4, 8: a full and winning board is a victory.
   */
  lemma FullBoardDiagonalWin()
    ensures var s := Run(Start(None, None).state, DiagOpening);
      var r := Play(s, 8);
      && r.accepted && r.state.over && r.state.current == 0
      && r.event == Some(Victory(Player("Player 1", MarkA)))
      && r.state.board == DiagFinal && Full(r.state.board)
  {
    StartWithoutNames();
    DiagRun();
    DiagLastMove();
    DiagFinalIsFull();
  }

  /** Playing on a cell that already holds a mark is refused and changes nothing. */
  lemma OccupiedCellRefused()
    ensures var s := Play(Start(None, None).state, 0).state;
      var r := Play(s, 0);
      !r.accepted && r.state == s && r.state.current == 1 && r.event == None
  {
    StartWithoutNames();
    Move0();
  }
}
