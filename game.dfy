/**
  The game rules of `GameController` in index.js as functions on values:
  starting a game, playing one move, and playing a sequence of moves.  The
  messages the controller hands to the display are returned as events.
 */
module Game {
  import opened Wrappers
  import opened Board
  import opened Rules

  /** `Player(name, mark)`: an immutable pair. */
  datatype Player = Player(name: string, mark: Cell)

  /** What the controller asks the display to announce. */
  datatype Event = Turn(player: Player) | Victory(player: Player) | Draw

  /** The controller's fields `playersList`, `currentPlayerIdx`, `gameIsOver`, and the board. */
  datatype State = State(players: seq<Player>, current: int, over: bool, board: seq<Cell>)

  /** The state `startGame` produces: two players, and a valid index into them. */
  predicate Started(s: State)
  {
    |s.players| == 2 && 0 <= s.current < 2
  }

  /** `getCurrentPlayer()`. */
  function CurrentPlayer(s: State): (p: Player)
    requires Started(s)
    ensures p in s.players
  {
    s.players[s.current]
  }

  /** `name || fallback`: an absent or empty name is replaced by the fallback. */
  function NameOr(name: Option<string>, fallback: string): (r: string)
    ensures name.Some? && name.value != "" ==> r == name.value
    ensures name.None? || name.value == "" ==> r == fallback
  {
    match name
    case Some(n) => if n != "" then n else fallback
    case None => fallback
  }

  /** The state after `startGame` and the turn announcement it makes. */
  datatype Opening = Opening(state: State, event: Event)

  /** `startGame(n1, n2)`. */
  function Start(n1: Option<string>, n2: Option<string>): (r: Opening)
    ensures Started(r.state)
    ensures r.state.players[0].name == NameOr(n1, "Player 1")
    ensures r.state.players[1].name == NameOr(n2, "Player 2")
    ensures r.state.players[0].mark == MarkA && r.state.players[1].mark == MarkB
    ensures r.state.current == 0 && !r.state.over
    ensures r.state.board == EmptyBoard
    ensures r.event == Turn(r.state.players[0])
  {
    var players := [Player(NameOr(n1, "Player 1"), MarkA), Player(NameOr(n2, "Player 2"), MarkB)];
    var s := State(players, 0, false, EmptyBoard);
    Opening(s, Turn(CurrentPlayer(s)))
  }

  /** A new game satisfies the invariant. */
  lemma StartSatisfiesInvariant(n1: Option<string>, n2: Option<string>)
    ensures Invariant(Start(n1, n2).state)
  {
    NoWinOnEmptyBoard(MarkA);
    NoWinOnEmptyBoard(MarkB);
    assert EmptyBoard[0] == Empty;
  }

  /** Whether a move was accepted, the state after it, and what it announces. */
  datatype Outcome = Outcome(state: State, accepted: bool, event: Option<Event>)

  /** `playTurn(i)`. */
  function Play(s: State, i: int): (r: Outcome)
    requires Started(s)
    ensures Started(r.state) && r.state.players == s.players
    // a move is accepted exactly when the game runs and cell i exists and is empty
    ensures r.accepted <==> !s.over && 0 <= i < |s.board| && s.board[i] == Empty
    // a rejected move changes nothing and announces nothing
    ensures !r.accepted ==> r.state == s && r.event == None
    // an accepted move writes the mover's mark into cell i and nothing else
    ensures r.accepted ==> r.state.board == s.board[i := CurrentPlayer(s).mark]
    // a win is checked first, whether or not the board is also full
    ensures r.accepted && Wins(r.state.board, CurrentPlayer(s).mark) ==>
      r.state.over && r.event == Some(Victory(CurrentPlayer(s)))
    // then a draw
    ensures (r.accepted && !Wins(r.state.board, CurrentPlayer(s).mark)
             && IsDraw(r.state.board, s.players[0].mark, s.players[1].mark)) ==>
      r.state.over && r.event == Some(Draw)
    // otherwise the turn passes to the other player
    ensures (r.accepted && !Wins(r.state.board, CurrentPlayer(s).mark)
             && !IsDraw(r.state.board, s.players[0].mark, s.players[1].mark)) ==>
      !r.state.over && r.state.current == 1 - s.current && r.event == Some(Turn(CurrentPlayer(r.state)))
    // the player switches exactly on an accepted move that does not end the game
    ensures r.state.current != s.current <==> r.accepted && !r.state.over
  {
    if s.over then Outcome(s, false, None)
    else
      var mover := CurrentPlayer(s);
      var p := Place(s.board, i, mover.mark);
      if !p.accepted then Outcome(s, false, None)
      else if Wins(p.board, mover.mark) then
        Outcome(s.(board := p.board, over := true), true, Some(Victory(mover)))
      else if IsDraw(p.board, s.players[0].mark, s.players[1].mark) then
        Outcome(s.(board := p.board, over := true), true, Some(Draw))
      else
        var next := s.(board := p.board, current := (s.current + 1) % |s.players|);
        Outcome(next, true, Some(Turn(CurrentPlayer(next))))
  }

  /** The state after playing `moves` in order from `s`. */
  function Run(s: State, moves: seq<int>): (r: State)
    requires Started(s)
    ensures Started(r) && r.players == s.players
    decreases |moves|
  {
    if moves == [] then s else Run(Play(s, moves[0]).state, moves[1..])
  }

  /** Playing `a` and then `b` is playing `a + b`. */
  lemma {:induction false} RunConcat(s: State, a: seq<int>, b: seq<int>)
    requires Started(s)
    ensures Run(s, a + b) == Run(Run(s, a), b)
    decreases |a|
  {
    if a == [] {
      assert a + b == b;
    } else {
      assert (a + b)[0] == a[0] && (a + b)[1..] == a[1..] + b;
      RunConcat(Play(s, a[0]).state, a[1..], b);
    }
  }

  /** How many marks of each kind are on the board when the other rules hold. */
  ghost predicate TurnBalance(s: State)
  {
    var a, b := multiset(s.board)[MarkA], multiset(s.board)[MarkB];
    if s.over then a == b + 1 - s.current else a == b + s.current
  }

  /**
    What holds of every state reachable from `startGame`: nine cells, player 0
    holds MarkA and player 1 MarkB, never both marks with a line; a running game
    has no line and a free cell; a finished game was won by the current player
    or is a draw; and the players have alternated, player 0 first.
   */
  ghost predicate Invariant(s: State)
  {
    && |s.board| == BoardSize
    && Started(s)
    && s.players[0].mark == MarkA && s.players[1].mark == MarkB
    && !(Wins(s.board, MarkA) && Wins(s.board, MarkB))
    && (!s.over ==> !Wins(s.board, MarkA) && !Wins(s.board, MarkB) && !Full(s.board))
    && (s.over ==> Wins(s.board, s.players[s.current].mark) || IsDraw(s.board, MarkA, MarkB))
    && TurnBalance(s)
  }

  /** Writing `m` into an empty cell adds one `m` and leaves the count of every other mark alone. */
  lemma CountsAfterMark(b: seq<Cell>, i: int, m: Cell)
    requires 0 <= i < |b| && b[i] == Empty && m != Empty
    ensures multiset(b[i := m])[m] == multiset(b)[m] + 1
    ensures forall x :: x != m && x != Empty ==> multiset(b[i := m])[x] == multiset(b)[x]
  {
    assert multiset(b[i := m]) == multiset(b) - multiset{Empty} + multiset{m};
  }

  /** An accepted move adds one mark of the mover and, unless it ends the game, passes the turn. */
  lemma PlayKeepsTurnBalance(s: State, i: int)
    requires Started(s) && s.players[0].mark == MarkA && s.players[1].mark == MarkB
    requires TurnBalance(s) && Play(s, i).accepted
    ensures TurnBalance(Play(s, i).state)
  {
    var r := Play(s, i);
    var m := CurrentPlayer(s).mark;
    assert m == if s.current == 0 then MarkA else MarkB;
    CountsAfterMark(s.board, i, m);
    if r.state.over {
      assert r.state.current == s.current;
    } else {
      assert r.state.current == 1 - s.current;
    }
  }

  /** Every move keeps the invariant. */
  lemma PlayPreservesInvariant(s: State, i: int)
    requires Invariant(s)
    ensures Invariant(Play(s, i).state)
  {
    var r := Play(s, i);
    if r.accepted {
      var m := CurrentPlayer(s).mark;
      assert m == if s.current == 0 then MarkA else MarkB;
      var other := if m == MarkA then MarkB else MarkA;
      var b := r.state.board;
      assert b == s.board[i := m];
      PlacingCompletesOnlyOwnLines(s.board, i, m, other);
      assert !Wins(b, other);
      PlayKeepsTurnBalance(s, i);
      if r.state.over {
        assert r.state.current == s.current;
        assert Wins(b, m) || IsDraw(b, MarkA, MarkB);
      } else {
        assert !Wins(b, m) && !Full(b);
      }
    }
  }

  /** Every sequence of moves keeps the invariant. */
  lemma {:induction false} RunPreservesInvariant(s: State, moves: seq<int>)
    requires Invariant(s)
    ensures Invariant(Run(s, moves))
    decreases |moves|
  {
    if moves != [] {
      PlayPreservesInvariant(s, moves[0]);
      RunPreservesInvariant(Play(s, moves[0]).state, moves[1..]);
    }
  }

  /** `s` is where some game gets to: `startGame` followed by some `playTurn` calls. */
  ghost predicate Reachable(s: State)
  {
    exists n1, n2, moves :: s == Run(Start(n1, n2).state, moves)
  }

  /** Every reachable state satisfies the invariant. */
  lemma ReachableSatisfiesInvariant(s: State)
    requires Reachable(s)
    ensures Invariant(s)
  {
    var n1, n2, moves :| s == Run(Start(n1, n2).state, moves);
    StartSatisfiesInvariant(n1, n2);
    RunPreservesInvariant(Start(n1, n2).state, moves);
  }

  /** One more move from a reachable state reaches a state again. */
  lemma PlayStaysReachable(s: State, i: int)
    requires Reachable(s)
    ensures Started(s) && Reachable(Play(s, i).state)
  {
    var n1, n2, moves :| s == Run(Start(n1, n2).state, moves);
    var s0 := Start(n1, n2).state;
    RunConcat(s0, moves, [i]);
    assert [i][1..] == [];
    assert Play(s, i).state == Run(s0, moves + [i]);
  }

  /**
    Once the mover has no line, the draw test agrees with "the board is full":
    the other mark cannot have a line either, since the game was running.
   */
  lemma DrawAgreesWithFull(s: State, i: int)
    requires Invariant(s) && !s.over && 0 <= i < BoardSize && s.board[i] == Empty
    ensures var m := CurrentPlayer(s).mark;
      var b := s.board[i := m];
      !Wins(b, m) ==> (Full(b) <==> IsDraw(b, MarkA, MarkB))
  {
    var m := CurrentPlayer(s).mark;
    PlacingCompletesOnlyOwnLines(s.board, i, m, if m == MarkA then MarkB else MarkA);
  }

  /** In no game do both marks ever complete a line. */
  lemma NeverTwoWinners(n1: Option<string>, n2: Option<string>, moves: seq<int>)
    ensures var s := Run(Start(n1, n2).state, moves);
      !(Wins(s.board, MarkA) && Wins(s.board, MarkB))
  {
    StartSatisfiesInvariant(n1, n2);
    RunPreservesInvariant(Start(n1, n2).state, moves);
  }

  /** A cell that holds a mark keeps it for the rest of the game. */
  lemma {:induction false} MarksPersist(s: State, moves: seq<int>)
    requires Started(s)
    ensures |Run(s, moves).board| == |s.board|
    ensures forall j :: 0 <= j < |s.board| && s.board[j] != Empty ==> Run(s, moves).board[j] == s.board[j]
    decreases |moves|
  {
    if moves != [] {
      MarksPersist(Play(s, moves[0]).state, moves[1..]);
    }
  }

  /** Once the game is over, no further move changes anything. */
  lemma {:induction false} FinishedGameIsFrozen(s: State, moves: seq<int>)
    requires Started(s) && s.over
    ensures Run(s, moves) == s
    decreases |moves|
  {
    if moves != [] {
      FinishedGameIsFrozen(Play(s, moves[0]).state, moves[1..]);
    }
  }

  /** How many of `moves`, played in order from `s`, are accepted. */
  function AcceptedMoves(s: State, moves: seq<int>): (n: nat)
    requires Started(s)
    ensures n <= |moves|
    decreases |moves|
  {
    if moves == [] then 0
    else (if Play(s, moves[0]).accepted then 1 else 0) + AcceptedMoves(Play(s, moves[0]).state, moves[1..])
  }

  /** An accepted move turns exactly one empty cell into a mark. */
  lemma AcceptedMoveFillsOneCell(s: State, i: int)
    requires Started(s) && CurrentPlayer(s).mark != Empty && Play(s, i).accepted
    ensures multiset(Play(s, i).state.board)[Empty] + 1 == multiset(s.board)[Empty]
  {
    var r := Play(s, i);
    assert multiset(r.state.board) == multiset(s.board) - multiset{Empty} + multiset{CurrentPlayer(s).mark};
  }

  /** Each accepted move fills one empty cell, so a game accepts at most nine moves. */
  lemma {:induction false} AcceptedMovesBounded(s: State, moves: seq<int>)
    requires Started(s) && s.players[0].mark != Empty && s.players[1].mark != Empty
    ensures AcceptedMoves(s, moves) <= multiset(s.board)[Empty]
    decreases |moves|
  {
    if moves != [] {
      var r := Play(s, moves[0]);
      AcceptedMovesBounded(r.state, moves[1..]);
      if r.accepted {
        AcceptedMoveFillsOneCell(s, moves[0]);
      }
    }
  }

  /** Every game ends after at most nine accepted moves. */
  lemma GameAcceptsAtMostNineMoves(n1: Option<string>, n2: Option<string>, moves: seq<int>)
    ensures AcceptedMoves(Start(n1, n2).state, moves) <= BoardSize
  {
    assert multiset(EmptyBoard)[Empty] == BoardSize;
    AcceptedMovesBounded(Start(n1, n2).state, moves);
  }
}
