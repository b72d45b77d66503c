/** The game session (script.js): the board `gameState`, `currentPlayer`,
    `gameActive`, the mode and difficulty settings and the score counters,
    with the operations that change them. `Session`, `AfterMove` and `Click`
    describe the state and its transitions as values; the class `Game` holds
    the same state in fields and an array and is proved to follow them. */
module Controller {
  import opened Wrappers
  import opened Rules
  import opened Search
  import opened Selector

  /** The `scores` object: rounds won by X and by O. */
  datatype Scores = Scores(x: nat, o: nat)

  /** The part of the session that moves change. */
  datatype Session = Session(board: Board, current: Player, active: bool, scores: Scores)

  /** `handleWin`'s bookkeeping: the winner's counter goes up by one. */
  function Credit(s: Scores, winner: Player): Scores {
    if winner == X then s.(x := s.x + 1) else s.(o := s.o + 1)
  }

  /** `makeMove(i, p)`: write the mark, then end the round on a win (crediting
      the winner) or a full board, or else pass the turn. */
  function AfterMove(s: Session, i: Index, p: Player): Session {
    var board := s.board[i := Mark(p)];
    match Winner(board)
    case Some(w) => Session(board, s.current, false, Credit(s.scores, w))
    case None =>
      if IsFull(board) then Session(board, s.current, false, s.scores)
      else Session(board, Other(s.current), s.active, s.scores)
  }

  /** The guard of `handleCellClick`: a click on a filled square, or after the
      round has ended, is ignored. */
  predicate Ignored(s: Session, i: Index) {
    s.board[i] != Empty || !s.active
  }

  /** A click on square `i`: the guard, the player's move, then, against the
      computer, its reply when the round goes on and it is the computer's
      turn. The reply is applied at once (in the game it follows a delay). */
  function Click(s: Session, vsAI: bool, difficulty: Difficulty, i: Index, d: Draws): Session
    requires ValidDraws(d)
  {
    if Ignored(s, i) then s
    else
      var s1 := AfterMove(s, i, s.current);
      if vsAI && s1.active && s1.current == AI then
        match AIChoice(s1.board, difficulty, d)
        case None => s1
        case Some(m) => AfterMove(s1, m, AI)
      else s1
  }

  /** A round is live exactly while nobody has a line and a square is free. */
  predicate Consistent(s: Session) {
    s.active <==> Winner(s.board) == None && !IsFull(s.board)
  }

  /** `makeMove` changes square `i` alone. A win ends the round and adds one
      to the winner's counter and nothing else; a full board without a line
      ends the round with the counters unchanged; otherwise the turn passes
      to the other player. */
  lemma MakeMoveEffects(s: Session, i: Index, p: Player)
    ensures var r := AfterMove(s, i, p);
      r.board[i] == Mark(p) && forall j: Index :: j != i ==> r.board[j] == s.board[j]
    ensures var r := AfterMove(s, i, p);
      forall w :: Winner(r.board) == Some(w) ==>
        !r.active && r.current == s.current &&
        r.scores.x == s.scores.x + (if w == X then 1 else 0) &&
        r.scores.o == s.scores.o + (if w == O then 1 else 0)
    ensures var r := AfterMove(s, i, p);
      Winner(r.board) == None && IsFull(r.board) ==>
        !r.active && r.current == s.current && r.scores == s.scores
    ensures var r := AfterMove(s, i, p);
      Winner(r.board) == None && !IsFull(r.board) ==>
        r.active == s.active && r.current == Other(s.current) && r.scores == s.scores
  {
  }

  /** A move made while the round is live leaves a consistent session. */
  lemma AfterMoveKeepsConsistent(s: Session, i: Index, p: Player)
    requires s.active
    ensures Consistent(AfterMove(s, i, p))
  {
  }

  /** An ignored click changes nothing: board, turn, round state, scores. */
  lemma IgnoredClickChangesNothing(s: Session, vsAI: bool, difficulty: Difficulty, i: Index, d: Draws)
    requires ValidDraws(d) && Ignored(s, i)
    ensures Click(s, vsAI, difficulty, i, d) == s
  {
  }

  /** Every click keeps the session consistent. */
  lemma ClickKeepsConsistent(s: Session, vsAI: bool, difficulty: Difficulty, i: Index, d: Draws)
    requires ValidDraws(d) && Consistent(s)
    ensures Consistent(Click(s, vsAI, difficulty, i, d))
  {
    if !Ignored(s, i) {
      var s1 := AfterMove(s, i, s.current);
      AfterMoveKeepsConsistent(s, i, s.current);
      if vsAI && s1.active && s1.current == AI {
        match AIChoice(s1.board, difficulty, d)
        case None =>
        case Some(m) => AfterMoveKeepsConsistent(s1, m, AI);
      }
    }
  }

  /** The rounds won so far, X's and O's together. */
  function Rounds(s: Scores): nat {
    s.x + s.o
  }

  /** A move credits at most one round, and a move after which the round is
      still live credits none. */
  lemma AfterMoveCreditsAtMostOne(s: Session, i: Index, p: Player)
    ensures var r := AfterMove(s, i, p);
      Rounds(s.scores) <= Rounds(r.scores) <= Rounds(s.scores) + 1 &&
      (r.active ==> r.scores == s.scores)
  {
  }

  /** A move leaves every other square as it was. */
  lemma AfterMoveKeepsSquare(s: Session, i: Index, p: Player, j: Index)
    requires j != i
    ensures AfterMove(s, i, p).board[j] == s.board[j]
  {
  }

  /** An accepted click leaves the clicking player's mark on the square: the
      computer's reply, if any, goes to a different, empty square. */
  lemma ClickKeepsPlayersMark(s: Session, vsAI: bool, difficulty: Difficulty, i: Index, d: Draws)
    requires ValidDraws(d) && !Ignored(s, i)
    ensures Click(s, vsAI, difficulty, i, d).board[i] == Mark(s.current)
  {
    var s1 := AfterMove(s, i, s.current);
    assert s1.board[i] == Mark(s.current);
    if vsAI && s1.active && s1.current == AI {
      var choice := AIChoice(s1.board, difficulty, d);
      assert Click(s, vsAI, difficulty, i, d) == if choice.None? then s1 else AfterMove(s1, choice.value, AI);
      if choice.Some? {
        AIChoiceIsLegal(s1.board, difficulty, d);
        assert s1.board[choice.value] == Empty;
        AfterMoveKeepsSquare(s1, choice.value, AI, i);
      }
    } else {
      assert Click(s, vsAI, difficulty, i, d) == s1;
    }
  }

  /** At most one round is credited per click: a win ends the round before
      the computer could reply. */
  lemma ClickCreditsAtMostOne(s: Session, vsAI: bool, difficulty: Difficulty, i: Index, d: Draws)
    requires ValidDraws(d)
    ensures var r := Click(s, vsAI, difficulty, i, d);
      Rounds(s.scores) <= Rounds(r.scores) <= Rounds(s.scores) + 1
  {
    if !Ignored(s, i) {
      var s1 := AfterMove(s, i, s.current);
      AfterMoveCreditsAtMostOne(s, i, s.current);
      if vsAI && s1.active && s1.current == AI {
        match AIChoice(s1.board, difficulty, d)
        case None =>
        case Some(m) => AfterMoveCreditsAtMostOne(s1, m, AI);
      }
    }
  }

  /** Against the computer, a live round in which X (the person) is to move
      and clicks a free square comes back to X if it is still live: the
      computer, playing O, has replied in between. */
  lemma ClickReturnsTurnToPerson(s: Session, difficulty: Difficulty, i: Index, d: Draws)
    requires ValidDraws(d) && Consistent(s) && s.current == X && !Ignored(s, i)
    ensures var r := Click(s, true, difficulty, i, d);
      r.active ==> r.current == X && r.board[i] == Mark(X)
  {
    var s1 := AfterMove(s, i, X);
    AfterMoveKeepsConsistent(s, i, X);
    MakeMoveEffects(s, i, X);
    if s1.active {
      assert s1.current == AI;
      AIChoiceIsLegal(s1.board, difficulty, d);
      var m := AIChoice(s1.board, difficulty, d).value;
      assert Click(s, true, difficulty, i, d) == AfterMove(s1, m, AI);
      assert s1.board[m] == Empty;
      AfterMoveKeepsSquare(s1, m, AI, i);
      MakeMoveEffects(s1, m, AI);
    } else {
      assert Click(s, true, difficulty, i, d) == s1;
    }
  }

  /** A filled square keeps its mark through a click, the computer's reply
      included: both moves go to empty squares. */
  lemma ClickKeepsFilled(s: Session, vsAI: bool, difficulty: Difficulty, i: Index, d: Draws, j: Index)
    requires ValidDraws(d) && s.board[j] != Empty
    ensures Click(s, vsAI, difficulty, i, d).board[j] == s.board[j]
  {
    if !Ignored(s, i) {
      var s1 := AfterMove(s, i, s.current);
      AfterMoveKeepsSquare(s, i, s.current, j);
      if vsAI && s1.active && s1.current == AI {
        var choice := AIChoice(s1.board, difficulty, d);
        assert Click(s, vsAI, difficulty, i, d) == if choice.None? then s1 else AfterMove(s1, choice.value, AI);
        if choice.Some? {
          AIChoiceIsLegal(s1.board, difficulty, d);
          AfterMoveKeepsSquare(s1, choice.value, AI, j);
        }
      } else {
        assert Click(s, vsAI, difficulty, i, d) == s1;
      }
    }
  }

  /** Some line of the table is all `p`. */
  predicate HasLine(b: Board, p: Player) {
    exists j :: 0 <= j < |WinningConditions| && Owns(b, WinningConditions[j], p)
  }

  /** A move onto an empty square of a board without a winner can complete
      lines only for the mover: any other line was already uniform before. */
  lemma {:induction false} MoveCompletesOnlyMoversLines(s: Session, i: Index, p: Player, q: Player)
    requires Winner(s.board) == None && s.board[i] == Empty
    requires HasLine(AfterMove(s, i, p).board, q)
    ensures q == p
  {
    var b := AfterMove(s, i, p).board;
    var j :| 0 <= j < |WinningConditions| && Owns(b, WinningConditions[j], q);
    var line := WinningConditions[j];
    WinnerIsFirstOwnedLine(s.board, q);
    UniformIsOwned(s.board, line);
    if line.0 != i && line.1 != i && line.2 != i {
      assert Owns(s.board, line, q);
      assert false;
    }
  }

  /** No board has lines for both players. */
  predicate Unambiguous(b: Board) {
    !(HasLine(b, X) && HasLine(b, O))
  }

  /** A move in a live round leaves at most one player with lines. */
  lemma AfterMoveKeepsUnambiguous(s: Session, i: Index, p: Player)
    requires Consistent(s) && !Ignored(s, i)
    ensures Unambiguous(AfterMove(s, i, p).board)
  {
    var b := AfterMove(s, i, p).board;
    if HasLine(b, X) && HasLine(b, O) {
      MoveCompletesOnlyMoversLines(s, i, p, X);
      MoveCompletesOnlyMoversLines(s, i, p, O);
    }
  }

  /** Clicks keep "at most one player has a line", so the winner a session
      reports is the only player with a line. */
  lemma ClickKeepsUnambiguous(s: Session, vsAI: bool, difficulty: Difficulty, i: Index, d: Draws)
    requires ValidDraws(d) && Consistent(s) && Unambiguous(s.board)
    ensures Consistent(Click(s, vsAI, difficulty, i, d))
    ensures Unambiguous(Click(s, vsAI, difficulty, i, d).board)
  {
    ClickKeepsConsistent(s, vsAI, difficulty, i, d);
    if !Ignored(s, i) {
      var s1 := AfterMove(s, i, s.current);
      AfterMoveKeepsUnambiguous(s, i, s.current);
      AfterMoveKeepsConsistent(s, i, s.current);
      if vsAI && s1.active && s1.current == AI {
        var choice := AIChoice(s1.board, difficulty, d);
        assert Click(s, vsAI, difficulty, i, d) == if choice.None? then s1 else AfterMove(s1, choice.value, AI);
        if choice.Some? {
          AIChoiceIsLegal(s1.board, difficulty, d);
          AfterMoveKeepsUnambiguous(s1, choice.value, AI);
        }
      } else {
        assert Click(s, vsAI, difficulty, i, d) == s1;
      }
    }
  }

  /** The session every round starts with is consistent and unambiguous:
      the base case of the two invariants that clicks preserve. */
  lemma NewRoundIsConsistent(sc: Scores)
    ensures Consistent(Session(EmptyBoard, X, true, sc))
    ensures Unambiguous(EmptyBoard)
  {
    WinnerIsFirstOwnedLine(EmptyBoard, X);
  }

  /** In a consistent, unambiguous session the reported winner is the only
      player with a line. */
  lemma WinnerIsOnlyLineOwner(s: Session, w: Player)
    requires Consistent(s) && Unambiguous(s.board)
    requires Winner(s.board) == Some(w)
    ensures HasLine(s.board, w) && !HasLine(s.board, Other(w))
  {
    WinnerOwnsALine(s.board, w);
  }

  /** The session of `script.js`. */
  class Game {
    var gameState: array<Cell>
    var currentPlayer: Player
    var gameActive: bool
    var vsAI: bool
    var difficulty: Difficulty
    var scores: Scores

    ghost predicate Valid()
      reads this
    {
      gameState.Length == 9
    }

    function Snapshot(): Session
      reads this, gameState
      requires Valid()
    {
      Session(gameState[..], currentPlayer, gameActive, scores)
    }

    /** The state the page starts with. */
    constructor ()
      ensures Valid() && fresh(gameState)
      ensures Snapshot() == Session(EmptyBoard, X, true, Scores(0, 0))
      ensures !vsAI && difficulty == Medium
      ensures Consistent(Snapshot()) && Unambiguous(gameState[..])
    {
      gameState := new Cell[9](_ => Empty);
      currentPlayer := X;
      gameActive := true;
      vsAI := false;
      difficulty := Medium;
      scores := Scores(0, 0);
      new;
      assert gameState[..] == EmptyBoard;
      NewRoundIsConsistent(scores);
    }

    /** The mode buttons: set the mode and start a new round. */
    method SetMode(computerOpponent: bool)
      requires Valid()
      modifies this`vsAI, this`currentPlayer, this`gameState, this`gameActive
      ensures Valid() && fresh(gameState) && vsAI == computerOpponent
      ensures Snapshot() == Session(EmptyBoard, X, true, old(scores))
      ensures Consistent(Snapshot()) && Unambiguous(gameState[..])
    {
      vsAI := computerOpponent;
      ResetGame();
    }

    /** The difficulty buttons. */
    method SetDifficulty(level: Difficulty)
      requires Valid()
      modifies this`difficulty
      ensures Valid() && difficulty == level
    {
      difficulty := level;
    }

    /** `handleCellClick` for square `index`, with the draws the computer's
        reply may consume. */
    method HandleCellClick(index: Index, draws: Draws)
      requires Valid() && ValidDraws(draws)
      modifies this`currentPlayer, this`gameActive, this`scores, gameState
      ensures Valid()
      ensures Snapshot() == Click(old(Snapshot()), vsAI, difficulty, index, draws)
    {
      if gameState[index] != Empty || !gameActive {
        return;
      }
      MakeMove(index, currentPlayer);
      if vsAI && gameActive && currentPlayer == AI {
        var bestMove := GetAIMove(draws);
        if bestMove.Some? {
          MakeMove(bestMove.value, AI);
        }
      }
    }

    /** `makeMove`: write the mark, then settle a win, a draw or the turn. */
    method MakeMove(index: Index, player: Player)
      requires Valid()
      modifies this`currentPlayer, this`gameActive, this`scores, gameState
      ensures Valid()
      ensures Snapshot() == AfterMove(old(Snapshot()), index, player)
    {
      gameState[index] := Mark(player);
      var winner := CheckWinner();
      if winner.Some? {
        HandleWin(winner.value);
      } else if Empty !in gameState[..] {
        HandleDraw();
      } else {
        currentPlayer := Other(currentPlayer);
      }
    }

    /** `checkWinner`: the same scan as `checkWinnerForMinimax`, on the
        session's board. */
    method CheckWinner() returns (winner: Option<Player>)
      requires Valid()
      ensures winner == Winner(gameState[..])
    {
      winner := CheckWinnerForMinimax(gameState);
    }

    /** `handleWin`: end the round and credit the winner. */
    method HandleWin(winner: Player)
      requires Valid()
      modifies this`gameActive, this`scores
      ensures Valid()
      ensures !gameActive && scores == Credit(old(scores), winner)
    {
      gameActive := false;
      if winner == X {
        scores := scores.(x := scores.x + 1);
      } else {
        scores := scores.(o := scores.o + 1);
      }
    }

    /** `handleDraw`: end the round. */
    method HandleDraw()
      requires Valid()
      modifies this`gameActive
      ensures Valid() && !gameActive
    {
      gameActive := false;
    }

    /** `getAIMove`: the difficulty cascade over the empty squares. The board
        is the same afterwards. */
    method GetAIMove(draws: Draws) returns (move: Option<Index>)
      requires Valid() && ValidDraws(draws)
      modifies gameState
      ensures gameState[..] == old(gameState[..])
      ensures move == AIChoice(old(gameState[..]), difficulty, draws)
    {
      var emptyCells := EmptyIndices(gameState[..]);
      if |emptyCells| == 0 {
        return None;
      }
      if difficulty == Easy && draws.easyRoll < 0.6 {
        return Some(RandomPick(emptyCells, draws.easyPick));
      }
      if (difficulty == Easy || difficulty == Medium) && draws.mediumRoll < 0.3 {
        return Some(RandomPick(emptyCells, draws.mediumPick));
      }
      move := FindBestMove();
    }

    /** `findBestMove`: try the computer's mark on each empty square in
        ascending order, score it with the search and keep it only on a strict
        improvement. The board is the same afterwards. */
    method FindBestMove() returns (bestMove: Option<Index>)
      requires Valid()
      modifies gameState
      ensures gameState[..] == old(gameState[..])
      ensures bestMove == BestMove(old(gameState[..]))
    {
      ghost var b: Board := gameState[..];
      var bestScore := 0;
      bestMove := None;
      for i := 0 to 9
        invariant gameState[..] == b
        invariant ScanBest(b, i, bestMove, bestScore) == BestMove(b)
      {
        if gameState[i] == Empty {
          gameState[i] := Mark(AI);
          assert gameState[..] == Place(b, i, AI);
          var score := Minimax(gameState, 0, false);
          gameState[i] := Empty;
          assert gameState[..] == b;
          if bestMove == None || score > bestScore {
            bestScore := score;
            bestMove := Some(i);
          }
        }
      }
    }

    /** `resetGame`: a fresh empty board, X to move, the round live; the
        scores are kept. */
    method ResetGame()
      requires Valid()
      modifies this`currentPlayer, this`gameState, this`gameActive
      ensures Valid() && fresh(gameState)
      ensures Snapshot() == Session(EmptyBoard, X, true, old(scores))
      ensures Consistent(Snapshot()) && Unambiguous(gameState[..])
    {
      currentPlayer := X;
      gameState := new Cell[9](_ => Empty);
      gameActive := true;
      assert gameState[..] == EmptyBoard;
      NewRoundIsConsistent(scores);
    }

    /** `restartGame`: both scores back to zero, then a new round. */
    method RestartGame()
      requires Valid()
      modifies this`scores, this`currentPlayer, this`gameState, this`gameActive
      ensures Valid() && fresh(gameState)
      ensures Snapshot() == Session(EmptyBoard, X, true, Scores(0, 0))
      ensures Consistent(Snapshot()) && Unambiguous(gameState[..])
    {
      scores := Scores(0, 0);
      ResetGame();
    }
  }
}
