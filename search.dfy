/** The computer's exhaustive search (script.js, `minimax` and the scoring
    loop of `findBestMove`): a depth-scored minimax that always optimises for
    the computer's mark. `Value` and `BestMove` are the specifications; the
    method `Minimax` is the in-place search on the shared board, which places
    a mark, recurses and clears the square again. */
module Search {
  import opened Wrappers
  import opened Rules

  /** The computer's mark (`aiPlayer`): fixed to O and never reassigned. */
  const AI: Player := O

  /** The mark placed at a ply: the computer's on a maximising ply, the
      opponent's on a minimising one. */
  function Mover(maximizing: bool): Player {
    if maximizing then AI else Other(AI)
  }

  function Place(b: Board, i: Index, p: Player): Board {
    b[i := Mark(p)]
  }

  /** Filling an empty square removes exactly that square from the empty set. */
  lemma PlaceShrinks(b: Board, i: Index, p: Player)
    requires b[i] == Empty
    ensures i in Empties(b)
    ensures Empties(Place(b, i, p)) == Empties(b) - {i}
    ensures |Empties(Place(b, i, p))| == |Empties(b)| - 1
  {
  }

  /** The score of a child position folded into the running best: `None`
      stands for the starting -Infinity (maximising) or Infinity (minimising),
      which any score replaces. */
  function Better(maximizing: bool, score: int, best: Option<int>): int {
    match best
    case None => score
    case Some(s) =>
      if maximizing then (if score > s then score else s)
      else (if score < s then score else s)
  }

  /** The score `minimax(board, depth, isMaximizing)` returns. */
  function Value(b: Board, depth: int, maximizing: bool): int
    decreases Empties(b), 1
  {
    var winner := Winner(b);
    if winner == Some(AI) then 10 - depth
    else if winner == Some(Other(AI)) then depth - 10
    else if IsFull(b) then 0
    else Scan(b, depth, maximizing, 0, None)
  }

  /** The loop over the squares from `i` on with running best `best`. */
  function Scan(b: Board, depth: int, maximizing: bool, i: nat, best: Option<int>): int
    requires i <= 9
    requires best.Some? || exists j :: i <= j < 9 && b[j] == Empty
    decreases Empties(b), 0, 9 - i
  {
    if i == 9 then best.value
    else if b[i] == Empty then
      PlaceShrinks(b, i, Mover(maximizing));
      var score := Value(Place(b, i, Mover(maximizing)), depth + 1, !maximizing);
      Scan(b, depth, maximizing, i + 1, Some(Better(maximizing, score, best)))
    else
      Scan(b, depth, maximizing, i + 1, best)
  }

  /** The in-place search. The board is restored before returning, and the
      score is the one `Value` specifies for the board it was given. */
  method Minimax(board: array<Cell>, depth: int, isMaximizing: bool) returns (score: int)
    requires board.Length == 9
    modifies board
    ensures board[..] == old(board[..])
    ensures score == Value(old(board[..]), depth, isMaximizing)
    decreases Empties(board[..])
  {
    var winner := CheckWinnerForMinimax(board);
    if winner == Some(AI) { return 10 - depth; }
    if winner == Some(Other(AI)) { return depth - 10; }
    if Empty !in board[..] { return 0; }

    ghost var b: Board := board[..];
    assert Value(b, depth, isMaximizing) == Scan(b, depth, isMaximizing, 0, None);
    if isMaximizing {
      var bestScore: Option<int> := None;
      for i := 0 to 9
        invariant board[..] == b
        invariant bestScore.Some? || exists j :: i <= j < 9 && b[j] == Empty
        invariant Scan(b, depth, true, i, bestScore) == Value(b, depth, true)
      {
        if board[i] == Empty {
          board[i] := Mark(AI);
          assert board[..] == Place(b, i, AI);
          PlaceShrinks(b, i, AI);
          var s := Minimax(board, depth + 1, false);
          board[i] := Empty;
          assert board[..] == b;
          bestScore := Some(Better(true, s, bestScore));
        }
      }
      return bestScore.value;
    } else {
      var bestScore: Option<int> := None;
      for i := 0 to 9
        invariant board[..] == b
        invariant bestScore.Some? || exists j :: i <= j < 9 && b[j] == Empty
        invariant Scan(b, depth, false, i, bestScore) == Value(b, depth, false)
      {
        if board[i] == Empty {
          board[i] := Mark(Other(AI));
          assert board[..] == Place(b, i, Other(AI));
          PlaceShrinks(b, i, Other(AI));
          var s := Minimax(board, depth + 1, true);
          board[i] := Empty;
          assert board[..] == b;
          bestScore := Some(Better(false, s, bestScore));
        }
      }
      return bestScore.value;
    }
  }

  /** For any call whose depth plus the number of empty squares is at most 10
      (every call the game makes: `findBestMove` starts at depth 0 with at
      most eight empty squares, and each ply adds one to the depth and fills
      one square), the score lies between `depth - 10` and `10 - depth`. */
  lemma {:induction false} ValueBounds(b: Board, depth: int, maximizing: bool)
    requires depth + |Empties(b)| <= 10
    ensures depth - 10 <= Value(b, depth, maximizing) <= 10 - depth
    decreases Empties(b), 1
  {
    match Winner(b)
    case Some(w) =>
      assert w == AI || w == Other(AI);
    case None =>
      if !IsFull(b) {
        ScanBounds(b, depth, maximizing, 0, None);
      }
  }

  lemma {:induction false} ScanBounds(b: Board, depth: int, maximizing: bool, i: nat, best: Option<int>)
    requires i <= 9
    requires best.Some? || exists j :: i <= j < 9 && b[j] == Empty
    requires depth + |Empties(b)| <= 10
    requires best.Some? ==> depth - 10 <= best.value <= 10 - depth
    ensures depth - 10 <= Scan(b, depth, maximizing, i, best) <= 10 - depth
    decreases Empties(b), 0, 9 - i
  {
    if i < 9 {
      if b[i] == Empty {
        PlaceShrinks(b, i, Mover(maximizing));
        var score := Value(Place(b, i, Mover(maximizing)), depth + 1, !maximizing);
        ValueBounds(Place(b, i, Mover(maximizing)), depth + 1, !maximizing);
        ScanBounds(b, depth, maximizing, i + 1, Some(Better(maximizing, score, best)));
      } else {
        ScanBounds(b, depth, maximizing, i + 1, best);
      }
    }
  }

  /** The score of the position reached by the mover filling square `i`. */
  function ChildValue(b: Board, depth: int, maximizing: bool, i: Index): int {
    Value(Place(b, i, Mover(maximizing)), depth + 1, !maximizing)
  }

  /** `r` is at least as good as `s` for the player to move. */
  predicate Prefers(maximizing: bool, r: int, s: int) {
    if maximizing then s <= r else r <= s
  }

  lemma {:induction false} ScanIsBest(b: Board, depth: int, maximizing: bool, i: nat, best: Option<int>)
    requires i <= 9
    requires best.Some? || exists j :: i <= j < 9 && b[j] == Empty
    ensures var r := Scan(b, depth, maximizing, i, best);
      (best.Some? && r == best.value) ||
      exists j: Index :: i <= j && b[j] == Empty && r == ChildValue(b, depth, maximizing, j)
    ensures var r := Scan(b, depth, maximizing, i, best);
      forall j: Index :: i <= j && b[j] == Empty ==> Prefers(maximizing, r, ChildValue(b, depth, maximizing, j))
    ensures best.Some? ==> Prefers(maximizing, Scan(b, depth, maximizing, i, best), best.value)
    decreases 9 - i
  {
    if i < 9 {
      if b[i] == Empty {
        var score := ChildValue(b, depth, maximizing, i);
        ScanIsBest(b, depth, maximizing, i + 1, Some(Better(maximizing, score, best)));
      } else {
        ScanIsBest(b, depth, maximizing, i + 1, best);
      }
    }
  }

  /** On a board with no winner and an empty square, the score is that of one
      of the children, and no child is better for the player to move: the
      maximum over the children on the computer's ply, the minimum on the
      opponent's. */
  lemma ValueIsBestChild(b: Board, depth: int, maximizing: bool)
    requires Winner(b) == None && !IsFull(b)
    ensures exists i: Index :: b[i] == Empty && Value(b, depth, maximizing) == ChildValue(b, depth, maximizing, i)
    ensures forall i: Index :: b[i] == Empty ==> Prefers(maximizing, Value(b, depth, maximizing), ChildValue(b, depth, maximizing, i))
  {
    ScanIsBest(b, depth, maximizing, 0, None);
  }

  /** The score `findBestMove` gives square `i`: the computer's mark placed
      there, then `minimax(gameState, 0, false)`. */
  function MoveScore(b: Board, i: Index): int {
    Value(Place(b, i, AI), 0, false)
  }

  /** A board has at most nine empty squares. */
  lemma {:induction false} EmptiesAtMostNine(b: Board)
    ensures |Empties(b)| <= 9
  {
    var all: set<Index> := {0, 1, 2, 3, 4, 5, 6, 7, 8};
    assert Empties(b) <= all;
    SubsetCardinality(Empties(b), all);
  }

  lemma {:induction false} SubsetCardinality(a: set<Index>, c: set<Index>)
    requires a <= c
    ensures |a| <= |c|
    decreases c
  {
    if a != {} {
      var x :| x in a;
      SubsetCardinality(a - {x}, c - {x});
    }
  }

  /** Every score `findBestMove` compares lies in [-10, 10]: the search
      starts at depth 0 on a board with at most eight empty squares. */
  lemma MoveScoreBounds(b: Board, i: Index)
    requires b[i] == Empty
    ensures -10 <= MoveScore(b, i) <= 10
  {
    PlaceShrinks(b, i, AI);
    EmptiesAtMostNine(b);
    ValueBounds(Place(b, i, AI), 0, false);
  }

  /** The loop of `findBestMove` from square `i` on. `bestMove == None` stands
      for the starting state (`bestScore` -Infinity, `bestMove` undefined),
      which the first empty square always replaces. */
  function ScanBest(b: Board, i: nat, bestMove: Option<Index>, bestScore: int): Option<Index>
    requires i <= 9
    decreases 9 - i
  {
    if i == 9 then bestMove
    else if b[i] == Empty && (bestMove == None || MoveScore(b, i) > bestScore) then
      ScanBest(b, i + 1, Some(i as Index), MoveScore(b, i))
    else
      ScanBest(b, i + 1, bestMove, bestScore)
  }

  /** The move `findBestMove` returns. */
  function BestMove(b: Board): Option<Index> {
    ScanBest(b, 0, None, 0)
  }

  /** What the running state of `findBestMove` satisfies after square `i - 1`. */
  predicate BestSoFar(b: Board, i: nat, bestMove: Option<Index>, bestScore: int) {
    match bestMove
    case None => forall j: Index :: j < i ==> b[j] != Empty
    case Some(m) =>
      && m < i && b[m] == Empty && bestScore == MoveScore(b, m)
      && (forall j: Index :: j < i && b[j] == Empty ==> MoveScore(b, j) <= bestScore)
      && (forall j: Index :: j < m && b[j] == Empty ==> MoveScore(b, j) < bestScore)
  }

  lemma {:induction false} ScanBestIsLowestArgmax(b: Board, i: nat, bestMove: Option<Index>, bestScore: int)
    requires i <= 9
    requires BestSoFar(b, i, bestMove, bestScore)
    ensures BestSoFar(b, 9, ScanBest(b, i, bestMove, bestScore),
                      match ScanBest(b, i, bestMove, bestScore)
                      case None => 0
                      case Some(m) => MoveScore(b, m))
    decreases 9 - i
  {
    if i < 9 {
      if b[i] == Empty && (bestMove == None || MoveScore(b, i) > bestScore) {
        ScanBestIsLowestArgmax(b, i + 1, Some(i as Index), MoveScore(b, i));
      } else {
        ScanBestIsLowestArgmax(b, i + 1, bestMove, bestScore);
      }
    }
  }

  /** `findBestMove` returns nothing exactly on a full board; otherwise an
      empty square whose score is the maximum over all empty squares, and the
      lowest-numbered one with that score. */
  lemma BestMoveIsLowestArgmax(b: Board)
    ensures BestMove(b) == None <==> IsFull(b)
    ensures forall m: Index :: BestMove(b) == Some(m) ==>
      && b[m] == Empty
      && (forall j: Index :: b[j] == Empty ==> MoveScore(b, j) <= MoveScore(b, m))
      && (forall j: Index :: j < m && b[j] == Empty ==> MoveScore(b, j) < MoveScore(b, m))
  {
    ScanBestIsLowestArgmax(b, 0, None, 0);
  }
}
