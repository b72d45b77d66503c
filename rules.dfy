/** The board, the table of winning lines and the first-line-wins scan that
    decides whether a board has a winner (script.js, `gameState`,
    `winningConditions`, `checkWinnerForMinimax`). */
module Rules {
  import opened Wrappers

  /** The two marks a square can hold. */
  datatype Player = X | O

  /** A square: empty (the string '' in the game) or holding a mark. */
  datatype Cell = Empty | Mark(player: Player)

  /** A square's position, row-major: 0-2 top row, 3-5 middle, 6-8 bottom. */
  type Index = i: int | 0 <= i < 9

  /** The nine squares. */
  type Board = b: seq<Cell> | |b| == 9
    witness [Empty, Empty, Empty, Empty, Empty, Empty, Empty, Empty, Empty]

  type Line = (Index, Index, Index)

  const EmptyBoard: Board := [Empty, Empty, Empty, Empty, Empty, Empty, Empty, Empty, Empty]

  /** The eight lines in the order they are scanned: rows, columns, diagonals. */
  const WinningConditions: seq<Line> := [
    (0, 1, 2), (3, 4, 5), (6, 7, 8),
    (0, 3, 6), (1, 4, 7), (2, 5, 8),
    (0, 4, 8), (2, 4, 6)
  ]

  function Other(p: Player): (q: Player)
    ensures q != p
  {
    if p == X then O else X
  }

  /** The test the scan applies to a line: its first square is not empty and
      the other two equal it. */
  predicate Uniform(b: Board, line: Line) {
    b[line.0] != Empty && b[line.0] == b[line.1] && b[line.0] == b[line.2]
  }

  /** All three squares of `line` hold `p`. */
  predicate Owns(b: Board, line: Line, p: Player) {
    b[line.0] == Mark(p) && b[line.1] == Mark(p) && b[line.2] == Mark(p)
  }

  /** No square is empty (`!board.includes('')`). */
  predicate IsFull(b: Board) {
    Empty !in b
  }

  /** The positions of the empty squares. */
  function Empties(b: Board): set<Index> {
    set i: Index | b[i] == Empty
  }

  /** The positions of the empty squares from `i` on, in ascending order
      (the `reduce` that builds `emptyCells`). */
  function EmptyIndicesFrom(b: Board, i: nat): (r: seq<Index>)
    requires i <= 9
    ensures forall k :: k in r <==> i <= k < 9 && b[k] == Empty
    ensures forall m, n :: 0 <= m < n < |r| ==> r[m] < r[n]
    decreases 9 - i
  {
    if i == 9 then []
    else if b[i] == Empty then
      var rest := EmptyIndicesFrom(b, i + 1);
      assert forall n :: 0 <= n < |rest| ==> rest[n] in rest;
      assert forall n :: 0 <= n < |rest| ==> i < rest[n];
      [i as Index] + rest
    else EmptyIndicesFrom(b, i + 1)
  }

  function EmptyIndices(b: Board): (r: seq<Index>)
    ensures forall k: Index :: k in r <==> b[k] == Empty
    ensures |r| == 0 <==> IsFull(b)
  {
    EmptyIndicesFrom(b, 0)
  }

  /** The scan of the winning lines from position `k` of the table on: the
      mark of the first uniform line, or none. */
  function WinnerFrom(b: Board, k: nat): Option<Player>
    requires k <= |WinningConditions|
    decreases |WinningConditions| - k
  {
    if k == |WinningConditions| then None
    else if Uniform(b, WinningConditions[k]) then Some(b[WinningConditions[k].0].player)
    else WinnerFrom(b, k + 1)
  }

  /** The winner of a board as the game reports it. */
  function Winner(b: Board): Option<Player> {
    WinnerFrom(b, 0)
  }

  lemma UniformIsOwned(b: Board, line: Line)
    ensures Uniform(b, line) <==> Owns(b, line, X) || Owns(b, line, O)
  {
    match b[line.0]
    case Empty =>
    case Mark(p) =>
      assert !Owns(b, line, Other(p));
      assert Uniform(b, line) <==> Owns(b, line, p);
  }

  lemma {:induction false} WinnerFromIsFirstUniform(b: Board, k: nat, p: Player)
    requires k <= |WinningConditions|
    ensures WinnerFrom(b, k) == None <==>
              forall j :: k <= j < |WinningConditions| ==> !Uniform(b, WinningConditions[j])
    ensures WinnerFrom(b, k) == Some(p) <==>
              exists j :: k <= j < |WinningConditions| && Owns(b, WinningConditions[j], p) &&
                forall i :: k <= i < j ==> !Uniform(b, WinningConditions[i])
    decreases |WinningConditions| - k
  {
    if k < |WinningConditions| {
      WinnerFromIsFirstUniform(b, k + 1, p);
      if Uniform(b, WinningConditions[k]) {
        UniformIsOwned(b, WinningConditions[k]);
        if Owns(b, WinningConditions[k], p) {
          assert WinnerFrom(b, k) == Some(p);
        } else {
          assert WinnerFrom(b, k) != Some(p);
        }
      } else {
        assert WinnerFrom(b, k) == WinnerFrom(b, k + 1);
        if WinnerFrom(b, k) == Some(p) {
          var j :| k + 1 <= j < |WinningConditions| && Owns(b, WinningConditions[j], p) &&
                   forall i :: k + 1 <= i < j ==> !Uniform(b, WinningConditions[i]);
          assert forall i :: k <= i < j ==> !Uniform(b, WinningConditions[i]);
        }
        if exists j :: k <= j < |WinningConditions| && Owns(b, WinningConditions[j], p) &&
                       forall i :: k <= i < j ==> !Uniform(b, WinningConditions[i]) {
          var j :| k <= j < |WinningConditions| && Owns(b, WinningConditions[j], p) &&
                   forall i :: k <= i < j ==> !Uniform(b, WinningConditions[i]);
          UniformIsOwned(b, WinningConditions[j]);
          assert j != k;
        }
      }
    }
  }

  /** The scan reports `p` exactly when some line is owned by `p` and every
      line before it in the table is not uniform; it reports nothing exactly
      when no line is uniform. */
  lemma WinnerIsFirstOwnedLine(b: Board, p: Player)
    ensures Winner(b) == Some(p) <==>
              exists j :: 0 <= j < |WinningConditions| && Owns(b, WinningConditions[j], p) &&
                forall i :: 0 <= i < j ==> !Uniform(b, WinningConditions[i])
    ensures Winner(b) == None <==>
              forall j :: 0 <= j < |WinningConditions| ==> !Uniform(b, WinningConditions[j])
  {
    WinnerFromIsFirstUniform(b, 0, p);
  }

  /** A reported winner owns some line of the table. */
  lemma WinnerOwnsALine(b: Board, p: Player)
    requires Winner(b) == Some(p)
    ensures exists j :: 0 <= j < |WinningConditions| && Owns(b, WinningConditions[j], p)
  {
    WinnerIsFirstOwnedLine(b, p);
  }

  /** The loop of `checkWinnerForMinimax`: the lines are visited in table order
      and the first uniform one decides. */
  method CheckWinnerForMinimax(board: array<Cell>) returns (winner: Option<Player>)
    requires board.Length == 9
    ensures winner == Winner(board[..])
  {
    var i := 0;
    while i < |WinningConditions|
      invariant 0 <= i <= |WinningConditions|
      invariant WinnerFrom(board[..], i) == Winner(board[..])
    {
      var (a, b, c) := WinningConditions[i];
      if board[a] != Empty && board[a] == board[b] && board[a] == board[c] {
        return Some(board[a].player);
      }
      i := i + 1;
    }
    return None;
  }
}
