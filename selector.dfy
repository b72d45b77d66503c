/** The difficulty cascade of `getAIMove` (script.js). The `switch` falls
    through: easy may defer to medium's own random draw, and medium to the
    full search. Each `Math.random()` the cascade may consume is passed in as
    a real number in [0, 1). */
module Selector {
  import opened Wrappers
  import opened Rules
  import opened Search

  /** The `difficulty` setting; any value other than the three known names
      takes the `default` branch, which is the hard one. */
  datatype Difficulty = Easy | Medium | Hard | Unrecognised

  /** The draws of `Math.random()`, in the order the cascade consumes them:
      easy's coin and pick, then medium's coin and pick. */
  datatype Draws = Draws(easyRoll: real, easyPick: real, mediumRoll: real, mediumPick: real)

  predicate UnitInterval(r: real) {
    0.0 <= r < 1.0
  }

  predicate ValidDraws(d: Draws) {
    UnitInterval(d.easyRoll) && UnitInterval(d.easyPick) &&
    UnitInterval(d.mediumRoll) && UnitInterval(d.mediumPick)
  }

  /** `emptyCells[Math.floor(roll * emptyCells.length)]`. */
  function RandomPick(emptyCells: seq<Index>, roll: real): (i: Index)
    requires |emptyCells| > 0 && UnitInterval(roll)
    ensures i in emptyCells
  {
    var n := |emptyCells| as real;
    assert 0.0 <= roll * n < n;
    emptyCells[(roll * n).Floor]
  }

  /** The `medium` case: a random empty square with probability 0.3,
      otherwise the fall-through into the search. */
  function MediumRule(b: Board, emptyCells: seq<Index>, d: Draws): Option<Index>
    requires |emptyCells| > 0 && ValidDraws(d)
  {
    if d.mediumRoll < 0.3 then Some(RandomPick(emptyCells, d.mediumPick))
    else BestMove(b)
  }

  /** The move `getAIMove` returns for board `b`. */
  function AIChoice(b: Board, difficulty: Difficulty, d: Draws): Option<Index>
    requires ValidDraws(d)
  {
    var emptyCells := EmptyIndices(b);
    if |emptyCells| == 0 then None
    else
      match difficulty
      case Easy =>
        if d.easyRoll < 0.6 then Some(RandomPick(emptyCells, d.easyPick))
        else MediumRule(b, emptyCells, d)
      case Medium => MediumRule(b, emptyCells, d)
      case _ => BestMove(b)
  }

  /** The computer passes exactly on a full board; otherwise it names an
      empty square, and on the hard (or an unrecognised) setting it names
      exactly the square the search picks. */
  lemma AIChoiceIsLegal(b: Board, difficulty: Difficulty, d: Draws)
    requires ValidDraws(d)
    ensures AIChoice(b, difficulty, d) == None <==> IsFull(b)
    ensures forall m: Index :: AIChoice(b, difficulty, d) == Some(m) ==> b[m] == Empty
    ensures difficulty == Hard || difficulty == Unrecognised ==> AIChoice(b, difficulty, d) == BestMove(b)
  {
    BestMoveIsLowestArgmax(b);
  }

  /** The cascade: easy that misses its draw behaves as medium with the same
      remaining draws, and medium that misses behaves as hard. */
  lemma CascadeFallsThrough(b: Board, d: Draws)
    requires ValidDraws(d)
    ensures d.easyRoll >= 0.6 ==> AIChoice(b, Easy, d) == AIChoice(b, Medium, d)
    ensures d.mediumRoll >= 0.3 ==> AIChoice(b, Medium, d) == AIChoice(b, Hard, d)
  {
  }
}
