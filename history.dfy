// The history heuristic (api/include/extraHeuristics/historyHeuristic.h,
// chess_engine/include/extraHeuristics/historyHeuristic.h): a counter per
// colour, from-square and to-square, raised by depth squared each time a
// quiet move causes a cut-off.  Both headers hold the same update.

module History {
  import opened Bitboards
  import opened Pieces
  import opened Moves

  /** The first index of the table: 0 for White, 1 for Black. */
  function ColorIndex(c: Color): (r: nat)
    ensures r < 2
    ensures r == 0 <==> c == WHITE
  {
    if c == WHITE then 0 else 1
  }

  /** The bonus of one store. */
  function Bonus(depth: int): (r: int)
    ensures r >= 0
    ensures depth != 0 ==> r > 0
  {
    depth * depth
  }

  /** The global `historyHeuristic[2][64][64]`. */
  class HistoryTable {
    const cells: array3<int>

    /** Static storage: every counter starts at 0. */
    constructor ()
      ensures cells.Length0 == 2 && cells.Length1 == 64 && cells.Length2 == 64
      ensures forall c, f, t :: 0 <= c < 2 && 0 <= f < 64 && 0 <= t < 64 ==> cells[c, f, t] == 0
    {
      cells := new int[2, 64, 64]((c, f, t) => 0);
    }

    predicate Shaped()
      reads this
    {
      cells.Length0 == 2 && cells.Length1 == 64 && cells.Length2 == 64
    }

    /** Counters only ever grow from 0, so none is negative. */
    predicate NonNegative()
      reads this, cells
      requires Shaped()
    {
      forall c, f, t :: 0 <= c < 2 && 0 <= f < 64 && 0 <= t < 64 ==> cells[c, f, t] >= 0
    }

    /**
     * `storeHistoryHeuristic`: there is no bounds check, so the move's
     * squares must be on the board.
     */
    method StoreHistoryHeuristic(move: Move, depth: int, color: Color)
      requires Shaped() && 0 <= move.fromSquare < 64 && 0 <= move.toSquare < 64
      modifies cells
      ensures NonNegative() <== old(NonNegative())
      ensures cells[ColorIndex(color), move.fromSquare, move.toSquare] ==
              old(cells[ColorIndex(color), move.fromSquare, move.toSquare]) + Bonus(depth)
      ensures forall c, f, t ::
                0 <= c < 2 && 0 <= f < 64 && 0 <= t < 64 && (c, f, t) != (ColorIndex(color), move.fromSquare, move.toSquare)
                ==> cells[c, f, t] == old(cells[c, f, t])
    {
      var c := if color == WHITE then 0 else 1;
      cells[c, move.fromSquare, move.toSquare] := cells[c, move.fromSquare, move.toSquare] + depth * depth;
    }
  }
}
