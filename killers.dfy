// Killer moves (api/include/extraHeuristics/killerMoves.h,
// chess_engine/include/extraHeuristics/killerMoves.h): two moves per ply,
// for 100 plies, that caused cut-offs.  The two headers hold the same
// update; the api one also takes a mutex, which is not modelled.

module Killers {
  import opened Moves

  const MaxPly := 100

  /** One ply's two slots. */
  datatype Slots = Slots(first: Move, second: Move)

  /**
   * The update of one ply's slots: a move already in the first slot changes
   * nothing; otherwise the first slot moves down to the second and the new
   * move takes the first.
   */
  function Shifted(s: Slots, move: Move): (r: Slots)
    ensures r.first == move
    ensures r.second == (if s.first == move then s.second else s.first)
  {
    if s.first == move then s else Slots(move, s.first)
  }

  /** Storing the same killer twice in a row is the same as storing it once. */
  lemma ShiftIdempotent(s: Slots, move: Move)
    ensures Shifted(Shifted(s, move), move) == Shifted(s, move)
  {
  }

  /** The two slots differ, unless both still hold the value they started with. */
  predicate Distinct(s: Slots, initial: Move)
  {
    s.first == s.second ==> s.first == initial
  }

  /** A ply whose slots start equal keeps two different killers from the first real store on. */
  lemma ShiftKeepsDistinct(s: Slots, move: Move, initial: Move)
    requires Distinct(s, initial)
    ensures Distinct(Shifted(s, move), initial)
  {
  }

  /** The global `killerMoves[100][2]`. */
  class KillerTable {
    const slots: array2<Move>

    /** Static storage of `Move` objects: every slot holds the default move. */
    constructor ()
      ensures slots.Length0 == MaxPly && slots.Length1 == 2
      ensures forall i, j :: 0 <= i < MaxPly && 0 <= j < 2 ==> slots[i, j] == DefaultMove()
    {
      slots := new Move[MaxPly, 2]((i, j) => DefaultMove());
    }

    function At(ply: int): Slots
      reads slots
      requires slots.Length0 == MaxPly && slots.Length1 == 2 && 0 <= ply < MaxPly
    {
      Slots(slots[ply, 0], slots[ply, 1])
    }

    /** `storeKillerMove`: a ply outside 0..99 is ignored; no other ply is touched. */
    method StoreKillerMove(move: Move, ply: int)
      requires slots.Length0 == MaxPly && slots.Length1 == 2
      modifies slots
      ensures 0 <= ply < MaxPly ==> At(ply) == Shifted(old(At(ply)), move)
      ensures forall i, j :: 0 <= i < MaxPly && i != ply && 0 <= j < 2 ==> slots[i, j] == old(slots[i, j])
      ensures !(0 <= ply < MaxPly) ==> forall i, j :: 0 <= i < MaxPly && 0 <= j < 2 ==> slots[i, j] == old(slots[i, j])
    {
      if 0 <= ply && ply < MaxPly {
        if !(slots[ply, 0] == move) {
          slots[ply, 1] := slots[ply, 0];
          slots[ply, 0] := move;
        }
      }
    }
  }
}
