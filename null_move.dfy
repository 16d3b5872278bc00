// The null-move handler (chess_engine/src/move/nullMoveHandler.cpp,
// chess_engine/include/move/nullMove/nullMoveHandler.h): passing the turn
// without moving saves the key and the en passant square on a stack, flips
// the side-to-move key and clears en passant; undoing pops them back.

module NullMove {
  import opened Words
  import opened Zobrist
  import EnginePosition

  /** `ZOBRIST_TURN_KEY`. */
  const TurnKey: nat := 0x9D39247E33776D41

  /** One saved `NullMoveState`. */
  datatype Saved = Saved(zobristKey: nat, enPassantSquare: int)

  /** The part of the engine state the two functions touch: the position's key and en passant square, and the stack. */
  datatype State = State(zobristKey: nat, enPassantSquare: int, stack: seq<Saved>)

  /** `makeNullMove` on values. */
  function MadeNull(s: State): (r: State)
    ensures r.stack == s.stack + [Saved(s.zobristKey, s.enPassantSquare)]
    ensures r.enPassantSquare == -1
  {
    State(Xor(s.zobristKey, TurnKey), -1, s.stack + [Saved(s.zobristKey, s.enPassantSquare)])
  }

  /** `undoNullMove` on values: an empty stack changes nothing. */
  function UndoneNull(s: State): (r: State)
    ensures s.stack == [] ==> r == s
    ensures s.stack != [] ==> |r.stack| == |s.stack| - 1
  {
    if s.stack == [] then s
    else
      var last := s.stack[|s.stack| - 1];
      State(last.zobristKey, last.enPassantSquare, s.stack[..|s.stack| - 1])
  }

  /** Undoing right after a null move restores the key, the en passant square and the stack exactly. */
  lemma UndoAfterMake(s: State)
    ensures UndoneNull(MadeNull(s)) == s
  {
    var m := MadeNull(s);
    assert m.stack[..|m.stack| - 1] == s.stack;
  }

  /**
   * Two null moves in a row give the key back, since xor-ing the turn key
   * twice cancels, but the en passant square stays cleared.
   */
  lemma TwoNullMoves(s: State)
    requires s.zobristKey < Pow2(64)
    ensures MadeNull(MadeNull(s)).zobristKey == s.zobristKey
    ensures MadeNull(MadeNull(s)).enPassantSquare == -1
  {
    XorCancels(s.zobristKey, TurnKey, 64);
  }

  /** Nested null moves unwind in reverse order: two undos after two makes restore everything. */
  lemma NestedUndo(s: State)
    ensures UndoneNull(UndoneNull(MadeNull(MadeNull(s)))) == s
  {
    UndoAfterMake(MadeNull(s));
    UndoAfterMake(s);
  }

  /** The global `nullMoveStack`. */
  class NullMoveStack {
    var stack: seq<Saved>

    /** Static storage: the vector starts empty. */
    constructor ()
      ensures stack == []
    {
      stack := [];
    }

    /** `makeNullMove(pos)`: no field of the position other than the key and the en passant square changes. */
    method MakeNullMove(pos: EnginePosition.Position)
      modifies this, pos`zobristKey, pos`enPassantSquare
      ensures State(pos.zobristKey, pos.enPassantSquare, stack) ==
              MadeNull(State(old(pos.zobristKey), old(pos.enPassantSquare), old(stack)))
    {
      stack := stack + [Saved(pos.zobristKey, pos.enPassantSquare)];
      pos.zobristKey := Xor(pos.zobristKey, TurnKey);
      pos.enPassantSquare := -1;
    }

    /** `undoNullMove(pos)`. */
    method UndoNullMove(pos: EnginePosition.Position)
      modifies this, pos`zobristKey, pos`enPassantSquare
      ensures State(pos.zobristKey, pos.enPassantSquare, stack) ==
              UndoneNull(State(old(pos.zobristKey), old(pos.enPassantSquare), old(stack)))
    {
      if stack != [] {
        var last := stack[|stack| - 1];
        stack := stack[..|stack| - 1];
        pos.zobristKey := last.zobristKey;
        pos.enPassantSquare := last.enPassantSquare;
      }
    }
  }
}
