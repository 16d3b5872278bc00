// What every front end (the stdin/stdout server, the JNI bridge, the two
// consoles, the engine's own game loop and the two tkinter boards) does
// with the engine: look a clicked or typed move up among the generated
// moves, commit it with a queen for a promotion, list the destinations of
// one square, and tell checkmate from stalemate.  The engine itself is an
// oracle here: its move generator, check test, make-move and search are
// the parameters of Engine.

module Frontend {
  import opened Options
  import opened Pieces
  import opened Moves

  /**
   * The engine calls a front end makes.  `play` is `makeMove` /
   * `updatePosition`, `bestMove` is `findBestMove` (its depth and time
   * limit fixed by the caller), `initial` the position
   * `initializePosition` sets up, and `display` is `displayPosition`.
   */
  datatype Engine<!P> = Engine(
    generate: (P, Color) -> seq<Move>,
    inCheck: (P, Color) -> bool,
    play: (P, Move) -> P,
    bestMove: (P, Color) -> Move,
    initial: P,
    display: P -> string)

  /** A move `get_pgn` can write: a castling, or one whose squares are on the board. */
  predicate Notable(m: Move)
  {
    m.castlingType == NoCastling ==> OnBoard(m)
  }

  /** The lambda handed to `find_if` / `next`: same origin and destination square. */
  predicate Matches(m: Move, from: int, to: int)
  {
    m.fromSquare == from && m.toSquare == to
  }

  /** The index `find_if` stops at: the first match, or the length when there is none. */
  function FirstMatch(moves: seq<Move>, from: int, to: int): (i: nat)
    ensures i <= |moves|
    ensures forall j :: 0 <= j < i ==> !Matches(moves[j], from, to)
    ensures i < |moves| ==> Matches(moves[i], from, to)
  {
    if moves == [] then 0
    else if Matches(moves[0], from, to) then 0
    else 1 + FirstMatch(moves[1..], from, to)
  }

  /** `std::find_if(...)` / `next((m for m in moves if ...), None)`. */
  function FindMove(moves: seq<Move>, from: int, to: int): (r: Option<Move>)
    ensures r.None? <==> forall m :: m in moves ==> !Matches(m, from, to)
    ensures r.Some? ==> r.value in moves && Matches(r.value, from, to)
  {
    var i := FirstMatch(moves, from, to);
    if i < |moves| then Some(moves[i]) else None
  }

  /**
   * The move as the front ends commit it: a promotion always becomes a
   * queen, and nothing else about the move changes.
   */
  function Committed(m: Move): (r: Move)
    ensures r.isPromotion == m.isPromotion && r == m.(promotionPiece := r.promotionPiece)
    ensures r.isPromotion ==> r.promotionPiece == QUEEN
    ensures !m.isPromotion ==> r == m
  {
    if m.isPromotion then m.(promotionPiece := QUEEN) else m
  }

  /** The moves leaving one square, in generation order (`remove_if` / the list comprehension). */
  function MovesFrom(moves: seq<Move>, square: int): (r: seq<Move>)
    ensures |r| <= |moves|
    ensures forall m :: m in r <==> m in moves && m.fromSquare == square
  {
    if moves == [] then []
    else (if moves[0].fromSquare == square then [moves[0]] else []) + MovesFrom(moves[1..], square)
  }

  /** The destination squares of a list of moves, in order. */
  function Destinations(moves: seq<Move>): (r: seq<int>)
    ensures |r| == |moves| && forall i :: 0 <= i < |moves| ==> r[i] == moves[i].toSquare
  {
    if moves == [] then [] else [moves[0].toSquare] + Destinations(moves[1..])
  }

  /**
   * A destination is offered for a square exactly when a move between the
   * two squares can be committed: what a board highlights is what it accepts.
   */
  lemma OfferedIffFound(moves: seq<Move>, from: int, to: int)
    ensures to in Destinations(MovesFrom(moves, from)) <==> FindMove(moves, from, to).Some?
  {
    var ds := Destinations(MovesFrom(moves, from));
    if to in ds {
      var i :| 0 <= i < |ds| && ds[i] == to;
      assert MovesFrom(moves, from)[i] in MovesFrom(moves, from);
    }
    if FindMove(moves, from, to).Some? {
      var m := FindMove(moves, from, to).value;
      var fs := MovesFrom(moves, from);
      var k :| 0 <= k < |fs| && fs[k] == m;
      assert ds[k] == to;
    }
  }

  /** `find_if` looks at the first move, then at the rest. */
  lemma FindMoveStep(moves: seq<Move>, from: int, to: int)
    requires moves != []
    ensures FindMove(moves, from, to) ==
      if Matches(moves[0], from, to) then Some(moves[0]) else FindMove(moves[1..], from, to)
  {
    if !Matches(moves[0], from, to) {
      assert FirstMatch(moves, from, to) == 1 + FirstMatch(moves[1..], from, to);
    }
  }

  /** Looking the move up among the moves of its own square finds the same move. */
  lemma {:induction false} FindInMovesFrom(moves: seq<Move>, from: int, to: int)
    ensures FindMove(MovesFrom(moves, from), from, to) == FindMove(moves, from, to)
  {
    if moves != [] {
      var tail := moves[1..];
      var rest, fs := MovesFrom(tail, from), MovesFrom(moves, from);
      FindInMovesFrom(tail, from, to);
      FindMoveStep(moves, from, to);
      if moves[0].fromSquare == from {
        assert fs == [moves[0]] + rest;
        assert fs != [] && fs[0] == moves[0] && fs[1..] == rest;
        FindMoveStep(fs, from, to);
      } else {
        assert fs == [] + rest;
        assert fs == rest;
      }
    }
  }

  /** `isCheckMate`: a side in check with no move. */
  predicate CheckMate<P>(e: Engine<P>, p: P)
  {
    (e.inCheck(p, BLACK) && e.generate(p, BLACK) == []) || (e.inCheck(p, WHITE) && e.generate(p, WHITE) == [])
  }

  /** `isStaleMate`: a side not in check with no move. */
  predicate StaleMate<P>(e: Engine<P>, p: P)
  {
    (!e.inCheck(p, BLACK) && e.generate(p, BLACK) == []) || (!e.inCheck(p, WHITE) && e.generate(p, WHITE) == [])
  }

  /** Whenever one side has no move, the position is checkmate or stalemate, and while both sides can move it is neither. */
  lemma MateOrStaleMate<P>(e: Engine<P>, p: P)
    ensures CheckMate(e, p) || StaleMate(e, p) <==> e.generate(p, WHITE) == [] || e.generate(p, BLACK) == []
  {
  }
}
