// The JNI functions the Swing board calls
// (GUI/EngineInteraction/EngineInteraction_EngineInteraction.cpp): each
// acts on the engine's global current position.  Bridge holds that
// position; its methods are the native functions.

module JniBridge {
  import opened Options
  import opened Pieces
  import opened Moves
  import opened Frontend

  /** The side a `makeMove` call moves for. */
  function MoverColor(playerIsWhite: bool): (c: Color)
    ensures c == WHITE <==> playerIsWhite
  {
    if playerIsWhite then WHITE else BLACK
  }

  /** The side `botMove` plays: Black unless told the bot is not Black. */
  function BotColor(botIsBlack: bool): (c: Color)
    ensures c == BLACK <==> botIsBlack
  {
    if botIsBlack then BLACK else WHITE
  }

  /** The position after `makeMove`, or None when no generated move joins the squares. */
  function MoveResult<P>(e: Engine<P>, p: P, from: int, to: int, playerIsWhite: bool): (r: Option<P>)
    ensures r.None? <==> forall m :: m in e.generate(p, MoverColor(playerIsWhite)) ==> !Matches(m, from, to)
    ensures r.Some? ==> exists m :: m in e.generate(p, MoverColor(playerIsWhite)) && Matches(m, from, to) &&
                                    r.value == e.play(p, Committed(m))
  {
    match FindMove(e.generate(p, MoverColor(playerIsWhite)), from, to)
    case None => None
    case Some(m) => Some(e.play(p, Committed(m)))
  }

  class Bridge<!P> {
    const engine: Engine<P>
    /** The global `currPosition`. */
    var position: P

    constructor (engine: Engine<P>, start: P)
      ensures this.engine == engine && position == start
    {
      this.engine := engine;
      position := start;
    }

    /** `initGame`: the start position, after the engine's first move as White when the player is Black; always true. */
    method InitGame(playerIsWhite: bool) returns (ok: bool)
      modifies this
      ensures ok
      ensures playerIsWhite ==> position == engine.initial
      ensures !playerIsWhite ==> position == engine.play(engine.initial, engine.bestMove(engine.initial, WHITE))
    {
      position := engine.initial;
      if !playerIsWhite {
        position := engine.play(position, engine.bestMove(position, WHITE));
      }
      ok := true;
    }

    /** `makeMove`: true, and the move played, exactly when the mover has a generated move joining the squares. */
    method MakeMove(from: int, to: int, playerIsWhite: bool) returns (ok: bool)
      modifies this
      ensures ok <==> MoveResult(engine, old(position), from, to, playerIsWhite).Some?
      ensures ok ==> position == MoveResult(engine, old(position), from, to, playerIsWhite).value
      ensures !ok ==> position == old(position)
    {
      var color := if playerIsWhite then WHITE else BLACK;
      var legalMoves := engine.generate(position, color);
      match FindMove(legalMoves, from, to) {
        case None =>
          ok := false;
        case Some(m) =>
          var move := m;
          if move.isPromotion {
            move := move.(promotionPiece := QUEEN);
          }
          position := engine.play(position, move);
          ok := true;
      }
    }

    /** `fetchState`: the diagram as the engine draws it, spaces included. */
    function FetchState(playerIsWhite: bool): string
      reads this
    {
      engine.display(position)
    }

    /** `botMove`: the engine plays its best move for the bot's side; always true. */
    method BotMove(botIsBlack: bool) returns (ok: bool)
      modifies this
      ensures ok
      ensures position == engine.play(old(position), engine.bestMove(old(position), BotColor(botIsBlack)))
    {
      var botColor := BLACK;
      if !botIsBlack {
        botColor := WHITE;
      }
      position := engine.play(position, engine.bestMove(position, botColor));
      ok := true;
    }

    /** `isCheckMate`: some side is in check with no generated move. */
    predicate IsCheckMate()
      reads this
    {
      CheckMate(engine, position)
    }

    /** `isStaleMate`: some side is out of check with no generated move. */
    predicate IsStaleMate()
      reads this
    {
      StaleMate(engine, position)
    }
  }

  /**
   * The two status calls between them report every position where a side
   * has no move, and both can be true at once only when both sides are out
   * of moves.
   */
  lemma StatusCalls<P>(e: Engine<P>, p: P)
    ensures CheckMate(e, p) || StaleMate(e, p) <==> e.generate(p, WHITE) == [] || e.generate(p, BLACK) == []
    ensures CheckMate(e, p) && StaleMate(e, p) ==> e.generate(p, WHITE) == [] && e.generate(p, BLACK) == []
  {
  }

  /** A move `makeMove` accepts is a generated move of the mover's colour joining the squares, a promotion committed as a queen. */
  lemma MakeMovePlaysGenerated<P>(e: Engine<P>, p: P, from: int, to: int, playerIsWhite: bool)
    requires MoveResult(e, p, from, to, playerIsWhite).Some?
    ensures var m := FindMove(e.generate(p, MoverColor(playerIsWhite)), from, to).value;
      m in e.generate(p, MoverColor(playerIsWhite)) && m.fromSquare == from && m.toSquare == to &&
      MoveResult(e, p, from, to, playerIsWhite).value == e.play(p, Committed(m)) &&
      (m.isPromotion ==> Committed(m).promotionPiece == QUEEN)
  {
  }
}
