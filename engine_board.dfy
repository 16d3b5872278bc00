// The engine's board.cpp (chess_engine/src/board/board.cpp): makeMove and
// undoMove as free functions on a Position reference, followed by the
// recomputation of the stored composite boards, and the global
// `currPosition` with its two accessors.

module EngineBoard {
  import opened Bitboards
  import opened Pieces
  import opened Boards
  import opened Moves
  import opened MoveRules
  import opened EnginePosition

  // -------------------------------------------------------------------
  // The `if ... else if` chains, one per colour
  // -------------------------------------------------------------------

  /** The white capture chain: the first white board holding s loses it. */
  method CaptureWhite(pos: Position, s: Square)
    modifies pos
    ensures pos.Snapshot() == old(pos.Snapshot()).(white := ClearFirst(old(pos.Snapshot()).white, s))
    ensures pos.zobristKey == old(pos.zobristKey)
  {
    if s in pos.whitePawns { pos.whitePawns := pos.whitePawns - {s}; }
    else if s in pos.whiteKnights { pos.whiteKnights := pos.whiteKnights - {s}; }
    else if s in pos.whiteBishops { pos.whiteBishops := pos.whiteBishops - {s}; }
    else if s in pos.whiteRooks { pos.whiteRooks := pos.whiteRooks - {s}; }
    else if s in pos.whiteQueens { pos.whiteQueens := pos.whiteQueens - {s}; }
    else if s in pos.whiteKing { pos.whiteKing := pos.whiteKing - {s}; }
  }

  /** The black capture chain. */
  method CaptureBlack(pos: Position, s: Square)
    modifies pos
    ensures pos.Snapshot() == old(pos.Snapshot()).(black := ClearFirst(old(pos.Snapshot()).black, s))
    ensures pos.zobristKey == old(pos.zobristKey)
  {
    if s in pos.blackPawns { pos.blackPawns := pos.blackPawns - {s}; }
    else if s in pos.blackKnights { pos.blackKnights := pos.blackKnights - {s}; }
    else if s in pos.blackBishops { pos.blackBishops := pos.blackBishops - {s}; }
    else if s in pos.blackRooks { pos.blackRooks := pos.blackRooks - {s}; }
    else if s in pos.blackQueens { pos.blackQueens := pos.blackQueens - {s}; }
    else if s in pos.blackKing { pos.blackKing := pos.blackKing - {s}; }
  }

  /** The white relocation chain: the first white board holding `from` moves it to `to`. */
  method RelocateWhite(pos: Position, from: Square, to: Square)
    modifies pos
    ensures pos.Snapshot() == old(pos.Snapshot()).(white := MoveFirst(old(pos.Snapshot()).white, from, to))
    ensures pos.zobristKey == old(pos.zobristKey)
  {
    if from in pos.whitePawns { pos.whitePawns := pos.whitePawns - {from} + {to}; }
    else if from in pos.whiteKnights { pos.whiteKnights := pos.whiteKnights - {from} + {to}; }
    else if from in pos.whiteBishops { pos.whiteBishops := pos.whiteBishops - {from} + {to}; }
    else if from in pos.whiteRooks { pos.whiteRooks := pos.whiteRooks - {from} + {to}; }
    else if from in pos.whiteQueens { pos.whiteQueens := pos.whiteQueens - {from} + {to}; }
    else if from in pos.whiteKing { pos.whiteKing := pos.whiteKing - {from} + {to}; }
  }

  /** The black relocation chain. */
  method RelocateBlack(pos: Position, from: Square, to: Square)
    modifies pos
    ensures pos.Snapshot() == old(pos.Snapshot()).(black := MoveFirst(old(pos.Snapshot()).black, from, to))
    ensures pos.zobristKey == old(pos.zobristKey)
  {
    if from in pos.blackPawns { pos.blackPawns := pos.blackPawns - {from} + {to}; }
    else if from in pos.blackKnights { pos.blackKnights := pos.blackKnights - {from} + {to}; }
    else if from in pos.blackBishops { pos.blackBishops := pos.blackBishops - {from} + {to}; }
    else if from in pos.blackRooks { pos.blackRooks := pos.blackRooks - {from} + {to}; }
    else if from in pos.blackQueens { pos.blackQueens := pos.blackQueens - {from} + {to}; }
    else if from in pos.blackKing { pos.blackKing := pos.blackKing - {from} + {to}; }
  }

  /** undoMove's white restore chain: s is or-ed into the first white board already holding it. */
  method RestoreWhite(pos: Position, s: Square)
    modifies pos
    ensures pos.Snapshot() == old(pos.Snapshot()).(white := OrIntoFirst(old(pos.Snapshot()).white, s))
    ensures pos.zobristKey == old(pos.zobristKey)
  {
    if s in pos.whitePawns { pos.whitePawns := pos.whitePawns + {s}; }
    else if s in pos.whiteKnights { pos.whiteKnights := pos.whiteKnights + {s}; }
    else if s in pos.whiteBishops { pos.whiteBishops := pos.whiteBishops + {s}; }
    else if s in pos.whiteRooks { pos.whiteRooks := pos.whiteRooks + {s}; }
    else if s in pos.whiteQueens { pos.whiteQueens := pos.whiteQueens + {s}; }
    else if s in pos.whiteKing { pos.whiteKing := pos.whiteKing + {s}; }
  }

  /** undoMove's black restore chain. */
  method RestoreBlack(pos: Position, s: Square)
    modifies pos
    ensures pos.Snapshot() == old(pos.Snapshot()).(black := OrIntoFirst(old(pos.Snapshot()).black, s))
    ensures pos.zobristKey == old(pos.zobristKey)
  {
    if s in pos.blackPawns { pos.blackPawns := pos.blackPawns + {s}; }
    else if s in pos.blackKnights { pos.blackKnights := pos.blackKnights + {s}; }
    else if s in pos.blackBishops { pos.blackBishops := pos.blackBishops + {s}; }
    else if s in pos.blackRooks { pos.blackRooks := pos.blackRooks + {s}; }
    else if s in pos.blackQueens { pos.blackQueens := pos.blackQueens + {s}; }
    else if s in pos.blackKing { pos.blackKing := pos.blackKing + {s}; }
  }

  // -------------------------------------------------------------------
  // makeMove and undoMove
  // -------------------------------------------------------------------

  /** makeMove's "handle captures" block. */
  method CaptureStep(pos: Position, move: Move)
    modifies pos
    requires OnBoard(move)
    ensures pos.Snapshot() == if move.isCapture then Captured(old(pos.Snapshot()), move.color, move.toSquare) else old(pos.Snapshot())
    ensures pos.zobristKey == old(pos.zobristKey)
  {
    if move.isCapture {
      if move.color == WHITE { CaptureBlack(pos, move.toSquare); } else { CaptureWhite(pos, move.toSquare); }
    }
  }

  /** makeMove's relocation block; undoMove's first block is the same with the squares swapped. */
  method RelocationStep(pos: Position, color: Color, from: Square, to: Square)
    modifies pos
    ensures pos.Snapshot() == Relocated(old(pos.Snapshot()), color, from, to)
    ensures pos.zobristKey == old(pos.zobristKey)
  {
    if color == WHITE { RelocateWhite(pos, from, to); } else { RelocateBlack(pos, from, to); }
  }

  /** makeMove's castling block: the rook jumps from its home square. */
  method CastlingStep(pos: Position, move: Move)
    modifies pos
    ensures pos.Snapshot() == if move.isCastling then Castled(old(pos.Snapshot()), move.color, move.castlingType == KINGSIDE) else old(pos.Snapshot())
    ensures pos.zobristKey == old(pos.zobristKey)
  {
    if move.isCastling {
      if move.castlingType == KINGSIDE {
        if move.color == WHITE { pos.whiteRooks := pos.whiteRooks - {7}; pos.whiteRooks := pos.whiteRooks + {5}; }
        else { pos.blackRooks := pos.blackRooks - {63}; pos.blackRooks := pos.blackRooks + {61}; }
      } else {
        if move.color == WHITE { pos.whiteRooks := pos.whiteRooks - {0}; pos.whiteRooks := pos.whiteRooks + {3}; }
        else { pos.blackRooks := pos.blackRooks - {56}; pos.blackRooks := pos.blackRooks + {59}; }
      }
    }
  }

  /** makeMove's en passant block: a move onto the recorded square removes the pawn behind it. */
  method EnPassantStep(pos: Position, move: Move)
    modifies pos
    requires MakeDefined(move)
    ensures pos.Snapshot() == if move.toSquare == move.prevEnPassantSquare then EnPassanted(old(pos.Snapshot()), move.color, EpVictim(move)) else old(pos.Snapshot())
    ensures pos.zobristKey == old(pos.zobristKey)
  {
    if move.toSquare == move.prevEnPassantSquare {
      if move.color == WHITE { pos.blackPawns := pos.blackPawns - {move.toSquare - 8}; }
      else { pos.whitePawns := pos.whitePawns - {move.toSquare + 8}; }
    }
  }

  /** makeMove's promotion block. */
  method PromotionStep(pos: Position, move: Move)
    modifies pos
    requires OnBoard(move)
    ensures pos.Snapshot() == if move.isPromotion then Promoted(old(pos.Snapshot()), move.color, move.toSquare) else old(pos.Snapshot())
    ensures pos.zobristKey == old(pos.zobristKey)
  {
    if move.isPromotion {
      if move.color == WHITE { pos.whiteQueens := pos.whiteQueens + {move.toSquare}; pos.whitePawns := pos.whitePawns - {move.toSquare}; }
      else { pos.blackQueens := pos.blackQueens + {move.toSquare}; pos.blackPawns := pos.blackPawns - {move.toSquare}; }
    }
  }

  /**
   * `makeMove(pos, move)`: the five blocks of MoveRules.MadeMove applied to
   * the piece boards, then the stored composites recomputed.
   */
  method MakeMove(pos: Position, move: Move)
    modifies pos
    requires MakeDefined(move)
    ensures pos.Snapshot() == MadeMove(old(pos.Snapshot()), move)
    ensures pos.CompositesAgree()
    ensures pos.zobristKey == old(pos.zobristKey)
  {
    CaptureStep(pos, move);
    RelocationStep(pos, move.color, move.fromSquare, move.toSquare);
    CastlingStep(pos, move);
    EnPassantStep(pos, move);
    PromotionStep(pos, move);
    pos.UpdateComposites();
  }

  /** undoMove's "restore captured piece" block. */
  method RestoreStep(pos: Position, move: Move)
    modifies pos
    requires OnBoard(move)
    ensures pos.Snapshot() == if move.isCapture then Restored(old(pos.Snapshot()), move.color, move.toSquare) else old(pos.Snapshot())
    ensures pos.zobristKey == old(pos.zobristKey)
  {
    if move.isCapture {
      if move.color == WHITE { RestoreBlack(pos, move.toSquare); } else { RestoreWhite(pos, move.toSquare); }
    }
  }

  /** undoMove's castling block: the rook goes home. */
  method UncastlingStep(pos: Position, move: Move)
    modifies pos
    ensures pos.Snapshot() == if move.isCastling then Uncastled(old(pos.Snapshot()), move.color, move.castlingType == KINGSIDE) else old(pos.Snapshot())
    ensures pos.zobristKey == old(pos.zobristKey)
  {
    if move.isCastling {
      if move.castlingType == KINGSIDE {
        if move.color == WHITE { pos.whiteRooks := pos.whiteRooks + {7}; pos.whiteRooks := pos.whiteRooks - {5}; }
        else { pos.blackRooks := pos.blackRooks + {63}; pos.blackRooks := pos.blackRooks - {61}; }
      } else {
        if move.color == WHITE { pos.whiteRooks := pos.whiteRooks + {0}; pos.whiteRooks := pos.whiteRooks - {3}; }
        else { pos.blackRooks := pos.blackRooks + {56}; pos.blackRooks := pos.blackRooks - {59}; }
      }
    }
  }

  /** undoMove's en passant block, tested on the from-square. */
  method UnEnPassantStep(pos: Position, move: Move)
    modifies pos
    requires UndoDefined(move)
    ensures pos.Snapshot() == if move.fromSquare == move.prevEnPassantSquare then UnEnPassant(old(pos.Snapshot()), move.color, EpVictim(move)) else old(pos.Snapshot())
    ensures pos.zobristKey == old(pos.zobristKey)
  {
    if move.fromSquare == move.prevEnPassantSquare {
      if move.color == WHITE { pos.blackPawns := pos.blackPawns + {move.toSquare - 8}; }
      else { pos.whitePawns := pos.whitePawns + {move.toSquare + 8}; }
    }
  }

  /** undoMove's promotion block: the queen goes, a pawn returns to the from-square. */
  method UnpromotionStep(pos: Position, move: Move)
    modifies pos
    requires OnBoard(move)
    ensures pos.Snapshot() == if move.isPromotion then Unpromoted(old(pos.Snapshot()), move.color, move.fromSquare, move.toSquare) else old(pos.Snapshot())
    ensures pos.zobristKey == old(pos.zobristKey)
  {
    if move.isPromotion {
      if move.color == WHITE { pos.whiteQueens := pos.whiteQueens - {move.toSquare}; pos.whitePawns := pos.whitePawns + {move.fromSquare}; }
      else { pos.blackQueens := pos.blackQueens - {move.toSquare}; pos.blackPawns := pos.blackPawns + {move.fromSquare}; }
    }
  }

  /**
   * `undoMove(pos, move)`: the five blocks of MoveRules.UndoneMove, then the
   * composites recomputed.
   */
  method UndoMove(pos: Position, move: Move)
    modifies pos
    requires UndoDefined(move)
    ensures pos.Snapshot() == UndoneMove(old(pos.Snapshot()), move)
    ensures pos.CompositesAgree()
    ensures pos.zobristKey == old(pos.zobristKey)
  {
    RelocationStep(pos, move.color, move.toSquare, move.fromSquare);
    RestoreStep(pos, move);
    UncastlingStep(pos, move);
    UnEnPassantStep(pos, move);
    UnpromotionStep(pos, move);
    pos.UpdateComposites();
  }

  // -------------------------------------------------------------------
  // The global position
  // -------------------------------------------------------------------

  /** Holder of the global `Position currPosition;` of board.cpp. */
  class Globals {
    var currPosition: Position

    /** Before `initializeBoard` runs, the global holds the all-zero struct. */
    constructor ()
      ensures fresh(currPosition)
      ensures currPosition.Snapshot() == Board(Side({}, {}, {}, {}, {}, {}), Side({}, {}, {}, {}, {}, {}), 0, 0)
      ensures currPosition.emptySquares == {} && currPosition.zobristKey == 0
    {
      currPosition := new Position.Zeroed();
    }

    /** `initializeBoard`: the global position is reset to the start layout. */
    method InitializeBoard()
      modifies currPosition
      ensures currPosition.Snapshot() == StartBoard(old(currPosition.castlingRights), old(currPosition.enPassantSquare))
      ensures currPosition.CompositesAgree()
      ensures currPosition.zobristKey == old(currPosition.zobristKey)
    {
      currPosition.InitializePosition();
    }

    /** `getBoard`: returned by value, so the caller receives a copy. */
    method GetBoard() returns (r: Position)
      ensures fresh(r) && r.Snapshot() == currPosition.Snapshot()
      ensures r.whitePieces == currPosition.whitePieces && r.blackPieces == currPosition.blackPieces
      ensures r.occupiedSquares == currPosition.occupiedSquares && r.emptySquares == currPosition.emptySquares
      ensures r.zobristKey == currPosition.zobristKey
    {
      r := new Position.Copy(currPosition);
    }
  }
}
