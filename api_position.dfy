// The api's Position class (api/include/board/position.h:19-22,
// api/src/board/position.cpp): twelve piece boards, the castling byte and the
// en passant square, updated in place by makeMove and undoMove.  Each method
// is proved against the value-level functions of Boards, MoveRules, Zobrist
// and Rendering, where the properties of those functions are proved.

module ApiPosition {
  import opened Bitboards
  import opened Pieces
  import opened SquareSets
  import opened Boards
  import opened Moves
  import opened MoveRules
  import opened Zobrist
  import opened Rendering

  class Position {
    var whitePawns: set<Square>
    var whiteKnights: set<Square>
    var whiteBishops: set<Square>
    var whiteRooks: set<Square>
    var whiteQueens: set<Square>
    var whiteKing: set<Square>
    var blackPawns: set<Square>
    var blackKnights: set<Square>
    var blackBishops: set<Square>
    var blackRooks: set<Square>
    var blackQueens: set<Square>
    var blackKing: set<Square>
    var castlingRights: bv8
    var enPassantSquare: int

    /** The fields as a Boards.Board value. */
    function Snapshot(): Board
      reads this
    {
      Board(Side(whitePawns, whiteKnights, whiteBishops, whiteRooks, whiteQueens, whiteKing),
            Side(blackPawns, blackKnights, blackBishops, blackRooks, blackQueens, blackKing),
            castlingRights, enPassantSquare)
    }

    /** The default constructor: the start position, no castling bits, no en passant square. */
    constructor ()
      ensures Snapshot() == StartBoard(0, -1)
    {
      var pawns: set<Square> := {};
      var i := 8;
      while i < 16
        invariant 8 <= i <= 16 && pawns == Range(8, i)
      {
        RangeExtend(8, i);
        pawns := pawns + {i};
        i := i + 1;
      }
      whitePawns := pawns;
      whiteRooks := {0, 7};
      whiteKnights := {1, 6};
      whiteBishops := {2, 5};
      whiteQueens := {3};
      whiteKing := {4};
      pawns := {};
      i := 48;
      while i < 56
        invariant 48 <= i <= 56 && pawns == Range(48, i)
      {
        RangeExtend(48, i);
        pawns := pawns + {i};
        i := i + 1;
      }
      blackPawns := pawns;
      blackRooks := {56, 63};
      blackKnights := {57, 62};
      blackBishops := {58, 61};
      blackQueens := {59};
      blackKing := {60};
      castlingRights, enPassantSquare := 0, -1;
    }

    /** The copy constructor. */
    constructor Copy(other: Position)
      ensures Snapshot() == other.Snapshot()
    {
      whitePawns, whiteKnights, whiteBishops := other.whitePawns, other.whiteKnights, other.whiteBishops;
      whiteRooks, whiteQueens, whiteKing := other.whiteRooks, other.whiteQueens, other.whiteKing;
      blackPawns, blackKnights, blackBishops := other.blackPawns, other.blackKnights, other.blackBishops;
      blackRooks, blackQueens, blackKing := other.blackRooks, other.blackQueens, other.blackKing;
      castlingRights, enPassantSquare := other.castlingRights, other.enPassantSquare;
    }

    /** The copy-and-move constructor: a copy of `other` with the move made on it. */
    constructor AfterMove(other: Position, move: Move)
      requires MakeDefined(move)
      ensures Snapshot() == MadeMove(other.Snapshot(), move)
    {
      whitePawns, whiteKnights, whiteBishops := other.whitePawns, other.whiteKnights, other.whiteBishops;
      whiteRooks, whiteQueens, whiteKing := other.whiteRooks, other.whiteQueens, other.whiteKing;
      blackPawns, blackKnights, blackBishops := other.blackPawns, other.blackKnights, other.blackBishops;
      blackRooks, blackQueens, blackKing := other.blackRooks, other.blackQueens, other.blackKing;
      castlingRights, enPassantSquare := other.castlingRights, other.enPassantSquare;
      new;
      MakeMove(move);
    }

    /** `getWhitePieces`: the squares some white board holds. */
    function GetWhitePieces(): (r: set<Square>)
      reads this
      ensures forall s :: s in r <==> FirstHolding(Snapshot().white, s).Some?
    {
      whitePawns + whiteKnights + whiteBishops + whiteRooks + whiteQueens + whiteKing
    }

    /** `getBlackPieces`: the squares some black board holds. */
    function GetBlackPieces(): (r: set<Square>)
      reads this
      ensures forall s :: s in r <==> FirstHolding(Snapshot().black, s).Some?
    {
      blackPawns + blackKnights + blackBishops + blackRooks + blackQueens + blackKing
    }

    /** `getOccupiedSquares`: the squares that are not empty. */
    function GetOccupiedSquares(): (r: set<Square>)
      reads this
      ensures forall s :: s in r <==> !EmptyAt(Snapshot(), s)
    {
      GetWhitePieces() + GetBlackPieces()
    }

    /** `getEmptySquares`: `~` of the occupancy, exactly the empty squares. */
    function GetEmptySquares(): (r: set<Square>)
      reads this
      ensures forall s: Square :: s in r <==> EmptyAt(Snapshot(), s)
    {
      Range(0, 64) - GetOccupiedSquares()
    }

    // -------------------------------------------------------------------
    // The `if ... else if` chains of makeMove and undoMove, one per colour
    // -------------------------------------------------------------------

    /** The white capture chain: the first white board holding s loses it. */
    method CaptureWhite(s: Square)
      modifies this
      ensures Snapshot() == old(Snapshot()).(white := ClearFirst(old(Snapshot()).white, s))
    {
      if s in whitePawns { whitePawns := whitePawns - {s}; }
      else if s in whiteKnights { whiteKnights := whiteKnights - {s}; }
      else if s in whiteBishops { whiteBishops := whiteBishops - {s}; }
      else if s in whiteRooks { whiteRooks := whiteRooks - {s}; }
      else if s in whiteQueens { whiteQueens := whiteQueens - {s}; }
      else if s in whiteKing { whiteKing := whiteKing - {s}; }
    }

    /** The black capture chain. */
    method CaptureBlack(s: Square)
      modifies this
      ensures Snapshot() == old(Snapshot()).(black := ClearFirst(old(Snapshot()).black, s))
    {
      if s in blackPawns { blackPawns := blackPawns - {s}; }
      else if s in blackKnights { blackKnights := blackKnights - {s}; }
      else if s in blackBishops { blackBishops := blackBishops - {s}; }
      else if s in blackRooks { blackRooks := blackRooks - {s}; }
      else if s in blackQueens { blackQueens := blackQueens - {s}; }
      else if s in blackKing { blackKing := blackKing - {s}; }
    }

    /** The white relocation chain: the first white board holding `from` moves it to `to`. */
    method RelocateWhite(from: Square, to: Square)
      modifies this
      ensures Snapshot() == old(Snapshot()).(white := MoveFirst(old(Snapshot()).white, from, to))
    {
      if from in whitePawns { whitePawns := whitePawns - {from} + {to}; }
      else if from in whiteKnights { whiteKnights := whiteKnights - {from} + {to}; }
      else if from in whiteBishops { whiteBishops := whiteBishops - {from} + {to}; }
      else if from in whiteRooks { whiteRooks := whiteRooks - {from} + {to}; }
      else if from in whiteQueens { whiteQueens := whiteQueens - {from} + {to}; }
      else if from in whiteKing { whiteKing := whiteKing - {from} + {to}; }
    }

    /** The black relocation chain. */
    method RelocateBlack(from: Square, to: Square)
      modifies this
      ensures Snapshot() == old(Snapshot()).(black := MoveFirst(old(Snapshot()).black, from, to))
    {
      if from in blackPawns { blackPawns := blackPawns - {from} + {to}; }
      else if from in blackKnights { blackKnights := blackKnights - {from} + {to}; }
      else if from in blackBishops { blackBishops := blackBishops - {from} + {to}; }
      else if from in blackRooks { blackRooks := blackRooks - {from} + {to}; }
      else if from in blackQueens { blackQueens := blackQueens - {from} + {to}; }
      else if from in blackKing { blackKing := blackKing - {from} + {to}; }
    }

    /** undoMove's white restore chain: s is or-ed into the first white board already holding it. */
    method RestoreWhite(s: Square)
      modifies this
      ensures Snapshot() == old(Snapshot()).(white := OrIntoFirst(old(Snapshot()).white, s))
    {
      if s in whitePawns { whitePawns := whitePawns + {s}; }
      else if s in whiteKnights { whiteKnights := whiteKnights + {s}; }
      else if s in whiteBishops { whiteBishops := whiteBishops + {s}; }
      else if s in whiteRooks { whiteRooks := whiteRooks + {s}; }
      else if s in whiteQueens { whiteQueens := whiteQueens + {s}; }
      else if s in whiteKing { whiteKing := whiteKing + {s}; }
    }

    /** undoMove's black restore chain. */
    method RestoreBlack(s: Square)
      modifies this
      ensures Snapshot() == old(Snapshot()).(black := OrIntoFirst(old(Snapshot()).black, s))
    {
      if s in blackPawns { blackPawns := blackPawns + {s}; }
      else if s in blackKnights { blackKnights := blackKnights + {s}; }
      else if s in blackBishops { blackBishops := blackBishops + {s}; }
      else if s in blackRooks { blackRooks := blackRooks + {s}; }
      else if s in blackQueens { blackQueens := blackQueens + {s}; }
      else if s in blackKing { blackKing := blackKing + {s}; }
    }

    // -------------------------------------------------------------------
    // makeMove and undoMove
    // -------------------------------------------------------------------

    /** makeMove's "handle captures" block. */
    method CaptureStep(move: Move)
      modifies this
      requires OnBoard(move)
      ensures Snapshot() == if move.isCapture then Captured(old(Snapshot()), move.color, move.toSquare) else old(Snapshot())
    {
      if move.isCapture {
        if move.color == WHITE { CaptureBlack(move.toSquare); } else { CaptureWhite(move.toSquare); }
      }
    }

    /** makeMove's relocation block; undoMove's first block is the same with the squares swapped. */
    method RelocationStep(color: Color, from: Square, to: Square)
      modifies this
      ensures Snapshot() == Relocated(old(Snapshot()), color, from, to)
    {
      if color == WHITE { RelocateWhite(from, to); } else { RelocateBlack(from, to); }
    }

    /** makeMove's castling block: the rook jumps from its home square. */
    method CastlingStep(move: Move)
      modifies this
      ensures Snapshot() == if move.isCastling then Castled(old(Snapshot()), move.color, move.castlingType == KINGSIDE) else old(Snapshot())
    {
      if move.isCastling {
        if move.castlingType == KINGSIDE {
          if move.color == WHITE { whiteRooks := whiteRooks - {7}; whiteRooks := whiteRooks + {5}; }
          else { blackRooks := blackRooks - {63}; blackRooks := blackRooks + {61}; }
        } else {
          if move.color == WHITE { whiteRooks := whiteRooks - {0}; whiteRooks := whiteRooks + {3}; }
          else { blackRooks := blackRooks - {56}; blackRooks := blackRooks + {59}; }
        }
      }
    }

    /** makeMove's en passant block: a move onto the recorded square removes the pawn behind it. */
    method EnPassantStep(move: Move)
      modifies this
      requires MakeDefined(move)
      ensures Snapshot() == if move.toSquare == move.prevEnPassantSquare then EnPassanted(old(Snapshot()), move.color, EpVictim(move)) else old(Snapshot())
    {
      if move.toSquare == move.prevEnPassantSquare {
        if move.color == WHITE { blackPawns := blackPawns - {move.toSquare - 8}; }
        else { whitePawns := whitePawns - {move.toSquare + 8}; }
      }
    }

    /** makeMove's promotion block. */
    method PromotionStep(move: Move)
      modifies this
      requires OnBoard(move)
      ensures Snapshot() == if move.isPromotion then Promoted(old(Snapshot()), move.color, move.toSquare) else old(Snapshot())
    {
      if move.isPromotion {
        if move.color == WHITE { whiteQueens := whiteQueens + {move.toSquare}; whitePawns := whitePawns - {move.toSquare}; }
        else { blackQueens := blackQueens + {move.toSquare}; blackPawns := blackPawns - {move.toSquare}; }
      }
    }

    /** `makeMove`: the five blocks of MoveRules.MadeMove, applied to the fields. */
    method MakeMove(move: Move)
      modifies this
      requires MakeDefined(move)
      ensures Snapshot() == MadeMove(old(Snapshot()), move)
    {
      CaptureStep(move);
      RelocationStep(move.color, move.fromSquare, move.toSquare);
      CastlingStep(move);
      EnPassantStep(move);
      PromotionStep(move);
    }

    /** undoMove's "restore captured piece" block. */
    method RestoreStep(move: Move)
      modifies this
      requires OnBoard(move)
      ensures Snapshot() == if move.isCapture then Restored(old(Snapshot()), move.color, move.toSquare) else old(Snapshot())
    {
      if move.isCapture {
        if move.color == WHITE { RestoreBlack(move.toSquare); } else { RestoreWhite(move.toSquare); }
      }
    }

    /** undoMove's castling block: the rook goes home. */
    method UncastlingStep(move: Move)
      modifies this
      ensures Snapshot() == if move.isCastling then Uncastled(old(Snapshot()), move.color, move.castlingType == KINGSIDE) else old(Snapshot())
    {
      if move.isCastling {
        if move.castlingType == KINGSIDE {
          if move.color == WHITE { whiteRooks := whiteRooks + {7}; whiteRooks := whiteRooks - {5}; }
          else { blackRooks := blackRooks + {63}; blackRooks := blackRooks - {61}; }
        } else {
          if move.color == WHITE { whiteRooks := whiteRooks + {0}; whiteRooks := whiteRooks - {3}; }
          else { blackRooks := blackRooks + {56}; blackRooks := blackRooks - {59}; }
        }
      }
    }

    /** undoMove's en passant block, tested on the from-square. */
    method UnEnPassantStep(move: Move)
      modifies this
      requires UndoDefined(move)
      ensures Snapshot() == if move.fromSquare == move.prevEnPassantSquare then UnEnPassant(old(Snapshot()), move.color, EpVictim(move)) else old(Snapshot())
    {
      if move.fromSquare == move.prevEnPassantSquare {
        if move.color == WHITE { blackPawns := blackPawns + {move.toSquare - 8}; }
        else { whitePawns := whitePawns + {move.toSquare + 8}; }
      }
    }

    /** undoMove's promotion block: the queen goes, a pawn returns to the from-square. */
    method UnpromotionStep(move: Move)
      modifies this
      requires OnBoard(move)
      ensures Snapshot() == if move.isPromotion then Unpromoted(old(Snapshot()), move.color, move.fromSquare, move.toSquare) else old(Snapshot())
    {
      if move.isPromotion {
        if move.color == WHITE { whiteQueens := whiteQueens - {move.toSquare}; whitePawns := whitePawns + {move.fromSquare}; }
        else { blackQueens := blackQueens - {move.toSquare}; blackPawns := blackPawns + {move.fromSquare}; }
      }
    }

    /** `undoMove`: the five blocks of MoveRules.UndoneMove, applied to the fields. */
    method UndoMove(move: Move)
      modifies this
      requires UndoDefined(move)
      ensures Snapshot() == UndoneMove(old(Snapshot()), move)
    {
      RelocationStep(move.color, move.toSquare, move.fromSquare);
      RestoreStep(move);
      UncastlingStep(move);
      UnEnPassantStep(move);
      UnpromotionStep(move);
    }

    // -------------------------------------------------------------------
    // computeHash, displayPosition, getFen
    // -------------------------------------------------------------------

    /** `computeHash`: HashBoard over the position's fields. */
    method ComputeHash(z: Tables) returns (hash: nat)
      requires WellShaped(z) && Hashable(Snapshot())
      ensures hash == BoardHash(Snapshot(), z)
    {
      hash := HashBoard(Snapshot(), z);
    }

    /** One rank of `displayPosition`: the glyph and a space for each file a to h. */
    method DisplayRank(returnable: string, rank: nat) returns (out: string)
      requires rank < 8
      ensures out == returnable + RankCells(Snapshot(), ApiStyle(), rank, 8)
    {
      var b := Snapshot();
      out := returnable;
      var file := 0;
      while file < 8
        invariant 0 <= file <= 8
        invariant out == returnable + RankCells(b, ApiStyle(), rank, file)
      {
        var square := rank * 8 + file;
        out := out + [Glyph(b, ApiStyle(), square), ' '];
        file := file + 1;
      }
    }

    /** `displayPosition`: ranks 8 to 1, a glyph and a space per square, a newline per rank. */
    method DisplayPosition() returns (returnable: string)
      ensures returnable == Diagram(Snapshot(), ApiStyle())
    {
      ghost var b, st := Snapshot(), ApiStyle();
      returnable := "";
      var rank := 7;
      while rank >= 0
        invariant -1 <= rank <= 7
        invariant returnable == DiagramRanks(b, st, rank + 1)
      {
        returnable := DisplayRank(returnable, rank);
        returnable := returnable + "\n";
        rank := rank - 1;
      }
      DiagramFrom(b, st, rank + 1);
    }

    /**
     * One rank of `getFen`'s board field: each run of empty squares becomes
     * its length as a digit, each piece its letter.
     */
    method FenRankText(fen: string, rank: nat) returns (out: string)
      requires rank < 8
      ensures out == fen + FenRank(Snapshot(), rank)
    {
      var b := Snapshot();
      out := fen;
      var emptyCount := 0;
      var file := 0;
      while file < 8
        invariant 0 <= file <= 8
        invariant out == fen + FenScan(b, rank, file).text
        invariant emptyCount == FenScan(b, rank, file).empties
      {
        var square := rank * 8 + file;
        var squareValue := SquareChar(b, square);
        if squareValue == '.' {
          emptyCount := emptyCount + 1;
        } else {
          if emptyCount > 0 {
            out := out + [Digit(emptyCount)];
            emptyCount := 0;
          }
          out := out + [squareValue];
        }
        file := file + 1;
      }
      if emptyCount > 0 {
        out := out + [Digit(emptyCount)];
      }
    }

    /**
     * `getFen`: the board field (ranks 8 to 1 separated by '/'), then the
     * side to move, the castling and en passant texts ('-' when empty) and
     * the two counters.  `colorToChar` is called by the source but defined
     * nowhere in it, so it is a parameter.
     */
    method GetFen(toMove: Color, halfmoveClock: int, fullmoveNumber: int, castling: string,
                  enPassantTarget: string, colorToChar: Color -> char) returns (fen: string)
      ensures fen == FenPlacement(Snapshot()) +
                     FenTail(colorToChar(toMove), castling, enPassantTarget, halfmoveClock, fullmoveNumber)
    {
      fen := "";
      var rank := 7;
      while rank >= 0
        invariant -1 <= rank <= 7
        invariant fen == FenRanks(Snapshot(), rank + 1)
      {
        fen := FenRankText(fen, rank);
        if rank > 0 {
          fen := fen + "/";
        }
        rank := rank - 1;
      }
      assert rank + 1 == 0;
      var fields := " " + [colorToChar(toMove)] + " " + (if castling == [] then "-" else castling) +
                    " " + (if enPassantTarget == [] then "-" else enPassantTarget) +
                    " " + IntText(halfmoveClock) + " " + IntText(fullmoveNumber);
      fen := fen + fields;
    }
  }
}
