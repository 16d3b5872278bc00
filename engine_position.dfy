// The engine's Position struct (chess_engine/include/board/position.h:11-34,
// chess_engine/src/board/position.cpp): the twelve piece boards of the api
// class plus four composite boards that are stored rather than computed,
// the castling byte, the en passant square and a Zobrist key field.

module EnginePosition {
  import opened Bitboards
  import opened Pieces
  import opened SquareSets
  import opened Boards
  import opened Zobrist
  import opened Rendering

  class Position {
    var whitePawns: set<Square>
    var whiteKnights: set<Square>
    var whiteBishops: set<Square>
    var whiteRooks: set<Square>
    var whiteQueens: set<Square>
    var whiteKing: set<Square>
    var blackPawns: set<Square>
    var blackKnights: set<Square>
    var blackBishops: set<Square>
    var blackRooks: set<Square>
    var blackQueens: set<Square>
    var blackKing: set<Square>
    var whitePieces: set<Square>
    var blackPieces: set<Square>
    var occupiedSquares: set<Square>
    var emptySquares: set<Square>
    var castlingRights: bv8
    var enPassantSquare: int
    /** A 64-bit key, as an unsigned value below 2^64. */
    var zobristKey: nat

    /** The piece boards, castling byte and en passant square as a Boards.Board value. */
    function Snapshot(): Board
      reads this
    {
      Board(Side(whitePawns, whiteKnights, whiteBishops, whiteRooks, whiteQueens, whiteKing),
            Side(blackPawns, blackKnights, blackBishops, blackRooks, blackQueens, blackKing),
            castlingRights, enPassantSquare)
    }

    /** The four stored composites are the unions and the complement they are meant to cache. */
    predicate CompositesAgree()
      reads this
    {
      whitePieces == PiecesOf(Snapshot().white) && blackPieces == PiecesOf(Snapshot().black) &&
      occupiedSquares == Occupied(Snapshot()) && emptySquares == EmptySquares(Snapshot())
    }

    /**
     * `Position newPos;`: only `zobristKey` has a member initializer; every
     * other field holds whatever value it is given later.
     */
    constructor ()
      ensures zobristKey == 0
    {
      zobristKey := 0;
    }

    /**
     * A Position in static storage (the global `currPosition`): every field
     * is zero, so the empty-squares board is 0 as well, not the complement
     * of the empty occupancy, and the en passant square is 0, not -1.
     */
    constructor Zeroed()
      ensures Snapshot() == Board(Side({}, {}, {}, {}, {}, {}), Side({}, {}, {}, {}, {}, {}), 0, 0)
      ensures whitePieces == {} && blackPieces == {} && occupiedSquares == {} && emptySquares == {}
      ensures zobristKey == 0
    {
      whitePawns, whiteKnights, whiteBishops, whiteRooks, whiteQueens, whiteKing := {}, {}, {}, {}, {}, {};
      blackPawns, blackKnights, blackBishops, blackRooks, blackQueens, blackKing := {}, {}, {}, {}, {}, {};
      whitePieces, blackPieces, occupiedSquares, emptySquares := {}, {}, {}, {};
      castlingRights, enPassantSquare, zobristKey := 0, 0, 0;
    }

    /** The implicit copy of the struct: every field, the key included. */
    constructor Copy(other: Position)
      ensures Snapshot() == other.Snapshot()
      ensures whitePieces == other.whitePieces && blackPieces == other.blackPieces
      ensures occupiedSquares == other.occupiedSquares && emptySquares == other.emptySquares
      ensures zobristKey == other.zobristKey
    {
      whitePawns, whiteKnights, whiteBishops := other.whitePawns, other.whiteKnights, other.whiteBishops;
      whiteRooks, whiteQueens, whiteKing := other.whiteRooks, other.whiteQueens, other.whiteKing;
      blackPawns, blackKnights, blackBishops := other.blackPawns, other.blackKnights, other.blackBishops;
      blackRooks, blackQueens, blackKing := other.blackRooks, other.blackQueens, other.blackKing;
      whitePieces, blackPieces := other.whitePieces, other.blackPieces;
      occupiedSquares, emptySquares := other.occupiedSquares, other.emptySquares;
      castlingRights, enPassantSquare := other.castlingRights, other.enPassantSquare;
      zobristKey := other.zobristKey;
    }

    /**
     * `initializePosition`: the start position with its composites; the
     * castling byte, the en passant square and the key are not touched.
     */
    method InitializePosition()
      modifies this
      ensures Snapshot() == StartBoard(old(castlingRights), old(enPassantSquare))
      ensures CompositesAgree()
      ensures zobristKey == old(zobristKey)
    {
      ghost var start := StartBoard(castlingRights, enPassantSquare);
      var pawns := PawnRank(8);
      SetWhite(Side(pawns, {1, 6}, {2, 5}, {0, 7}, {3}, {4}));
      pawns := PawnRank(48);
      SetBlack(Side(pawns, {57, 62}, {58, 61}, {56, 63}, {59}, {60}));
      assert Snapshot() == start;
      UpdateComposites();
    }

    /** The pawn loop of `initializePosition`: the eight squares from `low`. */
    static method PawnRank(low: Square) returns (pawns: set<Square>)
      requires low + 8 <= 64
      ensures pawns == Range(low, low + 8)
    {
      pawns := {};
      var i := low;
      while i < low + 8
        invariant low <= i <= low + 8 && pawns == Range(low, i)
      {
        RangeExtend(low, i);
        pawns := pawns + {i};
        i := i + 1;
      }
    }

    /** Stores the six white boards. */
    method SetWhite(x: Side)
      modifies this
      ensures Snapshot() == old(Snapshot()).(white := x) && zobristKey == old(zobristKey)
    {
      ghost var target := Snapshot().(white := x);
      whitePawns, whiteKnights, whiteBishops, whiteRooks, whiteQueens, whiteKing :=
        x.pawns, x.knights, x.bishops, x.rooks, x.queens, x.king;
      assert Snapshot() == target;
    }

    /** Stores the six black boards. */
    method SetBlack(x: Side)
      modifies this
      ensures Snapshot() == old(Snapshot()).(black := x) && zobristKey == old(zobristKey)
    {
      ghost var target := Snapshot().(black := x);
      blackPawns, blackKnights, blackBishops, blackRooks, blackQueens, blackKing :=
        x.pawns, x.knights, x.bishops, x.rooks, x.queens, x.king;
      assert Snapshot() == target;
    }

    /** The "update composite bitboards" block shared by initializePosition, makeMove and undoMove. */
    method UpdateComposites()
      modifies this
      ensures Snapshot() == old(Snapshot()) && zobristKey == old(zobristKey)
      ensures CompositesAgree()
    {
      var before := Snapshot();
      var w := PiecesOf(before.white);
      var k := PiecesOf(before.black);
      var occupied := w + k;
      var empty := Range(0, 64) - occupied;
      assert occupied == Occupied(before) && empty == EmptySquares(before);
      whitePieces, blackPieces, occupiedSquares, emptySquares := w, k, occupied, empty;
      assert Snapshot() == before;
    }

    /** `computeHash`: the api's computation, HashBoard over the struct's fields. */
    method ComputeHash(z: Tables) returns (hash: nat)
      requires WellShaped(z) && Hashable(Snapshot())
      ensures hash == BoardHash(Snapshot(), z)
    {
      hash := HashBoard(Snapshot(), z);
    }

    /**
     * `getPosition`: a new struct with every board, composite, castling byte
     * and en passant square copied; its key keeps the initializer's 0.
     */
    method GetPosition() returns (newPos: Position)
      ensures fresh(newPos)
      ensures newPos.Snapshot() == Snapshot()
      ensures newPos.whitePieces == whitePieces && newPos.blackPieces == blackPieces
      ensures newPos.occupiedSquares == occupiedSquares && newPos.emptySquares == emptySquares
      ensures newPos.zobristKey == 0
    {
      newPos := new Position.Copy(this);
      newPos.zobristKey := 0;
    }

    /** One rank of `displayPosition`: the glyph and a space for each file a to h. */
    method DisplayRank(returnable: string, rank: nat) returns (out: string)
      requires rank < 8
      ensures out == returnable + RankCells(Snapshot(), EngineStyle(), rank, 8)
    {
      var b := Snapshot();
      out := returnable;
      var file := 0;
      while file < 8
        invariant 0 <= file <= 8
        invariant out == returnable + RankCells(b, EngineStyle(), rank, file)
      {
        var square := rank * 8 + file;
        out := out + [Glyph(b, EngineStyle(), square), ' '];
        file := file + 1;
      }
    }

    /**
     * `displayPosition`: ranks 8 to 1, a glyph and a space per square and a
     * '/' after every rank, the last included.
     */
    method DisplayPosition() returns (returnable: string)
      ensures returnable == Diagram(Snapshot(), EngineStyle())
    {
      ghost var b, st := Snapshot(), EngineStyle();
      returnable := "";
      var rank := 7;
      while rank >= 0
        invariant -1 <= rank <= 7
        invariant returnable == DiagramRanks(b, st, rank + 1)
      {
        returnable := DisplayRank(returnable, rank);
        returnable := returnable + "/";
        rank := rank - 1;
      }
      DiagramFrom(b, st, rank + 1);
    }
  }
}
