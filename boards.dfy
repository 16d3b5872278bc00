// The piece placement shared by every position variant: twelve piece
// boards, the castling-rights byte and the en passant square, as laid out
// in api/include/board/position.h:19-22 and chess_engine/include/board/position.h:12-24.
// Each board is held as the set of its squares (SquareSets links a set to
// its bv64 bitboard).  The position classes hold these as fields; this value
// is what their methods are specified against.

module Boards {
  import opened Bitboards
  import opened Pieces
  import opened Options
  import opened SquareSets

  /** The six boards of one colour, in the source's field order. */
  datatype Side = Side(pawns: set<Square>, knights: set<Square>, bishops: set<Square>,
                       rooks: set<Square>, queens: set<Square>, king: set<Square>)

  datatype Board = Board(white: Side, black: Side, castlingRights: bv8, enPassantSquare: int)

  /** The boards of one colour. */
  function SideOf(b: Board, c: Color): Side
  {
    if c == WHITE then b.white else b.black
  }

  /** The placement with the boards of one colour replaced. */
  function WithSide(b: Board, c: Color, x: Side): (r: Board)
    ensures SideOf(r, c) == x && SideOf(r, InvertColor(c)) == SideOf(b, InvertColor(c))
    ensures r.castlingRights == b.castlingRights && r.enPassantSquare == b.enPassantSquare
  {
    if c == WHITE then b.(white := x) else b.(black := x)
  }

  /** The board of one piece type; NONE has no board. */
  function PieceBoard(x: Side, p: PieceType): set<Square>
  {
    match p
    case PAWN => x.pawns
    case KNIGHT => x.knights
    case BISHOP => x.bishops
    case ROOK => x.rooks
    case QUEEN => x.queens
    case KING => x.king
    case NONE => {}
  }

  /** The side with the board of one real piece type replaced. */
  function WithPieceBoard(x: Side, p: PieceType, v: set<Square>): (r: Side)
    requires IsRealPiece(p)
    ensures PieceBoard(r, p) == v
    ensures forall q :: q != p ==> PieceBoard(r, q) == PieceBoard(x, q)
  {
    match p
    case PAWN => x.(pawns := v)
    case KNIGHT => x.(knights := v)
    case BISHOP => x.(bishops := v)
    case ROOK => x.(rooks := v)
    case QUEEN => x.(queens := v)
    case KING => x.(king := v)
  }

  /** Two sides with the same six boards are the same side. */
  lemma SideExtensionality(x: Side, y: Side)
    requires forall q :: PieceBoard(x, q) == PieceBoard(y, q)
    ensures x == y
  {
    assert PieceBoard(x, PAWN) == PieceBoard(y, PAWN);
    assert PieceBoard(x, KNIGHT) == PieceBoard(y, KNIGHT);
    assert PieceBoard(x, BISHOP) == PieceBoard(y, BISHOP);
    assert PieceBoard(x, ROOK) == PieceBoard(y, ROOK);
    assert PieceBoard(x, QUEEN) == PieceBoard(y, QUEEN);
    assert PieceBoard(x, KING) == PieceBoard(y, KING);
  }

  /**
   * The first of a colour's six boards, in the order pawn, knight, bishop,
   * rook, queen, king, that holds square s: the board every make/undo step
   * of the source picks with its `if ... else if` chain.
   */
  function FirstHolding(x: Side, s: Square): (r: Option<PieceType>)
    ensures r.Some? ==> IsRealPiece(r.value) && s in PieceBoard(x, r.value)
  {
    if s in x.pawns then Some(PAWN)
    else if s in x.knights then Some(KNIGHT)
    else if s in x.bishops then Some(BISHOP)
    else if s in x.rooks then Some(ROOK)
    else if s in x.queens then Some(QUEEN)
    else if s in x.king then Some(KING)
    else None
  }

  /** The chosen board is the first holding s, and no board holds s when none is chosen. */
  lemma FirstHoldingSpec(x: Side, s: Square)
    ensures FirstHolding(x, s).Some? ==>
      forall q :: PieceIndex(q) < PieceIndex(FirstHolding(x, s).value) ==> s !in PieceBoard(x, q)
    ensures FirstHolding(x, s).None? <==> forall q :: s !in PieceBoard(x, q)
  {
  }

  // ---------------------------------------------------------------------
  // Composite boards (api/src/board/position.cpp:89-92)
  // ---------------------------------------------------------------------

  /** `getWhitePieces` / `getBlackPieces`: the union of a colour's six boards. */
  function PiecesOf(x: Side): (r: set<Square>)
    ensures forall s :: s in r <==> FirstHolding(x, s).Some?
  {
    x.pawns + x.knights + x.bishops + x.rooks + x.queens + x.king
  }

  /** `getOccupiedSquares`: the squares of either colour. */
  function Occupied(b: Board): set<Square>
  {
    PiecesOf(b.white) + PiecesOf(b.black)
  }

  /** `getEmptySquares`, the complement `~` of the occupancy. */
  function EmptySquares(b: Board): (r: set<Square>)
    ensures forall s: Square :: s in r <==> FirstHolding(b.white, s).None? && FirstHolding(b.black, s).None?
  {
    Range(0, 64) - Occupied(b)
  }

  /** Square s holds no piece of either colour. */
  predicate EmptyAt(b: Board, s: Square)
  {
    FirstHolding(b.white, s).None? && FirstHolding(b.black, s).None?
  }

  /** No square is held by two of the twelve boards. */
  predicate Exclusive(b: Board)
  {
    forall s, c1, p1, c2, p2 ::
      s in PieceBoard(SideOf(b, c1), p1) && s in PieceBoard(SideOf(b, c2), p2) ==> c1 == c2 && p1 == p2
  }

  /** The number of pieces on the twelve boards together. */
  function SideCount(x: Side): nat
  {
    |x.pawns| + |x.knights| + |x.bishops| + |x.rooks| + |x.queens| + |x.king|
  }

  // ---------------------------------------------------------------------
  // getSquareChar (api/src/board/position.cpp:5-32)
  // ---------------------------------------------------------------------

  /**
   * `getSquareChar`: the boards are tested white pawn, knight, bishop, rook,
   * queen, king, then the black ones in the same order; the first that holds
   * the square gives its letter, upper-case for white and lower-case for
   * black, and '.' stands for an empty square.
   */
  function SquareChar(b: Board, s: Square): char
  {
    match FirstHolding(b.white, s)
    case Some(p) => PiecePgn(p)
    case None =>
      match FirstHolding(b.black, s)
      case Some(p) => ToLower(PiecePgn(p))
      case None => '.'
  }

  /** The character names the colour and the piece, and '.' means empty. */
  lemma SquareCharSpec(b: Board, s: Square)
    ensures SquareChar(b, s) == '.' <==> EmptyAt(b, s)
    ensures 'A' <= SquareChar(b, s) <= 'Z' <==> FirstHolding(b.white, s).Some?
    ensures 'a' <= SquareChar(b, s) <= 'z' <==> FirstHolding(b.white, s).None? && FirstHolding(b.black, s).Some?
    ensures FirstHolding(b.white, s).Some? ==> SquareChar(b, s) == PiecePgn(FirstHolding(b.white, s).value)
    ensures FirstHolding(b.white, s).None? && FirstHolding(b.black, s).Some? ==>
      ToUpper(SquareChar(b, s)) == PiecePgn(FirstHolding(b.black, s).value)
  {
  }

  // ---------------------------------------------------------------------
  // The start position (api/src/board/position.cpp:35-66,
  // chess_engine/src/board/position.cpp:5-42, chess.cpp:428-474)
  // ---------------------------------------------------------------------

  /** The standard start: white on ranks 1-2, black on ranks 7-8. */
  function StartWhite(): Side
  {
    Side(Range(8, 16), {1, 6}, {2, 5}, {0, 7}, {3}, {4})
  }

  function StartBlack(): Side
  {
    Side(Range(48, 56), {57, 62}, {58, 61}, {56, 63}, {59}, {60})
  }

  /** The standard start, with the castling byte and en passant square given. */
  function StartBoard(castlingRights: bv8, enPassantSquare: int): Board
  {
    Board(StartWhite(), StartBlack(), castlingRights, enPassantSquare)
  }

  /** What the start position holds on each square, as (colour, piece). */
  function StartPiece(s: Square): Option<(Color, PieceType)>
  {
    if 8 <= s < 16 then Some((WHITE, PAWN))
    else if 48 <= s < 56 then Some((BLACK, PAWN))
    else if s == 0 || s == 7 then Some((WHITE, ROOK))
    else if s == 1 || s == 6 then Some((WHITE, KNIGHT))
    else if s == 2 || s == 5 then Some((WHITE, BISHOP))
    else if s == 3 then Some((WHITE, QUEEN))
    else if s == 4 then Some((WHITE, KING))
    else if s == 56 || s == 63 then Some((BLACK, ROOK))
    else if s == 57 || s == 62 then Some((BLACK, KNIGHT))
    else if s == 58 || s == 61 then Some((BLACK, BISHOP))
    else if s == 59 then Some((BLACK, QUEEN))
    else if s == 60 then Some((BLACK, KING))
    else None
  }

  lemma StartWhiteAt(s: Square, p: PieceType)
    ensures s in PieceBoard(StartWhite(), p) <==> StartPiece(s) == Some((WHITE, p))
  {
  }

  lemma StartBlackAt(s: Square, p: PieceType)
    ensures s in PieceBoard(StartBlack(), p) <==> StartPiece(s) == Some((BLACK, p))
  {
  }

  /**
   * Where each piece of the start position stands: square s is on the board
   * of colour c and piece p exactly when the start table puts (c, p) there.
   */
  lemma StartLayout(cr: bv8, ep: int, s: Square, c: Color, p: PieceType)
    ensures s in PieceBoard(SideOf(StartBoard(cr, ep), c), p) <==> StartPiece(s) == Some((c, p))
  {
    if c == WHITE {
      StartWhiteAt(s, p);
    } else {
      StartBlackAt(s, p);
    }
  }

  /** In the start position no square holds two pieces. */
  lemma StartExclusive(cr: bv8, ep: int)
    ensures Exclusive(StartBoard(cr, ep))
  {
    var b := StartBoard(cr, ep);
    forall s, c1, p1, c2, p2 | s in PieceBoard(SideOf(b, c1), p1) && s in PieceBoard(SideOf(b, c2), p2)
      ensures c1 == c2 && p1 == p2
    {
      StartLayout(cr, ep, s, c1, p1);
      StartLayout(cr, ep, s, c2, p2);
    }
  }

  lemma StartWhitePieces()
    ensures PiecesOf(StartWhite()) == Range(0, 16)
  {
    forall t: Square ensures t in PiecesOf(StartWhite()) <==> t < 16 {
    }
  }

  lemma StartBlackPieces()
    ensures PiecesOf(StartBlack()) == Range(48, 64)
  {
    forall t: Square ensures t in PiecesOf(StartBlack()) <==> 48 <= t {
    }
  }

  /** The start has sixteen pieces a side, on ranks 1-2 and 7-8. */
  lemma StartComposites(cr: bv8, ep: int)
    ensures PiecesOf(StartBoard(cr, ep).white) == Range(0, 16)
    ensures PiecesOf(StartBoard(cr, ep).black) == Range(48, 64)
  {
    StartWhitePieces();
    StartBlackPieces();
  }

  /** The start position has thirty-two pieces. */
  lemma StartCount(cr: bv8, ep: int)
    ensures SideCount(StartBoard(cr, ep).white) + SideCount(StartBoard(cr, ep).black) == 32
  {
    RangeSize(8, 16);
    RangeSize(48, 56);
    assert |StartWhite().knights| == 2 && |StartWhite().bishops| == 2 && |StartWhite().rooks| == 2;
    assert |StartBlack().knights| == 2 && |StartBlack().bishops| == 2 && |StartBlack().rooks| == 2;
  }
}
