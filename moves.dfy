// The move record shared by the engine variants (api/src/move/move.cpp,
// chess_engine/include/move/move.h): both declare the same seventeen fields
// and the same constructor parameter order, so one datatype serves both.

module Moves {
  import opened Bitboards
  import opened Pieces
  import opened Options

  datatype Move = Move(
    fromSquare: int,
    toSquare: int,
    isCapture: bool,
    isCastling: bool,
    pieceType: PieceType,
    color: Color,
    castlingType: CastlingType,
    isPromotion: bool,
    promotionPiece: PieceType,
    capturedPieceBitboard: Bitboard,
    capturedPieceType: PieceType,
    prevWhitePieces: Bitboard,
    prevBlackPieces: Bitboard,
    prevOccupied: Bitboard,
    prevEnPassantSquare: int,
    prevKingSquare: int,
    prevCastlingRights: bv8)

  /**
   * The constructor `Move(from, to, capture, type, col, castling, ...)` with
   * every defaulted parameter left at its default.  Note the parameter order:
   * the capture flag comes third and the castling flag sixth.
   */
  function NewMove(from: int, to: int, capture: bool, pieceType: PieceType, col: Color, castling: bool): (m: Move)
    ensures m.fromSquare == from && m.toSquare == to && m.pieceType == pieceType && m.color == col
    ensures m.isCapture == capture && m.isCastling == castling
    ensures m.castlingType == NoCastling && !m.isPromotion && m.promotionPiece == NONE
    ensures m.capturedPieceBitboard == 0 && m.capturedPieceType == NONE
    ensures m.prevWhitePieces == 0 && m.prevBlackPieces == 0 && m.prevOccupied == 0
    ensures m.prevEnPassantSquare == -1 && m.prevKingSquare == -1 && m.prevCastlingRights == 0
  {
    Move(from, to, capture, castling, pieceType, col, NoCastling, false, NONE, 0, NONE, 0, 0, 0, -1, -1, 0)
  }

  /** `Move()`: no squares, no piece, White, every flag false. */
  function DefaultMove(): (m: Move)
    ensures m.fromSquare == -1 && m.toSquare == -1 && m.pieceType == NONE && m.color == WHITE
    ensures !m.isCapture && !m.isCastling && !m.isPromotion && m.castlingType == NoCastling
    ensures m.promotionPiece == NONE && m.capturedPieceType == NONE && m.capturedPieceBitboard == 0
    ensures m.prevWhitePieces == 0 && m.prevBlackPieces == 0 && m.prevOccupied == 0
    ensures m.prevEnPassantSquare == -1 && m.prevKingSquare == -1 && m.prevCastlingRights == 0
  {
    Move(-1, -1, false, false, NONE, WHITE, NoCastling, false, NONE, 0, NONE, 0, 0, 0, -1, -1, 0)
  }

  /** `operator==`: the conjunction of the seventeen field comparisons. */
  predicate MoveEquals(a: Move, b: Move)
  {
    a.fromSquare == b.fromSquare && a.toSquare == b.toSquare && a.isCapture == b.isCapture &&
    a.pieceType == b.pieceType && a.color == b.color && a.isCastling == b.isCastling &&
    a.castlingType == b.castlingType && a.isPromotion == b.isPromotion &&
    a.promotionPiece == b.promotionPiece && a.capturedPieceBitboard == b.capturedPieceBitboard &&
    a.capturedPieceType == b.capturedPieceType && a.prevWhitePieces == b.prevWhitePieces &&
    a.prevBlackPieces == b.prevBlackPieces && a.prevOccupied == b.prevOccupied &&
    a.prevEnPassantSquare == b.prevEnPassantSquare && a.prevCastlingRights == b.prevCastlingRights &&
    a.prevKingSquare == b.prevKingSquare
  }

  /**
   * The field-wise comparison is exactly value equality, so it is an
   * equivalence, and two moves that differ only in the capture flag or only
   * in the castling flag compare unequal.
   */
  lemma MoveEqualsIsEquality(a: Move, b: Move)
    ensures MoveEquals(a, b) <==> a == b
    ensures a.isCapture != b.isCapture ==> !MoveEquals(a, b)
    ensures a.isCastling != b.isCastling ==> !MoveEquals(a, b)
  {
  }

  // ---------------------------------------------------------------------
  // Square names (move.cpp:3-11)
  // ---------------------------------------------------------------------

  /** `toAlgebraic`: the file letter 'a'..'h' then the rank digit '1'..'8'. */
  function ToAlgebraic(s: Square): (r: string)
    ensures |r| == 2
    ensures 'a' <= r[0] <= 'h' && '1' <= r[1] <= '8'
  {
    [(s % 8 + 'a' as int) as char, (s / 8 + '1' as int) as char]
  }

  /** Reads a square name back: file offset from 'a' plus eight times rank offset from '1'. */
  function FromAlgebraic(name: string): (r: Option<Square>)
    ensures r.Some? <==> |name| == 2 && 'a' <= name[0] <= 'h' && '1' <= name[1] <= '8'
  {
    if |name| == 2 && 'a' <= name[0] <= 'h' && '1' <= name[1] <= '8' then
      Some((name[0] as int - 'a' as int) + 8 * (name[1] as int - '1' as int))
    else
      None
  }

  /** Every square name reads back as its square. */
  lemma AlgebraicRoundTrip(s: Square)
    ensures FromAlgebraic(ToAlgebraic(s)) == Some(s)
  {
  }

  /** Hence distinct squares have distinct names. */
  lemma ToAlgebraicInjective(s: Square, t: Square)
    ensures ToAlgebraic(s) == ToAlgebraic(t) ==> s == t
  {
    AlgebraicRoundTrip(s);
    AlgebraicRoundTrip(t);
  }

  /** Every well-formed name comes from the square it reads as. */
  lemma AlgebraicOnto(name: string)
    ensures FromAlgebraic(name).Some? ==> ToAlgebraic(FromAlgebraic(name).value) == name
  {
  }

  // ---------------------------------------------------------------------
  // Move text (move.cpp:76-114)
  // ---------------------------------------------------------------------

  /** Both squares of a move name board squares. */
  predicate OnBoard(m: Move)
  {
    0 <= m.fromSquare < 64 && 0 <= m.toSquare < 64
  }

  /** The piece letter of `getPgn`: `piecePgn`, plus 32 for Black. */
  function PgnLetter(p: PieceType, c: Color): char
  {
    if c == BLACK then (PiecePgn(p) as int + 32) as char else PiecePgn(p)
  }

  /**
   * `Move::getPgn`: the castling text for a castling type, otherwise
   * letter, from-square, 'x' on a capture, to-square, and "=" with the
   * promotion letter on a promotion (long algebraic text).
   */
  function GetPgn(m: Move): (r: string)
    requires m.castlingType == NoCastling ==> OnBoard(m)
    ensures m.castlingType == KINGSIDE ==> r == "O-O"
    ensures m.castlingType == QUEENSIDE ==> r == "O-O-O"
    ensures m.castlingType == NoCastling ==>
      |r| == 5 + (if m.isCapture then 1 else 0) + (if m.isPromotion then 2 else 0)
  {
    match m.castlingType
    case NoCastling =>
      [PgnLetter(m.pieceType, m.color)] + ToAlgebraic(m.fromSquare) + (if m.isCapture then "x" else "") +
      ToAlgebraic(m.toSquare) + (if m.isPromotion then "=" + [PiecePgn(m.promotionPiece)] else "")
    case KINGSIDE => "O-O"
    case QUEENSIDE => "O-O-O"
  }

  /** What a move text says. */
  datatype MoveText =
    | CastleText(side: CastlingType)
    | PieceText(pieceType: PieceType, color: Color, from: Square, isCapture: bool, to: Square,
                promotion: Option<PieceType>)

  /** The piece type named by an upper-case letter. */
  function LetterPiece(c: char): Option<PieceType>
  {
    match c
    case 'P' => Some(PAWN)
    case 'N' => Some(KNIGHT)
    case 'B' => Some(BISHOP)
    case 'R' => Some(ROOK)
    case 'Q' => Some(QUEEN)
    case 'K' => Some(KING)
    case _ => None
  }

  /** Reads a piece letter: upper case is White, lower case is Black. */
  function ParseLetter(c: char): Option<(PieceType, Color)>
  {
    if 'a' <= c <= 'z' then
      match LetterPiece((c as int - 32) as char)
      case Some(p) => Some((p, BLACK))
      case None => None
    else
      match LetterPiece(c)
      case Some(p) => Some((p, WHITE))
      case None => None
  }

  /** Reads the text `getPgn` writes. */
  function ParsePgn(s: string): Option<MoveText>
  {
    if s == "O-O" then Some(CastleText(KINGSIDE))
    else if s == "O-O-O" then Some(CastleText(QUEENSIDE))
    else if |s| < 5 then None
    else
      var capture := s[3] == 'x';
      var rest := if capture then s[4..] else s[3..];
      if |rest| < 2 then None
      else
        match (ParseLetter(s[0]), FromAlgebraic(s[1..3]), FromAlgebraic(rest[..2]))
        case (Some((p, c)), Some(from), Some(to)) =>
          if |rest| == 2 then Some(PieceText(p, c, from, capture, to, None))
          else if |rest| == 4 && rest[2] == '=' && LetterPiece(rest[3]).Some? then
            Some(PieceText(p, c, from, capture, to, LetterPiece(rest[3])))
          else None
        case _ => None
  }

  lemma LetterPieceOfPgn(p: PieceType)
    ensures IsRealPiece(p) ==> LetterPiece(PiecePgn(p)) == Some(p)
  {
  }

  lemma ParseLetterOfPgn(p: PieceType, c: Color)
    ensures IsRealPiece(p) ==> ParseLetter(PgnLetter(p, c)) == Some((p, c))
  {
  }

  /**
   * `getPgn` loses nothing a reader needs: its text reads back as the
   * castling side, or as the piece, colour, squares, capture flag and
   * promotion piece of the move.
   */
  lemma PgnRoundTrip(m: Move)
    requires m.castlingType == NoCastling ==> OnBoard(m)
    requires IsRealPiece(m.pieceType)
    requires m.isPromotion ==> IsRealPiece(m.promotionPiece)
    ensures m.castlingType != NoCastling ==> ParsePgn(GetPgn(m)) == Some(CastleText(m.castlingType))
    ensures m.castlingType == NoCastling ==>
      ParsePgn(GetPgn(m)) ==
        Some(PieceText(m.pieceType, m.color, m.fromSquare, m.isCapture, m.toSquare,
                       if m.isPromotion then Some(m.promotionPiece) else None))
  {
    if m.castlingType == NoCastling {
      var letter := PgnLetter(m.pieceType, m.color);
      var from := ToAlgebraic(m.fromSquare);
      var to := ToAlgebraic(m.toSquare);
      var cap := if m.isCapture then "x" else "";
      var promo := if m.isPromotion then "=" + [PiecePgn(m.promotionPiece)] else "";
      var s := GetPgn(m);
      assert s == [letter] + from + cap + to + promo;
      assert s[0] == letter;
      assert s[1..3] == from;
      ParseLetterOfPgn(m.pieceType, m.color);
      AlgebraicRoundTrip(m.fromSquare);
      AlgebraicRoundTrip(m.toSquare);
      var rest := if m.isCapture then s[4..] else s[3..];
      assert rest == to + promo;
      assert rest[..2] == to;
      if m.isPromotion {
        LetterPieceOfPgn(m.promotionPiece);
        assert rest[2] == '=' && rest[3] == PiecePgn(m.promotionPiece);
      }
      if !m.isCapture {
        assert s[3] == to[0];
      }
    }
  }

  /** The piece letter is lower case exactly when the mover is Black. */
  lemma PgnLetterCase(m: Move)
    requires m.castlingType == NoCastling && OnBoard(m) && IsRealPiece(m.pieceType)
    ensures 'a' <= GetPgn(m)[0] <= 'z' <==> m.color == BLACK
    ensures 'A' <= GetPgn(m)[0] <= 'Z' <==> m.color == WHITE
  {
  }
}
