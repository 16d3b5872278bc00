// An optional value, for lookups and parsers that can fail.
module Options {
  datatype Option<T> = None | Some(value: T)
}

// Colours, piece types, castling types and the single-character piece
// codes shared by every front end (api/include/color.h,
// api/include/pieceType.h, api/include/console.h,
// api/include/castlingType.h).

module Pieces {

  datatype Color = WHITE | BLACK

  /** The seven piece types, in declaration order, NONE last. */
  datatype PieceType = PAWN | KNIGHT | BISHOP | ROOK | QUEEN | KING | NONE

  datatype CastlingType = NoCastling | KINGSIDE | QUEENSIDE

  /** `invertColor`: the other side. */
  function InvertColor(c: Color): (r: Color)
    ensures r != c
    ensures c == WHITE <==> r == BLACK
  {
    if c == WHITE then BLACK else WHITE
  }

  /** Inverting twice gives the colour back. */
  lemma InvertColorInvolution(c: Color)
    ensures InvertColor(InvertColor(c)) == c
  {
  }

  /** Every colour is WHITE or BLACK, and the two differ. */
  lemma ColorCases(c: Color)
    ensures c == WHITE || c == BLACK
    ensures WHITE != BLACK
  {
  }

  /** The six piece types that stand for a real piece. */
  predicate IsRealPiece(p: PieceType)
  {
    p != NONE
  }

  /** Position of a piece type in the enum, 0 for PAWN up to 6 for NONE. */
  function PieceIndex(p: PieceType): (r: nat)
    ensures r < 7
    ensures r == 6 <==> p == NONE
  {
    match p
    case PAWN => 0
    case KNIGHT => 1
    case BISHOP => 2
    case ROOK => 3
    case QUEEN => 4
    case KING => 5
    case NONE => 6
  }

  /** The enum has seven distinct values. */
  lemma PieceIndexInjective(p: PieceType, q: PieceType)
    ensures PieceIndex(p) == PieceIndex(q) ==> p == q
  {
  }

  /** `piecePgn`: the upper-case letter of a real piece, '!' for NONE. */
  function PiecePgn(p: PieceType): (r: char)
    ensures p == NONE <==> r == '!'
    ensures IsRealPiece(p) ==> 'A' <= r <= 'Z'
  {
    match p
    case PAWN => 'P'
    case KNIGHT => 'N'
    case BISHOP => 'B'
    case ROOK => 'R'
    case QUEEN => 'Q'
    case KING => 'K'
    case NONE => '!'
  }

  /** The letters of the six real pieces are distinct. */
  lemma PiecePgnInjective(p: PieceType, q: PieceType)
    ensures IsRealPiece(p) && IsRealPiece(q) && PiecePgn(p) == PiecePgn(q) ==> p == q
  {
  }

  /** The letter of each piece, as listed in the source. */
  lemma PiecePgnTable()
    ensures PiecePgn(PAWN) == 'P' && PiecePgn(KNIGHT) == 'N' && PiecePgn(BISHOP) == 'B'
    ensures PiecePgn(ROOK) == 'R' && PiecePgn(QUEEN) == 'Q' && PiecePgn(KING) == 'K'
    ensures PiecePgn(NONE) == '!'
  {
  }

  /**
   * `getPromotionPiece`: the upper-case letters Q, N, B, R select a piece;
   * every other character, lower-case letters included, gives NONE.
   */
  function GetPromotionPiece(c: char): (r: PieceType)
    ensures r != PAWN && r != KING
    ensures r != NONE <==> c in {'Q', 'N', 'B', 'R'}
    ensures r != NONE ==> PiecePgn(r) == c
  {
    match c
    case 'Q' => QUEEN
    case 'N' => KNIGHT
    case 'B' => BISHOP
    case 'R' => ROOK
    case _ => NONE
  }

  /** Reading back the letter of a promotion piece gives that piece. */
  lemma PromotionRoundTrip(p: PieceType)
    ensures p in {QUEEN, KNIGHT, BISHOP, ROOK} ==> GetPromotionPiece(PiecePgn(p)) == p
  {
  }

  /** The ASCII upper-case of a character, as `toupper` computes it. */
  function ToUpper(c: char): (r: char)
    ensures 'a' <= c <= 'z' ==> r as int == c as int - 32
    ensures !('a' <= c <= 'z') ==> r == c
  {
    if 'a' <= c <= 'z' then (c as int - 32) as char else c
  }

  /** The ASCII lower-case of a character, as `tolower` computes it. */
  function ToLower(c: char): (r: char)
    ensures 'A' <= c <= 'Z' ==> r as int == c as int + 32
    ensures !('A' <= c <= 'Z') ==> r == c
  {
    if 'A' <= c <= 'Z' then (c as int + 32) as char else c
  }
}
