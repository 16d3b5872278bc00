// What makeMove and undoMove do to the twelve piece boards.  The api class
// (api/src/board/position.cpp:94-360) and the engine's free functions
// (chess_engine/src/board/board.cpp:13-155) run the same five steps in the
// same order; both are specified against the functions of this module.
// `handleCapture(board, bb)` and `updateBitboard(board, from, to)` are called
// by the api but not defined in its sources; they are taken to do what the
// engine writes out inline at the same places: clear the bit, and move the bit.

module MoveRules {
  import opened Bitboards
  import opened Pieces
  import opened Options
  import opened Moves
  import opened Boards

  /** The square of the pawn an en passant capture removes: one rank behind the target. */
  function EpVictim(m: Move): int
  {
    if m.color == WHITE then m.toSquare - 8 else m.toSquare + 8
  }

  /**
   * makeMove shifts `1ULL` by the from-square, the to-square and, when the
   * target is the recorded en passant square, by the victim's square; a
   * shift by a count outside 0..63 is undefined, so these must be squares.
   */
  predicate MakeDefined(m: Move)
  {
    OnBoard(m) && (m.toSquare == m.prevEnPassantSquare ==> 0 <= EpVictim(m) < 64)
  }

  /** undoMove's shifts: the same, with its en passant test on the from-square. */
  predicate UndoDefined(m: Move)
  {
    OnBoard(m) && (m.fromSquare == m.prevEnPassantSquare ==> 0 <= EpVictim(m) < 64)
  }

  // ---------------------------------------------------------------------
  // The steps of makeMove
  // ---------------------------------------------------------------------

  /** The side with square s cleared from the first of its boards that holds it. */
  function ClearFirst(x: Side, s: Square): Side
  {
    match FirstHolding(x, s)
    case None => x
    case Some(p) => WithPieceBoard(x, p, PieceBoard(x, p) - {s})
  }

  /** The capture step: the enemy's first board holding the target loses it. */
  function Captured(b: Board, c: Color, s: Square): Board
  {
    WithSide(b, InvertColor(c), ClearFirst(SideOf(b, InvertColor(c)), s))
  }

  /** The side with the piece on `from` moved to `to`, on the first board holding `from`. */
  function MoveFirst(x: Side, from: Square, to: Square): Side
  {
    match FirstHolding(x, from)
    case None => x
    case Some(p) => WithPieceBoard(x, p, PieceBoard(x, p) - {from} + {to})
  }

  /** The relocation step of makeMove (and, with the squares swapped, of undoMove). */
  function Relocated(b: Board, c: Color, from: Square, to: Square): Board
  {
    WithSide(b, c, MoveFirst(SideOf(b, c), from, to))
  }

  /** The rook's home square and castled square; any type but KINGSIDE means queenside. */
  function RookSquares(c: Color, kingside: bool): (Square, Square)
  {
    if c == WHITE then (if kingside then (7, 5) else (0, 3))
    else (if kingside then (63, 61) else (56, 59))
  }

  /** The castling step: `rooks &= ~home; rooks |= castled`. */
  function Castled(b: Board, c: Color, kingside: bool): Board
  {
    var (home, castled) := RookSquares(c, kingside);
    var x := SideOf(b, c);
    WithSide(b, c, x.(rooks := x.rooks - {home} + {castled}))
  }

  /** The en passant step: the enemy pawn board loses the victim's square. */
  function EnPassanted(b: Board, c: Color, victim: Square): Board
  {
    var x := SideOf(b, InvertColor(c));
    WithSide(b, InvertColor(c), x.(pawns := x.pawns - {victim}))
  }

  /** The promotion step: `queens |= to; pawns &= ~to`, whatever piece was asked for. */
  function Promoted(b: Board, c: Color, to: Square): Board
  {
    var x := SideOf(b, c);
    WithSide(b, c, x.(queens := x.queens + {to}, pawns := x.pawns - {to}))
  }

  /** makeMove: capture, relocation, castling, en passant, promotion, in that order. */
  function MadeMove(b: Board, m: Move): Board
    requires MakeDefined(m)
  {
    var b1 := if m.isCapture then Captured(b, m.color, m.toSquare) else b;
    var b2 := Relocated(b1, m.color, m.fromSquare, m.toSquare);
    var b3 := if m.isCastling then Castled(b2, m.color, m.castlingType == KINGSIDE) else b2;
    var b4 := if m.toSquare == m.prevEnPassantSquare then EnPassanted(b3, m.color, EpVictim(m)) else b3;
    if m.isPromotion then Promoted(b4, m.color, m.toSquare) else b4
  }

  // ---------------------------------------------------------------------
  // The steps of undoMove
  // ---------------------------------------------------------------------

  /** The side with square s or-ed into the first of its boards that already holds it. */
  function OrIntoFirst(x: Side, s: Square): Side
  {
    match FirstHolding(x, s)
    case None => x
    case Some(p) => WithPieceBoard(x, p, PieceBoard(x, p) + {s})
  }

  /** The "restore captured piece" step of undoMove. */
  function Restored(b: Board, c: Color, s: Square): Board
  {
    WithSide(b, InvertColor(c), OrIntoFirst(SideOf(b, InvertColor(c)), s))
  }

  /** Undoing castling: `rooks |= home; rooks &= ~castled`. */
  function Uncastled(b: Board, c: Color, kingside: bool): Board
  {
    var (home, castled) := RookSquares(c, kingside);
    var x := SideOf(b, c);
    WithSide(b, c, x.(rooks := x.rooks + {home} - {castled}))
  }

  /** Undoing en passant: the victim's square is or-ed into the enemy pawns. */
  function UnEnPassant(b: Board, c: Color, victim: Square): Board
  {
    var x := SideOf(b, InvertColor(c));
    WithSide(b, InvertColor(c), x.(pawns := x.pawns + {victim}))
  }

  /** Undoing promotion: `queens &= ~to; pawns |= from`. */
  function Unpromoted(b: Board, c: Color, from: Square, to: Square): Board
  {
    var x := SideOf(b, c);
    WithSide(b, c, x.(queens := x.queens - {to}, pawns := x.pawns + {from}))
  }

  /** undoMove: move back, restore, uncastle, undo en passant (tested on the from-square), unpromote. */
  function UndoneMove(b: Board, m: Move): Board
    requires UndoDefined(m)
  {
    var b1 := Relocated(b, m.color, m.toSquare, m.fromSquare);
    var b2 := if m.isCapture then Restored(b1, m.color, m.toSquare) else b1;
    var b3 := if m.isCastling then Uncastled(b2, m.color, m.castlingType == KINGSIDE) else b2;
    var b4 := if m.fromSquare == m.prevEnPassantSquare then UnEnPassant(b3, m.color, EpVictim(m)) else b3;
    if m.isPromotion then Unpromoted(b4, m.color, m.fromSquare, m.toSquare) else b4
  }

  // ---------------------------------------------------------------------
  // Properties of the steps
  // ---------------------------------------------------------------------

  /** A side-board tuple of the board: colour c, piece p. */
  function At(b: Board, c: Color, p: PieceType): set<Square>
  {
    PieceBoard(SideOf(b, c), p)
  }

  /**
   * The capture step clears the target only on the first enemy board that
   * holds it (even if a later one holds it too); every other board, the
   * castling byte and the en passant square are unchanged.
   */
  lemma CaptureClearsFirstEnemyBoard(b: Board, c: Color, s: Square, d: Color, q: PieceType)
    ensures var r := Captured(b, c, s);
      r.castlingRights == b.castlingRights && r.enPassantSquare == b.enPassantSquare &&
      (d == c ==> At(r, d, q) == At(b, d, q)) &&
      (FirstHolding(SideOf(b, InvertColor(c)), s).None? ==> r == b) &&
      (FirstHolding(SideOf(b, InvertColor(c)), s) == Some(q) && d != c ==> At(r, d, q) == At(b, d, q) - {s}) &&
      (FirstHolding(SideOf(b, InvertColor(c)), s) != Some(q) ==> At(r, d, q) == At(b, d, q))
  {
    InvertColorInvolution(c);
  }

  /**
   * The relocation step moves the mover's piece from `from` to `to` on the
   * first of its boards holding `from`, and leaves every other board alone;
   * when no board of the mover holds `from` nothing changes.
   */
  lemma RelocationMovesFirstBoard(b: Board, c: Color, from: Square, to: Square, d: Color, q: PieceType)
    ensures var r := Relocated(b, c, from, to);
      r.castlingRights == b.castlingRights && r.enPassantSquare == b.enPassantSquare &&
      (FirstHolding(SideOf(b, c), from).None? ==> r == b) &&
      (d == c && FirstHolding(SideOf(b, c), from) == Some(q) ==> At(r, d, q) == At(b, d, q) - {from} + {to}) &&
      (d != c || FirstHolding(SideOf(b, c), from) != Some(q) ==> At(r, d, q) == At(b, d, q))
  {
    InvertColorInvolution(c);
    if d != c {
      assert d == InvertColor(c);
    }
  }

  /** The en passant, castling and promotion steps touch one board each. */
  lemma OtherStepsFrame(b: Board, c: Color, s: Square, kingside: bool, d: Color, q: PieceType)
    ensures d != c || q != ROOK ==> At(Castled(b, c, kingside), d, q) == At(b, d, q)
    ensures d == c || q != PAWN ==> At(EnPassanted(b, c, s), d, q) == At(b, d, q)
    ensures d != c || (q != PAWN && q != QUEEN) ==> At(Promoted(b, c, s), d, q) == At(b, d, q)
  {
    InvertColorInvolution(c);
    if d != c {
      assert d == InvertColor(c);
    }
  }

  /**
   * Castling takes the rook off its home corner and puts it on its castled
   * square: h1 to f1 or a1 to d1 for White, h8 to f8 or a8 to d8 for Black.
   * Any castling type other than KINGSIDE counts as queenside.
   */
  lemma CastlingMovesRook(b: Board, c: Color, kingside: bool, t: Square)
    ensures var (home, castled) := RookSquares(c, kingside);
      var r := Castled(b, c, kingside);
      castled in At(r, c, ROOK) && home !in At(r, c, ROOK) &&
      (t != home && t != castled ==> (t in At(r, c, ROOK) <==> t in At(b, c, ROOK)))
    ensures RookSquares(WHITE, true) == (7, 5) && RookSquares(WHITE, false) == (0, 3)
    ensures RookSquares(BLACK, true) == (63, 61) && RookSquares(BLACK, false) == (56, 59)
  {
  }

  /** Promotion leaves a queen and no pawn on the target, whichever piece the move asked for. */
  lemma PromotionMakesQueen(b: Board, m: Move)
    requires MakeDefined(m) && m.isPromotion
    ensures m.toSquare in At(MadeMove(b, m), m.color, QUEEN)
    ensures m.toSquare !in At(MadeMove(b, m), m.color, PAWN)
  {
  }

  /** Neither operation touches the castling byte or the en passant square. */
  lemma MakeUndoKeepRightsAndEp(b: Board, m: Move)
    requires MakeDefined(m) && UndoDefined(m)
    ensures MadeMove(b, m).castlingRights == b.castlingRights
    ensures MadeMove(b, m).enPassantSquare == b.enPassantSquare
    ensures UndoneMove(b, m).castlingRights == b.castlingRights
    ensures UndoneMove(b, m).enPassantSquare == b.enPassantSquare
  {
  }

  /** A move with no capture, castling, promotion or en passant flag. */
  predicate Quiet(m: Move)
  {
    !m.isCapture && !m.isCastling && !m.isPromotion &&
    m.toSquare != m.prevEnPassantSquare && m.fromSquare != m.prevEnPassantSquare
  }

  /**
   * A quiet move changes exactly one board: the mover's first board holding
   * the from-square loses it and gains the to-square.
   */
  lemma QuietMoveFrame(b: Board, m: Move, d: Color, q: PieceType)
    requires MakeDefined(m) && Quiet(m)
    ensures MadeMove(b, m) == Relocated(b, m.color, m.fromSquare, m.toSquare)
    ensures var r := MadeMove(b, m);
      (d == m.color && FirstHolding(SideOf(b, m.color), m.fromSquare) == Some(q) ==>
        At(r, d, q) == At(b, d, q) - {m.fromSquare} + {m.toSquare}) &&
      (d != m.color || FirstHolding(SideOf(b, m.color), m.fromSquare) != Some(q) ==> At(r, d, q) == At(b, d, q))
  {
    RelocationMovesFirstBoard(b, m.color, m.fromSquare, m.toSquare, d, q);
  }

  /** Moving a piece onto a square the side does not hold, and back, restores the side. */
  lemma MoveFirstBack(x: Side, from: Square, to: Square)
    requires FirstHolding(x, to).None?
    ensures MoveFirst(MoveFirst(x, from, to), to, from) == x
  {
    match FirstHolding(x, from)
    case None =>
    case Some(p) =>
      var y := MoveFirst(x, from, to);
      FirstHoldingSpec(x, to);
      assert FirstHolding(y, to) == Some(p);
      assert PieceBoard(x, p) - {from} + {to} - {to} + {from} == PieceBoard(x, p);
      SideExtensionality(MoveFirst(y, to, from), x);
  }

  /**
   * The make/undo round trip: for a quiet move whose target holds none of
   * the mover's pieces, undoMove after makeMove gives back every board.
   */
  lemma QuietRoundTrip(b: Board, m: Move)
    requires MakeDefined(m) && UndoDefined(m) && Quiet(m)
    requires FirstHolding(SideOf(b, m.color), m.toSquare).None?
    ensures UndoneMove(MadeMove(b, m), m) == b
  {
    var c := m.color;
    var b1 := MadeMove(b, m);
    assert b1 == Relocated(b, c, m.fromSquare, m.toSquare);
    MoveFirstBack(SideOf(b, c), m.fromSquare, m.toSquare);
    InvertColorInvolution(c);
    assert UndoneMove(b1, m) == Relocated(b1, c, m.toSquare, m.fromSquare);
  }

  /** Or-ing a square into a board that already holds it changes nothing. */
  lemma RestoreIsNoOp(b: Board, c: Color, s: Square)
    ensures Restored(b, c, s) == b
  {
    var x := SideOf(b, InvertColor(c));
    match FirstHolding(x, s)
    case None =>
      InvertColorInvolution(c);
    case Some(p) =>
      assert PieceBoard(x, p) + {s} == PieceBoard(x, p);
      SideExtensionality(OrIntoFirst(x, s), x);
      InvertColorInvolution(c);
  }

  /**
   * undoMove does not bring a captured piece back: after a plain capture on
   * a position where no square holds two pieces, the target holds no enemy
   * piece once the move is undone, so the round trip fails.
   */
  lemma CaptureNotRestored(b: Board, m: Move)
    requires MakeDefined(m) && UndoDefined(m)
    requires m.isCapture && !m.isCastling && !m.isPromotion
    requires m.toSquare != m.prevEnPassantSquare && m.fromSquare != m.prevEnPassantSquare
    requires Exclusive(b)
    requires FirstHolding(SideOf(b, InvertColor(m.color)), m.toSquare).Some?
    ensures FirstHolding(SideOf(UndoneMove(MadeMove(b, m), m), InvertColor(m.color)), m.toSquare).None?
    ensures UndoneMove(MadeMove(b, m), m) != b
  {
    var c := m.color;
    var e := InvertColor(c);
    var to := m.toSquare;
    var b1 := Captured(b, c, to);
    var p := FirstHolding(SideOf(b, e), to).value;
    forall q ensures to !in At(b1, e, q) {
      CaptureClearsFirstEnemyBoard(b, c, to, e, q);
      if q != p {
        assert to !in At(b, e, q);
      }
    }
    var b2 := Relocated(b1, c, m.fromSquare, to);
    forall q ensures to !in At(b2, e, q) {
      RelocationMovesFirstBoard(b1, c, m.fromSquare, to, e, q);
    }
    var b3 := Relocated(b2, c, to, m.fromSquare);
    forall q ensures to !in At(b3, e, q) {
      RelocationMovesFirstBoard(b2, c, to, m.fromSquare, e, q);
    }
    RestoreIsNoOp(b3, c, to);
    FirstHoldingSpec(SideOf(b3, e), to);
  }

  /**
   * The en passant steps test different squares: makeMove removes the pawn
   * behind the target when the target is the recorded square, undoMove puts
   * one back only when the from-square is.  So after an en passant capture
   * by White the removed pawn stays off the board once undone.
   */
  lemma EnPassantNotRestored(b: Board, m: Move)
    requires MakeDefined(m) && UndoDefined(m)
    requires m.color == WHITE && !m.isCapture && !m.isCastling && !m.isPromotion
    requires m.toSquare == m.prevEnPassantSquare && m.fromSquare != m.prevEnPassantSquare
    ensures EpVictim(m) !in UndoneMove(MadeMove(b, m), m).black.pawns
  {
    var b3 := EnPassanted(Relocated(b, WHITE, m.fromSquare, m.toSquare), WHITE, EpVictim(m));
    assert EpVictim(m) !in b3.black.pawns;
    var r := Relocated(b3, WHITE, m.toSquare, m.fromSquare);
    assert r.black == b3.black;
  }

  /** ... and undoing a move that starts on the recorded square adds a pawn that makeMove never took. */
  lemma EnPassantUndoAddsPawn(b: Board, m: Move)
    requires MakeDefined(m) && UndoDefined(m)
    requires m.color == WHITE && !m.isPromotion
    requires m.fromSquare == m.prevEnPassantSquare
    ensures EpVictim(m) in UndoneMove(MadeMove(b, m), m).black.pawns
  {
  }

  /** No step of makeMove takes the mover's king off the board. */
  lemma MoveKeepsKing(b: Board, m: Move)
    requires MakeDefined(m)
    requires SideOf(b, m.color).king != {}
    ensures SideOf(MadeMove(b, m), m.color).king != {}
  {
    var c := m.color;
    var k :| k in SideOf(b, c).king;
    var b1 := if m.isCapture then Captured(b, c, m.toSquare) else b;
    InvertColorInvolution(c);
    assert SideOf(b1, c) == SideOf(b, c);
    var b2 := Relocated(b1, c, m.fromSquare, m.toSquare);
    var w := if FirstHolding(SideOf(b1, c), m.fromSquare) == Some(KING) && k == m.fromSquare then m.toSquare else k;
    RelocationMovesFirstBoard(b1, c, m.fromSquare, m.toSquare, c, KING);
    assert w in SideOf(b2, c).king;
    OtherStepsFrame(b2, c, m.toSquare, m.castlingType == KINGSIDE, c, KING);
    var b3 := if m.isCastling then Castled(b2, c, m.castlingType == KINGSIDE) else b2;
    assert w in SideOf(b3, c).king;
    if m.toSquare == m.prevEnPassantSquare {
      OtherStepsFrame(b3, c, EpVictim(m), true, c, KING);
    }
    var b4 := if m.toSquare == m.prevEnPassantSquare then EnPassanted(b3, c, EpVictim(m)) else b3;
    assert w in SideOf(b4, c).king;
    OtherStepsFrame(b4, c, m.toSquare, true, c, KING);
  }
}
