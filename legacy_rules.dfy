// The rules of the single-file engine chess.cpp, as functions: its own
// knight and king generators (computed from offset tables), its pawn moves
// (no en passant), its attack test, its castling targets, its updateBitboards
// and the parsing and validation of one line of main's input loop.

module LegacyRules {
  import opened Bitboards
  import opened Pieces
  import opened Options
  import opened SquareSets
  import opened Boards
  import opened Rays
  import opened Moves
  import opened MoveGeneration

  // ---------------------------------------------------------------------
  // getKnightMoves and getKingMoves (chess.cpp:757-800)
  // ---------------------------------------------------------------------

  /** `knightMoves[8][2]`: (rank, file) offsets. */
  const KnightOffsets: seq<(int, int)> := [(-2, -1), (-2, 1), (-1, -2), (-1, 2), (1, -2), (1, 2), (2, -1), (2, 1)]

  /** `kingMoves[8][2]`. */
  const KingOffsets: seq<(int, int)> := [(-1, -1), (-1, 0), (-1, 1), (0, -1), (0, 1), (1, -1), (1, 0), (1, 1)]

  /** The square an offset leads to, when it stays on the board. */
  function Landing(square: Square, d: (int, int)): set<Square>
  {
    var newRank, newFile := RankOf(square) + d.0, FileOf(square) + d.1;
    if 0 <= newRank < 8 && 0 <= newFile < 8 then {newRank * 8 + newFile} else {}
  }

  /** The squares the offsets lead to, in table order. */
  function Reached(square: Square, offsets: seq<(int, int)>): set<Square>
  {
    if offsets == [] then {}
    else Reached(square, offsets[..|offsets| - 1]) + Landing(square, offsets[|offsets| - 1])
  }

  function Abs(x: int): nat
  {
    if x < 0 then -x else x
  }

  /** A knight's jump: one rank and two files apart, or two ranks and one file. */
  predicate KnightJump(square: Square, t: Square)
  {
    var dr, df := Abs(RankOf(t) - RankOf(square)), Abs(FileOf(t) - FileOf(square));
    (dr == 1 && df == 2) || (dr == 2 && df == 1)
  }

  /** A king's step: at most one rank and one file apart, not the square itself. */
  predicate KingStep(square: Square, t: Square)
  {
    t != square && Abs(RankOf(t) - RankOf(square)) <= 1 && Abs(FileOf(t) - FileOf(square)) <= 1
  }

  lemma LandingSpec(square: Square, d: (int, int), t: Square)
    ensures t in Landing(square, d) <==> RankOf(t) == RankOf(square) + d.0 && FileOf(t) == FileOf(square) + d.1
  {
    assert t == 8 * RankOf(t) + FileOf(t);
  }

  lemma {:induction false} ReachedSpec(square: Square, offsets: seq<(int, int)>, t: Square)
    ensures t in Reached(square, offsets) <==>
      exists i :: 0 <= i < |offsets| && RankOf(t) == RankOf(square) + offsets[i].0 && FileOf(t) == FileOf(square) + offsets[i].1
  {
    if offsets != [] {
      var n := |offsets| - 1;
      ReachedSpec(square, offsets[..n], t);
      LandingSpec(square, offsets[n], t);
      if exists i :: 0 <= i < |offsets| && RankOf(t) == RankOf(square) + offsets[i].0 && FileOf(t) == FileOf(square) + offsets[i].1 {
        var i :| 0 <= i < |offsets| && RankOf(t) == RankOf(square) + offsets[i].0 && FileOf(t) == FileOf(square) + offsets[i].1;
        if i < n {
          assert offsets[..n][i] == offsets[i];
        }
      }
    }
  }

  /** getKnightMoves returns exactly the on-board knight jumps from the square. */
  lemma KnightMovesGeometry(square: Square, t: Square)
    ensures t in Reached(square, KnightOffsets) <==> KnightJump(square, t)
  {
    ReachedSpec(square, KnightOffsets, t);
    var dr, df := RankOf(t) - RankOf(square), FileOf(t) - FileOf(square);
    if KnightJump(square, t) {
      var i := if dr == -2 && df == -1 then 0 else if dr == -2 && df == 1 then 1
        else if dr == -1 && df == -2 then 2 else if dr == -1 && df == 2 then 3
        else if dr == 1 && df == -2 then 4 else if dr == 1 && df == 2 then 5
        else if dr == 2 && df == -1 then 6 else 7;
      assert RankOf(t) == RankOf(square) + KnightOffsets[i].0 && FileOf(t) == FileOf(square) + KnightOffsets[i].1;
    }
  }

  /** getKingMoves returns exactly the on-board neighbours of the square. */
  lemma KingMovesGeometry(square: Square, t: Square)
    ensures t in Reached(square, KingOffsets) <==> KingStep(square, t)
  {
    ReachedSpec(square, KingOffsets, t);
    var dr, df := RankOf(t) - RankOf(square), FileOf(t) - FileOf(square);
    assert t == 8 * RankOf(t) + FileOf(t) && square == 8 * RankOf(square) + FileOf(square);
    if KingStep(square, t) {
      var i := if dr == -1 && df == -1 then 0 else if dr == -1 && df == 0 then 1
        else if dr == -1 && df == 1 then 2 else if dr == 0 && df == -1 then 3
        else if dr == 0 && df == 1 then 4 else if dr == 1 && df == -1 then 5
        else if dr == 1 && df == 0 then 6 else 7;
      assert RankOf(t) == RankOf(square) + KingOffsets[i].0 && FileOf(t) == FileOf(square) + KingOffsets[i].1;
    }
  }

  lemma {:induction false} ReachedSize(square: Square, offsets: seq<(int, int)>)
    ensures |Reached(square, offsets)| <= |offsets|
  {
    if offsets != [] {
      var n := |offsets| - 1;
      ReachedSize(square, offsets[..n]);
      var A, B := Reached(square, offsets[..n]), Landing(square, offsets[n]);
      assert |A + B| <= |A| + |B| by {
        if B != {} {
          var x :| x in B;
          assert B == {x};
        }
      }
    }
  }

  lemma {:induction false} SubsetSize(A: set<Square>, B: set<Square>)
    requires A <= B
    ensures |A| <= |B|
    decreases |A|
  {
    if A != {} {
      var x :| x in A;
      SubsetSize(A - {x}, B - {x});
    }
  }

  /** A knight has between two and eight moves on an empty board. */
  lemma KnightMovesCount(square: Square)
    ensures 2 <= |Reached(square, KnightOffsets)| <= 8
  {
    ReachedSize(square, KnightOffsets);
    var r, f := RankOf(square), FileOf(square);
    var a := (if r <= 5 then r + 2 else r - 2) * 8 + (if f <= 6 then f + 1 else f - 1);
    var b := (if r <= 6 then r + 1 else r - 1) * 8 + (if f <= 5 then f + 2 else f - 2);
    KnightMovesGeometry(square, a);
    KnightMovesGeometry(square, b);
    assert RankOf(a) != RankOf(b);
    SubsetSize({a, b}, Reached(square, KnightOffsets));
  }

  /** A king has between three and eight moves on an empty board. */
  lemma KingMovesCount(square: Square)
    ensures 3 <= |Reached(square, KingOffsets)| <= 8
  {
    ReachedSize(square, KingOffsets);
    var r, f := RankOf(square), FileOf(square);
    var r2, f2 := if r <= 6 then r + 1 else r - 1, if f <= 6 then f + 1 else f - 1;
    var a, b, c := r2 * 8 + f, r * 8 + f2, r2 * 8 + f2;
    KingMovesGeometry(square, a);
    KingMovesGeometry(square, b);
    KingMovesGeometry(square, c);
    SubsetSize({a, b, c}, Reached(square, KingOffsets));
  }

  /** The lookups of chess.cpp: computed knight and king moves and its magic tables. */
  function LegacyLookups(rook: (Square, set<Square>) -> set<Square>, bishop: (Square, set<Square>) -> set<Square>): Lookups
  {
    Lookups(s => Reached(s, KnightOffsets), s => Reached(s, KingOffsets), rook, bishop)
  }

  // ---------------------------------------------------------------------
  // getPawnMoves (chess.cpp:716-755)
  // ---------------------------------------------------------------------

  /** chess.cpp's `getPawnMoves(square, color, occupied)`, reading the stored colour composites. */
  function LegacyPawnMoves(square: Square, color: Color, occupied: set<Square>, white: set<Square>, black: set<Square>): set<Square>
  {
    var rank, file := square / 8, square % 8;
    if color == WHITE then
      (if rank < 7 && square + 8 !in occupied then
         {square + 8} + (if rank == 1 && square + 16 !in occupied then {square + 16} else {})
       else {}) +
      (if file > 0 && rank < 7 && square + 7 in black then {square + 7} else {}) +
      (if file < 7 && rank < 7 && square + 9 in black then {square + 9} else {})
    else
      (if rank > 0 && square - 8 !in occupied then {square - 8} else {}) +
      (if rank == 6 && square - 8 !in occupied && square - 16 !in occupied then {square - 16} else {}) +
      (if file > 0 && rank > 0 && square - 9 in white then {square - 9} else {}) +
      (if file < 7 && rank > 0 && square - 7 in white then {square - 7} else {})
  }

  /**
   * The same pawn steps as the library's generators, without en passant:
   * pushes onto empty squares (the double push from the home rank through
   * an empty square) and diagonal steps onto enemy pieces.
   */
  lemma LegacyPawnGeometry(square: Square, color: Color, occupied: set<Square>, white: set<Square>, black: set<Square>, t: Square)
    ensures t in LegacyPawnMoves(square, color, occupied, white, black) <==>
      PawnStep(square, color, occupied, if color == WHITE then black else white, -1, t)
  {
    DiagonalOffsets(square, color, t);
    assert square == 8 * RankOf(square) + FileOf(square);
  }

  // ---------------------------------------------------------------------
  // isSquareAttacked, isInCheck and getCastlingMoves (chess.cpp:802-900)
  // ---------------------------------------------------------------------

  /** The pawn test of chess.cpp: the rank guard covers both probes. */
  predicate LegacyPawnAttack(square: Square, attacker: Color, pawns: set<Square>)
  {
    if attacker == WHITE then
      square > 7 && ((square % 8 > 0 && ProbeBit(pawns, square - 9)) || (square % 8 < 7 && ProbeBit(pawns, square - 7)))
    else
      square < 56 && ((square % 8 > 0 && ProbeBit(pawns, square + 7)) || (square % 8 < 7 && ProbeBit(pawns, square + 9)))
  }

  /** With both probes guarded, the pawn test is exactly the rules' pawn attack: no probe wraps. */
  lemma LegacyPawnAttackExact(square: Square, attacker: Color, pawns: set<Square>)
    ensures LegacyPawnAttack(square, attacker, pawns) <==> PawnGuards(square, attacker, pawns)
  {
    GuardsBySquare(square, attacker, pawns);
    if attacker == WHITE {
      if square > 7 {
        assert (square - 7) % 64 == square - 7;
      }
      if square > 8 {
        assert (square - 9) % 64 == square - 9;
      }
    } else {
      if square < 55 {
        assert (square + 9) % 64 == square + 9;
      }
      if square < 56 {
        assert (square + 7) % 64 == square + 7;
      }
    }
  }

  /** chess.cpp's `isSquareAttacked`, on the stored composites. */
  predicate LegacyAttacked(t: Lookups, square: Square, attacker: Color, v: View)
  {
    var occupied := v.white + v.black;
    var x := SideOf(v.board, attacker);
    LegacyPawnAttack(square, attacker, x.pawns) ||
    t.knight(square) * x.knights != {} ||
    t.bishop(square, occupied) * (x.bishops + x.queens) != {} ||
    t.rook(square, occupied) * (x.rooks + x.queens) != {} ||
    t.king(square) * x.king != {}
  }

  /**
   * chess.cpp's attack test implies the library's, and agrees with it
   * wherever the library's unguarded probe does not wrap.
   */
  lemma LegacyAttackedAgrees(t: Lookups, square: Square, attacker: Color, v: View)
    ensures LegacyAttacked(t, square, attacker, v) ==> SquareAttacked(t, square, attacker, v)
    ensures !WrappedProbe(square, attacker, SideOf(v.board, attacker).pawns) ==>
      (LegacyAttacked(t, square, attacker, v) <==> SquareAttacked(t, square, attacker, v))
  {
    var pawns := SideOf(v.board, attacker).pawns;
    LegacyPawnAttackExact(square, attacker, pawns);
    PawnAttackSplit(square, attacker, pawns);
  }

  /** chess.cpp's castling rights: four flags, all true by default. */
  datatype CastlingRights = CastlingRights(whiteKingside: bool, whiteQueenside: bool, blackKingside: bool, blackQueenside: bool)

  function HasRight(cr: CastlingRights, c: Color, kingside: bool): bool
  {
    if c == WHITE then (if kingside then cr.whiteKingside else cr.whiteQueenside)
    else (if kingside then cr.blackKingside else cr.blackQueenside)
  }

  /** chess.cpp's `getCastlingMoves(color, occupied)`: the kingside block, then the queenside block. */
  function LegacyCastlingMoves(t: Lookups, cr: CastlingRights, color: Color, occupied: set<Square>, v: View): set<Square>
  {
    WingMoves(t, cr, color, true, occupied, v) + WingMoves(t, cr, color, false, occupied, v)
  }

  /** One of the four blocks of getCastlingMoves: flag, empty squares, unattacked squares. */
  function WingMoves(t: Lookups, cr: CastlingRights, color: Color, kingside: bool, occupied: set<Square>, v: View): set<Square>
  {
    if color == WHITE then
      if kingside then
        if cr.whiteKingside && 5 !in occupied && 6 !in occupied &&
           !LegacyAttacked(t, 4, BLACK, v) && !LegacyAttacked(t, 5, BLACK, v) && !LegacyAttacked(t, 6, BLACK, v)
        then {6} else {}
      else
        if cr.whiteQueenside && 1 !in occupied && 2 !in occupied && 3 !in occupied &&
           !LegacyAttacked(t, 4, BLACK, v) && !LegacyAttacked(t, 3, BLACK, v) && !LegacyAttacked(t, 2, BLACK, v)
        then {2} else {}
    else
      if kingside then
        if cr.blackKingside && 61 !in occupied && 62 !in occupied &&
           !LegacyAttacked(t, 60, WHITE, v) && !LegacyAttacked(t, 61, WHITE, v) && !LegacyAttacked(t, 62, WHITE, v)
        then {62} else {}
      else
        if cr.blackQueenside && 57 !in occupied && 58 !in occupied && 59 !in occupied &&
           !LegacyAttacked(t, 60, WHITE, v) && !LegacyAttacked(t, 59, WHITE, v) && !LegacyAttacked(t, 58, WHITE, v)
        then {58} else {}
  }

  /** The conditions for one wing, with chess.cpp's flags and attack test. */
  predicate LegacyCastleAllowed(t: Lookups, cr: CastlingRights, c: Color, kingside: bool, occupied: set<Square>, v: View)
  {
    HasRight(cr, c, kingside) &&
    (forall g :: g in CastleGap(c, kingside) ==> g !in occupied) &&
    (forall w :: w in KingWalk(c, kingside) ==> !LegacyAttacked(t, w, InvertColor(c), v))
  }

  lemma LegacyCastlingWing(t: Lookups, cr: CastlingRights, color: Color, kingside: bool, occupied: set<Square>, v: View)
    ensures CastleTarget(color, kingside) in LegacyCastlingMoves(t, cr, color, occupied, v) <==>
      LegacyCastleAllowed(t, cr, color, kingside, occupied, v)
  {
    var back := if color == WHITE then 0 else 56;
    var a, b, c := back + 4, if kingside then back + 5 else back + 3, if kingside then back + 6 else back + 2;
    assert KingWalk(color, kingside) == {a, b, c};
    if kingside {
      assert CastleGap(color, kingside) == {back + 5, back + 6};
    } else {
      assert CastleGap(color, kingside) == {back + 1, back + 2, back + 3};
    }
  }

  /** The same targets and conditions as the library's getCastlingMoves, over the four flags. */
  lemma LegacyCastlingSpec(t: Lookups, cr: CastlingRights, color: Color, occupied: set<Square>, v: View, s: Square)
    ensures s in LegacyCastlingMoves(t, cr, color, occupied, v) <==>
      (s == CastleTarget(color, true) && LegacyCastleAllowed(t, cr, color, true, occupied, v)) ||
      (s == CastleTarget(color, false) && LegacyCastleAllowed(t, cr, color, false, occupied, v))
  {
    LegacyCastlingWing(t, cr, color, true, occupied, v);
    LegacyCastlingWing(t, cr, color, false, occupied, v);
  }

  // ---------------------------------------------------------------------
  // updateBitboards (chess.cpp:477-540)
  // ---------------------------------------------------------------------

  /** chess.cpp's Move struct; NONE stands for a piece type no switch case matches. */
  datatype LegacyMove = LegacyMove(
    fromSquare: Square, toSquare: Square, isCapture: bool, pieceType: PieceType, color: Color,
    isCastling: bool, castlingType: CastlingType, isPromotion: bool, promotionPiece: PieceType)

  /** `clearBit` (or `setBit`) on the board the switch selects; no case matches NONE. */
  function Touch(x: Side, p: PieceType, s: Square, set_: bool): (r: Side)
  {
    if IsRealPiece(p) then WithPieceBoard(x, p, if set_ then PieceBoard(x, p) + {s} else PieceBoard(x, p) - {s})
    else x
  }

  /** The capture block: the target cleared on the pawn, knight, bishop, rook and queen boards, never the king. */
  function ClearNonKing(x: Side, s: Square): Side
  {
    x.(pawns := x.pawns - {s}, knights := x.knights - {s}, bishops := x.bishops - {s},
       rooks := x.rooks - {s}, queens := x.queens - {s})
  }

  /**
   * `updateBitboards(move)` on the piece boards: clear the from-square on the
   * mover's board of the move's type; if the stored enemy composite has the
   * to-square, clear it on the enemy's non-king boards; set the to-square on
   * the mover's board of the move's type.
   */
  function Updated(b: Board, enemyStored: set<Square>, m: LegacyMove): Board
  {
    var c := m.color;
    var b1 := WithSide(b, c, Touch(SideOf(b, c), m.pieceType, m.fromSquare, false));
    var b2 := if m.toSquare in enemyStored then WithSide(b1, InvertColor(c), ClearNonKing(SideOf(b1, InvertColor(c)), m.toSquare)) else b1;
    WithSide(b2, c, Touch(SideOf(b2, c), m.pieceType, m.toSquare, true))
  }

  /**
   * The mover's board of the move's type loses the from-square and gains the
   * to-square (a promoting pawn stays a pawn: the promotion piece is not
   * read); the mover's other boards are unchanged.
   */
  lemma UpdatedMover(b: Board, enemyStored: set<Square>, m: LegacyMove, q: PieceType)
    requires IsRealPiece(q)
    ensures PieceBoard(SideOf(Updated(b, enemyStored, m), m.color), q) ==
      if q == m.pieceType then PieceBoard(SideOf(b, m.color), q) - {m.fromSquare} + {m.toSquare}
      else PieceBoard(SideOf(b, m.color), q)
  {
  }

  /**
   * On the enemy side, a target found in the stored composite is cleared on
   * every non-king board; the enemy king board never changes, and nothing
   * changes when the target is not in the stored composite.
   */
  lemma UpdatedEnemy(b: Board, enemyStored: set<Square>, m: LegacyMove, q: PieceType)
    requires IsRealPiece(q)
    ensures PieceBoard(SideOf(Updated(b, enemyStored, m), InvertColor(m.color)), q) ==
      if m.toSquare in enemyStored && q != KING then PieceBoard(SideOf(b, InvertColor(m.color)), q) - {m.toSquare}
      else PieceBoard(SideOf(b, InvertColor(m.color)), q)
  {
    InvertColorInvolution(m.color);
  }

  // ---------------------------------------------------------------------
  // main: one line of input (chess.cpp:160-341)
  // ---------------------------------------------------------------------

  /** What a line of input asks for, before the position is consulted. */
  datatype Line =
    | QuitLine
    | MovesBadFormat
    | MovesBadSquare
    | MovesQuery(square: Square)
    | BadFormat
    | BadCoordinates
    | MoveText(from: Square, to: Square)

  /** `moveStr.substr(0, 5)`: the first five characters, or the whole line when shorter. */
  function Prefix5(line: string): string
  {
    if |line| <= 5 then line else line[..5]
  }

  /** A coordinate character minus its base, as main computes it. */
  function Offset(c: char, base: char): int
  {
    c as int - base as int
  }

  predicate InRange(x: int)
  {
    0 <= x <= 7
  }

  function ParseLine(line: string): Line
  {
    if line == "quit" then QuitLine
    else if Prefix5(line) == "moves" then
      if |line| != 8 then MovesBadFormat
      else
        var file, rank := Offset(line[6], 'a'), Offset(line[7], '1');
        if !InRange(file) || !InRange(rank) then MovesBadSquare else MovesQuery(rank * 8 + file)
    else if |line| != 5 || line[2] != ' ' then BadFormat
    else
      var fromFile, fromRank := Offset(line[0], 'a'), Offset(line[1], '1');
      var toFile, toRank := Offset(line[3], 'a'), Offset(line[4], '1');
      if !InRange(fromFile) || !InRange(fromRank) || !InRange(toFile) || !InRange(toRank) then BadCoordinates
      else MoveText(fromRank * 8 + fromFile, toRank * 8 + toFile)
  }

  /**
   * A line names a move exactly when it is five characters, a space at
   * index 2, and two square names around it; the squares are those names.
   */
  lemma ParseMoveText(line: string, from: Square, to: Square)
    ensures ParseLine(line) == MoveText(from, to) <==>
      |line| == 5 && line[2] == ' ' &&
      FromAlgebraic(line[..2]) == Some(from) && FromAlgebraic(line[3..]) == Some(to)
  {
    if |line| == 5 && line[2] == ' ' {
      assert line[..2][0] == line[0] && line[..2][1] == line[1];
      assert line[3..][0] == line[3] && line[3..][1] == line[4];
    }
  }

  /** Typing a move's two square names, separated by a space, is read back as that move. */
  lemma TypedMoveRoundTrip(from: Square, to: Square)
    ensures ParseLine(ToAlgebraic(from) + " " + ToAlgebraic(to)) == MoveText(from, to)
  {
    var line := ToAlgebraic(from) + " " + ToAlgebraic(to);
    assert line[..2] == ToAlgebraic(from);
    assert line[3..] == ToAlgebraic(to);
    AlgebraicRoundTrip(from);
    AlgebraicRoundTrip(to);
    ParseMoveText(line, from, to);
  }

  /** The piece main detects on a square: pawn, rook, bishop, queen, knight, king, in that order. */
  function LegacyMover(b: Board, square: Square): PieceType
  {
    if square in b.white.pawns + b.black.pawns then PAWN
    else if square in b.white.rooks + b.black.rooks then ROOK
    else if square in b.white.bishops + b.black.bishops then BISHOP
    else if square in b.white.queens + b.black.queens then QUEEN
    else if square in b.white.knights + b.black.knights then KNIGHT
    else if square in b.white.king + b.black.king then KING
    else NONE
  }

  /**
   * The moves main (and displayLegalMoves) allows from a square: the
   * detected piece's move set, occupancy taken from the stored composites,
   * minus the mover's own pieces.
   */
  function LegalTargets(t: Lookups, v: View, color: Color, square: Square): set<Square>
  {
    PieceMoveSet(t, v, color, square) - Ours(v, color)
  }

  /** The move set of the piece main detects on the square, before own pieces are removed. */
  function PieceMoveSet(t: Lookups, v: View, color: Color, square: Square): set<Square>
  {
    var occupied := v.white + v.black;
    match LegacyMover(v.board, square)
    case PAWN => LegacyPawnMoves(square, color, occupied, v.white, v.black)
    case ROOK => t.rook(square, occupied)
    case BISHOP => t.bishop(square, occupied)
    case QUEEN => QueenMoves(t, square, occupied)
    case KNIGHT => t.knight(square)
    case KING => t.king(square)
    case NONE => {}
  }

  /** `toupper(choice)` in the promotion switch: Q, R, B, N in either case, anything else a queen. */
  function PromotionChoice(choice: char): (p: PieceType)
    ensures p in {QUEEN, ROOK, BISHOP, KNIGHT}
  {
    var c := ToUpper(choice);
    if c == 'Q' then QUEEN else if c == 'R' then ROOK else if c == 'B' then BISHOP else if c == 'N' then KNIGHT else QUEEN
  }

  /** The promotion prompt ignores case. */
  lemma PromotionChoiceIgnoresCase(c: char)
    requires 'a' <= c <= 'z'
    ensures PromotionChoice(c) == PromotionChoice((c as int - 32) as char)
  {
  }

  /**
   * main's castling block, run before the move is made: a king move from
   * e1 to g1 or c1 (e8 to g8 or c8) marks the move as castling, moves the
   * rook beside the king and clears both of the side's flags.
   */
  function CastleStep(b: Board, cr: CastlingRights, m: LegacyMove): (r: (Board, CastlingRights, LegacyMove))
    ensures r.2 == m.(isCastling := r.2.isCastling, castlingType := r.2.castlingType)
    ensures r.2 != m ==> m.pieceType == KING && r.2.isCastling && r.2.castlingType != NoCastling
    ensures r.0.white == b.white || r.0.black == b.black
  {
    if m.pieceType != KING then (b, cr, m)
    else if m.color == WHITE then
      var cleared := cr.(whiteKingside := false, whiteQueenside := false);
      if m.fromSquare == 4 && m.toSquare == 6 then
        (b.(white := b.white.(rooks := b.white.rooks - {7} + {5})), cleared, m.(isCastling := true, castlingType := KINGSIDE))
      else if m.fromSquare == 4 && m.toSquare == 2 then
        (b.(white := b.white.(rooks := b.white.rooks - {0} + {3})), cleared, m.(isCastling := true, castlingType := QUEENSIDE))
      else (b, cr, m)
    else
      var cleared := cr.(blackKingside := false, blackQueenside := false);
      if m.fromSquare == 60 && m.toSquare == 62 then
        (b.(black := b.black.(rooks := b.black.rooks - {63} + {61})), cleared, m.(isCastling := true, castlingType := KINGSIDE))
      else if m.fromSquare == 60 && m.toSquare == 58 then
        (b.(black := b.black.(rooks := b.black.rooks - {56} + {59})), cleared, m.(isCastling := true, castlingType := QUEENSIDE))
      else (b, cr, m)
  }

  /**
   * main's castling block never fires: getKingMoves holds only neighbouring
   * squares, so g1/c1 from e1 and g8/c8 from e8 are never legal targets,
   * and board, flags and move come out of the block as they went in.
   */
  lemma CastlingBranchUnreachable(t: Lookups, b: Board, cr: CastlingRights, m: LegacyMove)
    requires t.king == (s => Reached(s, KingOffsets))
    requires m.pieceType == KING && LegacyMover(b, m.fromSquare) == KING
    requires m.toSquare in LegalTargets(t, ApiView(b), m.color, m.fromSquare)
    ensures CastleStep(b, cr, m) == (b, cr, m)
  {
    var from, to := m.fromSquare, m.toSquare;
    assert to in Reached(from, KingOffsets);
    KingMovesGeometry(from, to);
    assert !(from == 4 && to in {2, 6}) && !(from == 60 && to in {58, 62}) by {
      assert KingStep(from, to);
    }
  }

  /** main's promotion block: a pawn reaching the last rank takes the piece the prompt chose. */
  function PromotionStep(m: LegacyMove, choice: char): (r: LegacyMove)
    ensures r == m.(isPromotion := r.isPromotion, promotionPiece := r.promotionPiece)
    ensures r != m ==> r.isPromotion && r.promotionPiece in {QUEEN, ROOK, BISHOP, KNIGHT}
  {
    if m.pieceType == PAWN && ((m.color == WHITE && m.toSquare >= 56) || (m.color == BLACK && m.toSquare < 8)) then
      m.(isPromotion := true, promotionPiece := PromotionChoice(choice))
    else m
  }

  // ---------------------------------------------------------------------
  // main's loop (chess.cpp:156-341) as a function of its input
  // ---------------------------------------------------------------------

  /** One line of standard input, with the character the promotion prompt would read after it. */
  datatype Input = Input(line: string, choice: char)

  /** What main prints back for one line. */
  datatype Reply =
    | Quit
    | MovesFormatError
    | MovesSquareError
    | ShowMoves(square: Square, targets: set<Square>)
    | MoveFormatError
    | CoordinatesError
    | NotOwnPiece
    | IllegalMove
    | Moved(move: LegacyMove)

  /** main's local variables: the player to move, the reused `currentMove` and `gameOver`. */
  datatype Control = Control(player: Color, current: LegacyMove, gameOver: bool)

  /** `Move currentMove;` before any assignment; NONE marks the unset piece fields. */
  const Unset: LegacyMove := LegacyMove(0, 0, false, NONE, WHITE, false, NoCastling, false, NONE)

  const StartControl: Control := Control(WHITE, Unset, false)

  /** The board chess.cpp keeps, as a Board: it has no castling byte and no en passant square. */
  function Plain(white: Side, black: Side): Board
  {
    Board(white, black, 0, -1)
  }

  /** The game after one line: board, castling flags, main's locals and the reply. */
  datatype Step = Step(board: Board, rights: CastlingRights, ctl: Control, reply: Reply)

  /**
   * One pass of main's loop body, with the stored composites equal to the
   * boards' unions (updateBitboards and initializeBitboards recompute them).
   */
  function Turn(t: Lookups, b: Board, cr: CastlingRights, ctl: Control, input: Input): Step
  {
    var v := ApiView(b);
    var c := ctl.player;
    match ParseLine(input.line)
    case QuitLine => Step(b, cr, ctl.(gameOver := true), Quit)
    case MovesBadFormat => Step(b, cr, ctl, MovesFormatError)
    case MovesBadSquare => Step(b, cr, ctl, MovesSquareError)
    case MovesQuery(square) => Step(b, cr, ctl, ShowMoves(square, LegalTargets(t, v, c, square)))
    case BadFormat => Step(b, cr, ctl, MoveFormatError)
    case BadCoordinates => Step(b, cr, ctl, CoordinatesError)
    case MoveText(from, to) => MoveTurn(t, b, cr, ctl, from, to, input.choice)
  }

  /** The part of main's loop body after a well-formed move line. */
  function MoveTurn(t: Lookups, b: Board, cr: CastlingRights, ctl: Control, from: Square, to: Square, choice: char): Step
  {
    var v := ApiView(b);
    var c := ctl.player;
    var m0 := ctl.current.(fromSquare := from, toSquare := to, color := c);
    if from !in Ours(v, c) then Step(b, cr, ctl.(current := m0), NotOwnPiece)
    else
      var piece := LegacyMover(b, from);
      var m1 := if piece == NONE then m0 else m0.(pieceType := piece);
      if to !in LegalTargets(t, v, c, from) then Step(b, cr, ctl.(current := m1), IllegalMove)
      else
        Commit(b, cr, m1.(isCapture := to in Theirs(v, c)), choice, Theirs(v, c))
  }

  /**
   * The end of main's loop body for an accepted move: the castling block,
   * the promotion block, updateBitboards (reading the enemy composite
   * stored before the move) and the change of player.
   */
  function Commit(b: Board, cr: CastlingRights, m: LegacyMove, choice: char, enemy: set<Square>): Step
  {
    var castled := CastleStep(b, cr, m);
    var m3 := PromotionStep(castled.2, choice);
    Step(Updated(castled.0, enemy, m3), castled.1, Control(InvertColor(m.color), m3, false), Moved(m3))
  }

  /** The state and replies after main has read the inputs in order, stopping at `quit`. */
  datatype Outcome = Outcome(board: Board, rights: CastlingRights, ctl: Control, replies: seq<Reply>)

  function Session(t: Lookups, b: Board, cr: CastlingRights, ctl: Control, inputs: seq<Input>): Outcome
    decreases |inputs|
  {
    if inputs == [] || ctl.gameOver then Outcome(b, cr, ctl, [])
    else
      var s := Turn(t, b, cr, ctl, inputs[0]);
      var rest := Session(t, s.board, s.rights, s.ctl, inputs[1..]);
      rest.(replies := [s.reply] + rest.replies)
  }

  /** Session after one line, when the game is still on. */
  lemma SessionStep(t: Lookups, b: Board, cr: CastlingRights, ctl: Control, inputs: seq<Input>)
    requires inputs != [] && !ctl.gameOver
    ensures var s := Turn(t, b, cr, ctl, inputs[0]);
      var rest := Session(t, s.board, s.rights, s.ctl, inputs[1..]);
      Session(t, b, cr, ctl, inputs) == rest.(replies := [s.reply] + rest.replies)
  {
  }

  /** One pass of main's loop keeps the rest of the session equal to what is left of the whole one. */
  lemma SessionStays(t: Lookups, b: Board, cr: CastlingRights, ctl: Control, inputs: seq<Input>,
                     replies: seq<Reply>, final: Outcome, next: Step)
    requires inputs != [] && !ctl.gameOver && next == Turn(t, b, cr, ctl, inputs[0])
    requires var o := Session(t, b, cr, ctl, inputs);
      o.board == final.board && o.rights == final.rights && replies + o.replies == final.replies
    ensures var o := Session(t, next.board, next.rights, next.ctl, inputs[1..]);
      o.board == final.board && o.rights == final.rights && (replies + [next.reply]) + o.replies == final.replies
  {
    SessionStep(t, b, cr, ctl, inputs);
    var rest := Session(t, next.board, next.rights, next.ctl, inputs[1..]);
    assert (replies + [next.reply]) + rest.replies == replies + ([next.reply] + rest.replies);
  }

  /** Each from-square main accepts holds a piece, so the dispatch always sets the piece type. */
  lemma OwnPieceHasType(b: Board, c: Color, from: Square)
    requires from in Ours(ApiView(b), c)
    ensures LegacyMover(b, from) != NONE
  {
  }

  /**
   * A line that is not a legal move leaves the board, the flags and the
   * player to move as they were; only `quit` ends the game.
   */
  lemma TurnRejects(t: Lookups, b: Board, cr: CastlingRights, ctl: Control, input: Input)
    requires !Turn(t, b, cr, ctl, input).reply.Moved?
    ensures var s := Turn(t, b, cr, ctl, input);
      s.board == b && s.rights == cr && s.ctl.player == ctl.player &&
      (s.ctl.gameOver <==> ctl.gameOver || s.reply == Quit)
  {
  }

  /**
   * A move main makes starts on one of the player's pieces, ends on a
   * target of that piece's move set that the player does not occupy, is
   * a capture exactly when the opponent occupies the target, and hands the
   * turn to the opponent.
   */
  lemma TurnMoves(t: Lookups, b: Board, cr: CastlingRights, ctl: Control, input: Input)
    requires Turn(t, b, cr, ctl, input).reply.Moved?
    ensures var s := Turn(t, b, cr, ctl, input);
      var m := s.reply.move;
      ParseLine(input.line) == MoveText(m.fromSquare, m.toSquare) &&
      m.color == ctl.player && m.fromSquare in Ours(ApiView(b), m.color) &&
      m.pieceType == LegacyMover(b, m.fromSquare) &&
      m.toSquare in LegalTargets(t, ApiView(b), m.color, m.fromSquare) &&
      m.toSquare !in Ours(ApiView(b), m.color) &&
      (m.isCapture <==> m.toSquare in Theirs(ApiView(b), m.color)) &&
      s.ctl == Control(InvertColor(ctl.player), m, false) && s.ctl.current == m
  {
    var p := ParseLine(input.line);
    assert p.MoveText?;
    MoveTurnMoves(t, b, cr, ctl, p.from, p.to, input.choice);
  }

  lemma MoveTurnMoves(t: Lookups, b: Board, cr: CastlingRights, ctl: Control, from: Square, to: Square, choice: char)
    requires MoveTurn(t, b, cr, ctl, from, to, choice).reply.Moved?
    ensures var s := MoveTurn(t, b, cr, ctl, from, to, choice);
      var m := s.reply.move;
      m.fromSquare == from && m.toSquare == to &&
      m.color == ctl.player && m.fromSquare in Ours(ApiView(b), m.color) &&
      m.pieceType == LegacyMover(b, m.fromSquare) &&
      m.toSquare in LegalTargets(t, ApiView(b), m.color, m.fromSquare) &&
      m.toSquare !in Ours(ApiView(b), m.color) &&
      (m.isCapture <==> m.toSquare in Theirs(ApiView(b), m.color)) &&
      s.ctl == Control(InvertColor(ctl.player), m, false)
  {
    OwnPieceHasType(b, ctl.player, from);
  }

  /**
   * With chess.cpp's lookups a move main makes puts the piece on the
   * target and takes it off its square (unless it moved in place), the
   * castling flags never change, and the piece's own board gains exactly
   * the target.
   */
  lemma TurnMovesPiece(rook: (Square, set<Square>) -> set<Square>, bishop: (Square, set<Square>) -> set<Square>,
                       b: Board, cr: CastlingRights, ctl: Control, input: Input)
    requires Turn(LegacyLookups(rook, bishop), b, cr, ctl, input).reply.Moved?
    ensures var s := Turn(LegacyLookups(rook, bishop), b, cr, ctl, input);
      var m := s.reply.move;
      s.rights == cr &&
      s.board == Updated(b, Theirs(ApiView(b), m.color), m) &&
      PieceBoard(SideOf(s.board, m.color), m.pieceType) == PieceBoard(SideOf(b, m.color), m.pieceType) - {m.fromSquare} + {m.toSquare}
  {
    var t := LegacyLookups(rook, bishop);
    TurnMoves(t, b, cr, ctl, input);
    var s := Turn(t, b, cr, ctl, input);
    var m := s.reply.move;
    var c := ctl.player;
    var m0 := ctl.current.(fromSquare := m.fromSquare, toSquare := m.toSquare, color := c);
    var m2 := m0.(pieceType := m.pieceType).(isCapture := m.toSquare in Theirs(ApiView(b), c));
    if m2.pieceType == KING {
      CastlingBranchUnreachable(t, b, cr, m2);
    }
    assert CastleStep(b, cr, m2) == (b, cr, m2);
    OwnPieceHasType(b, c, m.fromSquare);
    UpdatedMover(b, Theirs(ApiView(b), c), m, m.pieceType);
  }

  /** Typing a legal move's two square names makes that move. */
  lemma TypedMoveIsMade(t: Lookups, b: Board, cr: CastlingRights, ctl: Control, from: Square, to: Square, choice: char)
    requires from in Ours(ApiView(b), ctl.player) && to in LegalTargets(t, ApiView(b), ctl.player, from)
    ensures var s := Turn(t, b, cr, ctl, Input(ToAlgebraic(from) + " " + ToAlgebraic(to), choice));
      s.reply.Moved? && s.reply.move.fromSquare == from && s.reply.move.toSquare == to
  {
    TypedMoveRoundTrip(from, to);
  }

  /** One line flips the player to move exactly when it makes a move, and keeps chess.cpp's castling flags. */
  lemma TurnAlternates(rook: (Square, set<Square>) -> set<Square>, bishop: (Square, set<Square>) -> set<Square>,
                       b: Board, cr: CastlingRights, ctl: Control, input: Input)
    ensures var s := Turn(LegacyLookups(rook, bishop), b, cr, ctl, input);
      s.ctl.player == (if s.reply.Moved? then InvertColor(ctl.player) else ctl.player) && s.rights == cr
  {
    var t := LegacyLookups(rook, bishop);
    if Turn(t, b, cr, ctl, input).reply.Moved? {
      TurnMoves(t, b, cr, ctl, input);
      TurnMovesPiece(rook, bishop, b, cr, ctl, input);
    } else {
      TurnRejects(t, b, cr, ctl, input);
    }
  }

  lemma AfterMovesStep(c: Color, n: nat)
    ensures AfterMoves(c, n + 1) == AfterMoves(InvertColor(c), n)
  {
    InvertColorInvolution(c);
  }

  /** The number of moves among the replies. */
  function MovesMade(replies: seq<Reply>): nat
  {
    if replies == [] then 0 else (if replies[0].Moved? then 1 else 0) + MovesMade(replies[1..])
  }

  /** The colour to move after n moves from c. */
  function AfterMoves(c: Color, n: nat): Color
  {
    if n % 2 == 0 then c else InvertColor(c)
  }

  /**
   * Over a whole session the player to move alternates with each move
   * made and with nothing else, and (with chess.cpp's lookups) the castling
   * flags stay as they started.
   */
  lemma {:induction false} SessionAlternates(rook: (Square, set<Square>) -> set<Square>, bishop: (Square, set<Square>) -> set<Square>,
                                             b: Board, cr: CastlingRights, ctl: Control, inputs: seq<Input>)
    ensures var o := Session(LegacyLookups(rook, bishop), b, cr, ctl, inputs);
      o.ctl.player == AfterMoves(ctl.player, MovesMade(o.replies)) && o.rights == cr
    decreases |inputs|
  {
    var t := LegacyLookups(rook, bishop);
    if inputs != [] && !ctl.gameOver {
      var s := Turn(t, b, cr, ctl, inputs[0]);
      var rest := Session(t, s.board, s.rights, s.ctl, inputs[1..]);
      SessionAlternates(rook, bishop, s.board, s.rights, s.ctl, inputs[1..]);
      var o := Session(t, b, cr, ctl, inputs);
      assert o == rest.(replies := [s.reply] + rest.replies);
      assert ([s.reply] + rest.replies)[1..] == rest.replies;
      var n := MovesMade(rest.replies);
      assert MovesMade(o.replies) == (if s.reply.Moved? then 1 else 0) + n;
      TurnAlternates(rook, bishop, b, cr, ctl, inputs[0]);
      AfterMovesStep(ctl.player, n);
    }
  }

  /** A session ends with the game over exactly when some line was `quit`, which is the last one read. */
  lemma {:induction false} SessionQuits(t: Lookups, b: Board, cr: CastlingRights, ctl: Control, inputs: seq<Input>)
    requires !ctl.gameOver
    ensures var o := Session(t, b, cr, ctl, inputs);
      |o.replies| <= |inputs| &&
      (o.ctl.gameOver <==> Quit in o.replies) &&
      (forall i :: 0 <= i < |o.replies| - 1 ==> o.replies[i] != Quit) &&
      (|o.replies| < |inputs| ==> o.ctl.gameOver)
    decreases |inputs|
  {
    if inputs != [] {
      var s := Turn(t, b, cr, ctl, inputs[0]);
      var o := Session(t, b, cr, ctl, inputs);
      if s.reply != Quit {
        TurnRejectsOrMoves(t, b, cr, ctl, inputs[0]);
        SessionQuits(t, s.board, s.rights, s.ctl, inputs[1..]);
        var rest := Session(t, s.board, s.rights, s.ctl, inputs[1..]);
        assert o.replies == [s.reply] + rest.replies;
        forall i | 0 <= i < |o.replies| - 1
          ensures o.replies[i] != Quit
        {
          if i > 0 {
            assert o.replies[i] == rest.replies[i - 1];
          }
        }
      } else {
        assert s.ctl.gameOver;
      }
    }
  }

  /** Only `quit` sets gameOver. */
  lemma TurnRejectsOrMoves(t: Lookups, b: Board, cr: CastlingRights, ctl: Control, input: Input)
    requires !ctl.gameOver
    ensures var s := Turn(t, b, cr, ctl, input);
      s.ctl.gameOver <==> s.reply == Quit
  {
  }
}
