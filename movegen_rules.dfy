// What the two move generators compute (api/src/move/movegen.cpp and
// chess_engine/src/move/movegen.cpp), as functions on positions.  Both walk
// the mover's pieces in ascending square order, pick the branch of the first
// two-colour piece board holding the square, walk that piece's target squares
// in ascending order, keep a target that holds an enemy piece or no piece of
// the mover, and emit the move unless it leaves the mover's king attacked.
// The generators differ in where they read the composite boards (computed by
// the api, stored by the engine) and in the constructor slot that receives
// the "enemy on target" flag.
//
// Bitboard expressions are stated on square sets: `S << k` is Shift(S, k),
// `S >> k` is Shift(S, -k), `&`, `|` and `& ~` are `*`, `+` and `-`.

module MoveGeneration {
  import opened Bitboards
  import opened Pieces
  import opened SquareSets
  import opened Boards
  import opened Moves
  import opened MoveRules
  import opened Rays

  /**
   * The attack lookups: `KNIGHT_ATTACKS[sq]`, `KING_ATTACKS[sq]` and the
   * magic lookups `getRookMoves`/`getBishopMoves` (Magic proves what the
   * latter return once built).
   */
  datatype Lookups = Lookups(
    knight: Square -> set<Square>,
    king: Square -> set<Square>,
    rook: (Square, set<Square>) -> set<Square>,
    bishop: (Square, set<Square>) -> set<Square>)

  /** `getQueenMoves`: the union of the rook and bishop lookups. */
  function QueenMoves(t: Lookups, square: Square, occupied: set<Square>): set<Square>
  {
    t.rook(square, occupied) + t.bishop(square, occupied)
  }

  /** Which source file a generator models. */
  datatype Variant = Api | Engine

  /**
   * What a generator reads of a position: the piece boards and the
   * composites as it obtains them (the api computes them from the boards,
   * the engine reads the stored fields).
   */
  datatype View = View(board: Board, white: set<Square>, black: set<Square>, occupied: set<Square>)

  /** The composites computed from the boards, as the api getters and a fresh makeMove give them. */
  function ApiView(b: Board): View
  {
    View(b, PiecesOf(b.white), PiecesOf(b.black), Occupied(b))
  }

  function Ours(v: View, c: Color): set<Square>
  {
    if c == WHITE then v.white else v.black
  }

  function Theirs(v: View, c: Color): set<Square>
  {
    if c == WHITE then v.black else v.white
  }

  // ---------------------------------------------------------------------
  // Shifts and masks
  // ---------------------------------------------------------------------

  /** `S << k` (k >= 0) or `S >> -k` (k < 0): squares shifted off the board are lost. */
  function Shift(S: set<Square>, k: int): (r: set<Square>)
    ensures forall t: Square :: t in r <==> t - k in S
  {
    set s <- S | 0 <= s + k < 64 :: s + k
  }

  /** `RANK_n` as the squares of rank index r (0 for rank 1). */
  function RankSquares(r: int): (R: set<Square>)
    ensures forall t: Square :: t in R <==> RankOf(t) == r
  {
    set t: Square | RankOf(t) == r
  }

  /** `FILE_A` (f = 0) and `FILE_H` (f = 7). */
  function FileSquares(f: int): (F: set<Square>)
    ensures forall t: Square :: t in F <==> FileOf(t) == f
  {
    set t: Square | FileOf(t) == f
  }

  // ---------------------------------------------------------------------
  // getPawnMoves (api/src/move/movegen.cpp:129-194,
  // chess_engine/src/move/movegen.cpp:102-151)
  // ---------------------------------------------------------------------

  /** The forward direction of a colour's pawns, as a square offset. */
  function Forward(color: Color): int
  {
    if color == WHITE then 8 else -8
  }

  /** The single push, and the double push from the home rank (`RANK_2`/`RANK_7`) onto `RANK_4`/`RANK_5`. */
  function PawnPushes(square: Square, color: Color, occupied: set<Square>): set<Square>
  {
    var fwd := Forward(color);
    var singlePush := Shift({square}, fwd) - occupied;
    var home, landing := if color == WHITE then 1 else 6, if color == WHITE then 3 else 4;
    singlePush +
    (if square in RankSquares(home) then (Shift(singlePush, fwd) - occupied) * RankSquares(landing) else {})
  }

  /**
   * The two diagonal captures: `<< 7`/`>> 9` masked by `~FILE_H` when the
   * pawn is not on file a, `<< 9`/`>> 7` masked by `~FILE_A` when it is not
   * on file h, each kept only on enemy squares.
   */
  function PawnCaptures(square: Square, color: Color, enemy: set<Square>): set<Square>
  {
    var fwd := Forward(color);
    (if square % 8 != 0 then Shift({square}, fwd - 1) * enemy - FileSquares(7) else {}) +
    (if square % 8 != 7 then Shift({square}, fwd + 1) * enemy - FileSquares(0) else {})
  }

  /** The en passant part: from the fifth rank (24..31 for White, 32..39 for Black) onto the en passant square. */
  function EnPassantTargets(square: Square, color: Color, ep: int): set<Square>
  {
    if color == WHITE then
      if ep != -1 && 24 <= square < 32 then
        (if square % 8 != 0 && ep == square + 7 then {square + 7} else {}) +
        (if square % 8 != 7 && ep == square + 9 then {square + 9} else {})
      else {}
    else
      if ep != -1 && 32 <= square < 40 then
        (if square % 8 != 0 && ep == square - 9 then {square - 9} else {}) +
        (if square % 8 != 7 && ep == square - 7 then {square - 7} else {})
      else {}
  }

  /** `getPawnMoves(square, color, occupied, pos)`, with pos's two colour composites passed in. */
  function PawnMoves(square: Square, color: Color, occupied: set<Square>, white: set<Square>, black: set<Square>, ep: int): set<Square>
  {
    PawnPushes(square, color, occupied) +
    PawnCaptures(square, color, if color == WHITE then black else white) +
    EnPassantTargets(square, color, ep)
  }

  /** t is one rank ahead of `square` for the colour, on a neighbouring file. */
  predicate DiagonalAhead(square: Square, color: Color, t: Square)
  {
    var dir := if color == WHITE then 1 else -1;
    RankOf(t) == RankOf(square) + dir && (FileOf(t) == FileOf(square) - 1 || FileOf(t) == FileOf(square) + 1)
  }

  /** The pawn steps of the rules: push, double push from the home rank, diagonal capture or en passant. */
  predicate PawnStep(square: Square, color: Color, occupied: set<Square>, enemy: set<Square>, ep: int, t: Square)
  {
    var fwd := Forward(color);
    var home, epRank := if color == WHITE then 1 else 6, if color == WHITE then 3 else 4;
    (t == square + fwd && t !in occupied) ||
    (RankOf(square) == home && t == square + 2 * fwd && square + fwd !in occupied && t !in occupied) ||
    (DiagonalAhead(square, color, t) && (t in enemy || (t == ep && RankOf(square) == epRank)))
  }

  lemma DiagonalOffsets(square: Square, color: Color, t: Square)
    ensures DiagonalAhead(square, color, t) <==>
      (t == square + Forward(color) - 1 && FileOf(square) != 0) || (t == square + Forward(color) + 1 && FileOf(square) != 7)
  {
    assert square == 8 * RankOf(square) + FileOf(square);
    assert t == 8 * RankOf(t) + FileOf(t);
  }

  lemma PushesGeometry(square: Square, color: Color, occupied: set<Square>, t: Square)
    ensures t in PawnPushes(square, color, occupied) <==>
      (t == square + Forward(color) && t !in occupied) ||
      (RankOf(square) == (if color == WHITE then 1 else 6) && t == square + 2 * Forward(color) &&
       square + Forward(color) !in occupied && t !in occupied)
  {
    var fwd := Forward(color);
    var singlePush := Shift({square}, fwd) - occupied;
    if t in Shift(singlePush, fwd) {
      assert t - fwd in singlePush;
    }
    if t == square + 2 * fwd && square + fwd !in occupied {
      assert t - fwd in singlePush;
    }
  }

  lemma CapturesGeometry(square: Square, color: Color, enemy: set<Square>, t: Square)
    ensures t in PawnCaptures(square, color, enemy) <==> DiagonalAhead(square, color, t) && t in enemy
  {
    DiagonalOffsets(square, color, t);
    var fwd := Forward(color);
    if t == square + fwd - 1 && FileOf(square) != 0 {
      assert FileOf(t) != 7;
    }
    if t == square + fwd + 1 && FileOf(square) != 7 {
      assert FileOf(t) != 0;
    }
  }

  lemma EnPassantGeometry(square: Square, color: Color, ep: int, t: Square)
    ensures t in EnPassantTargets(square, color, ep) <==>
      DiagonalAhead(square, color, t) && t == ep && RankOf(square) == (if color == WHITE then 3 else 4)
  {
    DiagonalOffsets(square, color, t);
  }

  /**
   * The targets of getPawnMoves are exactly the pawn steps: single and
   * double pushes onto empty squares, and diagonal steps onto an enemy piece
   * or onto the en passant square from the fifth rank; the file masks keep
   * the diagonals from wrapping around the board edge.
   */
  lemma PawnMovesGeometry(square: Square, color: Color, occupied: set<Square>, white: set<Square>, black: set<Square>, ep: int, t: Square)
    ensures t in PawnMoves(square, color, occupied, white, black, ep) <==>
      PawnStep(square, color, occupied, if color == WHITE then black else white, ep, t)
  {
    PushesGeometry(square, color, occupied, t);
    CapturesGeometry(square, color, if color == WHITE then black else white, t);
    EnPassantGeometry(square, color, ep, t);
  }

  // ---------------------------------------------------------------------
  // isSquareAttacked, isInCheck, wouldLeaveKingInCheck
  // ---------------------------------------------------------------------

  /**
   * `getBit(board, i)` = `(board >> i) & 1` for any int i: a shift count
   * outside 0..63 is undefined in C++; this model gives it the x86-64
   * meaning, the count taken modulo 64.
   */
  predicate ProbeBit(S: set<Square>, i: int)
  {
    i % 64 in S
  }

  /** The pawn test of isSquareAttacked, with its two probes that have no rank guard. */
  predicate PawnAttack(square: Square, attacker: Color, pawns: set<Square>)
  {
    if attacker == WHITE then
      (square > 7 && square % 8 > 0 && ProbeBit(pawns, square - 9)) ||
      (square % 8 < 7 && ProbeBit(pawns, square - 7))
    else
      (square < 56 && square % 8 > 0 && ProbeBit(pawns, square + 7)) ||
      (square % 8 < 7 && ProbeBit(pawns, square + 9))
  }

  /** A pawn of colour `attacker` attacks `square` in the rules: one rank behind it, on a neighbouring file. */
  predicate PawnGuards(square: Square, attacker: Color, pawns: set<Square>)
  {
    exists p :: p in pawns && RankOf(square) == RankOf(p) + (if attacker == WHITE then 1 else -1) &&
      (FileOf(p) == FileOf(square) - 1 || FileOf(p) == FileOf(square) + 1)
  }

  /** What the unguarded probes see when they wrap: a pawn on the far back rank. */
  predicate WrappedProbe(square: Square, attacker: Color, pawns: set<Square>)
  {
    if attacker == WHITE then square < 7 && square + 57 in pawns
    else square >= 56 && square % 8 < 7 && square - 55 in pawns
  }

  /**
   * The pawn test is the rules' pawn attack, plus one spurious case: the
   * unguarded probe `square - 7` (White) or `square + 9` (Black) wraps round
   * and reads a pawn on the attacker's promotion rank.
   */
  lemma PawnAttackSplit(square: Square, attacker: Color, pawns: set<Square>)
    ensures PawnAttack(square, attacker, pawns) <==> PawnGuards(square, attacker, pawns) || WrappedProbe(square, attacker, pawns)
  {
    if attacker == WHITE {
      WhitePawnAttack(square, pawns);
    } else {
      BlackPawnAttack(square, pawns);
    }
  }

  /** The rules' pawn attack, as the two squares behind the target. */
  lemma GuardsBySquare(square: Square, attacker: Color, pawns: set<Square>)
    ensures PawnGuards(square, attacker, pawns) <==>
      (square % 8 > 0 && square - Forward(attacker) - 1 in pawns) ||
      (square % 8 < 7 && square - Forward(attacker) + 1 in pawns)
  {
    var back := -Forward(attacker);
    if PawnGuards(square, attacker, pawns) {
      var p :| p in pawns && RankOf(square) == RankOf(p) + (if attacker == WHITE then 1 else -1) &&
        (FileOf(p) == FileOf(square) - 1 || FileOf(p) == FileOf(square) + 1);
      assert square == 8 * RankOf(square) + FileOf(square);
      assert p == 8 * RankOf(p) + FileOf(p);
    }
    if square % 8 > 0 && square + back - 1 in pawns {
      var p := square + back - 1;
      assert RankOf(square) == RankOf(p) + (if attacker == WHITE then 1 else -1);
    }
    if square % 8 < 7 && square + back + 1 in pawns {
      var p := square + back + 1;
      assert RankOf(square) == RankOf(p) + (if attacker == WHITE then 1 else -1);
    }
  }

  lemma WhitePawnAttack(square: Square, pawns: set<Square>)
    ensures PawnAttack(square, WHITE, pawns) <==> PawnGuards(square, WHITE, pawns) || WrappedProbe(square, WHITE, pawns)
  {
    GuardsBySquare(square, WHITE, pawns);
    if square < 7 {
      assert (square - 7) % 64 == square + 57;
    } else {
      assert (square - 7) % 64 == square - 7;
    }
    if square > 8 {
      assert (square - 9) % 64 == square - 9;
    }
  }

  lemma BlackPawnAttack(square: Square, pawns: set<Square>)
    ensures PawnAttack(square, BLACK, pawns) <==> PawnGuards(square, BLACK, pawns) || WrappedProbe(square, BLACK, pawns)
  {
    GuardsBySquare(square, BLACK, pawns);
    if square >= 55 {
      assert (square + 9) % 64 == square - 55;
    } else {
      assert (square + 9) % 64 == square + 9;
    }
    if square < 56 {
      assert (square + 7) % 64 == square + 7;
    }
  }

  /** A concrete case: a white pawn left on d8 is seen as attacking e1 (square 4) although it guards nothing there. */
  lemma WrappedProbeExample()
    ensures PawnAttack(4, WHITE, {61}) && !PawnGuards(4, WHITE, {61})
  {
    assert (4 - 7) % 64 == 61;
  }

  /** `isSquareAttacked(square, attacker, pos)`: occupancy is the union of the two colour composites. */
  predicate SquareAttacked(t: Lookups, square: Square, attacker: Color, v: View)
  {
    var occupied := v.white + v.black;
    var x := SideOf(v.board, attacker);
    PawnAttack(square, attacker, x.pawns) ||
    t.knight(square) * x.knights != {} ||
    t.bishop(square, occupied) * (x.bishops + x.queens) != {} ||
    t.rook(square, occupied) * (x.rooks + x.queens) != {} ||
    t.king(square) * x.king != {}
  }

  /** `isInCheck(pos, color)`: the king square is the lowest bit of the king board (ctz of 0 is undefined). */
  predicate InCheck(t: Lookups, v: View, color: Color)
    requires SideOf(v.board, color).king != {}
  {
    SquareAttacked(t, Least(SideOf(v.board, color).king), InvertColor(color), v)
  }

  /**
   * `wouldLeaveKingInCheck(pos, move)`: the move is made on a copy, whose
   * composites are then those of its boards, and the mover's king tested.
   */
  predicate LeavesKingInCheck(t: Lookups, b: Board, m: Move)
    requires MakeDefined(m) && SideOf(b, m.color).king != {}
  {
    MoveKeepsKing(b, m);
    InCheck(t, ApiView(MadeMove(b, m)), m.color)
  }

  // ---------------------------------------------------------------------
  // getCastlingMoves (api/src/move/movegen.cpp:196-252,
  // chess_engine/src/move/movegen.cpp:153-197)
  // ---------------------------------------------------------------------

  /** `getCastlingMoves(color, occupied, pos)`: the king's target squares g1/c1 or g8/c8. */
  function CastlingMoves(t: Lookups, color: Color, occupied: set<Square>, v: View): set<Square>
  {
    var cr := v.board.castlingRights;
    if color == WHITE then
      (if cr & 1 != 0 && 5 !in occupied && 6 !in occupied &&
          !SquareAttacked(t, 4, BLACK, v) && !SquareAttacked(t, 5, BLACK, v) && !SquareAttacked(t, 6, BLACK, v)
       then {6} else {}) +
      (if cr & 2 != 0 && 1 !in occupied && 2 !in occupied && 3 !in occupied &&
          !SquareAttacked(t, 4, BLACK, v) && !SquareAttacked(t, 3, BLACK, v) && !SquareAttacked(t, 2, BLACK, v)
       then {2} else {})
    else
      (if cr & 4 != 0 && 61 !in occupied && 62 !in occupied &&
          !SquareAttacked(t, 60, WHITE, v) && !SquareAttacked(t, 61, WHITE, v) && !SquareAttacked(t, 62, WHITE, v)
       then {62} else {}) +
      (if cr & 8 != 0 && 57 !in occupied && 58 !in occupied && 59 !in occupied &&
          !SquareAttacked(t, 60, WHITE, v) && !SquareAttacked(t, 59, WHITE, v) && !SquareAttacked(t, 58, WHITE, v)
       then {58} else {})
  }

  /** The castling bit of a colour and wing: bit 0/1 for White, 2/3 for Black, kingside first. */
  function CastleRight(c: Color, kingside: bool): bv8
  {
    if c == WHITE then (if kingside then 1 else 2) else (if kingside then 4 else 8)
  }

  /** The king's target square. */
  function CastleTarget(c: Color, kingside: bool): Square
  {
    var back := if c == WHITE then 0 else 56;
    back + (if kingside then 6 else 2)
  }

  /** The squares between king and rook. */
  function CastleGap(c: Color, kingside: bool): set<Square>
  {
    var back := if c == WHITE then 0 else 56;
    if kingside then {back + 5, back + 6} else {back + 1, back + 2, back + 3}
  }

  /** The king's square and the squares it crosses or lands on. */
  function KingWalk(c: Color, kingside: bool): set<Square>
  {
    var back := if c == WHITE then 0 else 56;
    if kingside then {back + 4, back + 5, back + 6} else {back + 4, back + 3, back + 2}
  }

  /** No square of the walk is attacked by the other colour. */
  predicate WalkSafe(t: Lookups, c: Color, kingside: bool, v: View)
  {
    forall w :: w in KingWalk(c, kingside) ==> !SquareAttacked(t, w, InvertColor(c), v)
  }

  /** The rules' conditions for castling on one wing: the right, an empty gap, a safe walk. */
  predicate CastleAllowed(t: Lookups, c: Color, kingside: bool, occupied: set<Square>, v: View)
  {
    v.board.castlingRights & CastleRight(c, kingside) != 0 &&
    (forall g :: g in CastleGap(c, kingside) ==> g !in occupied) && WalkSafe(t, c, kingside, v)
  }

  lemma CastlingWing(t: Lookups, color: Color, kingside: bool, occupied: set<Square>, v: View)
    ensures CastleTarget(color, kingside) in CastlingMoves(t, color, occupied, v) <==> CastleAllowed(t, color, kingside, occupied, v)
  {
    var back := if color == WHITE then 0 else 56;
    var a, b, c := back + 4, if kingside then back + 5 else back + 3, if kingside then back + 6 else back + 2;
    var other := InvertColor(color);
    assert KingWalk(color, kingside) == {a, b, c};
    assert WalkSafe(t, color, kingside, v) <==>
      !SquareAttacked(t, a, other, v) && !SquareAttacked(t, b, other, v) && !SquareAttacked(t, c, other, v);
    if kingside {
      assert CastleGap(color, kingside) == {back + 5, back + 6};
    } else {
      assert CastleGap(color, kingside) == {back + 1, back + 2, back + 3};
    }
  }

  /**
   * A castling target is returned exactly when it is the king's target on
   * a wing whose right is held, whose gap to the rook is empty and whose
   * king walk is not attacked.
   */
  lemma CastlingMovesSpec(t: Lookups, color: Color, occupied: set<Square>, v: View, s: Square)
    ensures s in CastlingMoves(t, color, occupied, v) <==>
      (s == CastleTarget(color, true) && CastleAllowed(t, color, true, occupied, v)) ||
      (s == CastleTarget(color, false) && CastleAllowed(t, color, false, occupied, v))
  {
    CastlingWing(t, color, true, occupied, v);
    CastlingWing(t, color, false, occupied, v);
  }

  // ---------------------------------------------------------------------
  // generateMoves
  // ---------------------------------------------------------------------

  /** One call of a generator: its variant, the lookups, the position as it reads it, and the colour to move. */
  datatype Gen = Gen(variant: Variant, t: Lookups, v: View, color: Color)

  /** Both generators test for the mover's king with ctz, so it must exist. */
  predicate KingPresent(g: Gen)
  {
    SideOf(g.v.board, g.color).king != {}
  }

  /** The branch of generateMoves a square takes: the first two-colour piece board holding it. */
  function Mover(b: Board, square: Square): PieceType
  {
    if square in b.white.pawns + b.black.pawns then PAWN
    else if square in b.white.knights + b.black.knights then KNIGHT
    else if square in b.white.bishops + b.black.bishops then BISHOP
    else if square in b.white.rooks + b.black.rooks then ROOK
    else if square in b.white.queens + b.black.queens then QUEEN
    else if square in b.white.king + b.black.king then KING
    else NONE
  }

  /** The target board of a branch; pawns and sliders read the occupancy the generator uses. */
  function Targets(g: Gen, square: Square, piece: PieceType): set<Square>
  {
    match piece
    case PAWN => PawnMoves(square, g.color, g.v.occupied, g.v.white, g.v.black, g.v.board.enPassantSquare)
    case KNIGHT => g.t.knight(square)
    case BISHOP => g.t.bishop(square, g.v.occupied)
    case ROOK => g.t.rook(square, g.v.occupied)
    case QUEEN => QueenMoves(g.t, square, g.v.occupied)
    case KING => g.t.king(square)
    case NONE => {}
  }

  /**
   * The move built for a target.  The api's pawn branch passes the enemy
   * flag as `isCapture`; every other branch, and every branch of the
   * engine, passes false there and the enemy flag in the `isCastling` slot.
   */
  function Candidate(g: Gen, square: Square, target: Square, piece: PieceType): Move
  {
    var enemy := target in Theirs(g.v, g.color);
    if g.variant == Api && piece == PAWN then NewMove(square, target, enemy, PAWN, g.color, false)
    else NewMove(square, target, false, piece, g.color, enemy)
  }

  /** The two tests a target passes before it is pushed. */
  predicate Admitted(g: Gen, square: Square, target: Square, piece: PieceType)
    requires KingPresent(g)
  {
    (target in Theirs(g.v, g.color) || target !in Ours(g.v, g.color)) &&
    !LeavesKingInCheck(g.t, g.v.board, Candidate(g, square, target, piece))
  }

  /** The inner loop of one branch: targets in ascending order (popLSB). */
  function TargetMoves(g: Gen, square: Square, piece: PieceType, T: set<Square>): seq<Move>
    requires KingPresent(g)
    decreases |T|
  {
    if T == {} then []
    else
      var target := Least(T);
      (if Admitted(g, square, target, piece) then [Candidate(g, square, target, piece)] else []) +
      TargetMoves(g, square, piece, T - {target})
  }

  /** One step of the inner loop, for the loop proofs. */
  lemma TargetMovesStep(g: Gen, square: Square, piece: PieceType, T: set<Square>)
    requires KingPresent(g) && T != {}
    ensures TargetMoves(g, square, piece, T) ==
      (if Admitted(g, square, Least(T), piece) then [Candidate(g, square, Least(T), piece)] else []) +
      TargetMoves(g, square, piece, T - {Least(T)})
  {
  }

  /** The outer loop: the squares of S in ascending order (popLSB), each with its branch. */
  function SquareMoves(g: Gen, S: set<Square>): seq<Move>
    requires KingPresent(g)
    decreases |S|
  {
    if S == {} then []
    else
      var square := Least(S);
      var piece := Mover(g.v.board, square);
      TargetMoves(g, square, piece, Targets(g, square, piece)) + SquareMoves(g, S - {square})
  }

  /** One step of the outer loop, for the loop proofs. */
  lemma SquareMovesStep(g: Gen, S: set<Square>)
    requires KingPresent(g) && S != {}
    ensures SquareMoves(g, S) ==
      TargetMoves(g, Least(S), Mover(g.v.board, Least(S)), Targets(g, Least(S), Mover(g.v.board, Least(S)))) +
      SquareMoves(g, S - {Least(S)})
  {
  }

  lemma SeqAssoc<T>(a: seq<T>, b: seq<T>, c: seq<T>)
    ensures a + (b + c) == (a + b) + c
  {
  }

  /** `generateMoves(pos, color)`. */
  function GenerateMoves(g: Gen): seq<Move>
    requires KingPresent(g)
  {
    SquareMoves(g, Ours(g.v, g.color))
  }

  /** A move the generator can emit: from an own square, to an admitted target of that square's branch. */
  predicate Emits(g: Gen, S: set<Square>, m: Move)
    requires KingPresent(g)
  {
    exists square, target :: square in S && target in Targets(g, square, Mover(g.v.board, square)) &&
      Admitted(g, square, target, Mover(g.v.board, square)) &&
      m == Candidate(g, square, target, Mover(g.v.board, square))
  }

  lemma {:induction false} TargetMovesMembers(g: Gen, square: Square, piece: PieceType, T: set<Square>, m: Move)
    requires KingPresent(g)
    ensures m in TargetMoves(g, square, piece, T) <==>
      exists target :: target in T && Admitted(g, square, target, piece) && m == Candidate(g, square, target, piece)
    decreases |T|
  {
    if T != {} {
      var target := Least(T);
      TargetMovesMembers(g, square, piece, T - {target}, m);
    }
  }

  lemma {:induction false} SquareMovesMembers(g: Gen, S: set<Square>, m: Move)
    requires KingPresent(g)
    ensures m in SquareMoves(g, S) <==> Emits(g, S, m)
    decreases |S|
  {
    if S != {} {
      var square := Least(S);
      var piece := Mover(g.v.board, square);
      TargetMovesMembers(g, square, piece, Targets(g, square, piece), m);
      SquareMovesMembers(g, S - {square}, m);
      if Emits(g, S, m) && !Emits(g, S - {square}, m) {
        var sq, target :| sq in S && target in Targets(g, sq, Mover(g.v.board, sq)) &&
          Admitted(g, sq, target, Mover(g.v.board, sq)) && m == Candidate(g, sq, target, Mover(g.v.board, sq));
        assert sq == square;
      }
    }
  }

  /**
   * Exactly the emittable moves are generated: each starts on a square of
   * the mover's composite, goes to a target of that square's branch which
   * holds an enemy piece or no own piece, and does not leave the king attacked.
   */
  lemma GenerateMovesMembers(g: Gen, m: Move)
    requires KingPresent(g)
    ensures m in GenerateMoves(g) <==> Emits(g, Ours(g.v, g.color), m)
  {
    SquareMovesMembers(g, Ours(g.v, g.color), m);
  }

  /**
   * The shape of every generated move: the mover's colour and square, a
   * target it does not hold (unless the enemy holds it too), no promotion,
   * no castling type, and the enemy flag in the slot its variant uses.
   */
  lemma GeneratedMoveShape(g: Gen, m: Move)
    requires KingPresent(g) && m in GenerateMoves(g)
    ensures m.color == g.color && m.fromSquare in Ours(g.v, g.color)
    ensures m.toSquare in Targets(g, m.fromSquare, Mover(g.v.board, m.fromSquare))
    ensures m.pieceType == Mover(g.v.board, m.fromSquare)
    ensures m.toSquare in Theirs(g.v, g.color) || m.toSquare !in Ours(g.v, g.color)
    ensures MakeDefined(m) && !LeavesKingInCheck(g.t, g.v.board, m)
    ensures !m.isPromotion && m.castlingType == NoCastling && m.prevEnPassantSquare == -1
    ensures if g.variant == Api && m.pieceType == PAWN
            then m.isCapture == (m.toSquare in Theirs(g.v, g.color)) && !m.isCastling
            else !m.isCapture && m.isCastling == (m.toSquare in Theirs(g.v, g.color))
  {
    GenerateMovesMembers(g, m);
    var square, target :| square in Ours(g.v, g.color) && target in Targets(g, square, Mover(g.v.board, square)) &&
      Admitted(g, square, target, Mover(g.v.board, square)) && m == Candidate(g, square, target, Mover(g.v.board, square));
  }

  /** With disjoint colour composites, no generated move lands on a square of the mover's own pieces. */
  lemma NoOwnTarget(g: Gen, m: Move)
    requires KingPresent(g) && m in GenerateMoves(g)
    requires g.v.white * g.v.black == {}
    ensures m.toSquare !in Ours(g.v, g.color)
  {
    GeneratedMoveShape(g, m);
  }

  /**
   * The enemy flag in the castling slot: a capture by a knight, bishop,
   * rook, queen or king (and, in the engine, by a pawn) reaches makeMove's
   * castling block with castlingType NONE, which is handled as queenside,
   * so a rook appears on d1 (d8 for Black).
   */
  lemma CaptureFlagMovesRook(g: Gen, square: Square, target: Square, piece: PieceType)
    requires target in Theirs(g.v, g.color) && !(g.variant == Api && piece == PAWN)
    ensures Candidate(g, square, target, piece).isCastling
    ensures (if g.color == WHITE then 3 in MadeMove(g.v.board, Candidate(g, square, target, piece)).white.rooks
             else 59 in MadeMove(g.v.board, Candidate(g, square, target, piece)).black.rooks)
  {
  }

  // ---------------------------------------------------------------------
  // generateCaptures
  // ---------------------------------------------------------------------

  /** `generateCaptures`: copy_if keeping the moves that capture or promote, in their order. */
  function Captures(ms: seq<Move>): (r: seq<Move>)
    ensures |r| <= |ms|
  {
    if ms == [] then []
    else (if ms[0].isCapture || ms[0].isPromotion then [ms[0]] else []) + Captures(ms[1..])
  }

  lemma {:induction false} CapturesMembers(ms: seq<Move>, m: Move)
    ensures m in Captures(ms) <==> m in ms && (m.isCapture || m.isPromotion)
  {
    if ms != [] {
      CapturesMembers(ms[1..], m);
      assert ms == [ms[0]] + ms[1..];
    }
  }

  /**
   * The engine generator passes false as `isCapture` and never promotes, so
   * its generateCaptures is always empty.
   */
  lemma EngineCapturesEmpty(g: Gen)
    requires KingPresent(g) && g.variant == Engine
    ensures Captures(GenerateMoves(g)) == []
  {
    var ms := GenerateMoves(g);
    if Captures(ms) != [] {
      var m := Captures(ms)[0];
      CapturesMembers(ms, m);
      GeneratedMoveShape(g, m);
    }
  }
}
