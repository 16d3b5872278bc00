// Static evaluation (api/include/engine-related/evaluation.h,
// api/src/engine-related/evaluation.cpp): material values in centipawns,
// the six piece-square tables, the vertical mirror used for the opponent's
// pieces, the capture filter SEE and evaluatePosition.  The score is a sum
// over sets of squares; SetSum is that sum taken in the order popLSB visits
// the squares, and the lemmas show the order does not matter.

module Evaluation {
  import opened Bitboards
  import opened Pieces
  import opened SquareSets
  import opened Boards
  import opened Rays
  import opened Moves
  import ApiPosition

  const PawnValue := 100
  const KnightValue := 300
  const BishopValue := 330
  const RookValue := 500
  const QueenValue := 900
  const KingValue := 20000

  /** `getPieceValue`: the material constant of each type, 0 for NONE. */
  function PieceValue(p: PieceType): (r: int)
    ensures p == PAWN ==> r == 100
    ensures p == KNIGHT ==> r == 300
    ensures p == BISHOP ==> r == 330
    ensures p == ROOK ==> r == 500
    ensures p == QUEEN ==> r == 900
    ensures p == KING ==> r == 20000
    ensures p == NONE ==> r == 0
  {
    match p
    case PAWN => PawnValue
    case KNIGHT => KnightValue
    case BISHOP => BishopValue
    case ROOK => RookValue
    case QUEEN => QueenValue
    case KING => KingValue
    case NONE => 0
  }

  /** The order in which the values climb: P, N, B, R, Q, K. */
  function ValueRank(p: PieceType): nat
  {
    match p
    case NONE => 0
    case PAWN => 1
    case KNIGHT => 2
    case BISHOP => 3
    case ROOK => 4
    case QUEEN => 5
    case KING => 6
  }

  /** The values are strictly increasing in that order, and NONE is below every real piece. */
  lemma ValuesIncreasing(p: PieceType, q: PieceType)
    ensures ValueRank(p) < ValueRank(q) <==> PieceValue(p) < PieceValue(q)
    ensures IsRealPiece(p) ==> PieceValue(p) > 0
  {
  }

  /** `SEE`: a capture is kept only when the mover is worth no more than what it takes. */
  predicate SEE(m: Move)
  {
    PieceValue(m.pieceType) <= PieceValue(m.capturedPieceType)
  }

  /**
   * SEE read through the value order: it holds exactly when the captured
   * type is the mover's type or a more valuable one, so a real piece taking
   * "nothing" (capturedPieceType NONE) is always refused.
   */
  lemma SEEByRank(m: Move)
    ensures SEE(m) <==> ValueRank(m.pieceType) <= ValueRank(m.capturedPieceType)
    ensures IsRealPiece(m.pieceType) && m.capturedPieceType == NONE ==> !SEE(m)
  {
    ValuesIncreasing(m.pieceType, m.capturedPieceType);
    ValuesIncreasing(m.capturedPieceType, m.pieceType);
  }

  const PawnPst: seq<int> := [
      0,   0,   0,   0,   0,   0,   0,   0,
     50,  50,  50,  50,  50,  50,  50,  50,
     10,  10,  20,  30,  30,  20,  10,  10,
      5,   5,  10,  25,  25,  10,   5,   5,
      0,   0,   0,  20,  20,   0,   0,   0,
      5,  -5, -10,   0,   0, -10,  -5,   5,
      5,  10,  10, -20, -20,  10,  10,   5,
      0,   0,   0,   0,   0,   0,   0,   0]

  const KnightPst: seq<int> := [
    -50, -40, -30, -30, -30, -30, -40, -50,
    -40, -20,   0,   0,   0,   0, -20, -40,
    -30,   0,  10,  15,  15,  10,   0, -30,
    -30,   5,  15,  20,  20,  15,   5, -30,
    -30,   0,  15,  20,  20,  15,   0, -30,
    -30,   5,  10,  15,  15,  10,   5, -30,
    -40, -20,   0,   5,   5,   0, -20, -40,
    -50, -40, -30, -30, -30, -30, -40, -50]

  const BishopPst: seq<int> := [
    -20, -10, -10, -10, -10, -10, -10, -20,
    -10,   0,   0,   0,   0,   0,   0, -10,
    -10,   0,   5,  10,  10,   5,   0, -10,
    -10,   5,   5,  10,  10,   5,   5, -10,
    -10,   0,  10,  10,  10,  10,   0, -10,
    -10,  10,  10,  10,  10,  10,  10, -10,
    -10,   5,   0,   0,   0,   0,   5, -10,
    -20, -10, -10, -10, -10, -10, -10, -20]

  const RookPst: seq<int> := [
      0,   0,   0,   0,   0,   0,   0,   0,
      5,  10,  10,  10,  10,  10,  10,   5,
     -5,   0,   0,   0,   0,   0,   0,  -5,
     -5,   0,   0,   0,   0,   0,   0,  -5,
     -5,   0,   0,   0,   0,   0,   0,  -5,
     -5,   0,   0,   0,   0,   0,   0,  -5,
     -5,   0,   0,   0,   0,   0,   0,  -5,
      0,   0,   0,   5,   5,   0,   0,   0]

  const QueenPst: seq<int> := [
    -20, -10, -10,  -5,  -5, -10, -10, -20,
    -10,   0,   0,   0,   0,   0,   0, -10,
    -10,   0,   5,   5,   5,   5,   0, -10,
     -5,   0,   5,   5,   5,   5,   0,  -5,
      0,   0,   5,   5,   5,   5,   0,  -5,
    -10,   5,   5,   5,   5,   5,   0, -10,
    -10,   0,   5,   0,   0,   0,   0, -10,
    -20, -10, -10,  -5,  -5, -10, -10, -20]

  const KingPst: seq<int> := [
    -30, -40, -40, -50, -50, -40, -40, -30,
    -30, -40, -40, -50, -50, -40, -40, -30,
    -30, -40, -40, -50, -50, -40, -40, -30,
    -30, -40, -40, -50, -50, -40, -40, -30,
    -20, -30, -30, -40, -40, -30, -30, -20,
    -10, -20, -20, -20, -20, -20, -20, -10,
     20,  20,   0,   0,   0,   0,  20,  20,
     20,  30,  10,   0,   0,  10,  30,  20]

  /** The piece-square table of a real piece type; every table has one entry per square. */
  function Pst(p: PieceType): (t: seq<int>)
    requires IsRealPiece(p)
    ensures |t| == 64
  {
    match p
    case PAWN => PawnPst
    case KNIGHT => KnightPst
    case BISHOP => BishopPst
    case ROOK => RookPst
    case QUEEN => QueenPst
    case KING => KingPst
  }

  /** `mirror`: the same file on the opposite rank; the source computes it as square XOR 56. */
  function Mirror(s: Square): (r: Square)
    ensures FileOf(r) == FileOf(s) && RankOf(r) == 7 - RankOf(s)
  {
    8 * (7 - s / 8) + s % 8
  }

  /** The source's `mirror` on the bits: XOR with 56 flips the three rank bits and keeps the three file bits. */
  function XorMirror(s: Square): (r: Square)
    ensures r == Mirror(s)
  {
    XorValue(s);
    ((s as bv8) ^ 56) as int
  }

  lemma XorValue(s: Square)
    ensures ((s as bv8) ^ 56) as int == 8 * (7 - s / 8) + s % 8
  {
    var b := s as bv8;
    assert b as int == s;
    XorBits(b);
  }

  /** On six-bit values, flipping bits 3 to 5 is 56 - b plus twice the low three bits. */
  lemma XorBits(b: bv8)
    requires b < 64
    ensures b ^ 56 == 56 - b + 2 * (b & 7) && b & 7 < 8 && b & 7 <= b
  {
  }

  /** Mirroring twice gives the square back, so Mirror is a bijection of the board. */
  lemma MirrorInvolution(s: Square)
    ensures Mirror(Mirror(s)) == s
  {
    assert s == 8 * RankOf(s) + FileOf(s);
    var m := Mirror(s);
    assert m == 8 * RankOf(m) + FileOf(m);
  }

  /**
   * What one piece on `s` adds to its own side's sum: the material value
   * (none for the king, whose loop adds only its table entry) plus the table
   * entry at `s`, or at Mirror(s) when the side is the opponent's.
   */
  function Term(p: PieceType, s: Square, mirrored: bool): int
    requires IsRealPiece(p)
  {
    (if p == KING then 0 else PieceValue(p)) + Pst(p)[if mirrored then Mirror(s) else s]
  }

  /** What every square of a board contributes, for one piece type and orientation. */
  function TermOf(p: PieceType, mirrored: bool): Square -> int
    requires IsRealPiece(p)
  {
    (s: Square) => Term(p, s, mirrored)
  }

  /** The sum of f over S, taking the squares from the lowest up, as the popLSB loops do. */
  function SetSum(S: set<Square>, f: Square -> int): int
    decreases |S|
  {
    if S == {} then 0
    else
      var s := Least(S);
      f(s) + SetSum(S - {s}, f)
  }

  /** The sum may be split at any element, not only the least: the visiting order does not matter. */
  lemma {:induction false} SetSumRemove(S: set<Square>, f: Square -> int, x: Square)
    requires x in S
    ensures SetSum(S, f) == f(x) + SetSum(S - {x}, f)
    decreases |S|
  {
    var s := Least(S);
    if s != x {
      SetSumRemove(S - {s}, f, x);
      SetSumRemove(S - {x}, f, s);
      assert S - {s} - {x} == S - {x} - {s};
    }
  }

  /** Two functions that agree on S have the same sum over S. */
  lemma {:induction false} SetSumAgree(S: set<Square>, f: Square -> int, g: Square -> int)
    requires forall s :: s in S ==> f(s) == g(s)
    ensures SetSum(S, f) == SetSum(S, g)
    decreases |S|
  {
    if S != {} {
      SetSumAgree(S - {Least(S)}, f, g);
    }
  }

  /** The squares of S reflected by Mirror. */
  function MirrorSet(S: set<Square>): (r: set<Square>)
    ensures forall t {:trigger t in r} :: t in r <==> Mirror(t) in S
  {
    set t: Square | Mirror(t) in S
  }

  /** Summing f over the reflected set is summing f after Mirror over S. */
  lemma {:induction false} SetSumMirror(S: set<Square>, f: Square -> int, g: Square -> int)
    requires forall s :: g(s) == f(Mirror(s))
    ensures SetSum(MirrorSet(S), f) == SetSum(S, g)
    decreases |S|
  {
    if S != {} {
      var s := Least(S);
      var m := Mirror(s);
      MirrorInvolution(s);
      assert m in MirrorSet(S);
      assert MirrorSet(S) - {m} == MirrorSet(S - {s}) by {
        forall t ensures t in MirrorSet(S) - {m} <==> t in MirrorSet(S - {s}) {
          MirrorInvolution(t);
        }
      }
      SetSumRemove(MirrorSet(S), f, m);
      SetSumMirror(S - {s}, f, g);
    } else {
      assert MirrorSet(S) == {};
    }
  }

  /** A table read mirrored is the table read directly at the mirrored square, and back. */
  lemma TermMirror(p: PieceType, mirrored: bool)
    requires IsRealPiece(p)
    ensures forall s :: TermOf(p, mirrored)(s) == TermOf(p, !mirrored)(Mirror(s))
  {
    forall s: Square ensures Term(p, s, mirrored) == Term(p, Mirror(s), !mirrored) {
      MirrorInvolution(s);
    }
  }

  /** One loop's total: the terms of one piece type over one board. */
  function PieceSum(S: set<Square>, p: PieceType, mirrored: bool): int
    requires IsRealPiece(p)
  {
    SetSum(S, TermOf(p, mirrored))
  }

  /** The six loops over one side's boards. */
  function SideScore(x: Side, mirrored: bool): int
  {
    PieceSum(x.pawns, PAWN, mirrored) + PieceSum(x.knights, KNIGHT, mirrored) +
    PieceSum(x.bishops, BISHOP, mirrored) + PieceSum(x.rooks, ROOK, mirrored) +
    PieceSum(x.queens, QUEEN, mirrored) + PieceSum(x.king, KING, mirrored)
  }

  /**
   * `evaluatePosition(pos, color)`: the side to score reads the tables
   * directly, the other side reads them mirrored and is subtracted.
   */
  function Evaluate(b: Board, color: Color): int
  {
    SideScore(SideOf(b, color), false) - SideScore(SideOf(b, InvertColor(color)), true)
  }

  /** Twelve empty boards score 0 for either colour. */
  lemma EmptyScoresZero(b: Board, color: Color)
    requires b.white == Side({}, {}, {}, {}, {}, {}) && b.black == Side({}, {}, {}, {}, {}, {})
    ensures Evaluate(b, color) == 0
  {
  }

  /**
   * Additivity: putting one more piece of type p and colour c on a square
   * its board does not hold changes the score by exactly that piece's term,
   * added for the scoring side and subtracted, mirrored, for the other.
   */
  lemma AddPiece(b: Board, color: Color, c: Color, p: PieceType, s: Square)
    requires IsRealPiece(p) && s !in PieceBoard(SideOf(b, c), p)
    ensures var x := SideOf(b, c);
      var b' := WithSide(b, c, WithPieceBoard(x, p, PieceBoard(x, p) + {s}));
      Evaluate(b', color) == Evaluate(b, color) + (if c == color then Term(p, s, false) else -Term(p, s, true))
  {
    var x := SideOf(b, c);
    var S := PieceBoard(x, p) + {s};
    SetSumRemove(S, TermOf(p, false), s);
    SetSumRemove(S, TermOf(p, true), s);
    assert S - {s} == PieceBoard(x, p);
    InvertColorInvolution(color);
  }

  /** The board seen from the other side: colours swapped and every square mirrored. */
  function MirrorSide(x: Side): Side
  {
    Side(MirrorSet(x.pawns), MirrorSet(x.knights), MirrorSet(x.bishops),
         MirrorSet(x.rooks), MirrorSet(x.queens), MirrorSet(x.king))
  }

  function Flip(b: Board): Board
  {
    b.(white := MirrorSide(b.black), black := MirrorSide(b.white))
  }

  /** One board reflected, read with the opposite orientation, sums to the same total. */
  lemma PieceSumMirror(S: set<Square>, p: PieceType, mirrored: bool)
    requires IsRealPiece(p)
    ensures PieceSum(MirrorSet(S), p, !mirrored) == PieceSum(S, p, mirrored)
  {
    TermMirror(p, mirrored);
    SetSumMirror(S, TermOf(p, !mirrored), TermOf(p, mirrored));
  }

  lemma SideScoreMirror(x: Side, mirrored: bool)
    ensures SideScore(MirrorSide(x), !mirrored) == SideScore(x, mirrored)
  {
    var y := MirrorSide(x);
    PieceSumMirror(x.pawns, PAWN, mirrored);
    PieceSumMirror(x.knights, KNIGHT, mirrored);
    PieceSumMirror(x.bishops, BISHOP, mirrored);
    PieceSumMirror(x.rooks, ROOK, mirrored);
    PieceSumMirror(x.queens, QUEEN, mirrored);
    PieceSumMirror(x.king, KING, mirrored);
    SideScoresAgree(x, y, mirrored);
  }

  /** Two sides whose six board sums agree (under opposite orientations) have equal scores. */
  lemma SideScoresAgree(x: Side, y: Side, mirrored: bool)
    requires PieceSum(y.pawns, PAWN, !mirrored) == PieceSum(x.pawns, PAWN, mirrored)
    requires PieceSum(y.knights, KNIGHT, !mirrored) == PieceSum(x.knights, KNIGHT, mirrored)
    requires PieceSum(y.bishops, BISHOP, !mirrored) == PieceSum(x.bishops, BISHOP, mirrored)
    requires PieceSum(y.rooks, ROOK, !mirrored) == PieceSum(x.rooks, ROOK, mirrored)
    requires PieceSum(y.queens, QUEEN, !mirrored) == PieceSum(x.queens, QUEEN, mirrored)
    requires PieceSum(y.king, KING, !mirrored) == PieceSum(x.king, KING, mirrored)
    ensures SideScore(y, !mirrored) == SideScore(x, mirrored)
  {
  }

  /** Colour symmetry: the flipped position scores the negation of the original, for either colour. */
  lemma FlipNegates(b: Board, color: Color)
    ensures Evaluate(Flip(b), color) == -Evaluate(b, color)
  {
    SideScoreMirror(b.white, false);
    SideScoreMirror(b.white, true);
    SideScoreMirror(b.black, false);
    SideScoreMirror(b.black, true);
  }

  /** A one-square set reflects onto the reflected square. */
  lemma MirrorOne(a: Square, c: Square)
    requires Mirror(a) == c
    ensures MirrorSet({a}) == {c}
  {
    forall t: Square ensures t in MirrorSet({a}) <==> t == c {
      MirrorInvolution(t);
      MirrorInvolution(a);
    }
  }

  /** A two-square set reflects onto the set of the reflected squares. */
  lemma MirrorPair(a: Square, b: Square, c: Square, d: Square)
    requires Mirror(a) == c && Mirror(b) == d
    ensures MirrorSet({a, b}) == {c, d}
  {
    forall t: Square ensures t in MirrorSet({a, b}) <==> t in {c, d} {
      MirrorInvolution(t);
      MirrorInvolution(a);
      MirrorInvolution(b);
    }
  }

  /** A square is on the second rank exactly when its reflection is on the seventh. */
  lemma MirrorPawnRank(t: Square)
    ensures 8 <= Mirror(t) < 16 <==> 48 <= t < 56
    ensures 48 <= Mirror(t) < 56 <==> 8 <= t < 16
  {
    var q, r := t / 8, t % 8;
    assert t == 8 * q + r && 0 <= r < 8;
    assert Mirror(t) == 8 * (7 - q) + r;
  }

  /** The two pawn ranks reflect onto each other. */
  lemma MirrorPawnRanks()
    ensures MirrorSet(Range(48, 56)) == Range(8, 16) && MirrorSet(Range(8, 16)) == Range(48, 56)
  {
    forall t: Square ensures t in MirrorSet(Range(48, 56)) <==> t in Range(8, 16) {
      MirrorPawnRank(t);
    }
    forall t: Square ensures t in MirrorSet(Range(8, 16)) <==> t in Range(48, 56) {
      MirrorPawnRank(t);
    }
  }

  /** The black start layout reflects onto the white one. */
  lemma StartBlackMirror()
    ensures MirrorSide(StartBlack()) == StartWhite()
  {
    var x, y := StartBlack(), StartWhite();
    MirrorPawnRanks();
    MirrorPair(57, 62, 1, 6);
    MirrorPair(58, 61, 2, 5);
    MirrorPair(56, 63, 0, 7);
    MirrorOne(59, 3);
    MirrorOne(60, 4);
    assert MirrorSet(x.pawns) == y.pawns && MirrorSet(x.knights) == y.knights && MirrorSet(x.bishops) == y.bishops;
    assert MirrorSet(x.rooks) == y.rooks && MirrorSet(x.queens) == y.queens && MirrorSet(x.king) == y.king;
  }

  /** The white start layout reflects onto the black one. */
  lemma StartWhiteMirror()
    ensures MirrorSide(StartWhite()) == StartBlack()
  {
    var x, y := StartWhite(), StartBlack();
    MirrorPawnRanks();
    MirrorPair(1, 6, 57, 62);
    MirrorPair(2, 5, 58, 61);
    MirrorPair(0, 7, 56, 63);
    MirrorOne(3, 59);
    MirrorOne(4, 60);
    assert MirrorSet(x.pawns) == y.pawns && MirrorSet(x.knights) == y.knights && MirrorSet(x.bishops) == y.bishops;
    assert MirrorSet(x.rooks) == y.rooks && MirrorSet(x.queens) == y.queens && MirrorSet(x.king) == y.king;
  }

  /** A position that is its own flip scores 0 for either colour. */
  lemma SymmetricScoresZero(b: Board, color: Color)
    requires Flip(b) == b
    ensures Evaluate(b, color) == 0
  {
    FlipNegates(b, color);
  }

  /** The start position is its own flip, so it scores 0 for either colour. */
  lemma StartScoresZero(color: Color)
    ensures Evaluate(StartBoard(0, -1), color) == 0
  {
    var b := StartBoard(0, -1);
    assert Flip(b) == b by {
      StartBlackMirror();
      StartWhiteMirror();
    }
    SymmetricScoresZero(b, color);
  }

  /** One `while (pieces) { square = popLSB(pieces); score ±= ... }` loop. */
  method Accumulate(score: int, pieces: set<Square>, p: PieceType, mirrored: bool, add: bool)
      returns (total: int)
    requires IsRealPiece(p)
    ensures total == score + (if add then PieceSum(pieces, p, mirrored) else -PieceSum(pieces, p, mirrored))
  {
    total := score;
    var rest := pieces;
    while rest != {}
      invariant (if add then total + PieceSum(rest, p, mirrored) else total - PieceSum(rest, p, mirrored)) ==
                (if add then score + PieceSum(pieces, p, mirrored) else score - PieceSum(pieces, p, mirrored))
      decreases |rest|
    {
      var square := Least(rest);
      rest := rest - {square};
      var index := if mirrored then XorMirror(square) else square;
      var term := (if p == KING then 0 else PieceValue(p)) + Pst(p)[index];
      if add {
        total := total + term;
      } else {
        total := total - term;
      }
    }
  }

  /** `evaluatePosition`: twelve loops over the position's boards; the position is only read. */
  method EvaluatePosition(pos: ApiPosition.Position, color: Color) returns (score: int)
    ensures score == Evaluate(pos.Snapshot(), color)
  {
    score := 0;
    if color == WHITE {
      score := Accumulate(score, pos.whitePawns, PAWN, false, true);
      score := Accumulate(score, pos.whiteKnights, KNIGHT, false, true);
      score := Accumulate(score, pos.whiteBishops, BISHOP, false, true);
      score := Accumulate(score, pos.whiteRooks, ROOK, false, true);
      score := Accumulate(score, pos.whiteQueens, QUEEN, false, true);
      score := Accumulate(score, pos.whiteKing, KING, false, true);
      score := Accumulate(score, pos.blackPawns, PAWN, true, false);
      score := Accumulate(score, pos.blackKnights, KNIGHT, true, false);
      score := Accumulate(score, pos.blackBishops, BISHOP, true, false);
      score := Accumulate(score, pos.blackRooks, ROOK, true, false);
      score := Accumulate(score, pos.blackQueens, QUEEN, true, false);
      score := Accumulate(score, pos.blackKing, KING, true, false);
    } else {
      score := Accumulate(score, pos.blackPawns, PAWN, false, true);
      score := Accumulate(score, pos.blackKnights, KNIGHT, false, true);
      score := Accumulate(score, pos.blackBishops, BISHOP, false, true);
      score := Accumulate(score, pos.blackRooks, ROOK, false, true);
      score := Accumulate(score, pos.blackQueens, QUEEN, false, true);
      score := Accumulate(score, pos.blackKing, KING, false, true);
      score := Accumulate(score, pos.whitePawns, PAWN, true, false);
      score := Accumulate(score, pos.whiteKnights, KNIGHT, true, false);
      score := Accumulate(score, pos.whiteBishops, BISHOP, true, false);
      score := Accumulate(score, pos.whiteRooks, ROOK, true, false);
      score := Accumulate(score, pos.whiteQueens, QUEEN, true, false);
      score := Accumulate(score, pos.whiteKing, KING, true, false);
    }
  }
}
