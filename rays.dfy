// Sliding-piece geometry: the ray masks and blocker-aware attack sets of
// api/src/board/magicbitboard.cpp:83-215 (identical generators in
// chess.cpp:553-635).  Each generator walks its rays with a loop; every ray
// loop is modelled by one method parameterised by the ray's direction
// (dr, df), each component -1, 0 or 1, and proved against a declarative
// description of the ray.

module Rays {
  import opened Bitboards

  function RankOf(s: Square): int { s / 8 }
  function FileOf(s: Square): int { s % 8 }

  /** k steps along one direction component d. */
  function Offset(k: int, d: int): int
  {
    if d == 1 then k else if d == -1 then -k else 0
  }

  predicate IsDirection(dr: int, df: int)
  {
    -1 <= dr <= 1 && -1 <= df <= 1 && (dr != 0 || df != 0)
  }

  /** The square k steps from sq along (dr, df) is on the board. */
  predicate OnBoardAt(sq: Square, dr: int, df: int, k: int)
  {
    0 <= RankOf(sq) + Offset(k, dr) < 8 && 0 <= FileOf(sq) + Offset(k, df) < 8
  }

  function SquareAt(sq: Square, dr: int, df: int, k: int): Square
    requires OnBoardAt(sq, dr, df, k)
  {
    (RankOf(sq) + Offset(k, dr)) * 8 + FileOf(sq) + Offset(k, df)
  }

  /** How many steps t lies from sq, measured on a coordinate the direction moves. */
  function Steps(sq: Square, dr: int, df: int, t: Square): int
  {
    if dr != 0 then Offset(RankOf(t) - RankOf(sq), dr) else Offset(FileOf(t) - FileOf(sq), df)
  }

  /** t lies on the ray from sq along (dr, df), sq itself excluded. */
  predicate OnRay(sq: Square, dr: int, df: int, t: Square)
  {
    var k := Steps(sq, dr, df, t);
    k >= 1 && RankOf(t) == RankOf(sq) + Offset(k, dr) && FileOf(t) == FileOf(sq) + Offset(k, df)
  }

  predicate Blocked(sq: Square, blockers: Bitboard, dr: int, df: int, j: int)
  {
    OnBoardAt(sq, dr, df, j) && GetBit(blockers, SquareAt(sq, dr, df, j))
  }

  /** No blocker on the first k - 1 squares of the ray. */
  predicate ClearBefore(sq: Square, blockers: Bitboard, dr: int, df: int, k: int)
  {
    forall j :: 1 <= j < k ==> !Blocked(sq, blockers, dr, df, j)
  }

  /** t is on the ray and every square before it is empty: t is an empty square or the first blocker. */
  predicate RayAttack(sq: Square, blockers: Bitboard, dr: int, df: int, t: Square)
  {
    OnRay(sq, dr, df, t) && ClearBefore(sq, blockers, dr, df, Steps(sq, dr, df, t))
  }

  /** The ray square at step k is SquareAt(k), and no other square. */
  lemma RayPoint(sq: Square, dr: int, df: int, k: int)
    requires IsDirection(dr, df) && k >= 1 && OnBoardAt(sq, dr, df, k)
    ensures forall t: Square :: (OnRay(sq, dr, df, t) && Steps(sq, dr, df, t) == k) <==> t == SquareAt(sq, dr, df, k)
  {
  }

  /** Once the ray leaves the board it never returns. */
  lemma RayBeyond(sq: Square, dr: int, df: int, k: int)
    requires IsDirection(dr, df) && k >= 1 && !OnBoardAt(sq, dr, df, k)
    ensures forall t: Square :: OnRay(sq, dr, df, t) ==> Steps(sq, dr, df, t) < k
  {
  }

  /** The squares of `attacks`, plus the attacked squares of the ray closer than k steps. */
  predicate RaySoFar(sq: Square, blockers: Bitboard, dr: int, df: int, attacks: Bitboard, r: Bitboard, k: int)
  {
    forall t: Square :: GetBit(r, t) <==>
      GetBit(attacks, t) || (RayAttack(sq, blockers, dr, df, t) && Steps(sq, dr, df, t) < k)
  }

  predicate RayDone(sq: Square, blockers: Bitboard, dr: int, df: int, attacks: Bitboard, r: Bitboard)
  {
    forall t: Square :: GetBit(r, t) <==> GetBit(attacks, t) || RayAttack(sq, blockers, dr, df, t)
  }

  lemma RayStep(sq: Square, blockers: Bitboard, dr: int, df: int, attacks: Bitboard, r: Bitboard, k: int)
    requires IsDirection(dr, df) && k >= 1 && OnBoardAt(sq, dr, df, k)
    requires ClearBefore(sq, blockers, dr, df, k) && RaySoFar(sq, blockers, dr, df, attacks, r, k)
    ensures RaySoFar(sq, blockers, dr, df, attacks, SetBit(r, SquareAt(sq, dr, df, k)), k + 1)
  {
    RayPoint(sq, dr, df, k);
  }

  lemma RayStopBlocked(sq: Square, blockers: Bitboard, dr: int, df: int, attacks: Bitboard, r: Bitboard, k: int)
    requires IsDirection(dr, df) && k >= 1 && Blocked(sq, blockers, dr, df, k)
    requires ClearBefore(sq, blockers, dr, df, k) && RaySoFar(sq, blockers, dr, df, attacks, r, k)
    ensures RayDone(sq, blockers, dr, df, attacks, SetBit(r, SquareAt(sq, dr, df, k)))
  {
    RayPoint(sq, dr, df, k);
  }

  lemma RayStopEdge(sq: Square, blockers: Bitboard, dr: int, df: int, attacks: Bitboard, r: Bitboard, k: int)
    requires IsDirection(dr, df) && k >= 1 && !OnBoardAt(sq, dr, df, k)
    requires RaySoFar(sq, blockers, dr, df, attacks, r, k)
    ensures RayDone(sq, blockers, dr, df, attacks, r)
  {
    RayBeyond(sq, dr, df, k);
  }

  /**
   * One attack loop of generateRookAttacks / generateBishopAttacks: from the
   * first square along (dr, df), OR each square into the board and stop after
   * the first blocker or at the board edge.
   */
  method AddAttackRay(sq: Square, blockers: Bitboard, dr: int, df: int, attacks: Bitboard) returns (r: Bitboard)
    requires IsDirection(dr, df)
    ensures RayDone(sq, blockers, dr, df, attacks, r)
  {
    r := attacks;
    var rr := RankOf(sq) + dr;
    var ff := FileOf(sq) + df;
    ghost var k := 1;
    while 0 <= rr < 8 && 0 <= ff < 8
      invariant 1 <= k <= 8
      invariant rr == RankOf(sq) + Offset(k, dr) && ff == FileOf(sq) + Offset(k, df)
      invariant ClearBefore(sq, blockers, dr, df, k)
      invariant RaySoFar(sq, blockers, dr, df, attacks, r, k)
      decreases 8 - k
    {
      var s := rr * 8 + ff;
      assert s == SquareAt(sq, dr, df, k);
      if GetBit(blockers, s) {
        RayStopBlocked(sq, blockers, dr, df, attacks, r, k);
        r := SetBit(r, s);
        return;
      }
      RayStep(sq, blockers, dr, df, attacks, r, k);
      r := SetBit(r, s);
      rr := rr + dr;
      ff := ff + df;
      k := k + 1;
    }
    RayStopEdge(sq, blockers, dr, df, attacks, r, k);
  }

  // Masks: the ray squares whose moving coordinate stays within 1..6.

  predicate InnerAt(sq: Square, dr: int, df: int, k: int)
  {
    (dr == 0 || 1 <= RankOf(sq) + Offset(k, dr) <= 6) && (df == 0 || 1 <= FileOf(sq) + Offset(k, df) <= 6)
  }

  predicate RayMask(sq: Square, dr: int, df: int, t: Square)
  {
    OnRay(sq, dr, df, t) && InnerAt(sq, dr, df, Steps(sq, dr, df, t))
  }

  predicate MaskSoFar(sq: Square, dr: int, df: int, mask: Bitboard, r: Bitboard, k: int)
  {
    forall t: Square :: GetBit(r, t) <==> GetBit(mask, t) || (RayMask(sq, dr, df, t) && Steps(sq, dr, df, t) < k)
  }

  predicate MaskDone(sq: Square, dr: int, df: int, mask: Bitboard, r: Bitboard)
  {
    forall t: Square :: GetBit(r, t) <==> GetBit(mask, t) || RayMask(sq, dr, df, t)
  }

  lemma MaskStep(sq: Square, dr: int, df: int, mask: Bitboard, r: Bitboard, k: int)
    requires IsDirection(dr, df) && k >= 1 && OnBoardAt(sq, dr, df, k) && InnerAt(sq, dr, df, k)
    requires MaskSoFar(sq, dr, df, mask, r, k)
    ensures MaskSoFar(sq, dr, df, mask, SetBit(r, SquareAt(sq, dr, df, k)), k + 1)
  {
    RayPoint(sq, dr, df, k);
  }

  lemma MaskStop(sq: Square, dr: int, df: int, mask: Bitboard, r: Bitboard, k: int)
    requires IsDirection(dr, df) && k >= 1 && !InnerAt(sq, dr, df, k)
    requires forall j :: 1 <= j < k ==> InnerAt(sq, dr, df, j)
    requires MaskSoFar(sq, dr, df, mask, r, k)
    ensures MaskDone(sq, dr, df, mask, r)
  {
  }

  /**
   * One mask loop of generateRookMask / generateBishopMask: from the first
   * square along (dr, df), OR squares in while the moving coordinates stay
   * below 7 (upwards) or above 0 (downwards).
   */
  method AddMaskRay(sq: Square, dr: int, df: int, mask: Bitboard) returns (r: Bitboard)
    requires IsDirection(dr, df)
    ensures MaskDone(sq, dr, df, mask, r)
  {
    r := mask;
    var rr := RankOf(sq) + dr;
    var ff := FileOf(sq) + df;
    ghost var k := 1;
    while (dr != 1 || rr < 7) && (dr != -1 || rr > 0) && (df != 1 || ff < 7) && (df != -1 || ff > 0)
      invariant 1 <= k <= 8
      invariant rr == RankOf(sq) + Offset(k, dr) && ff == FileOf(sq) + Offset(k, df)
      invariant forall j :: 1 <= j < k ==> InnerAt(sq, dr, df, j)
      invariant MaskSoFar(sq, dr, df, mask, r, k)
      decreases 8 - k
    {
      var s := rr * 8 + ff;
      assert s == SquareAt(sq, dr, df, k);
      MaskStep(sq, dr, df, mask, r, k);
      r := SetBit(r, s);
      rr := rr + dr;
      ff := ff + df;
      k := k + 1;
    }
    MaskStop(sq, dr, df, mask, r, k);
  }

  // ---------------------------------------------------------------------
  // Rook and bishop masks and attacks
  // ---------------------------------------------------------------------

  /** Rook mask: the other squares of its file and rank, board edges excluded. */
  predicate InRookMask(sq: Square, t: Square)
  {
    t != sq &&
    ((FileOf(t) == FileOf(sq) && 1 <= RankOf(t) <= 6) || (RankOf(t) == RankOf(sq) && 1 <= FileOf(t) <= 6))
  }

  /** Bishop mask: the other squares of its diagonals, board edges excluded. */
  predicate InBishopMask(sq: Square, t: Square)
  {
    t != sq && 1 <= RankOf(t) <= 6 && 1 <= FileOf(t) <= 6 &&
    (RankOf(t) - RankOf(sq) == FileOf(t) - FileOf(sq) || RankOf(t) - RankOf(sq) == FileOf(sq) - FileOf(t))
  }

  lemma RookMaskRays(sq: Square, t: Square)
    ensures RayMask(sq, 1, 0, t) || RayMask(sq, -1, 0, t) || RayMask(sq, 0, 1, t) || RayMask(sq, 0, -1, t)
            <==> InRookMask(sq, t)
  {
  }

  lemma BishopMaskRays(sq: Square, t: Square)
    ensures RayMask(sq, 1, 1, t) || RayMask(sq, 1, -1, t) || RayMask(sq, -1, 1, t) || RayMask(sq, -1, -1, t)
            <==> InBishopMask(sq, t)
  {
  }

  lemma NoBitOfZero(t: Square)
    ensures !GetBit(0, t)
  {
  }

  method GenerateRookMask(square: Square) returns (mask: Bitboard)
    ensures forall t: Square :: GetBit(mask, t) <==> InRookMask(square, t)
  {
    mask := 0;
    mask := AddMaskRay(square, 1, 0, mask);
    mask := AddMaskRay(square, -1, 0, mask);
    mask := AddMaskRay(square, 0, 1, mask);
    mask := AddMaskRay(square, 0, -1, mask);
    forall t: Square ensures GetBit(mask, t) <==> InRookMask(square, t) {
      NoBitOfZero(t);
      RookMaskRays(square, t);
    }
  }

  method GenerateBishopMask(square: Square) returns (mask: Bitboard)
    ensures forall t: Square :: GetBit(mask, t) <==> InBishopMask(square, t)
  {
    mask := 0;
    mask := AddMaskRay(square, 1, 1, mask);
    mask := AddMaskRay(square, 1, -1, mask);
    mask := AddMaskRay(square, -1, 1, mask);
    mask := AddMaskRay(square, -1, -1, mask);
    forall t: Square ensures GetBit(mask, t) <==> InBishopMask(square, t) {
      NoBitOfZero(t);
      BishopMaskRays(square, t);
    }
  }

  /** A rook on sq attacks t: t is the first blocker or an empty square along one of its four rays. */
  predicate RookAttacked(sq: Square, blockers: Bitboard, t: Square)
  {
    RayAttack(sq, blockers, 1, 0, t) || RayAttack(sq, blockers, -1, 0, t) ||
    RayAttack(sq, blockers, 0, 1, t) || RayAttack(sq, blockers, 0, -1, t)
  }

  predicate BishopAttacked(sq: Square, blockers: Bitboard, t: Square)
  {
    RayAttack(sq, blockers, 1, 1, t) || RayAttack(sq, blockers, 1, -1, t) ||
    RayAttack(sq, blockers, -1, 1, t) || RayAttack(sq, blockers, -1, -1, t)
  }

  method GenerateRookAttacks(square: Square, blockers: Bitboard) returns (attacks: Bitboard)
    ensures forall t: Square :: GetBit(attacks, t) <==> RookAttacked(square, blockers, t)
    ensures !GetBit(attacks, square)
  {
    attacks := 0;
    attacks := AddAttackRay(square, blockers, 1, 0, attacks);
    attacks := AddAttackRay(square, blockers, -1, 0, attacks);
    attacks := AddAttackRay(square, blockers, 0, 1, attacks);
    attacks := AddAttackRay(square, blockers, 0, -1, attacks);
    forall t: Square ensures GetBit(attacks, t) <==> RookAttacked(square, blockers, t) {
      NoBitOfZero(t);
    }
  }

  method GenerateBishopAttacks(square: Square, blockers: Bitboard) returns (attacks: Bitboard)
    ensures forall t: Square :: GetBit(attacks, t) <==> BishopAttacked(square, blockers, t)
    ensures !GetBit(attacks, square)
  {
    attacks := 0;
    attacks := AddAttackRay(square, blockers, 1, 1, attacks);
    attacks := AddAttackRay(square, blockers, 1, -1, attacks);
    attacks := AddAttackRay(square, blockers, -1, 1, attacks);
    attacks := AddAttackRay(square, blockers, -1, -1, attacks);
    forall t: Square ensures GetBit(attacks, t) <==> BishopAttacked(square, blockers, t) {
      NoBitOfZero(t);
    }
  }

  // ---------------------------------------------------------------------
  // Properties of attacks
  // ---------------------------------------------------------------------

  /** The squares strictly between sq and a ray square t lie inside the ray's mask. */
  lemma InnerBefore(sq: Square, dr: int, df: int, t: Square, j: int)
    requires IsDirection(dr, df) && OnRay(sq, dr, df, t) && 1 <= j < Steps(sq, dr, df, t)
    ensures OnBoardAt(sq, dr, df, j) && RayMask(sq, dr, df, SquareAt(sq, dr, df, j))
  {
    assert OnBoardAt(sq, dr, df, j);
    RayPoint(sq, dr, df, j);
  }

  lemma ClearBeforeSame(sq: Square, b1: Bitboard, b2: Bitboard, dr: int, df: int, k: int)
    requires forall j :: 1 <= j < k ==> (Blocked(sq, b1, dr, df, j) <==> Blocked(sq, b2, dr, df, j))
    ensures ClearBefore(sq, b1, dr, df, k) <==> ClearBefore(sq, b2, dr, df, k)
  {
  }

  /** Only blockers on the ray's mask decide what the ray attacks. */
  lemma RayRelevance(sq: Square, blockers: Bitboard, mask: Bitboard, dr: int, df: int, t: Square)
    requires IsDirection(dr, df)
    requires forall u: Square :: RayMask(sq, dr, df, u) ==> GetBit(mask, u)
    ensures RayAttack(sq, blockers, dr, df, t) <==> RayAttack(sq, blockers & mask, dr, df, t)
  {
    if OnRay(sq, dr, df, t) {
      forall j | 1 <= j < Steps(sq, dr, df, t)
        ensures Blocked(sq, blockers, dr, df, j) <==> Blocked(sq, blockers & mask, dr, df, j)
      {
        InnerBefore(sq, dr, df, t, j);
        AndBit(blockers, mask, SquareAt(sq, dr, df, j));
      }
      ClearBeforeSame(sq, blockers, blockers & mask, dr, df, Steps(sq, dr, df, t));
    }
  }

  /** Only the mask squares of a rook decide which squares it attacks. */
  lemma RookRelevance(sq: Square, blockers: Bitboard, mask: Bitboard, t: Square)
    requires forall u: Square :: GetBit(mask, u) <==> InRookMask(sq, u)
    ensures RookAttacked(sq, blockers, t) <==> RookAttacked(sq, blockers & mask, t)
  {
    forall u: Square
      ensures RayMask(sq, 1, 0, u) ==> GetBit(mask, u)
      ensures RayMask(sq, -1, 0, u) ==> GetBit(mask, u)
      ensures RayMask(sq, 0, 1, u) ==> GetBit(mask, u)
      ensures RayMask(sq, 0, -1, u) ==> GetBit(mask, u)
    {
      RookMaskRays(sq, u);
    }
    RayRelevance(sq, blockers, mask, 1, 0, t);
    RayRelevance(sq, blockers, mask, -1, 0, t);
    RayRelevance(sq, blockers, mask, 0, 1, t);
    RayRelevance(sq, blockers, mask, 0, -1, t);
  }

  /** Only the mask squares of a bishop decide which squares it attacks. */
  lemma BishopRelevance(sq: Square, blockers: Bitboard, mask: Bitboard, t: Square)
    requires forall u: Square :: GetBit(mask, u) <==> InBishopMask(sq, u)
    ensures BishopAttacked(sq, blockers, t) <==> BishopAttacked(sq, blockers & mask, t)
  {
    forall u: Square
      ensures RayMask(sq, 1, 1, u) ==> GetBit(mask, u)
      ensures RayMask(sq, 1, -1, u) ==> GetBit(mask, u)
      ensures RayMask(sq, -1, 1, u) ==> GetBit(mask, u)
      ensures RayMask(sq, -1, -1, u) ==> GetBit(mask, u)
    {
      BishopMaskRays(sq, u);
    }
    RayRelevance(sq, blockers, mask, 1, 1, t);
    RayRelevance(sq, blockers, mask, 1, -1, t);
    RayRelevance(sq, blockers, mask, -1, 1, t);
    RayRelevance(sq, blockers, mask, -1, -1, t);
  }

  lemma ClearOnEmpty(sq: Square, dr: int, df: int, k: int)
    ensures ClearBefore(sq, 0, dr, df, k)
  {
    forall j | 1 <= j < k ensures !Blocked(sq, 0, dr, df, j) {
      if OnBoardAt(sq, dr, df, j) {
        NoBitOfZero(SquareAt(sq, dr, df, j));
      }
    }
  }

  /** On an empty board a rook attacks every other square of its rank and file. */
  lemma RookEmptyBoard(sq: Square, t: Square)
    ensures RookAttacked(sq, 0, t) <==> t != sq && (RankOf(t) == RankOf(sq) || FileOf(t) == FileOf(sq))
  {
    ClearOnEmpty(sq, 1, 0, Steps(sq, 1, 0, t));
    ClearOnEmpty(sq, -1, 0, Steps(sq, -1, 0, t));
    ClearOnEmpty(sq, 0, 1, Steps(sq, 0, 1, t));
    ClearOnEmpty(sq, 0, -1, Steps(sq, 0, -1, t));
  }

  /** On an empty board a bishop attacks every other square of its two diagonals. */
  lemma BishopEmptyBoard(sq: Square, t: Square)
    ensures BishopAttacked(sq, 0, t) <==>
      t != sq && (RankOf(t) - RankOf(sq) == FileOf(t) - FileOf(sq) || RankOf(t) - RankOf(sq) == FileOf(sq) - FileOf(t))
  {
    ClearOnEmpty(sq, 1, 1, Steps(sq, 1, 1, t));
    ClearOnEmpty(sq, 1, -1, Steps(sq, 1, -1, t));
    ClearOnEmpty(sq, -1, 1, Steps(sq, -1, 1, t));
    ClearOnEmpty(sq, -1, -1, Steps(sq, -1, -1, t));
  }

  /** Each ray stops at its first blocker: a blocker closer along the same ray hides t. */
  lemma RayStopsAtBlocker(sq: Square, blockers: Bitboard, dr: int, df: int, t: Square, u: Square)
    requires OnRay(sq, dr, df, u) && OnRay(sq, dr, df, t) && GetBit(blockers, u)
    requires Steps(sq, dr, df, u) < Steps(sq, dr, df, t)
    ensures !RayAttack(sq, blockers, dr, df, t)
  {
    var k := Steps(sq, dr, df, u);
    assert OnBoardAt(sq, dr, df, k) && SquareAt(sq, dr, df, k) == u;
    assert Blocked(sq, blockers, dr, df, k);
  }
}
