// 64-bit square sets ("bitboards").  Square s (rank * 8 + file) is bit s of a
// bv64 value.  The single-bit helpers of api/include/board/bitboard.h and the
// identical helpers of chess.cpp are modelled here once.

module Bitboards {

  type Bitboard = bv64

  /** A square index, rank * 8 + file. */
  type Square = s: int | 0 <= s < 64

  /** Square s as a 7-bit shift amount. */
  function Index(s: Square): bv7
  {
    if s == 0 then 0 else Index(s - 1) + 1
  }

  lemma {:induction false} IndexValue(s: Square)
    ensures Index(s) as int == s
  {
    if s > 0 {
      IndexValue(s - 1);
    }
  }

  lemma IndexBound(s: Square)
    ensures Index(s) < 64
  {
    IndexValue(s);
  }

  /** `1ULL << s`. */
  function Bit(s: Square): Bitboard
  {
    IndexBound(s);
    1 << Index(s)
  }

  /**
   * `getBit(board, square)`: whether square s is on board b.  The source
   * shifts the board right by s and masks bit 0; this tests the same bit
   * with the mask `Bit(s)`.
   */
  predicate GetBit(b: Bitboard, s: Square)
  {
    b & Bit(s) != 0
  }

  /** The board holding exactly the squares below `s`. */
  function Below(s: Square): Bitboard
  {
    Bit(s) - 1
  }

  const TopBit: Bitboard := 0x8000_0000_0000_0000

  predicate SingleBit(x: Bitboard)
  {
    x != 0 && x & (x - 1) == 0
  }

  // ---------------------------------------------------------------------
  // Facts about single bits.  Each bit-vector step is a small lemma over
  // opaque values, stated as an implication, so that no proof has to
  // reason about more bit-vector terms than it needs.
  // ---------------------------------------------------------------------

  lemma IndexOrder(x: bv7, y: bv7)
    ensures x < y <==> x as int < y as int
  {
  }

  lemma ShiftSingle(y: bv7)
    ensures y < 64 ==> SingleBit((1 as bv64) << y)
  {
  }

  lemma ShiftNext(y: bv7)
    ensures y < 63 ==> (1 as bv64) << y < TopBit && ((1 as bv64) << y) << 1 == (1 as bv64) << (y + 1)
  {
  }

  lemma StepUp(x: Bitboard)
    ensures SingleBit(x) && x < TopBit ==> SingleBit(x << 1) && x < x << 1
  {
  }

  lemma SingleBitDisjoint(x: Bitboard, y: Bitboard)
    ensures SingleBit(x) && SingleBit(y) && x < y ==> x & y == 0
  {
  }

  lemma OrDisjoint(b: Bitboard, x: Bitboard, y: Bitboard)
    ensures x & y == 0 ==> (b | x) & y == b & y
  {
  }

  lemma OrSelf(b: Bitboard, x: Bitboard)
    ensures x != 0 ==> (b | x) & x != 0
  {
  }

  lemma AndNotDisjoint(b: Bitboard, x: Bitboard, y: Bitboard)
    ensures x & y == 0 ==> (b & !x) & y == b & y
  {
  }

  lemma AndNotSelf(b: Bitboard, x: Bitboard)
    ensures (b & !x) & x == 0
  {
  }

  /** Bit(s) is a single bit ... */
  lemma BitSingle(s: Square)
    ensures SingleBit(Bit(s))
  {
    IndexBound(s);
    ShiftSingle(Index(s));
  }

  /** ... and Bit(s + 1) is the next one up. */
  lemma BitNext(s: Square)
    ensures s < 63 ==> Bit(s) < TopBit && Bit(s + 1) == Bit(s) << 1
  {
    IndexValue(s);
    IndexOrder(Index(s), 63);
    ShiftNext(Index(s));
  }

  lemma BitTop()
    ensures Bit(63) == TopBit
  {
    IndexValue(63);
    IndexOrder(Index(63), 63);
    IndexOrder(63, Index(63));
  }

  lemma {:induction false} BitMonotone(s: Square, t: Square)
    requires s < t
    ensures Bit(s) < Bit(t)
  {
    BitSingle(t - 1);
    BitNext(t - 1);
    StepUp(Bit(t - 1));
    if s < t - 1 {
      BitMonotone(s, t - 1);
    }
  }

  /** Bit order follows square order. */
  lemma BitOrder(s: Square, t: Square)
    ensures s < t ==> Bit(s) < Bit(t)
  {
    if s < t {
      BitMonotone(s, t);
    }
  }

  /** Distinct squares have disjoint bits. */
  lemma BitsDisjoint(s: Square, t: Square)
    ensures s != t ==> Bit(s) & Bit(t) == 0
  {
    BitSingle(s);
    BitSingle(t);
    BitOrder(s, t);
    BitOrder(t, s);
    SingleBitDisjoint(Bit(s), Bit(t));
    SingleBitDisjoint(Bit(t), Bit(s));
  }

  lemma OrBitSame(b: Bitboard, s: Square)
    ensures GetBit(b | Bit(s), s)
  {
    BitSingle(s);
    OrSelf(b, Bit(s));
  }

  lemma OrBitOther(b: Bitboard, s: Square, t: Square)
    ensures s != t ==> (b | Bit(s)) & Bit(t) == b & Bit(t)
  {
    BitsDisjoint(s, t);
    OrDisjoint(b, Bit(s), Bit(t));
  }

  lemma OrBit(b: Bitboard, s: Square, t: Square)
    ensures GetBit(b | Bit(s), t) <==> GetBit(b, t) || s == t
  {
    OrBitSame(b, s);
    OrBitOther(b, s, t);
  }

  lemma AndNotBitSame(b: Bitboard, s: Square)
    ensures !GetBit(b & !Bit(s), s)
  {
    AndNotSelf(b, Bit(s));
  }

  lemma AndNotBitOther(b: Bitboard, s: Square, t: Square)
    ensures s != t ==> (b & !Bit(s)) & Bit(t) == b & Bit(t)
  {
    BitsDisjoint(s, t);
    AndNotDisjoint(b, Bit(s), Bit(t));
  }

  lemma AndNotBit(b: Bitboard, s: Square, t: Square)
    ensures GetBit(b & !Bit(s), t) <==> GetBit(b, t) && s != t
  {
    AndNotBitSame(b, s);
    AndNotBitOther(b, s, t);
  }

  lemma SingleHalves(b: Bitboard, x: Bitboard)
    ensures SingleBit(x) ==> b & x == 0 || b & x == x
  {
  }

  lemma AndAssoc(b: Bitboard, m: Bitboard, x: Bitboard)
    ensures (b & m) & x == (b & x) & (m & x)
  {
  }

  lemma XorAnd(a: Bitboard, b: Bitboard, x: Bitboard)
    ensures (a ^ b) & x == (a & x) ^ (b & x)
  {
  }

  lemma XorZero(a: Bitboard, b: Bitboard)
    ensures a ^ b == 0 ==> a == b
  {
  }

  /** A square is on `b & m` exactly when it is on both boards. */
  lemma AndBit(b: Bitboard, m: Bitboard, s: Square)
    ensures GetBit(b & m, s) <==> GetBit(b, s) && GetBit(m, s)
  {
    BitSingle(s);
    SingleHalves(b, Bit(s));
    SingleHalves(m, Bit(s));
    AndAssoc(b, m, Bit(s));
  }

  /** A mask that misses both boards misses their union. */
  lemma OrMissesBoth(a: Bitboard, b: Bitboard, x: Bitboard)
    ensures a & x == 0 && b & x == 0 ==> (a | b) & x == 0
  {
  }

  /** A mask that misses the union misses its left board. */
  lemma OrMissesLeft(a: Bitboard, b: Bitboard, x: Bitboard)
    ensures (a | b) & x == 0 ==> a & x == 0
  {
  }

  /** A mask that misses the union misses its right board. */
  lemma OrMissesRight(a: Bitboard, b: Bitboard, x: Bitboard)
    ensures (a | b) & x == 0 ==> b & x == 0
  {
  }

  lemma OrGetSome(a: Bitboard, b: Bitboard, s: Square)
    ensures GetBit(a | b, s) ==> GetBit(a, s) || GetBit(b, s)
  {
    OrMissesBoth(a, b, Bit(s));
  }

  lemma OrGetLeft(a: Bitboard, b: Bitboard, s: Square)
    ensures GetBit(a, s) ==> GetBit(a | b, s)
  {
    OrMissesLeft(a, b, Bit(s));
  }

  lemma OrGetRight(a: Bitboard, b: Bitboard, s: Square)
    ensures GetBit(b, s) ==> GetBit(a | b, s)
  {
    OrMissesRight(a, b, Bit(s));
  }

  /**
   * A square is on `a | b` exactly when it is on either board.  Each
   * direction is its own lemma: one bit-vector goal with both directions
   * in it is far costlier for the solver than the three apart.
   */
  lemma OrGet(a: Bitboard, b: Bitboard, s: Square)
    ensures GetBit(a | b, s) <==> GetBit(a, s) || GetBit(b, s)
  {
    OrGetSome(a, b, s);
    OrGetLeft(a, b, s);
    OrGetRight(a, b, s);
  }

  lemma XorBit(a: Bitboard, b: Bitboard, s: Square)
    ensures (GetBit(a, s) <==> GetBit(b, s)) ==> !GetBit(a ^ b, s)
  {
    BitSingle(s);
    SingleHalves(a, Bit(s));
    SingleHalves(b, Bit(s));
    XorAnd(a, b, Bit(s));
  }

  lemma ClearLowestBit(b: Bitboard, x: Bitboard)
    ensures SingleBit(x) && b & x != 0 && b & (x - 1) == 0 ==> b & (b - 1) == b & !x
  {
  }

  lemma MaskUnion(b: Bitboard, m: Bitboard, x: Bitboard)
    ensures b & m == 0 && b & x == 0 ==> b & (m | x) == 0
  {
  }

  lemma NextMask(x: Bitboard)
    ensures SingleBit(x) && x < TopBit ==> (x << 1) - 1 == (x - 1) | x
  {
  }

  lemma AllOnes(b: Bitboard)
    ensures b & 0xFFFF_FFFF_FFFF_FFFF == 0 ==> b == 0
  {
  }

  lemma OrTwice(b: Bitboard, x: Bitboard)
    ensures (b | x) | x == b | x
  {
  }

  lemma AndNotTwice(b: Bitboard, x: Bitboard)
    ensures (b & !x) & !x == b & !x
  {
  }

  // ---------------------------------------------------------------------
  // setBit, clearBit, getBit (bitboard.h:9-32, chess.cpp:413-425)
  // ---------------------------------------------------------------------

  /** `board | (1ULL << square)`: square s is added, every other square kept. */
  function SetBit(b: Bitboard, s: Square): (r: Bitboard)
    ensures GetBit(r, s)
    ensures forall t: Square :: t != s ==> (GetBit(r, t) <==> GetBit(b, t))
  {
    forall t: Square ensures GetBit(b | Bit(s), t) <==> GetBit(b, t) || s == t {
      OrBit(b, s, t);
    }
    b | Bit(s)
  }

  /** `board & ~(1ULL << square)`: square s is removed, every other square kept. */
  function ClearBit(b: Bitboard, s: Square): (r: Bitboard)
    ensures !GetBit(r, s)
    ensures forall t: Square :: t != s ==> (GetBit(r, t) <==> GetBit(b, t))
  {
    forall t: Square ensures GetBit(b & !Bit(s), t) <==> GetBit(b, t) && s != t {
      AndNotBit(b, s, t);
    }
    b & !Bit(s)
  }

  /** Reading a bit back after setting or clearing it. */
  lemma GetAfterSetClear(b: Bitboard, s: Square, t: Square)
    ensures GetBit(SetBit(b, s), s) && !GetBit(ClearBit(b, s), s)
    ensures t != s ==> GetBit(SetBit(b, s), t) == GetBit(b, t) == GetBit(ClearBit(b, s), t)
  {
  }

  /** Setting or clearing a bit twice is the same as doing it once. */
  lemma SetClearIdempotent(b: Bitboard, s: Square)
    ensures SetBit(SetBit(b, s), s) == SetBit(b, s)
    ensures ClearBit(ClearBit(b, s), s) == ClearBit(b, s)
  {
    OrTwice(b, Bit(s));
    AndNotTwice(b, Bit(s));
  }

  // ---------------------------------------------------------------------
  // The squares of a board, as an ascending list
  // ---------------------------------------------------------------------

  /** The squares t >= k on board b, in increasing order. */
  function SquaresFrom(b: Bitboard, k: int): (r: seq<Square>)
    requires 0 <= k <= 64
    decreases 64 - k
  {
    if k == 64 then []
    else if GetBit(b, k) then [k as Square] + SquaresFrom(b, k + 1)
    else SquaresFrom(b, k + 1)
  }

  /** All squares of board b, in increasing order. */
  function SquareList(b: Bitboard): seq<Square>
  {
    SquaresFrom(b, 0)
  }

  /** Number of squares on a board (`__builtin_popcountll`). */
  function PopCount(b: Bitboard): nat
  {
    |SquareList(b)|
  }

  predicate StrictlyIncreasing(s: seq<Square>)
  {
    forall i, j :: 0 <= i < j < |s| ==> s[i] < s[j]
  }

  /** SquaresFrom lists each square t >= k of b exactly once, in increasing order. */
  lemma {:induction false} SquaresFromSpec(b: Bitboard, k: int)
    requires 0 <= k <= 64
    ensures forall t: Square :: t in SquaresFrom(b, k) <==> k <= t && GetBit(b, t)
    ensures forall x :: x in SquaresFrom(b, k) ==> k <= x
    ensures StrictlyIncreasing(SquaresFrom(b, k))
    decreases 64 - k
  {
    if k < 64 {
      SquaresFromSpec(b, k + 1);
      if GetBit(b, k) {
        ConsIncreasing(k, SquaresFrom(b, k + 1));
      }
    }
  }

  lemma ConsIncreasing(x: Square, r: seq<Square>)
    requires StrictlyIncreasing(r)
    requires forall y :: y in r ==> x < y
    ensures StrictlyIncreasing([x] + r)
  {
    forall i, j | 0 <= i < j < |[x] + r| ensures ([x] + r)[i] < ([x] + r)[j] {
      assert ([x] + r)[j] == r[j - 1];
      if i == 0 {
        assert r[j - 1] in r;
      } else {
        assert ([x] + r)[i] == r[i - 1];
      }
    }
  }

  /** Two boards that agree on every square t >= k list the same squares from k. */
  lemma {:induction false} SquaresFromAgree(a: Bitboard, b: Bitboard, k: int)
    requires 0 <= k <= 64
    requires forall t: Square :: k <= t ==> (GetBit(a, t) <==> GetBit(b, t))
    ensures SquaresFrom(a, k) == SquaresFrom(b, k)
    decreases 64 - k
  {
    if k < 64 {
      SquaresFromAgree(a, b, k + 1);
    }
  }

  /** Below its lowest square a board lists nothing. */
  lemma {:induction false} SquaresFromSkip(b: Bitboard, k: int, c: int)
    requires 0 <= k <= c <= 64
    requires forall t: Square :: k <= t < c ==> !GetBit(b, t)
    ensures SquaresFrom(b, k) == SquaresFrom(b, c)
    decreases c - k
  {
    if k < c {
      SquaresFromSkip(b, k + 1, c);
    }
  }

  // ---------------------------------------------------------------------
  // Lowest set bit and popLSB (bitboard.h:34-39)
  // ---------------------------------------------------------------------

  lemma IndexZero()
    ensures Index(0) == 0
  {
  }

  lemma BelowZero()
    ensures Below(0) == 0
  {
    IndexZero();
  }

  /** Below(s + 1) adds square s to Below(s). */
  lemma BelowStep(s: Square)
    ensures s < 63 ==> Below(s + 1) == Below(s) | Bit(s)
  {
    BitSingle(s);
    BitNext(s);
    NextMask(Bit(s));
  }

  /** A board with no square under s has no bit under Bit(s). */
  lemma {:induction false} LowBitsClear(b: Bitboard, s: Square)
    requires forall t: Square :: t < s ==> !GetBit(b, t)
    ensures b & Below(s) == 0
  {
    if s == 0 {
      BelowZero();
    } else {
      assert !GetBit(b, s - 1);
      LowBitsClear(b, s - 1);
      BelowStep(s - 1);
      MaskUnion(b, Below(s - 1), Bit(s - 1));
    }
  }

  /** A board holding none of the 64 squares is the empty board. */
  lemma NoSquares(b: Bitboard)
    requires forall t: Square :: !GetBit(b, t)
    ensures b == 0
  {
    LowBitsClear(b, 63);
    assert !GetBit(b, 63);
    BitTop();
    assert Below(63) | Bit(63) == 0xFFFF_FFFF_FFFF_FFFF;
    MaskUnion(b, Below(63), Bit(63));
    AllOnes(b);
  }

  /** Two boards holding the same squares are the same board. */
  lemma Extensionality(a: Bitboard, b: Bitboard)
    requires forall t: Square :: GetBit(a, t) <==> GetBit(b, t)
    ensures a == b
  {
    var x := a ^ b;
    forall t: Square ensures !GetBit(x, t) {
      XorBit(a, b, t);
    }
    NoSquares(x);
    XorZero(a, b);
  }

  /** The first element of an increasing list is its least. */
  lemma HeadIsLeast(s: seq<Square>)
    requires StrictlyIncreasing(s) && |s| > 0
    ensures forall x :: x in s ==> s[0] <= x
  {
  }

  /** `__builtin_ctzll(b)`: the lowest square on a non-empty board. */
  function Ctz(b: Bitboard): (r: Square)
    requires b != 0
    ensures GetBit(b, r)
    ensures forall t: Square :: t < r ==> !GetBit(b, t)
  {
    EmptyList(b);
    SquaresFromSpec(b, 0);
    HeadIsLeast(SquareList(b));
    SquareList(b)[0]
  }

  /** Clearing the lowest set bit is `bb & (bb - 1)`. */
  lemma ClearLowest(bb: Bitboard, sq: Square)
    ensures GetBit(bb, sq) && bb & Below(sq) == 0 ==> bb & (bb - 1) == bb & !Bit(sq)
  {
    BitSingle(sq);
    ClearLowestBit(bb, Bit(sq));
  }

  /**
   * `popLSB(bb)`: returns the lowest square of a non-empty board together
   * with the board that `bb` is left holding, which is `bb & (bb - 1)`.
   */
  function PopLSB(bb: Bitboard): (r: (Square, Bitboard))
    requires bb != 0
    ensures GetBit(bb, r.0)
    ensures forall t: Square :: t < r.0 ==> !GetBit(bb, t)
    ensures r.1 == ClearBit(bb, r.0)
  {
    var sq := Ctz(bb);
    LowBitsClear(bb, sq);
    ClearLowest(bb, sq);
    (sq, bb & (bb - 1))
  }

  /** Popping the lowest square takes the head off the ascending list. */
  lemma PopLSBList(bb: Bitboard)
    requires bb != 0
    ensures SquareList(bb) == [PopLSB(bb).0] + SquareList(PopLSB(bb).1)
  {
    var (sq, rest) := PopLSB(bb);
    SquaresFromSkip(bb, 0, sq);
    assert SquaresFrom(bb, sq) == [sq] + SquaresFrom(bb, sq + 1);
    SquaresFromAgree(bb, rest, sq + 1);
    forall t: Square | t < sq + 1 ensures !GetBit(rest, t) {
    }
    SquaresFromSkip(rest, 0, sq + 1);
  }

  /** The squares produced by calling popLSB until the board is empty. */
  function PopAll(bb: Bitboard): (r: seq<Square>)
    decreases PopCount(bb)
  {
    if bb == 0 then []
    else
      PopLSBList(bb);
      var (sq, rest) := PopLSB(bb);
      [sq] + PopAll(rest)
  }

  /** A board is empty exactly when it lists no squares. */
  lemma EmptyList(bb: Bitboard)
    ensures bb == 0 <==> SquareList(bb) == []
  {
    SquaresFromSpec(bb, 0);
    if SquareList(bb) == [] {
      NoSquares(bb);
    }
    if bb == 0 {
      SquaresFromSkip(bb, 0, 64);
    }
  }

  /**
   * Repeated popLSB visits every square of the board exactly once, in
   * increasing order, and nothing else.
   */
  lemma {:induction false} PopAllSpec(bb: Bitboard)
    ensures PopAll(bb) == SquareList(bb)
    ensures forall t: Square :: t in PopAll(bb) <==> GetBit(bb, t)
    ensures StrictlyIncreasing(PopAll(bb))
    decreases PopCount(bb)
  {
    SquaresFromSpec(bb, 0);
    if bb == 0 {
      EmptyList(bb);
    } else {
      PopLSBList(bb);
      PopAllSpec(PopLSB(bb).1);
    }
  }

  /** The number of popLSB calls a board allows is its population count. */
  lemma PopAllLength(bb: Bitboard)
    ensures |PopAll(bb)| == PopCount(bb)
  {
    PopAllSpec(bb);
  }
}
