// Square sets.  Positions and move generation hold their piece boards as
// sets of squares; this module links such a set to the bv64 bitboard that
// the source keeps, and gives the set-side meaning of `popLSB`
// (api/include/board/bitboard.h:34-39): the least square is taken out.

module SquareSets {
  import opened Bitboards

  /** The squares on a bitboard. */
  function SquaresOf(b: Bitboard): (r: set<Square>)
    ensures forall t: Square :: t in r <==> GetBit(b, t)
  {
    set t: Square | GetBit(b, t)
  }

  /** The bitboard holding the squares t >= k of S, set bit by bit. */
  function BoardFrom(S: set<Square>, k: int): (r: Bitboard)
    requires 0 <= k <= 64
    decreases 64 - k
  {
    if k == 64 then 0
    else if k in S then SetBit(BoardFrom(S, k + 1), k)
    else BoardFrom(S, k + 1)
  }

  lemma {:induction false} BoardFromSpec(S: set<Square>, k: int, t: Square)
    requires 0 <= k <= 64
    ensures GetBit(BoardFrom(S, k), t) <==> t in S && k <= t
    decreases 64 - k
  {
    if k == 64 {
      NoBit(t);
    } else {
      BoardFromSpec(S, k + 1, t);
    }
  }

  lemma NoBit(t: Square)
    ensures !GetBit(0, t)
  {
  }

  /** The bitboard of a square set. */
  function BoardOf(S: set<Square>): Bitboard
  {
    BoardFrom(S, 0)
  }

  /** The two representations convert into each other without loss. */
  lemma BoardRoundTrip(S: set<Square>, b: Bitboard)
    ensures SquaresOf(BoardOf(S)) == S
    ensures BoardOf(SquaresOf(b)) == b
  {
    forall t: Square ensures GetBit(BoardOf(S), t) <==> t in S {
      BoardFromSpec(S, 0, t);
    }
    forall t: Square ensures GetBit(BoardOf(SquaresOf(b)), t) <==> GetBit(b, t) {
      BoardFromSpec(SquaresOf(b), 0, t);
    }
    Extensionality(BoardOf(SquaresOf(b)), b);
  }

  /** The least square of S at or above k, when every square of S is. */
  function LeastFrom(S: set<Square>, k: Square, w: Square): (r: Square)
    requires w in S && forall t :: t in S ==> k <= t
    ensures r in S && forall t :: t in S ==> r <= t
    decreases 64 - k
  {
    if k in S then k else LeastFrom(S, k + 1, w)
  }

  /** The least square of a non-empty set: what `__builtin_ctzll` finds. */
  function Least(S: set<Square>): (r: Square)
    requires S != {}
    ensures r in S && forall t :: t in S ==> r <= t
  {
    LeastExists(S);
    var m :| m in S && forall t :: t in S ==> m <= t;
    m
  }

  lemma LeastExists(S: set<Square>)
    requires S != {}
    ensures exists m :: m in S && forall t :: t in S ==> m <= t
  {
    var w :| w in S;
    var m := LeastFrom(S, 0, w);
  }

  /** `popLSB` on a bitboard takes out exactly the least square of its set. */
  lemma PopLSBSquares(bb: Bitboard)
    requires bb != 0
    ensures SquaresOf(bb) != {}
    ensures PopLSB(bb).0 == Least(SquaresOf(bb))
    ensures SquaresOf(PopLSB(bb).1) == SquaresOf(bb) - {PopLSB(bb).0}
  {
    var (sq, rest) := PopLSB(bb);
    var S := SquaresOf(bb);
    assert sq in S;
    var m := Least(S);
    assert m <= sq && !(m < sq);
    forall t: Square ensures t in SquaresOf(rest) <==> t in S && t != sq {
    }
  }

  predicate Between(lo: int, hi: int, t: Square)
  {
    lo <= t < hi
  }

  /** The squares lo .. hi-1. */
  function Range(lo: int, hi: int): (r: set<Square>)
    ensures forall t: Square :: t in r <==> lo <= t < hi
  {
    set t: Square | Between(lo, hi, t)
  }

  lemma {:induction false} RangeSize(lo: int, hi: int)
    requires 0 <= lo <= hi <= 64
    ensures |Range(lo, hi)| == hi - lo
    decreases hi - lo
  {
    if lo < hi {
      RangeSize(lo, hi - 1);
      assert Range(lo, hi) == Range(lo, hi - 1) + {hi - 1};
    }
  }

  /** `setBit` adds its square to the set, `clearBit` takes it out. */
  lemma SetClearSquares(b: Bitboard, s: Square)
    ensures SquaresOf(SetBit(b, s)) == SquaresOf(b) + {s}
    ensures SquaresOf(ClearBit(b, s)) == SquaresOf(b) - {s}
  {
    forall t: Square ensures t in SquaresOf(SetBit(b, s)) <==> t in SquaresOf(b) + {s} {
    }
    forall t: Square ensures t in SquaresOf(ClearBit(b, s)) <==> t in SquaresOf(b) - {s} {
    }
  }

  /** One square more at the top of a range. */
  lemma RangeExtend(lo: int, hi: int)
    requires 0 <= lo <= hi < 64
    ensures Range(lo, hi) + {hi} == Range(lo, hi + 1)
  {
    forall t: Square ensures t in Range(lo, hi) + {hi} <==> t in Range(lo, hi + 1) {
    }
  }
}
