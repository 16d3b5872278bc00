// The file and rank masks of api/include/move/movegen.h:12-21.  The knight
// and king lookups of movegen.h:59-67 are the parameter
// MoveGeneration.Lookups, not tables of this file.

module BoardMasks {
  import opened Bitboards
  import opened Rays

  const FILE_A: Bitboard := 0x0101_0101_0101_0101
  const FILE_H: Bitboard := 0x8080_8080_8080_8080
  const RANK_1: Bitboard := 0x0000_0000_0000_00FF
  const RANK_2: Bitboard := 0x0000_0000_0000_FF00
  const RANK_4: Bitboard := 0x0000_0000_FF00_0000
  const RANK_5: Bitboard := 0x0000_00FF_0000_0000
  const RANK_7: Bitboard := 0x00FF_0000_0000_0000
  const RANK_8: Bitboard := 0xFF00_0000_0000_0000

  // Bit-level facts over a 7-bit shift amount below 64.

  lemma FileABits(x: bv7)
    requires x < 64
    ensures FILE_A & (1 << x) != 0 <==> x & 7 == 0
  {
  }

  lemma FileHBits(x: bv7)
    requires x < 64
    ensures FILE_H & (1 << x) != 0 <==> x & 7 == 7
  {
  }

  lemma RankBits(x: bv7)
    requires x < 64
    ensures RANK_1 & (1 << x) != 0 <==> x >> 3 == 0
    ensures RANK_2 & (1 << x) != 0 <==> x >> 3 == 1
    ensures RANK_4 & (1 << x) != 0 <==> x >> 3 == 3
  {
  }

  lemma UpperRankBits(x: bv7)
    requires x < 64
    ensures RANK_5 & (1 << x) != 0 <==> x >> 3 == 4
    ensures RANK_7 & (1 << x) != 0 <==> x >> 3 == 6
    ensures RANK_8 & (1 << x) != 0 <==> x >> 3 == 7
  {
  }

  lemma StepInside(x: bv7, y: bv7)
    requires x < 64 && x & 7 == y && y < 7
    ensures (x + 1) & 7 == y + 1 && (x + 1) >> 3 == x >> 3
  {
  }

  lemma StepAcross(x: bv7)
    requires x < 63 && x & 7 == 7
    ensures (x + 1) & 7 == 0 && (x + 1) >> 3 == (x >> 3) + 1
  {
  }

  lemma DivModStep(s: int)
    requires 0 < s
    ensures (s - 1) % 8 < 7 ==> s % 8 == (s - 1) % 8 + 1 && s / 8 == (s - 1) / 8
    ensures (s - 1) % 8 == 7 ==> s % 8 == 0 && s / 8 == (s - 1) / 8 + 1
  {
  }

  lemma IndexInside(s: Square, x: bv7, f: int, r: int)
    requires 0 < s && f == (s - 1) % 8 && r == (s - 1) / 8 && f < 7
    requires x == Index(s - 1) && x & 7 == Index(f) && x >> 3 == Index(r)
    ensures Index(s) & 7 == Index(s % 8) && Index(s) >> 3 == Index(s / 8)
  {
    IndexValue(f);
    IndexBound(s - 1);
    DivModStep(s);
    assert Index(s % 8) == Index(f) + 1;
    StepInside(x, Index(f));
  }

  lemma IndexAcross(s: Square, x: bv7, f: int, r: int)
    requires 0 < s && f == (s - 1) % 8 && r == (s - 1) / 8 && f == 7
    requires x == Index(s - 1) && x & 7 == Index(f) && x >> 3 == Index(r)
    ensures Index(s) & 7 == Index(s % 8) && Index(s) >> 3 == Index(s / 8)
  {
    IndexValue(s - 1);
    DivModStep(s);
    assert Index(s / 8) == Index(r) + 1;
    StepAcross(x);
  }

  /** The low three bits of a square's shift amount are its file, the rest its rank. */
  lemma {:induction false} IndexFileRank(s: Square)
    ensures Index(s) & 7 == Index(s % 8)
    ensures Index(s) >> 3 == Index(s / 8)
  {
    if s > 0 {
      IndexFileRank(s - 1);
      if (s - 1) % 8 < 7 {
        IndexInside(s, Index(s - 1), (s - 1) % 8, (s - 1) / 8);
      } else {
        IndexAcross(s, Index(s - 1), (s - 1) % 8, (s - 1) / 8);
      }
    }
  }

  lemma IndexIs(s: Square, k: Square)
    ensures Index(s) == Index(k) <==> s == k
  {
    IndexValue(s);
    IndexValue(k);
  }

  /** `FILE_A` is the a-file and `FILE_H` the h-file. */
  lemma FileMasks(s: Square)
    ensures GetBit(FILE_A, s) <==> FileOf(s) == 0
    ensures GetBit(FILE_H, s) <==> FileOf(s) == 7
  {
    IndexBound(s);
    FileABits(Index(s));
    FileHBits(Index(s));
    IndexFileRank(s);
    IndexIs(s % 8, 0);
    IndexIs(s % 8, 7);
  }

  /** `RANK_n` holds exactly the squares of rank n (counted from 1). */
  lemma RankMasks(s: Square)
    ensures GetBit(RANK_1, s) <==> RankOf(s) == 0
    ensures GetBit(RANK_2, s) <==> RankOf(s) == 1
    ensures GetBit(RANK_4, s) <==> RankOf(s) == 3
    ensures GetBit(RANK_5, s) <==> RankOf(s) == 4
    ensures GetBit(RANK_7, s) <==> RankOf(s) == 6
    ensures GetBit(RANK_8, s) <==> RankOf(s) == 7
  {
    IndexBound(s);
    RankBits(Index(s));
    UpperRankBits(Index(s));
    IndexFileRank(s);
    IndexIs(s / 8, 0);
    IndexIs(s / 8, 1);
    IndexIs(s / 8, 3);
    IndexIs(s / 8, 4);
    IndexIs(s / 8, 6);
    IndexIs(s / 8, 7);
  }
}
