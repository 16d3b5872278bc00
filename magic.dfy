// The magic lookup tables of api/src/board/magicbitboard.cpp:9-81 and the
// lookups of api/include/move/movegen.h:32-73.  A table entry holds a
// square's mask, its magic multiplier, the shift 64 - popcount(mask) and a
// vector of 2^popcount(mask) attack boards indexed by
// (blockers * magic) >> shift.

module Magic {
  import opened Bitboards
  import opened Words
  import opened Rays

  /** The two sliding pieces whose tables are built; the source repeats the same code for each. */
  datatype Slider = Rook | Bishop

  predicate InMask(p: Slider, sq: Square, t: Square)
  {
    if p == Rook then InRookMask(sq, t) else InBishopMask(sq, t)
  }

  predicate Attacked(p: Slider, sq: Square, blockers: Bitboard, t: Square)
  {
    if p == Rook then RookAttacked(sq, blockers, t) else BishopAttacked(sq, blockers, t)
  }

  predicate IsMask(p: Slider, sq: Square, mask: Bitboard)
  {
    forall t: Square :: GetBit(mask, t) <==> InMask(p, sq, t)
  }

  predicate IsAttackSet(p: Slider, sq: Square, blockers: Bitboard, attacks: Bitboard)
  {
    forall t: Square :: GetBit(attacks, t) <==> Attacked(p, sq, blockers, t)
  }

  predicate SameAttacks(p: Slider, sq: Square, b1: Bitboard, b2: Bitboard)
  {
    forall t: Square :: Attacked(p, sq, b1, t) <==> Attacked(p, sq, b2, t)
  }

  method GenerateMask(p: Slider, square: Square) returns (mask: Bitboard)
    ensures IsMask(p, square, mask)
  {
    if p == Rook {
      mask := GenerateRookMask(square);
    } else {
      mask := GenerateBishopMask(square);
    }
  }

  method GenerateAttacks(p: Slider, square: Square, blockers: Bitboard) returns (attacks: Bitboard)
    ensures IsAttackSet(p, square, blockers, attacks)
  {
    if p == Rook {
      attacks := GenerateRookAttacks(square, blockers);
    } else {
      attacks := GenerateBishopAttacks(square, blockers);
    }
  }

  // ---------------------------------------------------------------------
  // Blocker configurations (magicbitboard.cpp:25-40)
  // ---------------------------------------------------------------------

  /** How many squares of mask lie below n: the value of the bit counter when the scan reaches n. */
  function CountBelow(mask: Bitboard, n: int): nat
    requires 0 <= n <= 64
  {
    if n == 0 then 0 else CountBelow(mask, n - 1) + (if GetBit(mask, n - 1) then 1 else 0)
  }

  /** The scan of the blocker loop from square j on, with counter `bit` and board `acc` so far. */
  function SubsetFrom(mask: Bitboard, i: nat, j: int, bit: nat, acc: Bitboard): Bitboard
    requires 0 <= j <= 64
    decreases 64 - j
  {
    if j == 64 then acc
    else if GetBit(mask, j) then
      SubsetFrom(mask, i, j + 1, bit + 1, if IBit(i, bit) then SetBit(acc, j) else acc)
    else SubsetFrom(mask, i, j + 1, bit, acc)
  }

  /** Blocker configuration number i of mask. */
  function Subset(mask: Bitboard, i: nat): Bitboard
  {
    SubsetFrom(mask, i, 0, 0, 0)
  }

  lemma {:induction false} SubsetFromSpec(mask: Bitboard, i: nat, j: int, bit: nat, acc: Bitboard)
    requires 0 <= j <= 64 && bit == CountBelow(mask, j)
    requires forall t: Square :: j <= t ==> !GetBit(acc, t)
    ensures forall t: Square :: GetBit(SubsetFrom(mask, i, j, bit, acc), t) <==>
      (t < j && GetBit(acc, t)) || (j <= t && GetBit(mask, t) && IBit(i, CountBelow(mask, t)))
    decreases 64 - j
  {
    if j < 64 {
      var acc' := if GetBit(mask, j) && IBit(i, bit) then SetBit(acc, j) else acc;
      var bit' := if GetBit(mask, j) then bit + 1 else bit;
      assert SubsetFrom(mask, i, j, bit, acc) == SubsetFrom(mask, i, j + 1, bit', acc');
      SubsetFromSpec(mask, i, j + 1, bit', acc');
    }
  }

  /** Square t is in configuration i exactly when t is in mask and bit k of i is set, t being mask square number k. */
  lemma SubsetSpec(mask: Bitboard, i: nat)
    ensures forall t: Square :: GetBit(Subset(mask, i), t) <==> GetBit(mask, t) && IBit(i, CountBelow(mask, t))
  {
    forall t: Square ensures !GetBit(0, t) {
    }
    SubsetFromSpec(mask, i, 0, 0, 0);
  }

  lemma {:induction false} DiffBit(i: nat, i2: nat, n: nat) returns (k: nat)
    requires i < Pow2(n) && i2 < Pow2(n) && i != i2
    ensures k < n && IBit(i, k) != IBit(i2, k)
  {
    if i % 2 != i2 % 2 {
      k := 0;
    } else {
      var k' := DiffBit(i / 2, i2 / 2, n - 1);
      k := k' + 1;
    }
  }

  lemma {:induction false} SquareOfCount(mask: Bitboard, k: nat, n: int) returns (t: Square)
    requires 0 <= n <= 64 && k < CountBelow(mask, n)
    ensures t < n && GetBit(mask, t) && CountBelow(mask, t) == k
  {
    if k < CountBelow(mask, n - 1) {
      t := SquareOfCount(mask, k, n - 1);
    } else {
      t := n - 1;
    }
  }

  lemma {:induction false} SquaresFromCount(mask: Bitboard, j: int)
    requires 0 <= j <= 64
    ensures |SquaresFrom(mask, j)| + CountBelow(mask, j) == CountBelow(mask, 64)
    decreases 64 - j
  {
    if j < 64 {
      SquaresFromCount(mask, j + 1);
    }
  }

  /** `__builtin_popcountll(mask)` is the count of mask squares below 64. */
  lemma PopCountIsCount(mask: Bitboard)
    ensures PopCount(mask) == CountBelow(mask, 64)
  {
    SquaresFromCount(mask, 0);
  }

  /** Distinct configuration numbers below 2^popcount(mask) give distinct blocker boards. */
  lemma SubsetInjective(mask: Bitboard, i: nat, i2: nat)
    requires i < Pow2(PopCount(mask)) && i2 < Pow2(PopCount(mask)) && i != i2
    ensures Subset(mask, i) != Subset(mask, i2)
  {
    var k := DiffBit(i, i2, PopCount(mask));
    PopCountIsCount(mask);
    var t := SquareOfCount(mask, k, 64);
    SubsetSpec(mask, i);
    SubsetSpec(mask, i2);
    assert GetBit(Subset(mask, i), t) != GetBit(Subset(mask, i2), t);
  }

  lemma {:induction false} CountMonotone(mask: Bitboard, a: int, b: int)
    requires 0 <= a <= b <= 64
    ensures CountBelow(mask, a) <= CountBelow(mask, b)
    decreases b - a
  {
    if a < b {
      CountMonotone(mask, a, b - 1);
    }
  }

  /** The configuration number whose bits are the squares of `blockers` among the mask squares from j on. */
  function Encode(mask: Bitboard, blockers: Bitboard, j: int): nat
    requires 0 <= j <= 64
    decreases 64 - j
  {
    if j == 64 then 0
    else if GetBit(mask, j) then (if GetBit(blockers, j) then 1 else 0) + 2 * Encode(mask, blockers, j + 1)
    else Encode(mask, blockers, j + 1)
  }

  lemma {:induction false} EncodeSpec(mask: Bitboard, blockers: Bitboard, j: int)
    requires 0 <= j <= 64
    ensures CountBelow(mask, j) <= CountBelow(mask, 64)
    ensures Encode(mask, blockers, j) < Pow2(CountBelow(mask, 64) - CountBelow(mask, j))
    ensures forall t: Square :: j <= t && GetBit(mask, t) ==>
      CountBelow(mask, j) <= CountBelow(mask, t) &&
      (IBit(Encode(mask, blockers, j), CountBelow(mask, t) - CountBelow(mask, j)) <==> GetBit(blockers, t))
    decreases 64 - j
  {
    CountMonotone(mask, j, 64);
    if j < 64 {
      EncodeSpec(mask, blockers, j + 1);
      forall t: Square | j <= t ensures CountBelow(mask, j) <= CountBelow(mask, t) {
        CountMonotone(mask, j, t);
      }
      forall t: Square | j + 1 <= t ensures CountBelow(mask, j + 1) <= CountBelow(mask, t) {
        CountMonotone(mask, j + 1, t);
      }
    }
  }

  /** Every board of mask squares is one of the configurations, with a number below 2^popcount(mask). */
  lemma SubsetOnto(mask: Bitboard, blockers: Bitboard) returns (i: nat)
    requires forall t: Square :: GetBit(blockers, t) ==> GetBit(mask, t)
    ensures i < Pow2(PopCount(mask)) && Subset(mask, i) == blockers
  {
    i := Encode(mask, blockers, 0);
    EncodeSpec(mask, blockers, 0);
    PopCountIsCount(mask);
    SubsetSpec(mask, i);
    Extensionality(Subset(mask, i), blockers);
  }

  /**
   * The inner loop of the table builder: scan the 64 squares, and give the
   * k-th square of mask to the blockers when bit k of i is set.
   */
  method BlockersFor(mask: Bitboard, i: nat) returns (blockers: Bitboard)
    ensures blockers == Subset(mask, i)
    ensures forall t: Square :: GetBit(blockers, t) <==> GetBit(mask, t) && IBit(i, CountBelow(mask, t))
  {
    blockers := 0;
    var bit := 0;
    var j := 0;
    while j < 64
      invariant 0 <= j <= 64 && bit == CountBelow(mask, j)
      invariant SubsetFrom(mask, i, j, bit, blockers) == Subset(mask, i)
    {
      if GetBit(mask, j) {
        if IBit(i, bit) {
          blockers := SetBit(blockers, j);
        }
        bit := bit + 1;
      }
      j := j + 1;
    }
    SubsetSpec(mask, i);
  }

  // ---------------------------------------------------------------------
  // Table shape
  // ---------------------------------------------------------------------

  lemma {:induction false} CountAtMost(mask: Bitboard, n: int)
    requires 0 <= n <= 64
    ensures CountBelow(mask, n) <= n
  {
    if n > 0 {
      CountAtMost(mask, n - 1);
    }
  }

  lemma {:induction false} CountMissing(mask: Bitboard, n: int, t: Square)
    requires 0 <= n <= 64 && t < n && !GetBit(mask, t)
    ensures CountBelow(mask, n) < n
  {
    if t < n - 1 {
      CountMissing(mask, n - 1, t);
    } else {
      CountAtMost(mask, n - 1);
    }
  }

  lemma CountHas(mask: Bitboard, t: Square)
    requires GetBit(mask, t)
    ensures CountBelow(mask, 64) >= 1
  {
    CountMonotone(mask, t + 1, 64);
  }

  /** A mask square that exists for every square: the mask is never empty. */
  function MaskWitness(p: Slider, sq: Square): (w: Square)
    ensures InMask(p, sq, w)
  {
    var r := RankOf(sq);
    var f := FileOf(sq);
    if p == Rook then
      (if r == 1 then 2 else 1) * 8 + f
    else
      (if r <= 4 then r + 1 else r - 1) * 8 + (if f <= 4 then f + 1 else f - 1)
  }

  /** Every mask has between 1 and 63 squares: sq is never in its own mask. */
  lemma MaskSize(p: Slider, sq: Square, mask: Bitboard)
    requires IsMask(p, sq, mask)
    ensures 0 < PopCount(mask) < 64
  {
    PopCountIsCount(mask);
    CountHas(mask, MaskWitness(p, sq));
    CountMissing(mask, 64, sq);
  }


  /** Only the mask squares of the blockers matter to a slider. */
  lemma Relevance(p: Slider, sq: Square, occupied: Bitboard, mask: Bitboard, t: Square)
    requires IsMask(p, sq, mask)
    ensures Attacked(p, sq, occupied, t) <==> Attacked(p, sq, occupied & mask, t)
  {
    if p == Rook {
      RookRelevance(sq, occupied, mask, t);
    } else {
      BishopRelevance(sq, occupied, mask, t);
    }
  }

  // ---------------------------------------------------------------------
  // The attack board as a value
  // ---------------------------------------------------------------------

  /** The squares from k upwards that the slider attacks, collected into a board. */
  function AttackBoardFrom(p: Slider, sq: Square, blockers: Bitboard, k: nat): Bitboard
    requires k <= 64
    decreases 64 - k
  {
    if k == 64 then 0
    else if Attacked(p, sq, blockers, k) then SetBit(AttackBoardFrom(p, sq, blockers, k + 1), k)
    else AttackBoardFrom(p, sq, blockers, k + 1)
  }

  /** The attack board of a slider on sq: the reference the generators and the tables are held to. */
  function AttackBoard(p: Slider, sq: Square, blockers: Bitboard): Bitboard
  {
    AttackBoardFrom(p, sq, blockers, 0)
  }

  lemma {:induction false} AttackBoardFromSpec(p: Slider, sq: Square, blockers: Bitboard, k: nat)
    requires k <= 64
    ensures forall t: Square :: GetBit(AttackBoardFrom(p, sq, blockers, k), t) <==> k <= t && Attacked(p, sq, blockers, t)
    decreases 64 - k
  {
    if k == 64 {
      forall t: Square ensures !GetBit(0, t) {
        NoBitOfZero(t);
      }
    } else {
      AttackBoardFromSpec(p, sq, blockers, k + 1);
    }
  }

  /** The reference board is an attack set, and the only one. */
  lemma AttackBoardSpec(p: Slider, sq: Square, blockers: Bitboard, a: Bitboard)
    ensures IsAttackSet(p, sq, blockers, AttackBoard(p, sq, blockers))
    ensures IsAttackSet(p, sq, blockers, a) <==> a == AttackBoard(p, sq, blockers)
  {
    AttackBoardFromSpec(p, sq, blockers, 0);
    if IsAttackSet(p, sq, blockers, a) {
      Extensionality(a, AttackBoard(p, sq, blockers));
    }
  }

  /** A square is on the attack board exactly when the piece attacks it. */
  lemma AttackBoardBit(p: Slider, sq: Square, blockers: Bitboard, t: Square)
    ensures GetBit(AttackBoard(p, sq, blockers), t) <==> Attacked(p, sq, blockers, t)
  {
    AttackBoardSpec(p, sq, blockers, 0);
  }

  /** Blockers with the same attacked squares have the same board. */
  lemma SameAttackBoard(p: Slider, sq: Square, b1: Bitboard, b2: Bitboard)
    requires SameAttacks(p, sq, b1, b2)
    ensures AttackBoard(p, sq, b1) == AttackBoard(p, sq, b2)
  {
    AttackBoardSpec(p, sq, b1, 0);
    AttackBoardSpec(p, sq, b2, AttackBoard(p, sq, b1));
  }

  /** `generateRookAttacks` / `generateBishopAttacks` compute the reference board. */
  method AttacksFor(p: Slider, square: Square, blockers: Bitboard) returns (attacks: Bitboard)
    ensures attacks == AttackBoard(p, square, blockers)
  {
    attacks := GenerateAttacks(p, square, blockers);
    AttackBoardSpec(p, square, blockers, attacks);
  }

  // ---------------------------------------------------------------------
  // Table entries (magicentry.h:7-13)
  // ---------------------------------------------------------------------

  /** `MagicEntry`: relevance mask, magic multiplier, shift and attack vector. */
  datatype MagicEntry = MagicEntry(mask: Bitboard, magic: Bitboard, shift: int, attacks: seq<Bitboard>)

  /** The value-initialised entry of the global arrays before initialisation. */
  const EmptyEntry := MagicEntry(0, 0, 0, [])

  /** A shift for which `>>` on `uint64_t` is defined. */
  predicate ShiftInRange(e: MagicEntry)
  {
    0 <= e.shift < 64
  }

  /** `(blockers * magic) >> shift`: the slot of a blocker board. */
  function HashIndex(blockers: Bitboard, magic: Bitboard, shift: int): nat
    requires 0 <= shift < 64
  {
    ShiftRight(MulWord(blockers, magic), shift)
  }

  /** The index of any blocker board fits a vector of 2^bits entries when shift is 64 - bits. */
  lemma HashFits(blockers: Bitboard, magic: Bitboard, bits: nat)
    requires 0 < bits < 64
    ensures HashIndex(blockers, magic, 64 - bits) < Pow2(bits)
  {
    ShiftFits(MulWord(blockers, magic), bits);
  }

  /** The shape the builder gives the entry of square sq. */
  predicate EntryShape(p: Slider, sq: Square, e: MagicEntry)
  {
    IsMask(p, sq, e.mask) && 0 < PopCount(e.mask) < 64 &&
    e.shift == 64 - PopCount(e.mask) && |e.attacks| == Pow2(PopCount(e.mask))
  }

  /** The number of blocker configurations of a mask, `1 << popcount(mask)`. */
  function Variations(mask: Bitboard): nat
  {
    Pow2(PopCount(mask))
  }

  /** The slot of each configuration number below n. */
  function ConfigSlots(mask: Bitboard, magic: Bitboard, shift: int, n: nat): (r: seq<nat>)
    requires 0 <= shift < 64
    ensures |r| == n
  {
    seq(n, i requires 0 <= i => HashIndex(Subset(mask, i), magic, shift))
  }

  /** The attack board of each configuration number below n. */
  function ConfigBoards(p: Slider, sq: Square, mask: Bitboard, n: nat): (r: seq<Bitboard>)
    ensures |r| == n
  {
    seq(n, i requires 0 <= i => AttackBoard(p, sq, Subset(mask, i)))
  }

  /** The first n configurations find their boards at their slots. */
  predicate Serves(attacks: seq<Bitboard>, slots: seq<nat>, boards: seq<Bitboard>, n: nat)
    requires n <= |slots| == |boards|
  {
    forall i :: 0 <= i < n ==> slots[i] < |attacks| && attacks[slots[i]] == boards[i]
  }

  /** Configurations that share a slot share a board. */
  predicate Separates(slots: seq<nat>, boards: seq<Bitboard>)
    requires |slots| == |boards|
  {
    forall i, j :: 0 <= i < |slots| && 0 <= j < |slots| && slots[i] == slots[j] ==> boards[i] == boards[j]
  }

  /** Every blocker configuration of the mask finds its attack board. */
  predicate Filled(p: Slider, sq: Square, e: MagicEntry)
  {
    ShiftInRange(e) &&
    Serves(e.attacks, ConfigSlots(e.mask, e.magic, e.shift, Variations(e.mask)),
           ConfigBoards(p, sq, e.mask, Variations(e.mask)), Variations(e.mask))
  }

  /**
   * What a magic number must achieve: two configurations that share a slot
   * have the same attack board.  The published constants are assumed to
   * have this property; it is a hypothesis of the theorems below.
   */
  predicate CollisionFree(p: Slider, sq: Square, e: MagicEntry)
  {
    ShiftInRange(e) &&
    Separates(ConfigSlots(e.mask, e.magic, e.shift, Variations(e.mask)), ConfigBoards(p, sq, e.mask, Variations(e.mask)))
  }

  // ---------------------------------------------------------------------
  // Building one entry (magicbitboard.cpp:12-45 and 48-80)
  // ---------------------------------------------------------------------

  /** Writing configuration n's board at its slot keeps configurations 0..n-1 served. */
  lemma WriteKeepsServed(attacks: seq<Bitboard>, slots: seq<nat>, boards: seq<Bitboard>, n: nat)
    requires n < |slots| == |boards| && slots[n] < |attacks|
    requires Separates(slots, boards) && Serves(attacks, slots, boards, n)
    ensures Serves(attacks[slots[n] := boards[n]], slots, boards, n + 1)
  {
  }

  /**
   * The index of a blocker board, `((blockers * magic) >> shift) &
   * (variations - 1)` with shift = 64 - popcount(mask): the mask never
   * changes it, because the shifted product is already below variations.
   */
  method MaskedIndex(mask: Bitboard, magic: Bitboard, blockers: Bitboard) returns (index: nat)
    requires 0 < PopCount(mask) < 64
    ensures index == HashIndex(blockers, magic, 64 - PopCount(mask)) && index < Variations(mask)
  {
    var bits := PopCount(mask);
    var variations := Pow2(bits);
    index := HashIndex(blockers, magic, 64 - bits);
    HashFits(blockers, magic, bits);
    LowMaskKeeps(index, variations - 1, bits);
    index := AndValue(index, variations - 1, 64);
  }

  /** One pass of the configuration loop: the blockers of configuration i and the write of their attack board. */
  method WriteConfiguration(p: Slider, square: Square, mask: Bitboard, magic: Bitboard, i: nat, attacks: seq<Bitboard>)
    returns (r: seq<Bitboard>)
    requires 0 < PopCount(mask) < 64 && i < Variations(mask) && |attacks| == Variations(mask)
    ensures HashIndex(Subset(mask, i), magic, 64 - PopCount(mask)) < |attacks|
    ensures r == attacks[HashIndex(Subset(mask, i), magic, 64 - PopCount(mask)) := AttackBoard(p, square, Subset(mask, i))]
  {
    var blockers := BlockersFor(mask, i);
    var index := MaskedIndex(mask, magic, blockers);
    var board := AttacksFor(p, square, blockers);
    r := attacks[index := board];
  }

  /** The slot and the board of configuration i, read from the sequences that specify the loop. */
  lemma ConfigAt(p: Slider, square: Square, mask: Bitboard, magic: Bitboard, i: nat)
    requires 0 < PopCount(mask) < 64 && i < Variations(mask)
    ensures ConfigSlots(mask, magic, 64 - PopCount(mask), Variations(mask))[i] == HashIndex(Subset(mask, i), magic, 64 - PopCount(mask))
    ensures ConfigBoards(p, square, mask, Variations(mask))[i] == AttackBoard(p, square, Subset(mask, i))
  {
  }

  /** The configuration loop: every configuration is written, in order, into a cleared vector. */
  method FillAttacks(p: Slider, square: Square, mask: Bitboard, magic: Bitboard) returns (attacks: seq<Bitboard>)
    requires 0 < PopCount(mask) < 64
    ensures |attacks| == Variations(mask)
    ensures var slots := ConfigSlots(mask, magic, 64 - PopCount(mask), Variations(mask));
      var boards := ConfigBoards(p, square, mask, Variations(mask));
      Separates(slots, boards) ==> Serves(attacks, slots, boards, Variations(mask))
  {
    var variations := Variations(mask);
    ghost var slots := ConfigSlots(mask, magic, 64 - PopCount(mask), variations);
    ghost var boards := ConfigBoards(p, square, mask, variations);
    attacks := seq(variations, _ => 0);
    var i := 0;
    while i < variations
      invariant 0 <= i <= variations && |attacks| == variations
      invariant Separates(slots, boards) ==> Serves(attacks, slots, boards, i)
    {
      var next := WriteConfiguration(p, square, mask, magic, i, attacks);
      ConfigAt(p, square, mask, magic, i);
      if Separates(slots, boards) {
        WriteKeepsServed(attacks, slots, boards, i);
      }
      attacks := next;
      i := i + 1;
    }
  }

  /**
   * The body of the square loop of `initializeMagicBitboards`: mask, magic,
   * shift 64 - popcount(mask), then the configuration loop.
   */
  method BuildEntry(p: Slider, square: Square, magic: Bitboard) returns (e: MagicEntry)
    ensures EntryShape(p, square, e) && e.magic == magic
    ensures CollisionFree(p, square, e) ==> Filled(p, square, e)
  {
    var mask := GenerateMask(p, square);
    MaskSize(p, square, mask);
    var attacks := FillAttacks(p, square, mask, magic);
    e := MagicEntry(mask, magic, 64 - PopCount(mask), attacks);
  }

  // ---------------------------------------------------------------------
  // Lookups (movegen.h:32-73)
  // ---------------------------------------------------------------------

  /** A bounds-checked read of the attack vector: 0 when the index is past its end. */
  function Probe(attacks: seq<Bitboard>, index: nat): Bitboard
  {
    if index < |attacks| then attacks[index] else 0
  }

  /** `getRookMoves` on an entry: hash the relevant blockers; an index past the vector gives 0. */
  function CheckedLookup(e: MagicEntry, occupied: Bitboard): Bitboard
    requires ShiftInRange(e)
  {
    Probe(e.attacks, HashIndex(occupied & e.mask, e.magic, e.shift))
  }

  /** `attacks.size() - 1` as a `size_t`: it wraps round to all ones for an empty vector. */
  function SizeMask(attacks: seq<Bitboard>): nat
  {
    if |attacks| == 0 then Pow2(64) - 1 else |attacks| - 1
  }

  /** `getBishopMoves` on an entry: the same, with the index first masked by `size - 1`. */
  function MaskedLookup(e: MagicEntry, occupied: Bitboard): Bitboard
    requires ShiftInRange(e)
  {
    Probe(e.attacks, AndValue(HashIndex(occupied & e.mask, e.magic, e.shift), SizeMask(e.attacks), 64))
  }

  /** Every configuration of the mask, read through a filled entry, gives its attack board. */
  lemma SlotOfBlockers(p: Slider, sq: Square, e: MagicEntry, blockers: Bitboard)
    requires EntryShape(p, sq, e) && Filled(p, sq, e)
    requires forall t: Square :: GetBit(blockers, t) ==> GetBit(e.mask, t)
    ensures HashIndex(blockers, e.magic, e.shift) < |e.attacks|
    ensures e.attacks[HashIndex(blockers, e.magic, e.shift)] == AttackBoard(p, sq, blockers)
  {
    var i := SubsetOnto(e.mask, blockers);
    ConfigAt(p, sq, e.mask, e.magic, i);
  }

  /** Only the mask squares of the occupancy decide the attack board. */
  lemma RelevantBoard(p: Slider, sq: Square, mask: Bitboard, occupied: Bitboard)
    requires IsMask(p, sq, mask)
    ensures AttackBoard(p, sq, occupied & mask) == AttackBoard(p, sq, occupied)
    ensures forall t: Square :: GetBit(occupied & mask, t) ==> GetBit(mask, t)
  {
    forall t: Square
      ensures Attacked(p, sq, occupied & mask, t) <==> Attacked(p, sq, occupied, t)
      ensures GetBit(occupied & mask, t) ==> GetBit(mask, t)
    {
      Relevance(p, sq, occupied, mask, t);
      AndBit(occupied, mask, t);
    }
    SameAttackBoard(p, sq, occupied & mask, occupied);
  }

  /** For a built entry the `size - 1` mask is the low popcount(mask) bits. */
  lemma SizeMaskOfShape(p: Slider, sq: Square, e: MagicEntry)
    requires EntryShape(p, sq, e)
    ensures SizeMask(e.attacks) == Pow2(PopCount(e.mask)) - 1
  {
  }

  /** The index mask of `getBishopMoves` leaves the index of a built entry unchanged. */
  lemma SizeMaskNoop(p: Slider, sq: Square, e: MagicEntry, blockers: Bitboard)
    requires EntryShape(p, sq, e)
    ensures AndValue(HashIndex(blockers, e.magic, e.shift), SizeMask(e.attacks), 64) == HashIndex(blockers, e.magic, e.shift)
  {
    HashFits(blockers, e.magic, PopCount(e.mask));
    LowMaskKeeps(HashIndex(blockers, e.magic, e.shift), SizeMask(e.attacks), PopCount(e.mask));
  }

  /** `getRookMoves` on a built, filled entry returns the rook's (or bishop's) attack board; the bounds check never fires. */
  lemma CheckedLookupCorrect(p: Slider, sq: Square, e: MagicEntry, occupied: Bitboard)
    requires EntryShape(p, sq, e) && Filled(p, sq, e)
    ensures CheckedLookup(e, occupied) == AttackBoard(p, sq, occupied)
  {
    RelevantBoard(p, sq, e.mask, occupied);
    SlotOfBlockers(p, sq, e, occupied & e.mask);
  }

  /** `getBishopMoves` on a built, filled entry returns the attack board; neither the mask nor the check fires. */
  lemma MaskedLookupCorrect(p: Slider, sq: Square, e: MagicEntry, occupied: Bitboard)
    requires EntryShape(p, sq, e) && Filled(p, sq, e)
    ensures MaskedLookup(e, occupied) == AttackBoard(p, sq, occupied)
  {
    SizeMaskNoop(p, sq, e, occupied & e.mask);
    CheckedLookupCorrect(p, sq, e, occupied);
  }

  lemma OrOfBits(r: Bitboard, b: Bitboard, t: Square, x: bool, y: bool)
    requires GetBit(r, t) == x && GetBit(b, t) == y
    ensures GetBit(r | b, t) == (x || y)
  {
    OrGet(r, b, t);
  }

  /** The union of the rook and bishop boards of a square holds what a rook or a bishop there attacks. */
  lemma QueenBoard(sq: Square, q: Bitboard, occupied: Bitboard, t: Square)
    requires q == AttackBoard(Rook, sq, occupied) | AttackBoard(Bishop, sq, occupied)
    ensures GetBit(q, t) <==> RookAttacked(sq, occupied, t) || BishopAttacked(sq, occupied, t)
  {
    AttackBoardBit(Rook, sq, occupied, t);
    AttackBoardBit(Bishop, sq, occupied, t);
    OrOfBits(AttackBoard(Rook, sq, occupied), AttackBoard(Bishop, sq, occupied), t,
      RookAttacked(sq, occupied, t), BishopAttacked(sq, occupied, t));
  }

  /** Before initialisation the vectors are empty, and both checks make every lookup answer the empty board. */
  lemma EmptyEntryLookup(occupied: Bitboard)
    ensures CheckedLookup(EmptyEntry, occupied) == 0
    ensures MaskedLookup(EmptyEntry, occupied) == 0
  {
  }

  // ---------------------------------------------------------------------
  // The global tables (magicbitboard.cpp:6-81)
  // ---------------------------------------------------------------------

  /** What the builder promises for one square: the shape, the magic, and a full table when the magic separates. */
  predicate Built(p: Slider, sq: Square, e: MagicEntry, magic: Bitboard)
  {
    EntryShape(p, sq, e) && e.magic == magic && (CollisionFree(p, sq, e) ==> Filled(p, sq, e))
  }

  /** The entries of the squares below n are built from their magics. */
  predicate BuiltBelow(p: Slider, table: seq<MagicEntry>, magics: seq<Bitboard>, n: nat)
    requires n <= |table| && n <= |magics| && n <= 64
  {
    forall sq: Square :: sq < n ==> Built(p, sq, table[sq], magics[sq])
  }

  /** Every table entry has a shift that `>>` accepts. */
  predicate Shifts(table: seq<MagicEntry>)
  {
    forall sq :: 0 <= sq < |table| ==> ShiftInRange(table[sq])
  }

  /** Storing the entry of square n extends the built prefix and keeps every shift in range. */
  lemma StoreBuilt(p: Slider, table: seq<MagicEntry>, magics: seq<Bitboard>, n: nat, e: MagicEntry)
    requires n < |table| && n < |magics| && n < 64
    requires BuiltBelow(p, table, magics, n) && Shifts(table)
    requires Built(p, n, e, magics[n])
    ensures BuiltBelow(p, table[n := e], magics, n + 1) && Shifts(table[n := e])
  {
  }

  /** `rookTable` and `bishopTable`: one entry per square, updated in place by the initialiser. */
  class MagicTables {
    var rookTable: seq<MagicEntry>
    var bishopTable: seq<MagicEntry>

    /** Both arrays have 64 entries, each with a shift that `>>` accepts. */
    predicate Valid()
      reads this
    {
      |rookTable| == 64 && |bishopTable| == 64 && Shifts(rookTable) && Shifts(bishopTable)
    }

    /** The zero-initialised globals. */
    constructor ()
      ensures Valid()
      ensures rookTable == seq(64, _ => EmptyEntry) && bishopTable == seq(64, _ => EmptyEntry)
    {
      rookTable := seq(64, _ => EmptyEntry);
      bishopTable := seq(64, _ => EmptyEntry);
    }

    /**
     * `initializeMagicBitboards`: rebuild the 64 rook entries, then the 64
     * bishop entries, from the given magic constants.
     */
    method InitializeMagicBitboards(rookMagics: seq<Bitboard>, bishopMagics: seq<Bitboard>)
      requires Valid() && |rookMagics| == 64 && |bishopMagics| == 64
      modifies this
      ensures Valid()
      ensures BuiltBelow(Rook, rookTable, rookMagics, 64)
      ensures BuiltBelow(Bishop, bishopTable, bishopMagics, 64)
    {
      var square := 0;
      while square < 64
        invariant 0 <= square <= 64 && Valid()
        invariant BuiltBelow(Rook, rookTable, rookMagics, square)
      {
        var e := BuildEntry(Rook, square, rookMagics[square]);
        StoreBuilt(Rook, rookTable, rookMagics, square, e);
        rookTable := rookTable[square := e];
        square := square + 1;
      }
      square := 0;
      while square < 64
        invariant 0 <= square <= 64 && Valid()
        invariant BuiltBelow(Rook, rookTable, rookMagics, 64)
        invariant BuiltBelow(Bishop, bishopTable, bishopMagics, square)
      {
        var e := BuildEntry(Bishop, square, bishopMagics[square]);
        StoreBuilt(Bishop, bishopTable, bishopMagics, square, e);
        bishopTable := bishopTable[square := e];
        square := square + 1;
      }
    }

    /** Every entry built and serving every configuration: the state after initialisation with separating magics. */
    predicate Ready()
      reads this
    {
      Valid() &&
      (forall sq: Square :: EntryShape(Rook, sq, rookTable[sq]) && Filled(Rook, sq, rookTable[sq])) &&
      (forall sq: Square :: EntryShape(Bishop, sq, bishopTable[sq]) && Filled(Bishop, sq, bishopTable[sq]))
    }

    /** `getRookMoves(square, occupied)`. */
    function GetRookMoves(square: Square, occupied: Bitboard): Bitboard
      reads this
      requires Valid()
    {
      CheckedLookup(rookTable[square], occupied)
    }

    /** `getBishopMoves(square, occupied)`. */
    function GetBishopMoves(square: Square, occupied: Bitboard): Bitboard
      reads this
      requires Valid()
    {
      MaskedLookup(bishopTable[square], occupied)
    }

    /** `getQueenMoves(square, occupied)`. */
    function GetQueenMoves(square: Square, occupied: Bitboard): Bitboard
      reads this
      requires Valid()
    {
      GetRookMoves(square, occupied) | GetBishopMoves(square, occupied)
    }

    /** Once ready, the rook lookup returns the rook's attack set of the full occupancy. */
    lemma RookMovesCorrect(square: Square, occupied: Bitboard, t: Square)
      requires Ready()
      ensures GetRookMoves(square, occupied) == AttackBoard(Rook, square, occupied)
      ensures GetBit(GetRookMoves(square, occupied), t) <==> RookAttacked(square, occupied, t)
    {
      var e := rookTable[square];
      CheckedLookupCorrect(Rook, square, e, occupied);
      AttackBoardBit(Rook, square, occupied, t);
    }

    /** Once ready, the bishop lookup returns the bishop's attack set of the full occupancy. */
    lemma BishopMovesCorrect(square: Square, occupied: Bitboard, t: Square)
      requires Ready()
      ensures GetBishopMoves(square, occupied) == AttackBoard(Bishop, square, occupied)
      ensures GetBit(GetBishopMoves(square, occupied), t) <==> BishopAttacked(square, occupied, t)
    {
      var e := bishopTable[square];
      MaskedLookupCorrect(Bishop, square, e, occupied);
      AttackBoardBit(Bishop, square, occupied, t);
    }

    /** Once ready, the queen lookup is the union of the rook and bishop attack boards. */
    lemma QueenMovesBoards(square: Square, occupied: Bitboard)
      requires Ready()
      ensures GetQueenMoves(square, occupied) == AttackBoard(Rook, square, occupied) | AttackBoard(Bishop, square, occupied)
    {
      RookMovesCorrect(square, occupied, 0);
      BishopMovesCorrect(square, occupied, 0);
    }

    /** Once ready, the queen lookup returns the squares a rook or a bishop on its square attacks. */
    lemma QueenMovesCorrect(square: Square, occupied: Bitboard, t: Square)
      requires Ready()
      ensures GetBit(GetQueenMoves(square, occupied), t) <==>
        RookAttacked(square, occupied, t) || BishopAttacked(square, occupied, t)
    {
      QueenMovesBoards(square, occupied);
      QueenBoard(square, GetQueenMoves(square, occupied), occupied, t);
    }
  }
}
