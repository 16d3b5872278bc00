// The magic tables of the single-file engine (chess.cpp:25-26, 111-116,
// 638-714).  The builder differs from the library's in two ways: the attack
// vector is resized without being cleared first, so an old vector keeps its
// prefix, and the table index is not masked with `variations - 1`.  The
// lookups convert the index to `int` and read the vector with no bounds
// check.  The mask and attack generators are the same loops as the
// library's (chess.cpp:553-635) and are shared with it.

module LegacyMagic {
  import opened Bitboards
  import opened Words
  import opened Rays
  import opened Magic

  /** `std::vector::resize(n)`: the first n old entries, then zeros up to n. */
  function Resize(old_: seq<Bitboard>, n: nat): (r: seq<Bitboard>)
    ensures |r| == n
    ensures forall k :: 0 <= k < n && k < |old_| ==> r[k] == old_[k]
    ensures forall k :: |old_| <= k < n ==> r[k] == 0
  {
    if n <= |old_| then old_[..n] else old_ + seq(n - |old_|, _ => 0)
  }

  /**
   * `(blockers * magic) >> shift` with shift = 64 - popcount(mask), used as
   * an index with no mask: it is below variations all the same.
   */
  method RawIndex(mask: Bitboard, magic: Bitboard, blockers: Bitboard) returns (index: nat)
    requires 0 < PopCount(mask) < 64
    ensures index == HashIndex(blockers, magic, 64 - PopCount(mask)) && index < Variations(mask)
  {
    var bits := PopCount(mask);
    index := HashIndex(blockers, magic, 64 - bits);
    HashFits(blockers, magic, bits);
  }

  /** One pass of the configuration loop, writing at the unmasked index. */
  method WriteRawConfiguration(p: Slider, square: Square, mask: Bitboard, magic: Bitboard, i: nat, attacks: seq<Bitboard>)
    returns (r: seq<Bitboard>)
    requires 0 < PopCount(mask) < 64 && i < Variations(mask) && |attacks| == Variations(mask)
    ensures HashIndex(Subset(mask, i), magic, 64 - PopCount(mask)) < |attacks|
    ensures r == attacks[HashIndex(Subset(mask, i), magic, 64 - PopCount(mask)) := AttackBoard(p, square, Subset(mask, i))]
  {
    var blockers := BlockersFor(mask, i);
    var index := RawIndex(mask, magic, blockers);
    var board := AttacksFor(p, square, blockers);
    r := attacks[index := board];
  }

  /**
   * The configuration loop over the resized vector: whatever the vector held
   * before, every configuration finds its board once the loop is done.
   */
  method FillRawAttacks(p: Slider, square: Square, mask: Bitboard, magic: Bitboard, initial: seq<Bitboard>)
    returns (attacks: seq<Bitboard>)
    requires 0 < PopCount(mask) < 64 && |initial| == Variations(mask)
    ensures |attacks| == Variations(mask)
    ensures var slots := ConfigSlots(mask, magic, 64 - PopCount(mask), Variations(mask));
      var boards := ConfigBoards(p, square, mask, Variations(mask));
      Separates(slots, boards) ==> Serves(attacks, slots, boards, Variations(mask))
  {
    var variations := Variations(mask);
    ghost var slots := ConfigSlots(mask, magic, 64 - PopCount(mask), variations);
    ghost var boards := ConfigBoards(p, square, mask, variations);
    attacks := initial;
    var i := 0;
    while i < variations
      invariant 0 <= i <= variations && |attacks| == variations
      invariant Separates(slots, boards) ==> Serves(attacks, slots, boards, i)
    {
      var next := WriteRawConfiguration(p, square, mask, magic, i, attacks);
      ConfigAt(p, square, mask, magic, i);
      if Separates(slots, boards) {
        WriteKeepsServed(attacks, slots, boards, i);
      }
      attacks := next;
      i := i + 1;
    }
  }

  /** The body of the square loop: mask, magic, shift, resize of the old vector, configuration loop. */
  method BuildLegacyEntry(p: Slider, square: Square, magic: Bitboard, old_: MagicEntry) returns (e: MagicEntry)
    ensures Built(p, square, e, magic)
  {
    var mask := GenerateMask(p, square);
    MaskSize(p, square, mask);
    var variations := Variations(mask);
    var attacks := FillRawAttacks(p, square, mask, magic, Resize(old_.attacks, variations));
    e := MagicEntry(mask, magic, 64 - PopCount(mask), attacks);
  }

  /** The unmasked index of `occupied` in an entry: `(blockers * magic) >> shift`. */
  function Slot(e: MagicEntry, occupied: Bitboard): nat
    requires ShiftInRange(e)
  {
    HashIndex(occupied & e.mask, e.magic, e.shift)
  }

  /** The index fits the vector; the source reads it unchecked, so a caller must ensure it. */
  predicate Fits(e: MagicEntry, occupied: Bitboard)
    requires ShiftInRange(e)
  {
    Slot(e, occupied) < |e.attacks|
  }

  /** The unchecked read `entry.attacks[index]` of chess.cpp's lookups. */
  function RawLookup(e: MagicEntry, occupied: Bitboard): Bitboard
    requires ShiftInRange(e) && Fits(e, occupied)
  {
    e.attacks[Slot(e, occupied)]
  }

  /** The unmasked index of any occupancy fits the vector of a built entry. */
  lemma RawReadable(p: Slider, sq: Square, e: MagicEntry, occupied: Bitboard)
    requires EntryShape(p, sq, e)
    ensures Fits(e, occupied)
  {
    var blockers, bits := occupied & e.mask, PopCount(e.mask);
    HashFits(blockers, e.magic, bits);
    assert Slot(e, occupied) == HashIndex(blockers, e.magic, 64 - bits);
  }

  /** The unchecked read of a built, filled entry is in bounds and is the attack board of the full occupancy. */
  lemma RawLookupCorrect(p: Slider, sq: Square, e: MagicEntry, occupied: Bitboard)
    requires EntryShape(p, sq, e) && Filled(p, sq, e)
    ensures Fits(e, occupied) && RawLookup(e, occupied) == AttackBoard(p, sq, occupied)
  {
    RelevantSlot(p, sq, e, occupied);
  }

  lemma RelevantSlot(p: Slider, sq: Square, e: MagicEntry, occupied: Bitboard)
    requires EntryShape(p, sq, e) && Filled(p, sq, e)
    ensures Slot(e, occupied) < |e.attacks| && e.attacks[Slot(e, occupied)] == AttackBoard(p, sq, occupied)
  {
    RelevantBoard(p, sq, e.mask, occupied);
    SlotOfBlockers(p, sq, e, occupied & e.mask);
  }

  /** The global `std::array<MagicEntry, 64>` pair of the single-file engine. */
  class LegacyTables {
    var rookTable: seq<MagicEntry>
    var bishopTable: seq<MagicEntry>

    predicate Valid()
      reads this
    {
      |rookTable| == 64 && |bishopTable| == 64 && Shifts(rookTable) && Shifts(bishopTable)
    }

    /** The zero-initialised globals. */
    constructor ()
      ensures Valid()
      ensures rookTable == seq(64, _ => EmptyEntry) && bishopTable == seq(64, _ => EmptyEntry)
    {
      rookTable := seq(64, _ => EmptyEntry);
      bishopTable := seq(64, _ => EmptyEntry);
    }

    /** `initializeMagicBitboards` of chess.cpp, from ROOK_MAGICS and BISHOP_MAGICS. */
    method InitializeMagicBitboards(rookMagics: seq<Bitboard>, bishopMagics: seq<Bitboard>)
      requires Valid() && |rookMagics| == 64 && |bishopMagics| == 64
      modifies this
      ensures Valid()
      ensures BuiltBelow(Rook, rookTable, rookMagics, 64)
      ensures BuiltBelow(Bishop, bishopTable, bishopMagics, 64)
    {
      var square := 0;
      while square < 64
        invariant 0 <= square <= 64 && Valid()
        invariant BuiltBelow(Rook, rookTable, rookMagics, square)
      {
        var e := BuildLegacyEntry(Rook, square, rookMagics[square], rookTable[square]);
        StoreBuilt(Rook, rookTable, rookMagics, square, e);
        rookTable := rookTable[square := e];
        square := square + 1;
      }
      square := 0;
      while square < 64
        invariant 0 <= square <= 64 && Valid()
        invariant BuiltBelow(Rook, rookTable, rookMagics, 64)
        invariant BuiltBelow(Bishop, bishopTable, bishopMagics, square)
      {
        var e := BuildLegacyEntry(Bishop, square, bishopMagics[square], bishopTable[square]);
        StoreBuilt(Bishop, bishopTable, bishopMagics, square, e);
        bishopTable := bishopTable[square := e];
        square := square + 1;
      }
    }

    /** The rook read of a square is in bounds. */
    predicate RookReadable(square: Square, occupied: Bitboard)
      reads this
      requires Valid()
    {
      Fits(rookTable[square], occupied)
    }

    /** The bishop read of a square is in bounds. */
    predicate BishopReadable(square: Square, occupied: Bitboard)
      reads this
      requires Valid()
    {
      Fits(bishopTable[square], occupied)
    }

    /** `getRookMoves` of chess.cpp: an unchecked read of the vector. */
    function GetRookMoves(square: Square, occupied: Bitboard): Bitboard
      reads this
      requires Valid() && RookReadable(square, occupied)
    {
      RawLookup(rookTable[square], occupied)
    }

    /** `getBishopMoves` of chess.cpp. */
    function GetBishopMoves(square: Square, occupied: Bitboard): Bitboard
      reads this
      requires Valid() && BishopReadable(square, occupied)
    {
      RawLookup(bishopTable[square], occupied)
    }

    /** `getQueenMoves` of chess.cpp. */
    function GetQueenMoves(square: Square, occupied: Bitboard): Bitboard
      reads this
      requires Valid() && RookReadable(square, occupied) && BishopReadable(square, occupied)
    {
      GetRookMoves(square, occupied) | GetBishopMoves(square, occupied)
    }

    /** After initialisation every read is in bounds, with or without separating magics. */
    lemma ReadableWhenBuilt(rookMagics: seq<Bitboard>, bishopMagics: seq<Bitboard>, square: Square, occupied: Bitboard)
      requires Valid() && |rookMagics| == 64 && |bishopMagics| == 64
      requires BuiltBelow(Rook, rookTable, rookMagics, 64) && BuiltBelow(Bishop, bishopTable, bishopMagics, 64)
      ensures RookReadable(square, occupied) && BishopReadable(square, occupied)
    {
      assert Built(Rook, square, rookTable[square], rookMagics[square]);
      assert Built(Bishop, square, bishopTable[square], bishopMagics[square]);
      RawReadable(Rook, square, rookTable[square], occupied);
      RawReadable(Bishop, square, bishopTable[square], occupied);
    }

    /** Every entry built and serving every configuration. */
    predicate Ready()
      reads this
    {
      Valid() &&
      (forall sq: Square :: EntryShape(Rook, sq, rookTable[sq]) && Filled(Rook, sq, rookTable[sq])) &&
      (forall sq: Square :: EntryShape(Bishop, sq, bishopTable[sq]) && Filled(Bishop, sq, bishopTable[sq]))
    }

    /** Once ready, the unchecked rook read is in bounds and returns the rook's attack board. */
    lemma RookMovesCorrect(square: Square, occupied: Bitboard)
      requires Ready()
      ensures RookReadable(square, occupied)
      ensures GetRookMoves(square, occupied) == AttackBoard(Rook, square, occupied)
    {
      RawLookupCorrect(Rook, square, rookTable[square], occupied);
    }

    /** Once ready, the unchecked bishop read is in bounds and returns the bishop's attack board. */
    lemma BishopMovesCorrect(square: Square, occupied: Bitboard)
      requires Ready()
      ensures BishopReadable(square, occupied)
      ensures GetBishopMoves(square, occupied) == AttackBoard(Bishop, square, occupied)
    {
      RawLookupCorrect(Bishop, square, bishopTable[square], occupied);
    }

    /** Once ready, the queen read returns the squares a rook or a bishop on its square attacks. */
    lemma QueenMovesCorrect(square: Square, occupied: Bitboard, t: Square)
      requires Ready()
      ensures RookReadable(square, occupied) && BishopReadable(square, occupied)
      ensures GetBit(GetQueenMoves(square, occupied), t) <==>
        RookAttacked(square, occupied, t) || BishopAttacked(square, occupied, t)
    {
      RookMovesCorrect(square, occupied);
      BishopMovesCorrect(square, occupied);
      QueenBoard(square, GetQueenMoves(square, occupied), occupied, t);
    }
  }
}
