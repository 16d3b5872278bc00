// Zobrist hashing of a position (computeHash in api/src/board/position.cpp:363-401
// and chess_engine/src/board/position.cpp:45-79, which are the same code).
// The random tables of api/include/extraHeuristics/zobrist.h:9-12 are filled
// from a seeded generator; here they are a parameter of the right shape.
// A `uint64_t` key is an unsigned value below 2^64 and `^` is Words.XorValue
// over 64 bits.

module Zobrist {
  import opened Bitboards
  import opened Pieces
  import opened SquareSets
  import opened Boards
  import opened Words

  /** One row of `zobristTable`: a key per square. */
  type Row = r: seq<nat> | |r| == 64 witness seq(64, i => 0)

  /** `zobristTable[12][64]`, `zobristEnPassant[8]`, `zobristCastling[16]`. */
  datatype Tables = Tables(pieces: seq<Row>, enPassant: seq<nat>, castling: seq<nat>)

  /** Every key is a 64-bit value. */
  predicate Keys(row: seq<nat>)
  {
    forall i :: 0 <= i < |row| ==> row[i] < Pow2(64)
  }

  predicate WellShaped(z: Tables)
  {
    |z.pieces| == 12 &&
    |z.enPassant| == 8 && |z.castling| == 16 && Keys(z.enPassant) && Keys(z.castling)
  }

  /** `^` on two `uint64_t` values. */
  function Xor(a: nat, b: nat): nat
  {
    XorValue(a, b, 64)
  }

  /**
   * The `hashPieces` loop as a value: the squares of S are xor-ed into h
   * least first, the order in which `__builtin_ctzll` visits them.
   */
  function HashSquares(h: nat, S: set<Square>, row: Row): nat
    decreases |S|
  {
    if S == {} then h
    else
      var sq := Least(S);
      HashSquares(Xor(h, row[sq]), S - {sq}, row)
  }

  lemma XorSwap(a: nat, b: nat, c: nat)
    ensures Xor(Xor(a, b), c) == Xor(Xor(a, c), b)
  {
    XorAssociates(a, b, c, 64);
    XorCommutes(b, c, 64);
    XorAssociates(a, c, b, 64);
  }

  /** The least square of S stays the least of any subset that keeps it. */
  lemma LeastOfSubset(S: set<Square>, T: set<Square>, m: Square)
    requires T <= S && m in T && S != {} && m == Least(S)
    ensures Least(T) == m
  {
  }

  /** Unfolding the fold once. */
  lemma HashStep(h: nat, S: set<Square>, row: Row)
    requires S != {}
    ensures HashSquares(h, S, row) == HashSquares(Xor(h, row[Least(S)]), S - {Least(S)}, row)
  {
  }

  /** Any square may go first: the fold does not depend on the visiting order. */
  lemma {:induction false} HashAnyOrder(h: nat, S: set<Square>, row: Row, x: Square)
    requires x in S
    ensures HashSquares(h, S, row) == HashSquares(Xor(h, row[x]), S - {x}, row)
    decreases |S|
  {
    var m := Least(S);
    if m != x {
      var T := S - {x};
      var U := S - {m};
      LeastOfSubset(S, T, m);
      HashStep(h, S, row);
      HashStep(Xor(h, row[x]), T, row);
      HashAnyOrder(Xor(h, row[m]), U, row, x);
      XorSwap(h, row[m], row[x]);
      assert U - {x} == T - {m};
    }
  }

  /** A value xor-ed into the start comes out xor-ed into the result. */
  lemma {:induction false} HashShift(h: nat, k: nat, S: set<Square>, row: Row)
    ensures HashSquares(Xor(h, k), S, row) == Xor(HashSquares(h, S, row), k)
    decreases |S|
  {
    if S != {} {
      var m := Least(S);
      HashStep(h, S, row);
      HashStep(Xor(h, k), S, row);
      HashShift(Xor(h, row[m]), k, S - {m}, row);
      XorSwap(h, k, row[m]);
    }
  }

  /**
   * The incremental update Zobrist hashing is built for: a piece added on a
   * square changes the hash by exactly that square's key.
   */
  lemma HashAddSquare(h: nat, S: set<Square>, row: Row, x: Square)
    requires x !in S
    ensures HashSquares(h, S + {x}, row) == Xor(HashSquares(h, S, row), row[x])
  {
    HashAnyOrder(h, S + {x}, row, x);
    assert S + {x} - {x} == S;
    HashShift(h, row[x], S, row);
  }

  /** The twelve boards in the source's index order, white pawns (0) to black king (11). */
  function BoardList(b: Board): (r: seq<set<Square>>)
    ensures |r| == 12
  {
    [b.white.pawns, b.white.knights, b.white.bishops, b.white.rooks, b.white.queens, b.white.king,
     b.black.pawns, b.black.knights, b.black.bishops, b.black.rooks, b.black.queens, b.black.king]
  }

  /** The row of `zobristTable` a board is hashed with: white 0-5, black 6-11. */
  function TableIndex(c: Color, p: PieceType): (r: nat)
    requires IsRealPiece(p)
    ensures r < 12
  {
    (if c == WHITE then 0 else 6) + PieceIndex(p)
  }

  /** Board number TableIndex(c, p) of the list is the board of colour c and piece p. */
  lemma BoardListIndex(b: Board, c: Color, p: PieceType)
    requires IsRealPiece(p)
    ensures BoardList(b)[TableIndex(c, p)] == PieceBoard(SideOf(b, c), p)
  {
  }

  /** `hashPieces(board_t, t)` for t = i, i+1, ... in turn. */
  function FoldBoards(h: nat, L: seq<set<Square>>, rows: seq<Row>, i: nat): nat
    requires |rows| == |L| && i <= |L|
    decreases |L| - i
  {
    if i == |L| then h
    else FoldBoards(HashSquares(h, L[i], rows[i]), L, rows, i + 1)
  }

  /** One step of the fold: board i is hashed next. */
  lemma FoldStep(h: nat, L: seq<set<Square>>, rows: seq<Row>, i: nat)
    requires |rows| == |L| && i < |L|
    ensures FoldBoards(h, L, rows, i) == FoldBoards(HashSquares(h, L[i], rows[i]), L, rows, i + 1)
  {
  }

  /** A key xor-ed in before the fold comes out xor-ed into its result. */
  lemma {:induction false} FoldShift(h: nat, k: nat, L: seq<set<Square>>, rows: seq<Row>, i: nat)
    requires |rows| == |L| && i <= |L|
    ensures FoldBoards(Xor(h, k), L, rows, i) == Xor(FoldBoards(h, L, rows, i), k)
    decreases |L| - i
  {
    if i < |L| {
      HashShift(h, k, L[i], rows[i]);
      FoldShift(HashSquares(h, L[i], rows[i]), k, L, rows, i + 1);
    }
  }

  /** The fold reads the boards from i on only. */
  lemma {:induction false} FoldSuffix(h: nat, L: seq<set<Square>>, L': seq<set<Square>>, rows: seq<Row>, i: nat)
    requires |rows| == |L| == |L'| && i <= |L|
    requires forall t :: i <= t < |L| ==> L[t] == L'[t]
    ensures FoldBoards(h, L, rows, i) == FoldBoards(h, L', rows, i)
    decreases |L| - i
  {
    if i < |L| {
      FoldSuffix(HashSquares(h, L[i], rows[i]), L, L', rows, i + 1);
    }
  }

  /** A square added to board j changes the fold by that board's key for the square. */
  lemma {:induction false} FoldAdd(h: nat, L: seq<set<Square>>, rows: seq<Row>, i: nat, j: nat, s: Square)
    requires |rows| == |L| && i <= j < |L| && s !in L[j]
    ensures FoldBoards(h, L[j := L[j] + {s}], rows, i) == Xor(FoldBoards(h, L, rows, i), rows[j][s])
    decreases j - i
  {
    var L' := L[j := L[j] + {s}];
    if i == j {
      HashAddSquare(h, L[j], rows[j], s);
      FoldSuffix(Xor(HashSquares(h, L[j], rows[j]), rows[j][s]), L', L, rows, j + 1);
      FoldShift(HashSquares(h, L[j], rows[j]), rows[j][s], L, rows, j + 1);
    } else {
      assert L'[i] == L[i];
      FoldAdd(HashSquares(h, L[i], rows[i]), L, rows, i + 1, j, s);
    }
  }

  /**
   * `computeHash` reads `zobristEnPassant[enPassantSquare % 8]` unless the
   * square is -1, and `zobristCastling[castlingRights]`: the square must not
   * be below -1 and the rights byte must index the 16-entry table.
   */
  predicate Hashable(b: Board)
  {
    b.enPassantSquare >= -1 && b.castlingRights < 16
  }

  /** The hash `computeHash` returns: pieces, then the en passant file, then the castling rights. */
  function BoardHash(b: Board, z: Tables): nat
    requires WellShaped(z) && Hashable(b)
  {
    var h := FoldBoards(0, BoardList(b), z.pieces, 0);
    var h' := if b.enPassantSquare != -1 then Xor(h, z.enPassant[b.enPassantSquare % 8]) else h;
    Xor(h', z.castling[b.castlingRights as int])
  }

  /** `hashPieces`: the ctz / clear-lowest-bit loop over one board. */
  method HashPieces(bitboard: set<Square>, row: Row, hash: nat) returns (h: nat)
    ensures h == HashSquares(hash, bitboard, row)
  {
    h := hash;
    var bb := bitboard;
    while bb != {}
      invariant HashSquares(h, bb, row) == HashSquares(hash, bitboard, row)
      decreases |bb|
    {
      var square := Least(bb);
      h := Xor(h, row[square]);
      bb := bb - {square};
    }
  }

  /**
   * The body of `computeHash`, which the api's Position and the engine's
   * struct write out alike: `hashPieces` on the twelve boards in table
   * order, then the en passant file and the castling rights.
   */
  method HashBoard(b: Board, z: Tables) returns (hash: nat)
    requires WellShaped(z) && Hashable(b)
    ensures hash == BoardHash(b, z)
  {
    ghost var L := BoardList(b);
    ghost var rows := z.pieces;
    hash := 0;
    FoldStep(hash, L, rows, 0);
    hash := HashPieces(b.white.pawns, z.pieces[0], hash);
    FoldStep(hash, L, rows, 1);
    hash := HashPieces(b.white.knights, z.pieces[1], hash);
    FoldStep(hash, L, rows, 2);
    hash := HashPieces(b.white.bishops, z.pieces[2], hash);
    FoldStep(hash, L, rows, 3);
    hash := HashPieces(b.white.rooks, z.pieces[3], hash);
    FoldStep(hash, L, rows, 4);
    hash := HashPieces(b.white.queens, z.pieces[4], hash);
    FoldStep(hash, L, rows, 5);
    hash := HashPieces(b.white.king, z.pieces[5], hash);
    FoldStep(hash, L, rows, 6);
    hash := HashPieces(b.black.pawns, z.pieces[6], hash);
    FoldStep(hash, L, rows, 7);
    hash := HashPieces(b.black.knights, z.pieces[7], hash);
    FoldStep(hash, L, rows, 8);
    hash := HashPieces(b.black.bishops, z.pieces[8], hash);
    FoldStep(hash, L, rows, 9);
    hash := HashPieces(b.black.rooks, z.pieces[9], hash);
    FoldStep(hash, L, rows, 10);
    hash := HashPieces(b.black.queens, z.pieces[10], hash);
    FoldStep(hash, L, rows, 11);
    hash := HashPieces(b.black.king, z.pieces[11], hash);
    if b.enPassantSquare != -1 {
      var file := b.enPassantSquare % 8;
      hash := Xor(hash, z.enPassant[file]);
    }
    hash := Xor(hash, z.castling[b.castlingRights as int]);
  }

  /**
   * Only the file of the en passant square goes into the hash: two squares
   * give the same hash exactly when their files have the same key.
   */
  lemma EpFileOnly(b: Board, z: Tables, ep: int)
    requires WellShaped(z) && Hashable(b) && b.enPassantSquare >= 0 && ep >= 0
    ensures BoardHash(b.(enPassantSquare := ep), z) == BoardHash(b, z) <==>
      z.enPassant[ep % 8] == z.enPassant[b.enPassantSquare % 8]
  {
    var p := FoldBoards(0, BoardList(b), z.pieces, 0);
    assert BoardList(b.(enPassantSquare := ep)) == BoardList(b);
    var k := z.castling[b.castlingRights as int];
    var x := z.enPassant[ep % 8];
    var y := z.enPassant[b.enPassantSquare % 8];
    XorInjective(p, x, y, k);
  }

  /** Xor-ing with the same two values keeps distinct 64-bit keys distinct. */
  lemma XorInjective(p: nat, x: nat, y: nat, k: nat)
    requires x < Pow2(64) && y < Pow2(64)
    ensures Xor(Xor(p, x), k) == Xor(Xor(p, y), k) <==> x == y
  {
    if Xor(Xor(p, x), k) == Xor(Xor(p, y), k) {
      XorBound(p, x, 64);
      XorBound(p, y, 64);
      XorCancels(Xor(p, x), k, 64);
      XorCancels(Xor(p, y), k, 64);
      XorCommutes(p, x, 64);
      XorCommutes(p, y, 64);
      XorCancels(x, p, 64);
      XorCancels(y, p, 64);
    }
  }

  /**
   * The incremental update: a piece put on a square its board does not hold
   * changes the hash by exactly that piece's key for the square.
   */
  lemma AddPieceHash(b: Board, z: Tables, c: Color, p: PieceType, s: Square)
    requires WellShaped(z) && Hashable(b) && IsRealPiece(p)
    requires s !in PieceBoard(SideOf(b, c), p)
    ensures var x := SideOf(b, c);
      BoardHash(WithSide(b, c, WithPieceBoard(x, p, PieceBoard(x, p) + {s})), z) ==
      Xor(BoardHash(b, z), z.pieces[TableIndex(c, p)][s])
  {
    var x := SideOf(b, c);
    var b' := WithSide(b, c, WithPieceBoard(x, p, PieceBoard(x, p) + {s}));
    var i := TableIndex(c, p);
    var L := BoardList(b);
    BoardListIndex(b, c, p);
    forall j | 0 <= j < 12 ensures BoardList(b')[j] == L[i := L[i] + {s}][j] {
      BoardListSlot(b, c, p, PieceBoard(x, p) + {s}, j);
    }
    assert BoardList(b') == L[i := L[i] + {s}];
    var k := z.pieces[i][s];
    FoldAdd(0, L, z.pieces, 0, i, s);
    var h := FoldBoards(0, L, z.pieces, 0);
    var e := z.castling[b.castlingRights as int];
    if b.enPassantSquare != -1 {
      var ek := z.enPassant[b.enPassantSquare % 8];
      XorSwap(h, k, ek);
      XorSwap(Xor(h, ek), k, e);
    } else {
      XorSwap(h, k, e);
    }
  }

  /** Replacing one board changes only its slot of the list. */
  lemma BoardListSlot(b: Board, c: Color, p: PieceType, v: set<Square>, j: nat)
    requires IsRealPiece(p) && j < 12
    ensures var b' := WithSide(b, c, WithPieceBoard(SideOf(b, c), p, v));
      BoardList(b')[j] == if j == TableIndex(c, p) then v else BoardList(b)[j]
  {
  }
}
