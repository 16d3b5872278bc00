# CoreDump, modelled in Dafny

CoreDump is a bitboard chess engine with several front ends. This project models two of its layers and proves properties of them.

**The bitboard rules kernel.**
- Square sets are 64-bit words, and square `s` is `rank * 8 + file`.
- Single-bit helpers, `popLSB`, the file and rank masks, the rook and bishop rays and the magic lookup tables.
- The start position, in-place `makeMove` and `undoMove`, the square characters, the FEN board field, the glyph diagram and Zobrist hashing.
- Both move generators, the check test, the castling test and the capture filter.
- The search-support tables: evaluation and SEE, move ordering, the transposition table, killer moves, the history counters, the null-move stack, and perft with its chunk arithmetic.
- The library (`api/`), the engine (`chess_engine/`) and the single-file engine (`chess.cpp`) are near-duplicates. Each is modelled on its own wherever they differ: the constructor slot that gets the "enemy on target" flag, whether the magic index is masked, en passant, where the move counter starts, and whether the promotion prompt is case-sensitive.

**The game controllers and the text protocol.** The engine appears to them as an oracle: a move generator, a check test, make-move, search and the start position, all as parameters (`Frontend.Engine`). The controllers are:
- the line server `GUI/API/API.cpp` and its Python client `GUI/API/API.py`;
- the JNI bridge and the Swing board (`GUI/ChessGame.java`);
- the two tkinter boards (`gui.py` and `GUI/gui.py`);
- the Python and C++ consoles;
- the engine's own game loop (`chess_engine/src/main.cpp`).

**How the model is written.**
- Pure code becomes datatypes, functions and lemmas.
- Code that updates state in place becomes classes, or methods with loops. Every such method is proved against a specification function, and the properties are proved about those functions.
- Bitboards are `bv64` where the bit arithmetic matters. Positions hold their piece boards as `set<Square>`, and `SquareSets` links the two forms.
- The 64-bit unsigned arithmetic of the magic index is stated modulo 2^64.

## Model

| member | source | states |
|---|---|---|
| Bitboards.SetBit | api/include/board/bitboard.h:9-12 | `setBit(b, s)` holds square s and exactly the other squares of b |
| Bitboards.ClearBit | api/include/board/bitboard.h:19-22 | `clearBit(b, s)` lacks square s and keeps every other square of b |
| Bitboards.GetAfterSetClear | api/include/board/bitboard.h:9-32 | for 0 <= s < 64, `getBit(setBit(b, s), s)` is true and `getBit(clearBit(b, s), s)` is false |
| Bitboards.SetClearIdempotent | api/include/board/bitboard.h:9-22 | setting or clearing the same bit twice equals doing it once |
| Bitboards.SquaresFromSpec | api/include/board/bitboard.h:34-39 | the ascending square list from k holds each square t >= k of the board exactly once, in increasing order |
| Bitboards.Ctz | api/include/board/bitboard.h:36 | `__builtin_ctzll` of a non-empty board is a square on it with no square of the board below it |
| Bitboards.ClearLowest | api/include/board/bitboard.h:37 | `bb & (bb - 1)` is the board with its lowest square cleared |
| Bitboards.PopLSB | api/include/board/bitboard.h:34-39 | `popLSB` returns the lowest square of a non-empty board and leaves the board without it, every other square kept |
| Bitboards.PopLSBList | api/include/board/bitboard.h:34-39 | popping takes the head off the ascending square list and leaves its tail |
| Bitboards.EmptyList | api/include/board/bitboard.h:34-39 | a board is empty exactly when its square list is empty, which ends every popLSB loop |
| Bitboards.PopAllSpec | api/include/board/bitboard.h:34-39 | popLSB until empty visits every square of the board exactly once, in increasing order, and nothing else |
| Bitboards.PopAllLength | api/include/board/bitboard.h:34-39 | the number of popLSB calls a board allows is its population count |
| Words.MulWord | api/src/board/magicbitboard.cpp:41 | `blockers * magic` on `uint64_t` is the product of the two values reduced modulo 2^64, below 2^64 |
| Words.ShiftFits | api/src/board/magicbitboard.cpp:16-42 | a 64-bit product shifted right by 64 - popcount(mask) is below 2^popcount(mask), the number of variations |
| Words.AndLowMask | api/src/board/magicbitboard.cpp:42 | `index & (variations - 1)` leaves an index already below `variations` unchanged |
| Rays.AddAttackRay | api/src/board/magicbitboard.cpp:142-147 | one attack loop ORs in exactly the ray squares up to and including the first blocker, stopping at the board edge |
| Rays.AddMaskRay | api/src/board/magicbitboard.cpp:93-94 | one mask loop ORs in exactly the ray squares whose moving coordinates stay strictly inside the board edge |
| Rays.GenerateRookMask | api/src/board/magicbitboard.cpp:85-106 | the rook mask holds exactly the other squares of the rook's rank and file, edge squares excluded |
| Rays.GenerateBishopMask | api/src/board/magicbitboard.cpp:110-131 | the bishop mask holds exactly the other squares of its diagonals, edge squares excluded |
| Rays.GenerateRookAttacks | api/src/board/magicbitboard.cpp:134-171 | the rook attack board holds exactly the squares reached along the four orthogonal rays up to and including the first blocker, never the rook's own square |
| Rays.GenerateBishopAttacks | api/src/board/magicbitboard.cpp:178-215 | the bishop attack board holds exactly the squares reached along the four diagonals up to and including the first blocker, never the bishop's own square |
| Rays.RookMaskRays | api/src/board/magicbitboard.cpp:91-103 | every rook-mask square lies on one of the four orthogonal mask rays |
| Rays.BishopMaskRays | api/src/board/magicbitboard.cpp:116-128 | every bishop-mask square lies on one of the four diagonal mask rays |
| Rays.RayRelevance | api/src/board/magicbitboard.cpp:142-147 | only blockers on a ray's mask decide what the ray attacks |
| Rays.RookRelevance | api/src/board/magicbitboard.cpp:85-171 | the rook's attacks depend only on the blockers inside its mask: `blockers & mask` gives the same attack set |
| Rays.BishopRelevance | api/src/board/magicbitboard.cpp:110-215 | the bishop's attacks depend only on the blockers inside its mask |
| Rays.RookEmptyBoard | api/src/board/magicbitboard.cpp:134-171 | with no blockers a rook attacks every other square of its rank and file |
| Rays.BishopEmptyBoard | api/src/board/magicbitboard.cpp:178-215 | with no blockers a bishop attacks every other square of its two diagonals |
| Rays.RayStopsAtBlocker | api/src/board/magicbitboard.cpp:145-146 | a blocker closer along the same ray hides every square beyond it |
| Magic.GenerateMask | api/src/board/magicbitboard.cpp:14-50 | the mask stored for a slider is its relevant-blocker mask |
| Magic.GenerateAttacks | api/src/board/magicbitboard.cpp:25-78 | the board stored for a blocker configuration is the slider's attack set for those blockers |
| Magic.SubsetSpec | api/src/board/magicbitboard.cpp:25-40 | square t is in blocker configuration i exactly when t is a mask square and bit k of i is set, t being mask square number k |
| Magic.PopCountIsCount | api/src/board/magicbitboard.cpp:16-19 | `__builtin_popcountll(mask)` is the number of mask squares |
| Magic.SubsetInjective | api/src/board/magicbitboard.cpp:25-40 | distinct configuration numbers below 2^popcount(mask) give distinct blocker boards |
| Magic.SubsetOnto | api/src/board/magicbitboard.cpp:25-40 | every board made of mask squares is one of the configurations, numbered below 2^popcount(mask) |
| Magic.BlockersFor | api/src/board/magicbitboard.cpp:27-39 | the inner scan gives the blockers the k-th mask square exactly when bit k of i is set |
| Magic.MaskWitness | api/src/board/magicbitboard.cpp:85-131 | every square's mask holds at least one square |
| Magic.MaskSize | api/src/board/magicbitboard.cpp:16-19 | every mask holds between 1 and 63 squares, so the shift 64 - popcount is between 1 and 63 |
| Magic.Relevance | api/src/board/magicbitboard.cpp:27-43 | only the blockers inside the mask decide a slider's attack set |
| Magic.AttackBoardSpec | api/src/board/magicbitboard.cpp:134-215 | the reference attack board is an attack set for the blockers, and the only one |
| Magic.AttacksFor | api/src/board/magicbitboard.cpp:25-78 | the generators compute the reference attack board |
| Magic.HashFits | api/src/board/magicbitboard.cpp:41 | `(blockers * magic) >> (64 - bits)` is below 2^bits for any blockers and magic |
| Magic.MaskedIndex | api/src/board/magicbitboard.cpp:41-42 | the masked index equals the unmasked one: the `& (variations - 1)` never changes it |
| Magic.WriteConfiguration | api/src/board/magicbitboard.cpp:25-44 | one pass writes configuration i's attack board at its in-range slot and changes nothing else |
| Magic.WriteKeepsServed | api/src/board/magicbitboard.cpp:43 | when configurations sharing a slot share a board, writing configuration n keeps configurations 0..n-1 served |
| Magic.FillAttacks | api/src/board/magicbitboard.cpp:19-44 | the vector has 2^popcount(mask) entries and, when the magic separates the configurations, every configuration finds its attack board at its slot |
| Magic.BuildEntry | api/src/board/magicbitboard.cpp:12-45 | the entry gets the mask, the magic and shift 64 - popcount(mask), and is filled whenever the magic is collision-free |
| Magic.SlotOfBlockers | api/include/move/movegen.h:32-42 | every configuration read through a filled entry gives its attack board |
| Magic.RelevantBoard | api/include/move/movegen.h:35 | only the mask squares of the occupancy decide the board looked up |
| Magic.SizeMaskOfShape | api/include/move/movegen.h:50 | for a built entry, `attacks.size() - 1` is the low popcount(mask) bits |
| Magic.SizeMaskNoop | api/include/move/movegen.h:48-50 | the index mask of `getBishopMoves` leaves a built entry's index unchanged |
| Magic.CheckedLookupCorrect | api/include/move/movegen.h:32-42 | on a built, filled entry `getRookMoves` returns the attack set of the occupancy; the bounds check never fires |
| Magic.MaskedLookupCorrect | api/include/move/movegen.h:44-57 | on a built, filled entry `getBishopMoves` returns the attack set; neither the mask nor the bounds check fires |
| Magic.QueenBoard | api/include/move/movegen.h:69-73 | the union of the rook and bishop boards holds what a rook or a bishop on the square attacks |
| Magic.EmptyEntryLookup | api/include/move/movegen.h:35-55 | before initialisation both lookups return the empty board |
| Magic.StoreBuilt | api/src/board/magicbitboard.cpp:12-45 | storing square n's entry extends the built prefix and keeps every shift in range |
| Magic.MagicTables.constructor | api/src/board/magicbitboard.cpp:6-7 | both global tables start with 64 empty entries |
| Magic.MagicTables.InitializeMagicBitboards | api/src/board/magicbitboard.cpp:9-81 | afterwards all 64 rook and all 64 bishop entries are built from their magic constants |
| Magic.MagicTables.RookMovesCorrect | api/include/move/movegen.h:32-42 | once ready, `getRookMoves` returns the rook's attack set for the full occupancy |
| Magic.MagicTables.BishopMovesCorrect | api/include/move/movegen.h:44-57 | once ready, `getBishopMoves` returns the bishop's attack set for the full occupancy |
| Magic.MagicTables.QueenMovesBoards | api/include/move/movegen.h:69-73 | once ready, `getQueenMoves` is the union of the rook and bishop attack boards |
| Magic.MagicTables.QueenMovesCorrect | api/include/move/movegen.h:69-73 | once ready, `getQueenMoves` holds exactly the squares a rook or a bishop on its square attacks |
| LegacyMagic.Resize | chess.cpp:648 | `attacks.resize(variations)` keeps the first `variations` old entries and pads with zeros; it does not clear an old vector |
| LegacyMagic.RawIndex | chess.cpp:664 | the unmasked index `(blockers * magic) >> shift` with `shift = 64 - popcount(mask)` is always below `1 << popcount(mask)` |
| LegacyMagic.WriteRawConfiguration | chess.cpp:651-666 | one configuration pass stores the attack board of blocker configuration i at its unmasked index, which is in bounds, and changes nothing else |
| LegacyMagic.FillRawAttacks | chess.cpp:651-666 | whatever the vector held before the resize, once the configuration loop ends every configuration's index holds that configuration's attack board |
| LegacyMagic.BuildLegacyEntry | chess.cpp:640-666 | the square loop's body leaves an entry with the relevant mask, the given magic, shift `64 - popcount(mask)` and a vector serving every configuration |
| LegacyMagic.RawReadable | chess.cpp:698-703 | the unmasked index of any occupancy is inside the vector of a built entry |
| LegacyMagic.RawLookupCorrect | chess.cpp:698-710 | the unchecked read of a built and filled entry is in bounds and returns the slider's attack board for the full occupancy |
| LegacyMagic.LegacyTables.constructor | chess.cpp:25-26 | the global rook and bishop tables start as 64 zeroed entries with empty vectors |
| LegacyMagic.LegacyTables.InitializeMagicBitboards | chess.cpp:638-695 | every rook entry is built from ROOK_MAGICS and every bishop entry from BISHOP_MAGICS |
| LegacyMagic.LegacyTables.ReadableWhenBuilt | chess.cpp:698-710 | after initialisation every rook and bishop read is in bounds, whether or not the magics separate the configurations |
| LegacyMagic.LegacyTables.RookMovesCorrect | chess.cpp:698-703 | once the tables serve every configuration, `getRookMoves` returns exactly the squares a rook attacks from that square with that occupancy |
| LegacyMagic.LegacyTables.BishopMovesCorrect | chess.cpp:705-710 | the same for `getBishopMoves` and a bishop |
| LegacyMagic.LegacyTables.QueenMovesCorrect | chess.cpp:712-714 | `getQueenMoves` is the union of the rook and bishop attack boards of the square |
| BoardMasks.IndexFileRank | api/include/move/movegen.h:12-21 | bit `s` of a mask lies in file `s % 8` and rank `s / 8` |
| BoardMasks.FileMasks | api/include/move/movegen.h:12-14 | FILE_A holds exactly the squares of file a, FILE_H exactly those of file h |
| BoardMasks.RankMasks | api/include/move/movegen.h:16-21 | RANK_1, RANK_2, RANK_4, RANK_5, RANK_7 and RANK_8 hold exactly the squares of that rank |
| Pieces.InvertColor | api/include/color.h:12-15 | `invertColor` gives the other colour: White becomes Black and Black becomes White |
| Pieces.InvertColorInvolution | api/include/color.h:12-15 | inverting a colour twice gives it back |
| Pieces.PieceIndex | api/include/pieceType.h:4-13 | the seven piece types are numbered 0 to 6 in declaration order, NONE last |
| Pieces.PieceIndexInjective | api/include/pieceType.h:4-13 | the seven enumerators are distinct values |
| Pieces.PiecePgn | api/include/pieceType.h:15-34 | `piecePgn` gives '!' exactly for NONE and an upper-case letter for each real piece |
| Pieces.PiecePgnInjective | api/include/pieceType.h:15-34 | the six real pieces have six different letters |
| Pieces.PiecePgnTable | api/include/pieceType.h:15-34 | the letters are P, N, B, R, Q and K |
| Pieces.GetPromotionPiece | api/include/console.h:10-25 | `getPromotionPiece` gives a piece exactly for the letters Q, N, B and R, never a pawn or king, and that piece's letter is the one read |
| Pieces.PromotionRoundTrip | api/include/console.h:10-25 | reading the letter of a queen, knight, bishop or rook gives that piece back |
| Moves.NewMove | api/src/move/move.cpp:40-52 | the six-argument constructor stores the squares, capture flag, piece, colour and castling flag given, and every defaulted field takes its default (no promotion, no castling type, no undo data, -1 squares) |
| Moves.DefaultMove | api/src/move/move.cpp:55-74 | `Move()` has no squares (-1), no piece, White, every flag false and no undo data |
| Moves.MoveEqualsIsEquality | api/src/move/move.cpp:117-136 | `operator==` compares all seventeen fields, so it holds exactly when the two moves are the same value |
| Moves.ToAlgebraic | api/src/move/move.cpp:3-11 | a square's name is two characters, a file letter a-h then a rank digit 1-8 |
| Moves.FromAlgebraic | api/src/move/move.cpp:3-11 | the reading that undoes `toAlgebraic`: a two-character name with a file letter a-h and a rank digit 1-8 reads as a square, anything else as nothing |
| Moves.AlgebraicRoundTrip | api/src/move/move.cpp:3-11 | reading back a square's name gives the square |
| Moves.ToAlgebraicInjective | api/src/move/move.cpp:3-11 | distinct squares have distinct names |
| Moves.AlgebraicOnto | api/src/move/move.cpp:3-11 | every name that reads as a square is that square's name |
| Moves.GetPgn | api/src/move/move.cpp:76-114 | castling prints "O-O" or "O-O-O"; any other move prints its piece letter, from-square, an 'x' exactly on a capture, to-square and "=" with the promotion letter exactly on a promotion |
| Moves.PgnRoundTrip | api/src/move/move.cpp:76-114 | the text `getPgn` writes reads back as the castling side, or as the piece, colour, squares, capture flag and promotion piece of the move |
| Moves.PgnLetterCase | api/src/move/move.cpp:86-91 | the piece letter is lower case exactly when the mover is Black (the `+ 32` offset) |
| SquareSets.SquaresOf | api/include/board/bitboard.h:29-32 | the square set of a board holds exactly the squares `getBit` reports |
| SquareSets.BoardRoundTrip | api/include/board/bitboard.h:29-32 | boards and square sets convert into each other with nothing lost |
| SquareSets.Least | api/include/board/bitboard.h:36 | the least square of a non-empty set is in the set and below every other |
| SquareSets.PopLSBSquares | api/include/board/bitboard.h:34-39 | `popLSB` returns the least square of the board's set and leaves the set without it |
| SquareSets.SetClearSquares | api/include/board/bitboard.h:9-22 | `setBit` adds its square to the set and `clearBit` removes it |
| Boards.FirstHoldingSpec | api/src/board/position.cpp:101-133 | the board a make step picks for square s is the first of pawn, knight, bishop, rook, queen, king that holds s, and none is picked exactly when no board holds s |
| Boards.PiecesOf | api/src/board/position.cpp:89-90 | `getWhitePieces` and `getBlackPieces` hold exactly the squares one of the colour's six boards holds |
| Boards.EmptySquares | api/src/board/position.cpp:91-92 | `getEmptySquares` holds exactly the squares neither colour occupies |
| Boards.SquareCharSpec | api/src/board/position.cpp:5-32 | `getSquareChar` gives '.' exactly on an empty square, an upper-case letter exactly when a white board holds the square (that piece's letter), otherwise the lower-case letter of the black piece |
| Boards.StartLayout | api/src/board/position.cpp:35-66 | in the start position square s is on the board of colour c and piece p exactly when the standard set-up puts that piece there |
| Boards.StartExclusive | api/src/board/position.cpp:35-66 | no square of the start position is on two boards |
| Boards.StartComposites | api/src/board/position.cpp:40-65 | White's pieces fill squares 0-15 and Black's squares 48-63 |
| Boards.StartCount | api/src/board/position.cpp:35-66 | the start position holds thirty-two pieces |
| MoveRules.CaptureClearsFirstEnemyBoard | api/src/board/position.cpp:100-134 | the capture block clears the target only on the first enemy board that holds it, even when a later board holds it too; every other board, the castling byte and the en passant square stay as they were |
| MoveRules.RelocationMovesFirstBoard | api/src/board/position.cpp:136-166 | the relocation block moves the piece from `from` to `to` on the first of the mover's boards holding `from` and leaves every other board alone; when none holds `from` nothing changes |
| MoveRules.OtherStepsFrame | api/src/board/position.cpp:168-225 | the castling block touches only the mover's rooks, the en passant block only the enemy pawns, the promotion block only the mover's pawns and queens |
| MoveRules.CastlingMovesRook | api/src/board/position.cpp:168-197 | castling takes the rook from h1 to f1 or a1 to d1 for White, h8 to f8 or a8 to d8 for Black, and any type but KINGSIDE is treated as queenside |
| MoveRules.PromotionMakesQueen | api/src/board/position.cpp:212-225 | after a promotion the target holds a queen of the mover and no pawn of the mover, whichever piece the move asked for |
| MoveRules.MakeUndoKeepRightsAndEp | api/src/board/position.cpp:94-360 | neither makeMove nor undoMove changes the castling byte or the en passant square |
| MoveRules.QuietMoveFrame | api/src/board/position.cpp:94-226 | a move with no capture, castling, promotion or en passant changes exactly one board: the mover's first board holding the from-square loses it and gains the to-square |
| MoveRules.MoveFirstBack | api/src/board/position.cpp:136-166 | moving a piece to a square its side does not hold and back restores the side |
| MoveRules.QuietRoundTrip | api/src/board/position.cpp:94-360 | for a quiet move onto a square none of the mover's pieces holds, undoMove after makeMove restores every board |
| MoveRules.RestoreIsNoOp | api/src/board/position.cpp:266-300 | the "restore captured piece" block ors the target into the first board that already holds it, so it changes nothing |
| MoveRules.CaptureNotRestored | api/src/board/position.cpp:100-134 | after makeMove and undoMove of a plain capture, the target holds no enemy piece: the captured piece is not brought back and the round trip fails |
| MoveRules.EnPassantNotRestored | api/src/board/position.cpp:199-210 | makeMove removes the pawn behind the target when the target is the recorded square, but undoMove tests the from-square, so the removed pawn is not put back |
| MoveRules.EnPassantUndoAddsPawn | api/src/board/position.cpp:333-344 | undoing a White move that starts on the recorded square puts a black pawn behind it that makeMove never took |
| MoveRules.MoveKeepsKing | api/src/board/position.cpp:94-226 | no block of makeMove takes the mover's king off the board |
| ApiPosition.Position.constructor | api/src/board/position.cpp:35-66 | the default constructor sets up the standard start position with no castling bits and no en passant square |
| ApiPosition.Position.Copy | api/src/board/position.cpp:69-75 | the copy constructor copies every board, the castling byte and the en passant square |
| ApiPosition.Position.AfterMove | api/src/board/position.cpp:77-86 | the copy-and-move constructor is the copy with the move made on it |
| ApiPosition.Position.GetWhitePieces | api/src/board/position.cpp:89 | the result holds exactly the squares some white board holds |
| ApiPosition.Position.GetBlackPieces | api/src/board/position.cpp:90 | the result holds exactly the squares some black board holds |
| ApiPosition.Position.GetOccupiedSquares | api/src/board/position.cpp:91 | the result holds exactly the squares that are not empty |
| ApiPosition.Position.GetEmptySquares | api/src/board/position.cpp:92 | the complement of the occupancy holds exactly the empty squares |
| ApiPosition.Position.CaptureWhite | api/src/board/position.cpp:119-133 | the white capture chain clears the square on the first white board holding it and nothing else |
| ApiPosition.Position.CaptureBlack | api/src/board/position.cpp:104-118 | the black capture chain clears the square on the first black board holding it and nothing else |
| ApiPosition.Position.RelocateWhite | api/src/board/position.cpp:137-151 | the white relocation chain moves the piece on the first white board holding `from` to `to` |
| ApiPosition.Position.RelocateBlack | api/src/board/position.cpp:152-166 | the black relocation chain does the same on the black boards |
| ApiPosition.Position.RestoreWhite | api/src/board/position.cpp:285-299 | undoMove's white restore chain ors the square into the first white board already holding it |
| ApiPosition.Position.RestoreBlack | api/src/board/position.cpp:270-284 | undoMove's black restore chain does the same on the black boards |
| ApiPosition.Position.CaptureStep | api/src/board/position.cpp:100-134 | the capture block changes the boards exactly as the capture rule does on a capture, and not at all otherwise |
| ApiPosition.Position.RelocationStep | api/src/board/position.cpp:136-166 | the relocation block changes the boards exactly as the relocation rule does |
| ApiPosition.Position.CastlingStep | api/src/board/position.cpp:168-197 | on a castling move the rook jumps from its home corner to its castled square; otherwise nothing changes |
| ApiPosition.Position.EnPassantStep | api/src/board/position.cpp:199-210 | a move onto the recorded en passant square removes the enemy pawn behind it; otherwise nothing changes |
| ApiPosition.Position.PromotionStep | api/src/board/position.cpp:212-225 | on a promotion the target becomes a queen and stops being a pawn; otherwise nothing changes |
| ApiPosition.Position.MakeMove | api/src/board/position.cpp:94-226 | `makeMove` leaves the position the move rule gives: capture, relocation, castling, en passant and promotion, in that order |
| ApiPosition.Position.RestoreStep | api/src/board/position.cpp:266-300 | undoMove's restore block changes the boards exactly as the restore rule does on a capture |
| ApiPosition.Position.UncastlingStep | api/src/board/position.cpp:302-331 | on a castling move the rook goes back to its home corner |
| ApiPosition.Position.UnEnPassantStep | api/src/board/position.cpp:333-344 | when the from-square is the recorded en passant square a pawn of the enemy is put behind the target |
| ApiPosition.Position.UnpromotionStep | api/src/board/position.cpp:346-359 | on a promotion the target's queen goes and a pawn returns to the from-square |
| ApiPosition.Position.UndoMove | api/src/board/position.cpp:228-360 | `undoMove` leaves the position the undo rule gives, whose round-trip properties are proved in MoveRules |
| ApiPosition.Position.ComputeHash | api/src/board/position.cpp:363-401 | `computeHash` is the Zobrist hash of the position: the piece keys of every occupied square, then the en passant and castling keys |
| ApiPosition.Position.DisplayRank | api/src/board/position.cpp:413-443 | one rank of the diagram: a glyph and a space for each file a to h |
| ApiPosition.Position.DisplayPosition | api/src/board/position.cpp:406-446 | `displayPosition` is the diagram of the position, ranks 8 to 1 |
| ApiPosition.Position.FenRankText | api/src/board/position.cpp:454-480 | one rank of the FEN board field: each run of empty squares becomes its length as a digit, each piece its letter |
| ApiPosition.Position.GetFen | api/src/board/position.cpp:448-496 | `getFen` gives the board field, the side to move, the castling and en passant texts ('-' when empty) and the two counters, separated by spaces |
| EnginePosition.Position.constructor | chess_engine/include/board/position.h:11-34 | a fresh `Position` struct has only its key initialised, to 0 |
| EnginePosition.Position.Zeroed | chess_engine/src/board/board.cpp:3 | the global position in static storage is all zeros: no pieces, castling byte 0, en passant square 0 and an empty-squares board of 0, not the complement of the empty occupancy |
| EnginePosition.Position.Copy | chess_engine/include/board/position.h:11-34 | the implicit struct copy copies every board, composite, byte, square and the key |
| EnginePosition.Position.InitializePosition | chess_engine/src/board/position.cpp:5-42 | `initializePosition` sets up the standard start layout with composites that agree with the boards, and leaves the castling byte, the en passant square and the key as they were |
| EnginePosition.Position.PawnRank | chess_engine/src/board/position.cpp:12-14 | the pawn loop sets exactly the eight squares of one rank |
| EnginePosition.Position.SetWhite | chess_engine/src/board/position.cpp:11-22 | storing the six white boards changes nothing else |
| EnginePosition.Position.SetBlack | chess_engine/src/board/position.cpp:24-35 | storing the six black boards changes nothing else |
| EnginePosition.Position.UpdateComposites | chess_engine/src/board/position.cpp:37-41 | after the composite block the stored white, black, occupied and empty boards are the unions and the complement of the piece boards, and the piece boards are unchanged |
| EnginePosition.Position.ComputeHash | chess_engine/src/board/position.cpp:45-79 | `computeHash` is the Zobrist hash of the position; the engine writes out the library's computation, so both are HashBoard of the fields |
| EnginePosition.Position.GetPosition | chess_engine/src/board/position.cpp:81-106 | `getPosition` returns a new struct with every board, composite, castling byte and en passant square copied, and a key of 0 |
| EnginePosition.Position.DisplayRank | chess_engine/src/board/position.cpp:115-131 | one rank of the diagram: the engine's glyph and a space for each file a to h |
| EnginePosition.Position.DisplayPosition | chess_engine/src/board/position.cpp:111-135 | `displayPosition` is the diagram of the position with a '/' after every rank, the last included |
| EngineBoard.CaptureWhite | chess_engine/src/board/board.cpp:28-35 | the white capture chain clears the square on the first white board holding it, nothing else and not the key |
| EngineBoard.CaptureBlack | chess_engine/src/board/board.cpp:21-28 | the black capture chain clears the square on the first black board holding it |
| EngineBoard.RelocateWhite | chess_engine/src/board/board.cpp:39-46 | the white relocation chain moves the first white board's piece from `from` to `to` |
| EngineBoard.RelocateBlack | chess_engine/src/board/board.cpp:46-53 | the black relocation chain does the same on the black boards |
| EngineBoard.RestoreWhite | chess_engine/src/board/board.cpp:117-124 | undoMove's white restore chain ors the square into the first white board already holding it |
| EngineBoard.RestoreBlack | chess_engine/src/board/board.cpp:110-117 | undoMove's black restore chain does the same on the black boards |
| EngineBoard.CaptureStep | chess_engine/src/board/board.cpp:18-36 | the capture block changes the boards exactly as the capture rule does on a capture, and not at all otherwise |
| EngineBoard.RelocationStep | chess_engine/src/board/board.cpp:38-53 | the relocation block changes the boards exactly as the relocation rule does |
| EngineBoard.CastlingStep | chess_engine/src/board/board.cpp:55-64 | on a castling move the rook jumps from its home corner to its castled square; otherwise nothing changes |
| EngineBoard.EnPassantStep | chess_engine/src/board/board.cpp:66-70 | a move onto the recorded en passant square removes the enemy pawn behind it |
| EngineBoard.PromotionStep | chess_engine/src/board/board.cpp:72-76 | on a promotion the target becomes a queen and stops being a pawn |
| EngineBoard.MakeMove | chess_engine/src/board/board.cpp:13-83 | `makeMove(pos, move)` leaves the boards the move rule gives, with composites that agree with them, and keeps the key |
| EngineBoard.RestoreStep | chess_engine/src/board/board.cpp:107-125 | undoMove's restore block changes the boards exactly as the restore rule does |
| EngineBoard.UncastlingStep | chess_engine/src/board/board.cpp:127-136 | on a castling move the rook goes back to its home corner |
| EngineBoard.UnEnPassantStep | chess_engine/src/board/board.cpp:138-142 | when the from-square is the recorded en passant square a pawn of the enemy is put behind the target |
| EngineBoard.UnpromotionStep | chess_engine/src/board/board.cpp:144-148 | on a promotion the target's queen goes and a pawn returns to the from-square |
| EngineBoard.UndoMove | chess_engine/src/board/board.cpp:85-154 | `undoMove(pos, move)` leaves the boards the undo rule gives, with composites that agree with them, and keeps the key |
| EngineBoard.Globals.constructor | chess_engine/src/board/board.cpp:3 | before `initializeBoard` runs the global position is the all-zero struct |
| EngineBoard.Globals.InitializeBoard | chess_engine/src/board/board.cpp:5-7 | `initializeBoard` puts the global position in the start layout |
| EngineBoard.Globals.GetBoard | chess_engine/src/board/board.cpp:9-11 | `getBoard` returns a fresh copy of the global position, key included |
| Zobrist.HashAnyOrder | api/src/board/position.cpp:367-375 | the `hashPieces` fold gives the same hash whichever square it visits first |
| Zobrist.HashShift | api/src/board/position.cpp:367-375 | a value xor-ed into the running hash before the fold comes out xor-ed into its result |
| Zobrist.HashAddSquare | api/src/board/position.cpp:367-375 | hashing a board with one square more changes the hash by exactly that square's key |
| Zobrist.BoardListIndex | api/src/board/position.cpp:377-388 | board number `TableIndex(c, p)` in hashing order (white pawns 0 to black king 11) is the board of colour c and piece p |
| Zobrist.FoldShift | api/src/board/position.cpp:377-388 | a key xor-ed in before the twelve `hashPieces` calls comes out xor-ed into their result |
| Zobrist.FoldSuffix | api/src/board/position.cpp:377-388 | the calls from board i on depend only on boards i and later |
| Zobrist.FoldAdd | api/src/board/position.cpp:377-388 | a square added to board j changes the twelve-board hash by that board's key for the square |
| Zobrist.HashPieces | api/src/board/position.cpp:367-375 | the ctz and clear-lowest-bit loop xors in the key of every square of the board, each once |
| Zobrist.HashBoard | api/src/board/position.cpp:365-398 | the twelve `hashPieces` calls, the en passant file and the castling key give the Zobrist hash of the board: every occupied square's piece key, then the en passant and castling keys |
| Zobrist.EpFileOnly | api/src/board/position.cpp:390-395 | only the file of the en passant square enters the hash: two en passant squares give the same hash exactly when their files have the same key |
| Zobrist.XorInjective | api/src/board/position.cpp:394-398 | xor-ing the same two values into distinct 64-bit keys keeps them distinct |
| Zobrist.AddPieceHash | api/src/board/position.cpp:363-401 | putting a piece on a square its board does not hold changes `computeHash` by exactly that piece's key for the square, the incremental update Zobrist hashing exists for |
| MoveGeneration.Shift | api/src/move/movegen.cpp:129-194 | `S << k` holds square t exactly when t - k is in S: squares shifted off the board are lost |
| MoveGeneration.RankSquares | api/include/move/movegen.h:16-21 | a rank mask holds exactly the squares of its rank |
| MoveGeneration.FileSquares | api/include/move/movegen.h:12-14 | a file mask holds exactly the squares of its file |
| MoveGeneration.DiagonalOffsets | api/src/move/movegen.cpp:129-194 | one rank ahead on a neighbouring file is the offset forward-1 away from file a or forward+1 away from file h |
| MoveGeneration.PushesGeometry | api/src/move/movegen.cpp:129-194 | a push target is the empty square ahead, or two ahead from the home rank when both squares are empty |
| MoveGeneration.CapturesGeometry | api/src/move/movegen.cpp:129-194 | a diagonal target is one rank ahead on a neighbouring file and holds an enemy piece: the file masks stop wrap-around |
| MoveGeneration.EnPassantGeometry | api/src/move/movegen.cpp:129-194 | an en passant target is the en passant square, diagonally ahead of a pawn on its fifth rank |
| MoveGeneration.PawnMovesGeometry | api/src/move/movegen.cpp:129-194 | `getPawnMoves` returns exactly the pawn steps of the rules: pushes onto empty squares, diagonal steps onto an enemy piece or onto the en passant square from the fifth rank |
| MoveGeneration.PawnAttackSplit | api/src/move/movegen.cpp:259-274 | the pawn test of `isSquareAttacked` is the rules' pawn attack plus one spurious case: an unguarded probe wraps round the board and reads a pawn on the attacker's far rank |
| MoveGeneration.GuardsBySquare | api/src/move/movegen.cpp:259-274 | the rules' pawn attack on a square is a pawn of the attacker on one of the two squares diagonally behind it |
| MoveGeneration.WhitePawnAttack | api/src/move/movegen.cpp:259-266 | the white pawn probes see exactly the white pawn guards plus the wrapped probe |
| MoveGeneration.BlackPawnAttack | api/src/move/movegen.cpp:267-274 | the black pawn probes see exactly the black pawn guards plus the wrapped probe |
| MoveGeneration.WrappedProbeExample | api/src/move/movegen.cpp:259-266 | a white pawn on d8 is reported as attacking e1 although it guards nothing there |
| MoveGeneration.CastlingWing | api/src/move/movegen.cpp:196-252 | a wing's castling target is returned exactly when the right for that wing is held, the squares between king and rook are empty and no square the king crosses is attacked |
| MoveGeneration.CastlingMovesSpec | api/src/move/movegen.cpp:196-252 | `getCastlingMoves` returns exactly the targets of the allowed wings |
| MoveGeneration.TargetMovesStep | api/src/move/movegen.cpp:20-32 | one step of the inner loop handles the least remaining target, then the rest |
| MoveGeneration.SquareMovesStep | api/src/move/movegen.cpp:12-124 | one step of the outer loop handles the least remaining square, then the rest |
| MoveGeneration.TargetMovesMembers | api/src/move/movegen.cpp:20-32 | the inner loop emits exactly the admitted targets of the branch, each as that branch's move |
| MoveGeneration.SquareMovesMembers | api/src/move/movegen.cpp:12-124 | the outer loop emits exactly the moves some square of the set emits |
| MoveGeneration.GenerateMovesMembers | api/src/move/movegen.cpp:3-127 | `generateMoves` returns exactly the moves from an own square to a target of its branch that holds an enemy piece or no own piece and does not leave the mover's king attacked |
| MoveGeneration.GeneratedMoveShape | api/src/move/movegen.cpp:3-127 | every generated move has the mover's colour, square and piece, an admitted target, no promotion and no castling type, and carries the enemy flag in `isCapture` for api pawns and in `isCastling` otherwise |
| MoveGeneration.NoOwnTarget | api/src/move/movegen.cpp:23-24 | when the colour composites are disjoint no generated move lands on one of the mover's own pieces |
| MoveGeneration.CaptureFlagMovesRook | api/src/move/movegen.cpp:35-51 | a non-pawn capture built with the enemy flag in the castling slot reaches makeMove's castling block, which puts a rook on d1 (d8 for Black) |
| MoveGeneration.Captures | api/src/move/movegen.cpp:299-310 | `generateCaptures` keeps no more moves than it was given |
| MoveGeneration.CapturesMembers | api/src/move/movegen.cpp:299-310 | a move is kept exactly when it is in the list and captures or promotes |
| MoveGeneration.EngineCapturesEmpty | chess_engine/src/move/movegen.cpp:242-252 | the engine's generator never sets `isCapture` and never promotes, so its `generateCaptures` is always empty |
| ApiMovegen.WouldLeaveKingInCheck | api/src/move/movegen.cpp:319-323 | the move made on a copy leaves the mover's king attacked exactly when the rules' check test says so |
| ApiMovegen.TryTarget | api/src/move/movegen.cpp:22-30 | one target is pushed exactly when it is admitted, as the branch's move |
| ApiMovegen.TargetLoop | api/src/move/movegen.cpp:20-32 | the inner popLSB loop returns the branch's moves in ascending target order |
| ApiMovegen.Branch | api/src/move/movegen.cpp:16-124 | the branch is the first two-colour piece board holding the square, with that piece's target board |
| ApiMovegen.GenerateMoves | api/src/move/movegen.cpp:3-127 | the loop returns exactly the generator specification's move list for the position's computed composites |
| ApiMovegen.GenerateCaptures | api/src/move/movegen.cpp:299-310 | the result is the generated moves that capture or promote, in their order |
| EngineMovegen.StoredView | chess_engine/src/move/movegen.cpp:3-100 | the engine reads the stored composites, which are the computed ones whenever they agree with the boards |
| EngineMovegen.WouldLeaveKingInCheck | chess_engine/src/move/movegen.cpp:261-267 | copy, make, test and undo answer exactly the rules' check test |
| EngineMovegen.TryTarget | chess_engine/src/move/movegen.cpp:3-100 | one target is pushed exactly when it is admitted, as the branch's move |
| EngineMovegen.TargetLoop | chess_engine/src/move/movegen.cpp:3-100 | the inner popLSB loop returns the branch's moves in ascending target order |
| EngineMovegen.Branch | chess_engine/src/move/movegen.cpp:3-100 | the branch is the first two-colour piece board holding the square, with that piece's target board |
| EngineMovegen.GenerateMoves | chess_engine/src/move/movegen.cpp:3-100 | the loop returns exactly the generator specification's move list for the stored composites |
| EngineMovegen.GenerateCaptures | chess_engine/src/move/movegen.cpp:242-252 | the result is the generated moves that capture or promote, in their order |
| LegacyRules.LandingSpec | chess.cpp:767-773 | an offset lands on square t exactly when t is that many ranks and files away and on the board |
| LegacyRules.ReachedSpec | chess.cpp:767-774 | the offset loop reaches exactly the on-board landings of the offsets in the table |
| LegacyRules.KnightMovesGeometry | chess.cpp:757-777 | `getKnightMoves` returns exactly the on-board knight jumps from the square |
| LegacyRules.KingMovesGeometry | chess.cpp:779-800 | `getKingMoves` returns exactly the on-board neighbours of the square |
| LegacyRules.ReachedSize | chess.cpp:767-774 | the loop reaches no more squares than the table has offsets |
| LegacyRules.KnightMovesCount | chess.cpp:757-777 | a knight has between two and eight moves |
| LegacyRules.KingMovesCount | chess.cpp:779-800 | a king has between three and eight moves |
| LegacyRules.LegacyPawnGeometry | chess.cpp:716-755 | chess.cpp's `getPawnMoves` gives the rules' pawn steps without en passant: pushes onto empty squares, the double push from the home rank, diagonal steps onto enemy pieces |
| LegacyRules.LegacyPawnAttackExact | chess.cpp:806-817 | with the rank guard covering both probes, the pawn test is exactly the rules' pawn attack: no probe wraps |
| LegacyRules.LegacyAttackedAgrees | chess.cpp:802-842 | chess.cpp's `isSquareAttacked` implies the library's test and agrees with it wherever the library's unguarded pawn probe does not wrap |
| LegacyRules.LegacyCastlingWing | chess.cpp:859-899 | a wing's target is returned exactly when its flag is set, the squares between king and rook are empty and the king's three squares are not attacked |
| LegacyRules.LegacyCastlingSpec | chess.cpp:859-899 | `getCastlingMoves` returns the same targets under the same conditions as the library's, over the four flags |
| LegacyRules.UpdatedMover | chess.cpp:477-533 | `updateBitboards` moves the piece on the mover's board of the move's type from the from-square to the to-square, a promoting pawn staying a pawn; the mover's other boards are unchanged |
| LegacyRules.UpdatedEnemy | chess.cpp:499-512 | a target in the stored enemy composite is cleared on every enemy board but the king's; the enemy king never changes, and nothing changes when the target is not in the stored composite |
| LegacyRules.ParseMoveText | chess.cpp:199-216 | a line names a move exactly when it has five characters, a space at index 2 and a file letter and rank digit on each side; the squares are `rank * 8 + file` |
| LegacyRules.TypedMoveRoundTrip | chess.cpp:199-216 | typing two square names separated by a space is read back as those two squares |
| LegacyRules.PromotionChoice | chess.cpp:324-330 | the promotion switch gives a queen, rook, bishop or knight, and a queen for any other character |
| LegacyRules.PromotionChoiceIgnoresCase | chess.cpp:324 | because of `toupper`, a lower-case letter chooses the same piece as its upper case |
| LegacyRules.CastleStep | chess.cpp:269-312 | main's castling block changes the move only by marking it castling, only for a king move, and touches the rooks of one side only |
| LegacyRules.CastlingBranchUnreachable | chess.cpp:252-312 | the castling block never fires: `getKingMoves` holds only neighbouring squares, so e1 to g1 or c1 (e8 to g8 or c8) is never a legal target, and board, flags and move pass through unchanged |
| LegacyRules.PromotionStep | chess.cpp:314-332 | the promotion block changes the move only by marking it promoting to a queen, rook, bishop or knight |
| LegacyRules.SessionStep | chess.cpp:163-339 | one more line of input is one more pass of the loop while the game is on |
| LegacyRules.SessionStays | chess.cpp:163-339 | after one pass of the loop the session over the remaining lines ends in the same board and flags, and the replies so far plus its replies are all the replies |
| LegacyRules.OwnPieceHasType | chess.cpp:219-255 | a from-square that passes the ownership test holds a piece, so the dispatch always sets a piece type |
| LegacyRules.TurnRejects | chess.cpp:173-263 | a line that is not a legal move leaves the boards, the flags and the player to move as they were; only `quit` ends the game |
| LegacyRules.TurnMoves | chess.cpp:199-338 | a move main makes starts on one of the player's pieces, ends on a target of that piece's move set the player does not occupy, is a capture exactly when the opponent occupies the target, and hands the turn over |
| LegacyRules.MoveTurnMoves | chess.cpp:215-338 | the same facts for the part of the loop body after a well-formed move line |
| LegacyRules.TurnMovesPiece | chess.cpp:252-338 | with chess.cpp's lookups a move puts the piece on its target and off its square, and the castling flags never change |
| LegacyRules.TypedMoveIsMade | chess.cpp:199-338 | typing a legal move's two square names makes that move |
| LegacyRules.TurnAlternates | chess.cpp:163-338 | one line flips the player to move exactly when it makes a move, and keeps the castling flags |
| LegacyRules.AfterMovesStep | chess.cpp:338 | the colour to move after n + 1 moves from c is the colour after n moves from the other colour |
| LegacyRules.SessionAlternates | chess.cpp:156-343 | over a whole session the player to move alternates with each move made and with nothing else, and the castling flags stay as they started |
| LegacyRules.SessionQuits | chess.cpp:163-176 | a session ends with the game over exactly when some line was `quit`, and that line is the last one read |
| LegacyRules.TurnRejectsOrMoves | chess.cpp:163-339 | only `quit` sets `gameOver` |
| LegacyGame.Game.StoredView | chess.cpp:220-230 | the move functions read the boards and the stored composites, which are the computed ones whenever they agree |
| LegacyGame.Game.constructor | chess.cpp:72-93 | before main runs every board is zero and every castling flag is true |
| LegacyGame.Game.InitializeBitboards | chess.cpp:428-474 | `initializeBitboards` sets up the start position with derived boards that agree, and does not reset the castling flags |
| LegacyGame.Game.SetBits | chess.cpp:448 | the pawn loop sets exactly the squares lo to hi - 1 |
| LegacyGame.Game.SetSide | chess.cpp:447-467 | the six boards of one colour are replaced and nothing else |
| LegacyGame.Game.SetWhite | chess.cpp:447-456 | the six white boards are replaced and nothing else |
| LegacyGame.Game.SetBlack | chess.cpp:458-467 | the six black boards are replaced and nothing else |
| LegacyGame.Game.UpdateComposites | chess.cpp:535-539 | the derived boards become the unions of the piece boards and the empty squares their complement; the piece boards are unchanged |
| LegacyGame.Game.SetPieceBoard | chess.cpp:480-496 | one arm of the `switch (move.pieceType)` replaces the board of that colour and type and nothing else |
| LegacyGame.Game.ClearTarget | chess.cpp:500-512 | the capture block clears the square on each non-king board of the colour that holds it |
| LegacyGame.Game.UpdateBitboards | chess.cpp:477-540 | `updateBitboards` leaves the boards the update rule gives, with the capture test reading the enemy composite stored before the call, and keeps the flags |
| LegacyGame.Game.Jumps | chess.cpp:767-774 | the offset loop collects exactly the on-board landings |
| LegacyGame.Game.GetKnightMoves | chess.cpp:757-777 | the result holds exactly the on-board knight jumps from the square |
| LegacyGame.Game.GetKingMoves | chess.cpp:779-800 | the result holds exactly the on-board neighbours of the square |
| LegacyGame.Game.GetPawnMoves | chess.cpp:716-755 | the result holds exactly the pawn steps without en passant, captures read from the stored composites |
| LegacyGame.Game.IsSquareAttacked | chess.cpp:802-842 | the answer is chess.cpp's attack test on the stored composites |
| LegacyGame.Game.IsInCheck | chess.cpp:844-857 | the answer is the attack test by the other colour on the lowest square of the king board |
| LegacyGame.Game.Unattacked | chess.cpp:864-867 | the result is true exactly when none of the three squares is attacked |
| LegacyGame.Game.GetCastlingMoves | chess.cpp:859-899 | the result is chess.cpp's castling targets for the current flags |
| LegacyGame.Game.CastlingBlock | chess.cpp:863-870 | one block returns its wing's target exactly when its flag, empty squares and safe squares allow it |
| LegacyGame.Game.DisplayLegalMoves | chess.cpp:370-390 | the marked squares are the detected piece's move set minus the mover's own pieces |
| LegacyGame.Game.PieceMoves | chess.cpp:376-387 | the dispatch tests pawn, rook, bishop, queen, knight, king in that order and returns that piece's move set |
| LegacyGame.Game.CastlingInMain | chess.cpp:269-312 | main's castling block changes the boards, flags and move as the castling rule says |
| LegacyGame.Game.TryMove | chess.cpp:215-338 | the loop body after a well-formed move line produces the state and reply the turn rule gives |
| LegacyGame.Game.CommitMove | chess.cpp:269-338 | the castling block, the promotion block, `updateBitboards` and the change of player produce the state the commit rule gives |
| LegacyGame.Game.HandleLine | chess.cpp:163-339 | one pass of the loop body produces the state and reply the turn rule gives |
| LegacyGame.Game.Play | chess.cpp:156-343 | main's loop over its input lines produces exactly the session the rules describe from the start position, stopping at `quit` |
| Evaluation.PieceValue | api/include/engine-related/evaluation.h:117-136 | `getPieceValue`: pawn 100, knight 300, bishop 330, rook 500, queen 900, king 20000 and 0 for no piece |
| Evaluation.ValuesIncreasing | api/include/engine-related/evaluation.h:14-19 | the material values strictly increase pawn < knight < bishop < rook < queen < king, and every real piece is worth more than 0 |
| Evaluation.SEEByRank | api/include/engine-related/evaluation.h:140-145 | `SEE` accepts a capture exactly when the attacker ranks no higher than the victim; a real piece "capturing" nothing is refused |
| Evaluation.Pst | api/include/engine-related/evaluation.h:29-109 | each of the six piece-square tables has one entry per square |
| Evaluation.Mirror | api/src/engine-related/evaluation.cpp:164-167 | `mirror` keeps a square's file and moves it to the opposite rank |
| Evaluation.XorMirror | api/src/engine-related/evaluation.cpp:164-167 | `square ^ 56` is that same mirror image |
| Evaluation.XorValue | api/src/engine-related/evaluation.cpp:166 | XOR with 56 on a square's six bits is 8 * (7 - rank) + file |
| Evaluation.MirrorInvolution | api/src/engine-related/evaluation.cpp:164-167 | mirroring twice gives the square back |
| Evaluation.SetSumRemove | api/src/engine-related/evaluation.cpp:13-17 | the popLSB sum over a set may be split at any of its squares, so the visiting order does not change the score |
| Evaluation.SetSumAgree | api/src/engine-related/evaluation.cpp:13-17 | two terms that agree on a set's squares sum to the same score |
| Evaluation.MirrorSet | api/src/engine-related/evaluation.cpp:164-167 | a square is in the mirrored set exactly when its mirror image is in the set |
| Evaluation.SetSumMirror | api/src/engine-related/evaluation.cpp:50-54 | summing a term over the mirrored set equals summing the mirrored term over the set |
| Evaluation.TermMirror | api/src/engine-related/evaluation.cpp:13-54 | a piece's contribution read directly on a square equals its contribution read mirrored on the mirror square |
| Evaluation.EmptyScoresZero | api/src/engine-related/evaluation.cpp:4-162 | an empty board scores 0 for either colour |
| Evaluation.AddPiece | api/src/engine-related/evaluation.cpp:4-162 | adding one piece changes the score by exactly its value plus table entry, added for the scoring side and subtracted, mirrored, for the other; the king adds only its table entry |
| Evaluation.PieceSumMirror | api/src/engine-related/evaluation.cpp:13-54 | one piece type's mirrored sum over the mirrored squares equals its direct sum |
| Evaluation.SideScoreMirror | api/src/engine-related/evaluation.cpp:13-84 | a side's six loops score the same after mirroring every board and swapping the orientation |
| Evaluation.SideScoresAgree | api/src/engine-related/evaluation.cpp:13-84 | two sides whose six per-piece sums agree score the same |
| Evaluation.FlipNegates | api/src/engine-related/evaluation.cpp:4-162 | swapping the colours and mirroring the board negates the score |
| Evaluation.MirrorOne | api/src/engine-related/evaluation.cpp:164-167 | the mirror of a one-square set is the one-square set of its mirror |
| Evaluation.MirrorPair | api/src/engine-related/evaluation.cpp:164-167 | the mirror of a two-square set is the set of the two mirror squares |
| Evaluation.MirrorPawnRank | api/src/engine-related/evaluation.cpp:164-167 | the mirror maps the second rank to the seventh and back |
| Evaluation.MirrorPawnRanks | api/src/engine-related/evaluation.cpp:164-167 | the mirror swaps the whole second and seventh ranks |
| Evaluation.StartBlackMirror | api/src/board/position.cpp:35-66 | Black's starting army, mirrored, is White's |
| Evaluation.StartWhiteMirror | api/src/board/position.cpp:35-66 | White's starting army, mirrored, is Black's |
| Evaluation.SymmetricScoresZero | api/src/engine-related/evaluation.cpp:4-162 | a board equal to its own colour-swapped mirror scores 0 |
| Evaluation.StartScoresZero | api/src/engine-related/evaluation.cpp:4-162 | the starting position scores 0 for either colour |
| Evaluation.Accumulate | api/src/engine-related/evaluation.cpp:13-17 | one popLSB loop adds (or subtracts) exactly the sum of the piece's terms over its board |
| Evaluation.EvaluatePosition | api/src/engine-related/evaluation.cpp:4-162 | `evaluatePosition` returns the scoring side's table sum less the other side's mirrored sum, reading the position only |
| Transposition.Stored | chess_engine/src/extraHeuristics/transposition.cpp:8-15 | `storeTT` adds the key, keeps every other entry, and replaces the key's entry only when it is absent or no deeper than the new depth |
| Transposition.Probe | chess_engine/src/extraHeuristics/transposition.cpp:17-29 | `probeTT` returns the stored entry exactly when it is deep enough and exact, a lower bound at least beta, or an upper bound at most alpha |
| Transposition.StoreDeepens | chess_engine/src/extraHeuristics/transposition.cpp:8-15 | after a store the key's entry is at least as deep as both the old entry and the new depth |
| Transposition.StoreKeepsKeys | chess_engine/src/extraHeuristics/transposition.cpp:8-15 | every entry keeps being stored under its own hash |
| Transposition.StoreThenProbe | chess_engine/src/extraHeuristics/transposition.cpp:8-29 | an exact result just stored is found by any probe no deeper, unless a deeper entry for the key was already there, which the probe then sees unchanged |
| Transposition.StoreOtherKey | chess_engine/src/extraHeuristics/transposition.cpp:8-29 | storing one key does not change what probing another key returns |
| Transposition.TranspositionTable.constructor | chess_engine/src/extraHeuristics/transposition.cpp:6 | the table starts empty |
| Transposition.TranspositionTable.StoreTT | chess_engine/src/extraHeuristics/transposition.cpp:8-15 | the global map becomes Stored of the old map |
| Transposition.TranspositionTable.ProbeTT | chess_engine/src/extraHeuristics/transposition.cpp:17-29 | the lookup is Probe of the global map |
| Killers.Shifted | api/include/extraHeuristics/killerMoves.h:21-25 | a new move goes first and the old first slides to second; a move already first leaves both slots |
| Killers.ShiftIdempotent | api/include/extraHeuristics/killerMoves.h:21-25 | storing the same move twice is the same as storing it once |
| Killers.ShiftKeepsDistinct | api/include/extraHeuristics/killerMoves.h:21-25 | two distinct killers stay distinct after any store |
| Killers.KillerTable.constructor | api/include/extraHeuristics/killerMoves.h:9 | 100 plies of two default moves |
| Killers.KillerTable.StoreKillerMove | api/include/extraHeuristics/killerMoves.h:14-27 | a ply in 0..99 gets the shifted slots and nothing else changes; any other ply changes nothing |
| History.ColorIndex | api/include/extraHeuristics/historyHeuristic.h:12 | White uses the first table and Black the second |
| History.Bonus | api/include/extraHeuristics/historyHeuristic.h:12 | the bonus, depth squared, is never negative and positive for a nonzero depth |
| History.HistoryTable.constructor | api/include/extraHeuristics/historyHeuristic.h:8 | a 2 x 64 x 64 table of zeros |
| History.HistoryTable.StoreHistoryHeuristic | api/include/extraHeuristics/historyHeuristic.h:10-13 | the move's counter grows by depth squared, every other counter is unchanged, and no counter becomes negative |
| NullMove.MadeNull | chess_engine/src/move/nullMoveHandler.cpp:5-12 | `makeNullMove` pushes the key and en passant square, flips the turn key and clears en passant |
| NullMove.UndoneNull | chess_engine/src/move/nullMoveHandler.cpp:14-22 | `undoNullMove` does nothing on an empty stack, else pops one saved state and restores it |
| NullMove.UndoAfterMake | chess_engine/src/move/nullMoveHandler.cpp:5-22 | undoing a null move restores the key, the en passant square and the stack |
| NullMove.TwoNullMoves | chess_engine/src/move/nullMoveHandler.cpp:5-12 | two null moves give back the 64-bit key and leave en passant cleared |
| NullMove.NestedUndo | chess_engine/src/move/nullMoveHandler.cpp:5-22 | two nested null moves undone in reverse order restore the state |
| NullMove.NullMoveStack.constructor | chess_engine/src/move/nullMoveHandler.cpp:3 | the stack starts empty |
| NullMove.NullMoveStack.MakeNullMove | chess_engine/src/move/nullMoveHandler.cpp:5-12 | the position's key and en passant square and the stack become MadeNull of the old ones |
| NullMove.NullMoveStack.UndoNullMove | chess_engine/src/move/nullMoveHandler.cpp:14-22 | the position's key and en passant square and the stack become UndoneNull of the old ones |
| Prioritization.CaptureScore | api/src/engine-related/prioritization.cpp:45-49 | MVV-LVA: a capture scores 100 times the victim's value less the attacker's, a quiet move 0 |
| Prioritization.HistoryRow | api/src/engine-related/prioritization.cpp:30-43 | the side's counters laid out so each on-board move finds its own counter |
| Prioritization.BeforeIsKeyOrder | api/src/engine-related/prioritization.cpp:6-52 | for moves on the board the comparator is exactly "higher Key first", a strict weak ordering |
| Prioritization.TTMoveFirst | api/src/engine-related/prioritization.cpp:14-18 | with captures and history equal, the transposition-table move comes before any other |
| Prioritization.FirstKillerBeforeSecond | api/src/engine-related/prioritization.cpp:20-28 | with captures and history equal, the first killer comes before the second |
| Prioritization.SortedRespectsComparator | api/src/engine-related/prioritization.cpp:6-52 | in a list sorted by Key the comparator never prefers a later on-board move to an earlier one |
| Prioritization.TTBestMove | api/src/engine-related/prioritization.cpp:11-12 | the table's best move when a probe at depth 0 with the full window succeeds, else the default move |
| Prioritization.SortMoves | api/src/engine-related/prioritization.cpp:4-55 | `sortMoves` returns 0 and leaves a permutation of the moves in non-increasing priority |
| Prioritization.SortByKey | api/src/engine-related/prioritization.cpp:6 | the sort leaves a permutation of the array in non-increasing key order |
| Prioritization.SwapStep | api/src/engine-related/prioritization.cpp:6 | swapping an out-of-order neighbour keeps the insertion invariant and the multiset |
| Prioritization.Inserted | api/src/engine-related/prioritization.cpp:6 | when the moved element stops, the prefix is sorted |
| Prioritization.Insert | api/src/engine-related/prioritization.cpp:6 | inserting one element into a sorted prefix extends it and permutes the array |
| Perft.ChildrenAppend | chess_engine/src/perft.cpp:12-16 | the children's count over a concatenated move list is the sum of the two counts |
| Perft.ChildrenAtDepthOne | chess_engine/src/perft.cpp:12-16 | at depth 1 every move contributes exactly one leaf |
| Perft.PerftOne | chess_engine/src/perft.cpp:6-18 | perft at depth 1 is the number of generated moves |
| Perft.Perft | chess_engine/src/perft.cpp:6-18 | `perft` returns the leaf count of the game tree to the given depth |
| Perft.CountRange | chess_engine/src/perft.cpp:44-60 | one thread's loop returns the children's count over its chunk |
| Perft.SizeT | chess_engine/src/perft.cpp:33 | `static_cast<size_t>` keeps a non-negative int and sends a negative one to at least 2^32 |
| Perft.ThreadCount | chess_engine/src/perft.cpp:33 | the thread count is at most the number of moves, 0 exactly when there are no threads or no moves, and all the moves for a negative request |
| Perft.ChunkStartClosed | chess_engine/src/perft.cpp:36-41 | chunk i starts at i times the chunk size plus the number of earlier chunks holding a remainder move |
| Perft.ChunksCover | chess_engine/src/perft.cpp:36-63 | every chunk start is within the moves and the last chunk ends at the last move |
| Perft.ChunksBalanced | chess_engine/src/perft.cpp:36-41 | any two chunks differ in size by at most one |
| Perft.SplitCount | chess_engine/src/perft.cpp:36-73 | summing the chunks' counts gives the children's count over all the moves |
| Perft.NextChunk | chess_engine/src/perft.cpp:39-63 | each chunk ends where the next begins, and the running sum covers the moves up to it |
| Perft.ParallelPerft | chess_engine/src/perft.cpp:21-76 | as written: fails exactly when a side with no moves or zero threads makes the thread count 0, and otherwise equals perft |
| Perft.NoMovesZeroThreads | chess_engine/src/perft.cpp:33-36 | with no moves perft counts 0 yet the thread count is 0, so the chunk size divides by zero |
| Perft.GuardedThreadCount | chess_engine/src/perft.cpp:33 | at least one thread, and the source's count whenever that is nonzero |
| Perft.ParallelPerftGuarded | chess_engine/src/perft.cpp:21-76 | with at least one thread the parallel count always equals perft |
| Rendering.Digit | api/src/board/position.cpp:467 | a run of one to eight empty squares is written as one nonzero decimal digit |
| Rendering.FenStepExpands | api/src/board/position.cpp:457-471 | each square of the inner loop keeps "text written, then the pending empty run" equal to the squares read so far |
| Rendering.FenScanExpands | api/src/board/position.cpp:454-472 | after f files the text and the pending run expand back to the rank's first f square characters |
| Rendering.SquareCharNotDigit | api/src/board/position.cpp:5-32 | a square character is never a digit and never '/', so it cannot be mistaken for a run or a separator |
| Rendering.FenRankRoundTrip | api/src/board/position.cpp:452-476 | reading a rank of the board field back, each digit as that many empty squares, gives exactly the rank's eight square characters |
| Rendering.FenScanDigits | api/src/board/position.cpp:454-472 | the scan never writes two digits in a row |
| Rendering.FenRankDigits | api/src/board/position.cpp:452-476 | a rank of the board field has no two adjacent digits and no '/' |
| Rendering.FenRanksSlashes | api/src/board/position.cpp:477-480 | ranks 8 down to `low` carry one '/' after every rank but rank 1 |
| Rendering.FenPlacementSlashes | api/src/board/position.cpp:452-481 | the board field separates its eight ranks with exactly seven '/' |
| Rendering.NatDigits | api/src/board/position.cpp:493 | a non-negative number is written as one or more decimal digits |
| Rendering.IntTextRoundTrip | api/src/board/position.cpp:493 | an int written by `<<` is an optional '-' and digits, and parses back to the same number |
| Rendering.ApiStyle | api/src/board/position.cpp:416-443 | the api glyph set: six White glyphs, six Black glyphs and a newline after each rank |
| Rendering.EngineStyle | chess_engine/src/board/position.cpp:118-132 | the engine glyph set differs from the api's only in that White is drawn with the api's Black glyphs, Black with the api's White glyphs, and '/' ends each rank instead of a newline |
| Rendering.RankCells | api/src/board/position.cpp:413-442 | the cells of f files take two characters each |
| Rendering.DiagramRanks | api/src/board/position.cpp:410-444 | each rank of the diagram takes 17 characters |
| Rendering.RankCellsAt | api/src/board/position.cpp:413-442 | file g of a rank is its glyph followed by a space |
| Rendering.DiagramRanksAt | api/src/board/position.cpp:410-444 | in the ranks from `low` up, each square's glyph sits at its rank's row and its file's column |
| Rendering.DiagramLayout | api/src/board/position.cpp:406-446 | the diagram is 136 characters, with the glyph of each square at row 7 - rank, column 2 * file, and the rank terminator at the end of each row |
| Rendering.ApiStyleDistinct | api/src/board/position.cpp:416-441 | the api's twelve glyphs are distinct and none is '.' |
| Rendering.EngineStyleDistinct | chess_engine/src/board/position.cpp:118-130 | the engine's twelve glyphs are distinct and none is '.' |
| Rendering.WhiteGlyph | api/src/board/position.cpp:416-427 | a White piece's glyph reads back as its upper-case letter |
| Rendering.BlackGlyph | api/src/board/position.cpp:428-439 | a Black piece's glyph reads back as its lower-case letter |
| Rendering.GlyphRoundTrip | api/src/board/position.cpp:406-446 | every square's glyph reads back as the square's `getSquareChar` letter, so the diagram and the FEN field show the same board |
| Text.IntTextReadBack | GUI/API/API.py:98-99 | a square number the server prints with `<<` is one token, and Python's `int()` reads it back as the same number |
| Text.SplitFromTokens | GUI/API/API.py:99 | every piece `split()` returns is a non-empty run without whitespace |
| Text.SplitWord | GUI/API/API.py:99 | a run of non-whitespace characters extends the token being read |
| Text.SplitJoined | GUI/API/API.cpp:88-92 | splitting "moves" followed by the space-prefixed tokens gives back "moves" and those tokens, in order |
| Text.WithoutSpaces | GUI/API/API.cpp:57-62 | the `fetchState` loop's result holds no space and is no longer than its input |
| Text.WithoutSpacesKeeps | GUI/API/API.cpp:57-62 | a string without spaces passes through unchanged |
| Text.WithoutSpacesIdempotent | GUI/API/API.cpp:57-62 | removing spaces twice is removing them once |
| Text.WithoutSpacesAppend | GUI/API/API.cpp:57-62 | removing spaces distributes over concatenation, so the character loop builds the whole result |
| Frontend.FirstMatch | GUI/API/API.cpp:39-42 | `find_if` stops at the first move with the given origin and destination, or at the end when none has them |
| Frontend.FindMove | GUI/API/API.cpp:39-48 | the lookup fails exactly when no generated move joins the two squares, and otherwise returns a generated move that does |
| Frontend.Committed | GUI/API/API.cpp:48-51 | the committed move is the generated one, with a queen when it is a promotion and unchanged otherwise |
| Frontend.MovesFrom | GUI/API/API.cpp:84-87 | `remove_if` keeps exactly the generated moves leaving the square, in order |
| Frontend.Destinations | GUI/API/API.cpp:89-91 | the reply lists each kept move's destination, in order |
| Frontend.OfferedIffFound | GUI/API/API.cpp:39-92 | a destination is offered for a square exactly when a move between the two squares is accepted |
| Frontend.FindMoveStep | GUI/API/API.cpp:39-42 | `find_if` looks at the first move, then at the rest |
| Frontend.FindInMovesFrom | GUI/API/API.cpp:39-87 | looking a move up among its square's moves finds the same move as among all moves |
| Frontend.MateOrStaleMate | GUI/EngineInteraction/EngineInteraction_EngineInteraction.cpp:67-85 | the position is checkmate or stalemate exactly when one side has no move |
| ApiServer.ReadInt | GUI/API/API.cpp:33 | the model reads a square number only from a whole decimal token that fits an int, and then it is that token's value |
| ApiServer.ParseCommand | GUI/API/API.cpp:18-95 | the first word picks the branch: any word other than the seven commands is `Other`, and every other command is the one its word names; `init` takes the second word as colour word, or none when the line has no second word; `move` takes tokens 1 and 2 and `getMoves` token 1 as ints; the line is refused exactly when such a number cannot be read |
| ApiServer.PlayerColor | GUI/API/API.cpp:37 | the player's moves are White's exactly when `pIsWhite` |
| ApiServer.Texts | GUI/API/API.cpp:89-91 | each destination is written as `<<` writes an int |
| ApiServer.InitSetsColor | GUI/API/API.cpp:23-30 | `init` replies "initSuccess", the player is White exactly when the colour word is "white", and the position is the start, after the engine's first White move when the player is Black; a missing word reuses the previous one |
| ApiServer.MoveAcceptsOnlyGenerated | GUI/API/API.cpp:31-54 | `move` replies "moveMade" exactly when a generated move of the player's colour joins the squares, plays that move with a queen for a promotion, and otherwise replies "invalidMove" and changes nothing |
| ApiServer.FetchStateReply | GUI/API/API.cpp:55-63 | `fetchState` changes nothing and replies with the diagram with its spaces removed |
| ApiServer.BotMovePlaysOpponent | GUI/API/API.cpp:64-68 | `botMove` replies "botMoved" after the engine's best move for the side opposite the player |
| ApiServer.MateReplyMeaning | GUI/API/API.cpp:69-80 | `isMate` is silent while both sides can move, says "whiteWins" exactly when White can move and Black is mated, "blackWins" only when White cannot move and a side is mated, and "staleMate" exactly for a stalemate that is not also a mate |
| ApiServer.GetMovesReply | GUI/API/API.cpp:81-92 | `getMoves` changes nothing and lists the destinations of the player's moves from the square, each exactly a square `move` would accept |
| ApiServer.QueriesKeepState | GUI/API/API.cpp:55-95 | only `init`, an accepted `move` and `botMove` change the server's variables |
| ApiServer.QuitEndsSession | GUI/API/API.cpp:93-95 | the loop stops at the first `quit`: nothing after it is read |
| ApiServer.JoinedSnoc | GUI/API/API.cpp:89-91 | writing one more destination appends a space and its text |
| ApiServer.Server.constructor | GUI/API/API.cpp:13-15 | the loop's variables start with the given position, the player as White and no colour word |
| ApiServer.Server.Handle | GUI/API/API.cpp:17-95 | one pass of the loop changes the variables and writes the reply exactly as Respond says |
| ApiServer.Server.Serve | GUI/API/API.cpp:17-96 | the loop over a sequence of commands is Session: every reply in order, stopping at `quit` |
| ApiServer.StripSpaces | GUI/API/API.cpp:57-62 | the character loop builds the diagram without spaces |
| ApiServer.WriteMoves | GUI/API/API.cpp:88-92 | the reply loop writes "moves" and the destinations |
| ApiClient.Kept | GUI/API/API.py:35-38 | the reader thread queues only non-empty stripped lines |
| ApiClient.LinesOfOneLine | GUI/API/API.py:35 | a reply without a newline, followed by one, is read as one line |
| ApiClient.QueuedOneLine | GUI/API/API.py:33-38 | a one-line reply lands on the queue as exactly that line |
| ApiClient.Deliver | GUI/API/API.py:40-48 | a command sent after the process has stopped changes nothing |
| ApiClient.InitLine | GUI/API/API.py:59 | the `init` line parses on the server as `init` with the colour word |
| ApiClient.MoveLine | GUI/API/API.py:65 | the `move` line parses on the server as `move` with the same two squares |
| ApiClient.GetMovesLine | GUI/API/API.py:95 | the `getMoves` line parses on the server as `getMoves` with the same square |
| ApiClient.FetchStateLine | GUI/API/API.py:71 | the `fetchState` line parses as `fetchState` |
| ApiClient.BotMoveLine | GUI/API/API.py:77 | the `botMove` line parses as `botMove` |
| ApiClient.IsMateLine | GUI/API/API.py:83 | the `isMate` line parses as `isMate` |
| ApiClient.QuitLine | GUI/API/API.py:104 | the `quit` line parses as `quit` |
| ApiClient.StateOf | GUI/API/API.py:70-74 | `fetch_state` returns the response only when it is non-empty |
| ApiClient.MateOf | GUI/API/API.py:82-92 | `is_mate` returns the response when it is one of the three verdicts and None otherwise |
| ApiClient.ParseAll | GUI/API/API.py:99 | the list comprehension succeeds only when every token is an int, and returns their values in order |
| ApiClient.SplitPair | GUI/API/API.py:59 | two tokens joined by a space split back into the two |
| ApiClient.SplitTriple | GUI/API/API.py:65 | three tokens joined by spaces split back into the three |
| ApiClient.InitLineParses | GUI/API/API.py:59 | the formatted `init` line is read by the server as `init` with that word |
| ApiClient.MoveLineParses | GUI/API/API.py:65 | the formatted `move` line is read by the server as the same two squares |
| ApiClient.GetMovesLineParses | GUI/API/API.py:95 | the formatted `getMoves` line is read by the server as the same square |
| ApiClient.WordParses | GUI/API/API.py:71-104 | each one-word command is read by the server as that command |
| ApiClient.WordOneLine | GUI/API/API.cpp:30-78 | each one-word reply is a single non-empty line |
| ApiClient.InitInStep | GUI/API/API.py:57-62 | `init_game` returns true, the server's player colour is the one asked for, and the link stays in step |
| ApiClient.MakeMoveInStep | GUI/API/API.py:64-68 | `make_move` returns true exactly when the server finds a generated move of the player's colour joining the squares, and the link stays in step |
| ApiClient.BotMoveInStep | GUI/API/API.py:76-80 | `bot_move` returns true after the server plays the engine's move, and the link stays in step |
| ApiClient.IsMateInStep | GUI/API/API.py:82-92 | `is_mate` returns exactly the server's verdict, and the link stays in step |
| ApiClient.MovesReplyOneLine | GUI/API/API.py:98-99 | the `getMoves` reply is one line starting with "moves" that splits into "moves" and the destination texts |
| ApiClient.JoinedShape | GUI/API/API.cpp:88-92 | the joined destinations hold no newline and end with the last destination's last character |
| ApiClient.ParseTexts | GUI/API/API.py:99 | Python's `int()` reads every written destination back |
| ApiClient.GetMovesRoundTrip | GUI/API/API.py:94-100 | `get_moves` returns exactly the server's destinations for the square, in order, and the link stays in step |
| ApiClient.MovesOfReply | GUI/API/API.py:98-99 | the client reads the server's `getMoves` reply back as the destinations written |
| ApiClient.FetchStateInStep | GUI/API/API.py:70-74 | `fetch_state` returns the server's diagram without spaces when it is one line, and the link stays in step |
| ApiClient.EngineInteraction.constructor | GUI/API/API.py:6-31 | a fresh process with nothing queued and the player as White |
| ApiClient.EngineInteraction.Exchange | GUI/API/API.py:40-55 | sending a line and taking the next response is Call on the link |
| ApiClient.EngineInteraction.InitGame | GUI/API/API.py:57-62 | records the colour and returns whether the response is "initSuccess" |
| ApiClient.EngineInteraction.MakeMove | GUI/API/API.py:64-68 | returns whether the response is "moveMade" |
| ApiClient.EngineInteraction.FetchState | GUI/API/API.py:70-74 | returns the non-empty response or None |
| ApiClient.EngineInteraction.BotMove | GUI/API/API.py:76-80 | returns whether the response is "botMoved" |
| ApiClient.EngineInteraction.IsMate | GUI/API/API.py:82-92 | returns the verdict or None |
| ApiClient.EngineInteraction.GetMoves | GUI/API/API.py:94-100 | returns the parsed destinations of a "moves" response, or an empty list |
| ApiClient.EngineInteraction.Close | GUI/API/API.py:102-106 | sends `quit` to a running process and stops it |
| JniBridge.MoverColor | GUI/EngineInteraction/EngineInteraction_EngineInteraction.cpp:25-29 | the move's colour is White exactly when `playerIsWhite` |
| JniBridge.BotColor | GUI/EngineInteraction/EngineInteraction_EngineInteraction.cpp:59-62 | the bot plays Black exactly when `botIsBlack` |
| JniBridge.MoveResult | GUI/EngineInteraction/EngineInteraction_EngineInteraction.cpp:20-49 | a move is refused exactly when no generated move of the mover's colour joins the squares, and otherwise such a move is played with a queen for a promotion |
| JniBridge.Bridge.constructor | GUI/EngineInteraction/EngineInteraction_EngineInteraction.cpp:8-18 | the bridge holds the engine and its current position |
| JniBridge.Bridge.InitGame | GUI/EngineInteraction/EngineInteraction_EngineInteraction.cpp:8-18 | returns true with the start position, after the engine's first White move when the player is Black |
| JniBridge.Bridge.MakeMove | GUI/EngineInteraction/EngineInteraction_EngineInteraction.cpp:20-49 | returns true exactly when MoveResult finds a move, and then the position is that result; otherwise nothing changes |
| JniBridge.Bridge.BotMove | GUI/EngineInteraction/EngineInteraction_EngineInteraction.cpp:57-65 | returns true after the engine's best move for the bot's colour |
| JniBridge.StatusCalls | GUI/EngineInteraction/EngineInteraction_EngineInteraction.cpp:67-85 | the two status calls together report every position where a side has no move, and both hold only when both sides are out of moves |
| JniBridge.MakeMovePlaysGenerated | GUI/EngineInteraction/EngineInteraction_EngineInteraction.cpp:31-48 | an accepted move is a generated move of the mover's colour joining the squares, played with a queen for a promotion |
| JavaGui.ClickIndex | GUI/ChessGame.java:19-34 | the number sent for a press is 8 * tile row from the top + tile column, a square index for every press on the board |
| JavaGui.ClickInjective | GUI/ChessGame.java:19-23 | two presses on the board give the same square only on the same tile |
| JavaGui.TileText | GUI/ChessGame.java:64-73 | a tile's text exists only when the state has enough '/'-separated rows |
| JavaGui.TileShowsClickedSquare | GUI/ChessGame.java:19-73 | for a press at `x`, `y` on the board, its tile `row` = y / TILE_SIZE and `col` = x / TILE_SIZE lie on the board, the number `s` = 64 - ClickSquare(x, y) that `handleMove` sends is a square, and the tile at `row`, `col` of the engine's diagram shows exactly the glyph of `s` |
| JavaGui.TileOnBoard | GUI/ChessGame.java:87 | a coordinate inside the window lies in one of the eight tiles |
| JavaGui.TileGlyph | GUI/ChessGame.java:64-73 | the tile `row` from the top, column `col`, shows the glyph of square 8 * row + col |
| JavaGui.EngineRows | GUI/ChessGame.java:65 | `split("/")` of the engine's diagram gives its eight rank rows, rank 8 first |
| JavaGui.ChessGame.constructor | GUI/ChessGame.java:14-26 | the game starts with the player as White, nothing selected, the bridge at the start position and the board fetched |
| JavaGui.ChessGame.UpdateBoard | GUI/ChessGame.java:48-52 | the board state becomes the bridge's diagram; nothing else changes |
| JavaGui.ChessGame.HandleMove | GUI/ChessGame.java:28-46 | a first press only selects; a second sends both squares as 64 - square, and on success the engine answers and the board is refetched; the selection is cleared either way |
| JavaGui.ChessGame.SecondPress | GUI/ChessGame.java:31-45 | the second press plays the player's move and the engine's answer when the bridge accepts it, and otherwise changes nothing but the selection |
| JavaGui.SecondPressColors | GUI/ChessGame.java:34-39 | with `isWhite` true, the player's presses move Black and the engine answers as White |
| BoardText.SplitOn | GUI/gui.py:92 | Python's `split(sep)` always returns at least one piece |
| BoardText.DropTrailingEmpty | GUI/ChessGame.java:65 | Java's `split` drops exactly the empty pieces at the end and keeps the rest in order |
| BoardText.Terminated | GUI/ChessGame.java:65 | pieces each followed by the separator contain the separator |
| BoardText.TerminatedSnoc | GUI/ChessGame.java:65 | terminating one more piece appends it and the separator |
| BoardText.SplitOnWord | GUI/gui.py:92 | a run without the separator extends the piece being read |
| BoardText.SplitOnPiece | GUI/gui.py:92 | a piece without the separator, then the separator, splits into that piece and the split of the rest |
| BoardText.SplitTerminated | GUI/gui.py:92 | splitting terminated pieces gives the pieces back, then the split of what follows |
| BoardText.PySplitTerminated | GUI/gui.py:92 | Python's split of terminated pieces is the pieces and one empty string |
| BoardText.JavaSplitTerminated | GUI/ChessGame.java:65-67 | Java's split of terminated pieces, the last not empty, is exactly the pieces |
| BoardText.WithoutSpacesTerminated | GUI/API/API.cpp:57-62 | removing the spaces from terminated pieces removes them piece by piece |
| BoardText.StylesAvoid | chess_engine/src/board/position.cpp:118-132 | neither diagram draws a square as a space or a '/' |
| BoardText.RankGlyphs | chess_engine/src/board/position.cpp:116-131 | the eight one-glyph strings of a rank, file a first |
| BoardText.RankCellsTerminated | chess_engine/src/board/position.cpp:116-131 | a rank's cells are its glyphs, each followed by a space |
| BoardText.RankRows | chess_engine/src/board/position.cpp:114-133 | the rank rows from rank 8 down |
| BoardText.DiagramRanksTerminated | chess_engine/src/board/position.cpp:114-133 | the diagram is its rank rows, each followed by the rank terminator |
| BoardText.RankCellsAvoid | chess_engine/src/board/position.cpp:116-131 | a rank row holds no character the glyphs avoid other than a space |
| BoardText.DiagramSplit | GUI/gui.py:92 | splitting the engine's diagram on '/' gives the eight rank rows and one empty string |
| BoardText.RankCellsSplit | GUI/ChessGame.java:67 | Java's `split(" ")` of a rank row gives its eight glyphs |
| BoardText.PackedRank | GUI/API/API.cpp:57-62 | a rank's glyphs with the spaces gone, one per file |
| BoardText.PackedRankCells | GUI/API/API.cpp:57-62 | removing the spaces from a rank row leaves exactly its eight glyphs |
| BoardText.PackedDiagramSplit | GUI/gui.py:92-95 | in the split of the diagram without spaces, row r column c holds the glyph of square (7 - r) * 8 + c |
| GuiClient.Symbol | GUI/gui.py:12-15 | `PIECE_SYMBOLS.get` gives a symbol exactly for the twelve piece letters, '' otherwise |
| GuiClient.CellText | GUI/gui.py:95 | `rows[row][col]` exists exactly when the indices are in range; otherwise IndexError |
| GuiClient.FirstBadCol | GUI/gui.py:94-98 | the inner loop reads columns up to the first that raises |
| GuiClient.FirstBad | GUI/gui.py:93-98 | the double loop stops at the first cell that raises, having read every earlier cell |
| GuiClient.RowPainted | GUI/gui.py:94-98 | a row keeps its old labels from the first cell that raised |
| GuiClient.Painted | GUI/gui.py:93-98 | the buttons painted so far form an 8 x 8 grid |
| GuiClient.Shown | GUI/gui.py:92-98 | `update_board`'s loops leave an 8 x 8 grid of labels |
| GuiClient.ShownWhenReadable | GUI/gui.py:92-98 | when every cell can be read nothing raises and each button shows its cell's symbol |
| GuiClient.Initial | GUI/gui.py:17-30 | the board starts well formed: no engine, no game, nothing selected |
| GuiClient.Refresh | GUI/gui.py:84-98 | `update_board` changes only the link and the labels, and nothing at all with no game active |
| GuiClient.GameOverText | GUI/gui.py:160-165 | the message is "White Wins!", "Black Wins!" or "Stalemate!" after the verdict |
| GuiClient.Status | GUI/gui.py:156-167 | `check_game_status` changes only the link, whether the game is active and the message; the game goes inactive exactly when `is_mate` returns a verdict, and then the message is GameOverText of that verdict |
| GuiClient.StatusInStep | GUI/gui.py:156-167 | with the link in step the game goes inactive exactly when the server's `isMate` has a verdict, which is announced, and the server stays as it was |
| GuiClient.BotTurn | GUI/gui.py:148-154 | `make_bot_move` changes only the link, the labels, whether the game is active and the message |
| GuiClient.ClickedIndex | GUI/gui.py:104-107 | a button's square index is on the board |
| GuiClient.Click | GUI/gui.py:100-146 | a click keeps the player's colour, and a second click that does not raise clears the selection and the sunken squares |
| GuiClient.FirstClick | GUI/gui.py:109-124 | a first click selects (7 - row, col) and sinks only the destinations the server returned |
| GuiClient.Source | GUI/gui.py:127-128 | the selected square's index is on the board |
| GuiClient.SecondClick | GUI/gui.py:126-146 | a second click keeps the colour, and clears the selection and the sunken squares unless it raises |
| GuiClient.AfterMove | GUI/gui.py:131-140 | what follows an accepted move keeps the colour and clears the selection unless it raises |
| GuiClient.Start | GUI/gui.py:69-82 | starting a game leaves the board well formed |
| GuiClient.ClickNeedsGame | GUI/gui.py:100-102 | clicks do nothing while no game is active |
| GuiClient.FirstClickSelects | GUI/gui.py:109-124 | a first click selects the clicked square even when no moves come back, and sinks exactly the destinations returned when any do |
| GuiClient.QueriesKeepServer | GUI/API/API.py:70-92 | `fetch_state` and `is_mate` do not change the server |
| GuiClient.RefreshStatusKeepServer | GUI/gui.py:84-167 | refreshing and checking the game never change the server's position |
| GuiClient.WhitePlayerUnanswered | GUI/gui.py:130-140 | with a White player the board never asks the engine to move: after a second click the server holds the position the player's move left |
| GuiClient.AfterMoveKeepsServer | GUI/gui.py:131-140 | with a White player, what follows an accepted move only queries the server |
| GuiClient.BlackPlayerAnswered | GUI/gui.py:126-154 | with a Black player, an accepted move in a game not over is answered by the engine's move for White |
| GuiClient.ClickAfterMove | GUI/gui.py:130-140 | an accepted second click goes on as AfterMove on the new link |
| GuiClient.MoveKeepsColor | GUI/API/API.cpp:31-54 | a `move` command keeps the player's colour |
| GuiClient.AfterMoveAnswers | GUI/gui.py:131-154 | after an accepted move by a Black player in a game not over, the engine moves for White |
| GuiClient.BotTurnPlays | GUI/gui.py:148-154 | `make_bot_move` leaves the server as the engine's move left it |
| GuiClient.StartActivates | GUI/gui.py:69-82 | starting a game keeps the chosen colour, activates the game and tells the server that colour |
| GuiClient.NoSymbol | GUI/gui.py:12-15 | the dot and every character outside ASCII have no symbol |
| GuiClient.GlyphHasNoSymbol | GUI/gui.py:12-15 | no glyph of the engine's diagram, nor its dot, is a key of `PIECE_SYMBOLS` |
| GuiClient.DiagramLabelsBlank | GUI/gui.py:84-98 | as written, `update_board` on the server's diagram reads every cell and blanks every button |
| GuiClient.IntendedCellText | GUI/gui.py:95-98 | the intended reading: a cell exists exactly when the one as written does, and its glyph is read back as the piece letter before the lookup |
| GuiClient.IntendedLabelsShowPieces | GUI/gui.py:92-107 | with the intended reading each button shows the symbol of the piece on the square a click on it selects, and is blank exactly when that square is empty |
| GuiClient.SquareSymbol | GUI/gui.py:12-15 | a square's letter has a symbol exactly when a piece stands there |
| GuiClient.PaintRow | GUI/gui.py:94-98 | the inner loop paints the row up to its first cell that raises |
| GuiClient.FirstBadColFrom | GUI/gui.py:94-98 | resuming the inner loop after readable columns finds the same first failure |
| GuiClient.FirstBadFrom | GUI/gui.py:93-98 | resuming the outer loop after readable rows finds the same first failure |
| GuiClient.PaintedStep | GUI/gui.py:93-98 | painting one more row keeps the painted grid in step |
| GuiClient.PaintedNextRow | GUI/gui.py:93-98 | a finished row is where the next row starts |
| GuiClient.PaintBoard | GUI/gui.py:92-98 | the two loops paint exactly Shown and raise exactly when Shown does |
| GuiClient.ChessBoard.constructor | GUI/gui.py:17-30 | the board starts in the Initial state |
| GuiClient.ChessBoard.UpdateBoard | GUI/gui.py:84-98 | `update_board` is Refresh of the old state |
| GuiClient.ChessBoard.CheckGameStatus | GUI/gui.py:156-167 | `check_game_status` is Status of the old state, so any verdict of `is_mate` ends the game with its message |
| GuiClient.ChessBoard.MakeBotMove | GUI/gui.py:148-154 | `make_bot_move` is BotTurn of the old state |
| GuiClient.ChessBoard.OnSquareClick | GUI/gui.py:100-146 | `on_square_click` is Click of the old state |
| GuiClient.ChessBoard.SelectSquare | GUI/gui.py:109-124 | the first-click branch is FirstClick |
| GuiClient.ChessBoard.MoveSelected | GUI/gui.py:126-146 | the second-click branch is SecondClick |
| GuiClient.ChessBoard.FollowMove | GUI/gui.py:131-140 | the accepted-move branch is AfterMove |
| GuiClient.ChessBoard.StartGame | GUI/gui.py:69-82 | `start_game` closes any old engine, opens a fresh one and is Start of the old state |
| GuiClient.ChessBoard.BeginGame | GUI/gui.py:73-82 | with a fresh engine, the rest of `start_game` is Start |
| GuiBoard.IndexRoundTrip | gui.py:22-26 | `square_to_index(index_to_square(i))` is i, and the widget square is on the grid exactly when i is a board square |
| GuiBoard.SquareRoundTrip | gui.py:22-26 | a widget square on the grid maps to a board square and back to itself |
| GuiBoard.SquareToIndexInjective | gui.py:22-23 | two widget squares on the grid with the same index are the same square |
| GuiBoard.Endgame | gui.py:147-159 | status 2 ends the game as a checkmate won by the side that just moved, status 3 as a stalemate, anything else leaves the verdict; nothing else changes and an ended game stays ended |
| GuiBoard.PlayedCounts | gui.py:128-145 | one move passes the turn, counts a full move after Black's move only, notes the move's PGN and a space (and the next move number after Black's move), and an ended game stays ended |
| GuiBoard.PlayedAllCounts | gui.py:128-145 | after any sequence of moves the counter and the side to move keep pace with the number of moves |
| GuiBoard.GameCounts | gui.py:46-48 | from the start, after n moves the counter is 1 + n / 2 and White is to move exactly when n is even |
| GuiBoard.MovesFromSquare | gui.py:179-181 | `get_moves_from` keeps exactly the generated moves of the side to move that leave the square |
| GuiBoard.TryMove | gui.py:116-126 | `try_move_piece` fails exactly when no generated move joins the two squares and then changes nothing; otherwise it plays a generated move that does |
| GuiBoard.AcceptedIffOffered | gui.py:116-181 | a move between two widget squares is accepted exactly when its destination is among those of the origin's moves |
| GuiBoard.YieldedShortens | gui.py:73-75 | each engine move brings `bot_loop` one step nearer its end |
| GuiBoard.BotGame | gui.py:73-75 | `bot_loop` ends with the game over or the counter at MAX_MOVES, never beyond it |
| GuiBoard.BotMoves | gui.py:73-75 | the engine's moves in a `bot_loop` run can all be written in PGN |
| GuiBoard.BotGamePlays | gui.py:73-75 | `bot_loop` is the engine's moves played in turn |
| GuiBoard.BotGameCounts | gui.py:73-75 | the bookkeeping of a `bot_loop` run counts every engine move |
| GuiBoard.Click | gui.py:77-114 | a click does nothing once the game is over or while the engine thinks, and a click on the selected square clears the selection |
| GuiBoard.ClickKeepsSelectable | gui.py:77-114 | every click keeps the selection on a square the side to move can move from |
| GuiBoard.ClickCounts | gui.py:77-114 | a click advances the game by no move, by the player's move alone when it ends the game, or by the player's move and the engine's answer |
| GuiBoard.OverIsFinal | gui.py:78-79 | a game that is over ignores every click |
| GuiBoard.ChessBoard.constructor | gui.py:32-55 | the board starts at move 1 with "1. ", then the engine plays the whole game without a human, or its first move when the human is Black |
| GuiBoard.ChessBoard.CheckForEndgame | gui.py:147-159 | `check_for_endgame` is Endgame of the old record |
| GuiBoard.ChessBoard.MakeMove | gui.py:128-145 | `make_move` is Played of the old record, and keeps the counter in step |
| GuiBoard.ChessBoard.YieldToEngine | gui.py:161-167 | `yield_to_engine` is Yielded of the old record and releases the lock |
| GuiBoard.ChessBoard.BotLoop | gui.py:73-75 | `bot_loop` is BotGame of the old record |
| GuiBoard.ChessBoard.IsLegalMove | gui.py:172-177 | the lookup fails exactly when no generated move joins the squares, else returns a generated move that does |
| GuiBoard.ChessBoard.GetMovesFrom | gui.py:179-181 | exactly the generated moves leaving the square |
| GuiBoard.ChessBoard.TryMovePiece | gui.py:116-126 | `try_move_piece` is TryMove of the old record, one more move when it succeeds |
| GuiBoard.ChessBoard.OnSquareClick | gui.py:77-114 | `on_square_click` is Click of the old board |
| GuiBoard.ChessBoard.SecondClick | gui.py:89-106 | the second-click branch tries the move, lets the engine answer an accepted move unless the game ended, and keeps the counter in step |
| ConsolePy.Upper | console.py:44 | each character of the answer is replaced by its ASCII upper case, length kept |
| ConsolePy.PromotionChoiceValid | console.py:44-52 | the promotion piece chosen is always queen, rook, bishop or knight, and it differs from the queen only when the stripped answer is that piece's single letter |
| ConsolePy.PromotionChoiceByLetter | console.py:44-52 | each promotion piece is chosen by its letter, upper case bare or lower case padded with blanks |
| ConsolePy.StripLetter | console.py:18 | `strip()` removes blanks on both sides of a single non-blank character |
| ConsolePy.TrimLeftBlanks | console.py:18 | stripping the left side removes exactly the leading blanks |
| ConsolePy.TrimRightBlanks | console.py:18 | stripping the right side removes exactly the trailing blanks |
| ConsolePy.HumanTurn | console.py:13-57 | None exactly when input runs out; the stripped line "quit" quits and nothing else does; a chosen move is the generated move the command's squares name, only its promotion piece changed and that to a legal piece, and it can be written in PGN |
| ConsolePy.ChosenIsGenerated | console.py:29-55 | a move the player picks is a generated move for that position and side, up to its promotion piece, which is a legal one |
| ConsolePy.AskHuman | console.py:93-103 | the prompt loop consumes input, returns what is left over, and a picked move can be written in PGN |
| ConsolePy.AskedIsGenerated | console.py:93-103 | a move picked by the prompt loop is a generated move with at most its promotion piece chosen |
| ConsolePy.Moved | console.py:117-129 | the position takes the move, the turn passes, the clock is kept; White's move appends the move number and a dot, Black's raises the counter; the move's PGN and a space follow |
| ConsolePy.Round | console.py:60-129 | a round that ends (result -1) leaves the state unchanged; status 2 or 3 ends it at once with the input untouched; the input left is a suffix of the input given |
| ConsolePy.GameLoop | console.py:60-129 | the imperative `game_loop` returns exactly the round the functional model describes |
| ConsolePy.RoundCounts | console.py:117-129 | a round that goes on plays one move: the turn passes, the counter keeps pace, the clock is untouched; a round that ends changes nothing |
| ConsolePy.EngineOnlyRounds | console.py:10-11 | with the player and random switches off, every round that is not over plays the engine's searched move and reads no input |
| ConsolePy.Rounds | console.py:156-159 | the script's loop plays at most as many moves as rounds allowed |
| ConsolePy.RoundsCount | console.py:117-129 | over any number of rounds the counter and side to move keep pace with the moves played, the clock unchanged |
| ConsolePy.GameCounts | console.py:131-136 | from the start (counter 1, White, clock 0) after n moves the counter is 1 + n/2, White moves exactly after an even number, the clock stays 0 |
| ConsolePy.ShippedPlaysAlone | console.py:156-159 | as shipped the loop stops only when the status code says checkmate or stalemate, and otherwise plays every round |
| ConsolePy.Lower | console.py:139 | each character is replaced by its ASCII lower case, length kept |
| ConsolePy.HumanSide | console.py:139-144 | the stripped, lower-cased answer "q" leaves, "b" plays Black, anything else White |
| ConsoleApi.ReadChar | api/src/console.cpp:87-89 | `cin >> choice` then `ignore`: None exactly when every remaining line is blank; otherwise a non-blank character and strictly fewer lines left |
| ConsoleApi.FirstNonBlank | api/src/console.cpp:88 | the index of the first non-blank character: every earlier one is blank |
| ConsoleApi.ReadCharSkipsBlanks | api/src/console.cpp:87-89 | after blank lines and leading blanks the character read is the first non-blank one and the rest of its line is dropped |
| ConsoleApi.Promotion | api/include/console.h:10-25 | the piece is always a legal promotion, not the queen exactly for 'R', 'B' or 'N', and its PGN letter is the character read for Q, R, B, N |
| ConsoleApi.HumanTurn | api/src/console.cpp:11-69 | the unstripped line "quit" quits and nothing else does; a malformed or unmatched command asks again; a chosen move is the generated move the squares name, and for a promotion the piece is Promotion of the next non-blank character read, the rest of that line dropped; None exactly when the input runs out |
| ConsoleApi.AskHuman | api/src/console.cpp:159-178 | the prompt loop consumes input, returns what is left over, and a picked move can be written in PGN |
| ConsoleApi.AskedIsGenerated | api/src/console.cpp:159-178 | a move picked by the prompt loop is a generated move with at most its promotion piece chosen |
| ConsoleApi.PromptHuman | api/src/console.cpp:159-178 | the imperative prompt loop returns what the functional prompt loop describes |
| ConsoleApi.Moved | api/src/console.cpp:202-216 | the position takes the move, the turn passes, the clock is kept; before White's move the counter grows and its new value and a dot go to the PGN; then the move's PGN and a space |
| ConsoleApi.Play | api/src/console.cpp:113-217 | the main loop ends on checkmate only when the status code says 2, on stalemate only when it says 3, on quit or end of input only on the player's turn, and keeps the clock |
| ConsoleApi.CountedHalf | api/src/console.cpp:206-211 | in closed form the counter is (n + 1) / 2 after n moves and White moves after an even number |
| ConsoleApi.PlayCounts | api/src/console.cpp:113-217 | however the game goes the counter and side to move keep pace with the moves played |
| ConsoleApi.HumanSide | api/src/console.cpp:90-98 | 'q' in either case leaves, 'b' in either case plays Black, anything else White |
| ConsoleApi.SessionCounts | api/src/console.cpp:71-222 | from the start (counter 0, White) the counter is (n + 1) / 2 after the n moves played and White moves after an even number |
| ConsoleApi.StartConsole | api/src/console.cpp:71-222 | the imperative `start_console` returns the outcome and final state of the functional session |
| EngineMain.ComputerText | chess_engine/src/main.cpp:114-118 | the printed move has five characters with a space in the middle, and reading back its two halves gives the origin and destination squares |
| EngineMain.Step | chess_engine/src/main.cpp:104-150 | the searched move is played; the game is over exactly when the side that just moved has no moves, checkmate for the other side exactly when it is in check, with nothing noted; otherwise the turn passes and the counter and PGN note the move |
| EngineMain.Run | chess_engine/src/main.cpp:30-151 | a game already over stays as it is; a game that ends ends with no moves for the side it stops on, and a stalemate with that side not in check |
| EngineMain.RunCounts | chess_engine/src/main.cpp:139-150 | however long the game runs the counter and side to move keep pace with the moves noted |
| EngineMain.GameCounts | chess_engine/src/main.cpp:17-19 | from the start (counter 0, White) after n noted moves the counter is (n + 1) / 2 and White moves exactly after an even number |
| EngineMain.PlayGame | chess_engine/src/main.cpp:30-151 | the imperative `while (!gameOver)` loop ends in the state the functional game run describes |
| EngineMain.MateGoesUnnoticed | chess_engine/src/main.cpp:125-137 | on an engine where White's first move mates Black, the loop as written does not end: Black has no moves and is in check, yet the game goes on with Black to move |
| EngineMain.IntendedEndsOnMate | chess_engine/src/main.cpp:125-137 | with the end test asked of the side to move next, the game ends exactly when that side has no moves, a checkmate won by the mover exactly when that side is in check |
| EngineMain.IntendedCatchesMate | chess_engine/src/main.cpp:125-137 | on the same engine the intended end test ends the game with White's checkmate |

## Left out

- Search: negamax, quiescence and `findBestMove` in both `search.cpp` files are bounded by wall-clock time and read and write the transposition table mid-recursion. The front ends see the search as the oracle's `bestMove`. The depth and time limits each caller passes are kept as constants but have no effect on the oracle.
- The root-parallel search drivers in both `engine.cpp` files use threads, atomics, a mutex and floating-point rates. They are not modelled.
- `parallelPerft` runs its chunks with `std::async` and futures. The model keeps only the chunk arithmetic and sums the chunks in order.
- The thread-safe position wrappers are not modelled, and neither is the mutex in the api's `storeKillerMove`.
- `GUI/API/API.py`'s process and transport are not modelled: `subprocess.Popen`, the reader thread, the five-second `queue.get` timeout, `close()`, and `send_command`'s handling of a broken pipe. A reply arrives as an `Option<string>`.
- Zobrist tables: `initZobrist` fills them from a seeded `std::mt19937_64`. Here they are a parameter of the right shape.
- Magic.CollisionFree: the magic constants are not checked to be collision-free, which would need an exhaustive 64 × 4096 search. Table correctness is proved under that hypothesis; table sizes and index bounds are proved outright.
- `KNIGHT_ATTACKS` and `KING_ATTACKS` are not in the sources, so they are a parameter (`MoveGeneration.Lookups`).
- MoveRules: `handleCapture` and `updateBitboard` are called by the api but not defined in its sources. They are taken to clear the bit and to move the bit, as the engine writes them out inline at the same places.
- Perft.Perft: `depth` is a `nat`. On a negative depth `perft` (chess_engine/src/perft.cpp:6-18) never reaches its `depth == 0` test. It recurses until the stack overflows, unless every line reaches a position with no moves, which counts 0. The model does not cover a negative depth.
- Perft.ParallelPerft: the same holds for `parallelPerft` with a negative depth. Its recursive calls go through `perft`.
- Perft: `updatePosition` is not declared by the engine's `position.h`. Playing a move on a copy is therefore a parameter, together with the position type and the move generator.
- The engine's `getSquareChar` and `getFen` are declared in `chess_engine/include/board/position.h` but defined nowhere, so they are not part of this model.
- `colorToChar` is called by the api's `getFen` and defined nowhere. It is a parameter of `ApiPosition.Position.GetFen`.
- The engine oracle also stands in for code whose body is not part of this model:
  - `checkEndgameConditions` / `check_endgame_conditions` (the status code);
  - `Color.to_string`;
  - the squares the pybind `Move(text, colour)` binding reads;
  - `Move::fromAlgebraic`;
  - `find_random_move`.
- Each controller module's `Sound` predicate assumes only that the oracle's moves are on the board and can be written in PGN.
- Presentation is not modelled: tkinter and Swing widgets, colours, message boxes, `paintComponent`, square colours, Unicode glyph choice, ANSI escapes and all console printing. This includes the per-move scores the C++ console prints, `displayLegalMoves`' drawing and `displayBoard` in `chess.cpp`. Only the texts the controllers compute and compare are modelled.
- `gui.py`'s setup prompts (the `determine_*` functions) and `DEFAULT_MAX_TIME` are not modelled.
- The timing in `chess_engine/src/main.cpp` (`std::chrono`, the time printed) is not modelled.
- Foreign bindings are not modelled: the pybind11 module in `api/src/main.cpp`, its conversion of the promotion piece, the JNI declarations and JNIEnv string creation.
- End of input:
  - C++ `getline` at end of input returns an empty line forever, so the console, `chess.cpp` and the prompt loops would spin.
  - Python's `input()` raises EOFError.
  - The models stop when the input queue runs out (None), rather than looping or raising.
- The Python controllers' `strip`, `upper` and `lower` are modelled on ASCII only: Text.Strip, ConsolePy.Upper and ConsolePy.Lower. Python's versions also treat Unicode blanks and letters.
- Text.PyInt: Python's `int()` also accepts surrounding whitespace and digit-separating underscores. The model accepts only an optional sign and decimal digits, which is all the server ever writes.
- ApiServer.ReadInt: `iss >> n` reads the longest numeric prefix of the stream, so `getMoves 12abc` reads square 12, and an out-of-range number saturates to INT_MAX or INT_MIN with failbit set. The model reads only whole tokens that fit an int and gives None otherwise; prefix reading and saturation are not followed.
- ApiServer.ParseCommand: a `move` or `getMoves` line whose numbers the model cannot read gives None. The C++ stream would then have read a numeric prefix, or saturated, or failed and left the variable 0 or uninitialised; the command it would then run is not followed.
- `chess_engine/src/main.cpp`: the player branch is unreachable (`isPlayerTurn` is forced false), so it and the colour prompt that only feeds it are not modelled.
- `chess.cpp`'s `currentMove` is declared without an initialiser, so its fields start indeterminate. The model starts it as `Unset` (squares 0, no piece, every flag false). From then on it keeps the stale fields from one move to the next in `Control.current`, as `chess.cpp` does.
- The Python console's `while True` and the engine's `while (!gameOver)` have no bound of their own. ConsolePy.Rounds and EngineMain.Run take a number of rounds: a game longer than that bound is cut off, and the lemmas cover every bound.
- Prioritization.SortMoves: `std::sort`'s algorithm is unspecified, so the model sorts by insertion. Its contract is what `std::sort` promises (a permutation, ordered by the comparator's key). The order among moves with equal keys may differ from the library's.
- History.HistoryTable.StoreHistoryHeuristic: the counters are unbounded integers, so 32-bit overflow of `int` after very many stores is not modelled.
- The pawn probes of the api's `isSquareAttacked` at `square - 7` and `square + 9` are not guarded and can leave the board. They are given the x86-64 meaning of a shift, the count taken modulo 64, through `MoveGeneration.ProbeBit`; C++ leaves such a shift undefined.
- Insufficient material, threefold repetition and the fifty-move rule appear only in commented-out code in the consoles, so they are not modelled.

## Findings

| source | as written | input that shows it | evidently intended | confidence | as-written member | corrected member |
|---|---|---|---|---|---|---|
| chess_engine/src/perft.cpp:33-36 | the chunk size divides by `min(numThreads, numMoves)` | a position whose side to move has no moves (checkmate or stalemate) with depth > 0, or `numThreads` = 0 | a position with no moves counts 0 and a thread count of at least one is used | not executed | Perft.NoMovesZeroThreads | Perft.ParallelPerftGuarded |
| GUI/gui.py:92-98 | `update_board` looks each cell of the engine's glyph diagram up in `PIECE_SYMBOLS`, which is keyed by piece letters | the start position: every glyph misses the lookup, so all 64 buttons are blank | the glyph is read back as its piece letter before the lookup, so each button shows its piece | not executed | GuiClient.DiagramLabelsBlank | GuiClient.IntendedLabelsShowPieces |
| chess_engine/src/main.cpp:125-137 | after a move, the end test generates moves for the side that just moved | fool's mate (1. f3 e5 2. g4 Qh4#): the test after Black's mating move asks about Black, who has moves, so the game goes on with White mated; the model shows the same on a two-position engine where White's first move mates Black | the end test asks about the side to move next, and the mover wins a checkmate | not executed | EngineMain.MateGoesUnnoticed | EngineMain.IntendedCatchesMate |
