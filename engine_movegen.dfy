// The engine's generateMoves and wouldLeaveKingInCheck
// (chess_engine/src/move/movegen.cpp:3-100, 261-267) as loops over an
// EnginePosition.Position, proved to compute MoveGeneration.GenerateMoves for
// the composites the position stores.

module EngineMovegen {
  import opened Bitboards
  import opened Pieces
  import opened SquareSets
  import opened Boards
  import opened Moves
  import opened MoveRules
  import opened MoveGeneration
  import opened EnginePosition
  import opened EngineBoard

  /** What the engine's generator and isSquareAttacked read of a position: the boards and the stored composites. */
  function StoredView(pos: Position): (v: View)
    reads pos
    ensures v.board == pos.Snapshot()
    ensures pos.CompositesAgree() ==> v == ApiView(pos.Snapshot())
  {
    View(pos.Snapshot(), pos.whitePieces, pos.blackPieces, pos.occupiedSquares)
  }

  /**
   * `wouldLeaveKingInCheck`: copy the struct, make the move on the copy,
   * test the mover's king, undo the move.
   */
  method WouldLeaveKingInCheck(t: Lookups, pos: Position, move: Move) returns (inCheck: bool)
    requires MakeDefined(move) && UndoDefined(move) && SideOf(pos.Snapshot(), move.color).king != {}
    ensures inCheck == LeavesKingInCheck(t, pos.Snapshot(), move)
  {
    var tempPos := new Position.Copy(pos);
    MakeMove(tempPos, move);
    MoveKeepsKing(pos.Snapshot(), move);
    inCheck := InCheck(t, StoredView(tempPos), move.color);
    UndoMove(tempPos, move);
  }

  /**
   * The body of the inner loop for one target: the own-piece test, the move
   * built with the branch's constructor arguments, and the check test.
   */
  method TryTarget(t: Lookups, pos: Position, color: Color, square: Square, piece: PieceType, target: Square,
                   ourPieces: set<Square>, enemyPieces: set<Square>)
    returns (pushed: seq<Move>)
    requires KingPresent(Gen(Engine, t, StoredView(pos), color))
    requires ourPieces == Ours(StoredView(pos), color) && enemyPieces == Theirs(StoredView(pos), color)
    ensures var g := Gen(Engine, t, StoredView(pos), color);
      pushed == if Admitted(g, square, target, piece) then [Candidate(g, square, target, piece)] else []
  {
    ghost var g := Gen(Engine, t, StoredView(pos), color);
    pushed := [];
    var isCapture := target in enemyPieces;
    if isCapture || target !in ourPieces {
      var move := NewMove(square, target, false, piece, color, isCapture);
      assert move == Candidate(g, square, target, piece);
      var inCheck := WouldLeaveKingInCheck(t, pos, move);
      if !inCheck {
        pushed := [move];
      }
    }
  }

  /** The inner loop of one branch of generateMoves: pop the targets in ascending order. */
  method TargetLoop(t: Lookups, pos: Position, color: Color, square: Square, piece: PieceType,
                    targets: set<Square>, ourPieces: set<Square>, enemyPieces: set<Square>)
    returns (found: seq<Move>)
    requires KingPresent(Gen(Engine, t, StoredView(pos), color))
    requires ourPieces == Ours(StoredView(pos), color) && enemyPieces == Theirs(StoredView(pos), color)
    ensures found == TargetMoves(Gen(Engine, t, StoredView(pos), color), square, piece, targets)
  {
    ghost var g := Gen(Engine, t, StoredView(pos), color);
    var rest := targets;
    found := [];
    while rest != {}
      invariant found + TargetMoves(g, square, piece, rest) == TargetMoves(g, square, piece, targets)
      decreases |rest|
    {
      var target := Least(rest);
      TargetMovesStep(g, square, piece, rest);
      SeqAssoc(found, if Admitted(g, square, target, piece) then [Candidate(g, square, target, piece)] else [],
               TargetMoves(g, square, piece, rest - {target}));
      rest := rest - {target};
      var pushed := TryTarget(t, pos, color, square, piece, target, ourPieces, enemyPieces);
      found := found + pushed;
    }
  }

  /**
   * The branch generateMoves takes for a square: the first two-colour board
   * holding it, and that piece's target board.
   */
  method Branch(t: Lookups, pos: Position, color: Color, square: Square) returns (piece: PieceType, targets: set<Square>)
    ensures piece == Mover(pos.Snapshot(), square)
    ensures targets == Targets(Gen(Engine, t, StoredView(pos), color), square, piece)
  {
    if square in pos.whitePawns + pos.blackPawns {
      piece := PAWN;
      targets := PawnMoves(square, color, pos.occupiedSquares, pos.whitePieces, pos.blackPieces, pos.enPassantSquare);
    } else if square in pos.whiteKnights + pos.blackKnights {
      piece, targets := KNIGHT, t.knight(square);
    } else if square in pos.whiteBishops + pos.blackBishops {
      piece, targets := BISHOP, t.bishop(square, pos.occupiedSquares);
    } else if square in pos.whiteRooks + pos.blackRooks {
      piece, targets := ROOK, t.rook(square, pos.occupiedSquares);
    } else if square in pos.whiteQueens + pos.blackQueens {
      piece, targets := QUEEN, QueenMoves(t, square, pos.occupiedSquares);
    } else if square in pos.whiteKing + pos.blackKing {
      piece, targets := KING, t.king(square);
    } else {
      piece, targets := NONE, {};
    }
  }

  /**
   * `generateMoves(pos, color)`: pop the mover's squares in ascending order,
   * take the branch of the first two-colour board holding the square, and
   * run its target loop.
   */
  method GenerateMoves(t: Lookups, pos: Position, color: Color) returns (moveList: seq<Move>)
    requires SideOf(pos.Snapshot(), color).king != {}
    ensures moveList == MoveGeneration.GenerateMoves(Gen(Engine, t, StoredView(pos), color))
  {
    ghost var g := Gen(Engine, t, StoredView(pos), color);
    var ourPieces := if color == WHITE then pos.whitePieces else pos.blackPieces;
    var enemyPieces := if color == WHITE then pos.blackPieces else pos.whitePieces;
    var ourPiecesCopy := ourPieces;
    assert KingPresent(g) && g.v.board == pos.Snapshot();
    assert ourPieces == Ours(StoredView(pos), color) && enemyPieces == Theirs(StoredView(pos), color);
    moveList := [];
    while ourPiecesCopy != {}
      invariant moveList + SquareMoves(g, ourPiecesCopy) == MoveGeneration.GenerateMoves(g)
      decreases |ourPiecesCopy|
    {
      var square := Least(ourPiecesCopy);
      SquareMovesStep(g, ourPiecesCopy);
      ghost var tail := SquareMoves(g, ourPiecesCopy - {square});
      ourPiecesCopy := ourPiecesCopy - {square};
      var piece, targets := Branch(t, pos, color, square);
      var found := TargetLoop(t, pos, color, square, piece, targets, ourPieces, enemyPieces);
      SeqAssoc(moveList, found, tail);
      moveList := moveList + found;
    }
  }

  /** `generateCaptures`: the generated moves that capture or promote, in their order. */
  method GenerateCaptures(t: Lookups, pos: Position, color: Color) returns (captures: seq<Move>)
    requires SideOf(pos.Snapshot(), color).king != {}
    ensures captures == Captures(MoveGeneration.GenerateMoves(Gen(Engine, t, StoredView(pos), color)))
  {
    var allMoves := GenerateMoves(t, pos, color);
    captures := Captures(allMoves);
  }
}
