// The api's generateMoves and wouldLeaveKingInCheck
// (api/src/move/movegen.cpp:3-127, 319-323) as loops over an
// ApiPosition.Position, proved to compute MoveGeneration.GenerateMoves for
// the composites the api getters return.

module ApiMovegen {
  import opened Bitboards
  import opened Pieces
  import opened SquareSets
  import opened Boards
  import opened Moves
  import opened MoveRules
  import opened MoveGeneration
  import opened ApiPosition

  /** `wouldLeaveKingInCheck`: the copy-and-move constructor, then isInCheck on the copy. */
  method WouldLeaveKingInCheck(t: Lookups, pos: Position, move: Move) returns (r: bool)
    requires MakeDefined(move) && SideOf(pos.Snapshot(), move.color).king != {}
    ensures r == LeavesKingInCheck(t, pos.Snapshot(), move)
  {
    var tempPos := new Position.AfterMove(pos, move);
    MoveKeepsKing(pos.Snapshot(), move);
    r := InCheck(t, ApiView(tempPos.Snapshot()), move.color);
  }

  /**
   * The body of the inner loop for one target: the own-piece test, the move
   * built with the branch's constructor arguments, and the check test.
   */
  method TryTarget(t: Lookups, pos: Position, color: Color, square: Square, piece: PieceType, target: Square,
                   ourPieces: set<Square>, enemyPieces: set<Square>)
    returns (pushed: seq<Move>)
    requires KingPresent(Gen(Api, t, ApiView(pos.Snapshot()), color))
    requires ourPieces == Ours(ApiView(pos.Snapshot()), color) && enemyPieces == Theirs(ApiView(pos.Snapshot()), color)
    ensures var g := Gen(Api, t, ApiView(pos.Snapshot()), color);
      pushed == if Admitted(g, square, target, piece) then [Candidate(g, square, target, piece)] else []
  {
    ghost var g := Gen(Api, t, ApiView(pos.Snapshot()), color);
    pushed := [];
    var isCapture := target in enemyPieces;
    if isCapture || target !in ourPieces {
      var move := if piece == PAWN then NewMove(square, target, isCapture, PAWN, color, false)
                  else NewMove(square, target, false, piece, color, isCapture);
      assert move == Candidate(g, square, target, piece);
      var inCheck := WouldLeaveKingInCheck(t, pos, move);
      if !inCheck {
        pushed := [move];
      }
    }
  }

  /** The inner loop of one branch of generateMoves: pop the targets in ascending order. */
  method TargetLoop(t: Lookups, pos: Position, color: Color, square: Square, piece: PieceType,
                    targets: set<Square>, ourPieces: set<Square>, enemyPieces: set<Square>)
    returns (found: seq<Move>)
    requires KingPresent(Gen(Api, t, ApiView(pos.Snapshot()), color))
    requires ourPieces == Ours(ApiView(pos.Snapshot()), color) && enemyPieces == Theirs(ApiView(pos.Snapshot()), color)
    ensures found == TargetMoves(Gen(Api, t, ApiView(pos.Snapshot()), color), square, piece, targets)
  {
    ghost var g := Gen(Api, t, ApiView(pos.Snapshot()), color);
    var rest := targets;
    found := [];
    while rest != {}
      invariant found + TargetMoves(g, square, piece, rest) == TargetMoves(g, square, piece, targets)
      decreases |rest|
    {
      var target := Least(rest);
      TargetMovesStep(g, square, piece, rest);
      SeqAssoc(found, if Admitted(g, square, target, piece) then [Candidate(g, square, target, piece)] else [],
               TargetMoves(g, square, piece, rest - {target}));
      rest := rest - {target};
      var pushed := TryTarget(t, pos, color, square, piece, target, ourPieces, enemyPieces);
      found := found + pushed;
    }
  }

  /**
   * The branch generateMoves takes for a square: the first two-colour board
   * holding it, and that piece's target board.
   */
  method Branch(t: Lookups, pos: Position, color: Color, square: Square) returns (piece: PieceType, targets: set<Square>)
    ensures piece == Mover(pos.Snapshot(), square)
    ensures targets == Targets(Gen(Api, t, ApiView(pos.Snapshot()), color), square, piece)
  {
    if square in pos.whitePawns + pos.blackPawns {
      piece := PAWN;
      targets := PawnMoves(square, color, pos.GetOccupiedSquares(), pos.GetWhitePieces(), pos.GetBlackPieces(), pos.enPassantSquare);
    } else if square in pos.whiteKnights + pos.blackKnights {
      piece, targets := KNIGHT, t.knight(square);
    } else if square in pos.whiteBishops + pos.blackBishops {
      piece, targets := BISHOP, t.bishop(square, pos.GetOccupiedSquares());
    } else if square in pos.whiteRooks + pos.blackRooks {
      piece, targets := ROOK, t.rook(square, pos.GetOccupiedSquares());
    } else if square in pos.whiteQueens + pos.blackQueens {
      piece, targets := QUEEN, QueenMoves(t, square, pos.GetOccupiedSquares());
    } else if square in pos.whiteKing + pos.blackKing {
      piece, targets := KING, t.king(square);
    } else {
      piece, targets := NONE, {};
    }
  }

  /**
   * `generateMoves(pos, color)`: pop the mover's squares in ascending order,
   * take the branch of the first two-colour board holding the square, and
   * run its target loop.
   */
  method GenerateMoves(t: Lookups, pos: Position, color: Color) returns (moveList: seq<Move>)
    requires SideOf(pos.Snapshot(), color).king != {}
    ensures moveList == MoveGeneration.GenerateMoves(Gen(Api, t, ApiView(pos.Snapshot()), color))
  {
    ghost var g := Gen(Api, t, ApiView(pos.Snapshot()), color);
    var ourPieces := if color == WHITE then pos.GetWhitePieces() else pos.GetBlackPieces();
    var enemyPieces := if color == WHITE then pos.GetBlackPieces() else pos.GetWhitePieces();
    var ourPiecesCopy := ourPieces;
    assert KingPresent(g) && g.v.board == pos.Snapshot();
    assert ourPieces == Ours(g.v, color) && enemyPieces == Theirs(g.v, color);
    moveList := [];
    while ourPiecesCopy != {}
      invariant moveList + SquareMoves(g, ourPiecesCopy) == MoveGeneration.GenerateMoves(g)
      decreases |ourPiecesCopy|
    {
      var square := Least(ourPiecesCopy);
      SquareMovesStep(g, ourPiecesCopy);
      ghost var tail := SquareMoves(g, ourPiecesCopy - {square});
      ourPiecesCopy := ourPiecesCopy - {square};
      var piece, targets := Branch(t, pos, color, square);
      var found := TargetLoop(t, pos, color, square, piece, targets, ourPieces, enemyPieces);
      SeqAssoc(moveList, found, tail);
      moveList := moveList + found;
    }
  }

  /** `generateCaptures`: the generated moves that capture or promote, in their order. */
  method GenerateCaptures(t: Lookups, pos: Position, color: Color) returns (captures: seq<Move>)
    requires SideOf(pos.Snapshot(), color).king != {}
    ensures captures == Captures(MoveGeneration.GenerateMoves(Gen(Api, t, ApiView(pos.Snapshot()), color)))
  {
    var allMoves := GenerateMoves(t, pos, color);
    captures := Captures(allMoves);
  }
}
