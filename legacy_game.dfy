// The global state of chess.cpp (its twelve piece boards, four derived
// boards and castling flags) as a class, with the functions of that file
// that read or write it and main's input loop as a method over its input.

module LegacyGame {
  import opened Bitboards
  import opened Pieces
  import opened SquareSets
  import opened Boards
  import opened MoveGeneration
  import opened LegacyRules

  class Game {
    var whitePawns: set<Square>
    var whiteKnights: set<Square>
    var whiteBishops: set<Square>
    var whiteRooks: set<Square>
    var whiteQueens: set<Square>
    var whiteKing: set<Square>
    var blackPawns: set<Square>
    var blackKnights: set<Square>
    var blackBishops: set<Square>
    var blackRooks: set<Square>
    var blackQueens: set<Square>
    var blackKing: set<Square>
    var occupiedSquares: set<Square>
    var whitePieces: set<Square>
    var blackPieces: set<Square>
    var emptySquares: set<Square>
    var castlingRights: CastlingRights

    /** The twelve piece boards as a Board. */
    function Snapshot(): Board
      reads this
    {
      Board(Side(whitePawns, whiteKnights, whiteBishops, whiteRooks, whiteQueens, whiteKing),
            Side(blackPawns, blackKnights, blackBishops, blackRooks, blackQueens, blackKing), 0, -1)
    }

    /** The derived boards are the unions of the piece boards, and the empty squares their complement. */
    predicate CompositesAgree()
      reads this
    {
      whitePieces == PiecesOf(Snapshot().white) && blackPieces == PiecesOf(Snapshot().black) &&
      occupiedSquares == Occupied(Snapshot()) && emptySquares == EmptySquares(Snapshot())
    }

    /** The boards and the stored composites, as the move functions read them. */
    function StoredView(): (v: View)
      reads this
      ensures v.board == Snapshot()
      ensures CompositesAgree() ==> v == ApiView(Snapshot())
    {
      View(Snapshot(), whitePieces, blackPieces, occupiedSquares)
    }

    /** The globals before main runs: every board zero, every castling flag true. */
    constructor ()
      ensures Snapshot() == Plain(Side({}, {}, {}, {}, {}, {}), Side({}, {}, {}, {}, {}, {}))
      ensures whitePieces == {} && blackPieces == {} && occupiedSquares == {} && emptySquares == {}
      ensures castlingRights == CastlingRights(true, true, true, true)
    {
      whitePawns, whiteKnights, whiteBishops, whiteRooks, whiteQueens, whiteKing := {}, {}, {}, {}, {}, {};
      blackPawns, blackKnights, blackBishops, blackRooks, blackQueens, blackKing := {}, {}, {}, {}, {}, {};
      occupiedSquares, whitePieces, blackPieces, emptySquares := {}, {}, {}, {};
      castlingRights := CastlingRights(true, true, true, true);
    }

    /** `initializeBitboards`: the start position and its derived boards; the castling flags are not reset. */
    method InitializeBitboards()
      modifies this
      ensures Snapshot() == StartBoard(0, -1)
      ensures CompositesAgree()
      ensures castlingRights == old(castlingRights)
    {
      // The reset to zero is overwritten below: every board is assigned.
      var whitePawnRank := SetBits(8, 16);
      var blackPawnRank := SetBits(48, 56);
      SetWhite(Side(whitePawnRank, {1, 6}, {2, 5}, {0, 7}, {3}, {4}));
      SetBlack(Side(blackPawnRank, {57, 62}, {58, 61}, {56, 63}, {59}, {60}));
      assert Snapshot() == StartBoard(0, -1);
      UpdateComposites();
    }

    /** A `for (int i = lo; i < hi; ++i) board = setBit(board, i);` loop from the empty board. */
    static method SetBits(lo: Square, hi: int) returns (board: set<Square>)
      requires lo <= hi <= 64
      ensures board == Range(lo, hi)
    {
      board := {};
      for i := lo to hi
        invariant board == Range(lo, i)
      {
        RangeExtend(lo, i);
        board := board + {i};
      }
    }

    /** The six boards of one colour replaced. */
    method SetSide(c: Color, x: Side)
      modifies this`whitePawns, this`whiteKnights, this`whiteBishops, this`whiteRooks, this`whiteQueens, this`whiteKing
      modifies this`blackPawns, this`blackKnights, this`blackBishops, this`blackRooks, this`blackQueens, this`blackKing
      ensures Snapshot() == WithSide(old(Snapshot()), c, x)
    {
      if c == WHITE {
        SetWhite(x);
      } else {
        SetBlack(x);
      }
    }

    method SetWhite(x: Side)
      modifies this`whitePawns, this`whiteKnights, this`whiteBishops, this`whiteRooks, this`whiteQueens, this`whiteKing
      ensures Snapshot() == old(Snapshot()).(white := x)
    {
      whitePawns, whiteKnights, whiteBishops, whiteRooks, whiteQueens, whiteKing :=
        x.pawns, x.knights, x.bishops, x.rooks, x.queens, x.king;
    }

    method SetBlack(x: Side)
      modifies this`blackPawns, this`blackKnights, this`blackBishops, this`blackRooks, this`blackQueens, this`blackKing
      ensures Snapshot() == old(Snapshot()).(black := x)
    {
      blackPawns, blackKnights, blackBishops, blackRooks, blackQueens, blackKing :=
        x.pawns, x.knights, x.bishops, x.rooks, x.queens, x.king;
    }

    /** The "update derivable bitboards" block of initializeBitboards and updateBitboards. */
    method UpdateComposites()
      modifies this
      ensures Snapshot() == old(Snapshot()) && castlingRights == old(castlingRights)
      ensures CompositesAgree()
    {
      var before := Snapshot();
      var w := PiecesOf(before.white);
      var k := PiecesOf(before.black);
      var occupied := w + k;
      var empty := Range(0, 64) - occupied;
      assert occupied == Occupied(before) && empty == EmptySquares(before);
      whitePieces, blackPieces, occupiedSquares, emptySquares := w, k, occupied, empty;
      assert Snapshot() == before;
    }

    /** One arm of the `switch (move.pieceType)` blocks: the board of that colour and type replaced. */
    method SetPieceBoard(c: Color, p: PieceType, v: set<Square>)
      requires IsRealPiece(p)
      modifies this`whitePawns, this`whiteKnights, this`whiteBishops, this`whiteRooks, this`whiteQueens, this`whiteKing
      modifies this`blackPawns, this`blackKnights, this`blackBishops, this`blackRooks, this`blackQueens, this`blackKing
      ensures Snapshot() == WithSide(old(Snapshot()), c, WithPieceBoard(SideOf(old(Snapshot()), c), p, v))
    {
      SetSide(c, WithPieceBoard(SideOf(Snapshot(), c), p, v));
    }

    /**
     * The capture block of updateBitboards on the boards of colour c: each
     * non-king board that holds the square loses it.
     */
    method ClearTarget(c: Color, s: Square)
      modifies this`whitePawns, this`whiteKnights, this`whiteBishops, this`whiteRooks, this`whiteQueens, this`whiteKing
      modifies this`blackPawns, this`blackKnights, this`blackBishops, this`blackRooks, this`blackQueens, this`blackKing
      ensures Snapshot() == WithSide(old(Snapshot()), c, ClearNonKing(SideOf(old(Snapshot()), c), s))
    {
      var x := SideOf(Snapshot(), c);
      var pawns, knights, bishops, rooks, queens := x.pawns, x.knights, x.bishops, x.rooks, x.queens;
      if s in pawns { pawns := pawns - {s}; }
      if s in knights { knights := knights - {s}; }
      if s in bishops { bishops := bishops - {s}; }
      if s in rooks { rooks := rooks - {s}; }
      if s in queens { queens := queens - {s}; }
      SetSide(c, Side(pawns, knights, bishops, rooks, queens, x.king));
    }

    /**
     * `updateBitboards(move)`: the capture test reads the stored enemy
     * composite as it was before the call; the derived boards are
     * recomputed at the end.
     */
    method UpdateBitboards(m: LegacyMove)
      modifies this
      ensures Snapshot() == Updated(old(Snapshot()), if m.color == WHITE then old(blackPieces) else old(whitePieces), m)
      ensures CompositesAgree()
      ensures castlingRights == old(castlingRights)
    {
      ghost var b := Snapshot();
      ghost var enemy := if m.color == WHITE then blackPieces else whitePieces;
      if IsRealPiece(m.pieceType) {
        SetPieceBoard(m.color, m.pieceType, PieceBoard(SideOf(Snapshot(), m.color), m.pieceType) - {m.fromSquare});
      }
      ghost var b1 := Snapshot();
      assert b1 == WithSide(b, m.color, Touch(SideOf(b, m.color), m.pieceType, m.fromSquare, false));
      if m.color == WHITE && m.toSquare in blackPieces {
        ClearTarget(BLACK, m.toSquare);
      } else if m.color == BLACK && m.toSquare in whitePieces {
        ClearTarget(WHITE, m.toSquare);
      }
      ghost var b2 := Snapshot();
      assert b2 == if m.toSquare in enemy then WithSide(b1, InvertColor(m.color), ClearNonKing(SideOf(b1, InvertColor(m.color)), m.toSquare)) else b1;
      if IsRealPiece(m.pieceType) {
        SetPieceBoard(m.color, m.pieceType, PieceBoard(SideOf(Snapshot(), m.color), m.pieceType) + {m.toSquare});
      }
      assert Snapshot() == WithSide(b2, m.color, Touch(SideOf(b2, m.color), m.pieceType, m.toSquare, true));
      UpdateComposites();
    }

    /** The offset loop shared by getKnightMoves and getKingMoves. */
    static method Jumps(square: Square, offsets: seq<(int, int)>) returns (moves: set<Square>)
      ensures moves == Reached(square, offsets)
    {
      moves := {};
      var rank, file := square / 8, square % 8;
      for i := 0 to |offsets|
        invariant moves == Reached(square, offsets[..i])
      {
        assert offsets[..i + 1][..i] == offsets[..i];
        var newRank, newFile := rank + offsets[i].0, file + offsets[i].1;
        if newRank >= 0 && newRank < 8 && newFile >= 0 && newFile < 8 {
          moves := moves + {newRank * 8 + newFile};
        }
      }
      assert offsets[..|offsets|] == offsets;
    }

    /** `getKnightMoves(square)`: the on-board squares a knight's jump away. */
    static method GetKnightMoves(square: Square) returns (moves: set<Square>)
      ensures moves == Reached(square, KnightOffsets)
      ensures forall t: Square :: t in moves <==> KnightJump(square, t)
    {
      moves := Jumps(square, KnightOffsets);
      forall t: Square
        ensures t in moves <==> KnightJump(square, t)
      {
        KnightMovesGeometry(square, t);
      }
    }

    /** `getKingMoves(square)`: the on-board neighbours of the square. */
    static method GetKingMoves(square: Square) returns (moves: set<Square>)
      ensures moves == Reached(square, KingOffsets)
      ensures forall t: Square :: t in moves <==> KingStep(square, t)
    {
      moves := Jumps(square, KingOffsets);
      forall t: Square
        ensures t in moves <==> KingStep(square, t)
      {
        KingMovesGeometry(square, t);
      }
    }

    /** `getPawnMoves(square, color, occupied)`: pushes and captures, the captures read from the stored composites. */
    function GetPawnMoves(square: Square, color: Color, occupied: set<Square>): (r: set<Square>)
      reads this
      ensures forall t: Square :: t in r <==> PawnStep(square, color, occupied, if color == WHITE then blackPieces else whitePieces, -1, t)
    {
      var moves := LegacyPawnMoves(square, color, occupied, whitePieces, blackPieces);
      assert forall t: Square :: t in moves <==> PawnStep(square, color, occupied, if color == WHITE then blackPieces else whitePieces, -1, t) by {
        forall t: Square {
          LegacyPawnGeometry(square, color, occupied, whitePieces, blackPieces, t);
        }
      }
      moves
    }

    /** `isSquareAttacked(square, attackingColor)`, with the knight and king sets computed by the loops above. */
    method IsSquareAttacked(t: Lookups, square: Square, attacker: Color) returns (r: bool)
      ensures r == LegacyAttacked(LegacyLookups(t.rook, t.bishop), square, attacker, StoredView())
    {
      var occupied := whitePieces + blackPieces;
      var x := SideOf(Snapshot(), attacker);
      if LegacyPawnAttack(square, attacker, x.pawns) {
        return true;
      }
      var knightAttacks := GetKnightMoves(square);
      if knightAttacks * x.knights != {} {
        return true;
      }
      if t.bishop(square, occupied) * (x.bishops + x.queens) != {} {
        return true;
      }
      if t.rook(square, occupied) * (x.rooks + x.queens) != {} {
        return true;
      }
      var kingAttacks := GetKingMoves(square);
      return kingAttacks * x.king != {};
    }

    /**
     * `isInCheck(color)`: the lowest square of the king board, then the
     * attack test. A missing king leaves the square at -1, an index
     * outside the magic tables, so the king is required.
     */
    method IsInCheck(t: Lookups, color: Color) returns (r: bool)
      requires SideOf(Snapshot(), color).king != {}
      ensures r == LegacyAttacked(LegacyLookups(t.rook, t.bishop), Least(SideOf(Snapshot(), color).king), InvertColor(color), StoredView())
    {
      var kingBB := if color == WHITE then whiteKing else blackKing;
      ghost var k := Least(kingBB);
      var kingSquare: int := -1;
      var sq: int := 0;
      while sq < 64
        invariant 0 <= sq <= 64 && sq - 1 <= k
        invariant kingSquare == -1 ==> sq <= k && forall s: Square :: s < sq ==> s !in kingBB
        invariant kingSquare != -1 ==> kingSquare == k
        invariant kingSquare != -1 ==> sq == 64
      {
        if sq in kingBB {
          kingSquare := sq;
          break;
        }
        sq := sq + 1;
      }
      r := IsSquareAttacked(t, kingSquare, InvertColor(color));
    }

    /** Three `!isSquareAttacked` tests joined by `&&`: none of the squares is attacked. */
    method Unattacked(t: Lookups, a: Square, b: Square, c: Square, attacker: Color) returns (safe: bool)
      ensures safe == (!LegacyAttacked(LegacyLookups(t.rook, t.bishop), a, attacker, StoredView()) &&
                       !LegacyAttacked(LegacyLookups(t.rook, t.bishop), b, attacker, StoredView()) &&
                       !LegacyAttacked(LegacyLookups(t.rook, t.bishop), c, attacker, StoredView()))
    {
      safe := false;
      var x := IsSquareAttacked(t, a, attacker);
      if !x {
        var y := IsSquareAttacked(t, b, attacker);
        if !y {
          var z := IsSquareAttacked(t, c, attacker);
          safe := !z;
        }
      }
    }

    /** `getCastlingMoves(color, occupied)`, reading the castling flags. */
    method GetCastlingMoves(t: Lookups, color: Color, occupied: set<Square>) returns (moves: set<Square>)
      ensures moves == LegacyCastlingMoves(LegacyLookups(t.rook, t.bishop), castlingRights, color, occupied, StoredView())
    {
      var kingside := CastlingBlock(t, color, true, occupied);
      var queenside := CastlingBlock(t, color, false, occupied);
      moves := kingside + queenside;
    }

    /** One block of getCastlingMoves. */
    method CastlingBlock(t: Lookups, color: Color, kingside: bool, occupied: set<Square>) returns (moves: set<Square>)
      ensures moves == WingMoves(LegacyLookups(t.rook, t.bishop), castlingRights, color, kingside, occupied, StoredView())
    {
      moves := {};
      var safe := false;
      if color == WHITE {
        if kingside {
          if castlingRights.whiteKingside && 5 !in occupied && 6 !in occupied {
            safe := Unattacked(t, 4, 5, 6, BLACK);
            if safe { moves := {6}; }
          }
        } else if castlingRights.whiteQueenside && 1 !in occupied && 2 !in occupied && 3 !in occupied {
          safe := Unattacked(t, 4, 3, 2, BLACK);
          if safe { moves := {2}; }
        }
      } else {
        if kingside {
          if castlingRights.blackKingside && 61 !in occupied && 62 !in occupied {
            safe := Unattacked(t, 60, 61, 62, WHITE);
            if safe { moves := {62}; }
          }
        } else if castlingRights.blackQueenside && 57 !in occupied && 58 !in occupied && 59 !in occupied {
          safe := Unattacked(t, 60, 59, 58, WHITE);
          if safe { moves := {58}; }
        }
      }
    }

    /**
     * The piece dispatch shared by main and `displayLegalMoves` (whose
     * drawing of the board is not modelled): the detected piece's move set
     * minus the mover's own pieces.
     */
    method DisplayLegalMoves(t: Lookups, square: Square, color: Color) returns (moves: set<Square>)
      ensures moves == LegalTargets(LegacyLookups(t.rook, t.bishop), StoredView(), color, square)
    {
      var ownPieces := if color == WHITE then whitePieces else blackPieces;
      moves := PieceMoves(t, square, color);
      moves := moves - ownPieces;
    }

    /** The `if (getBit(whitePawns | blackPawns, square)) ... else if` chain. */
    method PieceMoves(t: Lookups, square: Square, color: Color) returns (moves: set<Square>)
      ensures moves == PieceMoveSet(LegacyLookups(t.rook, t.bishop), StoredView(), color, square)
    {
      var occupied := whitePieces + blackPieces;
      moves := {};
      if square in whitePawns + blackPawns {
        moves := GetPawnMoves(square, color, occupied);
      } else if square in whiteRooks + blackRooks {
        moves := t.rook(square, occupied);
      } else if square in whiteBishops + blackBishops {
        moves := t.bishop(square, occupied);
      } else if square in whiteQueens + blackQueens {
        moves := t.rook(square, occupied) + t.bishop(square, occupied);
      } else if square in whiteKnights + blackKnights {
        moves := GetKnightMoves(square);
      } else if square in whiteKing + blackKing {
        moves := GetKingMoves(square);
      }
    }

    /**
     * main's castling block: the rook beside the king and both of the
     * side's flags cleared, for a king move from e1/e8 to g or c.
     */
    method CastlingInMain(m: LegacyMove) returns (r: LegacyMove)
      modifies this`whiteRooks, this`blackRooks, this`castlingRights
      ensures (Snapshot(), castlingRights, r) == CastleStep(old(Snapshot()), old(castlingRights), m)
    {
      r := m;
      if m.pieceType == KING {
        if m.color == WHITE {
          if m.fromSquare == 4 && m.toSquare == 6 {
            r := r.(isCastling := true, castlingType := KINGSIDE);
            whiteRooks := whiteRooks - {7} + {5};
            castlingRights := castlingRights.(whiteKingside := false, whiteQueenside := false);
          } else if m.fromSquare == 4 && m.toSquare == 2 {
            r := r.(isCastling := true, castlingType := QUEENSIDE);
            whiteRooks := whiteRooks - {0} + {3};
            castlingRights := castlingRights.(whiteKingside := false, whiteQueenside := false);
          }
        } else {
          if m.fromSquare == 60 && m.toSquare == 62 {
            r := r.(isCastling := true, castlingType := KINGSIDE);
            blackRooks := blackRooks - {63} + {61};
            castlingRights := castlingRights.(blackKingside := false, blackQueenside := false);
          } else if m.fromSquare == 60 && m.toSquare == 58 {
            r := r.(isCastling := true, castlingType := QUEENSIDE);
            blackRooks := blackRooks - {56} + {59};
            castlingRights := castlingRights.(blackKingside := false, blackQueenside := false);
          }
        }
      }
    }

    /**
     * The part of main's loop body after a well-formed move line: ownership,
     * piece detection, the legality test, the capture flag, the castling
     * and promotion blocks, updateBitboards and the change of player.
     */
    method TryMove(t: Lookups, from: Square, to: Square, choice: char, ctl: Control) returns (next: Control, reply: Reply)
      requires CompositesAgree()
      modifies this
      ensures var s := MoveTurn(LegacyLookups(t.rook, t.bishop), old(Snapshot()), old(castlingRights), ctl, from, to, choice);
        Snapshot() == s.board && castlingRights == s.rights && next == s.ctl && reply == s.reply
      ensures CompositesAgree()
    {
      var c := ctl.player;
      var m := ctl.current.(fromSquare := from, toSquare := to, color := c);
      var ownPieces := if c == WHITE then whitePieces else blackPieces;
      if from !in ownPieces {
        return ctl.(current := m), NotOwnPiece;
      }
      var piece := LegacyMover(Snapshot(), from);
      if piece != NONE {
        m := m.(pieceType := piece);
      }
      var legalMoves := PieceMoves(t, from, c);
      legalMoves := legalMoves - ownPieces;
      if to !in legalMoves {
        return ctl.(current := m), IllegalMove;
      }
      var opponentPieces := if c == WHITE then blackPieces else whitePieces;
      m := m.(isCapture := to in opponentPieces);
      next, reply := CommitMove(m, choice);
    }

    /** The castling block, the promotion block, updateBitboards and the change of player. */
    method CommitMove(m: LegacyMove, choice: char) returns (next: Control, reply: Reply)
      requires CompositesAgree()
      modifies this
      ensures var s := Commit(old(Snapshot()), old(castlingRights), m, choice, Theirs(ApiView(old(Snapshot())), m.color));
        Snapshot() == s.board && castlingRights == s.rights && next == s.ctl && reply == s.reply
      ensures CompositesAgree()
    {
      ghost var enemy := Theirs(ApiView(Snapshot()), m.color);
      assert enemy == if m.color == WHITE then blackPieces else whitePieces;
      var r := CastlingInMain(m);
      r := PromotionStep(r, choice);
      UpdateBitboards(r);
      next, reply := Control(InvertColor(m.color), r, false), Moved(r);
    }

    /** One pass of main's loop body on one line of input. */
    method HandleLine(t: Lookups, input: Input, ctl: Control) returns (next: Control, reply: Reply)
      requires CompositesAgree()
      modifies this
      ensures var s := Turn(LegacyLookups(t.rook, t.bishop), old(Snapshot()), old(castlingRights), ctl, input);
        Snapshot() == s.board && castlingRights == s.rights && next == s.ctl && reply == s.reply
      ensures CompositesAgree()
    {
      next := ctl;
      match ParseLine(input.line)
      case QuitLine =>
        next, reply := ctl.(gameOver := true), Quit;
      case MovesBadFormat =>
        reply := MovesFormatError;
      case MovesBadSquare =>
        reply := MovesSquareError;
      case MovesQuery(square) =>
        var moves := DisplayLegalMoves(t, square, ctl.player);
        reply := ShowMoves(square, moves);
      case BadFormat =>
        reply := MoveFormatError;
      case BadCoordinates =>
        reply := CoordinatesError;
      case MoveText(from, to) =>
        next, reply := TryMove(t, from, to, input.choice, ctl);
    }

    /**
     * main: initializeBitboards, then one pass of the loop per line until
     * `quit` (the magic tables that initializeMagicBitboards builds are
     * the lookups t). The replies are what main prints back, in order.
     */
    method Play(t: Lookups, inputs: seq<Input>) returns (replies: seq<Reply>)
      modifies this
      ensures var o := Session(LegacyLookups(t.rook, t.bishop), StartBoard(0, -1), old(castlingRights), StartControl, inputs);
        Snapshot() == o.board && castlingRights == o.rights && replies == o.replies
      ensures CompositesAgree()
    {
      InitializeBitboards();
      ghost var L := LegacyLookups(t.rook, t.bishop);
      ghost var final := Session(L, Snapshot(), castlingRights, StartControl, inputs);
      var ctl := StartControl;
      replies := [];
      var i := 0;
      while !ctl.gameOver && i < |inputs|
        invariant 0 <= i <= |inputs| && CompositesAgree()
        invariant var o := Session(L, Snapshot(), castlingRights, ctl, inputs[i..]);
          o.board == final.board && o.rights == final.rights && replies + o.replies == final.replies
      {
        assert inputs[i..][0] == inputs[i] && inputs[i..][1..] == inputs[i + 1..];
        ghost var next := Turn(L, Snapshot(), castlingRights, ctl, inputs[i]);
        SessionStays(L, Snapshot(), castlingRights, ctl, inputs[i..], replies, final, next);
        var reply;
        ctl, reply := HandleLine(t, inputs[i], ctl);
        assert Snapshot() == next.board && castlingRights == next.rights && ctl == next.ctl && reply == next.reply;
        replies := replies + [reply];
        i := i + 1;
      }
      assert replies == final.replies;
    }
  }
}
