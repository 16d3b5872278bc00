// Move ordering (api/src/engine-related/prioritization.cpp): the moves are
// sorted by a priority made of the transposition-table move, the two killer
// moves of the ply, the history counter and MVV-LVA for captures.  The
// source compares two moves by scoring both inside the comparator; Key is
// that score for one move, and BeforeIsKeyOrder shows the comparator is the
// order of Key whenever both moves are on the board.  std::sort's algorithm
// is not specified, so SortMoves sorts by insertion.  The history counters
// are read once into HistoryRow before sorting: nothing changes them while
// the sort runs, so every comparison sees the same values.

module Prioritization {
  import opened Options
  import opened Pieces
  import opened Moves
  import opened Zobrist
  import Evaluation
  import Transposition
  import Killers
  import History
  import ApiPosition

  const TTBonus := 10000
  const FirstKillerBonus := 9000
  const SecondKillerBonus := 8000

  /** MVV-LVA: a hundred times the victim's value less the attacker's, for captures only. */
  function CaptureScore(m: Move): (r: int)
    ensures !m.isCapture ==> r == 0
    ensures m.isCapture ==>
      r == 100 * Evaluation.PieceValue(m.capturedPieceType) - Evaluation.PieceValue(m.pieceType)
  {
    if m.isCapture then 100 * Evaluation.PieceValue(m.capturedPieceType) - Evaluation.PieceValue(m.pieceType)
    else 0
  }

  /** The part of a move's score that does not depend on the other move being compared. */
  function Base(m: Move, ttMove: Move, k: Killers.Slots): int
  {
    (if m == ttMove then TTBonus else 0) +
    (if m == k.first then FirstKillerBonus else 0) +
    (if m == k.second then SecondKillerBonus else 0) +
    CaptureScore(m)
  }

  /** The history counter of a move on the board for the side to move. */
  function HistoryOf(m: Move, history: History.HistoryTable, color: Color): int
    reads history, history.cells
    requires history.Shaped() && OnBoard(m)
  {
    history.cells[History.ColorIndex(color), m.fromSquare, m.toSquare]
  }

  /** The side's 64 x 64 counters, row by row. */
  function HistoryRow(history: History.HistoryTable, color: Color): (r: seq<int>)
    reads history, history.cells
    requires history.Shaped()
    ensures |r| == 4096
    ensures forall m :: OnBoard(m) ==> r[64 * m.fromSquare + m.toSquare] == HistoryOf(m, history, color)
  {
    seq(4096, n requires 0 <= n < 4096 reads history.cells =>
      history.cells[History.ColorIndex(color), n / 64, n % 64])
  }

  /** The priority of one move: Base plus its history counter when its squares are on the board. */
  function Key(m: Move, ttMove: Move, k: Killers.Slots, row: seq<int>): int
  {
    Base(m, ttMove, k) + (if OnBoard(m) && |row| == 4096 then row[64 * m.fromSquare + m.toSquare] else 0)
  }

  /** Key as a function value, for the sort. */
  function KeyOf(ttMove: Move, k: Killers.Slots, row: seq<int>): Move -> int
  {
    (m: Move) => Key(m, ttMove, k, row)
  }

  /**
   * The comparator lambda: both scores are built side by side, and the
   * history counters are added only when all four squares are on the board.
   */
  predicate Before(a: Move, b: Move, ttMove: Move, k: Killers.Slots, history: History.HistoryTable, color: Color)
    reads history, history.cells
    requires history.Shaped()
  {
    var both := OnBoard(a) && OnBoard(b);
    var scoreA := Base(a, ttMove, k) + (if both then HistoryOf(a, history, color) else 0);
    var scoreB := Base(b, ttMove, k) + (if both then HistoryOf(b, history, color) else 0);
    scoreA > scoreB
  }

  /** For moves on the board the comparator orders by Key, so it is a strict weak ordering there. */
  lemma BeforeIsKeyOrder(a: Move, b: Move, ttMove: Move, k: Killers.Slots, history: History.HistoryTable, color: Color)
    requires history.Shaped() && OnBoard(a) && OnBoard(b)
    ensures var row := HistoryRow(history, color);
      Before(a, b, ttMove, k, history, color) <==> Key(a, ttMove, k, row) > Key(b, ttMove, k, row)
  {
  }

  /**
   * With equal history counters and no capture, the transposition-table
   * move comes before any other move, provided the two killer slots differ.
   */
  lemma TTMoveFirst(a: Move, b: Move, ttMove: Move, k: Killers.Slots, history: History.HistoryTable, color: Color)
    requires history.Shaped() && OnBoard(a) && OnBoard(b)
    requires a == ttMove && b != ttMove && k.first != k.second
    requires !a.isCapture && !b.isCapture && HistoryOf(a, history, color) == HistoryOf(b, history, color)
    ensures Before(a, b, ttMove, k, history, color)
  {
  }

  /** Under the same conditions, the first killer comes before the second. */
  lemma FirstKillerBeforeSecond(a: Move, b: Move, ttMove: Move, k: Killers.Slots, history: History.HistoryTable, color: Color)
    requires history.Shaped() && OnBoard(a) && OnBoard(b)
    requires a == k.first && b == k.second && a != b && a != ttMove && b != ttMove
    requires !a.isCapture && !b.isCapture && HistoryOf(a, history, color) == HistoryOf(b, history, color)
    ensures Before(a, b, ttMove, k, history, color)
  {
  }

  /** A sequence of moves in non-increasing key order. */
  predicate Descending(s: seq<Move>, key: Move -> int)
  {
    forall i, j :: 0 <= i < j < |s| ==> key(s[i]) >= key(s[j])
  }

  /** In a sequence sorted by Key, the comparator never puts a later move on the board before an earlier one. */
  lemma SortedRespectsComparator(s: seq<Move>, ttMove: Move, k: Killers.Slots, history: History.HistoryTable, color: Color)
    requires history.Shaped() && Descending(s, KeyOf(ttMove, k, HistoryRow(history, color)))
    ensures forall i, j :: 0 <= i < j < |s| && OnBoard(s[i]) && OnBoard(s[j]) ==>
      !Before(s[j], s[i], ttMove, k, history, color)
  {
    forall i, j | 0 <= i < j < |s| && OnBoard(s[i]) && OnBoard(s[j])
      ensures !Before(s[j], s[i], ttMove, k, history, color)
    {
      BeforeIsKeyOrder(s[j], s[i], ttMove, k, history, color);
    }
  }

  /** `probeTT(hash, 0, -INF, INF)`'s best move, or the default move when the probe fails. */
  function TTBestMove(tt: Transposition.TranspositionTable, hash: nat, inf: int): (r: Move)
    reads tt
    ensures hash in tt.table && Transposition.Usable(tt.table[hash], 0, -inf, inf) ==> r == tt.table[hash].bestMove
    ensures !(hash in tt.table && Transposition.Usable(tt.table[hash], 0, -inf, inf)) ==> r == DefaultMove()
  {
    match tt.ProbeTT(hash, 0, -inf, inf)
    case Some(e) => e.bestMove
    case None => DefaultMove()
  }

  /**
   * `sortMoves`: afterwards the moves are a permutation of the input in
   * non-increasing priority, and the result is 0.  The position's hash is
   * computed once; the source recomputes the same value on every comparison.
   */
  method SortMoves(moves: array<Move>, pos: ApiPosition.Position, z: Tables, ply: int, color: Color,
                   tt: Transposition.TranspositionTable, killers: Killers.KillerTable,
                   history: History.HistoryTable, inf: int)
      returns (r: int)
    requires WellShaped(z) && Hashable(pos.Snapshot())
    requires killers.slots.Length0 == Killers.MaxPly && killers.slots.Length1 == 2 && 0 <= ply < Killers.MaxPly
    requires history.Shaped()
    modifies moves
    ensures r == 0
    ensures Descending(moves[..], KeyOf(TTBestMove(tt, BoardHash(pos.Snapshot(), z), inf), killers.At(ply),
                                        HistoryRow(history, color)))
    ensures multiset(moves[..]) == multiset(old(moves[..]))
  {
    var hash := pos.ComputeHash(z);
    var ttMove := TTBestMove(tt, hash, inf);
    var k := killers.At(ply);
    var row := HistoryRow(history, color);
    SortByKey(moves, KeyOf(ttMove, k, row));
    r := 0;
  }

  /** Insertion sort into non-increasing key order. */
  method SortByKey(moves: array<Move>, key: Move -> int)
    modifies moves
    ensures Descending(moves[..], key)
    ensures multiset(moves[..]) == multiset(old(moves[..]))
  {
    var i := 0;
    while i < moves.Length
      invariant 0 <= i <= moves.Length
      invariant Descending(moves[..i], key)
      invariant multiset(moves[..]) == multiset(old(moves[..]))
    {
      Insert(moves, i, key);
      i := i + 1;
    }
  }

  /**
   * The state of an insertion: the first i + 1 moves are in key order
   * except for the move at j, which is still on its way down.
   */
  predicate Inserting(s: seq<Move>, j: int, i: int, key: Move -> int)
  {
    0 <= j <= i < |s| &&
    forall a, b :: 0 <= a < b <= i && b != j ==> key(s[a]) >= key(s[b])
  }

  /** One swap moves the travelling move a place down and keeps the rest in order. */
  lemma SwapStep(s: seq<Move>, j: int, i: int, key: Move -> int)
    requires Inserting(s, j, i, key) && j > 0 && key(s[j - 1]) < key(s[j])
    ensures Inserting(s[j - 1 := s[j]][j := s[j - 1]], j - 1, i, key)
    ensures multiset(s[j - 1 := s[j]][j := s[j - 1]]) == multiset(s)
  {
  }

  /** Once the travelling move is no higher than its predecessor, the prefix is in order. */
  lemma Inserted(s: seq<Move>, j: int, i: int, key: Move -> int)
    requires Inserting(s, j, i, key) && (j == 0 || key(s[j - 1]) >= key(s[j]))
    ensures Descending(s[..i + 1], key)
  {
  }

  /** Moves `moves[i]` down into the sorted prefix `moves[..i]` by adjacent swaps. */
  method Insert(moves: array<Move>, i: int, key: Move -> int)
    requires 0 <= i < moves.Length && Descending(moves[..i], key)
    modifies moves
    ensures Descending(moves[..i + 1], key)
    ensures multiset(moves[..]) == multiset(old(moves[..]))
  {
    var j := i;
    while j > 0 && key(moves[j - 1]) < key(moves[j])
      invariant Inserting(moves[..], j, i, key)
      invariant multiset(moves[..]) == multiset(old(moves[..]))
    {
      ghost var s := moves[..];
      SwapStep(s, j, i, key);
      moves[j - 1], moves[j] := moves[j], moves[j - 1];
      assert moves[..] == s[j - 1 := s[j]][j := s[j - 1]];
      j := j - 1;
    }
    Inserted(moves[..], j, i, key);
  }
}
