// Move-path enumeration (chess_engine/src/perft.cpp): perft counts the leaf
// nodes of the game tree to a given depth, and parallelPerft splits the
// root moves into contiguous chunks, one per thread, and sums the chunks'
// counts.  The position type, the move generator and the function that
// plays a move on a copy of the position are parameters: the source calls
// `updatePosition`, which position.h does not declare.

module Perft {
  import opened Options
  import opened Pieces
  import opened Moves

  /** The number of leaf nodes `depth` plies below `pos`, `color` to move. */
  function PerftCount<P>(pos: P, depth: nat, color: Color, gen: (P, Color) -> seq<Move>, next: (P, Move) -> P): nat
    decreases depth, 1
  {
    if depth == 0 then 1 else ChildrenCount(pos, gen(pos, color), depth, color, gen, next)
  }

  /** The sum of PerftCount one ply lower over the positions the moves lead to. */
  function ChildrenCount<P>(pos: P, moves: seq<Move>, depth: nat, color: Color,
                            gen: (P, Color) -> seq<Move>, next: (P, Move) -> P): nat
    requires depth > 0
    decreases depth, 0, |moves|
  {
    if moves == [] then 0
    else ChildrenCount(pos, moves[..|moves| - 1], depth, color, gen, next) +
         PerftCount(next(pos, moves[|moves| - 1]), depth - 1, InvertColor(color), gen, next)
  }

  /** The count over a concatenation of move lists is the sum of the counts, so any split into chunks adds up. */
  lemma {:induction false} ChildrenAppend<P>(pos: P, a: seq<Move>, b: seq<Move>, depth: nat, color: Color,
                                             gen: (P, Color) -> seq<Move>, next: (P, Move) -> P)
    requires depth > 0
    ensures ChildrenCount(pos, a + b, depth, color, gen, next) ==
            ChildrenCount(pos, a, depth, color, gen, next) + ChildrenCount(pos, b, depth, color, gen, next)
    decreases |b|
  {
    if b == [] {
      assert a + b == a;
    } else {
      var b' := b[..|b| - 1];
      assert (a + b)[..|a + b| - 1] == a + b';
      assert (a + b)[|a + b| - 1] == b[|b| - 1];
      ChildrenAppend(pos, a, b', depth, color, gen, next);
    }
  }

  /** One ply below, every move is one leaf. */
  lemma {:induction false} ChildrenAtDepthOne<P>(pos: P, moves: seq<Move>, color: Color,
                                                 gen: (P, Color) -> seq<Move>, next: (P, Move) -> P)
    ensures ChildrenCount(pos, moves, 1, color, gen, next) == |moves|
    decreases |moves|
  {
    if moves != [] {
      ChildrenAtDepthOne(pos, moves[..|moves| - 1], color, gen, next);
    }
  }

  /** perft(1) is the number of moves generated. */
  lemma PerftOne<P>(pos: P, color: Color, gen: (P, Color) -> seq<Move>, next: (P, Move) -> P)
    ensures PerftCount(pos, 1, color, gen, next) == |gen(pos, color)|
  {
    ChildrenAtDepthOne(pos, gen(pos, color), color, gen, next);
  }

  /**
   * `perft`: depth 0 counts the position itself; otherwise each generated
   * move is played on a copy and counted one ply lower with the other side
   * to move.  A negative depth would recurse without end, so depth is a nat.
   */
  method Perft<P>(pos: P, depth: nat, color: Color, gen: (P, Color) -> seq<Move>, next: (P, Move) -> P)
      returns (nodes: nat)
    ensures nodes == PerftCount(pos, depth, color, gen, next)
    decreases depth
  {
    if depth == 0 {
      return 1;
    }
    var moves := gen(pos, color);
    nodes := 0;
    var i := 0;
    while i < |moves|
      invariant 0 <= i <= |moves|
      invariant nodes == ChildrenCount(pos, moves[..i], depth, color, gen, next)
    {
      var newPos := next(pos, moves[i]);
      var n := Perft(newPos, depth - 1, InvertColor(color), gen, next);
      assert moves[..i + 1][..i] == moves[..i];
      nodes := nodes + n;
      i := i + 1;
    }
    assert moves[..i] == moves;
  }

  /** One thread's work: the moves `start` up to `end`. */
  method CountRange<P>(pos: P, moves: seq<Move>, start: nat, end: nat, depth: nat, color: Color,
                       gen: (P, Color) -> seq<Move>, next: (P, Move) -> P) returns (localNodes: nat)
    requires start <= end <= |moves| && depth > 0
    ensures localNodes == ChildrenCount(pos, moves[start..end], depth, color, gen, next)
  {
    localNodes := 0;
    var j := start;
    while j < end
      invariant start <= j <= end
      invariant localNodes == ChildrenCount(pos, moves[start..j], depth, color, gen, next)
    {
      var newPos := next(pos, moves[j]);
      var nodes := Perft(newPos, depth - 1, InvertColor(color), gen, next);
      assert moves[start..j + 1][..j - start] == moves[start..j];
      localNodes := localNodes + nodes;
      j := j + 1;
    }
  }

  /** `static_cast<size_t>` of a 32-bit int: negative values wrap to 2^64 and above. */
  function SizeT(n: int): (r: nat)
    requires -0x8000_0000 <= n < 0x8000_0000
    ensures n >= 0 ==> r == n
    ensures n < 0 ==> r >= 0x1_0000_0000
  {
    if n < 0 then n + 0x1_0000_0000_0000_0000 else n
  }

  /** `std::min(static_cast<size_t>(numThreads), numMoves)`. */
  function ThreadCount(numThreads: int, numMoves: nat): (r: nat)
    requires -0x8000_0000 <= numThreads < 0x8000_0000
    ensures r <= numMoves
    ensures r == 0 <==> numThreads == 0 || numMoves == 0
    ensures numThreads < 0 && numMoves < 0x1_0000_0000 ==> r == numMoves
  {
    var t := SizeT(numThreads);
    if t < numMoves then t else numMoves
  }

  /**
   * Where chunk `i` starts: the previous chunk's start plus `chunkSize`
   * moves, plus one extra move for each of the first `remaining` chunks.
   */
  function ChunkStart(i: nat, numMoves: nat, threadCount: nat): nat
    requires threadCount > 0
  {
    if i == 0 then 0
    else ChunkStart(i - 1, numMoves, threadCount) + numMoves / threadCount +
         (if i - 1 < numMoves % threadCount then 1 else 0)
  }

  /** The closed form: `i` full chunks plus the extra moves handed out so far. */
  lemma {:induction false} ChunkStartClosed(i: nat, numMoves: nat, threadCount: nat)
    requires threadCount > 0
    ensures var remaining := numMoves % threadCount;
      ChunkStart(i, numMoves, threadCount) == i * (numMoves / threadCount) + (if i < remaining then i else remaining)
  {
    if i > 0 {
      ChunkStartClosed(i - 1, numMoves, threadCount);
      var q := numMoves / threadCount;
      assert i * q == (i - 1) * q + q;
    }
  }

  lemma CoverBound(i: nat, t: nat, q: nat, r: nat)
    requires i <= t && r < t
    ensures i * q + (if i < r then i else r) <= t * q + r
  {
    assert t * q == i * q + (t - i) * q;
  }

  /** No chunk reaches past the end, and the last chunk ends exactly at the end: the chunks partition the moves. */
  lemma ChunksCover(i: nat, numMoves: nat, threadCount: nat)
    requires threadCount > 0 && i <= threadCount
    ensures ChunkStart(i, numMoves, threadCount) <= numMoves
    ensures ChunkStart(threadCount, numMoves, threadCount) == numMoves
  {
    ChunkStartClosed(i, numMoves, threadCount);
    ChunkStartClosed(threadCount, numMoves, threadCount);
    CoverBound(i, threadCount, numMoves / threadCount, numMoves % threadCount);
  }

  /** Chunk sizes differ by at most one. */
  lemma ChunksBalanced(i: nat, j: nat, numMoves: nat, threadCount: nat)
    requires threadCount > 0 && i < threadCount && j < threadCount
    ensures var size := (n: nat) requires n < threadCount =>
                ChunkStart(n + 1, numMoves, threadCount) - ChunkStart(n, numMoves, threadCount);
            -1 <= size(i) - size(j) <= 1
  {
  }

  /**
   * The thread loop and the loop over the futures: chunk `i` runs from
   * ChunkStart(i) to ChunkStart(i + 1) and the chunk counts are summed.
   * The threads run concurrently in the source; their sum does not depend
   * on the order, so they are taken in turn here.
   */
  method SplitCount<P>(pos: P, moves: seq<Move>, threadCount: nat, depth: nat, color: Color,
                       gen: (P, Color) -> seq<Move>, next: (P, Move) -> P) returns (finalCount: nat)
    requires threadCount > 0 && depth > 0
    ensures finalCount == ChildrenCount(pos, moves, depth, color, gen, next)
  {
    var numMoves := |moves|;
    var chunkSize: nat := numMoves / threadCount;
    var remaining: nat := numMoves % threadCount;
    var start: nat := 0;
    finalCount := 0;
    var i := 0;
    while i < threadCount
      invariant 0 <= i <= threadCount
      invariant start == ChunkStart(i, numMoves, threadCount) <= numMoves
      invariant finalCount == ChildrenCount(pos, moves[..start], depth, color, gen, next)
    {
      var end: nat := start + chunkSize + (if i < remaining then 1 else 0);
      NextChunk(pos, moves, i, threadCount, chunkSize, remaining, start, end, depth, color, gen, next);
      var localNodes := CountRange(pos, moves, start, end, depth, color, gen, next);
      finalCount := finalCount + localNodes;
      start := end;
      i := i + 1;
    }
    ChunksCover(i, numMoves, threadCount);
    assert moves[..start] == moves;
  }

  /** The bounds of chunk `i` follow the previous chunk and stay in the list, and its count adds on. */
  lemma NextChunk<P>(pos: P, moves: seq<Move>, i: nat, threadCount: nat, chunkSize: nat, remaining: nat,
                     start: nat, end: nat, depth: nat, color: Color, gen: (P, Color) -> seq<Move>, next: (P, Move) -> P)
    requires threadCount > 0 && depth > 0 && i < threadCount
    requires chunkSize == |moves| / threadCount && remaining == |moves| % threadCount
    requires start == ChunkStart(i, |moves|, threadCount) <= |moves|
    requires end == start + chunkSize + (if i < remaining then 1 else 0)
    ensures end == ChunkStart(i + 1, |moves|, threadCount) <= |moves|
    ensures ChildrenCount(pos, moves[..end], depth, color, gen, next) ==
            ChildrenCount(pos, moves[..start], depth, color, gen, next) + ChildrenCount(pos, moves[start..end], depth, color, gen, next)
  {
    ChunksCover(i + 1, |moves|, threadCount);
    ChildrenAppend(pos, moves[..start], moves[start..end], depth, color, gen, next);
    assert moves[..start] + moves[start..end] == moves[..end];
  }

  /**
   * `parallelPerft` as written.  None stands for the integer division by a
   * zero thread count, which happens when there are no moves (a mated or
   * stalemated side) or when `numThreads` is 0; otherwise the result is
   * exactly perft's.
   */
  method ParallelPerft<P>(pos: P, depth: nat, color: Color, numThreads: int,
                          gen: (P, Color) -> seq<Move>, next: (P, Move) -> P) returns (r: Option<nat>)
    requires -0x8000_0000 <= numThreads < 0x8000_0000
    ensures r.None? <==> depth > 0 && (gen(pos, color) == [] || numThreads == 0)
    ensures r.Some? ==> r.value == PerftCount(pos, depth, color, gen, next)
  {
    if depth == 0 {
      return Some(1);
    }
    var moves := gen(pos, color);
    var threadCount := ThreadCount(numThreads, |moves|);
    if threadCount == 0 {
      return None;
    }
    var total := SplitCount(pos, moves, threadCount, depth, color, gen, next);
    return Some(total);
  }

  /** A side with no moves: perft counts 0 leaves, but parallelPerft's thread count is 0. */
  lemma NoMovesZeroThreads<P>(pos: P, depth: nat, color: Color, numThreads: int, next: (P, Move) -> P)
    requires depth > 0 && -0x8000_0000 <= numThreads < 0x8000_0000
    ensures var gen := (p: P, c: Color) => [];
            PerftCount(pos, depth, color, gen, next) == 0 && ThreadCount(numThreads, |gen(pos, color)|) == 0
  {
  }

  /** The thread count with at least one thread, as the chunking needs. */
  function GuardedThreadCount(numThreads: int, numMoves: nat): (r: nat)
    requires -0x8000_0000 <= numThreads < 0x8000_0000
    ensures r >= 1
    ensures numThreads != 0 && numMoves != 0 ==> r == ThreadCount(numThreads, numMoves)
  {
    var t := ThreadCount(numThreads, numMoves);
    if t == 0 then 1 else t
  }

  /** `parallelPerft` with the thread count kept at least 1: it always agrees with perft. */
  method ParallelPerftGuarded<P>(pos: P, depth: nat, color: Color, numThreads: int,
                                 gen: (P, Color) -> seq<Move>, next: (P, Move) -> P) returns (r: nat)
    requires -0x8000_0000 <= numThreads < 0x8000_0000
    ensures r == PerftCount(pos, depth, color, gen, next)
  {
    if depth == 0 {
      return 1;
    }
    var moves := gen(pos, color);
    var threadCount := GuardedThreadCount(numThreads, |moves|);
    r := SplitCount(pos, moves, threadCount, depth, color, gen, next);
  }
}
