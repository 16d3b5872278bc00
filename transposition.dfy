// The transposition table (chess_engine/src/extraHeuristics/transposition.cpp,
// api/include/extraHeuristics/transposition/TTentry.h): a hash map from
// 64-bit position keys to the deepest search result seen for the key.
// Stored and Probe are the table operations as values; the class holds the
// global map and its two functions are proved against them.

module Transposition {
  import opened Options
  import opened Moves

  /** How a stored score bounds the true one. */
  datatype TTFlag = EXACT | LOWERBOUND | UPPERBOUND

  datatype TTEntry = TTEntry(zobristKey: nat, depth: int, score: int, bestMove: Move, flag: TTFlag)

  /**
   * `storeTT` on a map value: the new entry goes in when the key is absent
   * or the stored search was no deeper; otherwise the table is unchanged.
   */
  function Stored(t: map<nat, TTEntry>, hash: nat, depth: int, score: int, bestMove: Move, flag: TTFlag)
    : (r: map<nat, TTEntry>)
    ensures r.Keys == t.Keys + {hash}
    ensures forall k :: k in t && k != hash ==> r[k] == t[k]
    ensures hash !in t || t[hash].depth <= depth ==> r[hash] == TTEntry(hash, depth, score, bestMove, flag)
    ensures hash in t && t[hash].depth > depth ==> r[hash] == t[hash]
  {
    if hash !in t || t[hash].depth <= depth then t[hash := TTEntry(hash, depth, score, bestMove, flag)]
    else t
  }

  /** Whether an entry may be used at this depth and window. */
  predicate Usable(e: TTEntry, depth: int, alpha: int, beta: int)
  {
    e.depth >= depth &&
    (e.flag == EXACT || (e.flag == LOWERBOUND && e.score >= beta) || (e.flag == UPPERBOUND && e.score <= alpha))
  }

  /** `probeTT` on a map value: the entry for the key when it is usable, nothing otherwise. */
  function Probe(t: map<nat, TTEntry>, key: nat, depth: int, alpha: int, beta: int): (r: Option<TTEntry>)
    ensures r.Some? <==> key in t && Usable(t[key], depth, alpha, beta)
    ensures r.Some? ==> r.value == t[key]
  {
    if key !in t then None
    else
      var tt := t[key];
      if tt.depth >= depth then
        if tt.flag == EXACT then Some(tt)
        else if tt.flag == LOWERBOUND && tt.score >= beta then Some(tt)
        else if tt.flag == UPPERBOUND && tt.score <= alpha then Some(tt)
        else None
      else None
  }

  /** Storing never makes any entry shallower, and the key stored is at least as deep as the new search. */
  lemma StoreDeepens(t: map<nat, TTEntry>, hash: nat, depth: int, score: int, bestMove: Move, flag: TTFlag)
    ensures var r := Stored(t, hash, depth, score, bestMove, flag);
      (forall k :: k in t ==> r[k].depth >= t[k].depth) && r[hash].depth >= depth
  {
  }

  /** Every entry is filed under its own key, and storing keeps that so. */
  predicate KeysMatch(t: map<nat, TTEntry>)
  {
    forall k :: k in t ==> t[k].zobristKey == k
  }

  lemma StoreKeepsKeys(t: map<nat, TTEntry>, hash: nat, depth: int, score: int, bestMove: Move, flag: TTFlag)
    requires KeysMatch(t)
    ensures KeysMatch(Stored(t, hash, depth, score, bestMove, flag))
  {
  }

  /**
   * An exact result just stored is found again by any probe at its depth or
   * shallower, unless a deeper entry for the key was already there, in which
   * case the probe sees that older entry.
   */
  lemma StoreThenProbe(t: map<nat, TTEntry>, hash: nat, depth: int, score: int, bestMove: Move,
                       probeDepth: int, alpha: int, beta: int)
    requires probeDepth <= depth
    ensures var r := Stored(t, hash, depth, score, bestMove, EXACT);
      (hash !in t || t[hash].depth <= depth ==>
        Probe(r, hash, probeDepth, alpha, beta) == Some(TTEntry(hash, depth, score, bestMove, EXACT))) &&
      (hash in t && t[hash].depth > depth ==> Probe(r, hash, probeDepth, alpha, beta) == Probe(t, hash, probeDepth, alpha, beta))
  {
  }

  /** A probe of another key does not see a store. */
  lemma StoreOtherKey(t: map<nat, TTEntry>, hash: nat, depth: int, score: int, bestMove: Move, flag: TTFlag,
                      key: nat, probeDepth: int, alpha: int, beta: int)
    requires key != hash
    ensures Probe(Stored(t, hash, depth, score, bestMove, flag), key, probeDepth, alpha, beta) == Probe(t, key, probeDepth, alpha, beta)
  {
  }

  /** The global `transpositionTable`. */
  class TranspositionTable {
    var table: map<nat, TTEntry>

    /** Static storage: the map starts empty. */
    constructor ()
      ensures table == map[]
    {
      table := map[];
    }

    /** `storeTT`. */
    method StoreTT(hash: nat, depth: int, score: int, bestMove: Move, flag: TTFlag)
      modifies this
      ensures table == Stored(old(table), hash, depth, score, bestMove, flag)
    {
      if hash !in table || table[hash].depth <= depth {
        table := table[hash := TTEntry(hash, depth, score, bestMove, flag)];
      }
    }

    /** `probeTT`: a copy of the entry the returned pointer designates; the table is only read. */
    function ProbeTT(zobristKey: nat, depth: int, alpha: int, beta: int): (r: Option<TTEntry>)
      reads this
      ensures r == Probe(table, zobristKey, depth, alpha, beta)
    {
      if zobristKey !in table then None
      else if Usable(table[zobristKey], depth, alpha, beta) then Some(table[zobristKey])
      else None
    }
  }
}
