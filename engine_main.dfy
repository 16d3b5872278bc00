// The engine's own console game (chess_engine/src/main.cpp).  The turn
// test is forced false, so the engine plays both sides: each pass searches
// a move, prints it as "e2 e4", plays it, ends the game when the side that
// just moved has no moves, and otherwise notes the move in the PGN and
// passes the turn.  The loop has no bound of its own; the model runs a
// given number of passes.

module EngineMain {
  import opened Options
  import opened Bitboards
  import opened Pieces
  import opened Moves
  import opened Rendering
  import opened Frontend

  /** Depth and time limit handed to `findBestMove`. */
  const SEARCH_DEPTH: int := 5
  const SEARCH_TIME: int := 100

  /** The engine's search returns moves whose squares are board squares. */
  ghost predicate Sound<P(!new)>(e: Engine<P>)
  {
    forall p, side :: OnBoard(e.bestMove(p, side))
  }

  // ---------------------------------------------------------------------
  // The computer's move as printed
  // ---------------------------------------------------------------------

  /** A square's file letter then rank digit, from `'a' + s % 8` and `'1' + s / 8`. */
  function SquareText(s: Square): string
  {
    [('a' as int + s % 8) as char, ('1' as int + s / 8) as char]
  }

  /** The printed move: origin, a space, destination. */
  function ComputerText(m: Move): (r: string)
    requires OnBoard(m)
    ensures |r| == 5 && r[2] == ' '
    ensures r == ToAlgebraic(m.fromSquare) + " " + ToAlgebraic(m.toSquare)
    ensures FromAlgebraic(r[..2]) == Some(m.fromSquare) && FromAlgebraic(r[3..]) == Some(m.toSquare)
  {
    AlgebraicRoundTrip(m.fromSquare);
    AlgebraicRoundTrip(m.toSquare);
    SquareText(m.fromSquare) + " " + SquareText(m.toSquare)
  }

  // ---------------------------------------------------------------------
  // The game loop
  // ---------------------------------------------------------------------

  /** How the game ended: checkmate names the winner. */
  datatype Ending = Checkmate(winner: Color) | Stalemate

  /** `currPosition`, `currentPlayer`, `fullmoveCounter`, `pgn`, and `gameOver` with its verdict. */
  datatype State<P> = State(position: P, current: Color, counter: int, pgn: string, over: Option<Ending>)

  /** The state before the first move: White to move, counter 0, empty PGN. */
  function Start<P(!new)>(e: Engine<P>): State<P>
  {
    State(e.initial, WHITE, 0, "", None)
  }

  /**
   * One pass of the loop as written: the searched move is played; when the
   * side that just moved has no moves the game is over, a checkmate won by
   * the other side when it is in check, and the move is not noted; otherwise
   * a White move counts and is numbered, the move's PGN and a space are
   * noted and the turn passes.
   */
  function Step<P(!new)>(e: Engine<P>, s: State<P>): (s': State<P>)
    requires Sound(e)
    ensures var m := e.bestMove(s.position, s.current);
      s'.position == e.play(s.position, m) &&
      (s'.over.Some? <==> e.generate(s'.position, s.current) == []) &&
      (s'.over.Some? ==>
        s'.current == s.current && s'.counter == s.counter && s'.pgn == s.pgn &&
        (s'.over == Some(Checkmate(InvertColor(s.current))) <==> e.inCheck(s'.position, s.current))) &&
      (s'.over.None? ==>
        s'.current == InvertColor(s.current) &&
        (s.current == WHITE ==> s'.counter == s.counter + 1 && s'.pgn == s.pgn + IntText(s.counter + 1) + "." + GetPgn(m) + " ") &&
        (s.current == BLACK ==> s'.counter == s.counter && s'.pgn == s.pgn + GetPgn(m) + " "))
  {
    var m := e.bestMove(s.position, s.current);
    var position := e.play(s.position, m);
    if e.generate(position, s.current) == [] then
      var ending := if e.inCheck(position, s.current) then Checkmate(InvertColor(s.current)) else Stalemate;
      s.(position := position, over := Some(ending))
    else
      var counter := if s.current == WHITE then s.counter + 1 else s.counter;
      var pgn := if s.current == WHITE then s.pgn + IntText(counter) + "." else s.pgn;
      State(position, InvertColor(s.current), counter, pgn + GetPgn(m) + " ", None)
  }

  /** At most `rounds` passes of `while (!gameOver)`. */
  function Run<P(!new)>(e: Engine<P>, s: State<P>, rounds: nat): (r: State<P>)
    requires Sound(e)
    ensures s.over.Some? ==> r == s
    ensures r.over.Some? && s.over.None? ==> e.generate(r.position, r.current) == []
    ensures r.over == Some(Stalemate) && s.over.None? ==> !e.inCheck(r.position, r.current)
    decreases rounds
  {
    if rounds == 0 || s.over.Some? then s else Run(e, Step(e, s), rounds - 1)
  }

  /** The moves `Run` plays that are noted, i.e. the passes that do not end the game. */
  ghost function Noted<P(!new)>(e: Engine<P>, s: State<P>, rounds: nat): nat
    requires Sound(e)
    decreases rounds
  {
    if rounds == 0 || s.over.Some? then 0
    else if Step(e, s).over.Some? then 0
    else 1 + Noted(e, Step(e, s), rounds - 1)
  }

  /** The counter counts White's noted moves: with White to move twice it is the moves noted, with Black to move one more than that. */
  predicate Counted<P>(s: State<P>, plies: nat)
  {
    if s.current == WHITE then plies == 2 * s.counter else plies + 1 == 2 * s.counter
  }

  /** However long the game runs, the counter and the side to move keep pace with the moves noted. */
  lemma {:induction false} RunCounts<P(!new)>(e: Engine<P>, s: State<P>, rounds: nat, plies: nat)
    requires Sound(e) && Counted(s, plies)
    ensures Counted(Run(e, s, rounds), plies + Noted(e, s, rounds))
    decreases rounds
  {
    if rounds > 0 && s.over.None? {
      var s' := Step(e, s);
      if s'.over.None? {
        assert Counted(s', plies + 1);
        RunCounts(e, s', rounds - 1, plies + 1);
      } else {
        assert Run(e, s', rounds - 1) == s';
      }
    }
  }

  /** A pass of a game that is not over is followed by the remaining passes. */
  lemma RunStep<P(!new)>(e: Engine<P>, s: State<P>, rounds: nat)
    requires Sound(e) && rounds > 0 && s.over.None?
    ensures Run(e, s, rounds) == Run(e, Step(e, s), rounds - 1)
  {
  }

  /** From the start: after n noted moves the counter is (n + 1) / 2, and White is to move after an even number. */
  lemma GameCounts<P(!new)>(e: Engine<P>, rounds: nat)
    requires Sound(e)
    ensures var n := Noted(e, Start(e), rounds);
      Run(e, Start(e), rounds).counter == (n + 1) / 2 && (Run(e, Start(e), rounds).current == WHITE <==> n % 2 == 0)
  {
    RunCounts(e, Start(e), rounds, 0);
  }

  /** `main`'s loop: every move is the engine's searched move, played and noted until the game is over. */
  method PlayGame<P(!new)>(e: Engine<P>, rounds: nat) returns (s: State<P>)
    requires Sound(e)
    ensures s == Run(e, Start(e), rounds)
  {
    var position := e.initial;
    var current := WHITE;
    var counter := 0;
    var pgn := "";
    var gameOver: Option<Ending> := None;
    var passes := 0;
    while gameOver.None? && passes < rounds
      invariant passes <= rounds
      invariant Run(e, State(position, current, counter, pgn, gameOver), rounds - passes) == Run(e, Start(e), rounds)
      decreases rounds - passes
    {
      ghost var before := State(position, current, counter, pgn, gameOver);
      var move := e.bestMove(position, current);
      position := e.play(position, move);
      var nextMoves := e.generate(position, current);
      if nextMoves == [] {
        if e.inCheck(position, current) {
          gameOver := Some(Checkmate(InvertColor(current)));
        } else {
          gameOver := Some(Stalemate);
        }
        assert State(position, current, counter, pgn, gameOver) == Step(e, before);
      } else {
        if current == WHITE {
          counter := counter + 1;
          pgn := pgn + IntText(counter) + ".";
        }
        pgn := pgn + GetPgn(move) + " ";
        current := InvertColor(current);
        assert State(position, current, counter, pgn, gameOver) == Step(e, before);
      }
      RunStep(e, before, rounds - passes);
      passes := passes + 1;
    }
    s := State(position, current, counter, pgn, gameOver);
  }

  // ---------------------------------------------------------------------
  // The end test: as written and as intended
  // ---------------------------------------------------------------------

  /** A move from e2 to e4 for the two-position engine below. */
  function Push(): Move
  {
    NewMove(12, 28, false, PAWN, WHITE, false)
  }

  /**
   * An engine with two positions: after the first move (position 1) Black
   * has no moves and is in check, while White still has one.
   */
  function MatedBlack(): Engine<int>
  {
    Engine(
      (p: int, side: Color) => if p == 1 && side == BLACK then [] else [Push()],
      (p: int, side: Color) => p == 1 && side == BLACK,
      (p: int, m: Move) => p + 1,
      (p: int, side: Color) => Push(),
      0,
      (p: int) => "")
  }

  /**
   * As written the end test asks whether the side that just moved has a
   * move: White mates Black with the first move, yet the game goes on with
   * Black to move.
   */
  lemma MateGoesUnnoticed()
    ensures Sound(MatedBlack())
    ensures var e := MatedBlack(); var s := Step(e, Start(e));
      e.generate(s.position, BLACK) == [] && e.inCheck(s.position, BLACK) &&
      s.over.None? && s.current == BLACK
  {
    var e := MatedBlack();
    assert e.generate(1, WHITE) == [Push()];
  }

  /**
   * The end test evidently intended: the side now to move, the opponent of
   * the mover, has no moves; a checkmate is won by the mover.
   */
  function IntendedStep<P(!new)>(e: Engine<P>, s: State<P>): (s': State<P>)
    requires Sound(e)
  {
    var m := e.bestMove(s.position, s.current);
    var position := e.play(s.position, m);
    var next := InvertColor(s.current);
    if e.generate(position, next) == [] then
      var ending := if e.inCheck(position, next) then Checkmate(s.current) else Stalemate;
      s.(position := position, over := Some(ending))
    else
      var counter := if s.current == WHITE then s.counter + 1 else s.counter;
      var pgn := if s.current == WHITE then s.pgn + IntText(counter) + "." else s.pgn;
      State(position, next, counter, pgn + GetPgn(m) + " ", None)
  }

  /**
   * With the intended test the game ends exactly when the side to move next
   * has no moves, checkmate exactly when that side is also in check, and
   * the winner is the side that moved; otherwise it plays on as written.
   */
  lemma IntendedEndsOnMate<P(!new)>(e: Engine<P>, s: State<P>)
    requires Sound(e)
    ensures var s' := IntendedStep(e, s); var next := InvertColor(s.current);
      s'.position == e.play(s.position, e.bestMove(s.position, s.current)) &&
      (s'.over.Some? <==> e.generate(s'.position, next) == []) &&
      (s'.over.Some? ==> (s'.over == Some(Checkmate(s.current)) <==> e.inCheck(s'.position, next))) &&
      (s'.over.None? ==> s'.current == next)
  {
  }

  /** On the two-position engine the intended test ends the game with White's win. */
  lemma IntendedCatchesMate()
    ensures Sound(MatedBlack())
    ensures var e := MatedBlack(); IntendedStep(e, Start(e)).over == Some(Checkmate(WHITE))
  {
  }
}
