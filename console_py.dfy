// The Python console (console.py), which links the engine in-process: each
// round of `game_loop` reads the engine's status code, stops the game on
// checkmate or stalemate, takes the move from the player (re-prompting
// until a legal move or "quit" is typed) or from the engine, plays it and
// notes it in the PGN.  Input lines are a queue; a prompt that finds the
// queue empty ends the program, as `input()` raising EOFError does.

module ConsolePy {
  import opened Options
  import opened Pieces
  import opened Moves
  import opened Rendering
  import opened Text
  import opened Frontend

  /** Search depth and time limit handed to `find_best_move`. */
  const MAX_DEPTH: int := 3
  const MAX_TIME: int := 5

  /** The console's switches as shipped: the engine plays both sides, by search. */
  const USE_HUMAN: bool := false
  const CHOOSE_RANDOMLY: bool := false

  /**
   * What the console consults besides the Frontend engine:
   * `check_endgame_conditions` (1 check, 2 checkmate, 3 stalemate),
   * `find_random_move`, and the squares the binding's `Move(text, colour)`
   * reads from a typed "e2 e4".
   */
  datatype Console<!P> = Console(
    engine: Engine<P>,
    status: (P, Color) -> int,
    randomMove: (P, Color) -> Move,
    squares: (string, Color) -> (int, int))

  /** The two switches `game_loop` reads. */
  datatype Flags = Flags(useHuman: bool, chooseRandomly: bool)

  /** The engine hands out only moves `get_pgn` can write. */
  ghost predicate Sound<P(!new)>(c: Console<P>)
  {
    (forall p, side, m :: m in c.engine.generate(p, side) ==> Notable(m)) &&
    (forall p, side :: Notable(c.engine.bestMove(p, side))) &&
    (forall p, side :: Notable(c.randomMove(p, side)))
  }

  // ---------------------------------------------------------------------
  // make_human_turn
  // ---------------------------------------------------------------------

  /** The ASCII upper-case of a string. */
  function Upper(s: string): (r: string)
    ensures |r| == |s| && forall i :: 0 <= i < |s| ==> r[i] == ToUpper(s[i])
  {
    if s == [] then [] else [ToUpper(s[0])] + Upper(s[1..])
  }

  /**
   * The promotion piece read from the answer line: stripped and upper-cased,
   * a single Q, N, B or R names its piece; anything else (a longer text, an
   * empty one, another letter) falls back to the queen.
   */
  function PromotionChoice(line: string): PieceType
  {
    var choice := Upper(Strip(line));
    if |choice| == 1 && GetPromotionPiece(choice[0]) != NONE then GetPromotionPiece(choice[0]) else QUEEN
  }

  /**
   * The piece chosen is always one a pawn may become, and it is not the
   * queen only when the answer reads as that piece's letter in either case.
   */
  lemma PromotionChoiceValid(line: string)
    ensures PromotionChoice(line) in {QUEEN, ROOK, BISHOP, KNIGHT}
    ensures PromotionChoice(line) != QUEEN ==>
      var choice := Upper(Strip(line));
      |choice| == 1 && choice[0] in {'R', 'B', 'N'} && PiecePgn(PromotionChoice(line)) == choice[0]
  {
  }

  /** Each promotion piece is chosen by its letter, upper- or lower-case, with or without surrounding blanks. */
  lemma PromotionChoiceByLetter(p: PieceType, pad: string)
    requires p in {QUEEN, ROOK, BISHOP, KNIGHT}
    requires forall i :: 0 <= i < |pad| ==> IsSpace(pad[i])
    ensures PromotionChoice([PiecePgn(p)]) == p
    ensures PromotionChoice(pad + [ToLower(PiecePgn(p))] + pad) == p
  {
    StripLetter(pad, ToLower(PiecePgn(p)));
    assert Upper([ToLower(PiecePgn(p))]) == [PiecePgn(p)];
  }

  /** Blanks on both sides of a non-blank character are stripped away. */
  lemma StripLetter(pad: string, c: char)
    requires forall i :: 0 <= i < |pad| ==> IsSpace(pad[i])
    requires !IsSpace(c)
    ensures Strip(pad + [c] + pad) == [c]
  {
    TrimLeftBlanks(pad, [c] + pad);
    assert pad + [c] + pad == pad + ([c] + pad);
    TrimRightBlanks([c], pad);
  }

  lemma {:induction false} TrimLeftBlanks(pad: string, s: string)
    requires forall i :: 0 <= i < |pad| ==> IsSpace(pad[i])
    requires s != [] && !IsSpace(s[0])
    ensures TrimLeft(pad + s) == s
    decreases |pad|
  {
    if pad == [] {
      assert pad + s == s;
    } else {
      assert (pad + s)[1..] == pad[1..] + s;
      TrimLeftBlanks(pad[1..], s);
    }
  }

  lemma {:induction false} TrimRightBlanks(s: string, pad: string)
    requires forall i :: 0 <= i < |pad| ==> IsSpace(pad[i])
    requires s != [] && !IsSpace(s[|s| - 1])
    ensures TrimRight(s + pad) == s
    decreases |pad|
  {
    if pad == [] {
      assert s + pad == s;
    } else {
      assert (s + pad)[..|s + pad| - 1] == s + pad[..|pad| - 1];
      TrimRightBlanks(s, pad[..|pad| - 1]);
    }
  }

  /** The answers of `make_human_turn`: -1 quit, 1 ask again, 0 with the move. */
  datatype Reply = Quit | Again | Chosen(move: Move)

  /** The generated move a well-formed command names, if any. */
  function Named<P(!new)>(c: Console<P>, p: P, side: Color, command: string): Option<Move>
  {
    var sq := c.squares(command, side);
    FindMove(c.engine.generate(p, side), sq.0, sq.1)
  }

  /** A command of the form "e2 e4": five characters, a space in the middle. */
  predicate WellFormed(command: string)
  {
    |command| == 5 && command[2] == ' '
  }

  /**
   * `make_human_turn`: the reply and the number of input lines it read, or
   * None when it found no line to read.  The stripped line "quit" quits; a
   * malformed command or one no generated move matches asks again; a match
   * is taken as generated, a promotion with the piece read from the next line.
   */
  function HumanTurn<P(!new)>(c: Console<P>, p: P, side: Color, lines: seq<string>): (r: Option<(Reply, nat)>)
    ensures r.None? <==> (lines == [] ||
      (Strip(lines[0]) != "quit" && WellFormed(Strip(lines[0])) &&
       Named(c, p, side, Strip(lines[0])).Some? && Named(c, p, side, Strip(lines[0])).value.isPromotion &&
       |lines| < 2))
    ensures r.Some? ==> 1 <= r.value.1 <= |lines|
    ensures r.Some? ==> (r.value.0 == Quit <==> Strip(lines[0]) == "quit")
    ensures r.Some? && r.value.0.Chosen? ==>
      var m := r.value.0.move;
      var named := Named(c, p, side, Strip(lines[0]));
      WellFormed(Strip(lines[0])) && named.Some? &&
      m.fromSquare == named.value.fromSquare && m.toSquare == named.value.toSquare &&
      (m.isPromotion ==> r.value.1 == 2 && m == named.value.(promotionPiece := PromotionChoice(lines[1]))) &&
      (!m.isPromotion ==> m == named.value && r.value.1 == 1)
    ensures Sound(c) && r.Some? && r.value.0.Chosen? ==> Notable(r.value.0.move)
  {
    if lines == [] then None
    else
      var command := Strip(lines[0]);
      if command == "quit" then Some((Quit, 1))
      else if !WellFormed(command) then Some((Again, 1))
      else
        match Named(c, p, side, command)
        case None => Some((Again, 1))
        case Some(m) =>
          assert m in c.engine.generate(p, side);
          assert Sound(c) ==> Notable(m);
          if !m.isPromotion then Some((Chosen(m), 1))
          else if |lines| < 2 then None
          else Some((Chosen(m.(promotionPiece := PromotionChoice(lines[1]))), 2))
  }

  /** A move the player picks is a generated move, only its promotion piece chosen, and that piece a legal one. */
  lemma ChosenIsGenerated<P(!new)>(c: Console<P>, p: P, side: Color, lines: seq<string>)
    requires HumanTurn(c, p, side, lines).Some? && HumanTurn(c, p, side, lines).value.0.Chosen?
    ensures var m := HumanTurn(c, p, side, lines).value.0.move;
      exists g :: g in c.engine.generate(p, side) && m == g.(promotionPiece := m.promotionPiece)
    ensures var m := HumanTurn(c, p, side, lines).value.0.move;
      m.isPromotion ==> m.promotionPiece in {QUEEN, ROOK, BISHOP, KNIGHT}
  {
    var m := HumanTurn(c, p, side, lines).value.0.move;
    var named := Named(c, p, side, Strip(lines[0]));
    assert named.value in c.engine.generate(p, side);
    if m.isPromotion {
      PromotionChoiceValid(lines[1]);
      assert m == named.value.(promotionPiece := m.promotionPiece);
    } else {
      assert m == named.value.(promotionPiece := m.promotionPiece);
    }
  }

  // ---------------------------------------------------------------------
  // game_loop
  // ---------------------------------------------------------------------

  /** `current_position`, `current_player`, `full_move_counter`, `halfmove_clock` and `pgn`. */
  datatype State<P> = State(position: P, current: Color, counter: int, clock: int, pgn: string)

  /** The script's starting state: White to move, move 1, clock 0, empty PGN. */
  function Start<P(!new)>(c: Console<P>): State<P>
  {
    State(c.engine.initial, WHITE, 1, 0, "")
  }

  /**
   * The prompt loop of `game_loop`: `make_human_turn` is asked again until
   * it quits (None) or picks a move; the lines left over come with it.
   * None when the input runs out first.
   */
  function AskHuman<P(!new)>(c: Console<P>, p: P, side: Color, lines: seq<string>): (r: Option<(Option<Move>, seq<string>)>)
    ensures r.Some? ==> |r.value.1| < |lines| && r.value.1 == lines[|lines| - |r.value.1|..]
    ensures Sound(c) && r.Some? && r.value.0.Some? ==> Notable(r.value.0.value)
    decreases |lines|
  {
    match HumanTurn(c, p, side, lines)
    case None => None
    case Some((reply, used)) =>
      var rest := lines[used..];
      match reply
      case Quit => Some((None, rest))
      case Chosen(m) => Some((Some(m), rest))
      case Again =>
        var r := AskHuman(c, p, side, rest);
        if r.Some? then
          assert lines[|lines| - |r.value.1|..] == rest[|rest| - |r.value.1|..];
          r
        else r
  }

  /** The player's move, when one is picked, is a generated move with at most its promotion piece chosen. */
  lemma {:induction false} AskedIsGenerated<P(!new)>(c: Console<P>, p: P, side: Color, lines: seq<string>)
    requires AskHuman(c, p, side, lines).Some? && AskHuman(c, p, side, lines).value.0.Some?
    ensures var m := AskHuman(c, p, side, lines).value.0.value;
      exists g :: g in c.engine.generate(p, side) && m == g.(promotionPiece := m.promotionPiece)
    decreases |lines|
  {
    var t := HumanTurn(c, p, side, lines).value;
    if t.0.Chosen? {
      ChosenIsGenerated(c, p, side, lines);
      var m := t.0.move;
      assert m.(promotionPiece := m.promotionPiece) == m;
    } else {
      AskedIsGenerated(c, p, side, lines[t.1..]);
    }
  }

  /**
   * Playing a move: the position takes it; before White's move the PGN
   * gets the move number and a dot, after Black's the counter grows; then
   * the move's PGN and a space; the turn passes and the clock is kept.
   */
  function Moved<P(!new)>(c: Console<P>, s: State<P>, m: Move): (s': State<P>)
    requires Notable(m)
    ensures s'.position == c.engine.play(s.position, m) && s'.clock == s.clock
    ensures s'.current == InvertColor(s.current)
    ensures s.current == WHITE ==> s'.counter == s.counter && s'.pgn == s.pgn + IntText(s.counter) + "." + GetPgn(m) + " "
    ensures s.current == BLACK ==> s'.counter == s.counter + 1 && s'.pgn == s.pgn + GetPgn(m) + " "
  {
    var pgn := if s.current == WHITE then s.pgn + IntText(s.counter) + "." else s.pgn;
    var counter := if s.current == WHITE then s.counter else s.counter + 1;
    State(c.engine.play(s.position, m), InvertColor(s.current), counter, s.clock, pgn + GetPgn(m) + " ")
  }

  /** The engine's move: a random one or the searched one, by the switch. */
  function EngineMove<P(!new)>(c: Console<P>, f: Flags, s: State<P>): Move
  {
    if f.chooseRandomly then c.randomMove(s.position, s.current) else c.engine.bestMove(s.position, s.current)
  }

  /** Whether the player, rather than the engine, moves in this round. */
  predicate HumanMoves<P>(f: Flags, s: State<P>, human: Color)
  {
    s.current == human && f.useHuman
  }

  /** Checkmate and stalemate end the game before anything is asked or played. */
  predicate Over<P(!new)>(c: Console<P>, s: State<P>)
  {
    c.status(s.position, s.current) == 2 || c.status(s.position, s.current) == 3
  }

  /**
   * One call of `game_loop`: its result (0 go on, -1 the game ended), the
   * new state and the unread input; None when a prompt found no input.
   */
  function Round<P(!new)>(c: Console<P>, f: Flags, s: State<P>, human: Color, lines: seq<string>): (r: Option<(int, State<P>, seq<string>)>)
    requires Sound(c)
    ensures r.Some? ==> (r.value.0 == -1 ==> r.value.1 == s) && (r.value.0 == 0 || r.value.0 == -1)
    ensures r.Some? ==> |r.value.2| <= |lines| && r.value.2 == lines[|lines| - |r.value.2|..]
    ensures Over(c, s) ==> r == Some((-1, s, lines))
  {
    if Over(c, s) then Some((-1, s, lines))
    else if HumanMoves(f, s, human) then
      var asked := AskHuman(c, s.position, s.current, lines);
      if asked.None? then None
      else if asked.value.0.None? then Some((-1, s, asked.value.1))
      else Some((0, Moved(c, s, asked.value.0.value), asked.value.1))
    else
      Some((0, Moved(c, s, EngineMove(c, f, s)), lines))
  }

  /** `game_loop` itself: the status test, the prompt loop or the engine's move, then the move played. */
  method GameLoop<P(!new)>(c: Console<P>, f: Flags, s: State<P>, human: Color, lines: seq<string>)
    returns (r: Option<(int, State<P>, seq<string>)>)
    requires Sound(c)
    ensures r == Round(c, f, s, human, lines)
  {
    var status := c.status(s.position, s.current);
    if status == 2 || status == 3 {
      return Some((-1, s, lines));
    }
    var move: Move;
    var rest := lines;
    if s.current == human && f.useHuman {
      while true
        invariant |rest| <= |lines| && rest == lines[|lines| - |rest|..]
        invariant AskHuman(c, s.position, s.current, rest) == AskHuman(c, s.position, s.current, lines)
        decreases |rest|
      {
        var turn := HumanTurn(c, s.position, s.current, rest);
        if turn.None? {
          return None;
        }
        var reply, used := turn.value.0, turn.value.1;
        rest := rest[used..];
        if reply.Quit? {
          return Some((-1, s, rest));
        } else if reply.Chosen? {
          move := reply.move;
          break;
        }
      }
    } else {
      move := EngineMove(c, f, s);
    }
    r := Some((0, Moved(c, s, move), rest));
  }

  // ---------------------------------------------------------------------
  // What the rounds add up to
  // ---------------------------------------------------------------------

  /**
   * The counter and the side to move after `plies` moves from the start:
   * the counter is one more than Black's moves, so with White to move
   * twice the counter is two more than the moves made, with Black to move
   * one more.
   */
  predicate Counted<P>(s: State<P>, plies: nat)
  {
    if s.current == WHITE then plies + 2 == 2 * s.counter else plies + 1 == 2 * s.counter
  }

  /**
   * A round that goes on plays exactly one move: the turn passes, the
   * counter keeps pace with the moves, the clock is untouched; a round that
   * ends leaves the state as it was.
   */
  lemma RoundCounts<P(!new)>(c: Console<P>, f: Flags, s: State<P>, human: Color, lines: seq<string>, plies: nat)
    requires Sound(c) && Counted(s, plies)
    requires Round(c, f, s, human, lines).Some?
    ensures var r := Round(c, f, s, human, lines).value;
      (r.0 == 0 ==> Counted(r.1, plies + 1) && r.1.current == InvertColor(s.current) && r.1.clock == s.clock) &&
      (r.0 == -1 ==> r.1 == s)
  {
  }

  /** With the player switched off the engine moves every round and no input is read. */
  lemma EngineOnlyRounds<P(!new)>(c: Console<P>, s: State<P>, human: Color, lines: seq<string>)
    requires Sound(c) && !Over(c, s)
    ensures Round(c, Flags(USE_HUMAN, CHOOSE_RANDOMLY), s, human, lines) ==
      Some((0, Moved(c, s, c.engine.bestMove(s.position, s.current)), lines))
  {
  }

  /**
   * The main script's loop: at most `rounds` calls of `game_loop` (the
   * script has no bound of its own), stopping at the first that ends the
   * game.  Returns the state, the moves played and whether the game ended.
   */
  function Rounds<P(!new)>(c: Console<P>, f: Flags, s: State<P>, human: Color, lines: seq<string>, rounds: nat)
    : (r: (State<P>, nat, bool))
    requires Sound(c)
    ensures r.1 <= rounds
    decreases rounds, 1
  {
    if rounds == 0 then (s, 0, false)
    else After(c, f, s, human, Round(c, f, s, human, lines), rounds - 1)
  }

  /** What follows a round: the loop stops if it ended the game, otherwise the remaining rounds and one more move. */
  function After<P(!new)>(c: Console<P>, f: Flags, s: State<P>, human: Color, round: Option<(int, State<P>, seq<string>)>, left: nat)
    : (r: (State<P>, nat, bool))
    requires Sound(c)
    ensures r.1 <= left + 1
    decreases left + 1, 0
  {
    if round.None? || round.value.0 == -1 then (s, 0, true)
    else
      var next := Rounds(c, f, round.value.1, human, round.value.2, left);
      (next.0, next.1 + 1, next.2)
  }

  /** Whatever the rounds do, the counter and the side to move keep pace with the moves played. */
  lemma {:induction false} RoundsCount<P(!new)>(c: Console<P>, f: Flags, s: State<P>, human: Color, lines: seq<string>, rounds: nat, plies: nat)
    requires Sound(c) && Counted(s, plies)
    ensures var r := Rounds(c, f, s, human, lines, rounds);
      Counted(r.0, plies + r.1) && r.0.clock == s.clock
    decreases rounds, 1
  {
    if rounds > 0 {
      var round := Round(c, f, s, human, lines);
      assert Rounds(c, f, s, human, lines, rounds) == After(c, f, s, human, round, rounds - 1);
      if round.Some? {
        RoundCounts(c, f, s, human, lines, plies);
      }
      AfterCount(c, f, s, human, round, rounds - 1, plies);
    }
  }

  /** A round that keeps the count passes it on to the rounds after it. */
  lemma {:induction false} AfterCount<P(!new)>(c: Console<P>, f: Flags, s: State<P>, human: Color,
                                                round: Option<(int, State<P>, seq<string>)>, left: nat, plies: nat)
    requires Sound(c) && Counted(s, plies)
    requires round.Some? && round.value.0 != -1 ==> Counted(round.value.1, plies + 1) && round.value.1.clock == s.clock
    ensures var r := After(c, f, s, human, round, left);
      Counted(r.0, plies + r.1) && r.0.clock == s.clock
    decreases left + 1, 0
  {
    if round.Some? && round.value.0 != -1 {
      RoundsCount(c, f, round.value.1, human, round.value.2, left, plies + 1);
    }
  }

  /** From the script's start: after n moves the counter is 1 + n/2, White moves after an even number, the clock stays 0. */
  lemma GameCounts<P(!new)>(c: Console<P>, f: Flags, human: Color, lines: seq<string>, rounds: nat)
    requires Sound(c)
    ensures var r := Rounds(c, f, Start(c), human, lines, rounds);
      r.0.counter == 1 + r.1 / 2 && (r.0.current == WHITE <==> r.1 % 2 == 0) && r.0.clock == 0
  {
    RoundsCount(c, f, Start(c), human, lines, rounds, 0);
  }

  /** As shipped, the engine plays every round until the status code ends the game; no input is read. */
  lemma {:induction false} ShippedPlaysAlone<P(!new)>(c: Console<P>, s: State<P>, human: Color, lines: seq<string>, rounds: nat)
    requires Sound(c)
    ensures var r := Rounds(c, Flags(USE_HUMAN, CHOOSE_RANDOMLY), s, human, lines, rounds);
      (r.2 ==> Over(c, r.0)) && (!r.2 ==> r.1 == rounds)
    decreases rounds
  {
    if rounds > 0 {
      if !Over(c, s) {
        EngineOnlyRounds(c, s, human, lines);
        var s' := Moved(c, s, c.engine.bestMove(s.position, s.current));
        ShippedPlaysAlone(c, s', human, lines, rounds - 1);
      }
    }
  }

  // ---------------------------------------------------------------------
  // The colour prompt
  // ---------------------------------------------------------------------

  /** The ASCII lower-case of a string. */
  function Lower(s: string): (r: string)
    ensures |r| == |s| && forall i :: 0 <= i < |s| ==> r[i] == ToLower(s[i])
  {
    if s == [] then [] else [ToLower(s[0])] + Lower(s[1..])
  }

  /**
   * The side the player takes from the first line: "q" (either case, with
   * blanks) leaves the program (None), "b" plays Black, anything else White.
   */
  function HumanSide(line: string): (r: Option<Color>)
    ensures r == None <==> Lower(Strip(line)) == "q"
    ensures r == Some(BLACK) <==> Lower(Strip(line)) == "b"
  {
    var choice := Lower(Strip(line));
    if choice == "q" then None else if choice == "b" then Some(BLACK) else Some(WHITE)
  }
}
