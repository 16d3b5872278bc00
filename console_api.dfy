// The C++ console of the engine library (api/src/console.cpp): the player
// picks a side, then the loop reads the engine's status code, stops on
// checkmate or stalemate, takes the move from the player (re-prompting
// until a legal move or "quit" is typed) or from the engine, plays it and
// notes it in the PGN.  Input is a queue of lines; a prompt that finds the
// queue empty is where the model stops (`getline` would go on returning an
// empty line, asked again without end).

module ConsoleApi {
  import opened Options
  import opened Pieces
  import opened Moves
  import opened Rendering
  import opened Text
  import opened Frontend

  /** Search depth, time limit and debug switch handed to `findBestMove`. */
  const MAX_DEPTH: int := 2
  const MAX_TIME: int := 5
  const DEBUG: bool := true

  /** As shipped, the player moves for their side. */
  const USE_HUMAN: bool := true

  /**
   * What the console consults besides the Frontend engine:
   * `checkEndgameConditions` (1 check, 2 checkmate, 3 stalemate) and
   * `Move::fromAlgebraic(file, rank)`.
   */
  datatype Console<!P> = Console(engine: Engine<P>, status: (P, Color) -> int, square: (char, char) -> int)

  /** The engine hands out only moves `getPgn` can write. */
  ghost predicate Sound<P(!new)>(c: Console<P>)
  {
    (forall p, side, m :: m in c.engine.generate(p, side) ==> Notable(m)) &&
    (forall p, side :: Notable(c.engine.bestMove(p, side)))
  }

  // ---------------------------------------------------------------------
  // Reading a character with `std::cin >> choice`
  // ---------------------------------------------------------------------

  /** A line of blanks only. */
  predicate Blank(line: string)
  {
    forall i :: 0 <= i < |line| ==> IsSpace(line[i])
  }

  /**
   * `std::cin >> choice` followed by `ignore(..., '\n')`: blank lines are
   * skipped, the first non-blank character is read and the rest of its
   * line dropped.  None when the input runs out first.
   */
  function ReadChar(lines: seq<string>): (r: Option<(char, seq<string>)>)
    ensures r.Some? ==> !IsSpace(r.value.0) && |r.value.1| < |lines| && r.value.1 == lines[|lines| - |r.value.1|..]
    ensures r.None? <==> forall i :: 0 <= i < |lines| ==> Blank(lines[i])
    decreases |lines|
  {
    if lines == [] then None
    else if Blank(lines[0]) then
      var r := ReadChar(lines[1..]);
      if r.Some? then
        assert lines[|lines| - |r.value.1|..] == lines[1..][|lines[1..]| - |r.value.1|..];
        r
      else
        assert forall i :: 1 <= i < |lines| ==> lines[i] == lines[1..][i - 1];
        r
    else
      var i := FirstNonBlank(lines[0]);
      Some((lines[0][i], lines[1..]))
  }

  /** The index of the first non-blank character of a line that has one. */
  function FirstNonBlank(line: string): (i: nat)
    requires !Blank(line)
    ensures i < |line| && !IsSpace(line[i]) && forall j :: 0 <= j < i ==> IsSpace(line[j])
  {
    if !IsSpace(line[0]) then 0
    else
      assert !Blank(line[1..]) by {
        var k :| 0 <= k < |line| && !IsSpace(line[k]);
        assert line[1..][k - 1] == line[k];
      }
      1 + FirstNonBlank(line[1..])
  }

  /** The character read is the first non-blank one, whatever blank lines and blanks come before it. */
  lemma {:induction false} ReadCharSkipsBlanks(blanks: seq<string>, pad: string, ch: char, tail: string, rest: seq<string>)
    requires forall i :: 0 <= i < |blanks| ==> Blank(blanks[i])
    requires Blank(pad) && !IsSpace(ch)
    ensures ReadChar(blanks + [pad + [ch] + tail] + rest) == Some((ch, rest))
    decreases |blanks|
  {
    var lines := blanks + [pad + [ch] + tail] + rest;
    if blanks == [] {
      var line := pad + [ch] + tail;
      assert lines[0] == line && lines[1..] == rest;
      assert line[|pad|] == ch;
      assert !Blank(line);
      var i := FirstNonBlank(line);
      assert i == |pad| by {
        assert forall j :: 0 <= j < |pad| ==> line[j] == pad[j];
      }
    } else {
      assert lines[0] == blanks[0] && lines[1..] == blanks[1..] + [pad + [ch] + tail] + rest;
      ReadCharSkipsBlanks(blanks[1..], pad, ch, tail, rest);
    }
  }

  // ---------------------------------------------------------------------
  // makeHumanTurn
  // ---------------------------------------------------------------------

  /** The answers of `makeHumanTurn`: -1 quit, 1 ask again, 0 with the move. */
  datatype Reply = Quit | Again | Chosen(move: Move)

  /** A command of the form "e2 e4": five characters, a space in the middle. */
  predicate WellFormed(input: string)
  {
    |input| == 5 && input[2] == ' '
  }

  /** The generated move a well-formed command names, if any: origin from characters 0-1, destination from 3-4. */
  function Named<P(!new)>(c: Console<P>, p: P, side: Color, input: string): Option<Move>
    requires WellFormed(input)
  {
    var from := c.square(input[0], input[1]);
    var to := c.square(input[3], input[4]);
    FindMove(c.engine.generate(p, side), from, to)
  }

  /** The promotion piece for the character read: its piece for Q, N, B or R (upper-case only), the queen otherwise. */
  function Promotion(ch: char): (r: PieceType)
    ensures r in {QUEEN, ROOK, BISHOP, KNIGHT}
    ensures r != QUEEN <==> ch in {'R', 'B', 'N'}
    ensures ch in {'Q', 'R', 'B', 'N'} ==> PiecePgn(r) == ch
  {
    var piece := GetPromotionPiece(ch);
    if piece == NONE then QUEEN else piece
  }

  /**
   * `makeHumanTurn`: the reply and the input left unread, or None when the
   * input runs out.  The line, unstripped, "quit" quits; a malformed
   * command or one no generated move matches asks again; a match is taken
   * as generated, a promotion with the piece read from what follows.
   */
  function HumanTurn<P(!new)>(c: Console<P>, p: P, side: Color, lines: seq<string>): (r: Option<(Reply, seq<string>)>)
    ensures r.Some? ==> |r.value.1| < |lines| && r.value.1 == lines[|lines| - |r.value.1|..]
    ensures r.Some? ==> (r.value.0 == Quit <==> lines[0] == "quit")
    ensures r.Some? && r.value.0 == Again ==>
      r.value.1 == lines[1..] && (!WellFormed(lines[0]) || Named(c, p, side, lines[0]).None?)
    ensures r.Some? && r.value.0.Chosen? ==>
      var m := r.value.0.move;
      WellFormed(lines[0]) && Named(c, p, side, lines[0]).Some? &&
      m == Named(c, p, side, lines[0]).value.(promotionPiece := m.promotionPiece) &&
      (m.isPromotion ==>
         m.promotionPiece in {QUEEN, ROOK, BISHOP, KNIGHT} &&
         ReadChar(lines[1..]).Some? && m.promotionPiece == Promotion(ReadChar(lines[1..]).value.0) &&
         r.value.1 == ReadChar(lines[1..]).value.1) &&
      (!m.isPromotion ==> m == Named(c, p, side, lines[0]).value && r.value.1 == lines[1..])
    ensures r.None? <==>
      (lines == [] ||
       (lines[0] != "quit" && WellFormed(lines[0]) && Named(c, p, side, lines[0]).Some? &&
        Named(c, p, side, lines[0]).value.isPromotion && ReadChar(lines[1..]).None?))
    ensures Sound(c) && r.Some? && r.value.0.Chosen? ==> Notable(r.value.0.move)
  {
    if lines == [] then None
    else
      var input := lines[0];
      if input == "quit" then Some((Quit, lines[1..]))
      else if !WellFormed(input) then Some((Again, lines[1..]))
      else
        match Named(c, p, side, input)
        case None => Some((Again, lines[1..]))
        case Some(m) =>
          assert m in c.engine.generate(p, side);
          assert Sound(c) ==> Notable(m);
          if !m.isPromotion then Some((Chosen(m), lines[1..]))
          else
            var read := ReadChar(lines[1..]);
            if read.None? then None
            else
              assert lines[|lines| - |read.value.1|..] == lines[1..][|lines[1..]| - |read.value.1|..];
              Some((Chosen(m.(promotionPiece := Promotion(read.value.0))), read.value.1))
  }

  /**
   * The prompt loop: `makeHumanTurn` is asked again until it quits (None)
   * or picks a move; the input left over comes with it.  None when the
   * input runs out first.
   */
  function AskHuman<P(!new)>(c: Console<P>, p: P, side: Color, lines: seq<string>): (r: Option<(Option<Move>, seq<string>)>)
    ensures r.Some? ==> |r.value.1| < |lines| && r.value.1 == lines[|lines| - |r.value.1|..]
    ensures Sound(c) && r.Some? && r.value.0.Some? ==> Notable(r.value.0.value)
    decreases |lines|
  {
    var turn := HumanTurn(c, p, side, lines);
    if turn.None? then None
    else if turn.value.0 == Quit then Some((None, turn.value.1))
    else if turn.value.0.Chosen? then Some((Some(turn.value.0.move), turn.value.1))
    else
      var r := AskHuman(c, p, side, turn.value.1);
      if r.Some? then
        assert lines[|lines| - |r.value.1|..] == turn.value.1[|turn.value.1| - |r.value.1|..];
        r
      else r
  }

  /** The move the player picks is a generated move, with at most its promotion piece chosen. */
  lemma {:induction false} AskedIsGenerated<P(!new)>(c: Console<P>, p: P, side: Color, lines: seq<string>)
    requires AskHuman(c, p, side, lines).Some? && AskHuman(c, p, side, lines).value.0.Some?
    ensures var m := AskHuman(c, p, side, lines).value.0.value;
      exists g :: g in c.engine.generate(p, side) && m == g.(promotionPiece := m.promotionPiece)
    decreases |lines|
  {
    var turn := HumanTurn(c, p, side, lines).value;
    if turn.0.Chosen? {
      var g := Named(c, p, side, lines[0]).value;
      assert g in c.engine.generate(p, side);
    } else {
      AskedIsGenerated(c, p, side, turn.1);
    }
  }

  /** The loop of `makeHumanTurn` calls inside `start_console`. */
  method PromptHuman<P(!new)>(c: Console<P>, p: P, side: Color, lines: seq<string>)
    returns (r: Option<(Option<Move>, seq<string>)>)
    ensures r == AskHuman(c, p, side, lines)
  {
    var rest := lines;
    while true
      invariant AskHuman(c, p, side, rest) == AskHuman(c, p, side, lines)
      decreases |rest|
    {
      var turn := HumanTurn(c, p, side, rest);
      if turn.None? {
        return None;
      }
      rest := turn.value.1;
      if turn.value.0 == Quit {
        return Some((None, rest));
      } else if turn.value.0.Chosen? {
        return Some((Some(turn.value.0.move), rest));
      }
    }
  }

  // ---------------------------------------------------------------------
  // start_console
  // ---------------------------------------------------------------------

  /** `currentPosition`, `currentPlayer`, `fullmoveCounter`, `halfmoveClock` and `pgn`. */
  datatype State<P> = State(position: P, current: Color, counter: int, clock: int, pgn: string)

  /** The state before the first move: White to move, counter 0, clock 0, empty PGN. */
  function Start<P(!new)>(c: Console<P>): State<P>
  {
    State(c.engine.initial, WHITE, 0, 0, "")
  }

  /**
   * Playing a move: the position takes it; before White's move the counter
   * grows and its new value and a dot go to the PGN; then the move's PGN
   * and a space; the turn passes and the clock is kept.
   */
  function Moved<P(!new)>(c: Console<P>, s: State<P>, m: Move): (s': State<P>)
    requires Notable(m)
    ensures s'.position == c.engine.play(s.position, m) && s'.clock == s.clock
    ensures s'.current == InvertColor(s.current)
    ensures s.current == WHITE ==> s'.counter == s.counter + 1 && s'.pgn == s.pgn + IntText(s.counter + 1) + "." + GetPgn(m) + " "
    ensures s.current == BLACK ==> s'.counter == s.counter && s'.pgn == s.pgn + GetPgn(m) + " "
  {
    var counter := if s.current == WHITE then s.counter + 1 else s.counter;
    var pgn := if s.current == WHITE then s.pgn + IntText(counter) + "." else s.pgn;
    State(c.engine.play(s.position, m), InvertColor(s.current), counter, s.clock, pgn + GetPgn(m) + " ")
  }

  /** How the main loop ends: the status code's checkmate or stalemate, "quit", or the input running out. */
  datatype Outcome = Checkmate | Stalemate | Quitted | InputEnded

  /** Whether the player, rather than the engine, moves next. */
  predicate HumanMoves<P>(s: State<P>, human: Color)
  {
    s.current == human && USE_HUMAN
  }

  /** The measure that falls with every pass of the main loop: the engine's turn costs one, the player's a line. */
  function Budget<P>(s: State<P>, human: Color, lines: seq<string>): nat
  {
    2 * |lines| + (if HumanMoves(s, human) then 0 else 1)
  }

  /**
   * The main loop from state `s`: how it ends and the state it ends in.
   * The game stops only on the status code's 2 or 3 for the side to move,
   * on "quit", or when the input runs out.
   */
  function Play<P(!new)>(c: Console<P>, s: State<P>, human: Color, lines: seq<string>): (r: (Outcome, State<P>))
    requires Sound(c)
    ensures r.0 == Checkmate ==> c.status(r.1.position, r.1.current) == 2
    ensures r.0 == Stalemate ==> c.status(r.1.position, r.1.current) == 3
    ensures r.0 == Quitted || r.0 == InputEnded ==> r.1.current == human
    ensures r.1.clock == s.clock
    decreases Budget(s, human, lines)
  {
    var status := c.status(s.position, s.current);
    if status == 2 then (Checkmate, s)
    else if status == 3 then (Stalemate, s)
    else if HumanMoves(s, human) then
      var asked := AskHuman(c, s.position, s.current, lines);
      if asked.None? then (InputEnded, s)
      else if asked.value.0.None? then (Quitted, s)
      else Play(c, Moved(c, s, asked.value.0.value), human, asked.value.1)
    else
      Play(c, Moved(c, s, c.engine.bestMove(s.position, s.current)), human, lines)
  }

  /** The moves `Play` makes before it stops. */
  ghost function Plies<P(!new)>(c: Console<P>, s: State<P>, human: Color, lines: seq<string>): nat
    requires Sound(c)
    decreases Budget(s, human, lines)
  {
    var status := c.status(s.position, s.current);
    if status == 2 || status == 3 then 0
    else if HumanMoves(s, human) then
      var asked := AskHuman(c, s.position, s.current, lines);
      if asked.None? || asked.value.0.None? then 0
      else 1 + Plies(c, Moved(c, s, asked.value.0.value), human, asked.value.1)
    else
      1 + Plies(c, Moved(c, s, c.engine.bestMove(s.position, s.current)), human, lines)
  }

  /** The counter counts White's moves: with White to move twice it is the moves made, with Black to move one more than that. */
  predicate Counted<P>(s: State<P>, plies: nat)
  {
    if s.current == WHITE then plies == 2 * s.counter else plies + 1 == 2 * s.counter
  }

  /** In closed form: the counter is (n + 1) / 2 after n moves, and White is to move after an even number. */
  lemma CountedHalf<P>(s: State<P>, plies: nat)
    requires Counted(s, plies)
    ensures s.counter == (plies + 1) / 2 && (s.current == WHITE <==> plies % 2 == 0)
  {
  }

  /** However the game goes, the counter and the side to move keep pace with the moves played. */
  lemma {:induction false} PlayCounts<P(!new)>(c: Console<P>, s: State<P>, human: Color, lines: seq<string>, plies: nat)
    requires Sound(c) && Counted(s, plies)
    ensures Counted(Play(c, s, human, lines).1, plies + Plies(c, s, human, lines))
    decreases Budget(s, human, lines)
  {
    var status := c.status(s.position, s.current);
    if status == 2 || status == 3 {
      assert Play(c, s, human, lines).1 == s && Plies(c, s, human, lines) == 0;
    } else if HumanMoves(s, human) {
      var asked := AskHuman(c, s.position, s.current, lines);
      if asked.None? || asked.value.0.None? {
        assert Play(c, s, human, lines).1 == s && Plies(c, s, human, lines) == 0;
      } else {
        var s', rest := Moved(c, s, asked.value.0.value), asked.value.1;
        assert Play(c, s, human, lines) == Play(c, s', human, rest);
        assert Plies(c, s, human, lines) == 1 + Plies(c, s', human, rest);
        PlayCounts(c, s', human, rest, plies + 1);
      }
    } else {
      var s' := Moved(c, s, c.engine.bestMove(s.position, s.current));
      assert Play(c, s, human, lines) == Play(c, s', human, lines);
      assert Plies(c, s, human, lines) == 1 + Plies(c, s', human, lines);
      PlayCounts(c, s', human, lines, plies + 1);
    }
  }

  /** The side the player takes: None to leave on 'q' (either case), Black on 'b' (either case), White otherwise. */
  function HumanSide(ch: char): (r: Option<Color>)
    ensures r.None? <==> ch in {'q', 'Q'}
    ensures r == Some(BLACK) <==> ch in {'b', 'B'}
  {
    if ToLower(ch) == 'q' then None else if ToLower(ch) == 'b' then Some(BLACK) else Some(WHITE)
  }

  /**
   * `start_console`: the colour prompt, then the main loop from the start.
   * Leaving at the prompt, or finding no input there, ends before any move.
   */
  function Session<P(!new)>(c: Console<P>, lines: seq<string>): (r: (Outcome, State<P>))
    requires Sound(c)
  {
    var read := ReadChar(lines);
    if read.None? then (InputEnded, Start(c))
    else
      var side := HumanSide(read.value.0);
      if side.None? then (Quitted, Start(c))
      else Play(c, Start(c), side.value, read.value.1)
  }

  /** From the start the counter is (n + 1) / 2 after the n moves played, and White is to move after an even number. */
  lemma SessionCounts<P(!new)>(c: Console<P>, lines: seq<string>)
    requires Sound(c)
    ensures var read := ReadChar(lines);
      read.Some? && HumanSide(read.value.0).Some? ==>
        var n := Plies(c, Start(c), HumanSide(read.value.0).value, read.value.1);
        Session(c, lines).1.counter == (n + 1) / 2 && (Session(c, lines).1.current == WHITE <==> n % 2 == 0)
  {
    var read := ReadChar(lines);
    if read.Some? && HumanSide(read.value.0).Some? {
      var human, rest := HumanSide(read.value.0).value, read.value.1;
      var n := Plies(c, Start(c), human, rest);
      PlayCounts(c, Start(c), human, rest, 0);
      assert Session(c, lines) == Play(c, Start(c), human, rest);
      CountedHalf(Session(c, lines).1, n);
    }
  }

  /** `start_console` itself: the colour prompt and the main loop. */
  method StartConsole<P(!new)>(c: Console<P>, lines: seq<string>) returns (r: (Outcome, State<P>))
    requires Sound(c)
    ensures r == Session(c, lines)
  {
    var s := Start(c);
    var read := ReadChar(lines);
    if read.None? {
      return (InputEnded, s);
    }
    var human := WHITE;
    if ToLower(read.value.0) == 'q' {
      return (Quitted, s);
    }
    if ToLower(read.value.0) == 'b' {
      human := BLACK;
    }
    var rest := read.value.1;
    assert human == HumanSide(read.value.0).value;
    while true
      invariant Play(c, s, human, rest) == Session(c, lines)
      decreases Budget(s, human, rest)
    {
      var status := c.status(s.position, s.current);
      if status == 2 {
        return (Checkmate, s);
      } else if status == 3 {
        return (Stalemate, s);
      }
      var move: Move;
      if s.current == human && USE_HUMAN {
        var asked := PromptHuman(c, s.position, s.current, rest);
        if asked.None? {
          return (InputEnded, s);
        } else if asked.value.0.None? {
          return (Quitted, s);
        }
        move := asked.value.0.value;
        rest := asked.value.1;
      } else {
        move := c.engine.bestMove(s.position, s.current);
      }
      s := Moved(c, s, move);
    }
  }
}
