// The tkinter board at the repository's root (gui.py), which links the
// engine in-process: two clicks pick a move, the move is looked up among
// the generated ones, committed and noted, the engine answers at once, and
// the end of the game is read from the engine's status code.  Widgets,
// colours and printing are left out; the engine is the Frontend oracle
// plus its status code and the binding's colour names.

module GuiBoard {
  import opened Options
  import opened Pieces
  import opened Moves
  import opened Rendering
  import opened Frontend

  /** The full-move number at which `bot_loop` stops. */
  const MAX_MOVES: int := 200

  // ---------------------------------------------------------------------
  // Widget squares and board indices
  // ---------------------------------------------------------------------

  /** A widget position (row, col) on the 8 x 8 grid; row 0 is the top. */
  predicate OnGrid(sq: (int, int))
  {
    0 <= sq.0 < 8 && 0 <= sq.1 < 8
  }

  /** `square_to_index`: widget row r shows rank 8 - r. */
  function SquareToIndex(sq: (int, int)): int
  {
    (7 - sq.0) * 8 + sq.1
  }

  /** `index_to_square`: Python's `//` and `%` floor, which for the divisor 8 is Dafny's division too. */
  function IndexToSquare(i: int): (int, int)
  {
    (7 - i / 8, i % 8)
  }

  /** Every index comes back from its widget square, and the board indices are exactly the widget squares. */
  lemma IndexRoundTrip(i: int)
    ensures SquareToIndex(IndexToSquare(i)) == i
    ensures 0 <= i < 64 <==> OnGrid(IndexToSquare(i))
  {
    assert i == (i / 8) * 8 + i % 8;
  }

  /** Every widget square comes back from its index, which is a board square. */
  lemma SquareRoundTrip(sq: (int, int))
    requires OnGrid(sq)
    ensures 0 <= SquareToIndex(sq) < 64 && IndexToSquare(SquareToIndex(sq)) == sq
  {
    var i := SquareToIndex(sq);
    assert i / 8 == 7 - sq.0 && i % 8 == sq.1;
  }

  /** Two widget squares with the same index are the same square. */
  lemma SquareToIndexInjective(a: (int, int), b: (int, int))
    requires OnGrid(a) && OnGrid(b) && SquareToIndex(a) == SquareToIndex(b)
    ensures a == b
  {
    SquareRoundTrip(a);
    SquareRoundTrip(b);
  }

  // ---------------------------------------------------------------------
  // The game record
  // ---------------------------------------------------------------------

  /**
   * What the board consults besides the Frontend engine:
   * `check_endgame_conditions` (1 check, 2 checkmate, 3 stalemate) and the
   * binding's `Color.to_string`.
   */
  datatype Rules<!P> = Rules(engine: Engine<P>, status: (P, Color) -> int, name: Color -> string)

  /** The engine hands out only moves `get_pgn` can write, from its generator and from its search. */
  ghost predicate Sound<P(!new)>(r: Rules<P>)
  {
    (forall p, c, m :: m in r.engine.generate(p, c) ==> Notable(m)) &&
    (forall p, c :: Notable(r.engine.bestMove(p, c)))
  }

  /** `position`, `current_player`, `full_move_counter`, `pgn` and `game_over`. */
  datatype Game<P> = Game(position: P, current: Color, counter: int, pgn: string, over: Option<string>)

  /** The record `__init__` sets up: White to move, move 1, "1. ", not over. */
  function Begin<P(!new)>(r: Rules<P>): Game<P>
  {
    Game(r.engine.initial, WHITE, 1, "1. ", None)
  }

  /** `check_for_endgame`: checkmate names the side that just moved as the winner. */
  function Endgame<P(!new)>(r: Rules<P>, g: Game<P>): (g': Game<P>)
    ensures g' == g.(over := g'.over)
    ensures g.over.Some? ==> g'.over.Some?
    ensures var s := r.status(g.position, g.current);
      (s == 2 ==> g'.over == Some("CHECKMATE! " + r.name(InvertColor(g.current)) + " wins.")) &&
      (s == 3 ==> g'.over == Some("STALEMATE! Nobody wins")) &&
      (s != 2 && s != 3 ==> g'.over == g.over)
  {
    var s := r.status(g.position, g.current);
    if s == 2 then g.(over := Some("CHECKMATE! " + r.name(InvertColor(g.current)) + " wins."))
    else if s == 3 then g.(over := Some("STALEMATE! Nobody wins"))
    else g
  }

  /**
   * `make_move`: play the move, note its PGN, hand the turn over, and when
   * White is to move again count a full move and note its number; then
   * look for the end of the game.
   */
  function Played<P(!new)>(r: Rules<P>, g: Game<P>, m: Move): Game<P>
    requires Notable(m)
  {
    var next := InvertColor(g.current);
    var counter := if next == WHITE then g.counter + 1 else g.counter;
    var pgn := g.pgn + GetPgn(m) + " " + (if next == WHITE then IntText(counter) + ". " else "");
    Endgame(r, Game(r.engine.play(g.position, m), next, counter, pgn, g.over))
  }

  /** The move counter and the side to move after `plies` moves from the start. */
  predicate Counted<P(!new)>(g: Game<P>, plies: nat)
  {
    g.counter == 1 + plies / 2 && (g.current == WHITE <==> plies % 2 == 0)
  }

  /**
   * One move keeps the bookkeeping in step: the turn passes, the counter
   * grows after Black's move only, the move's PGN and a space are noted,
   * and a game that was over stays over.
   */
  lemma PlayedCounts<P(!new)>(r: Rules<P>, g: Game<P>, m: Move, plies: nat)
    requires Notable(m) && Counted(g, plies)
    ensures var g' := Played(r, g, m);
      Counted(g', plies + 1) && g'.current == InvertColor(g.current) &&
      (g.current == WHITE ==> g'.pgn == g.pgn + GetPgn(m) + " ") &&
      (g.current == BLACK ==> g'.pgn == g.pgn + GetPgn(m) + " " + IntText(g.counter + 1) + ". ") &&
      (g.over.Some? ==> g'.over.Some?)
  {
  }

  /** The moves of a sequence played in turn. */
  function PlayedAll<P(!new)>(r: Rules<P>, g: Game<P>, ms: seq<Move>): Game<P>
    requires forall i :: 0 <= i < |ms| ==> Notable(ms[i])
    decreases |ms|
  {
    if ms == [] then g else PlayedAll(r, Played(r, g, ms[0]), ms[1..])
  }

  /**
   * After n moves from the start the counter is 1 + n/2 and White is to
   * move exactly when n is even, whoever made the moves.
   */
  lemma {:induction false} PlayedAllCounts<P(!new)>(r: Rules<P>, g: Game<P>, ms: seq<Move>, plies: nat)
    requires Counted(g, plies) && forall i :: 0 <= i < |ms| ==> Notable(ms[i])
    ensures Counted(PlayedAll(r, g, ms), plies + |ms|)
    decreases |ms|
  {
    if ms != [] {
      PlayedCounts(r, g, ms[0], plies);
      PlayedAllCounts(r, Played(r, g, ms[0]), ms[1..], plies + 1);
    }
  }

  /** From the start: the counter is 1 + n/2 after n moves. */
  lemma GameCounts<P(!new)>(r: Rules<P>, ms: seq<Move>)
    requires forall i :: 0 <= i < |ms| ==> Notable(ms[i])
    ensures PlayedAll(r, Begin(r), ms).counter == 1 + |ms| / 2
    ensures PlayedAll(r, Begin(r), ms).current == WHITE <==> |ms| % 2 == 0
  {
    PlayedAllCounts(r, Begin(r), ms, 0);
  }

  // ---------------------------------------------------------------------
  // Moves from the widgets and from the engine
  // ---------------------------------------------------------------------

  /** `get_moves_from`: the side to move's generated moves leaving the widget square. */
  function MovesFromSquare<P(!new)>(r: Rules<P>, g: Game<P>, sq: (int, int)): (ms: seq<Move>)
    ensures forall m :: m in ms <==> m in r.engine.generate(g.position, g.current) && m.fromSquare == SquareToIndex(sq)
  {
    MovesFrom(r.engine.generate(g.position, g.current), SquareToIndex(sq))
  }

  /**
   * `try_move_piece` with `is_legal_move`: the first generated move between
   * the two squares is committed as generated; without one nothing changes.
   */
  function TryMove<P(!new)>(r: Rules<P>, g: Game<P>, from: int, to: int): (res: (Game<P>, bool))
    requires Sound(r)
    ensures !res.1 <==> forall m :: m in r.engine.generate(g.position, g.current) ==> !Matches(m, from, to)
    ensures !res.1 ==> res.0 == g
    ensures res.1 ==> exists m :: m in r.engine.generate(g.position, g.current) && Matches(m, from, to) &&
                                  res.0 == Played(r, g, m)
  {
    match FindMove(r.engine.generate(g.position, g.current), from, to)
    case None => (g, false)
    case Some(m) => (Played(r, g, m), true)
  }

  /** A move between two widget squares is accepted exactly when its destination is among those of the origin's moves. */
  lemma AcceptedIffOffered<P(!new)>(r: Rules<P>, g: Game<P>, from: (int, int), to: (int, int))
    requires Sound(r)
    ensures TryMove(r, g, SquareToIndex(from), SquareToIndex(to)).1 <==>
      SquareToIndex(to) in Destinations(MovesFromSquare(r, g, from))
  {
    OfferedIffFound(r.engine.generate(g.position, g.current), SquareToIndex(from), SquareToIndex(to));
  }

  /** `yield_to_engine`: the engine's best move for the side to move, made like the player's. */
  function Yielded<P(!new)>(r: Rules<P>, g: Game<P>): Game<P>
    requires Sound(r)
  {
    Played(r, g, r.engine.bestMove(g.position, g.current))
  }

  /** The measure `bot_loop` runs down: two steps per full move left, one more while White is to move. */
  function MovesLeft<P(!new)>(g: Game<P>): int
  {
    2 * (MAX_MOVES - g.counter) + (if g.current == WHITE then 1 else 0)
  }

  /** Each engine move brings the loop one step nearer its end. */
  lemma YieldedShortens<P(!new)>(r: Rules<P>, g: Game<P>)
    requires Sound(r)
    ensures MovesLeft(Yielded(r, g)) == MovesLeft(g) - 1
  {
  }

  /**
   * `bot_loop`: the engine plays both sides until the game is over or the
   * full-move counter reaches MAX_MOVES.
   */
  function BotGame<P(!new)>(r: Rules<P>, g: Game<P>): (g': Game<P>)
    requires Sound(r) && g.counter <= MAX_MOVES
    ensures g'.over.Some? || g'.counter == MAX_MOVES
    ensures g'.counter <= MAX_MOVES
    decreases MovesLeft(g)
  {
    if g.over.Some? || g.counter >= MAX_MOVES then g
    else
      YieldedShortens(r, g);
      BotGame(r, Yielded(r, g))
  }

  /** The engine's moves in a `bot_loop` run, in the order they are made. */
  function BotMoves<P(!new)>(r: Rules<P>, g: Game<P>): (ms: seq<Move>)
    requires Sound(r) && g.counter <= MAX_MOVES
    ensures forall i :: 0 <= i < |ms| ==> Notable(ms[i])
    decreases MovesLeft(g)
  {
    if g.over.Some? || g.counter >= MAX_MOVES then []
    else
      YieldedShortens(r, g);
      [r.engine.bestMove(g.position, g.current)] + BotMoves(r, Yielded(r, g))
  }

  /** `bot_loop` is the engine's moves played in turn. */
  lemma {:induction false} BotGamePlays<P(!new)>(r: Rules<P>, g: Game<P>)
    requires Sound(r) && g.counter <= MAX_MOVES
    ensures BotGame(r, g) == PlayedAll(r, g, BotMoves(r, g))
    decreases MovesLeft(g)
  {
    if g.over.None? && g.counter < MAX_MOVES {
      YieldedShortens(r, g);
      BotGamePlays(r, Yielded(r, g));
      var ms := BotMoves(r, g);
      assert ms[1..] == BotMoves(r, Yielded(r, g));
    }
  }

  /** The bookkeeping of a `bot_loop` run counts every engine move. */
  lemma BotGameCounts<P(!new)>(r: Rules<P>, g: Game<P>, plies: nat)
    requires Sound(r) && Counted(g, plies) && g.counter <= MAX_MOVES
    ensures Counted(BotGame(r, g), plies + |BotMoves(r, g)|)
  {
    BotGamePlays(r, g);
    PlayedAllCounts(r, g, BotMoves(r, g), plies);
  }

  // ---------------------------------------------------------------------
  // Clicks
  // ---------------------------------------------------------------------

  /** The record, the selected widget square and `lock_for_engine`. */
  datatype Board<P> = Board(game: Game<P>, selected: Option<(int, int)>, lock: bool)

  /**
   * `on_square_click`: nothing once the game is over or while the engine
   * thinks; a click on the selected square clears it; with another square
   * selected the move is tried (the selection cleared first), the engine
   * answers an accepted move unless the game has ended, and after a
   * refused one the clicked square is selected when it has moves; with no
   * selection a square with moves is selected.
   */
  function Click<P(!new)>(r: Rules<P>, b: Board<P>, sq: (int, int)): (b': Board<P>)
    requires Sound(r) && OnGrid(sq)
    ensures b.game.over.Some? || b.lock ==> b' == b
    ensures b.game.over.None? && !b.lock && b.selected == Some(sq) ==> b' == b.(selected := None)
  {
    if b.game.over.Some? || b.lock then b
    else if b.selected == Some(sq) then b.(selected := None)
    else if b.selected.Some? then
      var tried := TryMove(r, b.game, SquareToIndex(b.selected.value), SquareToIndex(sq));
      var g1, success := tried.0, tried.1;
      if g1.over.Some? then Board(g1, None, b.lock)
      else if success then Board(Yielded(r, g1), None, b.lock)
      else Board(g1, if MovesFromSquare(r, g1, sq) != [] then Some(sq) else None, b.lock)
    else if MovesFromSquare(r, b.game, sq) != [] then b.(selected := Some(sq))
    else b
  }

  /** Only a square the side to move can move from is ever selected. */
  predicate Selectable<P(!new)>(r: Rules<P>, b: Board<P>)
  {
    b.selected.Some? ==> OnGrid(b.selected.value) && MovesFromSquare(r, b.game, b.selected.value) != []
  }

  /** Every click keeps the selection on a square with moves. */
  lemma ClickKeepsSelectable<P(!new)>(r: Rules<P>, b: Board<P>, sq: (int, int))
    requires Sound(r) && Selectable(r, b) && OnGrid(sq)
    ensures Selectable(r, Click(r, b, sq))
  {
  }

  /**
   * A click moves the game by no move, by the player's move alone (when it
   * ends the game), or by the player's move and the engine's answer.
   */
  lemma ClickCounts<P(!new)>(r: Rules<P>, b: Board<P>, sq: (int, int), plies: nat)
    requires Sound(r) && OnGrid(sq) && Counted(b.game, plies)
    ensures var g' := Click(r, b, sq).game;
      g' == b.game ||
      (exists m :: Notable(m) && g' == Played(r, b.game, m) && g'.over.Some? && Counted(g', plies + 1)) ||
      (exists m :: Notable(m) && g' == Yielded(r, Played(r, b.game, m)) && Counted(g', plies + 2))
  {
    if b.game.over.None? && !b.lock && b.selected.Some? && b.selected != Some(sq) {
      var tried := TryMove(r, b.game, SquareToIndex(b.selected.value), SquareToIndex(sq));
      if tried.1 {
        var m :| m in r.engine.generate(b.game.position, b.game.current) &&
                 Matches(m, SquareToIndex(b.selected.value), SquareToIndex(sq)) && tried.0 == Played(r, b.game, m);
        assert Notable(m);
        PlayedCounts(r, b.game, m, plies);
        var g' := Click(r, b, sq).game;
        assert g' == if tried.0.over.Some? then tried.0 else Yielded(r, tried.0);
        if tried.0.over.Some? {
          assert g' == Played(r, b.game, m) && g'.over.Some? && Counted(g', plies + 1);
        } else {
          var reply := r.engine.bestMove(tried.0.position, tried.0.current);
          assert Notable(reply) && Yielded(r, tried.0) == Played(r, tried.0, reply);
          PlayedCounts(r, tried.0, reply, plies + 1);
          assert g' == Yielded(r, Played(r, b.game, m)) && Counted(g', plies + 2);
        }
      }
    }
  }

  /** A game that is over ignores every click. */
  lemma {:induction false} OverIsFinal<P(!new)>(r: Rules<P>, b: Board<P>, clicks: seq<(int, int)>)
    requires Sound(r) && b.game.over.Some? && forall i :: 0 <= i < |clicks| ==> OnGrid(clicks[i])
    ensures Clicks(r, b, clicks) == b
    decreases |clicks|
  {
    if clicks != [] {
      OverIsFinal(r, b, clicks[1..]);
    }
  }

  /** A sequence of clicks, one after another. */
  function Clicks<P(!new)>(r: Rules<P>, b: Board<P>, clicks: seq<(int, int)>): Board<P>
    requires Sound(r) && forall i :: 0 <= i < |clicks| ==> OnGrid(clicks[i])
    decreases |clicks|
  {
    if clicks == [] then b else Clicks(r, Click(r, b, clicks[0]), clicks[1..])
  }

  // ---------------------------------------------------------------------
  // The class
  // ---------------------------------------------------------------------

  class ChessBoard<!P(!new)> {
    const rules: Rules<P>
    const humanColor: Color
    var selectedSquare: Option<(int, int)>
    var gameOver: Option<string>
    var lockForEngine: bool
    var position: P
    var currentPlayer: Color
    var fullMoveCounter: int
    var pgn: string
    /** The number of moves made so far. */
    ghost var plies: nat

    function Record(): Game<P>
      reads this
    {
      Game(position, currentPlayer, fullMoveCounter, pgn, gameOver)
    }

    function Snapshot(): Board<P>
      reads this
    {
      Board(Record(), selectedSquare, lockForEngine)
    }

    /** The counter and the side to move agree with the moves made, and the selection has moves. */
    ghost predicate Valid()
      reads this
    {
      Sound(rules) && Counted(Record(), plies) && Selectable(rules, Snapshot())
    }

    /**
     * `__init__`: a fresh record; without a human the engine plays itself
     * out, and for a human playing Black the engine makes White's first move.
     */
    constructor (rules: Rules<P>, useHuman: bool, humanColor: Color)
      requires Sound(rules)
      ensures Valid()
      ensures this.rules == rules && this.humanColor == humanColor
      ensures selectedSquare.None? && !lockForEngine
      ensures !useHuman ==> Record() == BotGame(rules, Begin(rules))
      ensures useHuman && humanColor != WHITE ==> Record() == Yielded(rules, Begin(rules))
      ensures useHuman && humanColor == WHITE ==> Record() == Begin(rules)
    {
      this.rules := rules;
      this.humanColor := humanColor;
      selectedSquare := None;
      gameOver := None;
      lockForEngine := false;
      position := rules.engine.initial;
      currentPlayer := WHITE;
      fullMoveCounter := 1;
      pgn := "1. ";
      plies := 0;
      new;
      if !useHuman {
        BotLoop();
        return;
      }
      if humanColor != WHITE {
        YieldToEngine();
      }
    }

    /** `check_for_endgame`. */
    method CheckForEndgame()
      modifies this`gameOver
      ensures Record() == Endgame(rules, old(Record()))
    {
      var status := rules.status(position, currentPlayer);
      if status == 2 {
        var winner := rules.name(InvertColor(currentPlayer));
        gameOver := Some("CHECKMATE! " + winner + " wins.");
      } else if status == 3 {
        gameOver := Some("STALEMATE! Nobody wins");
      }
    }

    /** `make_move`; the board refresh and the printing are left out. */
    method MakeMove(m: Move)
      requires Notable(m)
      modifies this`position, this`pgn, this`currentPlayer, this`fullMoveCounter, this`gameOver, this`plies
      ensures Record() == Played(rules, old(Record()), m) && plies == old(plies) + 1
      ensures old(Counted(Record(), plies)) ==> Counted(Record(), plies)
    {
      if Counted(Record(), plies) {
        PlayedCounts(rules, Record(), m, plies);
      }
      ghost var g0 := Record();
      ghost var next := InvertColor(g0.current);
      ghost var counter := if next == WHITE then g0.counter + 1 else g0.counter;
      ghost var noted := g0.pgn + GetPgn(m) + " " + (if next == WHITE then IntText(counter) + ". " else "");
      position := rules.engine.play(position, m);
      pgn := pgn + GetPgn(m) + " ";
      currentPlayer := if currentPlayer == WHITE then BLACK else WHITE;
      if currentPlayer == WHITE {
        fullMoveCounter := fullMoveCounter + 1;
        pgn := pgn + IntText(fullMoveCounter) + ". ";
      }
      plies := plies + 1;
      assert Record() == Game(rules.engine.play(g0.position, m), next, counter, noted, g0.over);
      CheckForEndgame();
    }

    /** `yield_to_engine`: the lock is held while the engine's move is found and made. */
    method YieldToEngine()
      requires Sound(rules)
      modifies this`position, this`pgn, this`currentPlayer, this`fullMoveCounter, this`gameOver, this`plies,
               this`lockForEngine
      ensures Record() == Yielded(rules, old(Record())) && plies == old(plies) + 1 && !lockForEngine
      ensures old(Counted(Record(), plies)) ==> Counted(Record(), plies)
    {
      lockForEngine := true;
      var move := rules.engine.bestMove(position, currentPlayer);
      MakeMove(move);
      lockForEngine := false;
    }

    /** `bot_loop`. */
    method BotLoop()
      requires Sound(rules) && fullMoveCounter <= MAX_MOVES && !lockForEngine
      modifies this`position, this`pgn, this`currentPlayer, this`fullMoveCounter, this`gameOver, this`plies,
               this`lockForEngine
      ensures Record() == BotGame(rules, old(Record())) && !lockForEngine
      ensures old(Counted(Record(), plies)) ==> Counted(Record(), plies)
    {
      while gameOver.None? && fullMoveCounter < MAX_MOVES
        invariant fullMoveCounter <= MAX_MOVES && !lockForEngine
        invariant BotGame(rules, Record()) == BotGame(rules, old(Record()))
        invariant old(Counted(Record(), plies)) ==> Counted(Record(), plies)
        decreases MovesLeft(Record())
      {
        YieldedShortens(rules, Record());
        YieldToEngine();
      }
    }

    /** `is_legal_move` for a move between two squares: the first generated match, if any. */
    function IsLegalMove(from: int, to: int): (r: Option<Move>)
      reads this
      ensures r.None? <==> forall m :: m in rules.engine.generate(position, currentPlayer) ==> !Matches(m, from, to)
      ensures r.Some? ==> r.value in rules.engine.generate(position, currentPlayer) && Matches(r.value, from, to)
    {
      FindMove(rules.engine.generate(position, currentPlayer), from, to)
    }

    /** `get_moves_from`. */
    function GetMovesFrom(sq: (int, int)): (ms: seq<Move>)
      reads this
      ensures forall m :: m in ms <==> m in rules.engine.generate(position, currentPlayer) && m.fromSquare == SquareToIndex(sq)
    {
      MovesFromSquare(rules, Record(), sq)
    }

    /** `try_move_piece`. */
    method TryMovePiece(from: int, to: int) returns (success: bool)
      requires Sound(rules)
      modifies this`position, this`pgn, this`currentPlayer, this`fullMoveCounter, this`gameOver, this`plies
      ensures (Record(), success) == TryMove(rules, old(Record()), from, to)
      ensures plies == if success then old(plies) + 1 else old(plies)
    {
      var legal := IsLegalMove(from, to);
      if legal.None? {
        return false;
      }
      MakeMove(legal.value);
      success := true;
    }

    /** `on_square_click`; the board refreshes are left out. */
    method OnSquareClick(clicked: (int, int))
      requires Valid() && OnGrid(clicked)
      modifies this
      ensures Valid()
      ensures Snapshot() == Click(rules, old(Snapshot()), clicked)
    {
      ClickKeepsSelectable(rules, Snapshot(), clicked);
      if gameOver.Some? || lockForEngine {
        return;
      }
      if selectedSquare == Some(clicked) {
        selectedSquare := None;
        return;
      }
      if selectedSquare.Some? {
        var fromSquare := selectedSquare.value;
        selectedSquare := None;
        SecondClick(fromSquare, clicked);
      } else {
        var moves := GetMovesFrom(clicked);
        if moves != [] {
          selectedSquare := Some(clicked);
        }
      }
    }

    /** The branch of `on_square_click` with another square selected, after the selection is cleared. */
    method SecondClick(fromSquare: (int, int), clicked: (int, int))
      requires Sound(rules) && Counted(Record(), plies) && OnGrid(clicked)
      requires gameOver.None? && selectedSquare.None? && !lockForEngine
      modifies this
      ensures Counted(Record(), plies)
      ensures var tried := TryMove(rules, old(Record()), SquareToIndex(fromSquare), SquareToIndex(clicked));
        var b := Board(tried.0, None, false);
        Snapshot() ==
          if tried.0.over.Some? then b
          else if tried.1 then Board(Yielded(rules, tried.0), None, false)
          else b.(selected := if MovesFromSquare(rules, tried.0, clicked) != [] then Some(clicked) else None)
    {
      var success := TryMovePiece(SquareToIndex(fromSquare), SquareToIndex(clicked));
      if gameOver.Some? {
        return;
      }
      if success {
        YieldToEngine();
      } else {
        var moves := GetMovesFrom(clicked);
        if moves != [] {
          selectedSquare := Some(clicked);
        } else {
          selectedSquare := None;
        }
      }
    }
  }
}
