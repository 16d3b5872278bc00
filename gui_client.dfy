// The tkinter board of GUI/gui.py: it drives the stdin/stdout server
// through EngineInteraction (GUI/API/API.py).  Gui is the board's state as
// a value and the functions below are its callbacks; ChessBoard is the
// class whose methods follow the Python code and are proved to compute
// those functions.  Widgets are reduced to the text of the 64 buttons
// (`labels`, widget row by widget row), the squares drawn sunken and the
// last message box shown.

module GuiClient {
  import opened Options
  import opened Pieces
  import opened Bitboards
  import opened Boards
  import opened Rendering
  import opened Text
  import opened BoardText
  import opened Frontend
  import opened ApiServer
  import opened ApiClient

  // ---------------------------------------------------------------------
  // update_board's reading of the state text
  // ---------------------------------------------------------------------

  /** `PIECE_SYMBOLS.get(piece, '')`: the glyph for a piece letter, '' for anything else. */
  function Symbol(c: char): (r: string)
    ensures r != "" <==> c in "PNBRQKpnbrqk"
  {
    match c
    case 'P' => "♙" case 'N' => "♘" case 'B' => "♗" case 'R' => "♖" case 'Q' => "♕" case 'K' => "♔"
    case 'p' => "♟" case 'n' => "♞" case 'b' => "♝" case 'r' => "♜" case 'q' => "♛" case 'k' => "♚"
    case _ => ""
  }

  /** The text button (row, col) is given from `rows[row][col]`; None is the IndexError. */
  function CellText(rows: seq<string>, row: nat, col: nat): (r: Option<string>)
    ensures r.Some? <==> row < |rows| && col < |rows[row]|
  {
    if row < |rows| && col < |rows[row]| then Some(Symbol(rows[row][col])) else None
  }

  /** Columns 0 .. n-1 of a widget row can be read. */
  predicate RowReadable(rows: seq<string>, row: nat, n: nat)
  {
    forall c :: 0 <= c < n ==> CellText(rows, row, c).Some?
  }

  /** The first column of a row, from `col` on, whose cell raises; 8 when none does. */
  function FirstBadCol(rows: seq<string>, row: nat, col: nat): (k: nat)
    requires col <= 8
    ensures col <= k <= 8
    ensures forall c :: col <= c < k ==> CellText(rows, row, c).Some?
    ensures k < 8 ==> CellText(rows, row, k).None?
    decreases 8 - col
  {
    if col == 8 then 8
    else if CellText(rows, row, col).None? then col
    else FirstBadCol(rows, row, col + 1)
  }

  /** The first cell, in the loops' row-major order from `row` on, whose read raises; None when all can be read. */
  function FirstBad(rows: seq<string>, row: nat): (r: Option<(nat, nat)>)
    requires row <= 8
    ensures r.None? ==> forall x :: row <= x < 8 ==> RowReadable(rows, x, 8)
    ensures r.Some? ==> row <= r.value.0 < 8 && r.value.1 < 8 && CellText(rows, r.value.0, r.value.1).None?
    ensures r.Some? ==> RowReadable(rows, r.value.0, r.value.1)
    ensures r.Some? ==> forall x :: row <= x < r.value.0 ==> RowReadable(rows, x, 8)
    decreases 8 - row
  {
    if row == 8 then None
    else
      var k := FirstBadCol(rows, row, 0);
      if k < 8 then Some((row, k)) else FirstBad(rows, row + 1)
  }

  /** Eight widget rows of eight button texts. */
  predicate Grid(labels: seq<seq<string>>)
  {
    |labels| == 8 && forall r :: 0 <= r < 8 ==> |labels[r]| == 8
  }

  /** A widget row with its first n buttons set from the state text. */
  function RowPainted(line: seq<string>, rows: seq<string>, row: nat, n: nat): (r: seq<string>)
    requires |line| == 8 && n <= 8 && RowReadable(rows, row, n)
    ensures |r| == 8
  {
    seq(8, c requires 0 <= c < 8 => if c < n then CellText(rows, row, c).value else line[c])
  }

  /** The buttons after the loops have set every cell before (row, col). */
  function Painted(labels: seq<seq<string>>, rows: seq<string>, row: nat, col: nat): (r: seq<seq<string>>)
    requires Grid(labels) && row <= 8 && col <= 8
    requires forall x :: 0 <= x < row ==> RowReadable(rows, x, 8)
    requires row < 8 ==> RowReadable(rows, row, col)
    ensures Grid(r)
  {
    seq(8, x requires 0 <= x < 8 =>
      if x < row then RowPainted(labels[x], rows, x, 8)
      else if x == row then RowPainted(labels[x], rows, x, col)
      else labels[x])
  }

  /**
   * The two loops of `update_board` over `rows = state.split('/')`: the
   * buttons set up to the first cell that raises, and whether one did.
   */
  function Shown(labels: seq<seq<string>>, rows: seq<string>): (r: (seq<seq<string>>, bool))
    requires Grid(labels)
    ensures Grid(r.0)
  {
    match FirstBad(rows, 0)
    case None => (Painted(labels, rows, 8, 0), false)
    case Some(rc) => (Painted(labels, rows, rc.0, rc.1), true)
  }

  /** When no cell raises, every button shows the symbol of its cell. */
  lemma ShownWhenReadable(labels: seq<seq<string>>, rows: seq<string>, row: nat, col: nat)
    requires Grid(labels) && row < 8 && col < 8 && FirstBad(rows, 0).None?
    ensures !Shown(labels, rows).1
    ensures row < |rows| && col < |rows[row]| && Shown(labels, rows).0[row][col] == Symbol(rows[row][col])
  {
    assert Shown(labels, rows) == (Painted(labels, rows, 8, 0), false);
    assert RowReadable(rows, row, 8);
    assert CellText(rows, row, col).Some?;
  }

  // ---------------------------------------------------------------------
  // The state of the board and its callbacks
  // ---------------------------------------------------------------------

  /**
   * `self.engine` (None, or the link of its EngineInteraction),
   * `player_color`, `game_active`, `selected_square`, the button texts,
   * the squares drawn sunken and the last message box.
   */
  datatype Gui<!P> = Gui(link: Option<Link<P>>, playerWhite: bool, active: bool, selected: Option<(int, int)>,
                         labels: seq<seq<string>>, sunken: set<int>, notice: Option<string>)

  predicate WellFormed<P>(g: Gui<P>)
  {
    Grid(g.labels) && (g.active ==> g.link.Some?) &&
    (g.selected.Some? ==> 0 <= g.selected.value.0 < 8 && 0 <= g.selected.value.1 < 8)
  }

  /** The board as `__init__` leaves it: no engine, White chosen, no game, blank buttons. */
  function Initial<P>(): (g: Gui<P>)
    ensures WellFormed(g)
  {
    Gui(None, true, false, None, seq(8, r => seq(8, c => "")), {}, None)
  }

  /**
   * `update_board`: nothing unless a game is active and `fetch_state`
   * answers; otherwise the buttons are set from the state text.  The flag
   * is the IndexError that ends the callback.
   */
  function Refresh<P>(e: Engine<P>, g: Gui<P>): (r: (Gui<P>, bool))
    requires WellFormed(g)
    ensures WellFormed(r.0) && r.0 == g.(link := r.0.link, labels := r.0.labels)
    ensures !g.active ==> r == (g, false)
  {
    if !g.active then (g, false)
    else
      var call := Call(e, g.link.value, FetchStateLine());
      var l, response := call.0, call.1;
      var state := StateOf(response);
      if state.None? then (g.(link := Some(l)), false)
      else
        var pair := Shown(g.labels, SplitOn(state.value, '/'));
        var labels, raised := pair.0, pair.1;
        (g.(link := Some(l), labels := labels), raised)
  }

  /** Refresh of an active game with the `fetch_state` exchange, its reading and the relinked state named. */
  lemma RefreshOf<P>(e: Engine<P>, g: Gui<P>, call: (Link<P>, Option<string>), state: Option<string>, g1: Gui<P>)
    requires WellFormed(g) && g.active
    requires call == Call(e, g.link.value, FetchStateLine()) && state == StateOf(call.1) && g1 == g.(link := Some(call.0))
    ensures state.None? ==> Refresh(e, g) == (g1, false)
    ensures state.Some? ==> var shown := Shown(g.labels, SplitOn(state.value, '/'));
      Refresh(e, g) == (g1.(labels := shown.0), shown.1)
  {
  }

  /** The message box for an outcome of `is_mate`. */
  function GameOverText(status: string): (r: string)
    ensures status == "whiteWins" ==> r == "White Wins!"
    ensures status == "blackWins" ==> r == "Black Wins!"
    ensures status != "whiteWins" && status != "blackWins" ==> r == "Stalemate!"
  {
    if status == "whiteWins" then "White Wins!"
    else if status == "blackWins" then "Black Wins!"
    else "Stalemate!"
  }

  /** `check_game_status`: any outcome ends the game and is announced. */
  function Status<P>(e: Engine<P>, g: Gui<P>): (r: Gui<P>)
    requires WellFormed(g) && g.link.Some?
    ensures WellFormed(r) && r == g.(link := r.link, active := r.active, notice := r.notice) && r.link.Some?
    ensures var verdict := MateOf(Call(e, g.link.value, IsMateLine()).1);
      (r.active <==> g.active && verdict.None?) &&
      (verdict.Some? ==> r.notice == Some(GameOverText(verdict.value))) &&
      (verdict.None? ==> r.notice == g.notice)
  {
    var call := Call(e, g.link.value, IsMateLine());
    var l, response := call.0, call.1;
    match MateOf(response)
    case None => g.(link := Some(l))
    case Some(status) => g.(link := Some(l), active := false, notice := Some(GameOverText(status)))
  }

  /** `make_bot_move`: ask for the engine's move; when it is made, refresh and check the game. */
  function BotTurn<P>(e: Engine<P>, g: Gui<P>): (r: (Gui<P>, bool))
    requires WellFormed(g)
    ensures WellFormed(r.0) && r.0 == g.(link := r.0.link, labels := r.0.labels, active := r.0.active, notice := r.0.notice)
  {
    if !g.active then (g, false)
    else
      var call := Call(e, g.link.value, BotMoveLine());
      var l, response := call.0, call.1;
      var g1 := g.(link := Some(l));
      if Answered(response, "botMoved") then
        var pair := Refresh(e, g1);
        var g2, raised := pair.0, pair.1;
        if raised then (g2, true) else (Status(e, g2), false)
      else (g1, false)
  }

  /** The square index of widget (row, col): the widget rows run from rank 8 down. */
  function ClickedIndex(row: nat, col: nat): (i: int)
    requires row < 8 && col < 8
    ensures 0 <= i < 64
  {
    (7 - row) * 8 + col
  }

  /**
   * `on_square_click(row, col)`.  A first click selects the square, then
   * sinks its destinations when `get_moves` offers some; a second asks
   * `make_move` and clears the selection, and after an accepted move
   * refreshes, checks the game and lets the engine move when the player
   * is Black.  The flag is an exception that ends the callback.
   */
  function Click<P>(e: Engine<P>, g: Gui<P>, row: nat, col: nat): (r: (Gui<P>, bool))
    requires WellFormed(g) && row < 8 && col < 8
    ensures WellFormed(r.0)
    ensures r.0.playerWhite == g.playerWhite
    ensures g.active && g.selected.Some? && !r.1 ==> r.0.selected.None? && r.0.sunken == {}
  {
    if !g.active then (g, false)
    else if g.selected.None? then FirstClick(e, g, row, col)
    else SecondClick(e, g, row, col)
  }

  /** The first click of `on_square_click`: select, then sink the destinations `get_moves` offers. */
  function FirstClick<P>(e: Engine<P>, g: Gui<P>, row: nat, col: nat): (r: (Gui<P>, bool))
    requires WellFormed(g) && g.active && row < 8 && col < 8
    ensures WellFormed(r.0)
    ensures r.0 == g.(link := r.0.link, selected := Some((7 - row, col)), sunken := r.0.sunken)
    ensures var response := Call(e, g.link.value, GetMovesLine(ClickedIndex(row, col))).1;
      r.0.sunken != g.sunken ==> MovesOf(response).Some? && r.0.sunken == set m | m in MovesOf(response).value
  {
    var g1 := g.(selected := Some((7 - row, col)));
    var call := Call(e, g.link.value, GetMovesLine(ClickedIndex(row, col)));
    var l, response := call.0, call.1;
    var g2 := g1.(link := Some(l));
    match MovesOf(response)
    case None => (g2, true)
    case Some(moves) => if moves == [] then (g2, false) else (g2.(sunken := Sunk(moves)), false)
  }

  /** FirstClick with the `get_moves` exchange, its reading and the selected state named. */
  lemma FirstClickOf<P>(e: Engine<P>, g: Gui<P>, row: nat, col: nat, call: (Link<P>, Option<string>),
                        moves: Option<seq<int>>, g2: Gui<P>)
    requires WellFormed(g) && g.active && row < 8 && col < 8
    requires call == Call(e, g.link.value, GetMovesLine(ClickedIndex(row, col))) && moves == MovesOf(call.1)
    requires g2 == g.(selected := Some((7 - row, col)), link := Some(call.0))
    ensures moves.None? ==> FirstClick(e, g, row, col) == (g2, true)
    ensures moves == Some([]) ==> FirstClick(e, g, row, col) == (g2, false)
    ensures moves.Some? && moves.value != [] ==> FirstClick(e, g, row, col) == (g2.(sunken := Sunk(moves.value)), false)
  {
  }

  /** The buttons `FirstClick` sinks: one per destination returned. */
  function Sunk(moves: seq<int>): set<int>
  {
    set m | m in moves
  }

  /** The square selected by the first click, as `selected_square[0] * 8 + selected_square[1]`. */
  function Source<P>(g: Gui<P>): (s: int)
    requires WellFormed(g) && g.selected.Some?
    ensures 0 <= s < 64
  {
    g.selected.value.0 * 8 + g.selected.value.1
  }

  /** The second click of `on_square_click`: `make_move` from the selected square, then the selection is cleared. */
  function SecondClick<P>(e: Engine<P>, g: Gui<P>, row: nat, col: nat): (r: (Gui<P>, bool))
    requires WellFormed(g) && g.active && g.selected.Some? && row < 8 && col < 8
    ensures WellFormed(r.0) && r.0.playerWhite == g.playerWhite
    ensures !r.1 ==> r.0.selected.None? && r.0.sunken == {}
  {
    var call := Call(e, g.link.value, MoveLine(Source(g), ClickedIndex(row, col)));
    var l, response := call.0, call.1;
    var g1 := g.(link := Some(l));
    if Answered(response, "moveMade") then AfterMove(e, g1)
    else (g1.(selected := None, sunken := {}), false)
  }

  /**
   * After an accepted move: refresh; unless that raised, check the game,
   * clear the selection, and let the engine move when the game goes on
   * and the player is Black.
   */
  function AfterMove<P>(e: Engine<P>, g: Gui<P>): (r: (Gui<P>, bool))
    requires WellFormed(g) && g.active
    ensures WellFormed(r.0) && r.0.playerWhite == g.playerWhite
    ensures !r.1 ==> r.0.selected.None? && r.0.sunken == {}
  {
    var pair := Refresh(e, g);
    var g2, raised := pair.0, pair.1;
    if raised then (g2, true)
    else
      var g3 := Status(e, g2).(selected := None, sunken := {});
      if g3.active && !g3.playerWhite then BotTurn(e, g3) else (g3, false)
  }

  /** The reply a new process gives before any command: its position before `init`. */
  function Fresh<P>(start: P): Link<P>
  {
    Link(State(start, true, ""), true, [])
  }

  /**
   * `start_game` with the colour chosen: a new engine process is started
   * and asked to `init`; when it does not answer "initSuccess" the error
   * box is shown and no game starts.
   */
  function Start<P>(e: Engine<P>, g: Gui<P>, white: bool, start: P): (r: (Gui<P>, bool))
    requires WellFormed(g)
    ensures WellFormed(r.0)
  {
    var call := Call(e, Fresh(start), InitLine(white));
    var l, response := call.0, call.1;
    var g1 := g.(playerWhite := white, link := Some(l));
    if !Answered(response, "initSuccess") then (g1.(notice := Some("Failed to start the game")), false)
    else Refresh(e, g1.(active := true))
  }

  // ---------------------------------------------------------------------
  // What the callbacks promise
  // ---------------------------------------------------------------------

  /** Clicks do nothing while no game is active. */
  lemma ClickNeedsGame<P>(e: Engine<P>, g: Gui<P>, row: nat, col: nat)
    requires WellFormed(g) && row < 8 && col < 8 && !g.active
    ensures Click(e, g, row, col) == (g, false)
  {
  }

  /**
   * A first click selects the clicked square (board row 7 - row) before
   * its moves are asked for, and keeps it selected even when none come
   * back; only the link and the sunken squares change besides.
   */
  lemma FirstClickSelects<P>(e: Engine<P>, g: Gui<P>, row: nat, col: nat)
    requires WellFormed(g) && row < 8 && col < 8 && g.active && g.selected.None?
    ensures var g' := Click(e, g, row, col).0;
      g'.selected == Some((7 - row, col)) && g' == g.(link := g'.link, selected := g'.selected, sunken := g'.sunken)
    ensures var g' := Click(e, g, row, col).0;
      var response := Call(e, g.link.value, GetMovesLine(ClickedIndex(row, col))).1;
      (g'.sunken != g.sunken ==> MovesOf(response).Some? && g'.sunken == set m | m in MovesOf(response).value)
  {
    assert Click(e, g, row, col) == FirstClick(e, g, row, col);
  }

  /** `fetch_state` and `is_mate` do not change the server. */
  lemma QueriesKeepServer<P>(e: Engine<P>, l: Link<P>)
    ensures Call(e, l, FetchStateLine()).0.server == l.server
    ensures Call(e, l, IsMateLine()).0.server == l.server
  {
    QueriesKeepState(e, l.server, FetchState);
    QueriesKeepState(e, l.server, IsMate);
  }

  /** Refreshing and checking the game never change the server's position. */
  lemma RefreshStatusKeepServer<P>(e: Engine<P>, g: Gui<P>)
    requires WellFormed(g) && g.link.Some?
    ensures Refresh(e, g).0.link.Some? && Refresh(e, g).0.link.value.server == g.link.value.server
    ensures Status(e, g).link.Some? && Status(e, g).link.value.server == g.link.value.server
  {
    QueriesKeepServer(e, g.link.value);
  }

  /**
   * With a White player the board never asks the engine to move: after a
   * second click the server's position is the one the player's move left,
   * so White moves again on the next click.
   */
  lemma WhitePlayerUnanswered<P>(e: Engine<P>, g: Gui<P>, row: nat, col: nat)
    requires WellFormed(g) && row < 8 && col < 8 && g.active && g.selected.Some? && g.playerWhite
    ensures var moved := Call(e, g.link.value, MoveLine(Source(g), ClickedIndex(row, col))).0;
      var g' := Click(e, g, row, col).0;
      g'.link.Some? && g'.link.value.server == moved.server
  {
    var call := Call(e, g.link.value, MoveLine(Source(g), ClickedIndex(row, col)));
    var l, response := call.0, call.1;
    var g1 := g.(link := Some(l));
    assert Click(e, g, row, col) == SecondClick(e, g, row, col);
    if Answered(response, "moveMade") {
      AfterMoveKeepsServer(e, g1);
    }
  }

  /** With a White player, what follows an accepted move only queries the server. */
  lemma AfterMoveKeepsServer<P>(e: Engine<P>, g: Gui<P>)
    requires WellFormed(g) && g.active && g.playerWhite
    ensures AfterMove(e, g).0.link.Some? && AfterMove(e, g).0.link.value.server == g.link.value.server
  {
    RefreshStatusKeepServer(e, g);
    var pair := Refresh(e, g);
    var g2, raised := pair.0, pair.1;
    if !raised {
      RefreshStatusKeepServer(e, g2);
    }
  }

  /**
   * With a Black player and the link in step, an accepted second click,
   * a refresh that reads the whole diagram and a game not over lead to the
   * engine's move for White on the position the player's move left.
   */
  lemma BlackPlayerAnswered<P>(e: Engine<P>, g: Gui<P>, row: nat, col: nat)
    requires WellFormed(g) && row < 8 && col < 8 && g.active && g.selected.Some? && !g.playerWhite
    requires InStep(g.link.value) && !g.link.value.server.playerIsWhite
    ensures var call := Call(e, g.link.value, MoveLine(Source(g), ClickedIndex(row, col)));
      var p := call.0.server.position;
      Answered(call.1, "moveMade") && !Refresh(e, g.(link := Some(call.0))).1 &&
      OneLine(WithoutSpaces(e.display(p))) && MateReply(e, p).None? ==>
        Click(e, g, row, col).0.link.Some? && Click(e, g, row, col).0.link.value.server.position == e.play(p, e.bestMove(p, WHITE))
  {
    var call := Call(e, g.link.value, MoveLine(Source(g), ClickedIndex(row, col)));
    var p := call.0.server.position;
    MakeMoveInStep(e, g.link.value, Source(g), ClickedIndex(row, col));
    if Answered(call.1, "moveMade") && !Refresh(e, g.(link := Some(call.0))).1 &&
       OneLine(WithoutSpaces(e.display(p))) && MateReply(e, p).None? {
      ClickAfterMove(e, g, row, col);
      MoveKeepsColor(e, g.link.value.server, Source(g), ClickedIndex(row, col));
      AfterMoveAnswers(e, g.(link := Some(call.0)));
    }
  }

  /** An accepted second click goes on as `AfterMove` on the new link. */
  lemma ClickAfterMove<P>(e: Engine<P>, g: Gui<P>, row: nat, col: nat)
    requires WellFormed(g) && row < 8 && col < 8 && g.active && g.selected.Some?
    requires Answered(Call(e, g.link.value, MoveLine(Source(g), ClickedIndex(row, col))).1, "moveMade")
    ensures Click(e, g, row, col) == AfterMove(e, g.(link := Some(Call(e, g.link.value, MoveLine(Source(g), ClickedIndex(row, col))).0)))
  {
    assert Click(e, g, row, col) == SecondClick(e, g, row, col);
  }

  /** A move keeps the player's colour. */
  lemma MoveKeepsColor<P>(e: Engine<P>, s: State<P>, f: int, t: int)
    ensures Respond(e, s, MoveCmd(f, t)).0.playerIsWhite == s.playerIsWhite
  {
    MoveAcceptsOnlyGenerated(e, s, f, t);
  }

  /**
   * After an accepted move by a Black player, with the link in step, the
   * diagram on one line and the game not over, the engine moves for White.
   */
  lemma AfterMoveAnswers<P>(e: Engine<P>, g: Gui<P>)
    requires WellFormed(g) && g.active && !g.playerWhite && InStep(g.link.value) && !g.link.value.server.playerIsWhite
    requires var p := g.link.value.server.position; OneLine(WithoutSpaces(e.display(p))) && MateReply(e, p).None?
    requires !Refresh(e, g).1
    ensures var p := g.link.value.server.position;
      AfterMove(e, g).0.link.Some? && AfterMove(e, g).0.link.value.server.position == e.play(p, e.bestMove(p, WHITE))
  {
    var server := g.link.value.server;
    FetchStateInStep(e, g.link.value);
    var g2 := Refresh(e, g).0;
    assert InStep(g2.link.value) && g2.link.value.server == server;
    IsMateInStep(e, g2.link.value);
    var g3 := Status(e, g2).(selected := None, sunken := {});
    assert g3.active && g3.link.value.server == server && InStep(g3.link.value);
    assert AfterMove(e, g) == BotTurn(e, g3);
    BotTurnPlays(e, g3);
    BotMovePlaysOpponent(e, server);
  }

  /**
   * `check_game_status` from a link in step: the game goes inactive exactly
   * when the server's `isMate` has a verdict, which is then announced, and
   * the server and the link stay as they were.
   */
  lemma StatusInStep<P>(e: Engine<P>, g: Gui<P>)
    requires WellFormed(g) && g.active && InStep(g.link.value)
    ensures var r := Status(e, g); var verdict := MateReply(e, g.link.value.server.position);
      (r.active <==> verdict.None?) &&
      (verdict.Some? ==> r.notice == Some(GameOverText(verdict.value))) &&
      InStep(r.link.value) && r.link.value.server == g.link.value.server
  {
    IsMateInStep(e, g.link.value);
  }

  /** `make_bot_move` from a link in step leaves the server as the engine's move left it. */
  lemma BotTurnPlays<P>(e: Engine<P>, g: Gui<P>)
    requires WellFormed(g) && g.active && InStep(g.link.value)
    ensures BotTurn(e, g).0.link.Some? && BotTurn(e, g).0.link.value.server == Respond(e, g.link.value.server, BotMove).0
  {
    BotMoveInStep(e, g.link.value);
    var call := Call(e, g.link.value, BotMoveLine());
    var l, response := call.0, call.1;
    RefreshStatusKeepServer(e, g.(link := Some(l)));
    var pair := Refresh(e, g.(link := Some(l)));
    var g2, raised := pair.0, pair.1;
    if !raised {
      RefreshStatusKeepServer(e, g2);
    }
  }

  /** Starting a game: the colour is kept, and the game is active exactly when the new engine answered `init`. */
  lemma StartActivates<P>(e: Engine<P>, g: Gui<P>, white: bool, start: P)
    requires WellFormed(g)
    ensures var g' := Start(e, g, white, start).0;
      g'.playerWhite == white && g'.active && g'.link.value.server.playerIsWhite == white
  {
    InitInStep(e, Fresh(start), white);
  }

  // ---------------------------------------------------------------------
  // What update_board draws from the server's diagram
  // ---------------------------------------------------------------------

  /** The dot and every character outside ASCII have no symbol. */
  lemma NoSymbol(c: char)
    requires c == '.' || c as int >= 128
    ensures Symbol(c) == ""
  {
  }

  /** No piece glyph of the engine's diagram, nor its dot, is a key of PIECE_SYMBOLS. */
  lemma GlyphHasNoSymbol(b: Board, s: Square)
    ensures Symbol(Glyph(b, EngineStyle(), s)) == ""
  {
    var st := EngineStyle();
    var g := Glyph(b, st, s);
    assert g == '.' || g in st.white || g in st.black;
    assert forall i :: 0 <= i < 6 ==> st.white[i] as int >= 0x2654 && st.black[i] as int >= 0x2654;
    NoSymbol(g);
  }

  /**
   * As written, `update_board` on the engine's diagram (spaces removed, as
   * `fetchState` sends it) reads every cell and blanks every button: the
   * cells hold glyphs, and PIECE_SYMBOLS is keyed by letters.
   */
  lemma DiagramLabelsBlank(b: Board, labels: seq<seq<string>>, row: nat, col: nat)
    requires Grid(labels) && row < 8 && col < 8
    ensures var rows := SplitOn(WithoutSpaces(Diagram(b, EngineStyle())), '/');
      FirstBad(rows, 0).None? && !Shown(labels, rows).1 && Shown(labels, rows).0[row][col] == ""
  {
    var st := EngineStyle();
    var rows := SplitOn(WithoutSpaces(Diagram(b, st)), '/');
    StylesAvoid();
    forall x | 0 <= x < 8 ensures RowReadable(rows, x, 8) {
      PackedDiagramSplit(b, st, x, 0);
    }
    FirstBadFrom(rows, 8);
    PackedDiagramSplit(b, st, row, col);
    ShownWhenReadable(labels, rows, row, col);
    GlyphHasNoSymbol(b, (7 - row) * 8 + col);
  }

  /**
   * The reading evidently intended: the glyph read back as its piece letter
   * first, then looked up.  None is the IndexError, as before.
   */
  function IntendedCellText(rows: seq<string>, row: nat, col: nat): (r: Option<string>)
    ensures r.Some? <==> CellText(rows, row, col).Some?
  {
    if row < |rows| && col < |rows[row]| then Some(Symbol(DecodeGlyph(EngineStyle(), rows[row][col]))) else None
  }

  /**
   * With the intended reading, the button at widget (row, col) shows the
   * symbol of the piece on the square that a click on it selects, and is
   * blank exactly when that square is empty.
   */
  lemma IntendedLabelsShowPieces(b: Board, row: nat, col: nat)
    requires row < 8 && col < 8
    ensures var rows := SplitOn(WithoutSpaces(Diagram(b, EngineStyle())), '/');
      var s := ClickedIndex(row, col);
      IntendedCellText(rows, row, col) == Some(Symbol(SquareChar(b, s))) &&
      (IntendedCellText(rows, row, col) == Some("") <==> EmptyAt(b, s))
  {
    var st := EngineStyle();
    var s := ClickedIndex(row, col);
    StylesAvoid();
    PackedDiagramSplit(b, st, row, col);
    EngineStyleDistinct();
    GlyphRoundTrip(b, st, s);
    SquareSymbol(b, s);
  }

  /** The letter of a square has a symbol exactly when a piece stands there. */
  lemma SquareSymbol(b: Board, s: Square)
    ensures Symbol(SquareChar(b, s)) == "" <==> EmptyAt(b, s)
  {
    SquareCharSpec(b, s);
    PiecePgnTable();
  }

  // ---------------------------------------------------------------------
  // The class
  // ---------------------------------------------------------------------

  /** The inner loop of `update_board` on one widget row: the row set up to its first cell that raises. */
  method PaintRow(line: seq<string>, rows: seq<string>, row: nat) returns (painted: seq<string>, bad: nat)
    requires |line| == 8
    ensures bad == FirstBadCol(rows, row, 0)
    ensures painted == RowPainted(line, rows, row, bad)
  {
    painted := line;
    for col := 0 to 8
      invariant RowReadable(rows, row, col)
      invariant painted == RowPainted(line, rows, row, col)
    {
      var piece := CellText(rows, row, col);
      if piece.None? {
        assert FirstBadCol(rows, row, col) == col;
        FirstBadColFrom(rows, row, col);
        bad := col;
        return;
      }
      painted := painted[col := piece.value];
    }
    FirstBadColFrom(rows, row, 8);
    bad := 8;
  }

  /** Columns that can all be read are skipped by the search for the first bad one. */
  lemma {:induction false} FirstBadColFrom(rows: seq<string>, row: nat, col: nat)
    requires col <= 8 && RowReadable(rows, row, col)
    ensures FirstBadCol(rows, row, 0) == FirstBadCol(rows, row, col)
    decreases col
  {
    if col > 0 {
      FirstBadColFrom(rows, row, col - 1);
      assert CellText(rows, row, col - 1).Some?;
    }
  }

  /** Rows that can all be read are skipped by the search for the first bad cell. */
  lemma {:induction false} FirstBadFrom(rows: seq<string>, row: nat)
    requires row <= 8 && forall x :: 0 <= x < row ==> RowReadable(rows, x, 8)
    ensures FirstBad(rows, 0) == FirstBad(rows, row)
    decreases row
  {
    if row > 0 {
      FirstBadFrom(rows, row - 1);
      FirstBadColFrom(rows, row - 1, 8);
    }
  }

  /** Setting row `row` up to column n after the rows above it. */
  lemma PaintedStep(labels: seq<seq<string>>, rows: seq<string>, row: nat, n: nat,
                    before: seq<seq<string>>, line: seq<string>)
    requires Grid(labels) && row < 8 && n <= 8
    requires forall x :: 0 <= x < row ==> RowReadable(rows, x, 8)
    requires RowReadable(rows, row, n)
    requires before == Painted(labels, rows, row, 0) && line == RowPainted(labels[row], rows, row, n)
    ensures before[row := line] == Painted(labels, rows, row, n)
  {
    assert RowPainted(labels[row], rows, row, 0) == labels[row];
    var after := Painted(labels, rows, row, n);
    forall x | 0 <= x < 8 ensures before[row := line][x] == after[x] {
    }
  }

  /** A row set to its end is the start of the next one. */
  lemma PaintedNextRow(labels: seq<seq<string>>, rows: seq<string>, row: nat)
    requires Grid(labels) && row < 8
    requires forall x :: 0 <= x <= row ==> RowReadable(rows, x, 8)
    ensures Painted(labels, rows, row, 8) == Painted(labels, rows, row + 1, 0)
  {
    if row + 1 < 8 {
      assert RowPainted(labels[row + 1], rows, row + 1, 0) == labels[row + 1];
    }
    var a, b := Painted(labels, rows, row, 8), Painted(labels, rows, row + 1, 0);
    forall x | 0 <= x < 8 ensures a[x] == b[x] {
    }
  }

  /** The two loops of `update_board`, on the button texts. */
  method PaintBoard(labels: seq<seq<string>>, rows: seq<string>) returns (painted: seq<seq<string>>, raised: bool)
    requires Grid(labels)
    ensures (painted, raised) == Shown(labels, rows)
  {
    painted := labels;
    assert labels[0] == RowPainted(labels[0], rows, 0, 0);
    assert painted == Painted(labels, rows, 0, 0);
    for row := 0 to 8
      invariant forall x :: 0 <= x < row ==> RowReadable(rows, x, 8)
      invariant painted == Painted(labels, rows, row, 0)
    {
      ghost var before := painted;
      var line, bad := PaintRow(labels[row], rows, row);
      painted := painted[row := line];
      if bad < 8 {
        FirstBadFrom(rows, row);
        PaintedStep(labels, rows, row, bad, before, line);
        raised := true;
        return;
      }
      PaintedStep(labels, rows, row, 8, before, line);
      PaintedNextRow(labels, rows, row);
    }
    FirstBadFrom(rows, 8);
    raised := false;
  }

  class ChessBoard<!P> {
    /** The engine behind every process the board starts, and the position a new process holds. */
    const core: Engine<P>
    const start: P
    var engine: EngineInteraction?<P>
    var playerColor: bool
    var gameActive: bool
    var selectedSquare: Option<(int, int)>
    var labels: seq<seq<string>>
    var sunken: set<int>
    var notice: Option<string>

    ghost function Snapshot(): Gui<P>
      reads this, engine
    {
      Gui(if engine == null then None else Some(engine.link), playerColor, gameActive, selectedSquare,
          labels, sunken, notice)
    }

    ghost predicate Valid()
      reads this, engine
    {
      (engine != null ==> engine.engine == core) && WellFormed(Snapshot())
    }

    constructor (core: Engine<P>, start: P)
      ensures Valid() && this.core == core && this.start == start && Snapshot() == Initial()
    {
      this.core := core;
      this.start := start;
      engine := null;
      playerColor := true;
      gameActive := false;
      selectedSquare := None;
      labels := seq(8, r => seq(8, c => ""));
      sunken := {};
      notice := None;
    }

    /** `update_board`; `raised` is the IndexError. */
    method UpdateBoard() returns (raised: bool)
      requires Valid()
      modifies this, engine
      ensures Valid() && engine == old(engine)
      ensures (Snapshot(), raised) == Refresh(core, old(Snapshot()))
    {
      ghost var g0 := Snapshot();
      raised := false;
      if !gameActive {
        return;
      }
      ghost var call := Call(core, g0.link.value, FetchStateLine());
      var boardState := engine.FetchState();
      ghost var g1 := g0.(link := Some(call.0));
      assert Snapshot() == g1 && boardState == StateOf(call.1);
      RefreshOf(core, g0, call, boardState, g1);
      if boardState.None? {
        return;
      }
      var rows := SplitOn(boardState.value, '/');
      labels, raised := PaintBoard(labels, rows);
      assert Snapshot() == g1.(labels := labels);
    }

    /** `check_game_status`. */
    method CheckGameStatus()
      requires Valid() && engine != null
      modifies this, engine
      ensures Valid() && engine == old(engine)
      ensures Snapshot() == Status(core, old(Snapshot()))
    {
      var status := engine.IsMate();
      if status.Some? {
        gameActive := false;
        notice := Some(GameOverText(status.value));
      }
    }

    /** `make_bot_move`; `raised` is an IndexError in the refresh. */
    method MakeBotMove() returns (raised: bool)
      requires Valid()
      modifies this, engine
      ensures Valid() && engine == old(engine)
      ensures (Snapshot(), raised) == BotTurn(core, old(Snapshot()))
    {
      raised := false;
      if !gameActive {
        return;
      }
      var moved := engine.BotMove();
      if moved {
        raised := UpdateBoard();
        if raised {
          return;
        }
        CheckGameStatus();
      }
    }

    /** `on_square_click(row, col)`; `raised` is an exception that ends the callback. */
    method OnSquareClick(row: nat, col: nat) returns (raised: bool)
      requires Valid() && row < 8 && col < 8
      modifies this, engine
      ensures Valid() && engine == old(engine)
      ensures (Snapshot(), raised) == Click(core, old(Snapshot()), row, col)
    {
      raised := false;
      if !gameActive {
        return;
      }
      if selectedSquare.None? {
        raised := SelectSquare(row, col);
      } else {
        raised := MoveSelected(row, col);
      }
    }

    /** The first click: select (board row 7 - row), then sink the offered destinations. */
    method SelectSquare(row: nat, col: nat) returns (raised: bool)
      requires Valid() && gameActive && row < 8 && col < 8
      modifies this, engine
      ensures Valid() && engine == old(engine)
      ensures (Snapshot(), raised) == FirstClick(core, old(Snapshot()), row, col)
    {
      ghost var g0 := Snapshot();
      raised := false;
      var r := 7 - row;
      var squareIndex := r * 8 + col;
      assert squareIndex == ClickedIndex(row, col);
      ghost var call := Call(core, g0.link.value, GetMovesLine(squareIndex));
      selectedSquare := Some((r, col));
      var moves := engine.GetMoves(squareIndex);
      ghost var g2 := g0.(selected := Some((r, col)), link := Some(call.0));
      assert Snapshot() == g2 && moves == MovesOf(call.1);
      FirstClickOf(core, g0, row, col, call, moves, g2);
      if moves.None? {
        raised := true;
        assert (Snapshot(), raised) == (g2, true);
        return;
      }
      if moves.value == [] {
        assert (Snapshot(), raised) == (g2, false);
        return;
      }
      sunken := Sunk(moves.value);
      assert Snapshot() == g2.(sunken := Sunk(moves.value));
    }

    /** The second click: `make_move` from the selected square to (7 - row, col). */
    method MoveSelected(row: nat, col: nat) returns (raised: bool)
      requires Valid() && gameActive && selectedSquare.Some? && row < 8 && col < 8
      modifies this, engine
      ensures Valid() && engine == old(engine)
      ensures (Snapshot(), raised) == SecondClick(core, old(Snapshot()), row, col)
    {
      ghost var g0 := Snapshot();
      raised := false;
      var squareIndex := (7 - row) * 8 + col;
      var source := selectedSquare.value.0 * 8 + selectedSquare.value.1;
      assert source == Source(g0) && squareIndex == ClickedIndex(row, col);
      var ok := engine.MakeMove(source, squareIndex);
      ghost var call := Call(core, g0.link.value, MoveLine(Source(g0), ClickedIndex(row, col)));
      assert Snapshot() == g0.(link := Some(call.0));
      assert ok == Answered(call.1, "moveMade");
      if ok {
        raised := FollowMove();
        assert SecondClick(core, g0, row, col) == AfterMove(core, g0.(link := Some(call.0)));
      } else {
        selectedSquare := None;
        sunken := {};
        assert SecondClick(core, g0, row, col) == (g0.(link := Some(call.0), selected := None, sunken := {}), false);
      }
    }

    /** What follows an accepted move: refresh, check the game, clear the selection, let the engine answer a Black player. */
    method FollowMove() returns (raised: bool)
      requires Valid() && gameActive
      modifies this, engine
      ensures Valid() && engine == old(engine)
      ensures (Snapshot(), raised) == AfterMove(core, old(Snapshot()))
    {
      ghost var g0 := Snapshot();
      raised := UpdateBoard();
      ghost var g2 := Snapshot();
      assert (g2, raised) == Refresh(core, g0);
      if raised {
        return;
      }
      CheckGameStatus();
      selectedSquare := None;
      sunken := {};
      ghost var g3 := Snapshot();
      assert g3 == Status(core, g2).(selected := None, sunken := {});
      if gameActive && !playerColor {
        raised := MakeBotMove();
        assert AfterMove(core, g0) == BotTurn(core, g3);
      } else {
        assert AfterMove(core, g0) == (g3, false);
      }
    }

    /** `start_game` with the colour chosen in the radio buttons; `raised` is an IndexError in the first refresh. */
    method StartGame(white: bool) returns (raised: bool)
      requires Valid()
      modifies this, engine
      ensures Valid() && engine != null && fresh(engine)
      ensures (Snapshot(), raised) == Start(core, old(Snapshot()), white, start)
    {
      ghost var g0 := Snapshot();
      if engine != null {
        engine.Close();
      }
      engine := new EngineInteraction(core, start);
      assert Snapshot() == g0.(link := Some(Fresh(start)));
      raised := BeginGame(white);
    }

    /** The rest of `start_game`, on the new process: `init` with the colour, then the first refresh. */
    method BeginGame(white: bool) returns (raised: bool)
      requires Valid() && engine != null && engine.link == Fresh(start)
      modifies this, engine
      ensures Valid() && engine == old(engine)
      ensures (Snapshot(), raised) == Start(core, old(Snapshot()), white, start)
    {
      ghost var g0 := Snapshot();
      ghost var call := Call(core, Fresh(start), InitLine(white));
      raised := false;
      playerColor := white;
      var ok := engine.InitGame(playerColor);
      ghost var g1 := g0.(playerWhite := white, link := Some(call.0));
      assert Snapshot() == g1 && ok == Answered(call.1, "initSuccess");
      if !ok {
        notice := Some("Failed to start the game");
        return;
      }
      gameActive := true;
      assert Snapshot() == g1.(active := true);
      raised := UpdateBoard();
    }
  }
}
