// The Swing board (GUI/ChessGame.java): a mouse press becomes a square
// number, the first press selects, the second asks the JNI bridge for the
// move and, when it is accepted, lets the engine answer.  Painting is left
// out; what a tile shows is stated as a function of the fetched diagram.

module JavaGui {
  import opened Options
  import opened Pieces
  import opened Bitboards
  import opened Boards
  import opened Rendering
  import opened BoardText
  import opened Frontend
  import opened JniBridge

  const TILE_SIZE: nat := 80
  const BOARD_SIZE: nat := 8

  /** The mouse listener: file = 8 - x/TILE_SIZE, rank = 7 - y/TILE_SIZE, square = rank*8 + file. */
  function ClickSquare(x: nat, y: nat): int
  {
    var file := 8 - x / TILE_SIZE;
    var rank := 7 - y / TILE_SIZE;
    rank * 8 + file
  }

  /**
   * What `handleMove` hands the bridge is 64 - square: the tile's row from
   * the top times eight plus its column, a square index for every press
   * on the board.
   */
  lemma ClickIndex(x: nat, y: nat)
    ensures 64 - ClickSquare(x, y) == 8 * (y / TILE_SIZE) + x / TILE_SIZE
    ensures x < TILE_SIZE * BOARD_SIZE && y < TILE_SIZE * BOARD_SIZE ==> 0 <= 64 - ClickSquare(x, y) < 64
  {
  }

  /** Two presses on different tiles of the board name different squares. */
  lemma ClickInjective(x1: nat, y1: nat, x2: nat, y2: nat)
    requires x1 < 640 && y1 < 640 && x2 < 640 && y2 < 640
    requires ClickSquare(x1, y1) == ClickSquare(x2, y2)
    ensures x1 / TILE_SIZE == x2 / TILE_SIZE && y1 / TILE_SIZE == y2 / TILE_SIZE
  {
    ClickIndex(x1, y1);
    ClickIndex(x2, y2);
  }

  /**
   * The piece text `paintComponent` draws on the tile in column `col`,
   * `row` tiles from the top: rows[7 - row] of `split("/")`, then its
   * `split(" ")` at the column.  None is an index out of bounds.
   */
  function TileText(state: string, row: nat, col: nat): (r: Option<string>)
    requires row < 8 && col < 8
    ensures r.Some? ==> |JavaSplit(state, '/')| > 7 - row
  {
    var rows := JavaSplit(state, '/');
    if 7 - row < |rows| then
      var pieces := JavaSplit(rows[7 - row], ' ');
      if col < |pieces| then Some(pieces[col]) else None
    else None
  }

  /**
   * With the engine's diagram, the tile a press lands on (row `y` / TILE_SIZE
   * from the top, column `x` / TILE_SIZE) shows the glyph of exactly the
   * square `s` the press sends to `makeMove`: the drawing is upside down,
   * and so is the click mapping.
   */
  lemma TileShowsClickedSquare(b: Board, x: nat, y: nat, row: nat, col: nat, s: int)
    requires x < TILE_SIZE * BOARD_SIZE && y < TILE_SIZE * BOARD_SIZE
    requires row == y / TILE_SIZE && col == x / TILE_SIZE && s == Sent(ClickSquare(x, y))
    ensures row < 8 && col < 8 && 0 <= s < 64
    ensures TileText(Diagram(b, EngineStyle()), row, col) == Some([Glyph(b, EngineStyle(), s)])
  {
    TileOnBoard(y);
    TileOnBoard(x);
    ClickIndex(x, y);
    TileGlyphAt(b, row, col, s);
  }

  /** The tile at `row`, `col` shows the glyph of square s = 8*row + col. */
  lemma TileGlyphAt(b: Board, row: nat, col: nat, s: int)
    requires row < 8 && col < 8 && s == 8 * row + col
    ensures 0 <= s < 64 && TileText(Diagram(b, EngineStyle()), row, col) == Some([Glyph(b, EngineStyle(), s)])
  {
    TileGlyph(b, row, col);
  }

  /** A coordinate inside the board lies in one of the eight tiles. */
  lemma TileOnBoard(v: nat)
    requires v < TILE_SIZE * BOARD_SIZE
    ensures v / TILE_SIZE < BOARD_SIZE
  {
    assert v == TILE_SIZE * (v / TILE_SIZE) + v % TILE_SIZE;
  }

  /** The tile `row` from the top, column `col`, shows the glyph of square 8*row + col. */
  lemma TileGlyph(b: Board, row: nat, col: nat)
    requires row < 8 && col < 8
    ensures TileText(Diagram(b, EngineStyle()), row, col) == Some([Glyph(b, EngineStyle(), 8 * row + col)])
  {
    var st := EngineStyle();
    StylesAvoid();
    EngineRows(b);
    var rows := JavaSplit(Diagram(b, st), '/');
    assert rows[7 - row] == RankCells(b, st, row, 8);
    RankCellsSplit(b, st, row);
    var pieces := JavaSplit(rows[7 - row], ' ');
    assert pieces == RankGlyphs(b, st, row);
    assert row * 8 + col == 8 * row + col;
    assert pieces[col] == [Glyph(b, st, 8 * row + col)];
    assert TileText(Diagram(b, st), row, col) == Some(pieces[col]);
  }

  /** Java's `split("/")` of the engine's diagram: the eight rank rows, rank 8 first. */
  lemma EngineRows(b: Board)
    ensures JavaSplit(Diagram(b, EngineStyle()), '/') == RankRows(b, EngineStyle(), 0)
  {
    var st := EngineStyle();
    StylesAvoid();
    var rows := RankRows(b, st, 0);
    assert |rows[7]| == 16;
    forall p | p in rows ensures '/' !in p {
      var k :| 0 <= k < 8 && rows[k] == p;
      RankCellsAvoid(b, st, 7 - k, '/');
    }
    DiagramRanksTerminated(b, st, 0);
    JavaSplitTerminated(rows, '/');
  }

  /** The number `handleMove` hands the bridge for a square: 64 - square. */
  function Sent(square: int): int
  {
    64 - square
  }

  /** The position after an accepted second press: the player's move, then the engine's reply for the other side. */
  function Answered<P>(e: Engine<P>, p: P, isWhite: bool): P
  {
    e.play(p, e.bestMove(p, BotColor(!isWhite)))
  }

  class ChessGame<!P> {
    const bridge: Bridge<P>
    var isWhite: bool
    /** -1 while nothing is selected. */
    var selectedSquare: int
    /** The last fetched diagram; None before the first fetch. */
    var boardState: Option<string>

    /** The constructor: the bridge starts a game with the player as White, then the board is fetched. */
    constructor (engine: Engine<P>, start: P)
      ensures isWhite && selectedSquare == -1
      ensures bridge.engine == engine && bridge.position == engine.initial
      ensures boardState == Some(engine.display(engine.initial))
    {
      bridge := new Bridge(engine, start);
      isWhite := true;
      selectedSquare := -1;
      boardState := None;
      new;
      var ok := bridge.InitGame(isWhite);
      UpdateBoard();
    }

    /** `updateBoard`: fetch the diagram; the repaint is left out. */
    method UpdateBoard()
      modifies this
      ensures boardState == Some(bridge.engine.display(bridge.position))
      ensures isWhite == old(isWhite) && selectedSquare == old(selectedSquare)
    {
      boardState := Some(bridge.FetchState(isWhite));
    }

    /**
     * `handleMove`: a first press only records the square; a second sends
     * the two squares as 64 - square for the side opposite `isWhite`, and on
     * success the engine moves for `isWhite`'s side.  Either way the
     * selection is cleared.
     */
    method HandleMove(square: int)
      modifies this, bridge
      ensures isWhite == old(isWhite)
      ensures old(selectedSquare) == -1 ==>
        selectedSquare == square && bridge.position == old(bridge.position) && boardState == old(boardState)
      ensures old(selectedSquare) != -1 ==> selectedSquare == -1
      ensures old(selectedSquare) != -1 ==>
        var r := MoveResult(bridge.engine, old(bridge.position), Sent(old(selectedSquare)), Sent(square), !isWhite);
        (r.None? ==> bridge.position == old(bridge.position) && boardState == old(boardState)) &&
        (r.Some? ==> bridge.position == Answered(bridge.engine, r.value, isWhite) &&
                     boardState == Some(bridge.engine.display(bridge.position)))
    {
      if selectedSquare == -1 {
        selectedSquare := square;
      } else {
        SecondPress(selectedSquare, square);
      }
    }

    /** The second press of `handleMove`, from the selected square to `toSquare`. */
    method SecondPress(fromSquare: int, toSquare: int)
      modifies this, bridge
      ensures isWhite == old(isWhite) && selectedSquare == -1
      ensures var r := MoveResult(bridge.engine, old(bridge.position), Sent(fromSquare), Sent(toSquare), !isWhite);
        (r.None? ==> bridge.position == old(bridge.position) && boardState == old(boardState)) &&
        (r.Some? ==> bridge.position == Answered(bridge.engine, r.value, isWhite) &&
                     boardState == Some(bridge.engine.display(bridge.position)))
    {
      var from, to, playerIsWhite := Sent(fromSquare), Sent(toSquare), !isWhite;
      var success := bridge.MakeMove(from, to, playerIsWhite);
      if success {
        UpdateBoard();
        selectedSquare := -1;
        var botMoved := bridge.BotMove(!isWhite);
        UpdateBoard();
      } else {
        selectedSquare := -1;
      }
    }
  }

  /**
   * With the constructor's `isWhite`, the player's presses move Black and
   * the engine answers as White; the move committed is a generated Black
   * move between the two sent squares.
   */
  lemma SecondPressColors<P>(e: Engine<P>, p: P, from: int, to: int)
    ensures MoverColor(!true) == BLACK && BotColor(!true) == WHITE
    ensures MoveResult(e, p, 64 - from, 64 - to, !true).Some? <==>
      exists m :: m in e.generate(p, BLACK) && m.fromSquare == 64 - from && m.toSquare == 64 - to
  {
    if MoveResult(e, p, 64 - from, 64 - to, !true).None? {
      forall m | m in e.generate(p, BLACK) ensures !(m.fromSquare == 64 - from && m.toSquare == 64 - to) {
        assert !Matches(m, 64 - from, 64 - to);
      }
    } else {
      var m :| m in e.generate(p, BLACK) && Matches(m, 64 - from, 64 - to) &&
               MoveResult(e, p, 64 - from, 64 - to, !true).value == e.play(p, Committed(m));
    }
  }
}
