// The line server the tkinter board talks to (GUI/API/API.cpp): it reads
// one command per line, acts on the engine's current position and writes
// at most one reply line.  Respond is one command on values; Server is the
// program's loop with its three variables (the position, whether the
// player is White, and the last colour word read).

module ApiServer {
  import opened Options
  import opened Pieces
  import opened Moves
  import opened Rendering
  import opened Text
  import opened Frontend

  /** A command line after `iss >> action` and the reads that follow it. */
  datatype Command =
    | Init(word: Option<string>)
    | MoveCmd(from: int, to: int)
    | FetchState
    | BotMove
    | IsMate
    | GetMoves(square: int)
    | Quit
    | Other

  /** A value `iss >> int` can hold. */
  predicate InInt(n: int)
  {
    -0x8000_0000 <= n < 0x8000_0000
  }

  /** The model's reading of `iss >> n` on token i: a whole decimal token that fits an int. */
  function ReadInt(tokens: seq<string>, i: nat): (r: Option<int>)
    ensures r.Some? ==> i < |tokens| && InInt(r.value) && PyInt(tokens[i]) == r
  {
    if i < |tokens| then
      match PyInt(tokens[i])
      case Some(n) => if InInt(n) then Some(n) else None
      case None => None
    else None
  }

  /** The word `iss >> action` reads: the line's first word, "" for a blank line. */
  function Action(line: string): string
  {
    var tokens := Split(line);
    if |tokens| > 0 then tokens[0] else ""
  }

  /** The seven words the dispatcher has a branch for. */
  const ACTIONS: set<string> := {"init", "move", "fetchState", "botMove", "isMate", "getMoves", "quit"}

  /** The word whose branch handles a command; "" for a line no branch takes. */
  function ActionWord(c: Command): string
  {
    match c
    case Init(_) => "init"
    case MoveCmd(_, _) => "move"
    case FetchState => "fetchState"
    case BotMove => "botMove"
    case IsMate => "isMate"
    case GetMoves(_) => "getMoves"
    case Quit => "quit"
    case Other => ""
  }

  /**
   * The command a line holds: the branch its first word selects, with the
   * colour word or the square numbers read after it.  Any other word falls
   * through every branch.  None is a `move` or `getMoves` line whose numbers
   * are not whole ints; the variables the stream then leaves are not followed.
   */
  function ParseCommand(line: string): (r: Option<Command>)
    ensures r == Some(Other) <==> Action(line) !in ACTIONS
    ensures r.Some? && r.value != Other ==> ActionWord(r.value) == Action(line)
    ensures r.None? <==>
      (Action(line) == "move" && (ReadInt(Split(line), 1).None? || ReadInt(Split(line), 2).None?)) ||
      (Action(line) == "getMoves" && ReadInt(Split(line), 1).None?)
    ensures r.Some? && r.value.Init? ==> r.value.word == (if |Split(line)| > 1 then Some(Split(line)[1]) else None)
    ensures r.Some? && r.value.MoveCmd? ==> ReadInt(Split(line), 1) == Some(r.value.from) && ReadInt(Split(line), 2) == Some(r.value.to)
    ensures r.Some? && r.value.GetMoves? ==> ReadInt(Split(line), 1) == Some(r.value.square)
  {
    var tokens := Split(line);
    var action := Action(line);
    if action == "init" then Some(Init(if |tokens| > 1 then Some(tokens[1]) else None))
    else if action == "move" then
      (match (ReadInt(tokens, 1), ReadInt(tokens, 2))
       case (Some(f), Some(t)) => Some(MoveCmd(f, t))
       case _ => None)
    else if action == "fetchState" then Some(FetchState)
    else if action == "botMove" then Some(BotMove)
    else if action == "isMate" then Some(IsMate)
    else if action == "getMoves" then
      (match ReadInt(tokens, 1)
       case Some(s) => Some(GetMoves(s))
       case None => None)
    else if action == "quit" then Some(Quit)
    else Some(Other)
  }

  /** The loop's variables: the engine's position, `pIsWhite` and `pColorStr`. */
  datatype State<!P> = State(position: P, playerIsWhite: bool, colorWord: string)

  function PlayerColor<P>(s: State<P>): (c: Color)
    ensures c == WHITE <==> s.playerIsWhite
  {
    if s.playerIsWhite then WHITE else BLACK
  }

  /** The reply to `isMate`: nothing while both sides can move. */
  function MateReply<P>(e: Engine<P>, p: P): Option<string>
  {
    var noMovesWhite := e.generate(p, WHITE) == [];
    var noMovesBlack := e.generate(p, BLACK) == [];
    if noMovesWhite || noMovesBlack then
      if (noMovesWhite && e.inCheck(p, WHITE)) || (noMovesBlack && e.inCheck(p, BLACK)) then
        Some(if noMovesWhite then "blackWins" else "whiteWins")
      else Some("staleMate")
    else None
  }

  /** Each destination written as `operator<<` writes an int. */
  function Texts(ds: seq<int>): (r: seq<string>)
    ensures |r| == |ds| && forall i :: 0 <= i < |ds| ==> r[i] == IntText(ds[i])
  {
    seq(|ds|, i requires 0 <= i < |ds| => IntText(ds[i]))
  }

  /** The reply to `getMoves`: "moves", then " " and a square per destination. */
  function MovesReply(ds: seq<int>): string
  {
    "moves" + Joined(Texts(ds))
  }

  /** One command: the new variables and the reply line, if any. */
  function Respond<P>(e: Engine<P>, s: State<P>, cmd: Command): (State<P>, Option<string>)
  {
    match cmd
    case Init(w) =>
      var word := if w.Some? then w.value else s.colorWord;
      var white := word == "white";
      var start := e.initial;
      var pos := if white then start else e.play(start, e.bestMove(start, WHITE));
      (State(pos, white, word), Some("initSuccess"))
    case MoveCmd(f, t) =>
      (match FindMove(e.generate(s.position, PlayerColor(s)), f, t)
       case None => (s, Some("invalidMove"))
       case Some(m) => (s.(position := e.play(s.position, Committed(m))), Some("moveMade")))
    case FetchState => (s, Some(WithoutSpaces(e.display(s.position))))
    case BotMove =>
      var bot := InvertColor(PlayerColor(s));
      (s.(position := e.play(s.position, e.bestMove(s.position, bot))), Some("botMoved"))
    case IsMate => (s, MateReply(e, s.position))
    case GetMoves(sq) => (s, Some(MovesReply(Destinations(MovesFrom(e.generate(s.position, PlayerColor(s)), sq)))))
    case Quit => (s, None)
    case Other => (s, None)
  }

  /** The commands up to the first `quit`, and the replies written. */
  function Session<P>(e: Engine<P>, s: State<P>, cmds: seq<Command>): (State<P>, seq<Option<string>>)
    decreases |cmds|
  {
    if cmds == [] || cmds[0] == Quit then (s, [])
    else
      var first := Respond(e, s, cmds[0]);
      var rest := Session(e, first.0, cmds[1..]);
      (rest.0, [first.1] + rest.1)
  }

  // ---------------------------------------------------------------------
  // What each command does
  // ---------------------------------------------------------------------

  /**
   * `init`: the player is White exactly when the colour word is "white";
   * the position is the start, after the engine's first move as White when
   * the player is Black.  Without a word, the previous word is used again.
   */
  lemma InitSetsColor<P>(e: Engine<P>, s: State<P>, w: Option<string>)
    ensures var (s', reply) := Respond(e, s, Init(w));
      var word := if w.Some? then w.value else s.colorWord;
      reply == Some("initSuccess") && s'.colorWord == word &&
      (s'.playerIsWhite <==> word == "white") &&
      (s'.playerIsWhite ==> s'.position == e.initial) &&
      (!s'.playerIsWhite ==> s'.position == e.play(e.initial, e.bestMove(e.initial, WHITE)))
  {
  }

  /**
   * `move`: accepted exactly when one of the player's generated moves joins
   * the two squares; then that move, with a queen for a promotion, is
   * played, and otherwise nothing changes.
   */
  lemma MoveAcceptsOnlyGenerated<P>(e: Engine<P>, s: State<P>, f: int, t: int)
    ensures var (s', reply) := Respond(e, s, MoveCmd(f, t));
      var legal := e.generate(s.position, PlayerColor(s));
      (reply == Some("moveMade") || reply == Some("invalidMove")) &&
      (reply == Some("moveMade") <==> exists m :: m in legal && Matches(m, f, t)) &&
      (reply == Some("invalidMove") ==> s' == s) &&
      (reply == Some("moveMade") ==>
        exists m :: m in legal && Matches(m, f, t) && s' == s.(position := e.play(s.position, Committed(m))))
  {
    var legal := e.generate(s.position, PlayerColor(s));
    var found := FindMove(legal, f, t);
    if found.Some? {
      assert found.value in legal && Matches(found.value, f, t);
    }
  }

  /** `fetchState` changes nothing and replies with the diagram, its spaces removed. */
  lemma FetchStateReply<P>(e: Engine<P>, s: State<P>)
    ensures var (s', reply) := Respond(e, s, FetchState);
      s' == s && reply.Some? && reply.value == WithoutSpaces(e.display(s.position)) &&
      forall i :: 0 <= i < |reply.value| ==> reply.value[i] != ' '
  {
  }

  /** `botMove`: the engine plays its best move for the side opposite the player. */
  lemma BotMovePlaysOpponent<P>(e: Engine<P>, s: State<P>)
    ensures var (s', reply) := Respond(e, s, BotMove);
      var bot := if s.playerIsWhite then BLACK else WHITE;
      reply == Some("botMoved") && s'.playerIsWhite == s.playerIsWhite && s'.colorWord == s.colorWord &&
      s'.position == e.play(s.position, e.bestMove(s.position, bot))
  {
  }

  /**
   * `isMate`: no reply while both sides can move; "whiteWins" exactly when
   * White can move and Black is mated; "blackWins" only when White cannot
   * move and one side is mated; otherwise "staleMate".
   */
  lemma MateReplyMeaning<P>(e: Engine<P>, p: P)
    ensures MateReply(e, p).None? <==> e.generate(p, WHITE) != [] && e.generate(p, BLACK) != []
    ensures MateReply(e, p) == Some("whiteWins") <==>
      e.generate(p, WHITE) != [] && e.generate(p, BLACK) == [] && e.inCheck(p, BLACK)
    ensures MateReply(e, p) == Some("blackWins") ==> e.generate(p, WHITE) == [] && CheckMate(e, p)
    ensures MateReply(e, p) == Some("staleMate") <==> StaleMate(e, p) && !CheckMate(e, p)
  {
  }

  /** `getMoves`: the destinations of the player's moves from the square, in generation order. */
  lemma GetMovesReply<P>(e: Engine<P>, s: State<P>, sq: int)
    ensures var (s', reply) := Respond(e, s, GetMoves(sq));
      var ds := Destinations(MovesFrom(e.generate(s.position, PlayerColor(s)), sq));
      s' == s && reply == Some(MovesReply(ds)) &&
      forall t :: t in ds <==> FindMove(e.generate(s.position, PlayerColor(s)), sq, t).Some?
  {
    var legal := e.generate(s.position, PlayerColor(s));
    forall t
      ensures t in Destinations(MovesFrom(legal, sq)) <==> FindMove(legal, sq, t).Some?
    {
      OfferedIffFound(legal, sq, t);
    }
  }

  /** Only `init`, an accepted `move` and `botMove` change the variables. */
  lemma QueriesKeepState<P>(e: Engine<P>, s: State<P>, cmd: Command)
    requires cmd.FetchState? || cmd.IsMate? || cmd.GetMoves? || cmd.Quit? || cmd.Other?
    ensures Respond(e, s, cmd).0 == s
  {
  }

  /** A session stops at the first `quit`: nothing after it is read. */
  lemma {:induction false} QuitEndsSession<P>(e: Engine<P>, s: State<P>, before: seq<Command>, after: seq<Command>)
    requires Quit !in before
    ensures Session(e, s, before + [Quit] + after) == Session(e, s, before + [Quit])
    decreases |before|
  {
    if before == [] {
      assert (before + [Quit] + after)[0] == Quit;
      assert (before + [Quit])[0] == Quit;
    } else {
      var s1 := Respond(e, s, before[0]).0;
      assert (before + [Quit] + after)[1..] == before[1..] + [Quit] + after;
      assert (before + [Quit])[1..] == before[1..] + [Quit];
      QuitEndsSession(e, s1, before[1..], after);
    }
  }

  lemma {:induction false} JoinedSnoc(ts: seq<string>, t: string)
    ensures Joined(ts + [t]) == Joined(ts) + " " + t
    decreases |ts|
  {
    if ts == [] {
      assert [] + [t] == [t];
      assert Joined([t]) == " " + t + Joined([]);
    } else {
      assert (ts + [t])[0] == ts[0];
      assert (ts + [t])[1..] == ts[1..] + [t];
      JoinedSnoc(ts[1..], t);
    }
  }

  // ---------------------------------------------------------------------
  // The program
  // ---------------------------------------------------------------------

  class Server<!P> {
    const engine: Engine<P>
    var position: P
    var playerIsWhite: bool
    var colorWord: string

    function Current(): State<P>
      reads this
    {
      State(position, playerIsWhite, colorWord)
    }

    /** Before the loop: the player is White and no colour word has been read. */
    constructor (engine: Engine<P>, start: P)
      ensures this.engine == engine && Current() == State(start, true, "")
    {
      this.engine := engine;
      position := start;
      playerIsWhite := true;
      colorWord := "";
    }

    /** The loop body for one command line. */
    method Handle(cmd: Command) returns (reply: Option<string>)
      modifies this
      ensures (Current(), reply) == Respond(engine, old(Current()), cmd)
    {
      match cmd
      case Init(w) =>
        if w.Some? {
          colorWord := w.value;
        }
        playerIsWhite := colorWord == "white";
        position := engine.initial;
        if !playerIsWhite {
          position := engine.play(position, engine.bestMove(position, WHITE));
        }
        reply := Some("initSuccess");
      case MoveCmd(f, t) =>
        var color := if playerIsWhite then WHITE else BLACK;
        var legalMoves := engine.generate(position, color);
        match FindMove(legalMoves, f, t) {
          case None =>
            reply := Some("invalidMove");
          case Some(m) =>
            var move := m;
            if move.isPromotion {
              move := move.(promotionPiece := QUEEN);
            }
            position := engine.play(position, move);
            reply := Some("moveMade");
        }
      case FetchState =>
        var returnable := StripSpaces(engine.display(position));
        reply := Some(returnable);
      case BotMove =>
        var bot := if playerIsWhite then BLACK else WHITE;
        position := engine.play(position, engine.bestMove(position, bot));
        reply := Some("botMoved");
      case IsMate =>
        reply := MateReply(engine, position);
      case GetMoves(sq) =>
        var color := if playerIsWhite then WHITE else BLACK;
        var relevantMoves := MovesFrom(engine.generate(position, color), sq);
        var out := WriteMoves(relevantMoves);
        reply := Some(out);
      case Quit =>
        reply := None;
      case Other =>
        reply := None;
    }

    /** `while (true)`: one command per line until `quit` or the end of the commands. */
    method Serve(commands: seq<Command>) returns (replies: seq<Option<string>>)
      modifies this
      ensures (Current(), replies) == Session(engine, old(Current()), commands)
    {
      ghost var s0 := Current();
      replies := [];
      var i := 0;
      assert commands[i..] == commands;
      while i < |commands| && commands[i] != Quit
        invariant 0 <= i <= |commands|
        invariant Session(engine, s0, commands).0 == Session(engine, Current(), commands[i..]).0
        invariant Session(engine, s0, commands).1 == replies + Session(engine, Current(), commands[i..]).1
        decreases |commands| - i
      {
        ghost var before := Current();
        assert commands[i..][1..] == commands[i + 1..];
        var reply := Handle(commands[i]);
        ghost var rest := Session(engine, Current(), commands[i + 1..]);
        assert Session(engine, before, commands[i..]) == (rest.0, [reply] + rest.1);
        replies := replies + [reply];
        i := i + 1;
      }
      assert Session(engine, Current(), commands[i..]) == (Current(), []);
      assert replies + [] == replies;
    }
  }

  /** The `fetchState` loop: every character but the spaces, in order. */
  method StripSpaces(state: string) returns (returnable: string)
    ensures returnable == WithoutSpaces(state)
  {
    returnable := "";
    var i := 0;
    while i < |state|
      invariant 0 <= i <= |state|
      invariant returnable == WithoutSpaces(state[..i])
    {
      assert state[..i + 1] == state[..i] + [state[i]];
      WithoutSpacesAppend(state[..i], [state[i]]);
      if state[i] != ' ' {
        returnable := returnable + [state[i]];
      }
      i := i + 1;
    }
    assert state[..i] == state;
  }

  /** One more destination adds a space and its square to the reply. */
  lemma MovesPrefixStep(moves: seq<Move>, k: nat)
    requires k < |moves|
    ensures var ts := Texts(Destinations(moves));
      "moves" + Joined(ts[..k + 1]) == "moves" + Joined(ts[..k]) + " " + IntText(moves[k].toSquare)
  {
    var ts := Texts(Destinations(moves));
    var text, joined := IntText(moves[k].toSquare), Joined(ts[..k]);
    assert Destinations(moves)[k] == moves[k].toSquare;
    assert ts[k] == text;
    TakeSnoc(ts, k);
    JoinedSnoc(ts[..k], text);
    ConcatAssoc("moves", joined + " ", text);
    ConcatAssoc("moves", joined, " ");
  }

  lemma ConcatAssoc<T>(a: seq<T>, b: seq<T>, c: seq<T>)
    ensures a + (b + c) == a + b + c
  {
  }

  lemma TakeSnoc<T>(s: seq<T>, k: nat)
    requires k < |s|
    ensures s[..k + 1] == s[..k] + [s[k]]
  {
  }

  /** The `getMoves` output loop. */
  method WriteMoves(relevantMoves: seq<Move>) returns (out: string)
    ensures out == MovesReply(Destinations(relevantMoves))
  {
    ghost var ts := Texts(Destinations(relevantMoves));
    out := "moves";
    var k := 0;
    while k < |relevantMoves|
      invariant 0 <= k <= |relevantMoves|
      invariant out == "moves" + Joined(ts[..k])
    {
      var text := IntText(relevantMoves[k].toSquare);
      MovesPrefixStep(relevantMoves, k);
      out := out + " " + text;
      k := k + 1;
    }
    assert ts[..k] == ts;
  }
}
