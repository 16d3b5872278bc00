// The Python side of the line protocol (GUI/API/API.py): each call writes
// one command line to the server's stdin and takes the next line from the
// queue the reader thread fills, stripped, empty lines dropped.  The
// server runs as ApiServer.Respond; a Link is the two processes together.
// A reply is taken to reach the queue before the five-second wait ends,
// and a command with no reply leaves the queue as it was, so the wait
// ends with None.

module ApiClient {
  import opened Options
  import opened Pieces
  import opened Moves
  import opened Rendering
  import opened Text
  import opened Frontend
  import opened ApiServer

  // ---------------------------------------------------------------------
  // Lines as the reader thread sees them
  // ---------------------------------------------------------------------

  /** The lines `readline` returns from `text`, the open line `cur` first; an unterminated tail is never returned. */
  function LinesFrom(text: string, cur: string): seq<string>
    decreases |text|
  {
    if text == [] then []
    else if text[0] == '\n' then [cur] + LinesFrom(text[1..], [])
    else LinesFrom(text[1..], cur + [text[0]])
  }

  /** The lines that reach the queue: stripped, the empty ones left out. */
  function Kept(lines: seq<string>): (r: seq<string>)
    ensures forall l :: l in r ==> l != []
  {
    if lines == [] then []
    else (if Strip(lines[0]) == [] then [] else [Strip(lines[0])]) + Kept(lines[1..])
  }

  /** What one reply (written with `std::endl`) adds to the queue. */
  function Queued(reply: Option<string>): seq<string>
  {
    if reply.None? then [] else Kept(LinesFrom(reply.value + "\n", []))
  }

  /** A text the reader thread takes as exactly one queued line. */
  predicate OneLine(text: string)
  {
    text != [] && !IsSpace(text[0]) && !IsSpace(text[|text| - 1]) &&
    forall i :: 0 <= i < |text| ==> text[i] != '\n'
  }

  lemma {:induction false} LinesOfOneLine(text: string, cur: string)
    requires forall i :: 0 <= i < |text| ==> text[i] != '\n'
    ensures LinesFrom(text + "\n", cur) == [cur + text]
    decreases |text|
  {
    if text == [] {
      assert text + "\n" == "\n";
      assert LinesFrom("\n", cur) == [cur] + LinesFrom([], []);
      assert cur + text == cur;
    } else {
      assert (text + "\n")[0] == text[0];
      assert (text + "\n")[1..] == text[1..] + "\n";
      LinesOfOneLine(text[1..], cur + [text[0]]);
      assert cur + [text[0]] + text[1..] == cur + text;
    }
  }

  /** A one-line reply reaches the queue unchanged. */
  lemma QueuedOneLine(text: string)
    requires OneLine(text)
    ensures Queued(Some(text)) == [text]
  {
    LinesOfOneLine(text, []);
    assert [] + text == text;
    assert Strip(text) == text;
    assert Kept([text]) == [text] + Kept([]);
  }

  // ---------------------------------------------------------------------
  // The two processes
  // ---------------------------------------------------------------------

  /** The server's variables, whether it still runs, and the response queue. */
  datatype Link<!P> = Link(server: State<P>, running: bool, queue: seq<string>)

  /**
   * `send_command(line)`: the server handles the line and its reply lines
   * are queued.  After `quit` the server has stopped and nothing more is
   * written or read.
   */
  function Deliver<P>(e: Engine<P>, l: Link<P>, line: string): (r: Link<P>)
    requires ParseCommand(line).Some?
    ensures !l.running ==> r == l
  {
    if !l.running then l
    else
      var cmd := ParseCommand(line).value;
      if cmd == Quit then l.(running := false)
      else
        var (s', reply) := Respond(e, l.server, cmd);
        Link(s', true, l.queue + Queued(reply))
  }

  /** `get_response()`: the oldest queued line, or None when the wait ends with an empty queue. */
  function Receive<P>(l: Link<P>): (Link<P>, Option<string>)
  {
    if l.queue == [] then (l, None) else (l.(queue := l.queue[1..]), Some(l.queue[0]))
  }

  /** A command and the line read for it. */
  function Call<P>(e: Engine<P>, l: Link<P>, line: string): (Link<P>, Option<string>)
    requires ParseCommand(line).Some?
  {
    Receive(Deliver(e, l, line))
  }

  // ---------------------------------------------------------------------
  // The command lines and how their answers are read
  // ---------------------------------------------------------------------

  function InitLine(isWhite: bool): (r: string)
    ensures ParseCommand(r) == Some(Init(Some(if isWhite then "white" else "black")))
  {
    InitLineParses(isWhite);
    "init " + (if isWhite then "white" else "black")
  }

  function MoveLine(from: int, to: int): (r: string)
    requires InInt(from) && InInt(to)
    ensures ParseCommand(r) == Some(MoveCmd(from, to))
  {
    MoveLineParses(from, to);
    "move " + IntText(from) + " " + IntText(to)
  }

  function GetMovesLine(square: int): (r: string)
    requires InInt(square)
    ensures ParseCommand(r) == Some(GetMoves(square))
  {
    GetMovesLineParses(square);
    "getMoves " + IntText(square)
  }

  function FetchStateLine(): (r: string)
    ensures ParseCommand(r) == Some(FetchState)
  {
    WordParses("fetchState", FetchState);
    "fetchState"
  }

  function BotMoveLine(): (r: string)
    ensures ParseCommand(r) == Some(BotMove)
  {
    WordParses("botMove", BotMove);
    "botMove"
  }

  function IsMateLine(): (r: string)
    ensures ParseCommand(r) == Some(IsMate)
  {
    WordParses("isMate", IsMate);
    "isMate"
  }

  function QuitLine(): (r: string)
    ensures ParseCommand(r) == Some(Quit)
  {
    WordParses("quit", Quit);
    "quit"
  }

  /** `response == word if response else False`. */
  predicate Answered(response: Option<string>, word: string)
  {
    response.Some? && response.value != [] && response.value == word
  }

  /** `fetch_state`'s result: the response, or None for no or an empty response. */
  function StateOf(response: Option<string>): (r: Option<string>)
    ensures r.Some? ==> r == response && r.value != []
  {
    if response.Some? && response.value != [] then response else None
  }

  /** `is_mate`'s result: one of the three outcomes, or None. */
  function MateOf(response: Option<string>): (r: Option<string>)
    ensures r.Some? ==> r == response
    ensures r.None? ==> response != Some("whiteWins") && response != Some("blackWins") && response != Some("staleMate")
  {
    if response == Some("whiteWins") || response == Some("blackWins") || response == Some("staleMate") then response
    else None
  }

  /** `int()` over a list of tokens; None is the ValueError one of them raises. */
  function ParseAll(tokens: seq<string>): (r: Option<seq<int>>)
    ensures r.Some? ==> |r.value| == |tokens| && forall i :: 0 <= i < |tokens| ==> PyInt(tokens[i]) == Some(r.value[i])
  {
    if tokens == [] then Some([])
    else
      match PyInt(tokens[0])
      case None => None
      case Some(n) =>
        match ParseAll(tokens[1..])
        case None => None
        case Some(ns) => Some([n] + ns)
  }

  /** `get_moves`' result: the numbers after "moves", [] for any other response, None for the ValueError. */
  function MovesOf(response: Option<string>): Option<seq<int>>
  {
    if response.Some? && response.value != [] && StartsWith(response.value, "moves") then
      var tokens := Split(response.value);
      ParseAll(if |tokens| > 0 then tokens[1..] else [])
    else Some([])
  }

  // ---------------------------------------------------------------------
  // The lines parse back to the commands meant
  // ---------------------------------------------------------------------

  lemma SplitPair(a: string, b: string)
    requires IsToken(a) && IsToken(b)
    ensures Split(a + " " + b) == [a, b]
  {
    SplitJoined(a, [b]);
    assert Joined([b]) == " " + b + Joined([]);
    assert a + Joined([b]) == a + " " + b;
  }

  lemma SplitTriple(a: string, b: string, c: string)
    requires IsToken(a) && IsToken(b) && IsToken(c)
    ensures Split(a + " " + b + " " + c) == [a, b, c]
  {
    SplitJoined(a, [b, c]);
    assert Joined([c]) == " " + c + Joined([]);
    assert Joined([b, c]) == " " + b + Joined([c]);
    assert a + Joined([b, c]) == a + " " + b + " " + c;
  }

  lemma InitLineParses(isWhite: bool)
    ensures ParseCommand("init " + (if isWhite then "white" else "black")) == Some(Init(Some(if isWhite then "white" else "black")))
  {
    var w := if isWhite then "white" else "black";
    SplitPair("init", w);
    assert "init " + w == "init" + " " + w;
    var tokens := Split("init " + w);
    assert tokens == ["init", w];
  }

  lemma MoveLineParses(from: int, to: int)
    requires InInt(from) && InInt(to)
    ensures ParseCommand("move " + IntText(from) + " " + IntText(to)) == Some(MoveCmd(from, to))
  {
    IntTextReadBack(from);
    IntTextReadBack(to);
    SplitTriple("move", IntText(from), IntText(to));
    assert "move " + IntText(from) + " " + IntText(to) == "move" + " " + IntText(from) + " " + IntText(to);
    var tokens := Split("move " + IntText(from) + " " + IntText(to));
    assert tokens == ["move", IntText(from), IntText(to)];
    assert ReadInt(tokens, 1) == Some(from);
    assert ReadInt(tokens, 2) == Some(to);
  }

  lemma GetMovesLineParses(square: int)
    requires InInt(square)
    ensures ParseCommand("getMoves " + IntText(square)) == Some(GetMoves(square))
  {
    IntTextReadBack(square);
    SplitPair("getMoves", IntText(square));
    assert "getMoves " + IntText(square) == "getMoves" + " " + IntText(square);
    var tokens := Split("getMoves " + IntText(square));
    assert tokens == ["getMoves", IntText(square)];
    assert ReadInt(tokens, 1) == Some(square);
  }

  lemma WordParses(word: string, cmd: Command)
    requires word in {"fetchState", "botMove", "isMate", "quit"}
    requires cmd == (if word == "fetchState" then FetchState else if word == "botMove" then BotMove
                     else if word == "isMate" then IsMate else Quit)
    ensures ParseCommand(word) == Some(cmd)
  {
    SplitJoined(word, []);
    assert word + Joined([]) == word;
    assert Split(word) == [word];
  }

  // ---------------------------------------------------------------------
  // In step: every call reads its own reply
  // ---------------------------------------------------------------------

  /** Both processes are up and no reply is waiting unread. */
  predicate InStep<P>(l: Link<P>)
  {
    l.running && l.queue == []
  }

  lemma WordOneLine(w: string)
    requires w in {"initSuccess", "moveMade", "invalidMove", "botMoved", "whiteWins", "blackWins", "staleMate"}
    ensures OneLine(w)
  {
  }

  /** `init_game` from a link in step: true, the player's colour set, still in step. */
  lemma InitInStep<P>(e: Engine<P>, l: Link<P>, isWhite: bool)
    requires InStep(l)
    ensures var (l', response) := Call(e, l, InitLine(isWhite));
      Answered(response, "initSuccess") && InStep(l') && (l'.server.playerIsWhite <==> isWhite)
  {
    WordOneLine("initSuccess");
    QueuedOneLine("initSuccess");
  }

  /**
   * `make_move` from a link in step: true exactly when the server found a
   * generated move of the player's colour joining the squares, and the
   * link stays in step.
   */
  lemma MakeMoveInStep<P>(e: Engine<P>, l: Link<P>, from: int, to: int)
    requires InStep(l) && InInt(from) && InInt(to)
    ensures var (l', response) := Call(e, l, MoveLine(from, to));
      var legal := e.generate(l.server.position, PlayerColor(l.server));
      InStep(l') && l'.server == Respond(e, l.server, MoveCmd(from, to)).0 &&
      (Answered(response, "moveMade") <==> FindMove(legal, from, to).Some?)
  {
    WordOneLine("moveMade");
    WordOneLine("invalidMove");
    QueuedOneLine("moveMade");
    QueuedOneLine("invalidMove");
  }

  /** `bot_move` from a link in step: true, the engine's move for the other side made, still in step. */
  lemma BotMoveInStep<P>(e: Engine<P>, l: Link<P>)
    requires InStep(l)
    ensures var (l', response) := Call(e, l, BotMoveLine());
      Answered(response, "botMoved") && InStep(l') && l'.server == Respond(e, l.server, BotMove).0
  {
    WordOneLine("botMoved");
    QueuedOneLine("botMoved");
  }

  /** `is_mate` from a link in step: exactly the server's verdict, still in step. */
  lemma IsMateInStep<P>(e: Engine<P>, l: Link<P>)
    requires InStep(l)
    ensures var (l', response) := Call(e, l, IsMateLine());
      InStep(l') && l'.server == l.server && MateOf(response) == MateReply(e, l.server.position)
  {
    var reply := MateReply(e, l.server.position);
    if reply.Some? {
      WordOneLine(reply.value);
      QueuedOneLine(reply.value);
    }
  }

  /** The `getMoves` reply is one line. */
  lemma MovesReplyOneLine(ds: seq<int>)
    ensures OneLine(MovesReply(ds))
    ensures StartsWith(MovesReply(ds), "moves")
    ensures Split(MovesReply(ds)) == ["moves"] + Texts(ds)
  {
    MovesTokens(ds);
    SplitJoined("moves", Texts(ds));
    MovesReplyShape(ds);
  }

  /** Every destination's text is a token. */
  lemma MovesTokens(ds: seq<int>)
    ensures forall t :: t in Texts(ds) ==> IsToken(t)
  {
    var ts := Texts(ds);
    forall t | t in ts ensures IsToken(t) {
      var i :| 0 <= i < |ts| && ts[i] == t;
      IntTextReadBack(ds[i]);
    }
  }

  /** "moves" and the joined destinations: no newline, no blank at either end. */
  lemma MovesReplyShape(ds: seq<int>)
    ensures OneLine(MovesReply(ds)) && StartsWith(MovesReply(ds), "moves")
  {
    var ts := Texts(ds);
    var j := Joined(ts);
    MovesTokens(ds);
    JoinedShape(ts);
    if ts != [] {
      var last := ts[|ts| - 1];
      assert last in ts;
      assert !IsSpace(last[|last| - 1]);
    }
    LineShape("moves", j);
  }

  /** A token followed by a text with no newline that does not end in a blank is one line starting with the token. */
  lemma LineShape(w: string, j: string)
    requires IsToken(w)
    requires forall i :: 0 <= i < |j| ==> j[i] != '\n'
    requires j != [] ==> !IsSpace(j[|j| - 1])
    ensures OneLine(w + j) && StartsWith(w + j, w)
  {
    PrefixOfConcat(w, j);
    NoNewlineConcat(w, j);
  }

  /** Concatenating two texts without a newline gives none. */
  lemma NoNewlineConcat(a: string, b: string)
    requires forall i :: 0 <= i < |a| ==> a[i] != '\n'
    requires forall i :: 0 <= i < |b| ==> b[i] != '\n'
    ensures forall i :: 0 <= i < |a + b| ==> (a + b)[i] != '\n'
  {
  }

  lemma PrefixOfConcat<T>(a: seq<T>, b: seq<T>)
    ensures (a + b)[..|a|] == a
  {
  }

  /** A join of tokens has no newline and ends with the last token's last character. */
  lemma {:induction false} JoinedShape(ts: seq<string>)
    requires forall t :: t in ts ==> IsToken(t)
    ensures forall i :: 0 <= i < |Joined(ts)| ==> Joined(ts)[i] != '\n'
    ensures ts != [] ==> var last := ts[|ts| - 1]; last != [] && Joined(ts) != [] && Joined(ts)[|Joined(ts)| - 1] == last[|last| - 1]
    decreases |ts|
  {
    if ts != [] {
      assert ts[0] in ts;
      assert forall t :: t in ts[1..] ==> t in ts;
      JoinedShape(ts[1..]);
      var j := Joined(ts);
      assert j == " " + ts[0] + Joined(ts[1..]);
      forall i | 0 <= i < |j| ensures j[i] != '\n' {
        if 1 <= i < 1 + |ts[0]| {
          assert j[i] == ts[0][i - 1];
        } else if i >= 1 + |ts[0]| {
          assert j[i] == Joined(ts[1..])[i - 1 - |ts[0]|];
        }
      }
    }
  }

  /** Reading the destinations back, token by token. */
  lemma {:induction false} ParseTexts(ds: seq<int>)
    ensures ParseAll(Texts(ds)) == Some(ds)
    decreases |ds|
  {
    if ds != [] {
      IntTextReadBack(ds[0]);
      assert Texts(ds)[1..] == Texts(ds[1..]);
      ParseTexts(ds[1..]);
      assert [ds[0]] + ds[1..] == ds;
    }
  }

  /**
   * `get_moves` from a link in step returns exactly the destinations of the
   * player's generated moves from the square, in the server's order, and
   * the link stays in step.
   */
  lemma GetMovesRoundTrip<P>(e: Engine<P>, l: Link<P>, square: int)
    requires InStep(l) && InInt(square)
    ensures var (l', response) := Call(e, l, GetMovesLine(square));
      InStep(l') && l'.server == l.server &&
      MovesOf(response) == Some(Destinations(MovesFrom(e.generate(l.server.position, PlayerColor(l.server)), square)))
  {
    var ds := Destinations(MovesFrom(e.generate(l.server.position, PlayerColor(l.server)), square));
    var reply := MovesReply(ds);
    GetMovesDelivered(e, l, square);
    assert [reply][1..] == [];
    MovesOfReply(ds);
  }

  /** The server answers `getMoves` with its one reply line queued and its variables unchanged. */
  lemma GetMovesDelivered<P>(e: Engine<P>, l: Link<P>, square: int)
    requires InStep(l) && InInt(square)
    ensures Deliver(e, l, GetMovesLine(square)) ==
      Link(l.server, true, [MovesReply(Destinations(MovesFrom(e.generate(l.server.position, PlayerColor(l.server)), square)))])
  {
    var ds := Destinations(MovesFrom(e.generate(l.server.position, PlayerColor(l.server)), square));
    MovesReplyOneLine(ds);
    DeliverOneLine(e, l, GetMovesLine(square), GetMoves(square), MovesReply(ds));
  }

  /** A command that keeps the server's variables and answers with one line leaves exactly that line queued. */
  lemma DeliverOneLine<P>(e: Engine<P>, l: Link<P>, line: string, cmd: Command, reply: string)
    requires InStep(l) && ParseCommand(line) == Some(cmd) && cmd != Quit
    requires Respond(e, l.server, cmd) == (l.server, Some(reply)) && OneLine(reply)
    ensures Deliver(e, l, line) == Link(l.server, true, [reply])
  {
    QueuedOneLine(reply);
  }

  /** The client reads the server's `getMoves` reply back as the destinations written. */
  lemma MovesOfReply(ds: seq<int>)
    ensures MovesOf(Some(MovesReply(ds))) == Some(ds)
  {
    MovesReplyOneLine(ds);
    ParseTexts(ds);
    assert (["moves"] + Texts(ds))[1..] == Texts(ds);
  }

  /** `fetch_state` from a link in step, when the diagram without spaces is one line: that line, still in step. */
  lemma FetchStateInStep<P>(e: Engine<P>, l: Link<P>)
    requires InStep(l) && OneLine(WithoutSpaces(e.display(l.server.position)))
    ensures var (l', response) := Call(e, l, FetchStateLine());
      InStep(l') && l'.server == l.server && StateOf(response) == Some(WithoutSpaces(e.display(l.server.position)))
  {
    QueuedOneLine(WithoutSpaces(e.display(l.server.position)));
  }

  // ---------------------------------------------------------------------
  // The class
  // ---------------------------------------------------------------------

  class EngineInteraction<!P> {
    const engine: Engine<P>
    var link: Link<P>
    var playerIsWhite: bool

    /** A fresh process: its position as the global is before `init`, nothing queued. */
    constructor (engine: Engine<P>, start: P)
      ensures this.engine == engine && playerIsWhite
      ensures link == Link(State(start, true, ""), true, [])
    {
      this.engine := engine;
      link := Link(State(start, true, ""), true, []);
      playerIsWhite := true;
    }

    method Exchange(line: string) returns (response: Option<string>)
      requires ParseCommand(line).Some?
      modifies this`link
      ensures (link, response) == Call(engine, old(link), line)
    {
      link := Deliver(engine, link, line);
      var (l, r) := Receive(link);
      link := l;
      response := r;
    }

    method InitGame(isWhite: bool) returns (ok: bool)
      modifies this
      ensures playerIsWhite == isWhite
      ensures var (l, response) := Call(engine, old(link), InitLine(isWhite));
        link == l && ok == Answered(response, "initSuccess")
    {
      playerIsWhite := isWhite;
      var response := Exchange(InitLine(isWhite));
      ok := response.Some? && response.value != [] && response.value == "initSuccess";
    }

    method MakeMove(from: int, to: int) returns (ok: bool)
      requires InInt(from) && InInt(to)
      modifies this`link
      ensures var (l, response) := Call(engine, old(link), MoveLine(from, to));
        link == l && ok == Answered(response, "moveMade")
    {
      var response := Exchange(MoveLine(from, to));
      ok := response.Some? && response.value != [] && response.value == "moveMade";
    }

    method FetchState() returns (state: Option<string>)
      modifies this`link
      ensures var (l, response) := Call(engine, old(link), FetchStateLine());
        link == l && state == StateOf(response)
    {
      var response := Exchange(FetchStateLine());
      state := if response.Some? && response.value != [] then response else None;
    }

    method BotMove() returns (ok: bool)
      modifies this`link
      ensures var (l, response) := Call(engine, old(link), BotMoveLine());
        link == l && ok == Answered(response, "botMoved")
    {
      var response := Exchange(BotMoveLine());
      ok := response.Some? && response.value != [] && response.value == "botMoved";
    }

    method IsMate() returns (status: Option<string>)
      modifies this`link
      ensures var (l, response) := Call(engine, old(link), IsMateLine());
        link == l && status == MateOf(response)
    {
      var response := Exchange(IsMateLine());
      if response == Some("whiteWins") {
        status := Some("whiteWins");
      } else if response == Some("blackWins") {
        status := Some("blackWins");
      } else if response == Some("staleMate") {
        status := Some("staleMate");
      } else {
        status := None;
      }
    }

    /** None stands for the ValueError a non-numeric token raises. */
    method GetMoves(square: int) returns (moves: Option<seq<int>>)
      requires InInt(square)
      modifies this`link
      ensures var (l, response) := Call(engine, old(link), GetMovesLine(square));
        link == l && moves == MovesOf(response)
    {
      var response := Exchange(GetMovesLine(square));
      moves := MovesOf(response);
    }

    /** `close()`: a running server is told to quit. */
    method Close()
      modifies this`link
      ensures link == Deliver(engine, old(link), QuitLine())
      ensures !link.running
    {
      if link.running {
        link := Deliver(engine, link, QuitLine());
      }
    }
  }
}
