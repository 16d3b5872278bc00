// Text renderings of a position: the board field of a FEN record
// (api/src/board/position.cpp:448-481, FEN as in section 16.1 of the PGN
// Standard) and the glyph diagram of displayPosition
// (api/src/board/position.cpp:406-446, chess_engine/src/board/position.cpp:111-135).
// The methods that build these strings live with the position classes; the
// functions here say what they build.

module Rendering {
  import opened Bitboards
  import opened Pieces
  import opened Boards

  // ---------------------------------------------------------------------
  // FEN board field
  // ---------------------------------------------------------------------

  predicate IsDigit(c: char)
  {
    48 <= c as int <= 57
  }

  /** `fen << emptyCount` for a count of 1 to 8: one decimal digit. */
  function Digit(n: nat): (r: char)
    requires 1 <= n <= 9
    ensures IsDigit(r) && r != '0'
  {
    (n + '0' as int) as char
  }

  /** The text so far and the run of empty squares not yet written. */
  datatype Scan = Scan(text: string, empties: nat)

  /** One square of the inner loop: count an empty square, or flush the run and write the letter. */
  function FenStep(s: Scan, ch: char): Scan
    requires s.empties < 8
  {
    if ch == '.' then Scan(s.text, s.empties + 1)
    else Scan(s.text + (if s.empties > 0 then [Digit(s.empties)] else []) + [ch], 0)
  }

  /** The scan after files 0 .. f-1 of a rank. */
  function FenScan(b: Board, rank: nat, f: nat): (r: Scan)
    requires rank < 8 && f <= 8
    ensures r.empties <= f
  {
    if f == 0 then Scan([], 0)
    else FenStep(FenScan(b, rank, f - 1), SquareChar(b, rank * 8 + f - 1))
  }

  /** One rank of the board field: the scan of all eight files, with the last run flushed. */
  function FenRank(b: Board, rank: nat): string
    requires rank < 8
  {
    var s := FenScan(b, rank, 8);
    s.text + (if s.empties > 0 then [Digit(s.empties)] else [])
  }

  /** Ranks 7 down to `low`, each followed by '/' unless it is rank 0. */
  function FenRanks(b: Board, low: nat): string
    requires low <= 8
    decreases 8 - low
  {
    if low == 8 then []
    else FenRanks(b, low + 1) + FenRank(b, low) + (if low > 0 then "/" else "")
  }

  /** The board field: ranks 8 to 1. */
  function FenPlacement(b: Board): string
  {
    FenRanks(b, 0)
  }

  /** The eight square characters of a rank, file a first. */
  function RankChars(b: Board, rank: nat, f: nat): (r: string)
    requires rank < 8 && f <= 8
    ensures |r| == f
  {
    if f == 0 then [] else RankChars(b, rank, f - 1) + [SquareChar(b, rank * 8 + f - 1)]
  }

  /** n empty squares. */
  function Dots(n: nat): (r: string)
    ensures |r| == n && forall i :: 0 <= i < n ==> r[i] == '.'
  {
    if n == 0 then [] else Dots(n - 1) + ['.']
  }

  /** Reading a rank back: each digit d stands for d empty squares. */
  function Expand(s: string): string
  {
    if s == [] then []
    else Expand(s[..|s| - 1]) + (if IsDigit(s[|s| - 1]) then Dots(s[|s| - 1] as int - '0' as int) else [s[|s| - 1]])
  }

  lemma {:induction false} ExpandAppend(s: string, t: string)
    ensures Expand(s + t) == Expand(s) + Expand(t)
    decreases |t|
  {
    if t != [] {
      var t' := t[..|t| - 1];
      assert (s + t)[..|s + t| - 1] == s + t';
      ExpandAppend(s, t');
    } else {
      assert s + t == s;
    }
  }

  lemma ExpandOne(c: char)
    ensures Expand([c]) == if IsDigit(c) then Dots(c as int - '0' as int) else [c]
  {
    assert [c][..0] == [];
  }

  /** One step of the scan keeps "text, then the pending run" equal to what was read, plus the new square. */
  lemma FenStepExpands(s: Scan, ch: char)
    requires s.empties < 8 && !IsDigit(ch)
    ensures Expand(FenStep(s, ch).text) + Dots(FenStep(s, ch).empties) == Expand(s.text) + Dots(s.empties) + [ch]
  {
    if ch == '.' {
      assert Dots(s.empties + 1) == Dots(s.empties) + ['.'];
    } else {
      var run := if s.empties > 0 then [Digit(s.empties)] else [];
      ExpandAppend(s.text + run, [ch]);
      ExpandAppend(s.text, run);
      ExpandOne(ch);
      if s.empties > 0 {
        ExpandOne(Digit(s.empties));
      } else {
        assert Expand(run) == [] == Dots(0);
      }
    }
  }

  /** After the scan of f files, the text and the pending run expand to the rank's first f characters. */
  lemma {:induction false} FenScanExpands(b: Board, rank: nat, f: nat)
    requires rank < 8 && f <= 8
    ensures Expand(FenScan(b, rank, f).text) + Dots(FenScan(b, rank, f).empties) == RankChars(b, rank, f)
  {
    if f > 0 {
      FenScanExpands(b, rank, f - 1);
      SquareCharNotDigit(b, rank * 8 + f - 1);
      FenStepExpands(FenScan(b, rank, f - 1), SquareChar(b, rank * 8 + f - 1));
    }
  }

  lemma SquareCharNotDigit(b: Board, s: Square)
    ensures !IsDigit(SquareChar(b, s)) && SquareChar(b, s) != '/'
  {
    SquareCharSpec(b, s);
  }

  /**
   * Each rank of the board field reads back to that rank's eight square
   * characters: the letters and the digit values together cover eight files.
   */
  lemma FenRankRoundTrip(b: Board, rank: nat)
    requires rank < 8
    ensures Expand(FenRank(b, rank)) == RankChars(b, rank, 8)
    ensures |Expand(FenRank(b, rank))| == 8
  {
    var s := FenScan(b, rank, 8);
    FenScanExpands(b, rank, 8);
    if s.empties > 0 {
      ExpandAppend(s.text, [Digit(s.empties)]);
      ExpandOne(Digit(s.empties));
    } else {
      assert FenRank(b, rank) == s.text;
    }
  }

  /** No two digits stand next to each other. */
  predicate NoAdjacentDigits(s: string)
  {
    forall i :: 0 <= i < |s| - 1 ==> !(IsDigit(s[i]) && IsDigit(s[i + 1]))
  }

  lemma {:induction false} FenScanDigits(b: Board, rank: nat, f: nat)
    requires rank < 8 && f <= 8
    ensures var s := FenScan(b, rank, f);
      NoAdjacentDigits(s.text) && (s.text != [] ==> !IsDigit(s.text[|s.text| - 1])) &&
      '/' !in s.text
  {
    if f > 0 {
      FenScanDigits(b, rank, f - 1);
      SquareCharNotDigit(b, rank * 8 + f - 1);
    }
  }

  /** Within a rank of the board field no two digits are adjacent, and there is no '/'. */
  lemma FenRankDigits(b: Board, rank: nat)
    requires rank < 8
    ensures NoAdjacentDigits(FenRank(b, rank))
    ensures '/' !in FenRank(b, rank)
  {
    FenScanDigits(b, rank, 8);
  }

  /** The number of occurrences of c in s. */
  function CountOf(c: char, s: string): nat
  {
    if s == [] then 0 else CountOf(c, s[..|s| - 1]) + (if s[|s| - 1] == c then 1 else 0)
  }

  lemma {:induction false} CountAppend(c: char, s: string, t: string)
    ensures CountOf(c, s + t) == CountOf(c, s) + CountOf(c, t)
    decreases |t|
  {
    if t != [] {
      assert (s + t)[..|s + t| - 1] == s + t[..|t| - 1];
      CountAppend(c, s, t[..|t| - 1]);
    } else {
      assert s + t == s;
    }
  }

  lemma {:induction false} CountAbsent(c: char, s: string)
    requires c !in s
    ensures CountOf(c, s) == 0
    decreases |s|
  {
    if s != [] {
      CountAbsent(c, s[..|s| - 1]);
    }
  }

  /** The ranks from `low` up carry one '/' after each rank but rank 0. */
  lemma {:induction false} FenRanksSlashes(b: Board, low: nat)
    requires low <= 8
    ensures CountOf('/', FenRanks(b, low)) == if low == 0 then 7 else 8 - low
    decreases 8 - low
  {
    if low < 8 {
      FenRanksSlashes(b, low + 1);
      FenRankDigits(b, low);
      CountAbsent('/', FenRank(b, low));
      var sep := if low > 0 then "/" else "";
      CountAppend('/', FenRanks(b, low + 1), FenRank(b, low));
      CountAppend('/', FenRanks(b, low + 1) + FenRank(b, low), sep);
      assert CountOf('/', sep) == (if low > 0 then 1 else 0) by {
        if low > 0 {
          assert sep[..0] == [];
        }
      }
    }
  }

  /** The board field separates its eight ranks with exactly seven '/'. */
  lemma FenPlacementSlashes(b: Board)
    ensures CountOf('/', FenPlacement(b)) == 7
  {
    FenRanksSlashes(b, 0);
  }

  // ---------------------------------------------------------------------
  // Decimal text of an int (`fen << n`)
  // ---------------------------------------------------------------------

  function NatDigits(n: nat): (r: string)
    ensures |r| >= 1 && forall i :: 0 <= i < |r| ==> IsDigit(r[i])
    decreases n
  {
    var d := ((n % 10) + '0' as int) as char;
    if n < 10 then [d] else NatDigits(n / 10) + [d]
  }

  /** How `operator<<` writes an int: a '-' sign, then the decimal digits of the magnitude. */
  function IntText(n: int): string
  {
    if n < 0 then "-" + NatDigits(-n) else NatDigits(n)
  }

  function ParseDigits(s: string): nat
    requires forall i :: 0 <= i < |s| ==> IsDigit(s[i])
  {
    if s == [] then 0
    else
      assert IsDigit(s[|s| - 1]);
      10 * ParseDigits(s[..|s| - 1]) + (s[|s| - 1] as int - 48)
  }

  function ParseInt(s: string): int
    requires s != [] && (s[0] == '-' || IsDigit(s[0])) && forall i :: 1 <= i < |s| ==> IsDigit(s[i])
  {
    if s[0] == '-' then 0 - ParseDigits(s[1..]) as int else ParseDigits(s)
  }

  lemma {:induction false} NatDigitsRoundTrip(n: nat)
    ensures ParseDigits(NatDigits(n)) == n
    decreases n
  {
    if n >= 10 {
      NatDigitsRoundTrip(n / 10);
      var s := NatDigits(n);
      assert s[..|s| - 1] == NatDigits(n / 10);
    }
  }

  /** The decimal text of a number reads back to that number. */
  lemma IntTextRoundTrip(n: int)
    ensures var s := IntText(n);
      s != [] && (s[0] == '-' || IsDigit(s[0])) && (forall i :: 1 <= i < |s| ==> IsDigit(s[i])) &&
      ParseInt(s) == n
  {
    if n < 0 {
      NatDigitsRoundTrip(-n);
      assert IntText(n)[1..] == NatDigits(-n);
    } else {
      NatDigitsRoundTrip(n);
    }
  }

  /** The five fields that follow the board field, each after one space. */
  function FenTail(colour: char, castling: string, enPassant: string, halfmove: int, fullmove: int): string
  {
    " " + [colour] + " " + (if castling == [] then "-" else castling) +
    " " + (if enPassant == [] then "-" else enPassant) +
    " " + IntText(halfmove) + " " + IntText(fullmove)
  }

  // ---------------------------------------------------------------------
  // The glyph diagram of displayPosition
  // ---------------------------------------------------------------------

  /** The six glyphs of one colour, pawn to king, and the text written after each rank. */
  datatype Style = Style(white: seq<char>, black: seq<char>, rankEnd: string)

  predicate WellFormedStyle(st: Style)
  {
    |st.white| == 6 && |st.black| == 6 && |st.rankEnd| == 1
  }

  /** The api diagram: ♙♘♗♖♕♔ for White, ♟♞♝♜♛♚ for Black, a newline after each rank. */
  function ApiStyle(): (st: Style)
    ensures WellFormedStyle(st)
  {
    Style(['♙', '♘', '♗', '♖', '♕', '♔'],
          ['♟', '♞', '♝', '♜', '♛', '♚'], "\n")
  }

  /**
   * The engine diagram differs from the api's only in that it draws White
   * with the api's Black glyphs and Black with the api's White glyphs, and
   * writes '/' after each rank instead of a newline.
   */
  function EngineStyle(): (st: Style)
    ensures WellFormedStyle(st)
    ensures st.white == ApiStyle().black && st.black == ApiStyle().white && st.rankEnd == "/"
  {
    var api := ApiStyle();
    Style(api.black, api.white, "/")
  }

  /** The glyph of a square: the white boards first, then the black ones, '.' when empty. */
  function Glyph(b: Board, st: Style, s: Square): char
    requires WellFormedStyle(st)
  {
    match FirstHolding(b.white, s)
    case Some(p) => st.white[PieceIndex(p)]
    case None =>
      match FirstHolding(b.black, s)
      case Some(p) => st.black[PieceIndex(p)]
      case None => '.'
  }

  /** The cells "glyph " of files 0 .. f-1 of a rank. */
  function RankCells(b: Board, st: Style, rank: nat, f: nat): (r: string)
    requires WellFormedStyle(st) && rank < 8 && f <= 8
    ensures |r| == 2 * f
  {
    if f == 0 then [] else RankCells(b, st, rank, f - 1) + [Glyph(b, st, rank * 8 + f - 1), ' ']
  }

  /** Ranks 7 down to `low`, each followed by the rank terminator. */
  function DiagramRanks(b: Board, st: Style, low: nat): (r: string)
    requires WellFormedStyle(st) && low <= 8
    ensures |r| == (8 - low) * 17
    decreases 8 - low
  {
    if low == 8 then [] else DiagramRanks(b, st, low + 1) + RankCells(b, st, low, 8) + st.rankEnd
  }

  function Diagram(b: Board, st: Style): string
    requires WellFormedStyle(st)
  {
    DiagramRanks(b, st, 0)
  }

  /** The ranks from `low` down are the whole diagram once `low` reaches rank 1. */
  lemma DiagramFrom(b: Board, st: Style, low: nat)
    requires WellFormedStyle(st) && low == 0
    ensures DiagramRanks(b, st, low) == Diagram(b, st)
  {
  }

  lemma {:induction false} RankCellsAt(b: Board, st: Style, rank: nat, f: nat, g: nat)
    requires WellFormedStyle(st) && rank < 8 && g < f <= 8
    ensures RankCells(b, st, rank, f)[2 * g] == Glyph(b, st, rank * 8 + g)
    ensures RankCells(b, st, rank, f)[2 * g + 1] == ' '
  {
    if g < f - 1 {
      RankCellsAt(b, st, rank, f - 1, g);
    }
  }

  lemma {:induction false} DiagramRanksAt(b: Board, st: Style, low: nat, rank: nat, file: nat)
    requires WellFormedStyle(st) && low <= rank < 8 && file < 8
    ensures var d := DiagramRanks(b, st, low);
      d[(7 - rank) * 17 + 2 * file] == Glyph(b, st, rank * 8 + file) &&
      d[(7 - rank) * 17 + 2 * file + 1] == ' ' &&
      d[(7 - rank) * 17 + 16] == st.rankEnd[0]
    decreases 8 - low
  {
    var d, above := DiagramRanks(b, st, low), DiagramRanks(b, st, low + 1);
    var cells := RankCells(b, st, low, 8);
    var base := (7 - rank) * 17;
    assert d == above + cells + st.rankEnd;
    if low < rank {
      DiagramRanksAt(b, st, low + 1, rank, file);
      assert base + 16 < |above|;
      assert d[..|above|] == above;
    } else {
      RankCellsAt(b, st, rank, 8, file);
      assert |above| == base;
      assert d[base + 2 * file] == cells[2 * file];
      assert d[base + 2 * file + 1] == cells[2 * file + 1];
      assert d[base + 16] == st.rankEnd[0];
    }
  }

  /**
   * The diagram lists ranks 8 to 1, each as eight "glyph " cells and the
   * rank terminator: the cell of file f on rank r shows that square's glyph.
   */
  lemma DiagramLayout(b: Board, st: Style, rank: nat, file: nat)
    requires WellFormedStyle(st) && rank < 8 && file < 8
    ensures |Diagram(b, st)| == 136
    ensures Diagram(b, st)[(7 - rank) * 17 + 2 * file] == Glyph(b, st, rank * 8 + file)
    ensures Diagram(b, st)[(7 - rank) * 17 + 16] == st.rankEnd[0]
  {
    DiagramRanksAt(b, st, 0, rank, file);
  }

  /** The twelve glyphs of a style are distinct and none is '.'. */
  predicate DistinctGlyphs(st: Style)
    requires WellFormedStyle(st)
  {
    var g := st.white + st.black;
    (forall i, j :: 0 <= i < j < 12 ==> g[i] != g[j]) && (forall i :: 0 <= i < 12 ==> g[i] != '.')
  }

  /** Reading a glyph back as the letter getSquareChar gives. */
  function DecodeGlyph(st: Style, g: char): char
    requires WellFormedStyle(st)
  {
    if g == st.white[0] then 'P' else if g == st.white[1] then 'N' else if g == st.white[2] then 'B'
    else if g == st.white[3] then 'R' else if g == st.white[4] then 'Q' else if g == st.white[5] then 'K'
    else if g == st.black[0] then 'p' else if g == st.black[1] then 'n' else if g == st.black[2] then 'b'
    else if g == st.black[3] then 'r' else if g == st.black[4] then 'q' else if g == st.black[5] then 'k'
    else '.'
  }

  /** The glyph codes: U+2654 to U+2659 are ♔♕♖♗♘♙ and U+265A to U+265F are ♚♛♜♝♞♟. */
  function GlyphCode(st: Style, i: nat): int
    requires WellFormedStyle(st) && i < 12
  {
    (st.white + st.black)[i] as int
  }

  lemma ApiStyleDistinct()
    ensures DistinctGlyphs(ApiStyle())
  {
    var st := ApiStyle();
    assert forall i :: 0 <= i < 12 ==> GlyphCode(st, i) == if i < 6 then 0x2659 - i else 0x265F - (i - 6);
  }

  lemma EngineStyleDistinct()
    ensures DistinctGlyphs(EngineStyle())
  {
    var st := EngineStyle();
    assert forall i :: 0 <= i < 12 ==> GlyphCode(st, i) == if i < 6 then 0x265F - i else 0x2659 - (i - 6);
  }

  lemma WhiteGlyph(st: Style, p: PieceType)
    requires WellFormedStyle(st) && DistinctGlyphs(st) && IsRealPiece(p)
    ensures DecodeGlyph(st, st.white[PieceIndex(p)]) == PiecePgn(p)
  {
    var g := st.white + st.black;
    var i := PieceIndex(p);
    forall k | 0 <= k < 6 && k != i ensures st.white[k] != st.white[i] {
      assert st.white[k] == g[k] && st.white[i] == g[i];
    }
    PiecePgnTable();
  }

  lemma BlackGlyph(st: Style, p: PieceType)
    requires WellFormedStyle(st) && DistinctGlyphs(st) && IsRealPiece(p)
    ensures DecodeGlyph(st, st.black[PieceIndex(p)]) == ToLower(PiecePgn(p))
  {
    var g := st.white + st.black;
    var i := PieceIndex(p);
    forall k | 0 <= k < 6 ensures st.white[k] != st.black[i] {
      assert st.white[k] == g[k] && st.black[i] == g[6 + i];
    }
    forall k | 0 <= k < 6 && k != i ensures st.black[k] != st.black[i] {
      assert st.black[k] == g[6 + k] && st.black[i] == g[6 + i];
    }
    PiecePgnTable();
  }

  /**
   * A diagram with distinct glyphs loses nothing: each glyph reads back as
   * the square's getSquareChar letter, or '.' for an empty square.
   */
  lemma GlyphRoundTrip(b: Board, st: Style, s: Square)
    requires WellFormedStyle(st) && DistinctGlyphs(st)
    ensures DecodeGlyph(st, Glyph(b, st, s)) == SquareChar(b, s)
  {
    match FirstHolding(b.white, s)
    case Some(p) => WhiteGlyph(st, p);
    case None =>
      match FirstHolding(b.black, s)
      case Some(p) => BlackGlyph(st, p);
      case None =>
        var g := st.white + st.black;
        forall i | 0 <= i < 6 ensures st.white[i] != '.' && st.black[i] != '.' {
          assert st.white[i] == g[i] && st.black[i] == g[6 + i];
        }
  }
}
