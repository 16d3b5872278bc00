// How the two graphical boards take the engine's diagram apart: Python's
// `str.split(sep)` keeps every piece, empty ones included; Java's
// `String.split` drops the empty pieces at the end.  The diagram of
// displayPosition is a run of "terminated" pieces (each followed by the
// separator), so splitting it gives the pieces back.

module BoardText {
  import opened Bitboards
  import opened Boards
  import opened Rendering
  import opened Text

  /** Splitting with the current piece `cur` still open. */
  function SplitOnFrom(s: string, sep: char, cur: string): (r: seq<string>)
    ensures |r| > 0
    decreases |s|
  {
    if s == [] then [cur]
    else if s[0] == sep then [cur] + SplitOnFrom(s[1..], sep, [])
    else SplitOnFrom(s[1..], sep, cur + [s[0]])
  }

  /** Python's `s.split(sep)`: the pieces between separators, empty ones kept. */
  function SplitOn(s: string, sep: char): (r: seq<string>)
    ensures |r| > 0
  {
    SplitOnFrom(s, sep, [])
  }

  function DropTrailingEmpty(ts: seq<string>): (r: seq<string>)
    ensures |r| <= |ts| && r == ts[..|r|]
    ensures r == [] || r[|r| - 1] != []
    ensures forall i :: |r| <= i < |ts| ==> ts[i] == []
  {
    if ts == [] then []
    else if ts[|ts| - 1] == [] then DropTrailingEmpty(ts[..|ts| - 1])
    else ts
  }

  /** Java's `s.split(sep)`: the input itself when the separator is absent, else the pieces without the empty ones at the end. */
  function JavaSplit(s: string, sep: char): (r: seq<string>)
  {
    if sep !in s then [s] else DropTrailingEmpty(SplitOn(s, sep))
  }

  /** Each piece followed by the separator. */
  function Terminated(parts: seq<string>, sep: char): (r: string)
    ensures parts != [] ==> sep in r
  {
    if parts == [] then [] else
      var r := parts[0] + [sep] + Terminated(parts[1..], sep);
      assert r[|parts[0]|] == sep;
      r
  }

  /** Terminating one more piece appends it and the separator. */
  lemma {:induction false} TerminatedSnoc(parts: seq<string>, x: string, sep: char)
    ensures Terminated(parts + [x], sep) == Terminated(parts, sep) + x + [sep]
  {
    if parts == [] {
      assert [] + [x] == [x];
      assert Terminated([x], sep) == x + [sep] + Terminated([], sep);
    } else {
      assert (parts + [x])[1..] == parts[1..] + [x];
      TerminatedSnoc(parts[1..], x, sep);
    }
  }

  /** Characters other than the separator extend the open piece. */
  lemma {:induction false} SplitOnWord(t: string, rest: string, sep: char, cur: string)
    requires sep !in t
    ensures SplitOnFrom(t + rest, sep, cur) == SplitOnFrom(rest, sep, cur + t)
    decreases |t|
  {
    if t == [] {
      assert t + rest == rest;
      assert cur + t == cur;
    } else {
      assert (t + rest)[0] == t[0];
      assert (t + rest)[1..] == t[1..] + rest;
      SplitOnWord(t[1..], rest, sep, cur + [t[0]]);
      assert cur + [t[0]] + t[1..] == cur + t;
    }
  }

  /** A piece without the separator, then the separator: that piece, then the split of the rest. */
  lemma SplitOnPiece(p: string, tail: string, sep: char)
    requires sep !in p
    ensures SplitOn(p + [sep] + tail, sep) == [p] + SplitOn(tail, sep)
  {
    assert p + [sep] + tail == p + ([sep] + tail);
    SplitOnWord(p, [sep] + tail, sep, []);
    assert [] + p == p;
    assert ([sep] + tail)[1..] == tail;
  }

  /** Splitting terminated pieces gives the pieces back, then the split of what follows. */
  lemma {:induction false} SplitTerminated(parts: seq<string>, rest: string, sep: char)
    requires forall p :: p in parts ==> sep !in p
    ensures SplitOn(Terminated(parts, sep) + rest, sep) == parts + SplitOn(rest, sep)
  {
    if parts == [] {
      assert Terminated(parts, sep) + rest == rest;
    } else {
      var p := parts[0];
      assert p in parts;
      var tail := Terminated(parts[1..], sep) + rest;
      assert Terminated(parts, sep) + rest == p + [sep] + tail;
      SplitOnPiece(p, tail, sep);
      SplitTerminated(parts[1..], rest, sep);
      assert parts == [p] + parts[1..];
    }
  }

  /** Python's split of terminated pieces: the pieces and one empty string after the last separator. */
  lemma PySplitTerminated(parts: seq<string>, sep: char)
    requires forall p :: p in parts ==> sep !in p
    ensures SplitOn(Terminated(parts, sep), sep) == parts + [""]
  {
    SplitTerminated(parts, [], sep);
    assert Terminated(parts, sep) + [] == Terminated(parts, sep);
  }

  /** Java's split of terminated pieces, the last one not empty: exactly the pieces. */
  lemma JavaSplitTerminated(parts: seq<string>, sep: char)
    requires parts != [] && parts[|parts| - 1] != []
    requires forall p :: p in parts ==> sep !in p
    ensures JavaSplit(Terminated(parts, sep), sep) == parts
  {
    PySplitTerminated(parts, sep);
    assert (parts + [""])[..|parts|] == parts;
  }

  /** Removing spaces from terminated pieces removes them piece by piece. */
  lemma {:induction false} WithoutSpacesTerminated(parts: seq<string>, sep: char)
    requires sep != ' '
    ensures WithoutSpaces(Terminated(parts, sep)) ==
      Terminated(seq(|parts|, i requires 0 <= i < |parts| => WithoutSpaces(parts[i])), sep)
  {
    var packed := seq(|parts|, i requires 0 <= i < |parts| => WithoutSpaces(parts[i]));
    if parts != [] {
      var tail := Terminated(parts[1..], sep);
      WithoutSpacesAppend(parts[0] + [sep], tail);
      WithoutSpacesAppend(parts[0], [sep]);
      assert WithoutSpaces([sep]) == [sep];
      WithoutSpacesTerminated(parts[1..], sep);
      assert packed[1..] == seq(|parts[1..]|, i requires 0 <= i < |parts[1..]| => WithoutSpaces(parts[1..][i]));
    }
  }

  // ---------------------------------------------------------------------
  // The diagram as terminated pieces
  // ---------------------------------------------------------------------

  /** No glyph of the style, and not the empty-square dot, is the character. */
  predicate GlyphsAvoid(st: Style, c: char)
    requires WellFormedStyle(st)
  {
    c != '.' && forall i :: 0 <= i < 6 ==> st.white[i] != c && st.black[i] != c
  }

  /** Neither diagram style draws a piece as a space or a '/'. */
  lemma StylesAvoid()
    ensures GlyphsAvoid(ApiStyle(), ' ') && GlyphsAvoid(ApiStyle(), '/')
    ensures GlyphsAvoid(EngineStyle(), ' ') && GlyphsAvoid(EngineStyle(), '/')
  {
    ApiStyleDistinct();
    EngineStyleDistinct();
  }

  /** The one-glyph strings of files 0 to 7 of a rank. */
  function RankGlyphs(b: Board, st: Style, rank: nat): (r: seq<string>)
    requires WellFormedStyle(st) && rank < 8
    ensures |r| == 8 && forall f :: 0 <= f < 8 ==> r[f] == [Glyph(b, st, rank * 8 + f)]
  {
    seq(8, f requires 0 <= f < 8 => [Glyph(b, st, rank * 8 + f)])
  }

  /** A rank's cells are its glyphs, each terminated by a space. */
  lemma {:induction false} RankCellsTerminated(b: Board, st: Style, rank: nat, f: nat)
    requires WellFormedStyle(st) && rank < 8 && f <= 8
    ensures RankCells(b, st, rank, f) == Terminated(RankGlyphs(b, st, rank)[..f], ' ')
  {
    if f > 0 {
      var gs := RankGlyphs(b, st, rank);
      RankCellsTerminated(b, st, rank, f - 1);
      assert gs[..f] == gs[..f - 1] + [gs[f - 1]];
      TerminatedSnoc(gs[..f - 1], gs[f - 1], ' ');
    }
  }

  /** The cells of ranks 7 down to `low`, in that order. */
  function RankRows(b: Board, st: Style, low: nat): (r: seq<string>)
    requires WellFormedStyle(st) && low <= 8
    ensures |r| == 8 - low && forall k :: 0 <= k < 8 - low ==> r[k] == RankCells(b, st, 7 - k, 8)
  {
    seq(8 - low, k requires 0 <= k < 8 - low => RankCells(b, st, 7 - k, 8))
  }

  /** The ranks from `low` up are the rank rows, each terminated by the rank terminator. */
  lemma {:induction false} DiagramRanksTerminated(b: Board, st: Style, low: nat)
    requires WellFormedStyle(st) && low <= 8
    ensures DiagramRanks(b, st, low) == Terminated(RankRows(b, st, low), st.rankEnd[0])
    decreases 8 - low
  {
    if low < 8 {
      var above, cells, sep := RankRows(b, st, low + 1), RankCells(b, st, low, 8), st.rankEnd[0];
      DiagramRanksTerminated(b, st, low + 1);
      RankRowsSnoc(b, st, low);
      TerminatedSnoc(above, cells, sep);
      assert st.rankEnd == [sep];
      assert DiagramRanks(b, st, low) == DiagramRanks(b, st, low + 1) + cells + [sep];
    }
  }

  /** The rows from rank `low` up are those from the rank above, then rank `low` itself. */
  lemma RankRowsSnoc(b: Board, st: Style, low: nat)
    requires WellFormedStyle(st) && low < 8
    ensures RankRows(b, st, low) == RankRows(b, st, low + 1) + [RankCells(b, st, low, 8)]
  {
    var rows, above := RankRows(b, st, low), RankRows(b, st, low + 1);
    forall k | 0 <= k < |rows| ensures rows[k] == (above + [RankCells(b, st, low, 8)])[k] {
      if k < |above| {
        assert rows[k] == RankCells(b, st, 7 - k, 8) == above[k];
      }
    }
  }

  /** No rank row holds a character the glyphs avoid, other than a space. */
  lemma RankCellsAvoid(b: Board, st: Style, rank: nat, c: char)
    requires WellFormedStyle(st) && GlyphsAvoid(st, c) && c != ' ' && rank < 8
    ensures c !in RankCells(b, st, rank, 8)
  {
    var cells := RankCells(b, st, rank, 8);
    forall i | 0 <= i < 16 ensures cells[i] != c {
      RankCellsAt(b, st, rank, 8, i / 2);
      assert i == 2 * (i / 2) || i == 2 * (i / 2) + 1;
    }
  }

  /**
   * Python's `split('/')` of an engine-style diagram: eight rows, rank 8
   * first, each the "glyph " cells of its rank, then one empty string.
   */
  lemma DiagramSplit(b: Board, st: Style)
    requires WellFormedStyle(st) && st.rankEnd == "/" && GlyphsAvoid(st, '/')
    ensures SplitOn(Diagram(b, st), '/') == RankRows(b, st, 0) + [""]
  {
    DiagramRanksTerminated(b, st, 0);
    forall p | p in RankRows(b, st, 0) ensures '/' !in p {
      var k :| 0 <= k < 8 && RankRows(b, st, 0)[k] == p;
      RankCellsAvoid(b, st, 7 - k, '/');
    }
    PySplitTerminated(RankRows(b, st, 0), '/');
  }

  /** Java's `split(" ")` of a rank row: its eight one-glyph strings. */
  lemma RankCellsSplit(b: Board, st: Style, rank: nat)
    requires WellFormedStyle(st) && GlyphsAvoid(st, ' ') && rank < 8
    ensures JavaSplit(RankCells(b, st, rank, 8), ' ') == RankGlyphs(b, st, rank)
  {
    var gs := RankGlyphs(b, st, rank);
    RankCellsTerminated(b, st, rank, 8);
    assert gs[..8] == gs;
    forall p | p in gs ensures ' ' !in p {
      var f :| 0 <= f < 8 && gs[f] == p;
    }
    JavaSplitTerminated(gs, ' ');
  }

  /** The glyphs of a rank, without the spaces. */
  function PackedRank(b: Board, st: Style, rank: nat): (r: string)
    requires WellFormedStyle(st) && rank < 8
    ensures |r| == 8 && forall f :: 0 <= f < 8 ==> r[f] == Glyph(b, st, rank * 8 + f)
  {
    seq(8, f requires 0 <= f < 8 => Glyph(b, st, rank * 8 + f))
  }

  /** Removing the spaces from a rank row leaves its eight glyphs. */
  lemma {:induction false} PackedRankCells(b: Board, st: Style, rank: nat, f: nat)
    requires WellFormedStyle(st) && GlyphsAvoid(st, ' ') && rank < 8 && f <= 8
    ensures WithoutSpaces(RankCells(b, st, rank, f)) == PackedRank(b, st, rank)[..f]
  {
    if f > 0 {
      var g := Glyph(b, st, rank * 8 + f - 1);
      PackedRankCells(b, st, rank, f - 1);
      WithoutSpacesAppend(RankCells(b, st, rank, f - 1), [g, ' ']);
      assert [g, ' '][1..] == [' '];
      assert WithoutSpaces([g, ' ']) == [g];
      assert PackedRank(b, st, rank)[..f] == PackedRank(b, st, rank)[..f - 1] + [g];
    }
  }

  /**
   * Python's `split('/')` of an engine-style diagram with its spaces
   * removed: eight rows of eight glyphs, rank 8 first, then one empty string.
   */
  lemma PackedDiagramSplit(b: Board, st: Style, row: nat, col: nat)
    requires WellFormedStyle(st) && st.rankEnd == "/" && GlyphsAvoid(st, '/') && GlyphsAvoid(st, ' ')
    requires row < 8 && col < 8
    ensures var rows := SplitOn(WithoutSpaces(Diagram(b, st)), '/');
      |rows| == 9 && rows[8] == [] && |rows[row]| == 8 && rows[row][col] == Glyph(b, st, (7 - row) * 8 + col)
  {
    var rows := RankRows(b, st, 0);
    var packed := seq(8, i requires 0 <= i < 8 => WithoutSpaces(rows[i]));
    DiagramRanksTerminated(b, st, 0);
    assert Diagram(b, st) == Terminated(rows, '/');
    WithoutSpacesTerminated(rows, '/');
    assert WithoutSpaces(Diagram(b, st)) == Terminated(packed, '/');
    forall p | p in packed ensures '/' !in p {
      var i :| 0 <= i < 8 && packed[i] == p;
      PackedRow(b, st, rows, packed, i);
    }
    PySplitTerminated(packed, '/');
    PackedRow(b, st, rows, packed, row);
  }

  /** Row i of the packed diagram is the glyphs of rank 8 - i, and so holds no '/'. */
  lemma PackedRow(b: Board, st: Style, rows: seq<string>, packed: seq<string>, i: nat)
    requires WellFormedStyle(st) && GlyphsAvoid(st, '/') && GlyphsAvoid(st, ' ') && i < 8
    requires rows == RankRows(b, st, 0)
    requires packed == seq(8, i requires 0 <= i < 8 => WithoutSpaces(rows[i]))
    ensures packed[i] == PackedRank(b, st, 7 - i) && '/' !in packed[i]
  {
    var rank := 7 - i;
    var cells := RankCells(b, st, rank, 8);
    assert rows[i] == cells;
    assert packed[i] == WithoutSpaces(cells);
    PackedRankCells(b, st, rank, 8);
    assert PackedRank(b, st, rank)[..8] == PackedRank(b, st, rank);
  }
}
