// Text helpers the front ends share: decimal integers as the C++ stream
// operator `<<` prints them and as Python's `int()` reads them back, and
// splitting a line into whitespace-separated tokens as Python's
// `str.split()` with no argument and `std::istringstream >>` both do.

module Text {
  import opened Options
  import opened Rendering

  /** The ASCII whitespace characters of C's `isspace`. */
  predicate IsSpace(c: char)
  {
    c == ' ' || c == '\t' || c == '\n' || c == '\r' || c == '\U{000B}' || c == '\U{000C}'
  }

  /** A token as `split` returns it: not empty, no whitespace. */
  predicate IsToken(s: string)
  {
    |s| > 0 && forall i :: 0 <= i < |s| ==> !IsSpace(s[i])
  }

  // ---------------------------------------------------------------------
  // Decimal integers
  // ---------------------------------------------------------------------

  /** Python's `int()` on a token: an optional sign, then one or more decimal digits; anything else is a ValueError (None). */
  function PyInt(s: string): (r: Option<int>)
    ensures r.Some? ==> |s| > 0
  {
    if |s| > 0 && (s[0] == '-' || s[0] == '+') then
      var body := s[1..];
      if |body| > 0 && forall i :: 0 <= i < |body| ==> IsDigit(body[i]) then
        Some(if s[0] == '-' then 0 - ParseDigits(body) as int else ParseDigits(body))
      else None
    else if |s| > 0 && forall i :: 0 <= i < |s| ==> IsDigit(s[i]) then Some(ParseDigits(s))
    else None
  }

  /** What `operator<<` prints for an int is one token, and Python's `int()` reads it back. */
  lemma IntTextReadBack(n: int)
    ensures IsToken(IntText(n))
    ensures PyInt(IntText(n)) == Some(n)
  {
    IntTextRoundTrip(n);
  }

  // ---------------------------------------------------------------------
  // Whitespace splitting
  // ---------------------------------------------------------------------

  /** Splitting with the current token `cur` still open. */
  function SplitFrom(s: string, cur: string): seq<string>
    decreases |s|
  {
    if s == [] then (if cur == [] then [] else [cur])
    else if IsSpace(s[0]) then
      (if cur == [] then [] else [cur]) + SplitFrom(s[1..], [])
    else SplitFrom(s[1..], cur + [s[0]])
  }

  /** `str.split()`: the maximal runs of non-whitespace characters, in order. */
  function Split(s: string): (r: seq<string>)
  {
    SplitFrom(s, [])
  }

  /** Every piece of a split is a token. */
  lemma {:induction false} SplitFromTokens(s: string, cur: string)
    requires forall i :: 0 <= i < |cur| ==> !IsSpace(cur[i])
    ensures forall t :: t in SplitFrom(s, cur) ==> IsToken(t)
    decreases |s|
  {
    if s != [] {
      if IsSpace(s[0]) {
        SplitFromTokens(s[1..], []);
      } else {
        SplitFromTokens(s[1..], cur + [s[0]]);
      }
    }
  }

  /** The space-prefixed join of tokens, as the reply loops build it. */
  function Joined(ts: seq<string>): string
  {
    if ts == [] then "" else " " + ts[0] + Joined(ts[1..])
  }

  /** A run of non-space characters extends the open token. */
  lemma {:induction false} SplitWord(t: string, rest: string, cur: string)
    requires forall i :: 0 <= i < |t| ==> !IsSpace(t[i])
    ensures SplitFrom(t + rest, cur) == SplitFrom(rest, cur + t)
    decreases |t|
  {
    if t == [] {
      assert t + rest == rest;
      assert cur + t == cur;
    } else {
      assert (t + rest)[0] == t[0];
      assert (t + rest)[1..] == t[1..] + rest;
      SplitWord(t[1..], rest, cur + [t[0]]);
      assert cur + [t[0]] + t[1..] == cur + t;
    }
  }

  /** Splitting a token followed by a join gives the token and then the joined tokens back. */
  lemma {:induction false} SplitJoined(w: string, ts: seq<string>)
    requires IsToken(w) && forall t :: t in ts ==> IsToken(t)
    ensures Split(w + Joined(ts)) == [w] + ts
    decreases |ts|
  {
    SplitWord(w, Joined(ts), []);
    assert [] + w == w;
    if ts == [] {
      assert SplitFrom([], w) == [w];
    } else {
      var rest := ts[0] + Joined(ts[1..]);
      assert Joined(ts) == " " + rest;
      assert (" " + rest)[1..] == rest;
      assert ts[0] in ts;
      SplitWord(ts[0], Joined(ts[1..]), []);
      assert [] + ts[0] == ts[0];
      SplitJoined(ts[0], ts[1..]);
      assert SplitFrom(rest, []) == Split(ts[0] + Joined(ts[1..]));
    }
  }

  /** The string without its leading whitespace. */
  function TrimLeft(s: string): (r: string)
    ensures |r| <= |s|
  {
    if s != [] && IsSpace(s[0]) then TrimLeft(s[1..]) else s
  }

  /** The string without its trailing whitespace. */
  function TrimRight(s: string): (r: string)
    ensures |r| <= |s|
  {
    if s != [] && IsSpace(s[|s| - 1]) then TrimRight(s[..|s| - 1]) else s
  }

  /** `str.strip()`. */
  function Strip(s: string): string
  {
    TrimRight(TrimLeft(s))
  }

  /** `s.startswith(p)`. */
  predicate StartsWith(s: string, p: string)
  {
    |p| <= |s| && s[..|p|] == p
  }

  /** The string with every space character removed, the rest in order. */
  function WithoutSpaces(s: string): (r: string)
    ensures forall i :: 0 <= i < |r| ==> r[i] != ' '
    ensures |r| <= |s|
  {
    if s == [] then [] else (if s[0] == ' ' then [] else [s[0]]) + WithoutSpaces(s[1..])
  }

  /** Removing spaces keeps every other character: a string without spaces is left as it is. */
  lemma {:induction false} WithoutSpacesKeeps(s: string)
    requires forall i :: 0 <= i < |s| ==> s[i] != ' '
    ensures WithoutSpaces(s) == s
  {
    if s != [] {
      WithoutSpacesKeeps(s[1..]);
    }
  }

  /** Removing spaces twice is removing them once. */
  lemma WithoutSpacesIdempotent(s: string)
    ensures WithoutSpaces(WithoutSpaces(s)) == WithoutSpaces(s)
  {
    WithoutSpacesKeeps(WithoutSpaces(s));
  }

  /** Removing spaces distributes over concatenation, so a loop can build it character by character. */
  lemma {:induction false} WithoutSpacesAppend(a: string, b: string)
    ensures WithoutSpaces(a + b) == WithoutSpaces(a) + WithoutSpaces(b)
  {
    if a != [] {
      assert (a + b)[1..] == a[1..] + b;
      WithoutSpacesAppend(a[1..], b);
    } else {
      assert a + b == b;
    }
  }
}
