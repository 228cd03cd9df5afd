/**
 * The text format TosBoard.initFromFile (scripts/tos.py) reads: one line per
 * row, six whitespace-separated letters D, L, W, F, E, H. Tokens follow
 * Python's `str.split()` with no argument: maximal runs of characters that
 * are not Unicode whitespace.
 */
module BoardFile {
  import opened Wrappers
  import opened Runestones

  /** The characters `str.split()` treats as whitespace. */
  predicate IsSpace(ch: char) {
    || ch == ' '
    || ('\t' <= ch <= '\r')
    || ('\U{1c}' <= ch <= '\U{1f}')
    || ch == '\U{85}' || ch == '\U{a0}' || ch == '\U{1680}'
    || ('\U{2000}' <= ch <= '\U{200a}')
    || ch == '\U{2028}' || ch == '\U{2029}' || ch == '\U{202f}' || ch == '\U{205f}' || ch == '\U{3000}'
  }

  /** A token: non-empty, without whitespace. */
  predicate IsWord(w: string) {
    |w| > 0 && forall i :: 0 <= i < |w| ==> !IsSpace(w[i])
  }

  /** The length of the leading whitespace of s. */
  function SpaceLen(s: string): (n: nat)
    ensures n <= |s|
    ensures forall i :: 0 <= i < n ==> IsSpace(s[i])
    ensures n < |s| ==> !IsSpace(s[n])
  {
    if s == [] || !IsSpace(s[0]) then 0 else 1 + SpaceLen(s[1..])
  }

  /** The length of the leading run of non-whitespace of s. */
  function WordLen(s: string): (n: nat)
    ensures n <= |s|
    ensures forall i :: 0 <= i < n ==> !IsSpace(s[i])
    ensures n < |s| ==> IsSpace(s[n])
  {
    if s == [] || IsSpace(s[0]) then 0 else 1 + WordLen(s[1..])
  }

  /** `s.split()`: the maximal whitespace-free runs of s, left to right. */
  function Tokens(s: string): (ts: seq<string>)
    ensures forall i :: 0 <= i < |ts| ==> IsWord(ts[i])
    ensures ts == [] <==> forall i :: 0 <= i < |s| ==> IsSpace(s[i])
    decreases |s|
  {
    var k := SpaceLen(s);
    if k == |s| then []
    else
      var rest := s[k..];
      var n := WordLen(rest);
      [rest[..n]] + Tokens(rest[n..])
  }

  /** Leading whitespace does not change the tokens. */
  lemma {:induction false} TokensSkipSpaces(sp: string, x: string)
    requires forall i :: 0 <= i < |sp| ==> IsSpace(sp[i])
    ensures Tokens(sp + x) == Tokens(x)
    decreases |sp|
  {
    if sp == [] {
      assert sp + x == x;
    } else {
      assert sp + x == [sp[0]] + (sp[1..] + x);
      TokensSkipSpace(sp[0], sp[1..] + x);
      TokensSkipSpaces(sp[1..], x);
    }
  }

  /** One leading whitespace character does not change the tokens. */
  lemma TokensSkipSpace(c: char, x: string)
    requires IsSpace(c)
    ensures Tokens([c] + x) == Tokens(x)
  {
    var t := [c] + x;
    var k := SpaceLen(x);
    assert t[1..] == x;
    assert SpaceLen(t) == 1 + k;
    if k == |x| {
      assert Tokens(x) == [];
      assert Tokens(t) == [];
    } else {
      var rest := x[k..];
      assert t[1 + k..] == rest;
      var n := WordLen(rest);
      assert Tokens(x) == [rest[..n]] + Tokens(rest[n..]);
      assert Tokens(t) == [rest[..n]] + Tokens(rest[n..]);
    }
  }

  /** A run of non-whitespace followed by whitespace or the end is a whole word. */
  lemma {:induction false} WordLenOfWord(w: string, y: string)
    requires forall i :: 0 <= i < |w| ==> !IsSpace(w[i])
    requires y == [] || IsSpace(y[0])
    ensures WordLen(w + y) == |w|
    decreases |w|
  {
    if w != [] {
      assert (w + y)[1..] == w[1..] + y;
      WordLenOfWord(w[1..], y);
    } else {
      assert w + y == y;
    }
  }

  /**
   * `split()` read from the left: whitespace, then a word ended by a
   * whitespace character, gives that word followed by the tokens of the
   * remainder; whitespace and a word that ends the line give just the word.
   */
  lemma TokensLead(sp: string, w: string, c: char, s: string)
    requires forall i :: 0 <= i < |sp| ==> IsSpace(sp[i])
    requires IsWord(w) && IsSpace(c)
    ensures Tokens(sp + w + [c] + s) == [w] + Tokens(s)
    ensures Tokens(sp + w) == [w]
  {
    var x := w + ([c] + s);
    assert sp + w + [c] + s == sp + x;
    TokensSkipSpaces(sp, x);
    TokensWordFirst(w, [c] + s);
    TokensSkipSpace(c, s);
    TokensSkipSpaces(sp, w);
    TokensWordFirst(w, []);
    assert w + [] == w;
  }

  /** A word followed by whitespace or the end is the first token. */
  lemma TokensWordFirst(w: string, y: string)
    requires IsWord(w)
    requires y == [] || IsSpace(y[0])
    ensures Tokens(w + y) == [w] + Tokens(y)
  {
    var x := w + y;
    WordLenOfWord(w, y);
    assert SpaceLen(x) == 0;
    assert x[0..] == x && x[..|w|] == w && x[|w|..] == y;
  }

  /** The stone a token names: exactly one of the six letters; anything else leaves the cell empty. */
  function TokenStone(token: string): (t: Option<StoneType>)
    ensures t.Some? <==> token in {"D", "L", "W", "F", "E", "H"}
  {
    if token == "D" then Some(Dark)
    else if token == "L" then Some(Light)
    else if token == "W" then Some(Water)
    else if token == "F" then Some(Fire)
    else if token == "E" then Some(Earth)
    else if token == "H" then Some(Health)
    else None
  }

  /** The letter a board file uses for a stone. */
  function Letter(t: StoneType): char {
    match t
    case Dark => 'D'
    case Light => 'L'
    case Water => 'W'
    case Fire => 'F'
    case Earth => 'E'
    case Health => 'H'
  }

  /** Each stone's letter reads back as that stone. */
  lemma LetterRoundTrip(t: StoneType)
    ensures TokenStone([Letter(t)]) == Some(t)
  {
  }

  /** A line the loader uses: exactly six tokens. */
  predicate IsRowLine(line: string) {
    |Tokens(line)| == Cols
  }

  /** The cells a six-token line gives, token by token. */
  function RowOf(line: string): (row: seq<Option<StoneType>>)
    ensures |row| == |Tokens(line)|
  {
    StonesOf(Tokens(line))
  }

  /** The stone, or the empty cell, each token names. */
  function StonesOf(ts: seq<string>): (row: seq<Option<StoneType>>)
    ensures |row| == |ts| && forall i :: 0 <= i < |ts| ==> row[i] == TokenStone(ts[i])
  {
    seq(|ts|, (i: int) requires 0 <= i < |ts| => TokenStone(ts[i]))
  }

  /**
   * The cells after loading `lines` over `cells`: row r is replaced when the
   * file's line r (counting every line, used or not) has six tokens, and
   * kept otherwise.
   */
  function LoadedCells(cells: seq<seq<Option<StoneType>>>, lines: seq<string>): (loaded: seq<seq<Option<StoneType>>>)
    requires WellFormed(cells)
    ensures WellFormed(loaded)
  {
    seq(Rows, (r: int) requires 0 <= r < Rows =>
      if r < |lines| && IsRowLine(lines[r]) then RowOf(lines[r]) else cells[r])
  }

  /** The first line from index i on that has six tokens but no row to go to. */
  function Overflow(lines: seq<string>, i: nat): (r: Option<nat>)
    requires i <= |lines|
    ensures r.Some? ==> i <= r.value < |lines| && Rows <= r.value && IsRowLine(lines[r.value])
    ensures forall j :: i <= j < |lines| && Rows <= j && IsRowLine(lines[j]) ==> r.Some? && r.value <= j
    decreases |lines| - i
  {
    if i == |lines| then None
    else if Rows <= i && IsRowLine(lines[i]) then Some(i)
    else Overflow(lines, i + 1)
  }

  // ---------------------------------------------------------------------
  // Writing a board in the format the loader reads

  /** A row of stones as its letters separated by single spaces. */
  function RenderRow(row: seq<StoneType>): string {
    if row == [] then []
    else if |row| == 1 then [Letter(row[0])]
    else [Letter(row[0]), ' '] + RenderRow(row[1..])
  }

  /** A board as five lines, one per row. */
  function Render(g: Grid): (lines: seq<string>)
    requires WellFormed(g)
    ensures |lines| == Rows
  {
    seq(Rows, (r: int) requires 0 <= r < Rows => RenderRow(g[r]))
  }

  lemma TokensWordSpace(c: char, s: string)
    requires !IsSpace(c)
    ensures Tokens([c, ' '] + s) == [[c]] + Tokens(s)
  {
    var t := [c, ' '] + s;
    assert SpaceLen(t) == 0;
    assert WordLen(t) == 1 by {
      assert WordLen(t[1..]) == 0;
    }
    assert t[..1] == [c];
    assert t[1..] == [' '] + s;
    assert SpaceLen(t[1..]) == 1 + SpaceLen(s);
    assert t[1..][1 + SpaceLen(s)..] == s[SpaceLen(s)..];
  }

  /** The tokens a row of stones is written as: one letter each. */
  function LetterTokens(row: seq<StoneType>): (ts: seq<string>)
    ensures |ts| == |row|
    ensures forall i :: 0 <= i < |row| ==> ts[i] == [Letter(row[i])]
  {
    if row == [] then [] else [[Letter(row[0])]] + LetterTokens(row[1..])
  }

  /** Splitting a rendered row gives back the letters, one token per stone. */
  lemma {:induction false} TokensRenderRow(row: seq<StoneType>)
    ensures Tokens(RenderRow(row)) == LetterTokens(row)
  {
    if row == [] {
    } else if |row| == 1 {
      var t := [Letter(row[0])];
      assert SpaceLen(t) == 0;
      assert WordLen(t) == 1 by {
        assert WordLen(t[1..]) == 0;
      }
      assert t[0..] == t && t[..1] == t && t[1..] == [];
      assert Tokens(t) == [t] + Tokens([]);
    } else {
      var rest := row[1..];
      assert RenderRow(row) == [Letter(row[0]), ' '] + RenderRow(rest);
      TokensRenderRow(rest);
      TokensWordSpace(Letter(row[0]), RenderRow(rest));
      assert LetterTokens(row) == [[Letter(row[0])]] + LetterTokens(rest);
    }
  }

  /** Loading a rendered board fills every cell with the stone it had, and raises no error. */
  lemma LoadRender(cells: seq<seq<Option<StoneType>>>, g: Grid)
    requires WellFormed(cells) && WellFormed(g)
    ensures Overflow(Render(g), 0) == None
    ensures forall p :: InBounds(p) ==> At(LoadedCells(cells, Render(g)), p) == Some(At(g, p))
  {
    var lines := Render(g);
    forall r | 0 <= r < Rows
      ensures IsRowLine(lines[r]) && forall c :: 0 <= c < Cols ==> RowOf(lines[r])[c] == Some(g[r][c])
    {
      LoadRenderRow(g[r]);
    }
  }

  /** A rendered row is a row line whose cells are the row's stones. */
  lemma LoadRenderRow(row: seq<StoneType>)
    requires |row| == Cols
    ensures IsRowLine(RenderRow(row))
    ensures forall c :: 0 <= c < Cols ==> RowOf(RenderRow(row))[c] == Some(row[c])
  {
    TokensRenderRow(row);
    forall c | 0 <= c < Cols ensures TokenStone(Tokens(RenderRow(row))[c]) == Some(row[c]) {
      LetterRoundTrip(row[c]);
    }
  }
}
