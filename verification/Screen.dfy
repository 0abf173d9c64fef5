/** The text screen of my-kernel-asa/src/main.c as a value: 25 rows of 80 characters and a cursor. */
module Screen {
  import opened Hex

  const COLUMNS := 80
  const ROWS := 25
  const CELLS := 2000

  const BACKSPACE: Char := 8
  const TAB: Char := 9
  const NEWLINE: Char := 10
  const RETURN: Char := 13
  const SPACE: nat := 32

  type Grid = seq<seq<nat>>

  datatype Display = Display(x: nat, y: nat, grid: Grid)

  predicate IsGrid(g: Grid) {
    |g| == ROWS && (forall y :: 0 <= y < ROWS ==> |g[y]| == COLUMNS)
  }

  /** The cursor may rest one column past the last one, or at the start of the row below the last one. */
  predicate Valid(d: Display) {
    IsGrid(d.grid) && d.x <= COLUMNS && d.y <= ROWS && (d.y == ROWS ==> d.x == 0)
  }

  function Blank(): (g: Grid)
    ensures IsGrid(g) && forall y, x :: 0 <= y < ROWS && 0 <= x < COLUMNS ==> g[y][x] == SPACE
  {
    seq(ROWS, _ => seq(COLUMNS, _ => SPACE))
  }

  /** An unsigned char. */
  function Stored(c: Char): (b: nat)
    ensures c >= 0 ==> b == c
    ensures c < 0 ==> b as int - 256 == c as int
  {
    c % 256
  }

  function SetCell(g: Grid, x: nat, y: nat, v: nat): (r: Grid)
    requires IsGrid(g) && x < COLUMNS && y < ROWS
    ensures IsGrid(r)
    ensures forall i, j :: 0 <= i < ROWS && 0 <= j < COLUMNS ==> r[i][j] == if i == y && j == x then v else g[i][j]
  {
    var row: seq<nat> := g[y][x := v];
    g[y := row]
  }

  /** The wrapping made before a character is looked at. */
  function Wrap(d: Display): (r: Display)
    requires Valid(d)
    ensures Valid(r) && r.x < COLUMNS && r.y < ROWS
  {
    var (x, y) := if d.x > COLUMNS - 1 then (0, d.y + 1) else (d.x, d.y);
    if y > ROWS - 1 then Display(x, 0, Blank()) else Display(x, y, d.grid)
  }

  function Putc(d: Display, c: Char): (r: Display)
    requires Valid(d)
    ensures Valid(r)
  {
    var w := Wrap(d);
    if c == RETURN then w.(x := 0)
    else if c == NEWLINE then w.(x := 0, y := w.y + 1)
    else if c == BACKSPACE then (if w.x > 0 then w.(x := w.x - 1) else w)
    else if c == TAB then w.(x := (w.x + 8) / 8 * 8)
    else w.(grid := SetCell(w.grid, w.x, w.y, Stored(c)), x := w.x + 1)
  }

  function PutAll(d: Display, s: seq<Char>): (r: Display)
    requires Valid(d)
    ensures Valid(r)
  {
    if s == [] then d else Putc(PutAll(d, s[..|s| - 1]), s[|s| - 1])
  }

  lemma PutSnoc(d: Display, s: seq<Char>, c: Char)
    requires Valid(d)
    ensures PutAll(d, s + [c]) == Putc(PutAll(d, s), c)
  {
  }

  /** A cleared screen with the cursor in its first cell. */
  function Home(): (d: Display)
    ensures Valid(d)
  {
    Display(0, 0, Blank())
  }

  lemma {:induction false} PutAppend(d: Display, s: seq<Char>, t: seq<Char>)
    requires Valid(d)
    ensures PutAll(d, s + t) == PutAll(PutAll(d, s), t)
  {
    if t == [] {
      assert s + t == s;
    } else {
      var u, c := t[..|t| - 1], t[|t| - 1];
      assert s + t == s + u + [c] && t == u + [c];
      PutSnoc(d, s + u, c);
      PutSnoc(PutAll(d, s), u, c);
      PutAppend(d, s, u);
    }
  }

  // ---- What the characters do, by their codes ---------------------------------------------------

  /** None of backspace, tab, newline and carriage return. */
  predicate IsPlain(c: Char) {
    c != 8 && c != 9 && c != 10 && c != 13
  }

  predicate Plain(s: seq<Char>) {
    forall i :: 0 <= i < |s| ==> IsPlain(s[i])
  }

  /** A character put while the cursor is past the last column goes where it would from the start of the next
      row; past the last row, where it would on a cleared screen. */
  lemma PutWraps(d: Display, c: Char)
    requires Valid(d) && (d.x == 80 || d.y == 25)
    ensures d.x == 80 && d.y < 24 ==> Putc(d, c) == Putc(Display(0, d.y + 1, d.grid), c)
    ensures d.x < 80 || d.y >= 24 ==> Putc(d, c) == Putc(Home(), c)
  {
  }

  /** Characters put on one row. */
  lemma {:induction false} PutRow(d: Display, s: seq<Char>)
    requires Valid(d) && s != [] && Plain(s) && Wrap(d).x + |s| <= COLUMNS
    ensures var w, e := Wrap(d), PutAll(d, s);
            && e.x == w.x + |s| && e.y == w.y
            && (forall y :: 0 <= y < ROWS && y != w.y ==> e.grid[y] == w.grid[y])
            && (forall x :: 0 <= x < COLUMNS ==>
                  e.grid[w.y][x] == if w.x <= x < e.x then Stored(s[x - w.x]) else w.grid[w.y][x])
  {
    var t := s[..|s| - 1];
    if t == [] {
      assert PutAll(d, t) == d;
    } else {
      PutRow(d, t);
    }
  }

  /** A carriage return lets what follows overwrite the row from its first column. */
  lemma ReturnOverwrites(d: Display, s: seq<Char>)
    requires Valid(d) && d.x < 80 && d.y < 25 && Plain(s) && |s| <= 80
    ensures var e := PutAll(d, [13] + s);
            && e.x == |s| && e.y == d.y
            && (forall y, x :: 0 <= y < 25 && 0 <= x < 80 ==>
                  e.grid[y][x] == if y != d.y || x >= |s| then d.grid[y][x]
                                  else var c := s[x]; if c < 0 then 256 + c as int else c as int)
  {
    PutAppend(d, [13], s);
    var r := Display(0, d.y, d.grid);
    assert PutAll(d, [13]) == Putc(PutAll(d, []), 13) == r;
    if s == [] { assert PutAll(r, s) == r; } else { PutRow(r, s); }
    hide PutAll, Putc, Stored;
  }

  /** A backspace brings the cursor back to the character put before it, which stays on the screen; exactly
      unless that was in the last column: the cursor goes to the start of the next row then. */
  lemma BackspaceExact(d: Display, c: Char)
    requires Valid(d) && d.x < 80 && d.y < 25 && IsPlain(c)
    ensures Putc(d, 8) == Display(if d.x == 0 then 0 else d.x - 1, d.y, d.grid)
    ensures Putc(Putc(d, c), 8) == Display(d.x, d.y, Putc(d, c).grid) <==> d.x < 79
    ensures d.x == 79 ==> Putc(Putc(d, c), 8) == if d.y == 24 then Home() else Display(0, d.y + 1, Putc(d, c).grid)
  {
  }

  /** A tab goes to the next column that is a multiple of 8, and changes no cell. */
  lemma TabStop(d: Display)
    requires Valid(d) && d.x < 80 && d.y < 25
    ensures var e := Putc(d, 9);
            e.grid == d.grid && e.y == d.y && d.x < e.x <= d.x + 8 && e.x % 8 == 0
  {
  }

  // ---- Lines ------------------------------------------------------------------------------------

  /** Lines, each ended by a newline. */
  function Text(lines: seq<seq<Char>>): seq<Char> {
    if lines == [] then [] else Text(lines[..|lines| - 1]) + (lines[|lines| - 1] + [10])
  }

  predicate AreLines(lines: seq<seq<Char>>) {
    forall i :: 0 <= i < |lines| ==> Plain(lines[i]) && |lines[i]| < 80
  }

  /** What column `x` of line `i` looks like. */
  function LineCell(lines: seq<seq<Char>>, i: nat, x: nat): nat {
    if i < |lines| && x < |lines[i]| then Stored(lines[i][x]) else SPACE
  }

  /** Each row shows a line, from line `top` on; the others are blank. */
  predicate ShowsLines(g: Grid, lines: seq<seq<Char>>, top: nat)
    requires IsGrid(g)
  {
    forall y, x :: 0 <= y < ROWS && 0 <= x < COLUMNS ==>
      g[y][x] == LineCell(lines, top + y, x)
  }

  /** A line from the start of a row. */
  lemma PutLine(d: Display, line: seq<Char>)
    requires Valid(d) && Plain(line) && |line| < COLUMNS && Wrap(d).x == 0
    ensures var w, e := Wrap(d), PutAll(d, line + [10]);
            && e.x == 0 && e.y == w.y + 1
            && (forall y :: 0 <= y < ROWS && y != w.y ==> e.grid[y] == w.grid[y])
            && (forall x :: 0 <= x < COLUMNS ==>
                  e.grid[w.y][x] == if x < |line| then Stored(line[x]) else w.grid[w.y][x])
  {
    PutSnoc(d, line, 10);
    var r := PutAll(d, line);
    if line == [] {
      assert r == d;
    } else {
      PutRow(d, line);
      assert Wrap(r) == r;
    }
    assert Putc(r, 10) == Display(0, Wrap(r).y + 1, Wrap(r).grid);
    hide PutAll, Putc, Wrap, Stored, Plain;
  }

  lemma OtherLine(lines: seq<seq<Char>>, n: nat, i: nat, x: nat)
    requires |lines| == n + 1 && i != n
    ensures LineCell(lines, i, x) == LineCell(lines[..n], i, x)
  {
  }

  lemma LinesGrow(g: Grid, h: Grid, lines: seq<seq<Char>>, n: nat, top: nat)
    requires IsGrid(g) && IsGrid(h) && |lines| == n + 1 && top <= n < top + ROWS && ShowsLines(g, lines[..n], top)
    requires forall y :: 0 <= y < ROWS && y != n - top ==> h[y] == g[y]
    requires forall x :: 0 <= x < COLUMNS ==>
               h[n - top][x] == if x < |lines[n]| then Stored(lines[n][x]) else g[n - top][x]
    ensures ShowsLines(h, lines, top)
  {
    forall y, x | 0 <= y < ROWS && 0 <= x < COLUMNS ensures h[y][x] == LineCell(lines, top + y, x) {
      assert g[y][x] == LineCell(lines[..n], top + y, x);
      if y == n - top {
        assert h[n - top][x] == if x < |lines[n]| then Stored(lines[n][x]) else g[n - top][x];
      } else {
        OtherLine(lines, n, top + y, x);
      }
    }
  }

  /** The screen once the lines before line `n` are shown and the next character has made it wrap. */
  lemma {:induction false} LinesBefore(lines: seq<seq<Char>>, n: nat, top: nat)
    requires AreLines(lines) && top <= n <= |lines| && n < top + ROWS && top % ROWS == 0
    ensures var w := Wrap(PutAll(Home(), Text(lines[..n])));
            w.x == 0 && w.y == n - top && ShowsLines(w.grid, lines[..n], top)
    decreases n, 0
  {
    if n > 0 {
      LinesShown(lines, n - 1, if n == top then top - ROWS else top);
      assert lines[..n - 1 + 1] == lines[..n];
    }
    hide PutAll, Putc;
  }

  lemma {:induction false} LinesShown(lines: seq<seq<Char>>, n: nat, top: nat)
    requires AreLines(lines) && top <= n < |lines| && n < top + ROWS && top % ROWS == 0
    ensures var d := PutAll(Home(), Text(lines[..n + 1]));
            d.x == 0 && d.y == n + 1 - top && ShowsLines(d.grid, lines[..n + 1], top)
    decreases n, 1
  {
    LinesBefore(lines, n, top);
    var before, t := PutAll(Home(), Text(lines[..n])), lines[..n + 1];
    assert t[..n] == lines[..n] && t[n] == lines[n];
    hide PutAll, Wrap, Stored, LineCell, ShowsLines;
    PutAppend(Home(), Text(t[..n]), t[n] + [10]);
    PutLine(before, t[n]);
    LinesGrow(Wrap(before).grid, PutAll(Home(), Text(t)).grid, t, n, top);
  }

  /** Line theorem: after n lines of less than 80 characters on a cleared screen, row i holds line
      25 * ((n - 1) / 25) + i if there is one, and is blank otherwise; the cursor is at the start of the row after
      the last line. */
  lemma LineTheorem(lines: seq<seq<Char>>)
    requires AreLines(lines) && lines != []
    ensures var d, top := PutAll(Home(), Text(lines)), 25 * ((|lines| - 1) / 25);
            && d.x == 0 && d.y == |lines| - top
            && (forall y, x :: 0 <= y < 25 && 0 <= x < 80 ==>
                  d.grid[y][x] == if top + y >= |lines| || x >= |lines[top + y]| then 32
                                  else var c := lines[top + y][x]; if c < 0 then 256 + c as int else c as int)
  {
    LinesShown(lines, |lines| - 1, 25 * ((|lines| - 1) / 25));
    assert lines[..|lines| - 1 + 1] == lines;
    hide PutAll, Text;
  }

  // ---- Pages ------------------------------------------------------------------------------------

  /** Row `y` column `x` of a screen that shows the characters from `from` to `to` of `s`, and is blank after
      them. */
  predicate Shows(d: Display, s: seq<Char>, from: nat, to: nat)
    requires Valid(d) && from <= to <= |s|
  {
    forall y, x :: 0 <= y < ROWS && 0 <= x < COLUMNS ==>
      d.grid[y][x] == if from + COLUMNS * y + x < to then Stored(s[from + COLUMNS * y + x]) else SPACE
  }

  /** One more character on the page shown. */
  lemma ShowNext(d: Display, s: seq<Char>, from: nat, n: nat)
    requires Valid(d) && from <= n < |s| && IsPlain(s[n])
    requires Shows(Wrap(d), s, from, n) && n == from + COLUMNS * Wrap(d).y + Wrap(d).x
    ensures Putc(d, s[n]).y == Wrap(d).y && Putc(d, s[n]).x == Wrap(d).x + 1
    ensures Shows(Putc(d, s[n]), s, from, n + 1)
  {
  }

  /** The screen after `n` characters, once the next one has made it wrap. */
  lemma {:induction false} PageBefore(s: seq<Char>, n: nat, from: nat)
    requires Plain(s) && from <= n < |s| && n < from + CELLS && from % CELLS == 0
    ensures var w := Wrap(PutAll(Home(), s[..n]));
            n == from + COLUMNS * w.y + w.x && Shows(w, s, from, n)
    decreases n, 0
  {
    if n > 0 { PageStep(s, n - 1, if n == from then from - CELLS else from); }
    hide Putc;
  }

  /** The cursor is behind the last character, and the screen shows the page it is on. */
  lemma {:induction false} PageStep(s: seq<Char>, n: nat, from: nat)
    requires Plain(s) && from <= n < |s| && n < from + CELLS && from % CELLS == 0
    ensures var d := PutAll(Home(), s[..n + 1]);
            1 <= d.x <= COLUMNS && d.y < ROWS && n + 1 == from + COLUMNS * d.y + d.x && Shows(d, s, from, n + 1)
    decreases n, 1
  {
    PageBefore(s, n, from);
    assert s[..n + 1] == s[..n] + [s[n]];
    PutSnoc(Home(), s[..n], s[n]);
    hide PutAll, Wrap, Putc, Shows;
    ShowNext(PutAll(Home(), s[..n]), s, from, n);
  }

  /** Page theorem: after n characters from a cleared screen, cell i of the screen, row by row, holds
      character 2000 * ((n - 1) / 2000) + i if there is one, by its own code, and is blank otherwise. */
  lemma PageTheorem(s: seq<Char>)
    requires s != [] && Plain(s)
    ensures var d, from := PutAll(Home(), s), 2000 * ((|s| - 1) / 2000);
            && 80 * d.y + d.x == |s| - from
            && (forall y, x :: 0 <= y < 25 && 0 <= x < 80 ==>
                  d.grid[y][x] == if from + 80 * y + x >= |s| then 32
                                  else var c := s[from + 80 * y + x]; if c < 0 then 256 + c as int else c as int)
  {
    PageStep(s, |s| - 1, CELLS * ((|s| - 1) / CELLS));
    assert s[..|s| - 1 + 1] == s;
    hide PutAll, Stored, Home, Valid;
  }

  // ---- Numbers ----------------------------------------------------------------------------------

  lemma {:induction false} DigitCount(u: nat, k: nat)
    requires u < Pow16(k)
    ensures |Digits(u)| <= k
  {
    if u > 0 {
      DigitCount(u / 16, k - 1);
    }
  }

  /** After puthex on a cleared screen, the cells before the cursor are hexadecimal digits, which read back
      as the number, seen as unsigned, and begin with a 0 never; the others are blank. */
  lemma NumberShown(a: int)
    requires -0x8000_0000 <= a < 0x8000_0000
    ensures var d := PutAll(Home(), Digits(Unsigned(a)));
            && d.y == 0 && d.x <= 8 && (d.x == 0 <==> a == 0)
            && (forall i :: 0 <= i < d.x ==> 48 <= d.grid[0][i] <= 57 || 65 <= d.grid[0][i] <= 70)
            && Base16(d.grid[0][..d.x]) == (if a < 0 then a + 0x1_0000_0000 else a)
            && (d.x > 0 ==> d.grid[0][0] != 48)
            && (forall y, x :: 0 <= y < 25 && 0 <= x < 80 && (y > 0 || x >= d.x) ==> d.grid[y][x] == 32)
  {
    var u := Unsigned(a);
    PowWord();
    DigitCount(u, 8);
    RoundTrip(u);
    var s := Digits(u);
    assert PutAll(Home(), []) == Home();
    hide PutAll, Putc, Digits, Base16;
    if u > 0 {
      PutRow(Home(), s);
      assert PutAll(Home(), s).grid[0][..|s|] == s;
    }
  }
}
