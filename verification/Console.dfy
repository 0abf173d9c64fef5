/** The console of my-kernel-asa/src/main.c over the video memory: two bytes for each cell, the character
    and its colour. */
module Console {
  import opened Hex
  import opened Screen

  const VIDEO_BYTES := 4000
  const WHITE: nat := 0x0F

  /** The character bytes, row by row. */
  function Rows(a: seq<nat>): (g: Grid)
    requires |a| == VIDEO_BYTES
    ensures IsGrid(g)
    ensures forall y, x :: 0 <= y < ROWS && 0 <= x < COLUMNS ==> g[y][x] == a[(x + COLUMNS * y) * 2]
  {
    seq(ROWS, y requires 0 <= y < ROWS => seq(COLUMNS, x requires 0 <= x < COLUMNS => a[(x + COLUMNS * y) * 2]))
  }

  predicate AllWhite(a: seq<nat>) {
    |a| == VIDEO_BYTES && (forall i :: 0 <= i < CELLS ==> a[Colour(i)] == WHITE)
  }

  /** The byte of the colour of cell `i`. */
  function Colour(i: nat): nat {
    2 * i + 1
  }

  lemma SameGrid(g: Grid, h: Grid)
    requires IsGrid(g) && IsGrid(h)
    requires forall y, x :: 0 <= y < ROWS && 0 <= x < COLUMNS ==> g[y][x] == h[y][x]
    ensures g == h
  {
    forall y | 0 <= y < ROWS ensures g[y] == h[y] {
      assert forall x :: 0 <= x < COLUMNS ==> g[y][x] == h[y][x];
    }
  }

  /** Writing one character byte changes one cell of the grid and no colour. */
  lemma StoreCell(a: seq<nat>, x: nat, y: nat, v: nat)
    requires AllWhite(a) && x < COLUMNS && y < ROWS
    ensures var b := a[(x + COLUMNS * y) * 2 := v];
            AllWhite(b) && Rows(b) == SetCell(Rows(a), x, y, v)
  {
    var b := a[(x + COLUMNS * y) * 2 := v];
    forall j, i | 0 <= j < ROWS && 0 <= i < COLUMNS ensures Rows(b)[j][i] == SetCell(Rows(a), x, y, v)[j][i] {
    }
    SameGrid(Rows(b), SetCell(Rows(a), x, y, v));
  }

  class Console {
    var videoMemory: array<nat>
    var cursorX: nat
    var cursorY: nat

    /** The position last sent to the cursor registers of the display controller. */
    var hardwareCursor: nat

    function Shown(): Display
      reads this, videoMemory
      requires videoMemory.Length == VIDEO_BYTES
    {
      Display(cursorX, cursorY, Rows(videoMemory[..]))
    }

    ghost predicate Valid()
      reads this, videoMemory
    {
      AllWhite(videoMemory[..]) && Screen.Valid(Shown())
    }

    constructor (memory: array<nat>)
      requires memory.Length == VIDEO_BYTES
      ensures videoMemory == memory && cursorX == 0 && cursorY == 0
    {
      videoMemory, cursorX, cursorY, hardwareCursor := memory, 0, 0, 0;
    }

    /** Whatever the memory held. */
    method ClearScreen()
      requires videoMemory.Length == VIDEO_BYTES
      modifies videoMemory
      ensures AllWhite(videoMemory[..]) && Rows(videoMemory[..]) == Blank()
      ensures forall i :: 0 <= i < 2000 ==> videoMemory[2 * i] == 32 && videoMemory[Colour(i)] == 0x0F
    {
      for i := 0 to CELLS
        invariant forall j :: 0 <= j < i ==> videoMemory[Colour(j)] == WHITE && videoMemory[2 * j] == SPACE
      {
        videoMemory[i * 2 + 1] := WHITE;
        videoMemory[i * 2] := SPACE;
      }
      forall y, x | 0 <= y < ROWS && 0 <= x < COLUMNS ensures Rows(videoMemory[..])[y][x] == SPACE {
        assert videoMemory[2 * (x + COLUMNS * y)] == SPACE;
      }
      SameGrid(Rows(videoMemory[..]), Blank());
    }

    /** The two registers get the high and the low byte. */
    method SetCursor()
      modifies this`hardwareCursor
      ensures hardwareCursor == (cursorX + cursorY * COLUMNS) % 0x1_0000
    {
      var cursorOffset := cursorX + cursorY * COLUMNS;
      hardwareCursor := (cursorOffset / 256) % 256 * 256 + cursorOffset % 256;
    }

    /** The beginning of putc. */
    method WrapCursor()
      requires Valid()
      modifies this`cursorX, this`cursorY, videoMemory
      ensures Valid() && Shown() == Wrap(old(Shown())) && cursorX < COLUMNS && cursorY < ROWS
    {
      assert videoMemory.Length == VIDEO_BYTES;
      hide AllWhite, Rows, IsGrid, Blank;
      if cursorX > 79 {
        cursorX := 0;
        cursorY := cursorY + 1;
      }
      if cursorY > 24 {
        cursorY := 0;
        ClearScreen();
      }
    }

    /** The flat memory follows the grid; the hardware cursor is where the next character goes, or one place
        past the end. */
    method Putc(c: Char)
      requires Valid()
      modifies this, videoMemory
      ensures Valid() && videoMemory == old(videoMemory)
      ensures Shown() == Screen.Putc(old(Shown()), c)
      ensures hardwareCursor == cursorX + COLUMNS * cursorY <= CELLS
    {
      WrapCursor();
      assert videoMemory.Length == VIDEO_BYTES;
      hide AllWhite, Rows, SetCell, IsGrid, Wrap, Stored;
      if c == RETURN {
        cursorX := 0;
      } else if c == NEWLINE {
        cursorX := 0;
        cursorY := cursorY + 1;
      } else if c == BACKSPACE {
        if cursorX > 0 { cursorX := cursorX - 1; }
      } else if c == TAB {
        cursorX := (cursorX + 8) / 8 * 8;
      } else {
        ghost var before := videoMemory[..];
        StoreCell(before, cursorX, cursorY, Stored(c));
        videoMemory[(cursorX + 80 * cursorY) * 2] := Stored(c);
        assert videoMemory[..] == before[(cursorX + 80 * cursorY) * 2 := Stored(c)];
        cursorX := cursorX + 1;
      }
      SetCursor();
    }

    /** Prints up to the terminating zero. */
    method Puts(text: seq<Char>)
      requires Valid() && 0 in text
      modifies this, videoMemory
      ensures Valid() && videoMemory == old(videoMemory)
      ensures Shown() == PutAll(old(Shown()), UpToZero(text))
    {
      var i := 0;
      assert text[..0] == [];
      while text[i] != 0
        invariant 0 <= i < |text| && 0 !in text[..i] && 0 in text[i..]
        invariant Valid() && videoMemory == old(videoMemory)
        invariant Shown() == PutAll(old(Shown()), text[..i])
        decreases |text| - i
      {
        PutSnoc(old(Shown()), text[..i], text[i]);
        assert text[..i + 1] == text[..i] + [text[i]];
        assert text[i..] == [text[i]] + text[i + 1..];
        Putc(text[i]);
        i := i + 1;
      }
      assert UpToZero(text) == text[..i] by {
        ZeroAt(text, i);
      }
    }

    /** Prints the hexadecimal writing of the number, seen as unsigned, without leading zeros. */
    method PutHex(aNumber: int)
      requires Valid() && -0x8000_0000 <= aNumber < 0x8000_0000
      modifies this, videoMemory
      ensures Valid() && videoMemory == old(videoMemory)
      ensures Shown() == PutAll(old(Shown()), Digits(Unsigned(aNumber)))
    {
      var started := false;
      AboveAll(aNumber);
      hide Above, Nibble, Digits;
      var i := 28;
      ghost var k := 8;
      while i >= 0
        invariant 0 <= k <= 8 && i == 4 * k - 4
        invariant Valid() && videoMemory == old(videoMemory)
        invariant started <==> Digits(Above(aNumber, k)) != []
        invariant Shown() == PutAll(old(Shown()), Digits(Above(aNumber, k)))
        decreases i
      {
        k := k - 1;
        DigitsStep(aNumber, k);
        var n := Nibble(aNumber, i / 4);
        if n != 0 || started {
          PutSnoc(old(Shown()), Digits(Above(aNumber, k + 1)), HexDigit(n));
          Putc(HexDigit(n));
          started := true;
        }
        i := i - 4;
      }
    }
  }

  /** A C string as the characters before its first zero. */
  function UpToZero(text: seq<Char>): seq<Char> {
    if text == [] || text[0] == 0 then [] else [text[0]] + UpToZero(text[1..])
  }

  lemma {:induction false} ZeroAt(text: seq<Char>, i: nat)
    requires i < |text| && text[i] == 0 && 0 !in text[..i]
    ensures UpToZero(text) == text[..i]
  {
    if i > 0 {
      assert text[0] in text[..i];
      assert text[..i] == [text[0]] + text[1..][..i - 1];
      ZeroAt(text[1..], i - 1);
    }
  }
}
