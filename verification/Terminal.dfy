/** The VGA text terminal as a 25-row window sliding down an unbounded 80-column typewriter page. */
module Terminal {
  import opened MachineWords

  const VGA_WIDTH: nat := 80
  const VGA_HEIGHT: nat := 25
  const CELLS: nat := 2000
  const NEWLINE: Byte := 10
  const SPACE: Byte := 32

  // ---------- The typewriter page ----------

  datatype Cursor = Cursor(row: nat, col: nat)

  function Move(at: Cursor, c: Byte): Cursor {
    if c == NEWLINE || at.col + 1 == VGA_WIDTH then Cursor(at.row + 1, 0) else Cursor(at.row, at.col + 1)
  }

  /** The carriage after typing `text`. */
  function Carriage(text: seq<Byte>): (at: Cursor)
    ensures at.col < VGA_WIDTH
  {
    if text == [] then Cursor(0, 0) else Move(Carriage(text[..|text| - 1]), text[|text| - 1])
  }

  /** The character typed at a place of the page; blank where nothing was typed. */
  function Typed(text: seq<Byte>, row: nat, col: nat): Byte {
    if text == [] then SPACE
    else
      var before, c := text[..|text| - 1], text[|text| - 1];
      if c != NEWLINE && Carriage(before) == Cursor(row, col) then c else Typed(before, row, col)
  }

  /** The lowest row in use: a row only wrapped into does not count until something happens in it. */
  function Bottom(text: seq<Byte>): nat {
    var at := Carriage(text);
    if text != [] && text[|text| - 1] != NEWLINE && at.col == 0 && at.row > 0 then at.row - 1 else at.row
  }

  /** The first row on screen. */
  function Top(text: seq<Byte>): nat {
    if Bottom(text) < VGA_HEIGHT then 0 else Bottom(text) - (VGA_HEIGHT - 1)
  }

  lemma Snoc(text: seq<Byte>, c: Byte)
    ensures Carriage(text + [c]) == Move(Carriage(text), c)
  {
  }

  /** Where the window is after one more character. */
  lemma TopSnoc(text: seq<Byte>, c: Byte)
    ensures var row := Carriage(text).row + (if c == NEWLINE then 1 else 0);
            Top(text + [c]) == if row < 25 then 0 else row - 24
  {
  }

  lemma {:induction false} CarriageRange(text: seq<Byte>)
    ensures var at, top := Carriage(text), Top(text);
            && at.col < 80 && top <= at.row <= top + 25
            && (at.row == top + 25 ==> at.col == 0)
            && (top > 0 ==> top + 24 <= at.row)
  {
  }

  /** Nothing is typed at or after the carriage. */
  lemma {:induction false} BlankAhead(text: seq<Byte>, row: nat, col: nat)
    requires Carriage(text).row < row || (Carriage(text).row == row && Carriage(text).col <= col)
    ensures Typed(text, row, col) == 32
  {
    if text != [] {
      BlankAhead(text[..|text| - 1], row, col);
    }
  }

  // ---------- The page in numbers ----------

  /** A newline moves the carriage to column 0 of the next row and types nothing. */
  lemma NewlineTyped(text: seq<Byte>, row: nat, col: nat)
    ensures Carriage(text + [10]) == Cursor(Carriage(text).row + 1, 0)
    ensures Typed(text + [10], row, col) == Typed(text, row, col)
  {
    assert (text + [10])[..|text|] == text;
  }

  lemma NextColumn(n: nat)
    ensures Move(Cursor(n / 80, n % 80), 0) == Cursor((n + 1) / 80, (n + 1) % 80)
  {
  }

  /** A line typed from column 0 on fills the page 80 to a row: where the carriage ends up. */
  lemma {:induction false} LineEnds(text: seq<Byte>, line: seq<Byte>)
    requires Carriage(text).col == 0 && 10 !in line
    ensures Carriage(text + line) == Cursor(Carriage(text).row + |line| / 80, |line| % 80)
  {
    if line == [] {
      assert text + line == text;
    } else {
      var init, c := line[..|line| - 1], line[|line| - 1];
      LineEnds(text, init);
      assert c in line;
      assert text + line == text + init + [c];
      Snoc(text + init, c);
      NextColumn(|init|);
    }
  }

  /** ... where its characters are, and that nothing else on the page changes. */
  lemma {:induction false} LineTyped(text: seq<Byte>, line: seq<Byte>, row: nat, col: nat)
    requires Carriage(text).col == 0 && 10 !in line && col < 80
    ensures var k := (row - Carriage(text).row) * 80 + col;
            Typed(text + line, row, col) == if 0 <= k < |line| then line[k] else Typed(text, row, col)
  {
    if line == [] {
      assert text + line == text;
    } else {
      var init, c := line[..|line| - 1], line[|line| - 1];
      assert c in line;
      LineTyped(text, init, row, col);
      LineEnds(text, init);
      assert text + line == text + init + [c];
      SnocTyped(text + init, c, row, col);
      var k := (row - Carriage(text).row) * 80 + col;
      assert Carriage(text + init) == Cursor(row, col) <==> k == |init| by {
        PlaceOf(row - Carriage(text).row, col, |init|);
      }
    }
  }

  lemma PlaceOf(row: int, col: nat, n: nat)
    requires col < 80
    ensures row * 80 + col == n <==> row == n / 80 && col == n % 80
  {
  }

  lemma SnocTyped(text: seq<Byte>, c: Byte, row: nat, col: nat)
    ensures Typed(text + [c], row, col) == if c != 10 && Carriage(text) == Cursor(row, col) then c else Typed(text, row, col)
  {
    assert (text + [c])[..|text|] == text;
  }

  /** A text without newlines: character k is in row k / 80, column k % 80. */
  lemma PlainText(text: seq<Byte>, k: nat)
    requires 10 !in text && k < |text|
    ensures Carriage(text) == Cursor(|text| / 80, |text| % 80) && Typed(text, k / 80, k % 80) == text[k]
  {
    hide Carriage, Typed;
    var blank := StartOfPage(text);
    LineEnds(blank, text);
    LineTyped(blank, text, k / 80, k % 80);
    PlaceOf(k / 80, k % 80, k);
  }

  lemma StartOfPage(text: seq<Byte>) returns (blank: seq<Byte>)
    ensures Carriage(blank) == Cursor(0, 0) && blank + text == text
  {
    blank := [];
  }

  // ---------- The screen ----------

  function Entry(c: Byte, color: Byte): int {
    var glyph: int, attribute: int := c, color;
    glyph + 0x100 * attribute
  }

  function Glyph(entry: int): Byte { entry % 0x100 }

  function RowOf(k: nat): nat { k / 80 }

  function ColOf(k: nat): nat { k % 80 }

  /** The characters on screen are the 25 rows of the page from `top` on. */
  ghost predicate Shows(buffer: seq<int>, text: seq<Byte>, top: nat) {
    && |buffer| == CELLS
    && forall k :: 0 <= k < CELLS ==> Glyph(buffer[k]) == Typed(text, top + RowOf(k), ColOf(k))
  }

  lemma ScrolledCell(buffer: seq<int>, text: seq<Byte>, top: nat, k: nat)
    requires Shows(buffer, text, top) && k < CELLS - VGA_WIDTH
    ensures Glyph(buffer[k + VGA_WIDTH]) == Typed(text, top + 1 + RowOf(k), ColOf(k))
  {
  }

  /** Scrolling moves the window down one row, provided nothing is typed on the row that appears. */
  lemma Scrolled(buffer: seq<int>, buffer': seq<int>, text: seq<Byte>, top: nat)
    requires Shows(buffer, text, top) && |buffer'| == CELLS
    requires forall k :: 0 <= k < CELLS - VGA_WIDTH ==> buffer'[k] == buffer[k + VGA_WIDTH]
    requires forall k :: CELLS - VGA_WIDTH <= k < CELLS ==> Glyph(buffer'[k]) == SPACE
    requires Carriage(text).row <= top + VGA_HEIGHT && (Carriage(text).row == top + VGA_HEIGHT ==> Carriage(text).col == 0)
    ensures Shows(buffer', text, top + 1)
  {
    hide Typed, Carriage;
    forall k | 0 <= k < CELLS
      ensures Glyph(buffer'[k]) == Typed(text, top + 1 + RowOf(k), ColOf(k))
    {
      if k < CELLS - VGA_WIDTH {
        ScrolledCell(buffer, text, top, k);
      } else {
        assert RowOf(k) == 24;
        BlankAhead(text, top + VGA_HEIGHT, ColOf(k));
      }
    }
  }

  function IndexOf(row: nat, col: nat): nat { row * 80 + col }

  lemma CellOf(row: nat, col: nat, k: nat)
    requires col < 80
    ensures k == IndexOf(row, col) <==> RowOf(k) == row && ColOf(k) == col
    ensures row < VGA_HEIGHT ==> IndexOf(row, col) < CELLS
  {
  }

  lemma EntryGlyph(c: Byte, color: Byte)
    ensures Glyph(Entry(c, color)) == c
  {
  }

  lemma PutCell(buffer: seq<int>, text: seq<Byte>, top: nat, c: Byte, entry: int, k: nat)
    requires Shows(buffer, text, top) && c != NEWLINE && Glyph(entry) == c && k < CELLS
    requires top <= Carriage(text).row < top + VGA_HEIGHT
    ensures var i := IndexOf(Carriage(text).row - top, Carriage(text).col);
            (if k == i then c else Glyph(buffer[k])) == Typed(text + [c], top + RowOf(k), ColOf(k))
  {
  }

  /** A character put at the carriage shows up there and nowhere else. */
  lemma PutShows(buffer: seq<int>, text: seq<Byte>, top: nat, c: Byte, color: Byte)
    requires Shows(buffer, text, top) && c != NEWLINE
    requires top <= Carriage(text).row < top + VGA_HEIGHT
    ensures var at := Carriage(text);
            var i := IndexOf(at.row - top, at.col);
            i < CELLS && Shows(buffer[i := Entry(c, color)], text + [c], top)
  {
    hide Typed, Carriage, Glyph, Entry, RowOf, ColOf, IndexOf;
    EntryGlyph(c, color);
    var at := Carriage(text);
    CellOf(at.row - top, at.col, 0);
    var i := IndexOf(at.row - top, at.col);
    var buffer' := buffer[i := Entry(c, color)];
    forall k | 0 <= k < CELLS
      ensures Glyph(buffer'[k]) == Typed(text + [c], top + RowOf(k), ColOf(k))
    {
      PutCell(buffer, text, top, c, Entry(c, color), k);
    }
  }

  lemma NewlineShows(buffer: seq<int>, text: seq<Byte>, top: nat)
    requires Shows(buffer, text, top)
    ensures Shows(buffer, text + [NEWLINE], top)
  {
  }

  class Screen {
    const buffer: array<int>
    var row: nat
    var column: nat
    var color: Byte
    ghost var text: seq<Byte>

    /** The screen shows the window, and row and column point at the carriage. Row 25 is an unseen
        wrapped-into row and has column 0. */
    ghost predicate Valid()
      reads this, buffer
    {
      && buffer.Length == CELLS
      && Shows(buffer[..], text, Top(text))
      && row == Carriage(text).row - Top(text) && column == Carriage(text).col
    }

    constructor ()
      ensures Valid() && text == [] && fresh(buffer)
    {
      buffer := new int[CELLS];
      row, column, text := 0, 0, [];
      color := 2;
      new;
      for k := 0 to CELLS
        modifies buffer
        invariant forall j :: 0 <= j < k ==> Glyph(buffer[j]) == SPACE
      {
        buffer[k] := Entry(SPACE, color);
      }
    }

    /** What is on screen: the low byte of cell row * 80 + col is the character in that place of the window. */
    lemma Visible(r: nat, c: nat)
      requires Valid() && r < 25 && c < 80
      ensures r * 80 + c < buffer.Length && buffer[r * 80 + c] % 256 == Typed(text, Top(text) + r, c)
    {
      hide Typed, Top;
      CellOf(r, c, r * 80 + c);
    }

    /** Row 25 occurs only with column 0. */
    lemma RowRange()
      requires Valid()
      ensures row <= 25 && column < 80 && (row == 25 ==> column == 0)
    {
    }

    /** Moves row `y` up by one; the rows below are untouched. */
    method MoveRow(y: nat)
      requires buffer.Length == CELLS && 1 <= y < VGA_HEIGHT
      modifies buffer
      ensures forall k :: (y - 1) * 80 <= k < y * 80 ==> buffer[k] == old(buffer[k + 80])
      ensures forall k :: 0 <= k < CELLS && !((y - 1) * 80 <= k < y * 80) ==> buffer[k] == old(buffer[k])
    {
      for v := 0 to VGA_WIDTH
        invariant forall k :: (y - 1) * 80 <= k < (y - 1) * 80 + v ==> buffer[k] == old(buffer[k + 80])
        invariant forall k :: 0 <= k < CELLS && !((y - 1) * 80 <= k < (y - 1) * 80 + v) ==> buffer[k] == old(buffer[k])
      {
        var index := y * VGA_WIDTH + v;
        buffer[index - VGA_WIDTH] := buffer[index];
      }
    }

    method Scroll()
      requires buffer.Length == CELLS
      modifies buffer
      ensures forall k :: 0 <= k < CELLS - VGA_WIDTH ==> buffer[k] == old(buffer[k + VGA_WIDTH])
      ensures forall k :: CELLS - VGA_WIDTH <= k < CELLS ==> Glyph(buffer[k]) == SPACE
    {
      for y := 1 to VGA_HEIGHT
        invariant forall k :: 0 <= k < (y - 1) * 80 ==> buffer[k] == old(buffer[k + 80])
        invariant forall k :: (y - 1) * 80 <= k < CELLS ==> buffer[k] == old(buffer[k])
      {
        MoveRow(y);
      }
      for i := 0 to VGA_WIDTH
        invariant forall k :: 0 <= k < CELLS - 80 ==> buffer[k] == old(buffer[k + 80])
        invariant forall k :: CELLS - 80 <= k < CELLS - 80 + i ==> buffer[k] == SPACE
      {
        buffer[VGA_WIDTH * (VGA_HEIGHT - 1) + i] := SPACE;
      }
    }

    method PutChar(c: Byte)
      requires Valid()
      modifies this, buffer
      ensures Valid() && text == old(text) + [c]
    {
      hide Shows, Top, Carriage, Typed;
      ghost var top, next := Top(text), text + [c];
      CarriageRange(text);
      Snoc(text, c);
      TopSnoc(text, c);
      if row == VGA_HEIGHT {
        ghost var before := buffer[..];
        Scroll();
        Scrolled(before, buffer[..], text, top);
        top := top + 1;
        row := VGA_HEIGHT - 1;
        column := 0;
      }
      if c == NEWLINE {
        NewlineShows(buffer[..], text, top);
        text := next;
        column := 0;
        row := row + 1;
        if row == VGA_HEIGHT {
          ghost var before := buffer[..];
          Scroll();
          Scrolled(before, buffer[..], text, top);
          row := row - 1;
        }
        return;
      }
      PutShows(buffer[..], text, top, c, color);
      buffer[row * VGA_WIDTH + column] := Entry(c, color);
      text := next;
      column := column + 1;
      if column == VGA_WIDTH {
        column := 0;
        row := row + 1;
      }
    }

    method Write(data: seq<Byte>)
      requires Valid()
      modifies this, buffer
      ensures Valid() && text == old(text) + data
    {
      for i := 0 to |data|
        invariant Valid() && text == old(text) + data[..i]
      {
        PutChar(data[i]);
      }
    }
  }
}
