/** The line editor of the console: a buffer of bytes with cached widths and cursor, and the row
    arithmetic by which the line is drawn again after every key. */
module Console {
  import opened Utf8
  import opened Editor
  import Typing

  // ---- Drawing ----

  const TWO64 := 0x1_0000_0000_0000_0000

  // A subtraction of 64-bit words, which wraps below zero.
  function Less(a: nat, b: nat): int { if a >= b then a - b else a - b + TWO64 }

  // How far the cursor is sent down, up and right, how many rows are cleared on the way up, and the
  // number of rows in use, all without wrapping.
  datatype Plan = Plan(down: int, clears: int, up: int, right: nat, row: nat)

  function Max(a: nat, b: nat): nat { if a < b then b else a }

  // The rows that n cells take.
  function RowsOf(n: nat, width: nat): nat
    requires width > 0
  {
    (n + width - 1) / width
  }

  // The row and the column of cell n, and the number of rows down to it.
  function RowOf(n: nat, width: nat): nat
    requires width > 0
  {
    n / width
  }

  function ColumnOf(n: nat, width: nat): nat
    requires width > 0
  {
    n % width
  }

  function RowsTo(n: nat, width: nat): nat
    requires width > 0
  {
    (n + width) / width
  }

  // The rows in use when n cells have been written: at the end of a full row the program begins a new one.
  function RowsBegun(n: nat, width: nat, atEnd: bool): nat
    requires width > 0
  {
    RowsOf(n, width) + if atEnd && ColumnOf(n, width) == 0 then 1 else 0
  }

  // The row that the cursor of the terminal is on then. A terminal wraps only when the next cell is written.
  function WrittenRow(n: nat, width: nat, atEnd: bool): nat
    requires width > 0
  {
    var rows := RowsBegun(n, width, atEnd);
    if rows == 0 then 0 else rows - 1
  }

  ghost function PlanFor(prompt: nat, width: nat, row: nat, rendered: nat, cells: nat, column: nat, atEnd: bool): Plan
    requires width > 0
  {
    var rows := RowsOf(prompt + cells, width);
    var row1 := Max(row, rows);
    var right := ColumnOf(prompt + column, width);
    var rows2 := if atEnd && right == 0 then rows + 1 else rows;
    Plan(row1 - RowsTo(prompt + rendered, width), row1 - 1, rows2 - RowsTo(prompt + column, width), right, Max(row1, rows2))
  }

  lemma OneMore(a: nat, width: nat)
    requires width > 0
    ensures RowsTo(a, width) == RowOf(a, width) + 1
  {
    var q := (a + width) / width - a / width;
    assert a == width * (a / width) + a % width;
    assert a + width == width * ((a + width) / width) + (a + width) % width;
    Between(width, q - 1, a % width, (a + width) % width);
  }

  lemma Between(width: nat, d: int, r: nat, s: nat)
    requires r < width && s < width && width * d == r - s
    ensures d == 0
  {
    assert d >= 1 ==> width * d >= width;
    assert d <= -1 ==> width * d + width <= 0;
  }

  lemma RowsAre(n: nat, width: nat)
    requires width > 0
    ensures RowsOf(n, width) == if ColumnOf(n, width) == 0 then RowOf(n, width) else RowOf(n, width) + 1
  {
    var r := n % width;
    assert n == width * (n / width) + r;
    var m := n + width - 1;
    assert m == width * (m / width) + m % width;
    if r == 0 {
      Between(width, m / width - n / width, width - 1, m % width);
    } else {
      Between(width, m / width - n / width - 1, r - 1, m % width);
    }
  }

  lemma DivMonotone(a: nat, b: nat, width: nat)
    requires width > 0 && a <= b
    ensures RowOf(a, width) <= RowOf(b, width)
    ensures a < b && RowOf(a, width) == RowOf(b, width) ==> ColumnOf(a, width) < ColumnOf(b, width)
  {
    assert a == width * (a / width) + a % width;
    assert b == width * (b / width) + b % width;
    var d := b / width - a / width;
    assert d <= -1 ==> width * d + width <= 0;
    assert width * d == b - a + a % width - b % width;
  }

  // Whether a redrawing is exact: the prompt ends before the edge, or something is on the line.
  predicate Exact(prompt: nat, width: nat, cells: nat)
    requires width > 0
  {
    ColumnOf(prompt, width) != 0 || cells > 0
  }

  // Whether a prompt fills its last row.
  predicate EndsAtEdge(prompt: nat, width: nat)
    requires width > 0
  {
    prompt > 0 && ColumnOf(prompt, width) == 0
  }

  // How far below its place, in rows, everything is drawn.
  function Shift(prompt: nat, width: nat): int
    requires width > 0
  {
    if EndsAtEdge(prompt, width) then -1 else 0
  }

  // Rows enough for all the cells are rows enough for a cell before them, or for the end of them once
  // the new row has been begun.
  lemma RowsReach(prompt: nat, width: nat, cells: nat, column: nat, atEnd: bool)
    requires width > 0 && column <= cells && (atEnd <==> cells > 0 && column == cells)
    ensures Exact(prompt, width, cells) ==> RowsBegun(prompt + cells, width, atEnd) >= RowsTo(prompt + column, width)
    ensures !Exact(prompt, width, cells) ==> RowsBegun(prompt + cells, width, atEnd) == RowsTo(prompt + column, width) - 1
  {
    hide RowsOf, RowOf, ColumnOf, RowsTo;
    OneMore(prompt + column, width);
    RowsAre(prompt + cells, width);
    DivMonotone(prompt + column, prompt + cells, width);
  }

  /** No subtraction goes below zero exactly if the prompt does not end at the edge of the console or
      there is something on the line; otherwise the way up is one row too short. Where none does, a
      cursor that starts on the row of the cell it was left at goes to the last row, clears up to the
      first, and after writing everything ends on the row of the cell that it stands for. Either way the
      number of rows in use covers the row of the cursor when the next key comes. */
  lemma PlanExact(prompt: nat, width: nat, row: nat, rendered: nat, cells: nat, column: nat, atEnd: bool)
    requires width > 0 && column <= cells && (atEnd <==> cells > 0 && column == cells)
    requires rendered == 0 || row >= RowOf(prompt + rendered, width) + 1
    ensures var p := PlanFor(prompt, width, row, rendered, cells, column, atEnd);
            (p.down >= 0 && p.clears >= 0 && p.up >= 0 <==> Exact(prompt, width, cells))
            && (!Exact(prompt, width, cells) ==> p.up == -1)
            && RowOf(prompt + rendered, width) + p.down == p.clears
            && (p.up >= 0 ==> WrittenRow(prompt + cells, width, atEnd) - p.up == RowOf(prompt + column, width))
            && (column == 0 || p.row >= RowOf(prompt + column, width) + 1)
  {
    hide RowsOf, RowOf, ColumnOf, RowsTo;
    OneMore(prompt + rendered, width);
    OneMore(prompt + column, width);
    RowsReach(prompt, width, cells, column, atEnd);
    RowsReach(prompt, width, cells, 0, false);
  }

  /** After the prompt alone the cursor is on the row of the cell behind it, unless the prompt ends at the
      edge: then it is on the row before that. */
  lemma PromptLeaves(prompt: nat, width: nat)
    requires width > 0
    ensures WrittenRow(prompt, width, false) == RowOf(prompt, width) + Shift(prompt, width)
  {
    hide RowsOf, RowOf, ColumnOf;
    RowsAre(prompt, width);
    Zero(width);
    if prompt > 0 {
      DivMonotone(0, prompt, width);
    }
  }

  lemma Zero(width: nat)
    requires width > 0
    ensures RowOf(0, width) == 0 && ColumnOf(0, width) == 0
  {}

  /** The first drawing behind a prompt starts on the row of the prompt if and only if the prompt does not
      end at the edge; otherwise it clears the row above and moves everything up into it. */
  lemma FirstDrawingInPlace(prompt: nat, width: nat, cells: nat, column: nat)
    requires width > 0 && column <= cells && Exact(prompt, width, cells)
    ensures var p := PlanFor(prompt, width, 0, 0, cells, column, cells > 0 && column == cells);
            var first := WrittenRow(prompt, width, false) + p.down - p.clears;
            first == Shift(prompt, width) && (first == 0 <==> !EndsAtEdge(prompt, width))
  {
    hide RowsOf, RowOf, ColumnOf, RowsTo;
    PlanExact(prompt, width, 0, 0, cells, column, cells > 0 && column == cells);
    PromptLeaves(prompt, width);
  }

  /** The first character behind a prompt of two cells on a console two cells wide: no subtraction wraps,
      and the row above the prompt is cleared. */
  lemma RowAboveCleared()
    ensures var p := PlanFor(2, 2, 0, 0, 1, 1, true);
            p == Plan(0, 1, 0, 1, 2) && WrittenRow(2, 2, false) + p.down - p.clears == -1
  {}

  // A distance as the escape sequence carries it, cut to 32 bits.
  function Carried(distance: nat): nat { distance % 0x1_0000_0000 }

  /** A cursor key on an empty line behind a prompt of eighty cells on a console eighty cells wide: the
      way up comes out as 2^64 - 1 rows, and 2^32 - 1 of them reach the terminal. */
  lemma EmptyLineWraps()
    ensures PlanFor(80, 80, 0, 0, 0, 0, false) == Plan(-1, 0, -1, 0, 1)
    ensures Less(RowsOf(80, 80), RowsTo(80, 80)) == TWO64 - 1 && Carried(TWO64 - 1) == 0xffff_ffff
  {}

  // Whether an empty line counts as its own end makes no difference where the drawing is exact.
  lemma EndsAgree(prompt: nat, width: nat, cells: nat, a: bool, b: bool)
    requires width > 0 && (cells > 0 ==> a == b)
    ensures Exact(prompt, width, cells) ==> WrittenRow(prompt + cells, width, a) == WrittenRow(prompt + cells, width, b)
  {}

  lemma ExactMeans(prompt: nat, width: nat, cells: nat)
    requires width > 0
    ensures !Exact(prompt, width, cells) ==> ColumnOf(prompt, width) == 0 && cells == 0
  {}

  // The distances of a plan in words of 64 bits.
  function Word(n: int): int { if n >= 0 then n else n + TWO64 }

  // The plan as `PlanExact` has it, in those words.
  lemma WordsExact(prompt: nat, width: nat, row: nat, rendered: nat, cells: nat, column: nat, atEnd: bool)
    requires width > 0 && column <= cells && (atEnd <==> cells > 0 && column == cells)
    requires rendered == 0 || row >= RowOf(prompt + rendered, width) + 1
    ensures var p := PlanFor(prompt, width, row, rendered, cells, column, atEnd);
            (Exact(prompt, width, cells) ==>
              RowOf(prompt + rendered, width) + Word(p.down) == Word(p.clears)
              && WrittenRow(prompt + cells, width, atEnd) - Word(p.up) == RowOf(prompt + column, width))
            && (!Exact(prompt, width, cells) ==> Word(p.up) == TWO64 - 1)
            && (column == 0 || p.row >= RowOf(prompt + column, width) + 1)
            && p.right == ColumnOf(prompt + column, width)
  {
    hide RowsOf, RowOf, ColumnOf, RowsTo, WrittenRow, Exact;
    PlanExact(prompt, width, row, rendered, cells, column, atEnd);
  }

  // ---- The line ----

  // A gap is opened at at, and the bytes of c go into it.
  method InsertBytes(line: array<bv8>, size: nat, at: nat, c: array<bv8>, len: nat)
    requires c != line && len <= c.Length && at <= size && size + len < line.Length
    modifies line
    ensures line[..size + len] == old(line[..size])[..at] + c[..len] + old(line[..size])[at..]
    ensures line[size + len] == 0
  {
    ghost var bytes, ch := line[..size], c[..len];
    if size != at {
      forall k | at <= k < size { line[k + len] := line[k]; }
    }
    forall k | 0 <= k < len { line[at + k] := c[k]; }
    line[size + len] := 0;
    Joined(line[..size + len], bytes, at, ch);
  }

  lemma Joined(r: seq<bv8>, bytes: seq<bv8>, at: nat, ch: seq<bv8>)
    requires at <= |bytes| && |r| == |bytes| + |ch|
    requires forall k :: 0 <= k < at ==> r[k] == bytes[k]
    requires forall k :: at <= k < at + |ch| ==> r[k] == ch[k - at]
    requires forall k :: at + |ch| <= k < |r| ==> r[k] == bytes[k - |ch|]
    ensures r == bytes[..at] + ch + bytes[at..]
  {}

  // The bytes from at to at + len are closed up.
  method RemoveBytes(line: array<bv8>, size: nat, at: nat, len: nat)
    requires at + len <= size <= line.Length
    modifies line
    ensures line[..size - len] == old(line[..size])[..at] + old(line[..size])[at + len..]
  {
    ghost var bytes := line[..size];
    forall k | at + len <= k < size { line[k - len] := line[k]; }
    Closed(line[..size - len], bytes, at, len);
  }

  lemma Closed(r: seq<bv8>, bytes: seq<bv8>, at: nat, len: nat)
    requires at + len <= |bytes| && |r| == |bytes| - len
    requires forall k :: 0 <= k < at ==> r[k] == bytes[k]
    requires forall k :: at <= k < |r| ==> r[k] == bytes[k + len]
    ensures r == bytes[..at] + bytes[at + len..]
  {}

  // The bytes of a piece of the line, read from its buffer.
  lemma Piece(line: array<bv8>, size: nat, a: nat, b: nat)
    requires a <= b <= size <= line.Length
    ensures line[..size][a..b] == line[a..b]
  {}

  datatype Direction = MoveUp | MoveDown | MoveRight | MoveLeft | MoveHome | MoveEnd | JumpForward | JumpBackward

  ghost function Moved(e: Editor, direction: Direction): Editor
    requires Sound(e)
  {
    match direction
    case MoveUp => e
    case MoveDown => e
    case MoveRight => Right(e)
    case MoveLeft => Left(e)
    case MoveHome => Home(e)
    case MoveEnd => End(e)
    case JumpForward => WordEnd(e)
    case JumpBackward => WordStart(e)
  }

  // From place a on there are spaces up to k, and then one whole word, which ends before b.
  ghost predicate WordAhead(text: seq<seq<bv8>>, a: nat, k: nat, b: nat) {
    && a <= k <= b <= |text|
    && (forall i :: a <= i < k ==> text[i] == [0x20]) && (k < |text| ==> text[k] != [0x20])
    && (forall i :: k <= i < b ==> text[i] != [0x20] && text[i] != [0])
    && (b < |text| ==> text[b] == [0x20] || text[b] == [0])
  }

  // Before place b there are spaces back to k, and before them one whole word, which begins at a.
  ghost predicate WordBehind(text: seq<seq<bv8>>, a: nat, k: nat, b: nat) {
    && a <= k <= b <= |text|
    && (forall i :: k <= i < b ==> text[i] == [0x20]) && (k > 0 ==> text[k - 1] != [0x20])
    && (forall i :: a <= i < k ==> text[i] != [0x20]) && (a > 0 ==> text[a - 1] == [0x20])
  }

  /** No move changes the text, and each goes to one place. */
  lemma MovedMeans(e: Editor, direction: Direction)
    requires Sound(e)
    ensures var m := Moved(e, direction);
            && m.text == e.text && m.at <= |e.text|
            && match direction
               case MoveUp => m.at == e.at
               case MoveDown => m.at == e.at
               case MoveRight => m.at - e.at == if e.at < |e.text| then 1 else 0
               case MoveLeft => e.at - m.at == if e.at > 0 then 1 else 0
               case MoveHome => m.at == 0
               case MoveEnd => m.at == |e.text|
               case JumpForward => exists k :: WordAhead(e.text, e.at, k, m.at)
               case JumpBackward => exists k :: WordBehind(e.text, m.at, k, e.at)
  {
    hide AllFormed;
    if direction.JumpForward? {
      assert WordAhead(e.text, e.at, PastSpaces(e.text, e.at), Moved(e, direction).at);
    } else if direction.JumpBackward? {
      assert WordBehind(e.text, Moved(e, direction).at, BackOverSpaces(e.text, e.at), e.at);
    }
  }

  /** There is only one such place. */
  lemma OneWord(text: seq<seq<bv8>>, a: nat, k: nat, b: nat, k': nat, c: nat)
    ensures WordAhead(text, a, k, b) && WordAhead(text, a, k', c) ==> b == c
    ensures WordBehind(text, b, k, a) && WordBehind(text, c, k', a) ==> b == c
  {
    if WordAhead(text, a, k, b) && WordAhead(text, a, k', c) {
      assert k == k';
    }
    if WordBehind(text, b, k, a) && WordBehind(text, c, k', a) {
      assert k == k';
    }
  }

  class Line {
    const promptLen: nat
    const width: nat
    var line: array<bv8>
    var lineSize: nat
    var lineLen: nat
    var offset: nat
    var column: nat
    var row: nat
    var renderedColumn: nat

    // The list of codepoints that the line stands for, and whether any subtraction has wrapped.
    ghost var editor: Editor
    ghost var wrapped: bool

    // Rows on the terminal, counted from where the prompt was first written: the one its cursor is on, and
    // the one that the last drawing began on.
    ghost var terminal: int
    ghost var top: int

    // Buffer and caches agree with the list, and the rows in use reach the row of the cursor.
    ghost predicate Consistent()
      reads this, line
    {
      width > 0 && lineSize < line.Length && Stored(editor, line[..lineSize], offset, column, lineLen)
    }

    ghost predicate Valid()
      reads this, line
    {
      Consistent()
      && (renderedColumn == 0 || row >= RowOf(promptLen + renderedColumn, width) + 1)
      && (wrapped ==> ColumnOf(promptLen, width) == 0)
      && (!wrapped ==> terminal == RowOf(promptLen + renderedColumn, width) + Shift(promptLen, width))
    }

    constructor (promptLen: nat, width: nat)
      requires width > 0
      ensures Valid() && editor == Editor([], 0) && !wrapped
      ensures terminal == WrittenRow(promptLen, width, false) && top == 0
      ensures this.promptLen == promptLen && this.width == width && fresh(line) && line.Length == Typing.FIRST
    {
      this.promptLen := promptLen;
      this.width := width;
      line := new bv8[Typing.FIRST];
      lineSize, lineLen, offset, column, row, renderedColumn := 0, 0, 0, 0, 0, 0;
      editor := Editor([], 0);
      wrapped := false;
      terminal, top := WrittenRow(promptLen, width, false), 0;
      new;
      PromptLeaves(promptLen, width);
      assert line[..0] == [];
    }

    method UpdateRowCount(rows: nat)
      modifies this`row
      ensures row == Max(old(row), rows)
    {
      if rows > row {
        row := rows;
      }
    }

    /** The distances that a redrawing sends the cursor, by unsigned arithmetic. They are those of the
        plan wherever it is exact, and only there. As long as none has wrapped, the drawing begins where
        they take the cursor from the row it was really on: on the row of the prompt if and only if the
        prompt does not end at the edge, and otherwise on the row above. */
    method FlushConsole() returns (down: int, clears: int, up: int, right: nat)
      requires Consistent() && (renderedColumn == 0 || row >= RowOf(promptLen + renderedColumn, width) + 1)
      requires wrapped ==> ColumnOf(promptLen, width) == 0
      requires !wrapped ==> terminal == RowOf(promptLen + renderedColumn, width) + Shift(promptLen, width)
      modifies this`row, this`renderedColumn, this`wrapped, this`terminal, this`top
      ensures Valid() && renderedColumn == column
      ensures wrapped <==> old(wrapped) || !Exact(promptLen, width, lineLen)
      ensures !Exact(promptLen, width, lineLen) ==> up == TWO64 - 1
      ensures right == ColumnOf(promptLen + column, width)
      ensures !wrapped ==> top == old(terminal) + down - clears == Shift(promptLen, width)
      ensures !wrapped ==> terminal == top + WrittenRow(promptLen + lineLen, width, editor.at == |editor.text|) - up
      ensures !wrapped ==> terminal == top + RowOf(promptLen + column, width)
    {
      hide Stored, Width, RowOf, ColumnOf, WrittenRow, Exact, Shift, PlanFor, Word;
      StoredBounds(editor, line[..lineSize], offset, column, lineLen);
      ghost var atEnd := offset != 0 && offset == lineSize;
      WordsExact(promptLen, width, row, renderedColumn, lineLen, column, atEnd);
      EndsAgree(promptLen, width, lineLen, atEnd, editor.at == |editor.text|);
      ExactMeans(promptLen, width, lineLen);
      down, clears, up, right := Distances();
      renderedColumn := column;
      wrapped := wrapped || !Exact(promptLen, width, lineLen);
      top := terminal + down - clears;
      terminal := top + WrittenRow(promptLen + lineLen, width, atEnd) - up;
    }

    // The arithmetic of a redrawing, as it stands in the program.
    method Distances() returns (down: int, clears: int, up: int, right: nat)
      requires width > 0
      modifies this`row
      ensures var p := PlanFor(promptLen, width, old(row), renderedColumn, lineLen, column, offset != 0 && offset == lineSize);
              down == Word(p.down) && clears == Word(p.clears) && up == Word(p.up) && right == p.right && row == p.row
    {
      hide RowsOf, RowOf, ColumnOf, RowsTo;
      var rows := RowsOf(promptLen + lineLen, width);
      UpdateRowCount(rows);
      down := Less(row, RowsTo(promptLen + renderedColumn, width));
      clears := Less(row, 1);
      var eol := offset != 0 && offset == lineSize;
      right := ColumnOf(promptLen + column, width);
      if eol && right == 0 {
        rows := rows + 1;
        UpdateRowCount(rows);
      }
      up := Less(rows, RowsTo(promptLen + column, width));
    }

    /** The test at the head of the loop of `xgetline`: where just two bytes are left in the buffer, the line
        moves to one twice as large. */
    method Grow()
      requires Valid()
      modifies this`line
      ensures Valid() && line[..lineSize] == old(line[..lineSize])
      ensures line.Length == Typing.Grown(lineSize, old(line.Length))
      ensures line == old(line) || fresh(line)
    {
      hide Stored, Width, RowOf, ColumnOf, Shift;
      if lineSize + 2 == line.Length {
        ghost var bytes := line[..lineSize];
        var larger := new bv8[2 * line.Length];
        forall k | 0 <= k < line.Length { larger[k] := line[k]; }
        line := larger;
        assert line[..lineSize] == bytes;
      }
    }

    /** A codepoint that is typed: the test, and the codepoint behind it. It is inserted if it has room there
        and would be written behind the buffer otherwise, as `Typing.Press` has it. */
    method TypeChar(c: array<bv8>, len: nat) returns (overrun: bool)
      requires Valid() && c != line && len <= c.Length && WellFormed(c[..len])
      modifies this, line
      ensures Valid() && (line == old(line) || fresh(line))
      ensures match Typing.Press(Typing.Room(old(lineSize), old(line.Length)), Typing.Typed(len))
              case Within(r) => !overrun && lineSize == r.size && line.Length == r.capacity
                                && editor == Insert(old(editor), old(c[..len]))
              case Overrun => overrun && editor == old(editor)
    {
      hide Stored, WellFormed, Width, Insert, RowOf, ColumnOf, WrittenRow, Exact, Shift, Sound;
      Grow();
      overrun := InsertChar(c, len);
    }

    /** A codepoint goes in at the cursor. Where the buffer has no room for it and the closing zero, the
        program writes behind the buffer; this stops instead and says so. */
    method InsertChar(c: array<bv8>, len: nat) returns (overrun: bool)
      requires Valid() && c != line && len <= c.Length && WellFormed(c[..len])
      modifies this, line
      ensures Valid() && line == old(line)
      ensures overrun <==> old(lineSize) + len >= line.Length
      ensures overrun ==> editor == old(editor) && lineSize == old(lineSize) && wrapped == old(wrapped) && top == old(top)
      ensures !overrun ==> editor == Insert(old(editor), old(c[..len])) && lineSize == old(lineSize) + len && line[lineSize] == 0
      ensures !overrun ==> wrapped == old(wrapped) && (!wrapped ==> top == Shift(promptLen, width))
    {
      hide Stored, WellFormed, Width, Insert, RowOf, ColumnOf, WrittenRow, Exact, Shift, Sound;
      overrun := lineSize + len >= line.Length;
      if overrun {
        return;
      }
      ghost var e, bytes, ch := editor, line[..lineSize], c[..len];
      StoredBounds(e, bytes, offset, column, lineLen);
      StoredInsert(e, bytes, offset, column, lineLen, ch);
      var cells := CodepointWidth(c, 0, len);
      assert c[0..len] == ch;
      InsertBytes(line, lineSize, offset, c, len);
      offset := offset + len;
      lineSize := lineSize + len;
      lineLen := lineLen + cells;
      column := column + cells;
      editor := Insert(e, ch);
      ExactMeans(promptLen, width, lineLen);
      var down, clears, up, right := FlushConsole();
    }

    /** The codepoint before the cursor goes, or with del the one behind it; at the end of the line that
        is asked for, nothing happens. */
    method DeleteChar(del: bool)
      requires Valid()
      modifies this, line
      ensures Valid() && line == old(line)
      ensures editor == if del then Delete(old(editor)) else Backspace(old(editor))
      ensures editor != old(editor) ==> line[lineSize] == 0
      ensures wrapped <==> old(wrapped) || (editor != old(editor) && !Exact(promptLen, width, lineLen))
      ensures !wrapped ==> top == if editor == old(editor) then old(top) else Shift(promptLen, width)
    {
      hide Stored, WellFormed, Width, RowOf, ColumnOf, WrittenRow, Exact, Shift, Sound;
      ghost var e, bytes := editor, line[..lineSize];
      StoredBounds(e, bytes, offset, column, lineLen);
      var size, cells, block := 0, 0, true;
      EditsChange(e);
      if !del && offset > 0 && lineSize > 0 {
        size, cells := BackspaceBytes();
        block := false;
      }
      if del && lineSize > 0 && offset < lineSize {
        size, cells := DeleteBytes();
        block := false;
      }
      if !block {
        lineSize := lineSize - size;
        line[lineSize] := 0;
        lineLen := lineLen - cells;
        var down, clears, up, right := FlushConsole();
      }
    }

    // The codepoint under the cursor, in the list and in the buffer.
    lemma UnderCursor() returns (ch: seq<bv8>)
      requires Consistent() && offset < lineSize
      ensures Sound(editor) && editor.at < |editor.text| && ch == Under(editor) && WellFormed(ch) && |ch| > 0
      ensures offset + |ch| <= lineSize && line[offset..offset + |ch|] == ch
    {
      hide Stored, Sound, Width;
      var bytes := line[..lineSize];
      StoredBounds(editor, bytes, offset, column, lineLen);
      StoredRight(editor, bytes, offset, column, lineLen);
      ch := Under(editor);
      NotEmpty(ch);
      hide WellFormed;
      Piece(line, lineSize, offset, offset + |ch|);
    }

    lemma BeforeCursor() returns (ch: seq<bv8>)
      requires Consistent() && offset > 0
      ensures Sound(editor) && 0 < editor.at <= |editor.text| && ch == Before(editor) && WellFormed(ch)
      ensures |ch| <= offset <= lineSize && line[offset - |ch|..offset] == ch
    {
      hide Stored, Sound, WellFormed, Width;
      var bytes := line[..lineSize];
      StoredBounds(editor, bytes, offset, column, lineLen);
      StoredLeft(editor, bytes, offset, column, lineLen);
      ch := Before(editor);
      Piece(line, lineSize, offset - |ch|, offset);
    }

    // The two branches of `delete_char`, before the sizes are taken down.
    method BackspaceBytes() returns (size: nat, cells: nat)
      requires Consistent() && offset > 0
      modifies this`offset, this`column, this`editor, line
      ensures size <= lineSize && cells <= lineLen && Sound(old(editor)) && editor == Backspace(old(editor))
      ensures Stored(editor, line[..lineSize - size], offset, column, lineLen - cells)
    {
      hide Stored, WellFormed, Width, Sound, Backspace, Before;
      ghost var e, bytes := editor, line[..lineSize];
      ghost var ch := BeforeCursor();
      StoredBackspace(e, bytes, offset, column, lineLen);
      size, cells := PrevCodepoint(line, offset, ch);
      RemoveBytes(line, lineSize, offset - size, size);
      offset := offset - size;
      column := column - cells;
      editor := Backspace(e);
    }

    method DeleteBytes() returns (size: nat, cells: nat)
      requires Consistent() && offset < lineSize
      modifies this`editor, line
      ensures size <= lineSize && cells <= lineLen && Sound(old(editor)) && editor == Delete(old(editor))
      ensures Stored(editor, line[..lineSize - size], offset, column, lineLen - cells)
    {
      hide Stored, WellFormed, Width, Sound, Delete, Under;
      ghost var e, bytes := editor, line[..lineSize];
      ghost var ch := UnderCursor();
      StoredDelete(e, bytes, offset, column, lineLen);
      size, cells := NextCodepoint(line, offset, ch);
      RemoveBytes(line, lineSize, offset, size);
      editor := Delete(e);
    }

    method MoveCursorRight() returns (moved: bool)
      requires Consistent()
      modifies this`offset, this`column, this`editor
      ensures Consistent() && editor == Right(old(editor))
      ensures moved <==> old(offset) < lineSize
      ensures moved ==> offset > old(offset)
    {
      hide Stored, WellFormed, Width, Sound, Under;
      StoredBounds(editor, line[..lineSize], offset, column, lineLen);
      if offset != lineSize {
        ghost var ch := UnderCursor();
        StoredRight(editor, line[..lineSize], offset, column, lineLen);
        var size, cells := NextCodepoint(line, offset, ch);
        offset := offset + size;
        column := column + cells;
        editor := Right(editor);
        return true;
      }
      return false;
    }

    method MoveCursorLeft() returns (moved: bool)
      requires Consistent()
      modifies this`offset, this`column, this`editor
      ensures Consistent() && editor == Left(old(editor))
      ensures moved <==> old(offset) > 0
    {
      hide Stored, WellFormed, Width, Sound, Before;
      StoredBounds(editor, line[..lineSize], offset, column, lineLen);
      if offset > 0 {
        ghost var ch := BeforeCursor();
        StoredLeft(editor, line[..lineSize], offset, column, lineLen);
        var size, cells := PrevCodepoint(line, offset, ch);
        offset := offset - size;
        column := column - cells;
        editor := Left(editor);
        return true;
      }
      return false;
    }

    // The byte at the cursor tells whether the codepoint there is a space, or ends a word.
    ghost predicate ByteTells()
      reads this, line
      requires Consistent() && offset < lineSize
    {
      Sound(editor) && editor.at < |editor.text|
      && (line[offset] == 0x20 <==> IsSpace(editor.text[editor.at]))
      && (line[offset] == 0 || line[offset] == 0x20 <==> Stops(editor.text[editor.at]))
    }

    lemma ByteAtCursor()
      requires Consistent() && offset < lineSize
      ensures ByteTells()
    {
      var bytes := line[..lineSize];
      StoredBounds(editor, bytes, offset, column, lineLen);
      StoredRight(editor, bytes, offset, column, lineLen);
      FirstByte(editor.text[editor.at]);
      assert bytes[offset] == editor.text[editor.at][0];
      hide WellFormed, Flat, Cells;
    }

    // The two loops of the jump to the end of a word.
    method SkipSpacesRight()
      requires Consistent()
      modifies this`offset, this`column, this`editor
      ensures Consistent() && Sound(old(editor)) && editor.text == old(editor).text
      ensures editor.at == PastSpaces(old(editor).text, old(editor).at)
    {
      hide Stored, WellFormed, Width;
      ghost var e := editor;
      StoredBounds(editor, line[..lineSize], offset, column, lineLen);
      while offset < lineSize
        invariant Consistent() && Sound(editor) && editor.text == e.text
        invariant PastSpaces(e.text, editor.at) == PastSpaces(e.text, e.at)
        invariant offset <= lineSize && (offset == lineSize <==> editor.at == |editor.text|)
        decreases lineSize - offset
      {
        ByteAtCursor();
        if line[offset] == 0 || line[offset] != 0x20 {
          break;
        }
        var moved := MoveCursorRight();
        StoredBounds(editor, line[..lineSize], offset, column, lineLen);
      }
    }

    method SkipWordRight()
      requires Consistent()
      modifies this`offset, this`column, this`editor
      ensures Consistent() && Sound(old(editor)) && editor.text == old(editor).text
      ensures editor.at == PastWord(old(editor).text, old(editor).at)
    {
      hide Stored, WellFormed, Width;
      ghost var e := editor;
      StoredBounds(editor, line[..lineSize], offset, column, lineLen);
      while offset < lineSize
        invariant Consistent() && Sound(editor) && editor.text == e.text
        invariant PastWord(e.text, editor.at) == PastWord(e.text, e.at)
        invariant offset <= lineSize && (offset == lineSize <==> editor.at == |editor.text|)
        decreases lineSize - offset
      {
        ByteAtCursor();
        if line[offset] == 0 || line[offset] == 0x20 {
          break;
        }
        var moved := MoveCursorRight();
        StoredBounds(editor, line[..lineSize], offset, column, lineLen);
      }
    }

    /** To the end of the word: over the spaces at the cursor, then over what is not one. */
    method MoveCursorWordEnd()
      requires Consistent()
      modifies this`offset, this`column, this`editor
      ensures Consistent() && editor == WordEnd(old(editor))
    {
      hide Stored, WellFormed, Width;
      SkipSpacesRight();
      SkipWordRight();
    }

    // The first byte of the codepoint before the cursor. Where there is none the program reads what lies
    // before the buffer, which may be anything.
    method ByteBefore() returns (b: bv8, outside: bool)
      requires Consistent()
      ensures outside <==> offset == 0
      ensures !outside ==> Sound(editor) && 0 < editor.at <= |editor.text| && (b == 0x20 <==> IsSpace(Before(editor)))
    {
      hide Stored, WellFormed, Width, Sound, Before;
      b := *;
      outside := true;
      if offset > 0 {
        ghost var ch := BeforeCursor();
        var size, cells := PrevCodepoint(line, offset, ch);
        b := line[offset - size];
        outside := false;
        NotEmpty(ch);
        assert line[offset - size..offset][0] == ch[0];
        FirstByte(ch);
      }
    }

    // The two loops of the jump to the start of a word.
    method SkipSpacesLeft()
      requires Consistent()
      modifies this`offset, this`column, this`editor
      ensures Consistent() && Sound(old(editor)) && editor.text == old(editor).text
      ensures editor.at == BackOverSpaces(old(editor).text, old(editor).at)
    {
      hide Stored, WellFormed, Width;
      ghost var e := editor;
      StoredBounds(editor, line[..lineSize], offset, column, lineLen);
      var b, beyond := ByteBefore();
      while b == 0x20
        invariant Consistent() && Sound(editor) && editor.at <= e.at && editor.text == e.text
        invariant BackOverSpaces(e.text, editor.at) == BackOverSpaces(e.text, e.at)
        invariant offset == 0 <==> editor.at == 0
        invariant editor.at > 0 ==> (b == 0x20 <==> IsSpace(e.text[editor.at - 1]))
        decreases editor.at
      {
        var moved := MoveCursorLeft();
        StoredBounds(editor, line[..lineSize], offset, column, lineLen);
        if !moved {
          break;
        }
        b, beyond := ByteBefore();
      }
    }

    method SkipWordLeft() returns (beyond: bool)
      requires Consistent()
      modifies this`offset, this`column, this`editor
      ensures Consistent() && Sound(old(editor)) && editor.text == old(editor).text
      ensures editor.at == BackOverWord(old(editor).text, old(editor).at)
      ensures beyond <==> editor.at == 0
    {
      hide Stored, WellFormed, Width;
      ghost var e := editor;
      StoredBounds(editor, line[..lineSize], offset, column, lineLen);
      var b: bv8;
      b, beyond := ByteBefore();
      while b != 0x20
        invariant Consistent() && Sound(editor) && editor.at <= e.at && editor.text == e.text
        invariant BackOverWord(e.text, editor.at) == BackOverWord(e.text, e.at)
        invariant (offset == 0 <==> editor.at == 0) && (beyond <==> editor.at == 0)
        invariant editor.at > 0 ==> (b == 0x20 <==> IsSpace(e.text[editor.at - 1]))
        decreases editor.at
      {
        var moved := MoveCursorLeft();
        StoredBounds(editor, line[..lineSize], offset, column, lineLen);
        if !moved {
          break;
        }
        b, beyond := ByteBefore();
      }
    }

    /** To the start of the word: back over the spaces before the cursor, then over what is not one. The
        program reads before its buffer if and only if no word starts behind a space before the cursor. */
    method MoveCursorWordStart() returns (beyond: bool)
      requires Consistent()
      modifies this`offset, this`column, this`editor
      ensures Consistent() && Sound(old(editor)) && editor == WordStart(old(editor))
      ensures beyond <==> InFirstWord(old(editor))
    {
      hide Stored, WellFormed, Width, InFirstWord;
      StoredBounds(editor, line[..lineSize], offset, column, lineLen);
      JumpReachesStart(editor);
      SkipSpacesLeft();
      beyond := SkipWordLeft();
    }

    /** A movement of the cursor, and the redrawing behind it. The program reads before its buffer if and
        only if it jumps back where no word starts behind a space before the cursor. */
    method UpdateCursorPos(direction: Direction) returns (beyond: bool)
      requires Valid()
      modifies this
      ensures Valid() && line == old(line) && Sound(old(editor)) && editor == Moved(old(editor), direction)
      ensures beyond <==> direction == JumpBackward && InFirstWord(old(editor))
      ensures wrapped <==> old(wrapped) || !Exact(promptLen, width, lineLen)
      ensures !wrapped ==> top == Shift(promptLen, width)
    {
      hide Stored, WellFormed, Width, RowOf, ColumnOf, WrittenRow, Exact, Shift, WordEnd, WordStart, Left, Right, InFirstWord;
      StoredBounds(editor, line[..lineSize], offset, column, lineLen);
      beyond := false;
      match direction {
        case MoveUp =>
        case MoveDown =>
        case MoveRight =>
          var moved := MoveCursorRight();
        case MoveLeft =>
          var moved := MoveCursorLeft();
        case MoveHome =>
          StoredEnds(editor, line[..lineSize], offset, column, lineLen);
          offset := 0;
          column := 0;
          editor := Home(editor);
        case MoveEnd =>
          StoredEnds(editor, line[..lineSize], offset, column, lineLen);
          offset := lineSize;
          column := lineLen;
          editor := End(editor);
        case JumpForward =>
          MoveCursorWordEnd();
        case JumpBackward =>
          beyond := MoveCursorWordStart();
      }
      var down, clears, up, right := FlushConsole();
    }
  }

  // Backspace and delete change the list wherever there is something for them to take.
  lemma EditsChange(e: Editor)
    requires Sound(e)
    ensures Backspace(e) == e <==> e.at == 0
    ensures Delete(e) == e <==> e.at == |e.text|
  {
    hide WellFormed;
  }

  lemma NotEmpty(c: seq<bv8>)
    requires WellFormed(c)
    ensures |c| > 0
  {}

  // A codepoint that begins with the byte of a space, or with zero, is that byte.
  lemma FirstByte(c: seq<bv8>)
    requires WellFormed(c)
    ensures c[0] == 0x20 <==> IsSpace(c)
    ensures c[0] == 0 || c[0] == 0x20 <==> Stops(c)
  {
    if c[0] == 0x20 || c[0] == 0 {
      assert Announced(c[0]) == 1;
      assert c == [c[0]];
    }
  }
}
