/**
 * What the world writes to its terminal, and where: the terminal collaborator
 * as an append-only log of writes, the three lines that draw one room, the
 * scan-order drawing of the whole grid, and the message lines below it.
 */
module Screen {
  import opened Rooms
  import opened Styles
  import opened Grid

  /** One call on the terminal: a positioned `output` of text, or `doRefresh`. */
  datatype TermOp = Write(col: int, row: int, text: string) | Refresh

  /**
   * The terminal collaborator (ITerminal). Only the calls the world makes on
   * it are recorded; a cursor move followed by an output is one Write.
   */
  class Terminal {
    var log: seq<TermOp>

    constructor ()
      ensures log == []
    {
      log := [];
    }

    /** `setCursorPos(col, row)` followed by `output(text)`. */
    method WriteAt(col: int, row: int, text: string)
      modifies this
      ensures log == old(log) + [Write(col, row, text)]
    {
      log := log + [Write(col, row, text)];
    }

    /** `doRefresh()` */
    method DoRefresh()
      modifies this
      ensures log == old(log) + [Refresh]
    {
      log := log + [Refresh];
    }
  }

  /** Three single appends to a log are one append of the three operations. */
  lemma AppendThree(log: seq<TermOp>, a: TermOp, b: TermOp, c: TermOp)
    ensures log + [a] + [b] + [c] == log + [a, b, c]
  {
  }

  lemma AppendAssoc(a: seq<TermOp>, b: seq<TermOp>, c: seq<TermOp>)
    ensures a + b + c == a + (b + c)
  {
  }

  /** Corner glyphs are one character long, edges three characters (horizontal) or two (vertical). */
  lemma GlyphWidths()
    ensures forall i, ds :: 0 <= i < 16 && 0 <= ds < 2 ==> |CORNER_STYLES[i][ds]| == 1
    ensures forall ds :: 0 <= ds < 2 ==> |LINE_STYLES[LS_HORIZONTAL][ds]| == 3
    ensures forall ds :: 0 <= ds < 2 ==> |LINE_STYLES[LS_LEFT_VERT][ds]| == 2 && |LINE_STYLES[LS_RIGHT_VERT][ds]| == 2
  {
  }

  /** A room is drawn with double lines exactly when it is the selected room. */
  function DrawStyleAt(selected: Pos, p: Pos): (ds: DrawStyle)
    ensures ds == DS_DOUBLE <==> p == selected
  {
    if p.x == selected.x && p.y == selected.y then DS_DOUBLE else DS_SINGLE
  }

  /**
   * The glyph for corner (xKernel, yKernel) of a room (0 is left or top, 1 right
   * or bottom), from the four cells of its kernel k that touch that corner.
   */
  function CornerAt(k: seq<bool>, xKernel: nat, yKernel: nat, ds: DrawStyle): string
    requires |k| == 9 && xKernel < 2 && yKernel < 2
  {
    CornerGlyph(KernelAt(k, yKernel, xKernel), KernelAt(k, yKernel, xKernel + 1),
                KernelAt(k, yKernel + 1, xKernel), KernelAt(k, yKernel + 1, xKernel + 1), ds)
  }

  /** The top border of a room with kernel k: two corners joined by a horizontal edge. */
  function TopLine(k: seq<bool>, ds: DrawStyle): string
    requires |k| == 9
  {
    CornerAt(k, 0, 0, ds) + LineGlyph(LS_HORIZONTAL, ds) + CornerAt(k, 1, 0, ds)
  }

  /** The middle line of room p: both vertical edges around the room's content. */
  function MiddleLine(cells: seq<RoomWord>, w: int, h: int, current: Pos, p: Pos, ds: DrawStyle): string
    requires IsGrid(cells, w, h) && InBounds(w, h, p)
  {
    LineGlyph(LS_LEFT_VERT, ds) + RoomContent(Cell(cells, w, h, p), p.x == current.x && p.y == current.y)
    + LineGlyph(LS_RIGHT_VERT, ds)
  }

  /** The bottom border of a room with kernel k. */
  function BottomLine(k: seq<bool>, ds: DrawStyle): string
    requires |k| == 9
  {
    CornerAt(k, 0, 1, ds) + LineGlyph(LS_HORIZONTAL, ds) + CornerAt(k, 1, 1, ds)
  }

  /**
   * The three writes `renderRoom(x, y)` makes: top border, middle line with the
   * room's content, bottom border, at column 4x and rows 2y .. 2y + 2.
   */
  function RoomWrites(cells: seq<RoomWord>, w: int, h: int, current: Pos, selected: Pos, p: Pos): seq<TermOp>
    requires IsGrid(cells, w, h) && InBounds(w, h, p)
  {
    var ds := DrawStyleAt(selected, p);
    var k := KernelOf(cells, w, h, p);
    [ Write(p.x * 4, p.y * 2, TopLine(k, ds)),
      Write(p.x * 4, p.y * 2 + 1, MiddleLine(cells, w, h, current, p, ds)),
      Write(p.x * 4, p.y * 2 + 2, BottomLine(k, ds)) ]
  }

  /** A write that lies in the part of the screen the grid occupies. */
  predicate InGridArea(op: TermOp, w: int, h: int) {
    op.Write? && 0 <= op.col <= 4 * (w - 1) && op.col % 4 == 0 && 0 <= op.row <= 2 * h && |op.text| == 5
  }

  /**
   * A room is a 5 x 3 box whose left edge is column 4x and whose top is row 2y:
   * neighbouring rooms share their border column or row.
   */
  lemma RoomIsBox(cells: seq<RoomWord>, w: int, h: int, current: Pos, selected: Pos, p: Pos)
    requires IsGrid(cells, w, h) && InBounds(w, h, p)
    ensures var ops := RoomWrites(cells, w, h, current, selected, p);
      |ops| == 3 &&
      (forall i :: 0 <= i < 3 ==> ops[i].Write? && ops[i].col == 4 * p.x && ops[i].row == 2 * p.y + i) &&
      (forall i :: 0 <= i < 3 ==> InGridArea(ops[i], w, h))
  {
    GlyphWidths();
    var ds := DrawStyleAt(selected, p);
    var k := KernelOf(cells, w, h, p);
    assert |CornerAt(k, 0, 0, ds)| == 1;
    assert |CornerAt(k, 1, 0, ds)| == 1;
    assert |CornerAt(k, 0, 1, ds)| == 1;
    assert |CornerAt(k, 1, 1, ds)| == 1;
  }

  /**
   * A valid room with no valid room among its eight neighbours is drawn as a
   * closed box: "┌───┐" / "│ c │" / "└───┘", or with double lines
   * "╔═══╗" / "║ c ║" / "╚═══╝" when it is the selected room.
   */
  lemma IsolatedRoomIsClosedBox(cells: seq<RoomWord>, w: int, h: int, current: Pos, selected: Pos, p: Pos)
    requires IsGrid(cells, w, h) && InBounds(w, h, p)
    requires ValidAt(cells, w, h, p)
    requires forall q :: q != p && Abs(q.x - p.x) <= 1 && Abs(q.y - p.y) <= 1 ==> !ValidAt(cells, w, h, q)
    ensures var ops, c := RoomWrites(cells, w, h, current, selected, p), RoomContent(Cell(cells, w, h, p), p == current);
      if p == selected then
        ops[0].text == "╔═══╗" && ops[2].text == "╚═══╝" && ops[1].text == "║ " + c + " ║"
      else
        ops[0].text == "┌───┐" && ops[2].text == "└───┘" && ops[1].text == "│ " + c + " │"
  {
    KernelOfEntries(cells, w, h, p);
    assert !ValidAt(cells, w, h, Pos(p.x - 1, p.y - 1)) && !ValidAt(cells, w, h, Pos(p.x, p.y - 1));
    assert !ValidAt(cells, w, h, Pos(p.x + 1, p.y - 1)) && !ValidAt(cells, w, h, Pos(p.x - 1, p.y));
    assert !ValidAt(cells, w, h, Pos(p.x + 1, p.y)) && !ValidAt(cells, w, h, Pos(p.x - 1, p.y + 1));
    assert !ValidAt(cells, w, h, Pos(p.x, p.y + 1)) && !ValidAt(cells, w, h, Pos(p.x + 1, p.y + 1));
  }

  /**
   * Rooms side by side draw the same glyph, up to draw style, on the two
   * corners they share, and so do rooms one above the other: the shared
   * corner is computed from the same four grid cells. This is why drawing the
   * selected room again leaves a consistent picture.
   */
  lemma SharedCornersAgree(cells: seq<RoomWord>, w: int, h: int, p: Pos, ds: DrawStyle)
    requires IsGrid(cells, w, h)
    ensures var k, right, below := KernelOf(cells, w, h, p), KernelOf(cells, w, h, Pos(p.x + 1, p.y)), KernelOf(cells, w, h, Pos(p.x, p.y + 1));
      && CornerAt(k, 1, 0, ds) == CornerAt(right, 0, 0, ds) && CornerAt(k, 1, 1, ds) == CornerAt(right, 0, 1, ds)
      && CornerAt(k, 0, 1, ds) == CornerAt(below, 0, 0, ds) && CornerAt(k, 1, 1, ds) == CornerAt(below, 1, 0, ds)
  {
    SharedCornersRight(cells, w, h, p, ds);
    SharedCornersBelow(cells, w, h, p, ds);
  }

  /** The right-hand corners of room p are the left-hand corners of the room to its right. */
  lemma SharedCornersRight(cells: seq<RoomWord>, w: int, h: int, p: Pos, ds: DrawStyle)
    requires IsGrid(cells, w, h)
    ensures var k, right := KernelOf(cells, w, h, p), KernelOf(cells, w, h, Pos(p.x + 1, p.y));
      CornerAt(k, 1, 0, ds) == CornerAt(right, 0, 0, ds) && CornerAt(k, 1, 1, ds) == CornerAt(right, 0, 1, ds)
  {
    var k, right := KernelOf(cells, w, h, p), KernelOf(cells, w, h, Pos(p.x + 1, p.y));
    KernelOfEntries(cells, w, h, p);
    KernelOfEntries(cells, w, h, Pos(p.x + 1, p.y));
    assert k[1] == right[0] && k[2] == right[1] && k[4] == right[3];
    assert k[5] == right[4] && k[7] == right[6] && k[8] == right[7];
  }

  /** The bottom corners of room p are the top corners of the room below it. */
  lemma SharedCornersBelow(cells: seq<RoomWord>, w: int, h: int, p: Pos, ds: DrawStyle)
    requires IsGrid(cells, w, h)
    ensures var k, below := KernelOf(cells, w, h, p), KernelOf(cells, w, h, Pos(p.x, p.y + 1));
      CornerAt(k, 0, 1, ds) == CornerAt(below, 0, 0, ds) && CornerAt(k, 1, 1, ds) == CornerAt(below, 1, 0, ds)
  {
    var k, below := KernelOf(cells, w, h, p), KernelOf(cells, w, h, Pos(p.x, p.y + 1));
    KernelOfEntries(cells, w, h, p);
    KernelOfEntries(cells, w, h, Pos(p.x, p.y + 1));
    assert k[3] == below[0] && k[4] == below[1] && k[5] == below[2];
    assert k[6] == below[3] && k[7] == below[4] && k[8] == below[5];
  }

  /** The writes of the rooms (0, y) .. (n - 1, y) that are valid, left to right. */
  function RowWrites(cells: seq<RoomWord>, w: int, h: int, current: Pos, selected: Pos, y: int, n: nat): seq<TermOp>
    requires IsGrid(cells, w, h) && 0 <= y < h && n <= w
    decreases n
  {
    if n == 0 then []
    else
      RowWrites(cells, w, h, current, selected, y, n - 1)
      + (if ValidAt(cells, w, h, Pos(n - 1, y)) then RoomWrites(cells, w, h, current, selected, Pos(n - 1, y)) else [])
  }

  /** The writes of every valid room of rows 0 .. m - 1, in scan order. */
  function GridWrites(cells: seq<RoomWord>, w: int, h: int, current: Pos, selected: Pos, m: nat): seq<TermOp>
    requires IsGrid(cells, w, h) && m <= h
    decreases m
  {
    if m == 0 then [] else GridWrites(cells, w, h, current, selected, m - 1) + RowWrites(cells, w, h, current, selected, m - 1, w)
  }

  predicate AllInGridArea(ops: seq<TermOp>, w: int, h: int) {
    forall i :: 0 <= i < |ops| ==> InGridArea(ops[i], w, h)
  }

  lemma AllInGridAreaConcat(a: seq<TermOp>, b: seq<TermOp>, w: int, h: int)
    requires AllInGridArea(a, w, h) && AllInGridArea(b, w, h)
    ensures AllInGridArea(a + b, w, h)
  {
    forall i | 0 <= i < |a + b|
      ensures InGridArea((a + b)[i], w, h)
    {
      if i >= |a| {
        assert (a + b)[i] == b[i - |a|];
      }
    }
  }

  lemma RoomWritesInGridArea(cells: seq<RoomWord>, w: int, h: int, current: Pos, selected: Pos, p: Pos)
    requires IsGrid(cells, w, h) && InBounds(w, h, p)
    ensures AllInGridArea(RoomWrites(cells, w, h, current, selected, p), w, h)
  {
    RoomIsBox(cells, w, h, current, selected, p);
  }

  lemma {:induction false} RowWritesInGridArea(cells: seq<RoomWord>, w: int, h: int, current: Pos, selected: Pos, y: int, n: nat)
    requires IsGrid(cells, w, h) && 0 <= y < h && n <= w
    ensures AllInGridArea(RowWrites(cells, w, h, current, selected, y, n), w, h)
    decreases n
  {
    if n > 0 {
      var room := Pos(n - 1, y);
      var prefix := RowWrites(cells, w, h, current, selected, y, n - 1);
      var last := if ValidAt(cells, w, h, room) then RoomWrites(cells, w, h, current, selected, room) else [];
      assert RowWrites(cells, w, h, current, selected, y, n) == prefix + last;
      RowWritesInGridArea(cells, w, h, current, selected, y, n - 1);
      if ValidAt(cells, w, h, room) {
        RoomWritesInGridArea(cells, w, h, current, selected, room);
      }
      AllInGridAreaConcat(prefix, last, w, h);
    }
  }

  /** Drawing the grid writes only to the grid's own area of the screen. */
  lemma {:induction false} GridWritesInGridArea(cells: seq<RoomWord>, w: int, h: int, current: Pos, selected: Pos, m: nat)
    requires IsGrid(cells, w, h) && m <= h
    ensures AllInGridArea(GridWrites(cells, w, h, current, selected, m), w, h)
    decreases m
  {
    if m > 0 {
      GridWritesInGridArea(cells, w, h, current, selected, m - 1);
      RowWritesInGridArea(cells, w, h, current, selected, m - 1, w);
      AllInGridAreaConcat(GridWrites(cells, w, h, current, selected, m - 1),
                          RowWrites(cells, w, h, current, selected, m - 1, w), w, h);
    }
  }

  /** The screen row of message line `line` (`displayMessage`). */
  function MessageRow(h: int, line: int): int {
    h * 2 + 1 + line
  }

  function MessageWrite(h: int, message: UserMessage, line: int): TermOp {
    Write(0, MessageRow(h, line), MESSAGES[message])
  }

  /** Both message lines sit below the bottom border of the grid, so no room drawing overwrites them. */
  lemma MessagesBelowGrid(h: int, line: int, op: TermOp, w: int)
    requires 0 <= line && InGridArea(op, w, h)
    ensures op.row < MessageRow(h, line)
  {
  }

  /** The messages the outcome of a committed move writes: one path per outcome. */
  function OutcomeWrites(h: int, o: Outcome): (ops: seq<TermOp>)
    ensures |ops| == (if o.EndsGame() then 2 else 1)
    ensures ops[0].Write? && ops[0].row == MessageRow(h, 0)
    ensures o.EndsGame() ==> ops[1] == MessageWrite(h, UM_EXIT, 1)
  {
    match o
    case Lose => [MessageWrite(h, UM_LOSE, 0), MessageWrite(h, UM_EXIT, 1)]
    case Win => [MessageWrite(h, UM_WIN, 0), MessageWrite(h, UM_EXIT, 1)]
    case Warning => [MessageWrite(h, UM_NEARWUMPUS, 0)]
    case Clear => [MessageWrite(h, UM_CLEAR, 0)]
  }

  /** The first message line tells the outcomes apart, and never reads as the bad-move message. */
  lemma OutcomeMessagesDistinct(h: int, o1: Outcome, o2: Outcome)
    ensures OutcomeWrites(h, o1)[0] == OutcomeWrites(h, o2)[0] <==> o1 == o2
    ensures OutcomeWrites(h, o1)[0] != MessageWrite(h, UM_BADMOVE, 0)
  {
  }
}
