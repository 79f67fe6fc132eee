/**
 * The World object (class World of include/World.h, src/World.cpp): the room
 * grid as a flat buffer plus a row index, the current and selected rooms, the
 * game-over latch and the 3x3 scratch kernel, with the operations the game
 * loop calls. Each operation is proved against the value-level rules of
 * Grid.dfy and the drawing of Screen.dfy.
 */
module Wumpus {
  import opened Rooms
  import opened Styles
  import opened Grid
  import opened Screen

  /** How many row pointers `load` allocates as written: one per column (`myWidth`). */
  function RowSlotsAsWritten(raw: RawData): int {
    raw.width
  }

  /** How many row pointers the row index needs: one per row. */
  function RowSlots(raw: RawData): int {
    raw.height
  }

  /** The stores of `load`'s row-index loop (rows 0 .. height - 1) stay inside the index as written. */
  predicate RowStoresFitAsWritten(raw: RawData) {
    0 <= raw.height <= RowSlotsAsWritten(raw)
  }

  /**
   * `load`'s row-index allocation and loop as written: `myWidth` slots, then
   * one store per row. Every store is in bounds only under
   * RowStoresFitAsWritten, so the loop overruns on a layout taller than wide.
   */
  method RowIndexAsWritten(raw: RawData) returns (grid: array<int>)
    requires RowStoresFitAsWritten(raw)
    ensures grid.Length == RowSlotsAsWritten(raw)
    ensures forall y :: 0 <= y < raw.height ==> grid[y] == y * raw.width
  {
    grid := new int[RowSlotsAsWritten(raw)];
    for y := 0 to raw.height
      invariant forall k :: 0 <= k < y ==> grid[k] == k * raw.width
    {
      grid[y] := y * raw.width;
    }
  }

  /** A 2-wide, 3-high layout: the as-written loop would store slot 2 of a 2-slot index. */
  lemma TallLayoutOverrunsAsWritten()
    ensures !RowStoresFitAsWritten(RawData(2, 3, 0, 0, seq(6, _ => RP_VALID)))
    ensures forall raw: RawData :: raw.width < raw.height ==> !RowStoresFitAsWritten(raw)
  {
  }

  class World {
    /** The terminal collaborator (`myTerminal`). */
    const terminal: Terminal
    var width: int
    var height: int
    var currX: int
    var currY: int
    var selectX: int
    var selectY: int
    var gameOver: bool
    /** `myRoomData`: the rooms in row-major order. */
    var roomData: array<RoomWord>
    /** `myRoomGrid`: row y of the grid starts at roomData[roomGrid[y]]. */
    var roomGrid: array<int>
    /** `myKernel`, indexed [row, column]. */
    const kernel: array2<bool>

    ghost predicate Valid()
      reads this, roomGrid
    {
      && kernel.Length0 == 3 && kernel.Length1 == 3
      && 2 <= width && 2 <= height
      && roomData.Length == width * height
      && roomGrid.Length == height
      && (forall y :: 0 <= y < height ==> roomGrid[y] == y * width)
      && InBounds(width, height, Pos(currX, currY))
      && InBounds(width, height, Pos(selectX, selectY))
    }

    /** The grid's words, row-major. */
    ghost function Cells(): seq<RoomWord>
      reads this, roomData
    {
      roomData[..]
    }

    ghost function Current(): Pos
      reads this
    {
      Pos(currX, currY)
    }

    ghost function Selected(): Pos
      reads this
    {
      Pos(selectX, selectY)
    }

    /** The kernel's nine cells. */
    ghost function KernelContents(): seq<bool>
      reads kernel
      requires kernel.Length0 == 3 && kernel.Length1 == 3
    {
      [kernel[0, 0], kernel[0, 1], kernel[0, 2], kernel[1, 0], kernel[1, 1], kernel[1, 2], kernel[2, 0], kernel[2, 1], kernel[2, 2]]
    }

    /** Valid() depends only on the fields and the row index, not on the rooms' words. */
    twostate lemma ValidFramed()
      requires old(Valid()) && unchanged(this) && unchanged(old(roomGrid))
      ensures Valid()
    {
    }

    /** Shape and buffers are those of the previous state (the terminal is a const). */
    twostate predicate SameGrid()
      reads this
    {
      width == old(width) && height == old(height) && roomData == old(roomData) && roomGrid == old(roomGrid)
    }

    /** What drawing room p writes in the current state. */
    ghost function RoomView(p: Pos): seq<TermOp>
      reads this, roomData
      requires roomData.Length == width * height && 0 <= width && 0 <= height && InBounds(width, height, p)
    {
      RoomWrites(Cells(), width, height, Current(), Selected(), p)
    }

    constructor (terminal: Terminal)
      ensures Valid() && this.terminal == terminal
      ensures fresh(roomData) && fresh(roomGrid) && fresh(kernel)
      ensures width == DEFAULT_RAW_DATA.width && height == DEFAULT_RAW_DATA.height
      ensures Cells() == DEFAULT_ROOM_DATA
      ensures Current() == Selected() == Pos(DEFAULT_RAW_DATA.startX, DEFAULT_RAW_DATA.startY)
      ensures !gameOver
    {
      this.terminal := terminal;
      kernel := new bool[3, 3];
      roomData := new RoomWord[0];
      roomGrid := new int[0];
      width, height := 0, 0;
      currX, currY, selectX, selectY := 0, 0, 0, 0;
      gameOver := false;
      new;
      Load(DEFAULT_RAW_DATA);
    }

    /** `myRoomGrid[y][x]`: the word of room (x, y), through the row index. */
    function Room(x: int, y: int): (r: RoomWord)
      reads this, roomData, roomGrid
      requires Valid() && InBounds(width, height, Pos(x, y))
      ensures IsGrid(Cells(), width, height) && r == Cell(Cells(), width, height, Pos(x, y))
    {
      CellIndexInRange(width, height, x, y);
      roomData[roomGrid[y] + x]
    }

    /**
     * `load`: takes over the raw layout, copying its first width * height words,
     * and puts both the current and the selected room at the start position.
     */
    method Load(raw: RawData)
      requires kernel.Length0 == 3 && kernel.Length1 == 3
      requires 2 <= raw.width && 2 <= raw.height
      requires raw.width * raw.height <= |raw.data|
      requires InBounds(raw.width, raw.height, Pos(raw.startX, raw.startY))
      modifies this
      ensures Valid() && fresh(roomData) && fresh(roomGrid)
      ensures width == raw.width && height == raw.height
      ensures Cells() == raw.data[..raw.width * raw.height]
      ensures Current() == Selected() == Pos(raw.startX, raw.startY)
      ensures gameOver == old(gameOver)
    {
      var w, h := raw.width, raw.height;
      assert 0 <= w * h;
      var data := new RoomWord[w * h];
      var grid := new int[RowSlots(raw)];

      for y := 0 to h
        invariant forall k :: 0 <= k < y ==> grid[k] == k * w
        invariant unchanged(this)
      {
        grid[y] := y * w;
      }

      for i := 0 to w * h
        invariant data[..i] == raw.data[..i]
        invariant forall k :: 0 <= k < h ==> grid[k] == k * w
        invariant unchanged(this)
      {
        data[i] := raw.data[i];
      }
      assert data[..] == data[..w * h];

      width := w;
      height := h;
      currX := raw.startX;
      selectX := currX;
      currY := raw.startY;
      selectY := currY;
      roomData := data;
      roomGrid := grid;
    }

    /** `myRoomGrid[y][x] & RP_VALID`, read as a boolean. */
    function RoomValid(x: int, y: int): (b: bool)
      reads this, roomData, roomGrid
      requires Valid() && InBounds(width, height, Pos(x, y))
      ensures IsGrid(Cells(), width, height) && b == ValidAt(Cells(), width, height, Pos(x, y))
    {
      Has(Room(x, y), RP_VALID)
    }

    /**
     * `updateKernel(x, y)`: fills the kernel with the validity of room (x, y)
     * and its eight neighbours, false for any neighbour off the grid. Nine
     * boundary cases, one per combination of first / inner / last column and row.
     */
    method UpdateKernel(x: int, y: int)
      requires Valid() && InBounds(width, height, Pos(x, y))
      modifies kernel
      ensures IsGrid(Cells(), width, height) && KernelContents() == KernelOf(Cells(), width, height, Pos(x, y))
    {
      var k: seq<bool>;
      if x == 0 {
        k := FirstColumnKernel(x, y);
      } else if x < width - 1 {
        k := InnerColumnKernel(x, y);
      } else {
        k := LastColumnKernel(x, y);
      }
      SetKernel(k);
    }

    /** One kernel row at column 0: the cell left of the grid reads false. */
    function FirstColumnRow(x: int, y: int): (r: seq<bool>)
      reads this, roomData, roomGrid
      requires Valid() && x == 0 && 0 <= y < height
      ensures IsGrid(Cells(), width, height) && r == KernelRow(Cells(), width, height, x, y)
    {
      [false, RoomValid(x, y), RoomValid(x + 1, y)]
    }

    /** One kernel row at an inner column: all three cells are on the grid. */
    function InnerColumnRow(x: int, y: int): (r: seq<bool>)
      reads this, roomData, roomGrid
      requires Valid() && 0 < x < width - 1 && 0 <= y < height
      ensures IsGrid(Cells(), width, height) && r == KernelRow(Cells(), width, height, x, y)
    {
      [RoomValid(x - 1, y), RoomValid(x, y), RoomValid(x + 1, y)]
    }

    /** One kernel row at the last column: the cell right of the grid reads false. */
    function LastColumnRow(x: int, y: int): (r: seq<bool>)
      reads this, roomData, roomGrid
      requires Valid() && x == width - 1 && 0 <= y < height
      ensures IsGrid(Cells(), width, height) && r == KernelRow(Cells(), width, height, x, y)
    {
      [RoomValid(x - 1, y), RoomValid(x, y), false]
    }

    /** The first-column cases of `updateKernel`: the left kernel column is off the grid. */
    function FirstColumnKernel(x: int, y: int): (k: seq<bool>)
      reads this, roomData, roomGrid
      requires Valid() && InBounds(width, height, Pos(x, y)) && x == 0
      ensures IsGrid(Cells(), width, height) && k == KernelOf(Cells(), width, height, Pos(x, y))
    {
      KernelOfRows(Cells(), width, height, Pos(x, y));
      if y == 0 then
        [false, false, false] + FirstColumnRow(x, y) + FirstColumnRow(x, y + 1)
      else if y < height - 1 then
        FirstColumnRow(x, y - 1) + FirstColumnRow(x, y) + FirstColumnRow(x, y + 1)
      else
        FirstColumnRow(x, y - 1) + FirstColumnRow(x, y) + [false, false, false]
    }

    /** The inner-column cases of `updateKernel`: all three kernel columns are on the grid. */
    function InnerColumnKernel(x: int, y: int): (k: seq<bool>)
      reads this, roomData, roomGrid
      requires Valid() && InBounds(width, height, Pos(x, y)) && 0 < x < width - 1
      ensures IsGrid(Cells(), width, height) && k == KernelOf(Cells(), width, height, Pos(x, y))
    {
      KernelOfRows(Cells(), width, height, Pos(x, y));
      if y == 0 then
        [false, false, false] + InnerColumnRow(x, y) + InnerColumnRow(x, y + 1)
      else if y < height - 1 then
        InnerColumnRow(x, y - 1) + InnerColumnRow(x, y) + InnerColumnRow(x, y + 1)
      else
        InnerColumnRow(x, y - 1) + InnerColumnRow(x, y) + [false, false, false]
    }

    /** The last-column cases of `updateKernel`: the right kernel column is off the grid. */
    function LastColumnKernel(x: int, y: int): (k: seq<bool>)
      reads this, roomData, roomGrid
      requires Valid() && InBounds(width, height, Pos(x, y)) && x == width - 1
      ensures IsGrid(Cells(), width, height) && k == KernelOf(Cells(), width, height, Pos(x, y))
    {
      KernelOfRows(Cells(), width, height, Pos(x, y));
      if y == 0 then
        [false, false, false] + LastColumnRow(x, y) + LastColumnRow(x, y + 1)
      else if y < height - 1 then
        LastColumnRow(x, y - 1) + LastColumnRow(x, y) + LastColumnRow(x, y + 1)
      else
        LastColumnRow(x, y - 1) + LastColumnRow(x, y) + [false, false, false]
    }

    /** Stores a 3x3 table of values into the kernel, row by row. */
    method SetKernel(k: seq<bool>)
      requires kernel.Length0 == 3 && kernel.Length1 == 3 && |k| == 9
      modifies kernel
      ensures KernelContents() == k
    {
      forall row, col | 0 <= row < 3 && 0 <= col < 3 {
        kernel[row, col] := k[3 * row + col];
      }
    }

    /**
     * `getCornerStyle`: the glyph of the corner whose 2x2 sub-kernel has its
     * top-left cell at [yKernel, xKernel], in the given draw style.
     */
    function GetCornerStyle(xKernel: nat, yKernel: nat, drawStyle: DrawStyle): (g: string)
      reads kernel
      requires kernel.Length0 == 3 && kernel.Length1 == 3 && xKernel < 2 && yKernel < 2
      ensures g == CornerAt(KernelContents(), xKernel, yKernel, drawStyle)
    {
      CornerGlyph(kernel[yKernel, xKernel], kernel[yKernel, xKernel + 1],
                  kernel[yKernel + 1, xKernel], kernel[yKernel + 1, xKernel + 1], drawStyle)
    }

    /** `getRoomContent(x, y)`: the centre glyph of room (x, y). */
    function GetRoomContent(x: int, y: int): (g: string)
      reads this, roomData, roomGrid
      requires Valid() && InBounds(width, height, Pos(x, y))
      ensures |g| == 1 && (g == SPECIAL_SYMBOLS[SS_FACE] <==> Pos(x, y) == Current())
      ensures IsGrid(Cells(), width, height) && g == RoomContent(Cell(Cells(), width, height, Pos(x, y)), Pos(x, y) == Current())
    {
      RoomContentPriority(Room(x, y), x == currX && y == currY);
      RoomContent(Room(x, y), x == currX && y == currY)
    }

    /** `isNearWumpus`: whether a room beside the current one holds the wumpus. */
    function IsNearWumpus(): (r: bool)
      reads this, roomData, roomGrid
      requires Valid()
      ensures IsGrid(Cells(), width, height) && (r <==> WumpusNearby(Cells(), width, height, Current()))
    {
      WumpusNearbyCases(Cells(), width, height, Current());
      (currX > 0 && Has(Room(currX - 1, currY), RP_WUMPUS))
      || (currX < width - 1 && Has(Room(currX + 1, currY), RP_WUMPUS))
      || (currY > 0 && Has(Room(currX, currY - 1), RP_WUMPUS))
      || (currY < height - 1 && Has(Room(currX, currY + 1), RP_WUMPUS))
    }

    /** `isGameOver` */
    function IsGameOver(): (r: bool)
      reads this
      ensures r <==> gameOver
    {
      gameOver
    }

    /** `renderRoom(x, y)`: draws room (x, y) as three lines of box glyphs. */
    method RenderRoom(x: int, y: int)
      requires Valid() && InBounds(width, height, Pos(x, y))
      modifies kernel, terminal
      ensures terminal.log == old(terminal.log) + RoomView(Pos(x, y))
    {
      UpdateKernel(x, y);
      WriteRoom(x, y);
    }

    /**
     * The drawing part of `renderRoom`, once the kernel holds the room's
     * neighbourhood: top border, middle line and bottom border.
     */
    method WriteRoom(x: int, y: int)
      requires Valid() && InBounds(width, height, Pos(x, y))
      requires KernelContents() == KernelOf(Cells(), width, height, Pos(x, y))
      modifies terminal
      ensures terminal.log == old(terminal.log) + RoomView(Pos(x, y))
    {
      ghost var cells, current, selected := Cells(), Current(), Selected();
      ghost var k := KernelContents();

      var xOffset := x * 4;
      var yOffset := y * 2;
      var drawStyle := DS_SINGLE;
      if x == selectX && y == selectY {
        drawStyle := DS_DOUBLE;
      }
      assert drawStyle == DrawStyleAt(selected, Pos(x, y));

      var top, middle, bottom := RoomLines(x, y, drawStyle);
      ghost var view := RoomWrites(cells, width, height, current, selected, Pos(x, y));
      assert view == [Write(xOffset, yOffset, top), Write(xOffset, yOffset + 1, middle), Write(xOffset, yOffset + 2, bottom)];
      AppendThree(terminal.log, Write(xOffset, yOffset, top), Write(xOffset, yOffset + 1, middle), Write(xOffset, yOffset + 2, bottom));

      terminal.WriteAt(xOffset, yOffset, top);
      terminal.WriteAt(xOffset, yOffset + 1, middle);
      terminal.WriteAt(xOffset, yOffset + 2, bottom);
      assert Cells() == cells;
    }

    /**
     * The three lines `renderRoom` composes: corners from the kernel around a
     * horizontal edge, and the room's content between two vertical edges.
     */
    method RoomLines(x: int, y: int, drawStyle: DrawStyle) returns (top: string, middle: string, bottom: string)
      requires Valid() && InBounds(width, height, Pos(x, y))
      ensures top == TopLine(KernelContents(), drawStyle) && bottom == BottomLine(KernelContents(), drawStyle)
      ensures IsGrid(Cells(), width, height) && middle == MiddleLine(Cells(), width, height, Current(), Pos(x, y), drawStyle)
    {
      top := GetCornerStyle(0, 0, drawStyle) + LineGlyph(LS_HORIZONTAL, drawStyle) + GetCornerStyle(1, 0, drawStyle);
      middle := LineGlyph(LS_LEFT_VERT, drawStyle) + GetRoomContent(x, y) + LineGlyph(LS_RIGHT_VERT, drawStyle);
      bottom := GetCornerStyle(0, 1, drawStyle) + LineGlyph(LS_HORIZONTAL, drawStyle) + GetCornerStyle(1, 1, drawStyle);
    }

    /** `renderSelectedRoom` */
    method RenderSelectedRoom()
      requires Valid()
      modifies kernel, terminal
      ensures terminal.log == old(terminal.log) + RoomView(Selected())
    {
      RenderRoom(selectX, selectY);
    }

    /**
     * `render`: draws every valid room in scan order, then the selected room
     * again so that its double border is on top, then refreshes the terminal.
     */
    method Render()
      requires Valid()
      modifies kernel, terminal
      ensures terminal.log == old(terminal.log)
        + GridWrites(Cells(), width, height, Current(), Selected(), height)
        + RoomView(Selected()) + [Refresh]
    {
      RenderGrid();
      ghost var grid := terminal.log;
      RenderSelectedRoom();
      assert terminal.log == grid + RoomView(Selected());
      terminal.DoRefresh();
    }

    /** The outer loop of `render`: the valid rooms of every row, top to bottom. */
    method RenderGrid()
      requires Valid()
      modifies kernel, terminal
      ensures terminal.log == old(terminal.log) + GridWrites(Cells(), width, height, Current(), Selected(), height)
    {
      ghost var cells, current, selected := Cells(), Current(), Selected();
      var y := 0;
      while y < height
        invariant 0 <= y <= height
        invariant terminal.log == old(terminal.log) + GridWrites(cells, width, height, current, selected, y)
      {
        RenderRow(y);
        AppendAssoc(old(terminal.log), GridWrites(cells, width, height, current, selected, y),
                    RowWrites(cells, width, height, current, selected, y, width));
        y := y + 1;
      }
    }

    /** The inner loop of `render`: the valid rooms of row y, left to right. */
    method RenderRow(y: int)
      requires Valid() && 0 <= y < height
      modifies kernel, terminal
      ensures IsGrid(Cells(), width, height)
      ensures terminal.log == old(terminal.log) + RowWrites(Cells(), width, height, Current(), Selected(), y, width)
    {
      ghost var cells, current, selected := Cells(), Current(), Selected();
      var x := 0;
      while x < width
        invariant 0 <= x <= width
        invariant terminal.log == old(terminal.log) + RowWrites(cells, width, height, current, selected, y, x)
      {
        ghost var row := RowWrites(cells, width, height, current, selected, y, x);
        if Has(Room(x, y), RP_VALID) {
          ghost var view := RoomView(Pos(x, y));
          RenderRoom(x, y);
          AppendAssoc(old(terminal.log), row, view);
        }
        x := x + 1;
      }
    }

    /** `displayMessage`: writes a status line below the grid. */
    method DisplayMessage(message: UserMessage, messageLine: int)
      modifies terminal
      ensures terminal.log == old(terminal.log) + [MessageWrite(height, message, messageLine)]
    {
      terminal.WriteAt(0, (height * 2) + 1 + messageLine, MESSAGES[message]);
    }

    /**
     * `moveSelection(direction)`: moves the selection one room that way if
     * that room is on the grid and valid, and then redraws the old and the new
     * selected room; otherwise does nothing.
     */
    method MoveSelection(direction: Direction)
      requires Valid()
      modifies this, kernel, terminal
      ensures Valid() && SameGrid() && Cells() == old(Cells())
      ensures Current() == old(Current()) && gameOver == old(gameOver)
      ensures Selected() == Step(Cells(), width, height, old(Selected()), direction)
      ensures Selected() == old(Selected()) ==> terminal.log == old(terminal.log)
      ensures Selected() != old(Selected()) ==>
        terminal.log == old(terminal.log) + RoomView(old(Selected())) + RoomView(Selected())
    {
      var oldX := selectX;
      var oldY := selectY;
      var dirty := StepSelection(direction);

      if dirty {
        RenderRoom(oldX, oldY);
        ghost var mid := terminal.log;
        RenderSelectedRoom();
        assert terminal.log == mid + RoomView(Selected());
      }
    }

    /**
     * The selection update of `moveSelection`, one case per direction; `dirty`
     * reports whether the selection moved.
     */
    method StepSelection(direction: Direction) returns (dirty: bool)
      requires Valid()
      modifies this
      ensures Valid() && SameGrid()
      ensures Current() == old(Current()) && gameOver == old(gameOver)
      ensures Selected() == Step(Cells(), width, height, old(Selected()), direction)
      ensures dirty <==> Selected() != old(Selected())
    {
      ghost var cells, p := Cells(), Selected();
      dirty := false;
      match direction
      case Up =>
        if selectY > 0 {
          if Has(Room(selectX, selectY - 1), RP_VALID) {
            selectY := selectY - 1;
            dirty := true;
          }
        }
      case Down =>
        if selectY < height - 1 {
          if Has(Room(selectX, selectY + 1), RP_VALID) {
            selectY := selectY + 1;
            dirty := true;
          }
        }
      case Left =>
        if selectX > 0 {
          if Has(Room(selectX - 1, selectY), RP_VALID) {
            selectX := selectX - 1;
            dirty := true;
          }
        }
      case Right =>
        if selectX < width - 1 {
          if Has(Room(selectX + 1, selectY), RP_VALID) {
            selectX := selectX + 1;
            dirty := true;
          }
        }
      assert Cells() == cells;
      assert Selected() == Step(cells, width, height, p, direction);
    }

    /**
     * `move`: enters the selected room if it is at distance 1 from the current
     * one, redraws both, and reports the outcome; otherwise only reports a bad move.
     */
    method Move()
      requires Valid()
      modifies this, kernel, terminal
      ensures Valid() && SameGrid() && Cells() == old(Cells()) && Selected() == old(Selected())
      ensures Distance(old(Current()), old(Selected())) != 1 ==>
        && Current() == old(Current())
        && gameOver == old(gameOver)
        && terminal.log == old(terminal.log) + [MessageWrite(height, UM_BADMOVE, 0)]
      ensures Distance(old(Current()), old(Selected())) == 1 ==>
        && Current() == Selected()
        && IsGrid(Cells(), width, height)
        && var o := MoveOutcome(Cell(Cells(), width, height, Current()), WumpusNearby(Cells(), width, height, Current()));
        && gameOver == (old(gameOver) || o.EndsGame())
        && terminal.log == old(terminal.log) + RoomView(old(Current())) + RoomView(Current()) + OutcomeWrites(height, o)
    {
      var distance := Abs(currX - selectX) + Abs(currY - selectY);

      if distance != 1 {
        DisplayMessage(UM_BADMOVE, 0);
        return;
      }

      EnterSelected();
      ReportOutcome();
    }

    /**
     * The middle of `move`, once the move is allowed: the player steps into the
     * selected room, and the room left and the room entered are redrawn.
     */
    method EnterSelected()
      requires Valid()
      modifies this, kernel, terminal
      ensures Valid() && SameGrid() && Cells() == old(Cells()) && Selected() == old(Selected())
      ensures Current() == Selected() && gameOver == old(gameOver)
      ensures terminal.log == old(terminal.log) + RoomView(old(Current())) + RoomView(Current())
    {
      var oldX := currX;
      var oldY := currY;

      currX := selectX;
      currY := selectY;

      RenderRoom(oldX, oldY);
      ghost var mid := terminal.log;
      RenderRoom(currX, currY);
      assert terminal.log == mid + RoomView(Current());
    }

    /**
     * The tail of `move`, once the player stands in the entered room: the
     * wumpus loses, the treasure wins (both also ask for a key and end the
     * game), a wumpus next door is announced, else the message line is cleared.
     */
    method ReportOutcome()
      requires Valid()
      modifies this, terminal
      ensures Valid() && SameGrid() && Current() == old(Current()) && Selected() == old(Selected())
      ensures IsGrid(Cells(), width, height)
      ensures var o := MoveOutcome(Cell(Cells(), width, height, Current()), WumpusNearby(Cells(), width, height, Current()));
        && gameOver == (old(gameOver) || o.EndsGame())
        && terminal.log == old(terminal.log) + OutcomeWrites(height, o)
    {
      if Has(Room(currX, currY), RP_WUMPUS) {
        DisplayMessage(UM_LOSE, 0);
        DisplayMessage(UM_EXIT, 1);
        gameOver := true;
      } else if Has(Room(currX, currY), RP_TREASURE) {
        DisplayMessage(UM_WIN, 0);
        DisplayMessage(UM_EXIT, 1);
        gameOver := true;
      } else if IsNearWumpus() {
        DisplayMessage(UM_NEARWUMPUS, 0);
      } else {
        DisplayMessage(UM_CLEAR, 0);
      }
    }

    /** `toggleWumpus`: flips the wumpus mark of the selected room and redraws it. */
    method ToggleWumpus()
      requires Valid()
      modifies roomData, kernel, terminal
      ensures Valid() && IsGrid(old(Cells()), width, height)
      ensures Cells() == WithCell(old(Cells()), width, height, Selected(),
                                  ToggleWumpusMark(Cell(old(Cells()), width, height, Selected())))
      ensures terminal.log == old(terminal.log) + RoomView(Selected())
    {
      FlipSelected(MarkToggle.ToggleWumpus);
      ValidFramed();
      ghost var cells, view := Cells(), RoomView(Selected());
      assert cells == WithCell(old(Cells()), width, height, Selected(), ToggleWumpusMark(Cell(old(Cells()), width, height, Selected())));
      assert terminal.log == old(terminal.log);
      RenderSelectedRoom();
      assert Cells() == cells && RoomView(Selected()) == view;
    }

    /** `toggleUnknown`: flips the unknown mark of the selected room and redraws it. */
    method ToggleUnknown()
      requires Valid()
      modifies roomData, kernel, terminal
      ensures Valid() && IsGrid(old(Cells()), width, height)
      ensures Cells() == WithCell(old(Cells()), width, height, Selected(),
                                  ToggleUnknownMark(Cell(old(Cells()), width, height, Selected())))
      ensures terminal.log == old(terminal.log) + RoomView(Selected())
    {
      FlipSelected(MarkToggle.ToggleUnknown);
      ValidFramed();
      ghost var cells, view := Cells(), RoomView(Selected());
      assert cells == WithCell(old(Cells()), width, height, Selected(), ToggleUnknownMark(Cell(old(Cells()), width, height, Selected())));
      assert terminal.log == old(terminal.log);
      RenderSelectedRoom();
      assert Cells() == cells && RoomView(Selected()) == view;
    }

    /**
     * The in-place word edit of `toggleWumpus` / `toggleUnknown` on the
     * selected room: clear the mark if set, else clear the other mark and set it.
     */
    method FlipSelected(t: MarkToggle)
      requires Valid()
      modifies roomData
      ensures IsGrid(old(Cells()), width, height)
      ensures Cells() == WithCell(old(Cells()), width, height, Selected(),
                                  ApplyToggle(Cell(old(Cells()), width, height, Selected()), t))
    {
      var mark, other := ToggledMark(t), OtherMark(t);
      CellIndexInRange(width, height, selectX, selectY);
      var i := roomGrid[selectY] + selectX;
      assert i == selectY * width + selectX;
      ghost var before := roomData[i];
      assert before == Cell(old(Cells()), width, height, Selected());
      InPlaceToggle(before, t);
      if Has(roomData[i], mark) {
        roomData[i] := Without(roomData[i], mark);
      } else {
        roomData[i] := Set(Without(roomData[i], other), mark);
      }
      WithCellAt(old(Cells()), width, height, Selected(), ApplyToggle(before, t));
      assert Cells() == old(Cells())[i := ApplyToggle(before, t)];
    }
  }
}
