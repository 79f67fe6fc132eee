# Wumpus world model

This project models the `World` class of a terminal "Hunt the Wumpus" game in Dafny and proves properties of it.

The world is a grid of rooms. Each room is one 16-bit word of property flags: valid room, wumpus, key, locked, treasure, door, and the player's two marks ("wumpus here?" and "unknown"). Two positions are tracked:

- the **current** room, where the player stands;
- the **selected** room, a cursor the player steers with the arrow keys.

The player can:

- move the selection onto a neighbouring valid room;
- commit a move into the selection when it is exactly one step away;
- toggle the two marks on the selected room.

Every change is drawn on a terminal. A room is drawn as a 5×3 box:

- Its corner glyphs are picked from a 3×3 "kernel": the validity of the room and its eight neighbours.
- The selected room is drawn with double lines.
- The room's content glyph is chosen by priority.

Status messages go on two lines below the grid.

The model has five modules:

- `Rooms` (Rooms.dfy): the room word as a `bv16`, the flag constants, and the bit operations of the mark toggles.
- `Styles` (Styles.dfy):
  - the adjacency bits, line styles and draw styles;
  - the corner, line, symbol and message tables;
  - the 4-bit corner index and the centre glyph.
- `Grid` (Grid.dfy): the rules stated on values. It holds:
  - the row-major grid of room words and the bounds-clipped validity kernel (`KernelOf`);
  - the selection step (`Step`), distance and adjacency, and the reference meaning of "wumpus nearby";
  - the outcome of a committed move, and the compiled-in default layout.
- `Screen` (Screen.dfy): the terminal as an append-only log of positioned writes. It specifies:
  - the three writes that draw one room, and the drawing of the whole grid in scan order;
  - the message lines.
- `Wumpus` (World.dfy): class `World`, with fields and methods following the source.
  - The fields are:
    - the room buffer (`roomData`, an array) and the row index (`roomGrid`);
    - the cursor fields and the game-over latch;
    - the 3×3 kernel (an `array2<bool>`).
  - Each method is proved against the `Grid` and `Screen` functions.

The terminal is a separate `Terminal` class holding a `log` of `Write(col, row, text)` and `Refresh` entries. A cursor move followed by an output counts as one `Write`.

Two consequences of the code, proved in the model:

- In the default layout, five presses of "up" from the start (3,5) select the treasure room (3,0), and further presses stay there. The player is still at (3,5), five rooms away, so committing the move at once is a bad move. A committed move into (3,0) from (3,1), the valid room below it, wins (Grid.DefaultUpReachesTreasure, Grid.DefaultTreasureApproach).
- A valid room with no valid neighbour is drawn as a closed box: with single lines, or with double lines when it is the selected room (Screen.IsolatedRoomIsClosedBox).

## Model

| member | source | states |
|---|---|---|
| Rooms.PropsAreDistinctBits | include/World.h:11-21 | the eight room properties are the single bits 1<<0 .. 1<<7 and pairwise disjoint |
| Rooms.FlagsIndependent | include/World.h:11-21 | setting or clearing one property flag sets/clears it and leaves every other flag unchanged |
| Rooms.ToggleWumpusMark | src/World.cpp:252-263 | after toggleWumpus the wumpus mark is flipped, the unknown mark is set only if it was set and the wumpus mark was too (so it is always cleared when the wumpus mark becomes set), the room never holds both marks, and all other bits are unchanged |
| Rooms.ToggleUnknownMark | src/World.cpp:267-278 | the same for toggleUnknown with the two marks swapped |
| Rooms.ApplyToggle | src/World.cpp:252-280 | either toggle keeps the marks exclusive and leaves every non-mark bit as it was |
| Rooms.InPlaceToggle | src/World.cpp:254-262 | the in-place edit (clear the toggled mark if set, else clear the other mark and set the toggled one) computes exactly the toggle |
| Rooms.TogglesKeepMarksExclusive | src/World.cpp:252-280 | any sequence of toggles, from any room or from a room with exclusive marks, ends with exclusive marks and the room's other properties untouched |
| Rooms.ToggleTwiceRestores | src/World.cpp:252-280 | toggling the same mark twice restores a room that does not carry the other mark |
| Styles.TablesFitEnums | include/World.h:23-42 | the corner table has 16 rows of 2 draw styles, the line table 3 rows of 2, 5 symbols and 6 messages; DS_SINGLE = 0, DS_DOUBLE = 1, LS_* = 0, 1, 2 |
| Styles.MessagesFillLine | src/World.cpp:59-66 | every message is 80 characters long, so writing one replaces the previous message entirely |
| Styles.CornerIndex | src/World.cpp:402-427 | the adjacency code built from a 2x2 sub-kernel is below 16 and indexes the corner table |
| Styles.CornerIndexDecodes | src/World.cpp:402-427 | bit TL=1, TR=2, BL=4, BR=8 of the code is set exactly when that cell of the sub-kernel holds a valid room |
| Styles.CornerIndexOnto | include/World.h:23-29 | every code 0..15 arises from exactly the 2x2 pattern its bits describe |
| Styles.CornerBlankIffNoRoom | src/World.cpp:21-43 | a corner glyph is blank exactly when none of the four rooms around it is valid |
| Styles.RoomContent | src/World.cpp:429-451 | the centre glyph is one character |
| Styles.RoomContentPriority | src/World.cpp:429-451 | centre glyph priority face > locked > wumpus mark > unknown mark > blank, each glyph occurring exactly in its case |
| Screen.GlyphWidths | src/World.cpp:21-49 | corner glyphs are 1 character, horizontal edges 3, vertical edges with padding 2 |
| Grid.WithCell | src/World.cpp:252-280 | replacing room q's word changes room q and no other room |
| Grid.CellIndexInjective | src/World.cpp:84-89 | two rooms share a row-major slot only if they are the same room |
| Grid.PrefixGridCell | src/World.cpp:92 | the grid copied from the first width*height words reads back room (x, y) as slot y*width + x of the layout |
| Grid.KernelOfNeighbours | src/World.cpp:303-400 | kernel entry [row][col] is true exactly when room (x+col-1, y+row-1) is on the grid and valid; a true entry is always in bounds |
| Grid.KernelOfRows | src/World.cpp:303-400 | the kernel is the rows above, through and below the room, each three rooms wide |
| Grid.Neighbour | src/World.cpp:151-202 | each direction leads to a room at Manhattan distance 1 |
| Grid.AdjacentIffNeighbour | src/World.cpp:213 | distance 1 holds exactly for the four orthogonal neighbours, not the diagonals |
| Grid.Step | src/World.cpp:157-202 | the selection moves to the neighbour in that direction when it is in bounds and valid, and stays otherwise |
| Grid.StepMovesAtMostOne | src/World.cpp:157-202 | a step changes at most one coordinate, by exactly one, and only onto a valid room |
| Grid.StepNAdd | src/World.cpp:151-209 | a + b presses of a direction equal a presses followed by b |
| Grid.WallIsFixedPoint | src/World.cpp:151-209 | pushing against a wall any number of times leaves the selection fixed |
| Grid.StopsAtLastValidRoom | src/World.cpp:151-209 | once stopped at a wall, further presses stay at that last valid room |
| Grid.WumpusNearbyCases | src/World.cpp:453-476 | the four bounds-guarded checks hold exactly when some room at distance 1 holds the wumpus |
| Grid.MoveOutcome | src/World.cpp:230-249 | the outcome is lose iff the room holds the wumpus, win iff treasure without wumpus, warning iff neither but a wumpus is near; the game ends iff wumpus or treasure |
| Grid.WalkUp | src/World.cpp:159-168 | with valid rooms in the k rows above, k presses of up climb exactly k rows |
| Grid.DefaultUpFive | src/World.cpp:8-19 | in the default layout five presses of up from the start (3,5) reach (3,0) |
| Grid.DefaultUpReachesTreasure | src/World.cpp:8-19 | five or more presses of up from the start select (3,0), the treasure room, and stop there; a move into it is a win |
| Grid.DefaultTreasureApproach | src/World.cpp:8-19 | the treasure room is at distance 5 from the start, so moving straight after selecting it is a bad move; (3,1) is a valid room at distance 1 from it |
| Grid.DefaultColumnThree | src/World.cpp:8-19 | column 3 of the default layout is valid in every row and its top room holds the treasure and no wumpus |
| Grid.DefaultWumpusNeighbour | src/World.cpp:8-19 | room (2,2) lies next to the wumpus at (2,1), and entering (2,1) loses |
| Screen.Terminal.WriteAt | src/World.cpp:142-143 | a cursor move plus output appends one positioned write to the log |
| Screen.Terminal.DoRefresh | src/World.cpp:111 | a refresh appends one refresh entry to the log |
| Screen.DrawStyleAt | src/World.cpp:120-126 | a room is drawn with double lines exactly when it is the selected room |
| Screen.RoomIsBox | src/World.cpp:114-144 | drawing a room writes three lines at column 4x and rows 2y, 2y+1, 2y+2, each five characters long, inside the grid area |
| Screen.IsolatedRoomIsClosedBox | src/World.cpp:114-144 | a valid room with no valid neighbour is drawn as a closed box around its content glyph, single-line when unselected and double-line when selected |
| Screen.SharedCornersAgree | src/World.cpp:114-144 | rooms side by side or one above the other compute the same glyph for the corners they share |
| Screen.RoomWritesInGridArea | src/World.cpp:114-144 | drawing one room writes only inside the grid area |
| Screen.RowWritesInGridArea | src/World.cpp:97-106 | drawing one row writes only inside the grid area |
| Screen.GridWritesInGridArea | src/World.cpp:95-112 | drawing the grid writes only inside the grid area of the screen |
| Screen.MessagesBelowGrid | src/World.cpp:478-482 | message lines lie below every row the grid drawing writes |
| Screen.OutcomeWrites | src/World.cpp:230-249 | lose and win write two messages ending with the exit prompt on line 1; warning and clear write one on line 0 |
| Screen.OutcomeMessagesDistinct | src/World.cpp:230-249 | the first message tells the four outcomes apart and is never the bad-move message |
| Wumpus.RowIndexAsWritten | src/World.cpp:84-89 | the width-sized row index with one store per row: every store is in bounds only when the layout is no taller than wide, and then row y points at y * width |
| Wumpus.TallLayoutOverrunsAsWritten | src/World.cpp:84-89 | a 2-wide, 3-high layout (and every layout taller than wide) breaks the as-written loop's bound |
| Wumpus.World.constructor | src/World.cpp:69-73 | the world starts with the default 7x6 layout, current = selected = (3,5), and the game-over latch false (include/World.h:127) |
| Wumpus.World.Load | src/World.cpp:75-93 | the grid is width x height, holds the first width*height words of the layout in row-major order, both positions are the start, and the game-over latch is untouched |
| Wumpus.World.Room | src/World.cpp:84-89 | reading through the row index gives the row-major cell (x, y) |
| Wumpus.World.RoomValid | src/World.cpp:303-400 | the validity read of updateKernel is ValidAt of the grid |
| Wumpus.World.UpdateKernel | src/World.cpp:303-400 | the whole kernel is overwritten with the bounds-clipped kernel of room (x, y) |
| Wumpus.World.FirstColumnKernel | src/World.cpp:305-334 | the three x == 0 cases equal the clipped kernel |
| Wumpus.World.InnerColumnKernel | src/World.cpp:335-369 | the three inner-column cases equal the clipped kernel |
| Wumpus.World.LastColumnKernel | src/World.cpp:370-399 | the three last-column cases equal the clipped kernel |
| Wumpus.World.FirstColumnRow | src/World.cpp:305-334 | a kernel row read at column 0 (false, then rooms x and x+1) is the clipped kernel row |
| Wumpus.World.InnerColumnRow | src/World.cpp:335-369 | a kernel row read at an inner column (rooms x-1, x, x+1) is the clipped kernel row |
| Wumpus.World.LastColumnRow | src/World.cpp:370-399 | a kernel row read at the last column (rooms x-1 and x, then false) is the clipped kernel row |
| Wumpus.World.SetKernel | src/World.cpp:303-400 | the kernel holds exactly the nine given values afterwards |
| Wumpus.World.GetCornerStyle | src/World.cpp:402-427 | the glyph is the corner glyph of the kernel's 2x2 sub-kernel at (xKernel, yKernel) |
| Wumpus.World.GetRoomContent | src/World.cpp:429-451 | the centre glyph is one character, is the face exactly in the current room, and is RoomContent of the room word (locked, then wumpus mark, then unknown mark) |
| Wumpus.World.IsNearWumpus | src/World.cpp:453-476 | true exactly when some room at distance 1 from the current room holds the wumpus |
| Wumpus.World.IsGameOver | include/World.h:99-102 | returns the game-over latch |
| Wumpus.World.RenderRoom | src/World.cpp:114-144 | appends exactly the three writes of the room's box |
| Wumpus.World.WriteRoom | src/World.cpp:118-143 | with the kernel of room (x, y) in place, appends exactly the three writes of the room's box |
| Wumpus.World.RoomLines | src/World.cpp:127-141 | the composed lines are the top border and bottom border of the kernel and the middle line with the room's content, in the room's draw style |
| Wumpus.World.RenderSelectedRoom | src/World.cpp:146-149 | appends the box of the selected room |
| Wumpus.World.Render | src/World.cpp:95-112 | appends every valid room in scan order, then the selected room again, then a refresh |
| Wumpus.World.RenderGrid | src/World.cpp:97-106 | appends every valid room in scan order |
| Wumpus.World.RenderRow | src/World.cpp:99-105 | appends the valid rooms of row y, left to right |
| Wumpus.World.DisplayMessage | src/World.cpp:478-482 | appends the message text at column 0, row 2*height + 1 + line |
| Wumpus.World.MoveSelection | src/World.cpp:151-209 | the selection becomes Step of the old selection; current, grid and latch are unchanged; nothing is drawn if it did not move, else the old and new selected rooms are redrawn |
| Wumpus.World.StepSelection | src/World.cpp:153-202 | the selection becomes Step of the old one, and the dirty flag is set exactly when it moved |
| Wumpus.World.Move | src/World.cpp:211-250 | at distance other than 1 only the bad-move message is written and nothing else changes; at distance 1 current becomes the selection, both rooms are redrawn, the latch is set iff the outcome ends the game, and the outcome's messages are written |
| Wumpus.World.EnterSelected | src/World.cpp:221-228 | the current room becomes the selection, grid, selection and latch are unchanged, and the room left and the room entered are redrawn in that order |
| Wumpus.World.ReportOutcome | src/World.cpp:230-249 | writes the outcome's messages and sets the latch exactly for lose and win |
| Wumpus.World.ToggleWumpus | src/World.cpp:252-265 | only the selected room changes, to ToggleWumpusMark of its word, and it is redrawn |
| Wumpus.World.ToggleUnknown | src/World.cpp:267-280 | only the selected room changes, to ToggleUnknownMark of its word, and it is redrawn |
| Wumpus.World.FlipSelected | src/World.cpp:254-262 | the in-place clear/set on the selected word yields ApplyToggle of it, other rooms unchanged |

## Left out

- `dumpRawData` (src/World.cpp:282-301) is a debug dump through stream formatting and `seekp`. It is not modelled.
- The excluded files are not part of this model:
  - the game loop in src/Game.cpp and include/Game.h, with its key polling, sleeping and terminal set-up;
  - the entry point in src/wumpus.cpp.
- The terminal (`ITerminal`) is reduced to a log of writes and refreshes.
  - Cursor state, clearing the screen and the newline flag (second argument) of `output` are not modelled.
  - `displayMessage` calls `output` with its default flag, while the room drawing passes `false`; the model does not tell the two apart.
- Glyph and message strings are opaque table constants. Their Unicode content, display widths and emoji rendering are not modelled.
- 32-bit integer overflow is not modelled. Sizes and coordinates are unbounded integers, while the source computes `myWidth * myHeight` (src/World.cpp:83, 92), `y * myWidth` (line 88), `x * 4` and `y * 2` (lines 118-119) and `myHeight * 2 + 1 + messageLine` (line 480) in `int`. Layouts large enough to overflow these are outside the model.
- `RP_KEY` and `RP_DOOR` appear only as flag constants, because the world's operations never test them.
- Wumpus.World.Load: it requires width and height ≥ 2, at least width*height words in the layout, and an in-bounds start. The source checks none of these; it trusts its caller. `memcpy` reads width*height words, and `updateKernel` reads x+1 and y+1 without checks in the first-column and first-row cases, so smaller or shorter layouts are undefined behaviour there.
- Wumpus.World.Load: the row index is allocated with one slot per row (the corrected form, see Findings). The width-sized allocation as written is modelled by Wumpus.RowIndexAsWritten.
- Wumpus.World.IsGameOver: its contract only says it returns the latch. What the latch means is stated elsewhere: the constructor starts it false, Load leaves it alone, and Move sets it on lose or win.
- Nothing in the world blocks moves after the game is over, and `load` keeps the latch. The model keeps both behaviours as in the code.
- Some methods are split into helper methods for proof size only. Each is one region of the source method it belongs to:
  - StepSelection (moveSelection);
  - EnterSelected and ReportOutcome (move);
  - RenderGrid and RenderRow (render);
  - WriteRoom and RoomLines (renderRoom);
  - FlipSelected (the toggles);
  - SetKernel and the FirstColumnRow / InnerColumnRow / LastColumnRow reads (updateKernel).
- SetKernel stores the nine kernel cells with one parallel assignment, where the source assigns them one by one in each case. The order of those stores is not observable.
- Wumpus.World.FlipSelected: when the toggled mark is clear, the source clears the other mark and sets the toggled one in two statements. The model stores the combined word once. No other code runs between the two statements, so the result is the same.

## Findings

| source | as written | input that shows it | evidently intended | confidence | as-written member | corrected member |
|---|---|---|---|---|---|---|
| src/World.cpp:84-89 | the row index is allocated with `myWidth` slots but the loop stores `myHeight` row pointers | a layout 2 wide and 3 high: the loop stores slot 2 of a 2-slot index (Wumpus.TallLayoutOverrunsAsWritten) | one slot per row (`myHeight`) | not executed | Wumpus.RowIndexAsWritten | Wumpus.World.Load |
