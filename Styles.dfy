/**
 * Adjacency bits, line and draw styles, and the fixed glyph and message tables
 * of the renderer (include/World.h enums; tables of src/World.cpp).
 */
module Styles {
  import opened Rooms

  // eRoomAdjacency: one bit per cell of a 2x2 sub-kernel around a corner.
  const RA_TOPLEFT: nat := 0x1
  const RA_TOPRIGHT: nat := 0x2
  const RA_BOTTOMLEFT: nat := 0x4
  const RA_BOTTOMRIGHT: nat := 0x8

  // eLineStyle: the rows of the line table.
  type LineStyle = s: nat | s < 3
  const LS_HORIZONTAL: LineStyle := 0
  const LS_LEFT_VERT: LineStyle := 1
  const LS_RIGHT_VERT: LineStyle := 2

  // eDrawStyle: the columns of the corner and line tables.
  type DrawStyle = s: nat | s < 2
  const DS_SINGLE: DrawStyle := 0
  const DS_DOUBLE: DrawStyle := 1

  // eSpecialSymbol: the entries of the symbol table.
  type SpecialSymbol = s: nat | s < 5
  const SS_FACE: SpecialSymbol := 0
  const SS_WUMPUS: SpecialSymbol := 1
  const SS_KEY: SpecialSymbol := 2
  const SS_LOCKED: SpecialSymbol := 3
  const SS_UNKNOWN: SpecialSymbol := 4

  // eUserMessage: the entries of the message table.
  type UserMessage = m: nat | m < 6
  const UM_CLEAR: UserMessage := 0
  const UM_BADMOVE: UserMessage := 1
  const UM_NEARWUMPUS: UserMessage := 2
  const UM_LOSE: UserMessage := 3
  const UM_WIN: UserMessage := 4
  const UM_EXIT: UserMessage := 5

  /** Corner glyphs, indexed by the 4-bit adjacency code and then by draw style. */
  const CORNER_STYLES: seq<seq<string>> := [
    [" ", " "],
    ["┘", "╝"],
    ["└", "╚"],
    ["┴", "╩"],
    ["┐", "╗"],
    ["┤", "╣"],
    ["┼", "╬"],
    ["┼", "╬"],
    ["┌", "╔"],
    ["┼", "╬"],
    ["├", "╠"],
    ["┼", "╬"],
    ["┬", "╦"],
    ["┼", "╬"],
    ["┼", "╬"],
    ["┼", "╬"]
  ]

  /** Edge glyphs, indexed by line style and then by draw style. */
  const LINE_STYLES: seq<seq<string>> := [
    ["───", "═══"],
    ["│ ", "║ "],
    [" │", " ║"]
  ]

  /** Room-centre symbols, indexed by SpecialSymbol. */
  const SPECIAL_SYMBOLS: seq<string> := ["ʘ", "ω", "\U{1F511}", "▣", "?"]

  /** Status lines, indexed by UserMessage; each is padded to 80 characters. */
  const MESSAGES: seq<string> := [
    "                                                                                ",
    "Sorry, you can only move 1 space at a time.                                     ",
    "You hear a wumpus lurking nearby...                                             ",
    "AAAACK! You've been eaten by a wumpus!                                          ",
    "You've found the treasure - you win!                                            ",
    "--- Press a key to exit ---                                                     "
  ]

  /** The tables have one row per enumerator and one column per draw style. */
  lemma TablesFitEnums()
    ensures |CORNER_STYLES| == 16 && forall i :: 0 <= i < 16 ==> |CORNER_STYLES[i]| == 2
    ensures |LINE_STYLES| == 3 && forall i :: 0 <= i < 3 ==> |LINE_STYLES[i]| == 2
    ensures |SPECIAL_SYMBOLS| == 5 && |MESSAGES| == 6
    ensures DS_SINGLE == 0 && DS_DOUBLE == 1
    ensures LS_HORIZONTAL == 0 && LS_LEFT_VERT == 1 && LS_RIGHT_VERT == 2
  {
  }

  /** Every message is 80 characters long, so writing one erases whatever message was there. */
  lemma MessagesFillLine()
    ensures forall m :: 0 <= m < |MESSAGES| ==> |MESSAGES[m]| == 80
  {
  }

  /** Bit `flag` of adjacency code `i`, for a single-bit `flag`. */
  predicate CodeHas(i: nat, flag: nat)
    requires flag > 0
  {
    (i / flag) % 2 == 1
  }

  /**
   * The adjacency code `getCornerStyle` builds from the 2x2 sub-kernel around
   * a corner: it starts at 0 and ORs in the bit of each cell that holds a valid
   * room. The four bits are distinct, so each OR adds a bit not yet set.
   */
  function CornerIndex(topLeft: bool, topRight: bool, bottomLeft: bool, bottomRight: bool): (i: nat)
    ensures i < 16 && i < |CORNER_STYLES|
  {
    (if topLeft then RA_TOPLEFT else 0) + (if topRight then RA_TOPRIGHT else 0)
    + (if bottomLeft then RA_BOTTOMLEFT else 0) + (if bottomRight then RA_BOTTOMRIGHT else 0)
  }

  /** Each of the four bits of the code records exactly one cell of the sub-kernel. */
  lemma CornerIndexDecodes(topLeft: bool, topRight: bool, bottomLeft: bool, bottomRight: bool)
    ensures var i := CornerIndex(topLeft, topRight, bottomLeft, bottomRight);
      && CodeHas(i, RA_TOPLEFT) == topLeft && CodeHas(i, RA_TOPRIGHT) == topRight
      && CodeHas(i, RA_BOTTOMLEFT) == bottomLeft && CodeHas(i, RA_BOTTOMRIGHT) == bottomRight
  {
  }

  /** Every code 0..15 is built from exactly one 2x2 pattern. */
  lemma CornerIndexOnto(i: nat)
    requires i < 16
    ensures CornerIndex(CodeHas(i, RA_TOPLEFT), CodeHas(i, RA_TOPRIGHT),
                        CodeHas(i, RA_BOTTOMLEFT), CodeHas(i, RA_BOTTOMRIGHT)) == i
  {
  }

  function CornerGlyph(topLeft: bool, topRight: bool, bottomLeft: bool, bottomRight: bool, drawStyle: DrawStyle): string
  {
    CORNER_STYLES[CornerIndex(topLeft, topRight, bottomLeft, bottomRight)][drawStyle]
  }

  /** A corner is drawn blank exactly when none of the four rooms around it exists. */
  lemma CornerBlankIffNoRoom(topLeft: bool, topRight: bool, bottomLeft: bool, bottomRight: bool, drawStyle: DrawStyle)
    ensures CornerGlyph(topLeft, topRight, bottomLeft, bottomRight, drawStyle) == " "
        <==> !topLeft && !topRight && !bottomLeft && !bottomRight
  {
  }

  function LineGlyph(lineStyle: LineStyle, drawStyle: DrawStyle): string {
    LINE_STYLES[lineStyle][drawStyle]
  }

  /** The glyph `getRoomContent` puts in a room's centre. */
  function RoomContent(room: RoomWord, isCurrent: bool): (g: string)
    ensures |g| == 1
  {
    if isCurrent then SPECIAL_SYMBOLS[SS_FACE]
    else if Has(room, RP_LOCKED) then SPECIAL_SYMBOLS[SS_LOCKED]
    else if Has(room, RP_MARK_WUMPUS) then SPECIAL_SYMBOLS[SS_WUMPUS]
    else if Has(room, RP_MARK_UNKNOWN) then SPECIAL_SYMBOLS[SS_UNKNOWN]
    else " "
  }

  /**
   * The centre glyph by priority: the player's face, then the lock, then the
   * wumpus mark, then the unknown mark, else blank; the five glyphs differ, so
   * the glyph tells which case holds.
   */
  lemma RoomContentPriority(room: RoomWord, isCurrent: bool)
    ensures var g := RoomContent(room, isCurrent);
      && (g == SPECIAL_SYMBOLS[SS_FACE] <==> isCurrent)
      && (g == SPECIAL_SYMBOLS[SS_LOCKED] <==> !isCurrent && Has(room, RP_LOCKED))
      && (g == SPECIAL_SYMBOLS[SS_WUMPUS] <==> !isCurrent && !Has(room, RP_LOCKED) && Has(room, RP_MARK_WUMPUS))
      && (g == SPECIAL_SYMBOLS[SS_UNKNOWN]
          <==> !isCurrent && !Has(room, RP_LOCKED) && !Has(room, RP_MARK_WUMPUS) && Has(room, RP_MARK_UNKNOWN))
      && (g == " "
          <==> !isCurrent && !Has(room, RP_LOCKED) && !Has(room, RP_MARK_WUMPUS) && !Has(room, RP_MARK_UNKNOWN))
  {
  }
}
