/**
 * A room of the world is one 16-bit word of independent property flags
 * (`room_data_t` and `eRoomProp` of include/World.h).
 */
module Rooms {

  /** The word a room is stored as. */
  type RoomWord = bv16

  const RP_VALID: RoomWord := 0x01
  const RP_WUMPUS: RoomWord := 0x02
  const RP_KEY: RoomWord := 0x04
  const RP_LOCKED: RoomWord := 0x08
  const RP_TREASURE: RoomWord := 0x10
  const RP_DOOR: RoomWord := 0x20
  const RP_MARK_WUMPUS: RoomWord := 0x40
  const RP_MARK_UNKNOWN: RoomWord := 0x80

  /** Every room property, in declaration order. */
  const ALL_PROPS: seq<RoomWord> :=
    [RP_VALID, RP_WUMPUS, RP_KEY, RP_LOCKED, RP_TREASURE, RP_DOOR, RP_MARK_WUMPUS, RP_MARK_UNKNOWN]

  /** The two player marks together. */
  const MARKS: RoomWord := 0xC0

  /** `room & flag` read as a boolean, as the source's `if (room & RP_X)` does. */
  predicate Has(room: RoomWord, flag: RoomWord) {
    room & flag != 0
  }

  /** `room |= flag` */
  function Set(room: RoomWord, flag: RoomWord): RoomWord {
    room | flag
  }

  /** `room &= ~flag` */
  function Without(room: RoomWord, flag: RoomWord): RoomWord {
    room & !flag
  }

  /** A word with exactly one bit set. */
  predicate SingleBit(f: RoomWord) {
    f != 0 && f & (f - 1) == 0
  }

  /** Property k is bit k: the eight properties are the single bits 1<<0 .. 1<<7. */
  lemma PropsAreDistinctBits()
    ensures |ALL_PROPS| == 8
    ensures forall k :: 0 <= k < 8 ==> ALL_PROPS[k] == (1 as RoomWord) << k && SingleBit(ALL_PROPS[k])
    ensures forall i, j :: 0 <= i < j < 8 ==> ALL_PROPS[i] & ALL_PROPS[j] == 0
  {
  }

  lemma DistinctSingleBitsDisjoint(f: RoomWord, g: RoomWord)
    requires SingleBit(f) && SingleBit(g) && f != g
    ensures f & g == 0
  {
  }

  lemma SetKeepsDisjoint(room: RoomWord, f: RoomWord, g: RoomWord)
    requires f & g == 0
    ensures Has(Set(room, f), g) == Has(room, g)
  {
  }

  lemma ClearKeepsDisjoint(room: RoomWord, f: RoomWord, g: RoomWord)
    requires f & g == 0
    ensures Has(Without(room, f), g) == Has(room, g)
  {
  }

  /** Setting or clearing one property flag leaves every other flag as it was. */
  lemma FlagsIndependent(room: RoomWord, f: RoomWord, g: RoomWord)
    requires SingleBit(f) && SingleBit(g) && f != g
    ensures Has(Set(room, f), f) && !Has(Without(room, f), f)
    ensures Has(Set(room, f), g) == Has(room, g)
    ensures Has(Without(room, f), g) == Has(room, g)
  {
    DistinctSingleBitsDisjoint(f, g);
    SetKeepsDisjoint(room, f, g);
    ClearKeepsDisjoint(room, f, g);
  }

  /** The invariant the two toggles keep: a room never carries both marks. */
  predicate MarksExclusive(room: RoomWord) {
    !(Has(room, RP_MARK_WUMPUS) && Has(room, RP_MARK_UNKNOWN))
  }

  /** `a` and `b` agree on every bit other than the two marks. */
  predicate SameOtherProps(a: RoomWord, b: RoomWord) {
    a & !MARKS == b & !MARKS
  }

  lemma SameOtherPropsTransitive(a: RoomWord, b: RoomWord, c: RoomWord)
    requires SameOtherProps(a, b) && SameOtherProps(b, c)
    ensures SameOtherProps(a, c)
  {
  }

  /**
   * What `toggleWumpus` does to the selected room's word: a set wumpus mark is
   * cleared; otherwise the unknown mark is cleared and the wumpus mark set.
   */
  function ToggleWumpusMark(room: RoomWord): (r: RoomWord)
    ensures Has(r, RP_MARK_WUMPUS) == !Has(room, RP_MARK_WUMPUS)
    ensures Has(r, RP_MARK_UNKNOWN) == (Has(room, RP_MARK_UNKNOWN) && Has(room, RP_MARK_WUMPUS))
    ensures MarksExclusive(r)
    ensures SameOtherProps(r, room)
  {
    if Has(room, RP_MARK_WUMPUS) then
      Without(room, RP_MARK_WUMPUS)
    else
      Set(Without(room, RP_MARK_UNKNOWN), RP_MARK_WUMPUS)
  }

  /** What `toggleUnknown` does: the same with the roles of the two marks swapped. */
  function ToggleUnknownMark(room: RoomWord): (r: RoomWord)
    ensures Has(r, RP_MARK_UNKNOWN) == !Has(room, RP_MARK_UNKNOWN)
    ensures Has(r, RP_MARK_WUMPUS) == (Has(room, RP_MARK_WUMPUS) && Has(room, RP_MARK_UNKNOWN))
    ensures MarksExclusive(r)
    ensures SameOtherProps(r, room)
  {
    if Has(room, RP_MARK_UNKNOWN) then
      Without(room, RP_MARK_UNKNOWN)
    else
      Set(Without(room, RP_MARK_WUMPUS), RP_MARK_UNKNOWN)
  }

  /** The player's two commands on marks. */
  datatype MarkToggle = ToggleWumpus | ToggleUnknown

  function ApplyToggle(room: RoomWord, t: MarkToggle): (r: RoomWord)
    ensures MarksExclusive(r) && SameOtherProps(r, room)
  {
    match t
    case ToggleWumpus => ToggleWumpusMark(room)
    case ToggleUnknown => ToggleUnknownMark(room)
  }

  /** The mark a toggle flips, and the mark it clears when it sets its own. */
  function ToggledMark(t: MarkToggle): RoomWord {
    if t.ToggleUnknown? then RP_MARK_UNKNOWN else RP_MARK_WUMPUS
  }

  function OtherMark(t: MarkToggle): RoomWord {
    if t.ToggleUnknown? then RP_MARK_WUMPUS else RP_MARK_UNKNOWN
  }

  /**
   * The in-place edit both toggles perform: clear the toggled mark if it is set,
   * else clear the other mark and set the toggled one.
   */
  lemma InPlaceToggle(room: RoomWord, t: MarkToggle)
    ensures ApplyToggle(room, t)
      == if Has(room, ToggledMark(t)) then Without(room, ToggledMark(t)) else Set(Without(room, OtherMark(t)), ToggledMark(t))
  {
  }

  /** The room after a sequence of mark toggles, first toggle first. */
  function ApplyToggles(room: RoomWord, ts: seq<MarkToggle>): RoomWord
    decreases |ts|
  {
    if ts == [] then room else ApplyToggles(ApplyToggle(room, ts[0]), ts[1..])
  }

  /**
   * However the player toggles marks on a room, it never carries both marks
   * afterwards, and the room's other properties survive untouched.
   */
  lemma {:induction false} TogglesKeepMarksExclusive(room: RoomWord, ts: seq<MarkToggle>)
    requires ts != [] || MarksExclusive(room)
    ensures MarksExclusive(ApplyToggles(room, ts))
    ensures SameOtherProps(ApplyToggles(room, ts), room)
    decreases |ts|
  {
    if ts != [] {
      var next := ApplyToggle(room, ts[0]);
      TogglesKeepMarksExclusive(next, ts[1..]);
      SameOtherPropsTransitive(ApplyToggles(room, ts), next, room);
    }
  }

  lemma ToggleWumpusTwice(room: RoomWord)
    requires !Has(room, RP_MARK_UNKNOWN)
    ensures ToggleWumpusMark(ToggleWumpusMark(room)) == room
  {
  }

  lemma ToggleUnknownTwice(room: RoomWord)
    requires !Has(room, RP_MARK_WUMPUS)
    ensures ToggleUnknownMark(ToggleUnknownMark(room)) == room
  {
  }

  /** Toggling the same mark twice restores a room that does not carry the other mark. */
  lemma ToggleTwiceRestores(room: RoomWord, t: MarkToggle)
    requires t == ToggleWumpus ==> !Has(room, RP_MARK_UNKNOWN)
    requires t == ToggleUnknown ==> !Has(room, RP_MARK_WUMPUS)
    ensures ApplyToggle(ApplyToggle(room, t), t) == room
  {
    match t
    case ToggleWumpus => ToggleWumpusTwice(room);
    case ToggleUnknown => ToggleUnknownTwice(room);
  }
}
