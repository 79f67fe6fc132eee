/**
 * The world's rules stated on values: a row-major grid of room words, the
 * bounds-clipped validity kernel, selection steps, adjacency and the outcome
 * of a committed move. The World class (World.dfy) is proved against these.
 */
module Grid {
  import opened Rooms

  /** A room coordinate: column x, row y. */
  datatype Pos = Pos(x: int, y: int)

  /** World::MoveDirection */
  datatype Direction = Up | Down | Left | Right

  /** World::RawData: dimensions, start position and the row-major room words. */
  datatype RawData = RawData(width: int, height: int, startX: int, startY: int, data: seq<RoomWord>)

  predicate InBounds(w: int, h: int, p: Pos) {
    0 <= p.x < w && 0 <= p.y < h
  }

  /** `cells` holds exactly a w x h grid in row-major order. */
  predicate IsGrid(cells: seq<RoomWord>, w: int, h: int) {
    0 <= w && 0 <= h && |cells| == w * h
  }

  /** Row-major addressing stays inside the buffer. */
  lemma CellIndexInRange(w: int, h: int, x: int, y: int)
    requires 0 <= x < w && 0 <= y < h
    ensures 0 <= y * w + x < w * h
  {
    assert y * w <= (h - 1) * w by {
      assert 0 <= (h - 1 - y) * w;
    }
  }

  /** The word of room p. */
  function Cell(cells: seq<RoomWord>, w: int, h: int, p: Pos): RoomWord
    requires IsGrid(cells, w, h) && InBounds(w, h, p)
  {
    CellIndexInRange(w, h, p.x, p.y);
    cells[p.y * w + p.x]
  }

  /** Row y's slots start y rows of w further on than row 0's. */
  lemma RowsApart(w: int, a: int, b: int)
    requires 0 < w && a < b
    ensures a * w + w <= b * w
  {
    var k := b - a;
    assert b * w == a * w + k * w;
    assert k * w >= w by {
      assert (k - 1) * w >= 0;
    }
  }

  /** Two rooms share a buffer slot only if they are the same room. */
  lemma CellIndexInjective(w: int, h: int, p: Pos, q: Pos)
    requires InBounds(w, h, p) && InBounds(w, h, q)
    requires p.y * w + p.x == q.y * w + q.x
    ensures p == q
  {
    if p.y < q.y {
      RowsApart(w, p.y, q.y);
    } else if q.y < p.y {
      RowsApart(w, q.y, p.y);
    }
  }

  /** The grid with room q's word replaced by v; every other room keeps its word. */
  function WithCell(cells: seq<RoomWord>, w: int, h: int, q: Pos, v: RoomWord): (r: seq<RoomWord>)
    requires IsGrid(cells, w, h) && InBounds(w, h, q)
    ensures IsGrid(r, w, h) && Cell(r, w, h, q) == v
    ensures forall p :: InBounds(w, h, p) && p != q ==> Cell(r, w, h, p) == Cell(cells, w, h, p)
  {
    CellIndexInRange(w, h, q.x, q.y);
    var r := cells[q.y * w + q.x := v];
    forall p | InBounds(w, h, p) && p != q
      ensures Cell(r, w, h, p) == Cell(cells, w, h, p)
    {
      CellIndexInRange(w, h, p.x, p.y);
      if p.y * w + p.x == q.y * w + q.x {
        CellIndexInjective(w, h, p, q);
      }
    }
    r
  }

  /** The updated grid is the row-major sequence with one slot replaced. */
  lemma WithCellAt(cells: seq<RoomWord>, w: int, h: int, q: Pos, v: RoomWord)
    requires IsGrid(cells, w, h) && InBounds(w, h, q)
    ensures 0 <= q.y * w + q.x < |cells| && WithCell(cells, w, h, q, v) == cells[q.y * w + q.x := v]
  {
    CellIndexInRange(w, h, q.x, q.y);
  }

  /**
   * A grid taken as the first w * h words of a longer buffer reads back room
   * (x, y) from slot y * w + x of that buffer.
   */
  lemma PrefixGridCell(data: seq<RoomWord>, w: int, h: int, p: Pos)
    requires 0 <= w && 0 <= h && w * h <= |data| && InBounds(w, h, p)
    ensures IsGrid(data[..w * h], w, h)
    ensures 0 <= p.y * w + p.x < |data| && Cell(data[..w * h], w, h, p) == data[p.y * w + p.x]
  {
    CellIndexInRange(w, h, p.x, p.y);
  }

  /** p is inside the grid and holds a room (RP_VALID). Outside the grid it is false. */
  predicate ValidAt(cells: seq<RoomWord>, w: int, h: int, p: Pos)
    requires IsGrid(cells, w, h)
  {
    InBounds(w, h, p) && Has(Cell(cells, w, h, p), RP_VALID)
  }

  /** p is inside the grid and holds the wumpus. */
  predicate WumpusAt(cells: seq<RoomWord>, w: int, h: int, p: Pos)
    requires IsGrid(cells, w, h)
  {
    InBounds(w, h, p) && Has(Cell(cells, w, h, p), RP_WUMPUS)
  }

  /** Entry [row][col] of a 3x3 kernel stored row by row. */
  function KernelAt(k: seq<bool>, row: int, col: int): bool
    requires |k| == 9 && 0 <= row < 3 && 0 <= col < 3
  {
    k[3 * row + col]
  }

  /** One row of a kernel: the validity of rooms x - 1, x and x + 1 of grid row y. */
  function KernelRow(cells: seq<RoomWord>, w: int, h: int, x: int, y: int): seq<bool>
    requires IsGrid(cells, w, h)
  {
    [ValidAt(cells, w, h, Pos(x - 1, y)), ValidAt(cells, w, h, Pos(x, y)), ValidAt(cells, w, h, Pos(x + 1, y))]
  }

  /** Rows 0 .. n - 1 of the kernel around p, one after the other; row r lies on grid row p.y + r - 1. */
  function KernelRows(cells: seq<RoomWord>, w: int, h: int, p: Pos, n: nat): (k: seq<bool>)
    requires IsGrid(cells, w, h)
    ensures |k| == 3 * n
  {
    if n == 0 then [] else KernelRows(cells, w, h, p, n - 1) + KernelRow(cells, w, h, p.x, p.y + n - 2)
  }

  /**
   * The 3x3 kernel around room p, row by row: the validity of room p and of
   * its eight neighbours, with everything off the grid invalid.
   */
  function KernelOf(cells: seq<RoomWord>, w: int, h: int, p: Pos): (k: seq<bool>)
    requires IsGrid(cells, w, h)
    ensures |k| == 9
  {
    KernelRows(cells, w, h, p, 3)
  }

  /** The kernel around p is the rows above, through and below p. */
  lemma KernelOfRows(cells: seq<RoomWord>, w: int, h: int, p: Pos)
    requires IsGrid(cells, w, h)
    ensures KernelOf(cells, w, h, p)
      == KernelRow(cells, w, h, p.x, p.y - 1) + KernelRow(cells, w, h, p.x, p.y) + KernelRow(cells, w, h, p.x, p.y + 1)
  {
    assert KernelRows(cells, w, h, p, 1) == KernelRow(cells, w, h, p.x, p.y - 1);
    assert KernelRows(cells, w, h, p, 2) == KernelRows(cells, w, h, p, 1) + KernelRow(cells, w, h, p.x, p.y);
  }

  /**
   * Entry [row][col] of the kernel is the room at offset (col - 1, row - 1)
   * from p: its centre is p itself, and an entry is true only for a valid room
   * on the grid.
   */
  lemma KernelOfNeighbours(cells: seq<RoomWord>, w: int, h: int, p: Pos)
    requires IsGrid(cells, w, h)
    ensures forall row, col :: 0 <= row < 3 && 0 <= col < 3 ==>
      (KernelAt(KernelOf(cells, w, h, p), row, col) <==> ValidAt(cells, w, h, Pos(p.x + col - 1, p.y + row - 1)))
    ensures forall row, col :: 0 <= row < 3 && 0 <= col < 3 && KernelAt(KernelOf(cells, w, h, p), row, col) ==>
      InBounds(w, h, Pos(p.x + col - 1, p.y + row - 1))
  {
    KernelOfEntries(cells, w, h, p);
    var k := KernelOf(cells, w, h, p);
    forall row, col | 0 <= row < 3 && 0 <= col < 3
      ensures KernelAt(k, row, col) <==> ValidAt(cells, w, h, Pos(p.x + col - 1, p.y + row - 1))
    {
      // One case per entry: each case is then one clause of KernelOfEntries.
      if row == 0 {
        if col == 0 {} else if col == 1 {} else {}
      } else if row == 1 {
        if col == 0 {} else if col == 1 {} else {}
      } else {
        if col == 0 {} else if col == 1 {} else {}
      }
    }
  }

  /** The kernel around p entry by entry, row by row. */
  lemma KernelOfEntries(cells: seq<RoomWord>, w: int, h: int, p: Pos)
    requires IsGrid(cells, w, h)
    ensures var k := KernelOf(cells, w, h, p);
      && k[0] == ValidAt(cells, w, h, Pos(p.x - 1, p.y - 1)) && k[1] == ValidAt(cells, w, h, Pos(p.x, p.y - 1))
      && k[2] == ValidAt(cells, w, h, Pos(p.x + 1, p.y - 1)) && k[3] == ValidAt(cells, w, h, Pos(p.x - 1, p.y))
      && k[4] == ValidAt(cells, w, h, Pos(p.x, p.y)) && k[5] == ValidAt(cells, w, h, Pos(p.x + 1, p.y))
      && k[6] == ValidAt(cells, w, h, Pos(p.x - 1, p.y + 1)) && k[7] == ValidAt(cells, w, h, Pos(p.x, p.y + 1))
      && k[8] == ValidAt(cells, w, h, Pos(p.x + 1, p.y + 1))
  {
    KernelOfRows(cells, w, h, p);
  }

  function Abs(n: int): nat {
    if n < 0 then -n else n
  }

  /** Manhattan distance, as `move` computes it. */
  function Distance(a: Pos, b: Pos): nat {
    Abs(a.x - b.x) + Abs(a.y - b.y)
  }

  /** The room one step from p in direction d (row 0 is the top). */
  function Neighbour(p: Pos, d: Direction): (q: Pos)
    ensures Distance(p, q) == 1
  {
    match d
    case Up => Pos(p.x, p.y - 1)
    case Down => Pos(p.x, p.y + 1)
    case Left => Pos(p.x - 1, p.y)
    case Right => Pos(p.x + 1, p.y)
  }

  /** Distance 1 is exactly the four orthogonal neighbours; diagonals are at distance 2. */
  lemma AdjacentIffNeighbour(a: Pos, b: Pos)
    ensures Distance(a, b) == 1 <==> exists d :: Neighbour(a, d) == b
  {
    if Distance(a, b) == 1 {
      if b.y < a.y {
        assert Neighbour(a, Up) == b;
      } else if b.y > a.y {
        assert Neighbour(a, Down) == b;
      } else if b.x < a.x {
        assert Neighbour(a, Left) == b;
      } else {
        assert Neighbour(a, Right) == b;
      }
    }
  }

  /**
   * Where `moveSelection(d)` puts a selection at p: one step in direction d
   * when that room is on the grid and valid, otherwise nowhere.
   */
  function Step(cells: seq<RoomWord>, w: int, h: int, p: Pos, d: Direction): (q: Pos)
    requires IsGrid(cells, w, h) && InBounds(w, h, p)
    ensures InBounds(w, h, q)
    ensures q == if ValidAt(cells, w, h, Neighbour(p, d)) then Neighbour(p, d) else p
  {
    match d
    case Up =>
      if p.y > 0 && Has(Cell(cells, w, h, Pos(p.x, p.y - 1)), RP_VALID) then Pos(p.x, p.y - 1) else p
    case Down =>
      if p.y < h - 1 && Has(Cell(cells, w, h, Pos(p.x, p.y + 1)), RP_VALID) then Pos(p.x, p.y + 1) else p
    case Left =>
      if p.x > 0 && Has(Cell(cells, w, h, Pos(p.x - 1, p.y)), RP_VALID) then Pos(p.x - 1, p.y) else p
    case Right =>
      if p.x < w - 1 && Has(Cell(cells, w, h, Pos(p.x + 1, p.y)), RP_VALID) then Pos(p.x + 1, p.y) else p
  }

  /** A step changes at most one coordinate, by exactly one, and only onto a valid room. */
  lemma StepMovesAtMostOne(cells: seq<RoomWord>, w: int, h: int, p: Pos, d: Direction)
    requires IsGrid(cells, w, h) && InBounds(w, h, p)
    ensures var q := Step(cells, w, h, p, d);
      (q == p || (Distance(p, q) == 1 && ValidAt(cells, w, h, q)))
      && (q.x == p.x || q.y == p.y)
  {
  }

  /** The selection after n presses of the same direction key. */
  function StepN(cells: seq<RoomWord>, w: int, h: int, p: Pos, d: Direction, n: nat): (q: Pos)
    requires IsGrid(cells, w, h) && InBounds(w, h, p)
    ensures InBounds(w, h, q)
    decreases n
  {
    if n == 0 then p else StepN(cells, w, h, Step(cells, w, h, p, d), d, n - 1)
  }

  /** Pressing a + b times is pressing a times and then b times. */
  lemma {:induction false} StepNAdd(cells: seq<RoomWord>, w: int, h: int, p: Pos, d: Direction, a: nat, b: nat)
    requires IsGrid(cells, w, h) && InBounds(w, h, p)
    ensures StepN(cells, w, h, p, d, a + b) == StepN(cells, w, h, StepN(cells, w, h, p, d, a), d, b)
    decreases a
  {
    if a > 0 {
      StepNAdd(cells, w, h, Step(cells, w, h, p, d), d, a - 1, b);
    }
  }

  /** Pushing against a wall, however often, leaves the selection where it is. */
  lemma {:induction false} WallIsFixedPoint(cells: seq<RoomWord>, w: int, h: int, p: Pos, d: Direction, n: nat)
    requires IsGrid(cells, w, h) && InBounds(w, h, p)
    requires !ValidAt(cells, w, h, Neighbour(p, d))
    ensures StepN(cells, w, h, p, d, n) == p
    decreases n
  {
    if n > 0 {
      WallIsFixedPoint(cells, w, h, p, d, n - 1);
    }
  }

  /**
   * Once the selection has stopped against a wall after k presses, every
   * further press in the same direction leaves it at that last valid room.
   */
  lemma StopsAtLastValidRoom(cells: seq<RoomWord>, w: int, h: int, p: Pos, d: Direction, k: nat, m: nat)
    requires IsGrid(cells, w, h) && InBounds(w, h, p)
    requires !ValidAt(cells, w, h, Neighbour(StepN(cells, w, h, p, d, k), d))
    ensures StepN(cells, w, h, p, d, k + m) == StepN(cells, w, h, p, d, k)
  {
    StepNAdd(cells, w, h, p, d, k, m);
    WallIsFixedPoint(cells, w, h, StepN(cells, w, h, p, d, k), d, m);
  }

  /** Reference meaning of `isNearWumpus`: some room at distance 1 from p holds the wumpus. */
  ghost predicate WumpusNearby(cells: seq<RoomWord>, w: int, h: int, p: Pos)
    requires IsGrid(cells, w, h)
  {
    exists q :: Distance(p, q) == 1 && WumpusAt(cells, w, h, q)
  }

  /** The four bounds-guarded checks of `isNearWumpus` decide exactly WumpusNearby. */
  lemma WumpusNearbyCases(cells: seq<RoomWord>, w: int, h: int, p: Pos)
    requires IsGrid(cells, w, h) && InBounds(w, h, p)
    ensures WumpusNearby(cells, w, h, p) <==>
      (p.x > 0 && Has(Cell(cells, w, h, Pos(p.x - 1, p.y)), RP_WUMPUS)) ||
      (p.x < w - 1 && Has(Cell(cells, w, h, Pos(p.x + 1, p.y)), RP_WUMPUS)) ||
      (p.y > 0 && Has(Cell(cells, w, h, Pos(p.x, p.y - 1)), RP_WUMPUS)) ||
      (p.y < h - 1 && Has(Cell(cells, w, h, Pos(p.x, p.y + 1)), RP_WUMPUS))
  {
    if WumpusNearby(cells, w, h, p) {
      var q :| Distance(p, q) == 1 && WumpusAt(cells, w, h, q);
      AdjacentIffNeighbour(p, q);
      var d :| Neighbour(p, d) == q;
    } else {
      assert !WumpusAt(cells, w, h, Pos(p.x - 1, p.y));
      assert !WumpusAt(cells, w, h, Pos(p.x + 1, p.y));
      assert !WumpusAt(cells, w, h, Pos(p.x, p.y - 1));
      assert !WumpusAt(cells, w, h, Pos(p.x, p.y + 1));
    }
  }

  /** Which message path a committed move takes. */
  datatype Outcome = Lose | Win | Warning | Clear {
    /** Lose and win set the game-over latch. */
    predicate EndsGame() {
      this == Lose || this == Win
    }
  }

  /**
   * The outcome of entering a room, in the order `move` tests them: the
   * wumpus, then the treasure, then a wumpus next door, otherwise nothing.
   */
  function MoveOutcome(room: RoomWord, wumpusNearby: bool): (o: Outcome)
    ensures o == Lose <==> Has(room, RP_WUMPUS)
    ensures o == Win <==> !Has(room, RP_WUMPUS) && Has(room, RP_TREASURE)
    ensures o == Warning <==> !Has(room, RP_WUMPUS) && !Has(room, RP_TREASURE) && wumpusNearby
    ensures o.EndsGame() <==> Has(room, RP_WUMPUS) || Has(room, RP_TREASURE)
  {
    if Has(room, RP_WUMPUS) then Lose
    else if Has(room, RP_TREASURE) then Win
    else if wumpusNearby then Warning
    else Clear
  }

  // The compiled-in layout (World::myDefaultRoomData, myDefaultRawData).
  const V: RoomWord := RP_VALID
  const DEFAULT_ROOM_DATA: seq<RoomWord> := [
    0, 0, V,            V | RP_TREASURE, V, 0,            0,
    0, V, V | RP_WUMPUS, V,               V, V,            0,
    V, V, V,            V,               V, V | RP_WUMPUS, V,
    V, V, V,            V,               V, V,            V,
    0, V, V,            V,               V, V,            0,
    0, 0, V,            V,               V, 0,            0
  ]
  const DEFAULT_RAW_DATA: RawData := RawData(7, 6, 3, 5, DEFAULT_ROOM_DATA)

  /** With valid rooms in the k rows above p, k presses of "up" climb exactly k rows. */
  lemma {:induction false} WalkUp(cells: seq<RoomWord>, w: int, h: int, p: Pos, k: nat)
    requires IsGrid(cells, w, h) && InBounds(w, h, p) && k <= p.y
    requires forall y :: p.y - k <= y < p.y ==> ValidAt(cells, w, h, Pos(p.x, y))
    ensures StepN(cells, w, h, p, Up, k) == Pos(p.x, p.y - k)
    decreases k
  {
    if k > 0 {
      assert ValidAt(cells, w, h, Pos(p.x, p.y - 1));
      assert Step(cells, w, h, p, Up) == Pos(p.x, p.y - 1);
      WalkUp(cells, w, h, Pos(p.x, p.y - 1), k - 1);
    }
  }

  /** In the default layout, five presses of "up" from the start (3,5) reach (3,0) in the top row. */
  lemma DefaultUpFive()
    ensures IsGrid(DEFAULT_ROOM_DATA, 7, 6)
    ensures StepN(DEFAULT_ROOM_DATA, 7, 6, Pos(3, 5), Up, 5) == Pos(3, 0)
  {
    DefaultColumnThree();
    WalkUp(DEFAULT_ROOM_DATA, 7, 6, Pos(3, 5), 5);
  }

  /**
   * Five or more presses of "up" from the start (3,5) select (3,0), the
   * treasure room, and stop there; a move into it is a win.
   */
  lemma DefaultUpReachesTreasure(extra: nat)
    ensures IsGrid(DEFAULT_ROOM_DATA, 7, 6)
    ensures StepN(DEFAULT_ROOM_DATA, 7, 6, Pos(3, 5), Up, 5 + extra) == Pos(3, 0)
    ensures MoveOutcome(Cell(DEFAULT_ROOM_DATA, 7, 6, Pos(3, 0)), false) == Win
  {
    DefaultUpFive();
    StopsAtLastValidRoom(DEFAULT_ROOM_DATA, 7, 6, Pos(3, 5), Up, 5, extra);
    DefaultColumnThree();
  }

  /**
   * The treasure room is five rooms from the start, so committing the move
   * straight after selecting it is a bad move; the win needs the player to
   * stand on (3,1), the valid room below it, first.
   */
  lemma DefaultTreasureApproach()
    ensures IsGrid(DEFAULT_ROOM_DATA, 7, 6)
    ensures Distance(Pos(3, 5), Pos(3, 0)) == 5
    ensures ValidAt(DEFAULT_ROOM_DATA, 7, 6, Pos(3, 1)) && Distance(Pos(3, 1), Pos(3, 0)) == 1
  {
    DefaultColumnThree();
    assert ValidAt(DEFAULT_ROOM_DATA, 7, 6, Pos(3, 1));
  }

  lemma DefaultColumnThree()
    ensures IsGrid(DEFAULT_ROOM_DATA, 7, 6)
    ensures forall y :: 0 <= y < 6 ==> ValidAt(DEFAULT_ROOM_DATA, 7, 6, Pos(3, y))
    ensures Has(Cell(DEFAULT_ROOM_DATA, 7, 6, Pos(3, 0)), RP_TREASURE)
    ensures !Has(Cell(DEFAULT_ROOM_DATA, 7, 6, Pos(3, 0)), RP_WUMPUS)
  {
    var cells := DEFAULT_ROOM_DATA;
    assert cells[3] == V | RP_TREASURE;
    assert cells[10] == V && cells[17] == V && cells[24] == V && cells[31] == V && cells[38] == V;
  }

  /** In the default layout the room (2,2) lies next to the wumpus at (2,1). */
  lemma DefaultWumpusNeighbour()
    ensures IsGrid(DEFAULT_ROOM_DATA, 7, 6)
    ensures WumpusNearby(DEFAULT_ROOM_DATA, 7, 6, Pos(2, 2))
    ensures MoveOutcome(Cell(DEFAULT_ROOM_DATA, 7, 6, Pos(2, 1)), false) == Lose
  {
    assert WumpusAt(DEFAULT_ROOM_DATA, 7, 6, Pos(2, 1));
  }
}
