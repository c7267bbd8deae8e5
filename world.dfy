/** The session object as a value, and the read-only column lookups on it. */
module World {
  import opened Wrappers
  import opened Config
  import opened Generator

  /** `state.player`: world-relative x (whole pixels), y and vertical velocity. */
  datatype Player = Player(x: int, y: real, v: real)

  /** The parts of `state` the game logic reads and writes. */
  datatype Game = Game(
    heights: seq<int>,     // column heights in tiles, leftmost buffered column first
    hasMoneys: seq<bool>,  // pickup flag per column, parallel to heights
    levelX: int,           // sub-tile scroll offset into the leftmost column
    score: real,
    player: Player)

  /** The object literal built before the level is generated. */
  function InitialGame(): (g: Game)
    ensures g.heights == [] && g.hasMoneys == [] && g.levelX == 0 && g.score == 0.0
    ensures g.player == Player(PLAYER_START_OFFSET, 0.0, 0.0)
  {
    Game([], [], 0, 0.0, Player(PLAYER_START_OFFSET, 0.0, 0.0))
  }

  /**
   * The session after `initLevel`: the start literal with a full generated strip,
   * whose intro columns are flat and empty and whose heights keep the level invariant.
   */
  function InitialLevel(ds: seq<Draw>): (g: Game)
    requires |ds| >= LEVEL_COLUMNS && ValidDraws(ds)
    ensures WellFormed(g) && g.levelX == 0 && g.score == 0.0
    ensures g.player == InitialGame().player
    ensures forall i :: 0 <= i < NUM_INTRO_TILES ==> g.heights[i] == 1 && !g.hasMoneys[i]
  {
    InitialColumnsShape(LEVEL_COLUMNS, ds);
    var cols := InitialColumns(LEVEL_COLUMNS, ds);
    InitialGame().(heights := cols.0, hasMoneys := cols.1)
  }

  /** The column under screen x: `floor((x + levelX) / TILE_SIZE)`. */
  function ColumnIndexAt(px: int, levelX: int): (col: int)
    ensures col * TILE_SIZE <= px + levelX < col * TILE_SIZE + TILE_SIZE
  {
    (px + levelX) / TILE_SIZE
  }

  /** The y of the top of the column under screen x; `None` outside the buffered window. */
  function ColumnTopAt(g: Game, px: int): (top: Option<int>)
    ensures top.Some? <==> 0 <= ColumnIndexAt(px, g.levelX) < |g.heights|
    ensures top.Some? && MIN_COL_HEIGHT <= g.heights[ColumnIndexAt(px, g.levelX)] <= MAX_COL_HEIGHT ==>
      SCREEN_HEIGHT - MAX_COL_HEIGHT * TILE_SIZE <= top.value <= SCREEN_HEIGHT - TILE_SIZE
  {
    var col := ColumnIndexAt(px, g.levelX);
    if 0 <= col < |g.heights| then Some(SCREEN_HEIGHT - g.heights[col] * TILE_SIZE) else None
  }

  /** The pickup flag under screen x; a lookup outside the window reads as no pickup. */
  function HasMoneyAt(g: Game, px: int): (b: bool)
    ensures b <==> 0 <= ColumnIndexAt(px, g.levelX) < |g.hasMoneys| && g.hasMoneys[ColumnIndexAt(px, g.levelX)]
    ensures px + g.levelX < 0 ==> !b
  {
    var col := ColumnIndexAt(px, g.levelX);
    0 <= col < |g.hasMoneys| && g.hasMoneys[col]
  }

  /** A full strip of parallel columns, and a scroll offset short of a whole tile. */
  predicate Shaped(g: Game) {
    && |g.heights| == LEVEL_COLUMNS
    && |g.hasMoneys| == LEVEL_COLUMNS
    && 0 <= g.levelX < TILE_SIZE
  }

  /** The invariant of a running session between frames. */
  predicate WellFormed(g: Game) {
    && Shaped(g)
    && HeightsInRange(g.heights)
    && UpwardBounded(g.heights)
  }

  /** With heights in range every column top lies in [40, 220], so it is never 0 (never falsy). */
  lemma TopsInRange(g: Game, px: int)
    requires HeightsInRange(g.heights)
    ensures ColumnTopAt(g, px).Some? ==> 40 <= ColumnTopAt(g, px).value <= 220
  {
    var col := ColumnIndexAt(px, g.levelX);
    if 0 <= col < |g.heights| {
      assert MIN_COL_HEIGHT <= g.heights[col] <= MAX_COL_HEIGHT;
    }
  }
}
