/** The recycle step of the scrolling strip. */
module Scroll {
  import opened Config
  import opened Generator
  import opened World

  /**
   * `updateLevelIfNecessary`: nothing happens until the scroll offset reaches a
   * whole tile; then one generated column is pushed on the right, the leftmost
   * column is shifted off, and the offset returns to 0.
   */
  function UpdateLevelIfNecessary(g: Game, d: Draw): (r: Game)
    requires ValidDraw(d)
    requires g.levelX == TILE_SIZE ==> |g.heights| > 0
    ensures r.score == g.score && r.player == g.player
    ensures g.levelX != TILE_SIZE ==> r == g
  {
    if g.levelX != TILE_SIZE then g
    else
      var c := RandomLevelColumn(g.heights, 0, d);
      g.(heights := (g.heights + [c.height])[1..],
         hasMoneys := (g.hasMoneys + [c.hasMoney])[1..],
         levelX := 0)
  }

  /**
   * When it fires on a strip of equal-length columns, the recycle keeps the
   * length, drops the first entry of both sequences, appends one column whose
   * height is bounded by the old last height, and keeps the strip well formed
   * apart from the offset it resets.
   */
  lemma RecycleShiftsWindow(g: Game, d: Draw)
    requires ValidDraw(d) && g.levelX == TILE_SIZE
    requires |g.heights| == |g.hasMoneys| == LEVEL_COLUMNS
    requires HeightsInRange(g.heights) && UpwardBounded(g.heights)
    ensures var r := UpdateLevelIfNecessary(g, d);
      && r.levelX == 0
      && |r.heights| == LEVEL_COLUMNS && |r.hasMoneys| == LEVEL_COLUMNS
      && r.heights[..LEVEL_COLUMNS - 1] == g.heights[1..]
      && r.hasMoneys[..LEVEL_COLUMNS - 1] == g.hasMoneys[1..]
      && r.hasMoneys[LEVEL_COLUMNS - 1] == (d.moneyRoll < MONEY_PROBABILITY)
      && MIN_COL_HEIGHT <= r.heights[LEVEL_COLUMNS - 1] <= MaxAllowedHeight(g.heights[LEVEL_COLUMNS - 1])
      && HeightsInRange(r.heights) && UpwardBounded(r.heights)
  {
    var r := UpdateLevelIfNecessary(g, d);
    var last := g.heights[LEVEL_COLUMNS - 1];
    assert MIN_COL_HEIGHT <= last;
    var c := RandomLevelColumn(g.heights, 0, d);
    assert r.heights == g.heights[1..] + [c.height];
    assert r.hasMoneys == g.hasMoneys[1..] + [c.hasMoney];
    forall i | 0 < i < |r.heights|
      ensures r.heights[i] <= r.heights[i - 1] + MAX_COL_DELTA
    {
      if i < LEVEL_COLUMNS - 1 {
        assert r.heights[i] == g.heights[i + 1] && r.heights[i - 1] == g.heights[i];
      }
    }
  }
}
