/** The level generator: one column at a time, and the initial strip. */
module Generator {
  import opened Config

  /** The two `Math.random()` results one column may consume: each in [0, 1). */
  datatype Draw = Draw(heightRoll: real, moneyRoll: real)

  predicate ValidDraw(d: Draw) {
    0.0 <= d.heightRoll < 1.0 && 0.0 <= d.moneyRoll < 1.0
  }

  predicate ValidDraws(ds: seq<Draw>) {
    forall i :: 0 <= i < |ds| ==> ValidDraw(ds[i])
  }

  /** One generated column. */
  datatype Column = Column(height: int, hasMoney: bool)

  function Min(a: int, b: int): int {
    if a < b then a else b
  }

  /** The highest column allowed after one of height `last`. */
  function MaxAllowedHeight(last: int): (m: int)
    ensures m <= last + MAX_COL_DELTA && m <= MAX_COL_HEIGHT
    ensures m == last + MAX_COL_DELTA || m == MAX_COL_HEIGHT
  {
    Min(last + MAX_COL_DELTA, MAX_COL_HEIGHT)
  }

  /** `Math.floor(roll * m) + MIN_COL_HEIGHT` for a roll in [0, 1) picks a height in [1, m]. */
  lemma RolledHeightInRange(roll: real, m: int)
    requires 0.0 <= roll < 1.0 && 1 <= m
    ensures MIN_COL_HEIGHT <= (roll * m as real).Floor + MIN_COL_HEIGHT <= m
  {
    var p := roll * m as real;
    assert 0.0 <= p;
    assert p < m as real by {
      assert m as real - p == (1.0 - roll) * m as real;
    }
  }

  /**
   * The column `drawRandomLevelColumn` appends. A truthy (non-zero) `forced`
   * height is taken as is and never carries money; otherwise the height is
   * rolled in [1, min(last + MAX_COL_DELTA, MAX_COL_HEIGHT)] from the last
   * column's height and the money flag is a second, independent roll.
   */
  function RandomLevelColumn(heights: seq<int>, forced: int, d: Draw): (c: Column)
    requires ValidDraw(d)
    requires forced != 0 || |heights| > 0
    ensures forced != 0 ==> c == Column(forced, false)
    ensures forced == 0 && heights[|heights| - 1] >= MIN_COL_HEIGHT ==>
      MIN_COL_HEIGHT <= c.height <= MaxAllowedHeight(heights[|heights| - 1])
    ensures forced == 0 ==> (c.hasMoney <==> d.moneyRoll < MONEY_PROBABILITY)
  {
    var height :=
      if forced != 0 then forced
      else
        var m := MaxAllowedHeight(heights[|heights| - 1]);
        if m >= 1 then RolledHeightInRange(d.heightRoll, m); (d.heightRoll * m as real).Floor + MIN_COL_HEIGHT
        else (d.heightRoll * m as real).Floor + MIN_COL_HEIGHT;
    Column(height, forced == 0 && d.moneyRoll < MONEY_PROBABILITY)
  }

  /** The roll a / b lies in [0, 1) and scales back to a. */
  lemma RollForHeight(a: int, b: int)
    requires 0 <= a < b
    ensures var q := a as real / b as real; 0.0 <= q < 1.0 && q * b as real == a as real
  {
    var q := a as real / b as real;
    assert q * b as real == a as real;
    assert (1.0 - q) * b as real == (b - a) as real;
  }

  /** Every height in [1, min(last + MAX_COL_DELTA, MAX_COL_HEIGHT)] is rolled by some draw:
      the bound is tight, and a column may drop to height 1 whatever its predecessor. */
  lemma EveryAllowedHeightReachable(heights: seq<int>, h: int)
    requires |heights| > 0 && heights[|heights| - 1] >= MIN_COL_HEIGHT
    requires MIN_COL_HEIGHT <= h <= MaxAllowedHeight(heights[|heights| - 1])
    ensures exists d :: ValidDraw(d) && RandomLevelColumn(heights, 0, d).height == h
  {
    var m := MaxAllowedHeight(heights[|heights| - 1]);
    var roll := (h - 1) as real / m as real;
    RollForHeight(h - 1, m);
    assert ((h - 1) as real).Floor == h - 1;
    var d := Draw(roll, 0.0);
    assert RandomLevelColumn(heights, 0, d).height == h;
  }

  /** The height `initLevel` forces for column x; 0 means "not forced". */
  function IntroHeight(x: int): (h: int)
    ensures h == 1 || h == 0
    ensures h != 0 <==> x < NUM_INTRO_TILES
  {
    if x == 1 || x < NUM_INTRO_TILES then 1 else 0
  }

  /** The first `n` columns `initLevel` generates, draw `ds[x]` serving column x. */
  function InitialColumns(n: nat, ds: seq<Draw>): (cols: (seq<int>, seq<bool>))
    requires n <= |ds| && ValidDraws(ds)
    ensures |cols.0| == n && |cols.1| == n
  {
    if n == 0 then ([], [])
    else
      var prev := InitialColumns(n - 1, ds);
      var c := RandomLevelColumn(prev.0, IntroHeight(n - 1), ds[n - 1]);
      (prev.0 + [c.height], prev.1 + [c.hasMoney])
  }

  /** The generator only looks at the last height, so columns built after earlier ones do not depend on them. */
  lemma ColumnIgnoresOlderHeights(older: seq<int>, heights: seq<int>, forced: int, d: Draw)
    requires ValidDraw(d) && (forced != 0 || |heights| > 0)
    ensures RandomLevelColumn(older + heights, forced, d) == RandomLevelColumn(heights, forced, d)
  {
    if forced == 0 {
      assert (older + heights)[|older + heights| - 1] == heights[|heights| - 1];
    }
  }

  /**
   * The strip `initLevel` builds: intro columns have height 1 and no money,
   * every height lies in [MIN_COL_HEIGHT, MAX_COL_HEIGHT], and no column rises
   * more than MAX_COL_DELTA above its left neighbour.
   */
  lemma {:induction false} InitialColumnsShape(n: nat, ds: seq<Draw>)
    requires n <= |ds| && ValidDraws(ds)
    ensures forall i :: 0 <= i < n && i < NUM_INTRO_TILES ==>
      InitialColumns(n, ds).0[i] == 1 && !InitialColumns(n, ds).1[i]
    ensures HeightsInRange(InitialColumns(n, ds).0)
    ensures UpwardBounded(InitialColumns(n, ds).0)
  {
    if n > 0 {
      InitialColumnsShape(n - 1, ds);
      var prev := InitialColumns(n - 1, ds);
      var c := RandomLevelColumn(prev.0, IntroHeight(n - 1), ds[n - 1]);
      assert InitialColumns(n, ds) == (prev.0 + [c.height], prev.1 + [c.hasMoney]);
      if n - 1 >= NUM_INTRO_TILES {
        assert prev.0[n - 2] >= MIN_COL_HEIGHT;
      }
    }
  }

  /** Every height lies in [MIN_COL_HEIGHT, MAX_COL_HEIGHT]. */
  predicate HeightsInRange(hs: seq<int>) {
    forall i :: 0 <= i < |hs| ==> MIN_COL_HEIGHT <= hs[i] <= MAX_COL_HEIGHT
  }

  /** Each column rises at most MAX_COL_DELTA tiles above its left neighbour (it may drop by any amount). */
  predicate UpwardBounded(hs: seq<int>) {
    forall i :: 0 < i < |hs| ==> hs[i] <= hs[i - 1] + MAX_COL_DELTA
  }
}
