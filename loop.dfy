/** The per-frame update, the end-of-game condition and the rescheduling of frames. */
module Loop {
  import opened Config
  import opened Generator
  import opened World
  import opened Physics
  import opened Input
  import opened Scroll

  /**
   * What one animation frame consumes from outside the game logic: the
   * frame's `dt / 1e13`, the handlers `kd.tick()` fires, in order, and the
   * random draws the recycle step may use.
   */
  datatype FrameInput = FrameInput(step: real, keys: seq<Key>, draw: Draw)

  predicate ValidFrames(fs: seq<FrameInput>) {
    forall i :: 0 <= i < |fs| ==> ValidDraw(fs[i].draw)
  }

  /** `isGameOver`: the player's right edge has scrolled past the left edge of the screen. */
  function IsGameOver(g: Game): (over: bool)
    ensures over <==> g.player.x + PLAYER_WIDTH <= 0
  {
    g.player.x <= -PLAYER_WIDTH
  }

  /** The scroll of one frame: the strip moves one pixel left under the player. */
  function Advance(g: Game): Game {
    g.(levelX := g.levelX + 1, player := g.player.(x := g.player.x - 1))
  }

  /**
   * One call of `update`, in its fixed order: forces, key handlers, pickups,
   * scroll, recycle, score drift. The recycle needs a last column when the
   * offset is about to reach a whole tile.
   */
  function Update(g: Game, f: FrameInput): Game
    requires ValidDraw(f.draw)
    requires g.levelX == TILE_SIZE - 1 ==> |g.heights| > 0
  {
    var g1 := ApplyForces(g, f.step);
    var g2 := HandleKeys(g1, f.keys);
    var g3 := GrabMoneyUnderPlayer(g2);
    var g4 := Advance(g3);
    var g5 := UpdateLevelIfNecessary(g4, f.draw);
    g5.(score := g5.score + SCORE_DELTA_PER_FRAME)
  }

  /** A frame keeps the strip's length and advances the scroll offset by one, wrapping at a whole tile. */
  lemma UpdateKeepsShape(g: Game, f: FrameInput)
    requires Shaped(g) && ValidDraw(f.draw)
    ensures var r := Update(g, f);
      Shaped(r) && r.levelX == (if g.levelX == TILE_SIZE - 1 then 0 else g.levelX + 1)
  {
    var g3 := GrabMoneyUnderPlayer(HandleKeys(ApplyForces(g, f.step), f.keys));
    assert g3.heights == g.heights && |g3.hasMoneys| == LEVEL_COLUMNS;
  }

  /**
   * A frame keeps the session well formed; the strip is untouched except in
   * the frame where the offset wraps, which shifts it by one column and
   * appends one bounded by the old last height.
   */
  lemma UpdateKeepsWellFormed(g: Game, f: FrameInput)
    requires WellFormed(g) && ValidDraw(f.draw)
    ensures var r := Update(g, f);
      && WellFormed(r)
      && r.levelX == (if g.levelX == TILE_SIZE - 1 then 0 else g.levelX + 1)
      && (g.levelX < TILE_SIZE - 1 ==> r.heights == g.heights)
      && (g.levelX == TILE_SIZE - 1 ==>
            && r.heights[..LEVEL_COLUMNS - 1] == g.heights[1..]
            && r.heights[LEVEL_COLUMNS - 1] <= MaxAllowedHeight(g.heights[LEVEL_COLUMNS - 1]))
  {
    var g1 := ApplyForces(g, f.step);
    var g2 := HandleKeys(g1, f.keys);
    var g3 := GrabMoneyUnderPlayer(g2);
    var g4 := Advance(g3);
    assert g4.heights == g.heights && |g4.hasMoneys| == LEVEL_COLUMNS;
    if g4.levelX == TILE_SIZE {
      RecycleShiftsWindow(g4, f.draw);
    }
  }

  /** The pickups one frame collects: the flags its `grabMoneyUnderPlayer` call clears. */
  function Collected(g: Game, f: FrameInput): nat {
    var g2 := HandleKeys(ApplyForces(g, f.step), f.keys);
    Flips(g2.hasMoneys, GrabMoneyUnderPlayer(g2).hasMoneys)
  }

  /** One frame adds SCORE_DELTA_PER_FRAME plus MONEY_SCORE per pickup it collects, at most two: the score never drops. */
  lemma UpdateScore(g: Game, f: FrameInput)
    requires ValidDraw(f.draw)
    requires g.levelX == TILE_SIZE - 1 ==> |g.heights| > 0
    ensures Update(g, f).score == g.score + SCORE_DELTA_PER_FRAME + MONEY_SCORE as real * Collected(g, f) as real
    ensures Collected(g, f) <= 2
    ensures var gain := Update(g, f).score - g.score;
      gain == SCORE_DELTA_PER_FRAME || gain == SCORE_DELTA_PER_FRAME + 100.0 || gain == SCORE_DELTA_PER_FRAME + 200.0
  {
    var g2 := HandleKeys(ApplyForces(g, f.step), f.keys);
    GrabMoneyEffect(g2);
  }

  /**
   * A frame never sets a pickup flag: a cleared flag stays cleared, one
   * column further left in the frame where the offset wraps. The only flag a
   * frame can introduce is that of the appended column, set exactly when the
   * money roll is below MONEY_PROBABILITY.
   */
  lemma UpdateOnlyClearsMoney(g: Game, f: FrameInput)
    requires WellFormed(g) && ValidDraw(f.draw)
    ensures var r := Update(g, f);
      && (g.levelX < TILE_SIZE - 1 ==> OnlyClears(g.hasMoneys, r.hasMoneys))
      && (g.levelX == TILE_SIZE - 1 ==>
            && OnlyClears(g.hasMoneys[1..], r.hasMoneys[..LEVEL_COLUMNS - 1])
            && r.hasMoneys[LEVEL_COLUMNS - 1] == (f.draw.moneyRoll < MONEY_PROBABILITY))
  {
    var g2 := HandleKeys(ApplyForces(g, f.step), f.keys);
    var g3 := GrabMoneyUnderPlayer(g2);
    GrabMoneyEffect(g2);
    var g4 := Advance(g3);
    assert g4.hasMoneys == g3.hasMoneys && g2.hasMoneys == g.hasMoneys;
    if g4.levelX == TILE_SIZE {
      RecycleShiftsWindow(g4, f.draw);
      var r := Update(g, f);
      assert r.hasMoneys[..LEVEL_COLUMNS - 1] == g3.hasMoneys[1..];
      forall i | 0 <= i < LEVEL_COLUMNS - 1 && g3.hasMoneys[1..][i]
        ensures g.hasMoneys[1..][i]
      {
        assert g3.hasMoneys[1..][i] == g3.hasMoneys[i + 1];
      }
    }
  }

  /** Without input, a frame moves the player 1 pixel left for the scroll, or 2 when the wall nudge fires too. */
  lemma UpdateWithoutKeys(g: Game, f: FrameInput)
    requires ValidDraw(f.draw) && f.keys == []
    requires g.levelX == TILE_SIZE - 1 ==> |g.heights| > 0
    ensures var x := Update(g, f).player.x;
      x == g.player.x - 1 - (if WillIntersectBoxes(g, g.player.x + PLAYER_WIDTH - 1) then 1 else 0)
  {
    ApplyForcesEffect(g, f.step);
  }

  /**
   * The `requestAnimationFrame` chain: frames run one after another while the
   * game is not over. Returns the final state and the number of frames run.
   */
  function Play(g: Game, fs: seq<FrameInput>): (Game, nat)
    requires Shaped(g) && ValidFrames(fs)
    decreases |fs|, 1
  {
    if fs == [] then (g, 0)
    else
      UpdateKeepsShape(g, fs[0]);
      ValidFramesTail(fs);
      Continue(Update(g, fs[0]), fs[1..])
  }

  /** The end of `update`, after a frame that produced `next`: stop at game over, otherwise schedule the frames `rest`. */
  function Continue(next: Game, rest: seq<FrameInput>): (Game, nat)
    requires Shaped(next) && ValidFrames(rest)
    decreases |rest| + 1, 0
  {
    if IsGameOver(next) then (next, 1)
    else
      var played := Play(next, rest);
      (played.0, played.1 + 1)
  }

  lemma ValidFramesTail(fs: seq<FrameInput>)
    requires ValidFrames(fs) && fs != []
    ensures ValidFrames(fs[1..])
  {
    forall i | 0 <= i < |fs| - 1 ensures ValidDraw(fs[1..][i].draw) {
      assert fs[1..][i] == fs[i + 1];
    }
  }

  /** Play resumed at frame `n`: frame `n`, then either game over or the frames after it. */
  lemma PlayFrom(g: Game, fs: seq<FrameInput>, n: nat)
    requires Shaped(g) && ValidFrames(fs) && n < |fs|
    ensures Shaped(Update(g, fs[n]))
    ensures IsGameOver(Update(g, fs[n])) ==> Play(g, fs[n..]) == (Update(g, fs[n]), 1)
    ensures !IsGameOver(Update(g, fs[n])) ==> Play(g, fs[n..]).0 == Play(Update(g, fs[n]), fs[n + 1..]).0
    ensures !IsGameOver(Update(g, fs[n])) ==> Play(g, fs[n..]).1 == Play(Update(g, fs[n]), fs[n + 1..]).1 + 1
  {
    UpdateKeepsShape(g, fs[n]);
    assert fs[n..][0] == fs[n] && fs[n..][1..] == fs[n + 1..];
  }

  /**
   * The state `next` after the first frame of a run, with what the lemmas
   * over whole runs need of it: shape, invariants, offset, score and how
   * Play continues from it.
   */
  lemma FirstFrame(g: Game, fs: seq<FrameInput>) returns (next: Game)
    requires Shaped(g) && ValidFrames(fs) && fs != []
    ensures next == Update(g, fs[0])
    ensures Shaped(next)
    ensures next.levelX == (if g.levelX == TILE_SIZE - 1 then 0 else g.levelX + 1)
    ensures IsGameOver(next) ==> Play(g, fs).0 == next && Play(g, fs).1 == 1
    ensures !IsGameOver(next) ==> ValidFrames(fs[1..])
    ensures !IsGameOver(next) ==> Play(g, fs).0 == Play(next, fs[1..]).0
    ensures !IsGameOver(next) ==> Play(g, fs).1 == Play(next, fs[1..]).1 + 1
    ensures WellFormed(g) ==> WellFormed(next)
    ensures next.score >= g.score + SCORE_DELTA_PER_FRAME
    ensures next.score == g.score + SCORE_DELTA_PER_FRAME + MONEY_SCORE as real * Collected(g, fs[0]) as real
    ensures NoMoney(g) && fs[0].draw.moneyRoll >= MONEY_PROBABILITY ==>
      NoMoney(next) && next.score == g.score + SCORE_DELTA_PER_FRAME
  {
    UpdateKeepsShape(g, fs[0]);
    ValidFramesTail(fs);
    if WellFormed(g) {
      UpdateKeepsWellFormed(g, fs[0]);
    }
    UpdateScore(g, fs[0]);
    if NoMoney(g) && fs[0].draw.moneyRoll >= MONEY_PROBABILITY {
      UpdateWithoutMoney(g, fs[0]);
    }
    next := Update(g, fs[0]);
  }

  /**
   * Over any number of frames: the session stays well formed; the loop stops
   * early only at game over; the score has grown by at least
   * SCORE_DELTA_PER_FRAME per frame run.
   */
  lemma {:induction false} PlayInvariants(g: Game, fs: seq<FrameInput>)
    requires WellFormed(g) && ValidFrames(fs)
    ensures WellFormed(Play(g, fs).0)
    ensures Play(g, fs).1 <= |fs|
    ensures Play(g, fs).1 < |fs| ==> IsGameOver(Play(g, fs).0)
    ensures Play(g, fs).0.score >= g.score + SCORE_DELTA_PER_FRAME * Play(g, fs).1 as real
    decreases |fs|
  {
    if fs != [] {
      var next := FirstFrame(g, fs);
      if !IsGameOver(next) {
        PlayInvariants(next, fs[1..]);
        var m := Play(next, fs[1..]).1;
        assert SCORE_DELTA_PER_FRAME * (m + 1) as real == SCORE_DELTA_PER_FRAME * m as real + SCORE_DELTA_PER_FRAME;
      }
    }
  }

  /** The scroll offset after `n` frames that each add one and wrap at a whole tile. */
  function Cycled(a: int, n: nat): int
    decreases n
  {
    if n == 0 then a else Cycled(if a == TILE_SIZE - 1 then 0 else a + 1, n - 1)
  }

  /** Advancing the offset `n` times from [0, TILE_SIZE) is adding `n` modulo TILE_SIZE. */
  lemma {:induction false} CycledIsModulo(a: int, n: nat)
    requires 0 <= a < TILE_SIZE
    ensures Cycled(a, n) == (a + n) % TILE_SIZE
    decreases n
  {
    if n > 0 {
      var b := if a == TILE_SIZE - 1 then 0 else a + 1;
      CycledIsModulo(b, n - 1);
      if a == TILE_SIZE - 1 {
        assert a + n == (n - 1) + TILE_SIZE;
      }
    }
  }

  /**
   * The scroll offset counts the frames run, wrapping at TILE_SIZE (so it
   * equals the start offset plus the frame count modulo TILE_SIZE, by
   * CycledIsModulo): one recycle every TILE_SIZE frames.
   */
  lemma {:induction false} PlayScrollCounter(g: Game, fs: seq<FrameInput>)
    requires Shaped(g) && ValidFrames(fs)
    ensures Play(g, fs).0.levelX == Cycled(g.levelX, Play(g, fs).1)
    decreases |fs|
  {
    if fs != [] {
      var next := FirstFrame(g, fs);
      var played := Play(g, fs);
      if IsGameOver(next) {
        CycledStep(g.levelX, next.levelX, 0, played.0.levelX, played.1);
      } else {
        PlayScrollCounter(next, fs[1..]);
        var rest := Play(next, fs[1..]);
        CycledStep(g.levelX, next.levelX, rest.1, played.0.levelX, played.1);
      }
    }
  }

  /** One more frame in front: from `a` the offset steps to `b`, then cycles `m` more times to `x`. */
  lemma CycledStep(a: int, b: int, m: nat, x: int, k: nat)
    requires b == (if a == TILE_SIZE - 1 then 0 else a + 1)
    requires x == Cycled(b, m) && k == m + 1
    ensures x == Cycled(a, k)
  {
  }

  /** No pickup flag is set anywhere on the strip. */
  predicate NoMoney(g: Game) {
    forall i :: 0 <= i < |g.hasMoneys| ==> !g.hasMoneys[i]
  }

  /** Every money roll misses MONEY_PROBABILITY, so no recycled column carries money. */
  predicate NoMoneyDrawn(fs: seq<FrameInput>) {
    forall i :: 0 <= i < |fs| ==> fs[i].draw.moneyRoll >= MONEY_PROBABILITY
  }

  /** A frame over a strip without money, whose draw places none, adds exactly SCORE_DELTA_PER_FRAME and leaves no money. */
  lemma UpdateWithoutMoney(g: Game, f: FrameInput)
    requires ValidDraw(f.draw) && f.draw.moneyRoll >= MONEY_PROBABILITY && NoMoney(g)
    requires g.levelX == TILE_SIZE - 1 ==> |g.heights| > 0
    ensures Update(g, f).score == g.score + SCORE_DELTA_PER_FRAME
    ensures NoMoney(Update(g, f))
  {
    var g2 := HandleKeys(ApplyForces(g, f.step), f.keys);
    assert NoMoney(g2);
    assert GrabMoneyUnderPlayer(g2) == g2;
    var g4 := Advance(g2);
    if g4.levelX == TILE_SIZE {
      var c := RandomLevelColumn(g4.heights, 0, f.draw);
      assert UpdateLevelIfNecessary(g4, f.draw).hasMoneys == (g4.hasMoneys + [c.hasMoney])[1..];
    }
  }

  /** With no money on the strip and none generated, `n` frames add exactly `n * SCORE_DELTA_PER_FRAME`. */
  lemma {:induction false} PlayScoreWithoutMoney(g: Game, fs: seq<FrameInput>)
    requires Shaped(g) && ValidFrames(fs) && NoMoney(g) && NoMoneyDrawn(fs)
    ensures Play(g, fs).0.score == g.score + SCORE_DELTA_PER_FRAME * Play(g, fs).1 as real
    decreases |fs|
  {
    if fs != [] {
      var next := FirstFrame(g, fs);
      if !IsGameOver(next) {
        assert NoMoneyDrawn(fs[1..]) by {
          forall i | 0 <= i < |fs| - 1 ensures fs[1..][i].draw.moneyRoll >= MONEY_PROBABILITY {
            assert fs[1..][i] == fs[i + 1];
          }
        }
        PlayScoreWithoutMoney(next, fs[1..]);
        var m := Play(next, fs[1..]).1;
        assert SCORE_DELTA_PER_FRAME * (m + 1) as real == SCORE_DELTA_PER_FRAME * m as real + SCORE_DELTA_PER_FRAME;
      }
    }
  }

  /** The pickups collected over the frames that Play runs. */
  function Collections(g: Game, fs: seq<FrameInput>): nat
    requires Shaped(g) && ValidFrames(fs)
    decreases |fs|
  {
    if fs == [] then 0
    else
      UpdateKeepsShape(g, fs[0]);
      ValidFramesTail(fs);
      var next := Update(g, fs[0]);
      Collected(g, fs[0]) + (if IsGameOver(next) then 0 else Collections(next, fs[1..]))
  }

  /** Over a run, the score grows by SCORE_DELTA_PER_FRAME per frame run plus MONEY_SCORE per pickup collected. */
  lemma {:induction false} PlayScore(g: Game, fs: seq<FrameInput>)
    requires Shaped(g) && ValidFrames(fs)
    ensures Play(g, fs).0.score
      == g.score + SCORE_DELTA_PER_FRAME * Play(g, fs).1 as real + MONEY_SCORE as real * Collections(g, fs) as real
    decreases |fs|
  {
    if fs != [] {
      var next := FirstFrame(g, fs);
      var c := Collected(g, fs[0]);
      if !IsGameOver(next) {
        PlayScore(next, fs[1..]);
        var m := Play(next, fs[1..]).1;
        var k := Collections(next, fs[1..]);
        assert Collections(g, fs) == c + k;
        assert SCORE_DELTA_PER_FRAME * (m + 1) as real == SCORE_DELTA_PER_FRAME * m as real + SCORE_DELTA_PER_FRAME;
        assert MONEY_SCORE as real * (c + k) as real == MONEY_SCORE as real * c as real + MONEY_SCORE as real * k as real;
      } else {
        assert Collections(g, fs) == c;
      }
    }
  }
}
