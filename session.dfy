/** The mutable session object and the procedures of the game that update it in place. */
module Session {
  import opened Config
  import opened Generator
  import opened World
  import Physics
  import Input
  import Scroll
  import Loop

  /** `state.player`, updated in place by the physics step and the key handlers. */
  class PlayerState {
    var x: int
    var y: real
    var v: real

    constructor ()
      ensures x == PLAYER_START_OFFSET && y == 0.0 && v == 0.0
    {
      x, y, v := PLAYER_START_OFFSET, 0.0, 0.0;
    }
  }

  /** The session object `state`. */
  class State {
    var heights: seq<int>
    var hasMoneys: seq<bool>
    var levelX: int
    var score: real
    const player: PlayerState

    /** The session as a value. */
    function View(): Game
      reads this, player
    {
      Game(heights, hasMoneys, levelX, score, World.Player(player.x, player.y, player.v))
    }

    /** The object literal of the start-up code, before the level is built. */
    constructor ()
      ensures View() == InitialGame() && fresh(player)
    {
      heights, hasMoneys, levelX, score := [], [], 0, 0.0;
      player := new PlayerState();
    }

    /** `drawRandomLevelColumn` without the drawing: push one generated column. */
    method DrawRandomLevelColumn(forced: int, d: Draw)
      requires ValidDraw(d) && (forced != 0 || |heights| > 0)
      modifies this
      ensures var c := RandomLevelColumn(old(heights), forced, d);
        heights == old(heights) + [c.height] && hasMoneys == old(hasMoneys) + [c.hasMoney]
      ensures levelX == old(levelX) && score == old(score)
    {
      var c := RandomLevelColumn(heights, forced, d);
      heights := heights + [c.height];
      hasMoneys := hasMoneys + [c.hasMoney];
    }

    /** The column loop of `initLevel`: LEVEL_COLUMNS columns, the intro ones forced to height 1. */
    method InitLevel(ds: seq<Draw>)
      requires |ds| >= LEVEL_COLUMNS && ValidDraws(ds)
      modifies this
      ensures heights == old(heights) + InitialColumns(LEVEL_COLUMNS, ds).0
      ensures hasMoneys == old(hasMoneys) + InitialColumns(LEVEL_COLUMNS, ds).1
      ensures levelX == old(levelX) && score == old(score)
    {
      var x := 0;
      while x < LEVEL_WIDTH / TILE_SIZE
        invariant 0 <= x <= LEVEL_COLUMNS
        invariant heights == old(heights) + InitialColumns(x, ds).0
        invariant hasMoneys == old(hasMoneys) + InitialColumns(x, ds).1
        invariant levelX == old(levelX) && score == old(score)
      {
        var forced := IntroHeight(x);
        ColumnIgnoresOlderHeights(old(heights), InitialColumns(x, ds).0, forced, ds[x]);
        DrawRandomLevelColumn(forced, ds[x]);
        x := x + 1;
      }
    }

    /** `updateLevelIfNecessary` without the blits. */
    method UpdateLevelIfNecessary(d: Draw)
      requires ValidDraw(d) && (levelX == TILE_SIZE ==> |heights| > 0)
      modifies this
      ensures View() == Scroll.UpdateLevelIfNecessary(old(View()), d)
    {
      if levelX != TILE_SIZE {
        return;
      }
      DrawRandomLevelColumn(0, d);
      heights := heights[1..];
      hasMoneys := hasMoneys[1..];
      levelX := 0;
    }

    /** `applyForces`; `step` stands for `dt / 1e13`. */
    method ApplyForces(step: real)
      modifies player
      ensures View() == Physics.ApplyForces(old(View()), step)
    {
      ghost var g0 := View();
      if Physics.WillIntersectBoxes(View(), player.x + PLAYER_WIDTH - 1) {
        player.x := player.x - 1;
      }
      assert View() == Physics.Nudged(g0);
      player.y := player.y + player.v * step;
      assert View() == Physics.Integrated(Physics.Nudged(g0), step);
      var columnHeight := Physics.IsGrounded(View());
      if Physics.Truthy(columnHeight) {
        player.y := columnHeight.value as real - PLAYER_HEIGHT as real;
        player.v := 0.0;
        return;
      }
      player.v := player.v + GRAVITY_ACCELERATION * step;
    }

    /** The `forEach` callback of `grabMoneyUnderPlayer`, for the sample at `px`. */
    method GrabAt(px: int)
      modifies this
      ensures View() == Physics.GrabAt(old(View()), px)
    {
      if !HasMoneyAt(View(), px) {
        return;
      }
      var col := ColumnIndexAt(px, levelX);
      var moneyBottomY := ColumnTopAt(View(), px);
      if moneyBottomY.Some? && Physics.MoneyOverlap(player.y, moneyBottomY.value) {
        hasMoneys := hasMoneys[col := false];
        score := score + MONEY_SCORE as real;
      }
    }

    /** `grabMoneyUnderPlayer`: the left-edge sample, then the right-edge sample. */
    method GrabMoneyUnderPlayer()
      modifies this
      ensures View() == Physics.GrabMoneyUnderPlayer(old(View()))
    {
      var possibleXs := [player.x, player.x + PLAYER_WIDTH - 1];
      GrabAt(possibleXs[0]);
      GrabAt(possibleXs[1]);
    }

    /** The RIGHT handler. */
    method MoveRight()
      modifies player
      ensures View() == Input.MoveRight(old(View()))
    {
      if player.x < SCREEN_WIDTH - PLAYER_WIDTH {
        if !Physics.WillIntersectBoxes(View(), player.x + PLAYER_WIDTH) {
          player.x := player.x + 2;
        }
      }
    }

    /** The LEFT handler. */
    method MoveLeft()
      modifies player
      ensures View() == Input.MoveLeft(old(View()))
    {
      if player.x > 0 {
        if !Physics.WillIntersectBoxes(View(), player.x - 1) {
          player.x := player.x - 1;
        }
      }
    }

    /** The SPACE handler. */
    method Jump()
      modifies player
      ensures View() == Input.Jump(old(View()))
    {
      if Physics.Truthy(Physics.IsGrounded(View())) {
        player.v := JUMP_VELOCITY as real;
      }
    }

    /** `kd.tick()`: fire the handlers of `keys` in order. */
    method Tick(keys: seq<Input.Key>)
      modifies player
      ensures View() == Input.HandleKeys(old(View()), keys)
    {
      for i := 0 to |keys|
        invariant View() == Input.HandleKeys(old(View()), keys[..i])
      {
        assert keys[..i + 1][..i] == keys[..i];
        match keys[i]
        case Right => MoveRight();
        case Left => MoveLeft();
        case Space => Jump();
      }
      assert keys[..|keys|] == keys;
    }

    /** The body of `update`; returns whether the game is over (and no further frame is requested). */
    method Update(f: Loop.FrameInput) returns (over: bool)
      requires ValidDraw(f.draw) && (levelX == TILE_SIZE - 1 ==> |heights| > 0)
      modifies this, player
      ensures View() == Loop.Update(old(View()), f)
      ensures over == Loop.IsGameOver(View())
    {
      ghost var g0 := View();
      ApplyForces(f.step);
      Tick(f.keys);
      GrabMoneyUnderPlayer();
      levelX := levelX + 1;
      player.x := player.x - 1;
      ghost var g4 := View();
      assert g4 == Loop.Advance(Physics.GrabMoneyUnderPlayer(Input.HandleKeys(Physics.ApplyForces(g0, f.step), f.keys)));
      UpdateLevelIfNecessary(f.draw);
      score := score + SCORE_DELTA_PER_FRAME;
      over := Loop.IsGameOver(View());
    }

    /** One frame of the `requestAnimationFrame` chain, as the `n`-th of the frames `fs`. */
    method Frame(fs: seq<Loop.FrameInput>, n: nat) returns (over: bool)
      requires Shaped(View()) && Loop.ValidFrames(fs) && n < |fs|
      modifies this, player
      ensures Shaped(View()) && over == Loop.IsGameOver(View())
      ensures over ==> Loop.Play(old(View()), fs[n..]) == (View(), 1)
      ensures !over ==> Loop.Play(old(View()), fs[n..]).0 == Loop.Play(View(), fs[n + 1..]).0
      ensures !over ==> Loop.Play(old(View()), fs[n..]).1 == Loop.Play(View(), fs[n + 1..]).1 + 1
    {
      Loop.PlayFrom(View(), fs, n);
      over := Update(fs[n]);
    }

    /** The `requestAnimationFrame` chain: run frames until the game is over or the frames run out. */
    method Run(fs: seq<Loop.FrameInput>) returns (n: nat)
      requires Shaped(View()) && Loop.ValidFrames(fs)
      modifies this, player
      ensures (View(), n) == Loop.Play(old(View()), fs)
    {
      n := 0;
      var over := false;
      assert fs[0..] == fs;
      ghost var final := Loop.Play(View(), fs[0..]).0;
      ghost var count := Loop.Play(View(), fs[0..]).1;
      while !over && n < |fs|
        invariant n <= |fs| && Shaped(View())
        invariant over ==> final == View() && count == n
        invariant !over ==> final == Loop.Play(View(), fs[n..]).0
        invariant !over ==> count == Loop.Play(View(), fs[n..]).1 + n
      {
        over := Frame(fs, n);
        n := n + 1;
      }
      if !over {
        assert fs[n..] == [];
      }
    }
  }

  /** `window.onload` up to the first frame: the start literal, then `initLevel`. */
  method Start(ds: seq<Draw>) returns (s: State)
    requires |ds| >= LEVEL_COLUMNS && ValidDraws(ds)
    ensures fresh(s) && fresh(s.player)
    ensures s.View() == InitialLevel(ds)
  {
    s := new State();
    s.InitLevel(ds);
  }
}
