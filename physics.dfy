/** Player physics and collisions against the column tops, and pickup collection. */
module Physics {
  import opened Wrappers
  import opened Config
  import opened Generator
  import opened World

  /** `player.y + PLAYER_HEIGHT >= top`; a missing top (NaN in the game) never satisfies it. */
  predicate RestsOn(y: real, top: Option<int>) {
    top.Some? && y + PLAYER_HEIGHT as real >= top.value as real
  }

  /** The column top under the player's left edge. */
  function LeftTop(g: Game): Option<int> {
    ColumnTopAt(g, g.player.x)
  }

  /** The column top under the player's right edge. */
  function RightTop(g: Game): Option<int> {
    ColumnTopAt(g, g.player.x + PLAYER_WIDTH - 1)
  }

  /** The `forEach` of `isGrounded`: every sampled top the player rests on overwrites `grounded`. */
  function LastResting(y: real, tops: seq<Option<int>>, grounded: Option<int>): (r: Option<int>)
    ensures r == grounded || (r in tops && RestsOn(y, r))
    ensures (exists i :: 0 <= i < |tops| && RestsOn(y, tops[i])) ==> r in tops && RestsOn(y, r)
    ensures (forall i :: 0 <= i < |tops| ==> !RestsOn(y, tops[i])) ==> r == grounded
  {
    if tops == [] then grounded
    else LastResting(y, tops[1..], if RestsOn(y, tops[0]) then tops[0] else grounded)
  }

  /**
   * `isGrounded`: `None` for `false`, otherwise the sampled top the player
   * rests on. When both edges rest, the right edge (sampled second) wins.
   */
  function IsGrounded(g: Game): (r: Option<int>)
    ensures r.None? <==> !RestsOn(g.player.y, LeftTop(g)) && !RestsOn(g.player.y, RightTop(g))
    ensures r.Some? ==> RestsOn(g.player.y, r) && (r == LeftTop(g) || r == RightTop(g))
    ensures RestsOn(g.player.y, RightTop(g)) ==> r == RightTop(g)
  {
    var y, tops := g.player.y, [LeftTop(g), RightTop(g)];
    var afterLeft := if RestsOn(y, LeftTop(g)) then LeftTop(g) else None;
    var afterRight := if RestsOn(y, RightTop(g)) then RightTop(g) else afterLeft;
    assert tops[1..] == [RightTop(g)] && tops[1..][1..] == [];
    assert LastResting(y, tops[1..][1..], afterRight) == afterRight;
    assert LastResting(y, tops[1..], afterLeft) == afterRight;
    LastResting(y, tops, None)
  }

  /** How the game reads `isGrounded`'s result: `false` and a top of 0 are both falsy. */
  predicate Truthy(r: Option<int>) {
    r.Some? && r.value != 0
  }

  /** Reading the result as truthy is sound: on a strip of heights in range a grounded result is never a falsy 0. */
  lemma GroundedIsTruthy(g: Game)
    requires HeightsInRange(g.heights)
    ensures Truthy(IsGrounded(g)) <==> IsGrounded(g).Some?
  {
    TopsInRange(g, g.player.x);
    TopsInRange(g, g.player.x + PLAYER_WIDTH - 1);
  }

  /** `willIntersectBoxes`: the player's bottom would lie strictly below the column top at `proposedX`. */
  function WillIntersectBoxes(g: Game, proposedX: int): (b: bool)
    ensures b ==> RestsOn(g.player.y, ColumnTopAt(g, proposedX))
    ensures b <==> (0 <= ColumnIndexAt(proposedX, g.levelX) < |g.heights| &&
      g.player.y + PLAYER_HEIGHT as real > (SCREEN_HEIGHT - g.heights[ColumnIndexAt(proposedX, g.levelX)] * TILE_SIZE) as real)
  {
    var top := ColumnTopAt(g, proposedX);
    top.Some? && g.player.y + PLAYER_HEIGHT as real > top.value as real
  }

  /** The wall nudge of `applyForces`. */
  function Nudged(g: Game): Game {
    if WillIntersectBoxes(g, g.player.x + PLAYER_WIDTH - 1) then g.(player := g.player.(x := g.player.x - 1)) else g
  }

  /** Vertical integration over one frame; `step` stands for `dt / 1e13`. */
  function Integrated(g: Game, step: real): Game {
    g.(player := g.player.(y := g.player.y + g.player.v * step))
  }

  /**
   * `applyForces`: wall nudge, vertical integration, then either the grounding
   * snap (velocity zeroed, no gravity) or gravity added to the velocity.
   */
  function ApplyForces(g: Game, step: real): (r: Game)
    ensures r.heights == g.heights && r.hasMoneys == g.hasMoneys
    ensures r.levelX == g.levelX && r.score == g.score
  {
    var g1 := Integrated(Nudged(g), step);
    var columnHeight := IsGrounded(g1);
    if Truthy(columnHeight) then
      g1.(player := g1.player.(y := columnHeight.value as real - PLAYER_HEIGHT as real, v := 0.0))
    else
      g1.(player := g1.player.(v := g1.player.v + GRAVITY_ACCELERATION * step))
  }

  /**
   * The effect of `applyForces` on the player: x drops by exactly 1 when the
   * right edge is inside a column; a grounded player ends exactly on the
   * sampled top it rests on, with zero velocity, and is still grounded there;
   * otherwise the velocity gains gravity and y moves by the old velocity.
   */
  lemma ApplyForcesEffect(g: Game, step: real)
    ensures var r := ApplyForces(g, step);
      && (r.player.x == g.player.x - 1 <==> WillIntersectBoxes(g, g.player.x + PLAYER_WIDTH - 1))
      && (r.player.x == g.player.x || r.player.x == g.player.x - 1)
    ensures var g1 := Integrated(Nudged(g), step);
      var r := ApplyForces(g, step);
      if Truthy(IsGrounded(g1)) then
        && (IsGrounded(g1) == LeftTop(g1) || IsGrounded(g1) == RightTop(g1))
        && r.player.y + PLAYER_HEIGHT as real == IsGrounded(g1).value as real
        && r.player.v == 0.0
        && IsGrounded(r).Some?
      else
        && r.player.y == g.player.y + g.player.v * step
        && r.player.v == g.player.v + GRAVITY_ACCELERATION * step
  {
    var g1 := Integrated(Nudged(g), step);
    var r := ApplyForces(g, step);
    assert g1.player.x == Nudged(g).player.x && g1.heights == g.heights && g1.levelX == g.levelX;
    var top := IsGrounded(g1);
    if Truthy(top) {
      assert r == g1.(player := g1.player.(y := top.value as real - PLAYER_HEIGHT as real, v := 0.0));
      assert LeftTop(r) == LeftTop(g1) && RightTop(r) == RightTop(g1);
      assert RestsOn(r.player.y, top);
    } else {
      assert r == g1.(player := g1.player.(v := g1.player.v + GRAVITY_ACCELERATION * step));
    }
  }

  /**
   * The overlap condition of `grabMoneyUnderPlayer` between the player box
   * [y, y + PLAYER_HEIGHT - 1] and the money box [top - MONEY_SIZE, top]:
   * one box contains an end of the other, which for these sizes is exactly
   * the two boxes intersecting.
   */
  function MoneyOverlap(y: real, top: int): (b: bool)
    ensures b <==> y <= top as real && (top - MONEY_SIZE) as real <= y + (PLAYER_HEIGHT - 1) as real
  {
    var moneyBottomY := top as real;
    var moneyTopY := moneyBottomY - MONEY_SIZE as real;
    var playerTopY := y;
    var playerBottomY := y + PLAYER_HEIGHT as real - 1.0;
    (playerTopY <= moneyTopY && playerBottomY >= moneyTopY) ||
    (playerBottomY >= moneyBottomY && playerTopY <= moneyBottomY)
  }

  /** One pass of the `forEach` in `grabMoneyUnderPlayer`, for the sample at `px`. */
  function GrabAt(g: Game, px: int): (r: Game)
    ensures r.heights == g.heights && r.levelX == g.levelX && r.player == g.player
    ensures |r.hasMoneys| == |g.hasMoneys|
  {
    if !HasMoneyAt(g, px) then g
    else
      match ColumnTopAt(g, px)
      case None => g
      case Some(top) =>
        if MoneyOverlap(g.player.y, top) then
          g.(hasMoneys := g.hasMoneys[ColumnIndexAt(px, g.levelX) := false],
             score := g.score + MONEY_SCORE as real)
        else g
  }

  /** `grabMoneyUnderPlayer`: the left-edge sample, then the right-edge sample on the updated state. */
  function GrabMoneyUnderPlayer(g: Game): (r: Game)
    ensures r.heights == g.heights && r.levelX == g.levelX && r.player == g.player
    ensures |r.hasMoneys| == |g.hasMoneys|
  {
    GrabAt(GrabAt(g, g.player.x), g.player.x + PLAYER_WIDTH - 1)
  }

  /** The number of pickup flags that went from true in `a` to false in `b`. */
  function Flips(a: seq<bool>, b: seq<bool>): nat
    requires |a| == |b|
  {
    if a == [] then 0 else (if a[0] && !b[0] then 1 else 0) + Flips(a[1..], b[1..])
  }

  /** `b` only clears flags of `a`. */
  predicate OnlyClears(a: seq<bool>, b: seq<bool>) {
    |a| == |b| && forall i :: 0 <= i < |a| && b[i] ==> a[i]
  }

  lemma {:induction false} FlipsNone(a: seq<bool>)
    ensures Flips(a, a) == 0
  {
    if a != [] {
      FlipsNone(a[1..]);
    }
  }

  lemma {:induction false} FlipsClearOne(a: seq<bool>, i: int)
    requires 0 <= i < |a| && a[i]
    ensures Flips(a, a[i := false]) == 1
  {
    var b := a[i := false];
    if i == 0 {
      assert a[1..] == b[1..];
      FlipsNone(a[1..]);
    } else {
      assert a[1..][i - 1 := false] == b[1..];
      FlipsClearOne(a[1..], i - 1);
    }
  }

  lemma {:induction false} FlipsChain(a: seq<bool>, b: seq<bool>, c: seq<bool>)
    requires OnlyClears(a, b) && OnlyClears(b, c)
    ensures Flips(a, c) == Flips(a, b) + Flips(b, c)
  {
    if a != [] {
      assert OnlyClears(a[1..], b[1..]) && OnlyClears(b[1..], c[1..]) by {
        forall i | 0 <= i < |a| - 1 && b[1..][i] ensures a[1..][i] {
          assert b[i + 1];
        }
        forall i | 0 <= i < |b| - 1 && c[1..][i] ensures b[1..][i] {
          assert c[i + 1];
        }
      }
      FlipsChain(a[1..], b[1..], c[1..]);
      assert c[0] ==> b[0];
      assert b[0] ==> a[0];
    }
  }

  /**
   * The sample at `px` clears at most one flag, the one of its own column, and
   * clears it exactly when that column has money and the boxes overlap; the
   * score gains MONEY_SCORE for it.
   */
  lemma GrabAtEffect(g: Game, px: int)
    ensures var r := GrabAt(g, px);
      && OnlyClears(g.hasMoneys, r.hasMoneys)
      && (forall i :: 0 <= i < |g.hasMoneys| && r.hasMoneys[i] != g.hasMoneys[i] ==> i == ColumnIndexAt(px, g.levelX))
      && Flips(g.hasMoneys, r.hasMoneys) <= 1
      && r.score == g.score + MONEY_SCORE as real * Flips(g.hasMoneys, r.hasMoneys) as real
    ensures var r := GrabAt(g, px);
      Flips(g.hasMoneys, r.hasMoneys) == 1 <==>
        HasMoneyAt(g, px) && ColumnTopAt(g, px).Some? && MoneyOverlap(g.player.y, ColumnTopAt(g, px).value)
  {
    var r := GrabAt(g, px);
    if r.hasMoneys == g.hasMoneys {
      FlipsNone(g.hasMoneys);
    } else {
      FlipsClearOne(g.hasMoneys, ColumnIndexAt(px, g.levelX));
    }
  }

  /**
   * `grabMoneyUnderPlayer` only turns pickup flags from true to false, only
   * at the two sampled columns, and adds exactly MONEY_SCORE per flag it
   * clears: 0, 100 or 200 in one call. A column under both samples is
   * counted once, since the second sample finds its flag already cleared.
   */
  lemma GrabMoneyEffect(g: Game)
    ensures var r := GrabMoneyUnderPlayer(g);
      && OnlyClears(g.hasMoneys, r.hasMoneys)
      && (forall i :: 0 <= i < |g.hasMoneys| && r.hasMoneys[i] != g.hasMoneys[i] ==>
            i == ColumnIndexAt(g.player.x, g.levelX) || i == ColumnIndexAt(g.player.x + PLAYER_WIDTH - 1, g.levelX))
      && Flips(g.hasMoneys, r.hasMoneys) <= 2
      && (ColumnIndexAt(g.player.x, g.levelX) == ColumnIndexAt(g.player.x + PLAYER_WIDTH - 1, g.levelX) ==>
            Flips(g.hasMoneys, r.hasMoneys) <= 1)
      && r.score == g.score + MONEY_SCORE as real * Flips(g.hasMoneys, r.hasMoneys) as real
  {
    var g1 := GrabAt(g, g.player.x);
    var r := GrabAt(g1, g.player.x + PLAYER_WIDTH - 1);
    GrabAtEffect(g, g.player.x);
    GrabAtEffect(g1, g.player.x + PLAYER_WIDTH - 1);
    FlipsChain(g.hasMoneys, g1.hasMoneys, r.hasMoneys);
    if ColumnIndexAt(g.player.x, g.levelX) == ColumnIndexAt(g.player.x + PLAYER_WIDTH - 1, g.levelX)
      && Flips(g.hasMoneys, g1.hasMoneys) == 1
    {
      // the first sample cleared the shared column, so the second finds nothing
      assert g1.hasMoneys != g.hasMoneys;
      assert r == g1;
    }
  }

  /** Collection is exactly-once: a second pass over the same position finds nothing more to collect. */
  lemma GrabMoneyIdempotent(g: Game)
    ensures GrabMoneyUnderPlayer(GrabMoneyUnderPlayer(g)) == GrabMoneyUnderPlayer(g)
  {
    var xl, xr := g.player.x, g.player.x + PLAYER_WIDTH - 1;
    var g1 := GrabAt(g, xl);
    var r := GrabAt(g1, xr);
    assert GrabMoneyUnderPlayer(g) == r;
    // the left sample of the second pass finds its column cleared or not overlapping
    var cl := ColumnIndexAt(xl, g.levelX);
    if HasMoneyAt(r, xl) {
      assert g1.hasMoneys[cl] && g.hasMoneys[cl];
      assert ColumnTopAt(g, xl).Some? ==> !MoneyOverlap(g.player.y, ColumnTopAt(g, xl).value);
      assert ColumnTopAt(r, xl) == ColumnTopAt(g, xl);
    }
    assert GrabAt(r, xl) == r;
    assert GrabAt(r, xr) == r;
    assert r.player == g.player;
    assert GrabMoneyUnderPlayer(r) == GrabAt(GrabAt(r, xl), xr);
  }
}
