/** The bodies of the keyboard handlers, applied to a polled list of key events. */
module Input {
  import opened Config
  import opened Generator
  import opened World
  import opened Physics

  /** Which handler fires: RIGHT and LEFT while held, SPACE when pressed. */
  datatype Key = Right | Left | Space

  /** RIGHT: two pixels right, unless at the right screen limit or one pixel short of a column. */
  function MoveRight(g: Game): Game {
    if g.player.x < SCREEN_WIDTH - PLAYER_WIDTH && !WillIntersectBoxes(g, g.player.x + PLAYER_WIDTH) then
      g.(player := g.player.(x := g.player.x + 2))
    else g
  }

  /** LEFT: one pixel left, unless at the left screen edge or against a column. */
  function MoveLeft(g: Game): Game {
    if g.player.x > 0 && !WillIntersectBoxes(g, g.player.x - 1) then
      g.(player := g.player.(x := g.player.x - 1))
    else g
  }

  /** SPACE: jump, only when `isGrounded` returns something truthy. */
  function Jump(g: Game): Game {
    if Truthy(IsGrounded(g)) then g.(player := g.player.(v := JUMP_VELOCITY as real)) else g
  }

  function HandleKey(g: Game, k: Key): Game {
    match k
    case Right => MoveRight(g)
    case Left => MoveLeft(g)
    case Space => Jump(g)
  }

  /** The handlers for `keys`, first to last. None of them touches the columns, the scroll offset, the score or y. */
  function HandleKeys(g: Game, keys: seq<Key>): (r: Game)
    ensures r.heights == g.heights && r.hasMoneys == g.hasMoneys
    ensures r.levelX == g.levelX && r.score == g.score && r.player.y == g.player.y
  {
    if keys == [] then g else HandleKey(HandleKeys(g, keys[..|keys| - 1]), keys[|keys| - 1])
  }

  /**
   * The guards of the handlers: RIGHT adds 2 to x exactly when x is below
   * SCREEN_WIDTH - PLAYER_WIDTH and the pixel right of the player is clear;
   * LEFT subtracts 1 exactly when x is positive and the pixel left of the
   * player is clear; SPACE sets the velocity to JUMP_VELOCITY exactly when
   * the player is grounded. Each changes nothing else.
   */
  lemma HandlerGuards(g: Game)
    requires HeightsInRange(g.heights)
    ensures MoveRight(g).player.x == (if g.player.x < SCREEN_WIDTH - PLAYER_WIDTH && !WillIntersectBoxes(g, g.player.x + PLAYER_WIDTH)
                                      then g.player.x + 2 else g.player.x)
    ensures MoveLeft(g).player.x == (if g.player.x > 0 && !WillIntersectBoxes(g, g.player.x - 1)
                                     then g.player.x - 1 else g.player.x)
    ensures Jump(g).player.v == (if IsGrounded(g).Some? then JUMP_VELOCITY as real else g.player.v)
    ensures MoveRight(g).player.(x := g.player.x) == g.player && MoveRight(g).(player := g.player) == g
    ensures MoveLeft(g).player.(x := g.player.x) == g.player && MoveLeft(g).(player := g.player) == g
    ensures Jump(g).player.(v := g.player.v) == g.player && Jump(g).(player := g.player) == g
  {
    GroundedIsTruthy(g);
  }

  /** How many of `keys` are `k`. */
  function Count(keys: seq<Key>, k: Key): nat {
    if keys == [] then 0 else Count(keys[..|keys| - 1], k) + (if keys[|keys| - 1] == k then 1 else 0)
  }

  /**
   * Within one frame the handlers move the player at most 1 pixel left per
   * LEFT and at most 2 pixels right per RIGHT; SPACE never moves it.
   */
  lemma {:induction false} HandleKeysDisplacement(g: Game, keys: seq<Key>)
    ensures g.player.x - Count(keys, Left) <= HandleKeys(g, keys).player.x <= g.player.x + 2 * Count(keys, Right)
  {
    if keys != [] {
      HandleKeysDisplacement(g, keys[..|keys| - 1]);
    }
  }

  /**
   * RIGHT clears the pixel just right of the player but moves it 2 pixels, so
   * it can leave the right edge 1 pixel inside a taller column: here x goes
   * from 39 to 41 and the right edge at 60 is inside the column of height 3
   * that starts at 60. The next frame's wall nudge pushes the player back.
   */
  lemma RightMayEnterColumn()
    ensures var g := Game(seq(LEVEL_COLUMNS, i => if i == 3 then 3 else 1), seq(LEVEL_COLUMNS, i => false), 0, 0.0,
                          Player(39, 192.0, 0.0));
      && !WillIntersectBoxes(g, g.player.x + PLAYER_WIDTH)
      && MoveRight(g).player.x == 41
      && WillIntersectBoxes(MoveRight(g), MoveRight(g).player.x + PLAYER_WIDTH - 1)
      && Nudged(MoveRight(g)).player.x == 40
  {
    var g := Game(seq(LEVEL_COLUMNS, i => if i == 3 then 3 else 1), seq(LEVEL_COLUMNS, i => false), 0, 0.0,
                  Player(39, 192.0, 0.0));
    assert ColumnIndexAt(59, 0) == 2 && ColumnIndexAt(60, 0) == 3;
    assert g.heights[2] == 1 && g.heights[3] == 3;
  }
}
