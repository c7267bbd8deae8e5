/** The fixed constants of money-run, with the values the game declares. */
module Config {
  const SCREEN_WIDTH: int := 320
  const SCREEN_HEIGHT: int := 240

  const TILE_SIZE: int := 20
  const PLAYER_WIDTH: int := 20
  const PLAYER_HEIGHT: int := 28

  /** The level strip is two tiles wider than the screen. */
  const LEVEL_WIDTH: int := SCREEN_WIDTH + TILE_SIZE * 2
  const PLAYER_START_OFFSET: int := TILE_SIZE * 3

  const NUM_INTRO_TILES: int := 10
  const MAX_COL_HEIGHT: int := SCREEN_HEIGHT / TILE_SIZE - 2
  const MAX_COL_DELTA: int := 4
  const MIN_COL_HEIGHT: int := 1

  const MONEY_SIZE: int := TILE_SIZE
  const MONEY_PROBABILITY: real := 0.1
  const MONEY_SCORE: int := 100

  const SCORE_DELTA_PER_FRAME: real := 0.25

  const JUMP_VELOCITY: int := -40
  const GRAVITY_ACCELERATION: real := 9.8

  /** Number of columns held in the level strip (`LEVEL_WIDTH / TILE_SIZE`, that is 18). */
  const LEVEL_COLUMNS: int := LEVEL_WIDTH / TILE_SIZE
}
