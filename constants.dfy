/** Game constants used by the world simulation (src/core/constants.ts).
    Screen-scaled values are written as the source writes them: a native
    pixel count times RENDER_SCALE. */
module Constants {

  const RENDER_SCALE: real := 3.0
  const CANVAS_WIDTH: real := 292.0 * RENDER_SCALE            // 876
  const CANVAS_HEIGHT: real := 240.0 * RENDER_SCALE           // 720

  /** The world is seven native screens wide and wraps around. */
  const WORLD_WIDTH: real := 292.0 * 7.0 * RENDER_SCALE       // 6132
  const NUM_HUMANOIDS: nat := 10

  const PLAY_AREA_TOP: real := 22.0 * RENDER_SCALE + 4.0 * RENDER_SCALE   // 78
  const GROUND_Y: real := 240.0 * RENDER_SCALE - 30.0 * RENDER_SCALE      // 630

  const PLAYER_THRUST: real := 500.0 * RENDER_SCALE
  const PLAYER_MAX_SPEED: real := 350.0 * RENDER_SCALE
  const PLAYER_DECEL: real := 250.0 * RENDER_SCALE
  const PLAYER_VERT_SPEED: real := 200.0 * RENDER_SCALE
  const LASER_SPEED: real := 800.0 * RENDER_SCALE
  const LASER_LENGTH: real := 30.0 * RENDER_SCALE
  const LASER_LIFETIME: real := 0.4
  const FIRE_COOLDOWN: real := 0.1

  const LANDER_SPEED: real := 50.0 * RENDER_SCALE
  const LANDER_DESCENT_SPEED: real := 30.0 * RENDER_SCALE
  const MUTANT_SPEED: real := 120.0 * RENDER_SCALE
  const BAITER_SPEED: real := 180.0 * RENDER_SCALE
  const BOMBER_SPEED: real := 40.0 * RENDER_SCALE
  const POD_SPEED: real := 35.0 * RENDER_SCALE
  const SWARMER_SPEED: real := 160.0 * RENDER_SCALE

  const ENEMY_RADIUS: real := 8.0 * RENDER_SCALE
  const HUMANOID_RADIUS: real := 6.0 * RENDER_SCALE
  const PLAYER_RADIUS: real := 10.0 * RENDER_SCALE

  /** Colours the world hands to explosions. */
  const MINE_COLOR: string := "#FF4444"
  const BOMB_COLOR: string := "#FFFFFF"
}
