/**
 * The parts of the engine's World the volume-box code reads: which side it
 * runs on, which block stands at a position, and where a player is looking.
 */
module Worlds {
  import opened Wrappers
  import opened Values

  /**
   * `lookingAt(player, dist)` is the block position `dist` along the look ray
   * from the eye of the player with that id, or None when no such player is
   * in the world (getPlayerEntityByUUID answers null).
   */
  datatype World = World(
    isRemote: bool,
    hasServer: bool,
    blockAt: Pos -> Block,
    lookingAt: (Uuid, real) -> Option<Pos>)
}
