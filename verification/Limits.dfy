/** The size limits of src/protocol/snapshot/constants.js. */
module SnapshotLimits {
  /** The decoded snapshot buffer, for player states and level data alike. */
  const SNAPSHOT_MAX_DATA_BYTES := 0x2100
  /** The data after a level message's fixed header. */
  const NET_LEVEL_DATA_MAX_BYTES := 0x2000
  const PLAYER_STATE_MAX_BYTES := 0x4b5
}
