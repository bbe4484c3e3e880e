/**
 * The world opcodes the model refers to. The opcode enumeration itself is
 * not part of this model; the values are those of the 3.3.5a (build 12340)
 * opcode table the client speaks.
 */
module Opcodes {
  const CMSG_CHAR_ENUM: nat := 0x037
  const SMSG_CHAR_ENUM: nat := 0x03B
  const CMSG_PLAYER_LOGIN: nat := 0x03D
  const SMSG_UPDATE_OBJECT: nat := 0x0A9
  const SMSG_COMPRESSED_UPDATE_OBJECT: nat := 0x1F6
  const SMSG_AUTH_CHALLENGE: nat := 0x1EC
  const CMSG_AUTH_SESSION: nat := 0x1ED
  const SMSG_AUTH_RESPONSE: nat := 0x1EE
  const CMSG_SET_ACTIVE_MOVER: nat := 0x26A

  const MSG_MOVE_START_FORWARD: nat := 0x0B5
  const MSG_MOVE_START_BACKWARD: nat := 0x0B6
  const MSG_MOVE_STOP: nat := 0x0B7
  const MSG_MOVE_START_STRAFE_LEFT: nat := 0x0B8
  const MSG_MOVE_START_STRAFE_RIGHT: nat := 0x0B9
  const MSG_MOVE_STOP_STRAFE: nat := 0x0BA
  const MSG_MOVE_JUMP: nat := 0x0BB
  const MSG_MOVE_START_TURN_LEFT: nat := 0x0BC
  const MSG_MOVE_START_TURN_RIGHT: nat := 0x0BD
  const MSG_MOVE_STOP_TURN: nat := 0x0BE
  const MSG_MOVE_START_PITCH_UP: nat := 0x0BF
  const MSG_MOVE_START_PITCH_DOWN: nat := 0x0C0
  const MSG_MOVE_STOP_PITCH: nat := 0x0C1
  const MSG_MOVE_SET_RUN_MODE: nat := 0x0C2
  const MSG_MOVE_SET_WALK_MODE: nat := 0x0C3
  const MSG_MOVE_FALL_LAND: nat := 0x0C9
  const MSG_MOVE_START_SWIM: nat := 0x0CA
  const MSG_MOVE_STOP_SWIM: nat := 0x0CB
  const MSG_MOVE_SET_FACING: nat := 0x0DA
  const MSG_MOVE_SET_PITCH: nat := 0x0DB
  const MSG_MOVE_HEARTBEAT: nat := 0x0EE
  const MSG_MOVE_START_ASCEND: nat := 0x359
  const MSG_MOVE_STOP_ASCEND: nat := 0x35A
  const MSG_MOVE_START_DESCEND: nat := 0x3A7
}
