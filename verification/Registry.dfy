/** The attribute registry: identifiers, channel widths, and the classes composition
    distinguishes. */
module Registry {

  const POSITION: nat := 0
  const ROTATION_INDEX: nat := 2
  const ROTATION: nat := 3
  const MOTION: nat := 6
  const MU_T: nat := 7
  const SIGMA_T: nat := 8
  const FLAGS: nat := 9
  const WINDOW_INDEX: nat := 10

  /** The attributes every keyframe row and every birth states. */
  const REQUIRED: set<nat> := set a: nat | a <= 10

  /** The three optional exact-label lanes, logically zero where a record omits them. */
  const IDENTITY_LANES: set<nat> := {11, 12, 14}

  /** Attributes a delta's update group must not carry: they set a gaussian's grids. */
  predicate IsGopInvariant(a: nat) {
    a == SIGMA_T || a == FLAGS || a == WINDOW_INDEX
  }

  /** Attributes an update restates outright instead of differencing. */
  predicate IsAbsoluteInUpdate(a: nat) {
    a == ROTATION_INDEX || a == ROTATION || a in IDENTITY_LANES
  }

  /** Interleaving width per attribute; the registry fixes it. */
  function Channels(a: nat): nat {
    if a in {0, 1, 3, 4, 6} then 3 else 1
  }

  /** Composed bins are signed 32-bit. */
  const BIN_MIN: int := -0x8000_0000
  const BIN_MAX: int := 0x7FFF_FFFF

  // ---- opcodes ----

  const HEADER: nat := 0x01
  const FOOTER: nat := 0x02
  const QUANTIZATION: nat := 0x03
  const WINDOW_TABLE: nat := 0x04
  const CHUNK: nat := 0x05
  const SH_BAND_STREAM: nat := 0x07
  const CHUNK_INDEX: nat := 0x08
  const DELTA_CHUNK: nat := 0x10

  predicate IsStateOpcode(opcode: nat) {
    opcode == CHUNK || opcode == DELTA_CHUNK
  }

  /** Records that must precede the first state record. */
  predicate IsFrontMatter(opcode: nat) {
    opcode in {0x01, 0x03, 0x04, 0x09, 0x0A, 0x0B, 0x0D, 0x11, 0x12, 0x20, 0x21, 0x22, 0x23, 0x24, 0x25}
  }
}
