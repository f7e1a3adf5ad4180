/**
 * Wire-protocol command bytes and the seven-segment bit patterns of the
 * TM1637/TM1638 driver. A segment pattern is one byte: bit 0 is segment A
 * (top), bit 1 segment B, ..., bit 6 segment G (middle), bit 7 the dot.
 */
module Chars {
  /** Data control instruction set. */
  const COM_DATA: bv8 := 0x40
  /** Display control instruction set. */
  const COM_DISPLAY: bv8 := 0x80
  /** Address instruction set. */
  const COM_ADDRESS: bv8 := 0xC0
  /** Write with automatic address increment. */
  const COM_DATA_ADDRESS_ADD: bv8 := COM_DATA | 0x00
  /** Write to a fixed address. */
  const COM_DATA_ADDRESS_FIXED: bv8 := COM_DATA | 0x04
  /** Read key-scan data. */
  const COM_DATA_READ: bv8 := COM_DATA | 0x02
  /** Display on at full brightness; the low three bits select brightness. */
  const COM_DISPLAY_ON: bv8 := 0x88
  const DISPLAY_BRIGHTNESS_MASK: bv8 := 0x07
  const COM_DISPLAY_OFF: bv8 := 0x80

  const SEG_1: bv8 := 0x01
  const SEG_2: bv8 := 0x02
  const SEG_3: bv8 := 0x04
  const SEG_4: bv8 := 0x08
  const SEG_5: bv8 := 0x10
  const SEG_6: bv8 := 0x20
  const SEG_7: bv8 := 0x40
  const SEG_8: bv8 := 0x80

  const CHAR_0: bv8 := SEG_1 | SEG_2 | SEG_3 | SEG_4 | SEG_5 | SEG_6
  const CHAR_1: bv8 := SEG_2 | SEG_3
  const CHAR_2: bv8 := SEG_1 | SEG_2 | SEG_4 | SEG_5 | SEG_7
  const CHAR_3: bv8 := SEG_1 | SEG_2 | SEG_3 | SEG_4 | SEG_7
  const CHAR_4: bv8 := SEG_2 | SEG_3 | SEG_6 | SEG_7
  const CHAR_5: bv8 := SEG_1 | SEG_3 | SEG_4 | SEG_6 | SEG_7
  const CHAR_6: bv8 := SEG_1 | SEG_3 | SEG_4 | SEG_5 | SEG_6 | SEG_7
  const CHAR_7: bv8 := SEG_1 | SEG_2 | SEG_3
  const CHAR_8: bv8 := SEG_1 | SEG_2 | SEG_3 | SEG_4 | SEG_5 | SEG_6 | SEG_7
  const CHAR_9: bv8 := SEG_1 | SEG_2 | SEG_3 | SEG_4 | SEG_6 | SEG_7
  const CHAR_A: bv8 := SEG_1 | SEG_2 | SEG_3 | SEG_5 | SEG_6 | SEG_7
  const CHAR_LOWER_A: bv8 := SEG_1 | SEG_2 | SEG_3 | SEG_4 | SEG_5 | SEG_7
  const CHAR_LOWER_B: bv8 := SEG_3 | SEG_4 | SEG_5 | SEG_6 | SEG_7
  const CHAR_C: bv8 := SEG_1 | SEG_4 | SEG_5 | SEG_6
  const CHAR_LOWER_C: bv8 := SEG_4 | SEG_5 | SEG_7
  const CHAR_LOWER_D: bv8 := SEG_2 | SEG_3 | SEG_4 | SEG_5 | SEG_7
  const CHAR_E: bv8 := SEG_1 | SEG_4 | SEG_5 | SEG_6 | SEG_7
  const CHAR_LOWER_E: bv8 := SEG_1 | SEG_2 | SEG_4 | SEG_5 | SEG_6 | SEG_7
  const CHAR_F: bv8 := SEG_1 | SEG_5 | SEG_6 | SEG_7
  const CHAR_G: bv8 := SEG_1 | SEG_3 | SEG_4 | SEG_5 | SEG_6
  const CHAR_H: bv8 := SEG_2 | SEG_3 | SEG_5 | SEG_6 | SEG_7
  const CHAR_LOWER_H: bv8 := SEG_3 | SEG_5 | SEG_6 | SEG_7
  const CHAR_I: bv8 := SEG_2 | SEG_3
  const CHAR_LOWER_I: bv8 := SEG_3
  const CHAR_J: bv8 := SEG_2 | SEG_3 | SEG_4 | SEG_5
  const CHAR_L: bv8 := SEG_4 | SEG_5 | SEG_6
  const CHAR_LOWER_L: bv8 := SEG_4 | SEG_5
  const CHAR_N: bv8 := SEG_1 | SEG_2 | SEG_3 | SEG_5 | SEG_6
  const CHAR_LOWER_N: bv8 := SEG_3 | SEG_5 | SEG_7
  const CHAR_O: bv8 := SEG_1 | SEG_2 | SEG_3 | SEG_4 | SEG_5 | SEG_6
  const CHAR_LOWER_O: bv8 := SEG_3 | SEG_4 | SEG_5 | SEG_7
  const CHAR_P: bv8 := SEG_1 | SEG_2 | SEG_5 | SEG_6 | SEG_7
  const CHAR_LOWER_Q: bv8 := SEG_1 | SEG_2 | SEG_3 | SEG_6 | SEG_7
  const CHAR_R: bv8 := SEG_1 | SEG_5 | SEG_6
  const CHAR_LOWER_R: bv8 := SEG_5 | SEG_7
  const CHAR_S: bv8 := SEG_1 | SEG_3 | SEG_4 | SEG_6 | SEG_7
  const CHAR_LOWER_T: bv8 := SEG_4 | SEG_5 | SEG_6 | SEG_7
  const CHAR_U: bv8 := SEG_2 | SEG_3 | SEG_4 | SEG_5 | SEG_6
  const CHAR_LOWER_U: bv8 := SEG_3 | SEG_4 | SEG_5
  const CHAR_LOWER_Y: bv8 := SEG_2 | SEG_3 | SEG_4 | SEG_6 | SEG_7
  const CHAR_CYR_E: bv8 := SEG_1 | SEG_2 | SEG_3 | SEG_4 | SEG_7
  const CHAR_CYR_B: bv8 := SEG_1 | SEG_3 | SEG_4 | SEG_5 | SEG_6 | SEG_7
  const CHAR_DEGREE: bv8 := SEG_1 | SEG_2 | SEG_6 | SEG_7
  const CHAR_MINUS: bv8 := SEG_7
  const CHAR_UNDERSCORE: bv8 := SEG_4
  const CHAR_BRACKET_LEFT: bv8 := SEG_1 | SEG_4 | SEG_5 | SEG_6
  const CHAR_BRACKET_RIGHT: bv8 := SEG_1 | SEG_2 | SEG_3 | SEG_4

  /** The segment pattern of each decimal digit, indexed by the digit. */
  const DIGITS: seq<bv8> :=
    [CHAR_0, CHAR_1, CHAR_2, CHAR_3, CHAR_4, CHAR_5, CHAR_6, CHAR_7, CHAR_8, CHAR_9]
}
