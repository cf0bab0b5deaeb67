/** The fixed constants of the LTR-559 chip: its bus address, the ALS gain codes
    and the register map. None of them is configurable. */
module Registers {

  /** An unsigned byte (`uint8_t`): a register number or a register's contents. */
  type uint8 = x: int | 0 <= x < 0x100

  /** An unsigned 16-bit value (`uint16_t`). */
  type uint16 = x: int | 0 <= x < 0x1_0000

  /** The chip answers on this 7-bit bus address only. */
  const DEFAULT_I2C_ADDRESS: uint8 := 0x23

  /** ALS gain codes, written into bits 4..2 of the ALS control register. */
  const ALS_GAIN_1X: uint8 := 0x0
  const ALS_GAIN_2X: uint8 := 0x1
  const ALS_GAIN_4X: uint8 := 0x2
  const ALS_GAIN_8X: uint8 := 0x3
  const ALS_GAIN_48X: uint8 := 0x6
  const ALS_GAIN_96X: uint8 := 0x7

  const ALS_GAINS: set<uint8> :=
    {ALS_GAIN_1X, ALS_GAIN_2X, ALS_GAIN_4X, ALS_GAIN_8X, ALS_GAIN_48X, ALS_GAIN_96X}

  const REG_ALS_CONTR: uint8 := 0x80
  const REG_PS_CONTR: uint8 := 0x81
  const REG_PS_LED: uint8 := 0x82
  const REG_PS_N_PULSES: uint8 := 0x83
  const REG_PS_MEAS_RATE: uint8 := 0x84
  const REG_ALS_MEAS_RATE: uint8 := 0x85
  const REG_PART_ID: uint8 := 0x86
  const REG_MANUFAC_ID: uint8 := 0x87
  const REG_ALS_DATA_CH1_0: uint8 := 0x88
  const REG_ALS_DATA_CH1_1: uint8 := 0x89
  const REG_ALS_DATA_CH0_0: uint8 := 0x8a
  const REG_ALS_DATA_CH0_1: uint8 := 0x8b
  const REG_ALS_PS_STATUS: uint8 := 0x8c
  const REG_PS_DATA_0: uint8 := 0x8d
  const REG_PS_DATA_1: uint8 := 0x8e
  const REG_INTERRUPT: uint8 := 0x8f
  const REG_PS_THRES_UP_0: uint8 := 0x90
  const REG_PS_THRES_UP_1: uint8 := 0x91
  const REG_PS_THRES_LOW_0: uint8 := 0x92
  const REG_PS_THRES_LOW_1: uint8 := 0x93
  const REG_OFFSET_1: uint8 := 0x94
  const REG_OFFSET_0: uint8 := 0x95
  const REG_ALS_THRES_UP_0: uint8 := 0x97
  const REG_ALS_THRES_UP_1: uint8 := 0x98
  const REG_ALS_THRES_LOW_0: uint8 := 0x99
  const REG_ALS_THRES_LOW_1: uint8 := 0x9a
  const REG_INTERRUPT_PERSIST: uint8 := 0x9e

  /** The register number `reg + ii` as the driver passes it on: the sum is
      truncated to a `uint8_t`. */
  function Offset(reg: uint8, ii: nat): (r: uint8)
    ensures reg + ii < 0x100 ==> r == reg + ii
    ensures (reg + ii - r) % 0x100 == 0
  {
    (reg + ii) % 0x100
  }

  /** The `n` register numbers `Offset(base, 0), ..., Offset(base, n - 1)` that a
      loop over `ii` touches. */
  function Block(base: uint8, n: nat): (regs: seq<uint8>)
    ensures |regs| == n
    ensures forall i :: 0 <= i < n ==> regs[i] == Offset(base, i)
  {
    seq(n, i requires 0 <= i < n => Offset(base, i))
  }

  /** Each `REG_x + ii` loop of the driver lands on the registers the map names,
      in the map's order, and never wraps past 0xff. */
  lemma BlocksAreNamedRegisters()
    ensures Block(REG_ALS_DATA_CH1_0, 4)
         == [REG_ALS_DATA_CH1_0, REG_ALS_DATA_CH1_1, REG_ALS_DATA_CH0_0, REG_ALS_DATA_CH0_1]
    ensures Block(REG_PS_DATA_0, 2) == [REG_PS_DATA_0, REG_PS_DATA_1]
    ensures Block(REG_PS_THRES_UP_0, 4)
         == [REG_PS_THRES_UP_0, REG_PS_THRES_UP_1, REG_PS_THRES_LOW_0, REG_PS_THRES_LOW_1]
    ensures Block(REG_ALS_THRES_UP_0, 4)
         == [REG_ALS_THRES_UP_0, REG_ALS_THRES_UP_1, REG_ALS_THRES_LOW_0, REG_ALS_THRES_LOW_1]
  {
  }
}
