/** The closed-form bit expressions of the driver: the bytes it writes to the
    control registers and the values it unpacks from the data registers.

    Bytes and 16-bit values are the unsigned integers of `uint8` and `uint16`.
    Bit operations are written arithmetically: `b & m` for a one-bit mask `m`
    is `(b / m) % 2`, a mask of the low `k` bits is `% 2^k`, `<< 8` is `* 0x100`,
    `>> 8` is `/ 0x100`, and `|` of values with disjoint bits is their sum. */
module Codec {
  import opened Registers

  /** The low byte of a 16-bit value, as `(uint8_t) w` truncates it. */
  function Low(w: uint16): (b: uint8)
    ensures (w - b) % 0x100 == 0
  {
    w % 0x100
  }

  /** The high byte of a 16-bit value, as `(uint8_t) (w >> 8)`. */
  function High(w: uint16): (b: uint8)
    ensures 0x100 * b <= w < 0x100 * (b + 1)
  {
    w / 0x100
  }

  /** Little-endian join of two register bytes, `lo | (hi << 8)`. */
  function Word(lo: uint8, hi: uint8): (w: uint16)
    ensures Low(w) == lo && High(w) == hi
  {
    lo + hi * 0x100
  }

  /** Masking the high byte with 0x0f keeps the 12 low bits of a 16-bit value. */
  lemma Low12Bits(w: uint16)
    ensures Word(Low(w), High(w) % 0x10) == w % 0x1000
  {
    var q, r := w / 0x100, w % 0x100;
    var p, s := q / 0x10, q % 0x10;
    assert w == p * 0x1000 + (s * 0x100 + r);
    assert 0 <= s * 0x100 + r < 0x1000;
  }

  /** Splitting a value into its two bytes and joining them again is the identity. */
  lemma WordOfBytes(w: uint16)
    ensures Word(Low(w), High(w)) == w
  {
  }

  // ---------------------------------------------------------------------------
  // Control bytes

  /** The gain field (bits 4..2) of an ALS control byte. */
  function AlsGainField(b: uint8): uint8 {
    (b / 0x04) % 0x08
  }

  /** The ALS control byte for `gain`, `0x1 | (gain << 2)`: active mode in bit 0
      and the gain code from bit 2 up. The shifted value is truncated to a byte,
      since the register write takes a `uint8_t`; codes are not validated. */
  function AlsControl(gain: uint8): (b: uint8)
    ensures b % 0x02 == 1 && (b / 0x02) % 0x02 == 0
    ensures b / 0x04 == gain % 0x40
    ensures gain < 0x08 ==> AlsGainField(b) == gain
  {
    var g := gain % 0x40;
    assert gain * 0x04 == (gain / 0x40) * 0x100 + g * 0x04;
    assert (0x01 + gain * 0x04) % 0x100 == 0x01 + g * 0x04;
    (0x01 + gain * 0x04) % 0x100
  }

  /** Every documented gain code gives its own control byte, never the standby byte 0. */
  lemma AlsGainCodesDistinct(g: uint8, h: uint8)
    requires g in ALS_GAINS && h in ALS_GAINS
    ensures AlsControl(g) == AlsControl(h) <==> g == h
    ensures AlsControl(g) != 0x00
  {
  }

  /** The PS control byte: both mode bits (active mode) and, when requested,
      the saturation-indicator enable bit 5 (0x20); no other bit. */
  function PsControl(enableSaturationIndicator: bool): (b: uint8)
    ensures b % 0x04 == 0x03
    ensures ((b / 0x20) % 0x02 == 1) == enableSaturationIndicator
    ensures b < 0x40 && (b / 0x04) % 0x08 == 0
  {
    0x03 + (if enableSaturationIndicator then 0x20 else 0x00)
  }

  /** The interrupt control byte: bit 0 enables the PS interrupt, bit 1 the ALS
      interrupt, bit 2 selects active-high polarity; nothing else is set. */
  function InterruptControl(alsEnable: bool, psEnable: bool, activeHigh: bool): (b: uint8)
    ensures b <= 0x07
    ensures (b % 0x02 == 1) == psEnable
    ensures ((b / 0x02) % 0x02 == 1) == alsEnable
    ensures ((b / 0x04) % 0x02 == 1) == activeHigh
  {
    (if activeHigh then 0x04 else 0x00) + (if alsEnable then 0x02 else 0x00) + (if psEnable then 0x01 else 0x00)
  }

  /** The PS control byte is 0x03, or 0x23 with the saturation indicator. */
  lemma PsControlBytes()
    ensures PsControl(false) == 0x03 && PsControl(true) == 0x23
  {
  }

  /** The interrupt byte for ALS on, PS off, active high is 0b110. */
  lemma InterruptControlExample()
    ensures InterruptControl(true, false, true) == 0x06
  {
  }

  // ---------------------------------------------------------------------------
  // Data and status decoding

  /** The ALS interrupt flag of the status register, `status & 0b1000`. */
  predicate AlsInterrupt(status: uint8)
    ensures AlsInterrupt(status) <==> status % 0x10 >= 0x08
  {
    (status / 0x08) % 0x02 == 1
  }

  /** The PS interrupt flag of the status register, `status & 0b0010`. */
  predicate PsInterrupt(status: uint8)
    ensures PsInterrupt(status) <==> status % 0x04 >= 0x02
  {
    (status / 0x02) % 0x02 == 1
  }

  /** The status byte 0 (what a failed read yields) raises neither flag, and
      0b1010 raises both. */
  lemma InterruptFlagExamples()
    ensures !AlsInterrupt(0x00) && !PsInterrupt(0x00)
    ensures AlsInterrupt(0x0a) && PsInterrupt(0x0a)
  {
  }

  /** The 11-bit proximity value, `b0 | ((b1 & 0x07) << 8)`. */
  function PsValue(b0: uint8, b1: uint8): (v: uint16)
    ensures v <= 0x7ff
    ensures Low(v) == b0 && High(v) == b1 % 0x08
  {
    b0 + (b1 % 0x08) * 0x100
  }

  /** The saturation indicator, `b1 & 0x80`: the top bit of the second proximity byte. */
  predicate PsSaturated(b1: uint8)
    ensures PsSaturated(b1) <==> b1 >= 0x80
  {
    (b1 / 0x80) % 0x02 == 1
  }

  /** The truncated mean of the two ALS channels. The source widens both to 32
      bits before adding, so the sum never overflows and the mean fits 16 bits. */
  function Mean(data0: uint16, data1: uint16): (m: uint16)
    ensures data0 <= data1 ==> data0 <= m <= data1
    ensures data1 <= data0 ==> data1 <= m <= data0
    ensures 2 * m == data0 + data1 || 2 * m + 1 == data0 + data1
  {
    (data0 + data1) / 2
  }

  // ---------------------------------------------------------------------------
  // Thresholds

  /** The four bytes written for the ALS thresholds, in register order: upper low,
      upper high, lower low, lower high masked with 0x0f. The upper high byte is
      not masked. */
  function AlsThresholdBytes(lower: uint16, upper: uint16): (b: seq<uint8>)
    ensures |b| == 4
    ensures Word(b[0], b[1]) == upper
    ensures Word(b[2], b[3]) == lower % 0x1000
  {
    Low12Bits(lower);
    [Low(upper), High(upper), Low(lower), High(lower) % 0x10]
  }

  /** The four bytes written for the PS thresholds, in register order: upper low,
      upper high masked with 0x0f, lower low, lower high masked with 0x0f. */
  function PsThresholdBytes(lower: uint16, upper: uint16): (b: seq<uint8>)
    ensures |b| == 4
    ensures Word(b[0], b[1]) == upper % 0x1000
    ensures Word(b[2], b[3]) == lower % 0x1000
  {
    Low12Bits(upper);
    Low12Bits(lower);
    [Low(upper), High(upper) % 0x10, Low(lower), High(lower) % 0x10]
  }
}
