# LTR-559 register layer, modelled in Dafny

A model of the register-access layer of the LTR559_RK driver for the LTR-559
ambient-light (ALS) and proximity (PS) sensor, which sits on a two-wire (I2C) bus
at the fixed address 0x23.

The driver has two register primitives. `writeRegister` and `readRegister` each
run one bus transaction and reduce it to a boolean. On top of them sit typed
operations:

- mode control: `alsBegin`, `alsStandby`, `psBegin`, `psStandby`;
- interrupt control: `enableInterrupts`, `disableInterrupts`, `getInterruptStatus`;
- data reads: `alsReadData` (two channels, or their mean) and `psReadData`;
- threshold writes: `alsSetThreshold` and `psSetThreshold`.

The multi-register operations loop over consecutive registers and stop at the
first transaction that fails.

Files:

- `registers.dfy` (module `Registers`): the `uint8`/`uint16` types, the gain
  codes, the register map, and the `REG_x + ii` address arithmetic.
- `codec.dfy` (module `Codec`): the control bytes the driver writes and the
  values it unpacks, as functions whose contracts state their meaning
  (bit fields, 11-bit bound, round trips, mean bounds).
- `bus.dfy` (module `Bus`): the transport's reply to one transaction, the status
  each primitive derives from it, and the specification of the stop-at-first-failure
  loops. `Acked` counts the leading successes, `Stored` gives the register file
  after a prefix of writes, and `StoredAt` and `StoredPrefix` say what that leaves
  in each register.
- `driver.dfy` (module `Driver`): the class `Ltr559`, the device handle. Its state:
  - `regs`, the chip's registers as a `map<uint8, uint8>`;
  - `trace`, the transactions attempted so far;
  - `bus`, an injectable failure oracle: a function from the transaction number
    (`|trace|`) to the transport's reply.

  Every operation of the driver is a method of this class. Each method's
  `ensures` gives the new `trace` and `regs` and the outputs in terms of the old
  state, the oracle and the codec functions.

Bit operations are written with integer arithmetic. `b & m` for a one-bit mask
is `(b / m) % 2`. A low-bit mask is `%`. The shifts `<< 8` and `>> 8` are
`* 0x100` and `/ 0x100`. An `|` of disjoint bit fields is their sum.

## Model

| member | source | states |
|---|---|---|
| Registers.Offset | src/LTR559_RK.cpp:79 | the register number `REG_x + ii` after truncation to `uint8_t`: the sum itself when it is below 0x100, and always congruent to it modulo 0x100 |
| Registers.BlocksAreNamedRegisters | src/LTR559_RK.h:176-193 | `REG_x + ii` for ii < n lands on 0x88..0x8b (ALS data), 0x8d..0x8e (PS data), 0x90..0x93 (PS thresholds), 0x97..0x9a (ALS thresholds), in the map's order |
| Codec.Low | src/LTR559_RK.cpp:96 | `(uint8_t) w` is a byte that differs from `w` by a multiple of 0x100 |
| Codec.High | src/LTR559_RK.cpp:97 | `(uint8_t) (w >> 8)` is the byte `b` with `0x100 * b <= w < 0x100 * (b + 1)` |
| Codec.Word | src/LTR559_RK.cpp:84-85 | joining a low and a high byte little-endian gives a 16-bit value whose low and high bytes are exactly those two |
| Codec.WordOfBytes | src/LTR559_RK.cpp:96-97 | splitting a 16-bit value into `(uint8_t) w` and `(uint8_t) (w >> 8)` and joining them gives it back |
| Codec.Low12Bits | src/LTR559_RK.cpp:98-99 | low byte plus high byte masked with 0x0f is the value's 12 low bits |
| Codec.AlsControl | src/LTR559_RK.cpp:50-52 | the ALS control byte always has bit 0 (active mode) set and bit 1 clear; bits 2 and up are the gain truncated to 6 bits; a 3-bit gain code is recovered from the gain field |
| Codec.AlsGainCodesDistinct | src/LTR559_RK.h:161-166 | the six documented gain codes give six different control bytes, none equal to the standby byte 0 |
| Codec.PsControl | src/LTR559_RK.cpp:111-119 | the PS control byte has both mode bits set, bit 5 set exactly when the saturation indicator is requested, and no other bit |
| Codec.PsControlBytes | src/LTR559_RK.cpp:112-115 | the PS control byte is 0x03, or 0x23 with the saturation indicator |
| Codec.InterruptControl | src/LTR559_RK.cpp:17-26 | the interrupt byte is at most 7; bit 0 is the PS enable, bit 1 the ALS enable, bit 2 active-high polarity |
| Codec.InterruptControlExample | src/LTR559_RK.cpp:17-26 | ALS on, PS off, active high gives 0b110 |
| Codec.AlsInterrupt | src/LTR559_RK.cpp:43 | the ALS interrupt flag `status & 0b1000` is set exactly when the status modulo 0x10 is at least 0x08 |
| Codec.PsInterrupt | src/LTR559_RK.cpp:44 | the PS interrupt flag `status & 0b0010` is set exactly when the status modulo 0x04 is at least 0x02 |
| Codec.InterruptFlagExamples | src/LTR559_RK.cpp:38-44 | status 0 (what a failed read leaves) raises neither flag; 0b1010 raises both (bit 3 ALS, bit 1 PS) |
| Codec.PsValue | src/LTR559_RK.cpp:138 | the proximity value is at most 0x7ff; its low byte is the first byte and its high byte the second byte's 3 low bits |
| Codec.PsSaturated | src/LTR559_RK.cpp:139-141 | the saturation indicator is set exactly when the second byte is at least 0x80 (bit 7) |
| Codec.Mean | src/LTR559_RK.cpp:66 | the mean of two 16-bit channels lies between them and is half their sum rounded down; it fits 16 bits |
| Codec.AlsThresholdBytes | src/LTR559_RK.cpp:96-99 | the four ALS threshold bytes rejoin to `upper` exactly (high byte unmasked) and to `lower & 0x0fff` |
| Codec.PsThresholdBytes | src/LTR559_RK.cpp:150-153 | the four PS threshold bytes rejoin to `upper & 0x0fff` and `lower & 0x0fff` |
| Bus.Status | src/LTR559_RK.cpp:194-204 | a read's status is 0 exactly when the address phase status is 0 and a byte is available; a non-zero phase status is kept; a missing byte gives status 4; a write's status is its transmission status |
| Bus.Acked | src/LTR559_RK.cpp:101-106 | the number of transactions before the first failure: all of them succeed, and the next one (if any) fails |
| Bus.AckedAll | src/LTR559_RK.cpp:101-107 | the run of successes covers all n transactions exactly when every one of them succeeds |
| Bus.Attempts | src/LTR559_RK.cpp:101-106 | a loop that breaks after its first failure attempts k + 1 transactions when k < n succeed, and n when all do |
| Bus.Stored | src/LTR559_RK.cpp:101-106 | the register file after a loop's successful writes keeps every register it had, and the last value written is in its register |
| Bus.StoredAt | src/LTR559_RK.cpp:101-106 | after storing a block of values that does not wrap, register base + i holds value i, and every register outside the block is unchanged |
| Bus.StoredPrefix | src/LTR559_RK.cpp:155-160 | after a loop's first k writes took effect, exactly the registers base .. base + k - 1 hold their values and all others are unchanged |
| Driver.Ltr559.constructor | src/LTR559_RK.h:196-198 | the handle addresses 0x23 and uses the given transport and register file, with nothing attempted yet |
| Driver.Ltr559.WriteRegister | src/LTR559_RK.cpp:166-184 | one write transaction is recorded; it succeeds exactly when the transmission status is 0, and only then does the register take the value |
| Driver.Ltr559.ReadRegister | src/LTR559_RK.cpp:186-216 | one read transaction is recorded and nothing changes; it succeeds exactly when the status is 0 and a byte arrives; the value is the register on success and 0 otherwise |
| Driver.Ltr559.ReadBlock | src/LTR559_RK.cpp:78-83 | reads registers base + ii in order and stops after the first failure; ok only if all succeeded; slots before the failure hold the registers, the failed slot 0, later slots are untouched |
| Driver.Ltr559.WriteBlock | src/LTR559_RK.cpp:101-107 | writes base + ii in order and stops after the first failure; ok only if all succeeded; exactly the writes before the failure took effect |
| Driver.Ltr559.EnableInterrupts | src/LTR559_RK.cpp:14-31 | exactly one write, of the interrupt control byte, to 0x8f; returns that write's success; `activeHigh` defaults to false, as declared at src/LTR559_RK.h:36 |
| Driver.Ltr559.DisableInterrupts | src/LTR559_RK.cpp:33-35 | exactly one write of 0 to 0x8f; returns its success |
| Driver.Ltr559.GetInterruptStatus | src/LTR559_RK.cpp:37-47 | one read of 0x8c; on success the flags are bits 3 and 1 of that register, on failure both are false |
| Driver.Ltr559.AlsBegin | src/LTR559_RK.cpp:50-52 | exactly one write of the ALS control byte for the gain to 0x80 |
| Driver.Ltr559.AlsStandby | src/LTR559_RK.cpp:54-56 | exactly one write of 0 to 0x80 |
| Driver.Ltr559.AlsReadChannels | src/LTR559_RK.cpp:72-90 | reads 0x88..0x8b in order, stopping at the first failure; on success channel 1 is 0x88/0x89 and channel 0 is 0x8a/0x8b, little-endian |
| Driver.Ltr559.AlsReadData | src/LTR559_RK.cpp:58-69 | the same reads and success flag as the two-channel read; on success the result is the mean of the two channels |
| Driver.Ltr559.AlsSetThreshold | src/LTR559_RK.cpp:92-108 | writes the four ALS threshold bytes to 0x97..0x9a, stopping at the first failure; on success the registers rejoin to `upper` and `lower & 0x0fff` |
| Driver.Ltr559.PsBegin | src/LTR559_RK.cpp:111-119 | exactly one write of the PS control byte to 0x81 |
| Driver.Ltr559.PsStandby | src/LTR559_RK.cpp:121-123 | exactly one write of 0 to 0x81 |
| Driver.Ltr559.PsReadData | src/LTR559_RK.cpp:125-144 | reads 0x8d, 0x8e in order, stopping at the first failure; the value is always at most 0x7ff; on success it is the 11-bit value and the saturation bit of those registers |
| Driver.Ltr559.PsSetThreshold | src/LTR559_RK.cpp:146-163 | writes the four PS threshold bytes to 0x90..0x93, stopping at the first failure; on success the registers rejoin to `upper & 0x0fff` and `lower & 0x0fff` |

## Left out

- Bus locking (`wire.lock()` / `wire.unlock()`): it only gives mutual exclusion between threads. Each primitive is modelled as one atomic transaction.
- The transport's internals (`beginTransmission`, `write`, `endTransmission`, `requestFrom`, `available`, `read`): `TwoWire` is not part of this model. The transport is the `bus` oracle, which gives the status and byte availability of each transaction. The byte itself comes from the register file.
- The extra zero byte that `readRegister` sends after the register number: its effect on the chip cannot be known from the driver, so a read is recorded as a single `ReadTxn`.
- The bus address is a constant field of the handle (0x23). It is not recorded in each transaction.
- Logging of failed transactions and their raw status: logging is output only. The primitives return only the boolean, as in the source.
- Chip behaviour, such as reading 0x8c clearing the latched interrupt, or data registers changing between reads: the register file changes only by the driver's own successful writes.
- A write the bus reports as failed leaves the register file unchanged. The driver cannot know what the chip stored, so this is a modelling choice.
- The empty constructor and destructor, and the polling example program (`examples/simple/simple.cpp`), which has no logic of its own.
- The four loops of the source (two reads, two threshold writes) share two helper methods, `ReadBlock` and `WriteBlock`. These require the block not to wrap past register 0xff, which holds for every block the driver uses (`BlocksAreNamedRegisters`).
- Driver.Ltr559.AlsReadChannels: on failure the source computes the channels from a partly uninitialised byte array. The model's array starts with arbitrary contents, so the contract says nothing about the channels when the read fails. The same holds for AlsReadData and PsReadData.
