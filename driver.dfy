/** The LTR-559 driver: typed operations on the chip built from two register
    primitives, one write and one read, each a single bus transaction. */
module Driver {
  import opened Registers
  import opened Codec
  import opened Bus

  /** The device handle. The chip is modelled as a register file; the bus
      transport as an oracle that gives the reply to each transaction by its
      number; and every transaction the driver attempts is recorded in a trace. */
  class Ltr559 {
    /** The bus address of every transaction. */
    const i2cAddress: uint8
    /** The transport's reply to the transaction numbered `n` (0 is the first). */
    const bus: nat -> BusReply
    /** The contents of the chip's registers. */
    var regs: map<uint8, uint8>
    /** The transactions attempted so far, oldest first; its length is the
        number of the next transaction. */
    var trace: seq<Transaction>

    /** Every register has contents. */
    ghost predicate Valid()
      reads this
    {
      forall r: uint8 :: r in regs
    }

    constructor (bus: nat -> BusReply, regs: map<uint8, uint8>)
      requires forall r: uint8 :: r in regs
      ensures Valid()
      ensures i2cAddress == DEFAULT_I2C_ADDRESS && this.bus == bus
      ensures this.regs == regs && trace == []
    {
      i2cAddress := DEFAULT_I2C_ADDRESS;
      this.bus := bus;
      this.regs := regs;
      trace := [];
    }

    // -------------------------------------------------------------------------
    // How the state changes, given the state before

    /** One call of the write primitive: `value` was sent to `reg`, the register
        holds it if and only if the bus acknowledged the transaction, and `ok`
        says which. */
    ghost predicate WroteOne(trace0: seq<Transaction>, regs0: map<uint8, uint8>, reg: uint8, value: uint8, ok: bool)
      reads this
    {
      && trace == trace0 + [WriteTxn(reg, value)]
      && ok == Acks(WriteOp, bus(|trace0|))
      && regs == (if ok then regs0[reg := value] else regs0)
    }

    /** A loop reading the `n` registers from `base` on, stopping after its first
        failed read: the reads it attempted, and `ok` only if all `n` succeeded. */
    ghost predicate ReadBurst(trace0: seq<Transaction>, base: uint8, n: nat, ok: bool)
      reads this
    {
      var k := Acked(bus, ReadOp, |trace0|, n);
      && ok == (0 < n && k == n)
      && trace == trace0 + Reads(base, Attempts(k, n))
    }

    /** A loop writing `values` to the registers from `base` on, stopping after
        its first failed write: the writes it attempted, the registers that took
        a value, and `ok` only if every write succeeded. */
    ghost predicate WriteBurst(trace0: seq<Transaction>, regs0: map<uint8, uint8>, base: uint8, values: seq<uint8>, ok: bool)
      reads this
    {
      var k := Acked(bus, WriteOp, |trace0|, |values|);
      && ok == (0 < |values| && k == |values|)
      && trace == trace0 + Writes(base, values[..Attempts(k, |values|)])
      && regs == Stored(regs0, base, values[..k])
    }

    // -------------------------------------------------------------------------
    // Register primitives

    /** Write one register: address the chip, send the register number and the
        value, end with a stop condition; success is a transmission status of 0. */
    method WriteRegister(reg: uint8, value: uint8) returns (ok: bool)
      requires Valid()
      modifies this
      ensures Valid()
      ensures WroteOne(old(trace), old(regs), reg, value, ok)
    {
      var stat := bus(|trace|).status;
      trace := trace + [WriteTxn(reg, value)];
      if stat == 0 {
        regs := regs[reg := value];
      }
      ok := stat == 0;
    }

    /** Read one register: send the register number without a stop condition,
        then, if that succeeded, request one byte. A byte that is not available
        is a timeout. The value is 0 unless the read succeeded. */
    method ReadRegister(reg: uint8) returns (ok: bool, value: uint8)
      requires Valid()
      modifies this
      ensures Valid() && regs == old(regs)
      ensures trace == old(trace) + [ReadTxn(reg)]
      ensures ok == Acks(ReadOp, bus(|old(trace)|))
      ensures value == if ok then regs[reg] else 0
    {
      value := 0;
      var reply := bus(|trace|);
      trace := trace + [ReadTxn(reg)];
      var stat := reply.status;
      if stat == 0 {
        if reply.available {
          value := regs[reg];
        } else {
          stat := STATUS_DATA_TIMEOUT;
        }
      }
      ok := stat == 0;
    }

    // -------------------------------------------------------------------------
    // The loops over consecutive registers

    /** Read the registers `base + ii` into `value[ii]`, for each `ii` in turn,
        and stop after the first read that fails. Slots before the failure hold
        the registers, the failed slot holds 0, and later slots are untouched. */
    method ReadBlock(base: uint8, value: array<uint8>) returns (ok: bool)
      requires Valid() && base + value.Length <= 0x100
      modifies this, value
      ensures Valid() && regs == old(regs)
      ensures ReadBurst(old(trace), base, value.Length, ok)
      ensures var k := Acked(bus, ReadOp, |old(trace)|, value.Length);
        && (forall j :: 0 <= j < k ==> value[j] == regs[base + j])
        && (k < value.Length ==> value[k] == 0)
        && (forall j :: k < j < value.Length ==> value[j] == old(value[j]))
    {
      ghost var t0 := |trace|;
      ok := false;
      var ii := 0;
      while ii < value.Length
        invariant 0 <= ii <= value.Length
        invariant Valid() && regs == old(regs)
        invariant trace == old(trace) + Reads(base, ii)
        invariant forall j :: t0 <= j < t0 + ii ==> Acks(ReadOp, bus(j))
        invariant ok == (0 < ii)
        invariant forall j :: 0 <= j < ii ==> value[j] == regs[base + j]
        invariant forall j :: ii <= j < value.Length ==> value[j] == old(value[j])
      {
        var b;
        ok, b := ReadRegister(Offset(base, ii));
        value[ii] := b;
        if !ok {
          break;
        }
        assert Reads(base, ii + 1) == Reads(base, ii) + [ReadTxn(Offset(base, ii))];
        ii := ii + 1;
      }
      assert ii == Acked(bus, ReadOp, t0, value.Length);
    }

    /** Write `values[ii]` to register `base + ii`, for each `ii` in turn, and stop
        after the first write that fails. The registers written before the failure
        take their values (what that leaves in each register is `StoredPrefix`). */
    method WriteBlock(base: uint8, values: seq<uint8>) returns (ok: bool)
      requires Valid() && base + |values| <= 0x100
      modifies this
      ensures Valid()
      ensures WriteBurst(old(trace), old(regs), base, values, ok)
    {
      ghost var t0 := |trace|;
      ok := false;
      var ii := 0;
      while ii < |values|
        invariant 0 <= ii <= |values|
        invariant Valid()
        invariant trace == old(trace) + Writes(base, values[..ii])
        invariant regs == Stored(old(regs), base, values[..ii])
        invariant forall j :: t0 <= j < t0 + ii ==> Acks(WriteOp, bus(j))
        invariant ok == (0 < ii)
      {
        ok := WriteRegister(Offset(base, ii), values[ii]);
        WritesSnoc(base, values, ii);
        if !ok {
          break;
        }
        StoredSnoc(old(regs), base, values, ii);
        ii := ii + 1;
      }
      assert ii == Acked(bus, WriteOp, t0, |values|);
    }

    // -------------------------------------------------------------------------
    // Interrupts

    /** Write the interrupt control byte built from the three flags; the
        polarity is active low unless `activeHigh` is given. */
    method EnableInterrupts(alsEnable: bool, psEnable: bool, activeHigh: bool := false) returns (ok: bool)
      requires Valid()
      modifies this
      ensures Valid()
      ensures WroteOne(old(trace), old(regs), REG_INTERRUPT, InterruptControl(alsEnable, psEnable, activeHigh), ok)
    {
      var value: uint8 := 0;
      if activeHigh {
        value := value + 0x04;
      }
      if psEnable {
        value := value + 0x01;
      }
      if alsEnable {
        value := value + 0x02;
      }
      ok := WriteRegister(REG_INTERRUPT, value);
    }

    /** Write 0 to the interrupt control register. */
    method DisableInterrupts() returns (ok: bool)
      requires Valid()
      modifies this
      ensures Valid()
      ensures WroteOne(old(trace), old(regs), REG_INTERRUPT, 0x00, ok)
    {
      ok := WriteRegister(REG_INTERRUPT, 0x00);
    }

    /** Read the status register and decode its two interrupt flags; when the
        read fails the status is 0, so both flags are false. */
    method GetInterruptStatus() returns (ok: bool, alsInterrupt: bool, psInterrupt: bool)
      requires Valid()
      modifies this
      ensures Valid() && regs == old(regs)
      ensures trace == old(trace) + [ReadTxn(REG_ALS_PS_STATUS)]
      ensures ok == Acks(ReadOp, bus(|old(trace)|))
      ensures ok ==> (alsInterrupt == AlsInterrupt(regs[REG_ALS_PS_STATUS])
                   && psInterrupt == PsInterrupt(regs[REG_ALS_PS_STATUS]))
      ensures !ok ==> !alsInterrupt && !psInterrupt
    {
      var status;
      ok, status := ReadRegister(REG_ALS_PS_STATUS);
      alsInterrupt := AlsInterrupt(status);
      psInterrupt := PsInterrupt(status);
    }

    // -------------------------------------------------------------------------
    // Ambient light sensor

    /** Put the ALS in active mode with the given gain code. */
    method AlsBegin(gain: uint8) returns (ok: bool)
      requires Valid()
      modifies this
      ensures Valid()
      ensures WroteOne(old(trace), old(regs), REG_ALS_CONTR, AlsControl(gain), ok)
    {
      ok := WriteRegister(REG_ALS_CONTR, AlsControl(gain));
    }

    /** Put the ALS in standby: write 0 to its control register. */
    method AlsStandby() returns (ok: bool)
      requires Valid()
      modifies this
      ensures Valid()
      ensures WroteOne(old(trace), old(regs), REG_ALS_CONTR, 0x00, ok)
    {
      ok := WriteRegister(REG_ALS_CONTR, 0x00);
    }

    /** Read the four ALS data registers, channel 1 first, and join each pair of
        bytes little-endian. The channels are only meaningful when `ok`. */
    method AlsReadChannels() returns (ok: bool, data0: uint16, data1: uint16)
      requires Valid()
      modifies this
      ensures Valid() && regs == old(regs)
      ensures ReadBurst(old(trace), REG_ALS_DATA_CH1_0, 4, ok)
      ensures ok ==> (data1 == Word(regs[REG_ALS_DATA_CH1_0], regs[REG_ALS_DATA_CH1_1])
                   && data0 == Word(regs[REG_ALS_DATA_CH0_0], regs[REG_ALS_DATA_CH0_1]))
    {
      var value := new uint8[4];
      ok := ReadBlock(REG_ALS_DATA_CH1_0, value);
      data1 := Word(value[0], value[1]);
      data0 := Word(value[2], value[3]);
    }

    /** Read both ALS channels and return their truncated mean, with the same
        success flag as the two-channel read. */
    method AlsReadData() returns (ok: bool, data: uint16)
      requires Valid()
      modifies this
      ensures Valid() && regs == old(regs)
      ensures ReadBurst(old(trace), REG_ALS_DATA_CH1_0, 4, ok)
      ensures ok ==> data == Mean(Word(regs[REG_ALS_DATA_CH0_0], regs[REG_ALS_DATA_CH0_1]),
                                  Word(regs[REG_ALS_DATA_CH1_0], regs[REG_ALS_DATA_CH1_1]))
    {
      var data0, data1;
      ok, data0, data1 := AlsReadChannels();
      data := Mean(data0, data1);
    }

    /** Write the ALS thresholds to registers 0x97..0x9a, stopping at the first
        failed write. When every write succeeds, the registers hold `upper` and
        the 12 low bits of `lower`. */
    method AlsSetThreshold(lower: uint16, upper: uint16) returns (ok: bool)
      requires Valid()
      modifies this
      ensures Valid()
      ensures WriteBurst(old(trace), old(regs), REG_ALS_THRES_UP_0, AlsThresholdBytes(lower, upper), ok)
      ensures ok ==> (Word(regs[REG_ALS_THRES_UP_0], regs[REG_ALS_THRES_UP_1]) == upper
                   && Word(regs[REG_ALS_THRES_LOW_0], regs[REG_ALS_THRES_LOW_1]) == lower % 0x1000)
    {
      ok := WriteBlock(REG_ALS_THRES_UP_0, AlsThresholdBytes(lower, upper));
      StoredPrefix(old(regs), REG_ALS_THRES_UP_0, AlsThresholdBytes(lower, upper),
                   Acked(bus, WriteOp, |old(trace)|, 4), regs);
    }

    // -------------------------------------------------------------------------
    // Proximity sensor

    /** Put the PS in active mode, with the saturation indicator if asked for. */
    method PsBegin(enableSaturationIndicator: bool) returns (ok: bool)
      requires Valid()
      modifies this
      ensures Valid()
      ensures WroteOne(old(trace), old(regs), REG_PS_CONTR, PsControl(enableSaturationIndicator), ok)
    {
      var value: uint8 := 0x03;
      if enableSaturationIndicator {
        value := value + 0x20;
      }
      ok := WriteRegister(REG_PS_CONTR, value);
    }

    /** Put the PS in standby: write 0 to its control register. */
    method PsStandby() returns (ok: bool)
      requires Valid()
      modifies this
      ensures Valid()
      ensures WroteOne(old(trace), old(regs), REG_PS_CONTR, 0x00, ok)
    {
      ok := WriteRegister(REG_PS_CONTR, 0x00);
    }

    /** Read the two PS data registers and decode the 11-bit value and the
        saturation indicator. The value fits 11 bits even when a read fails. */
    method PsReadData() returns (ok: bool, data: uint16, saturationIndicator: bool)
      requires Valid()
      modifies this
      ensures Valid() && regs == old(regs)
      ensures ReadBurst(old(trace), REG_PS_DATA_0, 2, ok)
      ensures data <= 0x7ff
      ensures ok ==> (data == PsValue(regs[REG_PS_DATA_0], regs[REG_PS_DATA_1])
                   && saturationIndicator == PsSaturated(regs[REG_PS_DATA_1]))
    {
      var value := new uint8[2];
      ok := ReadBlock(REG_PS_DATA_0, value);
      data := PsValue(value[0], value[1]);
      saturationIndicator := PsSaturated(value[1]);
    }

    /** Write the PS thresholds to registers 0x90..0x93, stopping at the first
        failed write. When every write succeeds, the registers hold the 12 low
        bits of `upper` and of `lower`. */
    method PsSetThreshold(lower: uint16, upper: uint16) returns (ok: bool)
      requires Valid()
      modifies this
      ensures Valid()
      ensures WriteBurst(old(trace), old(regs), REG_PS_THRES_UP_0, PsThresholdBytes(lower, upper), ok)
      ensures ok ==> (Word(regs[REG_PS_THRES_UP_0], regs[REG_PS_THRES_UP_1]) == upper % 0x1000
                   && Word(regs[REG_PS_THRES_LOW_0], regs[REG_PS_THRES_LOW_1]) == lower % 0x1000)
    {
      ok := WriteBlock(REG_PS_THRES_UP_0, PsThresholdBytes(lower, upper));
      StoredPrefix(old(regs), REG_PS_THRES_UP_0, PsThresholdBytes(lower, upper),
                   Acked(bus, WriteOp, |old(trace)|, 4), regs);
    }
  }
}
