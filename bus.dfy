/** The two-wire bus as the driver sees it: each transaction gets one reply from
    the transport, and the driver reduces that reply to a status code and then
    to one boolean. Also the specification of the driver's multi-register loops,
    which stop at the first transaction that fails. */
module Bus {
  import opened Registers

  /** The transport's reply to one transaction: the status of the transmission
      phase (`endTransmission`, 0 = success) and, for a read, whether the
      requested byte is available afterwards. */
  datatype BusReply = BusReply(status: int, available: bool)

  /** A transaction the driver attempted, with the register it addressed. */
  datatype Transaction =
    | WriteTxn(reg: uint8, value: uint8)
    | ReadTxn(reg: uint8)

  datatype Op = ReadOp | WriteOp

  /** The status `readRegister` gives a read whose byte never arrived. */
  const STATUS_DATA_TIMEOUT := 4

  /** The status a register primitive ends with, given the transport's reply.
      A write only has its transmission status; a read fails with that status
      when it is non-zero, and with the timeout status when the transmission
      succeeded but no byte is available. */
  function Status(op: Op, reply: BusReply): (stat: int)
    ensures stat == 0 <==> reply.status == 0 && (op == ReadOp ==> reply.available)
    ensures reply.status != 0 ==> stat == reply.status
    ensures op == ReadOp && reply.status == 0 && !reply.available ==> stat == STATUS_DATA_TIMEOUT
  {
    match op
    case WriteOp => reply.status
    case ReadOp => if reply.status == 0 && !reply.available then STATUS_DATA_TIMEOUT else reply.status
  }

  /** The primitive reports success: its status is 0. */
  predicate Acks(op: Op, reply: BusReply) {
    Status(op, reply) == 0
  }

  /** How many of the `n` transactions numbered `t, t + 1, ...` succeed before the
      first one that fails: the length of the run of successes, at most `n`. */
  function Acked(bus: nat -> BusReply, op: Op, t: nat, n: nat): (k: nat)
    ensures k <= n
    ensures forall j :: t <= j < t + k ==> Acks(op, bus(j))
    ensures k < n ==> !Acks(op, bus(t + k))
    decreases n
  {
    if n == 0 || !Acks(op, bus(t)) then 0 else 1 + Acked(bus, op, t + 1, n - 1)
  }

  /** All `n` transactions succeed exactly when the run of successes is `n` long. */
  lemma AckedAll(bus: nat -> BusReply, op: Op, t: nat, n: nat)
    ensures Acked(bus, op, t, n) == n <==> forall j :: t <= j < t + n ==> Acks(op, bus(j))
  {
  }

  /** How many transactions a loop over `n` registers that stops after its
      first failure attempts, when the first `k` succeed. */
  function Attempts(k: nat, n: nat): (a: nat)
    requires k <= n
    ensures k <= a <= n
    ensures k < n ==> a == k + 1
    ensures a == n <==> (k == n || k + 1 == n)
  {
    if k < n then k + 1 else n
  }

  /** The reads of the `n` registers from `base` on, in order. */
  function Reads(base: uint8, n: nat): (txns: seq<Transaction>)
    ensures |txns| == n
    ensures forall i :: 0 <= i < n ==> txns[i] == ReadTxn(Offset(base, i))
  {
    seq(n, i requires 0 <= i < n => ReadTxn(Offset(base, i)))
  }

  /** The writes of `values` to the registers from `base` on, in order. */
  function Writes(base: uint8, values: seq<uint8>): (txns: seq<Transaction>)
    ensures |txns| == |values|
    ensures forall i :: 0 <= i < |values| ==> txns[i] == WriteTxn(Offset(base, i), values[i])
  {
    seq(|values|, i requires 0 <= i < |values| => WriteTxn(Offset(base, i), values[i]))
  }

  /** The register file after `values` have been stored one after the other in
      the registers from `base` on: no register is lost, and the last value
      stored is in its register (what the others hold is `StoredAt`). */
  function Stored(regs: map<uint8, uint8>, base: uint8, values: seq<uint8>): (after: map<uint8, uint8>)
    ensures regs.Keys <= after.Keys
    ensures values != [] ==> (var last := |values| - 1;
      Offset(base, last) in after && after[Offset(base, last)] == values[last])
    decreases |values|
  {
    if values == [] then regs
    else
      var n := |values| - 1;
      Stored(regs, base, values[..n])[Offset(base, n) := values[n]]
  }

  /** Storing a block that does not wrap past register 0xff puts `values[i]` in
      register `base + i` and leaves every register outside the block as it was. */
  lemma {:induction false} StoredAt(regs: map<uint8, uint8>, base: uint8, values: seq<uint8>, r: uint8)
    requires base + |values| <= 0x100
    requires r in regs
    ensures base <= r < base + |values| ==> Stored(regs, base, values)[r] == values[r - base]
    ensures !(base <= r < base + |values|) ==> Stored(regs, base, values)[r] == regs[r]
    decreases |values|
  {
    if values != [] {
      var n := |values| - 1;
      StoredAt(regs, base, values[..n], r);
    }
  }

  /** Writing one more value extends the writes by one transaction. */
  lemma WritesSnoc(base: uint8, values: seq<uint8>, i: nat)
    requires i < |values|
    ensures Writes(base, values[..i + 1]) == Writes(base, values[..i]) + [WriteTxn(Offset(base, i), values[i])]
  {
  }

  /** Storing one more value updates one more register. */
  lemma StoredSnoc(regs: map<uint8, uint8>, base: uint8, values: seq<uint8>, i: nat)
    requires i < |values|
    ensures Stored(regs, base, values[..i + 1]) == Stored(regs, base, values[..i])[Offset(base, i) := values[i]]
  {
    assert values[..i + 1][..i] == values[..i];
  }

  /** Storing the first `k` of `values` in a register file that has every
      register: registers `base .. base + k - 1` hold those values and every
      other register is as it was. */
  lemma StoredPrefix(regs: map<uint8, uint8>, base: uint8, values: seq<uint8>, k: nat, after: map<uint8, uint8>)
    requires base + |values| <= 0x100 && k <= |values|
    requires forall r: uint8 :: r in regs
    requires after == Stored(regs, base, values[..k])
    ensures forall r: uint8 :: r in after
    ensures forall r: uint8 :: base <= r < base + k ==> after[r] == values[r - base]
    ensures forall r: uint8 :: !(base <= r < base + k) ==> after[r] == regs[r]
  {
    forall r: uint8
      ensures r in after
      ensures base <= r < base + k ==> after[r] == values[r - base]
      ensures !(base <= r < base + k) ==> after[r] == regs[r]
    {
      StoredAt(regs, base, values[..k], r);
    }
  }
}
