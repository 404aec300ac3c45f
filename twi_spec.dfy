/** What the I2C (TWI) master helpers do on the bus, stated on values.

    The bus is observed through the sequence of primitives the master issues
    (START with its address byte, a data-byte write, an ACK read, a NACK read,
    STOP). The hardware's answers are an oracle indexed by the position of the
    primitive in the whole trace: `status(k)` is the raw TWSR after the k-th
    primitive and `data(k)` the TWDR it leaves. */
module TwiSpec {
  import opened CTypes

  /** Direction bit of the address byte. */
  const I2C_WRITE: byte := 0
  const I2C_READ: byte := 1

  /** The status codes the helpers compare against (TWSR with the prescaler bits cleared). */
  const MT_SLA_ACK: byte := 0x18   // SLA+W sent, ACK received
  const MT_DATA_ACK: byte := 0x28  // data byte sent, ACK received
  const MR_SLA_ACK: byte := 0x40   // SLA+R sent, ACK received

  datatype Event = Start(sla: byte) | Write(data: byte) | ReadAck | ReadNack | Stop

  datatype Oracle = Oracle(status: nat -> byte, data: nat -> byte)

  /** The outcome of one helper call: whether every checked status matched, the value the
      helper returns, the primitives it issued and the bytes it read, in order. */
  datatype Txn = Txn(ok: bool, status: byte, events: seq<Event>, data: seq<byte>)

  /** `(addr << 1) | (mode & 0x01)`, stored into the 8-bit TWDR: the 7 address bits
      followed by the R/W bit. */
  function AddressByte(addr: byte, mode: byte): (b: byte)
    ensures b / 2 == addr % 128
    ensures b % 2 == mode % 2
  {
    (addr * 2) % 256 + mode % 2
  }

  /** `twsr & 0xF8`: the status with the three low (prescaler and reserved) bits cleared. */
  function StatusBits(twsr: byte): (s: byte)
    ensures s % 8 == 0
    ensures s <= twsr < s + 8
  {
    twsr - twsr % 8
  }

  /** The two expressions are the C ones bit for bit: the shifted address OR-ed with the
      mode's low bit, and the status AND-ed with 0xF8. */
  lemma AddressByteBits(addr: byte, mode: byte)
    ensures AddressByte(addr, mode) == BitOr(Shl(addr, 1) % 256, BitAnd(mode, 0x01))
  {
    var m := (addr * 2) % 256 / 2;
    assert (addr * 2) % 256 == m * Pow2(1);
    AndMask(mode, 1);
    OrDisjoint(m, mode % 2, 1);
  }

  lemma StatusBitsMask(twsr: byte)
    ensures StatusBits(twsr) == BitAnd(twsr, 0xF8)
  {
    var a1 := twsr / 2;
    var a2 := a1 / 2;
    var q := a2 / 2;
    AndEven(twsr, 0xF8);
    AndEven(a1, 0x7C);
    AndEven(a2, 0x3E);
    assert BitAnd(twsr, 0xF8) == 8 * BitAnd(q, 0x1F);
    assert Pow2(5) == 32;
    AndMask(q, 5);
    assert q < 32;
    DivMod(q, 32, 0, q);
    assert BitAnd(q, 0x1F) == q;
    var r := twsr - 8 * q;
    assert 0 <= r < 8;
    DivMod(twsr, 8, q, r);
  }

  /** AND with an even mask: the low bit is clear, the rest is the AND of the halves. */
  lemma AndEven(a: nat, b: nat)
    requires b % 2 == 0
    ensures BitAnd(a, b) == 2 * BitAnd(a / 2, b / 2)
  {
  }

  /** The masked status the oracle reports for the k-th primitive. */
  function StatusAt(o: Oracle, k: nat): byte
  {
    StatusBits(o.status(k))
  }

  /** The checked opening of `write_reg`: START(dev, W), register, value. */
  function WritePlan(dev: byte, reg: byte, val: byte): seq<Event>
  {
    [Start(AddressByte(dev, I2C_WRITE)), Write(reg), Write(val)]
  }

  function WriteExpect(): seq<byte>
  {
    [MT_SLA_ACK, MT_DATA_ACK, MT_DATA_ACK]
  }

  /** The checked opening of `read_reg` and `read_regs`: START(dev, W), register,
      then a repeated START(dev, R) with no STOP in between. */
  function ReadPlan(dev: byte, reg: byte): seq<Event>
  {
    [Start(AddressByte(dev, I2C_WRITE)), Write(reg), Start(AddressByte(dev, I2C_READ))]
  }

  function ReadExpect(): seq<byte>
  {
    [MT_SLA_ACK, MT_DATA_ACK, MR_SLA_ACK]
  }

  /** The index of the first checked step, from `i` on, whose status differs from what
      it expects; `|want|` when none does. The steps run at trace positions k, k+1, … */
  function FirstMismatch(o: Oracle, k: nat, want: seq<byte>, i: nat): (j: nat)
    requires i <= |want|
    decreases |want| - i
    ensures i <= j <= |want|
    ensures forall m :: i <= m < j ==> StatusAt(o, k + m) == want[m]
    ensures j < |want| ==> StatusAt(o, k + j) != want[j]
  {
    if i == |want| then i
    else if StatusAt(o, k + i) != want[i] then i
    else FirstMismatch(o, k, want, i + 1)
  }

  /** Abort on the first deviation: the checked steps of `plan` run one by one; the first
      whose status is not the expected literal is followed by STOP and its status is
      returned. When all match, the helper continues as `success` says. */
  function Checked(o: Oracle, k: nat, plan: seq<Event>, want: seq<byte>, success: Txn): Txn
    requires |plan| == |want|
  {
    var j := FirstMismatch(o, k, want, 0);
    if j < |want| then Txn(false, StatusAt(o, k + j), plan[..j + 1] + [Stop], [])
    else success
  }

  function Repeat(e: Event, n: nat): (r: seq<Event>)
    ensures |r| == n
  {
    if n == 0 then [] else Repeat(e, n - 1) + [e]
  }

  /** `write_reg(dev, reg, val)` started at trace position k. */
  function WriteRegRun(o: Oracle, k: nat, dev: byte, reg: byte, val: byte): Txn
  {
    Checked(o, k, WritePlan(dev, reg, val), WriteExpect(),
      Txn(true, 0, WritePlan(dev, reg, val) + [Stop], []))
  }

  /** `read_reg(dev, reg, &out)` started at trace position k: one NACK read after the
      repeated START. */
  function ReadRegRun(o: Oracle, k: nat, dev: byte, reg: byte): Txn
  {
    Checked(o, k, ReadPlan(dev, reg), ReadExpect(),
      Txn(true, 0, ReadPlan(dev, reg) + [ReadNack, Stop], [o.data(k + 3)]))
  }

  /** The bytes the reads of a successful `read_regs` return, in order. */
  function ReadBytes(o: Oracle, k: nat, len: nat): (r: seq<byte>)
    ensures |r| == len
  {
    var f: nat -> byte := (i: nat) => o.data(k + i);
    seq(len, i requires 0 <= i < len => f(i))
  }

  /** `read_regs(dev, reg, buf, len)` started at trace position k: len-1 ACK reads,
      one NACK read, STOP. */
  function ReadRegsRun(o: Oracle, k: nat, dev: byte, reg: byte, len: PosByte): Txn
  {
    Checked(o, k, ReadPlan(dev, reg), ReadExpect(),
      Txn(true, 0, ReadPlan(dev, reg) + Repeat(ReadAck, len - 1) + [ReadNack, Stop],
          ReadBytes(o, k + 3, len)))
  }

  /** The value of a helper run once the index of its first mismatching step is known. */
  lemma CheckedAt(o: Oracle, k: nat, plan: seq<Event>, want: seq<byte>, success: Txn, j: nat)
    requires |plan| == |want| && FirstMismatch(o, k, want, 0) == j
    ensures Checked(o, k, plan, want, success) ==
            if j < |want| then Txn(false, StatusAt(o, k + j), plan[..j + 1] + [Stop], []) else success
  {
  }

  /** The bus is released exactly once, at the very end. */
  predicate StopsOnceAtEnd(events: seq<Event>)
  {
    |events| > 0 && events[|events| - 1] == Stop &&
    forall i :: 0 <= i < |events| - 1 ==> events[i] != Stop
  }

  lemma {:induction false} RepeatAt(e: Event, n: nat, i: nat)
    requires i < n
    ensures Repeat(e, n)[i] == e
  {
    if i < n - 1 {
      RepeatAt(e, n - 1, i);
    }
  }

  lemma CheckedStopsOnce(o: Oracle, k: nat, plan: seq<Event>, want: seq<byte>, success: Txn)
    requires |plan| == |want|
    requires forall i :: 0 <= i < |plan| ==> plan[i] != Stop
    requires FirstMismatch(o, k, want, 0) == |want| ==> StopsOnceAtEnd(success.events)
    ensures StopsOnceAtEnd(Checked(o, k, plan, want, success).events)
  {
    var j := FirstMismatch(o, k, want, 0);
    if j < |want| {
      var ev := plan[..j + 1] + [Stop];
      assert forall i :: 0 <= i < |ev| - 1 ==> ev[i] == plan[i];
    }
  }

  /** Every path through every helper ends with exactly one STOP, so the bus is always
      released and nothing is issued after it. */
  lemma {:induction false} HelpersStopOnce(o: Oracle, k: nat, dev: byte, reg: byte, val: byte, len: PosByte)
    ensures StopsOnceAtEnd(WriteRegRun(o, k, dev, reg, val).events)
    ensures StopsOnceAtEnd(ReadRegRun(o, k, dev, reg).events)
    ensures StopsOnceAtEnd(ReadRegsRun(o, k, dev, reg, len).events)
  {
    var wp := WritePlan(dev, reg, val);
    var rp := ReadPlan(dev, reg);
    CheckedStopsOnce(o, k, wp, WriteExpect(), Txn(true, 0, wp + [Stop], []));
    CheckedStopsOnce(o, k, rp, ReadExpect(), Txn(true, 0, rp + [ReadNack, Stop], [o.data(k + 3)]));
    var ev := rp + Repeat(ReadAck, len - 1) + [ReadNack, Stop];
    forall i | 0 <= i < |ev| - 1 ensures ev[i] != Stop {
      if 3 <= i < 3 + len - 1 {
        RepeatAt(ReadAck, len - 1, i - 3);
      }
    }
    CheckedStopsOnce(o, k, rp, ReadExpect(), Txn(true, 0, ev, ReadBytes(o, k + 3, len)));
  }

  /** `write_reg` succeeds exactly when the three statuses are 0x18, 0x28, 0x28; it then
      issued START(dev, W), the register, the value and STOP, and returns 0. */
  lemma WriteRegSuccess(o: Oracle, k: nat, dev: byte, reg: byte, val: byte)
    ensures var r := WriteRegRun(o, k, dev, reg, val);
      r.ok <==> (StatusAt(o, k) == 0x18 && StatusAt(o, k + 1) == 0x28 && StatusAt(o, k + 2) == 0x28)
    ensures var r := WriteRegRun(o, k, dev, reg, val);
      r.ok ==> r.status == 0 &&
               r.events == [Start(AddressByte(dev, I2C_WRITE)), Write(reg), Write(val), Stop]
  {
    var j := FirstMismatch(o, k, WriteExpect(), 0);
    if j == 3 {
      assert StatusAt(o, k + 0) == WriteExpect()[0];
      assert StatusAt(o, k + 1) == WriteExpect()[1];
      assert StatusAt(o, k + 2) == WriteExpect()[2];
    }
  }

  /** The first status that differs from its expected literal is returned unchanged, and
      it is followed by a STOP and by nothing else. */
  lemma WriteRegAbort(o: Oracle, k: nat, dev: byte, reg: byte, val: byte)
    ensures var r := WriteRegRun(o, k, dev, reg, val);
      var j := FirstMismatch(o, k, WriteExpect(), 0);
      !r.ok ==> j < 3 && r.status == StatusAt(o, k + j) && r.status != WriteExpect()[j] &&
                (forall m :: 0 <= m < j ==> StatusAt(o, k + m) == WriteExpect()[m]) &&
                r.events == WritePlan(dev, reg, val)[..j + 1] + [Stop] && r.data == []
  {
  }

  /** `read_reg` succeeds exactly when the statuses are 0x18, 0x28, 0x40; it then issued
      START(dev, W), the register, a repeated START(dev, R) with no STOP before it, one
      NACK read and STOP, and returns the byte that read delivered. */
  lemma ReadRegSuccess(o: Oracle, k: nat, dev: byte, reg: byte)
    ensures var r := ReadRegRun(o, k, dev, reg);
      r.ok <==> (StatusAt(o, k) == 0x18 && StatusAt(o, k + 1) == 0x28 && StatusAt(o, k + 2) == 0x40)
    ensures var r := ReadRegRun(o, k, dev, reg);
      r.ok ==> r.status == 0 && r.data == [o.data(k + 3)] &&
               r.events == [Start(AddressByte(dev, I2C_WRITE)), Write(reg),
                            Start(AddressByte(dev, I2C_READ)), ReadNack, Stop]
  {
    var j := FirstMismatch(o, k, ReadExpect(), 0);
    if j == 3 {
      assert StatusAt(o, k + 0) == ReadExpect()[0];
      assert StatusAt(o, k + 1) == ReadExpect()[1];
      assert StatusAt(o, k + 2) == ReadExpect()[2];
    }
  }

  /** A register device on the bus: the byte it shifts out for the NACK read of a
      `read_reg` that follows a 4-primitive `write_reg` at trace position k is the value
      that write stored. The oracle is indexed by trace position, so this is an assumption
      about the device, not something the driver can ensure. */
  predicate StoresWrite(o: Oracle, k: nat, val: byte)
  {
    o.data(k + 4 + 3) == val
  }

  /** Round trip: `write_reg(dev, reg, val)` followed by `read_reg(dev, reg)`, both
      succeeding, against a device that keeps the written value, reads back val. Both calls
      address reg, each the second primitive of its call, and both return 0. */
  lemma WriteThenRead(o: Oracle, k: nat, dev: byte, reg: byte, val: byte)
    requires WriteRegRun(o, k, dev, reg, val).ok
    requires ReadRegRun(o, k + 4, dev, reg).ok
    requires StoresWrite(o, k, val)
    ensures var w := WriteRegRun(o, k, dev, reg, val);
      var r := ReadRegRun(o, k + |w.events|, dev, reg);
      |w.events| == 4 && w.status == 0 && r.status == 0 && r.data == [val] &&
      w.events[1] == Write(reg) && w.events[2] == Write(val) &&
      |r.events| == 5 && r.events[1] == Write(reg)
  {
    WriteRegSuccess(o, k, dev, reg, val);
    ReadRegSuccess(o, k + 4, dev, reg);
  }

  lemma ReadRegAbort(o: Oracle, k: nat, dev: byte, reg: byte)
    ensures var r := ReadRegRun(o, k, dev, reg);
      var j := FirstMismatch(o, k, ReadExpect(), 0);
      !r.ok ==> j < 3 && r.status == StatusAt(o, k + j) && r.status != ReadExpect()[j] &&
                (forall m :: 0 <= m < j ==> StatusAt(o, k + m) == ReadExpect()[m]) &&
                r.events == ReadPlan(dev, reg)[..j + 1] + [Stop] && r.data == []
  {
  }

  /** A successful `read_regs(dev, reg, buf, len)` issues the read opening, then len-1
      ACK reads, then one NACK read and STOP, and delivers the len bytes in read order. */
  lemma {:induction false} ReadRegsSuccess(o: Oracle, k: nat, dev: byte, reg: byte, len: PosByte)
    ensures var r := ReadRegsRun(o, k, dev, reg, len);
      r.ok <==> (StatusAt(o, k) == 0x18 && StatusAt(o, k + 1) == 0x28 && StatusAt(o, k + 2) == 0x40)
    ensures var r := ReadRegsRun(o, k, dev, reg, len);
      r.ok ==> r.status == 0 && |r.events| == len + 4 &&
               r.events[..3] == ReadPlan(dev, reg) &&
               (forall i :: 3 <= i < len + 2 ==> r.events[i] == ReadAck) &&
               r.events[len + 2] == ReadNack && r.events[len + 3] == Stop &&
               |r.data| == len &&
               (forall i :: 0 <= i < len ==> r.data[i] == o.data(k + 3 + i))
  {
    var j := FirstMismatch(o, k, ReadExpect(), 0);
    if j == 3 {
      assert StatusAt(o, k + 0) == ReadExpect()[0];
      assert StatusAt(o, k + 1) == ReadExpect()[1];
      assert StatusAt(o, k + 2) == ReadExpect()[2];
      var ev := ReadPlan(dev, reg) + Repeat(ReadAck, len - 1) + [ReadNack, Stop];
      forall i | 3 <= i < len + 2 ensures ev[i] == ReadAck {
        RepeatAt(ReadAck, len - 1, i - 3);
      }
    }
  }

  lemma ReadRegsAbort(o: Oracle, k: nat, dev: byte, reg: byte, len: PosByte)
    ensures var r := ReadRegsRun(o, k, dev, reg, len);
      var j := FirstMismatch(o, k, ReadExpect(), 0);
      !r.ok ==> j < 3 && r.status == StatusAt(o, k + j) && r.status != ReadExpect()[j] &&
                (forall m :: 0 <= m < j ==> StatusAt(o, k + m) == ReadExpect()[m]) &&
                r.events == ReadPlan(dev, reg)[..j + 1] + [Stop] && r.data == []
  {
  }

  /** For three checked steps, the first mismatch is the first of the three statuses that
      differs from its expected value, or 3 when none does. */
  lemma FirstMismatchOf3(o: Oracle, k: nat, want: seq<byte>)
    requires |want| == 3
    ensures var j, s0, s1, s2 := FirstMismatch(o, k, want, 0), StatusAt(o, k), StatusAt(o, k + 1), StatusAt(o, k + 2);
      (s0 != want[0] ==> j == 0) &&
      (s0 == want[0] && s1 != want[1] ==> j == 1) &&
      (s0 == want[0] && s1 == want[1] && s2 != want[2] ==> j == 2) &&
      (s0 == want[0] && s1 == want[1] && s2 == want[2] ==> j == 3)
  {
    var j := FirstMismatch(o, k, want, 0);
    assert j > 0 ==> StatusAt(o, k + 0) == want[0];
    assert j > 1 ==> StatusAt(o, k + 1) == want[1];
    assert j > 2 ==> StatusAt(o, k + 2) == want[2];
  }

  /** `write_reg` path by path, in the order the source tests the statuses. */
  lemma WriteRegCases(o: Oracle, k: nat, dev: byte, reg: byte, val: byte)
    ensures var r := WriteRegRun(o, k, dev, reg, val);
      var s0, s1, s2 := StatusAt(o, k), StatusAt(o, k + 1), StatusAt(o, k + 2);
      var w := Start(AddressByte(dev, I2C_WRITE));
      (s0 != 0x18 ==> r == Txn(false, s0, [w, Stop], [])) &&
      (s0 == 0x18 && s1 != 0x28 ==> r == Txn(false, s1, [w, Write(reg), Stop], [])) &&
      (s0 == 0x18 && s1 == 0x28 && s2 != 0x28 ==> r == Txn(false, s2, [w, Write(reg), Write(val), Stop], [])) &&
      (s0 == 0x18 && s1 == 0x28 && s2 == 0x28 ==> r == Txn(true, 0, [w, Write(reg), Write(val), Stop], []))
  {
    var wp := WritePlan(dev, reg, val);
    assert wp[..1] == [wp[0]] && wp[..2] == [wp[0], wp[1]] && wp[..3] == wp;
    FirstMismatchOf3(o, k, WriteExpect());
    CheckedAt(o, k, wp, WriteExpect(), Txn(true, 0, wp + [Stop], []), FirstMismatch(o, k, WriteExpect(), 0));
  }

  /** `read_reg` path by path. */
  lemma ReadRegCases(o: Oracle, k: nat, dev: byte, reg: byte)
    ensures var r := ReadRegRun(o, k, dev, reg);
      var s0, s1, s2 := StatusAt(o, k), StatusAt(o, k + 1), StatusAt(o, k + 2);
      var w := Start(AddressByte(dev, I2C_WRITE));
      (s0 != 0x18 ==> r == Txn(false, s0, [w, Stop], [])) &&
      (s0 == 0x18 && s1 != 0x28 ==> r == Txn(false, s1, [w, Write(reg), Stop], [])) &&
      (s0 == 0x18 && s1 == 0x28 && s2 != 0x40 ==> r == Txn(false, s2, ReadPlan(dev, reg) + [Stop], [])) &&
      (s0 == 0x18 && s1 == 0x28 && s2 == 0x40 ==>
         r == Txn(true, 0, ReadPlan(dev, reg) + [ReadNack, Stop], [o.data(k + 3)]))
  {
    var rp := ReadPlan(dev, reg);
    assert rp[..1] == [rp[0]] && rp[..2] == [rp[0], rp[1]] && rp[..3] == rp;
    FirstMismatchOf3(o, k, ReadExpect());
    CheckedAt(o, k, rp, ReadExpect(), Txn(true, 0, rp + [ReadNack, Stop], [o.data(k + 3)]),
              FirstMismatch(o, k, ReadExpect(), 0));
  }

  /** `read_regs` path by path. */
  lemma ReadRegsCases(o: Oracle, k: nat, dev: byte, reg: byte, len: PosByte)
    ensures var r := ReadRegsRun(o, k, dev, reg, len);
      var s0, s1, s2 := StatusAt(o, k), StatusAt(o, k + 1), StatusAt(o, k + 2);
      var w := Start(AddressByte(dev, I2C_WRITE));
      (s0 != 0x18 ==> r == Txn(false, s0, [w, Stop], [])) &&
      (s0 == 0x18 && s1 != 0x28 ==> r == Txn(false, s1, [w, Write(reg), Stop], [])) &&
      (s0 == 0x18 && s1 == 0x28 && s2 != 0x40 ==> r == Txn(false, s2, ReadPlan(dev, reg) + [Stop], [])) &&
      (s0 == 0x18 && s1 == 0x28 && s2 == 0x40 ==>
         r == Txn(true, 0, ReadPlan(dev, reg) + Repeat(ReadAck, len - 1) + [ReadNack, Stop],
                  ReadBytes(o, k + 3, len)))
  {
    var rp := ReadPlan(dev, reg);
    assert rp[..1] == [rp[0]] && rp[..2] == [rp[0], rp[1]] && rp[..3] == rp;
    FirstMismatchOf3(o, k, ReadExpect());
    CheckedAt(o, k, rp, ReadExpect(),
              Txn(true, 0, rp + Repeat(ReadAck, len - 1) + [ReadNack, Stop], ReadBytes(o, k + 3, len)),
              FirstMismatch(o, k, ReadExpect(), 0));
  }

  /** A helper returns 0 exactly when it succeeded or when its first mismatching status
      was 0x00 (the TWI "bus error" code): the return value alone does not tell the two apart. */
  lemma WriteRegZeroStatus(o: Oracle, k: nat, dev: byte, reg: byte, val: byte)
    ensures var r := WriteRegRun(o, k, dev, reg, val);
      r.status == 0 <==> (r.ok || StatusAt(o, k + FirstMismatch(o, k, WriteExpect(), 0)) == 0)
  {
  }

  /** A bus whose first answer is status 0x00 (bus error): `write_reg` stops right after
      the START, writes nothing, and still returns 0, the value that means success. */
  lemma BusErrorReadsAsSuccess(o: Oracle, k: nat, dev: byte, reg: byte, val: byte)
    requires StatusAt(o, k) == 0
    ensures var r := WriteRegRun(o, k, dev, reg, val);
      r.status == 0 && !r.ok && r.events == [Start(AddressByte(dev, I2C_WRITE)), Stop]
  {
    assert FirstMismatch(o, k, WriteExpect(), 0) == 0;
    var wp := WritePlan(dev, reg, val);
    CheckedAt(o, k, wp, WriteExpect(), Txn(true, 0, wp + [Stop], []), 0);
    assert wp[..1] == [Start(AddressByte(dev, I2C_WRITE))];
  }

  // ---- Sequences of helper calls, as the drivers built on the bus issue them ----

  datatype Call =
    | WriteRegCall(reg: byte, val: byte)
    | ReadRegCall(reg: byte)
    | ReadRegsCall(reg: byte, len: PosByte)

  function CallRun(o: Oracle, k: nat, dev: byte, c: Call): Txn
  {
    match c
    case WriteRegCall(reg, val) => WriteRegRun(o, k, dev, reg, val)
    case ReadRegCall(reg) => ReadRegRun(o, k, dev, reg)
    case ReadRegsCall(reg, len) => ReadRegsRun(o, k, dev, reg, len)
  }

  /** The outcome of one helper call on a given device and bus, as a function of the trace
      position it starts at. */
  function Runner(o: Oracle, dev: byte): (nat, Call) -> Txn
  {
    (p: nat, c: Call) => CallRun(o, p, dev, c)
  }

  /** The helper calls a client issues, in order. */
  datatype Plan = Done | Then(call: Call, next: Plan)

  /** The calls of a plan, in order. */
  function Calls(plan: Plan): (cs: seq<Call>)
    decreases plan
  {
    match plan
    case Done => []
    case Then(c, next) => [c] + Calls(next)
  }

  /** One plan followed by another. */
  function Append(a: Plan, b: Plan): Plan
    decreases a
  {
    match a
    case Done => b
    case Then(c, next) => Then(c, Append(next, b))
  }

  /** The calls of two plans in sequence are those of the first and then those of the second. */
  lemma {:induction false} CallsAppend(a: Plan, b: Plan)
    ensures Calls(Append(a, b)) == Calls(a) + Calls(b)
    decreases a
  {
    match a
    case Done =>
    case Then(c, next) =>
      CallsAppend(next, b);
      assert Calls(Append(a, b)) == [c] + Calls(Append(next, b));
  }

  /** The primitives of a plan's calls run one after another by `run`, the first starting at
      trace position p and each of the others where the previous one ended. */
  function RunTrace(run: (nat, Call) -> Txn, p: nat, plan: Plan): seq<Event>
    decreases plan
  {
    match plan
    case Done => []
    case Then(c, next) =>
      var e := run(p, c).events;
      e + RunTrace(run, p + |e|, next)
  }

  /** Running two plans one after the other is running their concatenation. */
  lemma {:induction false} RunTraceAppend(run: (nat, Call) -> Txn, p: nat, a: Plan, b: Plan)
    ensures RunTrace(run, p, Append(a, b)) == RunTrace(run, p, a) + RunTrace(run, p + |RunTrace(run, p, a)|, b)
    decreases a
  {
    match a
    case Done =>
    case Then(c, next) =>
      var e := run(p, c).events;
      RunTraceAppend(run, p + |e|, next, b);
  }

  /** Running the first part `a` of the calls still to come `Append(a, b)`: afterwards the
      calls `b` account for the rest of `whole`. */
  lemma IssuePlan(run: (nat, Call) -> Txn, whole: seq<Event>, done: seq<Event>, a: Plan, b: Plan)
    requires done + RunTrace(run, |done|, Append(a, b)) == whole
    ensures var d := done + RunTrace(run, |done|, a); d + RunTrace(run, |d|, b) == whole
  {
    var ta := RunTrace(run, |done|, a);
    var tb := RunTrace(run, |done| + |ta|, b);
    RunTraceAppend(run, |done|, a, b);
    assert whole == done + (ta + tb);
    ConcatAssoc(done, ta, tb);
    assert |done + ta| == |done| + |ta|;
  }

  lemma ConcatAssoc(x: seq<Event>, y: seq<Event>, z: seq<Event>)
    ensures (x + y) + z == x + (y + z)
  {
  }

  /** Issuing the next call of a client whose whole trace is `whole`, when the trace so far
      is `done` and the calls still to come are `rest`: the call runs from position |done|,
      and afterwards the remaining calls account for the rest of `whole`. */
  lemma Issue(run: (nat, Call) -> Txn, whole: seq<Event>, done: seq<Event>, rest: Plan) returns (r: Txn)
    requires rest.Then? && done + RunTrace(run, |done|, rest) == whole
    ensures r == run(|done|, rest.call)
    ensures (done + r.events) + RunTrace(run, |done + r.events|, rest.next) == whole
  {
    r := run(|done|, rest.call);
    assert RunTrace(run, |done|, rest) == r.events + RunTrace(run, |done| + |r.events|, rest.next);
  }

  /** Applying `Runner(o, dev)` is running the call on dev. */
  lemma RunnerApply(o: Oracle, dev: byte, p: nat, c: Call)
    ensures Runner(o, dev)(p, c) == CallRun(o, p, dev, c)
  {
  }

  /** `run` gives, for every start position and call, the outcome of that call on dev. */
  ghost predicate Runs(run: (nat, Call) -> Txn, o: Oracle, dev: byte)
  {
    forall p: nat, c: Call {:trigger CallRun(o, p, dev, c)} :: run(p, c) == CallRun(o, p, dev, c)
  }

  lemma RunnerRuns(o: Oracle, dev: byte)
    ensures Runs(Runner(o, dev), o, dev)
  {
    forall p: nat, c: Call ensures Runner(o, dev)(p, c) == CallRun(o, p, dev, c) {
      RunnerApply(o, dev, p, c);
    }
  }
}
