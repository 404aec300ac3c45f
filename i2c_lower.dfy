/** The lower-case copy of the TWI master driver, avr_common/i2c.c (`i2c_*` names), which
    the display uses. It is the same code as the upper-case driver and is proved against
    the same specification, so both issue the same primitives and return the same status
    for every bus. */
module I2cLower {
  import opened CTypes
  import opened TwiSpec
  import opened TwiHw

  /** `i2c_init`: prescaler 1 and the 100 kHz divisor. */
  method Init(bus: Twi)
    modifies bus`prescaler, bus`twbr
    ensures bus.prescaler == 0 && bus.twbr == TwbrFor(F_CPU)
  {
    bus.prescaler := 0;
    bus.twbr := TwbrFor(F_CPU);
  }

  /** `i2c_start`: START, then the address byte; returns the masked status. */
  method Start(bus: Twi, addr: byte, mode: byte) returns (st: byte)
    modifies bus`trace
    ensures bus.trace == old(bus.trace) + [Event.Start(AddressByte(addr, mode))]
    ensures st == StatusAt(bus.oracle, |old(bus.trace)|)
  {
    var twsr, _ := bus.Transfer(Event.Start(AddressByte(addr, mode)));
    st := StatusBits(twsr);
  }

  /** `i2c_stop` */
  method Stop(bus: Twi)
    modifies bus`trace
    ensures bus.trace == old(bus.trace) + [Event.Stop]
  {
    var _, _ := bus.Transfer(Event.Stop);
  }

  /** `i2c_write`: one data byte; returns the masked status. */
  method Write(bus: Twi, data: byte) returns (st: byte)
    modifies bus`trace
    ensures bus.trace == old(bus.trace) + [Event.Write(data)]
    ensures st == StatusAt(bus.oracle, |old(bus.trace)|)
  {
    var twsr, _ := bus.Transfer(Event.Write(data));
    st := StatusBits(twsr);
  }

  /** `i2c_read_ack`: reads a byte and acknowledges it. */
  method ReadAck(bus: Twi) returns (b: byte)
    modifies bus`trace
    ensures bus.trace == old(bus.trace) + [Event.ReadAck]
    ensures b == bus.oracle.data(|old(bus.trace)|)
  {
    var _, twdr := bus.Transfer(Event.ReadAck);
    b := twdr;
  }

  /** `i2c_read_nack`: reads the last byte of a transfer. */
  method ReadNack(bus: Twi) returns (b: byte)
    modifies bus`trace
    ensures bus.trace == old(bus.trace) + [Event.ReadNack]
    ensures b == bus.oracle.data(|old(bus.trace)|)
  {
    var _, twdr := bus.Transfer(Event.ReadNack);
    b := twdr;
  }

  /** `i2c_write_reg` */
  method WriteReg(bus: Twi, dev: byte, reg: byte, val: byte) returns (st: byte)
    modifies bus`trace
    ensures var r := WriteRegRun(bus.oracle, |old(bus.trace)|, dev, reg, val);
      st == r.status && bus.trace == old(bus.trace) + r.events
  {
    WriteRegCases(bus.oracle, |bus.trace|, dev, reg, val);
    st := Start(bus, dev, I2C_WRITE);
    if st != 0x18 { Stop(bus); return; }
    st := Write(bus, reg);
    if st != 0x28 { Stop(bus); return; }
    st := Write(bus, val);
    if st != 0x28 { Stop(bus); return; }
    Stop(bus);
    st := 0;
  }

  /** `i2c_read_reg(dev, reg, out)`: `prior` is the value `*out` holds before the call and
      `out` the value it holds after; it is written only when every status matched. */
  method ReadReg(bus: Twi, dev: byte, reg: byte, prior: byte) returns (st: byte, out: byte)
    modifies bus`trace
    ensures var r := ReadRegRun(bus.oracle, |old(bus.trace)|, dev, reg);
      st == r.status && bus.trace == old(bus.trace) + r.events &&
      out == (if r.ok then r.data[0] else prior)
  {
    ReadRegCases(bus.oracle, |bus.trace|, dev, reg);
    out := prior;
    st := Start(bus, dev, I2C_WRITE);
    if st != 0x18 { Stop(bus); return; }
    st := Write(bus, reg);
    if st != 0x28 { Stop(bus); return; }
    st := Start(bus, dev, I2C_READ);
    if st != 0x40 { Stop(bus); return; }
    out := ReadNack(bus);
    Stop(bus);
    st := 0;
  }

  /** The data phase of `i2c_read_regs`: len-1 ACK reads into `buf[0..len-2]`, a NACK read
      into `buf[len-1]`, then STOP. */
  method ReadBurst(bus: Twi, buf: array<byte>, len: PosByte)
    requires len <= buf.Length
    modifies bus`trace, buf
    ensures bus.trace == old(bus.trace) + Repeat(Event.ReadAck, len - 1) + [Event.ReadNack, Event.Stop]
    ensures buf[..] == ReadBytes(bus.oracle, |old(bus.trace)|, len) + old(buf[..])[len..]
  {
    ghost var k := |bus.trace|;
    ghost var t0 := bus.trace;
    ghost var b0 := buf[..];
    var i := 0;
    while i < len - 1
      invariant 0 <= i <= len - 1
      invariant bus.trace == t0 + Repeat(Event.ReadAck, i)
      invariant forall j :: 0 <= j < i ==> buf[j] == bus.oracle.data(k + j)
      invariant forall j :: i <= j < buf.Length ==> buf[j] == b0[j]
    {
      buf[i] := ReadAck(bus);
      i := i + 1;
    }
    buf[len - 1] := ReadNack(bus);
    Stop(bus);
    assert buf[..] == ReadBytes(bus.oracle, k, len) + b0[len..];
  }

  /** `i2c_read_regs(dev, start_reg, buf, len)`: on success `buf[0..len-1]` holds the bytes
      read, in order; the rest of `buf`, and all of it on failure, is left as it was.
      `len` must be at least 1: with 0 the source writes `buf[-1]`. */
  method ReadRegs(bus: Twi, dev: byte, startReg: byte, buf: array<byte>, len: PosByte) returns (st: byte)
    requires len <= buf.Length
    modifies bus`trace, buf
    ensures var r := ReadRegsRun(bus.oracle, |old(bus.trace)|, dev, startReg, len);
      st == r.status && bus.trace == old(bus.trace) + r.events &&
      buf[..] == (if r.ok then r.data + old(buf[..])[len..] else old(buf[..]))
  {
    ghost var k := |bus.trace|;
    ghost var t0 := bus.trace;
    ghost var b0 := buf[..];
    ghost var r := ReadRegsRun(bus.oracle, k, dev, startReg, len);
    ghost var w := Event.Start(AddressByte(dev, I2C_WRITE));
    ReadRegsCases(bus.oracle, k, dev, startReg, len);
    st := Start(bus, dev, I2C_WRITE);
    if st != 0x18 {
      Stop(bus);
      assert r == Txn(false, st, [w, Event.Stop], []);
      assert buf[..] == b0;
      return;
    }
    st := Write(bus, startReg);
    if st != 0x28 {
      Stop(bus);
      assert r == Txn(false, st, [w, Event.Write(startReg), Event.Stop], []);
      assert buf[..] == b0;
      return;
    }
    st := Start(bus, dev, I2C_READ);
    if st != 0x40 {
      Stop(bus);
      assert r == Txn(false, st, ReadPlan(dev, startReg) + [Event.Stop], []);
      assert buf[..] == b0;
      return;
    }
    ghost var t1 := bus.trace;
    assert t1 == t0 + ReadPlan(dev, startReg);
    ReadBurst(bus, buf, len);
    st := 0;
    ghost var tail := Repeat(Event.ReadAck, len - 1) + [Event.ReadNack, Event.Stop];
    assert r.ok && r.events == ReadPlan(dev, startReg) + tail;
    assert bus.trace == t1 + tail;
    ConcatAssoc(t0, ReadPlan(dev, startReg), tail);
  }
}
