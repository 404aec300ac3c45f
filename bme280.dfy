/** The BME280 driver of src/sensors/bme280.c: the sensor at address 0x76, the calibration
    read at start-up, the configuration writes and the three compensated readings. The
    floating-point conversions at the end of each reading are left out: a reading returns
    the integer the source converts. */
module Bme280 {
  import opened CTypes
  import opened TwiSpec
  import opened TwiHw
  import I2c
  import opened Bme280Math

  /** `BME280_ADDR` */
  const BME280_ADDR: byte := 0x76

  /** The helper calls of `BME280_init`, section by section, each followed by `next`:
      the temperature parameters dig_T1..dig_T3 (16-bit reads at 0x88..0x8D) … */
  function TempCalPlan(next: Plan): Plan
  {
    Then(ReadRegsCall(0x88, 2), Then(ReadRegsCall(0x8A, 2), Then(ReadRegsCall(0x8C, 2), next)))
  }

  /** … the pressure parameters dig_P1..dig_P9 (16-bit reads at 0x8E..0x9F) … */
  function PressCalPlan(next: Plan): Plan
  {
    Then(ReadRegsCall(0x8E, 2), Then(ReadRegsCall(0x90, 2), Then(ReadRegsCall(0x92, 2),
    Then(ReadRegsCall(0x94, 2), Then(ReadRegsCall(0x96, 2), Then(ReadRegsCall(0x98, 2),
    Then(ReadRegsCall(0x9A, 2), Then(ReadRegsCall(0x9C, 2), Then(ReadRegsCall(0x9E, 2), next)))))))))
  }

  /** … the humidity parameters (one-byte reads of 0xA1, 0xE3..0xE7 and a 16-bit read at
      0xE1) … */
  function HumCalPlan(next: Plan): Plan
  {
    Then(ReadRegCall(0xA1), Then(ReadRegsCall(0xE1, 2), Then(ReadRegCall(0xE3),
    Then(ReadRegCall(0xE4), Then(ReadRegCall(0xE5), Then(ReadRegCall(0xE6), Then(ReadRegCall(0xE7), next)))))))
  }

  /** … and the writes of ctrl_hum (0xF2 := 0x01, humidity oversampling x1) and ctrl_meas
      (0xF4 := 0x27, temperature and pressure x1, normal mode). */
  function ConfigPlan(): Plan
  {
    Then(WriteRegCall(0xF2, 0x01), Then(WriteRegCall(0xF4, 0x27), Done))
  }

  function InitPlan(): Plan
  {
    TempCalPlan(PressCalPlan(HumCalPlan(ConfigPlan())))
  }

  /** The temperature section reads dig_T1..dig_T3, two bytes each, from 0x88 on. */
  lemma TempCalCalls(next: Plan)
    ensures Calls(TempCalPlan(next)) ==
      [ReadRegsCall(0x88, 2), ReadRegsCall(0x8A, 2), ReadRegsCall(0x8C, 2)] + Calls(next)
  {
    var q0 := TempCalPlan(next);
    var q1 := q0.next;
    var q2 := q1.next;
    assert Calls(q2) == [q2.call] + Calls(next);
    assert Calls(q1) == [q1.call] + Calls(q2);
    assert Calls(q0) == [q0.call] + Calls(q1);
  }

  /** The pressure section reads dig_P1..dig_P9, two bytes each, from 0x8E on. */
  lemma PressCalCalls(next: Plan)
    ensures Calls(PressCalPlan(next)) ==
      [ReadRegsCall(0x8E, 2), ReadRegsCall(0x90, 2), ReadRegsCall(0x92, 2),
       ReadRegsCall(0x94, 2), ReadRegsCall(0x96, 2), ReadRegsCall(0x98, 2),
       ReadRegsCall(0x9A, 2), ReadRegsCall(0x9C, 2), ReadRegsCall(0x9E, 2)] + Calls(next)
  {
    var q0 := PressCalPlan(next);
    var q1 := q0.next;
    var q2 := q1.next;
    var q3 := q2.next;
    var q4 := q3.next;
    var q5 := q4.next;
    var q6 := q5.next;
    var q7 := q6.next;
    var q8 := q7.next;
    assert Calls(q8) == [q8.call] + Calls(next);
    assert Calls(q7) == [q7.call] + Calls(q8);
    assert Calls(q6) == [q6.call] + Calls(q7);
    assert Calls(q5) == [q5.call] + Calls(q6);
    assert Calls(q4) == [q4.call] + Calls(q5);
    assert Calls(q3) == [q3.call] + Calls(q4);
    assert Calls(q2) == [q2.call] + Calls(q3);
    assert Calls(q1) == [q1.call] + Calls(q2);
    assert Calls(q0) == [q0.call] + Calls(q1);
  }

  /** The humidity section reads 0xA1, the word at 0xE1, and then 0xE3..0xE7 one byte
      at a time. */
  lemma HumCalCalls(next: Plan)
    ensures Calls(HumCalPlan(next)) ==
      [ReadRegCall(0xA1), ReadRegsCall(0xE1, 2), ReadRegCall(0xE3), ReadRegCall(0xE4),
       ReadRegCall(0xE5), ReadRegCall(0xE6), ReadRegCall(0xE7)] + Calls(next)
  {
    var q0 := HumCalPlan(next);
    var q1 := q0.next;
    var q2 := q1.next;
    var q3 := q2.next;
    var q4 := q3.next;
    var q5 := q4.next;
    var q6 := q5.next;
    assert Calls(q6) == [q6.call] + Calls(next);
    assert Calls(q5) == [q5.call] + Calls(q6);
    assert Calls(q4) == [q4.call] + Calls(q5);
    assert Calls(q3) == [q3.call] + Calls(q4);
    assert Calls(q2) == [q2.call] + Calls(q3);
    assert Calls(q1) == [q1.call] + Calls(q2);
    assert Calls(q0) == [q0.call] + Calls(q1);
  }

  /** `BME280_init` makes 19 calibration reads and then two writes, ctrl_hum := 0x01
      before ctrl_meas := 0x27. */
  lemma InitPlanShape()
    ensures var cs := Calls(InitPlan());
      |cs| == 21 && cs[19] == WriteRegCall(0xF2, 0x01) && cs[20] == WriteRegCall(0xF4, 0x27) &&
      forall i :: 0 <= i < 19 ==> !cs[i].WriteRegCall?
  {
    var config := ConfigPlan();
    var hum := HumCalPlan(config);
    var press := PressCalPlan(hum);
    var t := [ReadRegsCall(0x88, 2), ReadRegsCall(0x8A, 2), ReadRegsCall(0x8C, 2)];
    var p := [ReadRegsCall(0x8E, 2), ReadRegsCall(0x90, 2), ReadRegsCall(0x92, 2),
              ReadRegsCall(0x94, 2), ReadRegsCall(0x96, 2), ReadRegsCall(0x98, 2),
              ReadRegsCall(0x9A, 2), ReadRegsCall(0x9C, 2), ReadRegsCall(0x9E, 2)];
    var h := [ReadRegCall(0xA1), ReadRegsCall(0xE1, 2), ReadRegCall(0xE3), ReadRegCall(0xE4),
              ReadRegCall(0xE5), ReadRegCall(0xE6), ReadRegCall(0xE7)];
    var c := [WriteRegCall(0xF2, 0x01), WriteRegCall(0xF4, 0x27)];
    var cs := Calls(InitPlan());
    assert cs == t + (p + (h + c)) by {
      assert Calls(config.next) == [config.next.call] + Calls(Done);
      assert Calls(config) == c;
      HumCalCalls(config);
      PressCalCalls(hum);
      TempCalCalls(press);
    }
    forall i | 0 <= i < 19
      ensures !cs[i].WriteRegCall?
    {
      if i < 3 {
        assert cs[i] == t[i];
      } else if i < 12 {
        assert cs[i] == p[i - 3];
      } else {
        assert cs[i] == h[i - 12];
      }
    }
  }

  /** The register j places after reg; the sensor's register pointer wraps at 0xFF. */
  function RegOffset(reg: byte, j: nat): (a: byte)
    ensures reg + j < 256 ==> a == reg + j
  {
    (reg + j) % 256
  }

  /** The bytes a read call returns when the sensor's registers hold `regs`. */
  function Regs(regs: byte -> byte, c: Call): (d: seq<byte>)
    ensures c.ReadRegsCall? ==> |d| == c.len && forall j :: 0 <= j < c.len ==> d[j] == regs(RegOffset(c.reg, j))
    ensures c.ReadRegCall? ==> d == [regs(c.reg)]
  {
    match c
    case ReadRegsCall(reg, len) =>
      var f: nat -> byte := (j: nat) => regs(RegOffset(reg, j));
      seq(len, j requires 0 <= j < len => f(j))
    case ReadRegCall(reg) => [regs(reg)]
    case WriteRegCall(_, _) => []
  }

  /** Every read call of `plan`, run by `run` from trace position p, succeeds and returns
      the contents of the registers it addresses in the image `regs`. */
  ghost predicate Delivers(run: (nat, Call) -> Txn, p: nat, plan: Plan, regs: byte -> byte)
    decreases plan
  {
    match plan
    case Done => true
    case Then(c, next) =>
      var r := run(p, c);
      (!c.WriteRegCall? ==> r.ok && r.data == Regs(regs, c)) && Delivers(run, p + |r.events|, next, regs)
  }

  /** The compensation parameters the register image `regs` holds, by the calibration map
      of the BME280 datasheet (registers 0x88..0xA1 and 0xE1..0xE7), with dig_H4 and dig_H5
      assembled as the driver assembles them. */
  function CalibrationOf(regs: byte -> byte): Calibration
  {
    Calibration(
      Word16(regs(0x88), regs(0x89)), Signed16(regs(0x8A), regs(0x8B)), Signed16(regs(0x8C), regs(0x8D)),
      Word16(regs(0x8E), regs(0x8F)), Signed16(regs(0x90), regs(0x91)), Signed16(regs(0x92), regs(0x93)),
      Signed16(regs(0x94), regs(0x95)), Signed16(regs(0x96), regs(0x97)), Signed16(regs(0x98), regs(0x99)),
      Signed16(regs(0x9A), regs(0x9B)), Signed16(regs(0x9C), regs(0x9D)), Signed16(regs(0x9E), regs(0x9F)),
      regs(0xA1), Signed16(regs(0xE1), regs(0xE2)), regs(0xE3),
      DigH4(regs(0xE4), regs(0xE5)), DigH5(regs(0xE6), regs(0xE5)), ToInt8(regs(0xE7)))
  }

  /** `BME280_read16(reg)`: on success, the little-endian word at reg, reg+1. On failure the
      value comes from an uninitialised buffer and nothing is promised about it. */
  method Read16(bus: Twi, reg: byte) returns (v: u16)
    modifies bus`trace
    ensures var r := CallRun(bus.oracle, |old(bus.trace)|, BME280_ADDR, ReadRegsCall(reg, 2));
      bus.trace == old(bus.trace) + r.events &&
      (r.ok ==> |r.data| == 2 && v == Word16(r.data[0], r.data[1]))
  {
    var buf := new byte[2];
    var _ := I2c.ReadRegs(bus, BME280_ADDR, reg, buf, 2);
    v := Word16(buf[0], buf[1]);
  }

  /** `BME280_readS16(reg)` */
  method ReadS16(bus: Twi, reg: byte) returns (v: int)
    modifies bus`trace
    ensures var r := CallRun(bus.oracle, |old(bus.trace)|, BME280_ADDR, ReadRegsCall(reg, 2));
      bus.trace == old(bus.trace) + r.events &&
      (r.ok ==> |r.data| == 2 && v == Signed16(r.data[0], r.data[1]))
  {
    var w := Read16(bus, reg);
    v := ToInt16(w);
  }

  /** `I2C_read_reg(BME280_ADDR, reg, &tmp)` into an uninitialised `tmp`. */
  method ReadByte(bus: Twi, reg: byte) returns (v: byte)
    modifies bus`trace
    ensures var r := CallRun(bus.oracle, |old(bus.trace)|, BME280_ADDR, ReadRegCall(reg));
      bus.trace == old(bus.trace) + r.events && (r.ok ==> r.data == [v])
  {
    ReadRegSuccess(bus.oracle, |bus.trace|, BME280_ADDR, reg);
    var tmp: byte := *;
    var _, out := I2c.ReadReg(bus, BME280_ADDR, reg, tmp);
    v := out;
  }

  /** The raw readings: 20-bit temperature at 0xFA..0xFC, 20-bit pressure at 0xF7..0xF9,
      16-bit humidity at 0xFD..0xFE. On failure the value comes from an uninitialised
      buffer and nothing is promised about it. */
  method ReadRaw20(bus: Twi, reg: byte) returns (v: int)
    modifies bus`trace
    ensures var r := CallRun(bus.oracle, |old(bus.trace)|, BME280_ADDR, ReadRegsCall(reg, 3));
      bus.trace == old(bus.trace) + r.events &&
      (r.ok ==> |r.data| == 3 && v == Raw20(r.data[0], r.data[1], r.data[2]))
  {
    var buf := new byte[3];
    var _ := I2c.ReadRegs(bus, BME280_ADDR, reg, buf, 3);
    v := Raw20(buf[0], buf[1], buf[2]);
  }

  /** `BME280_read_raw_hum` */
  method ReadRawHum(bus: Twi) returns (v: int)
    modifies bus`trace
    ensures var r := CallRun(bus.oracle, |old(bus.trace)|, BME280_ADDR, ReadRegsCall(0xFD, 2));
      bus.trace == old(bus.trace) + r.events &&
      (r.ok ==> |r.data| == 2 && v == RawHum(r.data[0], r.data[1]))
  {
    var buf := new byte[2];
    var _ := I2c.ReadRegs(bus, BME280_ADDR, 0xFD, buf, 2);
    v := RawHum(buf[0], buf[1]);
  }

  // ---- The calls of BME280_init, one at a time. The client's whole trace is `whole`; the
  // ---- calls still to come, starting with this one, are `rest`.

  /** An unsigned 16-bit calibration read. */
  method InitRead16(bus: Twi, ghost run: (nat, Call) -> Txn, ghost regs: byte -> byte, reg: byte,
                    ghost whole: seq<Event>, ghost rest: Plan) returns (v: u16)
    requires rest.Then? && rest.call == ReadRegsCall(reg, 2)
    requires Runs(run, bus.oracle, BME280_ADDR)
    requires bus.trace + RunTrace(run, |bus.trace|, rest) == whole
    modifies bus`trace
    ensures bus.trace + RunTrace(run, |bus.trace|, rest.next) == whole
    ensures Delivers(run, |old(bus.trace)|, rest, regs) ==>
      Delivers(run, |bus.trace|, rest.next, regs) && v == Word16(regs(reg), regs(RegOffset(reg, 1)))
  {
    ghost var r := Issue(run, whole, bus.trace, rest);
    v := Read16(bus, reg);
  }

  /** A signed 16-bit calibration read. */
  method InitReadS16(bus: Twi, ghost run: (nat, Call) -> Txn, ghost regs: byte -> byte, reg: byte,
                     ghost whole: seq<Event>, ghost rest: Plan) returns (v: int)
    requires rest.Then? && rest.call == ReadRegsCall(reg, 2)
    requires Runs(run, bus.oracle, BME280_ADDR)
    requires bus.trace + RunTrace(run, |bus.trace|, rest) == whole
    modifies bus`trace
    ensures bus.trace + RunTrace(run, |bus.trace|, rest.next) == whole
    ensures Delivers(run, |old(bus.trace)|, rest, regs) ==>
      Delivers(run, |bus.trace|, rest.next, regs) && v == Signed16(regs(reg), regs(RegOffset(reg, 1)))
  {
    ghost var r := Issue(run, whole, bus.trace, rest);
    v := ReadS16(bus, reg);
  }

  /** A one-byte calibration read. */
  method InitReadByte(bus: Twi, ghost run: (nat, Call) -> Txn, ghost regs: byte -> byte, reg: byte,
                      ghost whole: seq<Event>, ghost rest: Plan) returns (v: byte)
    requires rest.Then? && rest.call == ReadRegCall(reg)
    requires Runs(run, bus.oracle, BME280_ADDR)
    requires bus.trace + RunTrace(run, |bus.trace|, rest) == whole
    modifies bus`trace
    ensures bus.trace + RunTrace(run, |bus.trace|, rest.next) == whole
    ensures Delivers(run, |old(bus.trace)|, rest, regs) ==>
      Delivers(run, |bus.trace|, rest.next, regs) && v == regs(reg)
  {
    ghost var r := Issue(run, whole, bus.trace, rest);
    v := ReadByte(bus, reg);
  }

  /** A configuration write; its status is ignored, as the source ignores it. */
  method InitWrite(bus: Twi, ghost run: (nat, Call) -> Txn, reg: byte, val: byte,
                   ghost whole: seq<Event>, ghost rest: Plan)
    requires rest.Then? && rest.call == WriteRegCall(reg, val)
    requires Runs(run, bus.oracle, BME280_ADDR)
    requires bus.trace + RunTrace(run, |bus.trace|, rest) == whole
    modifies bus`trace
    ensures bus.trace + RunTrace(run, |bus.trace|, rest.next) == whole
  {
    ghost var r := Issue(run, whole, bus.trace, rest);
    assert r == CallRun(bus.oracle, |bus.trace|, BME280_ADDR, WriteRegCall(reg, val));
    var _ := I2c.WriteReg(bus, BME280_ADDR, reg, val);
  }

  // ---- The sections of BME280_init.

  /** The temperature parameters. */
  method ReadTempCal(bus: Twi, ghost run: (nat, Call) -> Txn, ghost regs: byte -> byte,
                     ghost whole: seq<Event>, ghost next: Plan) returns (t1: u16, t2: int, t3: int)
    requires Runs(run, bus.oracle, BME280_ADDR)
    requires bus.trace + RunTrace(run, |bus.trace|, TempCalPlan(next)) == whole
    modifies bus`trace
    ensures bus.trace + RunTrace(run, |bus.trace|, next) == whole
    ensures Delivers(run, |old(bus.trace)|, TempCalPlan(next), regs) ==>
      Delivers(run, |bus.trace|, next, regs) &&
      t1 == Word16(regs(0x88), regs(0x89)) && t2 == Signed16(regs(0x8A), regs(0x8B)) &&
      t3 == Signed16(regs(0x8C), regs(0x8D))
  {
    ghost var rest := TempCalPlan(next);
    t1 := InitRead16(bus, run, regs, 0x88, whole, rest); rest := rest.next;
    t2 := InitReadS16(bus, run, regs, 0x8A, whole, rest); rest := rest.next;
    t3 := InitReadS16(bus, run, regs, 0x8C, whole, rest);
  }

  /** The pressure parameters. */
  method ReadPressCal(bus: Twi, ghost run: (nat, Call) -> Txn, ghost regs: byte -> byte,
                      ghost whole: seq<Event>, ghost next: Plan)
    returns (p1: u16, p2: int, p3: int, p4: int, p5: int, p6: int, p7: int, p8: int, p9: int)
    requires Runs(run, bus.oracle, BME280_ADDR)
    requires bus.trace + RunTrace(run, |bus.trace|, PressCalPlan(next)) == whole
    modifies bus`trace
    ensures bus.trace + RunTrace(run, |bus.trace|, next) == whole
    ensures Delivers(run, |old(bus.trace)|, PressCalPlan(next), regs) ==>
      Delivers(run, |bus.trace|, next, regs) &&
      p1 == Word16(regs(0x8E), regs(0x8F)) && p2 == Signed16(regs(0x90), regs(0x91)) &&
      p3 == Signed16(regs(0x92), regs(0x93)) && p4 == Signed16(regs(0x94), regs(0x95)) &&
      p5 == Signed16(regs(0x96), regs(0x97)) && p6 == Signed16(regs(0x98), regs(0x99)) &&
      p7 == Signed16(regs(0x9A), regs(0x9B)) && p8 == Signed16(regs(0x9C), regs(0x9D)) &&
      p9 == Signed16(regs(0x9E), regs(0x9F))
  {
    ghost var rest := PressCalPlan(next);
    p1 := InitRead16(bus, run, regs, 0x8E, whole, rest); rest := rest.next;
    p2 := InitReadS16(bus, run, regs, 0x90, whole, rest); rest := rest.next;
    p3 := InitReadS16(bus, run, regs, 0x92, whole, rest); rest := rest.next;
    p4 := InitReadS16(bus, run, regs, 0x94, whole, rest); rest := rest.next;
    p5 := InitReadS16(bus, run, regs, 0x96, whole, rest); rest := rest.next;
    p6 := InitReadS16(bus, run, regs, 0x98, whole, rest); rest := rest.next;
    p7 := InitReadS16(bus, run, regs, 0x9A, whole, rest); rest := rest.next;
    p8 := InitReadS16(bus, run, regs, 0x9C, whole, rest); rest := rest.next;
    p9 := InitReadS16(bus, run, regs, 0x9E, whole, rest);
  }

  /** The humidity parameters, dig_H4 and dig_H5 assembled from the shared nibbles of 0xE5
      and dig_H6 taken as a signed byte. */
  method ReadHumCal(bus: Twi, ghost run: (nat, Call) -> Txn, ghost regs: byte -> byte,
                    ghost whole: seq<Event>, ghost next: Plan)
    returns (h1: byte, h2: int, h3: byte, h4: int, h5: int, h6: int)
    requires Runs(run, bus.oracle, BME280_ADDR)
    requires bus.trace + RunTrace(run, |bus.trace|, HumCalPlan(next)) == whole
    modifies bus`trace
    ensures bus.trace + RunTrace(run, |bus.trace|, next) == whole
    ensures Delivers(run, |old(bus.trace)|, HumCalPlan(next), regs) ==>
      Delivers(run, |bus.trace|, next, regs) &&
      h1 == regs(0xA1) && h2 == Signed16(regs(0xE1), regs(0xE2)) && h3 == regs(0xE3) &&
      h4 == DigH4(regs(0xE4), regs(0xE5)) && h5 == DigH5(regs(0xE6), regs(0xE5)) &&
      h6 == ToInt8(regs(0xE7))
  {
    ghost var rest := HumCalPlan(next);
    h1 := InitReadByte(bus, run, regs, 0xA1, whole, rest); rest := rest.next;
    h2 := InitReadS16(bus, run, regs, 0xE1, whole, rest); rest := rest.next;
    h3 := InitReadByte(bus, run, regs, 0xE3, whole, rest); rest := rest.next;
    var e4 := InitReadByte(bus, run, regs, 0xE4, whole, rest); rest := rest.next;
    var e5 := InitReadByte(bus, run, regs, 0xE5, whole, rest); rest := rest.next;
    var e6 := InitReadByte(bus, run, regs, 0xE6, whole, rest); rest := rest.next;
    h4 := DigH4(e4, e5);
    h5 := DigH5(e6, e5);
    var tmp := InitReadByte(bus, run, regs, 0xE7, whole, rest);
    h6 := ToInt8(tmp);
  }

  /** The configuration writes, the last calls of `BME280_init`. */
  method WriteConfig(bus: Twi, ghost run: (nat, Call) -> Txn, ghost whole: seq<Event>)
    requires Runs(run, bus.oracle, BME280_ADDR)
    requires bus.trace + RunTrace(run, |bus.trace|, ConfigPlan()) == whole
    modifies bus`trace
    ensures bus.trace == whole
  {
    ghost var rest := ConfigPlan();
    InitWrite(bus, run, 0xF2, 0x01, whole, rest); rest := rest.next;
    InitWrite(bus, run, 0xF4, 0x27, whole, rest);
  }

  /** `BME280_set_sampling(ms)`: one write of the standby time to the config register 0xF5,
      125, 250 or 500 ms when ms names one of them and 1000 ms otherwise. */
  method SetSampling(bus: Twi, ms: u16)
    modifies bus`trace
    ensures bus.trace == old(bus.trace) +
      CallRun(bus.oracle, |old(bus.trace)|, BME280_ADDR, WriteRegCall(0xF5, StandbyConfig(ms))).events
  {
    var configVal: byte := 0x00;
    if ms == 125 { configVal := 0x40; }
    else if ms == 250 { configVal := 0x60; }
    else if ms == 500 { configVal := 0x80; }
    else { configVal := 0xA0; }
    var _ := I2c.WriteReg(bus, BME280_ADDR, 0xF5, configVal);
  }

  /** The driver's static state: the compensation parameters and `t_fine`. */
  class Sensor {
    var cal: Calibration
    var tFine: int

    /** Static storage starts zeroed. */
    constructor ()
      ensures cal == Calibration(0, 0, 0, 0, 0, 0, 0, 0, 0, 0, 0, 0, 0, 0, 0, 0, 0, 0) && tFine == 0
    {
      cal := Calibration(0, 0, 0, 0, 0, 0, 0, 0, 0, 0, 0, 0, 0, 0, 0, 0, 0, 0);
      tFine := 0;
    }

    /** `BME280_init`: issues the calls of InitPlan() in order, whatever they return, and,
        when every read delivers the registers of the image `regs`, holds the calibration
        the datasheet map assigns to that image. `run` is the outcome of a helper call on
        the sensor (Runner(bus.oracle, BME280_ADDR) satisfies Runs). */
    method Init(bus: Twi, ghost run: (nat, Call) -> Txn, ghost regs: byte -> byte)
      requires Runs(run, bus.oracle, BME280_ADDR)
      modifies this`cal, bus`trace
      ensures bus.trace == old(bus.trace) + RunTrace(run, |old(bus.trace)|, InitPlan())
      ensures Delivers(run, |old(bus.trace)|, InitPlan(), regs) ==> cal == CalibrationOf(regs)
    {
      ghost var whole := bus.trace + RunTrace(run, |bus.trace|, InitPlan());
      var t1, t2, t3 := ReadTempCal(bus, run, regs, whole, PressCalPlan(HumCalPlan(ConfigPlan())));
      var p1, p2, p3, p4, p5, p6, p7, p8, p9 := ReadPressCal(bus, run, regs, whole, HumCalPlan(ConfigPlan()));
      var h1, h2, h3, h4, h5, h6 := ReadHumCal(bus, run, regs, whole, ConfigPlan());
      cal := Calibration(t1, t2, t3, p1, p2, p3, p4, p5, p6, p7, p8, p9, h1, h2, h3, h4, h5, h6);
      WriteConfig(bus, run, whole);
    }

    /** `BME280_read_temperature`: one 3-byte read at 0xFA; on success t_fine is the
        compensation of the raw reading, and the result is always the temperature in
        hundredths of a degree that t_fine stands for. */
    method ReadTemperature(bus: Twi) returns (t: int)
      modifies this`tFine, bus`trace
      ensures var r := CallRun(bus.oracle, |old(bus.trace)|, BME280_ADDR, ReadRegsCall(0xFA, 3));
        bus.trace == old(bus.trace) + r.events &&
        (r.ok ==> |r.data| == 3 && tFine == TFine(Raw20(r.data[0], r.data[1], r.data[2]), cal))
      ensures t == TempCenti(tFine)
    {
      var adcT := ReadRaw20(bus, 0xFA);
      tFine := TFine(adcT, cal);
      t := TempCenti(tFine);
    }

    /** `BME280_read_pressure`: one 3-byte read at 0xF7; on success the result is the
        compensated pressure, in Pa as a Q24.8 value, at the t_fine of the last temperature
        reading, and 0 when the compensation's denominator is 0. */
    method ReadPressure(bus: Twi) returns (p: int)
      modifies bus`trace
      ensures var r := CallRun(bus.oracle, |old(bus.trace)|, BME280_ADDR, ReadRegsCall(0xF7, 3));
        bus.trace == old(bus.trace) + r.events &&
        (r.ok ==> |r.data| == 3 && p == PressureQ8(Raw20(r.data[0], r.data[1], r.data[2]), tFine, cal))
      ensures PressDenominator(tFine, cal) == 0 ==> p == 0
    {
      var adcP := ReadRaw20(bus, 0xF7);
      p := PressureQ8(adcP, tFine, cal);
    }

    /** `BME280_read_humidity`: one 2-byte read at 0xFD; on success the result is the
        compensated relative humidity, in %RH as a Q22.10 value, at the t_fine of the last
        temperature reading. Whatever the read returns, it lies in 0..100 %RH. */
    method ReadHumidity(bus: Twi) returns (h: int)
      modifies bus`trace
      ensures var r := CallRun(bus.oracle, |old(bus.trace)|, BME280_ADDR, ReadRegsCall(0xFD, 2));
        bus.trace == old(bus.trace) + r.events &&
        (r.ok ==> |r.data| == 2 && h == HumidityQ10(RawHum(r.data[0], r.data[1]), tFine, cal))
      ensures 0 <= h <= 100 * 1024
    {
      var adcH := ReadRawHum(bus);
      h := HumidityQ10(adcH, tFine, cal);
    }
  }
}
