/** The integer logic of the BME280 driver (src/sensors/bme280.c): how the register bytes
    are assembled into words and raw readings, the standby-time setting, and the integer
    compensation formulas of the Bosch BME280 datasheet (section 4.2.3). */
module Bme280Math {
  import opened CTypes

  /** `BME280_read16`: `((uint16_t)buf[1] << 8) | buf[0]`, little-endian. */
  function Word16(lo: byte, hi: byte): (w: u16)
    ensures w == hi * 256 + lo
  {
    OrDisjoint(hi, lo, 8);
    BitOr(Shl(hi, 8), lo)
  }

  /** The two bytes of a word come back out of it, and every word is made of two bytes. */
  lemma Word16Bytes(lo: byte, hi: byte, w: u16)
    ensures Word16(lo, hi) == w <==> (lo == w % 256 && hi == w / 256)
  {
  }

  /** `BME280_readS16`: the word read as two's complement. */
  function Signed16(lo: byte, hi: byte): (v: int)
    ensures -0x8000 <= v < 0x8000
    ensures v >= 0 <==> hi < 0x80
    ensures (v - (hi * 256 + lo)) % 0x1_0000 == 0
  {
    ToInt16(Word16(lo, hi))
  }

  /** `read_raw_temp` / `read_raw_press`: `(b0 << 12) | (b1 << 4) | (b2 >> 4)`, the 20-bit
      reading held in msb, lsb and the high nibble of xlsb. */
  function Raw20(b0: byte, b1: byte, b2: byte): (r: nat)
    ensures r == b0 * 4096 + b1 * 16 + b2 / 16
  {
    assert Pow2(4) == 16 && Pow2(12) == 4096;
    OrDisjoint(b0, b1 * 16, 12);
    assert b0 * 4096 + b1 * 16 == (b0 * 256 + b1) * 16;
    OrDisjoint(b0 * 256 + b1, b2 / 16, 4);
    BitOr(BitOr(Shl(b0, 12), Shl(b1, 4)), b2 / 16)
  }

  /** The raw reading is below 2^20, and it determines msb, lsb and the high nibble of xlsb. */
  lemma Raw20Fields(b0: byte, b1: byte, b2: byte)
    ensures Raw20(b0, b1, b2) < 0x10_0000
    ensures Raw20(b0, b1, b2) / 4096 == b0
    ensures Raw20(b0, b1, b2) / 16 % 256 == b1
    ensures Raw20(b0, b1, b2) % 16 == b2 / 16
  {
    var r := Raw20(b0, b1, b2);
    DivMod(r, 4096, b0, b1 * 16 + b2 / 16);
    DivMod(r, 16, b0 * 256 + b1, b2 / 16);
    DivMod(b0 * 256 + b1, 256, b0, b1);
  }

  lemma Raw20Example()
    ensures Raw20(0x7F, 0xE0, 0x00) == 0x7FE00
  {
  }

  /** `read_raw_hum`: `(b0 << 8) | b1`, big-endian. */
  function RawHum(b0: byte, b1: byte): (r: nat)
    ensures r == b0 * 256 + b1
  {
    OrDisjoint(b0, b1, 8);
    BitOr(Shl(b0, 8), b1)
  }

  lemma RawHumBytes(b0: byte, b1: byte)
    ensures RawHum(b0, b1) < 0x1_0000
    ensures RawHum(b0, b1) / 256 == b0 && RawHum(b0, b1) % 256 == b1
  {
    DivMod(RawHum(b0, b1), 256, b0, b1);
  }

  /** dig_H4: `(e4 << 4) | (e5 & 0x0F)`; e4 is unsigned, so the value is never negative. */
  function DigH4(e4: byte, e5: byte): (h: int)
    ensures h == e4 * 16 + e5 % 16
  {
    AndMask(e5, 4);
    OrDisjoint(e4, e5 % 16, 4);
    ToInt16(BitOr(Shl(e4, 4), BitAnd(e5, 0x0F)))
  }

  /** dig_H5: `(e6 << 4) | (e5 >> 4)`. */
  function DigH5(e6: byte, e5: byte): (h: int)
    ensures h == e6 * 16 + e5 / 16
  {
    OrDisjoint(e6, e5 / 16, 4);
    ToInt16(BitOr(Shl(e6, 4), e5 / 16))
  }

  /** Both are 12-bit non-negative values, and together they hold e4, e6 and both nibbles of
      the shared register 0xE5. */
  lemma DigH45Fields(e4: byte, e5: byte, e6: byte)
    ensures 0 <= DigH4(e4, e5) < 4096 && 0 <= DigH5(e6, e5) < 4096
    ensures DigH4(e4, e5) / 16 == e4 && DigH5(e6, e5) / 16 == e6
    ensures DigH5(e6, e5) % 16 * 16 + DigH4(e4, e5) % 16 == e5
  {
    DivMod(DigH4(e4, e5), 16, e4, e5 % 16);
    DivMod(DigH5(e6, e5), 16, e6, e5 / 16);
  }

  /** `BME280_set_sampling(ms)`: the value written to the config register 0xF5. */
  function StandbyConfig(ms: u16): byte
  {
    if ms == 125 then 0x40
    else if ms == 250 then 0x60
    else if ms == 500 then 0x80
    else 0xA0
  }

  /** The standby time t_sb selected by bits 7..5 of the config register, in ms, as the
      datasheet's table lists it (0.5, 62.5, 10 and 20 ms have no whole-ms value here). */
  function StandbyMs(tsb: nat): nat
  {
    if tsb == 2 then 125 else if tsb == 3 then 250 else if tsb == 4 then 500
    else if tsb == 5 then 1000 else 0
  }

  /** 125, 250 and 500 ms are set exactly; every other request gets 1000 ms. Filter and
      SPI bits (4..0) stay 0. */
  lemma StandbyConfigMeaning(ms: u16)
    ensures StandbyConfig(ms) % 32 == 0
    ensures StandbyMs(StandbyConfig(ms) / 32) == if ms == 125 || ms == 250 || ms == 500 then ms else 1000
  {
  }

  /** The compensation parameters read at start-up (`dig_T1` … `dig_H6`). */
  datatype Calibration = Calibration(
    t1: u16, t2: int, t3: int,
    p1: u16, p2: int, p3: int, p4: int, p5: int, p6: int, p7: int, p8: int, p9: int,
    h1: byte, h2: int, h3: byte, h4: int, h5: int, h6: int)

  /** `t_fine` from a raw temperature reading: var1 + var2 of `BME280_read_temperature`. */
  function TFine(adcT: int, c: Calibration): int
  {
    var var1 := Asr((Asr(adcT, 3) - Shl(c.t1, 1)) * c.t2, 11);
    var d := Asr(adcT, 4) - c.t1;
    var var2 := Asr(Asr(d * d, 12) * c.t3, 14);
    var1 + var2
  }

  /** The temperature in hundredths of a degree: `(t_fine * 5 + 128) >> 8`. */
  function TempCenti(tFine: int): (t: int)
    ensures 256 * t <= tFine * 5 + 128 < 256 * t + 256
  {
    Asr(tFine * 5 + 128, 8)
  }

  /** The rounding is monotone: a warmer `t_fine` never reads colder. */
  lemma TempCentiMonotone(a: int, b: int)
    requires a <= b
    ensures TempCenti(a) <= TempCenti(b)
  {
  }

  /** The worked example of the Bosch datasheets: raw 519888 with T1 = 27504, T2 = 26435,
      T3 = -1000 gives t_fine = 128422 and 25.08 degrees. */
  lemma TemperatureExample()
    ensures var c := Calibration(27504, 26435, -1000, 0, 0, 0, 0, 0, 0, 0, 0, 0, 0, 0, 0, 0, 0, 0);
      TFine(519888, c) == 128422 && TempCenti(128422) == 2508
  {
    var c := Calibration(27504, 26435, -1000, 0, 0, 0, 0, 0, 0, 0, 0, 0, 0, 0, 0, 0, 0, 0);
    assert Pow2(3) == 8 && Pow2(4) == 16 && Pow2(8) == 256;
    assert Pow2(11) == 2048 && Pow2(12) == 4096 && Pow2(14) == 16384;
    assert Asr(519888, 3) == 64986 && Asr(519888, 4) == 32493;
    assert Asr((64986 - 55008) * 26435, 11) == 128793;
    assert Asr(4989 * 4989, 12) == 6076;
    assert Asr(6076 * -1000, 14) == -371;
  }

  /** The denominator of the pressure formula: var1 after the P1 scaling. */
  function PressDenominator(tFine: int, c: Calibration): int
  {
    var var1 := tFine - 128000;
    var var1' := Asr(var1 * var1 * c.p3, 8) + Shl(var1 * c.p2, 12);
    Asr((Shl(1, 47) + var1') * c.p1, 33)
  }

  /** The pressure in Pa as an unsigned Q24.8 value (`p` before the division by 25600.0),
      0 when the denominator is 0. */
  function PressureQ8(adcP: int, tFine: int, c: Calibration): (p: int)
    ensures PressDenominator(tFine, c) == 0 ==> p == 0
  {
    var var1 := tFine - 128000;
    var var2 := var1 * var1 * c.p6;
    var var2' := var2 + Shl(var1 * c.p5, 17);
    var var2'' := var2' + Shl(c.p4, 35);
    var den := PressDenominator(tFine, c);
    if den == 0 then 0
    else
      var p := 1048576 - adcP;
      var p' := DivTrunc((Shl(p, 31) - var2'') * 3125, den);
      var v1 := Asr(c.p9 * Asr(p', 13) * Asr(p', 13), 25);
      var v2 := Asr(c.p8 * p', 19);
      Asr(p' + v1 + v2, 8) + Shl(c.p7, 4)
  }

  /** A worked example: raw 415148 at t_fine 128422 with P1..P9 = 36477, -10685, 3024, 2855,
      140, -7, 15500, -14600, 6000 gives 25767233, that is 100653.25 Pa. */
  lemma PressureExample()
    ensures var c := Calibration(0, 0, 0, 36477, -10685, 3024, 2855, 140, -7, 15500, -14600, 6000,
                                 0, 0, 0, 0, 0, 0);
      PressureQ8(415148, 128422, c) == 25767233
  {
    var c := Calibration(0, 0, 0, 36477, -10685, 3024, 2855, 140, -7, 15500, -14600, 6000,
                         0, 0, 0, 0, 0, 0);
    PressureSteps();
    assert Asr(422 * 422 * 3024, 8) == 2103617;
    assert Asr((140737488355328 - 18467047103) * 36477, 33) == 597560748;
    assert PressDenominator(128422, c) == 597560748;
    assert DivTrunc(3944285864554787500, 597560748) == 6600644165;
    assert Asr(6600644165, 13) == 805742;
    assert Asr(6000 * 805742 * 805742, 25) == 116089612;
    assert Asr(-14600 * 6600644165, 19) == -183810053;
    assert Asr(6600644165 + 116089612 - 183810053, 8) == 25519233;
  }

  lemma PressureSteps()
    ensures Pow2(8) == 256 && Pow2(12) == 4096 && Pow2(13) == 8192 && Pow2(17) == 131072
    ensures Pow2(19) == 524288 && Pow2(25) == 33554432 && Pow2(31) == 2147483648
    ensures Pow2(33) == 8589934592 && Pow2(35) == 34359738368 && Pow2(47) == 140737488355328
  {
    assert Pow2(8) == 256;
    assert Pow2(17) == 131072;
    assert Pow2(25) == 33554432;
    assert Pow2(33) == 8589934592;
    assert Pow2(47) == 140737488355328;
  }

  /** The humidity intermediate `v_x1_u32r` before clamping. */
  function HumRaw(adcH: int, tFine: int, c: Calibration): int
  {
    var v := tFine - 76800;
    var a := Asr(Shl(adcH, 14) - Shl(c.h4, 20) - c.h5 * v + 16384, 15);
    var b := Asr((Asr(Asr(v * c.h6, 10) * (Asr(v * c.h3, 11) + 32768), 10) + 2097152) * c.h2 + 8192, 14);
    var v' := a * b;
    v' - Asr(Asr(Asr(v', 15) * Asr(v', 15), 7) * c.h1, 4)
  }

  /** The humidity intermediate clamped to [0, 419430400]. */
  function HumClamped(adcH: int, tFine: int, c: Calibration): (v: int)
    ensures 0 <= v <= 419430400
    ensures 0 <= HumRaw(adcH, tFine, c) <= 419430400 ==> v == HumRaw(adcH, tFine, c)
    ensures HumRaw(adcH, tFine, c) < 0 ==> v == 0
    ensures HumRaw(adcH, tFine, c) > 419430400 ==> v == 419430400
  {
    var v := HumRaw(adcH, tFine, c);
    var v' := if v < 0 then 0 else v;
    if v' > 419430400 then 419430400 else v'
  }

  /** The relative humidity as the Q22.10 value `v_x1_u32r >> 12` (before the division by
      1024.0): between 0 and 100 %RH. */
  function HumidityQ10(adcH: int, tFine: int, c: Calibration): (h: int)
    ensures 0 <= h <= 100 * 1024
  {
    Asr(HumClamped(adcH, tFine, c), 12)
  }
}
