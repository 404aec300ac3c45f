/** The ATmega TWI peripheral as the drivers see it: the bit-rate registers they set, and
    one operation per bus primitive that stands for "write TWCR (and TWDR), spin until
    TWINT is set, then look at TWSR and TWDR". */
module TwiHw {
  import opened CTypes
  import opened TwiSpec

  class Twi {
    /** The answers of the hardware and of the devices on the bus. */
    const oracle: Oracle
    /** Every primitive issued on the bus so far, in order. */
    var trace: seq<Event>
    /** TWPS bits of TWSR (the prescaler). */
    var prescaler: byte
    /** TWBR (the bit-rate divisor). */
    var twbr: byte

    constructor (o: Oracle)
      ensures oracle == o && trace == [] && prescaler == 0 && twbr == 0
    {
      oracle := o;
      trace := [];
      prescaler := 0;
      twbr := 0;
    }

    /** Carries out one primitive and returns the raw TWSR and the TWDR it leaves. */
    method Transfer(e: Event) returns (twsr: byte, twdr: byte)
      modifies this`trace
      ensures trace == old(trace) + [e]
      ensures twsr == oracle.status(|old(trace)|) && twdr == oracle.data(|old(trace)|)
    {
      twsr := oracle.status(|trace|);
      twdr := oracle.data(|trace|);
      trace := trace + [e];
    }
  }

  /** F_CPU, the CPU clock the drivers are built for (16 MHz). */
  const F_CPU: nat := 16_000_000

  /** `((F_CPU / 100000UL) - 16) / 2` in 32-bit unsigned long arithmetic, stored in the
      8-bit TWBR. */
  function TwbrFor(fcpu: nat): (r: byte)
    ensures 1_600_000 <= fcpu < 52_800_000 ==> r == (fcpu / 100_000 - 16) / 2
  {
    (((fcpu / 100_000 - 16) % 0x1_0000_0000) / 2) % 256
  }

  /** SCL frequency of the TWI with prescaler 1: F_CPU / (16 + 2 * TWBR). */
  function SclFrequency(fcpu: nat, twbr: byte): nat
  {
    fcpu / (16 + 2 * twbr)
  }

  /** At 16 MHz the divisor is 72, which gives exactly 100 kHz. */
  lemma TwbrAt16MHz()
    ensures TwbrFor(F_CPU) == 72
    ensures SclFrequency(F_CPU, TwbrFor(F_CPU)) == 100_000
  {
  }

  /** For every CPU clock that is a multiple of 200 kHz in the range the formula is meant
      for, the divisor gives a 100 kHz bus. */
  lemma TwbrGives100kHz(fcpu: nat)
    requires 1_600_000 <= fcpu < 52_800_000 && fcpu % 200_000 == 0
    ensures SclFrequency(fcpu, TwbrFor(fcpu)) == 100_000
  {
    var q := fcpu / 200_000;
    assert fcpu == 200_000 * q;
    assert fcpu / 100_000 == 2 * q;
    assert TwbrFor(fcpu) == q - 8;
    DivMod(fcpu, 2 * q, 100_000, 0);
  }
}
