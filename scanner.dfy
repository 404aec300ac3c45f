/** The bus scanner of src/main.c: after setting up the TWI it probes every 7-bit address
    from 1 to 126 with a START in write mode followed by a STOP, and reports the
    addresses whose probe came back with 0x18 (SLA+W acknowledged) or 0x40 (SLA+R
    acknowledged). The report, printed in the source, is the sequence of addresses
    returned here. */
module Scanner {
  import opened CTypes
  import opened TwiSpec
  import opened TwiHw
  import I2cLower

  /** The addresses the scanner probes are 1 .. LAST_ADDR - 1. */
  const LAST_ADDR: nat := 127

  /** The statuses the scanner takes for a device that is present. */
  predicate Answers(st: byte)
  {
    st == MT_SLA_ACK || st == MR_SLA_ACK
  }

  /** The bus primitives of probing the addresses a .. 126 in order. */
  function ProbeTrace(a: nat): seq<Event>
    requires 1 <= a <= LAST_ADDR
    decreases LAST_ADDR - a
  {
    if a == LAST_ADDR then []
    else [Event.Start(AddressByte(a as byte, I2C_WRITE)), Event.Stop] + ProbeTrace(a + 1)
  }

  /** The addresses a .. 126 the scanner reports, when the probe of a is the k-th
      primitive on the bus; each probe takes two primitives. */
  function Found(o: Oracle, k: nat, a: nat): seq<byte>
    requires 1 <= a <= LAST_ADDR
    decreases LAST_ADDR - a
  {
    if a == LAST_ADDR then []
    else (if Answers(StatusAt(o, k)) then [a as byte] else []) + Found(o, k + 2, a + 1)
  }

  /** One iteration of the scan loop: probe addr, and report it when it answered. The
      ghost arguments carry the loop's invariant: the primitives still to come and the
      addresses still to be reported. */
  method Probe(bus: Twi, addr: byte, found: seq<byte>, ghost whole: seq<Event>,
               ghost all: seq<byte>) returns (found': seq<byte>)
    requires 1 <= addr < 127
    requires bus.trace + ProbeTrace(addr as nat) == whole
    requires found + Found(bus.oracle, |bus.trace|, addr as nat) == all
    modifies bus`trace
    ensures bus.trace == old(bus.trace) + [Event.Start(AddressByte(addr, I2C_WRITE)), Event.Stop]
    ensures found' == if Answers(StatusAt(bus.oracle, |old(bus.trace)|)) then found + [addr]
                      else found
    ensures bus.trace + ProbeTrace(addr as nat + 1) == whole
    ensures found' + Found(bus.oracle, |bus.trace|, addr as nat + 1) == all
  {
    ghost var t := bus.trace;
    var status := I2cLower.Start(bus, addr, I2C_WRITE);
    found' := found;
    if status == 0x18 || status == 0x40 {
      found' := found + [addr];
    }
    I2cLower.Stop(bus);
    ProbeStep(t, bus.trace, addr as nat, whole);
    FoundStep(bus.oracle, |t|, addr as nat, found, found', all, Answers(status));
  }

  /** `main`, up to its final idle loop: the TWI set-up and the scan. The UART set-up,
      the banner lines and the 5 ms pause after each probe are not modelled. */
  method Scan(bus: Twi) returns (found: seq<byte>)
    modifies bus`trace, bus`prescaler, bus`twbr
    ensures bus.prescaler == 0 && bus.twbr == TwbrFor(F_CPU)
    ensures bus.trace == old(bus.trace) + ProbeTrace(1)
    ensures found == Found(bus.oracle, |old(bus.trace)|, 1)
  {
    I2cLower.Init(bus);
    ghost var whole := bus.trace + ProbeTrace(1);
    ghost var all := Found(bus.oracle, |bus.trace|, 1);
    found := [];
    var addr: byte := 1;
    while addr < 127
      modifies bus`trace
      invariant 1 <= addr <= 127
      invariant bus.trace + ProbeTrace(addr as nat) == whole
      invariant found + Found(bus.oracle, |bus.trace|, addr as nat) == all
    {
      found := Probe(bus, addr, found, whole, all);
      addr := addr + 1;
    }
    assert bus.trace + [] == bus.trace;
    assert found + [] == found;
  }

  lemma ProbeStep(t: seq<Event>, t': seq<Event>, a: nat, whole: seq<Event>)
    requires 1 <= a < LAST_ADDR
    requires t' == t + [Event.Start(AddressByte(a as byte, I2C_WRITE)), Event.Stop]
    requires t + ProbeTrace(a) == whole
    ensures t' + ProbeTrace(a + 1) == whole
  {
    var p := [Event.Start(AddressByte(a as byte, I2C_WRITE)), Event.Stop];
    ConcatAssoc(t, p, ProbeTrace(a + 1));
  }

  lemma FoundStep(o: Oracle, k: nat, a: nat, found: seq<byte>, found': seq<byte>,
                  all: seq<byte>, present: bool)
    requires 1 <= a < LAST_ADDR
    requires found + Found(o, k, a) == all
    requires present <==> Answers(StatusAt(o, k))
    requires found' == if present then found + [a as byte] else found
    ensures found' + Found(o, k + 2, a + 1) == all
  {
    var rest := Found(o, k + 2, a + 1);
    if present {
      assert Found(o, k, a) == [a as byte] + rest;
      assert (found + [a as byte]) + rest == found + ([a as byte] + rest);
    } else {
      assert Found(o, k, a) == [] + rest;
    }
  }

  // ---- What the scan does

  /** The probes take two primitives each: START with address x in write mode at position
      2(x - a), and STOP just after it. */
  lemma {:induction false} ProbeTraceAt(a: nat, x: nat)
    requires 1 <= a <= x < LAST_ADDR
    ensures |ProbeTrace(a)| == 2 * (LAST_ADDR - a)
    ensures ProbeTrace(a)[2 * (x - a)] == Event.Start(AddressByte(x as byte, I2C_WRITE))
    ensures ProbeTrace(a)[2 * (x - a) + 1] == Event.Stop
    decreases x - a
  {
    var p := [Event.Start(AddressByte(a as byte, I2C_WRITE)), Event.Stop];
    if x > a {
      ProbeTraceAt(a + 1, x);
      assert ProbeTrace(a) == p + ProbeTrace(a + 1);
      assert 2 * (x - a) == 2 + 2 * (x - (a + 1));
    } else {
      ProbeTraceLength(a);
    }
  }

  lemma {:induction false} ProbeTraceLength(a: nat)
    requires 1 <= a <= LAST_ADDR
    ensures |ProbeTrace(a)| == 2 * (LAST_ADDR - a)
    decreases LAST_ADDR - a
  {
    if a < LAST_ADDR {
      ProbeTraceLength(a + 1);
    }
  }

  /** The address byte of every probe is the address shifted left with the write bit
      clear: no address the scanner probes is truncated. */
  lemma ProbeAddress(x: nat)
    requires 1 <= x < LAST_ADDR
    ensures AddressByte(x as byte, I2C_WRITE) == 2 * x
  {
  }

  /** x is reported exactly when it is one of the probed addresses and its probe answered
      with 0x18 or 0x40. */
  lemma {:induction false} FoundIff(o: Oracle, k: nat, a: nat, x: byte)
    requires 1 <= a <= LAST_ADDR
    ensures x in Found(o, k, a) <==>
            a <= x as nat < LAST_ADDR && Answers(StatusAt(o, k + 2 * (x as nat - a)))
    decreases LAST_ADDR - a
  {
    if a < LAST_ADDR {
      var head := if Answers(StatusAt(o, k)) then [a as byte] else [];
      var rest := Found(o, k + 2, a + 1);
      FoundIff(o, k + 2, a + 1, x);
      assert Found(o, k, a) == head + rest;
      assert x in head + rest <==> x in head || x in rest;
      if x as nat > a {
        assert k + 2 * (x as nat - a) == k + 2 + 2 * (x as nat - (a + 1));
      }
    }
  }

  /** Every reported address is at least a and below LAST_ADDR. */
  lemma {:induction false} FoundRange(o: Oracle, k: nat, a: nat)
    requires 1 <= a <= LAST_ADDR
    ensures forall i :: 0 <= i < |Found(o, k, a)| ==> a <= Found(o, k, a)[i] as nat < LAST_ADDR
    decreases LAST_ADDR - a
  {
    if a < LAST_ADDR {
      FoundRange(o, k + 2, a + 1);
    }
  }

  /** The report lists the addresses in increasing order, each once. */
  lemma {:induction false} FoundIncreasing(o: Oracle, k: nat, a: nat)
    requires 1 <= a <= LAST_ADDR
    ensures forall i, j :: 0 <= i < j < |Found(o, k, a)| ==> Found(o, k, a)[i] < Found(o, k, a)[j]
    decreases LAST_ADDR - a
  {
    if a < LAST_ADDR {
      FoundIncreasing(o, k + 2, a + 1);
      FoundRange(o, k + 2, a + 1);
    }
  }
}
