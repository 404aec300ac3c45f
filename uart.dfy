/** The interrupt-driven serial driver of avr_common/uart/uart.c: a receive queue filled by
    the RX-complete interrupt and drained by the main program, and a transmit queue filled
    by the main program and drained by the data-register-empty interrupt. */
module Uart {
  import opened CTypes
  import opened RingSpec

  datatype Option<T> = None | Some(value: T)

  const CR: byte := 13
  const LF: byte := 10

  /** A line as `UART_getString` returns it: the bytes stored in the caller's buffer
      (without terminator) and the number of bytes taken from the receive queue. */
  datatype LineRead = LineRead(stored: seq<byte>, consumed: nat)

  predicate IsTerminator(c: byte)
  {
    c == CR || c == LF
  }

  /** `UART_getString` reading from the bytes `input` with room for `room` characters:
      it stops at a CR or LF, which it consumes without storing, or once `room` characters
      are stored. `None` when `input` runs out first (the call would wait for more). */
  function ReadLine(input: seq<byte>, room: nat): (r: Option<LineRead>)
    ensures r.Some? ==> |r.value.stored| <= room && |r.value.stored| <= r.value.consumed <= |input|
  {
    if room == 0 then Some(LineRead([], 0))
    else if input == [] then None
    else if IsTerminator(input[0]) then Some(LineRead([], 1))
    else Prepend([input[0]], ReadLine(input[1..], room - 1))
  }

  /** A read that was preceded by the bytes `p`, stored and consumed. */
  function Prepend(p: seq<byte>, r: Option<LineRead>): Option<LineRead>
  {
    match r
    case None => None
    case Some(l) => Some(LineRead(p + l.stored, |p| + l.consumed))
  }

  /** The room `UART_getString(buf, maxlen)` leaves for characters: maxlen - 1, and none
      when maxlen is below 1. */
  function Room(maxlen: int): nat
  {
    if maxlen >= 1 then maxlen - 1 else 0
  }

  /** What a completed line read delivers: a prefix of the input with no CR or LF in it
      and at most `room` long; it consumed either just those bytes (when the room ran
      out) or one more, the terminator that ended it. */
  predicate IsLineRead(input: seq<byte>, room: nat, l: LineRead)
  {
    |l.stored| <= room && |l.stored| <= |input| && l.stored == input[..|l.stored|] &&
    (forall i :: 0 <= i < |l.stored| ==> !IsTerminator(l.stored[i])) &&
    ((l.consumed == |l.stored| && |l.stored| == room) ||
     (l.consumed == |l.stored| + 1 && |l.stored| < room && |l.stored| < |input| &&
      IsTerminator(input[|l.stored|])))
  }

  /** The line reader's result has that shape ... */
  lemma {:induction false} ReadLineSound(input: seq<byte>, room: nat)
    requires ReadLine(input, room).Some?
    ensures IsLineRead(input, room, ReadLine(input, room).value)
  {
    if room > 0 && input != [] && !IsTerminator(input[0]) {
      ReadLineSound(input[1..], room - 1);
    }
  }

  /** ... and it is the only read of that shape. */
  lemma {:induction false} ReadLineComplete(input: seq<byte>, room: nat, l: LineRead)
    requires IsLineRead(input, room, l)
    ensures ReadLine(input, room) == Some(l)
  {
    if room > 0 && |l.stored| > 0 {
      var l' := LineRead(l.stored[1..], l.consumed - 1);
      assert input[0] == l.stored[0];
      assert l'.stored == input[1..][..|l'.stored|];
      assert forall i :: 0 <= i < |l'.stored| ==> l'.stored[i] == l.stored[i + 1];
      ReadLineComplete(input[1..], room - 1, l');
      assert [input[0]] + l'.stored == l.stored;
    }
  }

  /** The bytes a line read waits for are there: a terminator, or at least `room` bytes. */
  predicate LineAvailable(input: seq<byte>, room: nat)
  {
    |input| >= room || exists i :: 0 <= i < |input| && IsTerminator(input[i])
  }

  /** A line read completes exactly when the input holds a terminator or at least `room`
      bytes. */
  lemma {:induction false} ReadLineDefined(input: seq<byte>, room: nat)
    ensures ReadLine(input, room).Some? <==> LineAvailable(input, room)
  {
    if room > 0 && input != [] && !IsTerminator(input[0]) {
      ReadLineDefined(input[1..], room - 1);
      if exists i :: 0 <= i < |input| && IsTerminator(input[i]) {
        var i :| 0 <= i < |input| && IsTerminator(input[i]);
        assert input[1..][i - 1] == input[i];
      }
      if exists i :: 0 <= i < |input[1..]| && IsTerminator(input[1..][i]) {
        var i :| 0 <= i < |input[1..]| && IsTerminator(input[1..][i]);
        assert input[i + 1] == input[1..][i];
      }
    }
  }

  /** Bytes that arrive after a completed line do not change what that line read returns. */
  lemma {:induction false} ReadLineStable(input: seq<byte>, more: seq<byte>, room: nat)
    requires ReadLine(input, room).Some?
    ensures ReadLine(input + more, room) == ReadLine(input, room)
  {
    if room > 0 && input != [] && !IsTerminator(input[0]) {
      assert (input + more)[1..] == input[1..] + more;
      ReadLineStable(input[1..], more, room - 1);
    }
  }

  /** The two queues and the transmitter line of USART0. */
  class Usart {
    /** UART_RX_BUF_SIZE and UART_TX_BUF_SIZE, at most 256 because the indices are uint8_t. */
    const rxSize: nat
    const txSize: nat
    const rxBuf: array<byte>
    const txBuf: array<byte>
    var rxHead: byte
    var rxTail: byte
    var txHead: byte
    var txTail: byte
    /** The UDRIE0 bit of UCSR0B: the data-register-empty interrupt is enabled. */
    var udrie: bool
    /** Every byte the transmit interrupt has written to UDR0, in order. */
    var wire: seq<byte>

    ghost predicate Valid()
      reads this
    {
      2 <= rxSize <= 256 && 2 <= txSize <= 256 &&
      rxBuf.Length == rxSize && txBuf.Length == txSize && rxBuf != txBuf &&
      rxHead < rxSize && rxTail < rxSize && txHead < txSize && txTail < txSize
    }

    /** The bytes received and not yet read, oldest first. */
    function RxContents(): seq<byte>
      reads this, rxBuf
      requires Valid()
    {
      Window(rxBuf[..], rxTail, rxHead)
    }

    /** The bytes queued for sending and not yet sent, oldest first. */
    function TxContents(): seq<byte>
      reads this, txBuf
      requires Valid()
    {
      Window(txBuf[..], txTail, txHead)
    }

    /** The static buffers, zero-filled, with all indices 0 and the interrupt disabled. */
    constructor (rxN: nat, txN: nat)
      requires 2 <= rxN <= 256 && 2 <= txN <= 256
      ensures Valid() && rxSize == rxN && txSize == txN && fresh(rxBuf) && fresh(txBuf)
      ensures RxContents() == [] && TxContents() == [] && wire == [] && !udrie
    {
      rxSize := rxN;
      txSize := txN;
      rxBuf := new byte[rxN](_ => 0);
      txBuf := new byte[txN](_ => 0);
      rxHead, rxTail, txHead, txTail := 0, 0, 0, 0;
      udrie := false;
      wire := [];
    }

    /** `UART_putChar`: the wait for a free slot is the precondition. Stores `data` at the
        old head, advances the head, enables the transmit interrupt. */
    method PutChar(data: byte)
      requires Valid() && !Full(txSize, txTail, txHead)
      modifies this`txHead, this`udrie, txBuf
      ensures Valid()
      ensures txBuf[..] == old(txBuf[..])[old(txHead) := data]
      ensures txHead == Next(old(txHead), txSize) && udrie
      ensures TxContents() == old(TxContents()) + [data]
      ensures rxBuf[..] == old(rxBuf[..])
    {
      WindowPush(txBuf[..], txTail, txHead, data);
      txBuf[txHead] := data;
      txHead := Next(txHead, txSize);
      udrie := true;
    }

    /** `UART_getChar`: the wait for data is the precondition. Returns the oldest received
        byte and advances the tail. */
    method GetChar() returns (c: byte)
      requires Valid() && rxHead != rxTail
      modifies this`rxTail
      ensures Valid()
      ensures rxTail == Next(old(rxTail), rxSize)
      ensures old(RxContents()) != [] && c == old(RxContents())[0]
      ensures RxContents() == old(RxContents())[1..]
    {
      WindowPop(rxBuf[..], rxTail, rxHead);
      c := rxBuf[rxTail];
      rxTail := Next(rxTail, rxSize);
    }

    /** `UART_putString(s)`: queues the characters of the C string in `s`, up to its NUL.
        The transmit interrupt does not run in between, so they must all fit. */
    method PutString(s: seq<byte>)
      requires Valid() && CStrLen(s) < |s|
      requires |TxContents()| + CStrLen(s) <= txSize - 1
      modifies this`txHead, this`udrie, txBuf
      ensures Valid()
      ensures TxContents() == old(TxContents()) + CStr(s)
      ensures CStrLen(s) > 0 ==> udrie
      ensures udrie == (old(udrie) || CStrLen(s) > 0)
      ensures rxBuf[..] == old(rxBuf[..])
    {
      var i := 0;
      while s[i] != 0
        invariant 0 <= i <= CStrLen(s)
        invariant Valid()
        invariant TxContents() == old(TxContents()) + s[..i]
        invariant udrie == (old(udrie) || i > 0)
        invariant rxBuf[..] == old(rxBuf[..])
        decreases CStrLen(s) - i
      {
        WindowBounds(txBuf[..], txTail, txHead);
        PutChar(s[i]);
        assert s[..i + 1] == s[..i] + [s[i]];
        i := i + 1;
      }
    }

    /** `UART_getString(buf, maxlen)`: reads bytes until a CR or LF (consumed, not stored)
        or until maxlen-1 are stored, then NUL-terminates `buf` and returns the count. The
        bytes it waits for must already be queued. */
    method GetString(buf: array<byte>, maxlen: int) returns (n: int, ghost consumed: nat)
      requires Valid() && buf != rxBuf && buf != txBuf && buf.Length > Room(maxlen)
      requires LineAvailable(RxContents(), Room(maxlen))
      modifies this`rxTail, buf
      ensures Valid()
      ensures 0 <= n < buf.Length
      ensures IsLineRead(old(RxContents()), Room(maxlen), LineRead(buf[..n], consumed))
      ensures buf[n] == 0 && buf[n + 1..] == old(buf[n + 1..])
      ensures consumed <= |old(RxContents())| && RxContents() == old(RxContents())[consumed..]
    {
      ghost var input := RxContents();
      ghost var room := Room(maxlen);
      ghost var b0 := buf[..];
      var i := 0;
      consumed := 0;
      while i < maxlen - 1
        invariant 0 <= i <= room && i <= |input| && consumed == i && Valid()
        invariant RxContents() == input[i..]
        invariant buf[..i] == input[..i]
        invariant forall j :: 0 <= j < i ==> !IsTerminator(input[j])
        invariant forall j :: i <= j < buf.Length ==> buf[j] == b0[j]
        decreases room - i
      {
        assert input[i..] != [] by {
          if |input| < room {
            var t :| 0 <= t < |input| && IsTerminator(input[t]);
          }
        }
        var c := GetChar();
        assert c == input[i];
        assert input[i..][1..] == input[i + 1..];
        ghost var rest := RxContents();
        if c == CR || c == LF {
          consumed := i + 1;
          break;
        }
        buf[i] := c;
        assert RxContents() == rest;
        assert buf[..i + 1] == input[..i + 1];
        i := i + 1;
        consumed := i;
      }
      buf[i] := 0;
      n := i;
      assert buf[n + 1..] == b0[n + 1..];
    }

    /** `ISR(USART0_RX_vect)`: the received byte `data` (read from UDR0) is queued, or
        dropped when the queue is full, leaving the queue as it was. */
    method RxIsr(data: byte)
      requires Valid()
      modifies this`rxHead, rxBuf
      ensures Valid()
      ensures old(Full(rxSize, rxTail, rxHead)) ==>
                rxHead == old(rxHead) && rxBuf[..] == old(rxBuf[..]) && RxContents() == old(RxContents())
      ensures !old(Full(rxSize, rxTail, rxHead)) ==>
                rxBuf[..] == old(rxBuf[..])[old(rxHead) := data] && rxHead == Next(old(rxHead), rxSize) &&
                RxContents() == old(RxContents()) + [data]
      ensures txBuf[..] == old(txBuf[..])
    {
      var next := Next(rxHead, rxSize);
      if next != rxTail {
        WindowPush(rxBuf[..], rxTail, rxHead, data);
        rxBuf[rxHead] := data;
        rxHead := next;
      }
    }

    /** `ISR(USART0_UDRE_vect)`: with nothing queued it disables itself; otherwise it
        writes the oldest queued byte to UDR0 and advances the tail. Either way the bytes
        sent followed by the bytes queued stay the same. */
    method UdreIsr()
      requires Valid()
      modifies this`txTail, this`udrie, this`wire
      ensures Valid()
      ensures wire + TxContents() == old(wire + TxContents())
      ensures old(txHead == txTail) ==> !udrie && wire == old(wire) && txTail == old(txTail)
      ensures old(txHead != txTail) ==>
                udrie == old(udrie) && wire == old(wire) + [old(txBuf[txTail])] &&
                txTail == Next(old(txTail), txSize)
    {
      if txHead == txTail {
        udrie := false;
      } else {
        WindowPop(txBuf[..], txTail, txHead);
        ghost var q := TxContents();
        wire := wire + [txBuf[txTail]];
        txTail := Next(txTail, txSize);
        assert old(wire) + q == wire + TxContents();
      }
    }
  }
}
