/** The SH1106 display driver of src/display/oled.c. The display is written through the
    lower-case TWI driver at address 0x3C, one byte per `write_reg`: register 0x00 takes a
    command byte, register 0x40 a data byte (8 pixels of one column of a page). What the
    driver does is the stream of bytes it sends; each operation is proved to send exactly
    the stream its specification function describes. */
module Oled {
  import opened CTypes
  import opened TwiSpec
  import opened TwiHw
  import I2cLower

  const OLED_ADDR: byte := 0x3C
  /** The 5x7 font table: 5 column bytes for each of the 95 characters ' '..'~'. */
  const FONT_SIZE: nat := 475

  /** One byte sent to the display, as a command or as data. */
  datatype Sent = CommandByte(b: byte) | DataByte(b: byte)

  /** The helper call that sends one byte: a register write to 0x00 or 0x40. */
  function CallOf(x: Sent): Call
  {
    match x
    case CommandByte(c) => WriteRegCall(0x00, c)
    case DataByte(d) => WriteRegCall(0x40, d)
  }

  /** The bus trace of sending the stream s from trace position p, one helper call per
      byte, when `run` gives the outcome of each call. */
  function Sends(run: (nat, Call) -> Txn, p: nat, s: seq<Sent>): seq<Event>
    decreases |s|
  {
    if s == [] then []
    else
      var e := run(p, CallOf(s[0])).events;
      e + Sends(run, p + |e|, s[1..])
  }

  /** Sending byte `pos` of a stream whose whole trace is `whole`, when the trace so far is
      `done`: the byte's call runs from position |done|, and the rest of the stream
      accounts for the rest of `whole`. */
  lemma SendNext(run: (nat, Call) -> Txn, whole: seq<Event>, done: seq<Event>, s: seq<Sent>,
                 pos: nat) returns (r: Txn)
    requires pos < |s| && done + Sends(run, |done|, s[pos..]) == whole
    ensures r == run(|done|, CallOf(s[pos]))
    ensures (done + r.events) + Sends(run, |done + r.events|, s[pos + 1..]) == whole
  {
    r := run(|done|, CallOf(s[pos]));
    var tail := Sends(run, |done| + |r.events|, s[pos + 1..]);
    assert s[pos..][1..] == s[pos + 1..];
    assert Sends(run, |done|, s[pos..]) == r.events + tail;
    ConcatAssoc(done, r.events, tail);
  }

  // ---- What the driver sends

  /** The commands that select page `page` and column 2, where the SH1106's visible
      columns start. */
  function Header(page: nat): seq<Sent>
    requires page < 8
  {
    [CommandByte(0xB0 + page), CommandByte(0x02), CommandByte(0x10)]
  }

  function Zeros(n: nat): (s: seq<Sent>)
    ensures |s| == n && forall i :: 0 <= i < n ==> s[i] == DataByte(0)
  {
    seq(n, _ => DataByte(0))
  }

  /** Byte j of page `page` in `oled_clear`: the 3 header commands, then 128 blank
      columns. */
  function PageByte(page: nat, j: nat): Sent
    requires page < 8 && j < 131
  {
    if j < 3 then Header(page)[j] else DataByte(0)
  }

  /** The pages p .. 7 of `oled_clear`, in order: each page's header, then its 128
      blank columns. */
  function Pages(p: nat): (s: seq<Sent>)
    requires p <= 8
    ensures |s| == 131 * (8 - p)
    decreases 8 - p
  {
    if p == 8 then [] else Header(p) + Zeros(128) + Pages(p + 1)
  }

  /** `oled_clear`: the 8 pages in order, 131 bytes each. */
  function ClearStream(): (s: seq<Sent>)
    ensures |s| == 1048
  {
    Pages(0)
  }

  /** The pages from p on start at offset 131p of `oled_clear`. */
  lemma {:induction false} ClearSuffix(p: nat)
    requires p <= 8
    ensures ClearStream()[131 * p..] == Pages(p)
    decreases p
  {
    if p > 0 {
      ClearSuffix(p - 1);
      var before := Pages(p - 1);
      assert before == (Header(p - 1) + Zeros(128)) + Pages(p);
      assert before[131..] == Pages(p);
      assert ClearStream()[131 * p..] == before[131..];
    }
  }

  lemma ClearAt(page: nat, j: nat)
    requires page < 8 && j < 131
    ensures ClearStream()[131 * page + j] == PageByte(page, j)
  {
    ClearSuffix(page);
    var here := Pages(page);
    assert here == (Header(page) + Zeros(128)) + Pages(page + 1);
    assert ClearStream()[131 * page + j] == here[j];
  }

  /** The command writes of `oled_init` before it clears the screen, in order: display
      off; clock divider 0x80; multiplex ratio 0x3F (64 rows); display offset 0; start
      line 0; charge pump on (0x8B); segment remap; scan direction; pin layout 0x12;
      contrast 0x80; precharge 0x22; VCOM level 0x35; resume from RAM; normal (not
      inverted) mode; display on. */
  function ConfigPlan(): Plan
  {
    Append(ConfigPart1(), Append(ConfigPart2(), ConfigPart3()))
  }

  /** Display off, through the start line. */
  function ConfigPart1(): Plan
  {
    Then(WriteRegCall(0x00, 0xAE), Then(WriteRegCall(0x00, 0xD5), Then(WriteRegCall(0x00, 0x80), Then(WriteRegCall(0x00, 0xA8),
    Then(WriteRegCall(0x00, 0x3F), Then(WriteRegCall(0x00, 0xD3), Then(WriteRegCall(0x00, 0x00), Then(WriteRegCall(0x00, 0x40),
    Done))))))))
  }

  lemma ConfigPart1Shape()
    ensures var cs := Calls(ConfigPart1());
      |cs| == 8 && cs[0] == WriteRegCall(0x00, 0xAE) &&
      forall i :: 0 <= i < 8 ==> cs[i].WriteRegCall? && cs[i].reg == 0x00
  {
    var q0 := ConfigPart1();
    var q1 := q0.next;
    var q2 := q1.next;
    var q3 := q2.next;
    var q4 := q3.next;
    var q5 := q4.next;
    var q6 := q5.next;
    var q7 := q6.next;
    var q8 := q7.next;
    assert q8 == Done;
    assert Calls(q7) == [q7.call] + Calls(q8);
    assert Calls(q6) == [q6.call] + Calls(q7);
    assert Calls(q5) == [q5.call] + Calls(q6);
    assert Calls(q4) == [q4.call] + Calls(q5);
    assert Calls(q3) == [q3.call] + Calls(q4);
    assert Calls(q2) == [q2.call] + Calls(q3);
    assert Calls(q1) == [q1.call] + Calls(q2);
    assert Calls(q0) == [q0.call] + Calls(q1);
  }

  /** Charge pump, through the contrast setting. */
  function ConfigPart2(): Plan
  {
    Then(WriteRegCall(0x00, 0xAD), Then(WriteRegCall(0x00, 0x8B), Then(WriteRegCall(0x00, 0xA1), Then(WriteRegCall(0x00, 0xC8),
    Then(WriteRegCall(0x00, 0xDA), Then(WriteRegCall(0x00, 0x12), Then(WriteRegCall(0x00, 0x81), Then(WriteRegCall(0x00, 0x80),
    Done))))))))
  }

  lemma ConfigPart2Shape()
    ensures var cs := Calls(ConfigPart2());
      |cs| == 8 && cs[0] == WriteRegCall(0x00, 0xAD) &&
      forall i :: 0 <= i < 8 ==> cs[i].WriteRegCall? && cs[i].reg == 0x00
  {
    var q0 := ConfigPart2();
    var q1 := q0.next;
    var q2 := q1.next;
    var q3 := q2.next;
    var q4 := q3.next;
    var q5 := q4.next;
    var q6 := q5.next;
    var q7 := q6.next;
    var q8 := q7.next;
    assert q8 == Done;
    assert Calls(q7) == [q7.call] + Calls(q8);
    assert Calls(q6) == [q6.call] + Calls(q7);
    assert Calls(q5) == [q5.call] + Calls(q6);
    assert Calls(q4) == [q4.call] + Calls(q5);
    assert Calls(q3) == [q3.call] + Calls(q4);
    assert Calls(q2) == [q2.call] + Calls(q3);
    assert Calls(q1) == [q1.call] + Calls(q2);
    assert Calls(q0) == [q0.call] + Calls(q1);
  }

  /** Precharge, through display on. */
  function ConfigPart3(): Plan
  {
    Then(WriteRegCall(0x00, 0xD9), Then(WriteRegCall(0x00, 0x22), Then(WriteRegCall(0x00, 0xDB), Then(WriteRegCall(0x00, 0x35),
    Then(WriteRegCall(0x00, 0xA4), Then(WriteRegCall(0x00, 0xA6), Then(WriteRegCall(0x00, 0xAF),
    Done)))))))
  }

  lemma ConfigPart3Shape()
    ensures var cs := Calls(ConfigPart3());
      |cs| == 7 && cs[6] == WriteRegCall(0x00, 0xAF) &&
      forall i :: 0 <= i < 7 ==> cs[i].WriteRegCall? && cs[i].reg == 0x00
  {
    var q0 := ConfigPart3();
    var q1 := q0.next;
    var q2 := q1.next;
    var q3 := q2.next;
    var q4 := q3.next;
    var q5 := q4.next;
    var q6 := q5.next;
    var q7 := q6.next;
    assert q7 == Done;
    assert Calls(q6) == [q6.call] + Calls(q7);
    assert Calls(q5) == [q5.call] + Calls(q6);
    assert Calls(q4) == [q4.call] + Calls(q5);
    assert Calls(q3) == [q3.call] + Calls(q4);
    assert Calls(q2) == [q2.call] + Calls(q3);
    assert Calls(q1) == [q1.call] + Calls(q2);
    assert Calls(q0) == [q0.call] + Calls(q1);
  }

  /** `oled_init` configures the display with 23 command writes, the first one switching
      the display off and the last one switching it back on. */
  lemma ConfigShape()
    ensures var cs := Calls(ConfigPlan());
      |cs| == 23 && cs[0] == WriteRegCall(0x00, 0xAE) && cs[22] == WriteRegCall(0x00, 0xAF) &&
      forall i :: 0 <= i < 23 ==> cs[i].WriteRegCall? && cs[i].reg == 0x00
  {
    var c1, c2, c3 := Calls(ConfigPart1()), Calls(ConfigPart2()), Calls(ConfigPart3());
    ConfigPart1Shape();
    ConfigPart2Shape();
    ConfigPart3Shape();
    CallsAppend(ConfigPart2(), ConfigPart3());
    CallsAppend(ConfigPart1(), Append(ConfigPart2(), ConfigPart3()));
    var cs := Calls(ConfigPlan());
    assert cs == c1 + (c2 + c3);
    forall i | 0 <= i < 23
      ensures cs[i].WriteRegCall? && cs[i].reg == 0x00
    {
      if i < 8 {
        assert cs[i] == c1[i];
      } else if i < 16 {
        assert cs[i] == c2[i - 8];
      } else {
        assert cs[i] == c3[i - 16];
      }
    }
    assert cs[22] == c3[6];
  }

  /** The character `oled_print_line` draws for c: c itself when it is printable ASCII,
      '?' otherwise. */
  function Printable(c: char): (d: char)
    ensures ' ' <= d <= '~'
    ensures ' ' <= c <= '~' ==> d == c
    ensures !(' ' <= c <= '~') ==> d == '?'
  {
    if c < ' ' || c > '~' then '?' else c
  }

  /** The offset of c's glyph in the font table, (c - 32) * 5; it always leaves room for
      the glyph's 5 bytes. */
  function GlyphAt(c: char): (off: nat)
    ensures off + 5 <= FONT_SIZE
    ensures off % 5 == 0
  {
    (Printable(c) as int - 32) * 5
  }

  /** The 6 data bytes of one character: its 5 glyph columns and a blank spacer. */
  function Glyph(c: char, font: seq<byte>): (s: seq<Sent>)
    requires |font| == FONT_SIZE
    ensures |s| == 6
  {
    seq(5, i requires 0 <= i < 5 => DataByte(font[GlyphAt(c) + i])) + [DataByte(0)]
  }

  /** The glyphs of the C string t, which ends at its first NUL or at the end of t. */
  function Glyphs(t: seq<char>, font: seq<byte>): seq<Sent>
    requires |font| == FONT_SIZE
  {
    if t == [] || t[0] == '\0' then [] else Glyph(t[0], font) + Glyphs(t[1..], font)
  }

  /** `oled_print_line(line, text)`: nothing for a line past the last page, otherwise the
      page header and then the glyphs of the text. */
  function LineStream(line: byte, text: seq<char>, font: seq<byte>): seq<Sent>
    requires |font| == FONT_SIZE
  {
    if line > 7 then [] else Header(line) + Glyphs(text, font)
  }

  // ---- What the streams contain

  /** `oled_clear` blanks page p with the page's header and then 128 zero columns. */
  lemma ClearPage(page: nat)
    requires page < 8
    ensures ClearStream()[131 * page..131 * page + 131] == Header(page) + Zeros(128)
  {
    ClearSuffix(page);
    var here := Pages(page);
    assert here == (Header(page) + Zeros(128)) + Pages(page + 1);
    assert ClearStream()[131 * page..131 * page + 131] == here[..131];
  }

  /** The number of command bytes in a stream. */
  function Commands(s: seq<Sent>): (n: nat)
    ensures n <= |s|
  {
    if s == [] then 0 else (if s[0].CommandByte? then 1 else 0) + Commands(s[1..])
  }

  lemma {:induction false} CommandsAppend(a: seq<Sent>, b: seq<Sent>)
    ensures Commands(a + b) == Commands(a) + Commands(b)
    decreases |a|
  {
    if a == [] {
      assert a + b == b;
    } else {
      assert (a + b)[0] == a[0] && (a + b)[1..] == a[1..] + b;
      CommandsAppend(a[1..], b);
    }
  }

  lemma {:induction false} CommandsZeros(n: nat)
    ensures Commands(Zeros(n)) == 0
  {
    if n > 0 {
      assert Zeros(n)[1..] == Zeros(n - 1);
      CommandsZeros(n - 1);
    }
  }

  /** The pages p .. 7 of `oled_clear` hold 3 commands each. */
  lemma {:induction false} CommandsPages(p: nat)
    requires p <= 8
    ensures Commands(Pages(p)) == 3 * (8 - p)
    decreases 8 - p
  {
    if p < 8 {
      CommandsPages(p + 1);
      CommandsAppend(Header(p) + Zeros(128), Pages(p + 1));
      CommandsAppend(Header(p), Zeros(128));
      CommandsZeros(128);
      CommandsHeader(p);
    }
  }

  lemma CommandsHeader(page: nat)
    requires page < 8
    ensures Commands(Header(page)) == 3
  {
    var h := Header(page);
    assert Commands(h[2..]) == 1 + Commands(h[3..]) && h[3..] == [];
    assert Commands(h[1..]) == 1 + Commands(h[2..]);
    assert Commands(h) == 1 + Commands(h[1..]);
  }

  /** `oled_clear` sends 24 commands and 1024 data bytes. */
  lemma ClearCounts()
    ensures Commands(ClearStream()) == 24
    ensures |ClearStream()| - Commands(ClearStream()) == 1024
  {
    CommandsPages(0);
  }

  /** Each character of the C string draws 6 data bytes. */
  lemma {:induction false} GlyphsLength(t: seq<char>, font: seq<byte>)
    requires |font| == FONT_SIZE
    ensures |Glyphs(t, font)| == 6 * StrLen(t)
    decreases |t|
  {
    if t != [] && t[0] != '\0' {
      GlyphsLength(t[1..], font);
    }
  }

  /** Character k of the C string t is drawn at bytes 6k .. 6k + 5 of its glyphs. */
  lemma {:induction false} GlyphsChar(t: seq<char>, font: seq<byte>, k: nat)
    requires |font| == FONT_SIZE && k < StrLen(t)
    ensures 6 * k + 6 <= |Glyphs(t, font)|
    ensures Glyphs(t, font)[6 * k..6 * k + 6] == Glyph(t[k], font)
    decreases k
  {
    GlyphsLength(t, font);
    var g := Glyph(t[0], font);
    var tail := Glyphs(t[1..], font);
    assert Glyphs(t, font) == g + tail;
    if k > 0 {
      GlyphsChar(t[1..], font, k - 1);
      assert (g + tail)[6 * k..6 * k + 6] == tail[6 * (k - 1)..6 * (k - 1) + 6];
    } else {
      assert (g + tail)[..6] == g;
    }
  }

  /** The line a visible `oled_print_line` sends: the page header, then 6 bytes for each
      character of the C string, character k at offset 3 + 6k. */
  lemma LineShape(line: byte, text: seq<char>, font: seq<byte>, k: nat)
    requires |font| == FONT_SIZE && line <= 7 && k < StrLen(text)
    ensures |LineStream(line, text, font)| == 3 + 6 * StrLen(text)
    ensures LineStream(line, text, font)[..3] == Header(line)
    ensures LineStream(line, text, font)[3 + 6 * k..9 + 6 * k] == Glyph(text[k], font)
  {
    var s := LineStream(line, text, font);
    var g := Glyphs(text, font);
    GlyphsLength(text, font);
    GlyphsChar(text, font, k);
    assert s == Header(line) + g;
    assert s[3 + 6 * k..9 + 6 * k] == g[6 * k..6 * k + 6];
  }

  // ---- The driver

  /** `oled_command(c)`: write c to register 0x00 of the display. */
  method Command(bus: Twi, c: byte)
    modifies bus`trace
    ensures bus.trace == old(bus.trace) +
      CallRun(bus.oracle, |old(bus.trace)|, OLED_ADDR, WriteRegCall(0x00, c)).events
  {
    var _ := I2cLower.WriteReg(bus, OLED_ADDR, 0x00, c);
  }

  /** `oled_data(d)`: write d to register 0x40 of the display. */
  method Data(bus: Twi, d: byte)
    modifies bus`trace
    ensures bus.trace == old(bus.trace) +
      CallRun(bus.oracle, |old(bus.trace)|, OLED_ADDR, WriteRegCall(0x40, d)).events
  {
    var _ := I2cLower.WriteReg(bus, OLED_ADDR, 0x40, d);
  }

  /** Sending byte `pos` of a stream s whose whole trace is `whole`. */
  method Send(bus: Twi, ghost run: (nat, Call) -> Txn, x: Sent, ghost s: seq<Sent>,
              ghost pos: nat, ghost whole: seq<Event>)
    requires Runs(run, bus.oracle, OLED_ADDR)
    requires pos < |s| && s[pos] == x
    requires bus.trace + Sends(run, |bus.trace|, s[pos..]) == whole
    modifies bus`trace
    ensures bus.trace + Sends(run, |bus.trace|, s[pos + 1..]) == whole
  {
    ghost var r := SendNext(run, whole, bus.trace, s, pos);
    match x {
      case CommandByte(c) => Command(bus, c);
      case DataByte(d) => Data(bus, d);
    }
  }

  /** One page of `oled_clear`: select the page, then blank its 128 columns. */
  method BlankPage(bus: Twi, ghost run: (nat, Call) -> Txn, page: nat,
                   ghost whole: seq<Event>)
    requires page < 8
    requires Runs(run, bus.oracle, OLED_ADDR)
    requires bus.trace + Sends(run, |bus.trace|, Pages(page)) == whole
    modifies bus`trace
    ensures bus.trace + Sends(run, |bus.trace|, Pages(page + 1)) == whole
  {
    ghost var s := Pages(page);
    ghost var blank := Zeros(128);
    assert s == (Header(page) + blank) + Pages(page + 1);
    assert s[0..] == s;
    Send(bus, run, CommandByte(0xB0 + page), s, 0, whole);
    Send(bus, run, CommandByte(0x02), s, 1, whole);
    Send(bus, run, CommandByte(0x10), s, 2, whole);
    var col := 0;
    while col < 128
      invariant col <= 128
      invariant bus.trace + Sends(run, |bus.trace|, s[3 + col..]) == whole
    {
      assert s[3 + col] == blank[col];
      Send(bus, run, DataByte(0x00), s, 3 + col, whole);
      col := col + 1;
    }
    assert s[131..] == Pages(page + 1);
  }

  /** `oled_clear`: the 8 pages blanked in turn. */
  method Clear(bus: Twi, ghost run: (nat, Call) -> Txn)
    requires Runs(run, bus.oracle, OLED_ADDR)
    modifies bus`trace
    ensures bus.trace == old(bus.trace) + Sends(run, |old(bus.trace)|, ClearStream())
  {
    ghost var whole := bus.trace + Sends(run, |bus.trace|, Pages(0));
    var page := 0;
    while page < 8
      invariant page <= 8
      invariant bus.trace + Sends(run, |bus.trace|, Pages(page)) == whole
    {
      BlankPage(bus, run, page, whole);
      page := page + 1;
    }
    assert bus.trace + [] == bus.trace;
  }

  /** One configuration command: the next call of the plan `rest`. */
  method ConfigCommand(bus: Twi, ghost run: (nat, Call) -> Txn, c: byte,
                       ghost whole: seq<Event>, ghost rest: Plan)
    requires rest.Then? && rest.call == WriteRegCall(0x00, c)
    requires Runs(run, bus.oracle, OLED_ADDR)
    requires bus.trace + RunTrace(run, |bus.trace|, rest) == whole
    modifies bus`trace
    ensures bus.trace + RunTrace(run, |bus.trace|, rest.next) == whole
  {
    ghost var r := Issue(run, whole, bus.trace, rest);
    Command(bus, c);
  }

  /** The commands of `oled_init` from display off through the start line. */
  method ConfigurePart1(bus: Twi, ghost run: (nat, Call) -> Txn)
    requires Runs(run, bus.oracle, OLED_ADDR)
    modifies bus`trace
    ensures bus.trace == old(bus.trace) + RunTrace(run, |old(bus.trace)|, ConfigPart1())
  {
    ghost var whole := bus.trace + RunTrace(run, |bus.trace|, ConfigPart1());
    ghost var rest := ConfigPart1();
    ConfigCommand(bus, run, 0xAE, whole, rest); rest := rest.next;
    ConfigCommand(bus, run, 0xD5, whole, rest); rest := rest.next;
    ConfigCommand(bus, run, 0x80, whole, rest); rest := rest.next;
    ConfigCommand(bus, run, 0xA8, whole, rest); rest := rest.next;
    ConfigCommand(bus, run, 0x3F, whole, rest); rest := rest.next;
    ConfigCommand(bus, run, 0xD3, whole, rest); rest := rest.next;
    ConfigCommand(bus, run, 0x00, whole, rest); rest := rest.next;
    ConfigCommand(bus, run, 0x40, whole, rest); rest := rest.next;
    assert rest == Done;
    assert bus.trace + [] == bus.trace;
  }

  /** The commands of `oled_init` from the charge pump through the contrast. */
  method ConfigurePart2(bus: Twi, ghost run: (nat, Call) -> Txn)
    requires Runs(run, bus.oracle, OLED_ADDR)
    modifies bus`trace
    ensures bus.trace == old(bus.trace) + RunTrace(run, |old(bus.trace)|, ConfigPart2())
  {
    ghost var whole := bus.trace + RunTrace(run, |bus.trace|, ConfigPart2());
    ghost var rest := ConfigPart2();
    ConfigCommand(bus, run, 0xAD, whole, rest); rest := rest.next;
    ConfigCommand(bus, run, 0x8B, whole, rest); rest := rest.next;
    ConfigCommand(bus, run, 0xA1, whole, rest); rest := rest.next;
    ConfigCommand(bus, run, 0xC8, whole, rest); rest := rest.next;
    ConfigCommand(bus, run, 0xDA, whole, rest); rest := rest.next;
    ConfigCommand(bus, run, 0x12, whole, rest); rest := rest.next;
    ConfigCommand(bus, run, 0x81, whole, rest); rest := rest.next;
    ConfigCommand(bus, run, 0x80, whole, rest); rest := rest.next;
    assert rest == Done;
    assert bus.trace + [] == bus.trace;
  }

  /** The commands of `oled_init` from the precharge through display on. */
  method ConfigurePart3(bus: Twi, ghost run: (nat, Call) -> Txn)
    requires Runs(run, bus.oracle, OLED_ADDR)
    modifies bus`trace
    ensures bus.trace == old(bus.trace) + RunTrace(run, |old(bus.trace)|, ConfigPart3())
  {
    ghost var whole := bus.trace + RunTrace(run, |bus.trace|, ConfigPart3());
    ghost var rest := ConfigPart3();
    ConfigCommand(bus, run, 0xD9, whole, rest); rest := rest.next;
    ConfigCommand(bus, run, 0x22, whole, rest); rest := rest.next;
    ConfigCommand(bus, run, 0xDB, whole, rest); rest := rest.next;
    ConfigCommand(bus, run, 0x35, whole, rest); rest := rest.next;
    ConfigCommand(bus, run, 0xA4, whole, rest); rest := rest.next;
    ConfigCommand(bus, run, 0xA6, whole, rest); rest := rest.next;
    ConfigCommand(bus, run, 0xAF, whole, rest); rest := rest.next;
    assert rest == Done;
    assert bus.trace + [] == bus.trace;
  }

  /** The configuration part of `oled_init`. */
  method Configure(bus: Twi, ghost run: (nat, Call) -> Txn)
    requires Runs(run, bus.oracle, OLED_ADDR)
    modifies bus`trace
    ensures bus.trace == old(bus.trace) + RunTrace(run, |old(bus.trace)|, ConfigPlan())
  {
    ghost var whole := bus.trace + RunTrace(run, |bus.trace|, ConfigPlan());
    IssuePlan(run, whole, bus.trace, ConfigPart1(), Append(ConfigPart2(), ConfigPart3()));
    ConfigurePart1(bus, run);
    IssuePlan(run, whole, bus.trace, ConfigPart2(), ConfigPart3());
    ConfigurePart2(bus, run);
    ConfigurePart3(bus, run);
  }

  lemma {:induction false} SendsAppend(run: (nat, Call) -> Txn, p: nat, a: seq<Sent>, b: seq<Sent>)
    ensures Sends(run, p, a + b) == Sends(run, p, a) + Sends(run, p + |Sends(run, p, a)|, b)
    decreases |a|
  {
    if a == [] {
      assert a + b == b;
    } else {
      var e := run(p, CallOf(a[0])).events;
      assert (a + b)[0] == a[0] && (a + b)[1..] == a[1..] + b;
      SendsAppend(run, p + |e|, a[1..], b);
      ConcatAssoc(e, Sends(run, p + |e|, a[1..]), Sends(run, p + |Sends(run, p, a)|, b));
    }
  }

  /** `oled_init`: the configuration commands, then `oled_clear`. The start-up delay is
      not modelled. */
  method Init(bus: Twi, ghost run: (nat, Call) -> Txn) returns (ghost configured: seq<Event>)
    requires Runs(run, bus.oracle, OLED_ADDR)
    modifies bus`trace
    ensures configured == old(bus.trace) + RunTrace(run, |old(bus.trace)|, ConfigPlan())
    ensures bus.trace == configured + Sends(run, |configured|, ClearStream())
  {
    Configure(bus, run);
    configured := bus.trace;
    Clear(bus, run);
  }

  /** The glyphs of t from a character on, when it is not the terminator. */
  lemma GlyphsAt(t: seq<char>, k: nat, font: seq<byte>)
    requires |font| == FONT_SIZE && k < |t| && t[k] != '\0'
    ensures Glyphs(t[k..], font) == Glyph(t[k], font) + Glyphs(t[k + 1..], font)
  {
    assert t[k..][0] == t[k] && t[k..][1..] == t[k + 1..];
  }

  /** The three commands that select page `page` at column 2. */
  method SelectPage(bus: Twi, ghost run: (nat, Call) -> Txn, page: byte,
                    ghost rest: seq<Sent>, ghost whole: seq<Event>)
    requires page < 8
    requires Runs(run, bus.oracle, OLED_ADDR)
    requires bus.trace + Sends(run, |bus.trace|, Header(page) + rest) == whole
    modifies bus`trace
    ensures bus.trace + Sends(run, |bus.trace|, rest) == whole
  {
    ghost var s := Header(page) + rest;
    assert s[0..] == s;
    Send(bus, run, CommandByte(0xB0 + page), s, 0, whole);
    Send(bus, run, CommandByte(0x02), s, 1, whole);
    Send(bus, run, CommandByte(0x10), s, 2, whole);
    assert s[3..] == rest;
  }

  /** One character of `oled_print_line`: its 5 glyph columns, then the blank spacer. */
  method PrintChar(bus: Twi, ghost run: (nat, Call) -> Txn, ch: char, font: seq<byte>,
                   ghost rest: seq<Sent>, ghost whole: seq<Event>)
    requires |font| == FONT_SIZE
    requires Runs(run, bus.oracle, OLED_ADDR)
    requires bus.trace + Sends(run, |bus.trace|, Glyph(ch, font) + rest) == whole
    modifies bus`trace
    ensures bus.trace + Sends(run, |bus.trace|, rest) == whole
  {
    ghost var g := Glyph(ch, font) + rest;
    var c := ch;
    if c < ' ' || c > '~' {
      c := '?';
    }
    var glyph := (c as int - 32) * 5;
    assert glyph == GlyphAt(ch);
    assert g[0..] == g;
    var i := 0;
    while i < 5
      invariant i <= 5
      invariant bus.trace + Sends(run, |bus.trace|, g[i..]) == whole
    {
      assert g[i] == Glyph(ch, font)[i];
      Send(bus, run, DataByte(font[glyph + i]), g, i, whole);
      i := i + 1;
    }
    Send(bus, run, DataByte(0x00), g, 5, whole);
    assert g[6..] == rest;
  }

  /** The character loop of `oled_print_line`: the glyphs of the C string text. */
  method PrintText(bus: Twi, ghost run: (nat, Call) -> Txn, text: seq<char>, font: seq<byte>,
                   ghost whole: seq<Event>)
    requires |font| == FONT_SIZE
    requires Runs(run, bus.oracle, OLED_ADDR)
    requires bus.trace + Sends(run, |bus.trace|, Glyphs(text, font)) == whole
    modifies bus`trace
    ensures bus.trace == whole
  {
    assert text[0..] == text;
    var k := 0;
    while k < |text| && text[k] != '\0'
      invariant k <= |text|
      invariant bus.trace + Sends(run, |bus.trace|, Glyphs(text[k..], font)) == whole
    {
      GlyphsAt(text, k, font);
      PrintChar(bus, run, text[k], font, Glyphs(text[k + 1..], font), whole);
      k := k + 1;
    }
    assert Glyphs(text[k..], font) == [];
    assert bus.trace + [] == bus.trace;
  }

  /** `oled_print_line(line, text)` with the font table `font`. */
  method PrintLine(bus: Twi, ghost run: (nat, Call) -> Txn, line: byte, text: seq<char>,
                   font: seq<byte>)
    requires |font| == FONT_SIZE
    requires Runs(run, bus.oracle, OLED_ADDR)
    modifies bus`trace
    ensures bus.trace == old(bus.trace) +
      Sends(run, |old(bus.trace)|, LineStream(line, text, font))
  {
    if line > 7 {
      assert bus.trace + [] == bus.trace;
      return;
    }
    ghost var whole := bus.trace + Sends(run, |bus.trace|, Header(line) + Glyphs(text, font));
    SelectPage(bus, run, line, Glyphs(text, font), whole);
    PrintText(bus, run, text, font, whole);
  }
}
