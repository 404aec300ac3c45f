/** C integer types and operators as avr-gcc evaluates them. */
module CTypes {

  /** uint8_t; also used for `char` bytes on the serial line and the bus. */
  type byte = x: int | 0 <= x < 0x100

  /** uint16_t */
  type u16 = x: int | 0 <= x < 0x1_0000

  /** A uint8_t that is at least 1 (a transfer length the helpers accept). */
  type PosByte = x: int | 1 <= x < 0x100 witness 1

  function Pow2(k: nat): (r: nat)
    ensures r >= 1
  {
    if k == 0 then 1 else 2 * Pow2(k - 1)
  }

  /** `x >> k` on a signed operand: avr-gcc shifts arithmetically, which is floor division.
      Dafny's `/` with a positive divisor already rounds down. */
  function Asr(x: int, k: nat): int
  {
    x / Pow2(k)
  }

  /** The shift rounds toward minus infinity: `x >> k` is the largest r with r * 2^k <= x. */
  lemma AsrFloor(x: int, k: nat)
    ensures Asr(x, k) * Pow2(k) <= x < Asr(x, k) * Pow2(k) + Pow2(k)
  {
  }

  /** `x << k` on an operand wide enough to hold the result. */
  function Shl(x: int, k: nat): int
  {
    x * Pow2(k)
  }

  function Abs(x: int): nat
  {
    if x < 0 then -x else x
  }

  /** C's `/`: the quotient is truncated toward zero, so the remainder takes the sign of `a`. */
  function DivTrunc(a: int, b: int): (q: int)
    requires b != 0
    ensures Abs(a - q * b) < Abs(b)
    ensures a >= 0 ==> a - q * b >= 0
    ensures a < 0 ==> a - q * b <= 0
  {
    if a >= 0 then
      (if b > 0 then a / b else -(a / -b))
    else
      (if b > 0 then -((-a) / b) else (-a) / (-b))
  }

  /** `(int16_t)u`: the two's-complement reading of a 16-bit pattern. */
  function ToInt16(u: u16): (r: int)
    ensures -0x8000 <= r < 0x8000
    ensures (r - u) % 0x1_0000 == 0
    ensures r >= 0 <==> u < 0x8000
  {
    if u < 0x8000 then u else u - 0x1_0000
  }

  /** `(int8_t)b` */
  function ToInt8(b: byte): (r: int)
    ensures -0x80 <= r < 0x80
    ensures (r - b) % 0x100 == 0
    ensures r >= 0 <==> b < 0x80
  {
    if b < 0x80 then b else b - 0x100
  }

  /** Length of the C string held in `s`: the index of its first NUL, or |s| if it has none. */
  function CStrLen(s: seq<byte>): (n: nat)
    ensures n <= |s|
    ensures n < |s| ==> s[n] == 0
    ensures forall i :: 0 <= i < n ==> s[i] != 0
  {
    if s == [] || s[0] == 0 then 0 else 1 + CStrLen(s[1..])
  }

  /** The length of the C string held in s: the characters before the first NUL. */
  function StrLen(s: seq<char>): (n: nat)
    ensures n <= |s|
    ensures n < |s| ==> s[n] == '\0'
    ensures forall i :: 0 <= i < n ==> s[i] != '\0'
  {
    if s == [] || s[0] == '\0' then 0 else 1 + StrLen(s[1..])
  }

  /** The C string of a buffer ends at the first NUL, wherever that is. */
  lemma StrLenIs(s: seq<char>, n: nat)
    requires n <= |s| && (n < |s| ==> s[n] == '\0')
    requires forall i :: 0 <= i < n ==> s[i] != '\0'
    ensures StrLen(s) == n
  {
  }

  /** The characters of the C string held in `s`, without the terminator. */
  function CStr(s: seq<byte>): seq<byte>
  {
    s[..CStrLen(s)]
  }

  /** C's `|` on non-negative operands, bit by bit from the least significant. */
  function BitOr(a: nat, b: nat): nat
  {
    if a == 0 then b
    else if b == 0 then a
    else 2 * BitOr(a / 2, b / 2) + (if a % 2 == 1 || b % 2 == 1 then 1 else 0)
  }

  /** C's `&` on non-negative operands. */
  function BitAnd(a: nat, b: nat): nat
  {
    if a == 0 || b == 0 then 0
    else 2 * BitAnd(a / 2, b / 2) + (if a % 2 == 1 && b % 2 == 1 then 1 else 0)
  }

  lemma {:induction false} MulGe(x: int, b: int)
    requires x >= 1 && b > 0
    ensures x * b >= b
  {
    if x > 1 {
      MulGe(x - 1, b);
      assert x * b == (x - 1) * b + b;
    }
  }

  /** Quotient and remainder are unique: they are what Dafny's `/` and `%` compute. */
  lemma DivMod(a: int, b: int, q: int, r: int)
    requires b > 0 && 0 <= r < b && a == q * b + r
    ensures a / b == q && a % b == r
  {
    var d := a / b;
    var m := a % b;
    assert a == d * b + m && 0 <= m < b;
    var x := q - d;
    assert x * b == q * b - d * b;
    assert x * b == m - r;
    if x >= 1 {
      MulGe(x, b);
    } else if x <= -1 {
      MulGe(-x, b);
    }
  }

  /** OR-ing a value below 2^k into one whose low k bits are clear is addition: the bit
      fields do not overlap. */
  lemma {:induction false} OrDisjoint(m: nat, b: nat, k: nat)
    requires b < Pow2(k)
    ensures BitOr(m * Pow2(k), b) == m * Pow2(k) + b
  {
    if k > 0 && m != 0 && b != 0 {
      var a := m * Pow2(k);
      assert a == 2 * (m * Pow2(k - 1));
      DivMod(a, 2, m * Pow2(k - 1), 0);
      DivMod(b, 2, b / 2, b % 2);
      OrDisjoint(m, b / 2, k - 1);
    } else if k == 0 {
      assert b == 0;
    }
  }

  /** AND with the mask 2^k - 1 keeps the low k bits: it is the remainder modulo 2^k. */
  lemma {:induction false} AndMask(a: nat, k: nat)
    ensures BitAnd(a, Pow2(k) - 1) == a % Pow2(k)
  {
    if k == 0 {
      DivMod(a, 1, a, 0);
    } else if a == 0 {
      DivMod(0, Pow2(k), 0, 0);
    } else {
      AndMask(a / 2, k - 1);
      AndMaskStep(a, Pow2(k - 1), Pow2(k));
    }
  }

  /** The induction step of AndMask: from the mask h - 1 on a/2 to the mask 2h - 1 on a. */
  lemma AndMaskStep(a: nat, h: nat, m: nat)
    requires a > 0 && h > 0 && m == 2 * h
    requires BitAnd(a / 2, h - 1) == (a / 2) % h
    ensures BitAnd(a, m - 1) == a % m
  {
    AndLowStep(a, h, m);
    MaskSplit(a, h, m);
  }

  /** One step of the AND recursion against an all-ones mask m - 1, m = 2h. */
  lemma AndLowStep(a: nat, h: nat, m: nat)
    requires a > 0 && h > 0 && m == 2 * h
    ensures BitAnd(a, m - 1) == 2 * BitAnd(a / 2, h - 1) + a % 2
  {
    DivMod(m - 1, 2, h - 1, 1);
  }

  /** a mod 2h is twice (a/2) mod h plus the low bit of a. */
  lemma MaskSplit(a: nat, h: nat, m: nat)
    requires h > 0 && m == 2 * h
    ensures a % m == 2 * ((a / 2) % h) + a % 2
  {
    var s := (a / 2) / h;
    var t := (a / 2) % h;
    DoubleSplit(a, h, s, t);
    DivMod(a, m, s, 2 * t + a % 2);
  }

  /** a = 2q + (a mod 2) and q = s*h + t give a = s*(2h) + (2t + a mod 2). */
  lemma DoubleSplit(a: nat, h: nat, s: int, t: int)
    requires h > 0 && s == (a / 2) / h && t == (a / 2) % h
    ensures a == s * (2 * h) + (2 * t + a % 2) && 0 <= 2 * t + a % 2 < 2 * h
  {
    var q := a / 2;
    assert q == h * s + t;
    assert s * (2 * h) == 2 * (h * s);
  }
}
