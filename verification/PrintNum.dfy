/** `printNum` of the kernel's `vprintk`: a 64-bit number in base 8, 10 or 16, through a
    digit buffer that is filled from the end. */
module PrintNum {

  const TWO64: nat := 0x1_0000_0000_0000_0000

  type LongLong = n: int | -0x8000_0000_0000_0000 <= n < 0x8000_0000_0000_0000

  /** Size of the buffer: the 22 octal digits of the largest number, and a terminator. */
  const BUFFER: nat := 23

  const DIGITS: string := "0123456789ABCDEF"

  type Base = b: nat | b == 8 || b == 10 || b == 16 witness 8

  /** Conversion to `unsigned long long`. */
  function Wrapped(n: int): (u: nat)
    requires 0 <= n + TWO64 && n < TWO64
    ensures u < TWO64 && (u == n || u == n + TWO64)
  {
    if n < 0 then n + TWO64 else n
  }

  // ------------------------------------------------------------------ digits

  /** The digits of `u`, the least significant one first. */
  function DigitsOf(u: nat, base: Base): (ds: seq<nat>)
    ensures ds != []
  {
    if u / base == 0 then [u] else [u % base] + DigitsOf(u / base, base)
  }

  /** The number that digits stand for, the least significant one first. */
  function ValueOf(ds: seq<nat>, base: Base): nat
  {
    if ds == [] then 0 else ds[0] + base * ValueOf(ds[1..], base)
  }

  function Pow(base: nat, n: nat): nat
  {
    if n == 0 then 1 else base * Pow(base, n - 1)
  }

  /** Reading the digits back gives the number; they are digits, and the leading one is zero
      only for the number zero. */
  lemma {:induction false} DigitsReadBack(u: nat, base: Base)
    ensures ValueOf(DigitsOf(u, base), base) == u
    ensures forall i :: 0 <= i < |DigitsOf(u, base)| ==> DigitsOf(u, base)[i] < base
    ensures var ds := DigitsOf(u, base); ds[|ds| - 1] == 0 ==> u == 0 && ds == [0]
  {
    var ds := DigitsOf(u, base);
    if u / base == 0 {
      assert ds[1..] == [];
      QuotientZero(u, base);
    } else {
      DigitsReadBack(u / base, base);
      assert ds[1..] == DigitsOf(u / base, base);
      DivideBack(u, base);
    }
  }

  lemma QuotientZero(u: nat, base: Base)
    ensures u / base == 0 <==> u < base
  {
  }

  lemma DivideBack(u: nat, base: Base)
    ensures u % base + base * (u / base) == u && u % base < base
  {
  }

  lemma {:induction false} DigitsBound(u: nat, base: Base, n: nat)
    requires n > 0 && u < Pow(base, n)
    ensures |DigitsOf(u, base)| <= n
  {
    if u / base != 0 {
      if n == 1 {
        QuotientZero(u, base);
        assert false;
      } else {
        assert Pow(base, n) == base * Pow(base, n - 1);
        QuotientSmaller(u, base, Pow(base, n - 1));
        DigitsBound(u / base, base, n - 1);
      }
    }
  }

  lemma QuotientSmaller(u: nat, base: Base, p: nat)
    requires u < base * p
    ensures u / base < p
  {
  }

  lemma Pow22(base: Base)
    ensures Pow(base, 22) >= TWO64
  {
    PowAtLeast(base, 22);
    assert Pow(8, 2) == 64;
    FourMore(2);
    FourMore(6);
    FourMore(10);
    FourMore(14);
    FourMore(18);
  }

  lemma FourMore(n: nat)
    ensures Pow(8, n + 4) == 0x1000 * Pow(8, n)
  {
    assert Pow(8, n + 4) == 8 * Pow(8, n + 3);
    assert Pow(8, n + 2) == 8 * Pow(8, n + 1);
  }

  lemma {:induction false} PowAtLeast(base: Base, n: nat)
    ensures Pow(base, n) >= Pow(8, n)
  {
    if n > 0 { PowAtLeast(base, n - 1); }
  }

  /** No 64-bit number has more digits than the buffer has room for, with one to spare. */
  lemma DigitsFit(u: nat, base: Base)
    requires u < TWO64
    ensures 1 <= |DigitsOf(u, base)| <= 22 < BUFFER
  {
    Pow22(base);
    DigitsBound(u, base, 22);
  }

  // ------------------------------------------------------------------ output

  function Copies(c: char, n: nat): (s: string)
    ensures |s| == n && forall i :: 0 <= i < n ==> s[i] == c
  {
    if n == 0 then "" else Copies(c, n - 1) + [c]
  }

  /** Digits as characters, the most significant one first. */
  function Text(ds: seq<nat>): (s: string)
    requires forall i :: 0 <= i < |ds| ==> ds[i] < 16
    ensures |s| == |ds|
  {
    if ds == [] then "" else Text(ds[1..]) + [DIGITS[ds[0]]]
  }

  function Max(a: nat, b: nat): nat
  {
    if a < b then b else a
  }

  /** The digit that a character stands for, 16 when it is none. */
  function DigitValue(c: char): nat
  {
    if '0' <= c <= '9' then c as nat - '0' as nat
    else if 'A' <= c <= 'F' then c as nat - 'A' as nat + 10
    else 16
  }

  /** Reads a text from its most significant digit on. */
  function Read(s: string, base: Base): nat
  {
    if s == "" then 0 else base * Read(s[..|s| - 1], base) + DigitValue(s[|s| - 1])
  }

  lemma DigitsAreTheirCharacters(d: nat)
    requires d < 16
    ensures DigitValue(DIGITS[d]) == d
  {
  }

  lemma {:induction false} TextReadsBack(ds: seq<nat>, base: Base)
    requires forall i :: 0 <= i < |ds| ==> ds[i] < 16
    ensures Read(Text(ds), base) == ValueOf(ds, base)
  {
    if ds != [] {
      TextReadsBack(ds[1..], base);
      DigitsAreTheirCharacters(ds[0]);
      var s := Text(ds);
      assert s[..|s| - 1] == Text(ds[1..]);
    }
  }

  lemma {:induction false} TextHead(ds: seq<nat>)
    requires ds != [] && forall i :: 0 <= i < |ds| ==> ds[i] < 16
    ensures Text(ds)[0] == DIGITS[ds[|ds| - 1]]
  {
    if |ds| > 1 { TextHead(ds[1..]); }
  }

  /** `digits` is the number `u` in the given base: one to 22 digits that read back to `u`,
      with no leading zero except for zero itself. */
  ghost predicate Spells(digits: string, u: nat, base: Base)
  {
    && 1 <= |digits| <= 22 && Read(digits, base) == u
    && (forall i :: 0 <= i < |digits| ==> DigitValue(digits[i]) < base)
    && (digits[0] == '0' ==> digits == "0")
  }

  /** What `printNum` is to emit: a minus for a negative number of a signed conversion, the
      padding, and digits that read back to the absolute value, or for an unsigned conversion
      to the number modulo 2^64. */
  ghost predicate Emitted(out: string, num: LongLong, base: Base, sign: bool, width: nat, lead: char)
  {
    var minus := if sign && num < 0 then "-" else "";
    var u: nat := if num >= 0 then num as int else if sign then -(num as int) else num as int + TWO64;
    exists digits: string, pad: nat {:trigger minus + Copies(lead, pad) + digits} ::
      && Spells(digits, u, base)
      && out == minus + Copies(lead, pad) + digits
      && |out| == Max(width, |minus| + |digits|)
  }

  lemma {:induction false} TextDigits(ds: seq<nat>, base: Base, i: nat)
    requires i < |ds| && forall j :: 0 <= j < |ds| ==> ds[j] < base
    ensures DigitValue(Text(ds)[i]) < base
  {
    if i < |ds| - 1 {
      TextDigits(ds[1..], base, i);
    } else {
      DigitsAreTheirCharacters(ds[0]);
    }
  }

  /** The digits that are stored spell the number. */
  lemma TextSpells(u: nat, base: Base)
    requires u < TWO64
    ensures forall i :: 0 <= i < |DigitsOf(u, base)| ==> DigitsOf(u, base)[i] < base
    ensures Spells(Text(DigitsOf(u, base)), u, base)
  {
    hide DigitsOf, Read, ValueOf, Text, DigitValue, DIGITS;
    var ds := DigitsOf(u, base);
    DigitsReadBack(u, base);
    DigitsFit(u, base);
    TextReadsBack(ds, base);
    forall i | 0 <= i < |ds| ensures DigitValue(Text(ds)[i]) < base { TextDigits(ds, base, i); }
    var text := Text(ds);
    if text[0] == '0' {
      TextHead(ds);
      DigitsAreTheirCharacters(ds[|ds| - 1]);
      ZeroText();
    }
  }

  lemma ZeroText()
    ensures Text([0]) == "0" && DigitValue('0') == 0
  {
    assert [0][1..] == [];
  }

  function Quotient(u: nat, base: Base): nat
  {
    u / base
  }

  /** Stores the digits, the least significant one first, and tells how many. */
  method StoreDigits(buffer: array<nat>, u: nat, base: Base) returns (count: nat)
    requires buffer.Length == BUFFER && u < TWO64
    modifies buffer
    ensures count == |DigitsOf(u, base)| < BUFFER && buffer[..count] == DigitsOf(u, base)
  {
    hide DigitsOf, Quotient;
    DigitsFit(u, base);
    var left: nat := u;
    count := 0;
    var n := Quotient(left, base);
    while n > 0
      invariant n == Quotient(left, base)
      invariant count + |DigitsOf(left, base)| == |DigitsOf(u, base)|
      invariant buffer[..count] + DigitsOf(left, base) == DigitsOf(u, base)
      decreases left
    {
      DigitsUnfold(left, base);
      ghost var done := buffer[..count];
      buffer[count] := left - n * base;
      count := count + 1;
      left := n;
      n := Quotient(left, base);
      assert buffer[..count] == done + [buffer[count - 1]];
    }
    DigitsUnfold(left, base);
    ghost var done := buffer[..count];
    buffer[count] := left;
    count := count + 1;
    assert buffer[..count] == done + [left];
  }

  lemma DigitsUnfold(u: nat, base: Base)
    ensures var n := Quotient(u, base);
            if n == 0 then DigitsOf(u, base) == [u]
            else n < u && n * base <= u && DigitsOf(u, base) == [u - n * base] + DigitsOf(n, base)
  {
    QuotientFacts(u, base);
  }

  lemma QuotientFacts(u: nat, base: Base)
    ensures u - u / base * base == u % base && (u / base == 0 || u / base < u)
  {
    if base == 8 {
      assert u - u / 8 * 8 == u % 8;
    } else if base == 10 {
      assert u - u / 10 * 10 == u % 10;
    } else {
      assert u - u / 16 * 16 == u % 16;
    }
  }

  /** Emits stored digits from the last to the first. */
  method EmitDigits(buffer: array<nat>, count: nat, out: string) returns (r: string)
    requires count <= buffer.Length && forall i :: 0 <= i < count ==> buffer[i] < 16
    ensures r == out + Text(buffer[..count])
  {
    r := out;
    var n := 0;
    while n < count
      invariant n <= count && r == out + Text(buffer[count - n..count])
    {
      var d := buffer[count - (n + 1)];
      assert buffer[count - (n + 1)..count] == [d] + buffer[count - n..count];
      assert buffer[count - (n + 1)..count][1..] == buffer[count - n..count];
      r := r + [DIGITS[d]];
      n := n + 1;
    }
    assert buffer[..count] == buffer[0..count];
  }

  /** `printNum`: the characters it emits, in order. */
  method Print(num: LongLong, base: Base, sign: bool, maxWidth: nat, lead: char) returns (out: string)
    ensures Emitted(out, num, base, sign, maxWidth, lead)
  {
    hide Text, DigitsOf, Spells, Read;
    out := "";
    var width, u := maxWidth, 0;
    if sign && num < 0 {
      out := "-";
      u := Wrapped(0 - num as int);
      if width > 0 {
        width := width - 1;
      }
    } else {
      u := Wrapped(num as int);
    }
    var minus := out;
    assert u == if num >= 0 then num as int else if sign then -(num as int) else num as int + TWO64;
    var buffer := new nat[BUFFER];
    var count := StoreDigits(buffer, u, base);
    TextSpells(u, base);
    assert forall i :: 0 <= i < count ==> buffer[i] == buffer[..count][i];
    out := Pad(out, width, count, lead);
    ghost var pad := if width > count then width - count else 0;
    out := EmitDigits(buffer, count, out);
    assert out == minus + Copies(lead, pad) + Text(DigitsOf(u, base));
  }

  method Pad(start: string, width: nat, count: nat, lead: char) returns (out: string)
    ensures out == start + Copies(lead, if width > count then width - count else 0)
  {
    out := start;
    var n := width;
    while n > count
      invariant n <= width && (n == width || n >= count) && out == start + Copies(lead, width - n)
    {
      out := out + [lead];
      n := n - 1;
    }
  }
}
