/**
 detail::convert and detail::convertHex of logstream.cc: digits are written backwards
 through a moving pointer and then reversed, for every machine integer.
 */
module LogStream {
  import opened T = Truncation

  // kMaxNumericSize, the room that appendInteger asks for
  const MAX_NUMERIC_SIZE: nat := 32

  // Any signed or unsigned type of at most 64 bits.
  type Machine = v: int | -0x8000_0000_0000_0000 <= v <= 0xFFFF_FFFF_FFFF_FFFF

  // zero[-9..9] reads a digit on either side of '0', because C++'s remainder can be negative.
  const DIGITS: string := "9876543210123456789"
  const DIGITS_HEX: string := "0123456789ABCDEF"

  function Abs(v: int): nat { if v < 0 then -v else v }

  // ----- numerals -----

  predicate Base(b: nat) { b == 10 || b == 16 }

  function Digits(n: nat, b: nat): (s: string)
    requires Base(b)
    ensures |s| > 0
  {
    if n < b then [DIGITS_HEX[n]] else Digits(n / b, b) + [DIGITS_HEX[n % b]]
  }

  // The canonical decimal numeral of an integer.
  function Numeral(v: int): string {
    if v < 0 then "-" + Digits(-v, 10) else Digits(v, 10)
  }

  function ValueOf(c: char): nat {
    var code := c as int;
    if 48 <= code <= 57 then code - 48
    else if 65 <= code <= 70 then code - 55
    else 0
  }

  function Read(s: string, b: nat): nat {
    if s == [] then 0 else Read(s[..|s| - 1], b) * b + ValueOf(s[|s| - 1])
  }

  function ReadNumeral(s: string): int {
    if s != [] && s[0] == '-' then
      var magnitude: int := Read(s[1..], 10);
      -magnitude
    else Read(s, 10)
  }

  lemma DigitValue(d: nat)
    requires d < 16
    ensures ValueOf(DIGITS_HEX[d]) == d && DIGITS_HEX[d] != '-' && (d > 0 ==> DIGITS_HEX[d] != '0')
  {
  }

  lemma QuotientAndRemainder(n: nat, b: nat)
    requires Base(b)
    ensures n / b * b + n % b == n && n % b < 16 && (n >= b ==> n / b > 0)
  {
  }

  lemma {:induction false} ReadsBack(n: nat, b: nat)
    requires Base(b)
    ensures Read(Digits(n, b), b) == n
    ensures Digits(n, b)[0] != '-' && (n > 0 ==> Digits(n, b)[0] != '0')
  {
    var s := Digits(n, b);
    if n < b {
      DigitValue(n);
      assert s[..0] == [];
      assert Read(s, b) == Read(s[..0], b) * b + ValueOf(s[0]) == ValueOf(s[0]);
    } else {
      QuotientAndRemainder(n, b);
      ReadsBack(n / b, b);
      DigitValue(n % b);
      assert s[..|s| - 1] == Digits(n / b, b);
      assert Read(s, b) == Read(s[..|s| - 1], b) * b + ValueOf(s[|s| - 1]);
    }
  }

  /** Reading the numeral back gives the value, and there is no leading zero but in 0 itself. */
  lemma NumeralReadsBack(v: int)
    ensures ReadNumeral(Numeral(v)) == v
    ensures v > 0 ==> Numeral(v)[0] != '0'
  {
    ReadsBack(Abs(v), 10);
    assert v < 0 ==> Numeral(v)[1..] == Digits(-v, 10);
  }

  function Pow(b: nat, k: nat): nat { if k == 0 then 1 else b * Pow(b, k - 1) }

  lemma {:induction false} DigitCount(n: nat, b: nat, k: nat)
    requires Base(b) && k >= 1 && n < Pow(b, k)
    ensures |Digits(n, b)| <= k
  {
    if n >= b {
      DigitCount(n / b, b, k - 1);
    }
  }

  /** A numeral of a machine integer, with its NUL, fits the room that appendInteger asks for. */
  lemma NumeralFits(v: Machine)
    ensures |Digits(Abs(v), 10)| <= 20 && |Numeral(v)| + 1 <= MAX_NUMERIC_SIZE
    ensures v >= 0 ==> |Digits(v, 16)| + 1 <= MAX_NUMERIC_SIZE
  {
    assert Pow(10, 20) == 100_000_000_000_000_000_000 by {
      assert Pow(10, 5) == 100_000;
      assert Pow(10, 10) == 10_000_000_000;
      assert Pow(10, 15) == 1_000_000_000_000_000;
    }
    DigitCount(Abs(v), 10, 20);
    assert Pow(16, 16) == 0x1_0000_0000_0000_0000 by {
      assert Pow(16, 5) == 0x10_0000;
      assert Pow(16, 10) == 0x100_0000_0000;
    }
    if v >= 0 {
      DigitCount(v, 16, 16);
    }
  }

  // ----- reversal in place -----

  function Reversed(s: string): (r: string)
    ensures |r| == |s|
    ensures forall k :: 0 <= k < |s| ==> r[k] == s[|s| - 1 - k]
  {
    if s == [] then [] else Reversed(s[1..]) + [s[0]]
  }

  // std::reverse on the first n characters
  method Reverse(buf: array<char>, n: nat)
    requires n <= buf.Length
    modifies buf
    ensures buf[..n] == Reversed(old(buf[..n])) && buf[n..] == old(buf[n..])
  {
    var i := 0;
    while i < n / 2
      invariant 0 <= i <= n / 2
      invariant forall k :: 0 <= k < i ==> buf[k] == old(buf[n - 1 - k]) && buf[n - 1 - k] == old(buf[k])
      invariant forall k :: i <= k < n - i ==> buf[k] == old(buf[k])
      invariant forall k :: n <= k < buf.Length ==> buf[k] == old(buf[k])
    {
      buf[i], buf[n - 1 - i] := buf[n - 1 - i], buf[i];
      i := i + 1;
    }
  }

  // What is still to be written stands before what has been written, which is backwards.
  function Unwritten(left: nat, b: nat): string
    requires Base(b)
  {
    if left == 0 then [] else Digits(left, b)
  }

  // The end of both: a NUL, and what is before it the right way round.
  method Finish(buf: array<char>, p: nat)
    requires p < buf.Length
    modifies buf
    ensures buf[..p] == Reversed(old(buf[..p])) && buf[p] == '\0'
  {
    ghost var backwards := buf[..p];
    buf[p] := '\0';
    assert buf[..p] == backwards;
    Reverse(buf, p);
    assert buf[p] == buf[p..][0];
  }

  // One more digit stands below those of what remains of the value.
  lemma OneMoreDigit(whole: nat, b: nat, left: nat, d: nat)
    requires Base(b) && d < b && whole == left * b + d
    ensures Digits(whole, b) == Unwritten(left, b) + [DIGITS_HEX[d]]
  {
    assert whole / b == left && whole % b == d;
  }

  lemma OneMoreWritten(head: string, c: char, written: string)
    ensures head + [c] + Reversed(written) == head + Reversed(written + [c])
  {
  }

  // One turn of either loop: the last digit of whole moves to the end of the text.
  lemma WriteDigit(whole: nat, b: nat, left: nat, d: nat, written: string)
    requires Base(b) && d < b && whole == left * b + d
    ensures Digits(whole, b) + Reversed(written) == Unwritten(left, b) + Reversed(written + [DIGITS_HEX[d]])
  {
    OneMoreDigit(whole, b, left, d);
    OneMoreWritten(Unwritten(left, b), DIGITS_HEX[d], written);
  }

  lemma Truncation(v: int)
    ensures Abs(v) == Abs(Div(v, 10)) * 10 + Abs(Mod(v, 10)) && Abs(Mod(v, 10)) < 10
    ensures DIGITS[9 + Mod(v, 10)] == DIGITS_HEX[Abs(Mod(v, 10))]
  {
  }

  lemma DecimalDigit(i: int, written: string)
    ensures Digits(Abs(i), 10) + Reversed(written)
         == Unwritten(Abs(Div(i, 10)), 10) + Reversed(written + [DIGITS[9 + Mod(i, 10)]])
  {
    Truncation(i);
    WriteDigit(Abs(i), 10, Abs(Div(i, 10)), Abs(Mod(i, 10)), written);
  }

  method Put(buf: array<char>, p: nat, c: char)
    requires p < buf.Length
    modifies buf
    ensures buf[..p + 1] == old(buf[..p]) + [c]
  {
    buf[p] := c;
  }

  lemma WithSign(value: int, digits: string)
    requires Reversed(digits) == Digits(Abs(value), 10)
    ensures Reversed(if value < 0 then digits + ['-'] else digits) == Numeral(value)
  {
    if value < 0 {
      assert Reversed(digits + ['-']) == "-" + Reversed(digits);
    }
  }

  // convert's do-while loop: the digits of the magnitude, backwards.
  method WriteBackwards(buf: array<char>, value: Machine) returns (p: nat)
    requires buf.Length >= MAX_NUMERIC_SIZE
    modifies buf
    ensures p == |Digits(Abs(value), 10)| && p <= 20
    ensures Reversed(buf[..p]) == Digits(Abs(value), 10)
  {
    NumeralFits(value);
    var i: int := value;
    p := 0;
    ghost var n := Abs(value);
    assert Digits(n, 10) == Digits(n, 10) + Reversed(buf[..0]);
    var more := true;
    while more
      invariant p <= |Digits(n, 10)|
      invariant more ==> Digits(n, 10) == Digits(Abs(i), 10) + Reversed(buf[..p])
      invariant !more ==> Digits(n, 10) == Reversed(buf[..p])
      decreases more, Abs(i)
    {
      DecimalDigit(i, buf[..p]);
      Put(buf, p, DIGITS[9 + Mod(i, 10)]);
      p := p + 1;
      i := Div(i, 10);
      more := i != 0;
    }
  }

  /** convert: the numeral and a NUL, for every machine integer including the most negative one. */
  method Convert(buf: array<char>, value: Machine) returns (len: nat)
    requires buf.Length >= MAX_NUMERIC_SIZE
    modifies buf
    ensures len == |Numeral(value)| && len < MAX_NUMERIC_SIZE
    ensures buf[..len] == Numeral(value) && buf[len] == '\0'
  {
    var p := WriteBackwards(buf, value);
    WithSign(value, buf[..p]);
    if value < 0 {
      Put(buf, p, '-');
      p := p + 1;
    }
    Finish(buf, p);
    len := p;
  }

  /** convertHex, on unsigned values. */
  method ConvertHex(buf: array<char>, value: Machine) returns (len: nat)
    requires buf.Length >= MAX_NUMERIC_SIZE && value >= 0
    modifies buf
    ensures len == |Digits(value, 16)| && len < MAX_NUMERIC_SIZE
    ensures buf[..len] == Digits(value, 16) && buf[len] == '\0'
  {
    NumeralFits(value);
    var i: nat, p := value, 0;
    assert Digits(value, 16) == Digits(value, 16) + Reversed(buf[..0]);
    var more := true;
    while more
      invariant p <= |Digits(value, 16)|
      invariant more ==> Digits(value, 16) == Digits(i, 16) + Reversed(buf[..p])
      invariant !more ==> Digits(value, 16) == Reversed(buf[..p])
      decreases more, i
    {
      var lsd := i % 16;
      WriteDigit(i, 16, i / 16, lsd, buf[..p]);
      ghost var written := buf[..p];
      i := i / 16;
      buf[p] := DIGITS_HEX[lsd];
      p := p + 1;
      assert buf[..p] == written + [DIGITS_HEX[lsd]];
      more := i != 0;
    }
    Finish(buf, p);
    len := p;
  }
}
