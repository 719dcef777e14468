/**
 * The number codec: rc_get_number_value reads the number display as a value,
 * rc_update_number_buffer writes a value back using integer formatting only,
 * and rc_pow supplies the decimal digit weights.
 */
module Codec {
  import opened Options

  /** GLOBAL_BUFFER_SIZE: every display buffer holds at most 15 characters and a NUL. */
  const BufferSize: int := 16
  /** FRACTION_DIGITS and FRACTION_MULTIPLIER: at most six decimals are shown. */
  const FractionDigits: int := 6
  const FractionMultiplier: int := 1000000
  const Nul: char := '\0'

  /** rc_pow, on the whole exponents it is called with. */
  function Pow(base: int, exp: nat): (r: int)
    ensures base >= 1 ==> r >= 1
  {
    if exp == 0 then 1 else base * Pow(base, exp - 1)
  }

  lemma {:induction false} PowAdd(base: int, a: nat, b: nat)
    ensures Pow(base, a + b) == Pow(base, a) * Pow(base, b)
  {
    if a > 0 {
      PowAdd(base, a - 1, b);
      assert Pow(base, a + b) == base * Pow(base, a - 1 + b);
    }
  }

  predicate IsDigit(c: char) { '0' <= c <= '9' }

  predicate AllDigits(s: string)
  {
    forall i :: 0 <= i < |s| ==> IsDigit(s[i])
  }

  /** The source's `(int)(c) - 48`. */
  function DigitVal(c: char): int { c as int - '0' as int }

  function DigitChar(d: int): (c: char)
    requires 0 <= d <= 9
    ensures IsDigit(c) && DigitVal(c) == d
  {
    ('0' as int + d) as char
  }

  /**
   * The integer a digit string denotes, read left to right; a '-' counts as
   * a zero digit, as in the source, which skips it without shifting the
   * weights of the other digits.
   */
  function IntegerValue(t: string): int
  {
    if t == [] then 0
    else IntegerValue(t[..|t| - 1]) * 10 + (if t[|t| - 1] == '-' then 0 else DigitVal(t[|t| - 1]))
  }

  /** Appending a character to the integer part, weighed by the positions still to come. */
  lemma IntegerValueStep(t: string, c: char, w: int)
    ensures IntegerValue(t + [c]) * w
            == IntegerValue(t) * (10 * w) + (if c == '-' then 0 else DigitVal(c)) * w
  {
    assert (t + [c])[..|t|] == t;
    var d := if c == '-' then 0 else DigitVal(c);
    assert IntegerValue(t + [c]) == IntegerValue(t) * 10 + d;
    Weigh(IntegerValue(t), d, w);
  }

  lemma Weigh(x: int, d: int, w: int)
    ensures (x * 10 + d) * w == x * (10 * w) + d * w
  {
  }

  /** The value of the digits after a decimal point: the sum of digit / 10^(position). */
  function FractionValue(u: string): real
  {
    if u == [] then 0.0
    else FractionValue(u[..|u| - 1]) + DigitVal(u[|u| - 1]) as real / Pow(10, |u|) as real
  }

  /** The position of the last '.', as the source's scan leaves it. */
  function LastDot(s: string): (r: Option<nat>)
    ensures r.Some? ==> r.value < |s| && s[r.value] == '.'
                        && forall j :: r.value < j < |s| ==> s[j] != '.'
    ensures r.None? ==> forall j :: 0 <= j < |s| ==> s[j] != '.'
  {
    if s == [] then None
    else if s[|s| - 1] == '.' then Some(|s| - 1)
    else LastDot(s[..|s| - 1])
  }

  /** The end of the integer part: the last '.', or the whole string. */
  function IntegerEnd(s: string): (e: nat)
    ensures e <= |s|
  {
    match LastDot(s)
    case Some(k) => k
    case None => |s|
  }

  /**
   * The value of a display string: the integer part up to the last '.',
   * plus the fraction after it, negated when the integer part holds a '-'.
   */
  function Value(s: string): real
  {
    var e := IntegerEnd(s);
    var magnitude := IntegerValue(s[..e]) as real + (if e < |s| then FractionValue(s[e + 1..]) else 0.0);
    if '-' in s[..e] then -magnitude else magnitude
  }

  /** The first scan of rc_get_number_value: the last '.', or the sentinel 9999. */
  method ScanDot(num: string) returns (dot: int)
    requires |num| < BufferSize
    ensures dot == match LastDot(num) case Some(k) => k case None => 9999
  {
    dot := 9999;
    for i := 0 to |num|
      invariant dot == match LastDot(num[..i]) case Some(k) => k case None => 9999
    {
      assert num[..i + 1][..i] == num[..i];
      if num[i] == '.' {
        dot := i;
      }
    }
    assert num[..|num|] == num;
  }

  /** The second scan: the digits before `end`, each weighed by 10^(end - i - 1), and the sign. */
  method ScanInteger(num: string, end: int) returns (val: real, neg: bool)
    requires 0 <= end <= |num|
    ensures val == IntegerValue(num[..end]) as real
    ensures neg <==> '-' in num[..end]
  {
    val := 0.0;
    neg := false;
    for i := 0 to end
      invariant val == (IntegerValue(num[..i]) * Pow(10, end - i)) as real
      invariant neg <==> '-' in num[..i]
    {
      assert num[..i + 1] == num[..i] + [num[i]];
      assert Pow(10, end - i) == 10 * Pow(10, end - i - 1);
      IntegerValueStep(num[..i], num[i], Pow(10, end - i - 1));
      if num[i] == '-' {
        neg := true;
      } else {
        var cval := DigitVal(num[i]);
        val := val + (cval * Pow(10, end - i - 1)) as real;
      }
    }
  }

  /** The third scan: each digit after the '.' at `dot` adds digit / 10^(i - dot). */
  method ScanFraction(num: string, dot: int, val0: real) returns (val: real)
    requires 0 <= dot < |num|
    ensures val == val0 + FractionValue(num[dot + 1..])
  {
    val := val0;
    for i := dot + 1 to |num|
      invariant val == val0 + FractionValue(num[dot + 1..i])
    {
      assert num[dot + 1..i + 1][..i - dot - 1] == num[dot + 1..i];
      var cval := DigitVal(num[i]);
      val := val + cval as real / Pow(10, i - dot) as real;
    }
    assert num[dot + 1..|num|] == num[dot + 1..];
  }

  /** rc_get_number_value: the value of the number display. */
  method ParseNumber(num: string) returns (val: real)
    requires |num| < BufferSize
    ensures val == Value(num)
  {
    var len := |num|;
    var dot := ScanDot(num);
    var end := if dot < len then dot else len;
    var neg;
    val, neg := ScanInteger(num, end);
    if end == dot {
      val := ScanFraction(num, dot, val);
    }
    if neg {
      val := -val;
    }
  }

  // ---------------------------------------------------------------------------
  // Formatting (rc_update_number_buffer)

  /** "%d" of a non-negative int: its decimal digits, no leading zeros, "0" for 0. */
  function Digits(n: nat): (s: string)
    ensures |s| >= 1 && AllDigits(s)
  {
    if n < 10 then [DigitChar(n)] else Digits(n / 10) + [DigitChar(n % 10)]
  }

  /** "%d" of any int. */
  function DecimalString(n: int): string
  {
    if n < 0 then "-" + Digits(-n) else Digits(n)
  }

  /** The C conversion `(int)v`, which truncates toward zero. */
  function TruncReal(v: real): (r: int)
    ensures v >= 0.0 ==> r >= 0 && r as real <= v < r as real + 1.0
    ensures v < 0.0 ==> r <= 0 && r as real - 1.0 < v <= r as real
  {
    if v >= 0.0 then v.Floor else -((-v).Floor)
  }

  predicate InInt32(n: int) { -0x8000_0000 <= n < 0x8000_0000 }

  /**
   * The values rc_update_number_buffer handles: `(int)value` must be an int,
   * and a negative value must be whole, because for a negative fraction the
   * zero padding is copied to before the start of its buffer.
   */
  predicate Formattable(v: real)
  {
    InInt32(TruncReal(v)) && (v >= 0.0 || TruncReal(v) as real == v)
  }

  /** `(int)((value - (int)value) * FRACTION_MULTIPLIER)`: the first six decimals as an int. */
  function ScaledFraction(v: real): (f: int)
    requires v >= 0.0
    ensures 0 <= f < FractionMultiplier
    ensures TruncReal(v) as real + f as real / 1000000.0 <= v
    ensures v < TruncReal(v) as real + (f + 1) as real / 1000000.0
  {
    TruncReal((v - TruncReal(v) as real) * FractionMultiplier as real)
  }

  function ZeroChars(k: nat): (z: string)
    ensures |z| == k && forall i :: 0 <= i < k ==> z[i] == '0'
  {
    seq(k, _ => '0')
  }

  function StripTrailingZeros(s: string): (r: string)
    ensures |r| <= |s|
  {
    if s != [] && s[|s| - 1] == '0' then StripTrailingZeros(s[..|s| - 1]) else s
  }

  /** The characters before the first '0'. */
  function BeforeFirstZero(s: string): (r: string)
    ensures |r| <= |s|
  {
    if s == [] || s[0] == '0' then [] else [s[0]] + BeforeFirstZero(s[1..])
  }

  /** The buffer after every '0' is overwritten with NUL. */
  function ZeroedOut(s: string): (r: string)
    ensures |r| == |s|
  {
    seq(|s|, i requires 0 <= i < |s| => if s[i] == '0' then Nul else s[i])
  }

  /** strlen: the length up to the first NUL. */
  function CLength(b: string): (k: nat)
    ensures k <= |b|
    ensures forall i :: 0 <= i < k ==> b[i] != Nul
    ensures k < |b| ==> b[k] == Nul
  {
    if b == [] || b[0] == Nul then 0 else 1 + CLength(b[1..])
  }

  /** A scaled fraction below 10^k has at most k digits, so the zero padding has a length. */
  lemma {:induction false} DigitsLength(n: nat, k: nat)
    requires k >= 1 && n < Pow(10, k)
    ensures |Digits(n)| <= k
  {
    if n >= 10 {
      assert Pow(10, k) == 10 * Pow(10, k - 1);
      assert k >= 2;
      assert n / 10 < Pow(10, k - 1);
      DigitsLength(n / 10, k - 1);
    }
  }

  /**
   * The fraction digits the source shows: the zero padding to six places,
   * then the digits of the scaled fraction up to their first '0'.
   */
  function FractionAsWritten(f: int): string
    requires 0 <= f < FractionMultiplier
  {
    DigitsLength(f, FractionDigits);
    ZeroChars(FractionDigits - |Digits(f)|) + BeforeFirstZero(Digits(f))
  }

  /** The fraction digits as intended: the zero padding, then the digits without their trailing zeros. */
  function FractionText(f: int): string
    requires 0 <= f < FractionMultiplier
  {
    DigitsLength(f, FractionDigits);
    ZeroChars(FractionDigits - |Digits(f)|) + StripTrailingZeros(Digits(f))
  }

  /** The display text rc_update_number_buffer writes, as the source has it. */
  function FormatTextAsWritten(v: real): string
    requires Formattable(v)
  {
    var ip := TruncReal(v);
    DecimalString(ip) + (if ip as real == v then "" else "." + FractionAsWritten(ScaledFraction(v)))
  }

  /**
   * The display text as intended: only the trailing zeros of the fraction
   * are cut off, and a fraction whose six places are all zero is not shown.
   */
  function FormatText(v: real): string
    requires Formattable(v)
  {
    var ip := TruncReal(v);
    DecimalString(ip) + (if ip as real == v || ScaledFraction(v) == 0 then "" else "." + FractionText(ScaledFraction(v)))
  }

  /** rc_update_number_buffer as written: its loop blanks every '0' of the fraction digits. */
  method FormatNumberAsWritten(value: real) returns (text: string)
    requires Formattable(value)
    ensures text == FormatTextAsWritten(value)
  {
    var ip := TruncReal(value);
    text := DecimalString(ip);
    if ip as real != value {
      var frac := value - ip as real;
      frac := frac * FractionMultiplier as real;
      var buf := DecimalString(TruncReal(frac));
      assert buf == Digits(ScaledFraction(value));
      DigitsLength(ScaledFraction(value), FractionDigits);
      var zlen := FractionDigits - |buf|;
      ghost var digits := buf;
      buf := ZeroOutZeros(buf);
      ZeroedOutLength(digits);
      var zbuf := ZeroChars(zlen) + buf[..CLength(buf)];
      text := text + "." + zbuf;
    }
  }

  /** The stripping loop as written: from the last digit back to the first, every '0' becomes NUL. */
  method ZeroOutZeros(digits: string) returns (buf: string)
    ensures buf == ZeroedOut(digits)
  {
    buf := digits;
    var i := |buf| - 1;
    while i > -1
      invariant -1 <= i < |buf| == |digits|
      invariant buf == digits[..i + 1] + ZeroedOut(digits[i + 1..])
    {
      if buf[i] == '0' {
        buf := buf[i := Nul];
      }
      assert digits[i..] == [digits[i]] + digits[i + 1..];
      assert buf == digits[..i] + ZeroedOut(digits[i..]);
      i := i - 1;
    }
  }

  lemma {:induction false} ZeroedOutLength(s: string)
    requires AllDigits(s)
    ensures ZeroedOut(s)[..CLength(ZeroedOut(s))] == BeforeFirstZero(s)
  {
    if s != [] && s[0] != '0' {
      assert ZeroedOut(s) == [s[0]] + ZeroedOut(s[1..]);
      ZeroedOutLength(s[1..]);
    }
  }

  /**
   * rc_update_number_buffer with the stripping loop stopped at the first
   * digit that is not '0', and no fraction written when its six places are zero.
   */
  method FormatNumber(value: real) returns (text: string)
    requires Formattable(value)
    ensures text == FormatText(value)
  {
    var ip := TruncReal(value);
    text := DecimalString(ip);
    if ip as real != value {
      var frac := value - ip as real;
      frac := frac * FractionMultiplier as real;
      var scaled := TruncReal(frac);
      if scaled != 0 {
        var buf := DecimalString(scaled);
        assert buf == Digits(ScaledFraction(value));
        DigitsLength(ScaledFraction(value), FractionDigits);
        var zlen := FractionDigits - |buf|;
        buf := CutTrailingZeros(buf);
        var zbuf := ZeroChars(zlen) + buf[..CLength(buf)];
        text := text + "." + zbuf;
      }
    }
  }

  /** The corrected stripping loop: NUL the '0's at the end of the buffer, back to the first other digit. */
  method CutTrailingZeros(digits: string) returns (buf: string)
    requires AllDigits(digits)
    ensures |buf| == |digits|
    ensures buf[..CLength(buf)] == StripTrailingZeros(digits)
  {
    buf := digits;
    var i := |buf| - 1;
    assert digits[..i + 1] == digits;
    while i > -1 && buf[i] == '0'
      invariant -1 <= i < |buf| == |digits|
      invariant buf == digits[..i + 1] + seq(|digits| - i - 1, _ => Nul)
      invariant StripTrailingZeros(digits) == StripTrailingZeros(digits[..i + 1])
    {
      assert digits[..i + 1][..i] == digits[..i];
      buf := buf[i := Nul];
      i := i - 1;
    }
    assert StripTrailingZeros(digits) == digits[..i + 1];
    NoNulBefore(buf, i + 1);
  }

  lemma NoNulBefore(b: string, k: nat)
    requires k <= |b|
    requires forall i :: 0 <= i < k ==> b[i] != Nul
    requires k < |b| ==> b[k] == Nul
    ensures CLength(b) == k
  {
  }

  // ---------------------------------------------------------------------------
  // What the parser reads back from what the formatter writes

  lemma IntegerValueSnoc(t: string, c: char)
    ensures IntegerValue(t + [c]) == IntegerValue(t) * 10 + (if c == '-' then 0 else DigitVal(c))
  {
    assert (t + [c])[..|t|] == t;
  }

  /** "%d" output reads back as the number printed. */
  lemma {:induction false} DigitsValue(n: nat)
    ensures IntegerValue(Digits(n)) == n
  {
    if n < 10 {
      IntegerValueSnoc([], DigitChar(n));
    } else {
      DigitsValue(n / 10);
      IntegerValueSnoc(Digits(n / 10), DigitChar(n % 10));
    }
  }

  /** Digits placed after others shift them by one decimal place each. */
  lemma {:induction false} IntegerValueConcat(a: string, b: string)
    ensures IntegerValue(a + b) == IntegerValue(a) * Pow(10, |b|) + IntegerValue(b)
  {
    if b == [] {
      assert a + b == a;
    } else {
      var b' := b[..|b| - 1];
      var c := b[|b| - 1];
      assert a + b == (a + b') + [c];
      assert b == b' + [c];
      IntegerValueSnoc(a + b', c);
      IntegerValueSnoc(b', c);
      IntegerValueConcat(a, b');
      assert Pow(10, |b|) == 10 * Pow(10, |b'|);
      ShiftDigits(IntegerValue(a), Pow(10, |b'|), IntegerValue(b'), if c == '-' then 0 else DigitVal(c));
    }
  }

  /** (a p + v) 10 + d is a (10 p) + (10 v + d). */
  lemma ShiftDigits(a: int, p: int, v: int, d: int)
    ensures (a * p + v) * 10 + d == a * (10 * p) + (v * 10 + d)
  {
  }

  lemma {:induction false} IntegerValueZeros(k: nat)
    ensures IntegerValue(ZeroChars(k)) == 0
  {
    if k > 0 {
      assert ZeroChars(k) == ZeroChars(k - 1) + ['0'];
      IntegerValueSnoc(ZeroChars(k - 1), '0');
      IntegerValueZeros(k - 1);
    }
  }

  /** A digit string is its trailing-zero-free part followed by the zeros cut off. */
  lemma {:induction false} StripTrailingZerosSplit(s: string)
    ensures s == StripTrailingZeros(s) + ZeroChars(|s| - |StripTrailingZeros(s)|)
  {
    if s != [] && s[|s| - 1] == '0' {
      var s' := s[..|s| - 1];
      StripTrailingZerosSplit(s');
      var k := |s'| - |StripTrailingZeros(s')|;
      assert ZeroChars(k + 1) == ZeroChars(k) + ['0'];
      assert s == s' + ['0'];
    } else {
      assert ZeroChars(0) == [];
    }
  }

  /** The fraction digits u stand for the integer they spell divided by 10^|u|. */
  lemma {:induction false} FractionValueAsInteger(u: string)
    requires AllDigits(u)
    ensures FractionValue(u) == IntegerValue(u) as real / Pow(10, |u|) as real
  {
    if u != [] {
      var u' := u[..|u| - 1];
      var c := u[|u| - 1];
      assert u == u' + [c];
      FractionValueAsInteger(u');
      IntegerValueSnoc(u', c);
      var p' := Pow(10, |u'|) as real;
      assert Pow(10, |u|) as real == 10.0 * p';
      ShiftFraction(IntegerValue(u') as real, DigitVal(c) as real, p');
    }
  }

  /** One more fraction digit: i / p + d / (10 p) is (10 i + d) / (10 p). */
  lemma ShiftFraction(i: real, d: real, p: real)
    requires p >= 1.0
    ensures i / p + d / (10.0 * p) == (i * 10.0 + d) / (10.0 * p)
  {
    assert i / p == (10.0 * i) / (10.0 * p);
  }

  /** Cutting k trailing zeros divides the integer spelled by 10^k. */
  lemma StripValue(d: string)
    requires AllDigits(d)
    ensures AllDigits(StripTrailingZeros(d))
    ensures IntegerValue(d)
            == IntegerValue(StripTrailingZeros(d)) * Pow(10, |d| - |StripTrailingZeros(d)|)
  {
    var st := StripTrailingZeros(d);
    var t := |d| - |st|;
    StripTrailingZerosSplit(d);
    forall i | 0 <= i < |st| ensures IsDigit(st[i]) {
      assert st[i] == d[i];
    }
    IntegerValueConcat(st, ZeroChars(t));
    IntegerValueZeros(t);
  }

  /** Leading zeros change neither the digits' integer nor their being digits. */
  lemma PadValue(z: nat, st: string)
    requires AllDigits(st)
    ensures AllDigits(ZeroChars(z) + st)
    ensures IntegerValue(ZeroChars(z) + st) == IntegerValue(st)
  {
    IntegerValueConcat(ZeroChars(z), st);
    IntegerValueZeros(z);
  }

  /** The intended fraction digits are digits only. */
  lemma FractionTextDigits(f: int)
    requires 0 <= f < FractionMultiplier
    ensures AllDigits(FractionText(f))
  {
    DigitsLength(f, FractionDigits);
    StripValue(Digits(f));
    PadValue(FractionDigits - |Digits(f)|, StripTrailingZeros(Digits(f)));
  }

  /** The intended fraction digits stand for exactly f millionths. */
  lemma FractionTextValue(f: int)
    requires 0 <= f < FractionMultiplier
    ensures FractionValue(FractionText(f)) == f as real / 1000000.0
  {
    DigitsLength(f, FractionDigits);
    DigitsValue(f);
    PaddedStrippedValue(Digits(f));
  }

  /** Padding to six places and cutting the trailing zeros keeps the millionths a digit string spells. */
  lemma PaddedStrippedValue(d: string)
    requires AllDigits(d) && |d| <= FractionDigits
    ensures FractionValue(ZeroChars(FractionDigits - |d|) + StripTrailingZeros(d))
            == IntegerValue(d) as real / 1000000.0
  {
    var st := StripTrailingZeros(d);
    StripValue(d);
    var t := |d| - |st|;
    var z := FractionDigits - |d|;
    var u := ZeroChars(z) + st;
    PadValue(z, st);
    assert |u| + t == FractionDigits;
    assert IntegerValue(u) == IntegerValue(st);
    assert IntegerValue(d) == IntegerValue(u) * Pow(10, t);
    ScaledDigitsValue(u, t, IntegerValue(d));
  }

  /** Six fraction places whose last t zeros were cut off still read as f millionths. */
  lemma ScaledDigitsValue(u: string, t: nat, f: int)
    requires AllDigits(u) && |u| + t == FractionDigits && f == IntegerValue(u) * Pow(10, t)
    ensures FractionValue(u) == f as real / 1000000.0
  {
    FractionValueAsInteger(u);
    PowAdd(10, |u|, t);
    assert Pow(10, 6) == 1000000;
    RescaleMillionths(IntegerValue(u), Pow(10, |u|), Pow(10, t));
  }

  lemma RescaleMillionths(k: int, pu: int, pt: int)
    requires pu >= 1 && pu * pt == 1000000
    ensures k as real / pu as real == (k * pt) as real / 1000000.0
  {
    assert (k * pt) as real == k as real * pt as real;
    assert pu as real * pt as real == 1000000.0;
  }

  /** Digits after a string do not move its last '.'. */
  lemma {:induction false} LastDotSkipsDigits(x: string, b: string)
    requires AllDigits(b)
    ensures LastDot(x + b) == LastDot(x)
  {
    if b == [] {
      assert x + b == x;
    } else {
      var b' := b[..|b| - 1];
      assert (x + b)[..|x + b| - 1] == x + b';
      LastDotSkipsDigits(x, b');
    }
  }

  /** With a fraction of digits only, the last '.' is the one between the parts. */
  lemma LastDotBetween(a: string, b: string)
    requires AllDigits(b)
    ensures LastDot(a + ['.'] + b) == Some(|a|)
  {
    LastDotSkipsDigits(a + ['.'], b);
  }

  /** Without a '.', a display reads as the integer it spells, negated when it holds a '-'. */
  lemma ValueWithoutDot(s: string)
    requires LastDot(s) == None
    ensures Value(s) == if '-' in s then -(IntegerValue(s) as real) else IntegerValue(s) as real
  {
    assert s[..|s|] == s;
  }

  /** "%d" output reads back as the int printed. */
  lemma DecimalValue(n: int)
    ensures Value(DecimalString(n)) == n as real
  {
    if n < 0 {
      NegativeValue(-n);
    } else {
      NaturalValue(n);
    }
  }

  lemma NaturalValue(m: nat)
    ensures Value(Digits(m)) == m as real
  {
    var s := Digits(m);
    DigitsValue(m);
    assert [] + s == s;
    LastDotSkipsDigits([], s);
    assert forall i :: 0 <= i < |s| ==> s[i] != '-';
    ValueWithoutDot(s);
  }

  lemma NegativeValue(m: nat)
    ensures Value("-" + Digits(m)) == -(m as real)
  {
    var s := "-" + Digits(m);
    DigitsValue(m);
    LastDotSkipsDigits(['-'], Digits(m));
    assert LastDot(['-']) == None;
    IntegerValueConcat(['-'], Digits(m));
    IntegerValueSnoc([], '-');
    assert s[0] == '-';
    ValueWithoutDot(s);
  }

  /**
   * Round trip: the display written for a value reads back as that value when
   * it is whole; otherwise as the value cut (not rounded) after six decimals.
   */
  lemma FormatRoundTrip(v: real)
    requires Formattable(v)
    ensures TruncReal(v) as real == v ==> Value(FormatText(v)) == v
    ensures TruncReal(v) as real != v ==>
              Value(FormatText(v)) == TruncReal(v) as real + ScaledFraction(v) as real / 1000000.0
  {
    var ip := TruncReal(v);
    DecimalValue(ip);
    if ip as real != v && ScaledFraction(v) != 0 {
      var f := ScaledFraction(v);
      var a := DecimalString(ip);
      var b := FractionText(f);
      FractionTextValue(f);
      FractionTextDigits(f);
      LastDotBetween(a, b);
      var s := FormatText(v);
      assert s == a + ['.'] + b;
      assert s[..|a|] == a;
      assert s[|a| + 1..] == b;
      assert ip >= 0;
      DigitsValue(ip);
      assert forall i :: 0 <= i < |a| ==> a[i] != '-';
    } else {
      assert FormatText(v) == DecimalString(ip);
    }
  }

  /**
   * What the intended formatter writes reads back as a value it writes the
   * same way: a display it wrote survives being read and written again.
   */
  lemma FormatStable(v: real)
    requires Formattable(v)
    ensures Formattable(Value(FormatText(v)))
    ensures FormatText(Value(FormatText(v))) == FormatText(v)
  {
    var ip := TruncReal(v);
    FormatRoundTrip(v);
    if ip as real == v || ScaledFraction(v) == 0 {
      assert Value(FormatText(v)) == ip as real;
      assert TruncReal(ip as real) == ip;
    } else {
      var f := ScaledFraction(v);
      var w := ip as real + f as real / 1000000.0;
      assert Value(FormatText(v)) == w;
      assert ip >= 0 && 0 < f < FractionMultiplier;
      assert TruncReal(w) == ip;
      assert (w - ip as real) * FractionMultiplier as real == f as real;
      assert ScaledFraction(w) == f;
    }
  }

  /** The display shows the value truncated toward zero to at most six decimals, never more than it. */
  lemma FormatTruncates(v: real)
    requires Formattable(v) && v >= 0.0
    ensures Value(FormatText(v)) <= v < Value(FormatText(v)) + 1.0 / 1000000.0
  {
    FormatRoundTrip(v);
  }

  // ---------------------------------------------------------------------------
  // The displays the calculator shows

  /** A display character at position i: a digit, a '.', or a '-' in front. */
  predicate DisplayChar(s: string, i: int)
    requires 0 <= i < |s|
  {
    IsDigit(s[i]) || s[i] == '.' || (s[i] == '-' && i == 0)
  }

  /** Non-empty, an optional leading '-', then digits holding at most one '.'. */
  predicate WellFormed(s: string)
  {
    |s| >= 1
    && (forall i :: 0 <= i < |s| ==> DisplayChar(s, i))
    && (forall i, j :: 0 <= i < j < |s| && s[i] == '.' ==> s[j] != '.')
  }

  lemma AppendDigitWellFormed(s: string, c: char)
    requires WellFormed(s) && IsDigit(c)
    ensures WellFormed(s + [c])
  {
    var t := s + [c];
    forall i | 0 <= i < |t| ensures DisplayChar(t, i) {
      if i < |s| { assert DisplayChar(s, i); }
    }
  }

  lemma AppendDotWellFormed(s: string)
    requires WellFormed(s) && '.' !in s
    ensures WellFormed(s + ['.'])
  {
    var t := s + ['.'];
    forall i | 0 <= i < |t| ensures DisplayChar(t, i) {
      if i < |s| { assert DisplayChar(s, i); }
    }
  }

  lemma DropLastWellFormed(s: string)
    requires WellFormed(s) && |s| > 1
    ensures WellFormed(s[..|s| - 1])
  {
    var t := s[..|s| - 1];
    forall i | 0 <= i < |t| ensures DisplayChar(t, i) {
      assert DisplayChar(s, i);
    }
  }

  /** "%d" text is a well-formed display without a '.'. */
  lemma IntegerTextWellFormed(ip: int)
    ensures WellFormed(DecimalString(ip))
    ensures forall i :: 0 <= i < |DecimalString(ip)| ==> DecimalString(ip)[i] != '.'
  {
    var a := DecimalString(ip);
    var m := if ip < 0 then -ip else ip;
    forall i | 0 <= i < |a| ensures DisplayChar(a, i) && a[i] != '.' {
      if ip < 0 && i > 0 { assert a[i] == Digits(m)[i - 1]; }
    }
  }

  /** "%d" text, a '.' and digits make a well-formed display. */
  lemma PointedWellFormed(ip: int, b: string)
    requires AllDigits(b)
    ensures WellFormed(DecimalString(ip) + ['.'] + b)
  {
    var a := DecimalString(ip);
    IntegerTextWellFormed(ip);
    var s := a + ['.'] + b;
    forall i | 0 <= i < |s| ensures DisplayChar(s, i) {
      if i < |a| { assert s[i] == a[i] && DisplayChar(a, i); }
      else if i > |a| { assert s[i] == b[i - |a| - 1]; }
    }
    forall i, j | 0 <= i < j < |s| && s[i] == '.' ensures s[j] != '.' {
      assert s[j] == b[j - |a| - 1];
    }
  }

  /** The digits before the first '0' of a digit string are digits. */
  lemma {:induction false} BeforeFirstZeroDigits(s: string)
    requires AllDigits(s)
    ensures AllDigits(BeforeFirstZero(s))
  {
    if s != [] && s[0] != '0' {
      BeforeFirstZeroDigits(s[1..]);
    }
  }

  /** The fraction digits the source writes are digits only. */
  lemma FractionAsWrittenDigits(f: int)
    requires 0 <= f < FractionMultiplier
    ensures AllDigits(FractionAsWritten(f))
  {
    DigitsLength(f, FractionDigits);
    BeforeFirstZeroDigits(Digits(f));
    PadValue(FractionDigits - |Digits(f)|, BeforeFirstZero(Digits(f)));
  }

  /** Whatever either formatter writes is a display the parser and the editing keys accept. */
  lemma FormatWellFormed(v: real)
    requires Formattable(v)
    ensures WellFormed(FormatText(v)) && WellFormed(FormatTextAsWritten(v))
  {
    var ip := TruncReal(v);
    IntegerTextWellFormed(ip);
    if ip as real != v {
      FractionAsWrittenDigits(ScaledFraction(v));
      PointedWellFormed(ip, FractionAsWritten(ScaledFraction(v)));
      assert FormatTextAsWritten(v) == DecimalString(ip) + ['.'] + FractionAsWritten(ScaledFraction(v));
      if ScaledFraction(v) != 0 {
        FractionTextDigits(ScaledFraction(v));
        PointedWellFormed(ip, FractionText(ScaledFraction(v)));
        assert FormatText(v) == DecimalString(ip) + ['.'] + FractionText(ScaledFraction(v));
      } else {
        assert FormatText(v) == DecimalString(ip);
      }
    } else {
      assert FormatText(v) == DecimalString(ip);
      assert FormatTextAsWritten(v) == DecimalString(ip);
    }
  }

  // ---------------------------------------------------------------------------
  // Worked examples

  /** The digits of 10 q + r are those of q, then r. */
  lemma DigitsAppend(q: nat, r: nat)
    requires 1 <= q && r <= 9
    ensures Digits(10 * q + r) == Digits(q) + [DigitChar(r)]
  {
    assert (10 * q + r) / 10 == q && (10 * q + r) % 10 == r;
  }

  lemma FiveDigits()
    ensures Digits(50000) == "50000" && Digits(500000) == "500000"
  {
    DigitsAppend(5, 0);
    DigitsAppend(50, 0);
    DigitsAppend(500, 0);
    DigitsAppend(5000, 0);
    DigitsAppend(50000, 0);
  }

  lemma OneOFiveDigits()
    ensures Digits(105000) == "105000"
  {
    DigitsAppend(1, 0);
    DigitsAppend(10, 5);
    DigitsAppend(105, 0);
    DigitsAppend(1050, 0);
    DigitsAppend(10500, 0);
  }

  /** The integer parts and scaled fractions of the example values. */
  lemma ScaledExamples()
    ensures TruncReal(3.0) == 3
    ensures TruncReal(12.5) == 12 && ScaledFraction(12.5) == 500000
    ensures TruncReal(0.05) == 0 && ScaledFraction(0.05) == 50000
    ensures TruncReal(0.105) == 0 && ScaledFraction(0.105) == 105000
  {
  }

  /** 3.0 shows as "3", 12.5 as "12.5" and 0.05 as "0.05", as written and as intended. */
  lemma FormatExamples()
    ensures FormatTextAsWritten(3.0) == "3" && FormatText(3.0) == "3"
    ensures FormatTextAsWritten(12.5) == "12.5" && FormatText(12.5) == "12.5"
    ensures FormatTextAsWritten(0.05) == "0.05" && FormatText(0.05) == "0.05"
  {
    ScaledExamples();
    FiveDigits();
    ShortStrips();
    assert FractionText(500000) == "5";
    assert FractionText(50000) == "05";
    assert BeforeFirstZero("500000") == "5" && BeforeFirstZero("50000") == "5";
    assert FractionAsWritten(500000) == "5";
    assert FractionAsWritten(50000) == "05";
  }

  lemma ShortStrips()
    ensures StripTrailingZeros("500000") == "5" && StripTrailingZeros("50000") == "5"
    ensures StripTrailingZeros("105000") == "105"
  {
    assert "500000"[..5] == "50000" && "50000"[..4] == "5000" && "5000"[..3] == "500";
    assert "500"[..2] == "50" && "50"[..1] == "5";
    assert "105000"[..5] == "10500" && "10500"[..4] == "1050" && "1050"[..3] == "105";
  }

  /** "12.5" reads as 12.5, "-3" as -3, and "0." as 0. */
  lemma ParseExamples()
    ensures Value("12.5") == 12.5
    ensures Value("-3") == -3.0
    ensures Value("0.") == 0.0
  {
    assert LastDot("12.5") == Some(2);
    assert "12.5"[..2] == "12" && "12.5"[3..] == "5";
    assert IntegerValue("12") == 12;
    assert LastDot("-3") == None;
    assert IntegerValue("-3") == 3;
    assert "-3"[..2] == "-3";
    assert LastDot("0.") == Some(1);
    assert "0."[..1] == "0";
  }

  /**
   * The source's stripping loop blanks the interior '0' of 0.105's digits
   * "105000", so the display reads 0.1 instead of 0.105.
   */
  lemma AsWrittenDropsInteriorDigits()
    ensures FormatTextAsWritten(0.105) == "0.1"
    ensures Value(FormatTextAsWritten(0.105)) == 0.1 != 0.105
  {
    AsWrittenText();
    PointOne();
  }

  lemma AsWrittenText()
    ensures FormatTextAsWritten(0.105) == "0.1"
  {
    ScaledExamples();
    OneOFiveDigits();
    assert BeforeFirstZero("105000") == "1";
    assert FractionAsWritten(105000) == "1";
  }

  lemma PointOne()
    ensures Value("0.1") == 0.1
  {
    assert LastDot("0.1") == Some(1);
    assert "0.1"[..1] == "0" && "0.1"[2..] == "1";
  }

  /** Stopping at the first digit that is not '0' keeps "0.105", which reads back exactly. */
  lemma CorrectedKeepsInteriorDigits()
    ensures FormatText(0.105) == "0.105"
    ensures Value(FormatText(0.105)) == 0.105
  {
    CorrectedText();
    ScaledExamples();
    FormatRoundTrip(0.105);
  }

  lemma CorrectedText()
    ensures FormatText(0.105) == "0.105"
  {
    ScaledExamples();
    OneOFiveDigits();
    ShortStrips();
    assert FractionText(105000) == "105";
  }

  /**
   * A value whose fraction is below one millionth passes the source's
   * "not whole" test and is written with five padding zeros as "0.00000";
   * that reads back as 0, which is written "0". The intended formatter
   * writes "0" to begin with.
   */
  lemma TinyFractionUnstable()
    ensures FormatTextAsWritten(0.0000001) == "0.00000"
    ensures Value("0.00000") == 0.0 && FormatTextAsWritten(0.0) == "0"
    ensures FormatText(0.0000001) == "0"
  {
    assert TruncReal(0.0000001) == 0 && ScaledFraction(0.0000001) == 0;
    assert Digits(0) == "0" && BeforeFirstZero("0") == "";
    assert FractionAsWritten(0) == "00000";
    assert LastDot("0.") == Some(1);
    assert "0.0"[..2] == "0." && LastDot("0.0") == Some(1);
    assert "0.00"[..3] == "0.0" && LastDot("0.00") == Some(1);
    assert "0.000"[..4] == "0.00" && LastDot("0.000") == Some(1);
    assert "0.0000"[..5] == "0.000" && LastDot("0.0000") == Some(1);
    assert "0.00000"[..6] == "0.0000" && LastDot("0.00000") == Some(1);
    assert "0.00000"[..1] == "0" && "0.00000"[2..] == "00000";
    assert ZeroChars(5) == "00000";
    IntegerValueZeros(5);
    FractionValueAsInteger("00000");
    assert FractionValue("00000") == 0.0;
    assert IntegerValue("0") == 0 && '-' !in "0";
    assert TruncReal(0.0) == 0;
  }
}
