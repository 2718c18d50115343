/**
 * Java `long` arithmetic and text conversion as the replay code uses it:
 * the 64-bit range, `Long.parseLong(s)` in radix 10, its inverse
 * `Long.toString(n)`, and the `/` operator, which truncates toward zero.
 */
module JavaLong {
  import opened Wrappers

  const MinLong: int := -0x8000_0000_0000_0000
  const MaxLong: int := 0x7FFF_FFFF_FFFF_FFFF

  type Long = n: int | MinLong <= n <= MaxLong

  predicate IsDigit(c: char) {
    '0' <= c <= '9'
  }

  predicate AllDigits(s: string) {
    forall i :: 0 <= i < |s| ==> IsDigit(s[i])
  }

  function DigitValue(c: char): nat
    requires IsDigit(c)
  {
    c as int - '0' as int
  }

  function DigitChar(d: nat): (c: char)
    requires d < 10
    ensures IsDigit(c) && DigitValue(c) == d
  {
    ('0' as int + d) as char
  }

  /** The number a string of decimal digits denotes, most significant first. */
  function DigitsValue(s: string): nat
    requires AllDigits(s)
  {
    if s == [] then 0 else DigitsValue(s[..|s| - 1]) * 10 + DigitValue(s[|s| - 1])
  }

  /** The decimal digits of `n`, without leading zeros. */
  function Decimal(n: nat): (s: string)
    ensures s != [] && AllDigits(s)
  {
    if n < 10 then [DigitChar(n)] else Decimal(n / 10) + [DigitChar(n % 10)]
  }

  /** `Long.toString(n)`: an optional minus sign and the decimal digits. */
  function Format(n: int): string {
    if n < 0 then "-" + Decimal(-(n as int)) else Decimal(n)
  }

  /**
   * `Long.parseLong(s)`: an optional sign and at least one decimal digit, and a
   * value inside the range of `long`; anything else is a `NumberFormatException`
   * (`None`). Only the ASCII digits are recognised.
   */
  function ParseLong(s: string): (r: Option<Long>)
    ensures r.Some? <==>
      && Unsigned(s) != [] && AllDigits(Unsigned(s))
      && DigitsValue(Unsigned(s)) <= (if s[0] == '-' then -MinLong else MaxLong)
    ensures r.Some? ==> r.value == if s[0] == '-' then -(DigitsValue(Unsigned(s)) as int) else DigitsValue(Unsigned(s))
    ensures r.Some? ==> s != [] && (s[0] == '-' || s[0] == '+' || IsDigit(s[0]))
    ensures r.Some? && s[0] == '-' ==> r.value <= 0
    ensures r.Some? && s[0] != '-' ==> r.value >= 0
  {
    var digits := Unsigned(s);
    if digits == [] || !AllDigits(digits) then None
    else
      var n: int := if s[0] == '-' then -(DigitsValue(digits) as int) else DigitsValue(digits);
      if MinLong <= n <= MaxLong then Some(n) else None
  }

  /** The text after an optional leading `-` or `+`. */
  function Unsigned(s: string): (t: string)
    ensures t != [] ==> s != []
  {
    if s != [] && (s[0] == '-' || s[0] == '+') then s[1..] else s
  }

  /** Leading zeros, a plus sign and a negative zero are all accepted. */
  lemma ParseLongNonCanonical()
    ensures ParseLong("007") == Some(7)
    ensures ParseLong("+5") == Some(5)
    ensures ParseLong("-0") == Some(0)
    ensures ParseLong("") == None && ParseLong("-") == None && ParseLong("1e3") == None
  {
    assert Unsigned("+5") == "5";
    assert Unsigned("-0") == "0";
    assert Unsigned("007") == "007" && AllDigits("007");
    assert "007"[..2] == "00" && "00"[..1] == "0" && "0"[..0] == "";
    assert DigitsValue("0") == 0 && DigitsValue("00") == 0 && DigitsValue("007") == 7;
    assert !IsDigit("1e3"[1]);
  }

  lemma {:induction false} DecimalValue(n: nat)
    ensures DigitsValue(Decimal(n)) == n
  {
    if n >= 10 {
      var s := Decimal(n);
      assert s[..|s| - 1] == Decimal(n / 10);
      DecimalValue(n / 10);
    }
  }

  /** `Long.parseLong(Long.toString(n)) == n` for every `long` n. */
  lemma ParseFormat(n: Long)
    ensures ParseLong(Format(n)) == Some(n)
  {
    var s := Format(n);
    if n < 0 {
      assert s[0] == '-' && s[1..] == Decimal(-(n as int));
      DecimalValue(-(n as int));
    } else {
      assert s == Decimal(n) && IsDigit(s[0]);
      DecimalValue(n);
    }
  }

  function Abs(n: int): nat {
    if n < 0 then -n else n
  }

  /**
   * Java's `a / b` on `long`: the quotient rounded toward zero (Dafny's `/`
   * is Euclidean). The one quotient of two longs that is not a long,
   * `Long.MIN_VALUE / -1`, wraps to `Long.MIN_VALUE`. A zero divisor is an
   * `ArithmeticException`, so callers check `b != 0` first.
   */
  function Div(a: int, b: int): (q: int)
    requires b != 0
    ensures a == MinLong && b == -1 ==> q == MinLong
    ensures !(a == MinLong && b == -1) ==>
      && Abs(q) * Abs(b) <= Abs(a) < (Abs(q) + 1) * Abs(b)
      && (q == 0 || ((q < 0) <==> ((a < 0) != (b < 0))))
    ensures MinLong <= a <= MaxLong ==> MinLong <= q <= MaxLong
  {
    if a == MinLong && b == -1 then MinLong
    else
      var q := Truncated(a, b);
      QuotientInRange(a, b, q);
      q
  }

  /** The quotient rounded toward zero, in unbounded integers. */
  function Truncated(a: int, b: int): (q: int)
    requires b != 0
    ensures Abs(q) * Abs(b) <= Abs(a) < (Abs(q) + 1) * Abs(b)
    ensures q == 0 || ((q < 0) <==> ((a < 0) != (b < 0)))
  {
    var m := Abs(a) / Abs(b);
    var q := if (a < 0) == (b < 0) then m else -m;
    TruncatedBounds(Abs(a), Abs(b), m, q);
    q
  }

  /** Away from `MIN_VALUE / -1`, a truncated quotient of a long is a long. */
  lemma QuotientInRange(a: int, b: int, q: int)
    requires b != 0 && !(a == MinLong && b == -1)
    requires Abs(q) * Abs(b) <= Abs(a)
    requires q == 0 || ((q < 0) <==> ((a < 0) != (b < 0)))
    ensures MinLong <= a <= MaxLong ==> MinLong <= q <= MaxLong
  {
    if MinLong <= a <= MaxLong && q != 0 {
      assert Abs(q) <= Abs(q) * Abs(b);
      if q > 0 && a == MinLong {
        // equal signs, and `b` is neither 1 nor -1
        assert b <= -2;
        assert 2 * Abs(q) <= Abs(q) * Abs(b);
      }
    }
  }

  /** A quotient whose magnitude is the Euclidean quotient of the magnitudes. */
  lemma TruncatedBounds(x: nat, y: nat, m: int, q: int)
    requires y > 0 && m == x / y && (q == m || q == -m)
    ensures Abs(q) * y <= x < (Abs(q) + 1) * y
  {
    DivBounds(x, y);
    assert Abs(q) == m;
  }

  lemma DivBounds(x: nat, y: nat)
    requires y > 0
    ensures (x / y) * y <= x < (x / y + 1) * y
  {
    var m, r := x / y, x % y;
    assert x == m * y + r && 0 <= r < y;
    assert (m + 1) * y == m * y + y;
  }
}
