/**
 * The JavaScript number operations the evaluator relies on, restricted to the
 * integer values and NaN: `parseInt`, `Number`, `toString`, `%` and `Math.max`.
 */
module JsNumbers {
  import opened Wrappers
  import opened JsStrings

  /** A JavaScript number that is either an integer or NaN (what a failed parse yields). */
  datatype IntOrNaN = Int(value: int) | NaN

  /** The value of a digit character in radixes up to 36; 36 for any other character. */
  function DigitValue(c: char): (d: nat)
    ensures d <= 36
    ensures d < 10 <==> '0' <= c <= '9'
  {
    if '0' <= c <= '9' then (c as int) - ('0' as int)
    else if 'a' <= c <= 'z' then (c as int) - ('a' as int) + 10
    else if 'A' <= c <= 'Z' then (c as int) - ('A' as int) + 10
    else 36
  }

  predicate IsDigit(c: char, radix: nat)
  {
    DigitValue(c) < radix
  }

  /** The longest prefix of `s` made of digits of `radix`. */
  function DigitPrefix(s: string, radix: nat): (r: string)
    ensures |r| <= |s| && r == s[..|r|]
    ensures forall i :: 0 <= i < |r| ==> IsDigit(r[i], radix)
    ensures |r| < |s| ==> !IsDigit(s[|r|], radix)
  {
    if s != [] && IsDigit(s[0], radix) then [s[0]] + DigitPrefix(s[1..], radix) else []
  }

  /** The value of a digit string read most significant digit first. */
  function DigitsValue(ds: string, radix: nat): nat
  {
    if ds == [] then 0 else DigitsValue(ds[..|ds| - 1], radix) * radix + DigitValue(ds[|ds| - 1])
  }

  function DigitChar(d: nat): (c: char)
    requires d < 10
    ensures DigitValue(c) == d
  {
    (48 + d) as char
  }

  /** The decimal numeral of `n`, without leading zeros. */
  function NatToString(n: nat): (s: string)
    ensures |s| >= 1
    ensures forall i :: 0 <= i < |s| ==> IsDigit(s[i], 10)
    ensures DigitsValue(s, 10) == n
  {
    if n < 10 then [DigitChar(n)]
    else
      var s := NatToString(n / 10) + [DigitChar(n % 10)];
      assert s[..|s| - 1] == NatToString(n / 10);
      s
  }

  /**
   * The numeral is in `toString`'s canonical form: one digit exactly below 10,
   * and no leading zero, so it starts with `0` only for 0 itself.
   */
  lemma {:induction false} NatToStringCanonical(n: nat)
    ensures |NatToString(n)| == 1 <==> n < 10
    ensures NatToString(n)[0] == '0' <==> n == 0
  {
    if n >= 10 {
      NatToStringCanonical(n / 10);
      assert NatToString(n)[0] == NatToString(n / 10)[0];
    }
  }

  /** `Number.prototype.toString()` of an integer value. */
  function IntToString(i: int): (s: string)
  {
    if i < 0 then "-" + NatToString(-i) else NatToString(i)
  }

  /** Splits an optional leading `-` or `+` off `s`. */
  function SplitSign(s: string): (bool, string)
  {
    if s != [] && s[0] == '-' then (true, s[1..])
    else if s != [] && s[0] == '+' then (false, s[1..])
    else (false, s)
  }

  function Signed(negative: bool, magnitude: nat): int
  {
    if negative then -(magnitude as int) else magnitude as int
  }

  predicate HasHexPrefix(u: string)
  {
    |u| >= 2 && u[0] == '0' && (u[1] == 'x' || u[1] == 'X')
  }

  /** The unsigned part of `parseInt`: an optional `0x`/`0X` prefix, then the longest run of digits. */
  function ParseMagnitude(u: string): Option<nat>
  {
    var radix := if HasHexPrefix(u) then 16 else 10;
    var digits := DigitPrefix(if HasHexPrefix(u) then u[2..] else u, radix);
    if digits == [] then None else Some(DigitsValue(digits, radix))
  }

  /**
   * `parseInt(s)` without a radix: skip leading whitespace, read an optional
   * sign and an optional `0x`/`0X` prefix, then the longest run of digits;
   * no digit at all gives NaN.
   */
  function ParseInt(s: string): IntOrNaN
  {
    var (negative, unsigned) := SplitSign(TrimStart(s));
    match ParseMagnitude(unsigned)
    case None => NaN
    case Some(m) => Int(Signed(negative, m))
  }

  /** Every digit of a string of digits belongs to its longest digit prefix. */
  lemma {:induction false} DigitPrefixOfDigits(ds: string, rest: string, radix: nat)
    requires forall i :: 0 <= i < |ds| ==> IsDigit(ds[i], radix)
    requires rest == [] || !IsDigit(rest[0], radix)
    ensures DigitPrefix(ds + rest, radix) == ds
  {
    if ds != [] {
      DigitPrefixOfDigits(ds[1..], rest, radix);
      assert (ds + rest)[1..] == ds[1..] + rest;
    }
  }

  /** A numeral followed by a non-digit: the digits are read in base 10 and the rest is ignored. */
  lemma ParseMagnitudeOfNumeral(m: nat, rest: string)
    requires rest == [] || DigitValue(rest[0]) == 36
    ensures ParseMagnitude(NatToString(m) + rest) == Some(m)
  {
    var digits := NatToString(m);
    var unsigned := digits + rest;
    assert !HasHexPrefix(unsigned) by {
      if |unsigned| >= 2 {
        if |digits| >= 2 {
          assert unsigned[1] == digits[1] && IsDigit(digits[1], 10);
        } else {
          assert unsigned[1] == rest[0];
        }
      }
    }
    DigitPrefixOfDigits(digits, rest, 10);
  }

  /** Text after a numeral does not change where its sign ends. */
  lemma SplitSignOfIntStringThen(n: int, rest: string)
    ensures SplitSign(IntToString(n) + rest) == (n < 0, NatToString(if n < 0 then -n else n) + rest)
  {
    var digits := NatToString(if n < 0 then -n else n);
    var s := IntToString(n) + rest;
    if n < 0 {
      assert IntToString(n) == "-" + digits;
      assert s == ['-'] + (digits + rest);
      assert s[0] == '-' && s[1..] == digits + rest;
    } else {
      assert IntToString(n) == digits;
      assert s[0] == digits[0];
      assert DigitValue(digits[0]) < 10;
      assert s[0] != '-' && s[0] != '+';
    }
  }

  /**
   * `parseInt` reads back what `toString` wrote, and stops at the first
   * character that is not a digit (letters excluded, since `0x` switches to hex).
   */
  lemma ParseIntOfIntString(n: int, rest: string)
    requires rest == [] || DigitValue(rest[0]) == 36
    ensures ParseInt(IntToString(n) + rest) == Int(n)
  {
    var s := IntToString(n) + rest;
    assert s[0] == IntToString(n)[0];
    TrimStartKeepsUnpadded(s);
    SplitSignOfIntStringThen(n, rest);
    ParseMagnitudeOfNumeral(if n < 0 then -n else n, rest);
  }

  /**
   * `Number(s)`: empty or all-whitespace text is 0, an optionally signed run
   * of decimal digits (surrounded by whitespace) is its value, anything else NaN.
   */
  function ToNumber(s: string): IntOrNaN
  {
    var t := Trim(s);
    if t == [] then Int(0)
    else
      var (negative, unsigned) := SplitSign(t);
      if unsigned != [] && DigitPrefix(unsigned, 10) == unsigned
      then Int(Signed(negative, DigitsValue(unsigned, 10)))
      else NaN
  }

  /** A decimal numeral has no whitespace to trim. */
  lemma IntStringUnpadded(i: int)
    ensures Trim(IntToString(i)) == IntToString(i)
  {
    var s := IntToString(i);
    assert IsDigit(s[|s| - 1], 10);
    TrimKeepsUnpadded(s);
  }

  /** The numeral of `n` is its sign followed by the numeral of its magnitude. */
  lemma SplitSignOfIntString(n: int)
    ensures SplitSign(IntToString(n)) == (n < 0, NatToString(if n < 0 then -n else n))
  {
    if n < 0 {
      assert IntToString(n)[1..] == NatToString(-n);
    }
  }

  /** A numeral is its own longest digit prefix. */
  lemma DigitPrefixOfNumeral(m: nat)
    ensures DigitPrefix(NatToString(m), 10) == NatToString(m)
  {
    var digits := NatToString(m);
    DigitPrefixOfDigits(digits, [], 10);
    assert digits + [] == digits;
  }

  /** `Number` reads back what `toString` wrote. */
  lemma ToNumberOfIntString(n: int)
    ensures ToNumber(IntToString(n)) == Int(n)
  {
    IntStringUnpadded(n);
    SplitSignOfIntString(n);
    DigitPrefixOfNumeral(if n < 0 then -n else n);
  }

  /** `x.toString()` for an integer or NaN. */
  function NumberToString(x: IntOrNaN): string
  {
    match x
    case Int(i) => IntToString(i)
    case NaN => "NaN"
  }

  function Abs(x: int): nat
  {
    if x < 0 then -x else x
  }

  /**
   * JavaScript's `a % b`: `a` minus a whole multiple of `b`, smaller than `b`
   * in magnitude and with the sign of the dividend (the quotient truncates
   * toward zero).
   */
  function JsRem(a: int, b: int): (r: int)
    requires b != 0
    ensures a >= 0 ==> 0 <= r
    ensures a < 0 ==> r <= 0
    ensures Abs(r) < Abs(b)
    ensures (a - r) % b == 0
  {
    var m := Abs(a);
    var d := Abs(b);
    var r := if a < 0 then -(m % d) else m % d;
    MultipleRem(if a < 0 then -(m / d) else m / d, d, b);
    assert a - r == (if a < 0 then -(m / d) else m / d) * d;
    r
  }

  /** A whole multiple of `|b|` leaves no remainder modulo `b`. */
  lemma MultipleRem(q: int, d: nat, b: int)
    requires b != 0 && d == Abs(b)
    ensures (q * d) % b == 0
  {
    var e := if b > 0 then q else -q;
    MultipleOfB(e, b);
    assert q * d == e * b;
  }

  lemma MultipleOfB(e: int, b: int)
    requires b != 0
    ensures (e * b) % b == 0
  {
    var x := e * b;
    var k := e - x / b;
    RemAsMultiple(x, e, b);
    assert x % b == k * b;
    SmallMultipleIsZero(k, b, x % b);
  }

  lemma RemAsMultiple(x: int, e: int, b: int)
    requires b != 0 && x == e * b
    ensures x % b == (e - x / b) * b
  {
    assert x == b * (x / b) + x % b;
  }

  lemma SmallMultipleIsZero(k: int, b: int, r: int)
    requires b != 0 && r == k * b && 0 <= r < Abs(b)
    ensures r == 0
  {
    MultipleMagnitude(k, b);
  }

  /** A non-zero multiple of `b` is at least `b` in magnitude. */
  lemma MultipleMagnitude(k: int, b: int)
    ensures k != 0 ==> Abs(k * b) >= Abs(b)
  {
    if k != 0 {
      var n := Abs(k);
      var d := Abs(b);
      assert Abs(k * b) == n * d;
      assert (n - 1) * d >= 0;
    }
  }

  /** The JavaScript parity test `a % 2 === 0` holds exactly for even `a`, negative or not. */
  lemma JsRemTwoIsParity(a: int)
    ensures JsRem(a, 2) == 0 <==> a % 2 == 0
  {
    if a < 0 {
      assert (-a) % 2 == 0 <==> a % 2 == 0;
    }
  }

  /** `Math.max(...xs)` over at least one number: NaN if any is NaN, else the largest. */
  function MathMax(xs: seq<IntOrNaN>): (r: IntOrNaN)
    requires |xs| >= 1
    ensures r.NaN? <==> exists i :: 0 <= i < |xs| && xs[i].NaN?
    ensures r.Int? ==> exists i :: 0 <= i < |xs| && xs[i] == r
    ensures r.Int? ==> forall i :: 0 <= i < |xs| ==> xs[i].Int? && xs[i].value <= r.value
  {
    if |xs| == 1 then xs[0]
    else
      var m := MathMax(xs[1..]);
      if xs[0].NaN? || m.NaN? then NaN
      else Int(if xs[0].value >= m.value then xs[0].value else m.value)
  }
}
