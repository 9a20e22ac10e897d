/** `Number.prototype.toString(base)` on integers: digits most significant
    first, lower-case letters above nine, no leading zeros, and a leading
    `-` for negative numbers. */
module Numerals {

  const DIGITS: string := "0123456789abcdef"

  predicate IsBase(base: int)
  {
    2 <= base <= 16
  }

  /** The value of a digit character, or -1 for any other character. */
  function DigitValue(c: char): int
  {
    if '0' <= c <= '9' then c as int - '0' as int
    else if 'a' <= c <= 'f' then c as int - 'a' as int + 10
    else -1
  }

  /** The non-negative `n` written in `base`. */
  function ToDigits(n: nat, base: int): (s: string)
    requires IsBase(base)
    decreases n
  {
    if n < base then [DIGITS[n]] else ToDigits(n / base, base) + [DIGITS[n % base]]
  }

  /** The inverse reading: the value of a digit string in `base`. */
  function FromDigits(s: string, base: int): int
    requires IsBase(base)
  {
    if s == [] then 0 else FromDigits(s[..|s| - 1], base) * base + DigitValue(s[|s| - 1])
  }

  /** A digit character stands for its index in `DIGITS`. */
  lemma DigitValueOfDigit(d: nat)
    requires d < 16
    ensures DigitValue(DIGITS[d]) == d
  {
  }

  /** Splitting off the last digit. */
  lemma DivModBase(n: nat, base: int)
    requires IsBase(base) && n >= base
    ensures 1 <= n / base < n
    ensures 0 <= n % base < base
    ensures n == n / base * base + n % base
  {
  }

  /** The digits of a number of two or more digits: those of the quotient,
      then the remainder's. */
  lemma LastDigit(n: nat, base: int)
    requires IsBase(base) && n >= base
    ensures var s := ToDigits(n, base);
            |s| >= 2 && s[..|s| - 1] == ToDigits(n / base, base) && s[|s| - 1] == DIGITS[n % base]
            && s[0] == ToDigits(n / base, base)[0]
  {
    DivModBase(n, base);
    var p := ToDigits(n / base, base);
    assert |p| >= 1 by {
      if n / base >= base {
        assert ToDigits(n / base, base) == ToDigits(n / base / base, base) + [DIGITS[n / base % base]];
      }
    }
    assert ToDigits(n, base) == p + [DIGITS[n % base]];
  }

  /** The digits are never empty, have no leading zero, and each is a digit
      of `base`. */
  lemma {:induction false} DigitsWellFormed(n: nat, base: int)
    requires IsBase(base)
    ensures |ToDigits(n, base)| >= 1
    ensures n > 0 ==> ToDigits(n, base)[0] != '0'
    ensures forall i :: 0 <= i < |ToDigits(n, base)| ==> 0 <= DigitValue(ToDigits(n, base)[i]) < base
    decreases n
  {
    if n < base {
      DigitValueOfDigit(n);
    } else {
      DivModBase(n, base);
      var q, d := n / base, n % base;
      DigitsWellFormed(q, base);
      DigitValueOfDigit(d);
      LastDigit(n, base);
      var s, p := ToDigits(n, base), ToDigits(q, base);
      forall i | 0 <= i < |s|
        ensures 0 <= DigitValue(s[i]) < base
      {
        if i < |s| - 1 {
          assert s[i] == p[i];
        }
      }
    }
  }

  /** Reading back the digits gives the number. */
  lemma {:induction false} DigitsRoundTrip(n: nat, base: int)
    requires IsBase(base)
    ensures FromDigits(ToDigits(n, base), base) == n
    decreases n
  {
    if n < base {
      DigitValueOfDigit(n);
      assert ToDigits(n, base)[..0] == [];
    } else {
      DivModBase(n, base);
      var q, d := n / base, n % base;
      DigitsRoundTrip(q, base);
      DigitValueOfDigit(d);
      LastDigit(n, base);
      var s := ToDigits(n, base);
      assert FromDigits(s, base) == FromDigits(s[..|s| - 1], base) * base + DigitValue(s[|s| - 1]);
    }
  }

  /** Different numbers have different digit strings. */
  lemma DigitsInjective(a: nat, b: nat, base: int)
    requires IsBase(base)
    ensures ToDigits(a, base) == ToDigits(b, base) ==> a == b
  {
    DigitsRoundTrip(a, base);
    DigitsRoundTrip(b, base);
  }

  /** `n.toString(base)` for an integer `n` of either sign. */
  function ToStringBase(n: int, base: int): string
    requires IsBase(base)
  {
    if n < 0 then "-" + ToDigits(-n, base) else ToDigits(n, base)
  }

  /** The rendering is never empty and starts with `-` exactly for negative
      numbers. */
  lemma ToStringBaseSign(a: int, base: int)
    requires IsBase(base)
    ensures ToStringBase(a, base) != ""
    ensures ToStringBase(a, base)[0] == '-' <==> a < 0
  {
    if a >= 0 {
      DigitsWellFormed(a, base);
      assert DigitValue(ToDigits(a, base)[0]) >= 0;
    }
  }

  /** The rendering tells every two numbers apart. */
  lemma ToStringBaseInjective(a: int, b: int, base: int)
    requires IsBase(base)
    ensures ToStringBase(a, base) == ToStringBase(b, base) ==> a == b
  {
    ToStringBaseSign(a, base);
    ToStringBaseSign(b, base);
    var sa, sb := ToStringBase(a, base), ToStringBase(b, base);
    if sa == sb {
      if a < 0 {
        assert ToDigits(-a, base) == sa[1..] == sb[1..] == ToDigits(-b, base);
        DigitsInjective(-a, -b, base);
      } else {
        DigitsInjective(a, b, base);
      }
    }
  }
}
