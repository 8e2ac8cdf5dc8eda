/** Decimal text for 32-bit integers, as .NET's `int.ToString()` writes it and
    `int.Parse(string)` (number style `Integer`, under a culture whose signs
    are '-' and '+') reads it.
    The two order-callback variants identify an order through these two
    directions, and a verification code is `Random.Next(...).ToString()`. */
module Numbers {
  import opened Common

  const Int32Min: int := -0x8000_0000
  const Int32Max: int := 0x7FFF_FFFF

  predicate IsDigit(c: char) {
    '0' <= c <= '9'
  }

  predicate AllDigits(s: string) {
    forall i :: 0 <= i < |s| ==> IsDigit(s[i])
  }

  function DigitChar(d: int): (c: char)
    requires 0 <= d < 10
    ensures IsDigit(c) && c as int - '0' as int == d
  {
    ('0' as int + d) as char
  }

  /** Decimal digits of `n`, most significant first and without leading zeros. */
  function Digits(n: nat): (s: string)
    ensures 1 <= |s| && AllDigits(s)
    ensures s[0] == '0' ==> n == 0 && s == "0"
    decreases n
  {
    if n < 10 then [DigitChar(n)] else Digits(n / 10) + [DigitChar(n % 10)]
  }

  /** The number a string of decimal digits denotes. */
  function DigitsValue(s: string): nat
    requires AllDigits(s)
  {
    if |s| == 0 then 0
    else 10 * DigitsValue(s[..|s| - 1]) + (s[|s| - 1] as int - '0' as int)
  }

  lemma {:induction false} DigitsValueOfDigits(n: nat)
    ensures DigitsValue(Digits(n)) == n
    decreases n
  {
    if n >= 10 {
      var s := Digits(n);
      assert s[..|s| - 1] == Digits(n / 10);
      DigitsValueOfDigits(n / 10);
    }
  }

  function Pow10(k: nat): (p: nat)
    ensures p >= 1
  {
    if k == 0 then 1 else 10 * Pow10(k - 1)
  }

  /** A number with k decimal digits is written with exactly k characters. */
  lemma {:induction false} DigitsLength(n: nat, k: nat)
    requires 1 <= k && (k == 1 || Pow10(k - 1) <= n) && n < Pow10(k)
    ensures |Digits(n)| == k
    decreases k
  {
    if k > 1 {
      DigitsLength(n / 10, k - 1);
    }
  }

  /** `Int32.ToString()` under a culture whose negative sign is '-': an optional '-' then the digits. */
  function IntToString(n: int): (s: string)
    ensures 1 <= |s|
    ensures s[0] == '-' <==> n < 0
  {
    if n < 0 then "-" + Digits(-n) else Digits(n)
  }

  /** Negative-aware value of a formatted integer, ignoring the 32-bit range. */
  lemma IntToStringShape(n: int)
    ensures n < 0 ==> IntToString(n)[1..] == Digits(-n)
    ensures n >= 0 ==> IntToString(n) == Digits(n)
  {
  }

  /** Formatting is injective: different numbers never print alike. */
  lemma IntToStringInjective(m: int, n: int)
    requires IntToString(m) == IntToString(n)
    ensures m == n
  {
    IntToStringShape(m);
    IntToStringShape(n);
    if m < 0 {
      assert n < 0;
      assert Digits(-m) == Digits(-n);
      DigitsValueOfDigits(-m);
      DigitsValueOfDigits(-n);
    } else {
      assert n >= 0;
      DigitsValueOfDigits(m);
      DigitsValueOfDigits(n);
    }
  }

  /** The white-space characters `NumberStyles.Integer` lets surround a number. */
  predicate IsWhite(c: char) {
    c == ' ' || '\t' <= c <= '\r'
  }

  function TrimStart(s: string): (r: string)
    ensures |r| <= |s| && r == s[|s| - |r|..]
    ensures |r| > 0 ==> !IsWhite(r[0])
    ensures |s| > 0 && !IsWhite(s[0]) ==> r == s
  {
    if |s| > 0 && IsWhite(s[0]) then TrimStart(s[1..]) else s
  }

  function TrimEnd(s: string): (r: string)
    ensures |r| <= |s| && r == s[..|r|]
    ensures |r| > 0 ==> !IsWhite(r[|r| - 1])
    ensures |s| > 0 && !IsWhite(s[|s| - 1]) ==> r == s
  {
    if |s| > 0 && IsWhite(s[|s| - 1]) then TrimEnd(s[..|s| - 1]) else s
  }

  /** `s` without its trailing run of U+0000 characters, which `int.Parse`
      accepts after the number and its trailing white space. */
  function TrimTrailingNuls(s: string): (r: string)
    ensures |r| <= |s| && r == s[..|r|]
    ensures |r| > 0 ==> r[|r| - 1] != '\0'
    ensures forall i :: |r| <= i < |s| ==> s[i] == '\0'
    ensures |s| > 0 && s[|s| - 1] != '\0' ==> r == s
  {
    if |s| > 0 && s[|s| - 1] == '\0' then TrimTrailingNuls(s[..|s| - 1]) else s
  }

  /** The digits after the sign: `None` unless there is at least one digit and
      nothing else, and unless the value fits in 32 bits (`OverflowException`). */
  function SignedValue(digits: string, negative: bool): (r: Option<int>)
    ensures r.Some? ==> Int32Min <= r.value <= Int32Max
    ensures r.Some? ==> 1 <= |digits| && AllDigits(digits)
  {
    if |digits| == 0 || !AllDigits(digits) then None
    else
      var v: int := if negative then -(DigitsValue(digits) as int) else DigitsValue(digits);
      if Int32Min <= v <= Int32Max then Some(v) else None
  }

  /** `int.Parse(s)`: surrounding white space, an optional sign, then decimal
      digits, and after the trailing white space any number of U+0000
      characters; `None` stands for the `FormatException` or
      `OverflowException`. */
  function ParseInt32(s: string): (r: Option<int>)
    ensures r.Some? ==> Int32Min <= r.value <= Int32Max
  {
    var t := TrimEnd(TrimStart(TrimTrailingNuls(s)));
    if |t| > 0 && t[0] == '-' then SignedValue(t[1..], true)
    else if |t| > 0 && t[0] == '+' then SignedValue(t[1..], false)
    else SignedValue(t, false)
  }

  /** A formatted number ends in a digit, so none of the trimming touches it. */
  lemma FormatIsTrimmed(n: int)
    ensures TrimTrailingNuls(IntToString(n)) == IntToString(n)
    ensures TrimEnd(TrimStart(IntToString(n))) == IntToString(n)
  {
    var s := IntToString(n);
    IntToStringShape(n);
    var d := if n < 0 then Digits(-n) else Digits(n);
    assert s[|s| - 1] == d[|d| - 1];
    assert IsDigit(s[|s| - 1]);
    assert !IsWhite(s[0]);
    assert TrimStart(s) == s;
  }

  /** Parsing what was formatted gives the number back, for every 32-bit value. */
  lemma ParseOfFormat(n: int)
    requires Int32Min <= n <= Int32Max
    ensures ParseInt32(IntToString(n)) == Some(n)
  {
    FormatIsTrimmed(n);
    if n < 0 {
      IntToStringShape(n);
      DigitsValueOfDigits(-n);
    } else {
      DigitsValueOfDigits(n);
    }
  }

  /** Trailing U+0000 characters are accepted after the trailing white space,
      but not before it: "5 \0\0" reads as 5, "5\0 " is refused. */
  lemma TrailingNulsAfterWhiteSpace()
    ensures ParseInt32("5 \0\0") == Some(5)
    ensures ParseInt32("5\0 ") == None
  {
    assert TrimTrailingNuls("5 \0\0") == "5 " by {
      assert "5 \0\0"[..3] == "5 \0";
      assert "5 \0"[..2] == "5 ";
    }
    assert TrimEnd("5 ") == "5" by {
      assert "5 "[..1] == "5";
    }
    assert DigitsValue("5") == 5 by {
      assert "5"[..0] == "";
    }
    assert TrimTrailingNuls("5\0 ") == "5\0 ";
    assert TrimEnd("5\0 ") == "5\0" by {
      assert "5\0 "[..2] == "5\0";
    }
    assert !AllDigits("5\0") by {
      assert !IsDigit("5\0"[1]);
    }
  }

  /** `int.Parse` accepts a leading zero that `ToString` never writes:
      "07" reads as 7, yet no number prints as "07". */
  lemma LeadingZeroOnlyParses()
    ensures ParseInt32("07") == Some(7)
    ensures forall n :: IntToString(n) != "07"
  {
    assert "07"[1] != '\0';
    assert TrimTrailingNuls("07") == "07";
    assert TrimStart("07") == "07";
    assert TrimEnd("07") == "07";
    assert DigitsValue("07") == 7 by {
      assert "07"[..1] == "0";
      assert "0"[..0] == "";
    }
  }
}
