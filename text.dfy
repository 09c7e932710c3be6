/** Text and number formatting as Rust's `Display`, `str::parse`, `join`, `split`
    and the `{:>w}` / `{:0>w}` format specifiers behave, plus Rust's truncating
    integer division. */
module Text {
  import opened Wrappers

  const U64_MAX: nat := 0xFFFF_FFFF_FFFF_FFFF
  const I64_MAX: int := 0x7FFF_FFFF_FFFF_FFFF
  const I64_MIN: int := -0x8000_0000_0000_0000

  predicate IsDigit(c: char) { '0' <= c <= '9' }

  predicate AllDigits(s: string) { forall i :: 0 <= i < |s| ==> IsDigit(s[i]) }

  function DigitChar(d: nat): (c: char)
    requires d < 10
    ensures IsDigit(c) && DigitValue(c) == d
  {
    (('0' as int) + d) as char
  }

  function DigitValue(c: char): (d: nat)
    requires IsDigit(c)
    ensures d < 10
  {
    c as int - '0' as int
  }

  /** Decimal rendering of a natural number, as `format!("{}", n)`. */
  function NatToStr(n: nat): (s: string)
    ensures |s| >= 1 && AllDigits(s)
    ensures |s| > 1 ==> s[0] != '0'
    ensures n < 10 <==> |s| == 1
  {
    if n < 10 then [DigitChar(n)] else NatToStr(n / 10) + [DigitChar(n % 10)]
  }

  /** Decimal rendering of a (possibly negative) integer. */
  function IntToStr(i: int): (s: string)
    ensures |s| >= 1
    ensures i < 0 <==> s[0] == '-'
  {
    if i < 0 then "-" + NatToStr(-i) else NatToStr(i)
  }

  /** The value of a decimal digit string, most significant digit first. */
  function DigitsValue(s: string): nat
    requires AllDigits(s)
  {
    if |s| == 0 then 0 else DigitsValue(s[..|s| - 1]) * 10 + DigitValue(s[|s| - 1])
  }

  lemma {:induction false} DigitsValueOfNatToStr(n: nat)
    ensures DigitsValue(NatToStr(n)) == n
  {
    if n >= 10 {
      var s := NatToStr(n);
      assert s[..|s| - 1] == NatToStr(n / 10);
      DigitsValueOfNatToStr(n / 10);
    }
  }

  /** A canonical digit string (no leading zero) is the rendering of its value. */
  lemma {:induction false} NatToStrOfDigitsValue(s: string)
    requires |s| >= 1 && AllDigits(s) && (|s| > 1 ==> s[0] != '0')
    ensures NatToStr(DigitsValue(s)) == s
    decreases |s|
  {
    if |s| > 1 {
      var p := s[..|s| - 1];
      NatToStrOfDigitsValue(p);
      DigitsValuePositive(p);
      var v := DigitsValue(s);
      assert v / 10 == DigitsValue(p);
      assert v % 10 == DigitValue(s[|s| - 1]);
      assert DigitChar(DigitValue(s[|s| - 1])) == s[|s| - 1];
      assert s == p + [s[|s| - 1]];
    } else {
      assert DigitsValue(s) == DigitsValue(s[..0]) * 10 + DigitValue(s[0]);
      assert DigitChar(DigitValue(s[0])) == s[0];
    }
  }

  lemma {:induction false} DigitsValuePositive(s: string)
    requires |s| >= 1 && AllDigits(s) && s[0] != '0'
    ensures DigitsValue(s) >= 1
    decreases |s|
  {
    if |s| > 1 {
      DigitsValuePositive(s[..|s| - 1]);
    } else {
      assert DigitsValue(s) == DigitsValue(s[..0]) * 10 + DigitValue(s[0]);
    }
  }

  /** `str::parse::<u64>()`: optional leading '+', then at least one decimal digit,
      value at most 2^64 - 1; anything else is an error (None). */
  function ParseU64(s: string): (r: Option<nat>)
    ensures r.Some? ==> r.value <= U64_MAX
    ensures |s| == 0 ==> r.None?
  {
    var digits := if |s| > 0 && s[0] == '+' then s[1..] else s;
    if |digits| == 0 || !AllDigits(digits) then None
    else if DigitsValue(digits) <= U64_MAX then Some(DigitsValue(digits))
    else None
  }

  /** Parsing the rendering of any u64 gives it back. */
  lemma ParseU64OfNatToStr(n: nat)
    requires n <= U64_MAX
    ensures ParseU64(NatToStr(n)) == Some(n)
  {
    DigitsValueOfNatToStr(n);
  }

  /** A string holding a character other than a digit or a leading '+' never parses. */
  lemma ParseU64RejectsNonDigit(s: string, i: nat)
    requires i < |s| && !IsDigit(s[i]) && !(i == 0 && s[i] == '+')
    ensures ParseU64(s).None?
  {
    if |s| > 0 && s[0] == '+' {
      assert s[1..][i - 1] == s[i];
    }
  }

  /** `str::parse::<i64>()`: optional sign, at least one digit, in i64 range. */
  function ParseI64(s: string): (r: Option<int>)
    ensures r.Some? ==> I64_MIN <= r.value <= I64_MAX
  {
    if |s| > 0 && s[0] == '-' then
      var digits := s[1..];
      if |digits| == 0 || !AllDigits(digits) || DigitsValue(digits) > -I64_MIN then None
      else Some(0 - DigitsValue(digits) as int)
    else
      var digits := if |s| > 0 && s[0] == '+' then s[1..] else s;
      if |digits| == 0 || !AllDigits(digits) || DigitsValue(digits) > I64_MAX then None
      else Some(DigitsValue(digits))
  }

  lemma ParseI64OfIntToStr(i: int)
    requires I64_MIN <= i <= I64_MAX
    ensures ParseI64(IntToStr(i)) == Some(i)
  {
    if i < 0 {
      var d := NatToStr(-i);
      assert IntToStr(i) == "-" + d;
      DigitsValueOfNatToStr(-i);
      ParseNegative(d);
    } else {
      var d := NatToStr(i);
      assert IntToStr(i) == d;
      DigitsValueOfNatToStr(i);
      ParseUnsigned(d);
    }
  }

  lemma ParseNegative(d: string)
    requires |d| > 0 && AllDigits(d) && DigitsValue(d) <= -I64_MIN
    ensures ParseI64("-" + d) == Some(0 - DigitsValue(d) as int)
  {
    var s := "-" + d;
    assert s[0] == '-' && s[1..] == d;
  }

  lemma ParseUnsigned(d: string)
    requires |d| > 0 && AllDigits(d) && DigitsValue(d) <= I64_MAX
    ensures ParseI64(d) == Some(DigitsValue(d))
  {
    assert IsDigit(d[0]);
  }

  /** Rust's `/` on signed integers: rounds toward zero. */
  function TDiv(a: int, b: int): int
    requires b > 0
  {
    if a >= 0 then a / b else -((-a) / b)
  }

  /** Rust's `%` on signed integers: the remainder takes the sign of the dividend. */
  function TRem(a: int, b: int): (r: int)
    requires b > 0
  {
    a - b * TDiv(a, b)
  }

  lemma TruncatingDivision(a: int, b: int)
    requires b > 0
    ensures a == b * TDiv(a, b) + TRem(a, b)
    ensures a >= 0 ==> 0 <= TRem(a, b) < b && TDiv(a, b) == a / b
    ensures a < 0 ==> -b < TRem(a, b) <= 0 && TDiv(a, b) <= 0
  {
    if a < 0 {
      var q, m := (-a) / b, (-a) % b;
      assert -a == b * q + m;
      assert TRem(a, b) == -m;
    }
  }

  /** `iter.join(sep)`. */
  function Join(parts: seq<string>, sep: string): (r: string)
    ensures |parts| == 0 ==> r == ""
  {
    if |parts| == 0 then ""
    else if |parts| == 1 then parts[0]
    else parts[0] + sep + Join(parts[1..], sep)
  }

  /** `s.split(c).collect()`: always at least one piece; an empty string gives [""]. */
  function Split(s: string, c: char): (r: seq<string>)
    ensures |r| >= 1
    ensures forall i :: 0 <= i < |r| ==> c !in r[i]
  {
    if |s| == 0 then [""]
    else
      var rest := Split(s[1..], c);
      if s[0] == c then [""] + rest else [[s[0]] + rest[0]] + rest[1..]
  }

  lemma {:induction false} SplitNoSep(p: string, c: char)
    requires c !in p
    ensures Split(p, c) == [p]
    decreases |p|
  {
    if |p| > 0 {
      SplitNoSep(p[1..], c);
      assert [p[0]] + p[1..] == p;
    }
  }

  lemma {:induction false} SplitAfterSep(p: string, c: char, t: string)
    requires c !in p
    ensures Split(p + [c] + t, c) == [p] + Split(t, c)
    decreases |p|
  {
    var s := p + [c] + t;
    if |p| == 0 {
      assert s[1..] == t;
    } else {
      assert s[1..] == p[1..] + [c] + t;
      SplitAfterSep(p[1..], c, t);
      assert [p[0]] + p[1..] == p;
    }
  }

  /** Splitting a join on a separator that occurs in no part gives back the parts. */
  lemma {:induction false} SplitJoin(parts: seq<string>, c: char)
    requires |parts| >= 1
    requires forall i :: 0 <= i < |parts| ==> c !in parts[i]
    ensures Split(Join(parts, [c]), c) == parts
    decreases |parts|
  {
    if |parts| == 1 {
      SplitNoSep(parts[0], c);
    } else {
      SplitJoin(parts[1..], c);
      SplitAfterSep(parts[0], c, Join(parts[1..], [c]));
      assert [parts[0]] + parts[1..] == parts;
    }
  }

  function Repeat(c: char, n: nat): (r: string)
    ensures |r| == n && forall i :: 0 <= i < n ==> r[i] == c
  {
    if n == 0 then "" else [c] + Repeat(c, n - 1)
  }

  /** `format!("{:fill>width$}", s)`: right-aligns s in a field of `width` characters. */
  function PadLeft(s: string, width: nat, fill: char): (r: string)
    ensures |r| == if |s| >= width then |s| else width
    ensures r[|r| - |s|..] == s
    ensures forall i :: 0 <= i < |r| - |s| ==> r[i] == fill
  {
    if |s| >= width then s else Repeat(fill, width - |s|) + s
  }

  /** Zeros in front of a digit string do not change its value. */
  lemma {:induction false} DigitsValueLeadingZeros(z: nat, s: string)
    requires AllDigits(s)
    ensures AllDigits(Repeat('0', z) + s) && DigitsValue(Repeat('0', z) + s) == DigitsValue(s)
    decreases |s|
  {
    var t := Repeat('0', z) + s;
    if |s| == 0 {
      assert t == Repeat('0', z);
      AllZeros(z);
    } else {
      assert t[..|t| - 1] == Repeat('0', z) + s[..|s| - 1];
      DigitsValueLeadingZeros(z, s[..|s| - 1]);
    }
  }

  lemma {:induction false} AllZeros(z: nat)
    ensures AllDigits(Repeat('0', z)) && DigitsValue(Repeat('0', z)) == 0
  {
    if z > 0 {
      var t := Repeat('0', z);
      assert t[..z - 1] == Repeat('0', z - 1);
      AllZeros(z - 1);
    }
  }

  /** A number below 10000 has at most four digits. */
  lemma NatToStrAtMostFour(n: nat)
    requires n < 10000
    ensures |NatToStr(n)| <= 4
  {
    if n >= 10 {
      assert NatToStr(n) == NatToStr(n / 10) + [DigitChar(n % 10)];
      if n / 10 >= 10 {
        assert NatToStr(n / 10) == NatToStr(n / 100) + [DigitChar(n / 10 % 10)];
        if n / 100 >= 10 {
          assert NatToStr(n / 100) == NatToStr(n / 1000) + [DigitChar(n / 100 % 10)];
        }
      }
    }
  }

  /** A character that is neither a digit nor '-' never occurs in a decimal
      rendering, so it can separate such renderings. */
  lemma SeparatorNotInDecimal(i: int, c: char)
    requires !IsDigit(c) && c != '-'
    ensures c !in IntToStr(i)
  {
    var s := IntToStr(i);
    if i >= 0 {
      assert s == NatToStr(i);
      assert AllDigits(s);
    } else {
      assert s == "-" + NatToStr(0 - i);
      assert AllDigits(s[1..]);
    }
  }
}
