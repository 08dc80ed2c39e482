/**
  Filesystem locations as `pathlib.Path` holds them once parsed, and Python's `str` of an
  integer, which the Zarr reader appends to a location as one more component.
 */
module Paths {
  import opened Wrappers

  /** A location: its sequence of components (`a/b/0` is `["a", "b", "0"]`). */
  type Path = seq<string>

  /** A name `joinpath` appends as exactly one component: non-empty, not `.`, no separator. */
  predicate IsPlainName(s: string)
  {
    |s| > 0 && s != "." && '/' !in s
  }

  /** `Path(p).joinpath(name)` for a plain name. */
  function JoinPath(p: Path, name: string): (r: Path)
    requires IsPlainName(name)
    ensures |r| == |p| + 1 && r[..|p|] == p && r[|p|] == name
  {
    p + [name]
  }

  predicate IsDigit(c: char)
  {
    '0' <= c <= '9'
  }

  predicate AllDigits(s: string)
  {
    forall i :: 0 <= i < |s| ==> IsDigit(s[i])
  }

  function DigitChar(d: nat): (c: char)
    requires d < 10
    ensures IsDigit(c)
  {
    ('0' as int + d) as char
  }

  function DigitValue(c: char): (d: nat)
    requires IsDigit(c)
    ensures d < 10 && DigitChar(d) == c
  {
    (c as int - '0' as int) as nat
  }

  /** Decimal digits of `n`, most significant first, without leading zeros. */
  function Digits(n: nat): (s: string)
    ensures |s| > 0 && AllDigits(s)
    ensures |s| > 1 ==> s[0] != '0'
    decreases n
  {
    if n < 10 then [DigitChar(n)] else Digits(n / 10) + [DigitChar(n % 10)]
  }

  /** Python's `str(n)` for an `int`. */
  function IntToString(n: int): (s: string)
    ensures |s| > 0
    ensures n < 0 <==> s[0] == '-'
    ensures n < 0 ==> |s| > 1 && AllDigits(s[1..])
    ensures n >= 0 ==> AllDigits(s)
    ensures IsPlainName(s)
  {
    if n < 0 then "-" + Digits(-n) else Digits(n)
  }

  /** Python's `str(m)` for an `Optional[int]`: `None` prints as `"None"`. */
  function OptionalIntToString(m: Option<int>): (s: string)
    ensures IsPlainName(s)
    ensures m.None? <==> s == "None"
  {
    match m
    case None => "None"
    case Some(n) => IntToString(n)
  }

  /** Value of a string of decimal digits. */
  function ParseDigits(s: string): nat
    requires AllDigits(s)
  {
    if |s| == 0 then 0 else ParseDigits(s[..|s| - 1]) * 10 + DigitValue(s[|s| - 1])
  }

  /** Python's `int(s)` restricted to an optional minus sign followed by decimal digits. */
  function ParseInt(s: string): Option<int>
  {
    if |s| > 1 && s[0] == '-' && AllDigits(s[1..]) then Some(-(ParseDigits(s[1..]) as int))
    else if |s| > 0 && AllDigits(s) then Some(ParseDigits(s))
    else None
  }

  lemma {:induction false} DigitsRoundTrip(n: nat)
    ensures ParseDigits(Digits(n)) == n
    decreases n
  {
    if n >= 10 {
      var s := Digits(n);
      assert s[..|s| - 1] == Digits(n / 10);
      DigitsRoundTrip(n / 10);
    }
  }

  /** `str` of an integer reads back as that integer. */
  lemma IntToStringRoundTrip(n: int)
    ensures ParseInt(IntToString(n)) == Some(n)
  {
    var s := IntToString(n);
    if n < 0 {
      var digits := Digits(-n);
      assert s[0] == '-' && s[1..] == digits;
      DigitsRoundTrip(-n);
      assert ParseInt(s) == Some(-(ParseDigits(digits) as int));
    } else {
      assert IsDigit(s[0]);
      DigitsRoundTrip(n);
    }
  }

  /** Distinct integers print differently. */
  lemma IntToStringInjective(a: int, b: int)
    requires IntToString(a) == IntToString(b)
    ensures a == b
  {
    IntToStringRoundTrip(a);
    IntToStringRoundTrip(b);
  }

  /** `str(None)` is not the string of any integer level. */
  lemma NoneIsNotAnIntString(n: int)
    ensures OptionalIntToString(None) != IntToString(n)
  {
    IntToStringRoundTrip(n);
    assert ParseInt("None") == None by {
      assert !IsDigit("None"[0]);
    }
  }
}
