/** Decimal numerals: what `to_string` writes for an unsigned number and what `int` reads back. */
module Decimal {
  import opened Basics

  function Digit(d: nat): char
    requires d < 10
  {
    ['0', '1', '2', '3', '4', '5', '6', '7', '8', '9'][d]
  }

  function ToString(x: nat): (s: string)
    ensures s != []
  {
    if x < 10 then [Digit(x)] else ToString(x / 10) + [Digit(x % 10)]
  }

  predicate IsDigit(c: char)
  {
    '0' <= c <= '9'
  }

  /** The number that a non-empty run of digits denotes. */
  function ParseNat(s: string): Option<nat>
  {
    if s == [] || !IsDigit(s[|s| - 1]) then
      None
    else
      var d := (s[|s| - 1] - '0') as nat;
      if |s| == 1 then
        Some(d)
      else
        match ParseNat(s[..|s| - 1])
        case None => None
        case Some(x) => Some(10 * x + d)
  }

  /** Digits with an optional sign; `None` is the reader's ValueError. */
  function ParseInt(s: string): Option<int>
  {
    if s != [] && s[0] in ['+', '-'] then
      match ParseNat(s[1..])
      case None => None
      case Some(x) => var v: int := x; Some(if s[0] == '-' then -v else v)
    else
      match ParseNat(s)
      case None => None
      case Some(x) => Some(x)
  }

  // ---- What a numeral is and what it denotes, digit by digit ----

  /** A non-empty run of digits. */
  predicate Digits(s: string)
  {
    s != [] && forall y :: 0 <= y < |s| ==> '0' <= s[y] <= '9'
  }

  /** An optional sign, and digits. */
  predicate IsNumeral(s: string)
  {
    Digits(s) || (s != [] && (s[0] == '+' || s[0] == '-') && Digits(s[1..]))
  }

  function Power(e: nat): (p: nat)
    ensures p > 0
  {
    if e == 0 then 1 else 10 * Power(e - 1)
  }

  /** `s` writes `v`: its digit at place `y`, counted from the end, is that of `v`, and `v` has no more places. */
  ghost predicate Writes(s: string, v: nat)
  {
    && Digits(s) && v < Power(|s|)
    && forall y :: 0 <= y < |s| ==> (s[|s| - 1 - y] - '0') as int == v / Power(y) % 10
  }

  /** `s` denotes `v`. */
  ghost predicate Denotes(s: string, v: int)
  {
    if s != [] && s[0] == '-' then
      v <= 0 && Writes(s[1..], -v)
    else if s != [] && s[0] == '+' then
      v >= 0 && Writes(s[1..], v)
    else
      v >= 0 && Writes(s, v)
  }

  lemma AtLeastOnce(z: int, b: int)
    requires b >= 0
    ensures z >= 1 ==> z * b >= b
    ensures z <= -1 ==> z * b <= -b
  {
    if z >= 1 {
      assert z * b == b + (z - 1) * b;
    } else if z <= -1 {
      assert z * b == -b + (z + 1) * b;
    }
  }

  lemma Quotient(a: nat, b: nat, q: nat, r: nat)
    requires a == q * b + r && r < b
    ensures a / b == q
  {
    assert a / b * b + a % b == a;
    assert (a / b - q) * b == a / b * b - q * b;
    AtLeastOnce(a / b - q, b);
  }

  /** Dropping the last digit moves the others by one place. */
  lemma NextPlace(x: nat, d: nat, p: nat)
    requires d < 10 && p > 0
    ensures (10 * x + d) / (10 * p) == x / p
  {
    var q, r := x / p, x % p;
    assert x == q * p + r;
    assert 10 * x + d == q * (10 * p) + (10 * r + d);
    Quotient(10 * x + d, 10 * p, q, 10 * r + d);
  }

  lemma {:induction false} ParseNatMeans(s: string)
    ensures ParseNat(s).Some? <==> Digits(s)
    ensures ParseNat(s).Some? ==> Writes(s, ParseNat(s).value)
    decreases |s|
  {
    if s != [] && IsDigit(s[|s| - 1]) {
      var init, d := s[..|s| - 1], (s[|s| - 1] - '0') as nat;
      assert s == init + [s[|s| - 1]];
      if |s| > 1 {
        ParseNatMeans(init);
        hide Writes, Digits;
        LastDigit(init, s[|s| - 1]);
        if ParseNat(init).Some? {
          OneMoreDigit(init, s[|s| - 1], ParseNat(init).value);
        }
      } else {
        OneDigit(s, d);
      }
    }
  }

  lemma LastDigit(init: string, c: char)
    requires init != [] && IsDigit(c)
    ensures Digits(init + [c]) <==> Digits(init)
  {
    assert forall y :: 0 <= y < |init| ==> (init + [c])[y] == init[y];
  }

  lemma OneDigit(s: string, d: nat)
    requires |s| == 1 && IsDigit(s[0]) && d == (s[0] - '0') as int
    ensures Writes(s, d)
  {
    assert Power(0) == 1 && Power(1) == 10;
  }

  lemma OneMoreDigit(init: string, c: char, x: nat)
    requires Writes(init, x) && '0' <= c <= '9'
    ensures Writes(init + [c], 10 * x + (c - '0') as nat)
  {
    var s, d := init + [c], (c - '0') as nat;
    forall y | 0 <= y < |s|
      ensures (s[|s| - 1 - y] - '0') as int == (10 * x + d) / Power(y) % 10
    {
      if y > 0 {
        NextPlace(x, d, Power(y - 1));
        assert s[|s| - 1 - y] == init[|init| - 1 - (y - 1)];
      }
    }
  }

  /** A word is read as a number if and only if it is a numeral, and as the number that it denotes. */
  lemma ParseMeans(s: string)
    ensures ParseInt(s).Some? <==> IsNumeral(s)
    ensures ParseInt(s).Some? ==> Denotes(s, ParseInt(s).value)
  {
    ParseNatMeans(s);
    if s != [] {
      ParseNatMeans(s[1..]);
    }
    hide Power;
  }

  /** A number is written in its own digits, without leading zeros. */
  lemma {:induction false} Written(x: nat)
    ensures Writes(ToString(x), x) && (ToString(x)[0] == '0' ==> x == 0 && |ToString(x)| == 1)
  {
    ParseToString(x);
    ParseNatMeans(ToString(x));
    NoLeadingZero(x);
  }

  lemma {:induction false} NoLeadingZero(x: nat)
    ensures ToString(x)[0] == '0' ==> x == 0 && |ToString(x)| == 1
  {
    if x >= 10 {
      NoLeadingZero(x / 10);
      assert ToString(x)[0] == ToString(x / 10)[0];
    }
  }

  lemma {:induction false} ParseToString(x: nat)
    ensures ParseNat(ToString(x)) == Some(x) && IsDigit(ToString(x)[0])
  {
    if x >= 10 {
      var s := ToString(x);
      assert s[..|s| - 1] == ToString(x / 10);
      ParseToString(x / 10);
      assert x == 10 * (x / 10) + x % 10;
    }
  }

  /** Reading back a written number gives the number. */
  lemma ReadBack(x: nat)
    ensures ParseInt(ToString(x)) == Some(x)
  {
    ParseToString(x);
  }
}
