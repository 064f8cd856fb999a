/** Decimal text: the formatting go-playground uses for numeric parameters and
    `oneof` on integers (strconv.FormatInt), and the parsing the transaction
    list handler applies to query parameters (strconv.Atoi, 64-bit). */
module Text {
  import opened Base

  const MinInt64: int := -0x8000_0000_0000_0000
  const MaxInt64: int := 0x7FFF_FFFF_FFFF_FFFF
  const TwoTo64: int := 0x1_0000_0000_0000_0000

  /** The value a Go `int` (64-bit two's complement) holds when an arithmetic
      result `x` is stored in it: `x` wrapped into the int64 range. */
  function Wrap64(x: int): (r: int)
    ensures MinInt64 <= r <= MaxInt64
    ensures (x - r) % TwoTo64 == 0
    ensures MinInt64 <= x <= MaxInt64 ==> r == x
  {
    (x - MinInt64) % TwoTo64 + MinInt64
  }

  predicate IsDigit(c: char) { '0' <= c <= '9' }

  predicate AllDigits(s: string)
  {
    forall i :: 0 <= i < |s| ==> IsDigit(s[i])
  }

  function DigitValue(c: char): (d: nat)
    requires IsDigit(c)
    ensures d < 10
  {
    (c as int) - ('0' as int)
  }

  function DigitChar(d: nat): (c: char)
    requires d < 10
    ensures IsDigit(c) && DigitValue(c) == d
  {
    (('0' as int) + d) as char
  }

  /** Shortest decimal rendering of a natural number. */
  function NatToString(n: nat): (s: string)
    ensures 1 <= |s|
    ensures AllDigits(s)
    decreases n
  {
    if n < 10 then [DigitChar(n)] else NatToString(n / 10) + [DigitChar(n % 10)]
  }

  /** The value of a string of decimal digits (most significant first). */
  function DigitsValue(s: string): nat
    requires AllDigits(s)
    decreases |s|
  {
    if |s| == 0 then 0 else 10 * DigitsValue(s[..|s| - 1]) + DigitValue(s[|s| - 1])
  }

  /** strconv.FormatInt(i, 10). */
  function FormatInt(i: int): string
  {
    if i < 0 then "-" + NatToString(-i) else NatToString(i)
  }

  /** strconv.Atoi on a 64-bit platform: an optional sign, then at least one
      decimal digit and nothing else, whose value fits an int64. */
  function Atoi(s: string): (r: Option<int>)
    ensures r.Some? ==> MinInt64 <= r.value <= MaxInt64
    ensures r.Some? ==> 1 <= |s|
  {
    var signed := |s| > 0 && (s[0] == '-' || s[0] == '+');
    var digits := if signed then s[1..] else s;
    if |digits| == 0 || !AllDigits(digits) then None
    else
      var v: int := if signed && s[0] == '-' then 0 - (DigitsValue(digits) as int) else DigitsValue(digits);
      if MinInt64 <= v <= MaxInt64 then Some(v) else None
  }

  /** `parts` separated by `sep`, as strings.Join. */
  function Join(parts: seq<string>, sep: string): string
    decreases |parts|
  {
    if |parts| == 0 then ""
    else if |parts| == 1 then parts[0]
    else parts[0] + sep + Join(parts[1..], sep)
  }

  lemma {:induction false} DigitsValueOfNatToString(n: nat)
    ensures DigitsValue(NatToString(n)) == n
    decreases n
  {
    if n >= 10 {
      var s := NatToString(n / 10);
      var t := NatToString(n);
      assert t == s + [DigitChar(n % 10)];
      assert t[..|t| - 1] == s;
      DigitsValueOfNatToString(n / 10);
    }
  }

  /** Parsing what FormatInt printed gives the number back, for every int64. */
  lemma AtoiFormatInt(n: int)
    requires MinInt64 <= n <= MaxInt64
    ensures Atoi(FormatInt(n)) == Some(n)
  {
    var s := FormatInt(n);
    if n < 0 {
      DigitsValueOfNatToString(-n);
      assert s[1..] == NatToString(-n);
    } else {
      DigitsValueOfNatToString(n);
      var d := NatToString(n);
      assert s == d && IsDigit(d[0]);
    }
  }

  /** Decimal texts of a list of numbers, as written in a `oneof` parameter. */
  function Decimals(ns: seq<int>): (ts: seq<string>)
    ensures |ts| == |ns|
    ensures forall k :: 0 <= k < |ns| ==> ts[k] == FormatInt(ns[k])
  {
    seq(|ns|, k requires 0 <= k < |ns| => FormatInt(ns[k]))
  }

  /** The number a FormatInt text stands for. */
  function SignedValue(s: string): int
    requires 1 <= |s|
    requires s[0] == '-' ==> AllDigits(s[1..])
    requires s[0] != '-' ==> AllDigits(s)
  {
    if s[0] == '-' then 0 - (DigitsValue(s[1..]) as int) else DigitsValue(s)
  }

  lemma FormatIntInverse(i: int)
    ensures 1 <= |FormatInt(i)|
    ensures FormatInt(i)[0] == '-' ==> AllDigits(FormatInt(i)[1..])
    ensures FormatInt(i)[0] != '-' ==> AllDigits(FormatInt(i))
    ensures SignedValue(FormatInt(i)) == i
  {
    var s := FormatInt(i);
    if i < 0 {
      assert s[1..] == NatToString(-i);
      DigitsValueOfNatToString(-i);
    } else {
      assert IsDigit(s[0]);
      DigitsValueOfNatToString(i);
    }
  }

  /** Different numbers have different decimal texts. */
  lemma FormatIntInjective(a: int, b: int)
    requires FormatInt(a) == FormatInt(b)
    ensures a == b
  {
    FormatIntInverse(a);
    FormatIntInverse(b);
  }

  /** An integer's text is among the texts of `ns` exactly when it is among `ns`. */
  lemma FormatIntInDecimals(i: int, ns: seq<int>)
    ensures FormatInt(i) in Decimals(ns) <==> i in ns
  {
    var ts := Decimals(ns);
    if FormatInt(i) in ts {
      var k :| 0 <= k < |ts| && ts[k] == FormatInt(i);
      FormatIntInjective(i, ns[k]);
    }
    if i in ns {
      var k :| 0 <= k < |ns| && ns[k] == i;
      assert ts[k] == FormatInt(i);
    }
  }
}
