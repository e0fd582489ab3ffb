/** The java.lang string operations the server relies on: decimal printing
    (String.valueOf(int)) and parsing (Integer.parseInt), String.split on a
    comma, and ASCII case mapping (toUpperCase, equalsIgnoreCase). */
module Text {

  import opened Wrappers
  import opened Records

  // ---------------------------------------------------------------------
  // Case

  /** Character.toUpperCase on the ASCII letters. */
  function UpperChar(ch: char): char
  {
    if 'a' <= ch <= 'z' then (ch as int - 'a' as int + 'A' as int) as char else ch
  }

  /** String.toUpperCase, one character at a time. */
  function ToUpper(s: string): (r: string)
    ensures |r| == |s| && forall i :: 0 <= i < |s| ==> r[i] == UpperChar(s[i])
  {
    if s == [] then [] else [UpperChar(s[0])] + ToUpper(s[1..])
  }

  lemma ToUpperIdempotent(s: string)
    ensures ToUpper(ToUpper(s)) == ToUpper(s)
  {
    var u := ToUpper(s);
    assert forall i :: 0 <= i < |u| ==> UpperChar(u[i]) == u[i];
  }

  /** String.equalsIgnoreCase, on ASCII letters. */
  predicate EqualsIgnoreCase(s: string, t: string)
  {
    ToUpper(s) == ToUpper(t)
  }

  // ---------------------------------------------------------------------
  // Decimal numbers

  predicate IsDigit(ch: char)
  {
    '0' <= ch <= '9'
  }

  predicate AllDigits(s: string)
  {
    forall i :: 0 <= i < |s| ==> IsDigit(s[i])
  }

  function DigitChar(d: int): char
    requires 0 <= d < 10
  {
    ('0' as int + d) as char
  }

  /** The decimal digits of `n`, most significant first, without leading zeros. */
  function NatToString(n: nat): (s: string)
    ensures |s| >= 1 && AllDigits(s)
    decreases n
  {
    if n < 10 then [DigitChar(n)] else NatToString(n / 10) + [DigitChar(n % 10)]
  }

  /** The value of a digit string, read most significant first. */
  function DigitsValue(s: string): nat
    requires AllDigits(s)
  {
    if s == [] then 0 else DigitsValue(s[..|s| - 1]) * 10 + (s[|s| - 1] as int - '0' as int)
  }

  lemma {:induction false} DigitsRoundTrip(n: nat)
    ensures DigitsValue(NatToString(n)) == n
  {
    if n >= 10 {
      var s := NatToString(n / 10);
      DigitsRoundTrip(n / 10);
      assert (s + [DigitChar(n % 10)])[..|s|] == s;
    }
  }

  /** String.valueOf(int): a minus sign for negatives, then the digits. */
  function IntToString(n: int): string
  {
    if n < 0 then "-" + NatToString(-n) else NatToString(n)
  }

  /** Integer.parseInt: an optional sign, then one or more ASCII digits,
      with a value in the int range; anything else is a NumberFormatException. */
  function ParseInt(s: string): Option<Int32>
  {
    if s == [] then None
    else
      var digits := if s[0] == '-' || s[0] == '+' then s[1..] else s;
      if digits == [] || !AllDigits(digits) then None
      else
        var v: int := if s[0] == '-' then -(DigitsValue(digits) as int) else DigitsValue(digits);
        if MinInt32 as int <= v <= MaxInt32 as int then Some(v as Int32) else None
  }

  /** Printing an int and parsing it back gives the int. */
  lemma ParseIntToString(n: Int32)
    ensures ParseInt(IntToString(n as int)) == Some(n)
  {
    var s := IntToString(n as int);
    if n < 0 {
      DigitsRoundTrip(-(n as int));
      assert s[1..] == NatToString(-(n as int));
    } else {
      DigitsRoundTrip(n as int);
    }
  }

  /** The printed form starts with a minus sign exactly when the int is negative. */
  lemma IntToStringSign(n: int)
    ensures (IntToString(n)[0] == '-') == (n < 0)
  {
    if n >= 0 {
      assert IsDigit(NatToString(n)[0]);
    }
  }

  lemma NatToStringInjective(m: nat, n: nat)
    requires NatToString(m) == NatToString(n)
    ensures m == n
  {
    DigitsRoundTrip(m);
    DigitsRoundTrip(n);
  }

  /** Distinct ints print differently, whatever their size. */
  lemma IntToStringInjective(a: int, b: int)
    requires IntToString(a) == IntToString(b)
    ensures a == b
  {
    IntToStringSign(a);
    IntToStringSign(b);
    if a < 0 {
      var sa, sb := NatToString(-a), NatToString(-b);
      assert IntToString(a) == "-" + sa && IntToString(b) == "-" + sb;
      assert sa == IntToString(a)[1..] && sb == IntToString(b)[1..];
      NatToStringInjective(-a, -b);
    } else {
      NatToStringInjective(a, b);
    }
  }

  // ---------------------------------------------------------------------
  // String.split(",")

  predicate CommaFree(s: string)
  {
    forall i :: 0 <= i < |s| ==> s[i] != ','
  }

  /** Every field between commas, empty ones included. */
  function SplitAll(s: string): (r: seq<string>)
    ensures |r| >= 1
  {
    if s == [] then [[]]
    else
      var rest := SplitAll(s[1..]);
      if s[0] == ',' then [[]] + rest else [[s[0]] + rest[0]] + rest[1..]
  }

  function DropTrailingEmpty(parts: seq<string>): seq<string>
  {
    if parts != [] && parts[|parts| - 1] == [] then DropTrailingEmpty(parts[..|parts| - 1]) else parts
  }

  /** String.split(","): without a comma the string itself; otherwise the
      fields with the trailing empty ones removed. */
  function Split(s: string): seq<string>
  {
    if CommaFree(s) then [s] else DropTrailingEmpty(SplitAll(s))
  }

  lemma {:induction false} SplitAllCommaFree(x: string, t: string)
    requires CommaFree(x)
    ensures SplitAll(x + t) == [x + SplitAll(t)[0]] + SplitAll(t)[1..]
  {
    if x != [] {
      assert x[0] != ',';
      assert (x + t)[0] == x[0] && (x + t)[1..] == x[1..] + t;
      SplitAllCommaFree(x[1..], t);
      var rest := SplitAll(x[1..] + t);
      assert rest[0] == x[1..] + SplitAll(t)[0];
      assert rest[1..] == SplitAll(t)[1..];
      assert [x[0]] + (x[1..] + SplitAll(t)[0]) == x + SplitAll(t)[0];
    } else {
      assert x + t == t;
      assert x + SplitAll(t)[0] == SplitAll(t)[0];
    }
  }

  /** Splitting "a,b" with comma-free fields and a non-empty last one gives back the fields. */
  lemma SplitPair(a: string, b: string)
    requires CommaFree(a) && CommaFree(b) && b != []
    ensures Split(a + "," + b) == [a, b]
  {
    var s := a + "," + b;
    assert s[|a|] == ',';
    SplitAllCommaFree(b, []);
    assert b + [] == b;
    assert SplitAll(b) == [b];
    assert SplitAll("," + b) == [[]] + [b] by {
      assert ("," + b)[1..] == b;
    }
    SplitAllCommaFree(a, "," + b);
    assert a + [] == a;
    assert a + "," + b == a + ("," + b);
    assert SplitAll(s) == [a, b];
  }
}
