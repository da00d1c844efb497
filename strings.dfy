/** String tests the engine applies to parameter ids, labels and class names,
    and the decimal conversions it relies on (int.ToString, Convert.ToInt32). */
module Strings {

  datatype Option<+T> = None | Some(value: T)

  /** Largest value of a 32-bit signed integer (int.MaxValue). */
  const Int32Max: int := 0x7fff_ffff

  /** Ordinal substring test, as String.Contains(string): the empty string
      occurs in every string. */
  predicate Contains(s: string, t: string)
    decreases |s|
  {
    if |t| > |s| then false
    else if s[..|t|] == t then true
    else Contains(s[1..], t)
  }

  /** t occurs in s starting at position i. */
  predicate OccursAt(s: string, t: string, i: int)
  {
    0 <= i <= |s| - |t| && s[i..i + |t|] == t
  }

  /** The recursive test agrees with "t occurs at some position of s". */
  lemma {:induction false} ContainsIff(s: string, t: string)
    ensures Contains(s, t) <==> exists i :: OccursAt(s, t, i)
    decreases |s|
  {
    if |t| > |s| {
    } else if s[..|t|] == t {
      assert OccursAt(s, t, 0);
    } else {
      ContainsIff(s[1..], t);
      if Contains(s, t) {
        var i :| OccursAt(s[1..], t, i);
        assert s[i + 1..i + 1 + |t|] == s[1..][i..i + |t|];
        assert OccursAt(s, t, i + 1);
      } else {
        forall i | 0 <= i <= |s| - |t|
          ensures !OccursAt(s, t, i)
        {
          if i > 0 {
            assert s[i..i + |t|] == s[1..][i - 1..i - 1 + |t|];
            assert !OccursAt(s[1..], t, i - 1);
          }
        }
      }
    }
  }

  /** An occurrence at a known position is an occurrence. */
  lemma ContainsAt(s: string, t: string, i: int)
    requires OccursAt(s, t, i)
    ensures Contains(s, t)
  {
    ContainsIff(s, t);
  }

  /** An occurrence inside the left operand survives appending on the right. */
  lemma ContainsInPrefix(a: string, b: string, t: string)
    requires Contains(a, t)
    ensures Contains(a + b, t)
  {
    ContainsIff(a, t);
    var i :| OccursAt(a, t, i);
    assert (a + b)[i..i + |t|] == a[i..i + |t|];
    assert OccursAt(a + b, t, i);
    ContainsIff(a + b, t);
  }

  /** An occurrence inside the right operand survives prepending on the left. */
  lemma ContainsInSuffix(a: string, b: string, t: string)
    requires Contains(b, t)
    ensures Contains(a + b, t)
  {
    ContainsIff(b, t);
    var i :| OccursAt(b, t, i);
    assert (a + b)[|a| + i..|a| + i + |t|] == b[i..i + |t|];
    assert OccursAt(a + b, t, |a| + i);
    ContainsIff(a + b, t);
  }

  /** A string that lacks one character of t cannot contain t. */
  lemma NotContainsMissingChar(s: string, t: string, j: nat)
    requires j < |t|
    requires forall k :: 0 <= k < |s| ==> s[k] != t[j]
    ensures !Contains(s, t)
  {
    ContainsIff(s, t);
    forall i | 0 <= i <= |s| - |t|
      ensures !OccursAt(s, t, i)
    {
      assert s[i..i + |t|][j] == s[i + j] != t[j];
    }
  }

  /** Upper-case mapping of the ASCII letters; every other character maps to itself. */
  function UpperAscii(c: char): char
  {
    if 'a' <= c <= 'z' then (c as int - 32) as char else c
  }

  /** Case-insensitive equality, as String.Equals with OrdinalIgnoreCase
      (restricted to ASCII letters). */
  predicate EqualsIgnoreCase(a: string, b: string)
  {
    |a| == |b| && forall i :: 0 <= i < |a| ==> UpperAscii(a[i]) == UpperAscii(b[i])
  }

  /** Case-insensitive suffix test, as String.EndsWith with InvariantCultureIgnoreCase
      (restricted to ASCII letters). */
  predicate EndsWithIgnoreCase(s: string, suffix: string)
  {
    |suffix| <= |s| && EqualsIgnoreCase(s[|s| - |suffix|..], suffix)
  }

  predicate IsDigit(c: char)
  {
    '0' <= c <= '9'
  }

  predicate AllDigits(s: string)
  {
    forall i :: 0 <= i < |s| ==> IsDigit(s[i])
  }

  /** The longest prefix of s made of digits. */
  function LeadingDigits(s: string): (r: string)
    ensures AllDigits(r) && r <= s
    ensures |r| < |s| ==> !IsDigit(s[|r|])
  {
    if s != [] && IsDigit(s[0]) then [s[0]] + LeadingDigits(s[1..]) else []
  }

  /** The first run of digits in s, "" when s has no digit: the Value of
      Regex.Match(s, @"\d+"). */
  function FirstDigitRun(s: string): (r: string)
    ensures AllDigits(r)
    ensures r == [] <==> forall i :: 0 <= i < |s| ==> !IsDigit(s[i])
  {
    if s == [] then []
    else if IsDigit(s[0]) then LeadingDigits(s)
    else FirstDigitRun(s[1..])
  }

  /** Decimal value of a string of digits, most significant digit first. */
  function DigitsValue(ds: string): nat
    requires AllDigits(ds)
  {
    if ds == [] then 0
    else DigitsValue(ds[..|ds| - 1]) * 10 + (ds[|ds| - 1] as int - '0' as int)
  }

  /** Convert.ToInt32 applied to a run of digits: the empty string raises
      FormatException and a value above Int32Max raises OverflowException;
      both are None here. */
  function ParseDigits(ds: string): (r: Option<int>)
    requires AllDigits(ds)
    ensures r.Some? <==> ds != [] && DigitsValue(ds) <= Int32Max
    ensures r.Some? ==> 0 <= r.value <= Int32Max
  {
    if ds == [] then None
    else if DigitsValue(ds) > Int32Max then None
    else Some(DigitsValue(ds))
  }

  /** Convert.ToInt32(Regex.Match(s, @"\d+").Value): the number written by the
      first run of digits in s, or None where the conversion throws. */
  function FirstNumber(s: string): Option<int>
  {
    ParseDigits(FirstDigitRun(s))
  }

  /** Decimal representation of a natural number, without leading zeros. */
  function NatToString(n: nat): (r: string)
    ensures AllDigits(r) && r != []
    ensures |r| > 1 ==> r[0] != '0'
  {
    if n < 10 then [('0' as int + n) as char]
    else NatToString(n / 10) + [('0' as int + n % 10) as char]
  }

  /** int.ToString(): a minus sign before the magnitude of a negative number. */
  function IntToString(n: int): string
  {
    if n < 0 then "-" + NatToString(-n) else NatToString(n)
  }

  /** Reading back the decimal representation gives the number. */
  lemma {:induction false} NatToStringValue(n: nat)
    ensures DigitsValue(NatToString(n)) == n
  {
    if n >= 10 {
      NatToStringValue(n / 10);
      var s := NatToString(n);
      assert s[..|s| - 1] == NatToString(n / 10);
    }
  }

  /** Digits followed by a non-digit (or nothing) are exactly the leading digits. */
  lemma {:induction false} LeadingDigitsOfRun(ds: string, rest: string)
    requires AllDigits(ds)
    requires rest == [] || !IsDigit(rest[0])
    ensures LeadingDigits(ds + rest) == ds
  {
    if ds != [] {
      assert (ds + rest)[1..] == ds[1..] + rest;
      LeadingDigitsOfRun(ds[1..], rest);
    }
  }

  /** A digit-free prefix does not change which run of digits comes first. */
  lemma {:induction false} FirstDigitRunSkips(p: string, s: string)
    requires forall i :: 0 <= i < |p| ==> !IsDigit(p[i])
    ensures FirstDigitRun(p + s) == FirstDigitRun(s)
  {
    if p == [] {
      assert p + s == s;
    } else {
      assert (p + s)[0] == p[0];
      assert (p + s)[1..] == p[1..] + s;
      FirstDigitRunSkips(p[1..], s);
    }
  }

  /** The number embedded between a digit-free prefix and a suffix that does not
      start with a digit is recovered by FirstNumber. */
  lemma FirstNumberOfEmbedded(p: string, n: nat, suffix: string)
    requires forall i :: 0 <= i < |p| ==> !IsDigit(p[i])
    requires suffix == [] || !IsDigit(suffix[0])
    requires n <= Int32Max
    ensures FirstNumber(p + NatToString(n) + suffix) == Some(n)
  {
    var ds := NatToString(n);
    assert p + ds + suffix == p + (ds + suffix);
    FirstDigitRunSkips(p, ds + suffix);
    LeadingDigitsOfRun(ds, suffix);
    NatToStringValue(n);
  }
}
