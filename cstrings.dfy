/**
 * The C library and GLib string primitives the device code relies on:
 * prefix tests, ASCII digits, the decimal reading of atoi and strtol, the
 * "%d" rendering of a number, and the order strcmp puts strings in.
 */
module CStrings {

  /** g_str_has_prefix */
  predicate HasPrefix(s: string, prefix: string) {
    |prefix| <= |s| && s[..|prefix|] == prefix
  }

  /** g_ascii_isdigit */
  predicate IsDigit(c: char) {
    '0' <= c <= '9'
  }

  predicate AllDigits(s: string) {
    forall i :: 0 <= i < |s| ==> IsDigit(s[i])
  }

  function DigitValue(c: char): (d: nat)
    requires IsDigit(c)
    ensures d < 10
  {
    (c as int) - ('0' as int)
  }

  function DigitChar(d: nat): (c: char)
    requires d < 10
    ensures IsDigit(c) && DigitValue(c) == d
  {
    (('0' as int) + d) as char
  }

  /** The number atoi and strtol read from a string made only of decimal
      digits (0 for the empty string). */
  function DecimalValue(s: string): nat
    requires AllDigits(s)
  {
    if s == [] then 0 else 10 * DecimalValue(s[..|s| - 1]) + DigitValue(s[|s| - 1])
  }

  /** The "%d" rendering of a non-negative number, as the kernel uses it
      in the names of partitions. */
  function Decimal(n: nat): (r: string)
    ensures r != [] && AllDigits(r)
  {
    if n < 10 then [DigitChar(n)] else Decimal(n / 10) + [DigitChar(n % 10)]
  }

  /** Reading back the rendering of a number gives the number. */
  lemma {:induction false} DecimalRoundTrip(n: nat)
    ensures DecimalValue(Decimal(n)) == n
  {
    if n >= 10 {
      var d := Decimal(n);
      assert d[..|d| - 1] == Decimal(n / 10);
      DecimalRoundTrip(n / 10);
    }
  }

  /** The length of the run of digits strtol consumes at the front of s. */
  function LeadingDigitCount(s: string): (k: nat)
    ensures k <= |s| && AllDigits(s[..k])
    ensures k < |s| ==> !IsDigit(s[k])
  {
    if s == [] || !IsDigit(s[0]) then 0 else 1 + LeadingDigitCount(s[1..])
  }

  /** The leading run is the one that ends where the first non-digit is. */
  lemma LeadingDigitCountOf(digits: string, rest: string)
    requires AllDigits(digits)
    requires rest == [] || !IsDigit(rest[0])
    ensures LeadingDigitCount(digits + rest) == |digits|
  {
    var s := digits + rest;
    assert s[..|digits|] == digits;
  }

  /** strtol (s + start, &endp, 10), reading only a run of decimal digits
      from index start: the value of that run and the index just past it.
      The leading white space and sign strtol would also accept are not
      modelled; the caller passes the index of a digit. */
  method Strtol(s: string, start: nat) returns (value: nat, endp: nat)
    requires start <= |s|
    ensures endp == start + LeadingDigitCount(s[start..])
    ensures value == DecimalValue(s[start..][..endp - start])
  {
    value, endp := 0, start;
    while endp < |s| && IsDigit(s[endp])
      invariant start <= endp <= |s|
      invariant AllDigits(s[start..endp])
      invariant value == DecimalValue(s[start..endp])
    {
      assert s[start..endp + 1][..endp - start] == s[start..endp];
      value := 10 * value + DigitValue(s[endp]);
      endp := endp + 1;
    }
    assert s[start..] == s[start..endp] + s[endp..];
    LeadingDigitCountOf(s[start..endp], s[endp..]);
    assert s[start..][..endp - start] == s[start..endp];
  }

  /** The sign of strcmp (a, b). C strings hold no NUL, and comparing the
      UTF-8 bytes of two strings orders them as comparing their code points
      does, so the comparison is made on characters. */
  function Strcmp(a: string, b: string): (r: int)
    ensures -1 <= r <= 1
  {
    if a == [] && b == [] then 0
    else if a == [] then -1
    else if b == [] then 1
    else if a[0] < b[0] then -1
    else if b[0] < a[0] then 1
    else Strcmp(a[1..], b[1..])
  }

  /** The order g_list_sort (list, strcmp) puts strings in. */
  predicate StrLeq(a: string, b: string) {
    Strcmp(a, b) <= 0
  }

  /** strcmp answers 0 exactly for equal strings. */
  lemma {:induction false} StrcmpZero(a: string, b: string)
    ensures Strcmp(a, b) == 0 <==> a == b
  {
    if a != [] && b != [] && a[0] == b[0] {
      StrcmpZero(a[1..], b[1..]);
      assert a == [a[0]] + a[1..] && b == [b[0]] + b[1..];
    }
  }

  /** Swapping the arguments of strcmp negates it. */
  lemma {:induction false} StrcmpSwap(a: string, b: string)
    ensures Strcmp(a, b) == -Strcmp(b, a)
  {
    if a != [] && b != [] && a[0] == b[0] {
      StrcmpSwap(a[1..], b[1..]);
    }
  }

  /** Any two strings are ordered one way or the other. */
  lemma StrLeqTotal(a: string, b: string)
    ensures StrLeq(a, b) || StrLeq(b, a)
  {
    StrcmpSwap(a, b);
  }

  /** Strings ordered both ways are equal. */
  lemma StrLeqAntisymmetric(a: string, b: string)
    requires StrLeq(a, b) && StrLeq(b, a)
    ensures a == b
  {
    StrcmpSwap(a, b);
    StrcmpZero(a, b);
  }

  /** The strcmp order is transitive. */
  lemma {:induction false} StrLeqTransitive(a: string, b: string, c: string)
    requires StrLeq(a, b) && StrLeq(b, c)
    ensures StrLeq(a, c)
  {
    if a != [] && b != [] && c != [] && a[0] == b[0] && b[0] == c[0] {
      StrLeqTransitive(a[1..], b[1..], c[1..]);
    }
  }
}
