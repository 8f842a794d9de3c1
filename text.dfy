/**
 * The two string operations the plugin borrows from Rust's standard library:
 * `str::to_lowercase` on object keys (modelled for ASCII letters only) and
 * `u64::to_string`, which names every record node.
 */
module Text {

  predicate IsUpper(c: char) { 'A' <= c <= 'Z' }

  /** A string with no upper-case letter in it. */
  predicate IsLowercase(s: string) {
    forall i :: 0 <= i < |s| ==> !IsUpper(s[i])
  }

  function LowerChar(c: char): (d: char)
    ensures !IsUpper(d)
  {
    if IsUpper(c) then (c as int + 32) as char else c
  }

  /** Lower-cases every letter of `s`, left to right. */
  function Lower(s: string): (r: string)
    ensures |r| == |s|
    ensures IsLowercase(r)
  {
    if s == [] then [] else [LowerChar(s[0])] + Lower(s[1..])
  }

  /** Two characters that are the same letter in either case, or the same character. */
  predicate SameCharUpToCase(x: char, y: char) {
    || x == y
    || (IsUpper(x) && y as int == x as int + 32)
    || (IsUpper(y) && x as int == y as int + 32)
  }

  /** Independent definition of "equal ignoring ASCII case". */
  predicate SameUpToCase(a: string, b: string) {
    |a| == |b| && forall i :: 0 <= i < |a| ==> SameCharUpToCase(a[i], b[i])
  }

  lemma {:induction false} LowerAt(s: string, i: nat)
    requires i < |s|
    ensures Lower(s)[i] == LowerChar(s[i])
  {
    if i > 0 {
      LowerAt(s[1..], i - 1);
    }
  }

  /** A string without upper-case letters is its own lower-case form, and only such a string is. */
  lemma {:induction false} LowerFixesExactlyLowercase(s: string)
    ensures Lower(s) == s <==> IsLowercase(s)
  {
    if IsLowercase(s) {
      forall i | 0 <= i < |s| ensures Lower(s)[i] == s[i] {
        LowerAt(s, i);
      }
    }
  }

  /** Lower-casing twice is lower-casing once. */
  lemma LowerIdempotent(s: string)
    ensures Lower(Lower(s)) == Lower(s)
  {
  }

  /** Two keys lower-case to the same key exactly when they differ only in letter case. */
  lemma {:induction false} LowerEqualIff(a: string, b: string)
    ensures Lower(a) == Lower(b) <==> SameUpToCase(a, b)
  {
    if |a| == |b| {
      forall i | 0 <= i < |a|
        ensures Lower(a)[i] == Lower(b)[i] <==> SameCharUpToCase(a[i], b[i])
      {
        LowerAt(a, i);
        LowerAt(b, i);
      }
      if SameUpToCase(a, b) {
        assert forall i :: 0 <= i < |a| ==> Lower(a)[i] == Lower(b)[i];
      }
      if Lower(a) == Lower(b) {
        assert forall i :: 0 <= i < |a| ==> Lower(a)[i] == Lower(b)[i];
      }
    }
  }

  predicate IsDigit(c: char) { '0' <= c <= '9' }

  predicate AllDigits(s: string) {
    forall i :: 0 <= i < |s| ==> IsDigit(s[i])
  }

  function DigitChar(d: nat): (c: char)
    requires d < 10
    ensures IsDigit(c)
  {
    ('0' as int + d) as char
  }

  /** The decimal rendering of `n`, as `u64::to_string` writes it: no sign, no leading zero. */
  function DecimalString(n: nat): (s: string)
    ensures |s| >= 1 && AllDigits(s)
    ensures s[0] == '0' ==> s == "0" && n == 0
    decreases n
  {
    if n < 10 then [DigitChar(n)] else DecimalString(n / 10) + [DigitChar(n % 10)]
  }

  /** The number a string of decimal digits denotes (the reference reading of a rendering). */
  function DecimalValue(s: string): nat
    requires AllDigits(s)
  {
    if s == [] then 0 else DecimalValue(s[..|s| - 1]) * 10 + (s[|s| - 1] as int - '0' as int)
  }

  /** Reading back a rendered number gives the number. */
  lemma {:induction false} DecimalRoundTrip(n: nat)
    ensures DecimalValue(DecimalString(n)) == n
    decreases n
  {
    if n >= 10 {
      var s := DecimalString(n);
      assert s[..|s| - 1] == DecimalString(n / 10);
      DecimalRoundTrip(n / 10);
    }
  }

  /** Different record ids give different node names. */
  lemma DecimalStringInjective(a: nat, b: nat)
    ensures DecimalString(a) == DecimalString(b) <==> a == b
  {
    DecimalRoundTrip(a);
    DecimalRoundTrip(b);
  }
}
